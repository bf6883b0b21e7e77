/** Round robin over a list of n entries, as a sequence of picked positions. */
module RoundRobin {

  /** The first k positions picked when the cursor starts at c and each pick moves it on by one. */
  function PicksFrom(c: nat, n: nat, k: nat): (picks: seq<nat>)
    requires n > 0
    ensures |picks| == k
    decreases k
  {
    if k == 0 then [] else [c % n] + PicksFrom((c + 1) % n, n, k - 1)
  }

  /** Quotient and remainder are determined by what they add up to. */
  lemma DivModUnique(x: nat, q: nat, r: nat, n: nat)
    requires x == q * n + r && r < n
    ensures x / n == q && x % n == r
  {
    var t := x / n - q;
    assert n * t == r - x % n by {
      assert x == n * (x / n) + x % n;
      assert n * (x / n - q) == n * (x / n) - n * q;
    }
    MulAwayFromZero(n, t);
  }

  lemma MulAwayFromZero(n: nat, t: int)
    ensures t >= 1 ==> n * t >= n
    ensures t <= -1 ==> n * t <= -(n as int)
  {
    if t >= 1 {
      assert n * t == n + n * (t - 1);
    } else if t <= -1 {
      assert n * t == -(n as int) - n * (-t - 1);
    }
  }

  lemma Quotient(x: nat, n: nat)
    requires n > 0
    ensures x == x / n * n + x % n && x % n < n
  {
  }

  lemma Distributes(q: int, r: int, n: int)
    ensures (q + r) * n == q * n + r * n
  {
  }

  lemma ModShift(a: nat, i: nat, n: nat)
    requires n > 0
    ensures (a % n + i) % n == (a + i) % n
  {
    Quotient(a, n);
    Quotient(a % n + i, n);
    Distributes(a / n, (a % n + i) / n, n);
    DivModUnique(a + i, a / n + (a % n + i) / n, (a % n + i) % n, n);
  }

  lemma SmallMod(x: nat, n: nat)
    requires x < 2 * n
    ensures x % n == if x < n then x else x - n
  {
    if x < n {
      DivModUnique(x, 0, x, n);
    } else {
      DivModUnique(x, 1, x - n, n);
    }
  }

  lemma PicksCons(c: nat, n: nat, k: nat)
    requires c < n
    ensures PicksFrom(c, n, k + 1) == [c] + PicksFrom((c + 1) % n, n, k)
  {
    SmallMod(c, n);
  }

  /** Pick number i lands on position (c + i) mod n. */
  lemma {:induction false} PickAt(c: nat, n: nat, k: nat, i: nat)
    requires n > 0 && i < k
    ensures PicksFrom(c, n, k)[i] == (c + i) % n
    decreases k
  {
    if i > 0 {
      PickAt((c + 1) % n, n, k - 1, i - 1);
      ModShift(c + 1, i - 1, n);
    }
  }

  function Count(picks: seq<nat>, p: nat): nat {
    if picks == [] then 0
    else Count(picks[..|picks| - 1], p) + if picks[|picks| - 1] == p then 1 else 0
  }

  /** Position p is next reached (p - c) mod n picks after the cursor. */
  function Distance(c: nat, p: nat, n: nat): nat
    requires n > 0 && p < n
  {
    (p + n - c % n) % n
  }

  lemma DistanceReaches(c: nat, p: nat, n: nat, k: nat)
    requires n > 0 && p < n
    ensures Distance(c, p, n) < n
    ensures (c + k) % n == p <==> k % n == Distance(c, p, n)
  {
    var a, b := c % n, k % n;
    ModShift(c, k, n);
    ModShift(k, a, n);
    SmallMod(b + a, n);
    SmallMod(p + n - a, n);
  }

  lemma DistanceLands(c: nat, p: nat, n: nat)
    requires n > 0 && p < n
    ensures Distance(c, p, n) < n && (c + Distance(c, p, n)) % n == p
  {
    var d := Distance(c, p, n);
    DistanceReaches(c, p, n, d);
    SmallMod(d, n);
  }

  lemma {:induction false} PicksSnoc(c: nat, n: nat, k: nat)
    requires n > 0
    ensures PicksFrom(c, n, k + 1) == PicksFrom(c, n, k) + [(c + k) % n]
  {
    var longer, shorter := PicksFrom(c, n, k + 1), PicksFrom(c, n, k) + [(c + k) % n];
    forall i | 0 <= i < |longer| ensures longer[i] == shorter[i] {
      PickAt(c, n, k + 1, i);
      if i < k {
        PickAt(c, n, k, i);
      }
    }
  }

  lemma CountSnoc(c: nat, n: nat, k: nat, p: nat)
    requires n > 0
    ensures Count(PicksFrom(c, n, k + 1), p) == Count(PicksFrom(c, n, k), p) + if (c + k) % n == p then 1 else 0
  {
    PicksSnoc(c, n, k);
    var picks := PicksFrom(c, n, k + 1);
    assert picks[..|picks| - 1] == PicksFrom(c, n, k);
  }

  /** How often position p has been picked when quotient and remainder of the number of picks are q and r. */
  function Share(q: nat, r: nat, d: nat): nat {
    q + if d < r then 1 else 0
  }

  lemma ShareGrows(c: nat, n: nat, k: nat, p: nat)
    requires n > 0 && p < n
    ensures Share((k + 1) / n, (k + 1) % n, Distance(c, p, n))
            == Share(k / n, k % n, Distance(c, p, n)) + if (c + k) % n == p then 1 else 0
  {
    hide Distance;
    DistanceReaches(c, p, n, k);
    DivModStep(k, n);
  }

  /** Among any k picks in a row every position is chosen floor(k / n) times, and the first k mod n once more. */
  lemma {:induction false} Fair(c: nat, n: nat, k: nat, p: nat)
    requires n > 0 && p < n
    ensures Count(PicksFrom(c, n, k), p) == Share(k / n, k % n, Distance(c, p, n))
  {
    hide Share, Distance;
    if k == 0 {
      NoShare(c, p, n);
    } else {
      Fair(c, n, k - 1, p);
      CountSnoc(c, n, k - 1, p);
      ShareGrows(c, n, k - 1, p);
    }
  }

  lemma NoShare(c: nat, p: nat, n: nat)
    requires n > 0 && p < n
    ensures Share(0 / n, 0 % n, Distance(c, p, n)) == 0
  {
    DivModUnique(0, 0, 0, n);
  }

  lemma DivModStep(k: nat, n: nat)
    requires n > 0
    ensures if k % n == n - 1 then (k + 1) % n == 0 && (k + 1) / n == k / n + 1
            else (k + 1) % n == k % n + 1 && (k + 1) / n == k / n
  {
    var q, r := k / n, k % n;
    Quotient(k, n);
    if r == n - 1 {
      Distributes(q, 1, n);
      DivModUnique(k + 1, q + 1, 0, n);
    } else {
      DivModUnique(k + 1, q, r + 1, n);
    }
  }

  /** Some pick among the first n is position p, and it is the only one. */
  lemma VisitsAll(c: nat, n: nat, p: nat)
    requires n > 0 && p < n
    ensures Distance(c, p, n) < n && PicksFrom(c, n, n)[Distance(c, p, n)] == p
    ensures forall i :: 0 <= i < Distance(c, p, n) ==> PicksFrom(c, n, n)[i] != p
  {
    var d := Distance(c, p, n);
    DistanceLands(c, p, n);
    PickAt(c, n, n, d);
    forall i | 0 <= i < d ensures PicksFrom(c, n, n)[i] != p {
      DistanceReaches(c, p, n, i);
      SmallMod(i, n);
      PickAt(c, n, n, i);
    }
  }
}
