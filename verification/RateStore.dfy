/** The in-memory record store of the Docker sidecar's rate limiter. */
module RateStore {

  ghost predicate Sorted(s: seq<int>) {
    forall i, j :: 0 <= i < j < |s| ==> s[i] <= s[j]
  }

  /** How many leading records are below x, and how many are at most x. */
  function LowerBound(s: seq<int>, x: int): (i: nat)
    ensures i <= |s|
  {
    if s == [] || s[0] >= x then 0 else 1 + LowerBound(s[1..], x)
  }

  function UpperBound(s: seq<int>, x: int): nat {
    LowerBound(s, x + 1)
  }

  function Inserted(s: seq<int>, x: int): seq<int> {
    s[..LowerBound(s, x)] + [x] + s[LowerBound(s, x)..]
  }

  function Cut(s: seq<int>, from: int, to: int): seq<int> {
    s[..LowerBound(s, from)] + s[UpperBound(s, to)..]
  }

  lemma {:induction false} LowerBoundSplits(s: seq<int>, x: int)
    requires Sorted(s)
    ensures forall i :: 0 <= i < |s| ==> (s[i] < x <==> i < LowerBound(s, x))
  {
    if s != [] && s[0] < x {
      LowerBoundSplits(s[1..], x);
      assert forall i :: 0 < i < |s| ==> s[i] == s[1..][i - 1];
    }
  }

  /** Only the lower bound splits a sorted sequence at x. */
  lemma {:induction false} LowerBoundUnique(s: seq<int>, x: int, i: nat)
    requires i <= |s|
    requires forall k :: 0 <= k < |s| ==> (s[k] < x <==> k < i)
    ensures i == LowerBound(s, x)
  {
    if s != [] && s[0] < x {
      assert forall k :: 0 <= k < |s| - 1 ==> s[1..][k] == s[k + 1];
      LowerBoundUnique(s[1..], x, i - 1);
    }
  }

  lemma {:induction false} LowerBoundGrows(s: seq<int>, x: int, y: int)
    requires x <= y
    ensures LowerBound(s, x) <= LowerBound(s, y)
  {
    if s != [] {
      LowerBoundGrows(s[1..], x, y);
    }
  }

  /** Insertion keeps the records sorted and adds exactly the new one. */
  lemma InsertedAddsOne(s: seq<int>, x: int)
    requires Sorted(s)
    ensures Sorted(Inserted(s, x))
    ensures multiset(Inserted(s, x)) == multiset(s) + multiset{x}
  {
    LowerBoundSplits(s, x);
    InsertedAt(s, x, LowerBound(s, x));
  }

  lemma InsertedAt(s: seq<int>, x: int, i: nat)
    requires Sorted(s) && i <= |s|
    requires forall k :: 0 <= k < |s| ==> (s[k] < x <==> k < i)
    ensures Sorted(s[..i] + [x] + s[i..])
    ensures multiset(s[..i] + [x] + s[i..]) == multiset(s) + multiset{x}
  {
    BetweenIsSorted(s[..i], x, s[i..]);
    assert s == s[..i] + s[i..];
  }

  lemma BetweenIsSorted(a: seq<int>, x: int, b: seq<int>)
    requires Sorted(a) && Sorted(b)
    requires (forall k :: 0 <= k < |a| ==> a[k] < x) && (forall k :: 0 <= k < |b| ==> x <= b[k])
    ensures Sorted(a + [x] + b)
  {
  }

  /** The records a range deletion is meant to leave, in order. */
  function Outside(s: seq<int>, from: int, to: int): seq<int> {
    if s == [] then []
    else (if from <= s[0] <= to then [] else [s[0]]) + Outside(s[1..], from, to)
  }

  lemma {:induction false} OutsideConcat(a: seq<int>, b: seq<int>, from: int, to: int)
    ensures Outside(a + b, from, to) == Outside(a, from, to) + Outside(b, from, to)
  {
    if a == [] {
      assert a + b == b;
    } else {
      assert (a + b)[1..] == a[1..] + b;
      OutsideConcat(a[1..], b, from, to);
      var head := if from <= a[0] <= to then [] else [a[0]];
      var x, y := Outside(a[1..], from, to), Outside(b, from, to);
      assert head + (x + y) == head + x + y;
    }
  }

  lemma {:induction false} OutsideAll(s: seq<int>, from: int, to: int)
    requires forall i :: 0 <= i < |s| ==> s[i] < from || s[i] > to
    ensures Outside(s, from, to) == s
  {
    if s != [] {
      OutsideAll(s[1..], from, to);
    }
  }

  lemma {:induction false} OutsideNone(s: seq<int>, from: int, to: int)
    requires forall i :: 0 <= i < |s| ==> from <= s[i] <= to
    ensures Outside(s, from, to) == []
  {
    if s != [] {
      OutsideNone(s[1..], from, to);
    }
  }

  /** For from <= to, deletion removes exactly the records r with from <= r <= to. */
  lemma CutRemovesRange(s: seq<int>, from: int, to: int)
    requires Sorted(s) && from <= to
    ensures Cut(s, from, to) == Outside(s, from, to)
  {
    LowerBoundSplits(s, from);
    LowerBoundSplits(s, to + 1);
    LowerBoundGrows(s, from, to + 1);
    CutBetween(s, from, to, LowerBound(s, from), UpperBound(s, to));
  }

  lemma CutBetween(s: seq<int>, from: int, to: int, i: nat, j: nat)
    requires i <= j <= |s|
    requires forall k :: 0 <= k < |s| ==> (s[k] < from <==> k < i) && (s[k] <= to <==> k < j)
    ensures Outside(s, from, to) == s[..i] + s[j..]
  {
    OutsideOfThree(s[..i], s[i..j], s[j..], from, to);
    assert s == s[..i] + (s[i..j] + s[j..]);
  }

  lemma OutsideOfThree(a: seq<int>, b: seq<int>, c: seq<int>, from: int, to: int)
    requires forall k :: 0 <= k < |a| ==> a[k] < from || a[k] > to
    requires forall k :: 0 <= k < |b| ==> from <= b[k] <= to
    requires forall k :: 0 <= k < |c| ==> c[k] < from || c[k] > to
    ensures Outside(a + (b + c), from, to) == a + c
  {
    hide Outside;
    OutsideConcat(a, b + c, from, to);
    OutsideConcat(b, c, from, to);
    OutsideAll(a, from, to);
    OutsideNone(b, from, to);
    OutsideAll(c, from, to);
    assert [] + c == c;
  }

  /** In general deletion is exact just when no record lies strictly between a swapped pair of bounds. */
  lemma CutExactly(s: seq<int>, from: int, to: int)
    requires Sorted(s)
    ensures Cut(s, from, to) == Outside(s, from, to) <==> forall k :: 0 <= k < |s| ==> !(to < s[k] < from)
  {
    if from <= to {
      CutRemovesRange(s, from, to);
    } else {
      LowerBoundSplits(s, from);
      LowerBoundSplits(s, to + 1);
      LowerBoundGrows(s, to + 1, from);
      OutsideAll(s, from, to);
      SwappedCut(s, from, to, LowerBound(s, from), UpperBound(s, to));
    }
  }

  lemma SwappedCut(s: seq<int>, from: int, to: int, i: nat, j: nat)
    requires j <= i <= |s|
    requires forall k :: 0 <= k < |s| ==> (s[k] < from <==> k < i) && (s[k] <= to <==> k < j)
    ensures s[..i] + s[j..] == s <==> forall k :: 0 <= k < |s| ==> !(to < s[k] < from)
  {
    assert |s[..i] + s[j..]| == |s| + (i - j);
    if j < i {
      assert to < s[j] < from;
    }
  }

  lemma CutKeepsSorted(s: seq<int>, from: int, to: int)
    requires Sorted(s) && from <= to
    ensures Sorted(Cut(s, from, to))
  {
    LowerBoundGrows(s, from, to + 1);
  }

  /** A buffer after n elements at src have been copied over those at dst. */
  function CopiedOver(was: seq<int>, dst: nat, src: nat, n: nat): seq<int>
    requires dst + n <= |was| && src + n <= |was|
  {
    was[..dst] + was[src..src + n] + was[dst + n..]
  }

  /** Go's copy within one buffer: the n elements at src move to dst, overlapping or not. */
  method CopyWithin(a: array<int>, dst: nat, src: nat, n: nat)
    requires dst + n <= a.Length && src + n <= a.Length
    modifies a
    ensures a[..] == CopiedOver(old(a[..]), dst, src, n)
  {
    if dst <= src {
      CopyForward(a, dst, src, n);
    } else {
      CopyBackward(a, dst, src, n);
    }
  }

  /** The first i elements, counted from the front or from the back, have been copied. */
  ghost predicate CopiedSoFar(a: seq<int>, was: seq<int>, from: nat, to: nat, shift: int)
  {
    |a| == |was| && 0 <= from + shift && to + shift <= |was| && from <= to
    && forall m {:trigger a[m]} :: 0 <= m < |a| ==> a[m] == if from <= m < to then was[m + shift] else was[m]
  }

  method CopyForward(a: array<int>, dst: nat, src: nat, n: nat)
    requires dst + n <= a.Length && src + n <= a.Length && dst <= src
    modifies a
    ensures a[..] == CopiedOver(old(a[..]), dst, src, n)
  {
    ghost var was := a[..];
    for i := 0 to n
      invariant CopiedSoFar(a[..], was, dst, dst + i, src - dst)
    {
      var x := a[src + i];
      assert x == a[..][src + i] == was[src + i];
      a[dst + i] := x;
    }
    CopiedAll(a[..], was, dst, src, n);
  }

  lemma CopiedAll(a: seq<int>, was: seq<int>, dst: nat, src: nat, n: nat)
    requires dst + n <= |was| && src + n <= |was| && CopiedSoFar(a, was, dst, dst + n, src - dst)
    ensures a == CopiedOver(was, dst, src, n)
  {
  }

  method CopyBackward(a: array<int>, dst: nat, src: nat, n: nat)
    requires dst + n <= a.Length && src + n <= a.Length && src < dst
    modifies a
    ensures a[..] == CopiedOver(old(a[..]), dst, src, n)
  {
    ghost var was := a[..];
    for i := n downto 0
      invariant CopiedSoFar(a[..], was, dst + i, dst + n, src - dst)
    {
      var x := a[src + i];
      assert x == a[..][src + i] == was[src + i];
      a[dst + i] := x;
    }
    CopiedAll(a[..], was, dst, src, n);
  }

  /** sort.Search: the first position from which f holds, for an f that never turns false again. */
  method Search(n: nat, f: nat -> bool) returns (r: nat)
    requires forall i: nat, j: nat :: i <= j < n && f(i) ==> f(j)
    ensures r <= n
    ensures forall i: nat :: i < n ==> (f(i) <==> r <= i)
  {
    var i: nat, j: nat := 0, n;
    while i < j
      invariant i <= j <= n
      invariant forall k: nat :: k < i ==> !f(k)
      invariant forall k: nat :: j <= k < n ==> f(k)
    {
      var h := (i + j) / 2;
      if !f(h) {
        i := h + 1;
      } else {
        j := h;
      }
    }
    r := i;
  }

  /** sort.Search for the first record that is at least x. */
  method SearchAtLeast(slice: seq<int>, x: int) returns (idx: nat)
    requires Sorted(slice)
    ensures idx == LowerBound(slice, x)
  {
    var atLeast := (i: nat) => i >= |slice| || slice[i] >= x;
    idx := Search(|slice|, atLeast);
    assert forall k: nat :: k < |slice| ==> (atLeast(k) <==> slice[k] >= x);
    LowerBoundUnique(slice, x, idx);
  }

  /** sort.Search for the first record above x. */
  method SearchAbove(slice: seq<int>, x: int) returns (idx: nat)
    requires Sorted(slice)
    ensures idx == UpperBound(slice, x)
  {
    var above := (i: nat) => i >= |slice| || slice[i] > x;
    idx := Search(|slice|, above);
    assert forall k: nat :: k < |slice| ==> (above(k) <==> slice[k] > x);
    LowerBoundUnique(slice, x + 1, idx);
  }

  /** A buffer of the given length that starts with the records. */
  method Backing(slice: seq<int>, length: nat) returns (buffer: array<int>)
    requires |slice| <= length
    ensures fresh(buffer) && buffer.Length == length && buffer[..|slice|] == slice
  {
    buffer := new int[length](i requires 0 <= i => if i < |slice| then slice[i] else 0);
  }

  /** The part of AddRecord that shifts the buffer. */
  method InsertInPlace(slice: seq<int>, unix: int) returns (r: seq<int>)
    requires Sorted(slice)
    ensures r == Inserted(slice, unix)
  {
    var idx := SearchAtLeast(slice, unix);
    var buffer := Backing(slice, |slice| + 1);
    ghost var was := buffer[..];
    CopyWithin(buffer, idx + 1, idx, |slice| - idx);
    buffer[idx] := unix;
    r := buffer[..];
    ShiftMakesRoom(slice, was, unix, idx);
  }

  lemma ShiftMakesRoom(slice: seq<int>, was: seq<int>, x: int, i: nat)
    requires i <= |slice| && |was| == |slice| + 1 && was[..|slice|] == slice
    ensures CopiedOver(was, i + 1, i, |slice| - i)[i := x] == slice[..i] + [x] + slice[i..]
  {
  }

  /** The part of RemoveOldRecords that closes the gap: append(slice[:start], slice[end:]...). */
  method CutInPlace(slice: seq<int>, from: int, to: int) returns (r: seq<int>)
    requires Sorted(slice)
    ensures r == Cut(slice, from, to)
  {
    var start := SearchAtLeast(slice, from);
    var end := SearchAbove(slice, to);
    var kept := start + (|slice| - end);
    var buffer := Backing(slice, if kept > |slice| then kept else |slice|);
    ghost var was := buffer[..];
    CopyWithin(buffer, start, end, |slice| - end);
    r := buffer[..kept];
    ShiftClosesGap(slice, was, start, end);
  }

  lemma ShiftClosesGap(slice: seq<int>, was: seq<int>, i: nat, j: nat)
    requires i <= |slice| && j <= |slice| <= |was| && i + |slice| - j <= |was| && was[..|slice|] == slice
    ensures CopiedOver(was, i, j, |slice| - j)[..i + |slice| - j] == slice[..i] + slice[j..]
  {
  }

  datatype Store = Store(data: map<string, seq<int>>, expires: map<string, int>) {
    ghost predicate Valid() {
      forall key :: key in data ==> Sorted(data[key])
    }

    function Records(key: string): seq<int> {
      if key in data then data[key] else []
    }

    predicate Expired(key: string, now: int) {
      key in expires && now > expires[key]
    }

    /** isExpired deletes what has expired. */
    function Purged(key: string, now: int): Store {
      if Expired(key, now) then Store(data - {key}, expires - {key}) else this
    }

    function Added(key: string, unix: int, now: int): Store {
      var p := Purged(key, now);
      p.(data := p.data[key := Inserted(p.Records(key), unix)])
    }

    function Count(key: string, now: int): nat {
      |Purged(key, now).Records(key)|
    }

    function Removed(key: string, from: int, to: int, now: int): Store {
      if Expired(key, now) then Purged(key, now)
      else this.(data := data[key := Cut(Records(key), from, to)])
    }

    function Expiring(key: string, ttl: int, now: int): Store {
      this.(expires := expires[key := now + ttl])
    }
  }

  const EMPTY := Store(map[], map[])

  /** InMemory. Each method is one critical section; now is the clock reading of its expiry check. */
  class InMemory {
    var data: map<string, seq<int>>
    var expires: map<string, int>

    function View(): Store
      reads this
    {
      Store(data, expires)
    }

    constructor ()
      ensures View() == EMPTY && View().Valid()
    {
      data, expires := map[], map[];
    }

    method IsExpired(key: string, now: int) returns (expired: bool)
      modifies this
      ensures expired == old(View()).Expired(key, now)
      ensures View() == old(View()).Purged(key, now)
    {
      if key in expires && now > expires[key] {
        data := data - {key};
        expires := expires - {key};
        return true;
      }
      expired := false;
    }

    method AddRecord(key: string, unix: int, now: int)
      requires View().Valid()
      modifies this
      ensures View() == old(View()).Added(key, unix, now)
      ensures View().Valid()
    {
      var expired := IsExpired(key, now);
      var slice := if key in data then data[key] else [];
      slice := InsertInPlace(slice, unix);
      InsertedAddsOne(old(View()).Purged(key, now).Records(key), unix);
      data := data[key := slice];
    }

    method CountRecords(key: string, now: int) returns (count: nat)
      modifies this
      ensures count == old(View()).Count(key, now)
      ensures View() == old(View()).Purged(key, now)
    {
      var expired := IsExpired(key, now);
      if expired {
        return 0;
      }
      count := if key in data then |data[key]| else 0;
    }

    method RemoveOldRecords(key: string, from: int, to: int, now: int)
      requires View().Valid()
      modifies this
      ensures View() == old(View()).Removed(key, from, to, now)
      ensures from <= to ==> View().Valid()
    {
      var expired := IsExpired(key, now);
      if expired {
        return;
      }
      var slice := if key in data then data[key] else [];
      if from <= to {
        CutKeepsSorted(slice, from, to);
      }
      slice := CutInPlace(slice, from, to);
      data := data[key := slice];
    }

    method ExpireKey(key: string, ttl: int, now: int)
      modifies this
      ensures View() == old(View()).Expiring(key, ttl, now)
    {
      expires := expires[key := now + ttl];
    }
  }
}
