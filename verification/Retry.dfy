/** The retry layer of the sidecar: which calls it makes, how long it waits, and what it returns. */
module Retry {
  import opened Options
  import opened Errors

  const INT64_LIMIT: nat := 0x8000_0000_0000_0000

  const EXPONENTIAL := "exponential"

  /** overflowCast is what the platform yields when a float64 outside the int64 range is converted. */
  datatype Policy = Policy(attempts: int, backoffType: string, baseInterval: int, overflowCast: int)

  predicate FitsInt64(x: int) {
    -(INT64_LIMIT as int) <= x < INT64_LIMIT
  }

  /** Two's complement wrap-around of 64-bit arithmetic. */
  function Int64(x: int): (r: int)
    ensures FitsInt64(r)
    ensures FitsInt64(x) ==> r == x
  {
    (x + INT64_LIMIT) % (2 * INT64_LIMIT) - INT64_LIMIT
  }

  function Pow2(k: nat): (p: nat)
    ensures p >= 1
  {
    if k == 0 then 1 else 2 * Pow2(k - 1)
  }

  /** Conversion to time.Duration of math.Pow(2, k), a float64 that is exact as long as it is finite. */
  function CastPow2(p: Policy, k: nat): int {
    if Pow2(k) < INT64_LIMIT then Pow2(k) else p.overflowCast
  }

  function Backoff(p: Policy, retryNumber: int): int {
    var n := if retryNumber < 1 then 1 else retryNumber;
    if p.backoffType != EXPONENTIAL then Int64(n * p.baseInterval)
    else Int64(CastPow2(p, n - 1) * p.baseInterval)
  }

  /** The wait the policy names, in unbounded arithmetic. */
  function Intended(p: Policy, n: nat): int
    requires n >= 1
  {
    if p.backoffType != EXPONENTIAL then n * p.baseInterval else Pow2(n - 1) * p.baseInterval
  }

  function TotalBackoff(p: Policy, k: nat): int {
    if k == 0 then 0 else TotalBackoff(p, k - 1) + Backoff(p, k)
  }

  lemma MulGrows(a: nat, b: nat, c: nat)
    requires a <= b
    ensures a * c <= b * c
  {
  }

  /** A wait is the intended one exactly when that one is a 64-bit duration. */
  lemma BackoffExact(p: Policy, n: nat)
    requires n >= 1 && p.baseInterval > 0
    ensures Backoff(p, n) == Intended(p, n) <==> Intended(p, n) < INT64_LIMIT
  {
  }

  lemma {:induction false} Pow2Grows(j: nat, k: nat)
    requires j <= k
    ensures Pow2(j) <= Pow2(k)
  {
    if j < k {
      Pow2Grows(j, k - 1);
    }
  }

  lemma IntendedGrows(p: Policy, j: nat, k: nat)
    requires 1 <= j <= k && p.baseInterval > 0
    ensures Intended(p, j) <= Intended(p, k)
  {
    Pow2Grows(j - 1, k - 1);
    MulGrows(Pow2(j - 1), Pow2(k - 1), p.baseInterval);
    MulGrows(j, k, p.baseInterval);
  }

  /**
   From the 64th exponential wait on the power of two is no int64, and its conversion is what the platform makes of it.
   A number below 1 counts as 1.
   */
  lemma FarWaits(p: Policy, n: int)
    ensures n < 1 ==> Backoff(p, n) == Backoff(p, 1)
    ensures p.backoffType == "exponential" && n >= 64 ==> Backoff(p, n) == Int64(p.overflowCast * p.baseInterval)
  {
    if n >= 64 {
      assert Pow2(8) == 256 && Pow2(16) == 0x1_0000 && Pow2(24) == 0x100_0000 && Pow2(32) == 0x1_0000_0000;
      assert Pow2(40) == 0x100_0000_0000 && Pow2(48) == 0x1_0000_0000_0000 && Pow2(56) == 0x100_0000_0000_0000;
      assert Pow2(63) == INT64_LIMIT;
      Pow2Grows(63, n - 1);
    }
  }

  lemma DoublingStep(b: int, x: int)
    ensures b * (2 * x - 1) == b * (x - 1) + x * b
  {
  }

  lemma TriangularStep(b: int, k: int)
    ensures b * (k * (k + 1)) == b * ((k - 1) * k) + 2 * (k * b)
  {
  }

  /** As long as the k-th wait fits, the first k waits add up to the textbook totals. */
  lemma {:induction false} TotalBackoffClosed(p: Policy, k: nat)
    requires p.baseInterval > 0
    requires k >= 1 ==> Intended(p, k) < INT64_LIMIT
    ensures p.backoffType == "exponential" ==> TotalBackoff(p, k) == p.baseInterval * (Pow2(k) - 1)
    ensures p.backoffType != "exponential" ==> 2 * TotalBackoff(p, k) == p.baseInterval * (k * (k + 1))
  {
    if k > 0 {
      if k > 1 {
        IntendedGrows(p, k - 1, k);
      }
      TotalBackoffClosed(p, k - 1);
      BackoffExact(p, k);
      DoublingStep(p.baseInterval, Pow2(k - 1));
      TriangularStep(p.baseInterval, k);
    }
  }

  /**
   The documentation calls linear back-off a fixed interval between attempts. The code multiplies by the number of
   the retry, so the waits are all the base interval exactly when there is at most one of them.
   */
  lemma LinearWaitsAreFixedIff(p: Policy)
    requires p.backoffType != EXPONENTIAL && 0 < p.baseInterval < INT64_LIMIT
    ensures (forall n :: 1 <= n < p.attempts ==> Backoff(p, n) == p.baseInterval) <==> p.attempts <= 2
  {
    SecondWaitDiffers(p);
  }

  lemma SecondWaitDiffers(p: Policy)
    requires p.backoffType != EXPONENTIAL && 0 < p.baseInterval < INT64_LIMIT
    ensures Backoff(p, 2) != p.baseInterval
  {
  }

  lemma LinearExample()
    ensures Backoff(Policy(3, "linear", 100, 0), 1) == 100 && Backoff(Policy(3, "linear", 100, 0), 2) == 200
  {
    assert "linear"[0] == 'l' && EXPONENTIAL[0] == 'e';
  }

  /** A base interval of 2^62 nanoseconds, about 146 years: the second wait is negative, so it does not wait at all. */
  lemma OverflowExample()
    ensures Backoff(Policy(3, "linear", 0x4000_0000_0000_0000, 0), 2) == -0x8000_0000_0000_0000
  {
    assert "linear"[0] == 'l' && EXPONENTIAL[0] == 'e';
  }

  type Layer<!S> = S -> (S, Failure)

  /** Waiting out a back-off: the world afterwards, and the context's error if its deadline came first. */
  type Pause<!S> = (S, int) -> (S, Failure)

  datatype Call<S> = Call(before: S, after: S, err: Failure)

  /** What the layer did: the final world and answer, the calls it made and the waits it began. */
  datatype Outcome<S> = Outcome(state: S, err: Failure, calls: seq<Call<S>>, waits: seq<int>)

  function RetryFrom<S>(p: Policy, next: Layer<S>, pause: Pause<S>, attempt: int, s: S): Outcome<S>
    requires attempt <= p.attempts
    decreases p.attempts - attempt
  {
    var (s1, err) := next(s);
    var call := Call(s, s1, err);
    if err.None? || !IsEstablish(err) || attempt == p.attempts then Outcome(s1, err, [call], [])
    else
      var wait := Backoff(p, attempt);
      var (s2, done) := pause(s1, wait);
      if done.Some? then Outcome(s2, Wrap(Timeout, done), [call], [wait])
      else
        var rest := RetryFrom(p, next, pause, attempt + 1, s2);
        rest.(calls := [call] + rest.calls, waits := [wait] + rest.waits)
  }

  function Run<S>(p: Policy, next: Layer<S>, pause: Pause<S>, s: S): Outcome<S> {
    if p.attempts <= 1 then
      var (s1, err) := next(s);
      Outcome(s1, err, [Call(s, s1, err)], [])
    else RetryFrom(p, next, pause, 1, s)
  }

  /** retryMiddleware.Handle. */
  method Handle<S>(p: Policy, next: Layer<S>, pause: Pause<S>, s: S) returns (end: S, err: Failure)
    ensures end == Run(p, next, pause, s).state && err == Run(p, next, pause, s).err
  {
    end := s;
    if p.attempts <= 1 {
      var (after, e) := next(end);
      return after, e;
    }
    ghost var goal := Run(p, next, pause, s);
    var lastErr: Failure := None;
    var attempt := 1;
    while attempt <= p.attempts
      invariant 1 <= attempt <= p.attempts
      invariant RetryFrom(p, next, pause, attempt, end).state == goal.state
      invariant RetryFrom(p, next, pause, attempt, end).err == goal.err
      decreases p.attempts - attempt
    {
      var (after, e) := next(end);
      end := after;
      if e.None? {
        return end, None;
      }
      lastErr := e;
      if !IsEstablish(e) {
        return end, e;
      }
      if attempt == p.attempts {
        return end, e;
      }
      var (woken, done) := pause(end, Backoff(p, attempt));
      end := woken;
      if done.Some? {
        return end, Wrap(Timeout, done);
      }
      attempt := attempt + 1;
    }
    err := lastErr;
  }

  function Budget(p: Policy): nat {
    if p.attempts <= 1 then 1 else p.attempts
  }

  /** The calls follow one another through the waits, and none but the last was worth stopping at. */
  ghost predicate Chained<S>(p: Policy, next: Layer<S>, pause: Pause<S>, first: int, s: S, o: Outcome<S>) {
    && o.calls != [] && o.calls[0].before == s
    && (forall i :: 0 <= i < |o.calls| ==> next(o.calls[i].before) == (o.calls[i].after, o.calls[i].err))
    && (forall i :: 0 <= i < |o.calls| - 1 ==>
          && IsEstablish(o.calls[i].err)
          && pause(o.calls[i].after, Backoff(p, first + i)) == (o.calls[i + 1].before, None))
    && |o.calls| - 1 <= |o.waits| <= |o.calls|
    && (forall i :: 0 <= i < |o.waits| ==> o.waits[i] == Backoff(p, first + i))
  }

  /** Either the last wait was cut short by the deadline, or the answer is that of the last call. */
  ghost predicate Ended<S>(pause: Pause<S>, budget: nat, o: Outcome<S>)
    requires o.calls != []
  {
    var last := o.calls[|o.calls| - 1];
    if |o.waits| == |o.calls| then
      var (woken, done) := pause(last.after, o.waits[|o.waits| - 1]);
      && IsEstablish(last.err) && |o.calls| < budget
      && done.Some? && o.err == Wrap(Timeout, done) && o.state == woken
    else
      && o.err == last.err && o.state == last.after
      && (!IsEstablish(last.err) || |o.calls| == budget)
  }

  /** One more call and wait in front of a chained outcome. */
  lemma ChainedCons<S>(p: Policy, next: Layer<S>, pause: Pause<S>, first: int, s: S, rest: Outcome<S>)
    requires IsEstablish(next(s).1) && pause(next(s).0, Backoff(p, first)).1.None?
    requires Chained(p, next, pause, first + 1, pause(next(s).0, Backoff(p, first)).0, rest)
    ensures Chained(p, next, pause, first, s, rest.(
                    calls := [Call(s, next(s).0, next(s).1)] + rest.calls,
                    waits := [Backoff(p, first)] + rest.waits))
  {
    var calls := [Call(s, next(s).0, next(s).1)] + rest.calls;
    var waits := [Backoff(p, first)] + rest.waits;
    forall i | 0 <= i < |calls| - 1
      ensures IsEstablish(calls[i].err)
      ensures pause(calls[i].after, Backoff(p, first + i)) == (calls[i + 1].before, None)
    {
      if i > 0 {
        assert calls[i] == rest.calls[i - 1] && calls[i + 1] == rest.calls[i];
        assert first + i == first + 1 + (i - 1);
      }
    }
    forall i | 0 <= i < |waits| ensures waits[i] == Backoff(p, first + i) {
      if i > 0 {
        assert waits[i] == rest.waits[i - 1];
        assert first + i == first + 1 + (i - 1);
      }
    }
  }

  lemma {:induction false} RetryFromContract<S>(p: Policy, next: Layer<S>, pause: Pause<S>, attempt: int, s: S)
    requires 1 <= attempt <= p.attempts
    ensures var o := RetryFrom(p, next, pause, attempt, s);
            && Chained(p, next, pause, attempt, s, o)
            && |o.calls| <= p.attempts - attempt + 1
            && Ended(pause, p.attempts - attempt + 1, o)
    decreases p.attempts - attempt
  {
    hide Backoff, Wrap;
    var (s1, err) := next(s);
    if IsEstablish(err) && attempt < p.attempts {
      var (s2, done) := pause(s1, Backoff(p, attempt));
      if done.None? {
        RetryFromContract(p, next, pause, attempt + 1, s2);
        ChainedCons(p, next, pause, attempt, s, RetryFrom(p, next, pause, attempt + 1, s2));
      }
    }
  }

  /** The whole behaviour of the layer: at most max(1, attempts) calls, only establish errors repeated. */
  lemma RetryContract<S>(p: Policy, next: Layer<S>, pause: Pause<S>, s: S)
    ensures var o := Run(p, next, pause, s);
            && Chained(p, next, pause, 1, s, o)
            && |o.calls| <= Budget(p) == (if p.attempts <= 1 then 1 else p.attempts)
            && Ended(pause, Budget(p), o)
  {
    if p.attempts > 1 {
      RetryFromContract(p, next, pause, 1, s);
    }
  }

  /**
   When a call that ends in an establish error moves no bytes, everything a connection transfers it
   transfers in its last call.
   */
  lemma OnlyLastCallTransfers<S(!new)>(p: Policy, next: Layer<S>, pause: Pause<S>, moved: S -> nat, s: S)
    requires forall w :: IsEstablish(next(w).1) ==> moved(next(w).0) == moved(w)
    requires forall w, d :: moved(pause(w, d).0) == moved(w)
    ensures var o := Run(p, next, pause, s);
            forall i :: 0 <= i < |o.calls| ==> moved(o.calls[i].before) == moved(s)
    ensures IsEstablish(Run(p, next, pause, s).err) ==> moved(Run(p, next, pause, s).state) == moved(s)
  {
    RetryContract(p, next, pause, s);
    var o := Run(p, next, pause, s);
    for i := 0 to |o.calls|
      invariant forall j :: 0 <= j < i ==> moved(o.calls[j].before) == moved(s)
      invariant 0 < i < |o.calls| ==> moved(o.calls[i].before) == moved(s)
    {
      if i < |o.calls| - 1 {
        assert moved(o.calls[i].after) == moved(o.calls[i].before);
        assert pause(o.calls[i].after, Backoff(p, 1 + i)) == (o.calls[i + 1].before, None);
      }
    }
  }
}
