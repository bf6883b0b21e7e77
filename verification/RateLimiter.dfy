/** The sliding-window limiter over the record store, against its reference: count the last window's admissions. */
module RateLimiter {
  import opened Options
  import opened RateStore
  import Retry

  datatype Config = Config(maxHits: int, window: int)

  /** time.Time{}.UnixNano(), which wraps around in 64 bits. */
  const ZERO_TIME_NANO: int := -6795364578871345152

  /** The year 1 is 62135596800 seconds before the epoch, which is more nanoseconds than 64 bits hold. */
  lemma ZeroTimeWraps()
    ensures ZERO_TIME_NANO == Retry.Int64(-62135596800 * 1000000000)
  {
  }

  /** The window at this moment does not reach below the wrapped zero time. */
  predicate Representable(cfg: Config, now: int) {
    ZERO_TIME_NANO <= now && ZERO_TIME_NANO <= now - cfg.window
  }

  const METRICS_PATH := "/metrics"

  datatype Verdict = Passed | TooManyRequests | InternalError

  /** The calls a request makes to its repository, in order. */
  datatype RepoCall = Removing | Counting | Adding | Expiring

  /** Remove, count, add and expire, the first three at clock reading now, the store's expiry checks at clock. */
  function Serve(cfg: Config, expiring: bool, st: Store, key: string, now: int, clock: int)
    : (r: (Store, Verdict))
    ensures r.1 != InternalError
  {
    var cleaned := st.Removed(key, ZERO_TIME_NANO, now - cfg.window, clock);
    if cleaned.Count(key, clock) >= cfg.maxHits then (cleaned.Purged(key, clock), TooManyRequests)
    else
      var added := cleaned.Purged(key, clock).Added(key, now, clock);
      (if expiring then added.Expiring(key, cfg.window, clock) else added, Passed)
  }

  /** The store's clock reading in each of the four calls. */
  datatype Readings = Readings(remove: int, count: int, add: int, expire: int)

  /** The same with a reading for each call, and with a repository one of whose calls may fail without effect. */
  function ServeWith(cfg: Config, failing: Option<RepoCall>, st: Store, key: string, now: int, clocks: Readings)
    : (Store, Verdict)
  {
    if failing == Some(Removing) then (st, InternalError)
    else
      var cleaned := st.Removed(key, ZERO_TIME_NANO, now - cfg.window, clocks.remove);
      if failing == Some(Counting) then (cleaned, InternalError)
      else
        var counted := cleaned.Purged(key, clocks.count);
        if cleaned.Count(key, clocks.count) >= cfg.maxHits then (counted, TooManyRequests)
        else if failing == Some(Adding) then (counted, InternalError)
        else
          var added := counted.Added(key, now, clocks.add);
          if failing == Some(Expiring) then (added, InternalError)
          else (added.Expiring(key, cfg.window, clocks.expire), Passed)
  }

  lemma ServeWithIsServe(cfg: Config, st: Store, key: string, now: int, clock: int)
    ensures ServeWith(cfg, None, st, key, now, Readings(clock, clock, clock, clock))
            == Serve(cfg, true, st, key, now, clock)
  {
  }

  /**
   A request is passed on only if no call failed. One that fails is answered 500, unless it is refused first, and it
   uses up a place exactly when only setting the expiry failed.
   */
  lemma FailuresPassNothing(cfg: Config, call: RepoCall, st: Store, key: string, now: int, clocks: Readings)
    ensures var (next, verdict) := ServeWith(cfg, Some(call), st, key, now, clocks);
            var (ok, fine) := ServeWith(cfg, None, st, key, now, clocks);
            && verdict != Passed
            && (verdict == TooManyRequests <==> call in {Adding, Expiring} && fine == TooManyRequests)
            && (call == Expiring ==> next.Records(key) == ok.Records(key))
            && (call != Expiring ==>
                  next.Records(key) in {[], st.Records(key), Cut(st.Records(key), ZERO_TIME_NANO, now - cfg.window)})
  {
    hide Cut, Inserted;
  }

  /** When any other call fails, the key has no record it did not have before. */
  lemma FailureLeavesNoRecord(cfg: Config, call: RepoCall, st: Store, key: string, now: int, clocks: Readings)
    requires call != Expiring && st.Valid() && Representable(cfg, now)
    ensures multiset(ServeWith(cfg, Some(call), st, key, now, clocks).0.Records(key)) <= multiset(st.Records(key))
  {
    hide ServeWith, Cut, Outside;
    var records := st.Records(key);
    FailuresPassNothing(cfg, call, st, key, now, clocks);
    CutRemovesRange(records, ZERO_TIME_NANO, now - cfg.window);
    OutsideIsPart(records, ZERO_TIME_NANO, now - cfg.window);
  }

  lemma {:induction false} OutsideIsPart(s: seq<int>, from: int, to: int)
    ensures multiset(Outside(s, from, to)) <= multiset(s)
  {
    if s != [] {
      OutsideIsPart(s[1..], from, to);
      assert s == [s[0]] + s[1..];
    }
  }

  /** The handler NewSlidingWindow builds; a passed request goes on to the next handler. */
  method Handle(
    cfg: Config, repo: InMemory, failing: Option<RepoCall>, path: string, key: string, now: int, clocks: Readings)
    returns (verdict: Verdict)
    requires repo.View().Valid() && Representable(cfg, now)
    modifies repo
    ensures repo.View().Valid()
    ensures if path == "/metrics" then repo.View() == old(repo.View()) && verdict == Passed
            else (repo.View(), verdict) == ServeWith(cfg, failing, old(repo.View()), key, now, clocks)
  {
    hide Store.Removed, Store.Added, Store.Count, Store.Purged, Store.Expiring;
    if path == METRICS_PATH {
      return Passed;
    }
    if failing == Some(Removing) {
      return InternalError;
    }
    repo.RemoveOldRecords(key, ZERO_TIME_NANO, now - cfg.window, clocks.remove);
    if failing == Some(Counting) {
      return InternalError;
    }
    CountKeepsValid(repo.View(), key, clocks.count);
    var count := repo.CountRecords(key, clocks.count);
    if count >= cfg.maxHits {
      return TooManyRequests;
    }
    if failing == Some(Adding) {
      return InternalError;
    }
    repo.AddRecord(key, now, clocks.add);
    if failing == Some(Expiring) {
      return InternalError;
    }
    ExpireKeepsValid(repo.View(), key, cfg.window, clocks.expire);
    repo.ExpireKey(key, cfg.window, clocks.expire);
    verdict := Passed;
  }

  lemma CountKeepsValid(st: Store, key: string, now: int)
    requires st.Valid()
    ensures st.Purged(key, now).Valid()
  {
  }

  lemma ExpireKeepsValid(st: Store, key: string, ttl: int, now: int)
    requires st.Valid()
    ensures st.Expiring(key, ttl, now).Valid()
  {
  }

  datatype Request = Request(key: string, at: int)

  function Verdicts(cfg: Config, expiring: bool, st: Store, run: seq<Request>): seq<Verdict>
    decreases |run|
  {
    if run == [] then []
    else
      var (next, v) := Serve(cfg, expiring, st, run[0].key, run[0].at, run[0].at);
      [v] + Verdicts(cfg, expiring, next, run[1..])
  }

  /** How many admissions of key lie in (after, upTo]. */
  function Hits(log: seq<Request>, key: string, after: int, upTo: int): nat {
    if log == [] then 0
    else
      var last := log[|log| - 1];
      Hits(log[..|log| - 1], key, after, upTo) + if last.key == key && after < last.at <= upTo then 1 else 0
  }

  /** The reference limiter: its whole state is the log of admissions. */
  predicate MayAdmit(cfg: Config, log: seq<Request>, r: Request) {
    Hits(log, r.key, r.at - cfg.window, r.at) < cfg.maxHits
  }

  function LogAfter(cfg: Config, log: seq<Request>, r: Request): seq<Request> {
    if MayAdmit(cfg, log, r) then log + [r] else log
  }

  function ReferenceVerdicts(cfg: Config, log: seq<Request>, run: seq<Request>): seq<Verdict>
    decreases |run|
  {
    if run == [] then []
    else
      [if MayAdmit(cfg, log, run[0]) then Passed else TooManyRequests]
      + ReferenceVerdicts(cfg, LogAfter(cfg, log, run[0]), run[1..])
  }

  /** The admission times of one key, oldest first. */
  function TimesOf(log: seq<Request>, key: string): seq<int> {
    if log == [] then []
    else TimesOf(log[..|log| - 1], key) + if log[|log| - 1].key == key then [log[|log| - 1].at] else []
  }

  /** The clock never goes back and stays in the range UnixNano represents. */
  ghost predicate Ordered(cfg: Config, run: seq<Request>, since: int) {
    && (forall i :: 0 <= i < |run| ==> since <= run[i].at && Representable(cfg, run[i].at))
    && (forall i, j :: 0 <= i < j < |run| ==> run[i].at <= run[j].at)
  }

  /**
   The records of key are the tail of its admissions, what was dropped has left the window, and the key
   expires no earlier than its last admission leaves the window.
   */
  ghost predicate Tracks(cfg: Config, st: Store, log: seq<Request>, key: string, clock: int) {
    var own, kept := TimesOf(log, key), st.Records(key);
    && Sorted(own) && |kept| <= |own| && kept == own[|own| - |kept|..]
    && (forall i :: 0 <= i < |own| ==> ZERO_TIME_NANO <= own[i] <= clock)
    && (forall i :: 0 <= i < |own| - |kept| ==> own[i] <= clock - cfg.window)
    && (key in st.expires ==> forall i :: 0 <= i < |own| ==> own[i] <= st.expires[key] - cfg.window)
  }

  ghost predicate TracksAll(cfg: Config, st: Store, log: seq<Request>, clock: int) {
    forall key :: Tracks(cfg, st, log, key, clock)
  }

  /** The hits in a window are the admission times from some point on. */
  lemma {:induction false} HitsAreTail(log: seq<Request>, key: string, after: int, upTo: int)
    requires Sorted(TimesOf(log, key))
    requires forall i :: 0 <= i < |TimesOf(log, key)| ==> TimesOf(log, key)[i] <= upTo
    ensures Hits(log, key, after, upTo) == |TimesOf(log, key)| - UpperBound(TimesOf(log, key), after)
  {
    if log != [] {
      var before, own := log[..|log| - 1], TimesOf(log, key);
      var earlier := TimesOf(before, key);
      if log[|log| - 1].key == key {
        assert forall i :: 0 <= i < |earlier| ==> earlier[i] == own[i];
        HitsAreTail(before, key, after, upTo);
        LowerBoundSplits(own, after + 1);
        LowerBoundSplits(earlier, after + 1);
        var n := |earlier|;
        assert own[n] <= after <==> n < UpperBound(own, after);
        LowerBoundUnique(earlier, after + 1, if own[n] <= after then n else UpperBound(own, after));
      } else {
        assert own == earlier;
        HitsAreTail(before, key, after, upTo);
      }
    }
  }

  /** Cleaning leaves exactly the records in the window, expired or not. */
  lemma CleanedRecords(cfg: Config, st: Store, log: seq<Request>, key: string, before: int, now: int)
    requires Tracks(cfg, st, log, key, before) && before <= now && Representable(cfg, now)
    ensures var own := TimesOf(log, key);
            var cleaned := st.Removed(key, ZERO_TIME_NANO, now - cfg.window, now).Purged(key, now);
            && UpperBound(own, now - cfg.window) <= |own|
            && cleaned.Records(key) == own[UpperBound(own, now - cfg.window)..]
            && st.Removed(key, ZERO_TIME_NANO, now - cfg.window, now).Count(key, now)
               == Hits(log, key, now - cfg.window, now)
  {
    hide Cut, LowerBound, TimesOf, Hits;
    var own, to := TimesOf(log, key), now - cfg.window;
    HitsAreTail(log, key, to, now);
    LowerBoundSplits(own, to + 1);
    if st.Expired(key, now) {
      LowerBoundUnique(own, to + 1, |own|);
    } else {
      CutTail(own, st.Records(key), to, ZERO_TIME_NANO);
    }
  }

  /** Cutting off what has left the window, from records that are a tail of the admissions. */
  lemma CutTail(own: seq<int>, kept: seq<int>, to: int, from: int)
    requires Sorted(own) && |kept| <= |own| && kept == own[|own| - |kept|..]
    requires forall i :: 0 <= i < |own| ==> from <= own[i]
    requires forall i :: 0 <= i < |own| - |kept| ==> own[i] <= to
    requires from <= to
    ensures Cut(kept, from, to) == own[UpperBound(own, to)..]
  {
    var dropped, u := |own| - |kept|, UpperBound(own, to);
    LowerBoundSplits(own, to + 1);
    hide LowerBound, Sorted;
    assert forall i :: 0 <= i < |kept| ==> kept[i] == own[dropped + i];
    assert dropped > 0 ==> own[dropped - 1] <= to;
    assert u >= dropped;
    LowerBoundUnique(kept, from, 0);
    LowerBoundUnique(kept, to + 1, u - dropped);
    assert Cut(kept, from, to) == kept[..0] + kept[u - dropped..];
    TailOfTail(own, dropped, u);
  }

  lemma TailOfTail(s: seq<int>, i: nat, j: nat)
    requires i <= j <= |s|
    ensures s[i..][j - i..] == s[j..]
  {
  }

  lemma InsertedLast(s: seq<int>, x: int)
    requires forall i :: 0 <= i < |s| ==> s[i] <= x
    requires Sorted(s)
    ensures Inserted(s, x) == s + [x]
  {
    LowerBoundSplits(s, x);
    var i := LowerBound(s, x);
    assert forall k :: i <= k < |s| ==> s[k] == x;
  }

  lemma TimesOfAdmission(log: seq<Request>, r: Request, key: string)
    ensures TimesOf(log + [r], key) == TimesOf(log, key) + if r.key == key then [r.at] else []
  {
  }

  /** A request leaves the records and expiry times of other keys alone. */
  lemma ServeFrame(cfg: Config, expiring: bool, st: Store, r: Request, key: string)
    requires key != r.key
    ensures var next := Serve(cfg, expiring, st, r.key, r.at, r.at).0;
            && next.Records(key) == st.Records(key)
            && (key in next.expires <==> key in st.expires)
            && (key in st.expires ==> next.expires[key] == st.expires[key])
  {
  }

  /** What a request does to its own key, in terms of the records cleaning left. */
  lemma ServeOwnKey(cfg: Config, expiring: bool, st: Store, r: Request, kept: seq<int>)
    requires kept == st.Removed(r.key, ZERO_TIME_NANO, r.at - cfg.window, r.at).Purged(r.key, r.at).Records(r.key)
    requires |kept| == st.Removed(r.key, ZERO_TIME_NANO, r.at - cfg.window, r.at).Count(r.key, r.at)
    ensures var (next, v) := Serve(cfg, expiring, st, r.key, r.at, r.at);
            && (v == Passed <==> |kept| < cfg.maxHits)
            && next.Records(r.key) == (if v == Passed then Inserted(kept, r.at) else kept)
            && (r.key in next.expires ==>
                  if expiring && v == Passed then next.expires[r.key] == r.at + cfg.window
                  else r.key in st.expires && next.expires[r.key] == st.expires[r.key])
  {
  }

  lemma OtherKeyTracked(cfg: Config, expiring: bool, st: Store, log: seq<Request>, r: Request, key: string, clock: int)
    requires Tracks(cfg, st, log, key, clock) && clock <= r.at && key != r.key
    ensures Tracks(cfg, Serve(cfg, expiring, st, r.key, r.at, r.at).0, LogAfter(cfg, log, r), key, r.at)
  {
    hide Serve, MayAdmit;
    ServeFrame(cfg, expiring, st, r, key);
    TimesOfAdmission(log, r, key);
  }

  /** Appending an admission of this moment to the records and to the log keeps them in step. */
  lemma OwnKeyTracked(cfg: Config, expiring: bool, st: Store, log: seq<Request>, r: Request, clock: int)
    requires Tracks(cfg, st, log, r.key, clock) && clock <= r.at && Representable(cfg, r.at)
    requires expiring || st.expires == map[]
    ensures var (next, v) := Serve(cfg, expiring, st, r.key, r.at, r.at);
            Tracks(cfg, next, LogAfter(cfg, log, r), r.key, r.at) && (v == Passed <==> MayAdmit(cfg, log, r))
  {
    hide Serve, Inserted, LowerBound, Hits, TimesOf, Store.Removed, Store.Purged, Store.Records;
    var own, to := TimesOf(log, r.key), r.at - cfg.window;
    var u := UpperBound(own, to);
    CleanedRecords(cfg, st, log, r.key, clock, r.at);
    LowerBoundSplits(own, to + 1);
    ServeOwnKey(cfg, expiring, st, r, own[u..]);
    TimesOfAdmission(log, r, r.key);
    InsertedLast(own[u..], r.at);
    var next := Serve(cfg, expiring, st, r.key, r.at, r.at).0;
    if MayAdmit(cfg, log, r) {
      AdmissionTracked(cfg, next, log + [r], r.key, r.at, own, u);
    } else {
      TracksFrom(cfg, next, log, r.key, r.at, own, u);
    }
  }

  lemma AdmissionTracked(cfg: Config, st: Store, log: seq<Request>, key: string, now: int, own: seq<int>, u: nat)
    requires u <= |own| && TimesOf(log, key) == own + [now] && st.Records(key) == own[u..] + [now]
    requires Sorted(own) && ZERO_TIME_NANO <= now
    requires forall i :: 0 <= i < |own| ==> ZERO_TIME_NANO <= own[i] <= now
    requires forall i :: 0 <= i < u ==> own[i] <= now - cfg.window
    requires key in st.expires ==> now <= st.expires[key] - cfg.window
    ensures Tracks(cfg, st, log, key, now)
  {
    hide TimesOf, Store.Records;
    assert (own + [now])[u..] == own[u..] + [now];
    TracksFrom(cfg, st, log, key, now, own + [now], u);
  }

  lemma TracksFrom(cfg: Config, st: Store, log: seq<Request>, key: string, clock: int, own: seq<int>, u: nat)
    requires u <= |own| && TimesOf(log, key) == own && st.Records(key) == own[u..]
    requires Sorted(own)
    requires forall i :: 0 <= i < |own| ==> ZERO_TIME_NANO <= own[i] <= clock
    requires forall i :: 0 <= i < u ==> own[i] <= clock - cfg.window
    requires key in st.expires ==> forall i :: 0 <= i < |own| ==> own[i] <= st.expires[key] - cfg.window
    ensures Tracks(cfg, st, log, key, clock)
  {
  }

  lemma NeverExpires(cfg: Config, st: Store, r: Request)
    ensures st.expires == map[] ==> Serve(cfg, false, st, r.key, r.at, r.at).0.expires == map[]
  {
  }

  /** One request keeps the store and the reference log in step, and both give the same verdict. */
  lemma ServeTracks(cfg: Config, expiring: bool, st: Store, log: seq<Request>, r: Request, clock: int)
    requires TracksAll(cfg, st, log, clock) && clock <= r.at && Representable(cfg, r.at)
    requires expiring || st.expires == map[]
    ensures var (next, v) := Serve(cfg, expiring, st, r.key, r.at, r.at);
            && (expiring || next.expires == map[])
            && TracksAll(cfg, next, LogAfter(cfg, log, r), r.at)
            && (v == Passed <==> MayAdmit(cfg, log, r))
  {
    hide Serve, Tracks, MayAdmit, LogAfter;
    assert Tracks(cfg, st, log, r.key, clock);
    NeverExpires(cfg, st, r);
    OwnKeyTracked(cfg, expiring, st, log, r, clock);
    forall key ensures Tracks(cfg, Serve(cfg, expiring, st, r.key, r.at, r.at).0, LogAfter(cfg, log, r), key, r.at) {
      assert Tracks(cfg, st, log, key, clock);
      if key != r.key {
        OtherKeyTracked(cfg, expiring, st, log, r, key, clock);
      }
    }
  }

  lemma {:induction false} VerdictsTrack(
    cfg: Config, expiring: bool, st: Store, log: seq<Request>, run: seq<Request>, clock: int)
    requires TracksAll(cfg, st, log, clock) && Ordered(cfg, run, clock)
    requires expiring || st.expires == map[]
    ensures Verdicts(cfg, expiring, st, run) == ReferenceVerdicts(cfg, log, run)
    decreases |run|
  {
    hide Serve, TracksAll, MayAdmit;
    if run != [] {
      ServeTracks(cfg, expiring, st, log, run[0], clock);
      VerdictsTrack(cfg, expiring, Serve(cfg, expiring, st, run[0].key, run[0].at, run[0].at).0,
                    LogAfter(cfg, log, run[0]), run[1..], run[0].at);
    }
  }

  /** Over every run the limiter decides as the reference does: by the admissions of the last window. */
  lemma LimiterCountsLastWindow(cfg: Config, expiring: bool, run: seq<Request>, clock: int)
    requires Ordered(cfg, run, clock)
    ensures Verdicts(cfg, expiring, EMPTY, run) == ReferenceVerdicts(cfg, [], run)
  {
    VerdictsTrack(cfg, expiring, EMPTY, [], run, clock);
  }

  /** Expiring keys changes no verdict. */
  lemma ExpiryIsInvisible(cfg: Config, run: seq<Request>, clock: int)
    requires Ordered(cfg, run, clock)
    ensures Verdicts(cfg, true, EMPTY, run) == Verdicts(cfg, false, EMPTY, run)
  {
    LimiterCountsLastWindow(cfg, true, run, clock);
    LimiterCountsLastWindow(cfg, false, run, clock);
  }

  function ReferenceLog(cfg: Config, log: seq<Request>, run: seq<Request>): seq<Request>
    decreases |run|
  {
    if run == [] then log else ReferenceLog(cfg, LogAfter(cfg, log, run[0]), run[1..])
  }

  /** Every admission of the log was allowed by the admissions before it, in clock order. */
  ghost predicate Lawful(cfg: Config, log: seq<Request>) {
    && (forall i :: 0 <= i < |log| ==> MayAdmit(cfg, log[..i], log[i]))
    && (forall i, j :: 0 <= i < j < |log| ==> log[i].at <= log[j].at)
  }

  lemma {:induction false} ReferenceLogLawful(cfg: Config, log: seq<Request>, run: seq<Request>, clock: int)
    requires Lawful(cfg, log) && Ordered(cfg, run, clock)
    requires forall i :: 0 <= i < |log| ==> log[i].at <= clock
    ensures Lawful(cfg, ReferenceLog(cfg, log, run))
    decreases |run|
  {
    if run != [] {
      LogAfterLawful(cfg, log, run[0], clock);
      ReferenceLogLawful(cfg, LogAfter(cfg, log, run[0]), run[1..], run[0].at);
    }
  }

  lemma LogAfterLawful(cfg: Config, log: seq<Request>, r: Request, clock: int)
    requires Lawful(cfg, log) && clock <= r.at
    requires forall i :: 0 <= i < |log| ==> log[i].at <= clock
    ensures Lawful(cfg, LogAfter(cfg, log, r))
    ensures forall i :: 0 <= i < |LogAfter(cfg, log, r)| ==> LogAfter(cfg, log, r)[i].at <= r.at
  {
    hide MayAdmit;
    if MayAdmit(cfg, log, r) {
      var next := log + [r];
      assert next[..|log|] == log;
      forall i | 0 <= i < |next| ensures MayAdmit(cfg, next[..i], next[i]) {
        assert i < |log| ==> next[..i] == log[..i];
      }
    }
  }

  lemma {:induction false} HitsWithin(log: seq<Request>, key: string, after: int, upTo: int, after': int, upTo': int)
    requires after' <= after && forall i :: 0 <= i < |log| ==> log[i].at <= upTo'
    ensures Hits(log, key, after, upTo) <= Hits(log, key, after', upTo')
  {
    if log != [] {
      HitsWithin(log[..|log| - 1], key, after, upTo, after', upTo');
    }
  }

  lemma LawfulPrefix(cfg: Config, log: seq<Request>)
    requires Lawful(cfg, log) && log != []
    ensures var before, last := log[..|log| - 1], log[|log| - 1];
            && Lawful(cfg, before) && MayAdmit(cfg, before, last)
            && forall i :: 0 <= i < |before| ==> before[i].at <= last.at
  {
    hide MayAdmit;
    var before := log[..|log| - 1];
    assert forall i :: 0 <= i <= |before| ==> before[..i] == log[..i];
    assert MayAdmit(cfg, log[..|before|], log[|before|]);
  }

  lemma {:induction false} LawfulWindows(cfg: Config, log: seq<Request>, key: string, s: int)
    requires Lawful(cfg, log)
    ensures Hits(log, key, s - cfg.window, s) <= if cfg.maxHits > 0 then cfg.maxHits else 0
  {
    if log != [] {
      var before, last := log[..|log| - 1], log[|log| - 1];
      LawfulPrefix(cfg, log);
      LawfulWindows(cfg, before, key, s);
      if last.key == key && last.at <= s {
        HitsWithin(before, key, s - cfg.window, s, last.at - cfg.window, last.at);
      }
    }
  }

  /** The requests of a run that were let through. */
  function PassedOf(run: seq<Request>, verdicts: seq<Verdict>): seq<Request>
    requires |run| == |verdicts|
  {
    if run == [] then [] else (if verdicts[0] == Passed then [run[0]] else []) + PassedOf(run[1..], verdicts[1..])
  }

  lemma {:induction false} OneVerdictEach(cfg: Config, log: seq<Request>, run: seq<Request>)
    ensures |ReferenceVerdicts(cfg, log, run)| == |run|
    decreases |run|
  {
    hide MayAdmit;
    if run != [] {
      OneVerdictEach(cfg, LogAfter(cfg, log, run[0]), run[1..]);
    }
  }

  /** The requests the reference lets through are the ones it logs. */
  lemma {:induction false} PassedAreLogged(cfg: Config, log: seq<Request>, run: seq<Request>)
    ensures |ReferenceVerdicts(cfg, log, run)| == |run|
    ensures ReferenceLog(cfg, log, run) == log + PassedOf(run, ReferenceVerdicts(cfg, log, run))
    decreases |run|
  {
    hide MayAdmit;
    OneVerdictEach(cfg, log, run);
    if run == [] {
      assert log + [] == log;
    } else {
      var next := LogAfter(cfg, log, run[0]);
      PassedAreLogged(cfg, next, run[1..]);
      var rest := PassedOf(run[1..], ReferenceVerdicts(cfg, next, run[1..]));
      assert ReferenceVerdicts(cfg, log, run)[1..] == ReferenceVerdicts(cfg, next, run[1..]);
      assert log + ([run[0]] + rest) == log + [run[0]] + rest && log + ([] + rest) == log + rest;
    }
  }

  /** No window (s - window, s], wherever it lies, holds more than maxHits requests of one key that were let through. */
  lemma EveryWindowIsBounded(cfg: Config, expiring: bool, run: seq<Request>, clock: int, key: string, s: int)
    requires Ordered(cfg, run, clock)
    ensures |Verdicts(cfg, expiring, EMPTY, run)| == |run|
    ensures Hits(PassedOf(run, Verdicts(cfg, expiring, EMPTY, run)), key, s - cfg.window, s)
            <= if cfg.maxHits > 0 then cfg.maxHits else 0
  {
    hide Verdicts, ReferenceVerdicts, Hits;
    LimiterCountsLastWindow(cfg, expiring, run, clock);
    PassedAreLogged(cfg, [], run);
    var passed := PassedOf(run, Verdicts(cfg, expiring, EMPTY, run));
    assert [] + passed == passed;
    ReferenceLogLawful(cfg, [], run, clock);
    LawfulWindows(cfg, passed, key, s);
  }

  lemma LateVerdict(cfg: Config, st: Store, r: Request, clock: int)
    ensures Serve(cfg, true, st, r.key, r.at, clock).1 == Passed
            <==> st.Removed(r.key, ZERO_TIME_NANO, r.at - cfg.window, clock).Count(r.key, clock) < cfg.maxHits
  {
  }

  /**
   The store reads its own clock. With a reading later than the request's, a verdict differs from the
   reference exactly when the key has expired by then while its hits still fill the request's window.
   */
  lemma LateClockVerdict(cfg: Config, st: Store, log: seq<Request>, r: Request, before: int, clock: int)
    requires Tracks(cfg, st, log, r.key, before) && before <= r.at <= clock && Representable(cfg, r.at)
    ensures (Serve(cfg, true, st, r.key, r.at, clock).1 == Passed <==> MayAdmit(cfg, log, r))
            <==> !(&& r.key in st.expires && clock > st.expires[r.key]
                   && 0 < cfg.maxHits <= Hits(log, r.key, r.at - cfg.window, r.at))
  {
    hide Serve, LowerBound, Hits, TimesOf, Tracks, Store.Removed, Store.Purged, Store.Count;
    LateVerdict(cfg, st, r, clock);
    LateCount(st, r.key, r.at - cfg.window, r.at, clock);
    CleanedRecords(cfg, st, log, r.key, before, r.at);
  }

  /** Cleaning finds nothing once the key has expired, and otherwise what it finds at an earlier clock reading. */
  lemma LateCount(st: Store, key: string, to: int, now: int, clock: int)
    requires now <= clock
    ensures var late := st.Removed(key, ZERO_TIME_NANO, to, clock).Count(key, clock);
            late == if st.Expired(key, clock) then 0 else st.Removed(key, ZERO_TIME_NANO, to, now).Count(key, now)
  {
  }

  lemma OneMoreHit(log: seq<Request>, r: Request, after: int)
    requires after < r.at
    ensures Hits(log + [r], r.key, after, r.at) == Hits(log, r.key, after, r.at) + 1
  {
  }

  /** The verdict of the second of two requests that both count before either adds. */
  function CountedEarly(cfg: Config, st: Store, key: string, at: int): (v: Verdict)
    ensures v != InternalError
  {
    var cleaned := st.Removed(key, ZERO_TIME_NANO, at - cfg.window, at);
    if cleaned.Count(key, at) >= cfg.maxHits then TooManyRequests else Passed
  }

  /**
   Counting and adding are separate critical sections. Two requests of one instant that both count first get
   other verdicts than one after the other exactly when a single place was left.
   */
  lemma RacingPairOverruns(cfg: Config, st: Store, log: seq<Request>, key: string, at: int, before: int)
    requires TracksAll(cfg, st, log, before) && before <= at && Representable(cfg, at) && cfg.window > 0
    ensures var (next, first) := Serve(cfg, true, st, key, at, at);
            CountedEarly(cfg, st, key, at) != Serve(cfg, true, next, key, at, at).1
            <==> Hits(log, key, at - cfg.window, at) == cfg.maxHits - 1
  {
    hide Serve, CountedEarly, MayAdmit, TracksAll;
    var r := Request(key, at);
    TracksOne(cfg, st, log, key, before);
    FirstOfPair(cfg, st, log, key, at, before);
    SecondOfPair(cfg, st, log, key, at, before);
    OneMoreHit(log, r, at - cfg.window);
    PairArithmetic(cfg, log, r);
  }

  lemma TracksOne(cfg: Config, st: Store, log: seq<Request>, key: string, clock: int)
    requires TracksAll(cfg, st, log, clock)
    ensures Tracks(cfg, st, log, key, clock)
  {
  }

  lemma FirstOfPair(cfg: Config, st: Store, log: seq<Request>, key: string, at: int, before: int)
    requires Tracks(cfg, st, log, key, before) && before <= at && Representable(cfg, at)
    ensures CountedEarly(cfg, st, key, at) == Passed <==> MayAdmit(cfg, log, Request(key, at))
  {
    hide Tracks, Hits, LowerBound, TimesOf, Store.Removed, Store.Purged, Store.Count, Store.Records, Representable;
    CleanedRecords(cfg, st, log, key, before, at);
  }

  lemma SecondOfPair(cfg: Config, st: Store, log: seq<Request>, key: string, at: int, before: int)
    requires TracksAll(cfg, st, log, before) && before <= at && Representable(cfg, at)
    ensures var r, next := Request(key, at), Serve(cfg, true, st, key, at, at).0;
            Serve(cfg, true, next, key, at, at).1 == Passed <==> MayAdmit(cfg, LogAfter(cfg, log, r), r)
  {
    hide Serve, TracksAll, MayAdmit, LogAfter;
    var r, next := Request(key, at), Serve(cfg, true, st, key, at, at).0;
    ServeTracks(cfg, true, st, log, r, before);
    ServeTracks(cfg, true, next, LogAfter(cfg, log, r), r, at);
  }

  lemma PairArithmetic(cfg: Config, log: seq<Request>, r: Request)
    requires Hits(log + [r], r.key, r.at - cfg.window, r.at) == Hits(log, r.key, r.at - cfg.window, r.at) + 1
    ensures (MayAdmit(cfg, log, r) <==> MayAdmit(cfg, LogAfter(cfg, log, r), r))
            <==> Hits(log, r.key, r.at - cfg.window, r.at) != cfg.maxHits - 1
  {
  }

  /** One place in a window of 10: an admission at 0 is forgotten by a request of 9 whose store reads 11. */
  lemma LateClockExample()
    ensures var st := Serve(Config(1, 10), true, EMPTY, "k", 0, 0).0;
            && Serve(Config(1, 10), true, st, "k", 9, 11).1 == Passed
            && Serve(Config(1, 10), true, st, "k", 9, 9).1 == TooManyRequests
  {
    var st := Serve(Config(1, 10), true, EMPTY, "k", 0, 0).0;
    assert st.data["k"] == [0] && st.expires["k"] == 10;
    assert LowerBound([0], ZERO_TIME_NANO) == 0 && LowerBound([0], 0) == 0;
  }

  /** One place, nothing admitted yet: both of two racing requests are let through. */
  lemma RacingPairExample()
    ensures var next := Serve(Config(1, 10), true, EMPTY, "k", 0, 0).0;
            && CountedEarly(Config(1, 10), EMPTY, "k", 0) == Passed
            && Serve(Config(1, 10), true, next, "k", 0, 0).1 == TooManyRequests
  {
    var next := Serve(Config(1, 10), true, EMPTY, "k", 0, 0).0;
    assert next.data["k"] == [0];
    assert LowerBound([0], ZERO_TIME_NANO) == 0 && LowerBound([0], -9) == 0;
  }
}
