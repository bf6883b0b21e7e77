/** When a verdict of the limiter is not the one its window calls for, with any number of requests in flight. */
module RateVerdicts {
  import opened RateStore
  import opened RateLimiter
  import opened RateLedger
  import opened RateRequests
  import opened RateInvariant

  // ---- What the store shows and what the window holds ----

  /** The admissions of the window (f.at - window, f.at] of a request. */
  function HitsOf(cfg: Config, log: seq<Entry>, f: Flight): nat {
    Number(log, InWindow(f.key, f.at - cfg.window, f.at))
  }

  function Recorded(log: seq<Entry>, key: string): nat {
    Number(log, StoredOf(key))
  }

  /** Records that do not count for the window of f: younger than it, older than it, or of a request that failed. */
  function Younger(log: seq<Entry>, f: Flight): nat {
    Number(log, StoredAfter(f.key, f.at))
  }

  function Older(cfg: Config, log: seq<Entry>, f: Flight): nat {
    Number(log, StoredBefore(f.key, f.at - cfg.window, f.at))
  }

  function Failed(cfg: Config, log: seq<Entry>, f: Flight): nat {
    Number(log, FailedIn(f.key, f.at - cfg.window, f.at))
  }

  /** Admissions of the window without a record: pending or lost, or swept by a request whose window begins later. */
  function Unseen(cfg: Config, log: seq<Entry>, f: Flight): nat {
    Number(log, UnseenIn(f.key, f.at - cfg.window, f.at))
  }

  function SweptAway(cfg: Config, log: seq<Entry>, f: Flight): nat {
    Number(log, SweptIn(f.key, f.at - cfg.window, f.at))
  }

  lemma HitsParts(cfg: Config, s: System, f: Flight)
    requires Clocks(cfg, s)
    ensures HitsOf(cfg, s.log, f)
            == Number(s.log, ShownIn(f.key, f.at - cfg.window, f.at)) + Unseen(cfg, s.log, f) + SweptAway(cfg, s.log, f)
  {
    var key, from, to := f.key, f.at - cfg.window, f.at;
    var rest := Either(UnseenIn(key, from, to), SweptIn(key, from, to));
    forall i | 0 <= i < |s.log|
      ensures (InWindow(key, from, to)(s.log[i]) <==> ShownIn(key, from, to)(s.log[i]) || rest(s.log[i]))
              && !(ShownIn(key, from, to)(s.log[i]) && rest(s.log[i]))
    {
      assert EntryClocks(cfg, s.log[i], s.clock);
    }
    NumberSplits(s.log, InWindow(key, from, to), ShownIn(key, from, to), rest);
    NumberSplits(s.log, rest, UnseenIn(key, from, to), SweptIn(key, from, to));
  }

  lemma RecordParts(cfg: Config, log: seq<Entry>, f: Flight)
    ensures Recorded(log, f.key)
            == Number(log, ShownIn(f.key, f.at - cfg.window, f.at))
               + Younger(log, f) + Older(cfg, log, f) + Failed(cfg, log, f)
  {
    var key, from, to := f.key, f.at - cfg.window, f.at;
    var outside := Either(StoredAfter(key, to), StoredBefore(key, from, to));
    var inside := Either(ShownIn(key, from, to), FailedIn(key, from, to));
    NumberSplits(log, StoredOf(key), outside, inside);
    NumberSplits(log, outside, StoredAfter(key, to), StoredBefore(key, from, to));
    NumberSplits(log, inside, ShownIn(key, from, to), FailedIn(key, from, to));
  }

  /**
   In every interleaving a request is let through when fewer than maxHits records of its key are in the store. The
   admissions of its window are those records, without the younger, the older and the failed ones, and with the unseen
   and the swept ones; so its verdict is not the one of the reference "fewer than maxHits admissions in the window"
   exactly when records and admissions lie on different sides of the limit.
   */
  lemma TallyDiffersIff(cfg: Config, s: System, a: Action)
    requires Inv(cfg, s) && a.Tally? && Enabled(cfg, s, a)
    ensures var f := s.flights[a.id];
            var log := Purge(s, f.key, a.now).log;
            var recorded, hits := Recorded(log, f.key), HitsOf(cfg, log, f);
            var passed := a.id in Act(cfg, s, a).flights;
            && hits + Younger(log, f) + Older(cfg, log, f) + Failed(cfg, log, f)
               == recorded + Unseen(cfg, log, f) + SweptAway(cfg, log, f)
            && (passed <==> recorded < cfg.maxHits)
            && ((passed <==> hits < cfg.maxHits)
                <==> !(recorded < cfg.maxHits <= hits) && !(hits < cfg.maxHits <= recorded))
  {
    hide Purge, Inv, Number;
    var f := s.flights[a.id];
    var p := Purge(s, f.key, a.now);
    PurgeKeeps(cfg, s, f.key, a.now);
    CountIsRecords(s, f.key, a.now);
    RecordsAreStored(cfg, p, f.key);
    InvClocks(cfg, p);
    HitsParts(cfg, p, f);
    RecordParts(cfg, p.log, f);
  }

  // ---- When the parts are empty ----

  /** Younger records and swept admissions take another request that read the clock after this one. */
  lemma OnlyOvertakenMiscount(cfg: Config, s: System, f: Flight)
    requires Clocks(cfg, s)
    ensures Younger(s.log, f) > 0 ==> exists i :: 0 <= i < |s.log| && s.log[i].key == f.key && s.log[i].at > f.at
    ensures SweptAway(cfg, s.log, f) > 0 ==>
              exists i :: 0 <= i < |s.log| && s.log[i].place.Swept? && f.at < s.log[i].place.reading <= s.clock
    ensures s.clock <= f.at ==> Younger(s.log, f) == 0 && SweptAway(cfg, s.log, f) == 0
  {
    if forall i :: 0 <= i < |s.log| && s.log[i].key == f.key ==> s.log[i].at <= f.at {
      NumberNone(s.log, StoredAfter(f.key, f.at));
    }
    forall i | 0 <= i < |s.log| ensures EntryClocks(cfg, s.log[i], s.clock) {
    }
    if forall i :: 0 <= i < |s.log| && s.log[i].place.Swept? ==> s.log[i].place.reading <= f.at {
      forall i | 0 <= i < |s.log| ensures !SweptIn(f.key, f.at - cfg.window, f.at)(s.log[i]) {
        assert EntryClocks(cfg, s.log[i], s.clock);
      }
      NumberNone(s.log, SweptIn(f.key, f.at - cfg.window, f.at));
    }
  }

  /** What a request has cleaned away stays away while it is in flight. */
  ghost predicate KeptClean(cfg: Config, s: System) {
    forall id, i :: id in s.flights && 0 <= i < |s.log| ==> StillClean(cfg, s.flights[id], s.log[i])
  }

  predicate StillClean(cfg: Config, f: Flight, e: Entry) {
    !f.stage.Started? && StoredOf(f.key)(e) ==> e.at > f.at - cfg.window
  }

  /** An admission is added less than a window after its request read the clock. */
  predicate Timely(cfg: Config, s: System, a: Action)
    requires Enabled(cfg, s, a)
  {
    a.Add? ==> a.now - s.flights[a.id].at < cfg.window
  }

  predicate TimelyAll(cfg: Config, s: System, acts: seq<Action>)
    requires EnabledAll(cfg, s, acts)
    decreases |acts|
  {
    acts == [] || (Timely(cfg, s, acts[0]) && TimelyAll(cfg, Act(cfg, s, acts[0]), acts[1..]))
  }

  lemma TimelyKeepsClean(cfg: Config, s: System, a: Action)
    requires Inv(cfg, s) && Enabled(cfg, s, a) && Timely(cfg, s, a) && KeptClean(cfg, s)
    ensures KeptClean(cfg, Act(cfg, s, a))
  {
    hide Inv, Number, Store.Removed, Store.Purged, Store.Added, Store.Expiring, Store.Count;
    var q := Act(cfg, s, a);
    if a.Add? {
      AddedWasPending(cfg, s, a);
    }
    forall id, i | id in q.flights && 0 <= i < |q.log| ensures StillClean(cfg, q.flights[id], q.log[i]) {
      if id in s.flights && i < |s.log| {
        assert StillClean(cfg, s.flights[id], s.log[i]);
      }
      if id in s.flights {
        FlightClocks(cfg, s, id);
      }
    }
  }

  lemma {:induction false} TimelyRunKeepsClean(cfg: Config, s: System, acts: seq<Action>)
    requires Inv(cfg, s) && EnabledAll(cfg, s, acts) && TimelyAll(cfg, s, acts) && KeptClean(cfg, s)
    ensures KeptClean(cfg, ActAll(cfg, s, acts))
    decreases |acts|
  {
    hide Inv, Act, Enabled, KeptClean, Timely;
    if acts != [] {
      ActKeeps(cfg, s, acts[0]);
      TimelyKeepsClean(cfg, s, acts[0]);
      TimelyRunKeepsClean(cfg, Act(cfg, s, acts[0]), acts[1..]);
    }
  }

  lemma IdleIsClean(cfg: Config, since: int)
    ensures KeptClean(cfg, Idle(since))
  {
  }

  lemma CleanHasNoOlder(cfg: Config, s: System, id: int, now: int)
    requires KeptClean(cfg, s) && id in s.flights && !s.flights[id].stage.Started?
    ensures Older(cfg, Purge(s, s.flights[id].key, now).log, s.flights[id]) == 0
  {
    var p, f := Purge(s, s.flights[id].key, now), s.flights[id];
    forall i | 0 <= i < |p.log| ensures !StoredBefore(f.key, f.at - cfg.window, f.at)(p.log[i]) {
      assert StillClean(cfg, f, s.log[i]);
    }
    NumberNone(p.log, StoredBefore(f.key, f.at - cfg.window, f.at));
  }

  /** When every admission is added in time, no count sees a record older than its window. */
  lemma TimelyHasNoOlder(cfg: Config, since: int, acts: seq<Action>, a: Action)
    requires EnabledAll(cfg, Idle(since), acts) && TimelyAll(cfg, Idle(since), acts)
    requires a.Tally? && Enabled(cfg, ActAll(cfg, Idle(since), acts), a)
    ensures var s := ActAll(cfg, Idle(since), acts);
            Older(cfg, Purge(s, s.flights[a.id].key, a.now).log, s.flights[a.id]) == 0
  {
    hide Inv, Act, Purge, KeptClean, Number, Timely;
    IdleInv(cfg, since);
    IdleIsClean(cfg, since);
    TimelyRunKeepsClean(cfg, Idle(since), acts);
    CleanHasNoOlder(cfg, ActAll(cfg, Idle(since), acts), a.id, a.now);
  }

  /** No call has failed after its request was admitted. */
  ghost predicate NoneFailed(s: System) {
    forall i :: 0 <= i < |s.log| ==> !s.log[i].failed
  }

  /**
   A count at the request's own clock reading, while every admission is added in time and none has failed: the verdict
   differs from the reference exactly when the records leave a place that pending and lost admissions of the window
   fill. It then lets too many through, and never too few.
   */
  lemma PromptTallyDiffersIff(cfg: Config, since: int, acts: seq<Action>, a: Action)
    requires EnabledAll(cfg, Idle(since), acts) && TimelyAll(cfg, Idle(since), acts)
    requires var s := ActAll(cfg, Idle(since), acts);
             a.Tally? && Enabled(cfg, s, a) && a.now == s.flights[a.id].at && NoneFailed(s)
    ensures var s := ActAll(cfg, Idle(since), acts);
            var f := s.flights[a.id];
            var log := Purge(s, f.key, a.now).log;
            var hits, recorded := HitsOf(cfg, log, f), Recorded(log, f.key);
            && hits == recorded + Unseen(cfg, log, f)
            && ((a.id in Act(cfg, s, a).flights <==> hits < cfg.maxHits) <==> !(recorded < cfg.maxHits <= hits))
  {
    hide Inv, Act, Purge, Number, TimelyAll, Younger, Older, SweptAway, Failed;
    var s := ActAll(cfg, Idle(since), acts);
    IdleInv(cfg, since);
    RunKeeps(cfg, Idle(since), acts);
    var f := s.flights[a.id];
    PurgeKeeps(cfg, s, f.key, a.now);
    CountIsRecords(s, f.key, a.now);
    InvClocks(cfg, Purge(s, f.key, a.now));
    OnlyOvertakenMiscount(cfg, Purge(s, f.key, a.now), f);
    TimelyHasNoOlder(cfg, since, acts, a);
    NoneFailedNow(cfg, s, a);
    TallyDiffersIff(cfg, s, a);
  }

  lemma NoneFailedNow(cfg: Config, s: System, a: Action)
    requires NoneFailed(s) && a.Tally? && Enabled(cfg, s, a)
    ensures Failed(cfg, Purge(s, s.flights[a.id].key, a.now).log, s.flights[a.id]) == 0
  {
    var p, f := Purge(s, s.flights[a.id].key, a.now), s.flights[a.id];
    NumberNone(p.log, FailedIn(f.key, f.at - cfg.window, f.at));
  }

  // ---- Wrong in either direction ----

  const ONE_HIT := Config(1, 10)

  /** The first request, from its clock reading at 0 to the end. */
  const FIRST := Entry("k", 0, 0, InStore, true, false, 0, 0)

  const ONE_RECORD := Store(map["k" := [0]], map["k" := 10])

  const COUNTED := FIRST.(place := Pending, done := false)
  const NO_RECORD := Store(map["k" := []], map[])

  lemma FirstCleans()
    ensures var s1 := System(EMPTY, map[1 := Flight("k", 0, Started)], 0, []);
            && Enabled(ONE_HIT, s1, Remove(1, 0))
            && Act(ONE_HIT, s1, Remove(1, 0)) == System(NO_RECORD, map[1 := Flight("k", 0, Cleaned)], 0, [])
  {
    NoRecords(ZERO_TIME_NANO, -10, 0);
    NothingToSweep("k", -10, 0);
    hide Cut, Sweep;
  }

  lemma FirstTallies()
    ensures var s2 := System(NO_RECORD, map[1 := Flight("k", 0, Cleaned)], 0, []);
            && Enabled(ONE_HIT, s2, Tally(1, 0))
            && Act(ONE_HIT, s2, Tally(1, 0))
               == System(NO_RECORD, map[1 := Flight("k", 0, Admitted(0))], 0, [COUNTED])
  {
    assert [] + [COUNTED] == [COUNTED];
  }

  lemma FirstAdds()
    ensures var s3 := System(NO_RECORD, map[1 := Flight("k", 0, Admitted(0))], 0, [COUNTED]);
            && Enabled(ONE_HIT, s3, Add(1, 0))
            && Act(ONE_HIT, s3, Add(1, 0))
               == System(Store(map["k" := [0]], map[]), map[1 := Flight("k", 0, Added(0))], 0, [FIRST.(done := false)])
  {
    NoRecords(0, 0, 0);
    hide Inserted;
  }

  lemma FirstExpires()
    ensures var s4 := System(
              Store(map["k" := [0]], map[]), map[1 := Flight("k", 0, Added(0))], 0, [FIRST.(done := false)]);
            && Enabled(ONE_HIT, s4, Expire(1, 0))
            && Act(ONE_HIT, s4, Expire(1, 0)) == System(ONE_RECORD, map[], 0, [FIRST])
  {
  }

  lemma FirstRequest()
    ensures Reachable(ONE_HIT, System(ONE_RECORD, map[], 0, [FIRST]))
  {
    var s1 := System(EMPTY, map[1 := Flight("k", 0, Started)], 0, []);
    var s2 := System(NO_RECORD, map[1 := Flight("k", 0, Cleaned)], 0, []);
    var s3 := System(NO_RECORD, map[1 := Flight("k", 0, Admitted(0))], 0, [COUNTED]);
    var s4 := System(Store(map["k" := [0]], map[]), map[1 := Flight("k", 0, Added(0))], 0, [FIRST.(done := false)]);
    assert Enabled(ONE_HIT, Idle(0), Start(1, "k", 0)) && Act(ONE_HIT, Idle(0), Start(1, "k", 0)) == s1;
    hide Act, Enabled, Reachable;
    FirstCleans();
    FirstTallies();
    FirstAdds();
    FirstExpires();
    IdleReachable(ONE_HIT, 0);
    ReachableStep(ONE_HIT, Idle(0), Start(1, "k", 0));
    ReachableStep(ONE_HIT, s1, Remove(1, 0));
    ReachableStep(ONE_HIT, s2, Tally(1, 0));
    ReachableStep(ONE_HIT, s3, Add(1, 0));
    ReachableStep(ONE_HIT, s4, Expire(1, 0));
  }

  /** A request of 9 that counts at 11, when the record of 0 has expired: let through although its window is full. */
  lemma PassedTooManyExample() returns (s: System)
    ensures Reachable(ONE_HIT, s) && Enabled(ONE_HIT, s, Tally(2, 11)) && s.flights[2].at == 9
    ensures 2 in Act(ONE_HIT, s, Tally(2, 11)).flights
    ensures HitsOf(ONE_HIT, Purge(s, "k", 11).log, s.flights[2]) == 1
  {
    var s0 := System(ONE_RECORD, map[], 0, [FIRST]);
    var s1 := System(ONE_RECORD, map[2 := Flight("k", 9, Started)], 9, [FIRST]);
    s := System(ONE_RECORD, map[2 := Flight("k", 9, Cleaned)], 9, [FIRST]);
    FirstRequest();
    assert Enabled(ONE_HIT, s0, Start(2, "k", 9)) && Act(ONE_HIT, s0, Start(2, "k", 9)) == s1;
    RecordKept();
    assert Enabled(ONE_HIT, s1, Remove(2, 9)) && Act(ONE_HIT, s1, Remove(2, 9)) == s;
    OneHit();
    hide Reachable, HitsOf;
    ReachableStep(ONE_HIT, s0, Start(2, "k", 9));
    ReachableStep(ONE_HIT, s1, Remove(2, 9));
  }

  /** Cleaning and adding where there are no records yet. */
  lemma NoRecords(from: int, to: int, x: int)
    ensures Cut([], from, to) == [] && Inserted([], x) == [x]
  {
    assert LowerBound([], from) == 0 && LowerBound([], to + 1) == 0 && LowerBound([], x) == 0;
  }

  lemma NothingToSweep(key: string, cutoff: int, reading: int)
    ensures Sweep([], key, cutoff, reading) == []
  {
  }

  lemma RecordKept()
    ensures Cut([0], ZERO_TIME_NANO, -1) == [0] && Sweep([FIRST], "k", -1, 9) == [FIRST]
  {
    assert LowerBound([0], ZERO_TIME_NANO) == 0 && LowerBound([0], 0) == 0;
  }

  lemma OneHit()
    ensures HitsOf(ONE_HIT, Forget([FIRST], "k", 11), Flight("k", 9, Cleaned)) == 1
  {
    var log := Forget([FIRST], "k", 11);
    assert log == [FIRST.(place := Swept(11))] && log[..0] == [];
    var p := InWindow("k", -1, 9);
    assert p(log[0]) && Number(log, p) == Number(log[..0], p) + 1;
  }

  const SLOW := Flight("k", 0, Cleaned)
  const OVERTAKING := Entry("k", 1, 1, Pending, false, false, 0, 0)

  lemma SecondCleans()
    ensures var s3 := System(NO_RECORD, map[1 := SLOW, 2 := Flight("k", 1, Started)], 1, []);
            && Enabled(ONE_HIT, s3, Remove(2, 1))
            && Act(ONE_HIT, s3, Remove(2, 1))
               == System(NO_RECORD, map[1 := SLOW, 2 := Flight("k", 1, Cleaned)], 1, [])
  {
    NoRecords(ZERO_TIME_NANO, -9, 0);
    NothingToSweep("k", -9, 1);
    hide Cut, Sweep;
  }

  /** A request of 0 has cleaned up, and one of 1 has too. */
  lemma BothCleaned()
    ensures Reachable(ONE_HIT, System(NO_RECORD, map[1 := SLOW, 2 := Flight("k", 1, Cleaned)], 1, []))
  {
    var s1 := System(EMPTY, map[1 := Flight("k", 0, Started)], 0, []);
    var s2 := System(NO_RECORD, map[1 := SLOW], 0, []);
    var s3 := System(NO_RECORD, map[1 := SLOW, 2 := Flight("k", 1, Started)], 1, []);
    assert Enabled(ONE_HIT, Idle(0), Start(1, "k", 0)) && Act(ONE_HIT, Idle(0), Start(1, "k", 0)) == s1;
    assert Enabled(ONE_HIT, s2, Start(2, "k", 1)) && Act(ONE_HIT, s2, Start(2, "k", 1)) == s3;
    hide Act, Enabled, Reachable;
    FirstCleans();
    SecondCleans();
    IdleReachable(ONE_HIT, 0);
    ReachableStep(ONE_HIT, Idle(0), Start(1, "k", 0));
    ReachableStep(ONE_HIT, s1, Remove(1, 0));
    ReachableStep(ONE_HIT, s2, Start(2, "k", 1));
    ReachableStep(ONE_HIT, s3, Remove(2, 1));
  }

  const OVERTAKEN := System(
    Store(map["k" := [1]], map[]), map[1 := SLOW, 2 := Flight("k", 1, Added(0))], 1, [OVERTAKING.(place := InStore)])

  lemma OvertakenIsReachable()
    ensures Reachable(ONE_HIT, OVERTAKEN)
  {
    var s4 := System(NO_RECORD, map[1 := SLOW, 2 := Flight("k", 1, Cleaned)], 1, []);
    var s5 := System(NO_RECORD, map[1 := SLOW, 2 := Flight("k", 1, Admitted(0))], 1, [OVERTAKING]);
    NoRecords(0, 0, 1);
    hide Cut, Sweep, Inserted, LowerBound, Reachable;
    assert Enabled(ONE_HIT, s4, Tally(2, 1)) && Act(ONE_HIT, s4, Tally(2, 1)) == s5;
    assert Enabled(ONE_HIT, s5, Add(2, 1)) && Act(ONE_HIT, s5, Add(2, 1)) == OVERTAKEN;
    hide Act, Enabled;
    BothCleaned();
    ReachableStep(ONE_HIT, s4, Tally(2, 1));
    ReachableStep(ONE_HIT, s5, Add(2, 1));
  }

  lemma NoHit()
    ensures HitsOf(ONE_HIT, OVERTAKEN.log, SLOW) == 0
  {
    NumberNone(OVERTAKEN.log, InWindow("k", -10, 0));
  }

  /** A request of 0 overtaken by one of 1: refused although its own window is empty. */
  lemma RefusedTooFewExample()
    ensures Reachable(ONE_HIT, OVERTAKEN) && Enabled(ONE_HIT, OVERTAKEN, Tally(1, 1)) && OVERTAKEN.flights[1].at == 0
    ensures 1 !in Act(ONE_HIT, OVERTAKEN, Tally(1, 1)).flights
    ensures HitsOf(ONE_HIT, Purge(OVERTAKEN, "k", 1).log, OVERTAKEN.flights[1]) == 0
  {
    hide Reachable, HitsOf, NewEntry;
    OvertakenIsReachable();
    NoHit();
    assert Purge(OVERTAKEN, "k", 1).log == OVERTAKEN.log;
  }
}
