/**
 The limiter with any number of requests in flight. Reading the clock and the four calls to the repository are steps of
 their own, each at its own clock reading, and steps of different requests may be ordered in any way.
 */
module RateRequests {
  import opened Options
  import opened RateStore
  import opened RateLimiter
  import opened RateLedger

  /** How far a request has come; once admitted it has a place in the ledger. */
  datatype Stage = Started | Cleaned | Admitted(n: nat) | Added(n: nat)

  datatype Flight = Flight(key: string, at: int, stage: Stage)

  /** The ledger only describes the run; no step looks at it. */
  datatype System = System(store: Store, flights: map<int, Flight>, clock: int, log: seq<Entry>)

  datatype Action =
    | Start(id: int, key: string, now: int)
    | Remove(id: int, now: int)
    | Tally(id: int, now: int)
    | Add(id: int, now: int)
    | Expire(id: int, now: int)
    | Fail(id: int, now: int)

  predicate Enabled(cfg: Config, s: System, a: Action) {
    && s.clock <= a.now
    && match a
       case Start(id, _, now) => id !in s.flights && Representable(cfg, now)
       case Remove(id, _) => id in s.flights && s.flights[id].stage.Started?
       case Tally(id, _) => id in s.flights && s.flights[id].stage.Cleaned?
       case Add(id, _) => id in s.flights && s.flights[id].stage.Admitted? && s.flights[id].stage.n < |s.log|
       case Expire(id, _) => id in s.flights && s.flights[id].stage.Added? && s.flights[id].stage.n < |s.log|
       case Fail(id, _) =>
         id in s.flights && (Slot(s.flights[id]).Some? ==> Slot(s.flights[id]).value < |s.log|)
  }

  /** The place in the ledger of a request in flight. */
  function Slot(f: Flight): Option<nat> {
    match f.stage
    case Admitted(n) => Some(n)
    case Added(n) => Some(n)
    case _ => None
  }

  // ---- What happens to the ledger ----

  function SweptEntry(e: Entry, key: string, cutoff: int, reading: int): Entry {
    if e.key == key && e.place.InStore? && e.at <= cutoff then e.(place := Swept(reading)) else e
  }

  function Sweep(log: seq<Entry>, key: string, cutoff: int, reading: int): seq<Entry> {
    seq(|log|, i requires 0 <= i < |log| => SweptEntry(log[i], key, cutoff, reading))
  }

  /** An expiry takes all records of a key, also those of requests that have not set their expiry yet. */
  function ForgottenEntry(e: Entry, key: string, now: int): Entry {
    if e.key == key && e.place.InStore? then e.(place := if e.done then Swept(now) else Lost) else e
  }

  function Forget(log: seq<Entry>, key: string, now: int): seq<Entry> {
    seq(|log|, i requires 0 <= i < |log| => ForgottenEntry(log[i], key, now))
  }

  /** Every call but the last begins by dropping a key that has expired. */
  function Purge(s: System, key: string, now: int): System {
    s.(store := s.store.Purged(key, now), clock := now,
       log := if s.store.Expired(key, now) then Forget(s.log, key, now) else s.log)
  }

  function Clean(cfg: Config, s: System, f: Flight, now: int): System {
    if s.store.Expired(f.key, now) then Purge(s, f.key, now)
    else
      s.(store := s.store.Removed(f.key, ZERO_TIME_NANO, f.at - cfg.window, now), clock := now,
         log := Sweep(s.log, f.key, f.at - cfg.window, f.at))
  }

  function NewEntry(cfg: Config, s: System, f: Flight): Entry {
    Entry(f.key, f.at, s.clock, Pending, false, false,
          Number(s.log, PendingOf(f.key)), Number(s.log, LostSince(f.key, s.clock - cfg.window)))
  }

  /** The ledger entry of a request that was let through. */
  function Admit(cfg: Config, s: System, id: int): System
    requires id in s.flights
  {
    var f := s.flights[id];
    s.(log := s.log + [NewEntry(cfg, s, f)], flights := s.flights[id := f.(stage := Admitted(|s.log|))])
  }

  function Insert(s: System, id: int, n: nat): System
    requires id in s.flights && n < |s.log|
  {
    var f := s.flights[id];
    s.(store := s.store.Added(f.key, f.at, s.clock),
       log := s.log[n := s.log[n].(place := InStore)],
       flights := s.flights[id := f.(stage := Added(n))])
  }

  function Act(cfg: Config, s: System, a: Action): System
    requires Enabled(cfg, s, a)
  {
    match a
    case Start(id, key, now) => s.(flights := s.flights[id := Flight(key, now, Started)], clock := now)
    case Remove(id, now) =>
      Clean(cfg, s, s.flights[id], now).(flights := s.flights[id := s.flights[id].(stage := Cleaned)])
    case Tally(id, now) =>
      var p := Purge(s, s.flights[id].key, now);
      if s.store.Count(s.flights[id].key, now) >= cfg.maxHits then p.(flights := s.flights - {id})
      else Admit(cfg, p, id)
    case Add(id, now) => Insert(Purge(s, s.flights[id].key, now), id, s.flights[id].stage.n)
    case Expire(id, now) =>
      var n := s.flights[id].stage.n;
      System(s.store.Expiring(s.flights[id].key, cfg.window, now), s.flights - {id}, now,
             s.log[n := s.log[n].(done := true)])
    case Fail(id, now) => Abort(s, id, now)
  }

  function FailedEntry(e: Entry): Entry {
    e.(failed := true, place := if e.place.Pending? then Dropped else e.place)
  }

  /** The next call of a request fails without effect, and the request is answered 500; what it added stays. */
  function Abort(s: System, id: int, now: int): System
    requires id in s.flights && (Slot(s.flights[id]).Some? ==> Slot(s.flights[id]).value < |s.log|)
  {
    s.(flights := s.flights - {id}, clock := now,
       log := match Slot(s.flights[id])
              case None => s.log
              case Some(n) => s.log[n := FailedEntry(s.log[n])])
  }

  predicate EnabledAll(cfg: Config, s: System, acts: seq<Action>)
    decreases |acts|
  {
    acts == [] || (Enabled(cfg, s, acts[0]) && EnabledAll(cfg, Act(cfg, s, acts[0]), acts[1..]))
  }

  function ActAll(cfg: Config, s: System, acts: seq<Action>): System
    requires EnabledAll(cfg, s, acts)
    decreases |acts|
  {
    if acts == [] then s else ActAll(cfg, Act(cfg, s, acts[0]), acts[1..])
  }

  function Idle(clock: int): System {
    System(EMPTY, map[], clock, [])
  }

  /** Some interleaving of requests leads to the state. */
  ghost predicate Reachable(cfg: Config, s: System) {
    exists since, acts :: EnabledAll(cfg, Idle(since), acts) && ActAll(cfg, Idle(since), acts) == s
  }

  lemma {:induction false} ActLast(cfg: Config, s: System, acts: seq<Action>, a: Action)
    requires EnabledAll(cfg, s, acts) && Enabled(cfg, ActAll(cfg, s, acts), a)
    ensures EnabledAll(cfg, s, acts + [a])
    ensures ActAll(cfg, s, acts + [a]) == Act(cfg, ActAll(cfg, s, acts), a)
    decreases |acts|
  {
    hide Act, Enabled;
    if acts == [] {
      assert acts + [a] == [a] && [a][1..] == [];
      assert EnabledAll(cfg, Act(cfg, s, a), []) && ActAll(cfg, Act(cfg, s, a), []) == Act(cfg, s, a);
    } else {
      assert (acts + [a])[1..] == acts[1..] + [a];
      ActLast(cfg, Act(cfg, s, acts[0]), acts[1..], a);
    }
  }

  lemma ReachableStep(cfg: Config, s: System, a: Action)
    requires Reachable(cfg, s) && Enabled(cfg, s, a)
    ensures Reachable(cfg, Act(cfg, s, a))
  {
    hide Act, Enabled, EnabledAll, ActAll;
    var since, acts :| EnabledAll(cfg, Idle(since), acts) && ActAll(cfg, Idle(since), acts) == s;
    ActLast(cfg, Idle(since), acts, a);
  }

  lemma IdleReachable(cfg: Config, since: int)
    ensures Reachable(cfg, Idle(since))
  {
    assert EnabledAll(cfg, Idle(since), []) && ActAll(cfg, Idle(since), []) == Idle(since);
  }

  /** The steps up to the verdict, undisturbed. */
  lemma AloneUntilVerdict(cfg: Config, s: System, id: int, key: string, now: int, clocks: Readings)
    returns (s3: System)
    requires id !in s.flights && Representable(cfg, now)
    requires s.clock <= now <= clocks.remove <= clocks.count
    ensures EnabledAll(cfg, s, [Start(id, key, now), Remove(id, clocks.remove), Tally(id, clocks.count)])
    ensures s3 == ActAll(cfg, s, [Start(id, key, now), Remove(id, clocks.remove), Tally(id, clocks.count)])
    ensures s3.clock == clocks.count
    ensures var cleaned := s.store.Removed(key, ZERO_TIME_NANO, now - cfg.window, clocks.remove);
            && s3.store == cleaned.Purged(key, clocks.count)
            && (id in s3.flights <==> cleaned.Count(key, clocks.count) < cfg.maxHits)
            && (id in s3.flights ==> s3.log != [] && s3.flights[id] == Flight(key, now, Admitted(|s3.log| - 1)))
  {
    hide Store.Purged, Store.Removed, Store.Count, NewEntry;
    var a, b, c := Start(id, key, now), Remove(id, clocks.remove), Tally(id, clocks.count);
    var s1 := Act(cfg, s, a);
    ExpiredIsRemoved(cfg, s1, s1.flights[id], clocks.remove);
    var s2 := Act(cfg, s1, b);
    s3 := Act(cfg, s2, c);
    assert [a, b, c][1..] == [b, c] && [b, c][1..] == [c] && [c][1..] == [];
    assert EnabledAll(cfg, s3, []) && ActAll(cfg, s3, []) == s3;
    assert EnabledAll(cfg, s2, [c]) && ActAll(cfg, s2, [c]) == s3;
    assert EnabledAll(cfg, s1, [b, c]) && ActAll(cfg, s1, [b, c]) == s3;
  }

  lemma ExpiredIsRemoved(cfg: Config, s: System, f: Flight, now: int)
    ensures var q := Clean(cfg, s, f, now);
            q.store == s.store.Removed(f.key, ZERO_TIME_NANO, f.at - cfg.window, now)
            && q.clock == now && q.flights == s.flights
  {
    hide Cut;
  }

  /** The steps of one request, undisturbed, are the handler's. */
  lemma AloneIsServe(cfg: Config, s: System, id: int, key: string, now: int, clocks: Readings)
    requires id !in s.flights && Representable(cfg, now)
    requires s.clock <= now <= clocks.remove <= clocks.count <= clocks.add <= clocks.expire
    ensures var first := [Start(id, key, now), Remove(id, clocks.remove), Tally(id, clocks.count)];
            var last := [Add(id, clocks.add), Expire(id, clocks.expire)];
            var (store, verdict) := ServeWith(cfg, None, s.store, key, now, clocks);
            && EnabledAll(cfg, s, first)
            && var s3 := ActAll(cfg, s, first);
            && (verdict == Passed <==> id in s3.flights)
            && if verdict != Passed then s3.store == store
               else EnabledAll(cfg, s3, last) && ActAll(cfg, s3, last).store == store
  {
    var s3 := AloneUntilVerdict(cfg, s, id, key, now, clocks);
    hide Act, Enabled, Store.Purged, Store.Removed, Store.Count, Store.Added;
    if id in s3.flights {
      AloneFinishes(cfg, s3, id, key, now, clocks);
    }
  }

  lemma AloneFinishes(cfg: Config, s: System, id: int, key: string, now: int, clocks: Readings)
    requires s.log != [] && id in s.flights && s.flights[id] == Flight(key, now, Admitted(|s.log| - 1))
    requires s.clock <= clocks.add <= clocks.expire
    ensures var last := [Add(id, clocks.add), Expire(id, clocks.expire)];
            && EnabledAll(cfg, s, last)
            && ActAll(cfg, s, last).store
               == s.store.Added(key, now, clocks.add).Expiring(key, cfg.window, clocks.expire)
  {
    hide Store.Purged, Store.Added, Store.Expiring;
    var d, e := Add(id, clocks.add), Expire(id, clocks.expire);
    AddedTwicePurged(s.store, key, now, clocks.add);
    var s4 := Act(cfg, s, d);
    assert [d, e][1..] == [e] && [e][1..] == [];
    assert EnabledAll(cfg, s4, [e]);
    assert ActAll(cfg, s4, [e]) == Act(cfg, s4, e);
  }

  /** The steps of a request before its failing call. */
  function StepsBefore(call: RepoCall, id: int, key: string, now: int, clocks: Readings): seq<Action> {
    match call
    case Removing => [Start(id, key, now)]
    case Counting => [Start(id, key, now), Remove(id, clocks.remove)]
    case Adding => [Start(id, key, now), Remove(id, clocks.remove), Tally(id, clocks.count)]
    case Expiring => [Start(id, key, now), Remove(id, clocks.remove), Tally(id, clocks.count)] + [Add(id, clocks.add)]
  }

  /** The steps of one request with a failing call, undisturbed, are the handler's too. */
  lemma AloneFails(cfg: Config, s: System, id: int, key: string, now: int, clocks: Readings, call: RepoCall, at: int)
    requires id !in s.flights && Representable(cfg, now)
    requires s.clock <= now <= clocks.remove <= clocks.count <= clocks.add <= at
    requires ServeWith(cfg, Some(call), s.store, key, now, clocks).1 == InternalError
    ensures var steps := StepsBefore(call, id, key, now, clocks);
            && EnabledAll(cfg, s, steps) && Enabled(cfg, ActAll(cfg, s, steps), Fail(id, at))
            && Act(cfg, ActAll(cfg, s, steps), Fail(id, at)).store
               == ServeWith(cfg, Some(call), s.store, key, now, clocks).0
  {
    hide Store.Purged, Store.Removed, Store.Count, Store.Added;
    match call
    case Removing =>
      FirstSteps(cfg, s, id, key, now, clocks);
    case Counting =>
      FirstSteps(cfg, s, id, key, now, clocks);
    case Adding =>
      var s3 := AloneUntilVerdict(cfg, s, id, key, now, clocks);
    case Expiring =>
      var s3 := AloneUntilVerdict(cfg, s, id, key, now, clocks);
      AddedTwicePurged(s3.store, key, now, clocks.add);
      ActLast(cfg, s, StepsBefore(Adding, id, key, now, clocks), Add(id, clocks.add));
  }

  lemma FirstSteps(cfg: Config, s: System, id: int, key: string, now: int, clocks: Readings)
    requires id !in s.flights && Representable(cfg, now) && s.clock <= now <= clocks.remove
    ensures var a, b := Start(id, key, now), Remove(id, clocks.remove);
            && EnabledAll(cfg, s, [a]) && ActAll(cfg, s, [a]) == Act(cfg, s, a)
            && EnabledAll(cfg, s, [a, b]) && ActAll(cfg, s, [a, b]) == Act(cfg, Act(cfg, s, a), b)
            && Act(cfg, Act(cfg, s, a), b).clock == clocks.remove
            && Act(cfg, Act(cfg, s, a), b).store
               == s.store.Removed(key, ZERO_TIME_NANO, now - cfg.window, clocks.remove)
  {
    hide Store.Purged, Store.Removed;
    var a, b := Start(id, key, now), Remove(id, clocks.remove);
    var s1 := Act(cfg, s, a);
    ExpiredIsRemoved(cfg, s1, s1.flights[id], clocks.remove);
    assert [a, b][1..] == [b] && [b][1..] == [];
    assert EnabledAll(cfg, s1, []) && ActAll(cfg, s1, []) == s1;
    assert EnabledAll(cfg, s1, [b]) && ActAll(cfg, s1, [b]) == Act(cfg, s1, b);
  }

  lemma AddedTwicePurged(st: Store, key: string, at: int, now: int)
    ensures st.Purged(key, now).Added(key, at, now) == st.Added(key, at, now)
  {
    hide Inserted;
  }

  // ---- The invariant ----

  /** The store holds exactly the records the ledger says. */
  ghost predicate Tied(s: System) {
    s.store.Valid() && forall key :: multiset(s.store.Records(key)) == Times(s.log, key)
  }

  /** The order of the clock readings. */
  ghost predicate Clocks(cfg: Config, s: System) {
    && (forall i :: 0 <= i < |s.log| ==> EntryClocks(cfg, s.log[i], s.clock))
    && (forall id :: id in s.flights ==> s.flights[id].at <= s.clock && Representable(cfg, s.flights[id].at))
  }

  predicate EntryClocks(cfg: Config, e: Entry, clock: int) {
    && ZERO_TIME_NANO <= e.at <= e.counted <= clock
    && (e.place.Dropped? ==> e.failed)
    && (e.place.Swept? ==> e.at <= e.place.reading - cfg.window && e.place.reading <= clock)
  }

  /** Each admitted request in flight has an entry of its own, and unfinished entries have one. */
  ghost predicate Linked(s: System) {
    && (forall id :: id in s.flights ==> HasEntry(s.log, s.flights[id]))
    && (forall id, other :: id in s.flights && other in s.flights && id != other && Slot(s.flights[id]).Some?
          ==> Slot(s.flights[id]) != Slot(s.flights[other]))
    && (forall i :: 0 <= i < |s.log| && !s.log[i].done && !s.log[i].failed ==> Owned(s, i))
    && (forall i :: 0 <= i < |s.log| && s.log[i].place.Pending? ==> !s.log[i].done && !s.log[i].failed)
  }

  predicate HasEntry(log: seq<Entry>, f: Flight) {
    Slot(f).Some? ==>
      var n := Slot(f).value;
      && n < |log| && log[n].key == f.key && log[n].at == f.at && !log[n].done && !log[n].failed
      && (f.stage.Admitted? <==> log[n].place.Pending?)
  }

  ghost predicate Owned(s: System, i: nat) {
    exists id :: id in s.flights && Slot(s.flights[id]) == Some(i)
  }

  /** A finished record of a key, and a lost one, are no younger than the key's expiry was set. */
  ghost predicate Expiries(cfg: Config, s: System) {
    && (forall key :: key in s.store.expires ==> s.store.expires[key] - cfg.window <= s.clock)
    && (forall i :: 0 <= i < |s.log| ==> EntryExpiry(cfg, s.store.expires, s.log[i]))
  }

  predicate EntryExpiry(cfg: Config, expires: map<string, int>, e: Entry) {
    && (e.place.InStore? && e.done ==> e.key in expires)
    && ((e.place.InStore? && e.done) || e.place.Lost? ==> e.key in expires ==> e.at <= expires[e.key] - cfg.window)
  }

  /** The windows that end at t hold few admissions up to entry n, if they hold that one. */
  predicate BoundAt(cfg: Config, log: seq<Entry>, n: nat, t: int)
    requires n < |log|
  {
    InTimeOf(log[n].key, t - cfg.window, t)(log[n]) ==>
      Number(log[..n + 1], InTimeOf(log[n].key, t - cfg.window, t)) <= cfg.maxHits + log[n].ahead + log[n].lost
  }

  /** What each admission found in its windows when it was counted. */
  ghost predicate Bounded(cfg: Config, log: seq<Entry>) {
    forall n, t :: 0 <= n < |log| ==> BoundAt(cfg, log, n, t)
  }

  ghost predicate Inv(cfg: Config, s: System) {
    Tied(s) && Clocks(cfg, s) && Linked(s) && Expiries(cfg, s) && Bounded(cfg, s.log)
  }
}
