/** How far requests in flight together can overrun a window of the limiter. */
module RateCrowd {
  import opened Options
  import opened RateStore
  import opened RateLimiter
  import opened RateLedger
  import opened RateRequests
  import opened RateInvariant

  // ---- Windows ----

  /** The last admission that was counted before the window had passed. */
  predicate LastInTime(log: seq<Entry>, n: int, key: string, after: int, upTo: int) {
    0 <= n < |log| && InTimeOf(key, after, upTo)(log[n])
    && forall i :: n < i < |log| ==> !InTimeOf(key, after, upTo)(log[i])
  }

  lemma {:induction false} FindLastInTime(log: seq<Entry>, key: string, after: int, upTo: int) returns (n: int)
    ensures LastInTime(log, n, key, after, upTo)
            || (n < 0 && forall i :: 0 <= i < |log| ==> !InTimeOf(key, after, upTo)(log[i]))
  {
    n := |log| - 1;
    while n >= 0 && !InTimeOf(key, after, upTo)(log[n])
      invariant -1 <= n < |log|
      invariant forall i :: n < i < |log| ==> !InTimeOf(key, after, upTo)(log[i])
    {
      n := n - 1;
    }
  }

  /**
   In every interleaving a window (t - window, t] holds at most maxHits admissions, and besides them those that the
   last one counted in time could not see, because they were pending or lost, and those counted after t.
   */
  lemma WindowOverrun(cfg: Config, s: System, key: string, t: int) returns (n: int)
    requires Inv(cfg, s)
    ensures var hits := Number(s.log, InWindow(key, t - cfg.window, t));
            var late := Number(s.log, LateOf(key, t - cfg.window, t));
            if LastInTime(s.log, n, key, t - cfg.window, t)
            then hits <= cfg.maxHits + s.log[n].ahead + s.log[n].lost + late
            else hits == late
  {
    var p, late := InTimeOf(key, t - cfg.window, t), LateOf(key, t - cfg.window, t);
    NumberSplits(s.log, InWindow(key, t - cfg.window, t), p, late);
    n := FindLastInTime(s.log, key, t - cfg.window, t);
    if LastInTime(s.log, n, key, t - cfg.window, t) {
      assert BoundAt(cfg, s.log, n, t);
      NumberUpTo(s.log, n + 1, p);
    } else {
      NumberNone(s.log, p);
    }
  }

  // ---- Crowds ----

  function InFlight(s: System, key: string): set<int> {
    set id | id in s.flights && s.flights[id].key == key
  }

  /** Requests that had begun by t and are still to be counted. */
  function Uncounted(s: System, key: string, t: int): set<int> {
    set id | id in s.flights && s.flights[id].key == key && s.flights[id].at <= t && Slot(s.flights[id]).None?
  }

  /** At no point of the run are more than crowd requests of the key in flight. */
  predicate CrowdAtMost(cfg: Config, s: System, acts: seq<Action>, key: string, crowd: nat)
    requires EnabledAll(cfg, s, acts)
    decreases |acts|
  {
    |InFlight(s, key)| <= crowd && (acts == [] || CrowdAtMost(cfg, Act(cfg, s, acts[0]), acts[1..], key, crowd))
  }

  /** No admission found more pending or lost ones than there were other requests. */
  ghost predicate FewUnseen(cfg: Config, s: System, key: string, crowd: nat) {
    && (forall n :: 0 <= n < |s.log| && s.log[n].key == key ==> FewAt(s.log, s.log[n], crowd))
    && Number(s.log, LostSince(key, s.clock - cfg.window)) < crowd
  }

  predicate FewAt(log: seq<Entry>, e: Entry, crowd: nat) {
    e.ahead < crowd && e.lost < crowd && e.lost <= Number(log, LostOf(e.key))
  }

  /** Whoever was counted late had begun in time, so was in flight as the window passed. */
  ghost predicate FewLate(cfg: Config, s: System, key: string, crowd: nat) {
    forall t :: LateAt(cfg, s, key, crowd, t)
  }

  predicate LateAt(cfg: Config, s: System, key: string, crowd: nat, t: int) {
    var late := Number(s.log, LateOf(key, t - cfg.window, t));
    if s.clock <= t then late == 0 else late + |Uncounted(s, key, t)| <= crowd
  }

  lemma SmallerSet(a: set<int>, b: set<int>)
    requires a <= b
    ensures |a| <= |b|
  {
    assert b == a + (b - a);
  }

  lemma UncountedInFlight(s: System, key: string, t: int)
    ensures |Uncounted(s, key, t)| <= |InFlight(s, key)|
  {
    SmallerSet(Uncounted(s, key, t), InFlight(s, key));
  }

  /** The entries that requests in flight other than id own are fewer than the requests in flight. */
  lemma OwnedByOthers(s: System, id: int, key: string, p: Choice, crowd: nat)
    requires Linked(s) && id in s.flights && s.flights[id].key == key && |InFlight(s, key)| <= crowd
    requires forall i :: 0 <= i < |s.log| && p(s.log[i]) ==>
               s.log[i].key == key && !s.log[i].done && !s.log[i].failed && Slot(s.flights[id]) != Some(i)
    ensures Number(s.log, p) < crowd
  {
    var slots := map o | o in s.flights && o != id && s.flights[o].key == key && Slot(s.flights[o]).Some?
                   :: Slot(s.flights[o]).value;
    forall i | 0 <= i < |s.log| && p(s.log[i]) ensures exists o :: o in slots && slots[o] == i {
      assert Owned(s, i);
      var o :| o in s.flights && Slot(s.flights[o]) == Some(i);
      assert HasEntry(s.log, s.flights[o]);
      assert o in slots && slots[o] == i;
    }
    NumberByOwner(s.log, p, slots);
    assert id !in slots.Keys && slots.Keys + {id} <= InFlight(s, key);
    SmallerSet(slots.Keys + {id}, InFlight(s, key));
  }

  // ---- Purging in a crowd ----

  /** An expiry loses only records of other requests in flight; those lost before have left every window by then. */
  lemma PurgeFewUnseen(cfg: Config, s: System, id: int, now: int, key: string, crowd: nat)
    requires Inv(cfg, s) && s.clock <= now && id in s.flights && !s.flights[id].stage.Added?
    requires FewUnseen(cfg, s, key, crowd) && |InFlight(s, key)| <= crowd
    ensures FewUnseen(cfg, Purge(s, s.flights[id].key, now), key, crowd)
  {
    hide Inv, InFlight, Number, Store.Purged, Store.Expired;
    var p := Purge(s, s.flights[id].key, now);
    if s.store.Expired(s.flights[id].key, now) && key == s.flights[id].key {
      LostInFlight(cfg, s, id, now, crowd);
    } else {
      NumberAtMost(p.log, s.log, LostSince(key, now - cfg.window), LostSince(key, s.clock - cfg.window));
    }
    NumberAtMost(s.log, p.log, LostOf(key), LostOf(key));
    forall n | 0 <= n < |p.log| && p.log[n].key == key ensures FewAt(p.log, p.log[n], crowd) {
      assert FewAt(s.log, s.log[n], crowd);
    }
  }

  lemma LostInFlight(cfg: Config, s: System, id: int, now: int, crowd: nat)
    requires Inv(cfg, s) && s.clock <= now && id in s.flights && !s.flights[id].stage.Added?
    requires s.store.Expired(s.flights[id].key, now) && |InFlight(s, s.flights[id].key)| <= crowd
    ensures Number(Forget(s.log, s.flights[id].key, now), LostSince(s.flights[id].key, now - cfg.window)) < crowd
  {
    var key := s.flights[id].key;
    var p, unfinished := LostSince(key, now - cfg.window), UnfinishedOf(key);
    forall i | 0 <= i < |s.log| && p(ForgottenEntry(s.log[i], key, now)) ensures unfinished(s.log[i]) {
      assert EntryExpiry(cfg, s.store.expires, s.log[i]);
    }
    NumberAtMost(Forget(s.log, key, now), s.log, p, unfinished);
    assert HasEntry(s.log, s.flights[id]);
    OwnedByOthers(s, id, key, unfinished, crowd);
  }

  /** Records of requests that have not set their expiry yet. */
  function UnfinishedOf(key: string): Choice {
    (e: Entry) => e.key == key && e.place.InStore? && !e.done && !e.failed
  }

  // ---- Unseen admissions, step by step ----

  /** Steps that leave lost entries lost, add none and let time pass. */
  lemma FewUnseenKept(cfg: Config, s: System, q: System, key: string, crowd: nat)
    requires FewUnseen(cfg, s, key, crowd) && s.clock <= q.clock && SameShape(s.log, q.log)
    requires forall i :: 0 <= i < |s.log| ==> (LostOf(key)(s.log[i]) <==> LostOf(key)(q.log[i]))
    ensures FewUnseen(cfg, q, key, crowd)
  {
    NumberAtMost(q.log, s.log, LostSince(key, q.clock - cfg.window), LostSince(key, s.clock - cfg.window));
    NumberAtMost(s.log, q.log, LostOf(key), LostOf(key));
    forall n | 0 <= n < |q.log| && q.log[n].key == key ensures FewAt(q.log, q.log[n], crowd) {
      assert FewAt(s.log, s.log[n], crowd);
    }
  }

  lemma AdmitFewUnseen(cfg: Config, s: System, id: int, key: string, crowd: nat)
    requires Inv(cfg, s) && id in s.flights && s.flights[id].stage.Cleaned?
    requires FewUnseen(cfg, s, key, crowd) && |InFlight(s, key)| <= crowd
    ensures FewUnseen(cfg, Admit(cfg, s, id), key, crowd)
  {
    var q, e := Admit(cfg, s, id), NewEntry(cfg, s, s.flights[id]);
    NumberSnoc(s.log, e, LostSince(key, s.clock - cfg.window));
    NumberSnoc(s.log, e, LostOf(key));
    if s.flights[id].key == key {
      OwnedByOthers(s, id, key, PendingOf(key), crowd);
      NumberAtMost(s.log, s.log, LostSince(key, s.clock - cfg.window), LostOf(key));
    }
    forall n | 0 <= n < |q.log| && q.log[n].key == key ensures FewAt(q.log, q.log[n], crowd) {
      if n < |s.log| {
        assert FewAt(s.log, s.log[n], crowd);
      }
    }
  }

  lemma ActFewUnseen(cfg: Config, s: System, a: Action, key: string, crowd: nat)
    requires Inv(cfg, s) && Enabled(cfg, s, a) && FewUnseen(cfg, s, key, crowd) && |InFlight(s, key)| <= crowd
    ensures FewUnseen(cfg, Act(cfg, s, a), key, crowd)
  {
    hide FewUnseen, Number, Inv, InFlight;
    var q := Act(cfg, s, a);
    match a
    case Start(_, _, _) => FewUnseenKept(cfg, s, q, key, crowd);
    case Expire(_, _) => FewUnseenKept(cfg, s, q, key, crowd);
    case Remove(id, now) =>
      if s.store.Expired(s.flights[id].key, now) {
        PurgeFewUnseen(cfg, s, id, now, key, crowd);
        FewUnseenKept(cfg, Purge(s, s.flights[id].key, now), q, key, crowd);
      } else {
        FewUnseenKept(cfg, s, q, key, crowd);
      }
    case Tally(id, now) =>
      var p := Purge(s, s.flights[id].key, now);
      PurgeFewUnseen(cfg, s, id, now, key, crowd);
      if s.store.Count(s.flights[id].key, now) >= cfg.maxHits {
        FewUnseenKept(cfg, p, q, key, crowd);
      } else {
        PurgeKeeps(cfg, s, s.flights[id].key, now);
        SameCrowd(s, p, key);
        AdmitFewUnseen(cfg, p, id, key, crowd);
      }
    case Add(id, now) =>
      var p := Purge(s, s.flights[id].key, now);
      PurgeFewUnseen(cfg, s, id, now, key, crowd);
      AddedWasPending(cfg, s, a);
      FewUnseenKept(cfg, p, q, key, crowd);
    case Fail(id, now) => FailFewUnseen(cfg, s, id, now, key, crowd);
  }

  lemma FailFewUnseen(cfg: Config, s: System, id: int, now: int, key: string, crowd: nat)
    requires Inv(cfg, s) && Enabled(cfg, s, Fail(id, now)) && FewUnseen(cfg, s, key, crowd)
    ensures FewUnseen(cfg, Abort(s, id, now), key, crowd)
  {
    hide Inv;
    var q := Abort(s, id, now);
    NumberAtMost(q.log, s.log, LostSince(key, now - cfg.window), LostSince(key, s.clock - cfg.window));
    NumberAtMost(s.log, q.log, LostOf(key), LostOf(key));
    forall n | 0 <= n < |q.log| && q.log[n].key == key ensures FewAt(q.log, q.log[n], crowd) {
      assert FewAt(s.log, s.log[n], crowd);
    }
  }

  lemma SameCrowd(s: System, p: System, key: string)
    requires p.flights == s.flights
    ensures InFlight(p, key) == InFlight(s, key)
  {
  }

  // ---- Late admissions, step by step ----

  lemma CountedInTime(cfg: Config, s: System, key: string, t: int)
    requires Clocks(cfg, s) && s.clock <= t
    ensures Number(s.log, LateOf(key, t - cfg.window, t)) == 0
  {
    forall i | 0 <= i < |s.log| ensures !LateOf(key, t - cfg.window, t)(s.log[i]) {
      assert EntryClocks(cfg, s.log[i], s.clock);
    }
    NumberNone(s.log, LateOf(key, t - cfg.window, t));
  }

  /** What is late and what may still be, before a step: no more than the crowd. */
  lemma LateBefore(cfg: Config, s: System, key: string, crowd: nat, t: int)
    requires LateAt(cfg, s, key, crowd, t) && |InFlight(s, key)| <= crowd
    ensures Number(s.log, LateOf(key, t - cfg.window, t)) + |Uncounted(s, key, t)| <= crowd
  {
    UncountedInFlight(s, key, t);
  }

  lemma SameLate(s: System, q: System, key: string, after: int, t: int)
    requires SameShape(s.log, q.log)
    ensures Number(s.log, LateOf(key, after, t)) == Number(q.log, LateOf(key, after, t))
  {
    NumberSame(s.log, q.log, LateOf(key, after, t), LateOf(key, after, t));
  }

  lemma TallyLate(cfg: Config, s: System, id: int, now: int, key: string, crowd: nat, t: int)
    requires Inv(cfg, s) && Enabled(cfg, s, Tally(id, now)) && t < now
    requires Number(s.log, LateOf(key, t - cfg.window, t)) + |Uncounted(s, key, t)| <= crowd
    ensures LateAt(cfg, Act(cfg, s, Tally(id, now)), key, crowd, t)
  {
    hide Inv, Number, Uncounted;
    var q, f := Act(cfg, s, Tally(id, now)), s.flights[id];
    var p := Purge(s, f.key, now);
    SameLate(s, p, key, t - cfg.window, t);
    OneFewerUncounted(cfg, s, id, now, key, t);
    NumberSnoc(p.log, NewEntry(cfg, p, f), LateOf(key, t - cfg.window, t));
  }

  lemma OneFewerUncounted(cfg: Config, s: System, id: int, now: int, key: string, t: int)
    requires Enabled(cfg, s, Tally(id, now))
    ensures var q, f := Act(cfg, s, Tally(id, now)), s.flights[id];
            |Uncounted(q, key, t)| == |Uncounted(s, key, t)| - if f.key == key && f.at <= t then 1 else 0
  {
    hide Number, Purge;
    assert Purge(s, s.flights[id].key, now).flights == s.flights by {
      PurgeFlights(s, s.flights[id].key, now);
    }
    var q := Act(cfg, s, Tally(id, now));
    assert Uncounted(q, key, t) == Uncounted(s, key, t) - {id};
  }

  lemma PurgeFlights(s: System, key: string, now: int)
    ensures Purge(s, key, now).flights == s.flights
  {
  }

  lemma FailLate(cfg: Config, s: System, id: int, now: int, key: string, crowd: nat, t: int)
    requires Enabled(cfg, s, Fail(id, now)) && t < now
    requires Number(s.log, LateOf(key, t - cfg.window, t)) + |Uncounted(s, key, t)| <= crowd
    ensures LateAt(cfg, Act(cfg, s, Fail(id, now)), key, crowd, t)
  {
    hide Number;
    var q, late := Abort(s, id, now), LateOf(key, t - cfg.window, t);
    NumberAtMost(q.log, s.log, late, late);
    SmallerSet(Uncounted(q, key, t), Uncounted(s, key, t));
  }

  lemma OtherLate(cfg: Config, s: System, a: Action, key: string, crowd: nat, t: int)
    requires Inv(cfg, s) && Enabled(cfg, s, a) && !a.Tally? && !a.Fail? && t < a.now
    requires Number(s.log, LateOf(key, t - cfg.window, t)) + |Uncounted(s, key, t)| <= crowd
    ensures LateAt(cfg, Act(cfg, s, a), key, crowd, t)
  {
    hide Inv, Number;
    var q := Act(cfg, s, a);
    SameLate(s, q, key, t - cfg.window, t);
    assert Uncounted(q, key, t) == Uncounted(s, key, t);
  }

  lemma ActFewLate(cfg: Config, s: System, a: Action, key: string, crowd: nat)
    requires Inv(cfg, s) && Enabled(cfg, s, a) && FewLate(cfg, s, key, crowd) && |InFlight(s, key)| <= crowd
    ensures FewLate(cfg, Act(cfg, s, a), key, crowd)
  {
    hide Inv, Act, Number, Uncounted, InFlight, LateAt;
    var q := Act(cfg, s, a);
    ActKeeps(cfg, s, a);
    InvClocks(cfg, q);
    ActClock(cfg, s, a);
    forall t ensures LateAt(cfg, q, key, crowd, t) {
      if a.now <= t {
        CountedInTime(cfg, q, key, t);
        NoneLate(cfg, q, key, crowd, t);
      } else {
        assert LateAt(cfg, s, key, crowd, t);
        LateBefore(cfg, s, key, crowd, t);
        if a.Tally? {
          TallyLate(cfg, s, a.id, a.now, key, crowd, t);
        } else if a.Fail? {
          FailLate(cfg, s, a.id, a.now, key, crowd, t);
        } else {
          OtherLate(cfg, s, a, key, crowd, t);
        }
      }
    }
  }

  lemma ActClock(cfg: Config, s: System, a: Action)
    requires Enabled(cfg, s, a)
    ensures Act(cfg, s, a).clock == a.now
  {
  }

  lemma NoneLate(cfg: Config, s: System, key: string, crowd: nat, t: int)
    requires s.clock <= t && Number(s.log, LateOf(key, t - cfg.window, t)) == 0
    ensures LateAt(cfg, s, key, crowd, t)
  {
  }

  // ---- Runs ----

  ghost predicate Crowded(cfg: Config, s: System, key: string, crowd: nat) {
    Inv(cfg, s) && FewUnseen(cfg, s, key, crowd) && FewLate(cfg, s, key, crowd)
  }

  lemma {:induction false} RunKeepsCrowded(cfg: Config, s: System, acts: seq<Action>, key: string, crowd: nat)
    requires EnabledAll(cfg, s, acts) && CrowdAtMost(cfg, s, acts, key, crowd) && Crowded(cfg, s, key, crowd)
    ensures Crowded(cfg, ActAll(cfg, s, acts), key, crowd)
    decreases |acts|
  {
    hide Inv, Act, Enabled, FewUnseen, FewLate, InFlight;
    if acts != [] {
      ActKeeps(cfg, s, acts[0]);
      ActFewUnseen(cfg, s, acts[0], key, crowd);
      ActFewLate(cfg, s, acts[0], key, crowd);
      RunKeepsCrowded(cfg, Act(cfg, s, acts[0]), acts[1..], key, crowd);
    }
  }

  lemma IdleCrowded(cfg: Config, since: int, key: string, crowd: nat)
    requires crowd > 0
    ensures Crowded(cfg, Idle(since), key, crowd)
  {
    IdleInv(cfg, since);
  }

  /**
   However requests interleave and however long their steps take, with at most crowd requests of a key in flight at a
   time no window holds more than maxHits + 3 * crowd - 2 admissions of the key; and if none was lost or counted after
   the window, no more than maxHits + crowd - 1.
   */
  lemma CrowdBoundsOverrun(cfg: Config, since: int, acts: seq<Action>, key: string, crowd: nat, t: int)
    requires crowd > 0 && cfg.maxHits >= 0
    requires EnabledAll(cfg, Idle(since), acts) && CrowdAtMost(cfg, Idle(since), acts, key, crowd)
    ensures var log := ActAll(cfg, Idle(since), acts).log;
            var hits := Number(log, InWindow(key, t - cfg.window, t));
            && hits <= cfg.maxHits + 3 * crowd - 2
            && (Number(log, LostOf(key)) == 0 && Number(log, LateOf(key, t - cfg.window, t)) == 0 ==>
                hits <= cfg.maxHits + crowd - 1)
  {
    hide Inv, Act, Enabled, InFlight, Number, CrowdAtMost, Uncounted;
    IdleCrowded(cfg, since, key, crowd);
    RunKeepsCrowded(cfg, Idle(since), acts, key, crowd);
    var s := ActAll(cfg, Idle(since), acts);
    assert LateAt(cfg, s, key, crowd, t);
    var n := WindowOverrun(cfg, s, key, t);
    if LastInTime(s.log, n, key, t - cfg.window, t) {
      assert FewAt(s.log, s.log[n], crowd);
    }
  }

  // ---- The crowd is let through ----

  function Tallies(ids: seq<int>, now: int): seq<Action> {
    if ids == [] then [] else [Tally(ids[0], now)] + Tallies(ids[1..], now)
  }

  /** Requests of the key that have cleaned up and are about to be counted. */
  predicate AboutToCount(s: System, key: string, ids: seq<int>) {
    forall i :: 0 <= i < |ids| ==>
      ids[i] in s.flights && s.flights[ids[i]].key == key && s.flights[ids[i]].stage.Cleaned?
  }

  predicate Distinct(ids: seq<int>) {
    forall i, j :: 0 <= i < j < |ids| ==> ids[i] != ids[j]
  }

  lemma RacerPasses(cfg: Config, s: System, key: string, id: int)
    requires id in s.flights && s.flights[id].key == key && s.flights[id].stage.Cleaned?
    requires !s.store.Expired(key, s.clock) && |s.store.Records(key)| < cfg.maxHits
    ensures Enabled(cfg, s, Tally(id, s.clock))
    ensures Act(cfg, s, Tally(id, s.clock)) == Admit(cfg, s, id)
  {
    hide NewEntry;
  }

  /** As long as a place is left in the store, all requests that count before any of them adds are let through. */
  lemma {:induction false} AllRacersPass(cfg: Config, s: System, key: string, ids: seq<int>)
    requires AboutToCount(s, key, ids) && Distinct(ids)
    requires !s.store.Expired(key, s.clock) && |s.store.Records(key)| < cfg.maxHits
    ensures EnabledAll(cfg, s, Tallies(ids, s.clock))
    ensures var q := ActAll(cfg, s, Tallies(ids, s.clock));
            && q.store == s.store && |q.log| == |s.log| + |ids|
            && forall i :: 0 <= i < |ids| ==> ids[i] in q.flights && q.flights[ids[i]].stage.Admitted?
    decreases |ids|
  {
    hide NewEntry, Act, Enabled;
    if ids != [] {
      RacerPasses(cfg, s, key, ids[0]);
      var next := Admit(cfg, s, ids[0]);
      assert Tallies(ids, s.clock)[1..] == Tallies(ids[1..], s.clock);
      AllRacersPass(cfg, next, key, ids[1..]);
      StaysAdmitted(cfg, next, ids[1..], ids[0]);
      assert ActAll(cfg, s, Tallies(ids, s.clock)) == ActAll(cfg, next, Tallies(ids[1..], s.clock));
    }
  }

  lemma {:induction false} StaysAdmitted(cfg: Config, s: System, ids: seq<int>, id: int)
    requires id !in ids && id in s.flights && s.flights[id].stage.Admitted?
    requires EnabledAll(cfg, s, Tallies(ids, s.clock))
    ensures var q := ActAll(cfg, s, Tallies(ids, s.clock)); id in q.flights && q.flights[id].stage.Admitted?
    decreases |ids|
  {
    hide NewEntry, Store.Purged, Store.Count;
    if ids != [] {
      var next := Act(cfg, s, Tally(ids[0], s.clock));
      assert Tallies(ids, s.clock)[1..] == Tallies(ids[1..], s.clock);
      assert next.clock == s.clock;
      StaysAdmitted(cfg, next, ids[1..], id);
    }
  }

  const TWO_HITS := Config(2, 10)

  /** Three requests of one instant up to where each is about to count. */
  const READY := System(
    Store(map["k" := []], map[]),
    map[1 := Flight("k", 0, Cleaned), 2 := Flight("k", 0, Cleaned), 3 := Flight("k", 0, Cleaned)], 0, [])

  lemma Starts(id: int, flights: map<int, Flight>)
    requires id !in flights
    ensures var s := Idle(0).(flights := flights);
            Enabled(TWO_HITS, s, Start(id, "k", 0))
            && Act(TWO_HITS, s, Start(id, "k", 0)) == s.(flights := flights[id := Flight("k", 0, Started)])
  {
  }

  lemma Cleans(id: int, st: Store, flights: map<int, Flight>)
    requires id in flights && flights[id] == Flight("k", 0, Started) && st in {EMPTY, READY.store}
    ensures var s := System(st, flights, 0, []);
            Enabled(TWO_HITS, s, Remove(id, 0))
            && Act(TWO_HITS, s, Remove(id, 0)) == System(READY.store, flights[id := Flight("k", 0, Cleaned)], 0, [])
  {
    assert LowerBound([], ZERO_TIME_NANO) == 0 && LowerBound([], -9) == 0;
    assert st.Removed("k", ZERO_TIME_NANO, -10, 0) == READY.store;
    assert Sweep([], "k", -10, 0) == [];
  }

  lemma ReadyIsReachable()
    ensures Reachable(TWO_HITS, READY)
  {
    hide Act, Enabled, Reachable;
    var f, g := Flight("k", 0, Started), Flight("k", 0, Cleaned);
    var s3 := System(EMPTY, map[1 := f, 2 := f, 3 := f], 0, []);
    IdleReachable(TWO_HITS, 0);
    Starts(1, map[]);
    Starts(2, map[1 := f]);
    Starts(3, map[1 := f, 2 := f]);
    assert Idle(0).(flights := map[]) == Idle(0) && Idle(0).(flights := map[1 := f, 2 := f, 3 := f]) == s3;
    ReachableStep(TWO_HITS, Idle(0), Start(1, "k", 0));
    ReachableStep(TWO_HITS, Idle(0).(flights := map[1 := f]), Start(2, "k", 0));
    ReachableStep(TWO_HITS, Idle(0).(flights := map[1 := f, 2 := f]), Start(3, "k", 0));
    Cleans(1, EMPTY, map[1 := f, 2 := f, 3 := f]);
    Cleans(2, READY.store, map[1 := g, 2 := f, 3 := f]);
    Cleans(3, READY.store, map[1 := g, 2 := g, 3 := f]);
    assert map[1 := f, 2 := f, 3 := f][1 := g] == map[1 := g, 2 := f, 3 := f];
    assert map[1 := g, 2 := f, 3 := f][2 := g] == map[1 := g, 2 := g, 3 := f];
    assert map[1 := g, 2 := g, 3 := f][3 := g] == READY.flights;
    ReachableStep(TWO_HITS, s3, Remove(1, 0));
    ReachableStep(TWO_HITS, System(READY.store, map[1 := g, 2 := f, 3 := f], 0, []), Remove(2, 0));
    ReachableStep(TWO_HITS, System(READY.store, map[1 := g, 2 := g, 3 := f], 0, []), Remove(3, 0));
  }

  /** Three requests under a limit of two: one after the other the third would be refused, together all pass. */
  lemma ThreeRacersExample()
    ensures Reachable(TWO_HITS, READY) && EnabledAll(TWO_HITS, READY, Tallies([1, 2, 3], 0))
    ensures |ActAll(TWO_HITS, READY, Tallies([1, 2, 3], 0)).log| == 3
  {
    ReadyIsReachable();
    hide EnabledAll, ActAll, Act, Reachable;
    AllRacersPass(TWO_HITS, READY, "k", [1, 2, 3]);
  }
}
