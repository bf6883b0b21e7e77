/** Requests going through breakerMiddleware.Handle, any number at once and finishing in any order. */
module BreakerRequests {
  import opened Breaker
  import opened BreakerHistory

  /** How the rest of the chain ended for a request that was let through. */
  datatype Outcome = Succeeded | EstablishFailed | OtherFailed

  /** A request enters the breaker, or one that was let through returns. */
  datatype Action =
    | Begin(id: int, key: string, at: int)
    | End(id: int, outcome: Outcome, at: int)

  /** inFlight holds the breaker key of every request between its two steps. */
  datatype System = System(entries: Entries, inFlight: map<int, string>, clock: int)

  predicate Enabled(s: System, a: Action) {
    && s.clock <= a.at
    && (a.Begin? ==> a.id !in s.inFlight)
    && (a.End? ==> a.id in s.inFlight)
  }

  /** The breaker steps an action takes: none for an empty key and none for a failure past establishing. */
  function OpsOf(s: System, a: Action): seq<Op>
    requires Enabled(s, a)
  {
    match a
    case Begin(_, key, at) => if key == "" then [] else [Ask(key, at)]
    case End(id, outcome, at) =>
      var key := s.inFlight[id];
      if key == "" || outcome == OtherFailed then []
      else if outcome == Succeeded then [Success(key)]
      else [Failure(key, at)]
  }

  function Act(cfg: Config, s: System, a: Action): System
    requires Enabled(s, a)
  {
    var ops := OpsOf(s, a);
    System(
      if ops == [] then s.entries else Step(cfg, s.entries, ops[0]),
      match a
      case End(id, _, _) => s.inFlight - {id}
      case Begin(id, key, at) =>
        if key == "" || Admits(cfg, Lookup(s.entries, key), at) then s.inFlight[id := key] else s.inFlight,
      a.at)
  }

  predicate EnabledAll(cfg: Config, s: System, acts: seq<Action>)
    decreases |acts|
  {
    acts == [] || (Enabled(s, acts[0]) && EnabledAll(cfg, Act(cfg, s, acts[0]), acts[1..]))
  }

  function ActAll(cfg: Config, s: System, acts: seq<Action>): System
    requires EnabledAll(cfg, s, acts)
    decreases |acts|
  {
    if acts == [] then s else ActAll(cfg, Act(cfg, s, acts[0]), acts[1..])
  }

  function OpsOfAll(cfg: Config, s: System, acts: seq<Action>): seq<Op>
    requires EnabledAll(cfg, s, acts)
    decreases |acts|
  {
    if acts == [] then [] else OpsOf(s, acts[0]) + OpsOfAll(cfg, Act(cfg, s, acts[0]), acts[1..])
  }

  const IDLE := System(map[], map[], 0)

  lemma ActIsRun(cfg: Config, s: System, a: Action, past: seq<Op>)
    requires Enabled(s, a) && s.entries == Run(cfg, past)
    ensures Act(cfg, s, a).entries == Run(cfg, past + OpsOf(s, a))
  {
    var ops := OpsOf(s, a);
    if ops == [] {
      assert past + ops == past;
    } else {
      assert (past + ops)[..|past + ops| - 1] == past;
    }
  }

  /** Every interleaving of requests is one run of the breaker, so the history theorems speak about it. */
  lemma {:induction false} InterleavingsAreRuns(cfg: Config, s: System, acts: seq<Action>, past: seq<Op>)
    requires EnabledAll(cfg, s, acts) && s.entries == Run(cfg, past)
    ensures ActAll(cfg, s, acts).entries == Run(cfg, past + OpsOfAll(cfg, s, acts))
    decreases |acts|
  {
    hide Act, OpsOf, Enabled, Run;
    if acts == [] {
      assert past + [] == past;
    } else {
      var ops, next := OpsOf(s, acts[0]), Act(cfg, s, acts[0]);
      ActIsRun(cfg, s, acts[0], past);
      InterleavingsAreRuns(cfg, next, acts[1..], past + ops);
      assert past + (ops + OpsOfAll(cfg, next, acts[1..])) == past + ops + OpsOfAll(cfg, next, acts[1..]);
    }
  }

  ghost predicate Reachable(cfg: Config, s: System) {
    exists acts :: EnabledAll(cfg, IDLE, acts) && ActAll(cfg, IDLE, acts) == s
  }

  /** In every reachable state exactly the half-open entries have a trial, and only open or half-open ones are full. */
  lemma ReachableEntry(cfg: Config, s: System, key: string)
    requires cfg.Valid() && Reachable(cfg, s)
    ensures var e := Lookup(s.entries, key);
            && (e.trialInFlight <==> e.phase == HalfOpen)
            && (if e.phase == Closed then e.failures < cfg.threshold else e.failures == cfg.threshold)
  {
    var acts :| EnabledAll(cfg, IDLE, acts) && ActAll(cfg, IDLE, acts) == s;
    InterleavingsAreRuns(cfg, IDLE, acts, []);
    var ops := OpsOfAll(cfg, IDLE, acts);
    assert [] + ops == ops;
    AlwaysExplained(cfg, ops, key);
  }

  /** No way to go on ever lets a request for key through. */
  ghost predicate BlockedForever(cfg: Config, s: System, key: string) {
    forall acts, id, at :: EnabledAll(cfg, s, acts) && Enabled(ActAll(cfg, s, acts), Begin(id, key, at))
      ==> !Admits(cfg, Lookup(ActAll(cfg, s, acts).entries, key), at)
  }

  /** A half-open entry whose requests have all returned without an outcome to record. */
  predicate Abandoned(s: System, key: string) {
    Lookup(s.entries, key).phase == HalfOpen && forall id :: id in s.inFlight ==> s.inFlight[id] != key
  }

  lemma {:induction false} AbandonedStays(cfg: Config, s: System, key: string, acts: seq<Action>)
    requires key != "" && EnabledAll(cfg, s, acts)
    requires Abandoned(s, key) && Lookup(s.entries, key).trialInFlight
    ensures Abandoned(ActAll(cfg, s, acts), key)
    ensures Lookup(ActAll(cfg, s, acts).entries, key).trialInFlight
    decreases |acts|
  {
    if acts != [] {
      AbandonedStays(cfg, Act(cfg, s, acts[0]), key, acts[1..]);
    }
  }

  lemma {:induction false} UnusedId(ids: set<int>) returns (id: int)
    ensures forall i :: i in ids ==> i < id
  {
    if i :| i in ids {
      assert forall j :: j in ids ==> j == i || j in ids - {i};
      id := UnusedId(ids - {i});
      id := if i < id then id else i + 1;
    } else {
      id := 0;
    }
  }

  /** A way to go on that ends in an admission, for an entry that is not abandoned. */
  lemma WayForward(cfg: Config, s: System, key: string) returns (acts: seq<Action>, id: int, at: int)
    requires cfg.Valid() && Reachable(cfg, s) && key != "" && !Abandoned(s, key)
    ensures EnabledAll(cfg, s, acts) && Enabled(ActAll(cfg, s, acts), Begin(id, key, at))
    ensures Admits(cfg, Lookup(ActAll(cfg, s, acts).entries, key), at)
  {
    ReachableEntry(cfg, s, key);
    var e := Lookup(s.entries, key);
    id := UnusedId(s.inFlight.Keys);
    acts := [];
    at := s.clock;
    if e.phase == Open {
      at := if e.openedAt + cfg.recovery < s.clock then s.clock else e.openedAt + cfg.recovery;
    } else if e.phase == HalfOpen {
      var other :| other in s.inFlight && s.inFlight[other] == key;
      acts := [End(other, Succeeded, s.clock)];
      assert acts[1..] == [];
      assert ActAll(cfg, s, acts) == Act(cfg, s, acts[0]);
    }
  }

  /**
   The breaker does not always recover: a trial that ends in a failure past establishing records nothing.
   A key is blocked for good exactly when its entry is half-open and none of its requests is still in flight.
   */
  lemma BlockedExactlyWhenAbandoned(cfg: Config, s: System, key: string)
    requires cfg.Valid() && Reachable(cfg, s) && key != ""
    ensures BlockedForever(cfg, s, key) <==> Abandoned(s, key)
  {
    if Abandoned(s, key) {
      ReachableEntry(cfg, s, key);
      forall acts, id, at | EnabledAll(cfg, s, acts) && Enabled(ActAll(cfg, s, acts), Begin(id, key, at))
        ensures !Admits(cfg, Lookup(ActAll(cfg, s, acts).entries, key), at)
      {
        AbandonedStays(cfg, s, key, acts);
      }
    } else {
      var acts, id, at := WayForward(cfg, s, key);
    }
  }

  /** One failed attempt to establish, then a trial that transfers and breaks off: the key is blocked for good. */
  lemma AbandonedIsReachable(key: string) returns (cfg: Config, s: System)
    requires key != ""
    ensures cfg.Valid() && Reachable(cfg, s) && Abandoned(s, key) && BlockedForever(cfg, s, key)
  {
    cfg := Config(1, 30);
    var a, b, c, d := Begin(1, key, 0), End(1, EstablishFailed, 0), Begin(2, key, 30), End(2, OtherFailed, 31);
    var s1, s2, s3 := FirstFailure(cfg, key);
    s := Act(cfg, s3, d);
    TakesOne(cfg, s3, d, []);
    TakesOne(cfg, s2, c, [d]);
    TakesOne(cfg, s1, b, [c, d]);
    TakesOne(cfg, IDLE, a, [b, c, d]);
    hide Act, Enabled, Lookup, BlockedForever;
    assert [d] + [] == [d] && [c] + [d] == [c, d] && [b] + [c, d] == [b, c, d] && [a] + [b, c, d] == [a, b, c, d];
    assert EnabledAll(cfg, IDLE, [a, b, c, d]) && ActAll(cfg, IDLE, [a, b, c, d]) == s;
    BlockedExactlyWhenAbandoned(cfg, s, key);
  }

  /** The states on the way: one request in flight, the entry open, the trial in flight. */
  lemma FirstFailure(cfg: Config, key: string) returns (s1: System, s2: System, s3: System)
    requires cfg == Config(1, 30) && key != ""
    ensures var a, b, c := Begin(1, key, 0), End(1, EstablishFailed, 0), Begin(2, key, 30);
            && Enabled(IDLE, a) && s1 == Act(cfg, IDLE, a)
            && Enabled(s1, b) && s2 == Act(cfg, s1, b)
            && Enabled(s2, c) && s3 == Act(cfg, s2, c)
    ensures s3 == System(map[key := Entry(HalfOpen, 1, 0, true)], map[2 := key], 30)
  {
    s1 := Act(cfg, IDLE, Begin(1, key, 0));
    assert s1 == System(map[key := FRESH], map[1 := key], 0);
    s2 := Act(cfg, s1, End(1, EstablishFailed, 0));
    assert s2 == System(map[key := Entry(Open, 1, 0, false)], map[], 0);
    s3 := Act(cfg, s2, Begin(2, key, 30));
  }

  lemma TakesOne(cfg: Config, s: System, a: Action, rest: seq<Action>)
    requires Enabled(s, a) && EnabledAll(cfg, Act(cfg, s, a), rest)
    ensures EnabledAll(cfg, s, [a] + rest)
    ensures ActAll(cfg, s, [a] + rest) == ActAll(cfg, Act(cfg, s, a), rest)
  {
  }
}
