/** The breaker layer inside the assembled chain: what a guarded request records, told from how it ended. */
module GuardedRequests {
  import opened Options
  import opened Errors
  import opened Middleware
  import opened Pipeline
  import opened Breaker
  import opened BreakerHistory
  import opened BreakerRequests

  // ---- The entry a guarded request leaves ----

  /** The entry the request leaves once it has asked: an open or half-open one that lets it through is on trial. */
  predicate AskedEntry(before: Entry, after: Entry) {
    after == if before.phase == Closed then before else Entry(HalfOpen, before.failures, before.openedAt, true)
  }

  /** The entry of a request that returned, from the entry it found, the kind of its error and the clock. */
  predicate RecordedEntry(cfg: Config, found: Entry, err: Failure, now: int, after: Entry) {
    if err.None? then after == Entry(Closed, 0, found.openedAt, false)
    else if KindOf(err.value) in {Some(Dial), Some(TLS), Some(Timeout), Some(BreakerOpen)} then
      if found.phase == HalfOpen then after == Entry(Open, cfg.threshold, now, false)
      else if found.phase == Open then after == Entry(Open, found.failures, now, found.trialInFlight)
      else
        var failures := (found.failures + 1) % 0x1_0000_0000;
        after == if failures >= cfg.threshold then Entry(Open, failures, now, false)
                 else Entry(Closed, failures, found.openedAt, found.trialInFlight)
    else after == found
  }

  /** Two worlds that differ at most in one breaker entry. */
  ghost predicate SameButEntry(v: World, w: World, key: string) {
    v.(entries := w.entries) == w
    && forall other :: other != key ==> Lookup(v.entries, other) == Lookup(w.entries, other)
  }

  /**
   What a guarded request does to its own entry: it is turned away, leaving everything as it was, when the entry is
   open and the recovery time has not passed, or a trial is in flight; otherwise the rest of the chain runs once, and
   the entry it leaves is updated by how that ended.
   */
  lemma GuardRecordsOutcome(cfg: Config, next: Next<World, Failure>, w: World) returns (asked: World)
    requires w.meta.breakerKey != ""
    ensures var key, (v, err) := w.meta.breakerKey, Guard(cfg, next, w);
            var before := Lookup(w.entries, key);
            if (before.phase == Open && w.now - before.openedAt < cfg.recovery)
               || (before.phase == HalfOpen && before.trialInFlight)
            then IsKind(err, BreakerOpen) && SameButEntry(v, w, key) && Lookup(v.entries, key) == before
            else
              && SameButEntry(asked, w, key) && AskedEntry(before, Lookup(asked.entries, key))
              && var (u, e) := next(asked);
              && err == e && SameButEntry(v, u, key)
              && RecordedEntry(cfg, Lookup(u.entries, key), e, u.now, Lookup(v.entries, key))
  {
    asked := w.(entries := Step(cfg, w.entries, Ask(w.meta.breakerKey, w.now)));
  }

  // ---- A guarded request is one request of the step system ----

  function OutcomeOf(err: Failure): Outcome {
    if err.None? then Succeeded
    else if KindOf(err.value) in {Some(Dial), Some(TLS), Some(Timeout), Some(BreakerOpen)} then EstablishFailed
    else OtherFailed
  }

  /** The steps of other requests may lie between the two steps of this one. */
  ghost predicate Meanwhile(t: System, u: World, id: int, key: string) {
    t.entries == u.entries && t.clock <= u.now && id in t.inFlight && t.inFlight[id] == key
  }

  /**
   The entries around the rest of the chain are those of the request's two steps: it begins at its clock reading, and
   ends, whatever others have done in the meantime, with the outcome its error tells.
   */
  lemma GuardIsRequest(cfg: Config, next: Next<World, Failure>, w: World, s: System, id: int)
    requires s.entries == w.entries && s.clock <= w.now && id !in s.inFlight
    ensures var key := w.meta.breakerKey;
            var begun := Act(cfg, s, Begin(id, key, w.now));
            if id !in begun.inFlight
            then Guard(cfg, next, w).0 == w.(entries := begun.entries) && IsKind(Guard(cfg, next, w).1, BreakerOpen)
            else
              var (u, e) := next(w.(entries := begun.entries));
              Guard(cfg, next, w).1 == e
              && forall t :: Meanwhile(t, u, id, key) ==>
                   Guard(cfg, next, w).0 == u.(entries := Act(cfg, t, End(id, OutcomeOf(e), u.now)).entries)
  {
    hide Step, Admits;
    assert w.(entries := w.entries) == w;
  }

  /**
   So admission in the assembled chain is the reference definition over the recorded outcomes: an attempt goes on to the
   forwarder exactly when the history lets it, and what it records extends the history.
   */
  lemma AttemptFollowsHistory(mesh: Mesh, forward: Next<World, Failure>, w: World, past: seq<Op>)
    requires mesh.breaker.Valid() && w.entries == Run(mesh.breaker, past) && Route(mesh, w).meta.breakerKey != ""
    ensures var r := Route(mesh, w);
            var key := r.meta.breakerKey;
            var asked := r.(entries := Run(mesh.breaker, past + [Ask(key, w.now)]));
            if !MayPass(mesh.breaker, past, key, w.now)
            then AttemptFrom(mesh, forward, w).0 == asked && IsKind(AttemptFrom(mesh, forward, w).1, BreakerOpen)
            else
              var (u, e) := forward(asked);
              AttemptFrom(mesh, forward, w).1 == e
              && forall so :: u.entries == Run(mesh.breaker, so) ==>
                   AttemptFrom(mesh, forward, w).0 == u.(entries := Run(mesh.breaker, so + Recorded(key, e, u.now)))
  {
    hide Run, MayPass, Explained, Step;
    var cfg, r := mesh.breaker, Route(mesh, w);
    var key := r.meta.breakerKey;
    RouteKeepsEntries(mesh, w);
    AlwaysExplained(cfg, past, key);
    OneMoreStep(cfg, past, Ask(key, w.now));
    var u := forward(r.(entries := Step(cfg, r.entries, Ask(key, r.now)))).0;
    var e := forward(r.(entries := Step(cfg, r.entries, Ask(key, r.now)))).1;
    assert u.(entries := u.entries) == u;
    forall so | u.entries == Run(cfg, so)
      ensures Run(cfg, so + Recorded(key, e, u.now))
              == match OutcomeOf(e)
                 case Succeeded => Step(cfg, u.entries, Success(key))
                 case EstablishFailed => Step(cfg, u.entries, BreakerHistory.Failure(key, u.now))
                 case OtherFailed => u.entries
    {
      RecordedRun(cfg, so, key, e, u.now);
    }
  }

  lemma RecordedRun(cfg: Config, so: seq<Op>, key: string, err: Failure, now: int)
    ensures Run(cfg, so + Recorded(key, err, now))
            == match OutcomeOf(err)
               case Succeeded => Step(cfg, Run(cfg, so), Success(key))
               case EstablishFailed => Step(cfg, Run(cfg, so), BreakerHistory.Failure(key, now))
               case OtherFailed => Run(cfg, so)
  {
    hide Step, Run, OutcomeOf;
    OneMoreStep(cfg, so, Success(key));
    OneMoreStep(cfg, so, BreakerHistory.Failure(key, now));
    assert so + [] == so;
  }

  /** What a request that ended so adds to the history. */
  function Recorded(key: string, err: Failure, now: int): seq<Op> {
    match OutcomeOf(err)
    case Succeeded => [Success(key)]
    case EstablishFailed => [BreakerHistory.Failure(key, now)]
    case OtherFailed => []
  }

  lemma OneMoreStep(cfg: Config, past: seq<Op>, op: Op)
    ensures Run(cfg, past + [op]) == Step(cfg, Run(cfg, past), op)
  {
    assert (past + [op])[..|past + [op]| - 1] == past;
  }

  lemma RouteKeepsEntries(mesh: Mesh, w: World)
    ensures Route(mesh, w).entries == w.entries && Route(mesh, w).now == w.now
  {
  }
}
