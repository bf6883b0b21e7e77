/** End-to-end promise of the chain: a connection fails over between the endpoints of its destination. */
module Failover {
  import opened Options
  import opened Errors
  import opened GoStrings
  import opened Middleware
  import opened RoundRobin
  import opened Routing
  import opened Pipeline
  import Breaker
  import BreakerHistory
  import Retry

  /** What may happen during a call or a wait: anything but selections for the same destination. */
  predicate Calm(v: World, w: World) {
    && w.listener == v.listener && w.originalDst == v.originalDst && w.meta == v.meta
    && Cursor(w.cursors, v.originalDst) == Cursor(v.cursors, v.originalDst)
  }

  ghost predicate CalmLayer(forward: Next<World, Failure>) {
    forall v :: Calm(v, forward(v).0)
  }

  ghost predicate CalmPause(pause: Retry.Pause<World>) {
    forall v, d :: Calm(v, pause(v, d).0)
  }

  /** An outbound connection to a service with endpoints, balanced by round robin. */
  predicate Balanced(mesh: Mesh, w: World) {
    && w.listener != INBOUND_PLAIN && w.listener != INBOUND_MTLS
    && mesh.policy != NONE && mesh.policy != RANDOM
    && w.originalDst in mesh.cache && mesh.cache[w.originalDst] != []
  }

  function EndpointsOf(mesh: Mesh, w: World): seq<Endpoint>
    requires Balanced(mesh, w)
  {
    mesh.cache[w.originalDst]
  }

  lemma RouteRotates(mesh: Mesh, w: World)
    requires Balanced(mesh, w)
    ensures var (r, n, c) := (Route(mesh, w), |EndpointsOf(mesh, w)|, Cursor(w.cursors, w.originalDst));
            && r.listener == w.listener && r.originalDst == w.originalDst && r.entries == w.entries
            && c % n < n
            && r.meta.targetAddr == TargetAddr(mesh, EndpointsOf(mesh, w)[c % n])
            && r.meta.breakerKey == r.meta.targetAddr != ""
            && r.meta == MetaFor(mesh, EndpointsOf(mesh, w)[c % n])
            && Cursor(r.cursors, w.originalDst) == (c + 1) % n
  {
  }

  lemma GuardCalm(cfg: Breaker.Config, next: Next<World, Failure>, w: World)
    requires CalmLayer(next)
    ensures Calm(w, Guard(cfg, next, w).0)
  {
    var asked := w.(entries := BreakerHistory.Step(cfg, w.entries, BreakerHistory.Ask(w.meta.breakerKey, w.now)));
    assert Calm(w, next(w).0) && Calm(asked, next(asked).0);
  }

  lemma AttemptRotates(mesh: Mesh, forward: Next<World, Failure>, w: World)
    requires Balanced(mesh, w) && CalmLayer(forward)
    ensures Calm(Route(mesh, w), Attempt(mesh, forward)(w).0)
  {
    GuardCalm(mesh.breaker, forward, Route(mesh, w));
    assert Calm(Route(mesh, w), forward(Route(mesh, w)).0);
  }

  type Call = Retry.Call<World>

  /** The calls of one retry loop over layer, seen as a path of worlds. */
  ghost predicate Path(
    layer: Next<World, Failure>, pause: Retry.Pause<World>, w: World, calls: seq<Call>, waits: seq<int>)
  {
    && calls != [] && calls[0].before == w
    && (forall i :: 0 <= i < |calls| ==> layer(calls[i].before) == (calls[i].after, calls[i].err))
    && |calls| - 1 <= |waits|
    && (forall i :: 0 < i < |calls| ==> pause(calls[i - 1].after, waits[i - 1]).0 == calls[i].before)
  }

  lemma AttemptsArePath(mesh: Mesh, pause: Retry.Pause<World>, forward: Next<World, Failure>, w: World)
    ensures var o := Attempts(mesh, pause, forward, w); Path(Attempt(mesh, forward), pause, w, o.calls, o.waits)
  {
    Retry.RetryContract(mesh.retry, Attempt(mesh, forward), pause, w);
    var o := Attempts(mesh, pause, forward, w);
    forall i | 0 < i < |o.calls| ensures pause(o.calls[i - 1].after, o.waits[i - 1]).0 == o.calls[i].before {
      assert o.waits[i - 1] == Retry.Backoff(mesh.retry, 1 + (i - 1));
      assert pause(o.calls[i - 1].after, Retry.Backoff(mesh.retry, 1 + (i - 1))) == (o.calls[i - 1 + 1].before, None);
    }
  }

  /** A layer that routes and is otherwise calm. */
  ghost predicate Rotates(mesh: Mesh, layer: Next<World, Failure>) {
    forall v :: Balanced(mesh, v) ==> Calm(Route(mesh, v), layer(v).0)
  }

  lemma CursorStep(cursor: nat, c: nat, i: nat, n: nat)
    requires n > 0 && cursor % n == (c + i) % n
    ensures ((cursor + 1) % n) % n == (c + (i + 1)) % n
  {
    ModShift(cursor, 1, n);
    ModShift(c + i, 1, n);
    ModShift(cursor + 1, 0, n);
  }

  /** Where the rotation of w stands before call number i. */
  predicate StandsAt(mesh: Mesh, w: World, i: nat, v: World)
    requires Balanced(mesh, w)
  {
    var c, n := Cursor(w.cursors, w.originalDst), |EndpointsOf(mesh, w)|;
    && v.listener == w.listener && v.originalDst == w.originalDst
    && Cursor(v.cursors, w.originalDst) % n == (c + i) % n
  }

  lemma PauseCalm(pause: Retry.Pause<World>, v: World, d: int)
    requires CalmPause(pause)
    ensures Calm(v, pause(v, d).0)
  {
  }

  lemma {:induction false} PathRotates(
    mesh: Mesh, layer: Next<World, Failure>, pause: Retry.Pause<World>, w: World, calls: seq<Call>, waits: seq<int>,
    i: nat)
    requires Balanced(mesh, w) && Rotates(mesh, layer) && CalmPause(pause)
    requires Path(layer, pause, w, calls, waits) && i < |calls|
    ensures StandsAt(mesh, w, i, calls[i].before)
  {
    hide TargetAddr;
    if i > 0 {
      var prev := calls[i - 1];
      PathRotates(mesh, layer, pause, w, calls, waits, i - 1);
      RouteRotates(mesh, prev.before);
      assert Calm(Route(mesh, prev.before), layer(prev.before).0);
      PauseCalm(pause, prev.after, waits[i - 1]);
      var n := |EndpointsOf(mesh, w)|;
      CursorStep(Cursor(prev.before.cursors, w.originalDst), Cursor(w.cursors, w.originalDst), i - 1, n);
    }
  }

  /** Attempt number i of a connection is for endpoint (c + i) mod n. */
  lemma AttemptTargets(mesh: Mesh, pause: Retry.Pause<World>, forward: Next<World, Failure>, w: World, i: nat)
    requires Balanced(mesh, w) && CalmLayer(forward) && CalmPause(pause)
    requires i < |Attempts(mesh, pause, forward, w).calls|
    ensures var c, n := Cursor(w.cursors, w.originalDst), |EndpointsOf(mesh, w)|;
            && (c + i) % n < n
            && Attempts(mesh, pause, forward, w).calls[i].after.meta.targetAddr
               == TargetAddr(mesh, EndpointsOf(mesh, w)[(c + i) % n])
  {
    AttemptsArePath(mesh, pause, forward, w);
    forall v | Balanced(mesh, v) ensures Calm(Route(mesh, v), Attempt(mesh, forward)(v).0) {
      AttemptRotates(mesh, forward, v);
    }
    var o := Attempts(mesh, pause, forward, w);
    TargetOnPath(mesh, Attempt(mesh, forward), pause, w, o.calls, o.waits, i);
  }

  /** Such an attempt dials that endpoint, over mTLS if the mesh has it; nothing below the router changes that. */
  lemma AttemptDials(mesh: Mesh, pause: Retry.Pause<World>, forward: Next<World, Failure>, w: World, i: nat)
    requires Balanced(mesh, w) && CalmLayer(forward) && CalmPause(pause)
    requires i < |Attempts(mesh, pause, forward, w).calls|
    ensures var c, n := Cursor(w.cursors, w.originalDst), |EndpointsOf(mesh, w)|;
            && (c + i) % n < n
            && Dials(mesh, Attempts(mesh, pause, forward, w).calls[i].after.meta, EndpointsOf(mesh, w)[(c + i) % n])
  {
    hide Attempts, AttemptFrom, Dials, Position, Advance, MetaFor;
    AttemptsArePath(mesh, pause, forward, w);
    forall v | Balanced(mesh, v) ensures Calm(Route(mesh, v), Attempt(mesh, forward)(v).0) {
      AttemptRotates(mesh, forward, v);
    }
    var o := Attempts(mesh, pause, forward, w);
    var v := o.calls[i].before;
    PathRotates(mesh, Attempt(mesh, forward), pause, w, o.calls, o.waits, i);
    assert Calm(Route(mesh, v), Attempt(mesh, forward)(v).0);
    var p := RouteGoesToEndpoint(mesh, v);
  }

  lemma TargetOnPath(
    mesh: Mesh, layer: Next<World, Failure>, pause: Retry.Pause<World>, w: World, calls: seq<Call>, waits: seq<int>,
    i: nat)
    requires Balanced(mesh, w) && Rotates(mesh, layer) && CalmPause(pause)
    requires Path(layer, pause, w, calls, waits) && i < |calls|
    ensures var c, n := Cursor(w.cursors, w.originalDst), |EndpointsOf(mesh, w)|;
            && (c + i) % n < n
            && calls[i].after.meta.targetAddr == TargetAddr(mesh, EndpointsOf(mesh, w)[(c + i) % n])
  {
    hide TargetAddr, Route, Guard, AttemptFrom, Attempts;
    PathRotates(mesh, layer, pause, w, calls, waits, i);
    RouteRotates(mesh, calls[i].before);
    assert Calm(Route(mesh, calls[i].before), layer(calls[i].before).0);
  }

  /** With at least as many attempts as endpoints, a connection that never got through tried every endpoint. */
  lemma EveryEndpointTried(mesh: Mesh, pause: Retry.Pause<World>, forward: Next<World, Failure>, w: World, p: nat)
    returns (i: nat)
    requires Balanced(mesh, w) && CalmLayer(forward) && CalmPause(pause)
    requires p < |EndpointsOf(mesh, w)| <= |Attempts(mesh, pause, forward, w).calls|
    ensures i < |EndpointsOf(mesh, w)|
    ensures Attempts(mesh, pause, forward, w).calls[i].after.meta.targetAddr
            == TargetAddr(mesh, EndpointsOf(mesh, w)[p])
  {
    hide TargetAddr, Route, Guard, AttemptFrom, Attempts, Distance;
    var n, c := |EndpointsOf(mesh, w)|, Cursor(w.cursors, w.originalDst);
    i := Distance(c, p, n);
    DistanceLands(c, p, n);
    AttemptTargets(mesh, pause, forward, w, i);
  }

  predicate DistinctIPs(eps: seq<Endpoint>) {
    forall i, j :: 0 <= i < |eps| && 0 <= j < |eps| && eps[i].ip == eps[j].ip ==> i == j
  }

  predicate EntryClosed(w: World, addr: string) {
    Breaker.Lookup(w.entries, addr).phase == Breaker.Closed
  }

  /** The router has chosen one of the destination's endpoints. */
  ghost predicate Routed(mesh: Mesh, v: World) {
    Balanced(mesh, v) && exists e :: e in EndpointsOf(mesh, v) && v.meta == MetaFor(mesh, e)
  }

  /** The target at good accepts every connection routed to it, and nobody else makes its breaker entry leave closed. */
  ghost predicate Accepts(mesh: Mesh, forward: Next<World, Failure>, pause: Retry.Pause<World>, good: string) {
    && (forall v :: Routed(mesh, v) && v.meta.targetAddr == good ==> forward(v).1.None?)
    && (forall v :: EntryClosed(v, good) ==> EntryClosed(forward(v).0, good))
    && (forall v, d :: EntryClosed(v, good) ==> EntryClosed(pause(v, d).0, good))
  }

  /** Failures, if any, are failures to establish, and no deadline is hit. */
  ghost predicate FailsOnlyToEstablish(mesh: Mesh, forward: Next<World, Failure>, pause: Retry.Pause<World>) {
    && (forall v :: Routed(mesh, v) && forward(v).1.Some? ==> IsEstablish(forward(v).1))
    && (forall v, d :: pause(v, d).1.None?)
  }

  lemma RouteIsRouted(mesh: Mesh, w: World)
    requires Balanced(mesh, w)
    ensures Routed(mesh, Route(mesh, w))
  {
    RouteRotates(mesh, w);
    var r := Route(mesh, w);
    var e := EndpointsOf(mesh, w)[Cursor(w.cursors, w.originalDst) % |EndpointsOf(mesh, w)|];
    assert EndpointsOf(mesh, r) == EndpointsOf(mesh, w) && e in EndpointsOf(mesh, r);
  }

  lemma GuardOutcome(
    mesh: Mesh, forward: Next<World, Failure>, pause: Retry.Pause<World>, r: World, good: string)
    requires CalmLayer(forward) && Accepts(mesh, forward, pause, good) && FailsOnlyToEstablish(mesh, forward, pause)
    requires EntryClosed(r, good) && Routed(mesh, r)
    ensures var (v, err) := Guard(mesh.breaker, forward, r);
            && EntryClosed(v, good)
            && (err.None? || IsEstablish(err))
            && (r.meta.targetAddr == good ==> err.None?)
  {
    var asked := r.(
      entries := BreakerHistory.Step(mesh.breaker, r.entries, BreakerHistory.Ask(r.meta.breakerKey, r.now)));
    assert EntryClosed(asked, good);
    assert Routed(mesh, asked) by {
      var e :| e in EndpointsOf(mesh, r) && r.meta == MetaFor(mesh, e);
      assert EndpointsOf(mesh, asked) == EndpointsOf(mesh, r) && asked.meta == MetaFor(mesh, e);
    }
    assert EntryClosed(forward(asked).0, good) && EntryClosed(forward(r).0, good);
  }

  lemma AttemptOutcome(
    mesh: Mesh, pause: Retry.Pause<World>, forward: Next<World, Failure>, w: World, good: string)
    requires Balanced(mesh, w) && CalmLayer(forward)
    requires Accepts(mesh, forward, pause, good) && FailsOnlyToEstablish(mesh, forward, pause)
    requires EntryClosed(w, good)
    ensures var (v, err) := Attempt(mesh, forward)(w);
            && EntryClosed(v, good)
            && (err.None? || IsEstablish(err))
            && (v.meta.targetAddr == good ==> err.None?)
  {
    var r := Route(mesh, w);
    RouteRotates(mesh, w);
    AttemptRotates(mesh, forward, w);
    assert EntryClosed(r, good);
    RouteIsRouted(mesh, w);
    GuardOutcome(mesh, forward, pause, r, good);
    assert EntryClosed(forward(r).0, good);
  }

  /** A layer under which good stays closed and answers, and others fail at worst to establish. */
  ghost predicate Safe(mesh: Mesh, layer: Next<World, Failure>, good: string) {
    forall v :: Balanced(mesh, v) && EntryClosed(v, good) ==>
      var (u, err) := layer(v);
      EntryClosed(u, good) && (err.None? || IsEstablish(err)) && (u.meta.targetAddr == good ==> err.None?)
  }

  lemma SafeAt(mesh: Mesh, layer: Next<World, Failure>, good: string, v: World)
    requires Safe(mesh, layer, good) && Balanced(mesh, v) && EntryClosed(v, good)
    ensures var (u, err) := layer(v);
            EntryClosed(u, good) && (err.None? || IsEstablish(err)) && (u.meta.targetAddr == good ==> err.None?)
  {
  }

  lemma PauseKeepsClosed(
    mesh: Mesh, forward: Next<World, Failure>, pause: Retry.Pause<World>, good: string, v: World, d: int)
    requires Accepts(mesh, forward, pause, good) && EntryClosed(v, good)
    ensures EntryClosed(pause(v, d).0, good)
  {
  }

  lemma {:induction false} PathKeepsClosed(
    mesh: Mesh, layer: Next<World, Failure>, forward: Next<World, Failure>, pause: Retry.Pause<World>, w: World,
    calls: seq<Call>, waits: seq<int>, good: string, i: nat)
    requires Balanced(mesh, w) && Rotates(mesh, layer) && CalmPause(pause)
    requires Safe(mesh, layer, good) && Accepts(mesh, forward, pause, good) && EntryClosed(w, good)
    requires Path(layer, pause, w, calls, waits) && i < |calls|
    ensures EntryClosed(calls[i].after, good)
    ensures calls[i].err.None? || IsEstablish(calls[i].err)
    ensures calls[i].after.meta.targetAddr == good ==> calls[i].err.None?
  {
    hide TargetAddr, Route, Guard, AttemptFrom, Attempts, Distance, Safe, Accepts;
    PathRotates(mesh, layer, pause, w, calls, waits, i);
    if i > 0 {
      PathKeepsClosed(mesh, layer, forward, pause, w, calls, waits, good, i - 1);
      PauseKeepsClosed(mesh, forward, pause, good, calls[i - 1].after, waits[i - 1]);
    }
    SafeAt(mesh, layer, good, calls[i].before);
    assert layer(calls[i].before) == (calls[i].after, calls[i].err);
  }

  lemma AttemptIsSafe(mesh: Mesh, pause: Retry.Pause<World>, forward: Next<World, Failure>, good: string)
    requires CalmLayer(forward)
    requires Accepts(mesh, forward, pause, good) && FailsOnlyToEstablish(mesh, forward, pause)
    ensures Rotates(mesh, Attempt(mesh, forward)) && Safe(mesh, Attempt(mesh, forward), good)
  {
    var layer := Attempt(mesh, forward);
    forall v | Balanced(mesh, v) ensures Calm(Route(mesh, v), layer(v).0) {
      AttemptRotates(mesh, forward, v);
    }
    forall v | Balanced(mesh, v) && EntryClosed(v, good)
      ensures var (u, err) := layer(v);
              EntryClosed(u, good) && (err.None? || IsEstablish(err)) && (u.meta.targetAddr == good ==> err.None?)
    {
      AttemptOutcome(mesh, pause, forward, v, good);
    }
  }

  /** How the loop ends when no deadline comes: at the first call that is not an establish error, or spent. */
  ghost predicate Decided(budget: nat, o: Retry.Outcome<World>) {
    && o.calls != [] && o.err == o.calls[|o.calls| - 1].err
    && (IsEstablish(o.err) ==> |o.calls| == budget)
    && forall i :: 0 <= i < |o.calls| - 1 ==> IsEstablish(o.calls[i].err)
  }

  lemma AttemptsAreDecided(mesh: Mesh, pause: Retry.Pause<World>, forward: Next<World, Failure>, w: World)
    requires forall v, t :: pause(v, t).1.None?
    ensures Decided(Retry.Budget(mesh.retry), Attempts(mesh, pause, forward, w))
  {
    Retry.RetryContract(mesh.retry, Attempt(mesh, forward), pause, w);
  }

  lemma PathFailsOver(
    mesh: Mesh, layer: Next<World, Failure>, forward: Next<World, Failure>, pause: Retry.Pause<World>, w: World,
    o: Retry.Outcome<World>, g: nat, d: nat)
    requires Balanced(mesh, w) && Rotates(mesh, layer) && CalmPause(pause)
    requires g < |EndpointsOf(mesh, w)| && d < Retry.Budget(mesh.retry)
    requires (Cursor(w.cursors, w.originalDst) + d) % |EndpointsOf(mesh, w)| == g
    requires var good := TargetAddr(mesh, EndpointsOf(mesh, w)[g]);
             Safe(mesh, layer, good) && Accepts(mesh, forward, pause, good) && EntryClosed(w, good)
    requires Path(layer, pause, w, o.calls, o.waits) && Decided(Retry.Budget(mesh.retry), o)
    ensures o.err.None? && |o.calls| <= d + 1
  {
    hide TargetAddr, Route, Guard, AttemptFrom, Attempts, Distance;
    if d < |o.calls| {
      GoodCallSucceeds(mesh, layer, forward, pause, w, o.calls, o.waits, g, d);
    }
    var good := TargetAddr(mesh, EndpointsOf(mesh, w)[g]);
    PathKeepsClosed(mesh, layer, forward, pause, w, o.calls, o.waits, good, |o.calls| - 1);
  }

  lemma GoodCallSucceeds(
    mesh: Mesh, layer: Next<World, Failure>, forward: Next<World, Failure>, pause: Retry.Pause<World>, w: World,
    calls: seq<Call>, waits: seq<int>, g: nat, d: nat)
    requires Balanced(mesh, w) && Rotates(mesh, layer) && CalmPause(pause)
    requires d < |calls| && g < |EndpointsOf(mesh, w)|
    requires (Cursor(w.cursors, w.originalDst) + d) % |EndpointsOf(mesh, w)| == g
    requires var good := TargetAddr(mesh, EndpointsOf(mesh, w)[g]);
             Safe(mesh, layer, good) && Accepts(mesh, forward, pause, good) && EntryClosed(w, good)
    requires Path(layer, pause, w, calls, waits)
    ensures calls[d].err.None?
  {
    TargetOnPath(mesh, layer, pause, w, calls, waits, d);
    PathKeepsClosed(mesh, layer, forward, pause, w, calls, waits, TargetAddr(mesh, EndpointsOf(mesh, w)[g]), d);
  }

  lemma SuccessIsPassedOn(mesh: Mesh, w: World, o: Retry.Outcome<World>)
    requires o.err.None?
    ensures Finished(mesh, w, o).1.None?
  {
  }

  /**
   Failover: if one endpoint accepts and its breaker entry is closed, while the others fail at worst to
   establish, a connection with at least as many attempts as endpoints succeeds, no later than when its
   rotation reaches that endpoint.
   */
  lemma FailsOverToLiveEndpoint(
    mesh: Mesh, pause: Retry.Pause<World>, forward: Next<World, Failure>, w: World, g: nat)
    requires Balanced(mesh, w) && CalmLayer(forward) && CalmPause(pause)
    requires g < |EndpointsOf(mesh, w)| <= Retry.Budget(mesh.retry)
    requires var good := TargetAddr(mesh, EndpointsOf(mesh, w)[g]);
             Accepts(mesh, forward, pause, good) && EntryClosed(w, good)
    requires FailsOnlyToEstablish(mesh, forward, pause)
    ensures Connect(mesh, pause, forward, w).1.None?
    ensures |Attempts(mesh, pause, forward, w).calls|
            <= Distance(Cursor(w.cursors, w.originalDst), g, |EndpointsOf(mesh, w)|) + 1
  {
    hide TargetAddr, Route, Guard, AttemptFrom, Attempts, Distance, Finished, Accepts, Balanced, Connect;
    var good := TargetAddr(mesh, EndpointsOf(mesh, w)[g]);
    AttemptIsSafe(mesh, pause, forward, good);
    AttemptsArePath(mesh, pause, forward, w);
    AttemptsAreDecided(mesh, pause, forward, w);
    var c, n := Cursor(w.cursors, w.originalDst), |EndpointsOf(mesh, w)|;
    DistanceLands(c, g, n);
    PathFailsOver(
      mesh, Attempt(mesh, forward), forward, pause, w, Attempts(mesh, pause, forward, w), g, Distance(c, g, n));
    ConnectIsRetriedAttempts(mesh, pause, forward, w);
    SuccessIsPassedOn(mesh, w, Attempts(mesh, pause, forward, w));
  }

  /** A network in which a single target accepts and all others refuse. */
  function OnlyAccepts(good: string): Next<World, Failure> {
    (w: World) =>
      (w, if w.meta.targetAddr == good then None else Some(Tagged(Dial, Foreign("refused", false, None, None))))
  }

  const UNDISTURBED: Retry.Pause<World> := (v, d) => (v, None)

  /** In particular one live endpoint is enough, wherever the rotation stands and however many are down. */
  lemma OneLiveEndpointSuffices(mesh: Mesh, w: World, g: nat)
    requires Balanced(mesh, w) && g < |EndpointsOf(mesh, w)| <= Retry.Budget(mesh.retry)
    requires EntryClosed(w, TargetAddr(mesh, EndpointsOf(mesh, w)[g]))
    ensures Connect(mesh, UNDISTURBED, OnlyAccepts(TargetAddr(mesh, EndpointsOf(mesh, w)[g])), w).1.None?
  {
    hide TargetAddr, Connect, Balanced;
    FailsOverToLiveEndpoint(mesh, UNDISTURBED, OnlyAccepts(TargetAddr(mesh, EndpointsOf(mesh, w)[g])), w, g);
  }

  /** Endpoints with distinct IPs are distinct targets, so each attempt of one rotation is for another entry. */
  lemma RotationVisitsDistinctTargets(
    mesh: Mesh, pause: Retry.Pause<World>, forward: Next<World, Failure>, w: World, i: nat, j: nat)
    requires Balanced(mesh, w) && CalmLayer(forward) && CalmPause(pause)
    requires DistinctIPs(EndpointsOf(mesh, w))
    requires i < j < |Attempts(mesh, pause, forward, w).calls| && j - i < |EndpointsOf(mesh, w)|
    ensures Attempts(mesh, pause, forward, w).calls[i].after.meta.targetAddr
            != Attempts(mesh, pause, forward, w).calls[j].after.meta.targetAddr
  {
    hide TargetAddr, Route, Guard, AttemptFrom, Attempts, Distance;
    var p := AttemptPosition(mesh, pause, forward, w, i);
    var q := AttemptPosition(mesh, pause, forward, w, j);
    NearbyPositionsDiffer(Cursor(w.cursors, w.originalDst) + i, j - i, |EndpointsOf(mesh, w)|);
    SameTargetSameIP(mesh, EndpointsOf(mesh, w)[p], EndpointsOf(mesh, w)[q]);
  }

  lemma AttemptPosition(mesh: Mesh, pause: Retry.Pause<World>, forward: Next<World, Failure>, w: World, i: nat)
    returns (p: nat)
    requires Balanced(mesh, w) && CalmLayer(forward) && CalmPause(pause)
    requires i < |Attempts(mesh, pause, forward, w).calls|
    ensures p < |EndpointsOf(mesh, w)| && p == (Cursor(w.cursors, w.originalDst) + i) % |EndpointsOf(mesh, w)|
    ensures Attempts(mesh, pause, forward, w).calls[i].after.meta.targetAddr
            == TargetAddr(mesh, EndpointsOf(mesh, w)[p])
  {
    AttemptTargets(mesh, pause, forward, w, i);
    p := (Cursor(w.cursors, w.originalDst) + i) % |EndpointsOf(mesh, w)|;
  }

  lemma NearbyPositionsDiffer(a: nat, d: nat, n: nat)
    requires 0 < d < n
    ensures a % n != (a + d) % n
  {
    ModShift(a, d, n);
    SmallMod(a % n + d, n);
  }

  lemma SameTargetSameIP(mesh: Mesh, a: Endpoint, b: Endpoint)
    ensures TargetAddr(mesh, a) == TargetAddr(mesh, b) ==> a.ip == b.ip
  {
    if TargetAddr(mesh, a) == TargetAddr(mesh, b) {
      var port := if mesh.mtlsPort > 0 then mesh.mtlsPort else mesh.plainPort;
      JoinHostPortInjective(a.ip, port, b.ip, port);
    }
  }
}
