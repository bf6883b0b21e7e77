/** The chain over the real forwarder: what reaches a target, how often, and how much of the client's stream. */
module Transfer {
  import opened Options
  import opened Errors
  import opened Middleware
  import opened Routing
  import opened Pipeline
  import opened Failover
  import Breaker
  import BreakerHistory
  import Retry
  import Forwarder

  function TargetOf(w: World, tls: bool): Forwarder.Target {
    Forwarder.Target(w.meta.targetAddr, w.meta.inMesh, w.meta.serverName, tls)
  }

  function Drop(s: string, n: nat): string {
    if n <= |s| then s[n..] else []
  }

  /**
   The forwarder as the end of the chain; others may change the shared state while it runs. The reader of an attempt
   is its own, so what it took off the connection is gone for the next attempt.
   */
  function Forwarding(network: World -> Forwarder.Network, others: World -> World, tls: bool): Next<World, Failure> {
    (w: World) => ForwardIn(network(w), others(w), tls, w)
  }

  function ForwardIn(net: Forwarder.Network, v: World, tls: bool, w: World): (World, Failure) {
    var reply := Forwarder.Forward(TargetOf(w, tls), net);
    (v.(reached := w.reached + if reply.reached then 1 else 0,
        unread := Drop(w.unread, Forwarder.Taken(TargetOf(w, tls), net)),
        offered := if reply.reached then Some(Forwarder.Conveyed(TargetOf(w, tls), net, w.unread)) else w.offered),
     reply.err)
  }

  ghost predicate LibraryErrors(network: World -> Forwarder.Network) {
    forall v :: Forwarder.FromLibraries(network(v))
  }

  // ---- At most one attempt transfers ----

  /** One step reaches a target at most once, and not at all when it ends in an establish error. */
  predicate Reaches(w: World, end: (World, Failure)) {
    w.reached <= end.0.reached <= w.reached + 1 && (IsEstablish(end.1) ==> end.0.reached == w.reached)
  }

  lemma ForwardingReaches(network: World -> Forwarder.Network, others: World -> World, tls: bool, w: World)
    requires LibraryErrors(network)
    ensures Reaches(w, Forwarding(network, others, tls)(w))
  {
    hide Forwarder.Forward, IsEstablish;
    assert Forwarder.FromLibraries(network(w));
    Forwarder.EstablishErrorsReachNothing(TargetOf(w, tls), network(w));
  }

  lemma AttemptReaches(mesh: Mesh, forward: Next<World, Failure>, w: World)
    requires forall v :: Reaches(v, forward(v))
    ensures Reaches(w, Attempt(mesh, forward)(w))
  {
    GuardReaches(mesh.breaker, forward, Route(mesh, w));
    assert Reaches(Route(mesh, w), forward(Route(mesh, w)));
  }

  lemma GuardReaches(cfg: Breaker.Config, next: Next<World, Failure>, w: World)
    requires forall v :: Reaches(v, next(v))
    ensures Reaches(w, Guard(cfg, next, w))
  {
  }

  lemma RetriesReach(p: Retry.Policy, layer: Next<World, Failure>, pause: Retry.Pause<World>, w: World)
    requires forall v :: Reaches(v, layer(v))
    requires forall v, d :: pause(v, d).0.reached == v.reached
    ensures var o := Retry.Run(p, layer, pause, w); Reaches(w, (o.state, o.err))
  {
    forall v | IsEstablish(layer(v).1) ensures layer(v).0.reached == v.reached {
      assert Reaches(v, layer(v));
    }
    Retry.OnlyLastCallTransfers(p, layer, pause, (v: World) => v.reached, w);
    Retry.RetryContract(p, layer, pause, w);
    var calls := Retry.Run(p, layer, pause, w).calls;
    var last := calls[|calls| - 1];
    assert layer(last.before) == (last.after, last.err);
    assert Reaches(last.before, layer(last.before));
  }

  /** Below the timeout: at most one attempt gets bytes to a target, the last, and none before an establish error. */
  lemma AttemptsReachOnce(
    mesh: Mesh, pause: Retry.Pause<World>, network: World -> Forwarder.Network, others: World -> World,
    tls: bool, w: World)
    requires LibraryErrors(network) && forall v, d :: pause(v, d).0.reached == v.reached
    ensures var o := Attempts(mesh, pause, Forwarding(network, others, tls), w); Reaches(w, (o.state, o.err))
  {
    hide Reaches;
    var forward := Forwarding(network, others, tls);
    var layer := Attempt(mesh, forward);
    forall v ensures Reaches(v, forward(v)) {
      ForwardingReaches(network, others, tls, v);
    }
    forall v ensures Reaches(v, layer(v)) {
      AttemptReaches(mesh, forward, v);
    }
    RetriesReach(mesh.retry, layer, pause, w);
  }

  /** The whole chain: of all attempts of a connection at most one gets bytes to a target. */
  lemma AtMostOneAttemptReaches(
    mesh: Mesh, pause: Retry.Pause<World>, network: World -> Forwarder.Network, others: World -> World,
    tls: bool, w: World)
    requires LibraryErrors(network) && forall v, d :: pause(v, d).0.reached == v.reached
    ensures w.reached <= Connect(mesh, pause, Forwarding(network, others, tls), w).0.reached <= w.reached + 1
  {
    hide Attempts, Connect;
    AttemptsReachOnce(mesh, pause, network, others, tls, w);
    ConnectIsRetriedAttempts(mesh, pause, Forwarding(network, others, tls), w);
  }

  /**
   The answer does not always tell whether anything was transferred: the timeout layer replaces every late error. An
   establish error comes after bytes reached a target exactly when the attempts had reached one and failed, and the
   deadline had passed by then.
   */
  lemma EstablishErrorAfterTransferIff(
    mesh: Mesh, pause: Retry.Pause<World>, network: World -> Forwarder.Network, others: World -> World,
    tls: bool, w: World)
    requires LibraryErrors(network) && forall v, d :: pause(v, d).0.reached == v.reached
    ensures var o := Attempts(mesh, pause, Forwarding(network, others, tls), w);
            var (v, err) := Connect(mesh, pause, Forwarding(network, others, tls), w);
            IsEstablish(err) && v.reached > w.reached
            <==> o.state.reached > w.reached && o.err.Some?
                 && mesh.timeout > 0 && PastDeadline(mesh.timeout, w, o.state)
  {
    hide Attempts, Connect;
    AttemptsReachOnce(mesh, pause, network, others, tls, w);
    ConnectIsRetriedAttempts(mesh, pause, Forwarding(network, others, tls), w);
  }

  const NO_RETRY := Retry.Policy(1, "linear", 100, 0)
  const PLAIN_MESH := Mesh(map[], "", 0, 0, NONE, 5, Breaker.Config(0, 0), NO_RETRY)
  const CLIENT := World("outbound", "10.0.0.9:80", Meta("", "", false, "", ""), map[], map[], 0, 0, 0, "", None)
  const RESET := Forwarder.IOError(Foreign("connection reset", false, None, None), false)

  /** Six seconds pass before the target resets the connection. */
  const LATE_RESET: Next<World, Failure> :=
    Forwarding(_ => Forwarder.Network(false, 0, [], None, Some(RESET), None), (u: World) => u.(now := u.now + 6), true)

  lemma ResetAfterSixSeconds(w: World)
    requires w.meta.targetAddr != "" && !w.meta.inMesh
    ensures var (v, err) := LATE_RESET(w);
            v.now == w.now + 6 && v.reached == w.reached + 1 && IsKind(err, Proxy)
  {
    var net := Forwarder.Network(false, 0, [], None, Some(RESET), None);
    assert LATE_RESET(w) == ForwardIn(net, w.(now := w.now + 6), true, w);
    assert Forwarder.Bridge(net) == Some(RESET.err);
    assert Forwarder.Forward(TargetOf(w, true), net) == Forwarder.Reply(Errors.Wrap(Proxy, Some(RESET.err)), [], true);
  }

  lemma ClientIsRouted()
    ensures var r := Route(PLAIN_MESH, CLIENT);
            r.meta.targetAddr != "" && !r.meta.inMesh && r.now == 0 && r.reached == 0
  {
    assert CLIENT.listener[0] == 'o' && INBOUND_PLAIN[0] == 'i' && INBOUND_MTLS[0] == 'i';
    assert |CLIENT.originalDst| == 11;
  }

  /** A plain connection of six seconds under a timeout of five that ends in a reset is reported as a timeout. */
  lemma LateResetExample()
    ensures var (v, err) := Connect(PLAIN_MESH, UNDISTURBED, LATE_RESET, CLIENT);
            IsEstablish(err) && v.reached == 1
  {
    hide Route, Forwarding, Connect;
    ClientIsRouted();
    ResetAfterSixSeconds(Route(PLAIN_MESH, CLIENT));
    ConnectIsRetriedAttempts(PLAIN_MESH, UNDISTURBED, LATE_RESET, CLIENT);
  }

  // ---- Mesh traffic that starts like HTTP ----

  /** The breaker lets the attempt through to the forwarder. */
  predicate LetsThrough(mesh: Mesh, w: World) {
    mesh.breaker.threshold == 0
    || Breaker.Admits(mesh.breaker, Breaker.Lookup(w.entries, Route(mesh, w).meta.breakerKey), w.now)
  }

  /** Traffic between workloads of the mesh, over mTLS, whose client speaks HTTP. */
  ghost predicate HTTPInMesh(mesh: Mesh, network: World -> Forwarder.Network) {
    mesh.mtlsPort > 0 && LibraryErrors(network) && forall v :: network(v).httpPrefix
  }

  lemma HTTPForward(net: Forwarder.Network, v: World, r: World)
    requires r.meta.inMesh && r.meta.targetAddr != "" && net.httpPrefix && Forwarder.FromLibraries(net)
    ensures !IsEstablish(ForwardIn(net, v, true, r).1)
  {
    Forwarder.ServeHTTPKinds(net.exchanges);
  }

  lemma HTTPAttempt(mesh: Mesh, network: World -> Forwarder.Network, others: World -> World, v: World)
    requires Balanced(mesh, v) && HTTPInMesh(mesh, network)
    ensures var err := Attempt(mesh, Forwarding(network, others, true))(v).1;
            (IsEstablish(err) ==> IsKind(err, BreakerOpen)) && (LetsThrough(mesh, v) ==> !IsEstablish(err))
  {
    hide Forwarder.FromLibraries, ForwardIn, TargetAddr;
    var r := Route(mesh, v);
    RouteRotates(mesh, v);
    var asked := r.(
      entries := BreakerHistory.Step(mesh.breaker, r.entries, BreakerHistory.Ask(r.meta.breakerKey, r.now)));
    HTTPForward(network(r), others(r), r);
    HTTPForward(network(asked), others(asked), asked);
  }

  /**
   A mesh connection that speaks HTTP is not retried. Every call but the last was turned away by an open breaker; so if
   the breaker lets the first one through, that is the only call, whichever other endpoints are up.
   */
  lemma HTTPMakesOneCall(
    mesh: Mesh, pause: Retry.Pause<World>, network: World -> Forwarder.Network, others: World -> World, w: World)
    requires Balanced(mesh, w) && HTTPInMesh(mesh, network)
    requires CalmPause(pause) && forall v :: Calm(v, others(v))
    ensures var o := Attempts(mesh, pause, Forwarding(network, others, true), w);
            && (forall i :: 0 <= i < |o.calls| - 1 ==> IsKind(o.calls[i].err, BreakerOpen))
            && (LetsThrough(mesh, w) ==> |o.calls| == 1 && !IsEstablish(o.err))
    ensures var o := Attempts(mesh, pause, Forwarding(network, others, true), w);
            LetsThrough(mesh, w) && IsEstablish(Connect(mesh, pause, Forwarding(network, others, true), w).1) ==>
              mesh.timeout > 0 && PastDeadline(mesh.timeout, w, o.state)
  {
    hide LetsThrough, IsEstablish, IsKind, HTTPInMesh, Attempts, Forwarding, Balanced, Calm, AttemptFrom, Connect;
    var forward := Forwarding(network, others, true);
    ConnectIsRetriedAttempts(mesh, pause, forward, w);
    ForwardingCalm(network, others, true);
    AttemptsEnd(mesh, pause, forward, w);
    var o := Attempts(mesh, pause, forward, w);
    forall i | 0 <= i < |o.calls|
      ensures IsEstablish(o.calls[i].err) ==> IsKind(o.calls[i].err, BreakerOpen)
      ensures LetsThrough(mesh, o.calls[i].before) ==> !IsEstablish(o.calls[i].err)
    {
      CallIsBalanced(mesh, pause, forward, w, i);
      HTTPAttempt(mesh, network, others, o.calls[i].before);
    }
  }

  /** What the retry loop guarantees about its calls, whatever the attempts are. */
  lemma AttemptsEnd(mesh: Mesh, pause: Retry.Pause<World>, forward: Next<World, Failure>, w: World)
    ensures var o := Attempts(mesh, pause, forward, w);
            && o.calls != [] && o.calls[0].before == w
            && (forall i :: 0 <= i < |o.calls| - 1 ==> IsEstablish(o.calls[i].err))
            && var last := o.calls[|o.calls| - 1];
               !IsEstablish(last.err) ==> o.err == last.err && o.state == last.after
  {
    hide Retry.Run, IsEstablish;
    Retry.RetryContract(mesh.retry, Attempt(mesh, forward), pause, w);
  }

  lemma ForwardingCalm(network: World -> Forwarder.Network, others: World -> World, tls: bool)
    requires forall v :: Calm(v, others(v))
    ensures CalmLayer(Forwarding(network, others, tls))
  {
    hide Forwarder.Forward;
    var forward := Forwarding(network, others, tls);
    forall v ensures Calm(v, forward(v).0) {
      assert Calm(v, others(v));
    }
  }

  lemma CallIsBalanced(mesh: Mesh, pause: Retry.Pause<World>, forward: Next<World, Failure>, w: World, i: nat)
    requires Balanced(mesh, w) && CalmLayer(forward) && CalmPause(pause)
    requires i < |Attempts(mesh, pause, forward, w).calls|
    ensures var c := Attempts(mesh, pause, forward, w).calls[i];
            Balanced(mesh, c.before) && Attempt(mesh, forward)(c.before) == (c.after, c.err)
  {
    hide Route, Guard, AttemptFrom, Attempts;
    AttemptsArePath(mesh, pause, forward, w);
    forall v | Balanced(mesh, v) ensures Calm(Route(mesh, v), Attempt(mesh, forward)(v).0) {
      AttemptRotates(mesh, forward, v);
    }
    var o := Attempts(mesh, pause, forward, w);
    PathRotates(mesh, Attempt(mesh, forward), pause, w, o.calls, o.waits, i);
  }

  // ---- Failing over with the real forwarder ----

  /** Connections to good are established and end well; anything else may fail to dial, but not after that. */
  ghost predicate OneTargetUp(network: World -> Forwarder.Network, good: string) {
    LibraryErrors(network)
    && forall v :: !network(v).httpPrefix && Forwarder.Bridge(network(v)).None?
                   && (v.meta.targetAddr == good ==> network(v).dialErr.None?)
  }

  lemma ForwardOutcome(mesh: Mesh, net: Forwarder.Network, u: World, v: World)
    requires Forwarder.FromLibraries(net) && !net.httpPrefix && Forwarder.Bridge(net).None?
    requires Routed(mesh, v) && forall e :: e in EndpointsOf(mesh, v) ==> e.serviceName != ""
    ensures var err := ForwardIn(net, u, true, v).1;
            (err.Some? ==> IsEstablish(err)) && (net.dialErr.None? ==> err.None?)
  {
    hide TargetAddr, IsEstablish, ClassifyDial;
    var e :| e in EndpointsOf(mesh, v) && v.meta == MetaFor(mesh, e);
    TargetNotEmpty(mesh, e);
    NoFailure();
    if net.dialErr.Some? {
      ClassifyDialEstablishes(net.dialErr.value);
      ClassifiedIsFailure(net.dialErr.value);
    }
  }

  lemma NoFailure()
    ensures ClassifyDial(None) == None
  {
  }

  lemma ClassifiedIsFailure(e: Error)
    ensures ClassifyDial(Some(e)).Some?
  {
  }

  lemma TargetNotEmpty(mesh: Mesh, e: Endpoint)
    ensures TargetAddr(mesh, e) != ""
  {
  }

  /**
   The failover theorem for the forwarder itself: traffic that does not start like HTTP reaches the one endpoint that
   can be dialled, wherever the rotation stands.
   */
  lemma ForwarderFailsOver(
    mesh: Mesh, pause: Retry.Pause<World>, network: World -> Forwarder.Network, others: World -> World,
    w: World, g: nat)
    requires Balanced(mesh, w) && g < |EndpointsOf(mesh, w)| <= Retry.Budget(mesh.retry)
    requires forall key, e :: key in mesh.cache && e in mesh.cache[key] ==> e.serviceName != ""
    requires CalmPause(pause) && (forall v, d :: pause(v, d).1.None?) && forall v :: Calm(v, others(v))
    requires var good := TargetAddr(mesh, EndpointsOf(mesh, w)[g]);
             && OneTargetUp(network, good) && EntryClosed(w, good)
             && (forall v :: EntryClosed(v, good) ==> EntryClosed(others(v), good))
             && (forall v, d :: EntryClosed(v, good) ==> EntryClosed(pause(v, d).0, good))
    ensures Connect(mesh, pause, Forwarding(network, others, true), w).1.None?
  {
    hide TargetAddr, Connect, Attempts, Forwarder.Forward, Forwarder.FromLibraries, Forwarder.Bridge;
    var good, forward := TargetAddr(mesh, EndpointsOf(mesh, w)[g]), Forwarding(network, others, true);
    ForwardingCalm(network, others, true);
    forall v | Routed(mesh, v)
      ensures forward(v).1.Some? ==> IsEstablish(forward(v).1)
      ensures v.meta.targetAddr == good ==> forward(v).1.None?
    {
      ForwardOutcome(mesh, network(v), others(v), v);
    }
    forall v | EntryClosed(v, good) ensures EntryClosed(forward(v).0, good) {
      assert EntryClosed(others(v), good);
    }
    FailsOverToLiveEndpoint(mesh, pause, forward, w, g);
  }
}
