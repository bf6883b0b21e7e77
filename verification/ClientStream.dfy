/** How much of the client's stream arrives: each attempt reads through a buffer of its own. */
module ClientStream {
  import opened Options
  import opened Errors
  import opened Middleware
  import opened Routing
  import opened Pipeline
  import opened Failover
  import opened Transfer
  import Breaker
  import BreakerHistory
  import Retry
  import Forwarder

  /** The world in which the forwarder starts an attempt, unless the breaker does not let it through. */
  function Handed(mesh: Mesh, v: World): Option<World> {
    var r := Route(mesh, v);
    if mesh.breaker.threshold > 0 then Guarded(mesh.breaker, r) else Some(r)
  }

  function Guarded(cfg: Breaker.Config, r: World): Option<World> {
    var key := r.meta.breakerKey;
    if key == "" then Some(r)
    else if !Breaker.Admits(cfg, Breaker.Lookup(r.entries, key), r.now) then None
    else Some(r.(entries := BreakerHistory.Step(cfg, r.entries, BreakerHistory.Ask(key, r.now))))
  }

  /** How many client bytes the attempt starting in v takes off the connection before it has established anything. */
  function Looks(mesh: Mesh, network: World -> Forwarder.Network, tls: bool, v: World): nat {
    Peeks(network, tls, Handed(mesh, v))
  }

  function Peeks(network: World -> Forwarder.Network, tls: bool, h: Option<World>): nat {
    if h.None? then 0 else Forwarder.Taken(TargetOf(h.value, tls), network(h.value))
  }

  /** What of the client's stream the attempt that starts in v conveys, if it reaches its target. */
  function Conveys(mesh: Mesh, network: World -> Forwarder.Network, tls: bool, v: World): string {
    Carried(network, tls, Handed(mesh, v), v.unread)
  }

  function Carried(network: World -> Forwarder.Network, tls: bool, h: Option<World>, stream: string): string {
    if h.None? then "" else Forwarder.Conveyed(TargetOf(h.value, tls), network(h.value), stream)
  }

  /** One step offers the target it reaches the given part of the stream, and loses the given number of bytes. */
  predicate Streams(v: World, u: World, lost: nat, part: string) {
    u.unread == Drop(v.unread, lost) && (u.reached > v.reached ==> u.offered == Some(part))
  }

  lemma ForwardingStreams(network: World -> Forwarder.Network, others: World -> World, tls: bool, v: World)
    ensures Streams(v, Forwarding(network, others, tls)(v).0, Peeks(network, tls, Some(v)),
                    Carried(network, tls, Some(v), v.unread))
  {
    hide Forwarder.Forward, Forwarder.Taken, Forwarder.Conveyed;
  }

  lemma GuardStreams(
    cfg: Breaker.Config, network: World -> Forwarder.Network, others: World -> World, tls: bool, r: World)
    ensures Streams(r, Guard(cfg, Forwarding(network, others, tls), r).0, Peeks(network, tls, Guarded(cfg, r)),
                    Carried(network, tls, Guarded(cfg, r), r.unread))
  {
    hide Forwarding, Forwarder.Taken, Forwarder.Conveyed, Breaker.Admits, Breaker.Lookup, BreakerHistory.Step,
      IsEstablish;
    var asked := r.(entries := BreakerHistory.Step(cfg, r.entries, BreakerHistory.Ask(r.meta.breakerKey, r.now)));
    ForwardingStreams(network, others, tls, r);
    ForwardingStreams(network, others, tls, asked);
  }

  lemma AttemptStream(mesh: Mesh, network: World -> Forwarder.Network, others: World -> World, tls: bool, v: World)
    ensures Streams(v, Attempt(mesh, Forwarding(network, others, tls))(v).0, Looks(mesh, network, tls, v),
                    Conveys(mesh, network, tls, v))
  {
    hide Forwarding, Guard, Guarded, Peeks, Carried, MetaFor;
    RouteKeepsStream(mesh, v);
    GuardStreams(mesh.breaker, network, others, tls, Route(mesh, v));
    ForwardingStreams(network, others, tls, Route(mesh, v));
  }

  lemma RouteKeepsStream(mesh: Mesh, w: World)
    ensures var r := Route(mesh, w); r.unread == w.unread && r.reached == w.reached && r.offered == w.offered
  {
    hide MetaFor;
  }

  /** Waiting touches neither the client's connection nor any target. */
  ghost predicate WaitsOnly(pause: Retry.Pause<World>) {
    forall v, d :: pause(v, d).0.reached == v.reached && pause(v, d).0.unread == v.unread
  }

  lemma WaitKeeps(pause: Retry.Pause<World>, v: World, d: int)
    requires WaitsOnly(pause)
    ensures pause(v, d).0.reached == v.reached && pause(v, d).0.unread == v.unread
  {
  }

  lemma {:induction false} StreamAtCall(
    mesh: Mesh, pause: Retry.Pause<World>, network: World -> Forwarder.Network, others: World -> World, tls: bool,
    w: World, calls: seq<Call>, waits: seq<int>, i: nat)
    requires Path(Attempt(mesh, Forwarding(network, others, tls)), pause, w, calls, waits)
    requires WaitsOnly(pause) && i < |calls|
    ensures |calls[i].before.unread| <= |w.unread|
    ensures calls[i].before.unread == w.unread
            <==> w.unread == [] || forall j :: 0 <= j < i ==> Looks(mesh, network, tls, calls[j].before) == 0
    ensures calls[i].before.unread != w.unread ==> |calls[i].before.unread| < |w.unread|
  {
    hide Looks, AttemptFrom, Forwarding;
    if i > 0 {
      var prev := calls[i - 1];
      StreamAtCall(mesh, pause, network, others, tls, w, calls, waits, i - 1);
      AttemptStream(mesh, network, others, tls, prev.before);
      assert Attempt(mesh, Forwarding(network, others, tls))(prev.before) == (prev.after, prev.err);
      assert pause(prev.after, waits[i - 1]).0 == calls[i].before;
      WaitKeeps(pause, prev.after, waits[i - 1]);
      assert calls[i].before.unread == Drop(prev.before.unread, Looks(mesh, network, tls, prev.before));
    }
  }

  /** When a connection got bytes to a target, its last call did, and the calls before it got none anywhere. */
  lemma LastCallReached(
    mesh: Mesh, pause: Retry.Pause<World>, network: World -> Forwarder.Network, others: World -> World,
    tls: bool, w: World)
    requires LibraryErrors(network) && WaitsOnly(pause)
    requires Attempts(mesh, pause, Forwarding(network, others, tls), w).state.reached > w.reached
    ensures var o := Attempts(mesh, pause, Forwarding(network, others, tls), w);
            && o.calls != [] && var last := o.calls[|o.calls| - 1];
            && last.before.reached == w.reached && o.state == last.after
            && Attempt(mesh, Forwarding(network, others, tls))(last.before) == (last.after, last.err)
  {
    hide Forwarding, AttemptFrom, IsEstablish, Retry.Run;
    var forward := Forwarding(network, others, tls);
    var layer := Attempt(mesh, forward);
    forall v ensures Reaches(v, layer(v)) {
      AttemptOverForwarderReaches(mesh, network, others, tls, v);
    }
    forall v | IsEstablish(layer(v).1) ensures layer(v).0.reached == v.reached {
      assert Reaches(v, layer(v));
    }
    Retry.OnlyLastCallTransfers(mesh.retry, layer, pause, (v: World) => v.reached, w);
    Retry.RetryContract(mesh.retry, layer, pause, w);
    var o := Attempts(mesh, pause, forward, w);
    var last := o.calls[|o.calls| - 1];
    assert layer(last.before) == (last.after, last.err);
    assert Reaches(last.before, layer(last.before));
  }

  lemma AttemptOverForwarderReaches(
    mesh: Mesh, network: World -> Forwarder.Network, others: World -> World, tls: bool, v: World)
    requires LibraryErrors(network)
    ensures Reaches(v, Attempt(mesh, Forwarding(network, others, tls))(v))
  {
    hide Reaches, AttemptFrom;
    var forward := Forwarding(network, others, tls);
    forall u ensures Reaches(u, forward(u)) {
      ForwardingReaches(network, others, tls, u);
    }
    AttemptReaches(mesh, forward, v);
  }

  /**
   The target a connection reaches is offered the client's whole stream exactly when no earlier attempt had taken
   anything off the connection, that is, had looked at it on its way to an mTLS dial that then failed, and the last
   attempt conveys all there is, which over HTTP takes that the requests sent make up the stream.
   */
  lemma TargetGetsWholeStreamIff(
    mesh: Mesh, pause: Retry.Pause<World>, network: World -> Forwarder.Network, others: World -> World,
    tls: bool, w: World)
    requires LibraryErrors(network) && WaitsOnly(pause)
    requires Connect(mesh, pause, Forwarding(network, others, tls), w).0.reached > w.reached
    ensures var calls := Attempts(mesh, pause, Forwarding(network, others, tls), w).calls;
            && calls != []
            && var last := calls[|calls| - 1].before;
            (Connect(mesh, pause, Forwarding(network, others, tls), w).0.offered == Some(w.unread)
             <==> (|| w.unread == []
                   || forall j :: 0 <= j < |calls| - 1 ==> Looks(mesh, network, tls, calls[j].before) == 0)
                  && Conveys(mesh, network, tls, last) == last.unread)
  {
    hide Attempts, Connect, Looks, Conveys, Forwarding, AttemptFrom;
    var forward := Forwarding(network, others, tls);
    ConnectIsRetriedAttempts(mesh, pause, forward, w);
    LastCallReached(mesh, pause, network, others, tls, w);
    AttemptsArePath(mesh, pause, forward, w);
    var o := Attempts(mesh, pause, forward, w);
    var n := |o.calls| - 1;
    StreamAtCall(mesh, pause, network, others, tls, w, o.calls, o.waits, n);
    AttemptStream(mesh, network, others, tls, o.calls[n].before);
    ConveysNoMore(mesh, network, tls, o.calls[n].before);
  }

  lemma ConveysNoMore(mesh: Mesh, network: World -> Forwarder.Network, tls: bool, v: World)
    ensures |Conveys(mesh, network, tls, v)| <= |v.unread|
    ensures Conveys(mesh, network, tls, v) == v.unread || |Conveys(mesh, network, tls, v)| < |v.unread|
  {
    hide Handed;
  }

  /** The forwarder is not asked to use mTLS. */
  lemma PlainCall(mesh: Mesh, network: World -> Forwarder.Network, tls: bool, v: World)
    requires mesh.mtlsPort <= 0
    ensures Looks(mesh, network, tls, v) == 0
    ensures Handed(mesh, v).Some? ==> Conveys(mesh, network, tls, v) == v.unread
  {
    hide Forwarder.ServeHTTP, Forwarder.RequestBytes, BreakerHistory.Step, Breaker.Admits;
    assert !Route(mesh, v).meta.inMesh;
  }

  /** An attempt that reaches a target has been let through. */
  lemma ReachingIsHanded(
    mesh: Mesh, network: World -> Forwarder.Network, others: World -> World, tls: bool, v: World)
    requires Attempt(mesh, Forwarding(network, others, tls))(v).0.reached > v.reached
    ensures Handed(mesh, v).Some?
  {
    hide Forwarding, Breaker.Admits, Breaker.Lookup, BreakerHistory.Step, IsEstablish, MetaFor;
    RouteKeepsStream(mesh, v);
  }

  /** Without mTLS nothing is ever lost: the forwarder does not look at the client before it has dialled. */
  lemma PlainMeshLosesNothing(
    mesh: Mesh, pause: Retry.Pause<World>, network: World -> Forwarder.Network, others: World -> World,
    tls: bool, w: World)
    requires LibraryErrors(network) && WaitsOnly(pause) && mesh.mtlsPort <= 0
    requires Connect(mesh, pause, Forwarding(network, others, tls), w).0.reached > w.reached
    ensures Connect(mesh, pause, Forwarding(network, others, tls), w).0.offered == Some(w.unread)
  {
    hide Attempts, Connect, Forwarding, Looks, Conveys, Handed, AttemptFrom;
    var forward := Forwarding(network, others, tls);
    ConnectIsRetriedAttempts(mesh, pause, forward, w);
    LastCallReached(mesh, pause, network, others, tls, w);
    TargetGetsWholeStreamIff(mesh, pause, network, others, tls, w);
    var calls := Attempts(mesh, pause, forward, w).calls;
    forall j | 0 <= j < |calls| ensures Looks(mesh, network, tls, calls[j].before) == 0 {
      PlainCall(mesh, network, tls, calls[j].before);
    }
    ReachingIsHanded(mesh, network, others, tls, calls[|calls| - 1].before);
    PlainCall(mesh, network, tls, calls[|calls| - 1].before);
  }

  // ---- A client that speaks first ----

  predicate StartsLikeHTTP(s: string) {
    |s| >= 4 && s[..4] in {"GET ", "POST", "PUT ", "HEAD", "DELE", "PATC", "OPTI"}
  }

  /** The first look finds a beginning of the stream, and takes it for HTTP by its first four bytes. */
  ghost predicate Heard(network: World -> Forwarder.Network) {
    forall v :: network(v).peeked <= |v.unread|
                && (network(v).httpPrefix <==> StartsLikeHTTP(v.unread[..network(v).peeked]))
  }

  lemma NotHTTP(network: World -> Forwarder.Network, v: World)
    requires Heard(network) && !StartsLikeHTTP(v.unread)
    ensures !network(v).httpPrefix
  {
    var n := network(v).peeked;
    assert n >= 4 ==> v.unread[..n][..4] == v.unread[..4];
  }

  lemma HandedKeeps(mesh: Mesh, w: World)
    requires Balanced(mesh, w) && Handed(mesh, w).Some?
    ensures var h := Handed(mesh, w).value; Routed(mesh, h) && h.unread == w.unread
  {
    hide TargetAddr, BreakerHistory.Step, Breaker.Admits, Breaker.Lookup;
    var h, r := Handed(mesh, w).value, Route(mesh, w);
    RouteIsRouted(mesh, w);
    var e :| e in EndpointsOf(mesh, r) && r.meta == MetaFor(mesh, e);
    assert EndpointsOf(mesh, h) == EndpointsOf(mesh, r) && h.meta == MetaFor(mesh, e);
  }

  /** The answer of an attempt that is let through is the forwarder's. */
  lemma HandedAnswer(mesh: Mesh, network: World -> Forwarder.Network, others: World -> World, tls: bool, v: World)
    requires Handed(mesh, v).Some?
    ensures var h := Handed(mesh, v).value;
            Attempt(mesh, Forwarding(network, others, tls))(v).1 == ForwardIn(network(h), others(h), tls, h).1
  {
    hide ForwardIn, Breaker.Admits, Breaker.Lookup, BreakerHistory.Step, IsEstablish, MetaFor;
  }

  /** Over mTLS, without an HTTP prefix, an attempt fails to establish exactly when its dial fails. */
  lemma MTLSOutcome(mesh: Mesh, net: Forwarder.Network, u: World, h: World)
    requires Forwarder.FromLibraries(net) && !net.httpPrefix && mesh.mtlsPort > 0
    requires Routed(mesh, h) && forall e :: e in EndpointsOf(mesh, h) ==> e.serviceName != ""
    ensures IsEstablish(ForwardIn(net, u, true, h).1) <==> net.dialErr.Some?
  {
    hide TargetAddr;
    var e :| e in EndpointsOf(mesh, h) && h.meta == MetaFor(mesh, e);
    TargetNotEmpty(mesh, e);
    NoFailure();
    if net.dialErr.Some? {
      ClassifyDialEstablishes(net.dialErr.value);
      ClassifiedIsFailure(net.dialErr.value);
    } else if Forwarder.Bridge(net).Some? {
      WrapKeepsFirstKind(Proxy, Proxy, Forwarder.Bridge(net).value);
    }
  }

  /**
   A client whose first words are no HTTP request and are heard at the first look: over mTLS the target it reaches is
   offered all of them exactly when the first endpoint tried could be dialled.
   */
  lemma SpeaksFirst(
    mesh: Mesh, pause: Retry.Pause<World>, network: World -> Forwarder.Network, others: World -> World, w: World)
    requires Balanced(mesh, w) && mesh.mtlsPort > 0 && Handed(mesh, w).Some?
    requires forall e :: e in EndpointsOf(mesh, w) ==> e.serviceName != ""
    requires LibraryErrors(network) && WaitsOnly(pause) && Heard(network)
    requires !StartsLikeHTTP(w.unread) && network(Handed(mesh, w).value).peeked > 0
    requires Connect(mesh, pause, Forwarding(network, others, true), w).0.reached > w.reached
    ensures Connect(mesh, pause, Forwarding(network, others, true), w).0.offered == Some(w.unread)
            <==> network(Handed(mesh, w).value).dialErr.None?
  {
    hide Attempts, Connect, Forwarding, Handed, AttemptFrom, IsEstablish, ForwardIn, Routed, StartsLikeHTTP, Balanced;
    var forward := Forwarding(network, others, true);
    var h := Handed(mesh, w).value;
    HandedKeeps(mesh, w);
    NotHTTP(network, h);
    FirstAnswer(mesh, network, others, w);
    FirstLook(mesh, network, w);
    ConnectIsRetriedAttempts(mesh, pause, forward, w);
    LastCallReached(mesh, pause, network, others, true, w);
    TargetGetsWholeStreamIff(mesh, pause, network, others, true, w);
    AttemptsEnd(mesh, pause, forward, w);
    AttemptOverForwarderReaches(mesh, network, others, true, w);
    var calls := Attempts(mesh, pause, forward, w).calls;
    FirstCall(mesh, pause, forward, w);
    hide Looks, Conveys;
    assert 0 < network(h).peeked <= |h.unread|;
  }

  lemma FirstCall(mesh: Mesh, pause: Retry.Pause<World>, forward: Next<World, Failure>, w: World)
    ensures var calls := Attempts(mesh, pause, forward, w).calls;
            && calls != [] && calls[0].before == w
            && Attempt(mesh, forward)(w) == (calls[0].after, calls[0].err)
  {
    hide Attempts, AttemptFrom;
    AttemptsArePath(mesh, pause, forward, w);
  }

  lemma FirstAnswer(mesh: Mesh, network: World -> Forwarder.Network, others: World -> World, w: World)
    requires Balanced(mesh, w) && mesh.mtlsPort > 0 && Handed(mesh, w).Some? && LibraryErrors(network)
    requires forall e :: e in EndpointsOf(mesh, w) ==> e.serviceName != ""
    requires !network(Handed(mesh, w).value).httpPrefix
    ensures IsEstablish(Attempt(mesh, Forwarding(network, others, true))(w).1)
            <==> network(Handed(mesh, w).value).dialErr.Some?
  {
    hide Handed, Forwarding, AttemptFrom, ForwardIn, IsEstablish;
    var h := Handed(mesh, w).value;
    HandedKeeps(mesh, w);
    HandedEndpoints(mesh, w);
    HandedAnswer(mesh, network, others, true, w);
    MTLSOutcome(mesh, network(h), others(h), h);
  }

  lemma HandedEndpoints(mesh: Mesh, w: World)
    requires Balanced(mesh, w) && Handed(mesh, w).Some?
    ensures Balanced(mesh, Handed(mesh, w).value)
    ensures EndpointsOf(mesh, Handed(mesh, w).value) == EndpointsOf(mesh, w)
  {
    hide MetaFor, BreakerHistory.Step, Breaker.Admits, Breaker.Lookup;
  }

  lemma FirstLook(mesh: Mesh, network: World -> Forwarder.Network, w: World)
    requires Balanced(mesh, w) && mesh.mtlsPort > 0 && Handed(mesh, w).Some?
    requires !network(Handed(mesh, w).value).httpPrefix
    ensures Looks(mesh, network, true, w) == network(Handed(mesh, w).value).peeked
    ensures Conveys(mesh, network, true, w) == w.unread
  {
    hide TargetAddr, Handed;
    var h := Handed(mesh, w).value;
    HandedKeeps(mesh, w);
    var e :| e in EndpointsOf(mesh, h) && h.meta == MetaFor(mesh, e);
    TargetNotEmpty(mesh, e);
  }

  // ---- A stream that loses its beginning ----

  const DOWN := Endpoint("10.0.0.1", 6379, "redis")
  const UP := Endpoint("10.0.0.2", 6379, "redis")
  const REFUSED: Failure := Some(Foreign("connection refused", false, None, None))

  const REDIS_MESH := Mesh(
    map["10.96.0.1:6379" := [DOWN, UP]], "", 0, 9443, "roundRobin", 0, Breaker.Config(0, 0),
    Retry.Policy(2, "linear", 100, 0))

  const REDIS_CLIENT := World(
    "outbound", "10.96.0.1:6379", Meta("", "", false, "", ""), map[], map[], 0, 0, 0, PING, None)

  const PING := "*1PING"

  /** The first look finds all the client has said; the endpoint DOWN refuses connections. */
  function RedisNetwork(v: World): Forwarder.Network {
    var heard := if v.unread == PING then 6 else 0;
    var dialErr := if v.meta == MetaFor(REDIS_MESH, DOWN) then REFUSED else None;
    Forwarder.Network(false, heard, [], dialErr, None, None)
  }

  const REDIS: Next<World, Failure> := Forwarding(RedisNetwork, (u: World) => u, true)

  lemma ClientIsBalanced()
    ensures Balanced(REDIS_MESH, REDIS_CLIENT) && EndpointsOf(REDIS_MESH, REDIS_CLIENT) == [DOWN, UP]
  {
    assert REDIS_CLIENT.listener[0] == 'o' && INBOUND_PLAIN[0] == 'i' && INBOUND_MTLS[0] == 'i';
    assert |REDIS_MESH.policy| == 10 && |NONE| == 4 && |RANDOM| == 6;
  }

  lemma TargetsDiffer()
    ensures MetaFor(REDIS_MESH, DOWN) != MetaFor(REDIS_MESH, UP)
  {
    hide TargetAddr;
    SameTargetSameIP(REDIS_MESH, DOWN, UP);
    assert DOWN.ip[7] == '1' && UP.ip[7] == '2';
  }

  /** One attempt over mTLS, to whichever of the two the router chose. */
  lemma RedisAttempt(v: World, e: Endpoint)
    requires v.meta == MetaFor(REDIS_MESH, e) && e in [DOWN, UP]
    ensures var (u, err) := REDIS(v);
            && u.originalDst == v.originalDst && u.listener == v.listener && u.cursors == v.cursors
            && (v.unread == PING ==> u.unread == "")
            && if e == DOWN then err.Some? && IsEstablish(err) && u.reached == v.reached
               else err.None? && u.reached == v.reached + 1 && u.offered == Some(v.unread)
  {
    hide TargetAddr;
    TargetNotEmpty(REDIS_MESH, e);
    TargetsDiffer();
    var net := RedisNetwork(v);
    assert REDIS(v) == ForwardIn(net, v, true, v);
    assert |e.serviceName| == 5;
    ClassifyDialEstablishes(REFUSED.value);
    assert ClassifyDial(None) == None && Forwarder.Bridge(net) == None;
  }

  lemma SecondCallDecides(p: Retry.Policy, next: Next<World, Failure>, w: World)
    requires p.attempts == 2 && next(w).1.Some? && IsEstablish(next(w).1)
    ensures var o := Retry.Run(p, next, UNDISTURBED, w); o.state == next(next(w).0).0 && o.err == next(next(w).0).1
  {
    hide IsEstablish, Retry.Backoff;
    var v := next(w).0;
    assert UNDISTURBED(v, Retry.Backoff(p, 1)) == (v, None);
    assert Retry.RetryFrom(p, next, UNDISTURBED, 2, v).state == next(v).0;
  }

  lemma RedisIsHeard()
    ensures Heard(RedisNetwork) && LibraryErrors(RedisNetwork) && WaitsOnly(UNDISTURBED)
  {
    hide MetaFor;
    assert PING[0] == '*';
  }

  /**
   A client that speaks first and is heard loses what it said to the endpoint that was down, and the connection
   succeeds.
   */
  lemma LostBeginningExample()
    ensures Heard(RedisNetwork) && LibraryErrors(RedisNetwork) && WaitsOnly(UNDISTURBED)
    ensures Handed(REDIS_MESH, REDIS_CLIENT).Some? && !StartsLikeHTTP(REDIS_CLIENT.unread)
    ensures RedisNetwork(Handed(REDIS_MESH, REDIS_CLIENT).value).peeked == 6
    ensures var (v, err) := Connect(REDIS_MESH, UNDISTURBED, REDIS, REDIS_CLIENT);
            err.None? && v.reached == 1 && v.offered == Some("") && REDIS_CLIENT.unread == PING
  {
    hide Route, MetaFor, ForwardIn, Forwarding, Connect, Retry.Run, IsEstablish;
    var next := Attempt(REDIS_MESH, REDIS);
    ClientIsBalanced();
    RedisCall(REDIS_CLIENT, 0, DOWN);
    var v := next(REDIS_CLIENT).0;
    RedisIsHeard();
    RouteKeepsStream(REDIS_MESH, REDIS_CLIENT);
    assert PING[0] == '*';
    RedisCall(v, 1, UP);
    SecondCallDecides(REDIS_MESH.retry, next, REDIS_CLIENT);
    ConnectIsRetriedAttempts(REDIS_MESH, UNDISTURBED, REDIS, REDIS_CLIENT);
  }

  /** One call of the connection, when the rotation stands at the given endpoint. */
  lemma RedisCall(v: World, i: nat, e: Endpoint)
    requires Balanced(REDIS_MESH, v) && EndpointsOf(REDIS_MESH, v) == [DOWN, UP]
    requires i < 2 && e == [DOWN, UP][i] && Cursor(v.cursors, v.originalDst) == i
    ensures var (u, err) := Attempt(REDIS_MESH, REDIS)(v);
            && Balanced(REDIS_MESH, u) && EndpointsOf(REDIS_MESH, u) == [DOWN, UP]
            && Cursor(u.cursors, u.originalDst) == (i + 1) % 2 && (v.unread == PING ==> u.unread == "")
            && if e == DOWN then err.Some? && IsEstablish(err) && u.reached == v.reached
               else err.None? && u.reached == v.reached + 1 && u.offered == Some(v.unread)
  {
    hide Route, MetaFor, IsEstablish, Forwarding;
    var r := Route(REDIS_MESH, v);
    RouteRotates(REDIS_MESH, v);
    RouteKeepsStream(REDIS_MESH, v);
    RedisAttempt(r, e);
    assert Attempt(REDIS_MESH, REDIS)(v) == REDIS(r);
  }
}
