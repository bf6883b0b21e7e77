/** The chain one connection runs through: timeout, retry, routing, breaker and, innermost, the forwarder. */
module Pipeline {
  import opened Options
  import opened GoStrings
  import opened Errors
  import opened Middleware
  import opened Routing
  import Breaker
  import BreakerHistory
  import Retry

  const INBOUND_PLAIN := "inbound_plain"
  const INBOUND_MTLS := "inbound_mtls"

  datatype Meta = Meta(targetAddr: string, service: string, inMesh: bool, serverName: string, breakerKey: string)

  /**
   One connection's context together with the state the layers share. Between two steps of this connection
   others may change that state. reached counts the attempts after which bytes may have reached a target, unread is
   what the client has sent and no attempt has taken off the connection, and offered is the part of it that the
   forwarder set out to convey to the target it reached.
   */
  datatype World = World(
    listener: string, originalDst: string, meta: Meta,
    cursors: Cursors, entries: Breaker.Entries, now: int, draw: nat,
    reached: nat, unread: string, offered: Option<string>)

  datatype Mesh = Mesh(
    cache: map<string, seq<Endpoint>>, appTarget: string, plainPort: int, mtlsPort: int,
    policy: string, timeout: int, breaker: Breaker.Config, retry: Retry.Policy)

  type Link = Handler<World, Failure>

  function TargetAddr(mesh: Mesh, e: Endpoint): string {
    JoinHostPort(e.ip, if mesh.mtlsPort > 0 then mesh.mtlsPort else mesh.plainPort)
  }

  /** What routing notes for the layers below once it has selected an endpoint. */
  function MetaFor(mesh: Mesh, e: Endpoint): Meta {
    var mtls := mesh.mtlsPort > 0;
    Meta(TargetAddr(mesh, e), e.serviceName, mtls, if mtls then e.serviceName else "", TargetAddr(mesh, e))
  }

  /** routingMiddleware.Handle up to its call of next. */
  function Route(mesh: Mesh, w: World): World {
    if w.listener == INBOUND_PLAIN || w.listener == INBOUND_MTLS then
      w.(meta := Meta(mesh.appTarget, "local-app", false, "", ""))
    else if w.originalDst !in mesh.cache || mesh.cache[w.originalDst] == [] then
      w.(meta := Meta(w.originalDst, "external", false, "", ""))
    else
      var endpoints := mesh.cache[w.originalDst];
      var n := |endpoints|;
      var selected := endpoints[Position(mesh.policy, Cursor(w.cursors, w.originalDst), n, w.draw % n)];
      w.(meta := MetaFor(mesh, selected), cursors := Advance(mesh.policy, w.cursors, w.originalDst, n))
  }

  function RouteLink(mesh: Mesh): Link {
    (next: Next<World, Failure>, w: World) => next(Route(mesh, w))
  }

  /** breakerMiddleware.Handle. */
  function Guard(cfg: Breaker.Config, next: Next<World, Failure>, w: World): (World, Failure) {
    var key := w.meta.breakerKey;
    if key == "" then next(w)
    else
      var asked := w.(entries := BreakerHistory.Step(cfg, w.entries, BreakerHistory.Ask(key, w.now)));
      if !Breaker.Admits(cfg, Breaker.Lookup(w.entries, key), w.now) then
        (asked, Some(Tagged(BreakerOpen, Foreign("circuit breaker is open for " + key, false, None, None))))
      else
        var (v, err) := next(asked);
        if err.None? then (v.(entries := BreakerHistory.Step(cfg, v.entries, BreakerHistory.Success(key))), None)
        else if IsEstablish(err) then
          (v.(entries := BreakerHistory.Step(cfg, v.entries, BreakerHistory.Failure(key, v.now))), err)
        else (v, err)
  }

  function GuardLink(cfg: Breaker.Config): Link {
    (next: Next<World, Failure>, w: World) => Guard(cfg, next, w)
  }

  function RetryLink(p: Retry.Policy, pause: Retry.Pause<World>): Link {
    (next: Next<World, Failure>, w: World) => (Retry.Run(p, next, pause, w).state, Retry.Run(p, next, pause, w).err)
  }

  /** A connection that began at start has used up its time; no other context ends it. */
  predicate PastDeadline(timeout: int, start: World, end: World) {
    end.now - start.now >= timeout
  }

  /** What the timeout layer makes of an answer: the layers below work on a copy of the metadata. */
  function Timed(timeout: int, start: World, end: (World, Failure)): (World, Failure) {
    var (v, err) := end;
    (v.(meta := start.meta),
     if err.Some? && PastDeadline(timeout, start, v) then
       Some(Tagged(Timeout, Foreign("connection establish timed out", false, None, None)))
     else err)
  }

  /** timeoutMiddleware.Handle. */
  function TimeoutLink(timeout: int): Link {
    (next: Next<World, Failure>, w: World) => Timed(timeout, w, next(w))
  }

  /** The links under the timeout; without a threshold there is no breaker. */
  function InnerLinks(mesh: Mesh, pause: Retry.Pause<World>): seq<Link> {
    [RetryLink(mesh.retry, pause), RouteLink(mesh)]
    + if mesh.breaker.threshold > 0 then [GuardLink(mesh.breaker)] else []
  }

  /** The links in the order the service assembles them; without a positive timeout that layer is left out. */
  function Links(mesh: Mesh, pause: Retry.Pause<World>): seq<Link> {
    (if mesh.timeout > 0 then [TimeoutLink(mesh.timeout)] else []) + InnerLinks(mesh, pause)
  }

  /** What one connection does: the chain over the forwarder. */
  function Connect(mesh: Mesh, pause: Retry.Pause<World>, forward: Next<World, Failure>, w: World): (World, Failure) {
    Chain(Links(mesh, pause))(forward, w)
  }

  /** One attempt: everything below the retry layer. */
  function AttemptFrom(mesh: Mesh, forward: Next<World, Failure>, w: World): (World, Failure) {
    if mesh.breaker.threshold > 0 then Guard(mesh.breaker, forward, Route(mesh, w)) else forward(Route(mesh, w))
  }

  function Attempt(mesh: Mesh, forward: Next<World, Failure>): Next<World, Failure> {
    w => AttemptFrom(mesh, forward, w)
  }

  function Attempts(mesh: Mesh, pause: Retry.Pause<World>, forward: Next<World, Failure>, w: World)
    : Retry.Outcome<World>
  {
    Retry.Run(mesh.retry, Attempt(mesh, forward), pause, w)
  }

  lemma {:induction false} RetryFromOnlyCallsNext(
    p: Retry.Policy, a: Next<World, Failure>, b: Next<World, Failure>, pause: Retry.Pause<World>, n: int, w: World)
    requires Same(a, b) && n <= p.attempts
    ensures Retry.RetryFrom(p, a, pause, n, w) == Retry.RetryFrom(p, b, pause, n, w)
    decreases p.attempts - n
  {
    assert a(w) == b(w);
    var (s1, err) := a(w);
    if IsEstablish(err) && n != p.attempts {
      RetryFromOnlyCallsNext(p, a, b, pause, n + 1, pause(s1, Retry.Backoff(p, n)).0);
    }
  }

  lemma InnerLinksOnlyCallNext(mesh: Mesh, pause: Retry.Pause<World>)
    ensures OnlyCallNext(InnerLinks(mesh, pause))
  {
    var links := InnerLinks(mesh, pause);
    forall i, a, b, w | 0 <= i < |links| && Same(a, b) ensures links[i](a, w) == links[i](b, w) {
      assert a(w) == b(w) && a(Route(mesh, w)) == b(Route(mesh, w));
      if i == 0 && mesh.retry.attempts > 1 {
        RetryFromOnlyCallsNext(mesh.retry, a, b, pause, 1, w);
      }
    }
  }

  lemma LinksOnlyCallNext(mesh: Mesh, pause: Retry.Pause<World>)
    ensures OnlyCallNext(Links(mesh, pause))
  {
    hide InnerLinks, Timed;
    InnerLinksOnlyCallNext(mesh, pause);
    var links, inner := Links(mesh, pause), InnerLinks(mesh, pause);
    if mesh.timeout > 0 {
      TimeoutOnlyCallsNext(mesh.timeout);
      assert forall i :: 0 < i < |links| ==> links[i] == inner[i - 1];
    } else {
      assert links == inner;
    }
  }

  lemma TimeoutOnlyCallsNext(timeout: int)
    ensures OnlyCallsNext(TimeoutLink(timeout))
  {
    hide Timed;
    forall a: Next<World, Failure>, b: Next<World, Failure>, w | Same(a, b)
      ensures TimeoutLink(timeout)(a, w) == TimeoutLink(timeout)(b, w)
    {
      assert a(w) == b(w);
    }
  }

  lemma BelowRetry(mesh: Mesh, pause: Retry.Pause<World>, forward: Next<World, Failure>, w: World)
    ensures Nest(InnerLinks(mesh, pause)[1..], forward)(w) == Attempt(mesh, forward)(w)
  {
    var below := InnerLinks(mesh, pause)[1..];
    assert Nest([], forward) == forward;
    if mesh.breaker.threshold > 0 {
      assert below == [RouteLink(mesh), GuardLink(mesh.breaker)];
      var guarded := [GuardLink(mesh.breaker)];
      assert below[1..] == guarded && guarded[1..] == [];
      assert Nest(guarded, forward)(Route(mesh, w)) == Guard(mesh.breaker, forward, Route(mesh, w));
    } else {
      assert below == [RouteLink(mesh)] && below[1..] == [];
    }
  }

  lemma InnerIsRetriedAttempts(mesh: Mesh, pause: Retry.Pause<World>, forward: Next<World, Failure>, w: World)
    ensures var o := Attempts(mesh, pause, forward, w);
            Nest(InnerLinks(mesh, pause), forward)(w) == (o.state, o.err)
  {
    var links := InnerLinks(mesh, pause);
    InnerLinksOnlyCallNext(mesh, pause);
    var below := Nest(links[1..], forward);
    forall v ensures below(v) == Attempt(mesh, forward)(v) {
      BelowRetry(mesh, pause, forward, v);
    }
    assert Same(below, Attempt(mesh, forward));
    assert OnlyCallsNext(links[0]);
    assert links[0] == RetryLink(mesh.retry, pause);
    assert links[0](below, w) == links[0](Attempt(mesh, forward), w);
  }

  /** What the retry loop answers, as the timeout layer passes it on. */
  function Finished(mesh: Mesh, start: World, o: Retry.Outcome<World>): (World, Failure) {
    if mesh.timeout > 0 then Timed(mesh.timeout, start, (o.state, o.err)) else (o.state, o.err)
  }

  /** Composing the layers through the chain gives the retry loop over whole attempts, under the deadline. */
  lemma ConnectIsRetriedAttempts(mesh: Mesh, pause: Retry.Pause<World>, forward: Next<World, Failure>, w: World)
    ensures Connect(mesh, pause, forward, w) == Finished(mesh, w, Attempts(mesh, pause, forward, w))
  {
    hide InnerLinks, Attempts, Timed;
    var links, inner := Links(mesh, pause), InnerLinks(mesh, pause);
    LinksOnlyCallNext(mesh, pause);
    DispatchSuffix(links, 0, forward, w);
    assert links[0..] == links;
    InnerIsRetriedAttempts(mesh, pause, forward, w);
    if mesh.timeout > 0 {
      assert links[0] == TimeoutLink(mesh.timeout) && links[1..] == inner;
    } else {
      assert links == inner;
    }
  }

  /**
   An error is reported as a timeout, whatever it was, exactly when it comes at the deadline or later; nothing else that
   the retry loop answers is changed.
   */
  lemma LateErrorIsTimeout(mesh: Mesh, pause: Retry.Pause<World>, forward: Next<World, Failure>, w: World)
    ensures var (o, (v, err)) := (Attempts(mesh, pause, forward, w), Connect(mesh, pause, forward, w));
            && (if mesh.timeout > 0 && o.err.Some? && o.state.now - w.now >= mesh.timeout
                then err.Some? && Normalize(err) == "timeout" else err == o.err)
            && v.(meta := o.state.meta) == o.state && (mesh.timeout > 0 ==> v.meta == w.meta)
  {
    hide Attempts, Connect;
    ConnectIsRetriedAttempts(mesh, pause, forward, w);
  }

  /** The breaker's own steps touch one entry: another target's entry changes only if it does during next. */
  lemma GuardKeepsOtherEntries(cfg: Breaker.Config, next: Next<World, Failure>, w: World, other: string)
    requires other != w.meta.breakerKey
    requires forall v :: Breaker.Lookup(next(v).0.entries, other) == Breaker.Lookup(v.entries, other)
    ensures Breaker.Lookup(Guard(cfg, next, w).0.entries, other) == Breaker.Lookup(w.entries, other)
  {
  }

  /**
   Inbound traffic goes to the application and traffic to unknown destinations goes where it was headed. Neither is
   balanced, guarded by the breaker nor taken into the mesh.
   */
  lemma UnroutedIsUnguarded(mesh: Mesh, forward: Next<World, Failure>, w: World)
    requires w.listener == "inbound_plain" || w.listener == "inbound_mtls"
             || w.originalDst !in mesh.cache || mesh.cache[w.originalDst] == []
    ensures var r := Route(mesh, w);
            && AttemptFrom(mesh, forward, w) == forward(r)
            && r.meta.targetAddr
               == (if w.listener in {"inbound_plain", "inbound_mtls"} then mesh.appTarget else w.originalDst)
            && r.meta.service
               == (if w.listener in {"inbound_plain", "inbound_mtls"} then "local-app" else "external")
            && !r.meta.inMesh && r.meta.serverName == r.meta.breakerKey == ""
            && r.(meta := w.meta) == w
  {
  }

  /** With a threshold of zero there is no breaker. */
  lemma WithoutThreshold(mesh: Mesh, forward: Next<World, Failure>, w: World)
    requires mesh.breaker.threshold == 0
    ensures Attempt(mesh, forward)(w) == forward(Route(mesh, w))
  {
  }

  /** The port of an endpoint that a connection dials, and the name it expects there. */
  predicate Dials(mesh: Mesh, meta: Meta, e: Endpoint) {
    && (meta.inMesh <==> mesh.mtlsPort > 0)
    && meta.service == e.serviceName && meta.serverName == (if meta.inMesh then e.serviceName else "")
    && meta.targetAddr == (if ':' in e.ip || '%' in e.ip then "[" + e.ip + "]" else e.ip)
                          + ":" + Itoa(if meta.inMesh then mesh.mtlsPort else mesh.plainPort)
    && meta.breakerKey == meta.targetAddr
  }

  /**
   An outbound connection to a known service dials an endpoint of it: the first, the drawn one or, unless the policy is
   one of those two, the one under the cursor, which then moves on by one. Over mTLS, and only then, it is taken into
   the mesh: it dials the mTLS port and expects the name of that endpoint.
   */
  lemma RouteGoesToEndpoint(mesh: Mesh, w: World) returns (i: nat)
    requires w.listener != "inbound_plain" && w.listener != "inbound_mtls"
    requires w.originalDst in mesh.cache && mesh.cache[w.originalDst] != []
    ensures var (r, endpoints) := (Route(mesh, w), mesh.cache[w.originalDst]);
            var (c, n) := (if w.originalDst in w.cursors then w.cursors[w.originalDst] else 0, |endpoints|);
            && i < n && Dials(mesh, r.meta, endpoints[i])
            && i == (if mesh.policy == "none" then 0 else if mesh.policy == "random" then w.draw % n else c % n)
            && r.(meta := w.meta, cursors := w.cursors) == w
            && r.cursors == if mesh.policy in {"none", "random"} then w.cursors
                            else w.cursors[w.originalDst := (c + 1) % n]
  {
    var n := |mesh.cache[w.originalDst]|;
    i := Position(mesh.policy, Cursor(w.cursors, w.originalDst), n, w.draw % n);
  }
}
