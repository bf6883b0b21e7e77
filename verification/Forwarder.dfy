/**
 The last link of the chain: establish a connection to the chosen target, then transfer.

 What the network and the libraries answer is a parameter. Library errors carry no sidecar kind.
 */
module Forwarder {
  import opened Options
  import opened Errors

  /** A library error, and whether isStreamTerminationError takes it for a normal end of stream. */
  datatype IOError = IOError(err: Error, endOfStream: bool)

  datatype Body = NoBody | Replayable(getBodyFails: bool) | OneShot

  /**
   One turn of the HTTP loop: reading a request, up to two round trips, writing the response. size is how many bytes of
   the client's stream the request takes up.
   */
  datatype Exchange = Exchange(
    size: nat, readErr: Option<IOError>, verb: string, body: Body,
    trip: Failure, secondTrip: Failure, writeErr: Failure, closeErr: Failure, lastOne: bool)

  /**
   All answers the network gives to one connection. peeked is how many bytes the first look at the client takes off
   the connection into the reader's buffer, and httpPrefix whether they start like an HTTP request.
   */
  datatype Network = Network(
    httpPrefix: bool, peeked: nat, exchanges: seq<Exchange>, dialErr: Failure,
    firstEnd: Option<IOError>, secondEnd: Option<IOError>)

  datatype Target = Target(addr: string, inMesh: bool, serverName: string, tlsConfigured: bool)

  /** The answer, how often each request was sent, and whether bytes may have reached the target. */
  datatype Reply = Reply(err: Failure, sends: seq<nat>, reached: bool)

  predicate Unclassified(err: Failure) {
    err.Some? ==> KindOf(err.value).None?
  }

  predicate UnclassifiedIO(err: Option<IOError>) {
    err.Some? ==> KindOf(err.value.err).None?
  }

  /** Library errors are not sidecar errors. */
  ghost predicate FromLibraries(net: Network) {
    && Unclassified(net.dialErr) && UnclassifiedIO(net.firstEnd) && UnclassifiedIO(net.secondEnd)
    && forall i :: 0 <= i < |net.exchanges| ==>
         var x := net.exchanges[i];
         && UnclassifiedIO(x.readErr) && Unclassified(x.trip) && Unclassified(x.secondTrip)
         && Unclassified(x.writeErr) && Unclassified(x.closeErr)
  }

  predicate CanReplay(x: Exchange) {
    x.verb in {"GET", "HEAD", "OPTIONS", "TRACE"} && !x.body.OneShot?
  }

  /** roundTripHTTP: the error and the number of times the request was sent. */
  function RoundTrip(x: Exchange): (Failure, nat) {
    if x.trip.None? then (None, 1)
    else if !CanReplay(x) || (x.body.Replayable? && x.body.getBodyFails) then (x.trip, 1)
    else (x.secondTrip, 2)
  }

  /** One turn of the HTTP loop, given what the turns after it do. */
  function Turn(x: Exchange, rest: Reply): Reply {
    if x.readErr.Some? then
      Reply(if x.readErr.value.endOfStream then None else Wrap(Proxy, Some(x.readErr.value.err)), [], false)
    else
      var (err, sent) := RoundTrip(x);
      if err.Some? then Reply(Wrap(Proxy, err), [sent], true)
      else if x.writeErr.Some? then Reply(Wrap(Proxy, x.writeErr), [sent], true)
      else if x.closeErr.Some? then Reply(Wrap(Proxy, x.closeErr), [sent], true)
      else if x.lastOne then Reply(None, [sent], true)
      else Reply(rest.err, [sent] + rest.sends, true)
  }

  /** handleHTTP from the given request on; a stream that offers no further request has ended. */
  function ServeHTTP(xs: seq<Exchange>): Reply {
    if xs == [] then Reply(None, [], false) else Turn(xs[0], ServeHTTP(xs[1..]))
  }

  lemma ServeHTTPAt(xs: seq<Exchange>, i: nat)
    requires i < |xs|
    ensures ServeHTTP(xs[i..]) == Turn(xs[i], ServeHTTP(xs[i + 1..]))
  {
  }

  lemma EndOfStream(xs: seq<Exchange>)
    ensures ServeHTTP(xs[|xs|..]) == Reply(None, [], false)
  {
  }

  /** handleHTTP: the loop over the requests of one client connection. */
  method HandleHTTP(xs: seq<Exchange>) returns (err: Failure, sends: seq<nat>)
    ensures err == ServeHTTP(xs).err && sends == ServeHTTP(xs).sends
  {
    hide Wrap, RoundTrip, ServeHTTP;
    sends := [];
    var i := 0;
    assert xs[0..] == xs;
    while i < |xs|
      invariant i <= |xs|
      invariant ServeHTTP(xs).err == ServeHTTP(xs[i..]).err
      invariant ServeHTTP(xs).sends == sends + ServeHTTP(xs[i..]).sends
    {
      var x := xs[i];
      ServeHTTPAt(xs, i);
      if x.readErr.Some? {
        if x.readErr.value.endOfStream {
          return None, sends;
        }
        return Wrap(Proxy, Some(x.readErr.value.err)), sends;
      }
      var (tripErr, sent) := RoundTrip(x);
      sends := sends + [sent];
      if tripErr.Some? {
        return Wrap(Proxy, tripErr), sends;
      }
      if x.writeErr.Some? {
        return Wrap(Proxy, x.writeErr), sends;
      }
      if x.closeErr.Some? {
        return Wrap(Proxy, x.closeErr), sends;
      }
      if x.lastOne {
        return None, sends;
      }
      i := i + 1;
    }
    EndOfStream(xs);
    err := None;
  }

  /** bridgeConnections: the first of the two copy results that is not a normal end of stream. */
  function Bridge(net: Network): Failure {
    if net.firstEnd.Some? && !net.firstEnd.value.endOfStream then Some(net.firstEnd.value.err)
    else if net.secondEnd.Some? && !net.secondEnd.value.endOfStream then Some(net.secondEnd.value.err)
    else None
  }

  function DialMTLS(t: Target, net: Network): Failure {
    if t.serverName == "" then Some(Tagged(TLS, Foreign("missing tls server name", false, None, None)))
    else ClassifyDial(net.dialErr)
  }

  predicate HTTPPath(t: Target, net: Network) {
    t.inMesh && t.tlsConfigured && net.httpPrefix
  }

  /** The bytes of the first n requests. */
  function RequestBytes(xs: seq<Exchange>, n: nat): nat {
    if n == 0 || xs == [] then 0 else xs[0].size + RequestBytes(xs[1..], n - 1)
  }

  /** What of the client's stream is meant for the target: all of it, or over HTTP the requests that were sent. */
  function Conveyed(t: Target, net: Network, stream: string): string {
    if !HTTPPath(t, net) then stream
    else
      var n := RequestBytes(net.exchanges, |ServeHTTP(net.exchanges).sends|);
      if n < |stream| then stream[..n] else stream
  }

  /** How many client bytes an attempt holds in a buffer of its own by the time it has failed to establish. */
  function Taken(t: Target, net: Network): nat {
    if t.addr != "" && t.inMesh && t.tlsConfigured then net.peeked else 0
  }

  /** Forwarder.Handle. */
  function Forward(t: Target, net: Network): Reply {
    if t.addr == "" then
      Reply(Some(Tagged(Proxy, Foreign("missing target address", false, None, None))), [], false)
    else if t.inMesh && !t.tlsConfigured then
      Reply(Some(Tagged(TLS, Foreign("invalid tls configuration", false, None, None))), [], false)
    else if t.inMesh && net.httpPrefix then ServeHTTP(net.exchanges)
    else
      var err := if t.inMesh then DialMTLS(t, net) else ClassifyDial(net.dialErr);
      if err.Some? then Reply(err, [], false) else Reply(Wrap(Proxy, Bridge(net)), [], true)
  }

  lemma {:induction false} ServeHTTPKinds(xs: seq<Exchange>)
    requires forall i :: 0 <= i < |xs| ==>
               && UnclassifiedIO(xs[i].readErr) && Unclassified(xs[i].trip) && Unclassified(xs[i].secondTrip)
               && Unclassified(xs[i].writeErr) && Unclassified(xs[i].closeErr)
    ensures var err := ServeHTTP(xs).err; err.Some? ==> KindOf(err.value) == Some(Proxy)
  {
    if xs != [] {
      ServeHTTPKinds(xs[1..]);
    }
  }

  /**
   An establish error means that nothing reached the target, and every failure after something did is
   classified as a proxy error, which the retry and breaker layers leave alone.
   */
  lemma EstablishErrorsReachNothing(t: Target, net: Network)
    requires FromLibraries(net)
    ensures var r := Forward(t, net);
            && (IsEstablish(r.err) ==> !r.reached)
            && (r.err.Some? && r.reached ==> KindOf(r.err.value) == Some(Proxy))
            && (r.err.Some? ==> KindOf(r.err.value).Some?)
  {
    ServeHTTPKinds(net.exchanges);
    if net.dialErr.Some? {
      ClassifyDialEstablishes(net.dialErr.value);
    }
    if Bridge(net).Some? {
      WrapKeepsFirstKind(Proxy, Proxy, Bridge(net).value);
    }
  }

  /** Nothing can be reached: dialling fails, and so does every round trip, which dials on its own. */
  ghost predicate DialFails(net: Network) {
    && net.dialErr.Some?
    && forall i :: 0 <= i < |net.exchanges| ==> net.exchanges[i].trip.Some? && net.exchanges[i].secondTrip.Some?
  }

  /**
   A failure to reach the target is an establish error except on one path: mesh traffic that starts like HTTP. There
   the connection ends in a proxy error as soon as the client has sent a request.
   */
  lemma DialFailureClass(t: Target, net: Network)
    requires FromLibraries(net) && t.addr != "" && DialFails(net)
    ensures IsEstablish(Forward(t, net).err) <==> !HTTPPath(t, net)
    ensures HTTPPath(t, net) && net.exchanges != [] && net.exchanges[0].readErr.None? ==>
              IsKind(Forward(t, net).err, Proxy)
  {
    ServeHTTPKinds(net.exchanges);
    ClassifyDialEstablishes(net.dialErr.value);
    if net.exchanges != [] {
      var x := net.exchanges[0];
      assert x.trip.Some? && x.secondTrip.Some?;
    }
  }

  /** A refused connection to a mesh target: a proxy error, which no layer above repeats. */
  lemma RefusedHTTPExample()
    ensures var refused := Some(Foreign("connection refused", false, None, None));
            var x := Exchange(40, None, "POST", OneShot, refused, None, None, None, true);
            var r := Forward(Target("10.0.0.1:9081", true, "web", true), Network(true, 4, [x], refused, None, None));
            IsKind(r.err, Proxy) && !IsEstablish(r.err) && r.sends == [1]
  {
    var refused := Some(Foreign("connection refused", false, None, None));
    var x := Exchange(40, None, "POST", OneShot, refused, None, None, None, true);
    assert ServeHTTP([x]) == Turn(x, ServeHTTP([]));
  }

  /** A request is sent a second time: the first round trip failed, it is safe, and its body can be had again. */
  predicate SentAgain(x: Exchange) {
    x.trip.Some? && x.verb in {"GET", "HEAD", "OPTIONS", "TRACE"}
    && match x.body
       case NoBody => true
       case Replayable(getBodyFails) => !getBodyFails
       case OneShot => false
  }

  /** No request is sent more than twice, and only a safe, repeatable one whose first round trip failed is. */
  lemma {:induction false} ReplaysOnlySafeRequests(xs: seq<Exchange>, i: nat)
    requires i < |ServeHTTP(xs).sends|
    ensures i < |xs| && ServeHTTP(xs).sends[i] == if SentAgain(xs[i]) then 2 else 1
  {
    if i > 0 {
      ReplaysOnlySafeRequests(xs[1..], i - 1);
    }
  }

  /** What went wrong with a request that was read, if anything: the last round trip, else the answer to the client. */
  function Trouble(x: Exchange): Failure {
    if x.trip.Some? && !SentAgain(x) then x.trip
    else if x.trip.Some? && x.secondTrip.Some? then x.secondTrip
    else if x.writeErr.Some? then x.writeErr
    else x.closeErr
  }

  /** The loop serves requests as long as there is no trouble and neither side closes. */
  predicate GoesOn(x: Exchange) {
    x.readErr.None? && Trouble(x).None? && !x.lastOne
  }

  /**
   An HTTP connection ends with the first request that cannot be read, meets trouble or is the last one. It ends well
   in the last case or when the stream is over, and in a proxy error over the trouble otherwise.
   */
  lemma {:induction false} HTTPEndsAt(xs: seq<Exchange>) returns (n: nat)
    ensures n <= |xs| && (forall i :: 0 <= i < n ==> GoesOn(xs[i])) && (n < |xs| ==> !GoesOn(xs[n]))
    ensures |ServeHTTP(xs).sends| == if n < |xs| && xs[n].readErr.None? then n + 1 else n
    ensures ServeHTTP(xs).reached <==> ServeHTTP(xs).sends != []
    ensures ServeHTTP(xs).err
            == if n == |xs| then None
               else if xs[n].readErr.None? then Wrap(Proxy, Trouble(xs[n]))
               else if xs[n].readErr.value.endOfStream then None
               else Wrap(Proxy, Some(xs[n].readErr.value.err))
  {
    if xs == [] || !GoesOn(xs[0]) {
      n := 0;
    } else {
      var rest := HTTPEndsAt(xs[1..]);
      n := rest + 1;
    }
  }

  function SizesOf(xs: seq<Exchange>): nat {
    if xs == [] then 0 else SizesOf(xs[..|xs| - 1]) + xs[|xs| - 1].size
  }

  lemma {:induction false} RequestBytesAdd(xs: seq<Exchange>, n: nat)
    requires n <= |xs|
    ensures RequestBytes(xs, n) == SizesOf(xs[..n])
  {
    if n > 0 {
      FirstSize(xs[..n]);
      assert xs[..n][1..] == xs[1..][..n - 1];
      RequestBytesAdd(xs[1..], n - 1);
    }
  }

  lemma {:induction false} FirstSize(xs: seq<Exchange>)
    requires xs != []
    ensures SizesOf(xs) == xs[0].size + SizesOf(xs[1..])
  {
    if |xs| > 1 {
      FirstSize(xs[..|xs| - 1]);
      assert xs[..|xs| - 1][1..] == xs[1..][..|xs[1..]| - 1];
    }
  }

  /** Over HTTP the beginning of the stream is conveyed, up to the end of the last request that was sent. */
  lemma HTTPConveysRequests(t: Target, net: Network, stream: string)
    requires HTTPPath(t, net)
    ensures var n := |ServeHTTP(net.exchanges).sends|;
            && n <= |net.exchanges| && Conveyed(t, net, stream) <= stream
            && var all := SizesOf(net.exchanges[..n]);
               |Conveyed(t, net, stream)| == if all < |stream| then all else |stream|
  {
    var n := HTTPEndsAt(net.exchanges);
    RequestBytesAdd(net.exchanges, |ServeHTTP(net.exchanges).sends|);
  }

  /** A direction did not end normally. */
  predicate Broken(end: Option<IOError>) {
    end.Some? && !end.value.endOfStream
  }

  /**
   Off the HTTP path a connection ends well exactly when its target can be dialled and both directions end normally;
   the first failure of the two is reported.
   */
  lemma BridgeReports(t: Target, net: Network)
    requires t.addr != "" && (t.inMesh ==> t.tlsConfigured && t.serverName != "") && !HTTPPath(t, net)
    ensures var r := Forward(t, net);
            && (r.reached <==> net.dialErr.None?)
            && r.err == if net.dialErr.Some? then ClassifyDial(net.dialErr)
                        else if Broken(net.firstEnd) then Wrap(Proxy, Some(net.firstEnd.value.err))
                        else if Broken(net.secondEnd) then Wrap(Proxy, Some(net.secondEnd.value.err))
                        else None
  {
    hide ClassifyDial;
    ClassifyFails(if net.dialErr.Some? then net.dialErr.value else Foreign("", false, None, None));
  }

  lemma ClassifyFails(e: Error)
    ensures ClassifyDial(Some(e)).Some? && ClassifyDial(None) == None
  {
  }

  /** What is not even dialled: without a target a proxy error, without certificates or a name to expect a TLS error. */
  lemma NotDialled(t: Target, net: Network)
    requires t.addr == "" || (t.inMesh && (!t.tlsConfigured || (t.serverName == "" && !net.httpPrefix)))
    ensures var r := Forward(t, net);
            IsKind(r.err, if t.addr == "" then Proxy else TLS) && !r.reached && r.sends == []
  {
  }
}
