/** Endpoint selection in the sidecar: a round-robin cursor per destination. */
module Routing {
  import opened RoundRobin

  datatype Endpoint = Endpoint(ip: string, port: int, serviceName: string)

  const NONE := "none"
  const RANDOM := "random"

  type Cursors = map<string, nat>

  function Cursor(cursors: Cursors, key: string): nat {
    if key in cursors then cursors[key] else 0
  }

  /** The chosen position; draw is the answer of the random generator. */
  function Position(policy: string, cursor: nat, n: nat, draw: nat): (p: nat)
    requires n > 0
    ensures draw < n ==> p < n
  {
    if policy == NONE then 0 else if policy == RANDOM then draw else cursor % n
  }

  function Advance(policy: string, cursors: Cursors, key: string, n: nat): Cursors
    requires n > 0
  {
    if policy == NONE || policy == RANDOM then cursors else cursors[key := (Cursor(cursors, key) + 1) % n]
  }

  /** routingMiddleware, its load-balancing part. */
  class RoutingMiddleware {
    const policy: string
    var roundRobinState: Cursors

    constructor (policy: string)
      ensures roundRobinState == map[] && this.policy == policy
    {
      this.policy := policy;
      roundRobinState := map[];
    }

    method SelectEndpoint(key: string, endpoints: seq<Endpoint>, draw: nat) returns (selected: Endpoint)
      requires |endpoints| > 0 && draw < |endpoints|
      modifies this`roundRobinState
      ensures var p := Position(policy, Cursor(old(roundRobinState), key), |endpoints|, draw);
              p < |endpoints| && selected == endpoints[p]
      ensures roundRobinState == Advance(policy, old(roundRobinState), key, |endpoints|)
    {
      if policy == NONE {
        return endpoints[0];
      }
      if policy == RANDOM {
        return endpoints[draw];
      }
      var idx := if key in roundRobinState then roundRobinState[key] else 0;
      selected := endpoints[idx % |endpoints|];
      roundRobinState := roundRobinState[key := (idx + 1) % |endpoints|];
    }
  }

  /** One selection: its destination and how many endpoints that destination had at that moment. */
  datatype Selection = Selection(key: string, n: nat)

  ghost predicate NonEmptyLists(run: seq<Selection>) {
    forall i :: 0 <= i < |run| ==> run[i].n > 0
  }

  /** The positions picked for key, in order, over a run of selections for any destinations. */
  function PickedFor(policy: string, cursors: Cursors, run: seq<Selection>, key: string): seq<nat>
    requires NonEmptyLists(run)
    decreases |run|
  {
    if run == [] then []
    else
      var s := run[0];
      (if s.key == key then [Position(policy, Cursor(cursors, key), s.n, 0)] else [])
      + PickedFor(policy, Advance(policy, cursors, s.key, s.n), run[1..], key)
  }

  /** Selections for other destinations do not disturb the rotation of key over its unchanged list. */
  lemma {:induction false} RotationPerKey(policy: string, cursors: Cursors, run: seq<Selection>, key: string, n: nat)
    requires policy != NONE && policy != RANDOM
    requires NonEmptyLists(run) && n > 0
    requires forall i :: 0 <= i < |run| && run[i].key == key ==> run[i].n == n
    ensures var picked := PickedFor(policy, cursors, run, key);
            picked == PicksFrom(Cursor(cursors, key), n, |picked|)
    decreases |run|
  {
    if run != [] {
      RotationPerKey(policy, Advance(policy, cursors, run[0].key, run[0].n), run[1..], key, n);
    }
  }

  /** Over any run each endpoint of an unchanged list gets its equal share of the selections of that list. */
  lemma RotationIsFair(policy: string, cursors: Cursors, run: seq<Selection>, key: string, n: nat, p: nat)
    requires policy != NONE && policy != RANDOM
    requires NonEmptyLists(run) && p < n
    requires forall i :: 0 <= i < |run| && run[i].key == key ==> run[i].n == n
    ensures var picked := PickedFor(policy, cursors, run, key);
            |picked| / n <= Count(picked, p) <= |picked| / n + if |picked| % n == 0 then 0 else 1
  {
    RotationPerKey(policy, cursors, run, key, n);
    Fair(Cursor(cursors, key), n, |PickedFor(policy, cursors, run, key)|, p);
  }

  /** How long the list was at each selection for key. */
  function Lists(run: seq<Selection>, key: string): seq<nat> {
    if run == [] then [] else (if run[0].key == key then [run[0].n] else []) + Lists(run[1..], key)
  }

  predicate AllBelow(picked: seq<nat>, lengths: seq<nat>) {
    |picked| == |lengths| && forall i :: 0 <= i < |picked| ==> picked[i] < lengths[i]
  }

  lemma AllBelowConcat(a: seq<nat>, m: seq<nat>, b: seq<nat>, n: seq<nat>)
    requires AllBelow(a, m) && AllBelow(b, n)
    ensures AllBelow(a + b, m + n)
  {
  }

  /** Every pick is a position of the list it was made from, even when the list shrank since the last one. */
  lemma {:induction false} PicksInRange(policy: string, cursors: Cursors, run: seq<Selection>, key: string)
    requires NonEmptyLists(run)
    ensures AllBelow(PickedFor(policy, cursors, run, key), Lists(run, key))
    decreases |run|
  {
    hide Position, Advance;
    if run != [] {
      var s := run[0];
      var next := Advance(policy, cursors, s.key, s.n);
      PicksInRange(policy, next, run[1..], key);
      var p := if s.key == key then [Position(policy, Cursor(cursors, key), s.n, 0)] else [];
      var n := if s.key == key then [s.n] else [];
      AllBelowConcat(p, n, PickedFor(policy, next, run[1..], key), Lists(run[1..], key));
    }
  }
}
