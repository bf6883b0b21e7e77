/** The service registry of the Docker control plane. */
module ControlPlane {
  import opened Options
  import opened GoStrings
  import RoundRobin

  datatype Service = Service(name: string, address: string)

  datatype Request =
    | Register(service: Service)
    | Discover(name: string)
    | Address(host: string)

  datatype Reply =
    | Registered
    | Found(service: Service)
    | MissingParameter
    | NotFound
    | InvalidHost

  /** locked is the mutex after the handler returned: discoverHandler keeps it when the name is unknown. */
  datatype State = State(registry: map<string, seq<Service>>, idx: map<string, nat>, locked: bool) {
    ghost predicate Valid() {
      && (forall name :: name in registry ==> Index(name) < |registry[name]|)
      && idx.Keys <= registry.Keys
    }

    function Index(name: string): nat {
      if name in idx then idx[name] else 0
    }

    /** The state once the service under the cursor of name was handed out. */
    function Moved(name: string): State
      requires name in registry
    {
      var next := Index(name) + 1;
      this.(idx := idx[name := if next == |registry[name]| then 0 else next])
    }
  }

  const EMPTY := State(map[], map[], false)

  /** The service name a request asks for, when it asks for one. */
  function NameOf(r: Request): Option<string> {
    match r
    case Register(_) => None
    case Discover(name) => if name == "" then None else Some(name)
    case Address(host) => if |Split(host, '.')| == 2 then Some(Split(host, '.')[0]) else None
  }

  /** Only a discovery that names no service is answered without taking the mutex. */
  predicate NeedsLock(r: Request) {
    !(r.Discover? && r.name == "")
  }

  /** What a request does once it has the lock, if it needs it. */
  function Serve(m: State, r: Request): (State, Reply)
    requires m.Valid()
  {
    match r
    case Register(service) =>
      var others := if service.name in m.registry then m.registry[service.name] else [];
      (m.(registry := m.registry[service.name := others + [service]]), Registered)
    case _ =>
      match NameOf(r)
      case None => (m, if r.Discover? then MissingParameter else InvalidHost)
      case Some(name) =>
        if name in m.registry then (m.Moved(name), Found(m.registry[name][m.Index(name)]))
        else (m.(locked := r.Discover?), NotFound)
  }

  /** Mesh. */
  class Mesh {
    var registry: map<string, seq<Service>>
    var idx: map<string, nat>
    var locked: bool

    function View(): State
      reads this
    {
      State(registry, idx, locked)
    }

    constructor ()
      ensures View() == EMPTY && View().Valid()
    {
      registry, idx, locked := map[], map[], false;
    }

    method RegisterHandler(svc: Service)
      requires View().Valid() && !locked
      modifies this
      ensures View().Valid() && View() == Serve(old(View()), Register(svc)).0
    {
      var others := if svc.name in registry then registry[svc.name] else [];
      registry := registry[svc.name := others + [svc]];
    }

    method DiscoverHandler(name: string) returns (reply: Reply)
      requires View().Valid() && (NeedsLock(Discover(name)) ==> !locked)
      modifies this
      ensures View().Valid() && (View(), reply) == Serve(old(View()), Discover(name))
    {
      if name == "" {
        return MissingParameter;
      }
      locked := true;
      if name !in registry {
        return NotFound;
      }
      var services := registry[name];
      var i := if name in idx then idx[name] else 0;
      var service := services[i];
      idx := idx[name := i + 1];
      if idx[name] == |services| {
        idx := idx[name := 0];
      }
      assert idx == old(View()).Moved(name).idx;
      locked := false;
      reply := Found(service);
    }

    method GetAddress(host: string) returns (reply: Reply)
      requires View().Valid() && !locked
      modifies this
      ensures View().Valid() && (View(), reply) == Serve(old(View()), Address(host))
    {
      var parts := Split(host, '.');
      if |parts| != 2 {
        return InvalidHost;
      }
      var name := parts[0];
      if name !in registry {
        return NotFound;
      }
      var services := registry[name];
      var i := if name in idx then idx[name] else 0;
      idx := idx[name := i + 1];
      if idx[name] == |services| {
        idx := idx[name := 0];
      }
      assert idx == old(View()).Moved(name).idx;
      reply := Found(services[i]);
    }
  }

  lemma ServeKeepsValid(m: State, r: Request)
    requires m.Valid()
    ensures Serve(m, r).0.Valid()
  {
  }

  /** A request that needs the lock waits for ever once it is lost. */
  predicate Waits(m: State, r: Request) {
    m.locked && NeedsLock(r)
  }

  /** Some request of the run would wait for ever, because the lock was never given back. */
  predicate GetsStuck(m: State, run: seq<Request>)
    requires m.Valid()
    decreases |run|
  {
    run != []
    && (Waits(m, run[0]) || (ServeKeepsValid(m, run[0]); GetsStuck(Serve(m, run[0]).0, run[1..])))
  }

  predicate RegisteredBefore(m: State, run: seq<Request>, i: nat, name: string)
    requires i <= |run|
  {
    name in m.registry || exists j :: 0 <= j < i && run[j].Register? && run[j].service.name == name
  }

  /** Request i looks up a service by name before any instance of it registered. */
  predicate LeaksLock(m: State, run: seq<Request>, i: nat)
    requires i < |run|
  {
    run[i].Discover? && run[i].name != "" && !RegisteredBefore(m, run, i, run[i].name)
  }

  /** Request j needs the lock, as all but a nameless discovery do, and request i, before it, has leaked it. */
  predicate WaitsAfterLeak(m: State, run: seq<Request>, i: nat, j: nat)
    requires i < |run| && j < |run|
  {
    i < j && LeaksLock(m, run, i) && run[j] != Discover("")
  }

  /** With the lock already lost, a run gets stuck exactly when some request needs it. */
  lemma {:induction false} StuckOnceLost(m: State, run: seq<Request>)
    requires m.Valid() && m.locked
    ensures GetsStuck(m, run) <==> exists j :: 0 <= j < |run| && NeedsLock(run[j])
    decreases |run|
  {
    if run != [] && !NeedsLock(run[0]) {
      StuckOnceLost(m, run[1..]);
      assert forall j :: 0 < j < |run| ==> run[j] == run[1..][j - 1];
    }
  }

  /**
   Not every handler gives the lock back. A run gets stuck exactly when a request that needs the lock comes after one
   that discovers a name no instance had registered.
   */
  lemma {:induction false} StuckExactlyAfterMiss(m: State, run: seq<Request>)
    requires m.Valid() && !m.locked
    ensures GetsStuck(m, run) <==> exists i, j :: 0 <= i < |run| && 0 <= j < |run| && WaitsAfterLeak(m, run, i, j)
    decreases |run|
  {
    hide Serve, LeaksLock;
    if run != [] {
      var next, rest := Serve(m, run[0]).0, run[1..];
      ServeKeepsValid(m, run[0]);
      LeaksAtOnce(m, run);
      if next.locked {
        StuckOnceLost(next, rest);
        if j :| 0 <= j < |rest| && NeedsLock(rest[j]) {
          assert WaitsAfterLeak(m, run, 0, j + 1);
        }
        if i, j :| 0 <= i < |run| && 0 <= j < |run| && WaitsAfterLeak(m, run, i, j) {
          assert NeedsLock(rest[j - 1]);
        }
      } else {
        StuckExactlyAfterMiss(next, rest);
        if i, j :| 0 <= i < |rest| && 0 <= j < |rest| && WaitsAfterLeak(next, rest, i, j) {
          LeakShift(m, run, i + 1);
          assert WaitsAfterLeak(m, run, i + 1, j + 1);
        }
        if i, j :| 0 <= i < |run| && 0 <= j < |run| && WaitsAfterLeak(m, run, i, j) {
          LeakShift(m, run, i);
          assert WaitsAfterLeak(next, rest, i - 1, j - 1);
        }
      }
    }
  }

  lemma LeaksAtOnce(m: State, run: seq<Request>)
    requires m.Valid() && !m.locked && run != []
    ensures LeaksLock(m, run, 0) <==> Serve(m, run[0]).0.locked
  {
  }

  lemma MissThenStuckExample()
    ensures EMPTY.Valid() && GetsStuck(EMPTY, [Discover("web"), Discover("web")])
    ensures !GetsStuck(EMPTY, [Discover("web"), Discover("")])
    ensures !GetsStuck(EMPTY, [Address("web.local"), Address("web.local")])
  {
    StuckExactlyAfterMiss(EMPTY, [Discover("web"), Discover("web")]);
    StuckExactlyAfterMiss(EMPTY, [Discover("web"), Discover("")]);
    StuckExactlyAfterMiss(EMPTY, [Address("web.local"), Address("web.local")]);
    assert WaitsAfterLeak(EMPTY, [Discover("web"), Discover("web")], 0, 1);
  }

  lemma LeakShift(m: State, run: seq<Request>, i: nat)
    requires m.Valid() && 0 < i < |run| && !Serve(m, run[0]).0.locked
    ensures LeaksLock(m, run, i) <==> LeaksLock(Serve(m, run[0]).0, run[1..], i - 1)
  {
  }

  // ---- Which instance answers ----

  /** A discovery of the name, or a lookup of a host that is the name and one more label. */
  predicate AsksFor(r: Request, name: string) {
    match r
    case Register(_) => false
    case Discover(asked) => asked == name != ""
    case Address(host) => name <= host && host[|name|..] != "" && host[|name|] == '.'
                          && '.' !in name && '.' !in host[|name| + 1..]
  }

  lemma TwoLabels(first: string, second: string)
    requires '.' !in first && '.' !in second
    ensures Split(first + "." + second, '.') == [first, second]
  {
    hide Split;
    SplitPrefix(first, second, '.');
    SplitWhole(second, '.');
  }

  lemma SplitInTwo(host: string)
    requires |Split(host, '.')| == 2
    ensures var parts := Split(host, '.');
            host == parts[0] + "." + parts[1] && '.' !in parts[0] && '.' !in parts[1]
  {
    var parts := Split(host, '.');
    JoinSplit(host, '.');
    hide Split;
    assert parts[1..] == [parts[1]];
    assert Join(parts, '.') == parts[0] + "." + parts[1];
  }

  lemma NameOfMeans(r: Request, name: string)
    ensures NameOf(r) == Some(name) <==> AsksFor(r, name)
  {
    hide Split, Join;
    if r.Address? && |Split(r.host, '.')| == 2 {
      SplitInTwo(r.host);
    }
    if r.Address? && AsksFor(r, name) {
      var rest := r.host[|name| + 1..];
      assert r.host == name + "." + rest;
      TwoLabels(name, rest);
    }
  }

  /** The instances that answered lookups of name, in order, until a request waits for ever. */
  function Answers(m: State, run: seq<Request>, name: string): seq<Service>
    requires m.Valid()
    decreases |run|
  {
    if run == [] || Waits(m, run[0]) then []
    else
      ServeKeepsValid(m, run[0]);
      var (next, reply) := Serve(m, run[0]);
      (if AsksFor(run[0], name) && reply.Found? then [reply.service] else []) + Answers(next, run[1..], name)
  }

  /** The lookups of name, until a request waits for ever. */
  function Lookups(m: State, run: seq<Request>, name: string): nat
    requires m.Valid()
    decreases |run|
  {
    if run == [] || Waits(m, run[0]) then 0
    else
      ServeKeepsValid(m, run[0]);
      (if AsksFor(run[0], name) then 1 else 0) + Lookups(Serve(m, run[0]).0, run[1..], name)
  }

  lemma ServedOnce(m: State, r: Request, name: string)
    requires m.Valid() && name in m.registry
    requires r.Register? ==> r.service.name != name
    ensures var (next, reply) := Serve(m, r);
            var list := m.registry[name];
            && name in next.registry && next.registry[name] == list && m.Index(name) < |list|
            && (AsksFor(r, name) ==> reply == Found(list[m.Index(name)]))
            && next.Index(name) == if AsksFor(r, name) then (m.Index(name) + 1) % |list| else m.Index(name)
  {
    NameOfMeans(r, name);
    RoundRobin.SmallMod(m.Index(name) + 1, |m.registry[name]|);
  }

  /** The answers are the listed instances at the picked positions. */
  predicate PickedFrom(list: seq<Service>, picks: seq<nat>, answers: seq<Service>) {
    |answers| == |picks| && forall k :: 0 <= k < |picks| ==> picks[k] < |list| && answers[k] == list[picks[k]]
  }

  lemma OneMorePick(list: seq<Service>, c: nat, answers: seq<Service>)
    requires c < |list| && PickedFrom(list, RoundRobin.PicksFrom((c + 1) % |list|, |list|, |answers|), answers)
    ensures PickedFrom(list, RoundRobin.PicksFrom(c, |list|, |answers| + 1), [list[c]] + answers)
  {
    hide RoundRobin.PicksFrom;
    var n := |list|;
    var rest := RoundRobin.PicksFrom((c + 1) % n, n, |answers|);
    RoundRobin.PicksCons(c, n, |answers|);
    PickedCons(list, c, rest, answers);
  }

  lemma PickedCons(list: seq<Service>, c: nat, picks: seq<nat>, answers: seq<Service>)
    requires c < |list| && PickedFrom(list, picks, answers)
    ensures PickedFrom(list, [c] + picks, [list[c]] + answers)
  {
  }

  /**
   While no instance of name registers, its lookups rotate over the registered list as the sidecar's routing layer does
   over its endpoints: each is answered, the k-th with the instance k places after the cursor.
   */
  lemma {:induction false} RotatesLikeSidecar(m: State, run: seq<Request>, name: string)
    requires m.Valid() && name in m.registry
    requires forall i :: 0 <= i < |run| && run[i].Register? ==> run[i].service.name != name
    ensures var (list, answers) := (m.registry[name], Answers(m, run, name));
            && list != [] && |answers| == Lookups(m, run, name)
            && PickedFrom(list, RoundRobin.PicksFrom(m.Index(name), |list|, |answers|), answers)
    decreases |run|
  {
    hide Serve, AsksFor, NeedsLock, PickedFrom, RoundRobin.PicksFrom;
    if run == [] || Waits(m, run[0]) {
      NothingPicked(m.registry[name], m.Index(name));
    } else {
      ServeKeepsValid(m, run[0]);
      ServedOnce(m, run[0], name);
      var rest := Answers(Serve(m, run[0]).0, run[1..], name);
      RotatesLikeSidecar(Serve(m, run[0]).0, run[1..], name);
      if AsksFor(run[0], name) {
        OneMorePick(m.registry[name], m.Index(name), rest);
      } else {
        assert [] + rest == rest;
      }
    }
  }

  lemma NothingPicked(list: seq<Service>, c: nat)
    requires list != []
    ensures PickedFrom(list, RoundRobin.PicksFrom(c, |list|, 0), [])
  {
  }

  /** In closed form: the k-th lookup is answered with the instance at (cursor + k) mod n. */
  lemma AnswerAt(m: State, run: seq<Request>, name: string, k: nat)
    requires m.Valid() && name in m.registry && k < Lookups(m, run, name)
    requires forall i :: 0 <= i < |run| && run[i].Register? ==> run[i].service.name != name
    ensures var list := m.registry[name];
            var position := (m.Index(name) + k) % |list|;
            position < |list| && k < |Answers(m, run, name)| && Answers(m, run, name)[k] == list[position]
  {
    hide Answers, Lookups, RoundRobin.PicksFrom;
    RotatesLikeSidecar(m, run, name);
    RoundRobin.PickAt(m.Index(name), |m.registry[name]|, |Answers(m, run, name)|, k);
  }

  function Times(answers: seq<Service>, s: Service): nat {
    if answers == [] then 0
    else Times(answers[..|answers| - 1], s) + if answers[|answers| - 1] == s then 1 else 0
  }

  lemma {:induction false} TimesIsCount(list: seq<Service>, answers: seq<Service>, picks: seq<nat>, p: nat)
    requires p < |list| && PickedFrom(list, picks, answers)
    requires forall i, j :: 0 <= i < j < |list| ==> list[i] != list[j]
    ensures Times(answers, list[p]) == RoundRobin.Count(picks, p)
  {
    if answers != [] {
      var n := |answers| - 1;
      TimesIsCount(list, answers[..n], picks[..n], p);
      assert picks[n] != p ==> list[picks[n]] != list[p];
    }
  }

  /** So each of n different instances answers floor(k/n) or ceil(k/n) of k lookups. */
  lemma InstancesShareEvenly(m: State, run: seq<Request>, name: string, s: Service)
    requires m.Valid() && name in m.registry && s in m.registry[name]
    requires forall i, j :: 0 <= i < j < |m.registry[name]| ==> m.registry[name][i] != m.registry[name][j]
    requires forall i :: 0 <= i < |run| && run[i].Register? ==> run[i].service.name != name
    ensures var k, n := Lookups(m, run, name), |m.registry[name]|;
            k / n <= Times(Answers(m, run, name), s) <= k / n + if k % n == 0 then 0 else 1
  {
    hide RoundRobin.Count, RoundRobin.PicksFrom, Times, PickedFrom, Answers, Lookups;
    var list, answers := m.registry[name], Answers(m, run, name);
    var p: nat :| p < |list| && list[p] == s;
    RotatesLikeSidecar(m, run, name);
    var picks := RoundRobin.PicksFrom(m.Index(name), |list|, |answers|);
    TimesIsCount(list, answers, picks, p);
    RoundRobin.Fair(m.Index(name), |list|, |answers|, p);
  }

  // ---- What has registered ----

  function StateAfter(m: State, run: seq<Request>): State
    requires m.Valid()
    decreases |run|
  {
    if run == [] || Waits(m, run[0]) then m
    else
      ServeKeepsValid(m, run[0]);
      StateAfter(Serve(m, run[0]).0, run[1..])
  }

  /** The instances of a name that registered, in order. */
  function Registrations(run: seq<Request>, name: string): seq<Service> {
    if run == [] then []
    else
      (if run[0].Register? && run[0].service.name == name then [run[0].service] else []) + Registrations(run[1..], name)
  }

  /** The list of a name, empty for an unknown one. */
  function ListOf(m: State, name: string): seq<Service> {
    if name in m.registry then m.registry[name] else []
  }

  lemma ServeRegisters(m: State, r: Request, name: string)
    requires m.Valid()
    ensures ListOf(Serve(m, r).0, name) == ListOf(m, name) + Registrations([r], name)
    ensures name in m.registry ==> name in Serve(m, r).0.registry && m.registry[name] != []
  {
  }

  /** Over whole runs the list of a name is its instances in order of registration; nothing is ever dropped from it. */
  lemma {:induction false} ListIsRegistrations(m: State, run: seq<Request>, name: string)
    requires m.Valid() && !GetsStuck(m, run)
    ensures ListOf(StateAfter(m, run), name) == ListOf(m, name) + Registrations(run, name)
    ensures StateAfter(m, run).Valid()
    decreases |run|
  {
    hide Serve, NeedsLock, ListOf, Registrations;
    if run == [] {
      NoRegistrations(name);
    } else {
      ServeKeepsValid(m, run[0]);
      ServeRegisters(m, run[0], name);
      ListIsRegistrations(Serve(m, run[0]).0, run[1..], name);
      RegistrationsCons(run, name);
      var first, rest := Registrations([run[0]], name), Registrations(run[1..], name);
      assert ListOf(m, name) + first + rest == ListOf(m, name) + (first + rest);
      assert StateAfter(m, run) == StateAfter(Serve(m, run[0]).0, run[1..]);
    }
  }

  lemma NoRegistrations(name: string)
    ensures Registrations([], name) == []
  {
  }

  lemma RegistrationsCons(run: seq<Request>, name: string)
    requires run != []
    ensures Registrations(run, name) == Registrations([run[0]], name) + Registrations(run[1..], name)
  {
  }

  /** A lookup that names no service, or one nobody has registered, is answered with an error and moves no cursor. */
  lemma OtherAnswers(m: State, r: Request)
    requires m.Valid()
    ensures var (next, reply) := Serve(m, r);
            && (reply == Registered <==> r.Register?)
            && (reply == MissingParameter <==> r == Discover(""))
            && (reply == InvalidHost <==> r.Address? && forall name :: !AsksFor(r, name))
            && (reply == NotFound <==> exists name :: AsksFor(r, name) && name !in m.registry)
            && (reply != Registered && !reply.Found? ==> next.registry == m.registry && next.idx == m.idx)
  {
    forall name ensures NameOf(r) == Some(name) <==> AsksFor(r, name) {
      NameOfMeans(r, name);
    }
  }
}
