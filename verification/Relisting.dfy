/** Controller.relist: the index it builds, and what the index means in terms of the cluster. */
module Relisting {
  import opened Options
  import opened GoStrings
  import opened Sorting
  import opened Routing
  import opened Discovery
  import opened Errors

  const HEADLESS := "None"
  const TCP := "TCP"

  /** Headless services are not looked up by address. */
  predicate Routable(s: Service) {
    s.clusterIP != "" && s.clusterIP != HEADLESS
  }

  function ClusterKey(s: Service, port: int): string {
    JoinHostPort(s.clusterIP, port)
  }

  function MetaOf(s: Service, port: int): Meta {
    Meta(ClusterKey(s, port), ServiceFQDN(s.name, s.namespace))
  }

  type ServiceTable = map<string, Meta>

  function WithPorts(table: ServiceTable, s: Service, ports: seq<int>): ServiceTable {
    if ports == [] then table
    else
      var p := ports[|ports| - 1];
      WithPorts(table, s, ports[..|ports| - 1])[ServiceKey(s.name, p) := MetaOf(s, p)]
  }

  /** The routable service ports by name; the last service of a name overwrites the others. */
  function Table(services: seq<Service>): ServiceTable {
    if services == [] then map[]
    else
      var s, before := services[|services| - 1], Table(services[..|services| - 1]);
      if Routable(s) then WithPorts(before, s, s.ports) else before
  }

  predicate Tcp(p: SlicePort) {
    p.protocol.None? || p.protocol.value == TCP
  }

  predicate Serves(slice: Slice, name: string, port: int) {
    name != "" && slice.serviceName == Some(name) && exists p :: p in slice.ports && p.port == Some(port) && Tcp(p)
  }

  predicate NotUnready(e: SliceEndpoint) {
    e.ready.None? || e.ready.value
  }

  /** The addresses of the endpoints that are not marked as unready. */
  function Usable(endpoints: seq<SliceEndpoint>): set<string> {
    set e, a | e in endpoints && NotUnready(e) && a in e.addresses :: a
  }

  /** The addresses behind a service port. */
  function Backends(slices: seq<Slice>, name: string, port: int): set<string> {
    set slice, a | slice in slices && Serves(slice, name, port) && a in Usable(slice.endpoints) :: a
  }

  function EndpointsAt(addresses: set<string>, namespace: string, name: string, port: int): set<Endpoint> {
    set a | a in addresses :: Endpoint(a, port, ServiceFQDN(name, namespace))
  }

  // ---- Collecting ----

  method ListServicePorts(services: seq<Service>) returns (table: ServiceTable)
    ensures table == Table(services)
  {
    hide MetaOf, ServiceKey;
    table := map[];
    for i := 0 to |services|
      invariant table == Table(services[..i])
    {
      var s := services[i];
      assert services[..i + 1][..i] == services[..i];
      if !Routable(s) {
        continue;
      }
      for j := 0 to |s.ports|
        invariant table == WithPorts(Table(services[..i]), s, s.ports[..j])
      {
        assert s.ports[..j + 1][..j] == s.ports[..j];
        table := table[ServiceKey(s.name, s.ports[j]) := MetaOf(s, s.ports[j])];
      }
      assert s.ports[..|s.ports|] == s.ports;
    }
    assert services[..|services|] == services;
  }

  /** The endpoints one slice contributes for one of its ports. */
  method UsableEndpoints(endpoints: seq<SliceEndpoint>, port: int, serviceName: string) returns (found: seq<Endpoint>)
    ensures Elements(found) == set a | a in Usable(endpoints) :: Endpoint(a, port, serviceName)
  {
    found := [];
    for i := 0 to |endpoints|
      invariant forall e :: e in found <==>
        e.port == port && e.serviceName == serviceName && e.ip in Usable(endpoints[..i])
    {
      var endpoint := endpoints[i];
      assert endpoints[..i + 1] == endpoints[..i] + [endpoint];
      if endpoint.ready.Some? && !endpoint.ready.value {
        continue;
      }
      ghost var before := found;
      for j := 0 to |endpoint.addresses|
        invariant forall e :: e in found <==>
          e in before || (e.port == port && e.serviceName == serviceName && e.ip in endpoint.addresses[..j])
      {
        found := found + [Endpoint(endpoint.addresses[j], port, serviceName)];
      }
      assert endpoint.addresses[..|endpoint.addresses|] == endpoint.addresses;
    }
    assert endpoints[..|endpoints|] == endpoints;
  }

  /** Every listed service port has exactly its backends so far. */
  ghost predicate Gathers(aggregated: Index, known: set<string>, slices: seq<Slice>, namespace: string) {
    forall name, port :: ServiceKey(name, port) in known ==>
      Elements(Lookup(aggregated, ServiceKey(name, port)))
      == EndpointsAt(Backends(slices, name, port), namespace, name, port)
  }

  function FirstPorts(slice: Slice, n: nat): Slice
    requires n <= |slice.ports|
  {
    slice.(ports := slice.ports[..n])
  }

  predicate PortServes(slice: Slice, p: SlicePort, name: string, port: int) {
    name != "" && slice.serviceName == Some(name) && p.port == Some(port) && Tcp(p)
  }

  lemma OneMorePort(before: seq<Slice>, slice: Slice, n: nat, name: string, port: int)
    requires n < |slice.ports|
    ensures Backends(before + [FirstPorts(slice, n + 1)], name, port)
            == Backends(before + [FirstPorts(slice, n)], name, port)
               + if PortServes(slice, slice.ports[n], name, port) then Usable(slice.endpoints) else {}
  {
  }

  lemma NothingMore(aggregated: Index, known: set<string>, before: seq<Slice>, slice: Slice, n: nat, namespace: string)
    requires n < |slice.ports| && Gathers(aggregated, known, before + [FirstPorts(slice, n)], namespace)
    requires forall name, port :: PortServes(slice, slice.ports[n], name, port) ==> ServiceKey(name, port) !in known
    ensures Gathers(aggregated, known, before + [FirstPorts(slice, n + 1)], namespace)
  {
  }

  lemma SomeMore(aggregated: Index, known: set<string>, before: seq<Slice>, slice: Slice, n: nat, namespace: string,
                 name: string, port: int, found: seq<Endpoint>)
    requires n < |slice.ports| && Gathers(aggregated, known, before + [FirstPorts(slice, n)], namespace)
    requires PortServes(slice, slice.ports[n], name, port)
    requires Elements(found) == EndpointsAt(Usable(slice.endpoints), namespace, name, port)
    ensures var key := ServiceKey(name, port);
            Gathers(aggregated[key := Lookup(aggregated, key) + found], known,
                    before + [FirstPorts(slice, n + 1)], namespace)
  {
    hide ServiceKey, Backends, Usable, FirstPorts;
    var key := ServiceKey(name, port);
    var next := aggregated[key := Lookup(aggregated, key) + found];
    forall name', port' | ServiceKey(name', port') in known
      ensures Elements(Lookup(next, ServiceKey(name', port')))
              == EndpointsAt(Backends(before + [FirstPorts(slice, n + 1)], name', port'), namespace, name', port')
    {
      OneMorePort(before, slice, n, name', port');
      if ServiceKey(name', port') == key {
        ServiceKeyInjective(name, port, name', port');
        assert Elements(Lookup(aggregated, key) + found) == Elements(Lookup(aggregated, key)) + Elements(found);
      }
    }
  }

  lemma ServiceKeyInjective(name: string, port: int, name': string, port': int)
    requires ServiceKey(name, port) == ServiceKey(name', port')
    ensures name == name' && port == port'
  {
    ColonKeyInjective(name, port, name', port');
  }

  method CollectEndpoints(slices: seq<Slice>, known: set<string>, namespace: string) returns (aggregated: Index)
    ensures Gathers(aggregated, known, slices, namespace)
  {
    hide ServiceKey, ServiceFQDN, Gathers, Usable;
    aggregated := map[];
    NothingYet(known, namespace);
    for i := 0 to |slices|
      invariant Gathers(aggregated, known, slices[..i], namespace)
    {
      var slice := slices[i];
      assert slices[..i + 1] == slices[..i] + [slice];
      SliceStarts(aggregated, known, slices[..i], slice, namespace);
      if slice.serviceName.None? || slice.serviceName.value == "" {
        SliceIgnored(aggregated, known, slices[..i], slice, namespace);
        continue;
      }
      var serviceName := slice.serviceName.value;
      for j := 0 to |slice.ports|
        invariant Gathers(aggregated, known, slices[..i] + [FirstPorts(slice, j)], namespace)
      {
        var p := slice.ports[j];
        if p.port.None? || !Tcp(p) {
          NothingMore(aggregated, known, slices[..i], slice, j, namespace);
          continue;
        }
        var serviceKey := ServiceKey(serviceName, p.port.value);
        if serviceKey !in known {
          NothingMore(aggregated, known, slices[..i], slice, j, namespace);
          continue;
        }
        var found := UsableEndpoints(slice.endpoints, p.port.value, ServiceFQDN(serviceName, namespace));
        SomeMore(aggregated, known, slices[..i], slice, j, namespace, serviceName, p.port.value, found);
        aggregated := aggregated[serviceKey := Lookup(aggregated, serviceKey) + found];
      }
      assert FirstPorts(slice, |slice.ports|) == slice;
    }
    assert slices[..|slices|] == slices;
  }

  lemma NothingYet(known: set<string>, namespace: string)
    ensures Gathers(map[], known, [], namespace)
  {
  }

  lemma SliceStarts(aggregated: Index, known: set<string>, before: seq<Slice>, slice: Slice, namespace: string)
    requires Gathers(aggregated, known, before, namespace)
    ensures Gathers(aggregated, known, before + [FirstPorts(slice, 0)], namespace)
  {
  }

  lemma SliceIgnored(aggregated: Index, known: set<string>, before: seq<Slice>, slice: Slice, namespace: string)
    requires Gathers(aggregated, known, before, namespace)
    requires slice.serviceName.None? || slice.serviceName.value == ""
    ensures Gathers(aggregated, known, before + [slice], namespace)
  {
  }

  // ---- The entries handed to the cache ----

  ghost predicate EntryFor(e: Cached, table: ServiceTable, slices: seq<Slice>, namespace: string) {
    && e.serviceKey in table && Meta(e.clusterKey, e.serviceLabel) == table[e.serviceKey]
    && DistinctAddresses(e.endpoints)
    && forall name, port :: e.serviceKey == ServiceKey(name, port) ==>
         Elements(e.endpoints) == EndpointsAt(Backends(slices, name, port), namespace, name, port)
  }

  /** One entry for each listed service port, in any order. */
  ghost predicate EntriesFor(entries: seq<Cached>, services: seq<Service>, slices: seq<Slice>, namespace: string) {
    && (forall i :: 0 <= i < |entries| ==> EntryFor(entries[i], Table(services), slices, namespace))
    && (forall key :: key in Table(services) ==> exists i :: 0 <= i < |entries| && entries[i].serviceKey == key)
    && (forall i, j :: 0 <= i < j < |entries| ==> entries[i].serviceKey != entries[j].serviceKey)
  }

  lemma DedupeKeepsSet(endpoints: seq<Endpoint>, result: seq<Endpoint>, port: int, serviceName: string)
    requires forall e :: e in endpoints ==> e.port == port && e.serviceName == serviceName
    requires forall e :: e in result ==> e in endpoints
    requires forall e :: e in endpoints ==> exists r :: r in result && Address(r) == Address(e)
    ensures Elements(result) == Elements(endpoints)
  {
    hide JoinHostPort;
    forall e | e in endpoints ensures e in result {
      var r :| r in result && Address(r) == Address(e);
      JoinHostPortInjective(r.ip, r.port, e.ip, e.port);
    }
  }

  lemma DedupedEntry(key: string, table: ServiceTable, aggregated: Index, slices: seq<Slice>, namespace: string,
                     result: seq<Endpoint>)
    requires key in table && Gathers(aggregated, table.Keys, slices, namespace) && DistinctAddresses(result)
    requires forall e :: e in result ==> e in Lookup(aggregated, key)
    requires forall e :: e in Lookup(aggregated, key) ==> exists r :: r in result && Address(r) == Address(e)
    ensures EntryFor(Cached(key, table[key].clusterKey, table[key].serviceLabel, result), table, slices, namespace)
  {
    hide ServiceKey, Backends, Address, ServiceFQDN, DistinctAddresses;
    forall name, port | key == ServiceKey(name, port)
      ensures Elements(result) == EndpointsAt(Backends(slices, name, port), namespace, name, port)
    {
      forall e | e in Lookup(aggregated, key) ensures e.port == port && e.serviceName == ServiceFQDN(name, namespace) {
        assert e in Elements(Lookup(aggregated, key));
      }
      DedupeKeepsSet(Lookup(aggregated, key), result, port, ServiceFQDN(name, namespace));
    }
  }

  class Controller {
    const namespace: string
    const cache: ServiceCache

    constructor (namespace: string, cache: ServiceCache)
      ensures this.namespace == namespace && this.cache == cache
    {
      this.namespace := namespace;
      this.cache := cache;
    }

    /**
     relist. The two arguments are what the API answers, None when the list call fails; the entries are those handed
     to the cache, in the order the service table was walked.
     */
    method Relist(listed: Option<seq<Service>>, listedSlices: Option<seq<Slice>>, cause: Error)
      returns (failure: Failure, ghost entries: seq<Cached>)
      modifies cache
      ensures failure == if listed.None? || listedSlices.None? then Errors.Wrap(Discovery, Some(cause)) else None
      ensures failure.None? ==> EntriesFor(entries, listed.value, listedSlices.value, namespace)
                                && cache.byKey == Replaced(entries)
      ensures failure.Some? ==> cache.byKey == old(cache.byKey)
    {
      hide Table, Gathers, EntryFor;
      entries := [];
      if listed.None? {
        return Errors.Wrap(Discovery, Some(cause)), [];
      }
      var table := ListServicePorts(listed.value);
      if listedSlices.None? {
        return Errors.Wrap(Discovery, Some(cause)), [];
      }
      var aggregated := CollectEndpoints(listedSlices.value, table.Keys, namespace);
      var cached := BuildEntries(table, aggregated, listedSlices.value);
      cache.Replace(cached);
      return None, cached;
    }

    /** The loop of relist over the service table. */
    method BuildEntries(table: ServiceTable, aggregated: Index, ghost slices: seq<Slice>) returns (cached: seq<Cached>)
      requires Gathers(aggregated, table.Keys, slices, namespace)
      ensures forall i :: 0 <= i < |cached| ==> EntryFor(cached[i], table, slices, namespace)
      ensures forall key :: key in table ==> exists i :: 0 <= i < |cached| && cached[i].serviceKey == key
      ensures forall i, j :: 0 <= i < j < |cached| ==> cached[i].serviceKey != cached[j].serviceKey
    {
      hide Gathers, EntryFor, Address, DistinctAddresses;
      var walk := CollectKeys(table.Keys);
      ListsOnce(walk, table.Keys);
      cached := [];
      for i := 0 to |walk|
        invariant |cached| == i && forall j :: 0 <= j < i ==> cached[j].serviceKey == walk[j]
        invariant forall j :: 0 <= j < i ==> EntryFor(cached[j], table, slices, namespace)
      {
        var key := walk[i];
        assert key in walk;
        var unique := DedupeEndpoints(Lookup(aggregated, key));
        DedupedEntry(key, table, aggregated, slices, namespace, unique);
        cached := cached + [Cached(key, table[key].clusterKey, table[key].serviceLabel, unique)];
      }
      forall key | key in table ensures exists i :: 0 <= i < |cached| && cached[i].serviceKey == key {
        assert key in walk;
        var i :| 0 <= i < |walk| && walk[i] == key;
        assert cached[i].serviceKey == key;
      }
    }
  }
}
