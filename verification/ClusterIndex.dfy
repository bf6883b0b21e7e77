/** What a lookup in the index means: the backends of one service port, whatever order the maps were walked in. */
module ClusterIndex {
  import opened Options
  import opened GoStrings
  import opened Routing
  import opened Discovery
  import opened Relisting
  import Failover

  /** Service i offers the port under this key. */
  predicate OffersAt(services: seq<Service>, i: int, port: int, key: string) {
    && 0 <= i < |services| && Routable(services[i]) && port in services[i].ports
    && key == ServiceKey(services[i].name, port)
  }

  lemma {:induction false} WithPortsAt(table: ServiceTable, s: Service, ports: seq<int>, key: string)
    ensures var after := WithPorts(table, s, ports);
            (forall p :: p in ports && key == ServiceKey(s.name, p) ==> key in after && after[key] == MetaOf(s, p))
    ensures var after := WithPorts(table, s, ports);
            (forall p :: p in ports ==> key != ServiceKey(s.name, p)) ==>
              (key in after <==> key in table) && (key in after ==> after[key] == table[key])
  {
    hide ServiceKey, MetaOf;
    if ports != [] {
      var n := |ports| - 1;
      WithPortsAt(table, s, ports[..n], key);
      assert ports == ports[..n] + [ports[n]];
      forall p | p in ports && key == ServiceKey(s.name, p)
        ensures key == ServiceKey(s.name, ports[n]) ==> p == ports[n]
      {
        if key == ServiceKey(s.name, ports[n]) {
          ServiceKeyInjective(s.name, p, s.name, ports[n]);
        }
      }
    }
  }

  /** The table lists exactly the offered keys, each with the data of a service that offers it. */
  lemma {:induction false} TableLists(services: seq<Service>, key: string)
    ensures key in Table(services) ==>
              exists i, p :: OffersAt(services, i, p, key) && Table(services)[key] == MetaOf(services[i], p)
    ensures (exists i, p :: OffersAt(services, i, p, key)) ==> key in Table(services)
  {
    hide ServiceKey, MetaOf;
    if services != [] {
      var n := |services| - 1;
      var before, s := services[..n], services[n];
      TableLists(before, key);
      WithPortsAt(Table(before), s, s.ports, key);
      if p :| OffersAt(services, n, p, key) {
        assert Table(services)[key] == MetaOf(services[n], p);
      } else if i, p :| OffersAt(before, i, p, key) && Table(before)[key] == MetaOf(before[i], p) {
        assert OffersAt(services, i, p, key);
        KeptByLast(services, n, key);
      } else {
        KeptByLast(services, n, key);
        forall i, p | OffersAt(services, i, p, key) ensures OffersAt(before, i, p, key) {
        }
      }
    }
  }

  lemma KeptByLast(services: seq<Service>, n: int, key: string)
    requires n == |services| - 1 >= 0
    requires forall p :: !OffersAt(services, n, p, key)
    ensures var before := services[..n];
            (key in Table(services) <==> key in Table(before))
            && (key in Table(services) ==> Table(services)[key] == Table(before)[key])
  {
    hide ServiceKey, MetaOf;
    var s := services[n];
    if Routable(s) {
      forall p | p in s.ports ensures key != ServiceKey(s.name, p) {
        assert !OffersAt(services, n, p, key);
      }
      WithPortsAt(Table(services[..n]), s, s.ports, key);
    }
  }

  /** No service is named like the address of a service, so that the two kinds of keys stay apart. */
  ghost predicate NamesAreNotAddresses(services: seq<Service>) {
    forall i, j :: 0 <= i < |services| && 0 <= j < |services| && Routable(services[j]) ==>
      services[i].name != HostPart(services[j].clusterIP)
  }

  /** Services have names and addresses of their own, as within one namespace of a cluster. */
  ghost predicate OwnNamesAndAddresses(services: seq<Service>) {
    forall i, j :: 0 <= i < j < |services| && Routable(services[i]) && Routable(services[j]) ==>
      services[i].name != services[j].name && services[i].clusterIP != services[j].clusterIP
  }

  /** The endpoints a service port should show. */
  ghost function Meaning(slices: seq<Slice>, namespace: string, name: string, port: int): set<Endpoint> {
    EndpointsAt(Backends(slices, name, port), namespace, name, port)
  }

  ghost predicate Shows(index: Index, key: string, endpoints: set<Endpoint>) {
    key in index && Elements(index[key]) == endpoints && DistinctAddresses(index[key])
  }

  lemma KeysApart(services: seq<Service>, i: nat, j: nat, p: int, q: int)
    requires i < |services| && j < |services| && Routable(services[j]) && NamesAreNotAddresses(services)
    ensures ServiceKey(services[i].name, p) != ClusterKey(services[j], q)
  {
    hide HostPart, Itoa;
    if ServiceKey(services[i].name, p) == ClusterKey(services[j], q) {
      ColonKeyInjective(services[i].name, p, HostPart(services[j].clusterIP), q);
    }
  }

  lemma EntryData(entries: seq<Cached>, services: seq<Service>, slices: seq<Slice>, namespace: string, k: nat)
    returns (i: int, p: int)
    requires EntriesFor(entries, services, slices, namespace) && k < |entries|
    ensures OffersAt(services, i, p, entries[k].serviceKey) && entries[k].clusterKey == ClusterKey(services[i], p)
    ensures Elements(entries[k].endpoints) == Meaning(slices, namespace, services[i].name, p)
    ensures DistinctAddresses(entries[k].endpoints)
  {
    hide Table, ServiceKey, ClusterKey, Backends, DistinctAddresses;
    TableLists(services, entries[k].serviceKey);
    i, p :| OffersAt(services, i, p, entries[k].serviceKey)
            && Table(services)[entries[k].serviceKey] == MetaOf(services[i], p);
  }

  /** By name: the key of every offered service port shows exactly the backends of that port. */
  lemma NamedLookup(entries: seq<Cached>, services: seq<Service>, slices: seq<Slice>, namespace: string, i: nat, p: int)
    requires EntriesFor(entries, services, slices, namespace) && NamesAreNotAddresses(services)
    requires i < |services| && Routable(services[i]) && p in services[i].ports
    ensures Shows(Replaced(entries), ServiceKey(services[i].name, p), Meaning(slices, namespace, services[i].name, p))
  {
    hide Table, ServiceKey, ClusterKey, Backends, DistinctAddresses, Replaced, EntriesFor, NamesAreNotAddresses;
    var key := ServiceKey(services[i].name, p);
    var k := EntryOf(entries, services, slices, namespace, i, p);
    forall j | 0 <= j < |entries| && j != k ensures !Claims(entries[j], key) {
      OtherEntry(entries, services, slices, namespace, j, k);
      var i', p' := EntryData(entries, services, slices, namespace, j);
      KeysApart(services, i, i', p, p');
    }
    LastClaimWins(entries, key);
    var i', p' := EntryData(entries, services, slices, namespace, k);
    ServiceKeyInjective(services[i'].name, p', services[i].name, p);
  }

  lemma EntryOf(entries: seq<Cached>, services: seq<Service>, slices: seq<Slice>, namespace: string, i: nat, p: int)
    returns (k: nat)
    requires EntriesFor(entries, services, slices, namespace)
    requires i < |services| && Routable(services[i]) && p in services[i].ports
    ensures k < |entries| && entries[k].serviceKey == ServiceKey(services[i].name, p)
  {
    hide ServiceKey, EntryFor, Table;
    var key := ServiceKey(services[i].name, p);
    assert OffersAt(services, i, p, key);
    TableLists(services, key);
    k :| 0 <= k < |entries| && entries[k].serviceKey == key;
  }

  lemma OtherEntry(entries: seq<Cached>, services: seq<Service>, slices: seq<Slice>, namespace: string, j: nat, k: nat)
    requires EntriesFor(entries, services, slices, namespace) && j < |entries| && k < |entries| && j != k
    ensures entries[j].serviceKey != entries[k].serviceKey
  {
  }

  lemma SameAddress(services: seq<Service>, i: nat, j: nat, p: int, q: int)
    requires i < |services| && j < |services| && Routable(services[i]) && Routable(services[j])
    requires OwnNamesAndAddresses(services) && ClusterKey(services[i], p) == ClusterKey(services[j], q)
    ensures i == j && p == q
  {
    hide JoinHostPort;
    JoinHostPortInjective(services[i].clusterIP, p, services[j].clusterIP, q);
  }

  lemma SameName(services: seq<Service>, i: nat, j: nat, p: int, q: int)
    requires i < |services| && j < |services| && Routable(services[i]) && Routable(services[j])
    requires OwnNamesAndAddresses(services) && ServiceKey(services[i].name, p) == ServiceKey(services[j].name, q)
    ensures i == j && p == q
  {
    hide ServiceKey;
    ServiceKeyInjective(services[i].name, p, services[j].name, q);
  }

  /** By address: the cluster IP and port show the same endpoints as the name and port. */
  lemma AddressLookup(
    entries: seq<Cached>, services: seq<Service>, slices: seq<Slice>, namespace: string, i: nat, p: int)
    requires EntriesFor(entries, services, slices, namespace)
    requires NamesAreNotAddresses(services) && OwnNamesAndAddresses(services)
    requires i < |services| && Routable(services[i]) && p in services[i].ports
    ensures Shows(Replaced(entries), ClusterKey(services[i], p), Meaning(slices, namespace, services[i].name, p))
  {
    hide Table, ServiceKey, ClusterKey, Backends, DistinctAddresses, Replaced, EntriesFor, NamesAreNotAddresses,
      OwnNamesAndAddresses;
    var key := ClusterKey(services[i], p);
    var k := EntryOf(entries, services, slices, namespace, i, p);
    var i', p' := EntryData(entries, services, slices, namespace, k);
    SameName(services, i', i, p', p);
    forall j | 0 <= j < |entries| && j != k ensures !Claims(entries[j], key) {
      OtherEntry(entries, services, slices, namespace, j, k);
      var i'', p'' := EntryData(entries, services, slices, namespace, j);
      KeysApart(services, i'', i, p'', p);
      if entries[j].clusterKey == key {
        SameAddress(services, i'', i, p'', p);
      }
    }
    NotEmptyKey(services[i], p);
    LastClaimWins(entries, key);
  }

  lemma NotEmptyKey(s: Service, port: int)
    ensures ClusterKey(s, port) != ""
  {
  }

  /** Nothing else is in the index: headless services and unknown keys have no entry. */
  lemma OnlyOfferedKeys(
    entries: seq<Cached>, services: seq<Service>, slices: seq<Slice>, namespace: string, key: string)
    requires EntriesFor(entries, services, slices, namespace) && key in Replaced(entries)
    ensures exists i, p ::
              && 0 <= i < |services| && services[i].clusterIP != "" && services[i].clusterIP != "None"
              && p in services[i].ports
              && (key == ServiceKey(services[i].name, p) || key == ClusterKey(services[i], p))
  {
    hide ServiceKey, ClusterKey, EntriesFor, Replaced;
    SomeClaimWins(entries, key);
    var k :| 0 <= k < |entries| && Claims(entries[k], key);
    var i, p := EntryData(entries, services, slices, namespace, k);
    assert p in services[i].ports;
  }

  // ---- Address by address ----

  /** The slice lists the address for a port of the service: a TCP or unspecified one, and an endpoint not unready. */
  predicate ListsAddress(slice: Slice, name: string, port: int, a: string) {
    && slice.serviceName == Some(name) && name != ""
    && (exists p :: p in slice.ports && p.port == Some(port) && p.protocol in {None, Some("TCP")})
    && exists e :: e in slice.endpoints && e.ready != Some(false) && a in e.addresses
  }

  lemma BackendsAt(slices: seq<Slice>, name: string, port: int, a: string)
    ensures a in Backends(slices, name, port) <==> exists slice :: slice in slices && ListsAddress(slice, name, port, a)
  {
    forall slice | slice in slices
      ensures Serves(slice, name, port) && a in Usable(slice.endpoints) <==> ListsAddress(slice, name, port, a)
    {
      forall p ensures Tcp(p) <==> p.protocol in {None, Some("TCP")} {
      }
      forall e ensures NotUnready(e) <==> e.ready != Some(false) {
      }
    }
  }

  function ShownIPs(endpoints: seq<Endpoint>): set<string> {
    set e | e in endpoints :: e.ip
  }

  /** The key shows exactly the listed addresses, once each, under the port and the full name of the service. */
  ghost predicate ShowsListed(index: Index, key: string, slices: seq<Slice>, namespace: string, name: string, port: int)
  {
    key in index
    && (forall a :: a in ShownIPs(index[key])
                    <==> exists slice :: slice in slices && ListsAddress(slice, name, port, a))
    && (forall i :: 0 <= i < |index[key]| ==>
          index[key][i].port == port && index[key][i].serviceName == name + "." + namespace + ".svc.cluster.local")
    && forall i, j :: 0 <= i < j < |index[key]| ==> index[key][i].ip != index[key][j].ip
  }

  lemma MeaningIsListed(index: Index, key: string, slices: seq<Slice>, namespace: string, name: string, port: int)
    requires Shows(index, key, Meaning(slices, namespace, name, port))
    ensures ShowsListed(index, key, slices, namespace, name, port)
  {
    hide Backends, ListsAddress, DistinctAddresses;
    LookupsHaveDistinctIPs(index, key, slices, namespace, name, port);
    var es := index[key];
    forall i | 0 <= i < |es| ensures es[i] in Meaning(slices, namespace, name, port) {
      assert es[i] in Elements(es);
    }
    forall a
      ensures a in ShownIPs(es)
              <==> exists slice :: slice in slices && ListsAddress(slice, name, port, a)
    {
      BackendsAt(slices, name, port, a);
      if a in Backends(slices, name, port) {
        assert Endpoint(a, port, ServiceFQDN(name, namespace)) in Elements(es);
      }
    }
  }

  /**
   After a relist the key name:port of a service with a cluster IP shows exactly the addresses its slices list, and so
   does the key made of that IP, in brackets if it has a colon, when services keep their addresses to themselves.
   */
  lemma AddressesShownIff(
    entries: seq<Cached>, services: seq<Service>, slices: seq<Slice>, namespace: string, i: nat, p: int)
    requires EntriesFor(entries, services, slices, namespace) && NamesAreNotAddresses(services)
    requires i < |services| && services[i].clusterIP != "" && services[i].clusterIP != "None" && p in services[i].ports
    ensures var s := services[i];
            && ShowsListed(Replaced(entries), s.name + ":" + Itoa(p), slices, namespace, s.name, p)
            && (OwnNamesAndAddresses(services) ==>
                ShowsListed(Replaced(entries),
                            (if ':' in s.clusterIP || '%' in s.clusterIP then "[" + s.clusterIP + "]" else s.clusterIP)
                            + ":" + Itoa(p), slices, namespace, s.name, p))
  {
    hide EntriesFor, NamesAreNotAddresses, OwnNamesAndAddresses, Replaced, ShowsListed, Shows, Meaning, Itoa;
    var s := services[i];
    NamedLookup(entries, services, slices, namespace, i, p);
    MeaningIsListed(Replaced(entries), ServiceKey(s.name, p), slices, namespace, s.name, p);
    if OwnNamesAndAddresses(services) {
      AddressLookup(entries, services, slices, namespace, i, p);
      MeaningIsListed(Replaced(entries), ClusterKey(s, p), slices, namespace, s.name, p);
    }
  }

  /** Every entry is labelled with the full name of the service whose key it has. */
  lemma EntryLabels(entries: seq<Cached>, services: seq<Service>, slices: seq<Slice>, namespace: string, k: nat)
    returns (i: nat, p: int)
    requires EntriesFor(entries, services, slices, namespace) && k < |entries|
    ensures i < |services| && p in services[i].ports && entries[k].serviceKey == services[i].name + ":" + Itoa(p)
    ensures entries[k].serviceLabel == services[i].name + "." + services[i].namespace + ".svc.cluster.local"
  {
    hide Table, ClusterKey, Backends, DistinctAddresses, Itoa;
    TableLists(services, entries[k].serviceKey);
    i, p :| OffersAt(services, i, p, entries[k].serviceKey)
            && Table(services)[entries[k].serviceKey] == MetaOf(services[i], p);
  }

  /** Two relists of the same cluster give the same index up to the order of endpoints, however Go walked its maps. */
  lemma AnyWalkSameIndex(
    first: seq<Cached>, second: seq<Cached>, services: seq<Service>, slices: seq<Slice>, namespace: string, key: string)
    requires EntriesFor(first, services, slices, namespace) && EntriesFor(second, services, slices, namespace)
    requires NamesAreNotAddresses(services) && OwnNamesAndAddresses(services)
    ensures key in Replaced(first) <==> key in Replaced(second)
    ensures key in Replaced(first) ==> Shows(Replaced(second), key, Elements(Replaced(first)[key]))
  {
    hide ServiceKey, ClusterKey, EntriesFor, Replaced, NamesAreNotAddresses, OwnNamesAndAddresses, Backends;
    if key in Replaced(first) {
      SameLookup(first, second, services, slices, namespace, key);
    }
    if key in Replaced(second) {
      SameLookup(second, first, services, slices, namespace, key);
    }
  }

  lemma SameLookup(
    first: seq<Cached>, second: seq<Cached>, services: seq<Service>, slices: seq<Slice>, namespace: string, key: string)
    requires EntriesFor(first, services, slices, namespace) && EntriesFor(second, services, slices, namespace)
    requires NamesAreNotAddresses(services) && OwnNamesAndAddresses(services) && key in Replaced(first)
    ensures Shows(Replaced(second), key, Elements(Replaced(first)[key]))
  {
    hide ServiceKey, ClusterKey, EntriesFor, Replaced, NamesAreNotAddresses, OwnNamesAndAddresses, Backends;
    OnlyOfferedKeys(first, services, slices, namespace, key);
    var i, p :| 0 <= i < |services| && Routable(services[i]) && p in services[i].ports
                && (key == ServiceKey(services[i].name, p) || key == ClusterKey(services[i], p));
    NamedLookup(first, services, slices, namespace, i, p);
    NamedLookup(second, services, slices, namespace, i, p);
    AddressLookup(first, services, slices, namespace, i, p);
    AddressLookup(second, services, slices, namespace, i, p);
  }

  /** The endpoints under one service port have distinct IPs: the assumption failover makes about a destination. */
  lemma LookupsHaveDistinctIPs(
    index: Index, key: string, slices: seq<Slice>, namespace: string, name: string, port: int)
    requires Shows(index, key, Meaning(slices, namespace, name, port))
    ensures Failover.DistinctIPs(index[key])
  {
    hide Backends, JoinHostPort, ServiceFQDN;
    var es := index[key];
    forall i, j | 0 <= i < j < |es| ensures es[i].ip != es[j].ip {
      assert es[i] in Elements(es) && es[j] in Elements(es);
      assert Address(es[i]) != Address(es[j]);
    }
  }

  // ---- Readiness ----

  function ReportedReady(endpoints: seq<SliceEndpoint>): set<string> {
    set e, a | e in endpoints && e.ready.Some? && e.ready.value && a in e.addresses :: a
  }

  function ReadinessUnset(endpoints: seq<SliceEndpoint>): set<string> {
    set e, a | e in endpoints && e.ready.None? && a in e.addresses :: a
  }

  /** The addresses that some endpoint of the service port explicitly reports ready. */
  function ReadyBackends(slices: seq<Slice>, name: string, port: int): set<string> {
    set slice, a | slice in slices && Serves(slice, name, port) && a in ReportedReady(slice.endpoints) :: a
  }

  /** The addresses that some endpoint of the service port lists without saying whether it is ready. */
  function UndecidedBackends(slices: seq<Slice>, name: string, port: int): set<string> {
    set slice, a | slice in slices && Serves(slice, name, port) && a in ReadinessUnset(slice.endpoints) :: a
  }

  /**
   The documentation admits only endpoints that report ready. The code also admits those that report nothing, so the
   two agree exactly when every such address is reported ready elsewhere.
   */
  lemma OnlyReadyIff(slices: seq<Slice>, name: string, port: int)
    ensures Backends(slices, name, port) == ReadyBackends(slices, name, port)
            <==> UndecidedBackends(slices, name, port) <= ReadyBackends(slices, name, port)
  {
    hide Serves, Usable, ReportedReady, ReadinessUnset;
    forall slice | slice in slices
      ensures Usable(slice.endpoints) == ReportedReady(slice.endpoints) + ReadinessUnset(slice.endpoints)
    {
      UsableSplits(slice.endpoints);
    }
    assert Backends(slices, name, port) == ReadyBackends(slices, name, port) + UndecidedBackends(slices, name, port);
  }

  lemma UsableSplits(endpoints: seq<SliceEndpoint>)
    ensures Usable(endpoints) == ReportedReady(endpoints) + ReadinessUnset(endpoints)
  {
  }

  lemma UnsetReadinessExample()
    ensures var slice := Slice(Some("web"), [SlicePort(Some(80), None)], [SliceEndpoint(None, ["10.0.0.1"])]);
            "10.0.0.1" in Backends([slice], "web", 80) && "10.0.0.1" !in ReadyBackends([slice], "web", 80)
  {
    var e := SliceEndpoint(None, ["10.0.0.1"]);
    var p := SlicePort(Some(80), None);
    var slice := Slice(Some("web"), [p], [e]);
    assert p in slice.ports && e in slice.endpoints && "10.0.0.1" in e.addresses;
    assert Serves(slice, "web", 80) by {
      assert |"web"| == 3;
    }
    assert "10.0.0.1" in Usable(slice.endpoints);
    assert slice in [slice];
  }
}
