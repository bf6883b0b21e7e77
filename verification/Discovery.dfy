/** The sidecar's view of the cluster: services and endpoint slices become an index with two keys per service port. */
module Discovery {
  import opened Options
  import opened GoStrings
  import opened Sorting
  import opened Routing

  datatype Service = Service(name: string, namespace: string, clusterIP: string, ports: seq<int>)

  datatype SlicePort = SlicePort(port: Option<int>, protocol: Option<string>)

  datatype SliceEndpoint = SliceEndpoint(ready: Option<bool>, addresses: seq<string>)

  /** serviceName is the value of the slice's service-name label. */
  datatype Slice = Slice(serviceName: Option<string>, ports: seq<SlicePort>, endpoints: seq<SliceEndpoint>)

  datatype Meta = Meta(clusterKey: string, serviceLabel: string)

  datatype Cached = Cached(serviceKey: string, clusterKey: string, serviceLabel: string, endpoints: seq<Endpoint>)

  type Index = map<string, seq<Endpoint>>

  /** buildServiceKey. */
  function ServiceKey(name: string, port: int): string {
    name + ":" + Itoa(port)
  }

  /** buildServiceFQDN. */
  function ServiceFQDN(name: string, namespace: string): string {
    name + "." + namespace + ".svc.cluster.local"
  }

  function Elements<T>(s: seq<T>): set<T> {
    set x | x in s
  }

  // ---- The index ----

  /** Later entries overwrite earlier ones. */
  function Replaced(entries: seq<Cached>): Index {
    if entries == [] then map[]
    else
      var e, before := entries[|entries| - 1], Replaced(entries[..|entries| - 1]);
      var named := before[e.serviceKey := e.endpoints];
      if e.clusterKey != "" then named[e.clusterKey := e.endpoints] else named
  }

  function Lookup(index: Index, key: string): seq<Endpoint> {
    if key in index then index[key] else []
  }

  class ServiceCache {
    var byKey: Index

    constructor ()
      ensures byKey == map[]
    {
      byKey := map[];
    }

    method GetEndpoints(key: string) returns (endpoints: seq<Endpoint>)
      ensures endpoints == Lookup(byKey, key)
    {
      if key !in byKey {
        return [];
      }
      endpoints := byKey[key];
    }

    method Replace(services: seq<Cached>)
      modifies this
      ensures byKey == Replaced(services)
    {
      var next: Index := map[];
      for i := 0 to |services|
        invariant next == Replaced(services[..i])
      {
        var service := services[i];
        assert services[..i + 1][..i] == services[..i];
        next := next[service.serviceKey := service.endpoints];
        if service.clusterKey != "" {
          next := next[service.clusterKey := service.endpoints];
        }
      }
      assert services[..|services|] == services;
      byKey := next;
    }
  }

  predicate Claims(e: Cached, key: string) {
    key == e.serviceKey || (key == e.clusterKey && e.clusterKey != "")
  }

  /** A key shows the endpoints of the last entry that claims it. */
  lemma {:induction false} LastClaimWins(entries: seq<Cached>, key: string)
    ensures key in Replaced(entries) <==> exists i :: 0 <= i < |entries| && Claims(entries[i], key)
    ensures forall i :: 0 <= i < |entries| && Claims(entries[i], key)
              && (forall j :: i < j < |entries| ==> !Claims(entries[j], key))
              ==> key in Replaced(entries) && Replaced(entries)[key] == entries[i].endpoints
  {
    if entries != [] {
      var n := |entries| - 1;
      var rest := entries[..n];
      LastClaimWins(rest, key);
      assert forall j :: 0 <= j < n ==> rest[j] == entries[j];
      if !Claims(entries[n], key) {
        assert key in Replaced(entries) <==> key in Replaced(rest);
      }
    }
  }

  lemma {:induction false} SomeClaimWins(entries: seq<Cached>, key: string)
    requires key in Replaced(entries)
    ensures exists i :: 0 <= i < |entries| && Claims(entries[i], key) && Replaced(entries)[key] == entries[i].endpoints
  {
    var n := |entries| - 1;
    if !Claims(entries[n], key) {
      SomeClaimWins(entries[..n], key);
      var i :| 0 <= i < n && Claims(entries[..n][i], key) && Replaced(entries[..n])[key] == entries[..n][i].endpoints;
      assert entries[i] == entries[..n][i];
    } else {
      LastClaimWins(entries, key);
    }
  }

  ghost predicate SameShown(a: seq<Cached>, b: seq<Cached>, key: string) {
    Elements(Lookup(Replaced(a), key)) == Elements(Lookup(Replaced(b), key))
  }

  /** Every order of the entries shows the same endpoints under the key. */
  ghost predicate OrderFree(entries: seq<Cached>, key: string) {
    forall other :: multiset(other) == multiset(entries) ==> SameShown(entries, other, key)
  }

  ghost predicate ClaimsAgree(entries: seq<Cached>, key: string) {
    forall x, y :: x in entries && y in entries && Claims(x, key) && Claims(y, key) ==>
                     Elements(x.endpoints) == Elements(y.endpoints)
  }

  /** An order of the entries in which a given claim comes last. */
  ghost function MovedLast(entries: seq<Cached>, x: Cached, key: string): (moved: seq<Cached>)
    requires x in entries && Claims(x, key)
    ensures multiset(moved) == multiset(entries)
    ensures Elements(Lookup(Replaced(moved), key)) == Elements(x.endpoints)
  {
    var i :| 0 <= i < |entries| && entries[i] == x;
    assert entries == entries[..i] + [x] + entries[i + 1..];
    LastClaimWins(entries[..i] + entries[i + 1..] + [x], key);
    entries[..i] + entries[i + 1..] + [x]
  }

  lemma ClaimedInAnyOrder(entries: seq<Cached>, other: seq<Cached>, key: string)
    requires multiset(other) == multiset(entries) && key in Replaced(entries)
    ensures key in Replaced(other)
    ensures exists x :: x in entries && Claims(x, key) && Replaced(entries)[key] == x.endpoints
  {
    SomeClaimWins(entries, key);
    var i :| 0 <= i < |entries| && Claims(entries[i], key) && Replaced(entries)[key] == entries[i].endpoints;
    assert entries[i] in multiset(other);
    LastClaimWins(other, key);
  }

  lemma AgreeingClaims(entries: seq<Cached>, other: seq<Cached>, key: string)
    requires multiset(other) == multiset(entries) && ClaimsAgree(entries, key)
    ensures SameShown(entries, other, key)
  {
    if key in Replaced(entries) {
      ClaimedInAnyOrder(entries, other, key);
      ClaimedInAnyOrder(other, entries, key);
      var x :| x in entries && Claims(x, key) && Replaced(entries)[key] == x.endpoints;
      var y :| y in other && Claims(y, key) && Replaced(other)[key] == y.endpoints;
      assert y in multiset(entries);
    }
    if key in Replaced(other) {
      ClaimedInAnyOrder(other, entries, key);
    }
  }

  /**
   The entries are handed over in map order, so a key means the same in every order exactly when all entries that
   claim it have the same endpoints.
   */
  lemma OrderIrrelevantIff(entries: seq<Cached>, key: string)
    ensures OrderFree(entries, key) <==> ClaimsAgree(entries, key)
  {
    if OrderFree(entries, key) {
      forall x, y | x in entries && y in entries && Claims(x, key) && Claims(y, key)
        ensures Elements(x.endpoints) == Elements(y.endpoints)
      {
        assert SameShown(entries, MovedLast(entries, x, key), key);
        assert SameShown(entries, MovedLast(entries, y, key), key);
      }
    }
    if ClaimsAgree(entries, key) {
      forall other | multiset(other) == multiset(entries) ensures SameShown(entries, other, key) {
        AgreeingClaims(entries, other, key);
      }
    }
  }

  // ---- Removing duplicates ----

  function Address(e: Endpoint): string {
    JoinHostPort(e.ip, e.port)
  }

  ghost predicate DistinctAddresses(endpoints: seq<Endpoint>) {
    forall i, j :: 0 <= i < j < |endpoints| ==> Address(endpoints[i]) != Address(endpoints[j])
  }

  /** The last endpoint with each address. */
  function LastAt(endpoints: seq<Endpoint>): map<string, Endpoint> {
    if endpoints == [] then map[]
    else
      var e := endpoints[|endpoints| - 1];
      LastAt(endpoints[..|endpoints| - 1])[Address(e) := e]
  }

  lemma {:induction false} LastAtKeeps(endpoints: seq<Endpoint>)
    ensures forall a :: a in LastAt(endpoints) ==>
              LastAt(endpoints)[a] in endpoints && Address(LastAt(endpoints)[a]) == a
    ensures forall e :: e in endpoints ==> Address(e) in LastAt(endpoints)
  {
    if endpoints != [] {
      var rest := endpoints[..|endpoints| - 1];
      LastAtKeeps(rest);
      assert endpoints == rest + [endpoints[|endpoints| - 1]];
    }
  }

  /** dedupeEndpoints: one endpoint for each address, in no particular order. */
  method DedupeEndpoints(endpoints: seq<Endpoint>) returns (result: seq<Endpoint>)
    ensures DistinctAddresses(result)
    ensures forall e :: e in result ==> e in endpoints
    ensures forall e :: e in endpoints ==> exists r :: r in result && Address(r) == Address(e)
  {
    hide Address;
    if |endpoints| < 2 {
      return endpoints;
    }
    var unique: map<string, Endpoint> := map[];
    for i := 0 to |endpoints|
      invariant unique == LastAt(endpoints[..i])
    {
      assert endpoints[..i + 1][..i] == endpoints[..i];
      unique := unique[Address(endpoints[i]) := endpoints[i]];
    }
    assert endpoints[..|endpoints|] == endpoints;
    LastAtKeeps(endpoints);
    var walk := CollectKeys(unique.Keys);
    ListsOnce(walk, unique.Keys);
    result := [];
    for i := 0 to |walk|
      invariant |result| == i && forall j :: 0 <= j < i ==> result[j] == unique[walk[j]]
    {
      assert walk[i] in walk;
      result := result + [unique[walk[i]]];
    }
    forall e | e in endpoints ensures exists r :: r in result && Address(r) == Address(e) {
      assert Address(e) in walk;
      var j :| 0 <= j < |walk| && walk[j] == Address(e);
      assert result[j] in result;
    }
    forall i, j | 0 <= i < j < |result| ensures Address(result[i]) != Address(result[j]) {
      assert walk[i] in walk && walk[j] in walk;
    }
  }
}
