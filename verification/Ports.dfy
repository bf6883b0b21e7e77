/** What the list of inbound ports says: it parses back to the ports, ascending, and the target uses the lowest. */
module Ports {
  import opened GoStrings
  import opened Pods
  import opened Sorting
  import opened Injector

  function AtoiAll(parts: seq<string>): seq<int> {
    if parts == [] then [] else [Atoi(parts[0])] + AtoiAll(parts[1..])
  }

  /** Reads a comma-separated list of numbers; an empty string is an empty list. */
  function ParsePorts(list: string): seq<int> {
    if list == "" then [] else AtoiAll(Split(list, ','))
  }

  predicate Ascending(ports: seq<int>) {
    forall i, j :: 0 <= i < j < |ports| ==> ports[i] < ports[j]
  }

  lemma {:induction false} AtoiPortStrings(ports: seq<int>)
    ensures AtoiAll(PortStrings(ports)) == ports
    ensures |PortStrings(ports)| == |ports|
  {
    hide Itoa, Atoi;
    if ports != [] {
      var first, rest := Itoa(ports[0]), PortStrings(ports[1..]);
      AtoiPortStrings(ports[1..]);
      ItoaRoundTrip(ports[0]);
      AtoiCons(first, rest);
      assert [ports[0]] + ports[1..] == ports;
    }
  }

  lemma AtoiCons(first: string, rest: seq<string>)
    ensures AtoiAll([first] + rest) == [Atoi(first)] + AtoiAll(rest)
  {
  }

  /** The characters of a decimal number, none of which is a comma or a space. */
  predicate Plain(p: string) {
    p != "" && forall i :: 0 <= i < |p| ==> p[i] == '-' || '0' <= p[i] <= '9'
  }

  predicate AllPlain(parts: seq<string>) {
    forall i :: 0 <= i < |parts| ==> Plain(parts[i])
  }

  lemma {:induction false} PortStringsPlain(ports: seq<int>)
    ensures AllPlain(PortStrings(ports))
  {
    if ports != [] {
      hide Itoa;
      PortStringsPlain(ports[1..]);
      ItoaPlain(ports[0]);
    }
  }

  lemma JoinedNotEmpty(parts: seq<string>)
    requires parts != [] && parts[0] != ""
    ensures Join(parts, ',') != ""
  {
  }

  lemma {:induction false} JoinedPortsParse(ports: seq<int>)
    ensures ParsePorts(Join(PortStrings(ports), ',')) == ports
  {
    AtoiPortStrings(ports);
    PortStringsPlain(ports);
    if ports != [] {
      assert forall p <- PortStrings(ports) :: Plain(p) && ',' !in p;
      SplitJoin(PortStrings(ports), ',');
      JoinedNotEmpty(PortStrings(ports));
    }
  }

  /** The list parses back, ascending, to exactly the positive ports of the containers that are not the sidecar. */
  lemma PortListParses(containers: seq<Container>)
    ensures Ascending(ParsePorts(PortList(containers)))
    ensures forall p :: p in ParsePorts(PortList(containers)) <==>
                        p > 0 && exists c :: c in containers && c.name != SIDECAR && p in c.ports
  {
    hide Join, Split, PortStrings;
    var inbound := InboundPorts(containers);
    OrdersAreTotal();
    InOrderLists(INT_ORDER, inbound);
    JoinedPortsParse(InOrder(INT_ORDER, inbound));
  }

  lemma {:induction false} UpToSeparator(first: string, rest: string, c: char)
    requires c !in first && (rest == "" || rest[0] == c)
    ensures UpTo(first + rest, c) == first
  {
    if first == "" {
      assert first + rest == rest;
    } else {
      assert (first + rest)[1..] == first[1..] + rest;
      UpToSeparator(first[1..], rest, c);
    }
  }

  lemma NoSpaceAtEnds(s: string)
    requires s != "" && !IsSpace(s[0]) && !IsSpace(s[|s| - 1])
    ensures TrimSpace(s) == s
  {
  }

  lemma {:induction false} JoinEnds(parts: seq<string>)
    requires parts != [] && AllPlain(parts)
    ensures var s := Join(parts, ','); s != "" && !IsSpace(s[0]) && !IsSpace(s[|s| - 1])
    ensures exists rest :: Join(parts, ',') == parts[0] + rest && (rest == "" || rest[0] == ',')
  {
    hide IsSpace;
    DigitsAreNotSpaces();
    var s, p := Join(parts, ','), parts[0];
    assert Plain(p);
    if |parts| == 1 {
      assert s == p + "";
    } else {
      JoinEnds(parts[1..]);
      var last := Join(parts[1..], ',');
      assert s == p + ("," + last);
      assert s[|s| - 1] == last[|last| - 1];
    }
  }

  lemma DigitsAreNotSpaces()
    ensures forall c :: c == '-' || '0' <= c <= '9' ==> !IsSpace(c)
  {
  }

  /** Traffic goes to the lowest inbound port, and to 8080 when there is none. */
  lemma TargetIsLowestPort(containers: seq<Container>)
    ensures var ports, target := InboundPorts(containers), DeriveAppTargetAddr(PortList(containers));
            if ports == {} then target == DEFAULT_TARGET
            else exists low :: low in ports && (forall p <- ports :: low <= p) && target == "127.0.0.1:" + Itoa(low)
  {
    hide TrimSpace, Itoa, UpTo, Join;
    var inbound := InboundPorts(containers);
    var ports := InOrder(INT_ORDER, inbound);
    OrdersAreTotal();
    InOrderLists(INT_ORDER, inbound);
    if inbound == {} {
      EmptyList();
    } else {
      var low := ports[0];
      PortStringsPlain(ports);
      TargetOf(PortStrings(ports));
      assert low in inbound && forall p <- inbound :: low <= p;
      assert PortStrings(ports)[0] == Itoa(low);
    }
  }

  lemma EmptyList()
    ensures DeriveAppTargetAddr(Join(PortStrings([]), ',')) == DEFAULT_TARGET
  {
  }

  lemma TargetOf(parts: seq<string>)
    requires parts != [] && AllPlain(parts)
    ensures DeriveAppTargetAddr(Join(parts, ',')) == "127.0.0.1:" + parts[0]
  {
    hide TrimSpace, UpTo, Join, IsSpace;
    var list, p := Join(parts, ','), parts[0];
    JoinEnds(parts);
    NoSpaceAtEnds(list);
    var rest :| list == p + rest && (rest == "" || rest[0] == ',');
    UpToSeparator(p, rest, ',');
    assert Plain(p);
    DigitsAreNotSpaces();
    NoSpaceAtEnds(p);
  }
}
