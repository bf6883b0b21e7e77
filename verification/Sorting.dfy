/** Go's sort functions, and the arbitrary order in which Go walks a map. */
module Sorting {
  type Order<!T> = (T, T) -> bool

  ghost predicate TotalOrder<T(!new)>(le: Order<T>) {
    && (forall x, y :: le(x, y) || le(y, x))
    && (forall x, y :: le(x, y) && le(y, x) ==> x == y)
    && (forall x, y, z :: le(x, y) && le(y, z) ==> le(x, z))
  }

  ghost predicate SortedBy<T(!new)>(le: Order<T>, s: seq<T>) {
    forall i, j :: 0 <= i < j < |s| ==> le(s[i], s[j])
  }

  function Insert<T>(le: Order<T>, x: T, s: seq<T>): seq<T> {
    if s == [] || le(x, s[0]) then [x] + s else [s[0]] + Insert(le, x, s[1..])
  }

  /** sort.Ints and sort.Strings. */
  function Sort<T>(le: Order<T>, s: seq<T>): seq<T> {
    if s == [] then [] else Insert(le, s[0], Sort(le, s[1..]))
  }

  lemma {:induction false} InsertAdds<T>(le: Order<T>, x: T, s: seq<T>)
    ensures multiset(Insert(le, x, s)) == multiset{x} + multiset(s)
  {
    if s != [] && !le(x, s[0]) {
      InsertAdds(le, x, s[1..]);
      assert s == [s[0]] + s[1..];
    }
  }

  lemma {:induction false} InsertSorts<T(!new)>(le: Order<T>, x: T, s: seq<T>)
    requires TotalOrder(le) && SortedBy(le, s)
    ensures SortedBy(le, Insert(le, x, s))
  {
    if s != [] && !le(x, s[0]) {
      var rest := Insert(le, x, s[1..]);
      InsertSorts(le, x, s[1..]);
      InsertAdds(le, x, s[1..]);
      forall i | 0 <= i < |rest| ensures le(s[0], rest[i]) {
        assert rest[i] in multiset(rest);
        assert rest[i] == x || rest[i] in s[1..];
      }
    }
  }

  lemma {:induction false} SortSorts<T(!new)>(le: Order<T>, s: seq<T>)
    requires TotalOrder(le)
    ensures SortedBy(le, Sort(le, s)) && multiset(Sort(le, s)) == multiset(s)
  {
    if s != [] {
      SortSorts(le, s[1..]);
      InsertSorts(le, s[0], Sort(le, s[1..]));
      InsertAdds(le, s[0], Sort(le, s[1..]));
      assert s == [s[0]] + s[1..];
    }
  }

  lemma SameRests<T>(s: seq<T>, t: seq<T>)
    requires multiset(s) == multiset(t) && s != [] && t != [] && s[0] == t[0]
    ensures multiset(s[1..]) == multiset(t[1..])
  {
    assert s == [s[0]] + s[1..] && t == [t[0]] + t[1..];
    assert multiset(s) - multiset{s[0]} == multiset(s[1..]);
    assert multiset(t) - multiset{t[0]} == multiset(t[1..]);
  }

  lemma RestSorted<T(!new)>(le: Order<T>, s: seq<T>)
    requires SortedBy(le, s) && s != []
    ensures SortedBy(le, s[1..])
  {
  }

  lemma LeastComesFirst<T(!new)>(le: Order<T>, s: seq<T>, t: seq<T>)
    requires TotalOrder(le) && SortedBy(le, s) && SortedBy(le, t)
    requires multiset(s) == multiset(t) && s != [] && t != []
    ensures s[0] == t[0]
  {
    assert s[0] in multiset(s) && t[0] in multiset(t);
    var i: nat :| i < |t| && t[i] == s[0];
    var j: nat :| j < |s| && s[j] == t[0];
    assert i == 0 || le(t[0], t[i]);
    assert j == 0 || le(s[0], s[j]);
  }

  lemma {:induction false} SortedUnique<T(!new)>(le: Order<T>, s: seq<T>, t: seq<T>)
    requires TotalOrder(le) && SortedBy(le, s) && SortedBy(le, t)
    requires multiset(s) == multiset(t)
    ensures s == t
  {
    hide TotalOrder, SortedBy;
    assert |s| == |multiset(s)| == |multiset(t)| == |t|;
    if s != [] {
      LeastComesFirst(le, s, t);
      SameRests(s, t);
      RestSorted(le, s);
      RestSorted(le, t);
      SortedUnique(le, s[1..], t[1..]);
      assert s == [s[0]] + s[1..] && t == [t[0]] + t[1..];
    }
  }

  /** One of the orders in which a map with these keys may be walked. */
  ghost function Walk<T>(keys: set<T>): (walk: seq<T>)
    ensures multiset(walk) == multiset(keys)
  {
    if keys == {} then []
    else
      var k :| k in keys;
      assert multiset(keys) == multiset(keys - {k}) + multiset{k};
      [k] + Walk(keys - {k})
  }

  /** The keys in ascending order. */
  ghost function InOrder<T(!new)>(le: Order<T>, keys: set<T>): seq<T> {
    Sort(le, Walk(keys))
  }

  /** Whatever order the keys were walked in, sorting them gives the same sequence. */
  lemma SortForgetsWalk<T(!new)>(le: Order<T>, walk: seq<T>, keys: set<T>)
    requires TotalOrder(le) && multiset(walk) == multiset(keys)
    ensures Sort(le, walk) == InOrder(le, keys)
  {
    SortSorts(le, walk);
    SortSorts(le, Walk(keys));
    SortedUnique(le, Sort(le, walk), Sort(le, Walk(keys)));
  }

  /** The keys in order are exactly the keys, each once. */
  lemma InOrderLists<T(!new)>(le: Order<T>, keys: set<T>)
    requires TotalOrder(le)
    ensures SortedBy(le, InOrder(le, keys)) && |InOrder(le, keys)| == |keys|
    ensures forall k :: k in InOrder(le, keys) <==> k in keys
    ensures forall i, j :: 0 <= i < j < |InOrder(le, keys)| ==> InOrder(le, keys)[i] != InOrder(le, keys)[j]
  {
    SortSorts(le, Walk(keys));
    ListsOnce(InOrder(le, keys), keys);
  }

  lemma ListsOnce<T(!new)>(s: seq<T>, keys: set<T>)
    requires multiset(s) == multiset(keys)
    ensures |s| == |keys| && (forall k :: k in s <==> k in keys)
    ensures forall i, j :: 0 <= i < j < |s| ==> s[i] != s[j]
  {
    assert |s| == |multiset(s)| == |multiset(keys)|;
    forall k ensures k in s <==> k in keys {
      assert k in s <==> k in multiset(s);
    }
    forall i, j | 0 <= i < j < |s| ensures s[i] != s[j] {
      assert s == s[..i] + [s[i]] + s[i + 1..j] + [s[j]] + s[j + 1..];
      assert multiset(s)
          == multiset(s[..i]) + multiset{s[i]} + multiset(s[i + 1..j]) + multiset{s[j]} + multiset(s[j + 1..]);
      assert multiset(keys)[s[i]] <= 1;
    }
  }

  /** Collects the keys of a map, in whatever order the map is walked. */
  method CollectKeys<T(==)>(keys: set<T>) returns (walk: seq<T>)
    ensures multiset(walk) == multiset(keys)
  {
    walk := [];
    var rest := keys;
    while rest != {}
      invariant rest <= keys
      invariant multiset(walk) + multiset(rest) == multiset(keys)
      decreases rest
    {
      var k :| k in rest;
      walk := walk + [k];
      assert multiset(rest) == multiset(rest - {k}) + multiset{k};
      rest := rest - {k};
    }
  }

  const INT_ORDER: Order<int> := (x, y) => x <= y

  const STRING_ORDER: Order<string> := (x, y) => LexLE(x, y)

  predicate LexLE(a: string, b: string) {
    a == [] || (b != [] && (a[0] < b[0] || (a[0] == b[0] && LexLE(a[1..], b[1..]))))
  }

  lemma {:induction false} LexTotal(a: string, b: string)
    ensures LexLE(a, b) || LexLE(b, a)
    ensures LexLE(a, b) && LexLE(b, a) ==> a == b
  {
    if a != [] && b != [] && a[0] == b[0] {
      LexTotal(a[1..], b[1..]);
      assert a == [a[0]] + a[1..] && b == [b[0]] + b[1..];
    }
  }

  lemma {:induction false} LexTransitive(a: string, b: string, c: string)
    requires LexLE(a, b) && LexLE(b, c)
    ensures LexLE(a, c)
  {
    if a != [] && a[0] == b[0] == c[0] {
      LexTransitive(a[1..], b[1..], c[1..]);
    }
  }

  lemma OrdersAreTotal()
    ensures TotalOrder(INT_ORDER) && TotalOrder(STRING_ORDER)
  {
    forall a: string, b: string
      ensures STRING_ORDER(a, b) || STRING_ORDER(b, a)
      ensures STRING_ORDER(a, b) && STRING_ORDER(b, a) ==> a == b
    {
      LexTotal(a, b);
    }
    forall a: string, b: string, c: string | STRING_ORDER(a, b) && STRING_ORDER(b, c) ensures STRING_ORDER(a, c) {
      LexTransitive(a, b, c);
    }
  }
}
