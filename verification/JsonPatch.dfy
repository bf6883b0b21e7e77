/** JSON documents, JSON Pointer (RFC 6901) and the two JSON Patch operations the webhook uses (RFC 6902). */
module JsonPatch {
  import opened Options
  import opened GoStrings

  datatype Json =
    | Null
    | Bool(b: bool)
    | Num(n: int)
    | Str(s: string)
    | Arr(items: seq<Json>)
    | Obj(fields: map<string, Json>)

  datatype Operation =
    | Add(path: string, value: Json)
    | Replace(path: string, value: Json)

  /** strings.ReplaceAll for a pattern of one character. */
  function ReplaceChar(s: string, c: char, sub: string): string {
    if s == [] then []
    else (if s[0] == c then sub else [s[0]]) + ReplaceChar(s[1..], c, sub)
  }

  /** escapeJSONPointer. */
  function Escape(key: string): string {
    ReplaceChar(ReplaceChar(key, '~', "~0"), '/', "~1")
  }

  /** Replaces every occurrence of the two characters a and b in a row, left to right. */
  function ReplacePair(s: string, a: char, b: char, sub: char): string {
    if |s| >= 2 && s[0] == a && s[1] == b then [sub] + ReplacePair(s[2..], a, b, sub)
    else if s == [] then []
    else [s[0]] + ReplacePair(s[1..], a, b, sub)
  }

  /** Section 4 of RFC 6901: first every "~1" becomes "/", then every "~0" becomes "~". */
  function Unescape(token: string): string {
    ReplacePair(ReplacePair(token, '~', '1', '/'), '~', '0', '~')
  }

  function EscapeChar(c: char): string {
    if c == '~' then "~0" else if c == '/' then "~1" else [c]
  }

  function EscapeEach(key: string): string {
    if key == [] then [] else EscapeChar(key[0]) + EscapeEach(key[1..])
  }

  lemma {:induction false} ReplaceCharConcat(s: string, t: string, c: char, sub: string)
    ensures ReplaceChar(s + t, c, sub) == ReplaceChar(s, c, sub) + ReplaceChar(t, c, sub)
  {
    if s == [] {
      assert s + t == t;
    } else {
      assert (s + t)[1..] == s[1..] + t;
      ReplaceCharConcat(s[1..], t, c, sub);
    }
  }

  /** The two passes amount to escaping each character on its own. */
  lemma {:induction false} EscapeIsEach(key: string)
    ensures Escape(key) == EscapeEach(key)
  {
    if key != [] {
      EscapeIsEach(key[1..]);
      var head := if key[0] == '~' then "~0" else [key[0]];
      ReplaceCharConcat(head, ReplaceChar(key[1..], '~', "~0"), '/', "~1");
      if key[0] == '~' {
        assert head[1..] == "0" && "0"[1..] == [];
        assert ReplaceChar("0", '/', "~1") == "0";
        assert ReplaceChar(head, '/', "~1") == "~0";
      } else {
        assert head[1..] == [];
        assert ReplaceChar(head, '/', "~1") == EscapeChar(key[0]);
      }
    }
  }

  lemma {:induction false} FirstPassUndone(key: string)
    ensures ReplacePair(EscapeEach(key), '~', '1', '/') == ReplaceChar(key, '~', "~0")
  {
    if key != [] {
      FirstPassUndone(key[1..]);
      var rest := EscapeEach(key[1..]);
      var s := EscapeEach(key);
      if key[0] == '~' {
        assert s[0] == '~' && s[1] == '0' && s[1..] == "0" + rest && s[1..][1..] == rest;
      } else if key[0] == '/' {
        assert s[2..] == rest;
      } else {
        assert s[1..] == rest;
      }
    }
  }

  lemma {:induction false} SecondPassUndone(key: string)
    ensures ReplacePair(ReplaceChar(key, '~', "~0"), '~', '0', '~') == key
  {
    if key != [] {
      SecondPassUndone(key[1..]);
      var rest := ReplaceChar(key[1..], '~', "~0");
      var s := ReplaceChar(key, '~', "~0");
      if key[0] == '~' {
        assert s[2..] == rest;
      } else {
        assert s[1..] == rest;
      }
    }
  }

  lemma {:induction false} EscapeHidesSlash(key: string)
    ensures '/' !in EscapeEach(key)
  {
    if key != [] {
      EscapeHidesSlash(key[1..]);
    }
  }

  /** An escaped key is one token of a path and decodes to the key. */
  lemma EscapeRoundTrip(key: string)
    ensures Unescape(Escape(key)) == key
    ensures '/' !in Escape(key)
  {
    EscapeIsEach(key);
    FirstPassUndone(key);
    SecondPassUndone(key);
    EscapeHidesSlash(key);
  }

  function UnescapeAll(tokens: seq<string>): seq<string> {
    if tokens == [] then [] else [Unescape(tokens[0])] + UnescapeAll(tokens[1..])
  }

  /** The reference tokens of a pointer: none for "", otherwise it starts with '/'. */
  function Tokens(pointer: string): Option<seq<string>> {
    if pointer == "" then Some([])
    else if pointer[0] != '/' then None
    else Some(UnescapeAll(Split(pointer[1..], '/')))
  }

  /** An array index without leading zeros. */
  function ArrayIndex(token: string): Option<nat> {
    if token == "" || !AllDigits(token) || (|token| > 1 && token[0] == '0') || DigitsValue(token) < 0 then None
    else Some(DigitsValue(token))
  }

  /** Section 4.1 of RFC 6902 below a value: the parent must exist; in an array the value is inserted. */
  function AddAt(doc: Json, tokens: seq<string>, value: Json): Option<Json> {
    if tokens == [] then Some(value)
    else if |tokens| == 1 then
      match doc
      case Obj(fields) => Some(Obj(fields[tokens[0] := value]))
      case Arr(items) =>
        if tokens[0] == "-" then Some(Arr(items + [value]))
        else
          var i := ArrayIndex(tokens[0]);
          if i.Some? && i.value <= |items| then Some(Arr(items[..i.value] + [value] + items[i.value..])) else None
      case _ => None
    else
      var child := Child(doc, tokens[0]);
      if child.None? then None
      else
        var changed := AddAt(child.value, tokens[1..], value);
        if changed.None? then None else Some(WithChild(doc, tokens[0], changed.value))
  }

  /** Section 4.3 of RFC 6902: the target must exist. */
  function ReplaceAt(doc: Json, tokens: seq<string>, value: Json): Option<Json> {
    if tokens == [] then Some(value)
    else
      var child := Child(doc, tokens[0]);
      if child.None? then None
      else
        var changed := ReplaceAt(child.value, tokens[1..], value);
        if changed.None? then None else Some(WithChild(doc, tokens[0], changed.value))
  }

  function Child(doc: Json, token: string): Option<Json> {
    match doc
    case Obj(fields) => if token in fields then Some(fields[token]) else None
    case Arr(items) =>
      var i := ArrayIndex(token);
      if i.Some? && i.value < |items| then Some(items[i.value]) else None
    case _ => None
  }

  function WithChild(doc: Json, token: string, child: Json): Json
    requires Child(doc, token).Some?
  {
    match doc
    case Obj(fields) => Obj(fields[token := child])
    case Arr(items) => Arr(items[ArrayIndex(token).value := child])
    case _ => doc
  }

  function Apply(doc: Json, op: Operation): Option<Json> {
    var tokens := Tokens(op.path);
    if tokens.None? then None
    else if op.Add? then AddAt(doc, tokens.value, op.value)
    else ReplaceAt(doc, tokens.value, op.value)
  }

  /** A patch is applied in order and fails as a whole when one operation fails. */
  function ApplyAll(doc: Json, ops: seq<Operation>): Option<Json>
    decreases |ops|
  {
    if ops == [] then Some(doc)
    else
      var next := Apply(doc, ops[0]);
      if next.None? then None else ApplyAll(next.value, ops[1..])
  }

  lemma {:induction false} ApplyAllConcat(doc: Json, xs: seq<Operation>, ys: seq<Operation>)
    ensures ApplyAll(doc, xs + ys)
            == if ApplyAll(doc, xs).None? then None else ApplyAll(ApplyAll(doc, xs).value, ys)
    decreases |xs|
  {
    if xs == [] {
      assert xs + ys == ys;
    } else {
      assert (xs + ys)[1..] == xs[1..] + ys;
      if Apply(doc, xs[0]).Some? {
        ApplyAllConcat(Apply(doc, xs[0]).value, xs[1..], ys);
      }
    }
  }

  lemma PlainToken(token: string)
    requires '~' !in token
    ensures Unescape(token) == token
  {
    PlainPair(token, '1', '/');
    PlainPair(token, '0', '~');
  }

  lemma {:induction false} PlainPair(s: string, b: char, sub: char)
    requires '~' !in s
    ensures ReplacePair(s, '~', b, sub) == s
  {
    if s != [] {
      PlainPair(s[1..], b, sub);
    }
  }

  /** A pointer made of plain tokens and one escaped key. */
  lemma TokensOfMember(a: string, b: string, key: string)
    requires '/' !in a && '~' !in a && '/' !in b && '~' !in b
    ensures Tokens("/" + a + "/" + b + "/" + Escape(key)) == Some([a, b, key])
  {
    hide Escape, Unescape, Split;
    EscapeRoundTrip(key);
    var last := Escape(key);
    var pointer := "/" + a + "/" + b + "/" + last;
    assert pointer[1..] == a + "/" + (b + "/" + last);
    SplitPrefix(a, b + "/" + last, '/');
    SplitPrefix(b, last, '/');
    SplitWhole(last, '/');
    PlainToken(a);
    PlainToken(b);
    assert Split(pointer[1..], '/') == [a, b, last];
    assert [a, b, last][1..] == [b, last] && [b, last][1..] == [last] && [last][1..] == [];
    assert UnescapeAll([last]) == [key];
    assert UnescapeAll([b, last]) == [b, key];
    assert UnescapeAll([a, b, last]) == [a, b, key];
    assert pointer[0] == '/';
  }

  lemma TokensOfTwo(a: string, b: string)
    requires '/' !in a && '~' !in a && '/' !in b && '~' !in b
    ensures Tokens("/" + a + "/" + b) == Some([a, b])
  {
    var pointer := "/" + a + "/" + b;
    assert pointer[1..] == a + "/" + b;
    SplitPrefix(a, b, '/');
    SplitWhole(b, '/');
    PlainToken(a);
    PlainToken(b);
    assert Split(pointer[1..], '/') == [a, b];
    assert [a, b][1..] == [b] && [b][1..] == [];
    assert UnescapeAll([b]) == [b];
  }
}
