/** Classified errors of the sidecar: one kind per chain, chosen by the first classified link. */
module Errors {
  import opened Options

  type OtherKind = name: string | name !in {"dial", "tls", "timeout", "proxy", "discovery", "breaker_open"}
    witness "other kind"

  /** The kinds the sidecar declares, and any other string used as one. */
  datatype Kind = Dial | TLS | Timeout | Proxy | Discovery | BreakerOpen | Undeclared(name: OtherKind)

  function KindText(kind: Kind): string {
    match kind
    case Dial => "dial"
    case TLS => "tls"
    case Timeout => "timeout"
    case Proxy => "proxy"
    case Discovery => "discovery"
    case BreakerOpen => "breaker_open"
    case Undeclared(name) => name
  }

  /**
   A Go error chain. Tagged is *SidecarError. Foreign is any other error: its full message, whether it is
   context.DeadlineExceeded, the answer of Timeout() when it is a net.Error, and the error it wraps.
   */
  datatype Error =
    | Tagged(kind: Kind, cause: Error)
    | Foreign(text: string, deadline: bool, netTimeout: Option<bool>, inner: Option<Error>)

  type Failure = Option<Error>

  /** The kind errors.As finds: that of the first Tagged link. */
  function KindOf(e: Error): Option<Kind> {
    match e
    case Tagged(kind, _) => Some(kind)
    case Foreign(_, _, _, Some(inner)) => KindOf(inner)
    case Foreign(_, _, _, None) => None
  }

  function Wrap(kind: Kind, err: Failure): Failure {
    if err.None? then None
    else if KindOf(err.value).Some? then err
    else Some(Tagged(kind, err.value))
  }

  predicate IsKind(err: Failure, kind: Kind) {
    err.Some? && KindOf(err.value) == Some(kind)
  }

  predicate IsEstablish(err: Failure) {
    IsKind(err, Dial) || IsKind(err, TLS) || IsKind(err, Timeout) || IsKind(err, BreakerOpen)
  }

  function Normalize(err: Failure): string {
    if IsKind(err, Timeout) then KindText(Timeout)
    else if IsKind(err, TLS) then KindText(TLS)
    else if IsKind(err, Discovery) then KindText(Discovery)
    else if IsKind(err, BreakerOpen) then KindText(BreakerOpen)
    else if IsKind(err, Dial) then KindText(Dial)
    else if IsKind(err, Proxy) then KindText(Proxy)
    else "unknown"
  }

  /** errors.Is(err, context.DeadlineExceeded). */
  predicate IsDeadline(e: Error) {
    match e
    case Tagged(_, cause) => IsDeadline(cause)
    case Foreign(_, deadline, _, inner) => deadline || (inner.Some? && IsDeadline(inner.value))
  }

  /** The first net.Error of the chain answers whether the failure is a timeout. */
  predicate IsNetTimeout(e: Error) {
    match e
    case Tagged(_, cause) => IsNetTimeout(cause)
    case Foreign(_, _, Some(timeout), _) => timeout
    case Foreign(_, _, None, inner) => inner.Some? && IsNetTimeout(inner.value)
  }

  function Message(e: Error): string {
    match e
    case Tagged(kind, cause) => KindText(kind) + ": " + Message(cause)
    case Foreign(text, _, _, _) => text
  }

  function LowerChar(c: char): char {
    if 'A' <= c <= 'Z' then (c as int + 32) as char else c
  }

  /** strings.Contains. */
  predicate Contains(s: string, part: string) {
    part <= s || (s != [] && Contains(s[1..], part))
  }

  predicate MentionsTLS(e: Error) {
    Contains(seq(|Message(e)|, i requires 0 <= i < |Message(e)| => LowerChar(Message(e)[i])), "tls")
  }

  function ClassifyDial(err: Failure): Failure {
    if err.None? then None
    else if IsDeadline(err.value) then Wrap(Timeout, err)
    else if IsNetTimeout(err.value) then Wrap(Timeout, err)
    else if MentionsTLS(err.value) then Wrap(TLS, err)
    else Wrap(Dial, err)
  }

  /** A chain keeps the first kind it was given; wrapping again changes nothing. */
  lemma WrapKeepsFirstKind(first: Kind, second: Kind, e: Error)
    ensures Wrap(second, Wrap(first, Some(e))) == Wrap(first, Some(e))
    ensures Wrap(first, Some(e)).Some?
    ensures KindOf(Wrap(first, Some(e)).value) == (if KindOf(e).Some? then KindOf(e) else Some(first))
  {
  }

  /** The label the metrics layer reports decides on its own whether an error is an establish error. */
  lemma NormalizeDecidesEstablish(err: Failure)
    ensures IsEstablish(err) <==> Normalize(err) in {"dial", "tls", "timeout", "breaker_open"}
    ensures Normalize(err) != "unknown" ==> err.Some? && KindOf(err.value).Some?
                                            && KindText(KindOf(err.value).value) == Normalize(err)
  {
    assert "proxy"[0] == 'p' && "unknown"[0] == 'u' && "discovery"[1] == 'i' && "discovery"[2] == 's';
    assert "dial"[2] == 'a' && "tls"[1] == 'l' && "timeout"[0] == 't' && "breaker_open"[0] == 'b';
  }

  /** The labels the metrics know, one for each kind the sidecar declares; everything else is unknown. */
  lemma LabelOfKind(err: Failure)
    ensures Normalize(err)
            == if err.None? || KindOf(err.value).None? then "unknown"
               else match KindOf(err.value).value
                    case Dial => "dial"
                    case TLS => "tls"
                    case Timeout => "timeout"
                    case Proxy => "proxy"
                    case Discovery => "discovery"
                    case BreakerOpen => "breaker_open"
                    case Undeclared(_) => "unknown"
  {
  }

  /**
   A dial failure is an establish error unless it already carried one of the kinds that are not; in particular
   every unclassified library error becomes one.
   */
  lemma ClassifyDialEstablishes(e: Error)
    ensures IsEstablish(ClassifyDial(Some(e))) <==> KindOf(e).None? || IsEstablish(Some(e))
    ensures KindOf(e).Some? ==> ClassifyDial(Some(e)) == Some(e)
  {
  }

  // ---- What the classification means ----

  function Cause(e: Error): (cause: Option<Error>)
    ensures cause.Some? ==> cause.value < e
  {
    match e
    case Tagged(_, cause) => Some(cause)
    case Foreign(_, _, _, inner) => inner
  }

  /** An error and all it wraps, outermost first. */
  function Links(e: Error): (links: seq<Error>)
    ensures links != [] && links[0] == e
    ensures Cause(e).None? ==> |links| == 1
    ensures Cause(e).Some? ==>
              |links| == |Links(Cause(e).value)| + 1
              && forall i :: 0 <= i < |links| - 1 ==> Links(Cause(e).value)[i] == links[i + 1]
  {
    [e] + if Cause(e).Some? then Links(Cause(e).value) else []
  }

  /** The kind of a chain is that of its first tagged link. */
  lemma {:induction false} FirstTagCounts(e: Error, i: nat)
    requires i <= |Links(e)| && (i < |Links(e)| ==> Links(e)[i].Tagged?)
    requires forall j :: 0 <= j < i ==> !Links(e)[j].Tagged?
    ensures KindOf(e) == if i < |Links(e)| then Some(Links(e)[i].kind) else None
  {
    hide Links;
    assert KindOf(e) == if e.Tagged? then Some(e.kind) else if e.inner.Some? then KindOf(e.inner.value) else None;
    if i > 0 && e.inner.Some? {
      FirstTagCounts(e.inner.value, i - 1);
    }
  }

  predicate IsNetError(e: Error) {
    e.Foreign? && e.netTimeout.Some?
  }

  /** Whether a chain is a timeout is what its first net.Error says. */
  lemma {:induction false} FirstNetErrorCounts(e: Error, i: nat)
    requires i <= |Links(e)| && (i < |Links(e)| ==> IsNetError(Links(e)[i]))
    requires forall j :: 0 <= j < i ==> !IsNetError(Links(e)[j])
    ensures IsNetTimeout(e) == (i < |Links(e)| && Links(e)[i].netTimeout.value)
  {
    hide Links;
    assert IsNetTimeout(e) == if IsNetError(e) then e.netTimeout.value
                              else Cause(e).Some? && IsNetTimeout(Cause(e).value);
    if i > 0 && Cause(e).Some? {
      FirstNetErrorCounts(Cause(e).value, i - 1);
    }
  }

  /** Any link may be the deadline. */
  lemma {:induction false} AnyDeadlineCounts(e: Error)
    ensures IsDeadline(e) <==> exists i :: 0 <= i < |Links(e)| && Links(e)[i].Foreign? && Links(e)[i].deadline
  {
    hide Links;
    assert IsDeadline(e) <==> (e.Foreign? && e.deadline) || (Cause(e).Some? && IsDeadline(Cause(e).value));
    assert Links(e)[0] == e;
    if Cause(e).Some? {
      AnyDeadlineCounts(Cause(e).value);
      assert forall i :: 0 < i < |Links(e)| ==> Links(e)[i] == Links(Cause(e).value)[i - 1];
      if i :| 0 <= i < |Links(Cause(e).value)| && Links(Cause(e).value)[i].Foreign?
              && Links(Cause(e).value)[i].deadline {
        assert Links(e)[i + 1] == Links(Cause(e).value)[i];
      }
    }
  }

  predicate PartAt(s: string, part: string, i: int) {
    0 <= i <= |s| - |part| && s[i..i + |part|] == part
  }

  lemma PartShift(s: string, part: string, i: int)
    requires s != []
    ensures i > 0 ==> (PartAt(s, part, i) <==> PartAt(s[1..], part, i - 1))
    ensures PartAt(s, part, 0) <==> part <= s
  {
    if 0 < i <= |s| - |part| {
      assert s[i..i + |part|] == s[1..][i - 1..i - 1 + |part|];
    }
  }

  lemma {:induction false} ContainsMeans(s: string, part: string)
    ensures Contains(s, part) <==> exists i :: PartAt(s, part, i)
  {
    if s == [] {
      assert PartAt(s, part, 0) <==> part <= s;
    } else {
      ContainsMeans(s[1..], part);
      PartShift(s, part, 0);
      if i :| PartAt(s[1..], part, i) {
        PartShift(s, part, i + 1);
      }
      if i :| PartAt(s, part, i) {
        PartShift(s, part, i);
        assert i >= 0;
        assert i > 0 ==> PartAt(s[1..], part, i - 1);
      }
    }
  }

  /** The three letters in a row, in either case. */
  predicate SaysTLSAt(text: string, i: int) {
    0 <= i <= |text| - 3 && text[i] in {'t', 'T'} && text[i + 1] in {'l', 'L'} && text[i + 2] in {'s', 'S'}
  }

  lemma SaysTLSMeans(text: string, i: int)
    ensures SaysTLSAt(text, i)
            <==> PartAt(seq(|text|, j requires 0 <= j < |text| => LowerChar(text[j])), "tls", i)
  {
    var lower := seq(|text|, j requires 0 <= j < |text| => LowerChar(text[j]));
    if 0 <= i <= |text| - 3 {
      assert lower[i..i + 3] == [lower[i], lower[i + 1], lower[i + 2]];
    }
  }

  /** A library error that fails a dial becomes a timeout, else a TLS error if its message says so, else a dial error. */
  lemma ClassifyDialKind(e: Error)
    requires e.Foreign? && KindOf(e).None?
    ensures ClassifyDial(Some(e))
            == Some(Tagged(if IsDeadline(e) || IsNetTimeout(e) then Timeout
                           else if exists i :: SaysTLSAt(e.text, i) then TLS else Dial, e))
  {
    hide Contains, PartAt, SaysTLSAt, LowerChar;
    var lower := seq(|e.text|, i requires 0 <= i < |e.text| => LowerChar(e.text[i]));
    ContainsMeans(lower, "tls");
    forall i ensures SaysTLSAt(e.text, i) <==> PartAt(lower, "tls", i) {
      SaysTLSMeans(e.text, i);
    }
    assert seq(|Message(e)|, i requires 0 <= i < |Message(e)| => LowerChar(Message(e)[i])) == lower;
  }
}
