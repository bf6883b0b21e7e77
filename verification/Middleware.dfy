/**
 The two ways the sidecars compose request handlers.

 A handler runs in some world S (connection context and middleware state) and answers with a new world and a
 result R. It is given the rest of the chain as a function and may run it any number of times.
 */
module Middleware {
  type Next<!S, !R> = S -> (S, R)
  type Handler<!S, !R> = (Next<S, R>, S) -> (S, R)

  /** chainHandler.dispatch: run the handlers from position index on, then next. */
  function Dispatch<S, R>(handlers: seq<Handler<S, R>>, index: nat, next: Next<S, R>, s: S): (S, R)
    decreases |handlers| - index
  {
    if index >= |handlers| then next(s)
    else handlers[index](s' => Dispatch(handlers, index + 1, next, s'), s)
  }

  /** The handler that domain.Chain(handlers...) returns. */
  function Chain<S, R>(handlers: seq<Handler<S, R>>): Handler<S, R> {
    (next: Next<S, R>, s: S) => Dispatch(handlers, 0, next, s)
  }

  /** The reference meaning of a chain: its handlers nested around next, the first one outermost. */
  function Nest<S, R>(handlers: seq<Handler<S, R>>, next: Next<S, R>): Next<S, R> {
    if handlers == [] then next
    else s => handlers[0](Nest(handlers[1..], next), s)
  }

  ghost predicate Same<S(!new), R(!new)>(a: Next<S, R>, b: Next<S, R>) {
    forall s :: a(s) == b(s)
  }

  /** All a handler can do with next is run it: continuations that agree everywhere give the same answer. */
  ghost predicate OnlyCallsNext<S(!new), R(!new)>(h: Handler<S, R>) {
    forall a, b, s :: Same(a, b) ==> h(a, s) == h(b, s)
  }

  ghost predicate OnlyCallNext<S(!new), R(!new)>(handlers: seq<Handler<S, R>>) {
    forall i :: 0 <= i < |handlers| ==> OnlyCallsNext(handlers[i])
  }

  lemma {:induction false} DispatchSuffix<S(!new), R(!new)>(
    handlers: seq<Handler<S, R>>, index: nat, next: Next<S, R>, s: S)
    requires OnlyCallNext(handlers) && index <= |handlers|
    ensures Dispatch(handlers, index, next, s) == Nest(handlers[index..], next)(s)
    decreases |handlers| - index
  {
    if index < |handlers| {
      var rest: Next<S, R> := s' => Dispatch(handlers, index + 1, next, s');
      forall s' ensures rest(s') == Nest(handlers[index + 1..], next)(s') {
        DispatchSuffix(handlers, index + 1, next, s');
      }
      assert handlers[index..][0] == handlers[index] && handlers[index..][1..] == handlers[index + 1..];
      assert OnlyCallsNext(handlers[index]);
      assert Same(rest, Nest(handlers[index + 1..], next));
    }
  }

  /** Dispatch by index means nesting, for handlers that run the rest of the chain any number of times. */
  lemma DispatchIsNest<S(!new), R(!new)>(handlers: seq<Handler<S, R>>, next: Next<S, R>)
    requires OnlyCallNext(handlers)
    ensures Same(s => Dispatch(handlers, 0, next, s), Nest(handlers, next))
  {
    forall s ensures Dispatch(handlers, 0, next, s) == Nest(handlers, next)(s) {
      DispatchSuffix(handlers, 0, next, s);
      assert handlers[0..] == handlers;
    }
  }

  lemma {:induction false} NestConcat<S(!new), R(!new)>(
    xs: seq<Handler<S, R>>, ys: seq<Handler<S, R>>, next: Next<S, R>)
    requires OnlyCallNext(xs)
    ensures Same(Nest(xs + ys, next), Nest(xs, Nest(ys, next)))
  {
    if xs == [] {
      assert xs + ys == ys;
    } else {
      assert (xs + ys)[1..] == xs[1..] + ys;
      NestConcat(xs[1..], ys, next);
      assert OnlyCallsNext(xs[0]);
    }
  }

  lemma {:induction false} NestRespects<S(!new), R(!new)>(
    handlers: seq<Handler<S, R>>, a: Next<S, R>, b: Next<S, R>)
    requires OnlyCallNext(handlers) && Same(a, b)
    ensures Same(Nest(handlers, a), Nest(handlers, b))
  {
    if handlers != [] {
      NestRespects(handlers[1..], a, b);
      assert OnlyCallsNext(handlers[0]);
    }
  }

  /** A chain of such handlers is such a handler, so chains may be used as links of longer chains. */
  lemma ChainOnlyCallsNext<S(!new), R(!new)>(handlers: seq<Handler<S, R>>)
    requires OnlyCallNext(handlers)
    ensures OnlyCallsNext(Chain(handlers))
  {
    forall a, b, s | Same(a, b) ensures Chain(handlers)(a, s) == Chain(handlers)(b, s) {
      DispatchIsNest(handlers, a);
      DispatchIsNest(handlers, b);
      NestRespects(handlers, a, b);
      assert Dispatch(handlers, 0, a, s) == (s => Dispatch(handlers, 0, a, s))(s);
      assert Dispatch(handlers, 0, b, s) == (s => Dispatch(handlers, 0, b, s))(s);
    }
  }

  /** Splitting a chain into two chains, one inside the other, changes nothing. */
  lemma ChainOfChains<S(!new), R(!new)>(
    xs: seq<Handler<S, R>>, ys: seq<Handler<S, R>>, next: Next<S, R>, s: S)
    requires OnlyCallNext(xs) && OnlyCallNext(ys)
    ensures Chain(xs + ys)(next, s) == Chain([Chain(xs), Chain(ys)])(next, s)
  {
    var inner: Next<S, R> := s' => Dispatch(ys, 0, next, s');
    var two := [Chain(xs), Chain(ys)];
    ChainOnlyCallsNext(xs);
    ChainOnlyCallsNext(ys);
    DispatchSuffix(two, 0, next, s);
    assert two[0..] == two && two[1..] == [Chain(ys)] && [Chain(ys)][1..] == [];
    forall s' ensures Nest(two[1..], next)(s') == inner(s') {
      assert Nest([Chain(ys)], next)(s') == Chain(ys)(Nest([Chain(ys)][1..], next), s');
      assert Nest([Chain(ys)][1..], next) == next;
    }
    assert Same(Nest(two[1..], next), inner);
    assert Chain(two)(next, s) == Chain(xs)(inner, s);
    DispatchIsNest(ys, next);
    DispatchSuffix(xs + ys, 0, next, s);
    assert (xs + ys)[0..] == xs + ys;
    NestConcat(xs, ys, next);
    NestRespects(xs, inner, Nest(ys, next));
    DispatchSuffix(xs, 0, inner, s);
    assert xs[0..] == xs;
  }

  /** What middleware.Wrap builds: the first middleware outermost. */
  function Wrapped<H>(h: H, middlewares: seq<H -> H>): H {
    if middlewares == [] then h
    else middlewares[0](Wrapped(h, middlewares[1..]))
  }

  /** Wrap: the backward loop that reassigns h. */
  method Wrap<H>(h: H, middlewares: seq<H -> H>) returns (r: H)
    ensures r == Wrapped(h, middlewares)
  {
    r := h;
    assert middlewares[|middlewares|..] == [];
    for i := |middlewares| downto 0
      invariant r == Wrapped(h, middlewares[i..])
    {
      assert middlewares[i..][1..] == middlewares[i + 1..];
      r := middlewares[i](r);
    }
    assert middlewares[0..] == middlewares;
  }

  /** No middleware leaves a handler as it is and one is applied; wrapping in two goes nests the second group inside. */
  lemma {:induction false} WrapConcat<H>(h: H, m: H -> H, xs: seq<H -> H>, ys: seq<H -> H>)
    ensures Wrapped(h, []) == h && Wrapped(h, [m]) == m(h)
    ensures Wrapped(h, xs + ys) == Wrapped(Wrapped(h, ys), xs)
  {
    assert [m][1..] == [];
    if xs == [] {
      assert xs + ys == ys;
    } else {
      assert (xs + ys)[1..] == xs[1..] + ys;
      WrapConcat(h, m, xs[1..], ys);
    }
  }
}
