/** What one epoch of requests amounts to when the requests are independent: a fixed list of
    server operations and a fixed list of local changes. */
module Expansion {
  import opened Protocol
  import opened SimpleBackend
  import opened Sequences

  ghost function Effects<S, L, D, T>(W: World<S, L, D, T>): (Cmd<D>, S) -> S
  {
    (c: Cmd<D>, x: S) => W.effect(c.text, x)
  }

  ghost predicate TouchesAgree<S, L(!new), D, T>(W: World<S, L, D, T>, y: T, z: T)
  {
    forall l :: W.touch(y, W.touch(z, l)) == W.touch(z, W.touch(y, l)) && W.touch(y, W.touch(y, l)) == W.touch(y, l)
  }

  ghost predicate Steady<S(!new), L, D(!new), T>(W: World<S, L, D, T>, k: Cmd<D> -> bool, g: S -> bool)
  {
    forall c, d, x :: k(c) && k(d) && g(x) ==> Acts(W, c, W.effect(d.text, x)) == Acts(W, c, x)
  }

  ghost predicate SpawnsWithin<S(!new), L, D(!new), T(!new)>(W: World<S, L, D, T>, k: Cmd<D> -> bool, g: S -> bool)
  {
    forall c, x, a :: k(c) && g(x) && a in Acts(W, c, x) && a.Request? ==>
                        k(Cmd(a.text, a.data)) && Idempotent(Effects(W), g, Cmd(a.text, a.data))
  }

  ghost predicate LocalAgree<S(!new), L(!new), D(!new), T(!new)>(W: World<S, L, D, T>, k: Cmd<D> -> bool, g: S -> bool)
  {
    forall c, d, x, y, z :: k(c) && k(d) && g(x) && Touch(y) in Acts(W, c, x) && Touch(z) in Acts(W, d, x) ==> TouchesAgree(W, y, z)
  }

  /** The requests `k` of one epoch do not disturb each other on the stores `g`: their effects on
      the server commute; no effect changes what another's (or its own) callback has to do;
      what callbacks request is again in `k` and may be repeated; what callbacks do locally
      commutes and may be repeated; and equal texts come with equal packets. */
  ghost predicate Independent<S(!new), L(!new), D(!new), T(!new)>(W: World<S, L, D, T>, k: Cmd<D> -> bool, g: S -> bool)
  {
    && Commuting(Effects(W), k, g) && Steady(W, k, g) && SpawnsWithin(W, k, g) && LocalAgree(W, k, g)
    && forall c, d :: k(c) && k(d) && c.text == d.text ==> c == d
  }

  lemma {:induction false} ActsUndisturbed<S(!new), L(!new), D(!new), T(!new)>(
    W: World<S, L, D, T>, k: Cmd<D> -> bool, g: S -> bool, u: seq<Cmd<D>>, x: S)
    requires Independent(W, k, g) && Within(u, k) && g(x)
    ensures g(Fold(Effects(W), u, x))
    ensures forall c :: k(c) ==> Acts(W, c, Fold(Effects(W), u, x)) == Acts(W, c, x)
  {
    if u != [] {
      assert Effects(W)(u[0], x) == W.effect(u[0].text, x);
      ActsUndisturbed(W, k, g, u[1..], W.effect(u[0].text, x));
    }
  }

  /** `c` and all requests its callbacks lead to, answered from the store `x`. */
  ghost function Expand<S, L, D(!new), T>(W: World<S, L, D, T>, c: Cmd<D>, x: S): seq<Cmd<D>>
    requires CallbacksFit(W)
    decreases W.rank(c.data), 1, 0
  {
    [c] + ExpandActs(W, c.data, Acts(W, c, x), x)
  }

  ghost function ExpandActs<S, L, D(!new), T>(W: World<S, L, D, T>, d: D, acts: seq<Act<D, T>>, x: S): seq<Cmd<D>>
    requires CallbacksFit(W) && TodoFits(W, d, acts)
    decreases W.rank(d), 0, |acts|
  {
    if acts == [] then []
    else (if acts[0].Request? then Expand(W, Cmd(acts[0].text, acts[0].data), x) else []) + ExpandActs(W, d, acts[1..], x)
  }

  /** The local changes made by the callbacks of `c` and of the requests it leads to. */
  ghost function Touches<S, L, D(!new), T>(W: World<S, L, D, T>, c: Cmd<D>, x: S): seq<T>
    requires CallbacksFit(W)
    decreases W.rank(c.data), 1, 0
  {
    TouchActs(W, c.data, Acts(W, c, x), x)
  }

  ghost function TouchActs<S, L, D(!new), T>(W: World<S, L, D, T>, d: D, acts: seq<Act<D, T>>, x: S): seq<T>
    requires CallbacksFit(W) && TodoFits(W, d, acts)
    decreases W.rank(d), 0, |acts|
  {
    if acts == [] then []
    else (match acts[0]
          case Touch(y) => [y]
          case Request(text, _, data) => Touches(W, Cmd(text, data), x)) + TouchActs(W, d, acts[1..], x)
  }

  // ---- the simple backend does exactly that ----

  ghost predicate RequestsIn<D, T>(acts: seq<Act<D, T>>, k: Cmd<D> -> bool)
  {
    forall a <- acts :: a.Request? ==> k(Cmd(a.text, a.data))
  }

  /** A store that requests of the epoch lead to from `x`. */
  ghost predicate LedTo<S, L, D(!new), T>(W: World<S, L, D, T>, k: Cmd<D> -> bool, x: S, y: S)
  {
    exists u :: Within(u, k) && y == Fold(Effects(W), u, x)
  }

  lemma LedFurther<S, L, D(!new), T>(W: World<S, L, D, T>, k: Cmd<D> -> bool, x: S, y: S, v: seq<Cmd<D>>)
    requires LedTo(W, k, x, y) && Within(v, k)
    ensures LedTo(W, k, x, Fold(Effects(W), v, y))
  {
    var u :| Within(u, k) && y == Fold(Effects(W), u, x);
    FoldAppend(Effects(W), u, v, x);
    assert Within(u + v, k);
  }

  lemma SameActs<S(!new), L(!new), D(!new), T(!new)>(W: World<S, L, D, T>, k: Cmd<D> -> bool, g: S -> bool, c: Cmd<D>, x: S, y: S)
    requires Independent(W, k, g) && g(x) && k(c) && LedTo(W, k, x, y)
    ensures Acts(W, c, y) == Acts(W, c, x) && RequestsIn(Acts(W, c, x), k)
  {
    var u :| Within(u, k) && y == Fold(Effects(W), u, x);
    ActsUndisturbed(W, k, g, u, x);
  }

  ghost predicate Calm<S(!new), L(!new), D(!new), T(!new)>(W: World<S, L, D, T>, k: Cmd<D> -> bool, x: S)
  {
    exists g :: Independent(W, k, g) && g(x)
  }

  lemma CalmActs<S(!new), L(!new), D(!new), T(!new)>(W: World<S, L, D, T>, k: Cmd<D> -> bool, c: Cmd<D>, x: S, y: S)
    requires Calm(W, k, x) && k(c) && LedTo(W, k, x, y)
    ensures Acts(W, c, y) == Acts(W, c, x) && RequestsIn(Acts(W, c, x), k)
  {
    var g :| Independent(W, k, g) && g(x);
    SameActs(W, k, g, c, x, y);
  }

  lemma {:induction false} SimpleRequestExpands<S(!new), L(!new), D(!new), T(!new)>(
    W: World<S, L, D, T>, k: Cmd<D> -> bool, c: Cmd<D>, x: S, y: S, l: L)
    requires CallbacksFit(W) && Calm(W, k, x) && LedTo(W, k, x, y) && k(c)
    ensures Within(Expand(W, c, x), k)
    ensures SimpleRequest(W, c, Both(y, l)) == Both(Fold(Effects(W), Expand(W, c, x), y), Fold(W.touch, Touches(W, c, x), l))
    decreases W.rank(c.data), 1, 0
  {
    CalmActs(W, k, c, x, y);
    LedFurther(W, k, x, y, [c]);
    assert Fold(Effects(W), [c], y) == W.effect(c.text, y);
    SimpleActsExpand(W, k, c.data, Acts(W, c, x), x, W.effect(c.text, y), l);
    FoldAppend(Effects(W), [c], ExpandActs(W, c.data, Acts(W, c, x), x), y);
  }

  lemma {:induction false} SimpleActsExpand<S(!new), L(!new), D(!new), T(!new)>(
    W: World<S, L, D, T>, k: Cmd<D> -> bool, d: D, acts: seq<Act<D, T>>, x: S, y: S, l: L)
    requires CallbacksFit(W) && TodoFits(W, d, acts)
    requires Calm(W, k, x) && LedTo(W, k, x, y) && RequestsIn(acts, k)
    ensures Within(ExpandActs(W, d, acts, x), k)
    ensures SimpleActs(W, d, acts, Both(y, l))
         == Both(Fold(Effects(W), ExpandActs(W, d, acts, x), y), Fold(W.touch, TouchActs(W, d, acts, x), l))
    decreases W.rank(d), 0, |acts|
  {
    if acts != [] {
      assert acts[0] in acts;
      match acts[0]
      case Touch(z) =>
        SimpleActsExpand(W, k, d, acts[1..], x, y, W.touch(z, l));
        assert ExpandActs(W, d, acts, x) == ExpandActs(W, d, acts[1..], x);
        FoldAppend(W.touch, [z], TouchActs(W, d, acts[1..], x), l);
      case Request(text, noreply, data) =>
        var c := Cmd(text, data);
        var v, t := Expand(W, c, x), Touches(W, c, x);
        SimpleRequestExpands(W, k, c, x, y, l);
        LedFurther(W, k, x, y, v);
        SimpleActsExpand(W, k, d, acts[1..], x, Fold(Effects(W), v, y), Fold(W.touch, t, l));
        FoldAppend(Effects(W), v, ExpandActs(W, d, acts[1..], x), y);
        FoldAppend(W.touch, t, TouchActs(W, d, acts[1..], x), l);
    }
  }

  ghost function ExpandAll<S, L, D(!new), T>(W: World<S, L, D, T>, cs: seq<Cmd<D>>, x: S): seq<Cmd<D>>
    requires CallbacksFit(W)
  {
    if cs == [] then [] else Expand(W, cs[0], x) + ExpandAll(W, cs[1..], x)
  }

  ghost function TouchesAll<S, L, D(!new), T>(W: World<S, L, D, T>, cs: seq<Cmd<D>>, x: S): seq<T>
    requires CallbacksFit(W)
  {
    if cs == [] then [] else Touches(W, cs[0], x) + TouchesAll(W, cs[1..], x)
  }

  /** Requests in program order, without barriers. */
  ghost function SimpleCalls<S, L, D(!new), T>(W: World<S, L, D, T>, cs: seq<Cmd<D>>, b: Both<S, L>): Both<S, L>
    requires CallbacksFit(W)
  {
    if cs == [] then b else SimpleCalls(W, cs[1..], SimpleRequest(W, cs[0], b))
  }

  lemma {:induction false} SimpleCallsAppend<S, L, D(!new), T>(W: World<S, L, D, T>, a: seq<Cmd<D>>, c: seq<Cmd<D>>, b: Both<S, L>)
    requires CallbacksFit(W)
    ensures SimpleCalls(W, a + c, b) == SimpleCalls(W, c, SimpleCalls(W, a, b))
  {
    if a == [] {
      assert a + c == c;
    } else {
      assert (a + c)[1..] == a[1..] + c;
      SimpleCallsAppend(W, a[1..], c, SimpleRequest(W, a[0], b));
    }
  }

  lemma {:induction false} SimpleCallsExpand<S(!new), L(!new), D(!new), T(!new)>(
    W: World<S, L, D, T>, k: Cmd<D> -> bool, cs: seq<Cmd<D>>, x: S, y: S, l: L)
    requires CallbacksFit(W) && Calm(W, k, x) && LedTo(W, k, x, y) && Within(cs, k)
    ensures Within(ExpandAll(W, cs, x), k)
    ensures SimpleCalls(W, cs, Both(y, l))
         == Both(Fold(Effects(W), ExpandAll(W, cs, x), y), Fold(W.touch, TouchesAll(W, cs, x), l))
  {
    if cs != [] {
      var v, t := Expand(W, cs[0], x), Touches(W, cs[0], x);
      assert cs[0] in cs;
      SimpleRequestExpands(W, k, cs[0], x, y, l);
      LedFurther(W, k, x, y, v);
      SimpleCallsExpand(W, k, cs[1..], x, Fold(Effects(W), v, y), Fold(W.touch, t, l));
      FoldAppend(Effects(W), v, ExpandAll(W, cs[1..], x), y);
      FoldAppend(W.touch, t, TouchesAll(W, cs[1..], x), l);
    }
  }

  // ---- what the expansion contains ----

  /** `m` contains every request that the callbacks of its members make. */
  ghost predicate Closed<S, L, D, T(!new)>(W: World<S, L, D, T>, m: seq<Cmd<D>>, x: S)
  {
    forall c, a :: c in m && a in Acts(W, c, x) && a.Request? ==> Cmd(a.text, a.data) in m
  }

  lemma {:induction false} ExpandClosed<S, L, D(!new), T(!new)>(W: World<S, L, D, T>, c: Cmd<D>, x: S)
    requires CallbacksFit(W)
    ensures Closed(W, Expand(W, c, x), x)
    ensures forall y :: y in Touches(W, c, x) <==> exists e <- Expand(W, c, x) :: Touch(y) in Acts(W, e, x)
    decreases W.rank(c.data), 1, 0
  {
    ExpandActsClosed(W, c.data, Acts(W, c, x), x);
  }

  lemma {:induction false} ExpandActsClosed<S, L, D(!new), T(!new)>(W: World<S, L, D, T>, d: D, acts: seq<Act<D, T>>, x: S)
    requires CallbacksFit(W) && TodoFits(W, d, acts)
    ensures Closed(W, ExpandActs(W, d, acts, x), x)
    ensures forall a <- acts :: a.Request? ==> Cmd(a.text, a.data) in ExpandActs(W, d, acts, x)
    ensures forall y :: y in TouchActs(W, d, acts, x)
                        <==> Touch(y) in acts || exists e <- ExpandActs(W, d, acts, x) :: Touch(y) in Acts(W, e, x)
    decreases W.rank(d), 0, |acts|
  {
    if acts != [] {
      assert acts[0] in acts;
      assert acts == [acts[0]] + acts[1..];
      ExpandActsClosed(W, d, acts[1..], x);
      if acts[0].Request? {
        ExpandClosed(W, Cmd(acts[0].text, acts[0].data), x);
      }
    }
  }

  lemma {:induction false} ExpandAllClosed<S, L, D(!new), T(!new)>(W: World<S, L, D, T>, cs: seq<Cmd<D>>, x: S)
    requires CallbacksFit(W)
    ensures Closed(W, ExpandAll(W, cs, x), x)
    ensures forall c <- cs :: c in ExpandAll(W, cs, x)
    ensures forall y :: y in TouchesAll(W, cs, x) <==> exists e <- ExpandAll(W, cs, x) :: Touch(y) in Acts(W, e, x)
  {
    if cs != [] {
      ExpandClosed(W, cs[0], x);
      ExpandAllClosed(W, cs[1..], x);
    }
  }

  /** A closed collection with the clients' requests contains the whole expansion. */
  lemma {:induction false} ExpandLeast<S, L, D(!new), T(!new)>(W: World<S, L, D, T>, c: Cmd<D>, x: S, m: seq<Cmd<D>>)
    requires CallbacksFit(W) && Closed(W, m, x) && c in m
    ensures forall e <- Expand(W, c, x) :: e in m
    decreases W.rank(c.data), 1, 0
  {
    ExpandActsLeast(W, c.data, Acts(W, c, x), x, m);
  }

  lemma {:induction false} ExpandActsLeast<S, L, D(!new), T(!new)>(W: World<S, L, D, T>, d: D, acts: seq<Act<D, T>>, x: S, m: seq<Cmd<D>>)
    requires CallbacksFit(W) && TodoFits(W, d, acts) && Closed(W, m, x) && RequestsIn(acts, c => c in m)
    ensures forall e <- ExpandActs(W, d, acts, x) :: e in m
    decreases W.rank(d), 0, |acts|
  {
    if acts != [] {
      assert acts[0] in acts;
      if acts[0].Request? {
        ExpandLeast(W, Cmd(acts[0].text, acts[0].data), x, m);
      }
      ExpandActsLeast(W, d, acts[1..], x, m);
    }
  }

  lemma {:induction false} ExpandAllLeast<S, L, D(!new), T(!new)>(W: World<S, L, D, T>, cs: seq<Cmd<D>>, x: S, m: seq<Cmd<D>>)
    requires CallbacksFit(W) && Closed(W, m, x) && forall c <- cs :: c in m
    ensures forall e <- ExpandAll(W, cs, x) :: e in m
  {
    if cs != [] {
      ExpandLeast(W, cs[0], x, m);
      ExpandAllLeast(W, cs[1..], x, m);
    }
  }

  /** A request that must not be repeated occurs in the expansion as often as the client made it. */
  lemma {:induction false} ExpandCount<S(!new), L(!new), D(!new), T(!new)>(
    W: World<S, L, D, T>, k: Cmd<D> -> bool, g: S -> bool, c: Cmd<D>, x: S, b: Cmd<D>)
    requires CallbacksFit(W) && Independent(W, k, g) && g(x) && k(c) && !Idempotent(Effects(W), g, b)
    ensures multiset(Expand(W, c, x))[b] == if c == b then 1 else 0
    decreases W.rank(c.data), 1, 0
  {
    ExpandActsCount(W, k, g, c.data, Acts(W, c, x), x, b);
  }

  lemma {:induction false} ExpandActsCount<S(!new), L(!new), D(!new), T(!new)>(
    W: World<S, L, D, T>, k: Cmd<D> -> bool, g: S -> bool, d: D, acts: seq<Act<D, T>>, x: S, b: Cmd<D>)
    requires CallbacksFit(W) && TodoFits(W, d, acts) && Independent(W, k, g) && g(x) && !Idempotent(Effects(W), g, b)
    requires forall a <- acts :: a.Request? ==> k(Cmd(a.text, a.data)) && Idempotent(Effects(W), g, Cmd(a.text, a.data))
    ensures multiset(ExpandActs(W, d, acts, x))[b] == 0
    decreases W.rank(d), 0, |acts|
  {
    if acts != [] {
      assert acts[0] in acts;
      if acts[0].Request? {
        ExpandCount(W, k, g, Cmd(acts[0].text, acts[0].data), x, b);
      }
      ExpandActsCount(W, k, g, d, acts[1..], x, b);
    }
  }

  lemma {:induction false} ExpandAllCount<S(!new), L(!new), D(!new), T(!new)>(
    W: World<S, L, D, T>, k: Cmd<D> -> bool, g: S -> bool, cs: seq<Cmd<D>>, x: S, b: Cmd<D>)
    requires CallbacksFit(W) && Independent(W, k, g) && g(x) && Within(cs, k) && !Idempotent(Effects(W), g, b)
    ensures multiset(ExpandAll(W, cs, x))[b] == multiset(cs)[b]
  {
    if cs != [] {
      assert cs == [cs[0]] + cs[1..];
      ExpandCount(W, k, g, cs[0], x, b);
      ExpandAllCount(W, k, g, cs[1..], x, b);
    }
  }
}
