/** Selecting from sequences, and what permutations leave unchanged. */
module Sequences {

  ghost function Select<A>(s: seq<A>, p: A -> bool): seq<A>
  {
    if s == [] then []
    else Select(s[..|s| - 1], p) + if p(s[|s| - 1]) then [s[|s| - 1]] else []
  }

  lemma {:induction false} SelectCount<A>(s: seq<A>, p: A -> bool, x: A)
    ensures multiset(Select(s, p))[x] == if p(x) then multiset(s)[x] else 0
  {
    if s != [] {
      SelectCount(s[..|s| - 1], p, x);
      assert s == s[..|s| - 1] + [s[|s| - 1]];
    }
  }

  /** Selections with the same members, each as often, have the same length. */
  lemma SameCountSameLength<A(!new)>(a: seq<A>, b: seq<A>, p: A -> bool)
    requires forall x :: p(x) ==> multiset(a)[x] == multiset(b)[x]
    ensures multiset(Select(a, p)) == multiset(Select(b, p))
    ensures |Select(a, p)| == |Select(b, p)|
  {
    forall x ensures multiset(Select(a, p))[x] == multiset(Select(b, p))[x] {
      SelectCount(a, p, x);
      SelectCount(b, p, x);
    }
    assert |multiset(Select(a, p))| == |Select(a, p)|;
    assert |multiset(Select(b, p))| == |Select(b, p)|;
  }

  lemma TwicePresent<A>(u: seq<A>, i: nat, j: nat)
    requires i < j < |u|
    ensures u[i] == u[j] ==> multiset(u)[u[i]] >= 2
  {
    assert u == u[..j] + u[j..];
    assert u[..j][i] in multiset(u[..j]) && u[j..][0] in multiset(u[j..]);
  }

  // ---- applying a sequence of operations ----

  ghost function Fold<A, X>(f: (A, X) -> X, u: seq<A>, x: X): X
  {
    if u == [] then x else Fold(f, u[1..], f(u[0], x))
  }

  lemma {:induction false} FoldAppend<A, X>(f: (A, X) -> X, u: seq<A>, v: seq<A>, x: X)
    ensures Fold(f, u + v, x) == Fold(f, v, Fold(f, u, x))
  {
    if u == [] {
      assert u + v == v;
    } else {
      assert (u + v)[1..] == u[1..] + v;
      FoldAppend(f, u[1..], v, f(u[0], x));
    }
  }

  /** The operations in `k` commute on the states in `g`, and keep these states. */
  ghost predicate Commuting<A(!new), X(!new)>(f: (A, X) -> X, k: A -> bool, g: X -> bool)
  {
    && (forall a, x :: k(a) && g(x) ==> g(f(a, x)))
    && (forall a, b, x :: k(a) && k(b) && g(x) ==> f(a, f(b, x)) == f(b, f(a, x)))
  }

  ghost predicate Idempotent<A, X(!new)>(f: (A, X) -> X, g: X -> bool, a: A)
  {
    forall x :: g(x) ==> f(a, f(a, x)) == f(a, x)
  }

  ghost predicate Within<A>(u: seq<A>, k: A -> bool)
  {
    forall a <- u :: k(a)
  }

  ghost function Without<A>(u: seq<A>, a: A): seq<A>
  {
    if u == [] then [] else (if u[0] == a then [] else [u[0]]) + Without(u[1..], a)
  }

  lemma {:induction false} WithoutCounts<A>(u: seq<A>, a: A, b: A)
    ensures multiset(Without(u, a))[b] == if a == b then 0 else multiset(u)[b]
    ensures |Without(u, a)| <= |u|
    ensures a in u ==> |Without(u, a)| < |u|
    ensures b in Without(u, a) <==> b in u && b != a
  {
    if u != [] {
      WithoutCounts(u[1..], a, b);
      assert u == [u[0]] + u[1..];
    }
  }

  /** An idempotent operation that occurs may be done once, at the start. */
  lemma {:induction false} OnceAtTheStart<A(!new), X(!new)>(f: (A, X) -> X, k: A -> bool, g: X -> bool, u: seq<A>, a: A, x: X)
    requires Commuting(f, k, g) && Within(u, k) && g(x) && a in u && Idempotent(f, g, a)
    ensures Fold(f, u, x) == Fold(f, Without(u, a), f(a, x))
  {
    var rest := u[1..];
    if u[0] == a {
      assert Without(u, a) == Without(rest, a);
      if a in rest {
        OnceAtTheStart(f, k, g, rest, a, f(a, x));
      } else {
        NothingRemoved(rest, a);
      }
    } else {
      OnceAtTheStart(f, k, g, rest, a, f(u[0], x));
      assert Without(u, a)[1..] == Without(rest, a);
    }
  }

  lemma {:induction false} NothingRemoved<A>(u: seq<A>, a: A)
    requires a !in u
    ensures Without(u, a) == u
  {
    if u != [] {
      NothingRemoved(u[1..], a);
    }
  }

  /** Any operation that occurs may be done first. */
  lemma {:induction false} OneFirst<A(!new), X(!new)>(f: (A, X) -> X, k: A -> bool, g: X -> bool, u: seq<A>, i: nat, x: X)
    requires Commuting(f, k, g) && Within(u, k) && g(x) && i < |u|
    ensures Fold(f, u, x) == Fold(f, u[..i] + u[i + 1..], f(u[i], x))
  {
    if i == 0 {
      assert u[..0] + u[1..] == u[1..];
    } else {
      OneFirst(f, k, g, u[1..], i - 1, f(u[0], x));
      assert (u[..i] + u[i + 1..])[1..] == u[1..][..i - 1] + u[1..][i..];
    }
  }

  /** Commuting operations done in any order, with idempotent ones done any number of times
      but at least once, have the same result. */
  lemma {:induction false} OrderAndRepetitionIrrelevant<A(!new), X(!new)>(
    f: (A, X) -> X, k: A -> bool, g: X -> bool, u: seq<A>, v: seq<A>, x: X)
    requires Commuting(f, k, g) && Within(u, k) && Within(v, k) && g(x)
    requires forall a :: a in u <==> a in v
    requires forall a :: !Idempotent(f, g, a) ==> multiset(u)[a] == multiset(v)[a]
    ensures Fold(f, u, x) == Fold(f, v, x)
    decreases |u|
  {
    assert v != [] ==> v[0] in u;
    if u != [] {
      var a := u[0];
      if Idempotent(f, g, a) {
        OnceAtTheStart(f, k, g, u, a, x);
        OnceAtTheStart(f, k, g, v, a, x);
        WithoutBoth(f, g, u, v, a);
        OrderAndRepetitionIrrelevant(f, k, g, Without(u, a), Without(v, a), f(a, x));
      } else {
        var i :| 0 <= i < |v| && v[i] == a;
        OneFirst(f, k, g, v, i, x);
        var v' := v[..i] + v[i + 1..];
        RemoveBoth(f, g, u, v, i);
        OrderAndRepetitionIrrelevant(f, k, g, u[1..], v', f(a, x));
      }
    }
  }

  lemma WithoutBoth<A(!new), X(!new)>(f: (A, X) -> X, g: X -> bool, u: seq<A>, v: seq<A>, a: A)
    requires a in u && (forall b :: b in u <==> b in v)
    requires forall b :: !Idempotent(f, g, b) ==> multiset(u)[b] == multiset(v)[b]
    ensures forall b :: b in Without(u, a) <==> b in Without(v, a)
    ensures forall b :: (b in Without(u, a) ==> b in u) && (b in Without(v, a) ==> b in v)
    ensures forall b :: !Idempotent(f, g, b) ==> multiset(Without(u, a))[b] == multiset(Without(v, a))[b]
    ensures |Without(u, a)| < |u|
  {
    forall b ensures b in Without(u, a) <==> b in Without(v, a)
             ensures (b in Without(u, a) ==> b in u) && (b in Without(v, a) ==> b in v)
             ensures !Idempotent(f, g, b) ==> multiset(Without(u, a))[b] == multiset(Without(v, a))[b]
    {
      WithoutCounts(u, a, b);
      WithoutCounts(v, a, b);
    }
    WithoutCounts(u, a, a);
  }

  lemma RemoveBoth<A(!new), X(!new)>(f: (A, X) -> X, g: X -> bool, u: seq<A>, v: seq<A>, i: nat)
    requires u != [] && i < |v| && v[i] == u[0] && !Idempotent(f, g, u[0]) && (forall b :: b in u <==> b in v)
    requires forall b :: !Idempotent(f, g, b) ==> multiset(u)[b] == multiset(v)[b]
    ensures var v' := v[..i] + v[i + 1..];
            && (forall b :: b in u[1..] <==> b in v')
            && (forall b :: !Idempotent(f, g, b) ==> multiset(u[1..])[b] == multiset(v')[b])
            && (forall b <- v' :: b in v)
  {
    var a, v' := u[0], v[..i] + v[i + 1..];
    RemoveOne(u, v, i);
    forall b ensures b in u[1..] <==> b in v'
             ensures !Idempotent(f, g, b) ==> multiset(u[1..])[b] == multiset(v')[b]
    {
      assert multiset(u)[b] == multiset(u[1..])[b] + if b == a then 1 else 0;
      assert multiset(v)[b] == multiset(v')[b] + if b == a then 1 else 0;
      assert b in multiset(u[1..]) <==> b in u[1..];
      assert b in multiset(v') <==> b in v';
      assert b in multiset(u) <==> b in u;
      assert b in multiset(v) <==> b in v;
    }
  }

  lemma RemoveOne<A>(u: seq<A>, v: seq<A>, i: nat)
    requires u != [] && i < |v| && v[i] == u[0]
    ensures multiset(u) == multiset(u[1..]) + multiset{u[0]}
    ensures multiset(v) == multiset(v[..i] + v[i + 1..]) + multiset{u[0]}
    ensures forall b <- v[..i] + v[i + 1..] :: b in v
  {
    assert u == [u[0]] + u[1..];
    assert v == v[..i] + [v[i]] + v[i + 1..];
  }

  // ---- sequences tagged with epochs ----

  ghost function Before<A>(log: seq<(A, nat)>, k: nat): seq<A>
  {
    if log == [] then []
    else Before(log[..|log| - 1], k) + if log[|log| - 1].1 < k then [log[|log| - 1].0] else []
  }

  ghost function At<A>(log: seq<(A, nat)>, k: nat): seq<A>
  {
    if log == [] then []
    else At(log[..|log| - 1], k) + if log[|log| - 1].1 == k then [log[|log| - 1].0] else []
  }

  ghost predicate Ordered<A>(log: seq<(A, nat)>)
  {
    forall i, j :: 0 <= i < j < |log| ==> log[i].1 <= log[j].1
  }

  lemma {:induction false} AtMember<A>(log: seq<(A, nat)>, k: nat, a: A)
    ensures a in At(log, k) <==> (a, k) in log
  {
    if log != [] {
      AtMember(log[..|log| - 1], k, a);
      assert log == log[..|log| - 1] + [log[|log| - 1]];
    }
  }

  lemma {:induction false} AtCount<A>(log: seq<(A, nat)>, k: nat, a: A)
    ensures multiset(At(log, k))[a] == multiset(log)[(a, k)]
  {
    if log != [] {
      AtCount(log[..|log| - 1], k, a);
      assert log == log[..|log| - 1] + [log[|log| - 1]];
    }
  }

  lemma {:induction false} BeforeAll<A>(log: seq<(A, nat)>, k: nat)
    ensures (forall p <- log :: p.1 < k) ==> Before(log, k) == Firsts(log)
    ensures (forall p <- log :: p.1 >= k) ==> Before(log, k) == []
    ensures (forall p <- log :: p.1 != k) ==> At(log, k) == []
  {
    if log != [] {
      var init, last := log[..|log| - 1], log[|log| - 1];
      BeforeAll(init, k);
      assert last in log && forall p <- init :: p in log;
    }
  }

  /** In an ordered log, epoch `k` comes right after everything before it. */
  lemma {:induction false} EpochByEpoch<A>(log: seq<(A, nat)>, k: nat)
    requires Ordered(log)
    ensures Before(log, k + 1) == Before(log, k) + At(log, k)
  {
    if log != [] {
      var init, last := log[..|log| - 1], log[|log| - 1];
      EpochByEpoch(init, k);
      if last.1 < k {
        assert forall p <- init :: p.1 != k;
        BeforeAll(init, k);
      }
    }
  }

  ghost function Firsts<A>(log: seq<(A, nat)>): seq<A>
  {
    if log == [] then [] else Firsts(log[..|log| - 1]) + [log[|log| - 1].0]
  }
}
