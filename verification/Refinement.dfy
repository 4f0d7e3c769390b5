/** The asynchronous channel does what the simple backend does: for every program of requests and
    barriers, and every schedule of the workers, the final server store and local table are those
    of the program run in order, one request at a time, if the requests inside each barrier
    epoch are independent. */
module Refinement {
  import opened Protocol
  import opened Flow
  import opened History
  import opened Guarantees
  import opened SimpleBackend
  import opened Expansion
  import opened Sequences

  ghost function CmdOf<D>(e: Entry<D>): Cmd<D>
  {
    Cmd(e.text, e.data.data)
  }

  ghost function Tagged<D>(log: seq<Entry<D>>): seq<(Cmd<D>, nat)>
  {
    seq(|log|, i requires 0 <= i < |log| => (CmdOf(log[i]), log[i].data.epoch))
  }

  /** The clients' own requests among all calls, with their epochs. */
  ghost function Issued<D>(calls: seq<Entry<D>>): seq<(Cmd<D>, nat)>
  {
    if calls == [] then []
    else
      var e := calls[|calls| - 1];
      Issued(calls[..|calls| - 1]) + if e.data.parent.None? then [(CmdOf(e), e.data.epoch)] else []
  }

  lemma {:induction false} IssuedMember<D>(calls: seq<Entry<D>>, p: (Cmd<D>, nat))
    ensures p in Issued(calls) <==> exists e <- calls :: e.data.parent.None? && p == (CmdOf(e), e.data.epoch)
  {
    if calls != [] {
      var init, e := calls[..|calls| - 1], calls[|calls| - 1];
      IssuedMember(init, p);
      assert calls == init + [e];
    }
  }

  /** The condition on a client program: there are sets of requests, one for each epoch and
      independent on the stores that can arise, to which the client's requests belong, and a
      request made twice in one epoch is either numbered or harmless to repeat. */
  ghost predicate Harmless<S(!new), L(!new), D(!new), T(!new)>(
    W: World<S, L, D, T>, calls: seq<(Cmd<D>, nat)>, store: S, K: nat -> (Cmd<D> -> bool), G: nat -> (S -> bool))
  {
    && G(0)(store)
    && (forall j: nat, k: nat, x :: j <= k && G(j)(x) ==> G(k)(x))
    && (forall k: nat {:trigger Independent(W, K(k), G(k))} :: Independent(W, K(k), G(k)))
    && (forall p <- calls :: K(p.1)(p.0))
    && RepeatsHarmless(W, calls, G)
  }

  ghost predicate RepeatsHarmless<S(!new), L, D, T>(W: World<S, L, D, T>, calls: seq<(Cmd<D>, nat)>, G: nat -> (S -> bool))
  {
    forall i, j :: 0 <= i < j < |calls| && calls[i].1 == calls[j].1 && calls[i].0.text == calls[j].0.text ==>
                     W.unique(calls[i].0.text) || Idempotent(Effects(W), G(calls[i].1), calls[i].0)
  }

  // ---- folds for logs ----

  lemma {:induction false} FirstsAppend<A>(a: seq<(A, nat)>, b: seq<(A, nat)>)
    ensures Firsts(a + b) == Firsts(a) + Firsts(b)
  {
    if b == [] {
      assert a + b == a;
    } else {
      assert (a + b)[..|a + b| - 1] == a + b[..|b| - 1];
      FirstsAppend(a, b[..|b| - 1]);
    }
  }

  lemma {:induction false} ReplayIsFold<S, L, D, T>(W: World<S, L, D, T>, store: S, log: seq<Entry<D>>)
    ensures Replay(W, store, log) == Fold(Effects(W), Firsts(Tagged(log)), store)
  {
    if log != [] {
      var init, e := log[..|log| - 1], log[|log| - 1];
      assert Tagged(log)[..|log| - 1] == Tagged(init);
      ReplayIsFold(W, store, init);
      FoldAppend(Effects(W), Firsts(Tagged(init)), [CmdOf(e)], store);
    }
  }

  lemma {:induction false} ReliveIsFold<S, L, D, T>(W: World<S, L, D, T>, local: L, touches: seq<(T, nat)>)
    ensures Relive(W, local, touches) == Fold(W.touch, Firsts(touches), local)
  {
    if touches != [] {
      var init, t := touches[..|touches| - 1], touches[|touches| - 1];
      ReliveIsFold(W, local, init);
      FoldAppend(W.touch, Firsts(init), [t.0], local);
    }
  }

  lemma {:induction false} BeforePrefix<A>(log: seq<(A, nat)>, i: nat, k: nat)
    requires i <= |log| && forall j :: i <= j < |log| ==> log[j].1 >= k
    ensures Before(log[..i], k) == Before(log, k)
  {
    if i == |log| {
      assert log[..i] == log;
    } else {
      BeforePrefix(log[..|log| - 1], i, k);
      assert log[..|log| - 1][..i] == log[..i];
    }
  }

  /** The store at the start of epoch `k`. */
  ghost function Base<S, L, D, T>(W: World<S, L, D, T>, store: S, log: seq<Entry<D>>, k: nat): S
  {
    Fold(Effects(W), Before(Tagged(log), k), store)
  }

  lemma LogOrdered<S, L, D, T>(s: Sys<S, L, D, T>)
    requires LogOk(s)
    ensures Ordered(Tagged(s.log))
  {
  }

  lemma BaseStep<S, L, D, T>(W: World<S, L, D, T>, store: S, s: Sys<S, L, D, T>, k: nat)
    requires LogOk(s)
    ensures Base(W, store, s.log, k + 1) == Fold(Effects(W), At(Tagged(s.log), k), Base(W, store, s.log, k))
  {
    LogOrdered(s);
    EpochByEpoch(Tagged(s.log), k);
    FoldAppend(Effects(W), Before(Tagged(s.log), k), At(Tagged(s.log), k), store);
  }

  lemma PrefixByEpoch<A>(log: seq<(A, nat)>, i: nat)
    requires Ordered(log) && i < |log|
    ensures Firsts(log[..i]) == Before(log, log[i].1) + At(log[..i], log[i].1)
  {
    var k, p := log[i].1, log[..i];
    PrefixOrdered(log, i);
    BeforePrefix(log, i, k);
    AllButLast(p, k);
  }

  lemma AllButLast<A>(p: seq<(A, nat)>, k: nat)
    requires Ordered(p) && forall x <- p :: x.1 < k + 1
    ensures Firsts(p) == Before(p, k) + At(p, k)
  {
    EpochByEpoch(p, k);
    BeforeAll(p, k + 1);
  }

  lemma PrefixOrdered<A>(log: seq<(A, nat)>, i: nat)
    requires Ordered(log) && i < |log|
    ensures Ordered(log[..i]) && forall p <- log[..i] :: p.1 < log[i].1 + 1
    ensures forall j :: i <= j < |log| ==> log[j].1 >= log[i].1
  {
  }

  /** The store at any position of the log is reached from the start of its epoch by requests
      of that epoch. */
  lemma StoreInEpoch<S, L, D, T>(W: World<S, L, D, T>, store: S, s: Sys<S, L, D, T>, i: nat)
    requires LogOk(s) && i < |s.log|
    ensures var k := s.log[i].data.epoch;
            Replay(W, store, s.log[..i]) == Fold(Effects(W), At(Tagged(s.log)[..i], k), Base(W, store, s.log, k))
  {
    var k := s.log[i].data.epoch;
    var tagged := Tagged(s.log);
    assert tagged[..i] == Tagged(s.log[..i]);
    LogOrdered(s);
    PrefixByEpoch(tagged, i);
    ReplayIsFold(W, store, s.log[..i]);
    FoldAppend(Effects(W), Before(tagged, k), At(tagged[..i], k), store);
  }

  // ---- plans ----

  lemma {:induction false} PlanAt<S, L, D, T>(W: World<S, L, D, T>, store: S, log: seq<Entry<D>>, i: nat)
    requires i < |log| && forall j :: i < j < |log| ==> log[j] != log[i]
    ensures ReplyTo(W, store, log, log[i]) == W.answer(log[i].text, Replay(W, store, log[..i]))
  {
    if i + 1 < |log| {
      var init := log[..|log| - 1];
      PlanAt(W, store, init, i);
      assert init[..i] == log[..i];
    }
  }

  /** When nothing is left, every callback has done exactly what its answer asked for. */
  lemma PlanDone<S, L, D, T>(W: World<S, L, D, T>, store: S, local: L, s: Sys<S, L, D, T>, i: nat)
    requires Sound(W, store, local, s) && Quiescent(s) && i < |s.log| && W.replies(s.log[i].text)
    ensures var e := s.log[i];
            e.data.ticket in s.ran && s.calls[e.data.ticket] == e &&
            s.ran[e.data.ticket] == Acts(W, CmdOf(e), Replay(W, store, s.log[..i]))
  {
    var e := s.log[i];
    assert e in s.log && Attended(W, store, s, e);
    OnePlace(W, s, e);
    forall j | i < j < |s.log| ensures s.log[j] != e {
      LogDistinct(W, s, i, j);
    }
    PlanAt(W, store, s.log, i);
  }

  // ---- the epochs of an asynchronous run ----

  /** A finished run of a harmless program. */
  ghost predicate Finished<S(!new), L(!new), D(!new), T(!new)>(
    W: World<S, L, D, T>, store: S, local: L, s: Sys<S, L, D, T>, K: nat -> (Cmd<D> -> bool), G: nat -> (S -> bool))
  {
    CallbacksFit(W) && Sound(W, store, local, s) && Quiescent(s) && Harmless(W, Issued(s.calls), store, K, G)
  }

  lemma SpawnedIsActs<S, L, D, T>(W: World<S, L, D, T>, store: S, local: L, s: Sys<S, L, D, T>, e: Entry<D>, j: nat)
    requires Sound(W, store, local, s) && Quiescent(s) && e in s.calls && e.data.parent.Some?
    requires j < |s.log| && e.data.parent.value < |s.calls| && s.log[j] == s.calls[e.data.parent.value]
    ensures s.log[j].data.epoch == e.data.epoch && W.replies(s.log[j].text)
    ensures Request(e.text, e.noreply, e.data.data) in Acts(W, CmdOf(s.log[j]), Replay(W, store, s.log[..j]))
  {
    assert Spawned(s, e);
    PlanDone(W, store, local, s, j);
  }

  /** Every applied request belongs to the requests of its epoch, and finds a store of its epoch. */
  lemma {:induction false} LogFits<S(!new), L(!new), D(!new), T(!new)>(
    W: World<S, L, D, T>, store: S, local: L, s: Sys<S, L, D, T>, K: nat -> (Cmd<D> -> bool), G: nat -> (S -> bool), i: nat)
    requires Finished(W, store, local, s, K, G) && i < |s.log|
    ensures var k := s.log[i].data.epoch; K(k)(CmdOf(s.log[i])) && G(k)(Replay(W, store, s.log[..i]))
    decreases i
  {
    if i == 0 {
      assert G(0)(store);
    } else {
      LogFits(W, store, local, s, K, G, i - 1);
      StoreFits(W, store, s, K, G, i);
    }
    var e := s.log[i];
    OnePlace(W, s, e);
    if e.data.parent.None? {
      ClientFits(W, store, s, K, G, e);
    } else {
      var j := ParentInLog(s, i);
      LogFits(W, store, local, s, K, G, j);
      ChildFits(W, store, local, s, K, G, e, j);
    }
  }

  lemma ParentInLog<S, L, D, T>(s: Sys<S, L, D, T>, i: nat) returns (j: nat)
    requires ParentsFirst(s) && i < |s.log| && s.log[i].data.parent.Some?
    ensures j < i && s.log[i].data.parent.value < |s.calls| && s.log[j] == s.calls[s.log[i].data.parent.value]
  {
    j :| 0 <= j < i && s.log[..i][j] == s.calls[s.log[i].data.parent.value];
  }

  lemma ClientFits<S(!new), L(!new), D(!new), T(!new)>(
    W: World<S, L, D, T>, store: S, s: Sys<S, L, D, T>, K: nat -> (Cmd<D> -> bool), G: nat -> (S -> bool), e: Entry<D>)
    requires Harmless(W, Issued(s.calls), store, K, G) && e in s.calls && e.data.parent.None?
    ensures K(e.data.epoch)(CmdOf(e))
  {
    IssuedMember(s.calls, (CmdOf(e), e.data.epoch));
  }

  lemma ChildFits<S(!new), L(!new), D(!new), T(!new)>(
    W: World<S, L, D, T>, store: S, local: L, s: Sys<S, L, D, T>, K: nat -> (Cmd<D> -> bool), G: nat -> (S -> bool), e: Entry<D>, j: nat)
    requires Finished(W, store, local, s, K, G) && e in s.calls && e.data.parent.Some?
    requires j < |s.log| && e.data.parent.value < |s.calls| && s.log[j] == s.calls[e.data.parent.value]
    requires var k := s.log[j].data.epoch; K(k)(CmdOf(s.log[j])) && G(k)(Replay(W, store, s.log[..j]))
    ensures K(e.data.epoch)(CmdOf(e)) && Idempotent(Effects(W), G(e.data.epoch), CmdOf(e))
  {
    SpawnedIsActs(W, store, local, s, e, j);
    SpawnFits(W, Issued(s.calls), store, K, G, e.data.epoch, CmdOf(s.log[j]), Replay(W, store, s.log[..j]),
              Request(e.text, e.noreply, e.data.data));
  }

  lemma SpawnFits<S(!new), L(!new), D(!new), T(!new)>(
    W: World<S, L, D, T>, calls: seq<(Cmd<D>, nat)>, store: S, K: nat -> (Cmd<D> -> bool), G: nat -> (S -> bool),
    k: nat, c: Cmd<D>, x: S, a: Act<D, T>)
    requires Harmless(W, calls, store, K, G) && K(k)(c) && G(k)(x) && a in Acts(W, c, x) && a.Request?
    ensures K(k)(Cmd(a.text, a.data)) && Idempotent(Effects(W), G(k), Cmd(a.text, a.data))
  {
    assert Independent(W, K(k), G(k));
  }

  lemma SameText<S(!new), L(!new), D(!new), T(!new)>(
    W: World<S, L, D, T>, calls: seq<(Cmd<D>, nat)>, store: S, K: nat -> (Cmd<D> -> bool), G: nat -> (S -> bool),
    k: nat, c: Cmd<D>, d: Cmd<D>)
    requires Harmless(W, calls, store, K, G) && K(k)(c) && K(k)(d) && c.text == d.text
    ensures c == d
  {
    assert Independent(W, K(k), G(k));
  }

  lemma Undisturbed<S(!new), L(!new), D(!new), T(!new)>(
    W: World<S, L, D, T>, calls: seq<(Cmd<D>, nat)>, store: S, K: nat -> (Cmd<D> -> bool), G: nat -> (S -> bool),
    k: nat, u: seq<Cmd<D>>, x: S)
    requires Harmless(W, calls, store, K, G) && Within(u, K(k)) && G(k)(x)
    ensures forall j :: k <= j ==> G(j)(Fold(Effects(W), u, x))
    ensures forall c :: K(k)(c) ==> Acts(W, c, Fold(Effects(W), u, x)) == Acts(W, c, x)
  {
    assert Independent(W, K(k), G(k));
    ActsUndisturbed(W, K(k), G(k), u, x);
  }

  lemma StoreFits<S(!new), L(!new), D(!new), T(!new)>(
    W: World<S, L, D, T>, store: S, s: Sys<S, L, D, T>, K: nat -> (Cmd<D> -> bool), G: nat -> (S -> bool), i: nat)
    requires Harmless(W, Issued(s.calls), store, K, G) && LogOk(s) && 0 < i < |s.log|
    requires var k := s.log[i - 1].data.epoch; K(k)(CmdOf(s.log[i - 1])) && G(k)(Replay(W, store, s.log[..i - 1]))
    ensures G(s.log[i].data.epoch)(Replay(W, store, s.log[..i]))
  {
    var k := s.log[i - 1].data.epoch;
    var c, x := CmdOf(s.log[i - 1]), Replay(W, store, s.log[..i - 1]);
    assert s.log[..i][..i - 1] == s.log[..i - 1];
    Undisturbed(W, Issued(s.calls), store, K, G, k, [c], x);
    assert Fold(Effects(W), [c], x) == Replay(W, store, s.log[..i]);
  }

  lemma AtWithin<S(!new), L(!new), D(!new), T(!new)>(
    W: World<S, L, D, T>, store: S, local: L, s: Sys<S, L, D, T>, K: nat -> (Cmd<D> -> bool), G: nat -> (S -> bool), k: nat, i: nat)
    requires Finished(W, store, local, s, K, G) && i <= |s.log|
    ensures Within(At(Tagged(s.log)[..i], k), K(k))
  {
    forall c | c in At(Tagged(s.log)[..i], k) ensures K(k)(c) {
      AtMember(Tagged(s.log)[..i], k, c);
      var j :| 0 <= j < i && Tagged(s.log)[j] == (c, k);
      LogFits(W, store, local, s, K, G, j);
    }
  }

  lemma BaseFits<S(!new), L(!new), D(!new), T(!new)>(
    W: World<S, L, D, T>, store: S, local: L, s: Sys<S, L, D, T>, K: nat -> (Cmd<D> -> bool), G: nat -> (S -> bool), k: nat)
    requires Finished(W, store, local, s, K, G)
    ensures G(k)(Base(W, store, s.log, k))
  {
    forall j: nat ensures Within(At(Tagged(s.log)[..|s.log|], j), K(j)) {
      AtWithin(W, store, local, s, K, G, j, |s.log|);
    }
    BasesFit(W, store, s, K, G, k);
  }

  lemma {:induction false} BasesFit<S(!new), L(!new), D(!new), T(!new)>(
    W: World<S, L, D, T>, store: S, s: Sys<S, L, D, T>, K: nat -> (Cmd<D> -> bool), G: nat -> (S -> bool), k: nat)
    requires Harmless(W, Issued(s.calls), store, K, G) && LogOk(s)
    requires forall j: nat :: Within(At(Tagged(s.log)[..|s.log|], j), K(j))
    ensures G(k)(Base(W, store, s.log, k))
  {
    if k == 0 {
      BeforeAll(Tagged(s.log), 0);
    } else {
      BasesFit(W, store, s, K, G, k - 1);
      NextBaseFits(W, store, s, K, G, k - 1);
    }
  }

  lemma NextBaseFits<S(!new), L(!new), D(!new), T(!new)>(
    W: World<S, L, D, T>, store: S, s: Sys<S, L, D, T>, K: nat -> (Cmd<D> -> bool), G: nat -> (S -> bool), k: nat)
    requires Harmless(W, Issued(s.calls), store, K, G) && LogOk(s) && G(k)(Base(W, store, s.log, k))
    requires Within(At(Tagged(s.log)[..|s.log|], k), K(k))
    ensures G(k + 1)(Base(W, store, s.log, k + 1))
  {
    assert Tagged(s.log)[..|s.log|] == Tagged(s.log);
    BaseStep(W, store, s, k);
    Undisturbed(W, Issued(s.calls), store, K, G, k, At(Tagged(s.log), k), Base(W, store, s.log, k));
  }

  /** What a callback of epoch `k` did is what the store at the start of the epoch asks for. */
  lemma ActsFromBase<S(!new), L(!new), D(!new), T(!new)>(
    W: World<S, L, D, T>, store: S, local: L, s: Sys<S, L, D, T>, K: nat -> (Cmd<D> -> bool), G: nat -> (S -> bool), i: nat)
    requires Finished(W, store, local, s, K, G) && i < |s.log|
    ensures var e := s.log[i];
            Acts(W, CmdOf(e), Replay(W, store, s.log[..i])) == Acts(W, CmdOf(e), Base(W, store, s.log, e.data.epoch))
  {
    var k := s.log[i].data.epoch;
    var x := Base(W, store, s.log, k);
    StoreInEpoch(W, store, s, i);
    AtWithin(W, store, local, s, K, G, k, i);
    LogFits(W, store, local, s, K, G, i);
    BaseFits(W, store, local, s, K, G, k);
    Undisturbed(W, Issued(s.calls), store, K, G, k, At(Tagged(s.log)[..i], k), x);
  }

  // ---- the requests of one epoch ----

  lemma AllApplied<S, L, D, T>(W: World<S, L, D, T>, s: Sys<S, L, D, T>)
    requires FlowOk(W, s) && Quiescent(s)
    ensures multiset(s.calls) == multiset(s.log) + multiset(s.dropped)
  {
    InFlightEmpty(s.lanes);
  }

  /** The copy of a call that was not merged, and its place in the log. */
  lemma KeptCopy<S, L, D, T>(W: World<S, L, D, T>, s: Sys<S, L, D, T>, e: Entry<D>) returns (i: nat)
    requires FlowOk(W, s) && Quiescent(s) && e in s.calls
    ensures i < |s.log| && s.log[i] in s.calls && (s.log[i] == e || (e in s.dropped && Represents(s.log[i], e)))
    ensures e in s.dropped ==> s.log[i] != e
  {
    AllApplied(W, s);
    var r := e;
    if e in s.dropped {
      r :| r in s.calls && Represents(r, e) && r !in s.dropped;
    }
    assert r in multiset(s.calls) && r in multiset(s.log);
    i :| 0 <= i < |s.log| && s.log[i] == r;
  }

  /** A call of the epoch's requests has been applied, itself or in the shape of an equal one. */
  lemma CallApplied<S(!new), L(!new), D(!new), T(!new)>(
    W: World<S, L, D, T>, store: S, local: L, s: Sys<S, L, D, T>, K: nat -> (Cmd<D> -> bool), G: nat -> (S -> bool), e: Entry<D>)
    requires Finished(W, store, local, s, K, G) && e in s.calls && K(e.data.epoch)(CmdOf(e))
    ensures CmdOf(e) in At(Tagged(s.log), e.data.epoch)
  {
    var k := e.data.epoch;
    var i := KeptCopy(W, s, e);
    LogFits(W, store, local, s, K, G, i);
    SameText(W, Issued(s.calls), store, K, G, k, CmdOf(s.log[i]), CmdOf(e));
    assert Tagged(s.log)[i] == (CmdOf(e), k);
    AtMember(Tagged(s.log), k, CmdOf(e));
  }

  /** The place in the log of a request of epoch `k`, and what its callback did. */
  lemma Applied<S(!new), L(!new), D(!new), T(!new)>(
    W: World<S, L, D, T>, store: S, local: L, s: Sys<S, L, D, T>, K: nat -> (Cmd<D> -> bool), G: nat -> (S -> bool), k: nat, c: Cmd<D>)
    returns (i: nat)
    requires Finished(W, store, local, s, K, G) && c in At(Tagged(s.log), k)
    ensures i < |s.log| && CmdOf(s.log[i]) == c && s.log[i].data.epoch == k && K(k)(c)
    ensures W.replies(c.text) ==>
              var t := s.log[i].data.ticket;
              t in s.ran && s.calls[t] == s.log[i] && s.ran[t] == Acts(W, c, Base(W, store, s.log, k))
  {
    AtMember(Tagged(s.log), k, c);
    i :| 0 <= i < |s.log| && Tagged(s.log)[i] == (c, k);
    LogFits(W, store, local, s, K, G, i);
    ActsFromBase(W, store, local, s, K, G, i);
    if W.replies(c.text) {
      PlanDone(W, store, local, s, i);
    }
  }

  lemma EpochClosed<S(!new), L(!new), D(!new), T(!new)>(
    W: World<S, L, D, T>, store: S, local: L, s: Sys<S, L, D, T>, K: nat -> (Cmd<D> -> bool), G: nat -> (S -> bool), k: nat)
    requires Finished(W, store, local, s, K, G)
    ensures Closed(W, At(Tagged(s.log), k), Base(W, store, s.log, k))
    ensures forall c <- At(Issued(s.calls), k) :: c in At(Tagged(s.log), k)
  {
    var x := Base(W, store, s.log, k);
    forall c, a | c in At(Tagged(s.log), k) && a in Acts(W, c, x) && a.Request? ensures Cmd(a.text, a.data) in At(Tagged(s.log), k) {
      var i := Applied(W, store, local, s, K, G, k, c);
      assert Done(s, s.log[i].data.ticket, a);
      var d :| d in s.calls && Made(s, s.log[i].data.ticket, a, d);
      BaseFits(W, store, local, s, K, G, k);
      SpawnFits(W, Issued(s.calls), store, K, G, k, c, x, a);
      CallApplied(W, store, local, s, K, G, d);
    }
    forall c | c in At(Issued(s.calls), k) ensures c in At(Tagged(s.log), k) {
      AtMember(Issued(s.calls), k, c);
      IssuedMember(s.calls, (c, k));
      var e :| e in s.calls && e.data.parent.None? && (c, k) == (CmdOf(e), e.data.epoch);
      CallApplied(W, store, local, s, K, G, e);
    }
  }

  /** Nothing else has been applied: every request is a client's, or some callback made it. */
  lemma {:induction false} InExpansion<S(!new), L(!new), D(!new), T(!new)>(
    W: World<S, L, D, T>, store: S, local: L, s: Sys<S, L, D, T>, K: nat -> (Cmd<D> -> bool), G: nat -> (S -> bool), i: nat)
    requires Finished(W, store, local, s, K, G) && i < |s.log|
    ensures var k := s.log[i].data.epoch;
            CmdOf(s.log[i]) in ExpandAll(W, At(Issued(s.calls), k), Base(W, store, s.log, k))
    decreases i
  {
    var e := s.log[i];
    var k := e.data.epoch;
    var cs, x := At(Issued(s.calls), k), Base(W, store, s.log, k);
    ExpandAllClosed(W, cs, x);
    OnePlace(W, s, e);
    if e.data.parent.None? {
      IssuedMember(s.calls, (CmdOf(e), k));
      AtMember(Issued(s.calls), k, CmdOf(e));
    } else {
      var j := ParentInLog(s, i);
      SpawnedIsActs(W, store, local, s, e, j);
      InExpansion(W, store, local, s, K, G, j);
      ActsFromBase(W, store, local, s, K, G, j);
      var a: Act<D, T> := Request(e.text, e.noreply, e.data.data);
      assert a in Acts(W, CmdOf(s.log[j]), x);
      assert Cmd(a.text, a.data) == CmdOf(e);
    }
  }

  lemma TouchSource<S, L, D, T>(W: World<S, L, D, T>, store: S, local: L, s: Sys<S, L, D, T>, k: nat, y: T) returns (t: nat, i: nat)
    requires AnswersOk(W, store, s) && EffectsOk(W, local, s) && (y, k) in s.touches
    ensures DoneBy(s, t, Touch(y), k) && i < |s.log| && s.log[i] == s.calls[t]
  {
    t :| DoneBy(s, t, Touch(y), k);
    assert s.calls[t] in s.log;
    i :| 0 <= i < |s.log| && s.log[i] == s.calls[t];
  }

  lemma TouchHasCause<S(!new), L(!new), D(!new), T(!new)>(
    W: World<S, L, D, T>, store: S, local: L, s: Sys<S, L, D, T>, K: nat -> (Cmd<D> -> bool), G: nat -> (S -> bool), k: nat, y: T)
    returns (c: Cmd<D>)
    requires Finished(W, store, local, s, K, G) && (y, k) in s.touches
    ensures c in At(Tagged(s.log), k) && Touch(y) in Acts(W, c, Base(W, store, s.log, k))
  {
    var t, i := TouchSource(W, store, local, s, k, y);
    c := CmdOf(s.log[i]);
    RanIsPlan(W, store, local, s, t, i);
    ActsFromBase(W, store, local, s, K, G, i);
    assert Tagged(s.log)[i] == (c, k);
    AtMember(Tagged(s.log), k, c);
  }

  lemma RanIsPlan<S, L, D, T>(W: World<S, L, D, T>, store: S, local: L, s: Sys<S, L, D, T>, t: nat, i: nat)
    requires Sound(W, store, local, s) && Quiescent(s) && t in s.ran && t < |s.calls| && i < |s.log| && s.log[i] == s.calls[t]
    ensures s.ran[t] == Acts(W, CmdOf(s.log[i]), Replay(W, store, s.log[..i]))
  {
    PlanDone(W, store, local, s, i);
  }

  /** The local changes of epoch `k` are those its requests ask for. */
  lemma EpochTouches<S(!new), L(!new), D(!new), T(!new)>(
    W: World<S, L, D, T>, store: S, local: L, s: Sys<S, L, D, T>, K: nat -> (Cmd<D> -> bool), G: nat -> (S -> bool), k: nat, y: T)
    requires Finished(W, store, local, s, K, G)
    ensures y in At(s.touches, k) <==>
            exists c <- At(Tagged(s.log), k) :: Touch(y) in Acts(W, c, Base(W, store, s.log, k))
  {
    AtMember(s.touches, k, y);
    if y in At(s.touches, k) {
      var c := TouchHasCause(W, store, local, s, K, G, k, y);
    }
    if c :| c in At(Tagged(s.log), k) && Touch(y) in Acts(W, c, Base(W, store, s.log, k)) {
      var i := Applied(W, store, local, s, K, G, k, c);
      assert Done(s, s.log[i].data.ticket, Touch(y));
    }
  }

  // ---- counting the requests that must not be repeated ----

  lemma {:induction false} TaggedCount<D>(log: seq<Entry<D>>, p: (Cmd<D>, nat))
    ensures multiset(Tagged(log))[p] == |Select(log, (e: Entry<D>) => (CmdOf(e), e.data.epoch) == p)|
  {
    if log != [] {
      var init, e := log[..|log| - 1], log[|log| - 1];
      TaggedCount(init, p);
      assert Tagged(log) == Tagged(init) + [(CmdOf(e), e.data.epoch)];
    }
  }

  lemma {:induction false} IssuedCount<D>(calls: seq<Entry<D>>, p: (Cmd<D>, nat))
    ensures multiset(Issued(calls))[p]
         == |Select(calls, (e: Entry<D>) => e.data.parent.None? && (CmdOf(e), e.data.epoch) == p)|
  {
    if calls != [] {
      IssuedCount(calls[..|calls| - 1], p);
    }
  }

  lemma {:induction false} IssuedPlace<D>(calls: seq<Entry<D>>, t: nat, n: nat)
    requires t < n <= |calls| && calls[t].data.parent.None?
    ensures |Issued(calls[..t])| < |Issued(calls[..n])| <= |Issued(calls)|
    ensures Issued(calls)[|Issued(calls[..t])|] == (CmdOf(calls[t]), calls[t].data.epoch)
    decreases |calls|
  {
    var init := calls[..|calls| - 1];
    if n < |calls| {
      IssuedPlace(init, t, n);
      assert init[..t] == calls[..t] && init[..n] == calls[..n];
    } else if t + 1 < n {
      IssuedPlace(init, t, n - 1);
      assert init[..t] == calls[..t] && calls[..n] == calls;
      assert init[..n - 1] == init;
    } else {
      assert calls[..t] == init && calls[..n] == calls;
    }
  }

  /** A call that must not be repeated comes from the client, and has not been merged. */
  lemma OnceIsKept<S(!new), L(!new), D(!new), T(!new)>(
    W: World<S, L, D, T>, store: S, local: L, s: Sys<S, L, D, T>, K: nat -> (Cmd<D> -> bool), G: nat -> (S -> bool), e: Entry<D>)
    requires Finished(W, store, local, s, K, G) && e in s.calls
    requires !Idempotent(Effects(W), G(e.data.epoch), CmdOf(e))
    ensures e.data.parent.None? && e !in s.dropped
  {
    var k := e.data.epoch;
    ClientMade(W, store, local, s, K, G, e);
    assert RepeatsHarmless(W, Issued(s.calls), G);
    if e in s.dropped {
      var i := KeptCopy(W, s, e);
      var r := s.log[i];
      LogFits(W, store, local, s, K, G, i);
      IssuedMember(s.calls, (CmdOf(e), k));
      SameText(W, Issued(s.calls), store, K, G, k, CmdOf(r), CmdOf(e));
      ClientMade(W, store, local, s, K, G, r);
      var t, u := r.data.ticket, e.data.ticket;
      assert s.calls[t] == r && s.calls[u] == e;
      IssuedPlace(s.calls, t, u);
      IssuedPlace(s.calls, u, |s.calls|);
    }
  }

  lemma ClientMade<S(!new), L(!new), D(!new), T(!new)>(
    W: World<S, L, D, T>, store: S, local: L, s: Sys<S, L, D, T>, K: nat -> (Cmd<D> -> bool), G: nat -> (S -> bool), e: Entry<D>)
    requires Finished(W, store, local, s, K, G) && e in s.calls
    requires !Idempotent(Effects(W), G(e.data.epoch), CmdOf(e))
    ensures e.data.parent.None?
  {
    if e.data.parent.Some? {
      assert Spawned(s, e);
      var j :| 0 <= j < |s.log| && s.log[j] == s.calls[e.data.parent.value];
      LogFits(W, store, local, s, K, G, j);
      ChildFits(W, store, local, s, K, G, e, j);
    }
  }

  lemma EntryCount<S(!new), L(!new), D(!new), T(!new)>(
    W: World<S, L, D, T>, store: S, local: L, s: Sys<S, L, D, T>, K: nat -> (Cmd<D> -> bool), G: nat -> (S -> bool), e: Entry<D>)
    requires Finished(W, store, local, s, K, G) && !Idempotent(Effects(W), G(e.data.epoch), CmdOf(e))
    ensures multiset(s.log)[e] == if e.data.parent.None? then multiset(s.calls)[e] else 0
  {
    AllApplied(W, s);
    assert multiset(s.calls)[e] == multiset(s.log)[e] + multiset(s.dropped)[e];
    if e in s.calls {
      OnceIsKept(W, store, local, s, K, G, e);
    } else {
      assert e !in multiset(s.calls);
    }
  }

  lemma EpochCounts<S(!new), L(!new), D(!new), T(!new)>(
    W: World<S, L, D, T>, store: S, local: L, s: Sys<S, L, D, T>, K: nat -> (Cmd<D> -> bool), G: nat -> (S -> bool), k: nat, c: Cmd<D>)
    requires Finished(W, store, local, s, K, G) && !Idempotent(Effects(W), G(k), c)
    ensures multiset(At(Tagged(s.log), k))[c] == multiset(At(Issued(s.calls), k))[c]
  {
    var p := (e: Entry<D>) => (CmdOf(e), e.data.epoch) == (c, k);
    var q := (e: Entry<D>) => e.data.parent.None? && (CmdOf(e), e.data.epoch) == (c, k);
    forall e: Entry<D> | p(e) ensures multiset(s.log)[e] == if q(e) then multiset(s.calls)[e] else 0 {
      EntryCount(W, store, local, s, K, G, e);
    }
    SelectedCounts(s.log, s.calls, c, k);
  }

  lemma SelectedCounts<D(!new)>(log: seq<Entry<D>>, calls: seq<Entry<D>>, c: Cmd<D>, k: nat)
    requires forall e: Entry<D> :: CmdOf(e) == c && e.data.epoch == k ==>
                                     multiset(log)[e] == if e.data.parent.None? then multiset(calls)[e] else 0
    ensures multiset(At(Tagged(log), k))[c] == multiset(At(Issued(calls), k))[c]
  {
    var p := (e: Entry<D>) => (CmdOf(e), e.data.epoch) == (c, k);
    var q := (e: Entry<D>) => e.data.parent.None? && (CmdOf(e), e.data.epoch) == (c, k);
    AtCount(Tagged(log), k, c);
    AtCount(Issued(calls), k, c);
    TaggedCount(log, (c, k));
    IssuedCount(calls, (c, k));
    forall e: Entry<D> ensures multiset(Select(log, p))[e] == multiset(Select(calls, q))[e] {
      SelectCount(log, p, e);
      SelectCount(calls, q, e);
    }
    assert multiset(Select(log, p)) == multiset(Select(calls, q));
    assert |multiset(Select(log, p))| == |Select(log, p)| && |multiset(Select(calls, q))| == |Select(calls, q)|;
  }

  // ---- the theorem ----

  ghost predicate Asked<S, L, D, T>(W: World<S, L, D, T>, m: seq<Cmd<D>>, x: S, y: T)
  {
    exists c <- m :: Touch(y) in Acts(W, c, x)
  }

  /** Local changes asked for by the requests of one epoch may be made in any order, repeatedly. */
  lemma TouchesCommute<S(!new), L(!new), D(!new), T(!new)>(
    W: World<S, L, D, T>, k: Cmd<D> -> bool, g: S -> bool, m: seq<Cmd<D>>, x: S)
    requires LocalAgree(W, k, g) && Within(m, k) && g(x)
    ensures Commuting(W.touch, y => Asked(W, m, x, y), l => true)
    ensures forall y :: Asked(W, m, x, y) ==> Idempotent(W.touch, l => true, y)
  {
    forall y, z | Asked(W, m, x, y) && Asked(W, m, x, z) ensures TouchesAgree(W, y, z) {
      AskedAgree(W, k, g, m, x, y, z);
    }
  }

  lemma AskedAgree<S(!new), L(!new), D(!new), T(!new)>(
    W: World<S, L, D, T>, k: Cmd<D> -> bool, g: S -> bool, m: seq<Cmd<D>>, x: S, y: T, z: T)
    requires LocalAgree(W, k, g) && Within(m, k) && g(x) && Asked(W, m, x, y) && Asked(W, m, x, z)
    ensures TouchesAgree(W, y, z)
  {
    var c :| c in m && Touch(y) in Acts(W, c, x);
    var d :| d in m && Touch(z) in Acts(W, d, x);
  }

  lemma SameTouches<S(!new), L(!new), D(!new), T(!new)>(
    W: World<S, L, D, T>, k: Cmd<D> -> bool, g: S -> bool, m: seq<Cmd<D>>, x: S, a: seq<T>, b: seq<T>, l: L)
    requires LocalAgree(W, k, g) && Within(m, k) && g(x)
    requires forall y :: (y in a <==> Asked(W, m, x, y)) && (y in b <==> Asked(W, m, x, y))
    ensures Fold(W.touch, a, l) == Fold(W.touch, b, l)
  {
    var asked := y => Asked(W, m, x, y);
    var any := (l: L) => true;
    TouchesCommute(W, k, g, m, x);
    assert Within(a, asked) && Within(b, asked);
    forall y | !Idempotent(W.touch, any, y) ensures multiset(a)[y] == multiset(b)[y] {
      assert y !in a && y !in b;
    }
    OrderAndRepetitionIrrelevant(W.touch, asked, any, a, b, l);
  }

  lemma SameEffectsOfEpoch<S(!new), L(!new), D(!new), T(!new)>(
    W: World<S, L, D, T>, store: S, local: L, s: Sys<S, L, D, T>, K: nat -> (Cmd<D> -> bool), G: nat -> (S -> bool), k: nat)
    requires Finished(W, store, local, s, K, G)
    ensures var x, cs := Base(W, store, s.log, k), At(Issued(s.calls), k);
            && Within(cs, K(k))
            && (forall c :: c in At(Tagged(s.log), k) <==> c in ExpandAll(W, cs, x))
            && Fold(Effects(W), At(Tagged(s.log), k), x) == Fold(Effects(W), ExpandAll(W, cs, x), x)
  {
    var x, cs, cmds := Base(W, store, s.log, k), At(Issued(s.calls), k), At(Tagged(s.log), k);
    EpochClosed(W, store, local, s, K, G, k);
    ExpandAllLeast(W, cs, x, cmds);
    forall c | c in cmds ensures c in ExpandAll(W, cs, x) && K(k)(c) {
      var i := Applied(W, store, local, s, K, G, k, c);
      InExpansion(W, store, local, s, K, G, i);
    }
    assert Within(cs, K(k)) && Within(cmds, K(k)) && Within(ExpandAll(W, cs, x), K(k));
    BaseFits(W, store, local, s, K, G, k);
    forall c | !Idempotent(Effects(W), G(k), c) ensures multiset(cmds)[c] == multiset(ExpandAll(W, cs, x))[c] {
      EpochCounts(W, store, local, s, K, G, k, c);
      ExpansionCounts(W, Issued(s.calls), store, K, G, k, cs, x, c);
    }
    SameFold(W, Issued(s.calls), store, K, G, k, cmds, ExpandAll(W, cs, x), x);
  }

  lemma ExpansionCounts<S(!new), L(!new), D(!new), T(!new)>(
    W: World<S, L, D, T>, calls: seq<(Cmd<D>, nat)>, store: S, K: nat -> (Cmd<D> -> bool), G: nat -> (S -> bool),
    k: nat, cs: seq<Cmd<D>>, x: S, c: Cmd<D>)
    requires CallbacksFit(W) && Harmless(W, calls, store, K, G) && Within(cs, K(k)) && G(k)(x) && !Idempotent(Effects(W), G(k), c)
    ensures multiset(ExpandAll(W, cs, x))[c] == multiset(cs)[c]
  {
    assert Independent(W, K(k), G(k));
    ExpandAllCount(W, K(k), G(k), cs, x, c);
  }

  lemma SameFold<S(!new), L(!new), D(!new), T(!new)>(
    W: World<S, L, D, T>, calls: seq<(Cmd<D>, nat)>, store: S, K: nat -> (Cmd<D> -> bool), G: nat -> (S -> bool),
    k: nat, u: seq<Cmd<D>>, v: seq<Cmd<D>>, x: S)
    requires Harmless(W, calls, store, K, G) && Within(u, K(k)) && Within(v, K(k)) && G(k)(x)
    requires forall c :: c in u <==> c in v
    requires forall c :: !Idempotent(Effects(W), G(k), c) ==> multiset(u)[c] == multiset(v)[c]
    ensures Fold(Effects(W), u, x) == Fold(Effects(W), v, x)
  {
    assert Independent(W, K(k), G(k));
    OrderAndRepetitionIrrelevant(Effects(W), K(k), G(k), u, v, x);
  }

  lemma SameTouchesOfEpoch<S(!new), L(!new), D(!new), T(!new)>(
    W: World<S, L, D, T>, store: S, local: L, s: Sys<S, L, D, T>, K: nat -> (Cmd<D> -> bool), G: nat -> (S -> bool), k: nat, l: L)
    requires Finished(W, store, local, s, K, G)
    ensures Fold(W.touch, At(s.touches, k), l)
         == Fold(W.touch, TouchesAll(W, At(Issued(s.calls), k), Base(W, store, s.log, k)), l)
  {
    var x, cs, cmds := Base(W, store, s.log, k), At(Issued(s.calls), k), At(Tagged(s.log), k);
    SameEffectsOfEpoch(W, store, local, s, K, G, k);
    BaseFits(W, store, local, s, K, G, k);
    ExpandAllClosed(W, cs, x);
    forall y ensures (y in At(s.touches, k) <==> Asked(W, cmds, x, y)) && (y in TouchesAll(W, cs, x) <==> Asked(W, cmds, x, y)) {
      EpochTouches(W, store, local, s, K, G, k, y);
    }
    CmdsWithin(W, store, local, s, K, G, k);
    SameTouches(W, K(k), G(k), cmds, x, At(s.touches, k), TouchesAll(W, cs, x), l);
  }

  lemma CmdsWithin<S(!new), L(!new), D(!new), T(!new)>(
    W: World<S, L, D, T>, store: S, local: L, s: Sys<S, L, D, T>, K: nat -> (Cmd<D> -> bool), G: nat -> (S -> bool), k: nat)
    requires Finished(W, store, local, s, K, G)
    ensures LocalAgree(W, K(k), G(k)) && Within(At(Tagged(s.log), k), K(k))
  {
    AtWithin(W, store, local, s, K, G, k, |s.log|);
    assert Tagged(s.log)[..|s.log|] == Tagged(s.log);
    assert Independent(W, K(k), G(k));
  }

  /** What is left of an asynchronous run after its first `n` epochs. */
  ghost function After<S, L, D, T>(W: World<S, L, D, T>, store: S, local: L, s: Sys<S, L, D, T>, n: nat): Both<S, L>
  {
    Both(Base(W, store, s.log, n), Fold(W.touch, Before(s.touches, n), local))
  }

  lemma AfterStep<S, L, D, T>(W: World<S, L, D, T>, store: S, local: L, s: Sys<S, L, D, T>, k: nat)
    requires LogOk(s) && Ordered(s.touches)
    ensures After(W, store, local, s, k + 1)
         == Both(Fold(Effects(W), At(Tagged(s.log), k), After(W, store, local, s, k).store),
                 Fold(W.touch, At(s.touches, k), After(W, store, local, s, k).local))
  {
    BaseStep(W, store, s, k);
    EpochByEpoch(s.touches, k);
    FoldAppend(W.touch, Before(s.touches, k), At(s.touches, k), local);
  }

  /** Epoch `k` takes both runs from the same store and table to the same store and table. */
  ghost predicate SameEpoch<S, L, D(!new), T>(W: World<S, L, D, T>, store: S, s: Sys<S, L, D, T>, k: nat, l: L)
    requires CallbacksFit(W)
  {
    SimpleCalls(W, At(Issued(s.calls), k), Both(Base(W, store, s.log, k), l))
    == Both(Fold(Effects(W), At(Tagged(s.log), k), Base(W, store, s.log, k)), Fold(W.touch, At(s.touches, k), l))
  }

  ghost predicate EverySameEpoch<S, L(!new), D(!new), T>(W: World<S, L, D, T>, store: S, s: Sys<S, L, D, T>)
    requires CallbacksFit(W)
  {
    forall k: nat, l :: SameEpoch(W, store, s, k, l)
  }

  /** Before epoch `n`, the run in program order and the asynchronous run arrive at the same state. */
  ghost predicate AgreeBefore<S, L, D(!new), T>(W: World<S, L, D, T>, store: S, local: L, s: Sys<S, L, D, T>, n: nat)
    requires CallbacksFit(W)
  {
    SimpleCalls(W, Before(Issued(s.calls), n), Both(store, local)) == After(W, store, local, s, n)
  }

  lemma NothingBefore<S, L, D(!new), T>(W: World<S, L, D, T>, store: S, local: L, s: Sys<S, L, D, T>)
    requires CallbacksFit(W)
    ensures AgreeBefore(W, store, local, s, 0)
  {
    BeforeAll(Issued(s.calls), 0);
    BeforeAll(Tagged(s.log), 0);
    BeforeAll(s.touches, 0);
  }

  lemma NextEpochAgrees<S, L(!new), D(!new), T>(W: World<S, L, D, T>, store: S, local: L, s: Sys<S, L, D, T>, k: nat)
    requires CallbacksFit(W) && LogOk(s) && Ordered(s.touches) && Ordered(Issued(s.calls))
    requires EverySameEpoch(W, store, s)
    requires AgreeBefore(W, store, local, s, k)
    ensures AgreeBefore(W, store, local, s, k + 1)
  {
    assert SameEpoch(W, store, s, k, After(W, store, local, s, k).local);
    EpochByEpoch(Issued(s.calls), k);
    SimpleCallsAppend(W, Before(Issued(s.calls), k), At(Issued(s.calls), k), Both(store, local));
    AfterStep(W, store, local, s, k);
  }

  /** Epoch by epoch, the run in program order and the asynchronous run arrive at the same state. */
  lemma {:induction false} EpochsAgree<S, L(!new), D(!new), T>(
    W: World<S, L, D, T>, store: S, local: L, s: Sys<S, L, D, T>, n: nat)
    requires CallbacksFit(W) && LogOk(s) && Ordered(s.touches) && Ordered(Issued(s.calls))
    requires EverySameEpoch(W, store, s)
    ensures AgreeBefore(W, store, local, s, n)
  {
    if n == 0 {
      NothingBefore(W, store, local, s);
    } else {
      var k := n - 1;
      EpochsAgree(W, store, local, s, k);
      NextEpochAgrees(W, store, local, s, k);
    }
  }

  lemma OneEpoch<S(!new), L(!new), D(!new), T(!new)>(
    W: World<S, L, D, T>, store: S, local: L, s: Sys<S, L, D, T>, K: nat -> (Cmd<D> -> bool), G: nat -> (S -> bool), k: nat, l: L)
    requires Finished(W, store, local, s, K, G)
    ensures SameEpoch(W, store, s, k, l)
  {
    var x, cs := Base(W, store, s.log, k), At(Issued(s.calls), k);
    SameEffectsOfEpoch(W, store, local, s, K, G, k);
    SameTouchesOfEpoch(W, store, local, s, K, G, k, l);
    BaseFits(W, store, local, s, K, G, k);
    CalmEpoch(W, Issued(s.calls), store, K, G, k, x);
    assert LedTo(W, K(k), x, x) by { assert Within([], K(k)) && x == Fold(Effects(W), [], x); }
    SimpleCallsExpand(W, K(k), cs, x, x, l);
  }

  lemma CalmEpoch<S(!new), L(!new), D(!new), T(!new)>(
    W: World<S, L, D, T>, calls: seq<(Cmd<D>, nat)>, store: S, K: nat -> (Cmd<D> -> bool), G: nat -> (S -> bool), k: nat, x: S)
    requires Harmless(W, calls, store, K, G) && G(k)(x)
    ensures Calm(W, K(k), x)
  {
    assert Independent(W, K(k), G(k));
  }

  // ---- programs ----

  /** The client's requests of a run with the epochs in which they are made. */
  ghost function ClientCalls<D>(actions: seq<Action<D>>, epoch: nat): seq<(Cmd<D>, nat)>
  {
    if actions == [] then []
    else match actions[0]
         case Call(text, _, data) => [(Cmd(text, data), epoch)] + ClientCalls(actions[1..], epoch)
         case Fence => ClientCalls(actions[1..], epoch + 1)
         case _ => ClientCalls(actions[1..], epoch)
  }

  lemma {:induction false} ClientCallsOrdered<D>(actions: seq<Action<D>>, epoch: nat)
    ensures Ordered(ClientCalls(actions, epoch))
    ensures forall p <- ClientCalls(actions, epoch) :: epoch <= p.1
  {
    if actions != [] {
      ClientCallsOrdered(actions[1..], if actions[0].Fence? then epoch + 1 else epoch);
    }
  }

  lemma IssuedStep<S, L, D, T>(W: World<S, L, D, T>, s: Sys<S, L, D, T>, a: Action<D>)
    requires Enabled(W, s, a)
    ensures var t := Next(W, s, a);
            && Issued(t.calls) == Issued(s.calls) + CallOf(a, s.epoch)
            && t.epoch == s.epoch + if a.Fence? then 1 else 0
  {
    var t := Next(W, s, a);
    if |t.calls| > |s.calls| {
      assert t.calls[..|t.calls| - 1] == s.calls;
    }
  }

  lemma {:induction false} IssuedByRun<S, L, D, T>(W: World<S, L, D, T>, s: Sys<S, L, D, T>, actions: seq<Action<D>>, t: Sys<S, L, D, T>)
    requires Reaches(W, s, actions, t)
    ensures Issued(t.calls) == Issued(s.calls) + ClientCalls(actions, s.epoch)
    decreases |actions|
  {
    if actions != [] {
      var u := FirstStep(W, s, actions, t);
      IssuedByRun(W, u, actions[1..], t);
      FirstCall(actions, s.epoch);
      Regrouped(Issued(s.calls), CallOf(actions[0], s.epoch), ClientCalls(actions[1..], u.epoch));
    } else {
      assert ClientCalls(actions, s.epoch) == [];
    }
  }

  lemma Regrouped<A>(a: seq<A>, b: seq<A>, c: seq<A>)
    ensures (a + b) + c == a + (b + c)
  {
  }

  ghost function CallOf<D>(a: Action<D>, epoch: nat): seq<(Cmd<D>, nat)>
  {
    if a.Call? then [(Cmd(a.text, a.data), epoch)] else []
  }

  lemma FirstStep<S, L, D, T>(W: World<S, L, D, T>, s: Sys<S, L, D, T>, actions: seq<Action<D>>, t: Sys<S, L, D, T>)
    returns (u: Sys<S, L, D, T>)
    requires actions != [] && Reaches(W, s, actions, t)
    ensures Reaches(W, u, actions[1..], t) && Issued(u.calls) == Issued(s.calls) + CallOf(actions[0], s.epoch)
    ensures u.epoch == s.epoch + if actions[0].Fence? then 1 else 0
  {
    u := Next(W, s, actions[0]);
    IssuedStep(W, s, actions[0]);
  }

  lemma FirstCall<D>(actions: seq<Action<D>>, epoch: nat)
    requires actions != []
    ensures ClientCalls(actions, epoch)
         == CallOf(actions[0], epoch) + ClientCalls(actions[1..], epoch + if actions[0].Fence? then 1 else 0)
  {
  }

  lemma {:induction false} ProgramIsCalls<S, L, D(!new), T>(W: World<S, L, D, T>, actions: seq<Action<D>>, epoch: nat, b: Both<S, L>)
    requires CallbacksFit(W)
    ensures SimpleRun(W, Program(actions), b) == SimpleCalls(W, Firsts(ClientCalls(actions, epoch)), b)
    decreases |actions|
  {
    if actions != [] {
      var rest := actions[1..];
      match actions[0]
      case Call(text, _, data) =>
        var c := Cmd(text, data);
        assert ([Do(c)] + Program(rest))[1..] == Program(rest);
        ProgramIsCalls(W, rest, epoch, SimpleRequest(W, c, b));
        FirstsAppend([(c, epoch)], ClientCalls(rest, epoch));
        assert Firsts([(c, epoch)]) == [c];
        SimpleCallsAppend(W, [c], Firsts(ClientCalls(rest, epoch)), b);
        assert SimpleCalls(W, [c], b) == SimpleRequest(W, c, b);
      case Fence =>
        assert ([Barrier] + Program(rest))[1..] == Program(rest);
        ProgramIsCalls(W, rest, epoch + 1, b);
      case _ =>
        assert [] + Program(rest) == Program(rest);
        ProgramIsCalls(W, rest, epoch, b);
    }
  }

  lemma ClientCallsWithin<S, L, D, T>(W: World<S, L, D, T>, s: Sys<S, L, D, T>, p: (Cmd<D>, nat))
    requires CallsOk(W, s) && p in Issued(s.calls)
    ensures p.1 < s.epoch + 1
  {
    IssuedMember(s.calls, p);
  }

  lemma EpochsEnd<S, L, D, T>(W: World<S, L, D, T>, store: S, local: L, s: Sys<S, L, D, T>)
    requires Sound(W, store, local, s)
    ensures Before(Issued(s.calls), s.epoch + 1) == Firsts(Issued(s.calls))
    ensures Base(W, store, s.log, s.epoch + 1) == s.store
    ensures Fold(W.touch, Before(s.touches, s.epoch + 1), local) == s.local
  {
    var n := s.epoch + 1;
    forall p | p in Issued(s.calls) ensures p.1 < n { ClientCallsWithin(W, s, p); }
    BeforeAll(Issued(s.calls), n);
    PassedWithinEpoch(W, s);
    assert forall p <- Tagged(s.log) :: p.1 < n;
    BeforeAll(Tagged(s.log), n);
    ReplayIsFold(W, store, s.log);
    BeforeAll(s.touches, n);
    ReliveIsFold(W, local, s.touches);
  }

  lemma FinalState<S(!new), L(!new), D(!new), T(!new)>(
    W: World<S, L, D, T>, store: S, local: L, s: Sys<S, L, D, T>, K: nat -> (Cmd<D> -> bool), G: nat -> (S -> bool))
    requires Finished(W, store, local, s, K, G) && Ordered(Issued(s.calls))
    ensures SimpleCalls(W, Firsts(Issued(s.calls)), Both(store, local)) == Both(s.store, s.local)
  {
    forall k: nat, l ensures SameEpoch(W, store, s, k, l) {
      OneEpoch(W, store, local, s, K, G, k, l);
    }
    EpochsAgree(W, store, local, s, s.epoch + 1);
    EpochsEnd(W, store, local, s);
  }

  lemma IssuedInOrder<S, L, D(!new), T(!new)>(
    W: World<S, L, D, T>, store: S, local: L, actions: seq<Action<D>>, s: Sys<S, L, D, T>)
    requires CallbacksFit(W) && Reachable(W, store, local, actions, s)
    ensures Sound(W, store, local, s) && Issued(s.calls) == ClientCalls(actions, 0) && Ordered(Issued(s.calls))
  {
    ReachableIsSound(W, store, local, actions, s);
    IssuedByRun(W, Initial(store, local), actions, s);
    assert Issued(s.calls) == ClientCalls(actions, 0);
    ClientCallsOrdered(actions, 0);
  }

  /** Both backends do the same thing.  Any run that starts from `store` and `local`, follows the
      client program `Program(actions)` with any schedule of workers, sockets and server handlers
      between, and ends with nothing left, ends with the store and the table that the simple
      backend computes for that program, if the program is harmless. */
  lemma AsyncDoesWhatSimpleDoes<S(!new), L(!new), D(!new), T(!new)>(
    W: World<S, L, D, T>, store: S, local: L, actions: seq<Action<D>>, s: Sys<S, L, D, T>,
    K: nat -> (Cmd<D> -> bool), G: nat -> (S -> bool))
    requires CallbacksFit(W) && Reachable(W, store, local, actions, s) && Quiescent(s)
    requires Harmless(W, ClientCalls(actions, 0), store, K, G)
    ensures Both(s.store, s.local) == SimpleRun(W, Program(actions), Both(store, local))
  {
    IssuedInOrder(W, store, local, actions, s);
    FinalState(W, store, local, s, K, G);
    ProgramIsCalls(W, actions, 0, Both(store, local));
  }
}
