/** A way to run any program: between two barriers the workers take nothing out, so that of the calls
    with one unnumbered text only the first is kept. */
module Lazy {
  import opened Wrappers
  import opened MsgOrder
  import opened Protocol
  import opened SimpleBackend
  import opened Runs
  import opened Flow
  import opened Guarantees
  import Drain

  /** A client's call that has not been merged. */
  ghost predicate Kept<S, L, D, T>(s: Sys<S, L, D, T>, e: Entry<D>)
  {
    e in s.calls && e !in s.dropped && e.data.parent.None?
  }

  /** The same text between the same two barriers. */
  ghost predicate SameCall<D>(c: Entry<D>, d: Entry<D>)
  {
    c.text == d.text && c.data.epoch == d.data.epoch
  }

  /** Of the clients' calls with one unnumbered text, at most one is kept in each epoch. */
  ghost predicate Single<S, L, D(!new), T>(W: World<S, L, D, T>, s: Sys<S, L, D, T>)
  {
    forall c: Entry<D>, d: Entry<D> :: Kept(s, c) && Kept(s, d) && SameCall(c, d) && !W.unique(c.text) ==> c == d
  }

  /** All calls of this epoch are the clients' and wait, unless they have been merged. */
  ghost predicate AllWait<S, L, D, T>(s: Sys<S, L, D, T>)
  {
    forall e <- s.calls :: e.data.epoch == s.epoch ==> e.data.parent.None? && (e in s.queue || e in s.dropped)
  }

  ghost predicate Free<S, L, D, T>(s: Sys<S, L, D, T>)
  {
    forall l <- s.lanes :: l == Lane(Idle, [], [], None)
  }

  // ---- a call while no worker takes anything ----

  lemma CallStep<S, L, D(!new), T(!new)>(W: World<S, L, D, T>, s: Sys<S, L, D, T>, c: Cmd<D>) returns (t: Sys<S, L, D, T>)
    requires CallbacksFit(W) && FlowOk(W, s) && Single(W, s) && AllWait(s)
    ensures StepTo(W, s, Call(c.text, !W.replies(c.text), c.data), t)
    ensures FlowOk(W, t) && Single(W, t) && AllWait(t) && t.lanes == s.lanes && t.epoch == s.epoch
  {
    t := Next(W, s, Call(c.text, !W.replies(c.text), c.data));
    var m := t.calls[|s.calls|];
    StepFlow(W, s, Call(c.text, !W.replies(c.text), c.data));
    MergedExactlyWhenWaiting(W, s, c.text, !W.replies(c.text), c.data, None);
    StillSingle(W, s, t, m);
    AllStillWait(W, s, t, m);
  }

  lemma AllStillWait<S, L, D, T>(W: World<S, L, D, T>, s: Sys<S, L, D, T>, t: Sys<S, L, D, T>, m: Entry<D>)
    requires FlowOk(W, s) && AllWait(s) && t.calls == s.calls + [m] && m.data.parent.None? && t.epoch == s.epoch
    requires t.queue == Insert(s.queue, m) && t.dropped == if Present(s.queue, m) then s.dropped + [m] else s.dropped
    ensures AllWait(t)
  {
    QueueGrows(W, s, t, m);
  }

  lemma QueueGrows<S, L, D, T>(W: World<S, L, D, T>, s: Sys<S, L, D, T>, t: Sys<S, L, D, T>, m: Entry<D>)
    requires FlowOk(W, s) && t.queue == Insert(s.queue, m) && (Present(s.queue, m) || t.dropped == s.dropped)
    requires Present(s.queue, m) ==> m in t.dropped
    ensures (forall e <- s.queue :: e in t.queue) && (m in t.queue || m in t.dropped)
  {
    InsertKeepsOneOfEachClass(s.queue, m);
    forall e | !Present(s.queue, m) && (e in s.queue || e == m) ensures e in t.queue {
      assert e in multiset(t.queue);
    }
  }

  /** The new call is kept only if none with its text waits, and those kept of this epoch wait. */
  lemma StillSingle<S, L, D(!new), T>(W: World<S, L, D, T>, s: Sys<S, L, D, T>, t: Sys<S, L, D, T>, m: Entry<D>)
    requires Single(W, s) && AllWait(s) && t.calls == s.calls + [m] && m.data.epoch == s.epoch
    requires s.dropped <= t.dropped && forall e <- t.dropped :: e in s.dropped || e == m
    requires m in t.dropped || W.unique(m.text) || forall e <- s.queue :: e.text != m.text
    ensures Single(W, t)
  {
    forall c, d | Kept(t, c) && Kept(t, d) && SameCall(c, d) && !W.unique(c.text) ensures c == d {
      assert c == m || Kept(s, c);
      assert d == m || Kept(s, d);
    }
  }

  /** The calls up to the next barrier. */
  lemma {:induction false} LazyCalls<S, L, D(!new), T(!new)>(W: World<S, L, D, T>, s: Sys<S, L, D, T>, ops: seq<Op<D>>)
    returns (actions: seq<Action<D>>, t: Sys<S, L, D, T>, rest: seq<Op<D>>)
    requires CallbacksFit(W) && FlowOk(W, s) && Single(W, s) && AllWait(s)
    ensures Reaches(W, s, actions, t) && Program(actions) + rest == ops && (rest == [] || rest[0].Barrier?) && |rest| <= |ops|
    ensures FlowOk(W, t) && Single(W, t) && AllWait(t) && t.lanes == s.lanes && t.epoch == s.epoch
    decreases |ops|
  {
    if ops == [] || ops[0].Barrier? {
      actions, t, rest := [], s, ops;
      assert Program(actions) + ops == ops;
    } else {
      var c := ops[0].cmd;
      var u := CallStep(W, s, c);
      var more;
      more, t, rest := LazyCalls(W, u, ops[1..]);
      actions := CallFirst(W, s, c, u, more, t, rest);
      assert [Do(c)] + ops[1..] == ops;
    }
  }

  lemma CallFirst<S, L, D, T>(
    W: World<S, L, D, T>, s: Sys<S, L, D, T>, c: Cmd<D>, u: Sys<S, L, D, T>, more: seq<Action<D>>, t: Sys<S, L, D, T>, rest: seq<Op<D>>)
    returns (actions: seq<Action<D>>)
    requires StepTo(W, s, Call(c.text, !W.replies(c.text), c.data), u) && Reaches(W, u, more, t)
    ensures Reaches(W, s, actions, t) && Program(actions) + rest == [Do(c)] + (Program(more) + rest)
  {
    actions := [Call(c.text, !W.replies(c.text), c.data)] + more;
    AddStep(W, s, Call(c.text, !W.replies(c.text), c.data), u, more, t);
    OneCallProgram(c.text, !W.replies(c.text), c.data, more);
  }

  // ---- the workers alone ----

  ghost predicate SameClients<S, L, D(!new), T>(s: Sys<S, L, D, T>, t: Sys<S, L, D, T>)
  {
    && t.epoch == s.epoch
    && forall e: Entry<D> :: e.data.parent.None? ==> (e in t.calls <==> e in s.calls) && (e in t.dropped <==> e in s.dropped)
  }

  lemma SameClientsStep<S, L, D(!new), T>(W: World<S, L, D, T>, s: Sys<S, L, D, T>, a: Action<D>)
    requires Enabled(W, s, a) && Drain.Internal(a)
    ensures SameClients(s, Next(W, s, a))
  {
  }

  lemma {:induction false} WorkersOnly<S, L, D(!new), T>(W: World<S, L, D, T>, s: Sys<S, L, D, T>, actions: seq<Action<D>>, t: Sys<S, L, D, T>)
    requires Reaches(W, s, actions, t) && NoClient(actions)
    ensures SameClients(s, t)
    decreases |actions|
  {
    if actions != [] {
      var u := TakeStep(W, s, actions, t);
      SameClientsStep(W, s, actions[0]);
      WorkersOnly(W, u, actions[1..], t);
    }
  }

  lemma {:induction false} FlowStays<S, L, D(!new), T(!new)>(W: World<S, L, D, T>, s: Sys<S, L, D, T>, actions: seq<Action<D>>, t: Sys<S, L, D, T>)
    requires CallbacksFit(W) && FlowOk(W, s) && Reaches(W, s, actions, t)
    ensures FlowOk(W, t)
    decreases |actions|
  {
    if actions != [] {
      var u := TakeStep(W, s, actions, t);
      StepFlow(W, s, actions[0]);
      FlowStays(W, u, actions[1..], t);
    }
  }

  lemma SinglesStay<S, L, D(!new), T>(W: World<S, L, D, T>, s: Sys<S, L, D, T>, t: Sys<S, L, D, T>)
    requires SameClients(s, t) && Single(W, s)
    ensures Single(W, t)
  {
    forall e | Kept(t, e) ensures Kept(s, e) {
    }
  }

  lemma Drained<S, L, D(!new), T(!new)>(W: World<S, L, D, T>, s: Sys<S, L, D, T>) returns (actions: seq<Action<D>>, t: Sys<S, L, D, T>)
    requires CallbacksFit(W) && Drain.TwoRanks(W) && FlowOk(W, s) && Single(W, s)
    ensures Reaches(W, s, actions, t) && NoClient(actions) && Program(actions) == []
    ensures Quiescent(t) && FlowOk(W, t) && Single(W, t) && t.epoch == s.epoch
  {
    actions, t := Drain.DrainCompletes(W, s);
    NoClientProgram(actions);
    FlowStays(W, s, actions, t);
    WorkersOnly(W, s, actions, t);
    SinglesStay(W, s, t);
  }

  /** Workers that have only barriers to send. */
  ghost predicate Settled<S, L, D, T>(s: Sys<S, L, D, T>)
  {
    s.queue == [] && forall l <- s.lanes :: l.worker.Idle? || l.worker.Due?
  }

  lemma SettledStep<S, L, D, T>(W: World<S, L, D, T>, s: Sys<S, L, D, T>, a: Action<D>)
    requires Enabled(W, s, a) && Drain.Internal(a) && Settled(s)
    ensures var t := Next(W, s, a); Settled(t) && t.calls == s.calls && t.epoch == s.epoch
  {
    forall w | 0 <= w < |s.lanes| ensures s.lanes[w].worker.Idle? || s.lanes[w].worker.Due? {
      assert s.lanes[w] in s.lanes;
    }
    assert a.SendBarrier? || a.Serve? || a.Arrive? || a.Release?;
    if a.Release? {
      SettledLanes(s, Next(W, s, a));
    } else {
      SettledLane(s, a.w, Next(W, s, a).lanes[a.w]);
    }
  }

  lemma SettledLane<S, L, D, T>(s: Sys<S, L, D, T>, w: nat, l: Lane<D, T>)
    requires Settled(s) && w < |s.lanes| && (l.worker.Idle? || l.worker == s.lanes[w].worker)
    ensures Settled(Put(s, w, l))
  {
    assert s.lanes[w] in s.lanes;
    forall x | x in s.lanes[w := l] ensures x.worker.Idle? || x.worker.Due? {
      assert x == l || x in s.lanes;
    }
  }

  lemma SettledLanes<S, L, D, T>(s: Sys<S, L, D, T>, t: Sys<S, L, D, T>)
    requires Settled(s) && t.lanes == Unblock(s.lanes) && t.queue == s.queue
    ensures Settled(t)
  {
    forall i | 0 <= i < |t.lanes| ensures t.lanes[i].worker.Idle? || t.lanes[i].worker.Due? {
      assert s.lanes[i] in s.lanes;
    }
  }

  lemma {:induction false} SettledStays<S, L, D, T>(W: World<S, L, D, T>, s: Sys<S, L, D, T>, actions: seq<Action<D>>, t: Sys<S, L, D, T>)
    requires Settled(s) && Reaches(W, s, actions, t) && NoClient(actions)
    ensures t.calls == s.calls && t.epoch == s.epoch
    decreases |actions|
  {
    if actions != [] {
      var u := TakeStep(W, s, actions, t);
      SettledStep(W, s, actions[0]);
      SettledStays(W, u, actions[1..], t);
    }
  }

  // ---- through a barrier ----

  lemma FenceStep<S, L, D(!new), T(!new)>(W: World<S, L, D, T>, s: Sys<S, L, D, T>) returns (t: Sys<S, L, D, T>)
    requires CallbacksFit(W) && FlowOk(W, s) && Quiescent(s) && Single(W, s)
    ensures StepTo(W, s, Fence, t) && t.epoch == s.epoch + 1 && FlowOk(W, t) && Single(W, t) && Settled(t)
    ensures forall e <- t.calls :: e.data.epoch < t.epoch
  {
    t := Next(W, s, Fence);
    StepFlow(W, s, Fence);
    forall e | Kept(t, e) ensures Kept(s, e) {
    }
  }

  /** Emptying the channel, going through a barrier, and letting the server finish it. */
  lemma BarrierStep<S, L, D(!new), T(!new)>(W: World<S, L, D, T>, s: Sys<S, L, D, T>)
    returns (actions: seq<Action<D>>, t: Sys<S, L, D, T>)
    requires CallbacksFit(W) && Drain.TwoRanks(W) && FlowOk(W, s) && Single(W, s)
    ensures Reaches(W, s, actions, t) && Program(actions) == [Barrier]
    ensures Quiescent(t) && FlowOk(W, t) && Single(W, t) && AllWait(t) && t.epoch == s.epoch + 1
  {
    var drain, u := Drained(W, s);
    var v := FenceStep(W, u);
    var more;
    more, t := Drained(W, v);
    SettledStays(W, v, more, t);
    FenceFirst(W, u, v, more, t);
    actions := Then(W, s, drain, u, [Fence] + more, t, []);
  }

  lemma FenceFirst<S, L, D, T>(W: World<S, L, D, T>, s: Sys<S, L, D, T>, u: Sys<S, L, D, T>, more: seq<Action<D>>, t: Sys<S, L, D, T>)
    requires StepTo(W, s, Fence, u) && Reaches(W, u, more, t) && Program(more) == []
    ensures Reaches(W, s, [Fence] + more, t) && Program([Fence] + more) == [Barrier]
  {
    AddStep(W, s, Fence, u, more, t);
    assert ([Fence] + more)[1..] == more;
  }

  lemma Then<S, L, D, T>(
    W: World<S, L, D, T>, s: Sys<S, L, D, T>, a: seq<Action<D>>, u: Sys<S, L, D, T>, b: seq<Action<D>>, t: Sys<S, L, D, T>, rest: seq<Op<D>>)
    returns (actions: seq<Action<D>>)
    requires Reaches(W, s, a, u) && Reaches(W, u, b, t)
    ensures Reaches(W, s, actions, t) && Program(actions) == Program(a) + Program(b)
    ensures Program(actions) + rest == Program(a) + (Program(b) + rest)
  {
    actions := a + b;
    ReachesAppend(W, s, a, u, b, t);
    ProgramAppend(a, b);
  }

  /** One epoch, and the barrier behind it if there is one. */
  lemma LazyEpoch<S, L, D(!new), T(!new)>(W: World<S, L, D, T>, s: Sys<S, L, D, T>, ops: seq<Op<D>>)
    returns (actions: seq<Action<D>>, t: Sys<S, L, D, T>, rest: seq<Op<D>>)
    requires CallbacksFit(W) && Drain.TwoRanks(W) && FlowOk(W, s) && Single(W, s) && AllWait(s)
    ensures Reaches(W, s, actions, t) && Program(actions) + rest == ops
    ensures FlowOk(W, t) && Single(W, t) && AllWait(t)
    ensures if t.epoch == s.epoch then rest == [] && t.lanes == s.lanes else t.epoch == s.epoch + 1 && Quiescent(t) && |rest| < |ops|
  {
    actions, t, rest := LazyCalls(W, s, ops);
    if rest != [] {
      var barrier, v := BarrierStep(W, t);
      assert [Barrier] + rest[1..] == rest;
      actions := Then(W, s, actions, t, barrier, v, rest[1..]);
      t, rest := v, rest[1..];
    }
  }

  /** Up to the end of epoch `k`, of which all calls then wait. */
  lemma {:induction false} LazyUpTo<S, L, D(!new), T(!new)>(W: World<S, L, D, T>, s: Sys<S, L, D, T>, ops: seq<Op<D>>, k: nat)
    returns (actions: seq<Action<D>>, t: Sys<S, L, D, T>, rest: seq<Op<D>>)
    requires CallbacksFit(W) && Drain.TwoRanks(W) && FlowOk(W, s) && Single(W, s) && AllWait(s) && Free(s) && s.epoch <= k
    ensures Reaches(W, s, actions, t) && Program(actions) + rest == ops && (rest == [] || rest[0].Barrier?)
    ensures FlowOk(W, t) && Single(W, t) && AllWait(t) && Free(t) && (t.epoch == k || (rest == [] && t.epoch < k))
    decreases |ops|
  {
    if s.epoch == k {
      actions, t, rest := LazyCalls(W, s, ops);
    } else {
      var first, u, later := LazyEpoch(W, s, ops);
      if u.epoch == s.epoch {
        actions, t, rest := first, u, later;
      } else {
        var more;
        more, t, rest := LazyUpTo(W, u, later, k);
        actions := Then(W, s, first, u, more, t, rest);
      }
    }
  }

  /** Any program can be run so, and to the end. */
  lemma {:induction false} LazyRun<S, L, D(!new), T(!new)>(W: World<S, L, D, T>, s: Sys<S, L, D, T>, ops: seq<Op<D>>)
    returns (actions: seq<Action<D>>, t: Sys<S, L, D, T>)
    requires CallbacksFit(W) && Drain.TwoRanks(W) && FlowOk(W, s) && Single(W, s) && AllWait(s)
    ensures Reaches(W, s, actions, t) && Program(actions) == ops
    ensures Quiescent(t) && FlowOk(W, t) && Single(W, t)
    decreases |ops|
  {
    var first, u, later := LazyEpoch(W, s, ops);
    var more;
    if u.epoch == s.epoch {
      more, t := Drained(W, u);
    } else {
      more, t := LazyRun(W, u, later);
    }
    actions := Then(W, s, first, u, more, t, []);
  }

  /** From the end of an epoch to the end of the program. */
  lemma LazyRest<S, L, D(!new), T(!new)>(W: World<S, L, D, T>, s: Sys<S, L, D, T>, ops: seq<Op<D>>)
    returns (actions: seq<Action<D>>, t: Sys<S, L, D, T>)
    requires CallbacksFit(W) && Drain.TwoRanks(W) && FlowOk(W, s) && Single(W, s) && (ops == [] || ops[0].Barrier?)
    ensures Reaches(W, s, actions, t) && Program(actions) == ops
    ensures Quiescent(t) && FlowOk(W, t) && Single(W, t)
  {
    if ops == [] {
      actions, t := Drained(W, s);
    } else {
      actions, t := LazyBehind(W, s, ops[1..]);
      assert [Barrier] + ops[1..] == ops;
    }
  }

  lemma LazyBehind<S, L, D(!new), T(!new)>(W: World<S, L, D, T>, s: Sys<S, L, D, T>, ops: seq<Op<D>>)
    returns (actions: seq<Action<D>>, t: Sys<S, L, D, T>)
    requires CallbacksFit(W) && Drain.TwoRanks(W) && FlowOk(W, s) && Single(W, s)
    ensures Reaches(W, s, actions, t) && Program(actions) == [Barrier] + ops
    ensures Quiescent(t) && FlowOk(W, t) && Single(W, t)
  {
    var barrier, u := BarrierStep(W, s);
    var more;
    more, t := LazyRun(W, u, ops);
    actions := Then(W, s, barrier, u, more, t, []);
  }
}
