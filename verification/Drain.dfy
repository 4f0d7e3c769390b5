/** Draining ends: without client calls the system cannot run for ever, and it can always go on
    until nothing is left, so every barrier returns. */
module Drain {
  import opened Wrappers
  import opened MsgOrder
  import opened Protocol
  import opened Flow
  import opened History

  // ---- how much is left to do ----

  /** A message whose callback has not begun, counted if it can (1) or cannot (0) make requests. */
  ghost function Unbegun<S, L, D, T>(W: World<S, L, D, T>, e: Entry<D>, rank: nat): nat
  {
    if W.rank(e.data.data) == rank then 1 else 0
  }

  ghost function QueueUnbegun<S, L, D, T>(W: World<S, L, D, T>, q: seq<Entry<D>>, rank: nat): nat
  {
    if q == [] then 0 else Unbegun(W, q[0], rank) + QueueUnbegun(W, q[1..], rank)
  }

  ghost function RequestsLeft<D, T>(todo: seq<Act<D, T>>): nat
  {
    if todo == [] then 0 else (if todo[0].Request? then 1 else 0) + RequestsLeft(todo[1..])
  }

  /** Requests without rank made and still to be made by the callback, on one lane. */
  ghost function LaneUnbegun<S, L, D, T>(W: World<S, L, D, T>, l: Lane<D, T>, rank: nat): nat
  {
    match l.worker
    case Holding(e) => Unbegun(W, e, rank)
    case Awaiting(e) => Unbegun(W, e, rank)
    case Calling(_, todo) => if rank == 0 then RequestsLeft(todo) else 0
    case _ => 0
  }

  /** Small steps left on one lane, apart from callbacks that have not begun. */
  ghost function LaneSteps<D, T>(l: Lane<D, T>): nat
  {
    (match l.worker
     case Idle => 0
     case Holding(_) => 9
     case Awaiting(_) => 2
     case Calling(_, todo) => 1 + 12 * |todo|
     case Due(_) => 5)
    + 3 * |l.up| + 2 * |l.down| + if l.at.Some? then 2 else 0
  }

  ghost function Total<D, T>(lanes: seq<Lane<D, T>>, f: Lane<D, T> -> nat): nat
  {
    if lanes == [] then 0 else f(lanes[0]) + Total(lanes[1..], f)
  }

  lemma {:induction false} TotalUpdate<D, T>(lanes: seq<Lane<D, T>>, f: Lane<D, T> -> nat, w: nat, l: Lane<D, T>)
    requires w < |lanes|
    ensures Total(lanes[w := l], f) + f(lanes[w]) == Total(lanes, f) + f(l)
  {
    if w == 0 {
      assert lanes[w := l][1..] == lanes[1..];
    } else {
      assert lanes[w := l][1..] == lanes[1..][w - 1 := l];
      TotalUpdate(lanes[1..], f, w - 1, l);
    }
  }

  lemma {:induction false} TotalPointwise<D, T>(a: seq<Lane<D, T>>, b: seq<Lane<D, T>>, f: Lane<D, T> -> nat, gap: nat)
    requires |a| == |b| && forall i :: 0 <= i < |a| ==> f(a[i]) == f(b[i]) + gap
    ensures Total(a, f) == Total(b, f) + |a| * gap
  {
    if a != [] {
      TotalPointwise(a[1..], b[1..], f, gap);
    }
  }

  ghost function Left<S, L, D, T>(W: World<S, L, D, T>, s: Sys<S, L, D, T>, rank: nat): nat
  {
    QueueUnbegun(W, s.queue, rank) + Total(s.lanes, (l: Lane<D, T>) => LaneUnbegun(W, l, rank))
  }

  ghost function Steps<S, L, D, T>(s: Sys<S, L, D, T>): nat
  {
    10 * |s.queue| + Total(s.lanes, (l: Lane<D, T>) => LaneSteps(l))
  }

  ghost predicate Internal<D>(a: Action<D>)
  {
    !a.Call? && !a.Fence?
  }

  /** List requests make key requests, and key requests make none. */
  ghost predicate TwoRanks<S, L, D(!new), T>(W: World<S, L, D, T>)
  {
    forall d: D :: W.rank(d) <= 1
  }

  /** Lexicographic descent: callbacks that can make requests, other callbacks, small steps. */
  ghost predicate Lower<S, L, D, T>(W: World<S, L, D, T>, t: Sys<S, L, D, T>, s: Sys<S, L, D, T>)
  {
    || Left(W, t, 1) < Left(W, s, 1)
    || (Left(W, t, 1) == Left(W, s, 1) && Left(W, t, 0) < Left(W, s, 0))
    || (Left(W, t, 1) == Left(W, s, 1) && Left(W, t, 0) == Left(W, s, 0) && Steps(t) < Steps(s))
  }

  // ---- every internal step lowers it ----

  lemma LaneChange<S, L, D, T>(W: World<S, L, D, T>, s: Sys<S, L, D, T>, w: nat, l: Lane<D, T>)
    requires w < |s.lanes|
    ensures Left(W, Put(s, w, l), 1) + LaneUnbegun(W, s.lanes[w], 1) == Left(W, s, 1) + LaneUnbegun(W, l, 1)
    ensures Left(W, Put(s, w, l), 0) + LaneUnbegun(W, s.lanes[w], 0) == Left(W, s, 0) + LaneUnbegun(W, l, 0)
    ensures Steps(Put(s, w, l)) + LaneSteps(s.lanes[w]) == Steps(s) + LaneSteps(l)
  {
    TotalUpdate(s.lanes, (l: Lane<D, T>) => LaneUnbegun(W, l, 1), w, l);
    TotalUpdate(s.lanes, (l: Lane<D, T>) => LaneUnbegun(W, l, 0), w, l);
    TotalUpdate(s.lanes, (l: Lane<D, T>) => LaneSteps(l), w, l);
  }

  lemma {:induction false} QueueSplit<S, L, D, T>(W: World<S, L, D, T>, q: seq<Entry<D>>, i: nat, rank: nat)
    requires i < |q|
    ensures QueueUnbegun(W, q, rank) == QueueUnbegun(W, q[..i] + q[i + 1..], rank) + Unbegun(W, q[i], rank)
  {
    if i == 0 {
      assert q[..0] + q[1..] == q[1..];
    } else {
      QueueSplit(W, q[1..], i - 1, rank);
      assert (q[..i] + q[i + 1..])[1..] == q[1..][..i - 1] + q[1..][i..];
    }
  }

  lemma {:induction false} InsertUnbegun<S, L, D, T>(W: World<S, L, D, T>, q: seq<Entry<D>>, e: Entry<D>, rank: nat)
    ensures QueueUnbegun(W, Insert(q, e), rank) <= QueueUnbegun(W, q, rank) + Unbegun(W, e, rank)
    ensures |Insert(q, e)| <= |q| + 1
  {
    if q != [] {
      if Less(e, q[0]) {
        assert ([e] + q)[1..] == q;
      } else if Less(q[0], e) {
        InsertUnbegun(W, q[1..], e, rank);
        assert ([q[0]] + Insert(q[1..], e))[1..] == Insert(q[1..], e);
      }
    }
  }

  lemma PopLowers<S, L, D, T>(W: World<S, L, D, T>, s: Sys<S, L, D, T>, w: nat, i: nat)
    requires Enabled(W, s, Pop(w, i))
    ensures Lower(W, Next(W, s, Pop(w, i)), s)
  {
    LaneChange(W, s, w, s.lanes[w].(worker := Holding(s.queue[i])));
    QueueSplit(W, s.queue, i, 1);
    QueueSplit(W, s.queue, i, 0);
  }

  lemma RunLowers<S, L, D, T>(W: World<S, L, D, T>, s: Sys<S, L, D, T>, w: nat)
    requires FlowOk(W, s) && Enabled(W, s, Run(w)) && W.rank(s.lanes[w].worker.entry.data.data) <= 1
    ensures Lower(W, Next(W, s, Run(w)), s)
  {
    var l := s.lanes[w];
    assert l in s.lanes && LaneOk(W, l, s.epoch, s.passed);
    var t := RunStep(W, s, w);
    if l.worker.todo == [] {
      LaneChange(W, s, w, l.(worker := Idle));
    } else {
      LaneChange(W, s, w, l.(worker := Calling(l.worker.entry, l.worker.todo[1..])));
      if l.worker.todo[0].Request? {
        assert l.worker.todo[0] in l.worker.todo;
        InsertUnbegun(W, s.queue, t.calls[|s.calls|], 0);
        InsertUnbegun(W, s.queue, t.calls[|s.calls|], 1);
      }
    }
  }

  lemma {:induction false} NoRequests<D, T>(todo: seq<Act<D, T>>)
    requires forall a <- todo :: !a.Request?
    ensures RequestsLeft(todo) == 0
  {
    if todo != [] {
      NoRequests(todo[1..]);
    }
  }

  lemma ReceiveLowers<S, L, D(!new), T(!new)>(W: World<S, L, D, T>, s: Sys<S, L, D, T>, w: nat)
    requires CallbacksFit(W) && TwoRanks(W) && FlowOk(W, s) && Enabled(W, s, Receive(w))
    ensures Lower(W, Next(W, s, Receive(w)), s)
  {
    var l := s.lanes[w];
    var e := l.worker.entry;
    var todo := W.plan(e.data.data, l.down[0]);
    LaneChange(W, s, w, l.(worker := Calling(e, todo), down := l.down[1..]));
    if W.rank(e.data.data) == 0 {
      NoRequests(todo);
    }
  }

  lemma StepLowers<S, L, D(!new), T(!new)>(W: World<S, L, D, T>, s: Sys<S, L, D, T>, a: Action<D>)
    requires CallbacksFit(W) && TwoRanks(W) && FlowOk(W, s) && Enabled(W, s, a) && Internal(a)
    ensures Lower(W, Next(W, s, a), s)
  {
    match a
    case Pop(w, i) => PopLowers(W, s, w, i);
    case Send(w) =>
      var l := s.lanes[w];
      var e := l.worker.entry;
      LaneChange(W, s, w, l.(up := l.up + [Req(e)], worker := if e.noreply then Idle else Awaiting(e)));
    case SendBarrier(w) =>
      var l := s.lanes[w];
      LaneChange(W, s, w, l.(up := l.up + [Bar(l.worker.id)], worker := Idle));
    case Serve(w) => LaneChange(W, s, w, ServeStep(W, s, w).lanes[w]);
    case Arrive(w) =>
      var l := s.lanes[w];
      LaneChange(W, s, w, l.(up := l.up[1..], at := Some(l.up[0].id)));
    case Release(id) => ReleaseLowers(W, s, id);
    case Receive(w) => ReceiveLowers(W, s, w);
    case Run(w) =>
      assert s.lanes[w] in s.lanes;
      RunLowers(W, s, w);
  }

  lemma ReleaseLowers<S, L, D, T>(W: World<S, L, D, T>, s: Sys<S, L, D, T>, id: nat)
    requires |s.lanes| == NTHREADS && Enabled(W, s, Release(id))
    ensures Lower(W, Next(W, s, Release(id)), s)
  {
    var t := Next(W, s, Release(id));
    forall i | 0 <= i < |s.lanes|
      ensures s.lanes[i].at.Some? && t.lanes[i] == s.lanes[i].(at := None)
    {
      assert s.lanes[i] in s.lanes;
    }
    TotalPointwise(s.lanes, t.lanes, (l: Lane<D, T>) => LaneUnbegun(W, l, 1), 0);
    TotalPointwise(s.lanes, t.lanes, (l: Lane<D, T>) => LaneUnbegun(W, l, 0), 0);
    TotalPointwise(s.lanes, t.lanes, (l: Lane<D, T>) => LaneSteps(l), 2);
  }

  // ---- and one is always possible ----

  /** What a lane can do by itself. */
  ghost function OwnMove<D, T>(l: Lane<D, T>, w: nat): Option<Action<D>>
  {
    match l.worker
    case Holding(_) => Some(Send(w))
    case Due(_) => Some(SendBarrier(w))
    case Calling(_, _) => Some(Run(w))
    case Awaiting(_) => if l.down != [] then Some(Receive(w)) else ServerMove(l, w)
    case Idle => ServerMove(l, w)
  }

  ghost function ServerMove<D, T>(l: Lane<D, T>, w: nat): Option<Action<D>>
  {
    if l.at.Some? || l.up == [] then None
    else if l.up[0].Req? then Some(Serve(w)) else Some(Arrive(w))
  }

  /** If no lane can move, either all handlers wait at the same barrier, or none does and all
      lanes are idle and empty. */
  lemma StuckLanes<S, L, D, T>(W: World<S, L, D, T>, s: Sys<S, L, D, T>, v: nat, w: nat)
    requires FlowOk(W, s) && v < |s.lanes| && w < |s.lanes|
    requires OwnMove(s.lanes[v], v) == None && OwnMove(s.lanes[w], w) == None
    ensures s.lanes[v].at.Some? ==> s.lanes[w].at == s.lanes[v].at == Some(s.passed)
    ensures s.lanes[v].at.None? ==> s.lanes[v] == Lane(Idle, [], [], None)
  {
    var a, b := s.lanes[v], s.lanes[w];
    assert a in s.lanes && b in s.lanes && LaneOk(W, a, s.epoch, s.passed) && LaneOk(W, b, s.epoch, s.passed);
    StreamBounds(a.up, s.passed + (if a.at.Some? then 1 else 0), s.epoch);
    StreamBounds(b.up, s.passed + (if b.at.Some? then 1 else 0), s.epoch);
  }

  /** There is no deadlock: while anything is left, some internal step is possible. */
  lemma NoDeadlock<S, L, D, T>(W: World<S, L, D, T>, s: Sys<S, L, D, T>) returns (a: Action<D>)
    requires FlowOk(W, s) && !Quiescent(s)
    ensures Internal(a) && Enabled(W, s, a)
  {
    if w :| 0 <= w < |s.lanes| && OwnMove(s.lanes[w], w).Some? {
      a := OwnMove(s.lanes[w], w).value;
      return;
    }
    forall l | l in s.lanes
      ensures s.lanes[0].at.Some? ==> l.at == Some(s.passed)
      ensures s.lanes[0].at.None? ==> l == Lane(Idle, [], [], None)
    {
      var v :| 0 <= v < |s.lanes| && s.lanes[v] == l;
      StuckLanes(W, s, 0, v);
      StuckLanes(W, s, v, 0);
    }
    assert s.lanes[0] in s.lanes;
    if s.lanes[0].at.Some? {
      a := Release(s.passed);
    } else {
      a := Pop(0, 0);
    }
  }

  /** From every reachable state the system runs empty by internal steps alone. */
  lemma {:induction false} DrainCompletes<S, L, D(!new), T(!new)>(W: World<S, L, D, T>, s: Sys<S, L, D, T>)
    returns (actions: seq<Action<D>>, t: Sys<S, L, D, T>)
    requires CallbacksFit(W) && TwoRanks(W) && FlowOk(W, s)
    ensures Reaches(W, s, actions, t) && Quiescent(t) && forall a <- actions :: Internal(a)
    decreases Left(W, s, 1), Left(W, s, 0), Steps(s)
  {
    if Quiescent(s) {
      actions, t := [], s;
    } else {
      var a := NoDeadlock(W, s);
      StepFlow(W, s, a);
      StepLowers(W, s, a);
      var rest, u := DrainCompletes(W, Next(W, s, a));
      actions, t := [a] + rest, u;
      assert actions[1..] == rest;
    }
  }

  /** An endless run without client steps does not exist. */
  ghost predicate Endless<S, L, D, T>(W: World<S, L, D, T>, run: nat -> Sys<S, L, D, T>, acts: nat -> Action<D>)
  {
    forall n: nat :: Internal(acts(n)) && Enabled(W, run(n), acts(n)) && run(n + 1) == Next(W, run(n), acts(n))
  }

  lemma {:induction false} NoEndlessDrain<S, L, D(!new), T(!new)>(
    W: World<S, L, D, T>, run: nat -> Sys<S, L, D, T>, acts: nat -> Action<D>, n: nat)
    requires CallbacksFit(W) && TwoRanks(W) && FlowOk(W, run(n))
    ensures !Endless(W, run, acts)
    decreases Left(W, run(n), 1), Left(W, run(n), 0), Steps(run(n))
  {
    if Endless(W, run, acts) {
      assert Internal(acts(n)) && Enabled(W, run(n), acts(n)) && run(n + 1) == Next(W, run(n), acts(n));
      StepFlow(W, run(n), acts(n));
      StepLowers(W, run(n), acts(n));
      NoEndlessDrain(W, run, acts, n + 1);
    }
  }

  /** Whatever has happened so far, the channel can finish its work and the next barrier return. */
  lemma EveryBarrierReturns<S, L, D(!new), T(!new)>(
    W: World<S, L, D, T>, store: S, local: L, actions: seq<Action<D>>, s: Sys<S, L, D, T>)
    returns (more: seq<Action<D>>, t: Sys<S, L, D, T>)
    requires CallbacksFit(W) && TwoRanks(W) && Reachable(W, store, local, actions, s)
    ensures Reaches(W, s, more, t) && Enabled(W, t, Fence) && forall a <- more :: Internal(a)
  {
    ReachableIsSound(W, store, local, actions, s);
    more, t := DrainCompletes(W, s);
  }
}
