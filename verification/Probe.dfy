/** Fetching one atom: before the request for keys is queued, the caller asks on a socket of its own
    whether the server knows the atom.  That socket waits at no barrier. */
module Probe {
  import opened Wrappers
  import opened Sexpr
  import opened RawNames
  import opened Commands
  import opened MsgOrder
  import opened Protocol
  import opened Flow
  import opened History
  import opened Runs
  import opened Scripts
  import opened SimpleBackend
  import opened Guarantees
  import opened CogIO

  /** The question put to the server. */
  function ProbeText(h: Atom): string
  {
    (if h.Node? then "(cog-node '" else "(cog-link '") + (h.typ + " " + RawInside(h)) + ")\n"
  }

  /** The server, asked in this state, answers with an empty list. */
  ghost predicate Unknown<S>(W: World<S, Local, Packet, Change>, s: Sys<S, Local, Packet, Change>, h: Atom)
  {
    "()" <= W.answer(ProbeText(h), s.store)
  }

  /** The whole call: nothing if the atom is unknown, else the request for its keys. */
  ghost function FetchAtom<S>(W: World<S, Local, Packet, Change>, s: Sys<S, Local, Packet, Change>, h: Atom, table: nat): Sys<S, Local, Packet, Change>
  {
    if Unknown(W, s, h) then s
    else Accept(W, s, Text(FetchKeys(h)), false, PacketOf(FetchKeys(h), table), None)
  }

  // ---- what a caller's own socket sees ----

  /** Once the server has finished the epochs before this one, it has applied all their calls, and a
      probe is answered from a store that has them all. */
  lemma ProbeSeesFinishedEpochs<S, L, D(!new), T(!new)>(
    W: World<S, L, D, T>, store: S, local: L, actions: seq<Action<D>>, s: Sys<S, L, D, T>, e: Entry<D>)
    requires CallbacksFit(W) && Reachable(W, store, local, actions, s) && e in s.calls && e.data.epoch < s.passed
    ensures AppliedBefore(s, e, |s.log|) && s.store == Replay(W, store, s.log)
  {
    ReachableIsSound(W, store, local, actions, s);
    var r := FinishedEpochApplied(W, s, e);
    var i :| 0 <= i < |s.log| && s.log[i] == r;
  }

  /** In every run, a call with this text is applied before a probe made after the next barrier has
      returned is answered. */
  ghost predicate SurelySeen<S(!new), L(!new), D(!new), T(!new)>(W: World<S, L, D, T>, store: S, local: L, text: string)
  {
    forall actions, s, e :: Reachable(W, store, local, actions, s) && e in s.calls && e.text == text && e.data.epoch < s.epoch ==>
                              AppliedBefore(s, e, |s.log|)
  }

  /** A call that is answered was answered before any barrier behind it returned. */
  lemma AnsweredBeforeReturn<S, L, D(!new), T(!new)>(
    W: World<S, L, D, T>, store: S, local: L, actions: seq<Action<D>>, s: Sys<S, L, D, T>, e: Entry<D>)
    requires CallbacksFit(W) && Reachable(W, store, local, actions, s)
    requires e in s.calls && W.replies(e.text) && e.data.epoch < s.epoch
    ensures AppliedBefore(s, e, |s.log|)
  {
    ReachableIsSound(W, store, local, actions, s);
    var r := e;
    if e in s.dropped {
      r :| r in s.calls && Represents(r, e) && r !in s.dropped;
    }
    NotUnderWay(W, s, r);
    assert multiset(s.calls)[r] == multiset(s.queue)[r] + InFlight(s.lanes)[r] + multiset(s.log)[r] + multiset(s.dropped)[r];
    assert r in multiset(s.calls) && r in multiset(s.log);
    var i :| 0 <= i < |s.log| && s.log[i] == r;
  }

  /** What is queued, or waits for a reply, belongs to the epoch that is being made. */
  lemma NotUnderWay<S, L, D, T>(W: World<S, L, D, T>, s: Sys<S, L, D, T>, r: Entry<D>)
    requires FlowOk(W, s) && r in s.calls && W.replies(r.text) && r.data.epoch < s.epoch
    ensures r !in s.queue && r !in InFlight(s.lanes)
  {
    forall l | l in s.lanes ensures r !in Pending(l) {
      assert LaneOk(W, l, s.epoch, s.passed);
      RequestsAre(l.up, r);
    }
    NotInFlight(s.lanes, r);
  }

  // ---- a command without reply may still be on the wire ----

  /** The lanes when the call `e` has been sent on the first, and the barrier's message on `n` of them. */
  ghost function BarriersSent<D, T>(e: Entry<D>, n: nat): (lanes: seq<Lane<D, T>>)
    ensures |lanes| == NTHREADS
  {
    seq(NTHREADS, i requires 0 <= i < NTHREADS =>
      Lane(if i < n then Idle else Due(0), (if i == 0 then [Req(e)] else []) + if i < n then [Bar(0)] else [], [], None))
  }

  /** One call, sent but not yet applied, and a barrier that has been sent on all sockets and returned. */
  ghost function OnTheWire<S, L, D, T>(W: World<S, L, D, T>, store: S, local: L, text: string, d: D, n: nat): Sys<S, L, D, T>
  {
    var s: Sys<S, L, D, T> := Initial(store, local);
    var e := Msg(0, true, text, Tag(d, 0, 0, None));
    s.(calls := [e], lanes := BarriersSent(e, n), epoch := 1)
  }

  lemma BarrierSent<S, L, D, T>(W: World<S, L, D, T>, store: S, local: L, text: string, d: D, n: nat)
    requires n < NTHREADS
    ensures StepTo(W, OnTheWire(W, store, local, text, d, n), SendBarrier(n), OnTheWire(W, store, local, text, d, n + 1))
  {
    var s: Sys<S, L, D, T> := OnTheWire(W, store, local, text, d, n);
    var t := Next(W, s, SendBarrier(n));
    var u: Sys<S, L, D, T> := OnTheWire(W, store, local, text, d, n + 1);
    forall i | 0 <= i < NTHREADS ensures t.lanes[i] == u.lanes[i] {
      assert s.lanes[i].up + [] == s.lanes[i].up;
    }
    assert t.lanes == u.lanes;
  }

  ghost function SendingBarriers<D>(n: nat): seq<Action<D>>
    decreases if n < NTHREADS then NTHREADS - n else 0
  {
    if n >= NTHREADS then [] else [SendBarrier(n)] + SendingBarriers(n + 1)
  }

  lemma {:induction false} AllBarriersSent<S, L, D, T>(W: World<S, L, D, T>, store: S, local: L, text: string, d: D, n: nat)
    requires n <= NTHREADS
    ensures Reaches(W, OnTheWire(W, store, local, text, d, n), SendingBarriers(n), OnTheWire(W, store, local, text, d, NTHREADS))
    ensures NoClient<D>(SendingBarriers(n))
    decreases NTHREADS - n
  {
    if n < NTHREADS {
      BarrierSent(W, store, local, text, d, n);
      AllBarriersSent(W, store, local, text, d, n + 1);
      AddStep(W, OnTheWire(W, store, local, text, d, n), SendBarrier(n), OnTheWire(W, store, local, text, d, n + 1),
              SendingBarriers(n + 1), OnTheWire(W, store, local, text, d, NTHREADS));
    }
  }

  ghost function Wiring<D>(text: string, d: D, rest: seq<Action<D>>): seq<Action<D>>
  {
    [Call(text, true, d)] + ([Pop(0, 0)] + ([Send(0)] + ([Fence] + rest)))
  }

  lemma BarrierHandedOut<S, L, D, T>(W: World<S, L, D, T>, s: Sys<S, L, D, T>, store: S, local: L, text: string, d: D)
    requires s == OnTheWire(W, store, local, text, d, 0).(lanes := Lanes(Lane(Idle, [Req(Msg(0, true, text, Tag(d, 0, 0, None)))], [], None)), epoch := 0)
    ensures StepTo(W, s, Fence, OnTheWire(W, store, local, text, d, 0))
  {
    var t: Sys<S, L, D, T> := OnTheWire(W, store, local, text, d, 0);
    var u := HandOut(s.lanes, 0);
    forall i | 0 <= i < NTHREADS ensures u[i] == t.lanes[i] {
      assert s.lanes[i].up + [] == s.lanes[i].up;
    }
    assert u == t.lanes;
  }

  lemma WiringRuns<S, L, D, T>(
    W: World<S, L, D, T>, store: S, local: L, text: string, d: D, rest: seq<Action<D>>, t: Sys<S, L, D, T>)
    requires !W.unique(text) && !W.replies(text) && Reaches(W, OnTheWire(W, store, local, text, d, 0), rest, t)
    ensures Reachable(W, store, local, Wiring(text, d, rest), t)
  {
    var s: Sys<S, L, D, T> := Initial(store, local);
    var u: Sys<S, L, D, T> := OnTheWire(W, store, local, text, d, 0);
    var e := u.calls[0];
    InitialLanes<S, L, D, T>(store, local);
    CallWaits(W, s, text, d, None);
    var s1: Sys<S, L, D, T> := s.(queue := [e], calls := [e]);
    assert s.calls + [e] == [e];
    var held: Lane<D, T> := Lane(Holding(e), [], [], None);
    var sent: Lane<D, T> := Lane(Idle, [Req(e)], [], None);
    var s2: Sys<S, L, D, T> := s1.(queue := [], lanes := Lanes(held));
    var s3: Sys<S, L, D, T> := s1.(queue := [], lanes := Lanes(sent));
    FirstLane(Free(), held);
    assert StepTo(W, s1, Pop(0, 0), s2);
    FirstLane(held, sent);
    assert StepTo(W, s2, Send(0), s3) by { assert [] + [Req(e)] == [Req(e)]; }
    BarrierHandedOut(W, s3, store, local, text, d);
    AddStep(W, s3, Fence, u, rest, t);
    AddStep(W, s2, Send(0), s3, [Fence] + rest, t);
    AddStep(W, s1, Pop(0, 0), s2, [Send(0)] + ([Fence] + rest), t);
    AddStep(W, s, Call(text, true, d), s1, [Pop(0, 0)] + ([Send(0)] + ([Fence] + rest)), t);
  }

  lemma WiringProgram<D>(text: string, d: D, rest: seq<Action<D>>)
    requires NoClient(rest)
    ensures Program(Wiring(text, d, rest)) == [Do(Cmd(text, d)), Barrier]
  {
    NoClientProgram(rest);
    var fence := [Fence] + rest;
    var send := [Send(0)] + fence;
    assert fence[1..] == rest && send[1..] == fence && ([Pop(0, 0)] + send)[1..] == send;
    assert [] + Program(fence) == Program(fence) && [] + Program(send) == Program(send);
    OneCallProgram(text, true, d, [Pop(0, 0)] + send);
  }

  /** A barrier has returned: nothing is queued, no worker has anything left, all four messages are sent. */
  lemma WireRun<S, L, D, T>(W: World<S, L, D, T>, store: S, local: L, text: string, d: D) returns (actions: seq<Action<D>>)
    requires !W.unique(text) && !W.replies(text)
    ensures Program(actions) == [Do(Cmd(text, d)), Barrier]
    ensures Reachable(W, store, local, actions, OnTheWire(W, store, local, text, d, NTHREADS))
    ensures Drained(OnTheWire(W, store, local, text, d, NTHREADS))
  {
    AllBarriersSent(W, store, local, text, d, 0);
    WiringRuns(W, store, local, text, d, SendingBarriers(0), OnTheWire(W, store, local, text, d, NTHREADS));
    actions := Wiring(text, d, SendingBarriers(0));
    WiringProgram(text, d, SendingBarriers(0));
  }

  lemma FirstOnWire<S, L, D, T>(W: World<S, L, D, T>, store: S, local: L, text: string, d: D)
    ensures var s := OnTheWire(W, store, local, text, d, NTHREADS);
            Enabled(W, s, Serve(0)) && Next(W, s, Serve(0)).store == W.effect(text, store)
  {
    assert ([Req(Msg(0, true, text, Tag(d, 0, 0, None)))] + [Bar(0)])[0].Req?;
  }

  /** Exactly which unnumbered calls a probe surely sees after a barrier has returned: those that the
      server replies to.  A store may still be on its way. */
  lemma SurelySeenExactly<S(!new), L(!new), D(!new), T(!new)>(W: World<S, L, D, T>, store: S, local: L, text: string, d: D)
    requires CallbacksFit(W) && !W.unique(text)
    ensures SurelySeen(W, store, local, text) <==> W.replies(text)
  {
    if W.replies(text) {
      forall actions, s, e | Reachable(W, store, local, actions, s) && e in s.calls && e.text == text && e.data.epoch < s.epoch
        ensures AppliedBefore(s, e, |s.log|)
      {
        AnsweredBeforeReturn(W, store, local, actions, s, e);
      }
    } else {
      var actions := WireRun(W, store, local, text, d);
      var s := OnTheWire(W, store, local, text, d, NTHREADS);
      assert s.calls[0] in s.calls && s.log == [];
    }
  }

  /** So an atom stored before a barrier can be fetched in vain after it: in this run the barrier has
      been sent on all sockets and has returned, the probe finds the atom unknown, nothing is requested; and yet the next step of the
      server applies the store. */
  lemma FetchAfterBarrierInVain<S>(W: World<S, Local, Packet, Change>, store: S, local: Local, h: Atom, table: nat, c: Command)
    returns (actions: seq<Action<Packet>>, s: Sys<S, Local, Packet, Change>)
    requires IsCogWorld(W) && !W.unique(Text(c)) && c.StoreAtom? && c.h == h
    requires "()" <= W.answer(ProbeText(h), store)
    ensures Reachable(W, store, local, actions, s)
    ensures Program(actions) == [Do(Cmd(Text(c), Nothing)), Barrier] && Drained(s) && s.epoch == 1
    ensures FetchAtom(W, s, h, table) == s
    ensures Enabled(W, s, Serve(0)) && Next(W, s, Serve(0)).store == W.effect(Text(c), store)
  {
    RepliesAre(c);
    actions := WireRun(W, store, local, Text(c), Nothing);
    s := OnTheWire(W, store, local, Text(c), Nothing, NTHREADS);
    FirstOnWire(W, store, local, Text(c), Nothing);
  }
}
