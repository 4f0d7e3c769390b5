/** Clearing and closing as the client does them: barrier, command, barrier. */
module Cuts {
  import opened Protocol
  import opened Runs
  import opened History
  import opened Sequences
  import opened SimpleBackend
  import opened Refinement
  import opened Commands
  import opened CogIO
  import opened Guarantees
  import Origins

  // ---- a command between two barriers is alone in its epoch ----

  ghost function Fences<D>(actions: seq<Action<D>>): nat
  {
    if actions == [] then 0 else (if actions[0].Fence? then 1 else 0) + Fences(actions[1..])
  }

  lemma {:induction false} ClientCallsAppend<D>(a: seq<Action<D>>, b: seq<Action<D>>, epoch: nat)
    ensures ClientCalls(a + b, epoch) == ClientCalls(a, epoch) + ClientCalls(b, epoch + Fences(a))
    decreases |a|
  {
    if a == [] {
      assert a + b == b;
    } else {
      assert (a + b)[1..] == a[1..] + b;
      ClientCallsAppend(a[1..], b, epoch + if a[0].Fence? then 1 else 0);
      FirstCall(a + b, epoch);
      FirstCall(a, epoch);
    }
  }

  lemma {:induction false} NoClientCalls<D>(a: seq<Action<D>>, epoch: nat)
    requires NoClient(a)
    ensures ClientCalls(a, epoch) == [] && Fences(a) == 0
  {
    if a != [] {
      NoClientCalls(a[1..], epoch);
    }
  }

  lemma {:induction false} CallsBetween<D>(a: seq<Action<D>>, epoch: nat)
    ensures forall p <- ClientCalls(a, epoch) :: epoch <= p.1 <= epoch + Fences(a)
  {
    if a != [] {
      CallsBetween(a[1..], epoch + if a[0].Fence? then 1 else 0);
    }
  }

  lemma {:induction false} AtAppend<A>(a: seq<(A, nat)>, b: seq<(A, nat)>, k: nat)
    ensures At(a + b, k) == At(a, k) + At(b, k)
  {
    if b == [] {
      assert a + b == a;
    } else {
      assert (a + b)[..|a + b| - 1] == a + b[..|b| - 1];
      AtAppend(a, b[..|b| - 1], k);
    }
  }

  lemma OneAt<A>(p: (A, nat))
    ensures At([p], p.1) == [p.0]
  {
    var log := [p];
    assert At(log, p.1) == At(log[..0], p.1) + [p.0];
    assert |log[..0]| == 0;
  }

  lemma NoneAt<A>(a: seq<(A, nat)>, k: nat)
    requires forall p <- a :: p.1 != k
    ensures At(a, k) == []
  {
    BeforeAll(a, k);
  }

  /** Barrier, workers, command, workers: whatever came before. */
  ghost function Enclosed<D>(before: seq<Action<D>>, mid: seq<Action<D>>, call: Action<D>, last: seq<Action<D>>): seq<Action<D>>
  {
    (before + [Fence]) + (mid + ([call] + last))
  }

  lemma EnclosedCalls<D>(before: seq<Action<D>>, mid: seq<Action<D>>, call: Action<D>, last: seq<Action<D>>)
    requires call.Call?
    ensures var k := Fences(before) + 1 + Fences(mid);
            ClientCalls(Enclosed(before, mid, call, last), 0)
            == (ClientCalls(before, 0) + ClientCalls(mid, Fences(before) + 1))
               + ([(Cmd(call.text, call.data), k)] + ClientCalls(last, k))
  {
    var first, k := Fences(before) + 1, Fences(before) + 1 + Fences(mid);
    BehindBarrier(before);
    ClientCallsAppend(before + [Fence], mid + ([call] + last), 0);
    ClientCallsAppend(mid, [call] + last, first);
    FirstCall([call] + last, k);
    assert ([call] + last)[1..] == last;
    Regrouped(ClientCalls(before, 0), ClientCalls(mid, first), ClientCalls([call] + last, k));
  }

  lemma BehindBarrier<D>(before: seq<Action<D>>)
    ensures ClientCalls(before + [Fence], 0) == ClientCalls(before, 0) && Fences(before + [Fence]) == Fences(before) + 1
  {
    ClientCallsAppend(before, [Fence], 0);
    FencesAppend(before);
    var fence: seq<Action<D>> := [Fence];
    FirstCall(fence, Fences(before));
    assert fence[1..] == [];
  }

  lemma {:induction false} FencesAppend<D>(a: seq<Action<D>>)
    ensures Fences(a + [Fence]) == Fences(a) + 1
  {
    if a == [] {
      assert a + [Fence] == [Fence];
    } else {
      assert (a + [Fence])[1..] == a[1..] + [Fence];
      FencesAppend(a[1..]);
    }
  }

  lemma EnclosedIsCalled<D>(before: seq<Action<D>>, mid: seq<Action<D>>, call: Action<D>, last: seq<Action<D>>)
    requires call.Call?
    ensures Cmd(call.text, call.data) in At(ClientCalls(Enclosed(before, mid, call, last), 0), Fences(before) + 1 + Fences(mid))
  {
    var k := Fences(before) + 1 + Fences(mid);
    EnclosedCalls(before, mid, call, last);
    AtMember(ClientCalls(Enclosed(before, mid, call, last), 0), k, Cmd(call.text, call.data));
  }

  /** What the rest of the program calls in the epoch of the enclosed command. */
  lemma EnclosedIsAlone<D>(before: seq<Action<D>>, mid: seq<Action<D>>, call: Action<D>, last: seq<Action<D>>)
    requires NoClient(mid) && call.Call? && forall p <- ClientCalls(last, Fences(before) + 1) :: p.1 != Fences(before) + 1
    ensures At(ClientCalls(Enclosed(before, mid, call, last), 0), Fences(before) + 1) == [Cmd(call.text, call.data)]
  {
    var k := Fences(before) + 1;
    var c := (Cmd(call.text, call.data), k);
    EnclosedCalls(before, mid, call, last);
    NoClientCalls(mid, k);
    CallsBetween(before, 0);
    assert ClientCalls(before, 0) + [] == ClientCalls(before, 0);
    AtAppend(ClientCalls(before, 0), [c] + ClientCalls(last, k), k);
    AtAppend([c], ClientCalls(last, k), k);
    NoneAt(ClientCalls(before, 0), k);
    NoneAt(ClientCalls(last, k), k);
    OneAt(c);
  }

  /** Workers only, and then a barrier. */
  lemma BarrierComesFirst<D>(mid: seq<Action<D>>, after: seq<Action<D>>, k: nat)
    requires NoClient(mid)
    ensures forall p <- ClientCalls(mid + ([Fence] + after), k) :: k < p.1
  {
    ClientCallsAppend(mid, [Fence] + after, k);
    NoClientCalls(mid, k);
    FirstCall([Fence] + after, k);
    assert ([Fence] + after)[1..] == after;
    CallsBetween(after, k + 1);
  }

  // ---- the client's two commands ----

  /** Only list requests lead to further requests. */
  lemma QuietCommand<S(!new)>(W: World<S, Local, Packet, Change>, table: nat, c: Command)
    requires IsCogWorld(W) && !ListsAtoms(c)
    ensures Origins.Silent(W, CmdFor(c, table))
  {
    forall x: S, a | a in Acts(W, CmdFor(c, table), x) ensures !a.Request? {
      if a.Request? {
        var e := CallbackRequests(PacketOf(c, table), W.answer(Text(c), x), a);
      }
    }
  }

  /** Killing the data cuts.  In any run in which a client does barrier, clear, barrier, while other
      clients do what they like, and at whose end nothing is left: everything enqueued before it began
      was applied before the clearing; everything enqueued after it returned was applied after it; and
      the store is what the requests applied after the clearing make of an empty store. */
  lemma KillDataCuts<S(!new)>(
    W: World<S, Local, Packet, Change>, store: S, local: Local, s: Sys<S, Local, Packet, Change>, empty: S,
    before: seq<Action<Packet>>, mid: seq<Action<Packet>>, mid2: seq<Action<Packet>>, after: seq<Action<Packet>>)
    returns (i: nat)
    requires IsCogWorld(W) && forall x :: W.effect(Text(Clear), x) == empty
    requires Reachable(W, store, local, Enclosed(before, mid, Call(Text(Clear), false, Nothing), mid2 + ([Fence] + after)), s)
    requires Quiescent(s)
    ensures i < |s.log| && s.log[i].text == Text(Clear) && s.store == Replay(W, empty, s.log[i + 1..])
    ensures forall e <- s.calls :: e.data.epoch <= Fences(before) ==> AppliedBefore(s, e, i)
    ensures forall e <- s.calls :: Fences(before) + 1 + Fences(mid) + Fences(mid2) < e.data.epoch ==> Origins.AppliedBehind(s, e, i)
  {
    CallbacksAreFit(W);
    var call := Call(Text(Clear), false, Nothing);
    EnclosedIsCalled(before, mid, call, mid2 + ([Fence] + after));
    i := Origins.ClearingProgram(W, store, local, Enclosed(before, mid, call, mid2 + ([Fence] + after)), s,
                                 CmdFor(Clear, 0), Fences(before) + 1 + Fences(mid), empty);
  }

  /** If nobody else calls anything while the data are killed, the cut is exact: the requests
      applied after the clearing are those enqueued after it returned. */
  lemma KillDataIsExact<S(!new)>(
    W: World<S, Local, Packet, Change>, store: S, local: Local, s: Sys<S, Local, Packet, Change>, empty: S,
    before: seq<Action<Packet>>, mid: seq<Action<Packet>>, mid2: seq<Action<Packet>>, after: seq<Action<Packet>>)
    returns (i: nat)
    requires IsCogWorld(W) && (forall x :: W.effect(Text(Clear), x) == empty) && NoClient(mid) && NoClient(mid2)
    requires Reachable(W, store, local, Enclosed(before, mid, Call(Text(Clear), false, Nothing), mid2 + ([Fence] + after)), s)
    requires Quiescent(s)
    ensures i < |s.log| && s.log[i].text == Text(Clear) && s.store == Replay(W, empty, s.log[i + 1..])
    ensures forall e <- s.log[i + 1..] :: Fences(before) + 1 < e.data.epoch
    ensures forall e <- s.calls :: Fences(before) + 1 < e.data.epoch ==> Origins.AppliedBehind(s, e, i)
    ensures forall e <- s.calls :: e.data.epoch <= Fences(before) ==> AppliedBefore(s, e, i)
  {
    CallbacksAreFit(W);
    QuietCommand(W, 0, Clear);
    var call := Call(Text(Clear), false, Nothing);
    BarrierComesFirst(mid2, after, Fences(before) + 1);
    EnclosedIsAlone(before, mid, call, mid2 + ([Fence] + after));
    i := Origins.ClearingProgram(W, store, local, Enclosed(before, mid, call, mid2 + ([Fence] + after)), s,
                                 CmdFor(Clear, 0), Fences(before) + 1, empty);
  }

  /** Closing cuts.  In any run in which a client does barrier, close the proxy, and then whatever (barriers
      follow), while other clients call what they like, also afterwards: when the workers are done the server
      has applied the closing command; everything enqueued before it began was applied before the closing;
      and what was enqueued after a later barrier was applied behind it, except for commands without
      reply that may still be on the wire. */
  lemma CloseCuts<S(!new)>(
    W: World<S, Local, Packet, Change>, store: S, local: Local, s: Sys<S, Local, Packet, Change>,
    before: seq<Action<Packet>>, mid: seq<Action<Packet>>, last: seq<Action<Packet>>)
    returns (i: nat)
    requires IsCogWorld(W)
    requires Reachable(W, store, local, Enclosed(before, mid, Call(Text(ProxyClose), false, Nothing), last), s) && Drained(s)
    ensures i < |s.log| && s.log[i].text == Text(ProxyClose)
    ensures forall e <- s.calls :: e.data.epoch <= Fences(before) ==> AppliedBefore(s, e, i)
    ensures forall e <- s.calls :: Fences(before) + 1 + Fences(mid) < e.data.epoch && (Replies(e.text) || Quiescent(s)) ==> Origins.AppliedBehind(s, e, i)
    ensures forall e <- s.log[i + 1..] :: Fences(before) + 1 + Fences(mid) <= e.data.epoch
    ensures NoClient(mid) && (forall a <- last :: !a.Call?) ==> i == |s.log| - 1 && forall e <- s.calls :: AppliedBefore(s, e, |s.log|)
  {
    CallbacksAreFit(W);
    QuietCommand(W, 0, ProxyClose);
    RepliesAre(ProxyClose);
    i := AnsweredCommandCuts(W, store, local, s, before, mid, Call(Text(ProxyClose), false, Nothing), last);
  }

  lemma AnsweredCommandCuts<S(!new), L, D(!new), T(!new)>(
    W: World<S, L, D, T>, store: S, local: L, s: Sys<S, L, D, T>,
    before: seq<Action<D>>, mid: seq<Action<D>>, call: Action<D>, last: seq<Action<D>>)
    returns (i: nat)
    requires CallbacksFit(W) && call.Call? && Origins.Silent(W, Cmd(call.text, call.data)) && W.replies(call.text)
    requires Reachable(W, store, local, Enclosed(before, mid, call, last), s) && Drained(s)
    ensures i < |s.log| && s.log[i].text == call.text
    ensures forall e <- s.calls :: e.data.epoch <= Fences(before) ==> AppliedBefore(s, e, i)
    ensures forall e <- s.calls :: Fences(before) + 1 + Fences(mid) < e.data.epoch && (W.replies(e.text) || Quiescent(s)) ==> Origins.AppliedBehind(s, e, i)
    ensures forall e <- s.log[i + 1..] :: Fences(before) + 1 + Fences(mid) <= e.data.epoch
    ensures NoClient(mid) && (forall a <- last :: !a.Call?) ==> i == |s.log| - 1 && forall e <- s.calls :: AppliedBefore(s, e, |s.log|)
  {
    EnclosedIsCalled(before, mid, call, last);
    if NoClient(mid) && forall a <- last :: !a.Call? {
      ClosingCalls(before, mid, call, last);
      NoClientCalls(mid, 0);
    }
    i := Origins.ClosingProgram(W, store, local, Enclosed(before, mid, call, last), s, Cmd(call.text, call.data), Fences(before) + 1 + Fences(mid));
  }

  /** If nobody else calls anything from the barrier on, the closing command is the last one the server
      has applied, and every other call was applied before it. */
  lemma CloseIsLast<S(!new)>(
    W: World<S, Local, Packet, Change>, store: S, local: Local, s: Sys<S, Local, Packet, Change>,
    before: seq<Action<Packet>>, mid: seq<Action<Packet>>, last: seq<Action<Packet>>)
    requires IsCogWorld(W) && NoClient(mid) && (forall a <- last :: !a.Call?)
    requires Reachable(W, store, local, Enclosed(before, mid, Call(Text(ProxyClose), false, Nothing), last), s) && Drained(s)
    ensures s.log != [] && s.log[|s.log| - 1].text == Text(ProxyClose)
    ensures forall e <- s.calls :: AppliedBefore(s, e, |s.log|)
  {
    var i := CloseCuts(W, store, local, s, before, mid, last);
  }

  lemma ClosingCalls<D>(before: seq<Action<D>>, mid: seq<Action<D>>, call: Action<D>, last: seq<Action<D>>)
    requires NoClient(mid) && call.Call? && forall a <- last :: !a.Call?
    ensures At(ClientCalls(Enclosed(before, mid, call, last), 0), Fences(before) + 1) == [Cmd(call.text, call.data)]
    ensures forall p <- ClientCalls(Enclosed(before, mid, call, last), 0) :: p.1 <= Fences(before) + 1
  {
    var k := Fences(before) + 1;
    NoCallsAtAll(last, k);
    EnclosedIsAlone(before, mid, call, last);
    EnclosedCalls(before, mid, call, last);
    NoClientCalls(mid, k);
    CallsBetween(before, 0);
  }

  lemma {:induction false} NoCallsAtAll<D>(a: seq<Action<D>>, epoch: nat)
    requires forall x <- a :: !x.Call?
    ensures ClientCalls(a, epoch) == []
  {
    if a != [] {
      NoCallsAtAll(a[1..], epoch + if a[0].Fence? then 1 else 0);
    }
  }
}
