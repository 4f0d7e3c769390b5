/** Where calls come from: what holds of the clients' calls, and of what the callbacks of such calls
    request, holds of all calls.  And what that says of clearing and closing. */
module Origins {
  import opened Wrappers
  import opened Protocol
  import opened Flow
  import opened History
  import opened Sequences
  import opened SimpleBackend
  import opened Runs
  import opened Refinement
  import opened Guarantees

  // ---- a principle for all calls ----

  lemma {:induction false} ReplyIsAnswer<S, L, D, T>(W: World<S, L, D, T>, store: S, log: seq<Entry<D>>, e: Entry<D>) returns (x: S)
    requires e in log && W.replies(e.text)
    ensures ReplyTo(W, store, log, e) == W.answer(e.text, x) && Plan(W, store, log, e) == Acts(W, CmdOf(e), x)
  {
    var init := log[..|log| - 1];
    if log[|log| - 1] == e {
      x := Replay(W, store, init);
    } else {
      assert log == init + [log[|log| - 1]];
      x := ReplyIsAnswer(W, store, init, e);
    }
  }

  lemma RanWithinPlan<S, L, D, T>(W: World<S, L, D, T>, store: S, s: Sys<S, L, D, T>, t: nat, a: Act<D, T>)
    requires FlowOk(W, s) && AnswersOk(W, store, s) && t in s.ran && t < |s.calls| && a in s.ran[t]
    ensures s.calls[t] in s.log && W.replies(s.calls[t].text) && a in Plan(W, store, s.log, s.calls[t])
  {
    var e := s.calls[t];
    assert e.data.ticket == t;
    assert Attended(W, store, s, e);
    if s.ran[t] != Plan(W, store, s.log, e) {
      var l :| l in s.lanes && l.worker.Calling? && l.worker.entry == e;
      assert LaneHistory(W, store, s, l);
      assert a in s.ran[t] + l.worker.todo;
    }
  }

  /** A call made by a callback was asked for by the server's answer to an earlier call. */
  lemma ParentAsked<S, L, D(!new), T(!new)>(W: World<S, L, D, T>, store: S, local: L, s: Sys<S, L, D, T>, e: Entry<D>)
    returns (parent: Entry<D>, x: S)
    requires Sound(W, store, local, s) && e in s.calls && e.data.parent.Some?
    ensures parent in s.calls && parent in s.log && parent.data.epoch == e.data.epoch
    ensures parent.data.ticket < e.data.ticket && e.data.parent == Some(parent.data.ticket)
    ensures Request(e.text, e.noreply, e.data.data) in Acts(W, CmdOf(parent), x)
  {
    assert Spawned(s, e);
    var t, a := e.data.parent.value, Request(e.text, e.noreply, e.data.data);
    assert DoneBy(s, t, a, e.data.epoch);
    parent := s.calls[t];
    RanWithinPlan(W, store, s, t, a);
    x := ReplyIsAnswer(W, store, s.log, parent);
  }

  /** A change of the local table was asked for by the server's answer to a call of its epoch. */
  lemma TouchedBy<S, L, D(!new), T(!new)>(W: World<S, L, D, T>, store: S, local: L, s: Sys<S, L, D, T>, x: T, epoch: nat)
    returns (e: Entry<D>, y: S)
    requires Sound(W, store, local, s) && (x, epoch) in s.touches
    ensures e in s.calls && e in s.log && e.data.epoch == epoch && Touch(x) in Acts(W, CmdOf(e), y)
  {
    var t: nat :| DoneBy(s, t, Touch(x), epoch);
    e := s.calls[t];
    RanWithinPlan(W, store, s, t, Touch(x));
    y := ReplyIsAnswer(W, store, s.log, e);
  }

  ghost predicate Hereditary<S(!new), L, D(!new), T(!new)>(W: World<S, L, D, T>, p: Cmd<D> -> bool)
  {
    forall c, x, a :: p(c) && a in Acts(W, c, x) && a.Request? ==> p(Cmd(a.text, a.data))
  }

  lemma {:induction false} EveryCall<S(!new), L, D(!new), T(!new)>(
    W: World<S, L, D, T>, store: S, local: L, s: Sys<S, L, D, T>, p: Cmd<D> -> bool, e: Entry<D>)
    requires Sound(W, store, local, s) && Hereditary(W, p)
    requires forall q <- Issued(s.calls) :: p(q.0)
    requires e in s.calls
    ensures p(CmdOf(e))
    decreases e.data.ticket
  {
    if e.data.parent.None? {
      IssuedMember(s.calls, (CmdOf(e), e.data.epoch));
    } else {
      var parent, x := ParentAsked(W, store, local, s, e);
      EveryCall(W, store, local, s, p, parent);
      assert p(CmdOf(parent));
    }
  }

  lemma RunIssued<S, L, D(!new), T(!new)>(
    W: World<S, L, D, T>, store: S, local: L, actions: seq<Action<D>>, s: Sys<S, L, D, T>)
    requires CallbacksFit(W) && Reachable(W, store, local, actions, s)
    ensures Sound(W, store, local, s) && Issued(s.calls) == ClientCalls(actions, 0)
  {
    IssuedInOrder(W, store, local, actions, s);
  }

  // ---- a callback that is over ----

  ghost predicate Over<S, L, D, T>(W: World<S, L, D, T>, store: S, s: Sys<S, L, D, T>, e: Entry<D>)
  {
    e in s.log && e.data.ticket in s.ran && s.ran[e.data.ticket] == Plan(W, store, s.log, e)
  }

  /** It stays over, and makes no more calls. */
  lemma OverStep<S, L, D, T>(W: World<S, L, D, T>, store: S, local: L, s: Sys<S, L, D, T>, e: Entry<D>, a: Action<D>)
    requires Sound(W, store, local, s) && Over(W, store, s, e) && Enabled(W, s, a)
    ensures Over(W, store, Next(W, s, a), e)
    ensures forall c <- Next(W, s, a).calls :: c.data.parent == Some(e.data.ticket) ==> c in s.calls
  {
    if a.Serve? {
      OverServe(W, store, s, e, a.w);
    } else if a.Run? {
      OverRun(W, store, s, e, a.w);
    } else if a.Receive? {
      OtherReceives(W, store, s, e, a.w);
    } else {
      OverQuiet(W, store, s, e, a);
    }
  }

  lemma OverQuiet<S, L, D, T>(W: World<S, L, D, T>, store: S, s: Sys<S, L, D, T>, e: Entry<D>, a: Action<D>)
    requires Over(W, store, s, e) && Enabled(W, s, a) && !a.Serve? && !a.Run? && !a.Receive?
    ensures Over(W, store, Next(W, s, a), e)
    ensures forall c <- Next(W, s, a).calls :: c.data.parent == Some(e.data.ticket) ==> c in s.calls
  {
    var t := Next(W, s, a);
    assert t.log == s.log && t.ran == s.ran;
  }

  lemma OverServe<S, L, D, T>(W: World<S, L, D, T>, store: S, s: Sys<S, L, D, T>, e: Entry<D>, w: nat)
    requires FlowOk(W, s) && AnswersOk(W, store, s) && Over(W, store, s, e) && Enabled(W, s, Serve(w))
    ensures Over(W, store, Next(W, s, Serve(w)), e) && Next(W, s, Serve(w)).calls == s.calls
  {
    FirstService(W, store, s, w);
    LogAppend(W, store, s.log, s.lanes[w].up[0].entry, e);
  }

  lemma OverRun<S, L, D, T>(W: World<S, L, D, T>, store: S, s: Sys<S, L, D, T>, e: Entry<D>, w: nat)
    requires FlowOk(W, s) && AnswersOk(W, store, s) && Over(W, store, s, e) && Enabled(W, s, Run(w))
    ensures Over(W, store, Next(W, s, Run(w)), e)
    ensures forall c <- Next(W, s, Run(w)).calls :: c.data.parent == Some(e.data.ticket) ==> c in s.calls
  {
    if s.lanes[w].worker.todo != [] {
      OtherRuns(W, store, s, e, w);
    }
  }

  lemma OtherReceives<S, L, D, T>(W: World<S, L, D, T>, store: S, s: Sys<S, L, D, T>, e: Entry<D>, w: nat)
    requires AnswersOk(W, store, s) && Over(W, store, s, e) && Enabled(W, s, Receive(w))
    ensures Over(W, store, Next(W, s, Receive(w)), e) && Next(W, s, Receive(w)).calls == s.calls
  {
    assert s.lanes[w] in s.lanes && LaneHistory(W, store, s, s.lanes[w]);
  }

  lemma OtherRuns<S, L, D, T>(W: World<S, L, D, T>, store: S, s: Sys<S, L, D, T>, e: Entry<D>, w: nat)
    requires FlowOk(W, s) && AnswersOk(W, store, s) && Over(W, store, s, e) && Enabled(W, s, Run(w)) && s.lanes[w].worker.todo != []
    ensures s.lanes[w].worker.entry.data.ticket != e.data.ticket
  {
    var l := s.lanes[w];
    assert l in s.lanes && LaneHistory(W, store, s, l);
    OnePlace(W, s, e);
    OnePlace(W, s, l.worker.entry);
    assert s.calls[e.data.ticket] == e && s.calls[l.worker.entry.data.ticket] == l.worker.entry;
    assert |s.ran[l.worker.entry.data.ticket] + l.worker.todo| > |s.ran[l.worker.entry.data.ticket]|;
  }

  lemma {:induction false} OverStays<S, L, D(!new), T(!new)>(
    W: World<S, L, D, T>, store: S, local: L, s: Sys<S, L, D, T>, actions: seq<Action<D>>, t: Sys<S, L, D, T>, e: Entry<D>)
    requires CallbacksFit(W) && Sound(W, store, local, s) && Over(W, store, s, e) && Reaches(W, s, actions, t)
    ensures Over(W, store, t, e) && forall c <- t.calls :: c.data.parent == Some(e.data.ticket) ==> c in s.calls
    decreases |actions|
  {
    if actions != [] {
      var u := TakeStep(W, s, actions, t);
      OverStep(W, store, local, s, e, actions[0]);
      OneSoundStep(W, store, local, s, actions[0], u);
      OverStays(W, store, local, u, actions[1..], t, e);
    }
  }

  lemma OneSoundStep<S, L, D(!new), T(!new)>(
    W: World<S, L, D, T>, store: S, local: L, s: Sys<S, L, D, T>, a: Action<D>, t: Sys<S, L, D, T>)
    requires CallbacksFit(W) && Sound(W, store, local, s) && StepTo(W, s, a, t)
    ensures Sound(W, store, local, t)
  {
    var none: seq<Action<D>> := [];
    AddStep(W, s, a, t, none, t);
    RunsKeepSound(W, store, local, s, [a] + none, t);
  }

  lemma {:induction false} CallsStay<S, L, D, T>(W: World<S, L, D, T>, s: Sys<S, L, D, T>, actions: seq<Action<D>>, t: Sys<S, L, D, T>)
    requires Reaches(W, s, actions, t)
    ensures s.calls <= t.calls
    decreases |actions|
  {
    if actions != [] {
      var u := TakeStep(W, s, actions, t);
      CallsStep(W, s, actions[0]);
      CallsStay(W, u, actions[1..], t);
    }
  }

  lemma CallsStep<S, L, D, T>(W: World<S, L, D, T>, s: Sys<S, L, D, T>, a: Action<D>)
    requires Enabled(W, s, a)
    ensures s.calls <= Next(W, s, a).calls
  {
  }

  lemma DroppedStaysOneStep<S, L, D, T>(W: World<S, L, D, T>, s: Sys<S, L, D, T>, a: Action<D>)
    requires Enabled(W, s, a)
    ensures s.dropped <= Next(W, s, a).dropped
  {
  }

  lemma {:induction false} DroppedStays<S, L, D, T>(W: World<S, L, D, T>, s: Sys<S, L, D, T>, actions: seq<Action<D>>, t: Sys<S, L, D, T>)
    requires Reaches(W, s, actions, t)
    ensures s.dropped <= t.dropped
    decreases |actions|
  {
    if actions != [] {
      var u := TakeStep(W, s, actions, t);
      DroppedStaysOneStep(W, s, actions[0]);
      DroppedStays(W, u, actions[1..], t);
    }
  }

  // ---- a request alone in its epoch ----

  ghost predicate Silent<S(!new), L, D, T(!new)>(W: World<S, L, D, T>, c: Cmd<D>)
  {
    forall x, a :: a in Acts(W, c, x) ==> !a.Request?
  }

  ghost predicate Client<D>(calls: seq<Entry<D>>, k: nat, i: nat)
  {
    i < |calls| && calls[i].data.parent.None? && calls[i].data.epoch == k
  }

  lemma {:induction false} OneIssued<D>(calls: seq<Entry<D>>, k: nat, i: nat)
    requires Client(calls, k, i)
    ensures CmdOf(calls[i]) in At(Issued(calls), k)
  {
    LastIssued(calls, k);
    if i < |calls| - 1 {
      OneIssued(calls[..|calls| - 1], k, i);
    }
  }

  lemma {:induction false} TwoIssued<D>(calls: seq<Entry<D>>, k: nat, i: nat, j: nat)
    requires i < j && Client(calls, k, i) && Client(calls, k, j)
    ensures |At(Issued(calls), k)| >= 2
  {
    LastIssued(calls, k);
    if j < |calls| - 1 {
      TwoIssued(calls[..|calls| - 1], k, i, j);
    } else {
      OneIssued(calls[..|calls| - 1], k, i);
    }
  }

  lemma LastIssued<D>(calls: seq<Entry<D>>, k: nat)
    requires calls != []
    ensures var n := |calls| - 1;
            At(Issued(calls), k) == At(Issued(calls[..n]), k) + if Client(calls, k, n) then [CmdOf(calls[n])] else []
  {
    var e := calls[|calls| - 1];
    AtLast(Issued(calls[..|calls| - 1]), if e.data.parent.None? then [(CmdOf(e), e.data.epoch)] else [], k);
  }

  lemma AtLast<A>(log: seq<(A, nat)>, more: seq<(A, nat)>, k: nat)
    requires |more| <= 1
    ensures At(log + more, k) == At(log, k) + if |more| == 1 && more[0].1 == k then [more[0].0] else []
  {
    if more == [] {
      assert log + more == log;
    } else {
      assert (log + more)[..|log|] == log;
    }
  }

  /** If the only client call of epoch `k` is `c`, and its callback requests nothing, there is
      at most one call in that epoch. */
  lemma AloneInEpoch<S(!new), L, D(!new), T(!new)>(
    W: World<S, L, D, T>, store: S, local: L, s: Sys<S, L, D, T>, c: Cmd<D>, k: nat, i: nat, j: nat)
    requires Sound(W, store, local, s) && At(Issued(s.calls), k) == [c] && Silent(W, c)
    requires i < |s.calls| && j < |s.calls| && s.calls[i].data.epoch == s.calls[j].data.epoch == k
    ensures i == j && CmdOf(s.calls[i]) == c
  {
    ClientMadeIt(W, store, local, s, c, k, i);
    ClientMadeIt(W, store, local, s, c, k, j);
    if i != j {
      TwoIssued(s.calls, k, if i < j then i else j, if i < j then j else i);
    }
  }

  lemma {:induction false} ClientMadeIt<S(!new), L, D(!new), T(!new)>(
    W: World<S, L, D, T>, store: S, local: L, s: Sys<S, L, D, T>, c: Cmd<D>, k: nat, i: nat)
    requires Sound(W, store, local, s) && At(Issued(s.calls), k) == [c] && Silent(W, c)
    requires i < |s.calls| && s.calls[i].data.epoch == k
    ensures s.calls[i].data.parent.None? && CmdOf(s.calls[i]) == c
    decreases i
  {
    var e := s.calls[i];
    assert e in s.calls && e.data.ticket == i;
    if e.data.parent.Some? {
      var parent, x := ParentAsked(W, store, local, s, e);
      var t := parent.data.ticket;
      assert s.calls[t] == parent;
      ClientMadeIt(W, store, local, s, c, k, t);
    } else {
      OneIssued(s.calls, k, i);
    }
  }

  // ---- clearing ----

  /** A client empties the store by a request of epoch `k`.  Whatever the rest of the program, whatever
      other clients call in the same epoch, and whatever the schedule: when nothing is left the store is
      the result, on an empty store, of what was applied after the clearing, which has every call of a
      later epoch; and every call of an earlier epoch was applied before it.  If the clearing is
      alone in its epoch, what was applied after it is exactly the calls of later epochs. */
  lemma ClearingProgram<S(!new), L, D(!new), T(!new)>(
    W: World<S, L, D, T>, store: S, local: L, actions: seq<Action<D>>, s: Sys<S, L, D, T>, c: Cmd<D>, k: nat, empty: S)
    returns (i: nat)
    requires CallbacksFit(W) && Reachable(W, store, local, actions, s) && Quiescent(s)
    requires c in At(ClientCalls(actions, 0), k) && forall x :: W.effect(c.text, x) == empty
    ensures i < |s.log| && s.log[i].text == c.text && s.log[i].data.epoch == k
    ensures s.store == Replay(W, empty, s.log[i + 1..])
    ensures forall e <- s.calls :: e.data.epoch < k ==> AppliedBefore(s, e, i)
    ensures forall e <- s.calls :: k < e.data.epoch ==> AppliedBehind(s, e, i)
    ensures forall e <- s.log[i + 1..] :: k <= e.data.epoch
    ensures At(ClientCalls(actions, 0), k) == [c] && Silent(W, c) ==> forall e <- s.log[i + 1..] :: k < e.data.epoch
  {
    RunIssued(W, store, local, actions, s);
    i := SomewhereApplied(W, s, c, k);
    ClearIsExact(W, store, local, actions, s, i, empty);
    LaterAreBehind(W, s, i);
    if At(ClientCalls(actions, 0), k) == [c] && Silent(W, c) {
      OnlyOne(W, store, local, s, c, k, s.log[i]);
    }
  }

  lemma SomewhereApplied<S, L, D, T>(W: World<S, L, D, T>, s: Sys<S, L, D, T>, c: Cmd<D>, k: nat) returns (i: nat)
    requires FlowOk(W, s) && Quiescent(s) && c in At(Issued(s.calls), k)
    ensures i < |s.log| && s.log[i].text == c.text && s.log[i].data.epoch == k
  {
    var e := TheCall(s.calls, c, k);
    i := AppliedAtTheEnd(W, s, e);
  }

  /** The call, or the equal call it was merged with, was applied after position `i`. */
  ghost predicate AppliedBehind<S, L, D, T>(s: Sys<S, L, D, T>, e: Entry<D>, i: nat)
    requires i < |s.log|
  {
    exists j :: i < j < |s.log| && (s.log[j] == e || (e in s.dropped && Represents(s.log[j], e)))
  }

  lemma LaterAreBehind<S, L, D, T>(W: World<S, L, D, T>, s: Sys<S, L, D, T>, i: nat)
    requires FlowOk(W, s) && Quiescent(s) && i < |s.log|
    ensures forall e <- s.calls :: s.log[i].data.epoch < e.data.epoch ==> AppliedBehind(s, e, i)
  {
    forall e | e in s.calls && s.log[i].data.epoch < e.data.epoch ensures AppliedBehind(s, e, i) {
      var j := AppliedAtTheEnd(W, s, e);
      assert i < j;
    }
  }

  lemma OnlyOne<S(!new), L, D(!new), T(!new)>(
    W: World<S, L, D, T>, store: S, local: L, s: Sys<S, L, D, T>, c: Cmd<D>, k: nat, e: Entry<D>)
    requires Sound(W, store, local, s) && At(Issued(s.calls), k) == [c] && Silent(W, c) && e in s.log && e.data.epoch == k
    ensures Alone(s, e)
  {
    AppliedWasCalled(W, s, e);
    forall d | d in s.calls && d.data.epoch == k ensures d == e {
      var n :| 0 <= n < |s.calls| && s.calls[n] == d;
      var m :| 0 <= m < |s.calls| && s.calls[m] == e;
      AloneInEpoch(W, store, local, s, c, k, m, n);
    }
  }

  lemma TheCall<D>(calls: seq<Entry<D>>, c: Cmd<D>, k: nat) returns (e: Entry<D>)
    requires c in At(Issued(calls), k)
    ensures e in calls && CmdOf(e) == c && e.data.epoch == k
  {
    AtMember(Issued(calls), k, c);
    IssuedMember(calls, (c, k));
    e :| e in calls && e.data.parent.None? && (c, k) == (CmdOf(e), e.data.epoch);
  }

  /** When nothing is left, every call has been applied, or the equal call it was merged with. */
  lemma AppliedAtTheEnd<S, L, D, T>(W: World<S, L, D, T>, s: Sys<S, L, D, T>, e: Entry<D>) returns (i: nat)
    requires FlowOk(W, s) && Quiescent(s) && e in s.calls
    ensures i < |s.log| && (s.log[i] == e || (e in s.dropped && Represents(s.log[i], e)))
    ensures s.log[i].text == e.text && s.log[i].data.epoch == e.data.epoch
  {
    var r := e;
    if e in s.dropped {
      r :| r in s.calls && Represents(r, e) && r !in s.dropped;
    }
    KeptIsApplied(W, s, r);
    i :| 0 <= i < |s.log| && s.log[i] == r;
  }

  lemma KeptIsApplied<S, L, D, T>(W: World<S, L, D, T>, s: Sys<S, L, D, T>, e: Entry<D>)
    requires FlowOk(W, s) && Quiescent(s) && e in s.calls && e !in s.dropped
    ensures e in s.log
  {
    InFlightEmpty(s.lanes);
    assert multiset(s.calls)[e] == multiset(s.queue)[e] + InFlight(s.lanes)[e] + multiset(s.log)[e] + multiset(s.dropped)[e];
    assert e in multiset(s.calls) && e !in multiset(s.dropped);
  }

  // ---- closing ----

  lemma {:induction false} EpochIsIssued<S, L, D(!new), T(!new)>(W: World<S, L, D, T>, store: S, local: L, s: Sys<S, L, D, T>, e: Entry<D>)
    requires Sound(W, store, local, s) && e in s.calls
    ensures exists p <- Issued(s.calls) :: p.1 == e.data.epoch
    decreases e.data.ticket
  {
    if e.data.parent.None? {
      IssuedMember(s.calls, (CmdOf(e), e.data.epoch));
    } else {
      var parent, x := ParentAsked(W, store, local, s, e);
      EpochIsIssued(W, store, local, s, parent);
    }
  }

  lemma OthersAreOlder<S(!new), L, D(!new), T(!new)>(
    W: World<S, L, D, T>, store: S, local: L, s: Sys<S, L, D, T>, c: Cmd<D>, k: nat, r: Entry<D>, d: Entry<D>)
    requires Sound(W, store, local, s) && At(Issued(s.calls), k) == [c] && Silent(W, c)
    requires (forall p <- Issued(s.calls) :: p.1 <= k) && r in s.calls && r.data.epoch == k && d in s.calls
    ensures CmdOf(r) == c && (d == r || d.data.epoch < k)
  {
    EpochIsIssued(W, store, local, s, d);
    var n :| 0 <= n < |s.calls| && s.calls[n] == r;
    var m :| 0 <= m < |s.calls| && s.calls[m] == d;
    AloneInEpoch(W, store, local, s, c, k, n, n);
    if d.data.epoch == k {
      AloneInEpoch(W, store, local, s, c, k, m, n);
    }
  }

  /** A client closes the connection by a request of epoch `k`.  Whatever the rest of the program,
      whatever other clients call meanwhile or afterwards, and whatever the schedule: when the workers
      have nothing left to do the server has applied the closing; every call of an earlier epoch was
      applied before it, and every one of a later epoch, if it has a reply or nothing is left, behind
      it.  If the closing is alone in the last epoch, the server has applied it last of all. */
  lemma ClosingProgram<S(!new), L, D(!new), T(!new)>(
    W: World<S, L, D, T>, store: S, local: L, actions: seq<Action<D>>, s: Sys<S, L, D, T>, c: Cmd<D>, k: nat)
    returns (i: nat)
    requires CallbacksFit(W) && Reachable(W, store, local, actions, s) && Drained(s)
    requires c in At(ClientCalls(actions, 0), k) && W.replies(c.text)
    ensures i < |s.log| && s.log[i].text == c.text && s.log[i].data.epoch == k
    ensures forall e <- s.calls :: e.data.epoch < k ==> AppliedBefore(s, e, i)
    ensures forall e <- s.calls :: k < e.data.epoch && (W.replies(e.text) || Quiescent(s)) ==> AppliedBehind(s, e, i)
    ensures forall e <- s.log[i + 1..] :: k <= e.data.epoch
    ensures At(ClientCalls(actions, 0), k) == [c] && Silent(W, c) && (forall p <- ClientCalls(actions, 0) :: p.1 <= k) ==>
              i == |s.log| - 1 && forall e <- s.calls :: AppliedBefore(s, e, |s.log|)
  {
    RunIssued(W, store, local, actions, s);
    i := ClosingIsApplied(W, store, s, c, k);
    EnclosedCommand(W, store, local, actions, s, i);
    AnsweredAreBehind(W, store, s, i);
    if At(ClientCalls(actions, 0), k) == [c] && Silent(W, c) && forall p <- ClientCalls(actions, 0) :: p.1 <= k {
      ClosingIsAlone(W, store, local, s, c, k, i);
      NothingAfterClose(W, store, local, actions, s, i);
    }
  }

  lemma AnsweredAreBehind<S, L, D, T>(W: World<S, L, D, T>, store: S, s: Sys<S, L, D, T>, i: nat)
    requires FlowOk(W, s) && AnswersOk(W, store, s) && Drained(s) && i < |s.log|
    ensures forall e <- s.calls :: s.log[i].data.epoch < e.data.epoch && (W.replies(e.text) || Quiescent(s)) ==> AppliedBehind(s, e, i)
  {
    if Quiescent(s) {
      LaterAreBehind(W, s, i);
    }
    forall e | e in s.calls && s.log[i].data.epoch < e.data.epoch && W.replies(e.text) ensures AppliedBehind(s, e, i) {
      AnsweredIsBehind(W, store, s, i, e);
    }
  }

  lemma AnsweredIsBehind<S, L, D, T>(W: World<S, L, D, T>, store: S, s: Sys<S, L, D, T>, i: nat, e: Entry<D>)
    requires FlowOk(W, s) && AnswersOk(W, store, s) && Drained(s) && i < |s.log|
    requires e in s.calls && s.log[i].data.epoch < e.data.epoch && W.replies(e.text)
    ensures AppliedBehind(s, e, i)
  {
    var r := CallbackFinished(W, store, s, e);
    var j :| 0 <= j < |s.log| && s.log[j] == r;
    assert i < j;
  }

  lemma ClosingIsApplied<S, L, D, T>(W: World<S, L, D, T>, store: S, s: Sys<S, L, D, T>, c: Cmd<D>, k: nat) returns (i: nat)
    requires FlowOk(W, s) && AnswersOk(W, store, s) && Drained(s) && c in At(Issued(s.calls), k) && W.replies(c.text)
    ensures i < |s.log| && s.log[i].text == c.text && s.log[i].data.epoch == k
  {
    var e := TheCall(s.calls, c, k);
    var r := CallbackFinished(W, store, s, e);
    i :| 0 <= i < |s.log| && s.log[i] == r;
  }

  lemma ClosingIsAlone<S(!new), L, D(!new), T(!new)>(
    W: World<S, L, D, T>, store: S, local: L, s: Sys<S, L, D, T>, c: Cmd<D>, k: nat, i: nat)
    requires Sound(W, store, local, s) && At(Issued(s.calls), k) == [c] && Silent(W, c)
    requires (forall p <- Issued(s.calls) :: p.1 <= k) && i < |s.log| && s.log[i].data.epoch == k
    ensures forall d <- s.calls :: d == s.log[i] || d.data.epoch < s.log[i].data.epoch
  {
    AppliedWasCalled(W, s, s.log[i]);
    forall d | d in s.calls ensures d == s.log[i] || d.data.epoch < k {
      OthersAreOlder(W, store, local, s, c, k, s.log[i], d);
    }
  }
}
