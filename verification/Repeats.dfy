/** Exactly which programs have all their unnumbered calls applied, and each for its own packet. */
module Repeats {
  import opened Protocol
  import opened Runs
  import opened Flow
  import opened History
  import opened Sequences
  import opened SimpleBackend
  import opened Refinement
  import opened Guarantees
  import Origins
  import Drain
  import Lazy

  // ---- programs ----

  /** The requests of a program with the epochs in which it makes them. */
  ghost function CallsOf<D>(ops: seq<Op<D>>, epoch: nat): seq<(Cmd<D>, nat)>
  {
    if ops == [] then []
    else if ops[0].Do? then [(ops[0].cmd, epoch)] + CallsOf(ops[1..], epoch)
    else CallsOf(ops[1..], epoch + 1)
  }

  lemma {:induction false} CallsOfProgram<D>(actions: seq<Action<D>>, epoch: nat)
    ensures ClientCalls(actions, epoch) == CallsOf(Program(actions), epoch)
  {
    if actions != [] {
      var rest := Program(actions[1..]);
      match actions[0]
      case Call(text, _, data) =>
        CallsOfProgram(actions[1..], epoch);
        assert ([Do(Cmd(text, data))] + rest)[1..] == rest;
      case Fence =>
        CallsOfProgram(actions[1..], epoch + 1);
        assert ([Barrier] + rest)[1..] == rest;
      case _ =>
        CallsOfProgram(actions[1..], epoch);
        assert [] + rest == rest;
    }
  }

  /** Two requests with this text between the same two barriers. */
  ghost predicate Twice<D>(calls: seq<(Cmd<D>, nat)>, text: string)
  {
    exists i, j :: 0 <= i < j < |calls| && calls[i].0.text == text && calls[j].0.text == text && calls[i].1 == calls[j].1
  }

  ghost function TimesCalled<D>(calls: seq<(Cmd<D>, nat)>, text: string): nat
  {
    |Select(calls, (p: (Cmd<D>, nat)) => p.0.text == text)|
  }

  ghost predicate NoCallbackRequests<S, L, D(!new), T(!new)>(W: World<S, L, D, T>, text: string)
  {
    forall d, reply, a :: a in W.plan(d, reply) && a.Request? ==> a.text != text
  }

  // ---- what is applied, and what is merged ----

  lemma ClientsMadeIt<S, L, D(!new), T(!new)>(W: World<S, L, D, T>, store: S, local: L, s: Sys<S, L, D, T>, text: string, e: Entry<D>)
    requires Sound(W, store, local, s) && NoCallbackRequests(W, text) && e in s.calls && e.text == text
    ensures e.data.parent.None?
  {
    if e.data.parent.Some? {
      var parent, x := Origins.ParentAsked(W, store, local, s, e);
    }
  }

  lemma {:induction false} CountIssued<D>(calls: seq<Entry<D>>, text: string)
    requires forall e <- calls :: e.text == text ==> e.data.parent.None?
    ensures Occurrences(calls, text) == TimesCalled(Issued(calls), text)
  {
    if calls != [] {
      var init, e := calls[..|calls| - 1], calls[|calls| - 1];
      CountIssued(init, text);
      var issued := Issued(init);
      if e.data.parent.None? {
        assert (issued + [(CmdOf(e), e.data.epoch)])[..|issued|] == issued;
      } else {
        assert issued + [] == issued;
      }
    }
  }

  lemma {:induction false} SelectAppend<A>(a: seq<A>, b: seq<A>, p: A -> bool)
    ensures Select(a + b, p) == Select(a, p) + Select(b, p)
  {
    if b == [] {
      assert a + b == a;
    } else {
      assert (a + b)[..|a + b| - 1] == a + b[..|b| - 1];
      SelectAppend(a, b[..|b| - 1], p);
    }
  }

  /** When nothing is left, what was called was applied or merged. */
  lemma AppliedOrMerged<S, L, D(!new), T>(W: World<S, L, D, T>, s: Sys<S, L, D, T>, text: string)
    requires FlowOk(W, s) && Quiescent(s)
    ensures Occurrences(s.calls, text) == Occurrences(s.log, text) + Occurrences(s.dropped, text)
  {
    InFlightEmpty(s.lanes);
    var p := (e: Entry<D>) => e.text == text;
    forall e: Entry<D> ensures multiset(s.calls)[e] == multiset(s.log + s.dropped)[e] {
      assert multiset(s.calls)[e] == multiset(s.queue)[e] + InFlight(s.lanes)[e] + multiset(s.log)[e] + multiset(s.dropped)[e];
    }
    SameCountSameLength(s.calls, s.log + s.dropped, p);
    SelectAppend(s.log, s.dropped, p);
  }

  lemma {:induction false} NoneSelected<A>(s: seq<A>, p: A -> bool)
    ensures Select(s, p) == [] <==> forall x <- s :: !p(x)
  {
    if s != [] {
      NoneSelected(s[..|s| - 1], p);
      assert s == s[..|s| - 1] + [s[|s| - 1]];
    }
  }

  /** A merged call of a client has a call of the same epoch and text before it in the program. */
  lemma MergedMeansTwice<S, L, D(!new), T(!new)>(
    W: World<S, L, D, T>, store: S, local: L, s: Sys<S, L, D, T>, text: string, d: Entry<D>)
    requires Sound(W, store, local, s) && NoCallbackRequests(W, text) && d in s.dropped && d.text == text
    ensures Twice(Issued(s.calls), text)
  {
    var r :| r in s.calls && Represents(r, d) && r !in s.dropped;
    OnlyCallsAreDropped(W, s, d);
    ClientsMadeIt(W, store, local, s, text, r);
    ClientsMadeIt(W, store, local, s, text, d);
    var i, j := r.data.ticket, d.data.ticket;
    assert s.calls[i] == r && s.calls[j] == d;
    IssuedPlace(s.calls, i, j);
    IssuedPlace(s.calls, j, |s.calls|);
  }

  lemma OnlyCallsAreDropped<S, L, D, T>(W: World<S, L, D, T>, s: Sys<S, L, D, T>, d: Entry<D>)
    requires FlowOk(W, s) && d in s.dropped
    ensures d in s.calls
  {
    assert multiset(s.calls)[d] == multiset(s.queue)[d] + InFlight(s.lanes)[d] + multiset(s.log)[d] + multiset(s.dropped)[d];
    assert d in multiset(s.dropped) && d in multiset(s.calls);
  }

  /** A run without a repeated call in an epoch applies the text as often as the program calls it. */
  lemma OnceIsApplied<S, L, D(!new), T(!new)>(
    W: World<S, L, D, T>, store: S, local: L, actions: seq<Action<D>>, s: Sys<S, L, D, T>, text: string)
    requires CallbacksFit(W) && NoCallbackRequests(W, text) && Reachable(W, store, local, actions, s) && Quiescent(s)
    requires !Twice(CallsOf(Program(actions), 0), text)
    ensures Occurrences(s.log, text) == TimesCalled(CallsOf(Program(actions), 0), text)
  {
    RunCounts(W, store, local, actions, s, text);
    forall d | d in s.dropped ensures d.text != text {
      if d.text == text {
        MergedMeansTwice(W, store, local, s, text, d);
      }
    }
    NoneSelected(s.dropped, (e: Entry<D>) => e.text == text);
  }

  lemma RunCounts<S, L, D(!new), T(!new)>(
    W: World<S, L, D, T>, store: S, local: L, actions: seq<Action<D>>, s: Sys<S, L, D, T>, text: string)
    requires CallbacksFit(W) && NoCallbackRequests(W, text) && Reachable(W, store, local, actions, s) && Quiescent(s)
    ensures Sound(W, store, local, s) && Issued(s.calls) == CallsOf(Program(actions), 0)
    ensures TimesCalled(CallsOf(Program(actions), 0), text) == Occurrences(s.log, text) + Occurrences(s.dropped, text)
  {
    ProgramIssued(W, store, local, actions, s);
    forall e | e in s.calls && e.text == text ensures e.data.parent.None? {
      ClientsMadeIt(W, store, local, s, text, e);
    }
    CountIssued(s.calls, text);
    AppliedOrMerged(W, s, text);
  }

  // ---- a run in which only the first call of each text is kept ----

  /** Where the clients' calls stand among all calls. */
  lemma {:induction false} IssuedFrom<D>(calls: seq<Entry<D>>, i: nat) returns (n: nat)
    requires i < |Issued(calls)|
    ensures n < |calls| && calls[n].data.parent.None? && |Issued(calls[..n])| == i
    ensures Issued(calls)[i] == (CmdOf(calls[n]), calls[n].data.epoch)
  {
    var init := calls[..|calls| - 1];
    if i == |Issued(init)| {
      n := |calls| - 1;
    } else {
      n := IssuedFrom(init, i);
      assert init[..n] == calls[..n];
    }
  }

  lemma LazyProgram<S, L, D(!new), T(!new)>(W: World<S, L, D, T>, store: S, local: L, ops: seq<Op<D>>)
    returns (actions: seq<Action<D>>, s: Sys<S, L, D, T>)
    requires CallbacksFit(W) && Drain.TwoRanks(W)
    ensures Reachable(W, store, local, actions, s) && Quiescent(s) && Program(actions) == ops && Lazy.Single(W, s)
  {
    InitialFlow(W, store, local);
    actions, s := Lazy.LazyRun(W, Initial(store, local), ops);
  }

  lemma {:induction false} LaterEpochs<D>(ops: seq<Op<D>>, epoch: nat)
    ensures forall p <- CallsOf(ops, epoch) :: epoch <= p.1
  {
    if ops != [] {
      LaterEpochs(ops[1..], if ops[0].Do? then epoch else epoch + 1);
    }
  }

  lemma RestIsLater<D>(rest: seq<Op<D>>, epoch: nat)
    requires rest == [] || rest[0].Barrier?
    ensures forall p <- CallsOf(rest, epoch) :: epoch < p.1
  {
    if rest != [] {
      LaterEpochs(rest[1..], epoch + 1);
    }
  }

  /** Any program run lazily up to the end of an epoch in which it calls something. */
  lemma LazyUpToEpoch<S, L, D(!new), T(!new)>(W: World<S, L, D, T>, store: S, local: L, ops: seq<Op<D>>, k: nat)
    returns (actions: seq<Action<D>>, s: Sys<S, L, D, T>, rest: seq<Op<D>>)
    requires CallbacksFit(W) && Drain.TwoRanks(W) && exists p <- CallsOf(ops, 0) :: p.1 == k
    ensures Reachable(W, store, local, actions, s) && Program(actions) + rest == ops && (rest == [] || rest[0].Barrier?)
    ensures FlowOk(W, s) && Lazy.Single(W, s) && Lazy.AllWait(s) && Lazy.Free(s) && s.epoch == k
    ensures Issued(s.calls) <= CallsOf(ops, 0)
    ensures forall n :: |Issued(s.calls)| <= n < |CallsOf(ops, 0)| ==> k < CallsOf(ops, 0)[n].1
  {
    InitialFlow(W, store, local);
    actions, s, rest := Lazy.LazyUpTo(W, Initial(store, local), ops, k);
    var more, t := Lazy.LazyRest(W, s, rest);
    CallsSplit(W, store, local, actions, s, more, t);
    RestIsLater(rest, s.epoch);
    if s.epoch < k {
      var p :| p in CallsOf(ops, 0) && p.1 == k;
      assert CallsOf(rest, s.epoch) == [] && p in Issued(s.calls);
      ClientCallsWithin(W, s, p);
    }
  }

  lemma CallsSplit<S, L, D(!new), T(!new)>(
    W: World<S, L, D, T>, store: S, local: L, actions: seq<Action<D>>, s: Sys<S, L, D, T>, more: seq<Action<D>>, t: Sys<S, L, D, T>)
    requires Reachable(W, store, local, actions, s) && Reaches(W, s, more, t)
    ensures CallsOf(Program(actions) + Program(more), 0) == Issued(s.calls) + CallsOf(Program(more), s.epoch)
  {
    ReachesAppend(W, Initial(store, local), actions, s, more, t);
    ProgramAppend(actions, more);
    RunFromStart(W, store, local, actions + more, t);
    RunCalls(W, s, more, t);
  }

  lemma RunCalls<S, L, D, T>(W: World<S, L, D, T>, s: Sys<S, L, D, T>, actions: seq<Action<D>>, t: Sys<S, L, D, T>)
    requires Reaches(W, s, actions, t)
    ensures Issued(t.calls) == Issued(s.calls) + CallsOf(Program(actions), s.epoch)
  {
    IssuedByRun(W, s, actions, t);
    CallsOfProgram(actions, s.epoch);
  }

  lemma RunFromStart<S, L, D, T>(W: World<S, L, D, T>, store: S, local: L, actions: seq<Action<D>>, t: Sys<S, L, D, T>)
    requires Reachable(W, store, local, actions, t)
    ensures Issued(t.calls) == CallsOf(Program(actions), 0)
  {
    RunCalls(W, Initial(store, local), actions, t);
    var none: seq<Entry<D>> := [];
    assert Issued(none) == [] && [] + CallsOf(Program(actions), 0) == CallsOf(Program(actions), 0);
  }

  lemma TwiceMeansMerged<S, L, D(!new), T(!new)>(W: World<S, L, D, T>, s: Sys<S, L, D, T>, text: string)
    requires FlowOk(W, s) && Lazy.Single(W, s) && !W.unique(text) && Twice(Issued(s.calls), text)
    ensures exists d <- s.dropped :: d.text == text
  {
    var calls := Issued(s.calls);
    var i, j :| 0 <= i < j < |calls| && calls[i].0.text == text && calls[j].0.text == text && calls[i].1 == calls[j].1;
    var m := IssuedFrom(s.calls, i);
    var n := IssuedFrom(s.calls, j);
    var c, d := s.calls[m], s.calls[n];
    assert c in s.calls && d in s.calls && Lazy.SameCall(c, d);
    assert c != d by { assert c.data.ticket == m && d.data.ticket == n; }
    assert !Lazy.Kept(s, c) || !Lazy.Kept(s, d);
  }

  // ---- exactly when ----

  /** However the workers are scheduled, the server applies the text as often as the program calls it. */
  ghost predicate AlwaysApplied<S(!new), L(!new), D(!new), T(!new)>(W: World<S, L, D, T>, store: S, local: L, ops: seq<Op<D>>, text: string)
  {
    forall actions, s :: Reachable(W, store, local, actions, s) && Quiescent(s) && Program(actions) == ops ==>
                           Occurrences(s.log, text) == TimesCalled(CallsOf(ops, 0), text)
  }

  /** Exactly when an unnumbered text that no callback requests is always applied as often as it is
      called: when the program does not call it twice between the same two barriers. */
  lemma AlwaysAppliedExactly<S(!new), L(!new), D(!new), T(!new)>(W: World<S, L, D, T>, store: S, local: L, ops: seq<Op<D>>, text: string)
    requires CallbacksFit(W) && Drain.TwoRanks(W) && !W.unique(text) && NoCallbackRequests(W, text)
    ensures AlwaysApplied(W, store, local, ops, text) <==> !Twice(CallsOf(ops, 0), text)
  {
    if Twice(CallsOf(ops, 0), text) {
      var actions, s := RepeatsCanMerge(W, store, local, ops, text);
      assert Program(actions) == ops;
    } else {
      forall actions, s | Reachable(W, store, local, actions, s) && Quiescent(s) && Program(actions) == ops
        ensures Occurrences(s.log, text) == TimesCalled(CallsOf(ops, 0), text)
      {
        OnceIsApplied(W, store, local, actions, s, text);
      }
    }
  }

  lemma RepeatsCanMerge<S(!new), L(!new), D(!new), T(!new)>(W: World<S, L, D, T>, store: S, local: L, ops: seq<Op<D>>, text: string)
    returns (actions: seq<Action<D>>, s: Sys<S, L, D, T>)
    requires CallbacksFit(W) && Drain.TwoRanks(W) && !W.unique(text) && NoCallbackRequests(W, text) && Twice(CallsOf(ops, 0), text)
    ensures Reachable(W, store, local, actions, s) && Quiescent(s) && Program(actions) == ops
    ensures Occurrences(s.log, text) < TimesCalled(CallsOf(ops, 0), text)
  {
    actions, s := LazyProgram(W, store, local, ops);
    RunCounts(W, store, local, actions, s, text);
    TwiceMeansMerged(W, s, text);
    NoneSelected(s.dropped, (e: Entry<D>) => e.text == text);
  }

  // ---- whose own packet is served ----

  /** The server has applied the call with its packet, in its epoch, and if it replied, the callback
      has done on that packet all that the reply asked for. */
  ghost predicate OwnAnswer<S, L, D, T>(W: World<S, L, D, T>, store: S, s: Sys<S, L, D, T>, p: (Cmd<D>, nat))
  {
    exists r <- s.log :: CmdOf(r) == p.0 && r.data.epoch == p.1 &&
      (W.replies(r.text) ==> r.data.ticket in s.ran && s.ran[r.data.ticket] == Plan(W, store, s.log, r))
  }

  /** However the workers are scheduled, this request of the program gets its own answer. */
  ghost predicate SurelyServed<S(!new), L(!new), D(!new), T(!new)>(
    W: World<S, L, D, T>, store: S, local: L, ops: seq<Op<D>>, p: (Cmd<D>, nat))
  {
    forall actions, s :: Reachable(W, store, local, actions, s) && Quiescent(s) && Program(actions) == ops ==> OwnAnswer(W, store, s, p)
  }

  ghost predicate AlwaysServed<S(!new), L(!new), D(!new), T(!new)>(W: World<S, L, D, T>, store: S, local: L, ops: seq<Op<D>>, text: string)
  {
    forall p <- CallsOf(ops, 0) :: p.0.text == text ==> SurelyServed(W, store, local, ops, p)
  }

  ghost predicate SameBetween<D>(p: (Cmd<D>, nat), q: (Cmd<D>, nat))
  {
    p.0.text == q.0.text && p.1 == q.1
  }

  /** No request before it, since the last barrier, has the text of this one. */
  ghost predicate Leads<D>(calls: seq<(Cmd<D>, nat)>, j: nat)
  {
    j < |calls| && forall n :: 0 <= n < j ==> !SameBetween(calls[n], calls[j])
  }

  /** The first request with its text, since the last barrier, has the packet of this one. */
  ghost predicate LedByItself<D>(calls: seq<(Cmd<D>, nat)>, p: (Cmd<D>, nat))
  {
    exists j :: 0 <= j < |calls| && Leads(calls, j) && calls[j] == p
  }

  /** Two requests with this text, but different packets, between the same two barriers. */
  ghost predicate Differ<D>(calls: seq<(Cmd<D>, nat)>, text: string)
  {
    exists i, j :: 0 <= i < j < |calls| && calls[i].0.text == text && SameBetween(calls[i], calls[j]) && calls[i].0.data != calls[j].0.data
  }

  /** The first call with its text in its epoch. */
  ghost predicate IsFirst<S, L, D, T>(s: Sys<S, L, D, T>, f: Entry<D>)
  {
    f in s.calls && forall e <- s.calls :: Lazy.SameCall(e, f) ==> f.data.ticket <= e.data.ticket
  }

  /** It is never merged. */
  lemma {:induction false} FirstIsKept<S, L, D, T>(W: World<S, L, D, T>, s: Sys<S, L, D, T>, c: Entry<D>) returns (f: Entry<D>)
    requires FlowOk(W, s) && c in s.calls
    ensures IsFirst(s, f) && f !in s.dropped && Lazy.SameCall(f, c)
    decreases c.data.ticket
  {
    if e :| e in s.calls && Lazy.SameCall(e, c) && e.data.ticket < c.data.ticket {
      f := FirstIsKept(W, s, e);
    } else {
      f := c;
      assert s.calls[c.data.ticket] == c;
    }
  }

  /** Its place in the program. */
  lemma FirstLeads<S, L, D, T>(W: World<S, L, D, T>, s: Sys<S, L, D, T>, f: Entry<D>) returns (j: nat)
    requires FlowOk(W, s) && IsFirst(s, f) && f.data.parent.None?
    ensures Leads(Issued(s.calls), j) && Issued(s.calls)[j] == (CmdOf(f), f.data.epoch)
  {
    var calls, t := Issued(s.calls), f.data.ticket;
    j := |Issued(s.calls[..t])|;
    assert s.calls[t] == f;
    IssuedPlace(s.calls, t, |s.calls|);
    IssuedPrefix(s.calls, t);
    forall n | 0 <= n < j ensures !SameBetween(calls[n], calls[j]) {
      EarlierDiffers(W, s, f, n);
    }
  }

  lemma EarlierDiffers<S, L, D, T>(W: World<S, L, D, T>, s: Sys<S, L, D, T>, f: Entry<D>, n: nat)
    requires CallsOk(W, s) && IsFirst(s, f) && f.data.ticket < |s.calls|
    requires Issued(s.calls[..f.data.ticket]) <= Issued(s.calls) && n < |Issued(s.calls[..f.data.ticket])|
    ensures !SameBetween(Issued(s.calls)[n], (CmdOf(f), f.data.epoch))
  {
    var before := s.calls[..f.data.ticket];
    var m := IssuedFrom(before, n);
    assert before[m] == s.calls[m] && s.calls[m] in s.calls && s.calls[m].data.ticket == m;
  }

  lemma {:induction false} IssuedPrefix<D>(calls: seq<Entry<D>>, t: nat)
    requires t <= |calls|
    ensures Issued(calls[..t]) <= Issued(calls)
  {
    if t < |calls| {
      var init := calls[..|calls| - 1];
      IssuedPrefix(init, t);
      assert init[..t] == calls[..t];
    } else {
      assert calls[..t] == calls;
    }
  }

  lemma OneLeader<D>(calls: seq<(Cmd<D>, nat)>, i: nat, j: nat)
    requires Leads(calls, i) && Leads(calls, j) && SameBetween(calls[i], calls[j])
    ensures i == j
  {
  }

  lemma AppliedIsAnswered<S, L, D, T>(W: World<S, L, D, T>, store: S, s: Sys<S, L, D, T>, r: Entry<D>)
    requires AnswersOk(W, store, s) && Quiescent(s) && r in s.log && W.replies(r.text)
    ensures r.data.ticket in s.ran && s.ran[r.data.ticket] == Plan(W, store, s.log, r)
  {
    assert Attended(W, store, s, r);
  }

  /** The leading request of a text is applied with its packet in every run. */
  lemma LeaderIsServed<S, L, D(!new), T(!new)>(
    W: World<S, L, D, T>, store: S, local: L, s: Sys<S, L, D, T>, j: nat)
    requires Sound(W, store, local, s) && Quiescent(s) && Leads(Issued(s.calls), j)
    requires NoCallbackRequests(W, Issued(s.calls)[j].0.text)
    ensures OwnAnswer(W, store, s, Issued(s.calls)[j])
  {
    var p := Issued(s.calls)[j];
    IssuedMember(s.calls, p);
    var c :| c in s.calls && c.data.parent.None? && p == (CmdOf(c), c.data.epoch);
    var f := FirstIsKept(W, s, c);
    ClientsMadeIt(W, store, local, s, p.0.text, f);
    var i := FirstLeads(W, s, f);
    OneLeader(Issued(s.calls), i, j);
    Origins.KeptIsApplied(W, s, f);
    if W.replies(f.text) {
      AppliedIsAnswered(W, store, s, f);
    }
  }

  /** And in a lazy run no other packet is. */
  lemma OnlyLeadersAreServed<S, L, D(!new), T(!new)>(
    W: World<S, L, D, T>, store: S, local: L, s: Sys<S, L, D, T>, p: (Cmd<D>, nat))
    requires Sound(W, store, local, s) && Lazy.Single(W, s) && !W.unique(p.0.text) && NoCallbackRequests(W, p.0.text)
    requires OwnAnswer(W, store, s, p)
    ensures LedByItself(Issued(s.calls), p)
  {
    var r :| r in s.log && CmdOf(r) == p.0 && r.data.epoch == p.1;
    AppliedIsKept(W, s, r);
    var f := FirstIsKept(W, s, r);
    ClientsMadeIt(W, store, local, s, p.0.text, r);
    ClientsMadeIt(W, store, local, s, p.0.text, f);
    assert Lazy.Kept(s, r) && Lazy.Kept(s, f);
    var j := FirstLeads(W, s, f);
  }

  lemma AppliedIsKept<S, L, D, T>(W: World<S, L, D, T>, s: Sys<S, L, D, T>, r: Entry<D>)
    requires FlowOk(W, s) && r in s.log
    ensures r in s.calls && r !in s.dropped
  {
    CallsAreDistinct(W, s, r);
    assert multiset(s.calls)[r] == multiset(s.queue)[r] + InFlight(s.lanes)[r] + multiset(s.log)[r] + multiset(s.dropped)[r];
    assert r in multiset(s.log) && r in multiset(s.calls);
  }

  /** Exactly when a request whose text no callback requests surely gets its own answer: when the
      first request with that text since the last barrier carries the same packet. */
  lemma SurelyServedExactly<S(!new), L(!new), D(!new), T(!new)>(
    W: World<S, L, D, T>, store: S, local: L, ops: seq<Op<D>>, p: (Cmd<D>, nat))
    requires CallbacksFit(W) && Drain.TwoRanks(W) && !W.unique(p.0.text) && NoCallbackRequests(W, p.0.text)
    ensures SurelyServed(W, store, local, ops, p) <==> LedByItself(CallsOf(ops, 0), p)
  {
    if LedByItself(CallsOf(ops, 0), p) {
      var j :| 0 <= j < |CallsOf(ops, 0)| && Leads(CallsOf(ops, 0), j) && CallsOf(ops, 0)[j] == p;
      forall actions, s | Reachable(W, store, local, actions, s) && Quiescent(s) && Program(actions) == ops
        ensures OwnAnswer(W, store, s, p)
      {
        ProgramIssued(W, store, local, actions, s);
        LeaderIsServed(W, store, local, s, j);
      }
    }
    if SurelyServed(W, store, local, ops, p) {
      var actions, s := LazyProgram(W, store, local, ops);
      ProgramIssued(W, store, local, actions, s);
      OnlyLeadersAreServed(W, store, local, s, p);
    }
  }

  lemma ProgramIssued<S, L, D(!new), T(!new)>(
    W: World<S, L, D, T>, store: S, local: L, actions: seq<Action<D>>, s: Sys<S, L, D, T>)
    requires CallbacksFit(W) && Reachable(W, store, local, actions, s)
    ensures Sound(W, store, local, s) && Issued(s.calls) == CallsOf(Program(actions), 0)
  {
    ReachableIsSound(W, store, local, actions, s);
    RunFromStart(W, store, local, actions, s);
  }

  lemma {:induction false} SomeLeader<D>(calls: seq<(Cmd<D>, nat)>, i: nat) returns (j: nat)
    requires i < |calls|
    ensures j <= i && Leads(calls, j) && SameBetween(calls[j], calls[i])
  {
    if n :| 0 <= n < i && SameBetween(calls[n], calls[i]) {
      j := SomeLeader(calls, n);
    } else {
      j := i;
    }
  }

  lemma OneLeads<D>(calls: seq<(Cmd<D>, nat)>, p: (Cmd<D>, nat), q: (Cmd<D>, nat))
    requires LedByItself(calls, p) && LedByItself(calls, q) && SameBetween(p, q)
    ensures p == q
  {
    var m :| 0 <= m < |calls| && Leads(calls, m) && calls[m] == p;
    var n :| 0 <= n < |calls| && Leads(calls, n) && calls[n] == q;
    OneLeader(calls, m, n);
  }

  lemma DifferExactly<D>(calls: seq<(Cmd<D>, nat)>, text: string)
    ensures (forall p <- calls :: p.0.text == text ==> LedByItself(calls, p)) <==> !Differ(calls, text)
  {
    if Differ(calls, text) {
      var i, j :| 0 <= i < j < |calls| && calls[i].0.text == text && SameBetween(calls[i], calls[j]) && calls[i].0.data != calls[j].0.data;
      if LedByItself(calls, calls[i]) && LedByItself(calls, calls[j]) {
        OneLeads(calls, calls[i], calls[j]);
      }
    } else {
      forall p | p in calls && p.0.text == text ensures LedByItself(calls, p) {
        NoneDiffers(calls, text, p);
      }
    }
  }

  lemma NoneDiffers<D>(calls: seq<(Cmd<D>, nat)>, text: string, p: (Cmd<D>, nat))
    requires !Differ(calls, text) && p in calls && p.0.text == text
    ensures LedByItself(calls, p)
  {
    var i :| 0 <= i < |calls| && calls[i] == p;
    var j := SomeLeader(calls, i);
  }

  /** Exactly when every request with an unnumbered text that no callback requests gets its own answer,
      however the workers are scheduled: when the program does not make it twice with different packets
      between the same two barriers. */
  lemma AlwaysServedExactly<S(!new), L(!new), D(!new), T(!new)>(W: World<S, L, D, T>, store: S, local: L, ops: seq<Op<D>>, text: string)
    requires CallbacksFit(W) && Drain.TwoRanks(W) && !W.unique(text) && NoCallbackRequests(W, text)
    ensures AlwaysServed(W, store, local, ops, text) <==> !Differ(CallsOf(ops, 0), text)
  {
    forall p | p in CallsOf(ops, 0) && p.0.text == text
      ensures SurelyServed(W, store, local, ops, p) <==> LedByItself(CallsOf(ops, 0), p)
    {
      SurelyServedExactly(W, store, local, ops, p);
    }
    DifferExactly(CallsOf(ops, 0), text);
  }
}
