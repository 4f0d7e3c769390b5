/** What the channel promises its users, for every run from the initial state. */
module Guarantees {
  import opened Wrappers
  import opened MsgOrder
  import opened Protocol
  import opened Flow
  import opened History
  import opened Sequences

  // ---- the fence ----

  lemma LaneIsRecent<S, L, D, T>(W: World<S, L, D, T>, l: Lane<D, T>, epoch: nat, passed: nat)
    requires LaneOk(W, l, epoch, passed)
    ensures passed <= epoch
    ensures forall e <- Pending(l) :: passed <= e.data.epoch
  {
    StreamBounds(l.up, passed + (if l.at.Some? then 1 else 0), epoch - (if l.worker.Due? then 1 else 0));
    forall e | e in Pending(l) ensures passed <= e.data.epoch {
      RequestsAre(l.up, e);
    }
  }

  lemma PassedWithinEpoch<S, L, D, T>(W: World<S, L, D, T>, s: Sys<S, L, D, T>)
    requires FlowOk(W, s)
    ensures s.passed <= s.epoch
  {
    assert s.lanes[0] in s.lanes;
    LaneIsRecent(W, s.lanes[0], s.epoch, s.passed);
  }

  /** Everything under way belongs to an epoch the server has not finished. */
  lemma UnderWayIsRecent<S, L, D, T>(W: World<S, L, D, T>, s: Sys<S, L, D, T>, e: Entry<D>)
    requires FlowOk(W, s) && (e in s.queue || e in InFlight(s.lanes))
    ensures s.passed <= e.data.epoch
  {
    if e in InFlight(s.lanes) {
      var w := InFlightMember(s.lanes, e);
      assert s.lanes[w] in s.lanes;
      LaneIsRecent(W, s.lanes[w], s.epoch, s.passed);
    } else {
      PassedWithinEpoch(W, s);
    }
  }

  /** A call of a finished epoch has been applied, or an equal call of its epoch stands for it
      and has been applied. */
  lemma FinishedEpochApplied<S, L, D, T>(W: World<S, L, D, T>, s: Sys<S, L, D, T>, e: Entry<D>) returns (r: Entry<D>)
    requires FlowOk(W, s) && e in s.calls && e.data.epoch < s.passed
    ensures r in s.log && r.data.epoch == e.data.epoch && r.text == e.text
    ensures r == e || (e in s.dropped && Represents(r, e))
  {
    r := e;
    if e in s.dropped {
      r :| r in s.calls && Represents(r, e) && r !in s.dropped;
    }
    if r in s.queue || r in InFlight(s.lanes) {
      UnderWayIsRecent(W, s, r);
    }
    assert multiset(s.calls)[r] == multiset(s.queue)[r] + InFlight(s.lanes)[r] + multiset(s.log)[r] + multiset(s.dropped)[r];
    assert r in multiset(s.calls);
  }

  lemma OldEpochApplied<S, L, D, T>(W: World<S, L, D, T>, s: Sys<S, L, D, T>, e: Entry<D>, j: nat) returns (i: nat)
    requires FlowOk(W, s) && e in s.calls && j < |s.log| && e.data.epoch < s.log[j].data.epoch
    ensures i < j && (s.log[i] == e || (e in s.dropped && Represents(s.log[i], e)))
    ensures s.log[i].text == e.text && s.log[i].data.epoch < s.passed
  {
    var r := FinishedEpochApplied(W, s, e);
    i :| 0 <= i < |s.log| && s.log[i] == r;
  }

  /** The fence: when the server applies a request, every call of an earlier epoch, made by a client
      or by a callback, on whatever socket, has been applied before it (itself or the equal call it
      was merged with), and its callback has done all that the reply asked for. */
  lemma FenceHolds<S, L, D(!new), T(!new)>(
    W: World<S, L, D, T>, store: S, local: L, actions: seq<Action<D>>, s: Sys<S, L, D, T>, e: Entry<D>, j: nat)
    returns (i: nat)
    requires CallbacksFit(W) && Reachable(W, store, local, actions, s)
    requires e in s.calls && j < |s.log| && e.data.epoch < s.log[j].data.epoch
    ensures i < j && (s.log[i] == e || (e in s.dropped && Represents(s.log[i], e)))
    ensures W.replies(e.text) ==> s.log[i].data.ticket in s.ran &&
                                  s.ran[s.log[i].data.ticket] == Plan(W, store, s.log, s.log[i])
  {
    ReachableIsSound(W, store, local, actions, s);
    i := OldEpochApplied(W, s, e, j);
    if W.replies(e.text) {
      OldCallbackDone(W, store, s, s.log[i]);
    }
  }

  lemma OldCallbackDone<S, L, D, T>(W: World<S, L, D, T>, store: S, s: Sys<S, L, D, T>, r: Entry<D>)
    requires FlowOk(W, s) && AnswersOk(W, store, s) && r in s.log && W.replies(r.text) && r.data.epoch < s.passed
    ensures r.data.ticket in s.ran && s.ran[r.data.ticket] == Plan(W, store, s.log, r)
  {
    PassedWithinEpoch(W, s);
    assert Attended(W, store, s, r);
    forall l | l in s.lanes && (l.worker.Calling? || l.worker.Awaiting?) ensures l.worker.entry != r {
      assert LaneOk(W, l, s.epoch, s.passed);
    }
  }

  lemma {:induction false} NotInFlight<D, T>(lanes: seq<Lane<D, T>>, e: Entry<D>)
    requires forall l <- lanes :: e !in Pending(l)
    ensures e !in InFlight(lanes)
  {
    if lanes != [] {
      assert lanes[0] in lanes;
      NotInFlight(lanes[1..], e);
    }
  }

  // ---- what has happened when a barrier returns ----

  /** Nothing that makes the server reply is under way when the workers are idle. */
  lemma NoneAwaited<S, L, D, T>(W: World<S, L, D, T>, s: Sys<S, L, D, T>, r: Entry<D>)
    requires FlowOk(W, s) && Drained(s) && W.replies(r.text)
    ensures r !in InFlight(s.lanes)
  {
    forall l | l in s.lanes ensures r !in Pending(l) {
      assert LaneOk(W, l, s.epoch, s.passed);
      RequestsAre(l.up, r);
    }
    NotInFlight(s.lanes, r);
  }

  lemma CallbackFinished<S, L, D, T>(W: World<S, L, D, T>, store: S, s: Sys<S, L, D, T>, c: Entry<D>) returns (r: Entry<D>)
    requires FlowOk(W, s) && AnswersOk(W, store, s) && Drained(s) && c in s.calls && W.replies(c.text)
    ensures r in s.log && r in s.calls && r.text == c.text && r.data.epoch == c.data.epoch
    ensures r == c || (c in s.dropped && Represents(r, c))
    ensures r.data.ticket in s.ran && s.ran[r.data.ticket] == Plan(W, store, s.log, r)
  {
    r := c;
    if c in s.dropped {
      r :| r in s.calls && Represents(r, c) && r !in s.dropped;
    }
    NoneAwaited(W, s, r);
    assert multiset(s.calls)[r] == multiset(s.queue)[r] + InFlight(s.lanes)[r] + multiset(s.log)[r] + multiset(s.dropped)[r];
    assert r in multiset(s.calls) && r in multiset(s.log);
    assert Attended(W, store, s, r);
  }

  /** When a barrier can return, every call that has a reply, or the equal call it was merged with,
      has been answered, and its callback has done all its steps: the local table has been
      changed and the further requests have been made, and these are finished as well. */
  lemma BarrierCompletesCallbacks<S, L, D(!new), T(!new)>(
    W: World<S, L, D, T>, store: S, local: L, actions: seq<Action<D>>, s: Sys<S, L, D, T>, c: Entry<D>)
    returns (r: Entry<D>)
    requires CallbacksFit(W) && Reachable(W, store, local, actions, s) && Drained(s)
    requires c in s.calls && W.replies(c.text)
    ensures r in s.log && r.text == c.text && r.data.epoch == c.data.epoch && (r == c || Represents(r, c))
    ensures forall a <- Plan(W, store, s.log, r) ::
              match a
              case Touch(x) => (x, c.data.epoch) in s.touches
              case Request(text, noreply, data) => Requested(s, text, noreply, data, c.data.epoch)
  {
    ReachableIsSound(W, store, local, actions, s);
    r := CallbackFinished(W, store, s, c);
    var t := r.data.ticket;
    assert s.calls[t] == r;
    forall a | a in Plan(W, store, s.log, r)
      ensures match a
              case Touch(x) => (x, c.data.epoch) in s.touches
              case Request(text, noreply, data) => Requested(s, text, noreply, data, c.data.epoch)
    {
      assert Done(s, t, a);
      if a.Request? {
        var d :| d in s.calls && Made(s, t, a, d);
      }
    }
  }

  /** Such a call has been made in that epoch. */
  ghost predicate Requested<S, L, D, T>(s: Sys<S, L, D, T>, text: string, noreply: bool, data: D, epoch: nat)
  {
    exists d <- s.calls :: d.text == text && d.noreply == noreply && d.data.data == data && d.data.epoch == epoch
  }

  // ---- pairing ----

  /** The reply a worker is about to take is the only one on its socket, its request has been applied
      once, and the reply is the server's answer to that request. */
  lemma RepliesArePaired<S, L, D(!new), T(!new)>(
    W: World<S, L, D, T>, store: S, local: L, actions: seq<Action<D>>, s: Sys<S, L, D, T>, w: nat)
    requires CallbacksFit(W) && Reachable(W, store, local, actions, s) && Enabled(W, s, Receive(w))
    ensures var e := s.lanes[w].worker.entry;
            s.lanes[w].down == [ReplyTo(W, store, s.log, e)] && s.lanes[w].up == [] && multiset(s.log)[e] == 1
  {
    ReachableIsSound(W, store, local, actions, s);
    var l := s.lanes[w];
    assert l in s.lanes;
    ArrivedReply(W, store, s, l);
    AppliedOnce(W, s, l.worker.entry);
  }

  lemma ArrivedReply<S, L, D, T>(W: World<S, L, D, T>, store: S, s: Sys<S, L, D, T>, l: Lane<D, T>)
    requires LaneOk(W, l, s.epoch, s.passed) && LaneHistory(W, store, s, l) && l.worker.Awaiting? && l.down != []
    ensures l.down == [ReplyTo(W, store, s.log, l.worker.entry)] && l.up == [] && l.worker.entry in s.log
  {
  }

  lemma AppliedWasCalled<S, L, D, T>(W: World<S, L, D, T>, s: Sys<S, L, D, T>, e: Entry<D>)
    requires FlowOk(W, s) && e in s.log
    ensures e in s.calls
  {
    OnePlace(W, s, e);
  }

  lemma AppliedOnce<S, L, D, T>(W: World<S, L, D, T>, s: Sys<S, L, D, T>, e: Entry<D>)
    requires FlowOk(W, s) && e in s.log
    ensures multiset(s.log)[e] == 1
  {
    CallsAreDistinct(W, s, e);
    assert e in multiset(s.log);
    assert multiset(s.calls)[e] == multiset(s.queue)[e] + InFlight(s.lanes)[e] + multiset(s.log)[e] + multiset(s.dropped)[e];
  }

  /** An idle or sending worker has no reply outstanding, whatever no-reply commands it has sent. */
  lemma NothingOutstandingWhenIdle<S, L, D(!new), T(!new)>(
    W: World<S, L, D, T>, store: S, local: L, actions: seq<Action<D>>, s: Sys<S, L, D, T>, w: nat)
    requires CallbacksFit(W) && Reachable(W, store, local, actions, s)
    requires w < |s.lanes| && !s.lanes[w].worker.Awaiting?
    ensures s.lanes[w].down == [] && forall x <- s.lanes[w].up :: x.Req? ==> !W.replies(x.entry.text)
  {
    ReachableIsSound(W, store, local, actions, s);
    assert LaneOk(W, s.lanes[w], s.epoch, s.passed);
  }

  // ---- conservation ----

  /** Every call is in exactly one place: queued, under way, applied, or merged with an equal
      call of its epoch that has not been merged itself. */
  lemma NothingLostOrInvented<S, L, D(!new), T(!new)>(
    W: World<S, L, D, T>, store: S, local: L, actions: seq<Action<D>>, s: Sys<S, L, D, T>)
    requires CallbacksFit(W) && Reachable(W, store, local, actions, s)
    ensures multiset(s.calls) == multiset(s.queue) + InFlight(s.lanes) + multiset(s.log) + multiset(s.dropped)
    ensures forall e <- s.calls :: multiset(s.calls)[e] == 1
    ensures forall d <- s.dropped :: !W.unique(d.text) && exists r <- s.calls :: Represents(r, d) && r !in s.dropped
  {
    ReachableIsSound(W, store, local, actions, s);
    forall e | e in s.calls ensures multiset(s.calls)[e] == 1 {
      CallsAreDistinct(W, s, e);
      assert e in multiset(s.calls);
    }
  }

  /** A call, by a client or by a callback, is merged exactly when its text earns no number and is
      already waiting in the queue. */
  lemma MergedExactlyWhenWaiting<S, L, D, T>(
    W: World<S, L, D, T>, s: Sys<S, L, D, T>, text: string, noreply: bool, data: D, parent: Option<nat>)
    requires FlowOk(W, s)
    ensures var t := Accept(W, s, text, noreply, data, parent);
            if !W.unique(text) && exists e <- s.queue :: e.text == text
            then t.queue == s.queue && t.dropped == s.dropped + [t.calls[|s.calls|]]
            else |t.queue| == |s.queue| + 1 && t.dropped == s.dropped
  {
    var t := Accept(W, s, text, noreply, data, parent);
    var m := t.calls[|s.calls|];
    InsertKeepsOneOfEachClass(s.queue, m);
    forall e | e in s.queue ensures Equivalent(e, m) <==> !W.unique(text) && e.text == text {
      NumberedInQueue(W, s, e);
      EquivalenceClasses(e, m);
    }
    assert Present(s.queue, m) <==> !W.unique(text) && exists e <- s.queue :: e.text == text;
    assert |multiset(t.queue)| == |t.queue| && |multiset(s.queue)| == |s.queue|;
  }

  lemma NumberedInQueue<S, L, D, T>(W: World<S, L, D, T>, s: Sys<S, L, D, T>, e: Entry<D>)
    requires FlowOk(W, s) && e in s.queue
    ensures (e.sequence != 0 <==> W.unique(e.text)) && e.sequence <= s.counter
  {
    OnePlace(W, s, e);
  }

  /** How often a text occurs among messages. */
  ghost function Occurrences<D>(entries: seq<Entry<D>>, text: string): nat
  {
    |Select(entries, (e: Entry<D>) => e.text == text)|
  }

  /** Texts that get a sequence number are applied as often as they are enqueued. */
  lemma NumberedCallsAllApplied<S, L, D(!new), T(!new)>(
    W: World<S, L, D, T>, store: S, local: L, actions: seq<Action<D>>, s: Sys<S, L, D, T>, text: string)
    requires CallbacksFit(W) && Reachable(W, store, local, actions, s) && Quiescent(s) && W.unique(text)
    ensures Occurrences(s.log, text) == Occurrences(s.calls, text)
  {
    ReachableIsSound(W, store, local, actions, s);
    InFlightEmpty(s.lanes);
    forall e: Entry<D> | e.text == text ensures multiset(s.log)[e] == multiset(s.calls)[e] {
      assert e in s.calls ==> s.calls[e.data.ticket] == e;
    }
    SameCountSameLength(s.log, s.calls, (e: Entry<D>) => e.text == text);
  }

  // ---- clearing and closing ----

  /** The call, or the equal call it was merged with, is among the first `i` requests applied. */
  ghost predicate AppliedBefore<S, L, D, T>(s: Sys<S, L, D, T>, e: Entry<D>, i: nat)
    requires i <= |s.log|
  {
    exists j :: 0 <= j < i && (s.log[j] == e || (e in s.dropped && Represents(s.log[j], e)))
  }

  /** Wherever a command stands in the order in which the server applies requests, every call of an
      earlier epoch stands before it, and every one of a later epoch behind it, whatever other
      clients call meanwhile. */
  lemma EnclosedCommand<S, L, D(!new), T(!new)>(
    W: World<S, L, D, T>, store: S, local: L, actions: seq<Action<D>>, s: Sys<S, L, D, T>, i: nat)
    requires CallbacksFit(W) && Reachable(W, store, local, actions, s) && i < |s.log|
    ensures forall j :: 0 <= j < i ==> s.log[j].data.epoch <= s.log[i].data.epoch
    ensures forall j :: i < j < |s.log| ==> s.log[i].data.epoch <= s.log[j].data.epoch
    ensures forall e <- s.calls :: e.data.epoch < s.log[i].data.epoch ==> AppliedBefore(s, e, i)
  {
    ReachableIsSound(W, store, local, actions, s);
    forall e | e in s.calls && e.data.epoch < s.log[i].data.epoch ensures AppliedBefore(s, e, i) {
      var j := FenceHolds(W, store, local, actions, s, e, i);
    }
  }

  /** The only call of its epoch. */
  ghost predicate Alone<S, L, D, T>(s: Sys<S, L, D, T>, c: Entry<D>)
  {
    forall e <- s.calls :: e.data.epoch == c.data.epoch ==> e == c
  }

  /** A command alone in its epoch stands strictly between the earlier and the later epochs. */
  lemma AloneCommand<S, L, D(!new), T(!new)>(
    W: World<S, L, D, T>, store: S, local: L, actions: seq<Action<D>>, s: Sys<S, L, D, T>, i: nat)
    requires CallbacksFit(W) && Reachable(W, store, local, actions, s) && i < |s.log| && Alone(s, s.log[i])
    ensures forall j :: 0 <= j < i ==> s.log[j].data.epoch < s.log[i].data.epoch
    ensures forall j :: i < j < |s.log| ==> s.log[i].data.epoch < s.log[j].data.epoch
  {
    ReachableIsSound(W, store, local, actions, s);
    forall j | 0 <= j < |s.log| && j != i ensures s.log[j].data.epoch != s.log[i].data.epoch {
      OnePlace(W, s, s.log[j]);
      if s.log[j] == s.log[i] {
        LogDistinct(W, s, if i < j then i else j, if i < j then j else i);
      }
    }
  }

  lemma LogDistinct<S, L, D, T>(W: World<S, L, D, T>, s: Sys<S, L, D, T>, i: nat, j: nat)
    requires FlowOk(W, s) && i < j < |s.log|
    ensures s.log[i] != s.log[j]
  {
    AppliedOnce(W, s, s.log[i]);
    TwicePresent(s.log, i, j);
  }

  lemma {:induction false} ReplaySplit<S, L, D, T>(W: World<S, L, D, T>, store: S, a: seq<Entry<D>>, b: seq<Entry<D>>)
    ensures Replay(W, store, a + b) == Replay(W, Replay(W, store, a), b)
  {
    if b == [] {
      assert a + b == a;
    } else {
      assert (a + b)[..|a + b| - 1] == a + b[..|b| - 1];
      ReplaySplit(W, store, a, b[..|b| - 1]);
    }
  }

  /** Clearing cuts: the store is the result, on an empty store, of what the server applied after it;
      every call of an earlier epoch was applied before it, and every one of a later epoch that has been
      applied was applied after it.  If the clearing is alone in its epoch the cut is exact. */
  lemma ClearIsExact<S, L, D(!new), T(!new)>(
    W: World<S, L, D, T>, store: S, local: L, actions: seq<Action<D>>, s: Sys<S, L, D, T>, i: nat, empty: S)
    requires CallbacksFit(W) && Reachable(W, store, local, actions, s)
    requires i < |s.log| && forall x :: W.effect(s.log[i].text, x) == empty
    ensures s.store == Replay(W, empty, s.log[i + 1..])
    ensures forall e <- s.calls :: e.data.epoch < s.log[i].data.epoch ==> AppliedBefore(s, e, i)
    ensures forall e <- s.log :: s.log[i].data.epoch < e.data.epoch ==> e in s.log[i + 1..]
    ensures forall e <- s.log[i + 1..] :: s.log[i].data.epoch <= e.data.epoch
    ensures Alone(s, s.log[i]) ==> forall e <- s.log[i + 1..] :: s.log[i].data.epoch < e.data.epoch
  {
    ReachableIsSound(W, store, local, actions, s);
    EnclosedCommand(W, store, local, actions, s, i);
    ForgottenPrefix(W, store, s.log, i, empty);
    LaterOnes(s.log, i);
    if Alone(s, s.log[i]) {
      AloneCommand(W, store, local, actions, s, i);
    }
  }

  lemma LaterOnes<D>(log: seq<Entry<D>>, i: nat)
    requires i < |log| && forall j :: 0 <= j < i ==> log[j].data.epoch <= log[i].data.epoch
    ensures forall e <- log :: log[i].data.epoch < e.data.epoch ==> e in log[i + 1..]
  {
    forall e | e in log && log[i].data.epoch < e.data.epoch ensures e in log[i + 1..] {
      var j :| 0 <= j < |log| && log[j] == e;
      assert log[i + 1..][j - i - 1] == e;
    }
  }

  lemma ForgottenPrefix<S, L, D, T>(W: World<S, L, D, T>, store: S, log: seq<Entry<D>>, i: nat, empty: S)
    requires i < |log| && W.effect(log[i].text, Replay(W, store, log[..i])) == empty
    ensures Replay(W, store, log) == Replay(W, empty, log[i + 1..])
  {
    assert log == log[..i + 1] + log[i + 1..] && log[..i + 1][..i] == log[..i];
    ReplaySplit(W, store, log[..i + 1], log[i + 1..]);
  }

  /** When the plain barrier of closing returns, every call has been sent or was merged with one
      that has, and no worker has anything left to do. */
  lemma DrainedMeansSent<S, L, D(!new), T(!new)>(
    W: World<S, L, D, T>, store: S, local: L, actions: seq<Action<D>>, s: Sys<S, L, D, T>, e: Entry<D>)
    requires CallbacksFit(W) && Reachable(W, store, local, actions, s) && Drained(s) && e in s.calls && e !in s.dropped
    ensures e in s.log || exists l <- s.lanes :: Req(e) in l.up && e.noreply
  {
    ReachableIsSound(W, store, local, actions, s);
    assert multiset(s.calls)[e] == multiset(s.queue)[e] + InFlight(s.lanes)[e] + multiset(s.log)[e] + multiset(s.dropped)[e];
    assert e in multiset(s.calls) && e !in multiset(s.dropped);
    if e !in s.log {
      var w := InFlightMember(s.lanes, e);
      var l := s.lanes[w];
      assert l in s.lanes && LaneOk(W, l, s.epoch, s.passed);
      RequestsAre(l.up, e);
    }
  }

  /** Closing is the end: once the server has applied the closing command, which is alone in the last
      epoch, it has applied every other call, and applies nothing after it. */
  lemma NothingAfterClose<S, L, D(!new), T(!new)>(
    W: World<S, L, D, T>, store: S, local: L, actions: seq<Action<D>>, s: Sys<S, L, D, T>, i: nat)
    requires CallbacksFit(W) && Reachable(W, store, local, actions, s)
    requires i < |s.log| && forall e <- s.calls :: e == s.log[i] || e.data.epoch < s.log[i].data.epoch
    ensures i == |s.log| - 1
    ensures forall e <- s.calls :: AppliedBefore(s, e, i + 1)
  {
    ReachableIsSound(W, store, local, actions, s);
    EnclosedCommand(W, store, local, actions, s, i);
    AloneCommand(W, store, local, actions, s, i);
    if i < |s.log| - 1 {
      OnePlace(W, s, s.log[i + 1]);
    }
    forall e | e in s.calls ensures AppliedBefore(s, e, i + 1) {
      if e == s.log[i] {
        assert s.log[i] == e;
      } else {
        assert AppliedBefore(s, e, i);
      }
    }
  }
}
