/** What the history of a run says: each reply is the server's answer to the request it is
    handed to, each callback does exactly the steps its reply asks for, and the store and
    the local table are the results of the two logs. */
module History {
  import opened Wrappers
  import opened Protocol
  import opened Flow

  // ---- the two logs ----

  /** The store after the server has applied `log`. */
  ghost function Replay<S, L, D, T>(W: World<S, L, D, T>, store: S, log: seq<Entry<D>>): S
  {
    if log == [] then store
    else W.effect(log[|log| - 1].text, Replay(W, store, log[..|log| - 1]))
  }

  /** The server's answer to `e` at the time it applied it. */
  ghost function ReplyTo<S, L, D, T>(W: World<S, L, D, T>, store: S, log: seq<Entry<D>>, e: Entry<D>): string
  {
    if log == [] then ""
    else if log[|log| - 1] == e then W.answer(e.text, Replay(W, store, log[..|log| - 1]))
    else ReplyTo(W, store, log[..|log| - 1], e)
  }

  /** What the callback of `e` has to do. */
  ghost function Plan<S, L, D, T>(W: World<S, L, D, T>, store: S, log: seq<Entry<D>>, e: Entry<D>): seq<Act<D, T>>
  {
    W.plan(e.data.data, ReplyTo(W, store, log, e))
  }

  ghost function Relive<S, L, D, T>(W: World<S, L, D, T>, local: L, touches: seq<(T, nat)>): L
  {
    if touches == [] then local
    else W.touch(touches[|touches| - 1].0, Relive(W, local, touches[..|touches| - 1]))
  }

  lemma LogAppend<S, L, D, T>(W: World<S, L, D, T>, store: S, log: seq<Entry<D>>, x: Entry<D>, e: Entry<D>)
    ensures Replay(W, store, log + [x]) == W.effect(x.text, Replay(W, store, log))
    ensures e != x ==> Plan(W, store, log + [x], e) == Plan(W, store, log, e)
    ensures e != x ==> ReplyTo(W, store, log + [x], e) == ReplyTo(W, store, log, e)
    ensures ReplyTo(W, store, log + [x], x) == W.answer(x.text, Replay(W, store, log))
  {
    assert (log + [x])[..|log|] == log;
  }

  // ---- replies and callbacks ----

  ghost predicate Busy<D, T>(l: Lane<D, T>)
  {
    l.worker.Holding? || l.worker.Awaiting? || l.worker.Calling?
  }

  /** The reply waiting for a worker is the answer to its request, and what a callback has done
      together with what it has still to do is what that answer asks for. */
  ghost predicate LaneHistory<S, L, D, T>(W: World<S, L, D, T>, store: S, s: Sys<S, L, D, T>, l: Lane<D, T>)
  {
    match l.worker
    case Awaiting(e) =>
      l.down != [] ==> e in s.log && l.down[0] == ReplyTo(W, store, s.log, e) && e.data.ticket !in s.ran
    case Calling(e, todo) =>
      e in s.log && e.data.ticket in s.ran && s.ran[e.data.ticket] + todo == Plan(W, store, s.log, e)
    case _ => true
  }

  ghost predicate ReplyArrived<D, T>(lanes: seq<Lane<D, T>>, e: Entry<D>)
  {
    exists l <- lanes :: l.worker == Awaiting(e) && l.down != []
  }

  ghost predicate BeingCalled<D, T>(lanes: seq<Lane<D, T>>, e: Entry<D>)
  {
    exists l <- lanes :: l.worker.Calling? && l.worker.entry == e
  }

  /** Every applied request that has a reply: its reply is waiting, or its callback is
      running, or its callback has done all its steps. */
  ghost predicate Attended<S, L, D, T>(W: World<S, L, D, T>, store: S, s: Sys<S, L, D, T>, e: Entry<D>)
  {
    if e.data.ticket in s.ran
    then s.ran[e.data.ticket] == Plan(W, store, s.log, e) || BeingCalled(s.lanes, e)
    else ReplyArrived(s.lanes, e)
  }

  /** No two workers have the same message. */
  ghost predicate BusyApart<S, L, D, T>(s: Sys<S, L, D, T>)
  {
    && (forall i, j :: 0 <= i < j < |s.lanes| && Busy(s.lanes[i]) && Busy(s.lanes[j])
                       ==> s.lanes[i].worker.entry != s.lanes[j].worker.entry)
    && (forall i :: 0 <= i < |s.lanes| && Busy(s.lanes[i]) ==> s.lanes[i].worker.entry in s.calls)
  }

  ghost predicate AnswersOk<S, L, D, T>(W: World<S, L, D, T>, store: S, s: Sys<S, L, D, T>)
  {
    && s.store == Replay(W, store, s.log)
    && (forall l <- s.lanes :: LaneHistory(W, store, s, l))
    && BusyApart(s)
    && (forall e <- s.log :: W.replies(e.text) ==> Attended(W, store, s, e))
    && (forall t :: t in s.ran ==> t < |s.calls| && s.calls[t] in s.log && W.replies(s.calls[t].text))
  }

  lemma InitialAnswers<S, L, D, T>(W: World<S, L, D, T>, store: S, local: L)
    ensures AnswersOk(W, store, Initial(store, local))
  {
  }

  /** A message that is on its way to the server has not been applied, and is not queued. */
  lemma OnePlace<S, L, D, T>(W: World<S, L, D, T>, s: Sys<S, L, D, T>, e: Entry<D>)
    requires FlowOk(W, s)
    ensures e in InFlight(s.lanes) ==> e in s.calls && e !in s.log && e !in s.queue
    ensures e in s.queue ==> e in s.calls && e !in s.log && e !in InFlight(s.lanes)
    ensures e in s.log ==> e in s.calls
  {
    CallsAreDistinct(W, s, e);
    var c, q, f, g, d := multiset(s.calls), multiset(s.queue), InFlight(s.lanes), multiset(s.log), multiset(s.dropped);
    assert c[e] == q[e] + f[e] + g[e] + d[e];
  }

  lemma {:induction false} PendingInFlight<D, T>(lanes: seq<Lane<D, T>>, w: nat, e: Entry<D>)
    requires w < |lanes| && e in Pending(lanes[w])
    ensures e in InFlight(lanes)
  {
    if w > 0 {
      PendingInFlight(lanes[1..], w - 1, e);
    }
  }

  /** A busy worker's message is under way or applied. */
  lemma BusyNotQueued<S, L, D, T>(W: World<S, L, D, T>, store: S, s: Sys<S, L, D, T>, w: nat, e: Entry<D>)
    requires FlowOk(W, s) && AnswersOk(W, store, s) && w < |s.lanes| && Busy(s.lanes[w]) && e == s.lanes[w].worker.entry
    ensures e !in s.queue
    ensures s.lanes[w].worker.Holding? || (s.lanes[w].worker.Awaiting? && s.lanes[w].down == []) ==> e in InFlight(s.lanes)
  {
    var l := s.lanes[w];
    assert l in s.lanes;
    if l.worker.Holding? || (l.worker.Awaiting? && l.down == []) {
      if l.worker.Awaiting? {
        RequestsAre(l.up, e);
      }
      PendingInFlight(s.lanes, w, e);
    }
    OnePlace(W, s, e);
  }

  /** Changing one lane does not affect who attends to a message of another lane. */
  lemma OthersAttend<D, T>(lanes: seq<Lane<D, T>>, w: nat, l: Lane<D, T>, e: Entry<D>)
    requires w < |lanes|
    ensures ReplyArrived(lanes, e) && (lanes[w].worker == Awaiting(e) && lanes[w].down != [] ==> l.worker == Awaiting(e) && l.down != [])
            ==> ReplyArrived(lanes[w := l], e)
    ensures BeingCalled(lanes, e) && (lanes[w].worker.Calling? && lanes[w].worker.entry == e ==> l.worker.Calling? && l.worker.entry == e)
            ==> BeingCalled(lanes[w := l], e)
  {
    var after := lanes[w := l];
    if ReplyArrived(lanes, e) {
      var v :| 0 <= v < |lanes| && lanes[v].worker == Awaiting(e) && lanes[v].down != [];
      assert after[v] in after;
    }
    if BeingCalled(lanes, e) {
      var v :| 0 <= v < |lanes| && lanes[v].worker.Calling? && lanes[v].worker.entry == e;
      assert after[v] in after;
    }
  }

  /** A step that changes one lane only, and not in its part of this invariant. */
  lemma QuietAnswers<S, L, D, T>(W: World<S, L, D, T>, store: S, s: Sys<S, L, D, T>, t: Sys<S, L, D, T>, w: nat)
    requires AnswersOk(W, store, s) && w < |s.lanes| == |t.lanes| && t.lanes == s.lanes[w := t.lanes[w]]
    requires t.store == s.store && t.log == s.log && t.calls == s.calls && t.ran == s.ran
    requires LaneHistory(W, store, t, t.lanes[w])
    requires Busy(t.lanes[w]) ==> t.lanes[w].worker.entry in t.calls &&
                                  forall v :: 0 <= v < |s.lanes| && v != w && Busy(s.lanes[v]) ==> s.lanes[v].worker.entry != t.lanes[w].worker.entry
    requires s.lanes[w].worker.Awaiting? && s.lanes[w].down != [] ==> t.lanes[w].worker == s.lanes[w].worker && t.lanes[w].down != []
    requires s.lanes[w].worker.Calling? ==> t.lanes[w].worker == s.lanes[w].worker
    ensures AnswersOk(W, store, t)
  {
    forall l | l in t.lanes ensures LaneHistory(W, store, t, l) {
      assert l == t.lanes[w] || l in s.lanes;
    }
    forall e | e in t.log && W.replies(e.text) ensures Attended(W, store, t, e) {
      assert Attended(W, store, s, e);
      OthersAttend(s.lanes, w, t.lanes[w], e);
    }
  }

  /** Steps that add calls, change the queue, or change only fields this invariant ignores. */
  lemma MoreCalls<S, L, D, T>(W: World<S, L, D, T>, store: S, s: Sys<S, L, D, T>, t: Sys<S, L, D, T>)
    requires AnswersOk(W, store, s)
    requires t.store == s.store && t.log == s.log && s.calls <= t.calls && t.ran == s.ran && t.lanes == s.lanes
    ensures AnswersOk(W, store, t)
  {
    forall l | l in t.lanes ensures LaneHistory(W, store, t, l) {
      assert LaneHistory(W, store, s, l);
    }
    forall e | e in t.log && W.replies(e.text) ensures Attended(W, store, t, e) {
      assert Attended(W, store, s, e);
    }
  }

  /** Barrier steps change every lane, but no worker that has a message and no reply. */
  lemma AllLanes<S, L, D, T>(W: World<S, L, D, T>, store: S, s: Sys<S, L, D, T>, t: Sys<S, L, D, T>)
    requires AnswersOk(W, store, s) && |t.lanes| == |s.lanes|
    requires t.store == s.store && t.log == s.log && s.calls == t.calls && t.ran == s.ran
    requires forall i :: 0 <= i < |s.lanes| ==>
                           t.lanes[i].down == s.lanes[i].down &&
                           (t.lanes[i].worker == s.lanes[i].worker || (s.lanes[i].worker.Idle? && t.lanes[i].worker.Due?))
    ensures AnswersOk(W, store, t)
  {
    forall l | l in t.lanes ensures LaneHistory(W, store, t, l) {
      var i :| 0 <= i < |t.lanes| && t.lanes[i] == l;
      assert s.lanes[i] in s.lanes && LaneHistory(W, store, s, s.lanes[i]);
    }
    forall e | e in t.log && W.replies(e.text) ensures Attended(W, store, t, e) {
      assert Attended(W, store, s, e);
      if e.data.ticket !in s.ran {
        var v :| 0 <= v < |s.lanes| && s.lanes[v].worker == Awaiting(e) && s.lanes[v].down != [];
        assert t.lanes[v] in t.lanes;
      } else if s.ran[e.data.ticket] != Plan(W, store, s.log, e) {
        var v :| 0 <= v < |s.lanes| && s.lanes[v].worker.Calling? && s.lanes[v].worker.entry == e;
        assert t.lanes[v] in t.lanes;
      }
    }
  }

  lemma PopAnswers<S, L, D, T>(W: World<S, L, D, T>, store: S, s: Sys<S, L, D, T>, w: nat, i: nat)
    requires FlowOk(W, s) && AnswersOk(W, store, s) && Enabled(W, s, Pop(w, i))
    ensures AnswersOk(W, store, Next(W, s, Pop(w, i)))
  {
    var e := s.queue[i];
    assert e in s.queue;
    OnePlace(W, s, e);
    forall v | 0 <= v < |s.lanes| && Busy(s.lanes[v]) ensures s.lanes[v].worker.entry != e {
      BusyNotQueued(W, store, s, v, s.lanes[v].worker.entry);
    }
    QuietAnswers(W, store, s, Next(W, s, Pop(w, i)), w);
  }

  /** The request served now has not been served before, and its callback has not begun. */
  lemma FirstService<S, L, D, T>(W: World<S, L, D, T>, store: S, s: Sys<S, L, D, T>, w: nat)
    requires FlowOk(W, s) && AnswersOk(W, store, s) && Enabled(W, s, Serve(w))
    ensures var e := s.lanes[w].up[0].entry; e in s.calls && e !in s.log && e.data.ticket !in s.ran
  {
    var l := s.lanes[w];
    var e := l.up[0].entry;
    assert l in s.lanes;
    RequestsAre(l.up, e);
    PendingInFlight(s.lanes, w, e);
    OnePlace(W, s, e);
    assert s.calls[e.data.ticket] == e;
  }

  lemma ServeLanes<S, L, D, T>(W: World<S, L, D, T>, store: S, s: Sys<S, L, D, T>, t: Sys<S, L, D, T>, w: nat, x: Lane<D, T>)
    requires FlowOk(W, s) && AnswersOk(W, store, s) && Enabled(W, s, Serve(w)) && t == Next(W, s, Serve(w))
    requires x in t.lanes
    ensures LaneHistory(W, store, t, x)
  {
    var l := s.lanes[w];
    var e := l.up[0].entry;
    assert l in s.lanes && LaneHistory(W, store, s, l);
    FirstService(W, store, s, w);
    ServedLane(W, l, W.answer(e.text, s.store), s.epoch, s.passed);
    if x != t.lanes[w] {
      assert x in s.lanes && LaneHistory(W, store, s, x);
    }
    if x.worker.Awaiting? || x.worker.Calling? {
      LogAppend(W, store, s.log, e, x.worker.entry);
    }
  }

  lemma ServeAttended<S, L, D, T>(W: World<S, L, D, T>, store: S, s: Sys<S, L, D, T>, t: Sys<S, L, D, T>, w: nat, x: Entry<D>)
    requires FlowOk(W, s) && AnswersOk(W, store, s) && Enabled(W, s, Serve(w)) && t == Next(W, s, Serve(w))
    requires x in t.log && W.replies(x.text)
    ensures Attended(W, store, t, x)
  {
    var l := s.lanes[w];
    var e := l.up[0].entry;
    assert l in s.lanes && t.lanes[w] in t.lanes;
    FirstService(W, store, s, w);
    ServedLane(W, l, W.answer(e.text, s.store), s.epoch, s.passed);
    if x != e {
      assert Attended(W, store, s, x);
      LogAppend(W, store, s.log, e, x);
      OthersAttend(s.lanes, w, t.lanes[w], x);
    }
  }

  lemma ServeAnswers<S, L, D, T>(W: World<S, L, D, T>, store: S, s: Sys<S, L, D, T>, w: nat)
    requires FlowOk(W, s) && AnswersOk(W, store, s) && Enabled(W, s, Serve(w))
    ensures AnswersOk(W, store, Next(W, s, Serve(w)))
  {
    var t := Next(W, s, Serve(w));
    forall x | x in t.lanes ensures LaneHistory(W, store, t, x) {
      ServeLanes(W, store, s, t, w, x);
    }
    forall x | x in t.log && W.replies(x.text) ensures Attended(W, store, t, x) {
      ServeAttended(W, store, s, t, w, x);
    }
    BusyStill(s, t, w);
    ServeRan(W, store, s, t, w);
  }

  lemma ServeRan<S, L, D, T>(W: World<S, L, D, T>, store: S, s: Sys<S, L, D, T>, t: Sys<S, L, D, T>, w: nat)
    requires AnswersOk(W, store, s) && Enabled(W, s, Serve(w)) && t == Next(W, s, Serve(w))
    ensures t.store == Replay(W, store, t.log)
    ensures forall k :: k in t.ran ==> k < |t.calls| && t.calls[k] in t.log && W.replies(t.calls[k].text)
  {
    LogAppend(W, store, s.log, s.lanes[w].up[0].entry, s.lanes[w].up[0].entry);
  }

  lemma BusyStill<S, L, D, T>(s: Sys<S, L, D, T>, t: Sys<S, L, D, T>, w: nat)
    requires BusyApart(s) && w < |s.lanes| == |t.lanes| && t.lanes == s.lanes[w := t.lanes[w]]
    requires t.calls == s.calls && t.lanes[w].worker == s.lanes[w].worker
    ensures BusyApart(t)
  {
  }

  /** The message a worker holds or waits for determines its ticket, so other workers' callbacks
      are not affected by what one callback does. */
  lemma TicketsDiffer<S, L, D, T>(W: World<S, L, D, T>, store: S, s: Sys<S, L, D, T>, v: nat, w: nat)
    requires FlowOk(W, s) && AnswersOk(W, store, s)
    requires v < |s.lanes| && w < |s.lanes| && v != w && Busy(s.lanes[v]) && Busy(s.lanes[w])
    ensures s.lanes[v].worker.entry.data.ticket != s.lanes[w].worker.entry.data.ticket
  {
    var a, b := s.lanes[v].worker.entry, s.lanes[w].worker.entry;
    assert a in s.calls && b in s.calls;
    assert s.calls[a.data.ticket] == a && s.calls[b.data.ticket] == b;
  }

  lemma ReceiveAnswers<S, L, D, T>(W: World<S, L, D, T>, store: S, s: Sys<S, L, D, T>, w: nat)
    requires FlowOk(W, s) && AnswersOk(W, store, s) && Enabled(W, s, Receive(w))
    ensures AnswersOk(W, store, Next(W, s, Receive(w)))
  {
    var t := Next(W, s, Receive(w));
    var l := s.lanes[w];
    assert l in s.lanes && LaneHistory(W, store, s, l);
    var todo := W.plan(l.worker.entry.data.data, l.down[0]);
    assert [] + todo == todo == Plan(W, store, s.log, l.worker.entry);
    CallbackAnswers(W, store, s, t, w);
  }

  lemma CallbackLanes<S, L, D, T>(W: World<S, L, D, T>, store: S, s: Sys<S, L, D, T>, t: Sys<S, L, D, T>, w: nat, v: nat)
    requires FlowOk(W, s) && AnswersOk(W, store, s) && w < |s.lanes| && v < |s.lanes| && v != w && Busy(s.lanes[w])
    requires t.log == s.log
    requires var k := s.lanes[w].worker.entry.data.ticket;
             k in t.ran && t.ran == s.ran[k := t.ran[k]]
    ensures LaneHistory(W, store, t, s.lanes[v])
  {
    assert s.lanes[v] in s.lanes && LaneHistory(W, store, s, s.lanes[v]);
    if Busy(s.lanes[v]) {
      TicketsDiffer(W, store, s, v, w);
    }
  }

  lemma CallbackEveryLane<S, L, D, T>(W: World<S, L, D, T>, store: S, s: Sys<S, L, D, T>, t: Sys<S, L, D, T>, w: nat)
    requires FlowOk(W, s) && AnswersOk(W, store, s) && w < |s.lanes| && Busy(s.lanes[w])
    requires |t.lanes| == |s.lanes| && t.lanes == s.lanes[w := t.lanes[w]] && t.log == s.log
    requires var k := s.lanes[w].worker.entry.data.ticket;
             k in t.ran && t.ran == s.ran[k := t.ran[k]]
    requires LaneHistory(W, store, t, t.lanes[w])
    ensures forall x <- t.lanes :: LaneHistory(W, store, t, x)
  {
    forall x | x in t.lanes ensures LaneHistory(W, store, t, x) {
      if x != t.lanes[w] {
        var v :| 0 <= v < |s.lanes| && s.lanes[v] == x && v != w;
        CallbackLanes(W, store, s, t, w, v);
      }
    }
  }

  lemma CallbackAttended<S, L, D, T>(W: World<S, L, D, T>, store: S, s: Sys<S, L, D, T>, t: Sys<S, L, D, T>, w: nat, x: Entry<D>)
    requires FlowOk(W, s) && AnswersOk(W, store, s) && w < |s.lanes| && Busy(s.lanes[w])
    requires |t.lanes| == |s.lanes| && t.lanes == s.lanes[w := t.lanes[w]] && t.log == s.log
    requires s.lanes[w].worker.entry in s.log
    requires var k := s.lanes[w].worker.entry.data.ticket;
             k in t.ran && t.ran == s.ran[k := t.ran[k]]
    requires x in s.log && W.replies(x.text) && x != s.lanes[w].worker.entry
    ensures Attended(W, store, t, x)
  {
    var e := s.lanes[w].worker.entry;
    assert Attended(W, store, s, x);
    OnePlace(W, s, x);
    OnePlace(W, s, e);
    assert s.calls[x.data.ticket] == x && s.calls[e.data.ticket] == e;
    OthersAttend(s.lanes, w, t.lanes[w], x);
  }

  /** A step of one worker's callback: its own record changes, everybody else's stays. */
  lemma CallbackAnswers<S, L, D, T>(W: World<S, L, D, T>, store: S, s: Sys<S, L, D, T>, t: Sys<S, L, D, T>, w: nat)
    requires FlowOk(W, s) && AnswersOk(W, store, s) && w < |s.lanes| && Busy(s.lanes[w])
    requires |t.lanes| == |s.lanes| && t.lanes == s.lanes[w := t.lanes[w]]
    requires t.store == s.store && t.log == s.log && t.calls == s.calls
    requires s.lanes[w].worker.entry in s.log && W.replies(s.lanes[w].worker.entry.text)
    requires var k := s.lanes[w].worker.entry.data.ticket;
             k in t.ran && t.ran == s.ran[k := t.ran[k]]
    requires LaneHistory(W, store, t, t.lanes[w])
    requires if t.lanes[w].worker.Calling? then t.lanes[w].worker.entry == s.lanes[w].worker.entry
             else t.lanes[w].worker.Idle? && s.lanes[w].worker.Calling? &&
                  t.ran[s.lanes[w].worker.entry.data.ticket] == Plan(W, store, s.log, s.lanes[w].worker.entry)
    ensures AnswersOk(W, store, t)
  {
    var e := s.lanes[w].worker.entry;
    assert t.lanes[w] in t.lanes;
    OnePlace(W, s, e);
    assert s.calls[e.data.ticket] == e;
    CallbackEveryLane(W, store, s, t, w);
    StillBusyApart(s, t, w);
    forall x | x in t.log && W.replies(x.text) ensures Attended(W, store, t, x) {
      if x != e {
        CallbackAttended(W, store, s, t, w, x);
      } else {
        OwnCallback(W, store, s, t, w);
      }
    }
  }

  lemma StillBusyApart<S, L, D, T>(s: Sys<S, L, D, T>, t: Sys<S, L, D, T>, w: nat)
    requires BusyApart(s) && w < |s.lanes| && Busy(s.lanes[w]) && |t.lanes| == |s.lanes|
    requires t.lanes == s.lanes[w := t.lanes[w]] && t.calls == s.calls
    requires Busy(t.lanes[w]) ==> t.lanes[w].worker.entry == s.lanes[w].worker.entry
    ensures BusyApart(t)
  {
  }

  lemma OwnCallback<S, L, D, T>(W: World<S, L, D, T>, store: S, s: Sys<S, L, D, T>, t: Sys<S, L, D, T>, w: nat)
    requires w < |s.lanes| == |t.lanes| && Busy(s.lanes[w]) && t.log == s.log && s.lanes[w].worker.entry.data.ticket in t.ran
    requires if t.lanes[w].worker.Calling? then t.lanes[w].worker.entry == s.lanes[w].worker.entry
             else t.ran[s.lanes[w].worker.entry.data.ticket] == Plan(W, store, s.log, s.lanes[w].worker.entry)
    ensures Attended(W, store, t, s.lanes[w].worker.entry)
  {
    assert t.lanes[w] in t.lanes;
  }

  lemma RunAnswers<S, L, D, T>(W: World<S, L, D, T>, store: S, s: Sys<S, L, D, T>, w: nat)
    requires FlowOk(W, s) && AnswersOk(W, store, s) && Enabled(W, s, Run(w))
    ensures AnswersOk(W, store, Next(W, s, Run(w)))
  {
    var l := s.lanes[w];
    assert l in s.lanes && LaneHistory(W, store, s, l) && LaneOk(W, l, s.epoch, s.passed);
    if l.worker.todo == [] {
      ReturnAnswers(W, store, s, w);
    } else {
      TickAnswers(W, store, s, w);
      ActAnswers(W, store, s, w);
    }
  }

  lemma ReturnAnswers<S, L, D, T>(W: World<S, L, D, T>, store: S, s: Sys<S, L, D, T>, w: nat)
    requires FlowOk(W, s) && AnswersOk(W, store, s) && Enabled(W, s, Run(w)) && s.lanes[w].worker.todo == []
    requires LaneHistory(W, store, s, s.lanes[w]) && W.replies(s.lanes[w].worker.entry.text)
    ensures AnswersOk(W, store, Next(W, s, Run(w)))
  {
    var k := s.lanes[w].worker.entry.data.ticket;
    assert s.ran[k] + [] == s.ran[k];
    assert s.ran == s.ran[k := s.ran[k]];
    CallbackAnswers(W, store, s, Next(W, s, Run(w)), w);
  }

  lemma ActAnswers<S, L, D, T>(W: World<S, L, D, T>, store: S, s: Sys<S, L, D, T>, w: nat)
    requires Enabled(W, s, Run(w)) && s.lanes[w].worker.todo != []
    requires s.lanes[w].worker.entry.data.ticket in s.ran && AnswersOk(W, store, Ticked(s, w))
    ensures AnswersOk(W, store, Next(W, s, Run(w)))
  {
    MoreCalls(W, store, Ticked(s, w), RunStep(W, s, w));
  }

  /** The record of a callback advanced by one step, before the step takes effect. */
  ghost function Ticked<S, L, D, T>(s: Sys<S, L, D, T>, w: nat): Sys<S, L, D, T>
    requires w < |s.lanes| && s.lanes[w].worker.Calling? && s.lanes[w].worker.todo != []
    requires s.lanes[w].worker.entry.data.ticket in s.ran
  {
    var l := s.lanes[w];
    var k := l.worker.entry.data.ticket;
    Put(s, w, l.(worker := Calling(l.worker.entry, l.worker.todo[1..]))).(ran := s.ran[k := s.ran[k] + [l.worker.todo[0]]])
  }

  lemma TickAnswers<S, L, D, T>(W: World<S, L, D, T>, store: S, s: Sys<S, L, D, T>, w: nat)
    requires FlowOk(W, s) && AnswersOk(W, store, s) && Enabled(W, s, Run(w)) && s.lanes[w].worker.todo != []
    requires s.lanes[w].worker.entry.data.ticket in s.ran && LaneHistory(W, store, s, s.lanes[w])
    requires W.replies(s.lanes[w].worker.entry.text)
    ensures AnswersOk(W, store, Ticked(s, w))
  {
    var todo := s.lanes[w].worker.todo;
    var done := s.ran[s.lanes[w].worker.entry.data.ticket];
    assert done + [todo[0]] + todo[1..] == done + todo;
    CallbackAnswers(W, store, s, Ticked(s, w), w);
  }

  lemma FenceAnswers<S, L, D, T>(W: World<S, L, D, T>, store: S, s: Sys<S, L, D, T>)
    requires FlowOk(W, s) && AnswersOk(W, store, s) && Enabled(W, s, Fence)
    ensures AnswersOk(W, store, Next(W, s, Fence))
  {
    forall i | 0 <= i < |s.lanes| ensures s.lanes[i].worker.Idle? { assert s.lanes[i] in s.lanes; }
    AllLanes(W, store, s, Next(W, s, Fence));
  }

  lemma SendAnswers<S, L, D, T>(W: World<S, L, D, T>, store: S, s: Sys<S, L, D, T>, w: nat)
    requires FlowOk(W, s) && AnswersOk(W, store, s) && Enabled(W, s, Send(w))
    ensures AnswersOk(W, store, Next(W, s, Send(w)))
  {
    assert s.lanes[w] in s.lanes;
    assert LaneOk(W, s.lanes[w], s.epoch, s.passed);
    QuietAnswers(W, store, s, Next(W, s, Send(w)), w);
  }

  lemma ArriveAnswers<S, L, D, T>(W: World<S, L, D, T>, store: S, s: Sys<S, L, D, T>, w: nat)
    requires FlowOk(W, s) && AnswersOk(W, store, s) && Enabled(W, s, Arrive(w))
    ensures AnswersOk(W, store, Next(W, s, Arrive(w)))
  {
    assert s.lanes[w] in s.lanes && LaneHistory(W, store, s, s.lanes[w]);
    QuietAnswers(W, store, s, Next(W, s, Arrive(w)), w);
  }

  lemma StepAnswers<S, L, D, T>(W: World<S, L, D, T>, store: S, s: Sys<S, L, D, T>, a: Action<D>)
    requires FlowOk(W, s) && AnswersOk(W, store, s) && Enabled(W, s, a)
    ensures AnswersOk(W, store, Next(W, s, a))
  {
    var t := Next(W, s, a);
    match a
    case Call(text, noreply, data) => MoreCalls(W, store, s, t);
    case Fence => FenceAnswers(W, store, s);
    case Pop(w, i) => PopAnswers(W, store, s, w, i);
    case Send(w) => SendAnswers(W, store, s, w);
    case SendBarrier(w) => QuietAnswers(W, store, s, t, w);
    case Serve(w) => ServeAnswers(W, store, s, w);
    case Arrive(w) => ArriveAnswers(W, store, s, w);
    case Release(id) => AllLanes(W, store, s, t);
    case Receive(w) => ReceiveAnswers(W, store, s, w);
    case Run(w) => RunAnswers(W, store, s, w);
  }

  // ---- what callbacks have done ----

  ghost predicate Made<S, L, D, T>(s: Sys<S, L, D, T>, t: nat, a: Act<D, T>, c: Entry<D>)
    requires t < |s.calls|
  {
    a == Request(c.text, c.noreply, c.data.data) && c.data.parent == Some(t) && c.data.epoch == s.calls[t].data.epoch
  }

  /** A callback step that has been done has left its trace, in the epoch of its call. */
  ghost predicate Done<S, L, D, T>(s: Sys<S, L, D, T>, t: nat, a: Act<D, T>)
    requires t < |s.calls|
  {
    match a
    case Touch(x) => (x, s.calls[t].data.epoch) in s.touches
    case Request(_, _, _) => exists c <- s.calls :: Made(s, t, a, c)
  }

  /** Some callback did this. */
  ghost predicate DoneBy<S, L, D, T>(s: Sys<S, L, D, T>, t: nat, a: Act<D, T>, epoch: nat)
  {
    t in s.ran && t < |s.calls| && a in s.ran[t] && s.calls[t].data.epoch == epoch
  }

  ghost predicate RanDone<S, L, D, T>(s: Sys<S, L, D, T>)
  {
    forall t :: t in s.ran ==> t < |s.calls| && forall a <- s.ran[t] :: Done(s, t, a)
  }

  ghost predicate TouchesMade<S, L, D, T>(s: Sys<S, L, D, T>)
  {
    && (forall p <- s.touches :: p.1 <= s.epoch && exists t :: DoneBy(s, t, Touch(p.0), p.1))
    && (forall i, j :: 0 <= i < j < |s.touches| ==> s.touches[i].1 <= s.touches[j].1)
  }

  ghost predicate Spawned<S, L, D, T>(s: Sys<S, L, D, T>, c: Entry<D>)
  {
    c.data.parent.Some? ==>
      && c.data.parent.value < c.data.ticket
      && DoneBy(s, c.data.parent.value, Request(c.text, c.noreply, c.data.data), c.data.epoch)
  }

  /** The traces of callbacks and the steps they have done match, in both directions. */
  ghost predicate EffectsOk<S, L, D, T>(W: World<S, L, D, T>, local: L, s: Sys<S, L, D, T>)
  {
    && s.local == Relive(W, local, s.touches)
    && RanDone(s) && TouchesMade(s) && forall c <- s.calls :: Spawned(s, c)
  }

  lemma InitialEffects<S, L, D, T>(W: World<S, L, D, T>, store: S, local: L)
    ensures EffectsOk(W, local, Initial(store, local))
  {
  }

  /** What has been done stays done. */
  lemma DoneStays<S, L, D(!new), T(!new)>(s: Sys<S, L, D, T>, s': Sys<S, L, D, T>)
    requires s.calls <= s'.calls && s.touches <= s'.touches
    requires forall t <- s.ran :: t in s'.ran && s.ran[t] <= s'.ran[t]
    ensures forall t: nat, a: Act<D, T> :: t < |s.calls| && Done(s, t, a) ==> Done(s', t, a)
    ensures forall t: nat, a: Act<D, T>, n: nat :: DoneBy(s, t, a, n) ==> DoneBy(s', t, a, n)
  {
    forall t: nat, a: Act<D, T> | t < |s.calls| && Done(s, t, a) ensures Done(s', t, a) {
      if a.Request? {
        var c :| c in s.calls && Made(s, t, a, c);
        assert Made(s', t, a, c);
      }
    }
  }

  /** The touches recorded so far were each made by some callback. */
  lemma TouchesStay<S, L, D(!new), T(!new)>(W: World<S, L, D, T>, local: L, s: Sys<S, L, D, T>, s': Sys<S, L, D, T>)
    requires EffectsOk(W, local, s)
    requires forall t: nat, a: Act<D, T>, n: nat :: DoneBy(s, t, a, n) ==> DoneBy(s', t, a, n)
    ensures forall p <- s.touches :: exists t :: DoneBy(s', t, Touch(p.0), p.1)
  {
    forall p | p in s.touches ensures exists t :: DoneBy(s', t, Touch(p.0), p.1) {
      var t :| DoneBy(s, t, Touch(p.0), p.1);
      assert DoneBy(s', t, Touch(p.0), p.1);
    }
  }

  lemma CallEffects<S, L, D(!new), T(!new)>(W: World<S, L, D, T>, local: L, s: Sys<S, L, D, T>, text: string, noreply: bool, data: D)
    requires EffectsOk(W, local, s)
    ensures EffectsOk(W, local, Accept(W, s, text, noreply, data, None))
  {
    var s' := Accept(W, s, text, noreply, data, None);
    DoneStays(s, s');
    TouchesStay(W, local, s, s');
    assert RanDone(s');
    forall d | d in s'.calls ensures Spawned(s', d) {
      if d in s.calls {
        assert Spawned(s, d);
      }
    }
  }

  /** One more step of the callback of call `k` is recorded together with its trace. */
  lemma TouchRecorded<S, L, D(!new), T(!new)>(W: World<S, L, D, T>, local: L, s: Sys<S, L, D, T>, s': Sys<S, L, D, T>, k: nat, y: T)
    requires EffectsOk(W, local, s) && k < |s.calls| && s.epoch == s'.epoch && s.calls[k].data.epoch == s.epoch
    requires k in s.ran && s'.ran == s.ran[k := s.ran[k] + [Touch(y)]]
    requires s'.calls == s.calls && s'.touches == s.touches + [(y, s.epoch)] && s'.local == W.touch(y, s.local)
    ensures EffectsOk(W, local, s')
  {
    DoneStays(s, s');
    assert s'.local == Relive(W, local, s'.touches) by { assert s'.touches[..|s'.touches| - 1] == s.touches; }
    TouchMade(W, local, s, s', k, y);
    TouchDone(s, s', k, y);
    forall c | c in s'.calls ensures Spawned(s', c) {
      assert Spawned(s, c);
    }
  }

  lemma TouchMade<S, L, D(!new), T(!new)>(W: World<S, L, D, T>, local: L, s: Sys<S, L, D, T>, s': Sys<S, L, D, T>, k: nat, y: T)
    requires EffectsOk(W, local, s) && k < |s.calls| && s.epoch == s'.epoch && s.calls[k].data.epoch == s.epoch
    requires k in s.ran && s'.ran == s.ran[k := s.ran[k] + [Touch(y)]]
    requires s'.calls == s.calls && s'.touches == s.touches + [(y, s.epoch)]
    requires forall t: nat, a: Act<D, T>, n: nat :: DoneBy(s, t, a, n) ==> DoneBy(s', t, a, n)
    ensures TouchesMade(s')
  {
    TouchesStay(W, local, s, s');
    assert DoneBy(s', k, Touch(y), s.epoch) by { assert s'.ran[k][|s.ran[k]|] == Touch(y); }
  }

  lemma TouchDone<S, L, D(!new), T(!new)>(s: Sys<S, L, D, T>, s': Sys<S, L, D, T>, k: nat, y: T)
    requires RanDone(s) && k < |s.calls| && s.calls[k].data.epoch == s.epoch
    requires k in s.ran && s'.ran == s.ran[k := s.ran[k] + [Touch(y)]]
    requires s'.calls == s.calls && s'.touches == s.touches + [(y, s.epoch)]
    requires forall t: nat, a: Act<D, T> :: t < |s.calls| && Done(s, t, a) ==> Done(s', t, a)
    ensures RanDone(s')
  {
    forall t, a | t in s'.ran && a in s'.ran[t] ensures t < |s'.calls| && Done(s', t, a) {
      assert t in s.ran;
      if a in s.ran[t] {
        assert Done(s, t, a);
      }
    }
  }

  lemma RequestRecorded<S, L, D(!new), T(!new)>(W: World<S, L, D, T>, local: L, s: Sys<S, L, D, T>, s': Sys<S, L, D, T>, k: nat, c: Entry<D>)
    requires EffectsOk(W, local, s) && CallsNumbered(s) && k < |s.calls| && s.epoch == s'.epoch && s.calls[k].data.epoch == s.epoch
    requires c.data.epoch == s.epoch && c.data.parent == Some(k) && c.data.ticket == |s.calls|
    requires k in s.ran && s'.ran == s.ran[k := s.ran[k] + [Request(c.text, c.noreply, c.data.data)]]
    requires s'.calls == s.calls + [c] && s'.touches == s.touches && s'.local == s.local
    ensures EffectsOk(W, local, s')
  {
    var x: Act<D, T> := Request(c.text, c.noreply, c.data.data);
    DoneStays(s, s');
    TouchesStay(W, local, s, s');
    assert DoneBy(s', k, x, s.epoch) by { assert s'.ran[k][|s.ran[k]|] == x; }
    assert RanDone(s') by {
      assert Made(s', k, x, c) && c in s'.calls;
      forall t, a | t in s'.ran && a in s'.ran[t] ensures t < |s'.calls| && Done(s', t, a) {
        assert t in s.ran;
        if a in s.ran[t] {
          assert Done(s, t, a);
        }
      }
    }
    forall d | d in s'.calls ensures Spawned(s', d) {
      if d in s.calls {
        assert Spawned(s, d);
      }
    }
  }

  ghost predicate CallsNumbered<S, L, D, T>(s: Sys<S, L, D, T>)
  {
    forall i :: 0 <= i < |s.calls| ==> s.calls[i].data.ticket == i
  }

  lemma RunEffects<S, L, D(!new), T(!new)>(W: World<S, L, D, T>, store: S, local: L, s: Sys<S, L, D, T>, w: nat)
    requires FlowOk(W, s) && AnswersOk(W, store, s) && EffectsOk(W, local, s) && Enabled(W, s, Run(w))
    ensures EffectsOk(W, local, Next(W, s, Run(w)))
  {
    var l := s.lanes[w];
    assert l in s.lanes && LaneHistory(W, store, s, l) && LaneOk(W, l, s.epoch, s.passed);
    if l.worker.todo != [] {
      OnePlace(W, s, l.worker.entry);
      RunActEffects(W, local, s, w, l.worker.entry, l.worker.todo[0]);
    } else {
      SameEffects(W, local, s, Next(W, s, Run(w)));
    }
  }

  lemma RunActEffects<S, L, D(!new), T(!new)>(W: World<S, L, D, T>, local: L, s: Sys<S, L, D, T>, w: nat, e: Entry<D>, a: Act<D, T>)
    requires Enabled(W, s, Run(w)) && s.lanes[w].worker.todo != [] && e == s.lanes[w].worker.entry && a == s.lanes[w].worker.todo[0]
    requires EffectsOk(W, local, s) && CallsNumbered(s) && e in s.calls && e.data.ticket in s.ran && e.data.epoch == s.epoch
    ensures EffectsOk(W, local, Next(W, s, Run(w)))
  {
    var s' := RunStep(W, s, w);
    assert s.calls[e.data.ticket] == e;
    match a
    case Touch(y) => TouchRecorded(W, local, s, s', e.data.ticket, y);
    case Request(_, _, _) => RequestRecorded(W, local, s, s', e.data.ticket, s'.calls[|s.calls|]);
  }

  lemma SameEffects<S, L, D(!new), T(!new)>(W: World<S, L, D, T>, local: L, s: Sys<S, L, D, T>, t: Sys<S, L, D, T>)
    requires EffectsOk(W, local, s) && s.epoch <= t.epoch
    requires t.calls == s.calls && t.touches == s.touches && t.local == s.local
    requires t.ran == s.ran || exists k :: 0 <= k < |s.calls| && k !in s.ran && t.ran == s.ran[k := []]
    ensures EffectsOk(W, local, t)
  {
    DoneStays(s, t);
    TouchesStay(W, local, s, t);
  }

  lemma StepEffects<S, L, D(!new), T(!new)>(W: World<S, L, D, T>, store: S, local: L, s: Sys<S, L, D, T>, a: Action<D>)
    requires FlowOk(W, s) && AnswersOk(W, store, s) && EffectsOk(W, local, s) && Enabled(W, s, a)
    ensures EffectsOk(W, local, Next(W, s, a))
  {
    match a
    case Call(text, noreply, data) => CallEffects(W, local, s, text, noreply, data);
    case Run(w) => RunEffects(W, store, local, s, w);
    case Receive(w) =>
      assert s.lanes[w] in s.lanes && LaneHistory(W, store, s, s.lanes[w]);
      OnePlace(W, s, s.lanes[w].worker.entry);
      SameEffects(W, local, s, Next(W, s, a));
    case _ => SameEffects(W, local, s, Next(W, s, a));
  }

  // ---- requests made by callbacks come after the request whose reply caused them ----

  ghost predicate ParentsFirst<S, L, D, T>(s: Sys<S, L, D, T>)
  {
    forall i :: 0 <= i < |s.log| && s.log[i].data.parent.Some? ==>
                  var t := s.log[i].data.parent.value;
                  t < |s.calls| && s.calls[t] in s.log[..i]
  }

  lemma ServeParents<S, L, D, T>(W: World<S, L, D, T>, store: S, local: L, s: Sys<S, L, D, T>, w: nat)
    requires FlowOk(W, s) && AnswersOk(W, store, s) && EffectsOk(W, local, s) && ParentsFirst(s) && Enabled(W, s, Serve(w))
    ensures ParentsFirst(Next(W, s, Serve(w)))
  {
    FirstService(W, store, s, w);
    assert Spawned(s, s.lanes[w].up[0].entry);
    ParentsLonger(s, ServeStep(W, s, w));
  }

  lemma ParentsLonger<S, L, D, T>(s: Sys<S, L, D, T>, t: Sys<S, L, D, T>)
    requires ParentsFirst(s) && s.calls <= t.calls && (t.log == s.log || (|t.log| == |s.log| + 1 && t.log[..|s.log|] == s.log))
    requires t.log != s.log && t.log[|s.log|].data.parent.Some? ==>
               var k := t.log[|s.log|].data.parent.value; k < |s.calls| && s.calls[k] in s.log
    ensures ParentsFirst(t)
  {
    forall i | 0 <= i < |t.log| && t.log[i].data.parent.Some?
      ensures var k := t.log[i].data.parent.value; k < |t.calls| && t.calls[k] in t.log[..i]
    {
      if i < |s.log| {
        assert t.log[..i] == s.log[..i] && t.log[i] == s.log[i];
      }
    }
  }

  lemma QuietParents<S, L, D, T>(W: World<S, L, D, T>, s: Sys<S, L, D, T>, a: Action<D>)
    requires ParentsFirst(s) && Enabled(W, s, a) && !a.Serve?
    ensures ParentsFirst(Next(W, s, a))
  {
    if a.Run? {
      ParentsLonger(s, RunStep(W, s, a.w));
    } else {
      ParentsLonger(s, Next(W, s, a));
    }
  }

  lemma StepParents<S, L, D, T>(W: World<S, L, D, T>, store: S, local: L, s: Sys<S, L, D, T>, a: Action<D>)
    requires FlowOk(W, s) && AnswersOk(W, store, s) && EffectsOk(W, local, s) && ParentsFirst(s) && Enabled(W, s, a)
    ensures ParentsFirst(Next(W, s, a))
  {
    if a.Serve? {
      ServeParents(W, store, local, s, a.w);
    } else {
      QuietParents(W, s, a);
    }
  }

  // ---- all reachable states ----

  ghost predicate Sound<S, L, D, T>(W: World<S, L, D, T>, store: S, local: L, s: Sys<S, L, D, T>)
  {
    FlowOk(W, s) && AnswersOk(W, store, s) && EffectsOk(W, local, s) && ParentsFirst(s)
  }

  ghost predicate Reachable<S, L, D, T>(W: World<S, L, D, T>, store: S, local: L, actions: seq<Action<D>>, s: Sys<S, L, D, T>)
  {
    Reaches(W, Initial(store, local), actions, s)
  }

  lemma {:induction false} RunsKeepSound<S, L, D(!new), T(!new)>(
    W: World<S, L, D, T>, store: S, local: L, s: Sys<S, L, D, T>, actions: seq<Action<D>>, t: Sys<S, L, D, T>)
    requires CallbacksFit(W) && Sound(W, store, local, s) && Reaches(W, s, actions, t)
    ensures Sound(W, store, local, t)
    decreases |actions|
  {
    if actions != [] {
      StepFlow(W, s, actions[0]);
      StepAnswers(W, store, s, actions[0]);
      StepEffects(W, store, local, s, actions[0]);
      StepParents(W, store, local, s, actions[0]);
      RunsKeepSound(W, store, local, Next(W, s, actions[0]), actions[1..], t);
    }
  }

  lemma ReachableIsSound<S, L, D(!new), T(!new)>(
    W: World<S, L, D, T>, store: S, local: L, actions: seq<Action<D>>, s: Sys<S, L, D, T>)
    requires CallbacksFit(W) && Reachable(W, store, local, actions, s)
    ensures Sound(W, store, local, s)
  {
    InitialFlow(W, store, local);
    InitialAnswers(W, store, local);
    InitialEffects(W, store, local);
    RunsKeepSound(W, store, local, Initial(store, local), actions, s);
  }
}
