/** Single steps of runs in which one worker does everything and at most one message waits. */
module Scripts {
  import opened Wrappers
  import opened MsgOrder
  import opened Protocol
  import opened Runs

  function Lanes<D, T>(first: Lane<D, T>): (lanes: seq<Lane<D, T>>)
    ensures |lanes| == NTHREADS && lanes[0] == first
    ensures forall i :: 0 < i < NTHREADS ==> lanes[i] == Lane(Idle, [], [], None)
  {
    seq(NTHREADS, i => if i == 0 then first else Lane(Idle, [], [], None))
  }

  function Free<D, T>(): Lane<D, T>
  {
    Lane(Idle, [], [], None)
  }

  function CalledLane<D, T>(e: Entry<D>, todo: seq<Act<D, T>>): Lane<D, T>
  {
    Lane(Calling(e, todo), [], [], None)
  }

  lemma InitialLanes<S, L, D, T>(store: S, local: L)
    ensures Initial<S, L, D, T>(store, local).lanes == Lanes(Free())
  {
  }

  lemma FirstLane<D, T>(a: Lane<D, T>, b: Lane<D, T>)
    ensures Lanes(a)[0 := b] == Lanes(b)
  {
  }

  ghost function Entered<S, L, D, T>(W: World<S, L, D, T>, s: Sys<S, L, D, T>, text: string, d: D, parent: Option<nat>): Entry<D>
  {
    Msg(0, !W.replies(text), text, Tag(d, s.epoch, |s.calls|, parent))
  }

  // ---- enqueuing ----

  /** The first call waits. */
  lemma CallWaits<S, L, D, T>(W: World<S, L, D, T>, s: Sys<S, L, D, T>, text: string, d: D, parent: Option<nat>)
    requires s.queue == [] && !W.unique(text)
    ensures var e := Entered(W, s, text, d, parent);
            Accept(W, s, text, !W.replies(text), d, parent) == s.(queue := [e], calls := s.calls + [e])
  {
  }

  ghost predicate Waits<D>(queue: seq<Entry<D>>, text: string)
  {
    exists e <- queue :: e.text == text && e.sequence == 0
  }

  /** A call with the text of a waiting one is merged. */
  lemma CallMerges<S, L, D, T>(W: World<S, L, D, T>, s: Sys<S, L, D, T>, text: string, d: D, parent: Option<nat>)
    requires Sorted(s.queue) && Waits(s.queue, text) && !W.unique(text)
    ensures var e := Entered(W, s, text, d, parent);
            Accept(W, s, text, !W.replies(text), d, parent) == s.(calls := s.calls + [e], dropped := s.dropped + [e])
  {
    var e := Entered(W, s, text, d, parent);
    var i :| 0 <= i < |s.queue| && s.queue[i].text == text && s.queue[i].sequence == 0;
    EquivalenceClasses(s.queue[i], e);
    InsertKeepsOneOfEachClass(s.queue, e);
  }

  // ---- sending ----

  ghost function Without<D>(queue: seq<Entry<D>>, i: nat): seq<Entry<D>>
    requires i < |queue|
  {
    queue[..i] + queue[i + 1..]
  }

  /** What it comes to when the worker sends a waiting message and the server applies it. */
  ghost function Served<S, L, D, T>(W: World<S, L, D, T>, s: Sys<S, L, D, T>, i: nat): Sys<S, L, D, T>
    requires i < |s.queue|
  {
    var e := s.queue[i];
    s.(queue := Without(s.queue, i), store := W.effect(e.text, s.store), log := s.log + [e],
       lanes := Lanes(if e.noreply then Free() else Lane(Awaiting(e), [], [W.answer(e.text, s.store)], None)))
  }

  ghost function Serving<D>(i: nat, rest: seq<Action<D>>): seq<Action<D>>
  {
    [Pop(0, i)] + ([Send(0)] + ([Serve(0)] + rest))
  }

  lemma SentAndServed<S, L, D, T>(W: World<S, L, D, T>, s: Sys<S, L, D, T>, i: nat, rest: seq<Action<D>>, u: Sys<S, L, D, T>)
    requires i < |s.queue| && s.lanes == Lanes(Free()) && s.queue[i].noreply == !W.replies(s.queue[i].text)
    requires Reaches(W, Served(W, s, i), rest, u)
    ensures Reaches(W, s, Serving(i, rest), u)
  {
    var e := s.queue[i];
    var held: Lane<D, T> := Lane(Holding(e), [], [], None);
    var sent: Lane<D, T> := Lane(if e.noreply then Idle else Awaiting(e), [Req(e)], [], None);
    var s1, s2 := s.(queue := Without(s.queue, i), lanes := Lanes(held)), s.(queue := Without(s.queue, i), lanes := Lanes(sent));
    FirstLane(Free(), held);
    assert StepTo(W, s, Pop(0, i), s1);
    FirstLane(held, sent);
    assert StepTo(W, s1, Send(0), s2) by { assert [] + [Req(e)] == [Req(e)]; }
    ServedLast(W, s, s2, i);
    AddStep(W, s2, Serve(0), Served(W, s, i), rest, u);
    AddStep(W, s1, Send(0), s2, [Serve(0)] + rest, u);
    AddStep(W, s, Pop(0, i), s1, [Send(0)] + ([Serve(0)] + rest), u);
  }

  lemma ServedLast<S, L, D, T>(W: World<S, L, D, T>, s: Sys<S, L, D, T>, s2: Sys<S, L, D, T>, i: nat)
    requires i < |s.queue| && s.queue[i].noreply == !W.replies(s.queue[i].text)
    requires var e := s.queue[i];
             s2 == s.(queue := Without(s.queue, i), lanes := Lanes(Lane(if e.noreply then Idle else Awaiting(e), [Req(e)], [], None)))
    ensures StepTo(W, s2, Serve(0), Served(W, s, i))
  {
    var e, sent := s.queue[i], s2.lanes[0];
    var over: Lane<D, T> := if e.noreply then Free() else Lane(Awaiting(e), [], [W.answer(e.text, s.store)], None);
    assert Next(W, s2, Serve(0)).lanes[0] == over by {
      assert sent.up[1..] == [] && [] + over.down == over.down;
    }
    FirstLane(sent, over);
  }

  // ---- calling back ----

  lemma ReplyTaken<S, L, D, T>(W: World<S, L, D, T>, s: Sys<S, L, D, T>, e: Entry<D>, reply: string)
    requires s.lanes == Lanes(Lane(Awaiting(e), [], [reply], None))
    ensures StepTo(W, s, Receive(0), s.(lanes := Lanes(CalledLane(e, W.plan(e.data.data, reply))), ran := s.ran[e.data.ticket := []]))
  {
    FirstLane(s.lanes[0], CalledLane(e, W.plan(e.data.data, reply)));
    assert [reply][1..] == [];
  }

  lemma ChangeMade<S, L, D, T>(W: World<S, L, D, T>, s: Sys<S, L, D, T>, e: Entry<D>, x: T, todo: seq<Act<D, T>>)
    requires s.lanes == Lanes(CalledLane(e, [Touch(x)] + todo)) && e.data.ticket in s.ran
    ensures var k := e.data.ticket;
            StepTo(W, s, Run(0), s.(lanes := Lanes(CalledLane(e, todo)), ran := s.ran[k := s.ran[k] + [Touch(x)]],
                                    local := W.touch(x, s.local), touches := s.touches + [(x, e.data.epoch)]))
  {
    FirstLane(s.lanes[0], CalledLane(e, todo));
    assert ([Touch(x)] + todo)[1..] == todo;
  }

  lemma RequestMerged<S, L, D, T>(W: World<S, L, D, T>, s: Sys<S, L, D, T>, e: Entry<D>, text: string, d: D)
    requires s.lanes == Lanes(CalledLane(e, [Request(text, !W.replies(text), d)])) && e.data.ticket in s.ran
    requires Sorted(s.queue) && Waits(s.queue, text) && !W.unique(text)
    ensures var k, m := e.data.ticket, Entered(W, s, text, d, Some(e.data.ticket));
            StepTo(W, s, Run(0), s.(lanes := Lanes(CalledLane(e, [])), ran := s.ran[k := s.ran[k] + [Request(text, !W.replies(text), d)]],
                                    calls := s.calls + [m], dropped := s.dropped + [m]))
  {
    var k, todo := e.data.ticket, [Request(text, !W.replies(text), d)];
    FirstLane(s.lanes[0], CalledLane(e, []));
    var none: seq<Act<D, T>> := [];
    assert todo[1..] == none;
    CallMerges(W, s.(lanes := Lanes(CalledLane(e, [])), ran := s.ran[k := s.ran[k] + todo]), text, d, Some(k));
  }

  lemma CallbackOver<S, L, D, T>(W: World<S, L, D, T>, s: Sys<S, L, D, T>, e: Entry<D>)
    requires s.lanes == Lanes(CalledLane(e, []))
    ensures StepTo(W, s, Run(0), s.(lanes := Lanes(Free())))
  {
    FirstLane(s.lanes[0], Free());
  }

  /** The worker takes the reply, its callback makes one change, and nothing is left. */
  ghost function Taking<D>(): seq<Action<D>>
  {
    [Receive(0)] + ([Run(0)] + ([Run(0)] + []))
  }

  lemma OneChange<S, L, D, T>(W: World<S, L, D, T>, s: Sys<S, L, D, T>, e: Entry<D>, reply: string, x: T) returns (t: Sys<S, L, D, T>)
    requires s.lanes == Lanes(Lane(Awaiting(e), [], [reply], None)) && W.plan(e.data.data, reply) == [Touch(x)]
    ensures Reaches(W, s, Taking(), t)
    ensures t.queue == s.queue && t.lanes == Lanes(Free()) && t.store == s.store && t.log == s.log && t.calls == s.calls
    ensures t.local == W.touch(x, s.local) && t.touches == s.touches + [(x, e.data.epoch)] && t.dropped == s.dropped
  {
    var k := e.data.ticket;
    ReplyTaken(W, s, e, reply);
    var s1 := s.(lanes := Lanes(CalledLane(e, [Touch(x)])), ran := s.ran[k := []]);
    assert [Touch(x)] + [] == W.plan(e.data.data, reply);
    ChangeMade(W, s1, e, x, []);
    var s2 := s1.(lanes := Lanes(CalledLane(e, [])), ran := s1.ran[k := s1.ran[k] + [Touch(x)]],
                  local := W.touch(x, s.local), touches := s.touches + [(x, e.data.epoch)]);
    CallbackOver(W, s2, e);
    t := s2.(lanes := Lanes(Free()));
    AddStep(W, s2, Run(0), t, [], t);
    AddStep(W, s1, Run(0), s2, [Run(0)] + [], t);
    AddStep(W, s, Receive(0), s1, [Run(0)] + ([Run(0)] + []), t);
  }

  /** A waiting request is served, and its callback makes one change and one request. */
  ghost function Absorbing<D>(i: nat): seq<Action<D>>
  {
    Serving(i, [Receive(0)] + ([Run(0)] + ([Run(0)] + ([Run(0)] + []))))
  }

  /** The request of the callback is merged with a text that waits. */
  lemma CallbackMerges<S, L, D, T>(W: World<S, L, D, T>, s: Sys<S, L, D, T>, i: nat, x: T, text: string, d: D) returns (t: Sys<S, L, D, T>)
    requires CallsBack(W, s, i, x, text, d) && Waits(Without(s.queue, i), text)
    ensures Reaches(W, s, Absorbing(i), t) && t.log == s.log + [s.queue[i]]
    ensures var e, m := s.queue[i], Entered(W, s, text, d, Some(s.queue[i].data.ticket));
            && t.calls == s.calls + [m] && t.dropped == s.dropped + [m]
            && e.data.ticket in t.ran && t.ran[e.data.ticket] == [Touch(x)] + [Request(text, false, d)]
  {
    var e := s.queue[i];
    var s3: Sys<S, L, D, T> := Asking(W, s, i, x, text, d);
    RequestMerged(W, s3, e, text, d);
    var m := Entered(W, s, text, d, Some(e.data.ticket));
    var s4: Sys<S, L, D, T> := Asked(s3, e, text, d).(calls := s3.calls + [m], dropped := s3.dropped + [m]);
    t := s4.(lanes := Lanes(Free()));
    AsksAndEnds(W, s, i, x, text, d, s4, t);
  }

  /** The same when the text of the request does not wait: it waits then. */
  lemma CallbackQueues<S, L, D, T>(W: World<S, L, D, T>, s: Sys<S, L, D, T>, i: nat, x: T, text: string, d: D) returns (t: Sys<S, L, D, T>)
    requires CallsBack(W, s, i, x, text, d) && forall o <- Without(s.queue, i) :: o.text != text
    ensures Reaches(W, s, Absorbing(i), t) && t.lanes == Lanes(Free())
    ensures var m := Entered(W, s, text, d, Some(s.queue[i].data.ticket));
            && t.calls == s.calls + [m] && t.dropped == s.dropped
            && m in t.queue && forall o <- Without(s.queue, i) :: o in t.queue
  {
    var e := s.queue[i];
    var s3: Sys<S, L, D, T> := Asking(W, s, i, x, text, d);
    RequestQueued(W, s3, e, text, d);
    var m := Entered(W, s, text, d, Some(e.data.ticket));
    var s4: Sys<S, L, D, T> := Asked(s3, e, text, d).(calls := s3.calls + [m], queue := Insert(s3.queue, m));
    t := s4.(lanes := Lanes(Free()));
    AsksAndEnds(W, s, i, x, text, d, s4, t);
    Inserted(s3.queue, m, text);
  }

  /** A waiting request, with a free worker, whose callback will make a change and request the text. */
  ghost predicate CallsBack<S, L, D, T>(W: World<S, L, D, T>, s: Sys<S, L, D, T>, i: nat, x: T, text: string, d: D)
  {
    && i < |s.queue| && s.lanes == Lanes(Free()) && !s.queue[i].noreply && W.replies(s.queue[i].text)
    && Sorted(Without(s.queue, i)) && !W.unique(text) && W.replies(text)
    && W.plan(s.queue[i].data.data, W.answer(s.queue[i].text, s.store)) == [Touch(x)] + [Request(text, false, d)]
  }

  /** The state before the callback makes its request. */
  ghost function Asking<S, L, D, T>(W: World<S, L, D, T>, s: Sys<S, L, D, T>, i: nat, x: T, text: string, d: D): Sys<S, L, D, T>
    requires i < |s.queue|
  {
    var e, s1 := s.queue[i], Served(W, s, i);
    s1.(lanes := Lanes(CalledLane(e, [Request(text, false, d)])), ran := s1.ran[e.data.ticket := [Touch(x)]],
        local := W.touch(x, s1.local), touches := s1.touches + [(x, e.data.epoch)])
  }

  /** And after it, apart from what becomes of the request. */
  ghost function Asked<S, L, D, T>(s: Sys<S, L, D, T>, e: Entry<D>, text: string, d: D): Sys<S, L, D, T>
    requires e.data.ticket in s.ran
  {
    s.(lanes := Lanes(CalledLane(e, [])), ran := s.ran[e.data.ticket := s.ran[e.data.ticket] + [Request(text, false, d)]])
  }

  lemma RequestQueued<S, L, D, T>(W: World<S, L, D, T>, s: Sys<S, L, D, T>, e: Entry<D>, text: string, d: D)
    requires s.lanes == Lanes(CalledLane(e, [Request(text, false, d)])) && W.replies(text) && e.data.ticket in s.ran
    requires Sorted(s.queue) && (forall o <- s.queue :: o.text != text) && !W.unique(text)
    ensures var m := Entered(W, s, text, d, Some(e.data.ticket));
            StepTo(W, s, Run(0), Asked(s, e, text, d).(calls := s.calls + [m], queue := Insert(s.queue, m)))
  {
    var m := Entered(W, s, text, d, Some(e.data.ticket));
    FirstLane(s.lanes[0], CalledLane(e, []));
    var none: seq<Act<D, T>> := [];
    assert [Request(text, false, d)][1..] == none;
    NotPresent(s.queue, m, text);
  }

  lemma NotPresent<D>(queue: seq<Entry<D>>, m: Entry<D>, text: string)
    requires (forall o <- queue :: o.text != text) && m.text == text && m.sequence == 0
    ensures !Present(queue, m)
  {
    forall i | 0 <= i < |queue| ensures !Equivalent(queue[i], m) {
      EquivalenceClasses(queue[i], m);
    }
  }

  lemma Inserted<D>(queue: seq<Entry<D>>, m: Entry<D>, text: string)
    requires Sorted(queue) && (forall o <- queue :: o.text != text) && m.text == text && m.sequence == 0
    ensures m in Insert(queue, m) && forall o <- queue :: o in Insert(queue, m)
  {
    NotPresent(queue, m, text);
    InsertKeepsOneOfEachClass(queue, m);
    forall o | o in queue || o == m ensures o in Insert(queue, m) {
      assert o in multiset(Insert(queue, m));
    }
  }

  lemma AsksAndEnds<S, L, D, T>(
    W: World<S, L, D, T>, s: Sys<S, L, D, T>, i: nat, x: T, text: string, d: D, s4: Sys<S, L, D, T>, t: Sys<S, L, D, T>)
    requires CallsBack(W, s, i, x, text, d) && StepTo(W, Asking(W, s, i, x, text, d), Run(0), s4)
    requires s4.lanes == Lanes(CalledLane(s.queue[i], [])) && t == s4.(lanes := Lanes(Free()))
    ensures Reaches(W, s, Absorbing(i), t)
  {
    var e, todo := s.queue[i], [Touch(x)] + [Request(text, false, d)];
    var k := e.data.ticket;
    var s1: Sys<S, L, D, T> := Served(W, s, i);
    ReplyTaken(W, s1, e, W.answer(e.text, s.store));
    var s2: Sys<S, L, D, T> := s1.(lanes := Lanes(CalledLane(e, todo)), ran := s1.ran[k := []]);
    ChangeMade(W, s2, e, x, [Request(text, false, d)]);
    var s3: Sys<S, L, D, T> := Asking(W, s, i, x, text, d);
    assert [] + [Touch(x)] == s3.ran[k];
    CallbackOver(W, s4, e);
    AddStep(W, s4, Run(0), t, [], t);
    AddStep(W, s3, Run(0), s4, [Run(0)] + [], t);
    AddStep(W, s2, Run(0), s3, [Run(0)] + ([Run(0)] + []), t);
    AddStep(W, s1, Receive(0), s2, [Run(0)] + ([Run(0)] + ([Run(0)] + [])), t);
    SentAndServed(W, s, i, [Receive(0)] + ([Run(0)] + ([Run(0)] + ([Run(0)] + []))), t);
  }
}
