/** Where messages can be: conservation, the fence, and the pairing of requests with replies,
    as an invariant of every step of the channel. */
module Flow {
  import opened Wrappers
  import opened MsgOrder
  import opened Protocol

  // ---- one socket ----

  /** The epochs on a client-to-server stream: requests of epoch `from`, the barrier numbered
      `from`, requests of the next epoch, and so on up to `to`. */
  ghost predicate Stream<D>(up: seq<Wire<D>>, from: int, to: int)
  {
    if up == [] then from == to
    else match up[0]
         case Req(e) => e.data.epoch == from && Stream(up[1..], from, to)
         case Bar(id) => id == from && Stream(up[1..], from + 1, to)
  }

  lemma {:induction false} StreamAppend<D>(up: seq<Wire<D>>, from: int, to: int, x: Wire<D>)
    requires Stream(up, from, to)
    ensures x.Req? && x.entry.data.epoch == to ==> Stream(up + [x], from, to)
    ensures x.Bar? && x.id == to ==> Stream(up + [x], from, to + 1)
  {
    if up == [] {
      assert up + [x] == [x] && [x][1..] == [];
    } else {
      assert (up + [x])[1..] == up[1..] + [x];
      StreamAppend(up[1..], if up[0].Bar? then from + 1 else from, to, x);
    }
  }

  lemma {:induction false} StreamBounds<D>(up: seq<Wire<D>>, from: int, to: int)
    requires Stream(up, from, to)
    ensures from <= to
    ensures forall x <- up :: x.Req? ==> from <= x.entry.data.epoch <= to
  {
    if up != [] {
      StreamBounds(up[1..], if up[0].Bar? then from + 1 else from, to);
    }
  }

  /** No request on the stream makes the server reply. */
  ghost predicate Quiet<S, L, D, T>(W: World<S, L, D, T>, up: seq<Wire<D>>)
  {
    forall x <- up :: x.Req? ==> !W.replies(x.entry.text)
  }

  ghost predicate FitsFlag<S, L, D, T>(W: World<S, L, D, T>, e: Entry<D>)
  {
    e.noreply == !W.replies(e.text)
  }

  ghost predicate WorkerOk<S, L, D, T>(W: World<S, L, D, T>, k: Worker<D, T>, epoch: nat)
  {
    match k
    case Idle => true
    case Holding(e) => e.data.epoch == epoch && FitsFlag(W, e)
    case Awaiting(e) => e.data.epoch == epoch && FitsFlag(W, e) && !e.noreply
    case Calling(e, todo) => e.data.epoch == epoch && FitsFlag(W, e) && !e.noreply && TodoFits(W, e.data.data, todo)
    case Due(id) => id + 1 == epoch
  }

  /** At most one reply is outstanding on a socket, and only for the message its worker waits
      for: either that request is the last thing on the wire and nothing has come back, or the
      wire is empty and exactly one reply has come back. */
  ghost predicate Paired<S, L, D, T>(W: World<S, L, D, T>, l: Lane<D, T>)
  {
    if l.worker.Awaiting? then
      || (l.down == [] && l.up != [] && l.up[|l.up| - 1] == Req(l.worker.entry) && Quiet(W, l.up[..|l.up| - 1]))
      || (|l.down| == 1 && l.up == [])
    else l.down == [] && Quiet(W, l.up)
  }

  ghost predicate LaneOk<S, L, D, T>(W: World<S, L, D, T>, l: Lane<D, T>, epoch: nat, passed: nat)
  {
    && WorkerOk(W, l.worker, epoch)
    && Stream(l.up, passed + (if l.at.Some? then 1 else 0), epoch - (if l.worker.Due? then 1 else 0))
    && (l.at.Some? ==> l.at.value == passed)
    && Paired(W, l)
  }

  // ---- the messages under way ----

  ghost function Requests<D>(up: seq<Wire<D>>): multiset<Entry<D>>
  {
    if up == [] then multiset{}
    else (if up[0].Req? then multiset{up[0].entry} else multiset{}) + Requests(up[1..])
  }

  lemma {:induction false} RequestsAppend<D>(up: seq<Wire<D>>, x: Wire<D>)
    ensures Requests(up + [x]) == Requests(up) + if x.Req? then multiset{x.entry} else multiset{}
  {
    if up == [] {
      assert up + [x] == [x] && [x][1..] == [];
    } else {
      assert (up + [x])[1..] == up[1..] + [x];
      RequestsAppend(up[1..], x);
    }
  }

  lemma {:induction false} RequestsAre<D>(up: seq<Wire<D>>, e: Entry<D>)
    ensures e in Requests(up) <==> Req(e) in up
  {
    if up != [] {
      RequestsAre(up[1..], e);
      assert up == [up[0]] + up[1..];
    }
  }

  /** Popped or on the wire, and not yet applied by the server. */
  ghost function Pending<D, T>(l: Lane<D, T>): multiset<Entry<D>>
  {
    (if l.worker.Holding? then multiset{l.worker.entry} else multiset{}) + Requests(l.up)
  }

  ghost function InFlight<D, T>(lanes: seq<Lane<D, T>>): multiset<Entry<D>>
  {
    if lanes == [] then multiset{} else Pending(lanes[0]) + InFlight(lanes[1..])
  }

  lemma Shuffle<E>(a: multiset<E>, b: multiset<E>, c: multiset<E>)
    ensures b + c + a == a + c + b
  {
  }

  lemma Exchange<E>(k: multiset<E>, a: multiset<E>, b: multiset<E>, c: multiset<E>, d: multiset<E>)
    requires a + b == c + d
    ensures k + a + b == k + c + d
  {
    assert k + a + b == k + (a + b);
    assert k + c + d == k + (c + d);
  }

  /** Messages that moved between the groups of the conservation law keep their total. */
  lemma Moved<E>(q: multiset<E>, q': multiset<E>, f: multiset<E>, f': multiset<E>, p: multiset<E>, p': multiset<E>,
                 g: multiset<E>, g': multiset<E>)
    requires f' + p == f + p'
    requires q' + p' + g' == q + p + g
    ensures q' + f' + g' == q + f + g
  {
    forall e: E ensures (q' + f' + g')[e] == (q + f + g)[e] {
      assert (f' + p)[e] == (f + p')[e];
      assert (q' + p' + g')[e] == (q + p + g)[e];
    }
  }

  lemma {:induction false} InFlightUpdate<D, T>(lanes: seq<Lane<D, T>>, w: nat, l: Lane<D, T>)
    requires w < |lanes|
    ensures InFlight(lanes[w := l]) + Pending(lanes[w]) == InFlight(lanes) + Pending(l)
  {
    var others := InFlight(lanes[1..]);
    if w == 0 {
      assert lanes[w := l][1..] == lanes[1..];
      Shuffle(Pending(lanes[0]), Pending(l), others);
    } else {
      assert lanes[w := l][1..] == lanes[1..][w - 1 := l];
      InFlightUpdate(lanes[1..], w - 1, l);
      Exchange(Pending(lanes[0]), InFlight(lanes[1..][w - 1 := l]), Pending(lanes[w]), others, Pending(l));
    }
  }

  lemma {:induction false} InFlightSame<D, T>(a: seq<Lane<D, T>>, b: seq<Lane<D, T>>)
    requires |a| == |b|
    requires forall i :: 0 <= i < |a| ==> Pending(a[i]) == Pending(b[i])
    ensures InFlight(a) == InFlight(b)
  {
    if a != [] {
      InFlightSame(a[1..], b[1..]);
    }
  }

  lemma {:induction false} InFlightMember<D, T>(lanes: seq<Lane<D, T>>, e: Entry<D>) returns (w: nat)
    requires e in InFlight(lanes)
    ensures w < |lanes| && e in Pending(lanes[w])
  {
    if e in Pending(lanes[0]) {
      w := 0;
    } else {
      var v := InFlightMember(lanes[1..], e);
      w := v + 1;
    }
  }

  lemma {:induction false} InFlightEmpty<D, T>(lanes: seq<Lane<D, T>>)
    requires forall l <- lanes :: Pending(l) == multiset{}
    ensures InFlight(lanes) == multiset{}
  {
    if lanes != [] {
      assert lanes[0] in lanes;
      InFlightEmpty(lanes[1..]);
    }
  }

  // ---- the invariant ----

  /** The calls as an unbroken record: numbered in order, within the epochs so far, and with a
      sequence number exactly when the text earns one. */
  ghost predicate CallsOk<S, L, D, T>(W: World<S, L, D, T>, s: Sys<S, L, D, T>)
  {
    forall i :: 0 <= i < |s.calls| ==>
                  var e := s.calls[i];
                  && e.data.ticket == i && e.data.epoch <= s.epoch && FitsFlag(W, e)
                  && (e.sequence != 0 <==> W.unique(e.text))
  }

  ghost predicate QueueOk<S, L, D, T>(W: World<S, L, D, T>, s: Sys<S, L, D, T>)
  {
    && Sorted(s.queue)
    && forall e <- s.queue :: e.data.epoch == s.epoch && FitsFlag(W, e) && e.sequence <= s.counter
  }

  ghost predicate Represents<D>(r: Entry<D>, d: Entry<D>)
  {
    r.text == d.text && r.data.epoch == d.data.epoch && r.data.ticket < d.data.ticket && r.sequence == 0
  }

  /** Every dropped call is unnumbered and is represented by a kept call with the same text
      in the same epoch. */
  ghost predicate DroppedOk<S, L, D, T>(s: Sys<S, L, D, T>)
  {
    forall d <- s.dropped :: d in s.calls && d.sequence == 0 && exists r <- s.calls :: Represents(r, d) && r !in s.dropped
  }

  ghost predicate LogOk<S, L, D, T>(s: Sys<S, L, D, T>)
  {
    && (forall e <- s.log :: e.data.epoch <= s.passed)
    && (forall i, j :: 0 <= i < j < |s.log| ==> s.log[i].data.epoch <= s.log[j].data.epoch)
  }

  ghost predicate Conserved<S, L, D, T>(s: Sys<S, L, D, T>)
  {
    multiset(s.calls) == multiset(s.queue) + InFlight(s.lanes) + multiset(s.log) + multiset(s.dropped)
  }

  ghost predicate FlowOk<S, L, D, T>(W: World<S, L, D, T>, s: Sys<S, L, D, T>)
  {
    && |s.lanes| == NTHREADS
    && (forall l <- s.lanes :: LaneOk(W, l, s.epoch, s.passed))
    && CallsOk(W, s) && QueueOk(W, s) && DroppedOk(s) && LogOk(s) && Conserved(s)
  }

  lemma InitialFlow<S, L, D, T>(W: World<S, L, D, T>, store: S, local: L)
    ensures FlowOk(W, Initial(store, local))
  {
    var s: Sys<S, L, D, T> := Initial(store, local);
    InFlightEmpty(s.lanes);
  }

  // ---- every step keeps it ----

  lemma CallsAreDistinct<S, L, D, T>(W: World<S, L, D, T>, s: Sys<S, L, D, T>, e: Entry<D>)
    requires CallsOk(W, s)
    ensures multiset(s.calls)[e] <= 1
  {
    if e in s.calls {
      var i := e.data.ticket;
      assert s.calls == s.calls[..i] + [s.calls[i]] + s.calls[i + 1..];
      assert e !in s.calls[..i] && e !in s.calls[i + 1..];
    }
  }

  lemma AcceptDropped<S, L, D, T>(W: World<S, L, D, T>, s: Sys<S, L, D, T>,
                                  text: string, noreply: bool, data: D, parent: Option<nat>)
    requires FlowOk(W, s)
    ensures DroppedOk(Accept(W, s, text, noreply, data, parent))
  {
    var t := Accept(W, s, text, noreply, data, parent);
    var e := t.calls[|s.calls|];
    assert e !in s.calls;
    if Present(s.queue, e) {
      var i :| 0 <= i < |s.queue| && Equivalent(s.queue[i], e);
      var r := s.queue[i];
      EquivalenceClasses(r, e);
      assert r in multiset(s.queue) && r in multiset(s.calls);
      CallsAreDistinct(W, s, r);
      assert r !in multiset(s.dropped);
      assert r in s.queue && e.sequence <= s.counter;
      assert Represents(r, e) && r in t.calls && r !in t.dropped;
    }
    forall d | d in t.dropped
      ensures d in t.calls && d.sequence == 0 && exists r <- t.calls :: Represents(r, d) && r !in t.dropped
    {
      if d in s.dropped {
        var r :| r in s.calls && Represents(r, d) && r !in s.dropped;
        assert r in t.calls && r !in t.dropped;
      }
    }
  }

  lemma AcceptConserved<S, L, D, T>(W: World<S, L, D, T>, s: Sys<S, L, D, T>,
                                    text: string, noreply: bool, data: D, parent: Option<nat>)
    requires Sorted(s.queue) && Conserved(s)
    ensures Conserved(Accept(W, s, text, noreply, data, parent))
  {
    var t := Accept(W, s, text, noreply, data, parent);
    var e := t.calls[|s.calls|];
    InsertKeepsOneOfEachClass(s.queue, e);
    assert multiset(t.calls) == multiset(s.calls) + multiset{e};
    if Present(s.queue, e) {
      assert multiset(t.dropped) == multiset(s.dropped) + multiset{e};
    } else {
      OneMore(multiset(s.queue), e, InFlight(s.lanes), multiset(s.log), multiset(s.dropped));
    }
  }

  lemma OneMore<E>(q: multiset<E>, e: E, f: multiset<E>, g: multiset<E>, d: multiset<E>)
    ensures q + multiset{e} + f + g + d == q + f + g + d + multiset{e}
  {
  }

  lemma AcceptQueue<S, L, D, T>(W: World<S, L, D, T>, s: Sys<S, L, D, T>,
                                text: string, noreply: bool, data: D, parent: Option<nat>)
    requires QueueOk(W, s) && noreply == !W.replies(text)
    ensures QueueOk(W, Accept(W, s, text, noreply, data, parent))
  {
    var t := Accept(W, s, text, noreply, data, parent);
    var e := t.calls[|s.calls|];
    InsertKeepsOneOfEachClass(s.queue, e);
    forall x | x in t.queue ensures x in s.queue || x == e { assert x in multiset(t.queue); }
  }

  lemma AcceptFlow<S, L, D, T>(W: World<S, L, D, T>, s: Sys<S, L, D, T>,
                               text: string, noreply: bool, data: D, parent: Option<nat>)
    requires FlowOk(W, s) && noreply == !W.replies(text)
    ensures FlowOk(W, Accept(W, s, text, noreply, data, parent))
  {
    AcceptDropped(W, s, text, noreply, data, parent);
    AcceptConserved(W, s, text, noreply, data, parent);
    AcceptQueue(W, s, text, noreply, data, parent);
  }

  /** Replacing one lane, when what left it is now in the queue or in the log. */
  lemma StillConserved<S, L, D, T>(s: Sys<S, L, D, T>, t: Sys<S, L, D, T>, w: nat)
    requires Conserved(s) && w < |s.lanes| == |t.lanes| && t.lanes == s.lanes[w := t.lanes[w]]
    requires t.calls == s.calls && t.dropped == s.dropped
    requires multiset(t.queue) + Pending(t.lanes[w]) + multiset(t.log)
          == multiset(s.queue) + Pending(s.lanes[w]) + multiset(s.log)
    ensures Conserved(t)
  {
    InFlightUpdate(s.lanes, w, t.lanes[w]);
    Moved(multiset(s.queue), multiset(t.queue), InFlight(s.lanes), InFlight(t.lanes),
          Pending(s.lanes[w]), Pending(t.lanes[w]), multiset(s.log), multiset(t.log));
  }

  lemma LanesStillOk<S, L, D, T>(W: World<S, L, D, T>, s: Sys<S, L, D, T>, w: nat, l: Lane<D, T>)
    requires w < |s.lanes| && forall x <- s.lanes :: LaneOk(W, x, s.epoch, s.passed)
    requires LaneOk(W, l, s.epoch, s.passed)
    ensures forall x <- s.lanes[w := l] :: LaneOk(W, x, s.epoch, s.passed)
  {
    forall x | x in s.lanes[w := l] ensures LaneOk(W, x, s.epoch, s.passed) {
      assert x == l || x in s.lanes;
    }
  }

  /** A step that replaces one lane and leaves the set of messages under way as it was. */
  lemma PutFlow<S, L, D, T>(W: World<S, L, D, T>, s: Sys<S, L, D, T>, w: nat, l: Lane<D, T>)
    requires FlowOk(W, s) && w < |s.lanes|
    requires LaneOk(W, l, s.epoch, s.passed) && Pending(l) == Pending(s.lanes[w])
    ensures FlowOk(W, Put(s, w, l))
  {
    StillConserved(s, Put(s, w, l), w);
    LanesStillOk(W, s, w, l);
  }

  lemma PopQueue<S, L, D, T>(W: World<S, L, D, T>, s: Sys<S, L, D, T>, i: nat)
    requires QueueOk(W, s) && i < |s.queue|
    ensures QueueOk(W, s.(queue := s.queue[..i] + s.queue[i + 1..]))
    ensures multiset(s.queue) == multiset(s.queue[..i] + s.queue[i + 1..]) + multiset{s.queue[i]}
  {
    TakenOut(s.queue, i);
  }

  lemma TakenOut<A>(q: seq<A>, i: nat)
    requires i < |q|
    ensures multiset(q) == multiset(q[..i] + q[i + 1..]) + multiset{q[i]}
    ensures forall e <- q[..i] + q[i + 1..] :: e in q
  {
    assert q == q[..i] + [q[i]] + q[i + 1..];
  }

  lemma PopConserved<S, L, D, T>(s: Sys<S, L, D, T>, w: nat, i: nat, m: Lane<D, T>)
    requires Conserved(s) && w < |s.lanes| && i < |s.queue| && s.lanes[w].worker.Idle?
    requires m == s.lanes[w].(worker := Holding(s.queue[i]))
    ensures Conserved(Put(s, w, m).(queue := s.queue[..i] + s.queue[i + 1..]))
  {
    var rest := s.queue[..i] + s.queue[i + 1..];
    TakenOut(s.queue, i);
    StillConserved(s, Put(s, w, m).(queue := rest), w);
  }

  lemma HoldingLane<S, L, D, T>(W: World<S, L, D, T>, l: Lane<D, T>, e: Entry<D>, epoch: nat, passed: nat)
    requires LaneOk(W, l, epoch, passed) && l.worker.Idle? && e.data.epoch == epoch && FitsFlag(W, e)
    ensures LaneOk(W, l.(worker := Holding(e)), epoch, passed)
  {
  }

  lemma PopFlow<S, L, D, T>(W: World<S, L, D, T>, s: Sys<S, L, D, T>, w: nat, i: nat)
    requires FlowOk(W, s) && Enabled(W, s, Pop(w, i))
    ensures FlowOk(W, Next(W, s, Pop(w, i)))
  {
    var m := s.lanes[w].(worker := Holding(s.queue[i]));
    assert s.queue[i] in s.queue && s.lanes[w] in s.lanes;
    PopLanes(W, s, w, i);
    PopQueue(W, s, i);
    PopConserved(s, w, i, m);
  }

  lemma PopLanes<S, L, D, T>(W: World<S, L, D, T>, s: Sys<S, L, D, T>, w: nat, i: nat)
    requires FlowOk(W, s) && Enabled(W, s, Pop(w, i))
    ensures forall x <- s.lanes[w := s.lanes[w].(worker := Holding(s.queue[i]))] :: LaneOk(W, x, s.epoch, s.passed)
  {
    assert s.queue[i] in s.queue && s.lanes[w] in s.lanes;
    HoldingLane(W, s.lanes[w], s.queue[i], s.epoch, s.passed);
    LanesStillOk(W, s, w, s.lanes[w].(worker := Holding(s.queue[i])));
  }

  lemma SentLane<S, L, D, T>(W: World<S, L, D, T>, l: Lane<D, T>, epoch: nat, passed: nat)
    requires LaneOk(W, l, epoch, passed) && l.worker.Holding?
    ensures var e := l.worker.entry;
            LaneOk(W, l.(up := l.up + [Req(e)], worker := if e.noreply then Idle else Awaiting(e)), epoch, passed)
  {
    var up := l.up + [Req(l.worker.entry)];
    StreamAppend(l.up, passed + (if l.at.Some? then 1 else 0), epoch, Req(l.worker.entry));
    assert up[..|up| - 1] == l.up;
  }

  lemma SendFlow<S, L, D, T>(W: World<S, L, D, T>, s: Sys<S, L, D, T>, w: nat)
    requires FlowOk(W, s) && Enabled(W, s, Send(w))
    ensures FlowOk(W, Next(W, s, Send(w)))
  {
    var l := s.lanes[w];
    var e := l.worker.entry;
    assert l in s.lanes;
    SentLane(W, l, s.epoch, s.passed);
    RequestsAppend(l.up, Req(e));
    PutFlow(W, s, w, l.(up := l.up + [Req(e)], worker := if e.noreply then Idle else Awaiting(e)));
  }

  lemma SentBarrierLane<S, L, D, T>(W: World<S, L, D, T>, l: Lane<D, T>, epoch: nat, passed: nat)
    requires LaneOk(W, l, epoch, passed) && l.worker.Due?
    ensures LaneOk(W, l.(up := l.up + [Bar(l.worker.id)], worker := Idle), epoch, passed)
  {
    StreamAppend(l.up, passed + (if l.at.Some? then 1 else 0), epoch - 1, Bar(l.worker.id));
  }

  lemma SendBarrierFlow<S, L, D, T>(W: World<S, L, D, T>, s: Sys<S, L, D, T>, w: nat)
    requires FlowOk(W, s) && Enabled(W, s, SendBarrier(w))
    ensures FlowOk(W, Next(W, s, SendBarrier(w)))
  {
    var l := s.lanes[w];
    assert l in s.lanes;
    SentBarrierLane(W, l, s.epoch, s.passed);
    RequestsAppend(l.up, Bar(l.worker.id));
    PutFlow(W, s, w, l.(up := l.up + [Bar(l.worker.id)], worker := Idle));
  }

  /** The server's handler takes the first request of a stream and sends what it owes. */
  ghost function Served<S, L, D, T>(W: World<S, L, D, T>, l: Lane<D, T>, reply: string): Lane<D, T>
    requires l.up != [] && l.up[0].Req?
  {
    l.(up := l.up[1..], down := l.down + if W.replies(l.up[0].entry.text) then [reply] else [])
  }

  lemma ServedLane<S, L, D, T>(W: World<S, L, D, T>, l: Lane<D, T>, reply: string, epoch: nat, passed: nat)
    requires LaneOk(W, l, epoch, passed) && l.at.None? && l.up != [] && l.up[0].Req?
    ensures LaneOk(W, Served(W, l, reply), epoch, passed)
    ensures W.replies(l.up[0].entry.text) ==> l.up == [Req(l.up[0].entry)] && l.worker == Awaiting(l.up[0].entry)
    ensures l.up[0].entry.data.epoch == passed
  {
    var m := Served(W, l, reply);
    if l.worker.Awaiting? {
      assert l.up[|l.up| - 1] == Req(l.worker.entry);
      if |l.up| > 1 {
        assert l.up[..|l.up| - 1][0] == l.up[0];
        assert m.up[..|m.up| - 1] == l.up[..|l.up| - 1][1..];
      }
    }
  }

  lemma LogGrows<S, L, D, T>(s: Sys<S, L, D, T>, t: Sys<S, L, D, T>, e: Entry<D>)
    requires LogOk(s) && t.log == s.log + [e] && t.passed == s.passed == e.data.epoch
    ensures LogOk(t)
  {
  }

  lemma ServeFlow<S, L, D, T>(W: World<S, L, D, T>, s: Sys<S, L, D, T>, w: nat)
    requires FlowOk(W, s) && Enabled(W, s, Serve(w))
    ensures FlowOk(W, Next(W, s, Serve(w)))
  {
    var t := Next(W, s, Serve(w));
    var l := s.lanes[w];
    var e := l.up[0].entry;
    assert l in s.lanes;
    ServedLane(W, l, W.answer(e.text, s.store), s.epoch, s.passed);
    assert t.lanes[w] == Served(W, l, W.answer(e.text, s.store));
    LanesStillOk(W, s, w, t.lanes[w]);
    ServeConserved(s, t, w, e);
    LogGrows(s, t, e);
  }

  lemma ServeConserved<S, L, D, T>(s: Sys<S, L, D, T>, t: Sys<S, L, D, T>, w: nat, e: Entry<D>)
    requires Conserved(s) && w < |s.lanes| == |t.lanes| && t.lanes == s.lanes[w := t.lanes[w]]
    requires t.calls == s.calls && t.dropped == s.dropped && t.queue == s.queue && t.log == s.log + [e]
    requires Pending(s.lanes[w]) == Pending(t.lanes[w]) + multiset{e}
    ensures Conserved(t)
  {
    assert multiset(t.log) == multiset(s.log) + multiset{e};
    StillConserved(s, t, w);
  }

  lemma ArrivedLane<S, L, D, T>(W: World<S, L, D, T>, l: Lane<D, T>, epoch: nat, passed: nat)
    requires LaneOk(W, l, epoch, passed) && l.at.None? && l.up != [] && l.up[0].Bar?
    ensures LaneOk(W, l.(up := l.up[1..], at := Some(l.up[0].id)), epoch, passed)
  {
    var up := l.up[1..];
    if l.worker.Awaiting? {
      assert up[..|up| - 1] == l.up[..|l.up| - 1][1..];
    }
  }

  lemma ArriveFlow<S, L, D, T>(W: World<S, L, D, T>, s: Sys<S, L, D, T>, w: nat)
    requires FlowOk(W, s) && Enabled(W, s, Arrive(w))
    ensures FlowOk(W, Next(W, s, Arrive(w)))
  {
    var l := s.lanes[w];
    assert l in s.lanes;
    ArrivedLane(W, l, s.epoch, s.passed);
    PutFlow(W, s, w, l.(up := l.up[1..], at := Some(l.up[0].id)));
  }

  lemma FenceFlow<S, L, D, T>(W: World<S, L, D, T>, s: Sys<S, L, D, T>)
    requires FlowOk(W, s) && Enabled(W, s, Fence)
    ensures FlowOk(W, Next(W, s, Fence))
  {
    var t := Next(W, s, Fence);
    forall i | 0 <= i < |s.lanes|
      ensures LaneOk(W, t.lanes[i], t.epoch, t.passed) && Pending(s.lanes[i]) == Pending(t.lanes[i])
    {
      assert s.lanes[i] in s.lanes;
    }
    InFlightSame(s.lanes, t.lanes);
  }

  lemma ReleaseFlow<S, L, D, T>(W: World<S, L, D, T>, s: Sys<S, L, D, T>, id: nat)
    requires FlowOk(W, s) && Enabled(W, s, Release(id))
    ensures id == s.passed && FlowOk(W, Next(W, s, Release(id)))
  {
    var t := Next(W, s, Release(id));
    assert s.lanes[0] in s.lanes;
    forall i | 0 <= i < |s.lanes|
      ensures LaneOk(W, t.lanes[i], t.epoch, t.passed) && Pending(s.lanes[i]) == Pending(t.lanes[i])
    {
      assert s.lanes[i] in s.lanes;
    }
    InFlightSame(s.lanes, t.lanes);
  }

  lemma ReceiveFlow<S, L, D(!new), T(!new)>(W: World<S, L, D, T>, s: Sys<S, L, D, T>, w: nat)
    requires CallbacksFit(W) && FlowOk(W, s) && Enabled(W, s, Receive(w))
    ensures FlowOk(W, Next(W, s, Receive(w)))
  {
    var m := Next(W, s, Receive(w)).lanes[w];
    assert s.lanes[w] in s.lanes;
    PutFlow(W, s, w, m);
  }

  lemma HistoryIsFree<S, L, D, T>(W: World<S, L, D, T>, s: Sys<S, L, D, T>, t: Sys<S, L, D, T>)
    requires FlowOk(W, s) && t == s.(ran := t.ran, touches := t.touches, local := t.local)
    ensures FlowOk(W, t)
  {
  }

  lemma RunFlow<S, L, D, T>(W: World<S, L, D, T>, s: Sys<S, L, D, T>, w: nat)
    requires FlowOk(W, s) && Enabled(W, s, Run(w))
    ensures FlowOk(W, Next(W, s, Run(w)))
  {
    var l := s.lanes[w];
    assert l in s.lanes;
    var e, todo := l.worker.entry, l.worker.todo;
    if todo == [] {
      PutFlow(W, s, w, l.(worker := Idle));
    } else {
      assert todo[0] in todo;
      var m := l.(worker := Calling(e, todo[1..]));
      assert LaneOk(W, m, s.epoch, s.passed);
      PutFlow(W, s, w, m);
      RunActFlow(W, s, w, Put(s, w, m), todo[0]);
    }
  }

  lemma RunActFlow<S, L, D, T>(W: World<S, L, D, T>, s: Sys<S, L, D, T>, w: nat, p: Sys<S, L, D, T>, a: Act<D, T>)
    requires Enabled(W, s, Run(w)) && s.lanes[w].worker.todo != [] && a == s.lanes[w].worker.todo[0]
    requires p == Put(s, w, s.lanes[w].(worker := Calling(s.lanes[w].worker.entry, s.lanes[w].worker.todo[1..])))
    requires FlowOk(W, p) && (a.Request? ==> a.noreply == !W.replies(a.text))
    ensures FlowOk(W, Next(W, s, Run(w)))
  {
    var t := s.lanes[w].worker.entry.data.ticket;
    var s' := p.(ran := s.ran[t := (if t in s.ran then s.ran[t] else []) + [a]]);
    HistoryIsFree(W, p, s');
    match a
    case Touch(x) => HistoryIsFree(W, s', Next(W, s, Run(w)));
    case Request(text, noreply, data) => AcceptFlow(W, s', text, noreply, data, Some(t));
  }

  lemma StepFlow<S, L, D(!new), T(!new)>(W: World<S, L, D, T>, s: Sys<S, L, D, T>, a: Action<D>)
    requires CallbacksFit(W) && FlowOk(W, s) && Enabled(W, s, a)
    ensures FlowOk(W, Next(W, s, a))
  {
    match a
    case Call(text, noreply, data) => AcceptFlow(W, s, text, noreply, data, None);
    case Fence => FenceFlow(W, s);
    case Pop(w, i) => PopFlow(W, s, w, i);
    case Send(w) => SendFlow(W, s, w);
    case SendBarrier(w) => SendBarrierFlow(W, s, w);
    case Serve(w) => ServeFlow(W, s, w);
    case Arrive(w) => ArriveFlow(W, s, w);
    case Release(id) => ReleaseFlow(W, s, id);
    case Receive(w) => ReceiveFlow(W, s, w);
    case Run(w) => RunFlow(W, s, w);
  }
}
