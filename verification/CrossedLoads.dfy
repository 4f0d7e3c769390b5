/** Exactly which programs load their lists whole: in all others some run, on some server, leaves a listed
    atom without its values. */
module CrossedLoads {
  import opened Wrappers
  import opened Sexpr
  import opened ListScan
  import opened AList
  import opened RawNames
  import opened Commands
  import opened MsgOrder
  import opened Protocol
  import opened SimpleBackend
  import opened Runs
  import opened Flow
  import opened History
  import opened Refinement
  import opened Scripts
  import opened CogIO
  import opened Load
  import opened Repeats
  import opened OneList
  import opened WholeLoads
  import Gaps
  import Guarantees
  import Lazy
  import Origins

  // ---- where the pairs of a whole list come from, on the server with one atom ----

  ghost predicate OneListed<S(!new)>(W: World<S, Local, Packet, Change>, q: Command, q2: Command, b: Atom, p: Pair)
  {
    && W == OneAtomServer(q, q2, b, p) && PrintsLists(W) && WellFormed(b) && PairFits(p)
    && Proper(q) && ListsAtoms(q) && Proper(q2) && ListsAtoms(q2)
  }

  lemma ListedIsAsked<S(!new)>(
    W: World<S, Local, Packet, Change>, store: S, s: Sys<S, Local, Packet, Change>, q: Command, q2: Command, b: Atom, p: Pair, c: Entry<Packet>)
    requires OneListed(W, q, q2, b, p) && (c.text == Text(q) || c.text == Text(q2)) && c.data.data.ListInto? && ListIsWhole(W, store, s, c)
    ensures Loaded(W, store, s, c.data.data.table, b, c.data.epoch)
  {
    ListKinds(q, b);
    ListKinds(q2, b);
    OneAtomListed(b);
    forall r | r in s.log && r.text == c.text ensures ReplyTo(W, store, s.log, r) == OneAtomList(b) {
      var x := Origins.ReplyIsAnswer(W, store, s.log, r);
    }
    assert Element(b, Print(b)) in DecodedList(AtomIn, OneAtomList(b)).0;
  }

  lemma KeysReply<S(!new)>(
    W: World<S, Local, Packet, Change>, store: S, log: seq<Entry<Packet>>, q: Command, q2: Command, b: Atom, p: Pair, k: Entry<Packet>)
    requires OneListed(W, q, q2, b, p) && k in log && k.text == Text(LoadKeys(b))
    ensures ReplyTo(W, store, log, k) == ValuesText([p])
  {
    ListKinds(q, b);
    ListKinds(q2, b);
    var x := Origins.ReplyIsAnswer(W, store, log, k);
  }

  lemma LoadedIsPut<S(!new)>(
    W: World<S, Local, Packet, Change>, store: S, s: Sys<S, Local, Packet, Change>, q: Command, q2: Command, b: Atom, p: Pair, table: nat, epoch: nat)
    requires OneListed(W, q, q2, b, p) && Loaded(W, store, s, table, b, epoch)
    ensures (PutPair(Ref(b, Some(table)), p), epoch) in s.touches
  {
    var k :| k in s.log && k.text == Text(LoadKeys(b)) && k.data.epoch == epoch &&
             forall o <- Pairs(SexprPairs(), ReplyTo(W, store, s.log, k)).0 :: (PutPair(Ref(b, Some(table)), o), epoch) in s.touches;
    KeysReply(W, store, s.log, q, q2, b, p, k);
    OnePairRead(p);
  }

  /** The key request whose callback put the pair there. */
  lemma Source<S(!new)>(
    W: World<S, Local, Packet, Change>, store: S, local: Local, s: Sys<S, Local, Packet, Change>,
    q: Command, q2: Command, b: Atom, p: Pair, c: Entry<Packet>)
    returns (y: Entry<Packet>)
    requires OneListed(W, q, q2, b, p) && Sound(W, store, local, s) && AllOwned(s)
    requires (c.text == Text(q) || c.text == Text(q2)) && c.data.data.ListInto? && ListIsWhole(W, store, s, c)
    ensures y in s.calls && y in s.log && y.data.epoch == c.data.epoch
    ensures y.text == Text(LoadKeys(b)) && y.data.data == AListOf(Ref(b, Some(c.data.data.table)))
  {
    ListedIsAsked(W, store, s, q, q2, b, p, c);
    LoadedIsPut(W, store, s, q, q2, b, p, c.data.data.table, c.data.epoch);
    var z;
    y, z := Origins.TouchedBy(W, store, local, s, PutPair(Ref(b, Some(c.data.data.table)), p), c.data.epoch);
    OnlyKeysPut(q, q2, b, p, Ref(b, Some(c.data.data.table)), CmdOf(y), z);
  }

  /** Whose callback made it, if a callback did. */
  lemma Asker<S(!new)>(
    W: World<S, Local, Packet, Change>, store: S, local: Local, s: Sys<S, Local, Packet, Change>,
    q: Command, q2: Command, b: Atom, p: Pair, c: Entry<Packet>)
    returns (parent: Entry<Packet>)
    requires OneListed(W, q, q2, b, p) && Sound(W, store, local, s) && AllOwned(s) && c in s.calls && c.data.parent.Some?
    ensures parent in s.log && (parent.text == Text(q) || parent.text == Text(q2)) && parent.data.epoch == c.data.epoch
    ensures parent.data.parent.None? && c.data.parent == Some(parent.data.ticket)
    ensures parent.data.data.ListInto? && c.data.data.AListOf? && c.data.data.h.table == Some(parent.data.data.table)
  {
    var h;
    h, parent := ChildIsKeys(W, store, local, s, c);
    KeysPacket(CmdOf(c), h, parent.data.data.table);
    ListsAreClients(W, store, local, s, parent);
    var again, x := Origins.ParentAsked(W, store, local, s, c);
    SameTicket(W, s, parent, again);
    OnlyTheListsAsk(q, q2, b, p, CmdOf(parent), x, Request(c.text, c.noreply, c.data.data));
  }

  lemma SameTicket<S, L, D, T>(W: World<S, L, D, T>, s: Sys<S, L, D, T>, a: Entry<D>, b: Entry<D>)
    requires FlowOk(W, s) && a in s.calls && b in s.calls && a.data.ticket == b.data.ticket
    ensures a == b
  {
    assert s.calls[a.data.ticket] == a && s.calls[b.data.ticket] == b;
  }

  lemma BothApplied<S, L, D(!new), T>(W: World<S, L, D, T>, s: Sys<S, L, D, T>, a: Entry<D>, b: Entry<D>)
    requires FlowOk(W, s) && Lazy.Single(W, s) && a in s.log && b in s.log && Lazy.SameCall(a, b) && !W.unique(a.text)
    requires a.data.parent.None? && b.data.parent.None?
    ensures a == b
  {
    AppliedIsKept(W, s, a);
    AppliedIsKept(W, s, b);
    assert Lazy.Kept(s, a) && Lazy.Kept(s, b);
  }

  // ---- lists that are not whole ----

  /** The callback of the list call `e` is over, and none of its requests was kept. */
  ghost predicate Sprung<S>(W: World<S, Local, Packet, Change>, store: S, local: Local, s: Sys<S, Local, Packet, Change>, e: Entry<Packet>)
  {
    && Sound(W, store, local, s) && Lazy.Single(W, s) && AllOwned(s)
    && Origins.Over(W, store, s, e) && e.data.parent.None? && e.data.data.ListInto?
    && forall c <- s.calls :: c.data.parent == Some(e.data.ticket) ==> c in s.dropped
  }

  lemma ChildIsLost<S(!new)>(
    W: World<S, Local, Packet, Change>, store: S, local: Local, s: Sys<S, Local, Packet, Change>,
    q: Command, b: Atom, p: Pair, e: Entry<Packet>, c: Entry<Packet>)
    requires OneListed(W, q, q, b, p) && Sprung(W, store, local, s, e) && e.text == Text(q)
    requires c in s.calls && c.data.parent.Some? && c.data.epoch == e.data.epoch
    ensures c in s.dropped
  {
    var parent := Asker(W, store, local, s, q, q, b, p, c);
    Gaps.NothingTakesSequence(q);
    BothApplied(W, s, parent, e);
  }

  /** Only the leading request with this text is served in the epoch. */
  lemma OnlyTheLeader<S(!new)>(
    W: World<S, Local, Packet, Change>, store: S, local: Local, s: Sys<S, Local, Packet, Change>,
    q: Command, b: Atom, p: Pair, e: Entry<Packet>, j: nat, r: Entry<Packet>)
    requires OneListed(W, q, q, b, p) && Sprung(W, store, local, s, e) && e.text == Text(q)
    requires Leads(Issued(s.calls), j) && Issued(s.calls)[j].1 == e.data.epoch && Issued(s.calls)[j].0.text == Text(LoadKeys(b))
    requires r in s.log && r.data.epoch == e.data.epoch && r.text == Text(LoadKeys(b))
    ensures CmdOf(r) == Issued(s.calls)[j].0
  {
    AppliedIsKept(W, s, r);
    var f := FirstIsKept(W, s, r);
    if r.data.parent.Some? {
      ChildIsLost(W, store, local, s, q, b, p, e, r);
    }
    if f.data.parent.Some? {
      ChildIsLost(W, store, local, s, q, b, p, e, f);
    }
    Gaps.NothingTakesSequence(LoadKeys(b));
    assert Lazy.Kept(s, r) && Lazy.Kept(s, f);
    var i := FirstLeads(W, s, f);
    OneLeader(Issued(s.calls), i, j);
  }

  lemma LedByOther<S(!new)>(
    W: World<S, Local, Packet, Change>, store: S, local: Local, s: Sys<S, Local, Packet, Change>,
    q: Command, b: Atom, p: Pair, e: Entry<Packet>, j: nat)
    requires OneListed(W, q, q, b, p) && Sprung(W, store, local, s, e) && e.text == Text(q)
    requires Leads(Issued(s.calls), j) && Issued(s.calls)[j].1 == e.data.epoch && Issued(s.calls)[j].0.text == Text(LoadKeys(b))
    requires Issued(s.calls)[j].0.data != AListOf(Ref(b, Some(e.data.data.table)))
    ensures !ListIsWhole(W, store, s, e)
  {
    if ListIsWhole(W, store, s, e) {
      var y := Source(W, store, local, s, q, q, b, p, e);
      OnlyTheLeader(W, store, local, s, q, b, p, e, j, y);
    }
  }

  /** No client asks for the keys of this atom. */
  ghost predicate Fresh(calls: seq<(Cmd<Packet>, nat)>, b: Atom)
  {
    forall p <- calls :: p.0.text != Text(LoadKeys(b))
  }

  /** Then it is a list's callback that does. */
  lemma ListSource<S(!new)>(
    W: World<S, Local, Packet, Change>, store: S, local: Local, s: Sys<S, Local, Packet, Change>,
    q: Command, q2: Command, b: Atom, p: Pair, c: Entry<Packet>)
    returns (y: Entry<Packet>, parent: Entry<Packet>)
    requires OneListed(W, q, q2, b, p) && Sound(W, store, local, s) && AllOwned(s) && Fresh(Issued(s.calls), b)
    requires (c.text == Text(q) || c.text == Text(q2)) && c.data.data.ListInto? && ListIsWhole(W, store, s, c)
    ensures y in s.log && y in s.calls && y.data.parent == Some(parent.data.ticket) && parent in s.log && parent.data.parent.None?
    ensures (parent.text == Text(q) || parent.text == Text(q2)) && parent.data.epoch == c.data.epoch && parent.data.data == c.data.data
  {
    y := Source(W, store, local, s, q, q2, b, p, c);
    if y.data.parent.None? {
      IssuedMember(s.calls, (CmdOf(y), y.data.epoch));
    }
    parent := Asker(W, store, local, s, q, q2, b, p, y);
  }

  /** The same list into two tables. */
  lemma NotBothWhole<S(!new)>(
    W: World<S, Local, Packet, Change>, store: S, local: Local, s: Sys<S, Local, Packet, Change>,
    q: Command, b: Atom, p: Pair, c: Entry<Packet>, d: Entry<Packet>)
    requires OneListed(W, q, q, b, p) && Sound(W, store, local, s) && Lazy.Single(W, s) && AllOwned(s) && Fresh(Issued(s.calls), b)
    requires c.text == d.text == Text(q) && c.data.epoch == d.data.epoch && c.data.data.ListInto? && d.data.data.ListInto?
    requires c.data.data != d.data.data
    ensures !ListIsWhole(W, store, s, c) || !ListIsWhole(W, store, s, d)
  {
    if ListIsWhole(W, store, s, c) && ListIsWhole(W, store, s, d) {
      var y, parent := ListSource(W, store, local, s, q, q, b, p, c);
      var z, other := ListSource(W, store, local, s, q, q, b, p, d);
      Gaps.NothingTakesSequence(q);
      BothApplied(W, s, parent, other);
    }
  }

  /** Two lists into two tables. */
  lemma NotBothLists<S(!new)>(
    W: World<S, Local, Packet, Change>, store: S, local: Local, s: Sys<S, Local, Packet, Change>,
    q: Command, q2: Command, b: Atom, p: Pair, c: Entry<Packet>, e: Entry<Packet>)
    requires OneListed(W, q, q2, b, p) && Sprung(W, store, local, s, e) && Fresh(Issued(s.calls), b)
    requires c.text == Text(q) && e.text == Text(q2) && c.data.epoch == e.data.epoch && c.data.data.ListInto? && c.data.data != e.data.data
    ensures !ListIsWhole(W, store, s, c) || !ListIsWhole(W, store, s, e)
  {
    if ListIsWhole(W, store, s, c) && ListIsWhole(W, store, s, e) {
      var z := LostSource(W, store, local, s, q, q2, b, p, c, e);
      AppliedIsKept(W, s, z);
    }
  }

  lemma LostSource<S(!new)>(
    W: World<S, Local, Packet, Change>, store: S, local: Local, s: Sys<S, Local, Packet, Change>,
    q: Command, q2: Command, b: Atom, p: Pair, c: Entry<Packet>, e: Entry<Packet>)
    returns (z: Entry<Packet>)
    requires OneListed(W, q, q2, b, p) && Sound(W, store, local, s) && Lazy.Single(W, s) && AllOwned(s) && Fresh(Issued(s.calls), b)
    requires e in s.log && e.data.parent.None? && e.data.data.ListInto?
    requires c.text == Text(q) && e.text == Text(q2) && c.data.epoch == e.data.epoch && c.data.data.ListInto? && c.data.data != e.data.data
    requires ListIsWhole(W, store, s, c) && ListIsWhole(W, store, s, e)
    ensures z in s.log && z in s.calls && z.data.parent == Some(e.data.ticket)
  {
    Gaps.NothingTakesSequence(q);
    Gaps.NothingTakesSequence(q2);
    var y, parent := ListSource(W, store, local, s, q, q2, b, p, c);
    var other;
    z, other := ListSource(W, store, local, s, q, q2, b, p, e);
    TwoParents(W, s, parent, other, e, Text(q));
  }

  lemma TwoParents<S>(
    W: World<S, Local, Packet, Change>, s: Sys<S, Local, Packet, Change>, a: Entry<Packet>, b: Entry<Packet>, e: Entry<Packet>, text: string)
    requires FlowOk(W, s) && Lazy.Single(W, s) && a in s.log && b in s.log && e in s.log
    requires a.data.parent.None? && b.data.parent.None? && e.data.parent.None? && !W.unique(text) && !W.unique(e.text)
    requires a.data.epoch == b.data.epoch == e.data.epoch && a.data.data != e.data.data && b.data.data == e.data.data
    requires (a.text == text || a.text == e.text) && (b.text == text || b.text == e.text)
    ensures b == e
  {
    if a.text == e.text {
      BothApplied(W, s, a, e);
    }
    if b.text == a.text {
      BothApplied(W, s, a, b);
    } else {
      BothApplied(W, s, b, e);
    }
  }

  // ---- the runs ----

  lemma FirstWaits<S(!new)>(W: World<S, Local, Packet, Change>, s: Sys<S, Local, Packet, Change>, i: nat) returns (f: Entry<Packet>)
    requires FlowOk(W, s) && Lazy.AllWait(s) && i < |Issued(s.calls)| && Issued(s.calls)[i].1 == s.epoch
    ensures f in s.queue && f.text == Issued(s.calls)[i].0.text
  {
    var n := IssuedFrom(s.calls, i);
    f := FirstIsKept(W, s, s.calls[n]);
  }

  /** A request that waits has not called back. */
  lemma NoChildYet<S(!new)>(
    W: World<S, Local, Packet, Change>, store: S, local: Local, s: Sys<S, Local, Packet, Change>, e: Entry<Packet>, c: Entry<Packet>)
    requires Sound(W, store, local, s) && e in s.queue && c in s.calls
    ensures c.data.parent != Some(e.data.ticket)
  {
    OnePlace(W, s, e);
    if c.data.parent.Some? {
      var parent, x := Origins.ParentAsked(W, store, local, s, c);
      assert s.calls[parent.data.ticket] == parent && s.calls[e.data.ticket] == e;
    }
  }

  ghost predicate Childless<S>(s: Sys<S, Local, Packet, Change>, e: Entry<Packet>)
  {
    forall c <- s.calls :: c.data.parent != Some(e.data.ticket)
  }

  lemma AllChildless<S(!new)>(
    W: World<S, Local, Packet, Change>, store: S, local: Local, actions: seq<Action<Packet>>, s: Sys<S, Local, Packet, Change>)
    requires CallbacksFit(W) && Reachable(W, store, local, actions, s)
    ensures forall e <- s.queue :: Childless(s, e)
  {
    ReachableIsSound(W, store, local, actions, s);
    forall e, c | e in s.queue && c in s.calls ensures c.data.parent != Some(e.data.ticket) {
      NoChildYet(W, store, local, s, e, c);
    }
  }

  /** What waits at the end of an epoch is the clients'. */
  lemma QueuedAreCalled<S, L, D(!new), T>(W: World<S, L, D, T>, s: Sys<S, L, D, T>, calls: seq<(Cmd<D>, nat)>)
    requires FlowOk(W, s) && Lazy.AllWait(s) && Issued(s.calls) <= calls
    ensures forall o <- s.queue :: o.data.parent.None? && o.data.epoch == s.epoch && (CmdOf(o), s.epoch) in calls
  {
    forall o | o in s.queue ensures o.data.parent.None? && o.data.epoch == s.epoch && (CmdOf(o), s.epoch) in calls {
      OnePlace(W, s, o);
      IssuedMember(s.calls, (CmdOf(o), o.data.epoch));
      assert (CmdOf(o), o.data.epoch) in Issued(s.calls);
    }
  }

  /** The end of an epoch in which nothing has been taken out of the queue. */
  ghost predicate EpochEnd<S>(
    W: World<S, Local, Packet, Change>, store: S, local: Local, ops: seq<Op<Packet>>,
    actions: seq<Action<Packet>>, s: Sys<S, Local, Packet, Change>, rest: seq<Op<Packet>>)
  {
    && Reachable(W, store, local, actions, s) && Program(actions) + rest == ops && (rest == [] || rest[0].Barrier?)
    && FlowOk(W, s) && Lazy.Single(W, s) && Lazy.Free(s)
  }

  /** Two requests of an epoch wait together at its end. */
  lemma BothWait<S(!new)>(W: World<S, Local, Packet, Change>, store: S, local: Local, ops: seq<Op<Packet>>, i: nat, j: nat)
    returns (actions: seq<Action<Packet>>, s: Sys<S, Local, Packet, Change>, rest: seq<Op<Packet>>, e: Entry<Packet>, f: Entry<Packet>)
    requires IsCogWorld(W)
    requires i < |CallsOf(ops, 0)| && j < |CallsOf(ops, 0)| && CallsOf(ops, 0)[i].1 == CallsOf(ops, 0)[j].1
    ensures EpochEnd(W, store, local, ops, actions, s, rest) && s.epoch == CallsOf(ops, 0)[i].1
    ensures e in s.queue && f in s.queue && e.text == CallsOf(ops, 0)[i].0.text && f.text == CallsOf(ops, 0)[j].0.text
    ensures forall o <- s.queue :: o.data.parent.None? && o.data.epoch == s.epoch && (CmdOf(o), s.epoch) in CallsOf(ops, 0)
    ensures forall o <- s.queue :: Childless(s, o)
  {
    var calls := CallsOf(ops, 0);
    CallbacksAreFit(W);
    actions, s, rest := LazyUpToEpoch(W, store, local, ops, calls[i].1);
    assert i < |Issued(s.calls)| && j < |Issued(s.calls)|;
    e := FirstWaits(W, s, i);
    f := FirstWaits(W, s, j);
    QueuedAreCalled(W, s, calls);
    AllChildless(W, store, local, actions, s);
  }

  lemma StillSorted<D>(queue: seq<Entry<D>>, i: nat, e: Entry<D>)
    requires Sorted(queue) && i < |queue| && e in queue && e != queue[i]
    ensures Sorted(Without(queue, i)) && e in Without(queue, i)
  {
    var n :| 0 <= n < |queue| && queue[n] == e;
    assert e == Without(queue, i)[if n < i then n else n - 1];
  }

  lemma AllFree<S, L, D, T>(W: World<S, L, D, T>, s: Sys<S, L, D, T>)
    requires FlowOk(W, s) && Lazy.Free(s)
    ensures s.lanes == Lanes(Free())
  {
    forall i | 0 <= i < |s.lanes| ensures s.lanes[i] == Lanes<D, T>(Free())[i] {
      assert s.lanes[i] in s.lanes;
    }
  }

  /** A request can be served, and its callback make a change and a request. */
  ghost predicate Callable<S, L, D, T>(W: World<S, L, D, T>, s: Sys<S, L, D, T>, e: Entry<D>, x: T, text: string, d: D)
  {
    && FlowOk(W, s) && Lazy.Free(s) && e in s.queue && W.replies(e.text) && W.replies(text) && !W.unique(text) && e.text != text
    && W.plan(e.data.data, W.answer(e.text, s.store)) == [Touch(x)] + [Request(text, false, d)]
  }

  lemma WhereItWaits<S, L, D, T>(W: World<S, L, D, T>, s: Sys<S, L, D, T>, e: Entry<D>, f: Entry<D>, x: T, text: string, d: D) returns (i: nat)
    requires Callable(W, s, e, x, text, d) && f in s.queue && f != e
    ensures i < |s.queue| && s.queue[i] == e && CallsBack(W, s, i, x, text, d) && f in Without(s.queue, i)
  {
    i :| 0 <= i < |s.queue| && s.queue[i] == e;
    AllFree(W, s);
    StillSorted(s.queue, i, f);
  }

  lemma AbsorbingIsQuiet<D>(i: nat)
    ensures NoClient<D>(Absorbing(i))
  {
  }

  /** It is served while the text of its callback's request waits, and the request is merged. */
  lemma RequestIsMerged<S, L, D, T>(W: World<S, L, D, T>, s: Sys<S, L, D, T>, e: Entry<D>, f: Entry<D>, x: T, d: D)
    returns (actions: seq<Action<D>>, t: Sys<S, L, D, T>, m: Entry<D>)
    requires f in s.queue && Callable(W, s, e, x, f.text, d)
    ensures Reaches(W, s, actions, t) && NoClient(actions)
    ensures t.calls == s.calls + [m] && t.dropped == s.dropped + [m] && e in t.log
    ensures e.data.ticket in t.ran && t.ran[e.data.ticket] == [Touch(x)] + [Request(f.text, false, d)]
  {
    var i := WhereItWaits(W, s, e, f, x, f.text, d);
    Guarantees.NumberedInQueue(W, s, f);
    t := CallbackMerges(W, s, i, x, f.text, d);
    actions, m := Absorbing(i), t.calls[|s.calls|];
    AbsorbingIsQuiet<D>(i);
  }

  /** It is served while that text does not wait, and the request waits then. */
  lemma RequestIsQueued<S, L, D, T>(W: World<S, L, D, T>, s: Sys<S, L, D, T>, e: Entry<D>, f: Entry<D>, x: T, text: string, d: D)
    returns (actions: seq<Action<D>>, t: Sys<S, L, D, T>, m: Entry<D>)
    requires f in s.queue && f != e && Callable(W, s, e, x, text, d) && forall o <- s.queue :: o.text != text
    ensures Reaches(W, s, actions, t) && NoClient(actions) && t.lanes == Lanes(Free())
    ensures t.calls == s.calls + [m] && m.data.parent == Some(e.data.ticket) && m.text == text && m in t.queue && f in t.queue
  {
    var i := WhereItWaits(W, s, e, f, x, text, d);
    t := CallbackQueues(W, s, i, x, text, d);
    actions, m := Absorbing(i), t.calls[|s.calls|];
    AbsorbingIsQuiet<D>(i);
  }

  lemma ListIsCallable<S(!new)>(
    W: World<S, Local, Packet, Change>, s: Sys<S, Local, Packet, Change>, q: Command, q2: Command, b: Atom, p: Pair, e: Entry<Packet>)
    requires OneListed(W, q, q2, b, p) && FlowOk(W, s) && Lazy.Free(s) && e in s.queue
    requires e.data.data.ListInto? && (e.text == Text(q) || e.text == Text(q2))
    ensures Callable(W, s, e, Add(e.data.data.table, b), Text(LoadKeys(b)), AListOf(Ref(b, Some(e.data.data.table))))
  {
    ListKinds(q, b);
    ListKinds(q2, b);
    Gaps.NothingTakesSequence(LoadKeys(b));
    OneAtomCallback(e.data.data.table, b);
  }

  /** Workers' steps keep what holds of lazy runs. */
  lemma WorkersKeep<S, L, D(!new), T(!new)>(W: World<S, L, D, T>, s: Sys<S, L, D, T>, actions: seq<Action<D>>, t: Sys<S, L, D, T>)
    requires CallbacksFit(W) && FlowOk(W, s) && Lazy.Single(W, s) && Reaches(W, s, actions, t) && NoClient(actions)
    ensures FlowOk(W, t) && Lazy.Single(W, t)
  {
    Lazy.FlowStays(W, s, actions, t);
    Lazy.WorkersOnly(W, s, actions, t);
    Lazy.SinglesStay(W, s, t);
  }

  ghost predicate ChildrenDropped<S>(s: Sys<S, Local, Packet, Change>, e: Entry<Packet>)
  {
    forall c <- s.calls :: c.data.parent == Some(e.data.ticket) ==> c in s.dropped
  }

  /** The list's callback is over, and what it requested was merged. */
  lemma SpringsNow<S(!new)>(
    W: World<S, Local, Packet, Change>, store: S, s: Sys<S, Local, Packet, Change>,
    q: Command, q2: Command, b: Atom, p: Pair, e: Entry<Packet>, f: Entry<Packet>)
    returns (actions: seq<Action<Packet>>, t: Sys<S, Local, Packet, Change>)
    requires OneListed(W, q, q2, b, p) && CallbacksFit(W) && FlowOk(W, s) && Lazy.Single(W, s) && Lazy.Free(s) && e in s.queue && f in s.queue
    requires e.data.data.ListInto? && (e.text == Text(q) || e.text == Text(q2)) && f.text == Text(LoadKeys(b)) && Childless(s, e)
    ensures Reaches(W, s, actions, t) && NoClient(actions) && FlowOk(W, t) && Lazy.Single(W, t)
    ensures Origins.Over(W, store, t, e) && ChildrenDropped(t, e)
  {
    var m: Entry<Packet>;
    var table := e.data.data.table;
    ListIsCallable(W, s, q, q2, b, p, e);
    actions, t, m := RequestIsMerged(W, s, e, f, Add(table, b), AListOf(Ref(b, Some(table))));
    WorkersKeep(W, s, actions, t);
    ListIsOver(W, store, t, q, q2, b, p, e);
  }

  lemma ListIsOver<S(!new)>(
    W: World<S, Local, Packet, Change>, store: S, s: Sys<S, Local, Packet, Change>, q: Command, q2: Command, b: Atom, p: Pair, e: Entry<Packet>)
    requires OneListed(W, q, q2, b, p) && e in s.log && e.data.data.ListInto? && (e.text == Text(q) || e.text == Text(q2))
    requires e.data.ticket in s.ran
    requires var table := e.data.data.table;
             s.ran[e.data.ticket] == [Touch(Add(table, b))] + [Request(Text(LoadKeys(b)), false, AListOf(Ref(b, Some(table))))]
    ensures Origins.Over(W, store, s, e)
  {
    ListKinds(q, b);
    ListKinds(q2, b);
    OneAtomCallback(e.data.data.table, b);
    var x := Origins.ReplyIsAnswer(W, store, s.log, e);
  }

  lemma StaysSprung<S(!new)>(
    W: World<S, Local, Packet, Change>, store: S, local: Local, first: seq<Action<Packet>>, s: Sys<S, Local, Packet, Change>,
    more: seq<Action<Packet>>, t: Sys<S, Local, Packet, Change>, e: Entry<Packet>)
    requires CallbacksFit(W) && Reachable(W, store, local, first, s) && Reaches(W, s, more, t)
    requires Origins.Over(W, store, s, e) && ChildrenDropped(s, e)
    ensures Reachable(W, store, local, first + more, t) && Sound(W, store, local, t)
    ensures Origins.Over(W, store, t, e) && ChildrenDropped(t, e)
  {
    ReachableIsSound(W, store, local, first, s);
    Origins.OverStays(W, store, local, s, more, t, e);
    Origins.DroppedStays(W, s, more, t);
    ReachesAppend(W, Initial(store, local), first, s, more, t);
    ReachableIsSound(W, store, local, first + more, t);
  }

  lemma ThreeParts<D>(a: seq<Action<D>>, b: seq<Action<D>>, c: seq<Action<D>>)
    requires NoClient(b)
    ensures Program(a + b + c) == Program(a) + Program(c)
  {
    ProgramAppend(a + b, c);
    ProgramAppend(a, b);
    NoClientProgram(b);
  }

  /** From the end of the epoch, through the merging, to the end of the program. */
  lemma Springs<S(!new)>(
    W: World<S, Local, Packet, Change>, store: S, local: Local, ops: seq<Op<Packet>>,
    first: seq<Action<Packet>>, s1: Sys<S, Local, Packet, Change>, rest: seq<Op<Packet>>,
    q: Command, q2: Command, b: Atom, p: Pair, e: Entry<Packet>, f: Entry<Packet>)
    returns (actions: seq<Action<Packet>>, s: Sys<S, Local, Packet, Change>)
    requires OneListed(W, q, q2, b, p) && OwnProgram(ops) && EpochEnd(W, store, local, ops, first, s1, rest) && e in s1.queue && f in s1.queue
    requires e.data.parent.None? && e.data.data.ListInto? && (e.text == Text(q) || e.text == Text(q2)) && f.text == Text(LoadKeys(b))
    requires Childless(s1, e)
    ensures Reachable(W, store, local, actions, s) && Quiescent(s) && Program(actions) == ops
    ensures Sprung(W, store, local, s, e) && Issued(s.calls) == CallsOf(ops, 0)
  {
    CallbacksAreFit(W);
    var merge, u := SpringsNow(W, store, s1, q, q2, b, p, e, f);
    var more;
    more, s := Lazy.LazyRest(W, u, rest);
    ReachesAppend(W, Initial(store, local), first, s1, merge, u);
    StaysSprung(W, store, local, first + merge, u, more, s, e);
    actions := first + merge + more;
    ThreeParts(first, merge, more);
    RunFromStart(W, store, local, actions, s);
    CallsAreOwned(W, store, local, s);
  }

  // ---- an atom nobody asks for ----

  function Longest(calls: seq<(Cmd<Packet>, nat)>): (n: nat)
    ensures forall p <- calls :: |p.0.text| <= n
  {
    if calls == [] then 0
    else
      var n := Longest(calls[1..]);
      assert calls == [calls[0]] + calls[1..];
      if |calls[0].0.text| <= n then n else |calls[0].0.text|
  }

  lemma FreshAtom(calls: seq<(Cmd<Packet>, nat)>) returns (b: Atom)
    ensures WellFormed(b) && Fresh(calls, b)
  {
    var name := seq(Longest(calls) + 1, _ => 'x');
    b := Node("Concept", name);
    assert IsTypeName("Concept");
    NamesAreSent("Concept", name);
  }

  lemma NamesAreSent(typ: string, name: string)
    ensures |Text(LoadKeys(Node(typ, name)))| >= |name|
  {
    var b := Node(typ, name);
    EscapeLonger(name);
    assert |Print(b)| >= |Inside(b)| >= |Escape(name)|;
    assert |Text(LoadKeys(b))| >= |Arguments(LoadKeys(b))| >= |Print(b)|;
  }

  // ---- the three ways of being disturbed ----

  /** The same list, between the same two barriers, into two tables. */
  ghost predicate Twins(calls: seq<(Cmd<Packet>, nat)>)
  {
    exists i, j :: 0 <= i < |calls| && 0 <= j < |calls| && SameBetween(calls[i], calls[j]) &&
                   calls[i].0.data.ListInto? && calls[j].0.data.ListInto? && calls[i].0.data != calls[j].0.data
  }

  lemma TruthFits()
    ensures PairFits(Pair(TruthKey, Floats([])))
  {
  }

  lemma Listing<S(!new)>(q: Command, q2: Command, b: Atom) returns (W: World<S, Local, Packet, Change>, p: Pair)
    requires Proper(q) && ListsAtoms(q) && Proper(q2) && ListsAtoms(q2) && WellFormed(b)
    ensures OneListed(W, q, q2, b, p) && IsCogWorld(W) && W.unique == TakesSequence
  {
    p := Pair(TruthKey, Floats([]));
    TruthFits();
    W := OneAtomServer(q, q2, b, p);
    OneAtomServerPrints<S>(q, q2, b, p);
  }

  lemma CallOfProgram(calls: seq<Entry<Packet>>, p: (Cmd<Packet>, nat)) returns (c: Entry<Packet>)
    requires p in Issued(calls)
    ensures c in calls && CmdOf(c) == p.0 && c.data.epoch == p.1 && c.data.parent.None?
  {
    IssuedMember(calls, p);
    c :| c in calls && c.data.parent.None? && p == (CmdOf(c), c.data.epoch);
  }

  lemma TwinsAreNotWhole<S(!new)>(store: S, local: Local, ops: seq<Op<Packet>>, i: nat, j: nat)
    requires OwnProgram(ops) && i < |CallsOf(ops, 0)| && j < |CallsOf(ops, 0)| && SameBetween(CallsOf(ops, 0)[i], CallsOf(ops, 0)[j])
    requires CallsOf(ops, 0)[i].0.data.ListInto? && CallsOf(ops, 0)[j].0.data.ListInto?
    requires CallsOf(ops, 0)[i].0.data != CallsOf(ops, 0)[j].0.data
    ensures !LoadsWhole(store, local, ops)
  {
    var q := OwnedList(CallsOf(ops, 0)[i].0);
    var b := FreshAtom(CallsOf(ops, 0));
    var W: World<S, Local, Packet, Change>, p := Listing(q, q, b);
    CallbacksAreFit(W);
    var actions, s := LazyProgram(W, store, local, ops);
    ProgramIssued(W, store, local, actions, s);
    CallsAreOwned(W, store, local, s);
    var c := CallOfProgram(s.calls, CallsOf(ops, 0)[i]);
    var d := CallOfProgram(s.calls, CallsOf(ops, 0)[j]);
    NotBothWhole(W, store, local, s, q, b, p, c, d);
    Refutes(W, store, local, ops, actions, s, c, d);
  }

  /** A run in which one of two lists is not whole. */
  lemma Refutes<S(!new)>(
    W: World<S, Local, Packet, Change>, store: S, local: Local, ops: seq<Op<Packet>>,
    actions: seq<Action<Packet>>, s: Sys<S, Local, Packet, Change>, c: Entry<Packet>, d: Entry<Packet>)
    requires IsCogWorld(W) && W.unique == TakesSequence && PrintsLists(W)
    requires Reachable(W, store, local, actions, s) && Quiescent(s) && Program(actions) == ops
    requires c in s.calls && d in s.calls && c.data.data.ListInto? && d.data.data.ListInto?
    requires !ListIsWhole(W, store, s, c) || !ListIsWhole(W, store, s, d)
    ensures !LoadsWhole(store, local, ops)
  {
    assert !Whole(W, store, s);
    assert RunOf(W, store, local, ops, actions, s);
  }

  /** Without twins, the queued call with a list's text is for the list's table. */
  lemma SameTable(calls: seq<(Cmd<Packet>, nat)>, i: nat, r: Cmd<Packet>, k: nat)
    requires (forall p <- calls :: Owned(p.0)) && !Twins(calls) && i < |calls| && (r, k) in calls
    requires SameBetween((r, k), calls[i]) && calls[i].0.data.ListInto?
    ensures r.data == calls[i].0.data
  {
    var q := OwnedList(calls[i].0);
    ListText(r, q);
    var n :| 0 <= n < |calls| && calls[n] == (r, k);
    assert SameBetween(calls[n], calls[i]);
  }

  lemma LedIsNotWhole<S(!new)>(store: S, local: Local, ops: seq<Op<Packet>>, i: nat, j: nat)
    requires OwnProgram(ops) && !Twins(CallsOf(ops, 0)) && i < |CallsOf(ops, 0)| && CallsOf(ops, 0)[i].0.data.ListInto?
    requires Leads(CallsOf(ops, 0), j) && CallsOf(ops, 0)[i].1 == CallsOf(ops, 0)[j].1
    requires AsksForOther(CallsOf(ops, 0)[j].0, CallsOf(ops, 0)[i].0.data.table)
    ensures !LoadsWhole(store, local, ops)
  {
    var calls := CallsOf(ops, 0);
    var b :| WellFormed(b) && calls[j].0.text == Text(LoadKeys(b)) && calls[j].0.data != AListOf(Ref(b, Some(calls[i].0.data.table)));
    var q := OwnedList(calls[i].0);
    var W: World<S, Local, Packet, Change>, p := Listing(q, q, b);
    var first, s1, rest, e, f := BothWait(W, store, local, ops, i, j);
    SameTable(calls, i, CmdOf(e), s1.epoch);
    var actions, s := Springs(W, store, local, ops, first, s1, rest, q, q, b, p, e, f);
    LedByOther(W, store, local, s, q, b, p, e, j);
    OnePlace(W, s, e);
    Refutes(W, store, local, ops, actions, s, e, e);
  }

  /** The first list's callback is over, and its request waits together with the second list. */
  lemma QueuesNow<S(!new)>(
    W: World<S, Local, Packet, Change>, store: S, local: Local, ops: seq<Op<Packet>>,
    first: seq<Action<Packet>>, s: Sys<S, Local, Packet, Change>, rest: seq<Op<Packet>>,
    q: Command, q2: Command, b: Atom, p: Pair, e: Entry<Packet>, f: Entry<Packet>)
    returns (actions: seq<Action<Packet>>, t: Sys<S, Local, Packet, Change>, m: Entry<Packet>)
    requires OneListed(W, q, q2, b, p) && EpochEnd(W, store, local, ops, first, s, rest) && e in s.queue && f in s.queue && e != f
    requires e.data.data.ListInto? && e.text == Text(q) && (forall o <- s.queue :: o.text != Text(LoadKeys(b))) && Childless(s, f)
    ensures EpochEnd(W, store, local, ops, actions, t, rest) && f in t.queue && m in t.queue && m.text == Text(LoadKeys(b)) && Childless(t, f)
  {
    CallbacksAreFit(W);
    var table, more := e.data.data.table, first;
    ListIsCallable(W, s, q, q2, b, p, e);
    more, t, m := RequestIsQueued(W, s, e, f, Add(table, b), Text(LoadKeys(b)), AListOf(Ref(b, Some(table))));
    actions := first + more;
    StillAtEnd(W, store, local, ops, first, s, more, t, rest);
    StillChildless(W, s, t, e, f, m);
  }

  lemma StillChildless<S>(
    W: World<S, Local, Packet, Change>, s: Sys<S, Local, Packet, Change>, t: Sys<S, Local, Packet, Change>, e: Entry<Packet>, f: Entry<Packet>, m: Entry<Packet>)
    requires FlowOk(W, s) && e in s.queue && f in s.queue && e != f && Childless(s, f)
    requires t.calls == s.calls + [m] && m.data.parent == Some(e.data.ticket)
    ensures Childless(t, f)
  {
    TicketsApart(W, s, e, f);
  }

  lemma StillAtEnd<S(!new)>(
    W: World<S, Local, Packet, Change>, store: S, local: Local, ops: seq<Op<Packet>>,
    first: seq<Action<Packet>>, s: Sys<S, Local, Packet, Change>, more: seq<Action<Packet>>, t: Sys<S, Local, Packet, Change>, rest: seq<Op<Packet>>)
    requires CallbacksFit(W) && EpochEnd(W, store, local, ops, first, s, rest)
    requires Reaches(W, s, more, t) && NoClient(more) && t.lanes == Lanes(Free())
    ensures EpochEnd(W, store, local, ops, first + more, t, rest)
  {
    WorkersKeep(W, s, more, t);
    ReachesAppend(W, Initial(store, local), first, s, more, t);
    ProgramAppend(first, more);
    NoClientProgram(more);
    assert Program(first) + [] == Program(first);
  }

  lemma TicketsApart<S, L, D, T>(W: World<S, L, D, T>, s: Sys<S, L, D, T>, e: Entry<D>, f: Entry<D>)
    requires FlowOk(W, s) && e in s.queue && f in s.queue && e != f
    ensures e.data.ticket != f.data.ticket
  {
    OnePlace(W, s, e);
    OnePlace(W, s, f);
    assert s.calls[e.data.ticket] == e && s.calls[f.data.ticket] == f;
  }

  lemma TwoTablesAreNotWhole<S(!new)>(store: S, local: Local, ops: seq<Op<Packet>>, i: nat, j: nat)
    requires OwnProgram(ops) && !Twins(CallsOf(ops, 0)) && i < |CallsOf(ops, 0)| && j < |CallsOf(ops, 0)|
    requires CallsOf(ops, 0)[i].0.data.ListInto? && CallsOf(ops, 0)[j].0.data.ListInto?
    requires CallsOf(ops, 0)[i].0.data != CallsOf(ops, 0)[j].0.data && CallsOf(ops, 0)[i].1 == CallsOf(ops, 0)[j].1
    ensures !LoadsWhole(store, local, ops)
  {
    var calls := CallsOf(ops, 0);
    var q := OwnedList(calls[i].0);
    var q2 := OwnedList(calls[j].0);
    var b := FreshAtom(calls);
    var W: World<S, Local, Packet, Change>, p := Listing(q, q2, b);
    var first, s1, rest, e, f := BothWait(W, store, local, ops, i, j);
    SameTable(calls, i, CmdOf(e), s1.epoch);
    SameTable(calls, j, CmdOf(f), s1.epoch);
    var more, s2, m := QueuesNow(W, store, local, ops, first, s1, rest, q, q2, b, p, e, f);
    var actions, s := Springs(W, store, local, ops, more, s2, rest, q, q2, b, p, f, m);
    var c := CallOfProgram(s.calls, (CmdOf(e), s1.epoch));
    NotBothLists(W, store, local, s, q, q2, b, p, c, f);
    OnePlace(W, s, f);
    Refutes(W, store, local, ops, actions, s, c, f);
  }

  // ---- exactly when ----

  lemma TheTwins(calls: seq<(Cmd<Packet>, nat)>) returns (i: nat, j: nat)
    requires Twins(calls)
    ensures i < |calls| && j < |calls| && SameBetween(calls[i], calls[j])
    ensures calls[i].0.data.ListInto? && calls[j].0.data.ListInto? && calls[i].0.data != calls[j].0.data
  {
    i, j :| 0 <= i < |calls| && 0 <= j < |calls| && SameBetween(calls[i], calls[j]) &&
            calls[i].0.data.ListInto? && calls[j].0.data.ListInto? && calls[i].0.data != calls[j].0.data;
  }

  lemma TheCrossing(calls: seq<(Cmd<Packet>, nat)>) returns (i: nat, j: nat)
    requires Crossed(calls)
    ensures i < |calls| && j < |calls| && calls[i].1 == calls[j].1
    ensures calls[i].0.data.ListInto? && Disturbs(calls, calls[i].0.data.table, j)
  {
    i, j :| 0 <= i < |calls| && 0 <= j < |calls| && calls[i].1 == calls[j].1 &&
            calls[i].0.data.ListInto? && Disturbs(calls, calls[i].0.data.table, j);
  }

  lemma WhenCrossed<S(!new)>(store: S, local: Local, ops: seq<Op<Packet>>)
    requires OwnProgram(ops) && Crossed(CallsOf(ops, 0))
    ensures !LoadsWhole(store, local, ops)
  {
    if Twins(CallsOf(ops, 0)) {
      var i, j := TheTwins(CallsOf(ops, 0));
      TwinsAreNotWhole(store, local, ops, i, j);
    } else {
      var i, j := TheCrossing(CallsOf(ops, 0));
      DisturbedBy(store, local, ops, i, j);
    }
  }

  lemma DisturbedBy<S(!new)>(store: S, local: Local, ops: seq<Op<Packet>>, i: nat, j: nat)
    requires OwnProgram(ops) && !Twins(CallsOf(ops, 0)) && i < |CallsOf(ops, 0)| && j < |CallsOf(ops, 0)|
    requires CallsOf(ops, 0)[i].0.data.ListInto? && CallsOf(ops, 0)[i].1 == CallsOf(ops, 0)[j].1
    requires Disturbs(CallsOf(ops, 0), CallsOf(ops, 0)[i].0.data.table, j)
    ensures !LoadsWhole(store, local, ops)
  {
    if CallsOf(ops, 0)[j].0.data.ListInto? {
      TwoTablesAreNotWhole(store, local, ops, i, j);
    } else {
      LedIsNotWhole(store, local, ops, i, j);
    }
  }

  /** Exactly which programs load their lists whole, on every server and under every schedule: those in
      which, between two barriers with a list, all lists are for one table, and no key request that is the
      first with its text is made for another packet than that of the listed atom in that table. */
  lemma LoadsWholeExactly<S(!new)>(store: S, local: Local, ops: seq<Op<Packet>>)
    requires OwnProgram(ops)
    ensures LoadsWhole(store, local, ops) <==> !Crossed(CallsOf(ops, 0))
  {
    if Crossed(CallsOf(ops, 0)) {
      WhenCrossed(store, local, ops);
    } else {
      forall W: World<S, Local, Packet, Change>, actions, s | RunOf(W, store, local, ops, actions, s) ensures Whole(W, store, s) {
        forall c | c in s.calls && c.data.data.ListInto? ensures ListIsWhole(W, store, s, c) {
          UnlessCrossed(W, store, local, ops, actions, s, c);
        }
      }
    }
  }

  // ---- the shortest programs ----

  lemma TwoCalls<D>(c: Cmd<D>, d: Cmd<D>)
    ensures CallsOf([Do(c), Do(d)], 0) == [(c, 0), (d, 0)]
  {
    assert [Do(c), Do(d)][1..] == [Do(d)] && [Do(d)][1..] == [];
    assert CallsOf([Do(d)], 0) == [(d, 0)];
  }

  lemma ThreeCalls<D>(f: Cmd<D>, g: Cmd<D>, c: Cmd<D>)
    ensures CallsOf([Do(f), Do(g), Do(c)], 0) == [(f, 0), (g, 0), (c, 0)]
  {
    assert [Do(f), Do(g), Do(c)][1..] == [Do(g), Do(c)];
    TwoCalls(g, c);
  }

  lemma ListCmd(q: Command, table: nat)
    requires Proper(q) && ListsAtoms(q)
    ensures Owned(CmdFor(q, table)) && CmdFor(q, table).data == ListInto(table)
  {
  }

  /** Two lists beside each other. */
  lemma TwoListsExactly<S(!new)>(store: S, local: Local, q: Command, m: nat, q2: Command, n: nat)
    requires Proper(q) && ListsAtoms(q) && Proper(q2) && ListsAtoms(q2)
    ensures LoadsWhole(store, local, [Do(CmdFor(q, m)), Do(CmdFor(q2, n))]) <==> m == n
  {
    ListCmd(q, m);
    ListCmd(q2, n);
    TwoBeside(store, local, CmdFor(q, m), CmdFor(q2, n));
  }

  lemma TwoBeside<S(!new)>(store: S, local: Local, c: Cmd<Packet>, d: Cmd<Packet>)
    requires Owned(c) && Owned(d) && c.data.ListInto? && d.data.ListInto?
    ensures LoadsWhole(store, local, [Do(c), Do(d)]) <==> c.data == d.data
  {
    TwoCalls(c, d);
    ListsCross(c, d);
    LoadsWholeExactly(store, local, [Do(c), Do(d)]);
  }

  lemma ListsCross(c: Cmd<Packet>, d: Cmd<Packet>)
    requires c.data.ListInto? && d.data.ListInto?
    ensures Crossed([(c, 0), (d, 0)]) <==> c.data != d.data
  {
    var calls := [(c, 0), (d, 0)];
    if c.data != d.data {
      assert calls[0].1 == calls[1].1 && Disturbs(calls, calls[0].0.data.table, 1);
    }
  }

  /** What a single fetch asks for beside a list for `table`. */
  lemma FetchForOther(a: Atom, m: nat, table: nat)
    requires WellFormed(a)
    ensures Owned(CmdFor(FetchKeys(a), m)) && CmdFor(FetchKeys(a), m).data == AListOf(Ref(a, Some(m)))
    ensures AsksForOther(CmdFor(FetchKeys(a), m), table) <==> Misleading(a) || (m != table && Text(FetchKeys(a)) == Text(LoadKeys(a)))
  {
    var r := CmdFor(FetchKeys(a), m);
    assert Proper(FetchKeys(a));
    forall b | WellFormed(b) ensures r.text == Text(LoadKeys(b)) && b != a <==> Misleading(a) && b == MistakenFor(a) {
      SameKeysAtom(FetchKeys(a), LoadKeys(b));
      MisleadingExactly(a, b);
    }
    if Misleading(a) {
      MistakenIs(a);
      assert r.text == Text(LoadKeys(MistakenFor(a)));
    }
    if Text(FetchKeys(a)) == Text(LoadKeys(a)) {
      NotMisleading(a);
    }
  }

  lemma NotMisleading(b: Atom)
    requires WellFormed(b) && Text(FetchKeys(b)) == Text(LoadKeys(b))
    ensures !Misleading(b)
  {
    SameKeysAtom(FetchKeys(b), LoadKeys(b));
    if Misleading(b) {
      MistakenIs(b);
      MisleadingExactly(b, MistakenFor(b));
      PrintedAtomsDiffer(b, MistakenFor(b), "", "");
    }
  }

  /** A list and one fetch beside it: in one table the fetch disturbs exactly if its name is misleading,
      and in another exactly if it has the text of a key request. */
  lemma OneFetchExactly<S(!new)>(store: S, local: Local, q: Command, table: nat, a: Atom, m: nat)
    requires Proper(q) && ListsAtoms(q) && WellFormed(a)
    ensures LoadsWhole(store, local, [Do(CmdFor(q, table)), Do(CmdFor(FetchKeys(a), m))])
            <==> !Misleading(a) && (m == table || Text(FetchKeys(a)) != Text(LoadKeys(a)))
  {
    ListCmd(q, table);
    FetchForOther(a, m, table);
    ListKindsDiffer(q, a);
    ListAndFetch(store, local, CmdFor(q, table), CmdFor(FetchKeys(a), m));
  }

  lemma ListKindsDiffer(q: Command, a: Atom)
    requires ListsAtoms(q)
    ensures Text(q) != Text(FetchKeys(a))
  {
    if Text(q) == Text(FetchKeys(a)) {
      TextsOfOneKind(q, FetchKeys(a));
    }
  }

  lemma ListAndFetch<S(!new)>(store: S, local: Local, c: Cmd<Packet>, d: Cmd<Packet>)
    requires Owned(c) && Owned(d) && c.data.ListInto? && !d.data.ListInto? && c.text != d.text
    ensures LoadsWhole(store, local, [Do(c), Do(d)]) <==> !AsksForOther(d, c.data.table)
  {
    TwoCalls(c, d);
    FetchCrosses(c, d);
    LoadsWholeExactly(store, local, [Do(c), Do(d)]);
  }

  lemma FetchCrosses(c: Cmd<Packet>, d: Cmd<Packet>)
    requires c.data.ListInto? && !d.data.ListInto? && c.text != d.text
    ensures Crossed([(c, 0), (d, 0)]) <==> AsksForOther(d, c.data.table)
  {
    var calls := [(c, 0), (d, 0)];
    assert Leads(calls, 1);
    if AsksForOther(d, c.data.table) {
      assert calls[0].1 == calls[1].1 && Disturbs(calls, calls[0].0.data.table, 1);
    }
  }

  /** If the atom that a fetch is mistaken for is fetched first, the list is loaded whole all the same. */
  lemma OwnFetchProtects<S(!new)>(store: S, local: Local, q: Command, table: nat, a: Atom, b: Atom)
    requires Proper(q) && ListsAtoms(q) && WellFormed(a) && WellFormed(b) && Text(FetchKeys(a)) == Text(FetchKeys(b)) == Text(LoadKeys(b))
    ensures LoadsWhole(store, local,
                       [Do(CmdFor(FetchKeys(b), table)), Do(CmdFor(FetchKeys(a), table)), Do(CmdFor(q, table))])
  {
    ListCmd(q, table);
    FetchForOther(a, table, table);
    FetchForOther(b, table, table);
    NotMisleading(b);
    FirstProtects(store, local, CmdFor(FetchKeys(b), table), CmdFor(FetchKeys(a), table), CmdFor(q, table));
  }

  lemma FirstProtects<S(!new)>(store: S, local: Local, f: Cmd<Packet>, g: Cmd<Packet>, c: Cmd<Packet>)
    requires Owned(f) && Owned(g) && Owned(c) && c.data.ListInto? && !f.data.ListInto? && !g.data.ListInto?
    requires f.text == g.text && !AsksForOther(f, c.data.table)
    ensures LoadsWhole(store, local, [Do(f), Do(g), Do(c)])
  {
    ThreeCalls(f, g, c);
    NothingDisturbs(f, g, c);
    LoadsWholeExactly(store, local, [Do(f), Do(g), Do(c)]);
  }

  lemma NothingDisturbs(f: Cmd<Packet>, g: Cmd<Packet>, c: Cmd<Packet>)
    requires c.data.ListInto? && !f.data.ListInto? && !g.data.ListInto? && f.text == g.text && !AsksForOther(f, c.data.table)
    ensures !Crossed([(f, 0), (g, 0), (c, 0)])
  {
    var calls := [(f, 0), (g, 0), (c, 0)];
    assert SameBetween(calls[0], calls[1]);
  }
}
