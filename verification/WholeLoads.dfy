/** Loading lists: programs in which nothing disturbs a list load their lists whole, on every server and
    under every schedule. */
module WholeLoads {
  import opened Wrappers
  import opened Sexpr
  import opened ListScan
  import opened Commands
  import opened MsgOrder
  import opened Protocol
  import opened SimpleBackend
  import opened History
  import opened Refinement
  import opened CogIO
  import opened Load
  import opened Repeats
  import opened OneList
  import Lazy
  import Origins

  // ---- programs ----

  /** A request for some atom's keys that is made for another packet than that atom's in `table`. */
  ghost predicate AsksForOther(r: Cmd<Packet>, table: nat)
  {
    exists b :: WellFormed(b) && r.text == Text(LoadKeys(b)) && r.data != AListOf(Ref(b, Some(table)))
  }

  /** A list for another table, or a first key request for another packet. */
  ghost predicate Disturbs(calls: seq<(Cmd<Packet>, nat)>, table: nat, j: nat)
    requires j < |calls|
  {
    if calls[j].0.data.ListInto? then calls[j].0.data.table != table else Leads(calls, j) && AsksForOther(calls[j].0, table)
  }

  /** Between the same two barriers a list is requested into a table, and something that disturbs it. */
  ghost predicate Crossed(calls: seq<(Cmd<Packet>, nat)>)
  {
    exists i, j :: 0 <= i < |calls| && 0 <= j < |calls| && calls[i].1 == calls[j].1 &&
                   calls[i].0.data.ListInto? && Disturbs(calls, calls[i].0.data.table, j)
  }

  ghost predicate OwnProgram(ops: seq<Op<Packet>>)
  {
    forall p <- CallsOf(ops, 0) :: Owned(p.0)
  }

  /** The lists asked for have been loaded whole, into the tables they were asked for. */
  ghost predicate Whole<S>(W: World<S, Local, Packet, Change>, store: S, s: Sys<S, Local, Packet, Change>)
  {
    forall c <- s.calls :: c.data.data.ListInto? ==> ListIsWhole(W, store, s, c)
  }

  ghost predicate ListIsWhole<S>(W: World<S, Local, Packet, Change>, store: S, s: Sys<S, Local, Packet, Change>, c: Entry<Packet>)
    requires c.data.data.ListInto?
  {
    exists r <- s.log :: r.text == c.text && r.data.epoch == c.data.epoch &&
      forall e <- DecodedList(AtomIn, ReplyTo(W, store, s.log, r)).0 :: Loaded(W, store, s, c.data.data.table, e.atom, c.data.epoch)
  }

  /** A run of the program up to where a barrier can return, on a server that prints its lists. */
  ghost predicate RunOf<S(!new)>(
    W: World<S, Local, Packet, Change>, store: S, local: Local, ops: seq<Op<Packet>>,
    actions: seq<Action<Packet>>, s: Sys<S, Local, Packet, Change>)
  {
    && IsCogWorld(W) && W.unique == TakesSequence && PrintsLists(W)
    && Reachable(W, store, local, actions, s) && Drained(s) && Program(actions) == ops
  }

  /** However the workers are scheduled and whatever the server holds, the lists are loaded whole. */
  ghost predicate LoadsWhole<S(!new)>(store: S, local: Local, ops: seq<Op<Packet>>)
  {
    forall W: World<S, Local, Packet, Change>, actions, s :: RunOf(W, store, local, ops, actions, s) ==> Whole(W, store, s)
  }

  // ---- what is called ----

  ghost predicate AllOwned<S>(s: Sys<S, Local, Packet, Change>)
  {
    forall e <- s.calls :: Owned(CmdOf(e))
  }

  lemma OwnedIsHereditary<S(!new)>(W: World<S, Local, Packet, Change>)
    requires IsCogWorld(W) && PrintsLists(W)
    ensures Origins.Hereditary(W, (r: Cmd<Packet>) => Owned(r))
  {
    forall r: Cmd<Packet>, x: S, a: Act<Packet, Change> | Owned(r) && a in Acts(W, r, x) && a.Request?
      ensures Owned(Cmd(a.text, a.data))
    {
      var c, table: nat :| Proper(c) && r == CmdFor(c, table);
      var h := RequestsAreForKeys(W, table, c, x, a);
      assert Proper(LoadKeys(h));
    }
  }

  lemma CallsAreOwned<S(!new)>(W: World<S, Local, Packet, Change>, store: S, local: Local, s: Sys<S, Local, Packet, Change>)
    requires IsCogWorld(W) && PrintsLists(W) && Sound(W, store, local, s) && forall p <- Issued(s.calls) :: Owned(p.0)
    ensures AllOwned(s)
  {
    OwnedIsHereditary(W);
    var p := (r: Cmd<Packet>) => Owned(r);
    forall e | e in s.calls ensures p(CmdOf(e)) {
      Origins.EveryCall(W, store, local, s, p, e);
    }
  }

  /** A call made by a callback is the key request of a listed atom, in the table of the list. */
  lemma ChildIsKeys<S(!new)>(
    W: World<S, Local, Packet, Change>, store: S, local: Local, s: Sys<S, Local, Packet, Change>, e: Entry<Packet>)
    returns (h: Atom, parent: Entry<Packet>)
    requires IsCogWorld(W) && PrintsLists(W) && Sound(W, store, local, s) && AllOwned(s)
    requires e in s.calls && e.data.parent.Some?
    ensures WellFormed(h) && parent in s.calls && parent in s.log && parent.data.data.ListInto? && parent.data.epoch == e.data.epoch
    ensures CmdOf(e) == CmdFor(LoadKeys(h), parent.data.data.table) && e.data.parent == Some(parent.data.ticket)
  {
    var x;
    parent, x := Origins.ParentAsked(W, store, local, s, e);
    h := AskedForKeys(W, CmdOf(parent), x, Request(e.text, e.noreply, e.data.data));
  }

  lemma AskedForKeys<S(!new)>(W: World<S, Local, Packet, Change>, r: Cmd<Packet>, x: S, a: Act<Packet, Change>) returns (h: Atom)
    requires IsCogWorld(W) && PrintsLists(W) && Owned(r) && a in Acts(W, r, x) && a.Request?
    ensures WellFormed(h) && r.data.ListInto? && Cmd(a.text, a.data) == CmdFor(LoadKeys(h), r.data.table)
  {
    var e := CallbackRequests(r.data, W.answer(r.text, x), a);
    var q := OwnedList(r);
    h := RequestsAreForKeys(W, r.data.table, q, x, a);
  }

  lemma ListsAreClients<S(!new)>(
    W: World<S, Local, Packet, Change>, store: S, local: Local, s: Sys<S, Local, Packet, Change>, c: Entry<Packet>)
    requires IsCogWorld(W) && PrintsLists(W) && Sound(W, store, local, s) && AllOwned(s)
    requires c in s.calls && c.data.data.ListInto?
    ensures c.data.parent.None? && (CmdOf(c), c.data.epoch) in Issued(s.calls)
  {
    if c.data.parent.Some? {
      var h, parent := ChildIsKeys(W, store, local, s, c);
      KeysPacket(CmdOf(c), h, parent.data.data.table);
    }
    IssuedMember(s.calls, (CmdOf(c), c.data.epoch));
  }

  // ---- programs that are not crossed ----

  /** In an epoch all lists are for one table. */
  lemma OneTable<S(!new)>(
    W: World<S, Local, Packet, Change>, store: S, local: Local, s: Sys<S, Local, Packet, Change>, c: Entry<Packet>, d: Entry<Packet>)
    requires IsCogWorld(W) && PrintsLists(W) && Sound(W, store, local, s) && AllOwned(s) && !Crossed(Issued(s.calls))
    requires c in s.calls && c.data.data.ListInto? && d in s.calls && d.data.data.ListInto? && c.data.epoch == d.data.epoch
    ensures c.data.data == d.data.data
  {
    ListsAreClients(W, store, local, s, c);
    ListsAreClients(W, store, local, s, d);
    ListsTogether(Issued(s.calls), (CmdOf(c), c.data.epoch), (CmdOf(d), d.data.epoch));
  }

  lemma ListsTogether(calls: seq<(Cmd<Packet>, nat)>, p: (Cmd<Packet>, nat), q: (Cmd<Packet>, nat))
    requires !Crossed(calls) && p in calls && q in calls && p.0.data.ListInto? && q.0.data.ListInto? && p.1 == q.1
    ensures p.0.data == q.0.data
  {
    var i :| 0 <= i < |calls| && calls[i] == p;
    var j :| 0 <= j < |calls| && calls[j] == q;
    assert calls[i].1 == calls[j].1;
  }

  lemma ListIsLed<S(!new)>(
    W: World<S, Local, Packet, Change>, store: S, local: Local, s: Sys<S, Local, Packet, Change>, c: Entry<Packet>)
    requires IsCogWorld(W) && PrintsLists(W) && Sound(W, store, local, s) && AllOwned(s) && !Crossed(Issued(s.calls))
    requires c in s.calls && c.data.data.ListInto?
    ensures Led(s, c)
  {
    var q := OwnedList(CmdOf(c));
    forall f | f in s.calls && Lazy.SameCall(f, c) ensures f.data.data == c.data.data {
      ListText(CmdOf(f), q);
      OneTable(W, store, local, s, f, c);
    }
  }

  lemma FirstIsOwn<S(!new)>(
    W: World<S, Local, Packet, Change>, store: S, local: Local, s: Sys<S, Local, Packet, Change>, c: Entry<Packet>, f: Entry<Packet>, b: Atom)
    requires IsCogWorld(W) && PrintsLists(W) && Sound(W, store, local, s) && AllOwned(s) && !Crossed(Issued(s.calls))
    requires c in s.calls && c.data.data.ListInto? && IsFirst(s, f) && f.data.epoch == c.data.epoch
    requires WellFormed(b) && f.text == Text(LoadKeys(b))
    ensures f.data.data == AListOf(Ref(b, Some(c.data.data.table)))
  {
    if f.data.parent.Some? {
      var h, parent := ChildIsKeys(W, store, local, s, f);
      OneTable(W, store, local, s, parent, c);
      SameKeys(h, b);
      KeysPacket(CmdOf(f), h, c.data.data.table);
    } else {
      ClientIsOwn(W, store, local, s, c, f, b);
    }
  }

  lemma ClientIsOwn<S(!new)>(
    W: World<S, Local, Packet, Change>, store: S, local: Local, s: Sys<S, Local, Packet, Change>, c: Entry<Packet>, f: Entry<Packet>, b: Atom)
    requires IsCogWorld(W) && PrintsLists(W) && Sound(W, store, local, s) && AllOwned(s) && !Crossed(Issued(s.calls))
    requires c in s.calls && c.data.data.ListInto? && IsFirst(s, f) && f.data.epoch == c.data.epoch && f.data.parent.None?
    requires WellFormed(b) && f.text == Text(LoadKeys(b))
    ensures f.data.data == AListOf(Ref(b, Some(c.data.data.table)))
  {
    var calls := Issued(s.calls);
    ListsAreClients(W, store, local, s, c);
    var i :| 0 <= i < |calls| && calls[i] == (CmdOf(c), c.data.epoch);
    var j := FirstLeads(W, s, f);
    KeysAreNoList(CmdOf(f), b);
    assert !Disturbs(calls, calls[i].0.data.table, j) by { assert calls[i].1 == calls[j].1; }
  }

  lemma KeysAreNoList(r: Cmd<Packet>, b: Atom)
    requires Owned(r) && r.text == Text(LoadKeys(b))
    ensures !r.data.ListInto?
  {
    if r.data.ListInto? {
      ListTextKind(r, b);
    }
  }

  lemma KeysAreLed<S(!new)>(
    W: World<S, Local, Packet, Change>, store: S, local: Local, s: Sys<S, Local, Packet, Change>, c: Entry<Packet>)
    requires IsCogWorld(W) && PrintsLists(W) && Sound(W, store, local, s) && AllOwned(s) && !Crossed(Issued(s.calls))
    requires c in s.calls && c.data.data.ListInto?
    ensures KeysLed(s, c.data.data.table, c.data.epoch)
  {
    forall d, f | d in s.calls && d.data.epoch == c.data.epoch && AsksOwnKeys(d, c.data.data.table)
                  && f in s.calls && IsFirst(s, f) && Lazy.SameCall(f, d)
      ensures f.data.data == d.data.data
    {
      OwnedKeys(CmdOf(d));
      FirstIsOwn(W, store, local, s, c, f, d.data.data.h.atom);
    }
  }

  lemma UnlessCrossed<S(!new)>(
    W: World<S, Local, Packet, Change>, store: S, local: Local, ops: seq<Op<Packet>>,
    actions: seq<Action<Packet>>, s: Sys<S, Local, Packet, Change>, c: Entry<Packet>)
    requires RunOf(W, store, local, ops, actions, s) && OwnProgram(ops) && !Crossed(CallsOf(ops, 0))
    requires c in s.calls && c.data.data.ListInto?
    ensures ListIsWhole(W, store, s, c)
  {
    CallbacksAreFit(W);
    ProgramIssued(W, store, local, actions, s);
    CallsAreOwned(W, store, local, s);
    ListIsLed(W, store, local, s, c);
    KeysAreLed(W, store, local, s, c);
    LedIsWhole(W, store, local, actions, s, c);
  }

  lemma LedIsWhole<S(!new)>(
    W: World<S, Local, Packet, Change>, store: S, local: Local, actions: seq<Action<Packet>>, s: Sys<S, Local, Packet, Change>, c: Entry<Packet>)
    requires IsCogWorld(W) && PrintsLists(W) && Reachable(W, store, local, actions, s) && Drained(s) && AllOwned(s)
    requires c in s.calls && c.data.data.ListInto? && Led(s, c) && KeysLed(s, c.data.data.table, c.data.epoch)
    ensures ListIsWhole(W, store, s, c)
  {
    var q := OwnedList(CmdOf(c));
    var r := LoadIsComplete(W, store, local, actions, s, c.data.data.table, c, q);
  }
}
