/** A server that lists a single atom, and what the client's callbacks do with its answers. */
module OneList {
  import opened Wrappers
  import opened Sexpr
  import opened ListScan
  import opened AList
  import opened RawNames
  import opened Commands
  import opened MsgOrder
  import opened Protocol
  import opened SimpleBackend
  import opened History
  import opened CogIO
  import Gaps
  import Merging

  /** A server that answers two requests with a list of one atom, on which it has one value, and that has
      nothing else. */
  ghost function OneAtomServer<S>(q: Command, q2: Command, b: Atom, p: Pair): World<S, Local, Packet, Change>
  {
    CogWorld(TakesSequence, (t: string, x: S) => x,
             (t: string, x: S) => if t == Text(q) || t == Text(q2) then OneAtomList(b)
                                else if t == Text(LoadKeys(b)) then ValuesText([p]) else "")
  }

  function OneAtomList(b: Atom): string
  {
    "(" + (Listed([b], [""]) + "") + ")" + "\n"
  }

  lemma OneAtomListed(b: Atom)
    requires WellFormed(b)
    ensures DecodedList(AtomIn, OneAtomList(b)).0 == [Element(b, Print(b))]
  {
    ListScanInvertsPrinting([b], [""], "", "\n");
    assert AsElements([b]) == [Element(b, Print(b))];
  }

  lemma NothingListed()
    ensures DecodedList(AtomIn, "").0 == []
  {
  }

  lemma OneAtomServerPrints<S(!new)>(q: Command, q2: Command, b: Atom, p: Pair)
    requires WellFormed(b)
    ensures PrintsLists(OneAtomServer<S>(q, q2, b, p))
  {
    forall c: Command, x: S | Proper(c) && ListsAtoms(c) ensures PrintedList(OneAtomServer<S>(q, q2, b, p).answer(Text(c), x)) {
      ListKinds(c, b);
      AnswerPrinted(q, q2, b, p, Text(c), x);
    }
  }

  lemma AnswerPrinted<S>(q: Command, q2: Command, b: Atom, p: Pair, t: string, x: S)
    requires WellFormed(b) && t != Text(LoadKeys(b))
    ensures PrintedList(OneAtomServer<S>(q, q2, b, p).answer(t, x))
  {
    OneAtomPrinted(b);
  }

  lemma OneAtomPrinted(b: Atom)
    requires WellFormed(b)
    ensures PrintedList(OneAtomList(b)) && PrintedList("")
  {
    OneAtomListed(b);
    NothingListed();
  }

  lemma OnePairRead(p: Pair)
    requires PairFits(p)
    ensures Pairs(SexprPairs(), ValuesText([p])).0 == [p]
  {
    ReadValuesText([p]);
  }

  lemma ListOfOne(table: nat, e: Element)
    ensures ListPlan(table, [e])
         == [Touch(Add(table, e.atom))] + [Request(KeysText(e.text), false, AListOf(Ref(e.atom, Some(table))))]
  {
    var more := ListPlan(table, [e][1..]);
    assert [e][1..] == [] && more == [];
  }

  lemma OneAtomCallback(table: nat, b: Atom)
    requires WellFormed(b)
    ensures Callback(ListInto(table), OneAtomList(b))
         == [Touch(Add(table, b))] + [Request(Text(LoadKeys(b)), false, AListOf(Ref(b, Some(table))))]
  {
    OneAtomListed(b);
    KeysTextIs(b);
    ListOfOne(table, Element(b, Print(b)));
  }

  lemma OnePairCallback(h: Ref, p: Pair)
    requires PairFits(p)
    ensures Callback(AListOf(h), ValuesText([p])) == [Touch(PutPair(h, p))]
  {
    OnePairRead(p);
    assert AListPlan(h, [p])[0] == Touch(PutPair(h, p));
  }

  lemma ListKinds(q: Command, b: Atom)
    requires ListsAtoms(q)
    ensures Replies(Text(q)) && Replies(Text(LoadKeys(b))) && Text(q) != Text(LoadKeys(b))
  {
    RepliesAre(q);
    RepliesAre(LoadKeys(b));
    if Text(q) == Text(LoadKeys(b)) {
      TextsOfOneKind(q, LoadKeys(b));
    }
  }

  lemma MistakenIs(a: Atom)
    requires WellFormed(a) && Misleading(a)
    ensures WellFormed(MistakenFor(a)) && MistakenFor(a) != a
  {
    MisleadingExactly(a, MistakenFor(a));
  }

  /** A node with a misleading name, fetched by itself while a list is being loaded in the same table:
      the listed atom it is mistaken for never gets its values. */
  lemma MistakenFetchLosesAnAnswer<S(!new)>(store: S, local: Local, table: nat, q: Command, a: Atom, p: Pair)
    returns (W: World<S, Local, Packet, Change>, actions: seq<Action<Packet>>, s: Sys<S, Local, Packet, Change>)
    requires Proper(q) && ListsAtoms(q) && WellFormed(a) && Misleading(a) && PairFits(p)
    ensures W == OneAtomServer(q, q, MistakenFor(a), p) && Reachable(W, store, local, actions, s) && Quiescent(s)
    ensures Program(actions) == [Do(CmdFor(q, table)), Do(CmdFor(FetchKeys(a), table))]
    ensures s.touches == [(Add(table, MistakenFor(a)), 0), (PutPair(Ref(a, Some(table)), p), 0)]
    ensures |s.calls| == 3 && s.calls[0].text == Text(q) && s.calls[0].data == Tag(ListInto(table), 0, 0, None)
    ensures |s.log| == 2 && s.log[0].text == Text(q) && s.log[1].text == Text(LoadKeys(MistakenFor(a)))
  {
    var b := MistakenFor(a);
    W := OneAtomServer(q, q, b, p);
    MistakenIs(a);
    MistakenPacket(table, FetchKeys(a), LoadKeys(b));
    Gaps.NothingTakesSequence(q);
    Gaps.NothingTakesSequence(LoadKeys(b));
    ListKinds(q, b);
    OneAtomCallback(table, b);
    OnePairCallback(Ref(a, Some(table)), p);
    actions, s := Merging.CallbackPacketIsLost(
      W, store, local, Text(q), ListInto(table), Add(table, b), Text(LoadKeys(b)), AListOf(Ref(b, Some(table))),
      AListOf(Ref(a, Some(table))), PutPair(Ref(a, Some(table)), p));
  }

  // ---- requests and their owners ----

  /** A request made for some proper command on the atoms of some table. */
  ghost predicate Owned(r: Cmd<Packet>)
  {
    exists c, table: nat :: Proper(c) && r == CmdFor(c, table)
  }

  lemma OwnedList(r: Cmd<Packet>) returns (q: Command)
    requires Owned(r) && r.data.ListInto?
    ensures Proper(q) && ListsAtoms(q) && r == CmdFor(q, r.data.table)
  {
    var c, table: nat :| Proper(c) && r == CmdFor(c, table);
    q := c;
  }

  lemma OwnedKeys(r: Cmd<Packet>)
    requires Owned(r) && r.data.AListOf?
    ensures WellFormed(r.data.h.atom) && r.data.h.table.Some?
  {
    var c, table: nat :| Proper(c) && r == CmdFor(c, table);
  }

  /** A list request has the text of no other command. */
  lemma ListText(r: Cmd<Packet>, q: Command)
    requires Owned(r) && Proper(q) && ListsAtoms(q) && r.text == Text(q)
    ensures r.data.ListInto? && r == CmdFor(q, r.data.table)
  {
    var c, table: nat :| Proper(c) && r == CmdFor(c, table);
    SameTextExactly(c, q);
  }

  lemma KeysPacket(r: Cmd<Packet>, h: Atom, table: nat)
    requires r == CmdFor(LoadKeys(h), table)
    ensures r.data == AListOf(Ref(h, Some(table)))
  {
  }

  lemma SameKeys(h: Atom, b: Atom)
    requires WellFormed(h) && WellFormed(b) && Text(LoadKeys(h)) == Text(LoadKeys(b))
    ensures h == b
  {
    SameTextExactly(LoadKeys(h), LoadKeys(b));
  }

  // ---- who asks, and who puts ----

  lemma OtherAnswer<S>(q: Command, q2: Command, b: Atom, p: Pair, t: string, x: S)
    requires t != Text(q) && t != Text(q2) && t != Text(LoadKeys(b))
    ensures OneAtomServer<S>(q, q2, b, p).answer(t, x) == ""
  {
  }

  /** Only the lists' callbacks request anything. */
  lemma OnlyTheListsAsk<S>(q: Command, q2: Command, b: Atom, p: Pair, r: Cmd<Packet>, x: S, act: Act<Packet, Change>)
    requires Owned(r) && act in Acts(OneAtomServer<S>(q, q2, b, p), r, x) && act.Request?
    ensures (r.text == Text(q) || r.text == Text(q2)) && r.data.ListInto?
  {
    var W := OneAtomServer<S>(q, q2, b, p);
    var e := CallbackRequests(r.data, W.answer(r.text, x), act);
    ListTextKind(r, b);
    if r.text != Text(q) && r.text != Text(q2) {
      OtherAnswer(q, q2, b, p, r.text, x);
      NothingListed();
    }
  }

  lemma ListTextKind(r: Cmd<Packet>, b: Atom)
    requires Owned(r) && r.data.ListInto?
    ensures r.text != Text(LoadKeys(b))
  {
    var q := OwnedList(r);
    ListKinds(q, b);
  }

  /** Only a callback for the atom itself puts its pair on it. */
  lemma OnlyKeysPut<S>(q: Command, q2: Command, b: Atom, p: Pair, h: Ref, r: Cmd<Packet>, x: S)
    requires Owned(r) && Proper(q) && ListsAtoms(q) && Proper(q2) && ListsAtoms(q2)
    requires Touch(PutPair(h, p)) in Acts(OneAtomServer<S>(q, q2, b, p), r, x)
    ensures r.text == Text(LoadKeys(b)) && r.data == AListOf(h)
  {
    var reply := OneAtomServer<S>(q, q2, b, p).answer(r.text, x);
    PutByKeys(r.data, reply, h, p);
    NotListText(r, q, b);
    NotListText(r, q2, b);
    if r.text != Text(LoadKeys(b)) {
      OtherAnswer(q, q2, b, p, r.text, x);
    }
  }

  lemma PutByKeys(d: Packet, reply: string, h: Ref, p: Pair)
    requires Touch(PutPair(h, p)) in Callback(d, reply)
    ensures (d == AListOf(h) || d.ValueFor?) && reply != ""
  {
    if d.ListInto? {
      ListPlanHas(d.table, DecodedList(AtomIn, reply).0, Touch(PutPair(h, p)));
    }
    NoPairs();
  }

  lemma NoPairs()
    ensures Pairs(SexprPairs(), "").0 == [] && ReplyValue("") == None
  {
  }

  lemma NotListText(r: Cmd<Packet>, q: Command, b: Atom)
    requires Owned(r) && (r.data.AListOf? || r.data.ValueFor?) && Proper(q) && ListsAtoms(q)
    ensures r.text != Text(q) && (r.data.ValueFor? ==> r.text != Text(LoadKeys(b)))
  {
    var c, table: nat :| Proper(c) && r == CmdFor(c, table);
    if r.text == Text(q) {
      ListText(r, q);
    }
    if r.text == Text(LoadKeys(b)) {
      TextsOfOneKind(c, LoadKeys(b));
    }
  }
}
