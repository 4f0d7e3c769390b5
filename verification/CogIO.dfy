/** The client's commands over the channel: packets, callbacks, and the local atom tables. */
module CogIO {
  import opened Wrappers
  import opened Sexpr
  import opened ListScan
  import opened AList
  import opened RawNames
  import opened Commands
  import opened Protocol
  import opened SimpleBackend
  import Drain
  import Origins

  /** An atom as the client holds it, in a table or in none. */
  datatype Ref = Ref(atom: Atom, table: Option<nat>)

  /** What travels with a request: which callback gets the reply, and what for. */
  datatype Packet = Nothing | ListInto(table: nat) | AListOf(h: Ref) | ValueFor(h: Ref, key: Atom)

  /** A change made by a callback.  Putting a value makes the atoms `housed` members of the table. */
  datatype Change = Add(table: nat, atom: Atom) | Put(h: Ref, key: Atom, value: Option<Value>, housed: set<Atom>)

  datatype Local = Local(members: set<(nat, Atom)>, values: map<(Ref, Atom), Value>)

  function InTable(table: Option<nat>, atoms: set<Atom>): set<(nat, Atom)>
  {
    if table.None? then {} else set a <- atoms :: (table.value, a)
  }

  function Apply(ch: Change, l: Local): Local
  {
    match ch
    case Add(table, atom) => l.(members := l.members + {(table, atom)})
    case Put(h, key, value, housed) =>
      Local(l.members + InTable(h.table, housed),
            if value.None? then l.values - {(h, key)} else l.values[(h, key) := value.value])
  }

  // ---- callbacks ----

  function KeysText(atom: string): string
  {
    "(cog-keys->alist " + atom + ")\n"
  }

  /** For every atom listed: a place in the table, and a request for its keys and values. */
  function ListPlan(table: nat, elements: seq<Element>): (acts: seq<Act<Packet, Change>>)
  {
    if elements == [] then []
    else
      var e := elements[0];
      [Touch(Add(table, e.atom)), Request(KeysText(e.text), false, AListOf(Ref(e.atom, Some(table))))] + ListPlan(table, elements[1..])
  }

  function PutPair(h: Ref, p: Pair): Change
  {
    Put(h, p.key, Some(p.value), Members(p, h.atom))
  }

  function AListPlan(h: Ref, pairs: seq<Pair>): (acts: seq<Act<Packet, Change>>)
    ensures |acts| == |pairs|
  {
    seq(|pairs|, i requires 0 <= i < |pairs| => Touch(PutPair(h, pairs[i])))
  }

  /** A reply that is not a value counts as none. */
  function ReplyValue(reply: string): Option<Value>
  {
    var v := ParseValue(reply);
    if v.None? then None else Some(v.value.0)
  }

  function Callback(d: Packet, reply: string): seq<Act<Packet, Change>>
  {
    match d
    case Nothing => []
    case ListInto(table) => ListPlan(table, DecodedList(AtomIn, reply).0)
    case AListOf(h) => AListPlan(h, Pairs(SexprPairs(), reply).0)
    case ValueFor(h, key) =>
      var v := ReplyValue(reply);
      [Touch(Put(h, key, v, if v.None? then {} else AtomsIn(v.value)))]
  }

  /** Texts that are sent without waiting for a reply. */
  predicate Replies(text: string)
  {
    !("(cog-set-value" <= text) && !("(cog-update-value!" <= text)
  }

  function Rank(d: Packet): nat
  {
    if d.ListInto? then 1 else 0
  }

  /** The world of the channel for any server and any rule for numbering messages. */
  function CogWorld<S>(unique: string -> bool, effect: (string, S) -> S, answer: (string, S) -> string): World<S, Local, Packet, Change>
  {
    World(unique, Replies, effect, answer, Callback, Apply, Rank)
  }

  ghost predicate IsCogWorld<S>(W: World<S, Local, Packet, Change>)
  {
    W == CogWorld(W.unique, W.effect, W.answer)
  }

  lemma KeysTextReplies(atom: string)
    ensures Replies(KeysText(atom))
  {
    assert KeysText(atom)[5] == 'k' && "(cog-set-value"[5] == 's' && "(cog-update-value!"[5] == 'u';
  }

  lemma {:induction false} ListPlanHas(table: nat, elements: seq<Element>, a: Act<Packet, Change>)
    ensures a in ListPlan(table, elements) <==>
            exists e <- elements :: a == Touch(Add(table, e.atom))
                                    || a == Request(KeysText(e.text), false, AListOf(Ref(e.atom, Some(table))))
  {
    if elements != [] {
      ListPlanHas(table, elements[1..], a);
      assert elements == [elements[0]] + elements[1..];
    }
  }

  /** What is done for the elements, and in which order: each is put in the table, and then its keys are
      asked for. */
  lemma {:induction false} ListPlanInOrder(table: nat, elements: seq<Element>, i: nat)
    requires i < |elements|
    ensures var plan, e := ListPlan(table, elements), elements[i];
            && |plan| == 2 * |elements|
            && plan[2 * i] == Touch(Add(table, e.atom))
            && plan[2 * i + 1] == Request("(cog-keys->alist " + e.text + ")\n", false, AListOf(Ref(e.atom, Some(table))))
  {
    ListPlanLength(table, elements);
    if i > 0 {
      ListPlanInOrder(table, elements[1..], i - 1);
    }
  }

  lemma {:induction false} ListPlanLength(table: nat, elements: seq<Element>)
    ensures |ListPlan(table, elements)| == 2 * |elements|
  {
    if elements != [] {
      ListPlanLength(table, elements[1..]);
    }
  }

  /** The replies to stores, removals, clearing and proxy commands are thrown away. */
  lemma OtherRepliesIgnored(c: Command, table: nat, reply: string)
    requires c.StoreAtom? || c.StoreValue? || c.UpdateValue? || c.Remove? || c.SetProxy? || c.ProxyOpen? || c.ProxyClose? || c.Clear?
    ensures Callback(PacketOf(c, table), reply) == []
  {
    NoPacket(c, table);
  }

  lemma NoPacket(c: Command, table: nat)
    requires c.StoreAtom? || c.StoreValue? || c.UpdateValue? || c.Remove? || c.SetProxy? || c.ProxyOpen? || c.ProxyClose? || c.Clear?
    ensures PacketOf(c, table) == Nothing
  {
  }

  /** A list callback requests the keys of its atoms; no other callback requests anything. */
  lemma CallbackRequests(d: Packet, reply: string, a: Act<Packet, Change>) returns (e: Element)
    requires a in Callback(d, reply) && a.Request?
    ensures d.ListInto? && e in DecodedList(AtomIn, reply).0
    ensures a == Request(KeysText(e.text), false, AListOf(Ref(e.atom, Some(d.table)))) && Replies(a.text)
  {
    assert d.ListInto?;
    var elements := DecodedList(AtomIn, reply).0;
    ListPlanHas(d.table, elements, a);
    e :| e in elements && a == Request(KeysText(e.text), false, AListOf(Ref(e.atom, Some(d.table))));
    KeysTextReplies(e.text);
  }

  /** The callbacks are of the kind the channel's theorems ask for. */
  lemma CallbacksAreFit<S>(W: World<S, Local, Packet, Change>)
    requires IsCogWorld(W)
    ensures CallbacksFit(W) && Drain.TwoRanks(W)
  {
    forall d: Packet, reply: string ensures TodoFits(W, d, W.plan(d, reply)) {
      forall a | a in W.plan(d, reply) && a.Request?
        ensures a.noreply == !W.replies(a.text) && W.rank(a.data) < W.rank(d)
      {
        var e := CallbackRequests(d, reply, a);
      }
    }
  }

  // ---- what the text says about the packet, in one table ----

  predicate ListsAtoms(c: Command)
  {
    c.GetAtoms? || c.Incoming? || c.IncomingByType?
  }

  /** The packet of a command whose atoms are the canonical ones of `table`. */
  function PacketOf(c: Command, table: nat): Packet
  {
    match c
    case LoadValue(h, key) => ValueFor(Ref(h, Some(table)), key)
    case Execute(h, key, _) => ValueFor(Ref(h, Some(table)), key)
    case LoadKeys(h) => AListOf(Ref(h, Some(table)))
    case FetchKeys(h) => AListOf(Ref(h, Some(table)))
    case _ => if ListsAtoms(c) then ListInto(table) else Nothing
  }

  function CmdFor(c: Command, table: nat): Cmd<Packet>
  {
    Cmd(Text(c), PacketOf(c, table))
  }

  /** `c` fetches an atom by itself, and its raw name makes it the key request for the atom of `d`. */
  predicate Mistaken(c: Command, d: Command)
  {
    c.FetchKeys? && d.LoadKeys? && Misleading(c.h) && d.h == MistakenFor(c.h)
  }

  lemma SentAsExactly(c: Command, d: Command)
    requires Proper(c) && Proper(d) && SentAs(c, d)
    ensures if Mistaken(c, d) then c.h != d.h else c.h == d.h
  {
    MisleadingExactly(c.h, d.h);
  }

  lemma MistakenIsSentAs(c: Command, d: Command)
    requires Proper(c) && Proper(d) && Mistaken(c, d)
    ensures SentAs(c, d) && c.h != d.h
  {
    MisleadingExactly(c.h, d.h);
  }

  lemma SentAsPacket(table: nat, c: Command, d: Command)
    requires Proper(c) && Proper(d) && SentAs(c, d)
    ensures PacketOf(c, table) != PacketOf(d, table) <==> Mistaken(c, d)
  {
    SentAsExactly(c, d);
  }

  lemma SameTextSamePacket(table: nat, c: Command, d: Command)
    requires Proper(c) && Proper(d) && Text(c) == Text(d) && !Mistaken(c, d) && !Mistaken(d, c)
    ensures PacketOf(c, table) == PacketOf(d, table)
  {
    SameTextExactly(c, d);
    if SentAs(c, d) {
      SentAsPacket(table, c, d);
    } else if SentAs(d, c) {
      SentAsPacket(table, d, c);
    }
  }

  lemma MistakenPacket(table: nat, c: Command, d: Command)
    requires Proper(c) && Proper(d) && Mistaken(c, d)
    ensures Text(c) == Text(d) && PacketOf(c, table) != PacketOf(d, table)
  {
    MistakenIsSentAs(c, d);
    SameTextExactly(c, d);
  }

  /** Exactly when two commands on the atoms of one table have the same text but different packets:
      when one of them is a single fetch that is mistaken for the other. */
  lemma PacketsDifferExactly(table: nat, c: Command, d: Command)
    requires Proper(c) && Proper(d)
    ensures Text(c) == Text(d) && PacketOf(c, table) != PacketOf(d, table) <==> Mistaken(c, d) || Mistaken(d, c)
  {
    if Mistaken(c, d) {
      MistakenPacket(table, c, d);
    } else if Mistaken(d, c) {
      MistakenPacket(table, d, c);
    } else if Text(c) == Text(d) {
      SameTextSamePacket(table, c, d);
    }
  }

  /** A single fetch that is mistaken for no other request. */
  predicate Unmistakable(c: Command)
  {
    c.FetchKeys? ==> !Misleading(c.h)
  }

  /** A request made for some proper command on the atoms of `table`, and mistaken for no other. */
  ghost predicate Canonical(table: nat, r: Cmd<Packet>)
  {
    exists c :: Proper(c) && Unmistakable(c) && r == CmdFor(c, table)
  }

  /** In one table, without misleading names, requests with the same text have the same packet. */
  lemma TextDeterminesPacket(table: nat, r: Cmd<Packet>, q: Cmd<Packet>)
    requires Canonical(table, r) && Canonical(table, q) && r.text == q.text
    ensures r == q
  {
    var c :| Proper(c) && Unmistakable(c) && r == CmdFor(c, table);
    var d :| Proper(d) && Unmistakable(d) && q == CmdFor(d, table);
    PacketsDifferExactly(table, c, d);
  }

  lemma TextStarts(c: Command)
    ensures "(" + Word(c) <= Text(c)
  {
    JoinedStart("(", Word(c), Arguments(c) + ")\n");
  }

  lemma JoinedStart(a: string, b: string, c: string)
    ensures a + b <= a + (b + c)
  {
    assert a + (b + c) == (a + b) + c;
  }

  lemma WordInside(w: string, t: string)
    requires |w| > 8 && "(" + w <= t
    ensures |t| > 9 && t[5] == w[4] && t[9] == w[8]
  {
    assert t[5] == ("(" + w)[5] && t[9] == ("(" + w)[9];
  }

  lemma SilentWord(c: Command)
    ensures |Word(c)| > 8
    ensures Word(c)[4] == 'u' || (Word(c)[4] == 's' && Word(c)[8] == 'v') <==> c.StoreAtom? || c.StoreValue? || c.UpdateValue?
    ensures c.StoreAtom? || c.StoreValue? ==> "(cog-set-value" <= "(" + Word(c)
    ensures c.UpdateValue? ==> "(cog-update-value!" <= "(" + Word(c)
  {
  }

  lemma PrefixOfPrefix(a: string, b: string, t: string)
    requires a <= b && b <= t
    ensures a <= t
  {
  }

  lemma OtherTexts(t: string)
    requires |t| > 9 && t[5] != 'u' && !(t[5] == 's' && t[9] == 'v')
    ensures Replies(t)
  {
    assert "(cog-set-value"[5] == 's' && "(cog-set-value"[9] == 'v' && "(cog-update-value!"[5] == 'u';
  }

  lemma SilentTexts(w: string, t: string)
    requires "(" + w <= t && ("(cog-set-value" <= "(" + w || "(cog-update-value!" <= "(" + w)
    ensures !Replies(t)
  {
    if "(cog-set-value" <= "(" + w {
      PrefixOfPrefix("(cog-set-value", "(" + w, t);
    } else {
      PrefixOfPrefix("(cog-update-value!", "(" + w, t);
    }
  }

  /** Stores and updates, and only they, are sent without waiting for a reply. */
  lemma RepliesAre(c: Command)
    ensures Replies(Text(c)) <==> !(c.StoreAtom? || c.StoreValue? || c.UpdateValue?)
  {
    TextStarts(c);
    SilentWord(c);
    if c.StoreAtom? || c.StoreValue? || c.UpdateValue? {
      SilentTexts(Word(c), Text(c));
    } else {
      WordInside(Word(c), Text(c));
      OtherTexts(Text(c));
    }
  }

  /** The server prints lists properly: every element is the printed form of an atom. */
  ghost predicate PrintsLists<S(!new)>(W: World<S, Local, Packet, Change>)
  {
    forall c, x :: Proper(c) && ListsAtoms(c) ==> PrintedList(W.answer(Text(c), x))
  }

  ghost predicate PrintedList(reply: string)
  {
    forall e <- DecodedList(AtomIn, reply).0 :: WellFormed(e.atom) && e.text == Print(e.atom)
  }

  lemma KeysTextIs(a: Atom)
    ensures KeysText(Print(a)) == Text(LoadKeys(a))
  {
    Wrapped(Print(a));
  }

  lemma Wrapped(p: string)
    ensures "(cog-keys->alist " + p + ")\n" == "(" + ("cog-keys->alist" + ((" " + (p + "")) + ")\n"))
  {
    assert p + "" == p;
  }

  /** What a callback requests on a server that prints its lists properly. */
  lemma RequestsAreForKeys<S(!new)>(
    W: World<S, Local, Packet, Change>, table: nat, c: Command, x: S, a: Act<Packet, Change>) returns (h: Atom)
    requires IsCogWorld(W) && PrintsLists(W) && Proper(c) && a in Acts(W, CmdFor(c, table), x) && a.Request?
    ensures WellFormed(h) && Cmd(a.text, a.data) == CmdFor(LoadKeys(h), table)
  {
    var reply := W.answer(Text(c), x);
    var e := CallbackRequests(PacketOf(c, table), reply, a);
    assert PrintedList(reply) && ListsAtoms(c);
    h := e.atom;
    KeysCmd(e, table);
  }

  lemma KeysCmd(e: Element, table: nat)
    requires e.text == Print(e.atom)
    ensures Cmd(KeysText(e.text), AListOf(Ref(e.atom, Some(table)))) == CmdFor(LoadKeys(e.atom), table)
  {
    KeysTextIs(e.atom);
  }

  /** A server that prints its lists properly leads to canonical requests only. */
  lemma CanonicalIsHereditary<S(!new)>(W: World<S, Local, Packet, Change>, table: nat)
    requires IsCogWorld(W) && PrintsLists(W)
    ensures Origins.Hereditary(W, (r: Cmd<Packet>) => Canonical(table, r))
  {
    forall r: Cmd<Packet>, x: S, a: Act<Packet, Change> | Canonical(table, r) && a in Acts(W, r, x) && a.Request?
      ensures Canonical(table, Cmd(a.text, a.data))
    {
      var c :| Proper(c) && Unmistakable(c) && r == CmdFor(c, table);
      var h := RequestsAreForKeys(W, table, c, x, a);
      assert Proper(LoadKeys(h)) && Unmistakable(LoadKeys(h));
    }
  }

  // ---- what the callbacks leave in the local tables ----

  /** The changes of a callback, made in order. */
  function Carried(acts: seq<Act<Packet, Change>>, l: Local): Local
    decreases |acts|
  {
    if acts == [] then l else Carried(acts[1..], if acts[0].Touch? then Apply(acts[0].touch, l) else l)
  }

  /** The values on one atom. */
  function ValuesOn(l: Local, h: Ref): map<Atom, Value>
  {
    map p | p in l.values && p.0 == h :: p.1 := l.values[p]
  }

  lemma OnePut(h: Ref, p: Pair, l: Local, g: Ref)
    ensures ValuesOn(Apply(PutPair(h, p), l), g) == if g == h then ValuesOn(l, h)[p.key := p.value] else ValuesOn(l, g)
  {
    var m := Apply(PutPair(h, p), l);
    assert forall k :: (g, k) in m.values <==> (g, k) in l.values || (g == h && k == p.key);
    assert forall k :: k in ValuesOn(m, g) <==> (g, k) in m.values;
    assert forall k :: k in ValuesOn(l, g) <==> (g, k) in l.values;
  }

  lemma {:induction false} PairsCarried(h: Ref, pairs: seq<Pair>, l: Local, g: Ref)
    ensures ValuesOn(Carried(AListPlan(h, pairs), l), h) == Override(ValuesOn(l, h), pairs)
    ensures g != h ==> ValuesOn(Carried(AListPlan(h, pairs), l), g) == ValuesOn(l, g)
    ensures Carried(AListPlan(h, pairs), l).members == l.members + InTable(h.table, Housed({}, pairs, h.atom))
    decreases |pairs|
  {
    if pairs != [] {
      var m, y := Apply(PutPair(h, pairs[0]), l), Members(pairs[0], h.atom);
      assert AListPlan(h, pairs)[1..] == AListPlan(h, pairs[1..]);
      OnePut(h, pairs[0], l, h);
      OnePut(h, pairs[0], l, g);
      PairsCarried(h, pairs[1..], m, g);
      HousedGrows({}, y, pairs[1..], h.atom);
      TablesJoin(h.table, Housed({}, pairs[1..], h.atom), y);
    }
  }

  /** The changes that the keys callback makes for a reply leave on its atom what the decoder's loop leaves
      there for that reply, make members of the table what that loop makes members, and change no other
      atom's values. */
  lemma CallbackIsDecoder(h: Ref, reply: string, l: Local, g: Ref, x: (nat, Atom))
    ensures var m, pairs := Carried(Callback(AListOf(h), reply), l), Pairs(SexprPairs(), reply).0;
            && ValuesOn(m, h) == Override(ValuesOn(l, h), pairs)
            && (g != h ==> ValuesOn(m, g) == ValuesOn(l, g))
            && (x in m.members <==> x in l.members || (h.table == Some(x.0) && FindsHome(pairs, h.atom, x.1)))
  {
    PairsCarried(h, Pairs(SexprPairs(), reply).0, l, g);
    HousedMembers({}, Pairs(SexprPairs(), reply).0, h.atom, x.1);
  }

  lemma OneCarried(x: Change, l: Local)
    ensures Carried([Touch(x)], l) == Apply(x, l)
  {
    assert Carried([Touch(x)][1..], Apply(x, l)) == Apply(x, l);
  }

  /** A value fetch whose reply begins with a printed value leaves exactly that value under the key on the
      atom, changes nothing else on any atom, and makes members of the table the atoms in the value. */
  lemma FetchedValueIsSet(h: Ref, key: Atom, v: Value, tail: string, l: Local, x: (nat, Atom))
    requires WellFormedValue(v)
    ensures var m := Carried(Callback(ValueFor(h, key), PrintValue(v) + tail), l);
            && m.values == l.values[(h, key) := v]
            && (x in m.members <==> x in l.members || (h.table == Some(x.0) && Mentions(v, x.1)))
  {
    ParseInvertsPrintValue(v, tail);
    AtomsInAreMentioned(v, x.1);
    OneCarried(Put(h, key, Some(v), AtomsIn(v)), l);
  }

  /** A reply that is no value, such as false, removes the value under the key, and nothing else. */
  lemma FetchedNothingRemoves(h: Ref, key: Atom, reply: string, l: Local)
    requires reply == "" || reply[0] != '('
    ensures Carried(Callback(ValueFor(h, key), reply), l) == l.(values := l.values - {(h, key)})
  {
    OneCarried(Put(h, key, None, {}), l);
    assert InTable(h.table, {}) == {};
  }

  lemma {:induction false} ElementsCarried(table: nat, elements: seq<Element>, l: Local, x: (nat, Atom))
    ensures var m := Carried(ListPlan(table, elements), l);
            && m.values == l.values
            && (x in m.members <==> x in l.members || (x.0 == table && exists e <- elements :: e.atom == x.1))
    decreases |elements|
  {
    if elements != [] {
      var e := elements[0];
      var acts, more := ListPlan(table, elements), ListPlan(table, elements[1..]);
      assert acts[1..][1..] == more && acts[1..][0].Request?;
      ElementsCarried(table, elements[1..], Apply(Add(table, e.atom), l), x);
      assert elements == [e] + elements[1..];
    }
  }

  /** The list callback adds exactly the atoms of the reply to the table, and sets no value. */
  lemma ListedAreAdded(table: nat, reply: string, l: Local, x: (nat, Atom))
    ensures var m, elements := Carried(Callback(ListInto(table), reply), l), DecodedList(AtomIn, reply).0;
            && m.values == l.values
            && (x in m.members <==> x in l.members || (x.0 == table && exists e <- elements :: e.atom == x.1))
  {
    ElementsCarried(table, DecodedList(AtomIn, reply).0, l, x);
  }

  lemma TablesJoin(table: Option<nat>, x: set<Atom>, y: set<Atom>)
    ensures InTable(table, x + y) == InTable(table, x) + InTable(table, y)
  {
  }

  lemma {:induction false} HousedGrows(x: set<Atom>, y: set<Atom>, pairs: seq<Pair>, atom: Atom)
    ensures Housed(x + y, pairs, atom) == Housed(x, pairs, atom) + y
    decreases |pairs|
  {
    if pairs != [] {
      var z := Members(pairs[0], atom);
      assert x + y + z == x + z + y;
      HousedGrows(x + z, y, pairs[1..], atom);
    }
  }
}
