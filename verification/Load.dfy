/** Loading: every fetch is answered for its own packet, a load is complete when its barrier returns,
    and it ends with the tables of the one-at-a-time load. */
module Load {
  import opened Wrappers
  import opened Sexpr
  import opened ListScan
  import opened AList
  import opened Commands
  import opened Protocol
  import opened History
  import opened SimpleBackend
  import opened Refinement
  import opened CogIO
  import Lazy
  import Guarantees
  import Repeats
  import Origins

  /** The first call of this text between these two barriers carries the packet of `c`. */
  ghost predicate Led<S>(s: Sys<S, Local, Packet, Change>, c: Entry<Packet>)
  {
    forall f <- s.calls :: Repeats.IsFirst(s, f) && Lazy.SameCall(f, c) ==> f.data.data == c.data.data
  }

  /** The key requests of this epoch for atoms of this table are led by their own packets. */
  ghost predicate KeysLed<S>(s: Sys<S, Local, Packet, Change>, table: nat, epoch: nat)
  {
    forall d <- s.calls :: d.data.epoch == epoch && AsksOwnKeys(d, table) ==> Led(s, d)
  }

  ghost predicate AsksOwnKeys(d: Entry<Packet>, table: nat)
  {
    d.data.data.AListOf? && d.data.data.h.table == Some(table) && d.text == Text(LoadKeys(d.data.data.h.atom))
  }

  /** What a client can see to: if all calls of the clients concern the atoms of one table, and none
      fetches by itself a node with a misleading name, calls with equal texts carry equal packets. */
  lemma OneTableAgrees<S(!new)>(
    W: World<S, Local, Packet, Change>, store: S, local: Local, actions: seq<Action<Packet>>, s: Sys<S, Local, Packet, Change>, table: nat)
    requires IsCogWorld(W) && PrintsLists(W) && Reachable(W, store, local, actions, s)
    requires forall p <- ClientCalls(actions, 0) :: Canonical(table, p.0)
    ensures forall c <- s.calls :: Canonical(table, CmdOf(c)) && Led(s, c)
    ensures forall c <- s.calls, d <- s.calls :: c.text == d.text ==> c.data.data == d.data.data
  {
    CallsStayCanonical(W, store, local, actions, s, table);
    forall c, d | c in s.calls && d in s.calls && d.text == c.text ensures d.data.data == c.data.data {
      TextDeterminesPacket(table, CmdOf(c), CmdOf(d));
    }
  }

  lemma CallsStayCanonical<S(!new)>(
    W: World<S, Local, Packet, Change>, store: S, local: Local, actions: seq<Action<Packet>>, s: Sys<S, Local, Packet, Change>, table: nat)
    requires IsCogWorld(W) && PrintsLists(W) && Reachable(W, store, local, actions, s)
    requires forall p <- ClientCalls(actions, 0) :: Canonical(table, p.0)
    ensures forall e <- s.calls :: Canonical(table, CmdOf(e))
  {
    CallbacksAreFit(W);
    Origins.RunIssued(W, store, local, actions, s);
    CanonicalIsHereditary(W, table);
    var p := (r: Cmd<Packet>) => Canonical(table, r);
    forall e | e in s.calls ensures p(CmdOf(e)) {
      Origins.EveryCall(W, store, local, s, p, e);
    }
  }

  /** Every fetch gets its own answer: when a barrier can return, the server has answered the text
      of the call, and the call's own callback, on the call's own packet, has made its changes, if the
      first call of the text in its epoch has that packet. */
  lemma FetchesAreAnswered<S(!new)>(
    W: World<S, Local, Packet, Change>, store: S, local: Local, actions: seq<Action<Packet>>, s: Sys<S, Local, Packet, Change>,
    c: Entry<Packet>)
    returns (r: Entry<Packet>)
    requires IsCogWorld(W) && Reachable(W, store, local, actions, s) && Drained(s)
    requires c in s.calls && Replies(c.text) && Led(s, c)
    ensures r in s.log && CmdOf(r) == CmdOf(c) && r.data.epoch == c.data.epoch
    ensures forall a <- Callback(c.data.data, ReplyTo(W, store, s.log, r)) ::
              match a
              case Touch(x) => (x, c.data.epoch) in s.touches
              case Request(text, noreply, data) => Guarantees.Requested(s, text, noreply, data, c.data.epoch)
  {
    CallbacksAreFit(W);
    ReachableIsSound(W, store, local, actions, s);
    var f := Repeats.FirstIsKept(W, s, c);
    r := Guarantees.BarrierCompletesCallbacks(W, store, local, actions, s, f);
    Guarantees.AppliedWasCalled(W, s, r);
  }

  lemma {:induction false} AddedIsMember<S>(
    W: World<S, Local, Packet, Change>, local: Local, touches: seq<(Change, nat)>, table: nat, atom: Atom, epoch: nat)
    requires IsCogWorld(W) && (Add(table, atom), epoch) in touches
    ensures (table, atom) in Relive(W, local, touches).members
  {
    var init, last := touches[..|touches| - 1], touches[|touches| - 1];
    assert touches == init + [last];
    if last != (Add(table, atom), epoch) {
      AddedIsMember(W, local, init, table, atom, epoch);
    }
  }

  /** What is done about one listed atom: it is in the table, its keys were requested and
      answered, and every pair of the answer has been put on it. */
  ghost predicate Loaded<S>(W: World<S, Local, Packet, Change>, store: S, s: Sys<S, Local, Packet, Change>, table: nat, atom: Atom, epoch: nat)
  {
    && (table, atom) in s.local.members
    && exists k <- s.log :: k.text == Text(LoadKeys(atom)) && k.data.epoch == epoch &&
         forall p <- Pairs(SexprPairs(), ReplyTo(W, store, s.log, k)).0 :: (PutPair(Ref(atom, Some(table)), p), epoch) in s.touches
  }

  /** The key request of a listed atom has been answered, and its pairs put on the atom. */
  lemma KeysArePut<S(!new)>(
    W: World<S, Local, Packet, Change>, store: S, local: Local, actions: seq<Action<Packet>>, s: Sys<S, Local, Packet, Change>,
    h: Ref, table: nat, text: string, epoch: nat)
    returns (k: Entry<Packet>)
    requires IsCogWorld(W) && Reachable(W, store, local, actions, s) && Drained(s) && KeysLed(s, table, epoch)
    requires h.table == Some(table) && Guarantees.Requested(s, text, false, AListOf(h), epoch) && Replies(text) && text == Text(LoadKeys(h.atom))
    ensures k in s.log && k.text == text && k.data.epoch == epoch
    ensures forall p <- Pairs(SexprPairs(), ReplyTo(W, store, s.log, k)).0 :: (PutPair(h, p), epoch) in s.touches
  {
    var d :| d in s.calls && d.text == text && d.data.data == AListOf(h) && d.data.epoch == epoch;
    k := FetchesAreAnswered(W, store, local, actions, s, d);
    var reply := ReplyTo(W, store, s.log, k);
    forall p | p in Pairs(SexprPairs(), reply).0 ensures (PutPair(h, p), epoch) in s.touches {
      AListPlanHas(h, Pairs(SexprPairs(), reply).0, p);
      assert Touch(PutPair(h, p)) in Callback(d.data.data, reply);
    }
  }

  lemma AListPlanHas(h: Ref, pairs: seq<Pair>, p: Pair)
    requires p in pairs
    ensures Touch(PutPair(h, p)) in AListPlan(h, pairs)
  {
    var i :| 0 <= i < |pairs| && pairs[i] == p;
    assert AListPlan(h, pairs)[i] == Touch(PutPair(h, p));
  }

  lemma ListedIsLoaded<S(!new)>(
    W: World<S, Local, Packet, Change>, store: S, local: Local, actions: seq<Action<Packet>>, s: Sys<S, Local, Packet, Change>,
    table: nat, e: Element, epoch: nat)
    requires IsCogWorld(W) && Reachable(W, store, local, actions, s) && Drained(s) && KeysLed(s, table, epoch)
    requires e.text == Print(e.atom) && (Add(table, e.atom), epoch) in s.touches
    requires Guarantees.Requested(s, KeysText(e.text), false, AListOf(Ref(e.atom, Some(table))), epoch)
    ensures Loaded(W, store, s, table, e.atom, epoch)
  {
    LocalIsRelived(W, store, local, actions, s);
    AddedIsMember(W, local, s.touches, table, e.atom, epoch);
    KeysTextReplies(e.text);
    KeysTextIs(e.atom);
    var k := KeysArePut(W, store, local, actions, s, Ref(e.atom, Some(table)), table, KeysText(e.text), epoch);
  }

  lemma LocalIsRelived<S(!new)>(
    W: World<S, Local, Packet, Change>, store: S, local: Local, actions: seq<Action<Packet>>, s: Sys<S, Local, Packet, Change>)
    requires IsCogWorld(W) && Reachable(W, store, local, actions, s)
    ensures s.local == Relive(W, local, s.touches)
  {
    CallbacksAreFit(W);
    ReachableIsSound(W, store, local, actions, s);
  }

  lemma ReplyIsPrinted<S(!new)>(W: World<S, Local, Packet, Change>, store: S, log: seq<Entry<Packet>>, r: Entry<Packet>, q: Command)
    requires IsCogWorld(W) && PrintsLists(W) && r in log && Proper(q) && ListsAtoms(q) && r.text == Text(q)
    ensures PrintedList(ReplyTo(W, store, log, r))
  {
    RepliesAre(q);
    var x := Origins.ReplyIsAnswer(W, store, log, r);
  }

  lemma BothActs(table: nat, elements: seq<Element>, e: Element)
    requires e in elements
    ensures Touch(Add(table, e.atom)) in ListPlan(table, elements)
    ensures Request(KeysText(e.text), false, AListOf(Ref(e.atom, Some(table)))) in ListPlan(table, elements)
  {
    ListPlanHas(table, elements, Touch(Add(table, e.atom)));
    ListPlanHas(table, elements, Request(KeysText(e.text), false, AListOf(Ref(e.atom, Some(table)))));
  }

  /** The atoms of the reply to a list request have been added, and their keys requested. */
  lemma ListIsAnswered<S(!new)>(
    W: World<S, Local, Packet, Change>, store: S, local: Local, actions: seq<Action<Packet>>, s: Sys<S, Local, Packet, Change>,
    table: nat, c: Entry<Packet>)
    returns (r: Entry<Packet>)
    requires IsCogWorld(W) && Reachable(W, store, local, actions, s) && Drained(s) && Led(s, c)
    requires c in s.calls && c.data.data == ListInto(table) && Replies(c.text)
    ensures r in s.log && r.text == c.text && r.data.epoch == c.data.epoch
    ensures forall e <- DecodedList(AtomIn, ReplyTo(W, store, s.log, r)).0 ::
              && (Add(table, e.atom), c.data.epoch) in s.touches
              && Guarantees.Requested(s, KeysText(e.text), false, AListOf(Ref(e.atom, Some(table))), c.data.epoch)
  {
    r := FetchesAreAnswered(W, store, local, actions, s, c);
    var elements := DecodedList(AtomIn, ReplyTo(W, store, s.log, r)).0;
    assert Callback(c.data.data, ReplyTo(W, store, s.log, r)) == ListPlan(table, elements);
    forall e | e in elements
      ensures (Add(table, e.atom), c.data.epoch) in s.touches
      ensures Guarantees.Requested(s, KeysText(e.text), false, AListOf(Ref(e.atom, Some(table))), c.data.epoch)
    {
      BothActs(table, elements, e);
    }
  }

  /** When a load's barrier returns, every atom that the server listed in its reply is in the
      table, and its keys and values have been fetched and put on it, if the load and the key requests of
      its epoch are led by their own packets. */
  lemma LoadIsComplete<S(!new)>(
    W: World<S, Local, Packet, Change>, store: S, local: Local, actions: seq<Action<Packet>>, s: Sys<S, Local, Packet, Change>,
    table: nat, c: Entry<Packet>, q: Command)
    returns (r: Entry<Packet>)
    requires IsCogWorld(W) && PrintsLists(W) && Reachable(W, store, local, actions, s) && Drained(s) && Led(s, c)
    requires KeysLed(s, table, c.data.epoch) && c in s.calls && Proper(q) && ListsAtoms(q) && CmdOf(c) == CmdFor(q, table)
    ensures r in s.log && r.text == c.text && r.data.epoch == c.data.epoch
    ensures forall e <- DecodedList(AtomIn, ReplyTo(W, store, s.log, r)).0 :: Loaded(W, store, s, table, e.atom, c.data.epoch)
  {
    RepliesAre(q);
    r := ListIsAnswered(W, store, local, actions, s, table, c);
    ReplyIsPrinted(W, store, s.log, r, q);
    forall e | e in DecodedList(AtomIn, ReplyTo(W, store, s.log, r)).0 ensures Loaded(W, store, s, table, e.atom, c.data.epoch) {
      ListedIsLoaded(W, store, local, actions, s, table, e, c.data.epoch);
    }
  }
}
