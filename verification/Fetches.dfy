/** What single fetches leave in the local table when their barrier can return. */
module Fetches {
  import opened Wrappers
  import opened Sexpr
  import opened ListScan
  import opened AList
  import opened RawNames
  import opened Commands
  import opened MsgOrder
  import opened Protocol
  import opened Flow
  import opened History
  import opened Runs
  import opened Refinement
  import opened CogIO
  import opened Load
  import opened Probe
  import opened SimpleBackend
  import Guarantees
  import Origins

  // ---- what the changes of a run leave under a key ----

  function ValueUnder(l: Local, h: Ref, key: Atom): Option<Value>
  {
    if (h, key) in l.values then Some(l.values[(h, key)]) else None
  }

  ghost predicate PutsOn(x: Change, h: Ref, key: Atom)
  {
    x.Put? && x.h == h && x.key == key
  }

  /** The change has been made, and it is the last that has been made under this key. */
  ghost predicate LastOn(touches: seq<(Change, nat)>, x: (Change, nat), h: Ref, key: Atom)
  {
    exists i :: 0 <= i < |touches| && touches[i] == x && forall j :: i < j < |touches| ==> !PutsOn(touches[j].0, h, key)
  }

  lemma {:induction false} LastDecides<S>(
    W: World<S, Local, Packet, Change>, local: Local, touches: seq<(Change, nat)>, x: (Change, nat), h: Ref, key: Atom)
    requires IsCogWorld(W) && PutsOn(x.0, h, key) && LastOn(touches, x, h, key)
    ensures ValueUnder(Relive(W, local, touches), h, key) == x.0.value
  {
    var i :| 0 <= i < |touches| && touches[i] == x && forall j :: i < j < |touches| ==> !PutsOn(touches[j].0, h, key);
    var init := touches[..|touches| - 1];
    if i < |touches| - 1 {
      assert init[i] == x;
      LastDecides(W, local, init, x, h, key);
    }
  }

  /** What a change makes a member of the table stays one. */
  lemma {:induction false} HousedStay<S>(
    W: World<S, Local, Packet, Change>, local: Local, touches: seq<(Change, nat)>, x: (Change, nat), table: nat, a: Atom)
    requires IsCogWorld(W) && x in touches && x.0.Put? && x.0.h.table == Some(table) && a in x.0.housed
    ensures (table, a) in Relive(W, local, touches).members
  {
    var init, last := touches[..|touches| - 1], touches[|touches| - 1];
    assert touches == init + [last];
    if last != x {
      HousedStay(W, local, init, x, table, a);
    }
  }

  lemma {:induction false} SomeLast(touches: seq<(Change, nat)>, h: Ref, key: Atom) returns (x: (Change, nat))
    requires exists p <- touches :: PutsOn(p.0, h, key)
    ensures x in touches && PutsOn(x.0, h, key) && LastOn(touches, x, h, key)
  {
    var n := |touches| - 1;
    if PutsOn(touches[n].0, h, key) {
      x := touches[n];
    } else {
      var init := touches[..n];
      assert touches == init + [touches[n]];
      x := SomeLast(init, h, key);
      var i :| 0 <= i < n && init[i] == x && forall j :: i < j < n ==> !PutsOn(init[j].0, h, key);
      assert touches[i] == x && forall j :: i < j < n ==> touches[j] == init[j];
    }
  }

  // ---- fetching one value ----

  /** The calls whose replies may change what is under the key. */
  ghost predicate Concerns(d: Packet, h: Ref, key: Atom)
  {
    d == ValueFor(h, key) || d == AListOf(h)
  }

  /** Every change under the key was asked for by the reply to a call of its epoch that concerns it. */
  lemma WhoPut<S(!new)>(
    W: World<S, Local, Packet, Change>, store: S, local: Local, s: Sys<S, Local, Packet, Change>, x: (Change, nat), h: Ref, key: Atom)
    returns (e: Entry<Packet>)
    requires IsCogWorld(W) && Sound(W, store, local, s) && x in s.touches && PutsOn(x.0, h, key)
    ensures e in s.calls && e in s.log && e.data.epoch == x.1 && Concerns(e.data.data, h, key)
    ensures Touch(x.0) in Callback(e.data.data, ReplyTo(W, store, s.log, e))
  {
    var t: nat :| DoneBy(s, t, Touch(x.0), x.1);
    e := s.calls[t];
    Origins.RanWithinPlan(W, store, s, t, Touch(x.0));
    PutsConcern(e.data.data, ReplyTo(W, store, s.log, e), x.0, h, key);
  }

  lemma PutsConcern(d: Packet, reply: string, x: Change, h: Ref, key: Atom)
    requires Touch(x) in Callback(d, reply) && PutsOn(x, h, key)
    ensures Concerns(d, h, key)
  {
    if d.ListInto? {
      ListPlanHas(d.table, DecodedList(AtomIn, reply).0, Touch(x));
    }
  }

  /** A fetch of one value, or a query whose result is fetched. */
  predicate FetchesValue(q: Command)
  {
    q.LoadValue? || q.Execute?
  }

  /** What the reply says is under the key: a value at its start, or nothing. */
  ghost predicate Says(reply: string, w: Option<Value>)
  {
    if w.Some? then WellFormedValue(w.value) && PrintValue(w.value) <= reply else reply == "" || reply[0] != '('
  }

  lemma SaidIsPut(h: Ref, key: Atom, reply: string, w: Option<Value>)
    requires Says(reply, w)
    ensures var x := Put(h, key, w, if w.None? then {} else AtomsIn(w.value));
            Callback(ValueFor(h, key), reply) == [Touch(x)] && Touch(x) in Callback(ValueFor(h, key), reply)
  {
    if w.Some? {
      var tail := reply[|PrintValue(w.value)|..];
      assert reply == PrintValue(w.value) + tail;
      ParseInvertsPrintValue(w.value, tail);
    }
  }

  /** The answer to a value fetch has been put under its key. */
  lemma AnswerIsPut<S(!new)>(
    W: World<S, Local, Packet, Change>, store: S, local: Local, actions: seq<Action<Packet>>, s: Sys<S, Local, Packet, Change>,
    c: Entry<Packet>, h: Ref, key: Atom)
    returns (r: Entry<Packet>)
    requires IsCogWorld(W) && Reachable(W, store, local, actions, s) && Drained(s)
    requires c in s.calls && c.data.data == ValueFor(h, key) && Replies(c.text) && Led(s, c)
    ensures r in s.log && CmdOf(r) == CmdOf(c) && r.data.epoch == c.data.epoch
    ensures forall w :: Says(ReplyTo(W, store, s.log, r), w) ==> PutByFetch(s, h, key, w, c.data.epoch)
  {
    r := FetchesAreAnswered(W, store, local, actions, s, c);
    forall w | Says(ReplyTo(W, store, s.log, r), w) ensures PutByFetch(s, h, key, w, c.data.epoch) {
      SaidIsPut(h, key, ReplyTo(W, store, s.log, r), w);
      SaidIsHoused(W, store, local, actions, s, h, key, w, c.data.epoch);
    }
  }

  /** Fetching a value: when a barrier can return, and the first call of the text in its epoch has the
      packet of this one, the server has answered, and what the answer says has been put under the key on
      the atom; the atoms in the value are members of the table. */
  lemma ValueIsFetched<S(!new)>(
    W: World<S, Local, Packet, Change>, store: S, local: Local, actions: seq<Action<Packet>>, s: Sys<S, Local, Packet, Change>,
    c: Entry<Packet>, q: Command, table: nat)
    returns (r: Entry<Packet>)
    requires IsCogWorld(W) && Reachable(W, store, local, actions, s) && Drained(s)
    requires c in s.calls && FetchesValue(q) && CmdOf(c) == CmdFor(q, table) && Led(s, c)
    ensures r in s.log && CmdOf(r) == CmdOf(c) && r.data.epoch == c.data.epoch
    ensures forall w :: Says(ReplyTo(W, store, s.log, r), w) ==> PutByFetch(s, Ref(q.h, Some(table)), q.key, w, c.data.epoch)
  {
    FetchCmd(CmdOf(c), q, table);
    r := AnswerIsPut(W, store, local, actions, s, c, Ref(q.h, Some(table)), q.key);
  }

  lemma FetchCmd(r: Cmd<Packet>, q: Command, table: nat)
    requires FetchesValue(q) && r == CmdFor(q, table)
    ensures r.data == ValueFor(Ref(q.h, Some(table)), q.key) && Replies(r.text)
  {
    RepliesAre(q);
    ValuePacket(r.data, q, table);
  }

  lemma ValuePacket(d: Packet, q: Command, table: nat)
    requires FetchesValue(q) && d == PacketOf(q, table)
    ensures d == ValueFor(Ref(q.h, Some(table)), q.key)
  {
  }

  ghost predicate PutByFetch<S>(s: Sys<S, Local, Packet, Change>, h: Ref, key: Atom, w: Option<Value>, epoch: nat)
  {
    && (exists p <- s.touches :: PutsOn(p.0, h, key) && p.0.value == w && p.1 == epoch)
    && (w.Some? && h.table.Some? ==> forall a :: Mentions(w.value, a) ==> (h.table.value, a) in s.local.members)
  }

  lemma SaidIsHoused<S(!new)>(
    W: World<S, Local, Packet, Change>, store: S, local: Local, actions: seq<Action<Packet>>, s: Sys<S, Local, Packet, Change>,
    h: Ref, key: Atom, w: Option<Value>, epoch: nat)
    requires IsCogWorld(W) && Reachable(W, store, local, actions, s)
    requires (Put(h, key, w, if w.None? then {} else AtomsIn(w.value)), epoch) in s.touches
    ensures PutByFetch(s, h, key, w, epoch)
  {
    LocalIsRelived(W, store, local, actions, s);
    if w.Some? && h.table.Some? {
      forall a | Mentions(w.value, a) ensures (h.table.value, a) in s.local.members {
        AtomsInAreMentioned(w.value, a);
        HousedStay(W, local, s.touches, (Put(h, key, w, AtomsIn(w.value)), epoch), h.table.value, a);
      }
    }
  }

  /** If no other call of this or a later epoch concerns the key on the atom, the table has there exactly
      what the answer says. */
  lemma FetchedValueStays<S(!new)>(
    W: World<S, Local, Packet, Change>, store: S, local: Local, actions: seq<Action<Packet>>, s: Sys<S, Local, Packet, Change>,
    c: Entry<Packet>, q: Command, table: nat, w: Option<Value>)
    requires IsCogWorld(W) && Reachable(W, store, local, actions, s) && Drained(s)
    requires c in s.calls && FetchesValue(q) && CmdOf(c) == CmdFor(q, table) && Led(s, c)
    requires forall e <- s.calls :: c.data.epoch <= e.data.epoch && Concerns(e.data.data, Ref(q.h, Some(table)), q.key) ==> e == c
    requires Says(ReplyTo(W, store, s.log, c), w)
    ensures c in s.log && ValueUnder(s.local, Ref(q.h, Some(table)), q.key) == w
  {
    FetchCmd(CmdOf(c), q, table);
    OnlyAnswerStays(W, store, local, actions, s, c, Ref(q.h, Some(table)), q.key, w);
  }

  lemma OnlyAnswerStays<S(!new)>(
    W: World<S, Local, Packet, Change>, store: S, local: Local, actions: seq<Action<Packet>>, s: Sys<S, Local, Packet, Change>,
    c: Entry<Packet>, h: Ref, key: Atom, w: Option<Value>)
    requires IsCogWorld(W) && Reachable(W, store, local, actions, s) && Drained(s)
    requires c in s.calls && c.data.data == ValueFor(h, key) && Replies(c.text) && Led(s, c)
    requires forall e <- s.calls :: c.data.epoch <= e.data.epoch && Concerns(e.data.data, h, key) ==> e == c
    requires Says(ReplyTo(W, store, s.log, c), w)
    ensures c in s.log && ValueUnder(s.local, h, key) == w
  {
    CallbacksAreFit(W);
    ReachableIsSound(W, store, local, actions, s);
    OnlyAnswerIsPut(W, store, local, actions, s, c, h, key, w);
    var x := LastPut(W, store, local, s, c, h, key);
    SaidIsPut(h, key, ReplyTo(W, store, s.log, c), w);
    LocalIsRelived(W, store, local, actions, s);
    LastDecides(W, local, s.touches, x, h, key);
  }

  lemma OnlyAnswerIsPut<S(!new)>(
    W: World<S, Local, Packet, Change>, store: S, local: Local, actions: seq<Action<Packet>>, s: Sys<S, Local, Packet, Change>,
    c: Entry<Packet>, h: Ref, key: Atom, w: Option<Value>)
    requires IsCogWorld(W) && Reachable(W, store, local, actions, s) && FlowOk(W, s) && Drained(s)
    requires c in s.calls && c.data.data == ValueFor(h, key) && Replies(c.text) && Led(s, c)
    requires forall e <- s.calls :: c.data.epoch <= e.data.epoch && Concerns(e.data.data, h, key) ==> e == c
    requires Says(ReplyTo(W, store, s.log, c), w)
    ensures c in s.log && PutByFetch(s, h, key, w, c.data.epoch)
  {
    var r := AnswerIsPut(W, store, local, actions, s, c, h, key);
    Guarantees.AppliedWasCalled(W, s, r);
    assert r == c;
  }

  /** The last change under the key was made by this call. */
  lemma LastPut<S(!new)>(
    W: World<S, Local, Packet, Change>, store: S, local: Local, s: Sys<S, Local, Packet, Change>, c: Entry<Packet>, h: Ref, key: Atom)
    returns (x: (Change, nat))
    requires IsCogWorld(W) && Sound(W, store, local, s)
    requires exists p <- s.touches :: PutsOn(p.0, h, key) && p.1 == c.data.epoch
    requires forall e <- s.calls :: c.data.epoch <= e.data.epoch && Concerns(e.data.data, h, key) ==> e == c
    ensures PutsOn(x.0, h, key) && LastOn(s.touches, x, h, key) && Touch(x.0) in Callback(c.data.data, ReplyTo(W, store, s.log, c))
  {
    x := RecentLast(s, h, key, c.data.epoch);
    var e := WhoPut(W, store, local, s, x, h, key);
  }

  lemma RecentLast<S>(s: Sys<S, Local, Packet, Change>, h: Ref, key: Atom, epoch: nat) returns (x: (Change, nat))
    requires TouchesMade(s) && exists p <- s.touches :: PutsOn(p.0, h, key) && p.1 == epoch
    ensures x in s.touches && PutsOn(x.0, h, key) && LastOn(s.touches, x, h, key) && epoch <= x.1
  {
    x := SomeLast(s.touches, h, key);
    var i :| 0 <= i < |s.touches| && s.touches[i] == x && forall j :: i < j < |s.touches| ==> !PutsOn(s.touches[j].0, h, key);
    var j :| 0 <= j < |s.touches| && PutsOn(s.touches[j].0, h, key) && s.touches[j].1 == epoch;
    assert j <= i;
  }

  // ---- fetching one atom ----

  /** Exactly when fetching an atom asks for its keys: when the probe finds it.  Then it is one call of the
      client, with the atom's raw name in its text, for the atom in its table. */
  lemma FetchAtomAsks<S>(W: World<S, Local, Packet, Change>, s: Sys<S, Local, Packet, Change>, h: Atom, table: nat)
    requires IsCogWorld(W) && FlowOk(W, s)
    ensures var t, text := FetchAtom(W, s, h, table), "(cog-keys->alist " + (RawText(h) + ")\n");
            if "()" <= W.answer(ProbeText(h), s.store) then t == s
            else StepTo(W, s, Call(text, false, AListOf(Ref(h, Some(table)))), t)
                 && |t.calls| == |s.calls| + 1 && t.calls[..|s.calls|] == s.calls
                 && CmdOf(t.calls[|s.calls|]) == Cmd(text, AListOf(Ref(h, Some(table))))
                 && t.calls[|s.calls|].data.epoch == s.epoch
                 && t.log == s.log && t.lanes == s.lanes && t.local == s.local && t.store == s.store
                 && (!W.unique(text) ==> exists o <- t.queue :: o.text == text)
  {
    if !Unknown(W, s, h) {
      KeysAsked(h, table);
      AskedOnce(W, s, Text(FetchKeys(h)), AListOf(Ref(h, Some(table))));
    }
  }

  lemma KeysAsked(h: Atom, table: nat)
    ensures Text(FetchKeys(h)) == "(cog-keys->alist " + (RawText(h) + ")\n") && Replies(Text(FetchKeys(h)))
    ensures PacketOf(FetchKeys(h), table) == AListOf(Ref(h, Some(table)))
  {
    RepliesAre(FetchKeys(h));
    Joined(RawText(h));
  }

  lemma Joined(r: string)
    ensures "(" + ("cog-keys->alist" + ((" " + r) + ")\n")) == "(cog-keys->alist " + (r + ")\n")
  {
  }

  lemma AskedOnce<S>(W: World<S, Local, Packet, Change>, s: Sys<S, Local, Packet, Change>, text: string, d: Packet)
    requires IsCogWorld(W) && FlowOk(W, s) && Replies(text)
    ensures var t := Accept(W, s, text, false, d, None);
            && StepTo(W, s, Call(text, false, d), t)
            && |t.calls| == |s.calls| + 1 && t.calls[..|s.calls|] == s.calls
            && CmdOf(t.calls[|s.calls|]) == Cmd(text, d) && t.calls[|s.calls|].data.epoch == s.epoch
            && t.log == s.log && t.lanes == s.lanes && t.local == s.local && t.store == s.store
            && (!W.unique(text) ==> exists o <- t.queue :: o.text == text)
  {
    if !W.unique(text) {
      AskedWaits(W, s, text, d);
    }
  }

  lemma AskedWaits<S>(W: World<S, Local, Packet, Change>, s: Sys<S, Local, Packet, Change>, text: string, d: Packet)
    requires FlowOk(W, s) && !W.unique(text)
    ensures exists o <- Accept(W, s, text, false, d, None).queue :: o.text == text
  {
    var t := Accept(W, s, text, false, d, None);
    var m := t.calls[|s.calls|];
    Guarantees.MergedExactlyWhenWaiting(W, s, text, false, d, None);
    InsertKeepsOneOfEachClass(s.queue, m);
    if !Present(s.queue, m) {
      assert m in multiset(t.queue);
    }
  }

  /** End to end: an atom the server knows is fetched; whatever else happens, when a barrier can return, and
      the call is led by its own packet, the server has answered its text, every pair of the answer has been
      put on the atom, and what the pairs mention is in the table. */
  lemma AtomIsFetched<S(!new)>(
    W: World<S, Local, Packet, Change>, store: S, local: Local, before: seq<Action<Packet>>, s: Sys<S, Local, Packet, Change>,
    h: Atom, table: nat, after: seq<Action<Packet>>, t: Sys<S, Local, Packet, Change>)
    returns (c: Entry<Packet>, k: Entry<Packet>)
    requires IsCogWorld(W) && Reachable(W, store, local, before, s) && !("()" <= W.answer(ProbeText(h), s.store))
    requires Reaches(W, FetchAtom(W, s, h, table), after, t) && Drained(t)
    ensures c in t.calls && c.data.epoch == s.epoch && CmdOf(c) == CmdFor(FetchKeys(h), table)
    ensures Led(t, c) ==> k in t.log && CmdOf(k) == CmdOf(c) && k.data.epoch == s.epoch
    ensures Led(t, c) ==> forall p <- Pairs(SexprPairs(), ReplyTo(W, store, t.log, k)).0 ::
              (PutPair(Ref(h, Some(table)), p), s.epoch) in t.touches
    ensures Led(t, c) ==> forall a :: FindsHome(Pairs(SexprPairs(), ReplyTo(W, store, t.log, k)).0, h, a) ==> (table, a) in t.local.members
  {
    var u := FetchAtom(W, s, h, table);
    c := u.calls[|s.calls|];
    k := c;
    var call := Call(Text(FetchKeys(h)), false, AListOf(Ref(h, Some(table))));
    KeysAsked(h, table);
    AddStep(W, s, call, u, after, t);
    ReachesAppend(W, Initial(store, local), before, s, [call] + after, t);
    Origins.CallsStay(W, u, after, t);
    if Led(t, c) {
      k := PairsAreFetched(W, store, local, before + ([call] + after), t, c, Ref(h, Some(table)), table);
    }
  }

  lemma PairsAreFetched<S(!new)>(
    W: World<S, Local, Packet, Change>, store: S, local: Local, actions: seq<Action<Packet>>, s: Sys<S, Local, Packet, Change>,
    c: Entry<Packet>, h: Ref, table: nat)
    returns (k: Entry<Packet>)
    requires IsCogWorld(W) && Reachable(W, store, local, actions, s) && Drained(s) && h.table == Some(table)
    requires c in s.calls && c.data.data == AListOf(h) && Replies(c.text) && Led(s, c)
    ensures k in s.log && CmdOf(k) == CmdOf(c) && k.data.epoch == c.data.epoch
    ensures forall p <- Pairs(SexprPairs(), ReplyTo(W, store, s.log, k)).0 :: (PutPair(h, p), c.data.epoch) in s.touches
    ensures forall a :: FindsHome(Pairs(SexprPairs(), ReplyTo(W, store, s.log, k)).0, h.atom, a) ==> (table, a) in s.local.members
  {
    k := FetchesAreAnswered(W, store, local, actions, s, c);
    var reply := ReplyTo(W, store, s.log, k);
    var pairs := Pairs(SexprPairs(), reply).0;
    LocalIsRelived(W, store, local, actions, s);
    forall p | p in pairs ensures (PutPair(h, p), c.data.epoch) in s.touches {
      AListPlanHas(h, pairs, p);
      assert Touch(PutPair(h, p)) in Callback(c.data.data, reply);
    }
    forall a | FindsHome(pairs, h.atom, a) ensures (table, a) in s.local.members {
      var p :| p in pairs && (a == p.key || Mentions(p.value, a) || a == h.atom);
      AtomsInAreMentioned(p.value, a);
      HousedStay(W, local, s.touches, (PutPair(h, p), c.data.epoch), table, a);
    }
  }
}
