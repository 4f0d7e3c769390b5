/** Where the code and its intention part: updates that are merged, and fetches merged across tables. */
module Gaps {
  import opened Wrappers
  import opened MsgOrder
  import opened Sexpr
  import opened AList
  import opened Commands
  import opened Protocol
  import opened History
  import opened SimpleBackend
  import opened CogIO
  import opened Repeats
  import Merging
  import Guarantees

  // ---- updates ----

  lemma UpdateText(c: Command)
    requires c.UpdateValue?
    ensures IsUpdate(Text(c)) && !TakesSequence(Text(c)) && !Replies(Text(c))
  {
    RepliesAre(c);
    TextStarts(c);
    PrefixOfPrefix(UPDATE, "(" + Word(c), Text(c));
    NothingTakesSequence(c);
  }

  /** No message the client builds passes the test of 19 characters. */
  lemma NothingTakesSequence(c: Command)
    ensures !TakesSequence(Text(c))
  {
    var t := Text(c);
    assert t[|t| - 1] == '\n';
    LiteralTestAcceptsOneText(t);
  }

  /** Exactly which programs have all their updates applied, with the test as it is written: those
      that do not make the same update twice between two barriers. */
  lemma UpdatesAppliedExactly<S(!new)>(W: World<S, Local, Packet, Change>, store: S, local: Local, ops: seq<Op<Packet>>, c: Command)
    requires IsCogWorld(W) && W.unique == TakesSequence && c.UpdateValue?
    ensures AlwaysApplied(W, store, local, ops, Text(c)) <==> !Twice(CallsOf(ops, 0), Text(c))
  {
    CallbacksAreFit(W);
    UpdateText(c);
    OnlyKeysAreRequested(W, c);
    AlwaysAppliedExactly(W, store, local, ops, Text(c));
  }

  /** The shortest such program: an update made twice can reach the server once, and the store is
      that of the program only if the second application changes nothing. */
  lemma UpdatesAreMerged<S>(W: World<S, Local, Packet, Change>, store: S, local: Local, c: Command)
    returns (actions: seq<Action<Packet>>, s: Sys<S, Local, Packet, Change>)
    requires IsCogWorld(W) && W.unique == TakesSequence && c.UpdateValue?
    ensures Reachable(W, store, local, actions, s) && Quiescent(s)
    ensures Program(actions) == [Do(Cmd(Text(c), Nothing)), Do(Cmd(Text(c), Nothing))]
    ensures s.store == W.effect(Text(c), store)
    ensures CallbacksFit(W)
    ensures s.store == SimpleRun(W, Program(actions), Both(store, local)).store
            <==> W.effect(Text(c), W.effect(Text(c), store)) == W.effect(Text(c), store)
  {
    CallbacksAreFit(W);
    UpdateText(c);
    actions, s := Merging.RepeatedCommandsMerge(W, store, local, Text(c), Nothing);
  }

  /** With the test that was meant, every update made is applied, in every run. */
  lemma NumberedUpdatesAllApplied<S>(
    W: World<S, Local, Packet, Change>, store: S, local: Local, actions: seq<Action<Packet>>, s: Sys<S, Local, Packet, Change>, c: Command)
    requires IsCogWorld(W) && W.unique == IsUpdate && c.UpdateValue? && Reachable(W, store, local, actions, s) && Quiescent(s)
    ensures Guarantees.Occurrences(s.log, Text(c)) == Guarantees.Occurrences(s.calls, Text(c))
  {
    CallbacksAreFit(W);
    UpdateText(c);
    Guarantees.NumberedCallsAllApplied(W, store, local, actions, s, Text(c));
  }

  // ---- two tables ----

  /** Fetching a value for the same atom in two tables: if the second fetch is made while the first
      is waiting, the atom of the second table never gets the value. */
  lemma TwoTablesLoseAnAnswer<S>(W: World<S, Local, Packet, Change>, store: S, local: Local, h: Atom, key: Atom, v: Value)
    returns (actions: seq<Action<Packet>>, s: Sys<S, Local, Packet, Change>)
    requires IsCogWorld(W) && W.unique == TakesSequence
    requires W.effect(Text(LoadValue(h, key)), store) == store && ReplyValue(W.answer(Text(LoadValue(h, key)), store)) == Some(v)
    requires (Ref(h, Some(2)), key) !in local.values
    ensures CallbacksFit(W)
    ensures Reachable(W, store, local, actions, s) && Quiescent(s)
    ensures Program(actions) == [Do(CmdFor(LoadValue(h, key), 1)), Do(CmdFor(LoadValue(h, key), 2))]
    ensures (Ref(h, Some(2)), key) !in s.local.values
    ensures var simple := SimpleRun(W, Program(actions), Both(store, local)).local;
            (Ref(h, Some(2)), key) in simple.values && simple.values[(Ref(h, Some(2)), key)] == v
  {
    var c := LoadValue(h, key);
    CallbacksAreFit(W);
    RepliesAre(c);
    NothingTakesSequence(c);
    var x, y := Put(Ref(h, Some(1)), key, Some(v), AtomsIn(v)), Put(Ref(h, Some(2)), key, Some(v), AtomsIn(v));
    actions, s := Merging.SecondPacketIsLost(W, store, local, Text(c), PacketOf(c, 1), PacketOf(c, 2), x, y);
  }

  /** Exactly which programs have every fetch answered for its own packet, whatever the tables: those
      that do not make it twice with different packets between two barriers. */
  lemma FetchesServedExactly<S(!new)>(W: World<S, Local, Packet, Change>, store: S, local: Local, ops: seq<Op<Packet>>, c: Command)
    requires IsCogWorld(W) && W.unique == TakesSequence && !AsksForKeys(c)
    ensures AlwaysServed(W, store, local, ops, Text(c)) <==> !Differ(CallsOf(ops, 0), Text(c))
  {
    CallbacksAreFit(W);
    NothingTakesSequence(c);
    OnlyKeysAreRequested(W, c);
    AlwaysServedExactly(W, store, local, ops, Text(c));
  }

  lemma OnlyKeysAreRequested<S>(W: World<S, Local, Packet, Change>, c: Command)
    requires IsCogWorld(W) && !AsksForKeys(c)
    ensures NoCallbackRequests(W, Text(c))
  {
    NotKeysText(c);
    forall d: Packet, reply: string, a | a in W.plan(d, reply) && a.Request? ensures a.text != Text(c) {
      var e := CallbackRequests(d, reply, a);
      KeysLetter(e.text);
    }
  }

  lemma NotKeysText(c: Command)
    requires !AsksForKeys(c)
    ensures |Text(c)| > 5 && Text(c)[5] != 'k'
  {
    OtherWord(c);
    TextStarts(c);
    WordInside(Word(c), Text(c));
  }

  lemma KeysLetter(atom: string)
    ensures |KeysText(atom)| > 5 && KeysText(atom)[5] == 'k'
  {
  }

  lemma OtherWord(c: Command)
    requires !AsksForKeys(c)
    ensures |Word(c)| > 8 && Word(c)[4] != 'k'
  {
  }
}
