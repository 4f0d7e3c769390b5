/** A load through the channel ends with the tables of the load done one request at a time. */
module SyncLoad {
  import opened Wrappers
  import opened Sexpr
  import opened ListScan
  import opened AList
  import opened RawNames
  import opened Commands
  import opened Protocol
  import opened History
  import opened Sequences
  import opened SimpleBackend
  import opened Expansion
  import opened Refinement
  import opened CogIO

  /** Commands that only look: lists of atoms, and the keys of one atom. */
  predicate Looks(c: Command)
  {
    ListsAtoms(c) || c.LoadKeys?
  }

  ghost predicate Look(table: nat, r: Cmd<Packet>)
  {
    exists c :: Proper(c) && Looks(c) && r == CmdFor(c, table)
  }

  lemma LookIsCanonical(table: nat, r: Cmd<Packet>)
    requires Look(table, r)
    ensures Canonical(table, r)
  {
    var c :| Proper(c) && Looks(c) && r == CmdFor(c, table);
    assert Unmistakable(c);
  }

  /** Fetching a link, or a node with a plain name, by itself is a look. */
  lemma PlainFetchIsLook(table: nat, a: Atom)
    requires WellFormed(a) && (a.Node? ==> PlainName(a.name))
    ensures Look(table, CmdFor(FetchKeys(a), table))
  {
    if a.Node? {
      EscapeLonger(a.name);
    }
    RawIsPrint(a, a);
    SameTextExactly(FetchKeys(a), LoadKeys(a));
    assert Proper(LoadKeys(a)) && CmdFor(FetchKeys(a), table) == CmdFor(LoadKeys(a), table);
  }

  predicate DistinctKeys(pairs: seq<Pair>)
  {
    forall i, j :: 0 <= i < j < |pairs| ==> pairs[i].key != pairs[j].key
  }

  /** A server whose looks change nothing, whose lists are printed, and whose association
      lists name each key once. */
  ghost predicate LooksOnly<S(!new)>(W: World<S, Local, Packet, Change>)
  {
    && PrintsLists(W)
    && (forall c, x :: Proper(c) && Looks(c) ==> W.effect(Text(c), x) == x)
    && (forall a, x :: WellFormed(a) ==> DistinctKeys(Pairs(SexprPairs(), W.answer(Text(LoadKeys(a)), x)).0))
  }

  // ---- changes of looks agree ----

  ghost predicate Apart(y: Change, z: Change)
  {
    y == z || y.Add? || z.Add? || (y.h, y.key) != (z.h, z.key)
  }

  lemma ChangesAgree<S>(W: World<S, Local, Packet, Change>, y: Change, z: Change)
    requires IsCogWorld(W) && Apart(y, z)
    ensures TouchesAgree(W, y, z)
  {
    forall l ensures Apply(y, Apply(z, l)) == Apply(z, Apply(y, l)) && Apply(y, Apply(y, l)) == Apply(y, l) {
      MembersAgree(y, z, l);
      ValuesAgree(y, z, l);
      ValuesAgree(y, y, l);
      MembersAgree(y, y, l);
    }
  }

  lemma MembersAgree(y: Change, z: Change, l: Local)
    ensures Apply(y, Apply(z, l)).members == Apply(z, Apply(y, l)).members
    ensures Apply(y, Apply(y, l)).members == Apply(y, l).members
  {
  }

  lemma ValuesAgree(y: Change, z: Change, l: Local)
    requires Apart(y, z)
    ensures Apply(y, Apply(z, l)).values == Apply(z, Apply(y, l)).values
    ensures Apply(y, Apply(y, l)).values == Apply(y, l).values
  {
  }

  /** What a look's callback puts: pairs of one answer, on the atom asked about. */
  lemma LookPuts<S(!new)>(W: World<S, Local, Packet, Change>, table: nat, r: Cmd<Packet>, x: S, y: Change)
    requires IsCogWorld(W) && Look(table, r) && Touch(y) in Acts(W, r, x) && y.Put?
    ensures y.h.table == Some(table) && WellFormed(y.h.atom) && r == CmdFor(LoadKeys(y.h.atom), table)
    ensures exists p <- Pairs(SexprPairs(), W.answer(r.text, x)).0 :: y == PutPair(y.h, p)
  {
    var c :| Proper(c) && Looks(c) && r == CmdFor(c, table);
    var reply := W.answer(r.text, x);
    if ListsAtoms(c) {
      ListPlanHas(table, DecodedList(AtomIn, reply).0, Touch(y));
    } else {
      var pairs := Pairs(SexprPairs(), reply).0;
      var plan := AListPlan(Ref(c.h, Some(table)), pairs);
      var i :| 0 <= i < |plan| && plan[i] == Touch(y);
      assert y == PutPair(Ref(c.h, Some(table)), pairs[i]) && pairs[i] in pairs;
    }
  }

  lemma LooksPutApart<S(!new)>(W: World<S, Local, Packet, Change>, table: nat, r: Cmd<Packet>, q: Cmd<Packet>, x: S, y: Change, z: Change)
    requires IsCogWorld(W) && LooksOnly(W) && Look(table, r) && Look(table, q)
    requires Touch(y) in Acts(W, r, x) && Touch(z) in Acts(W, q, x)
    ensures Apart(y, z)
  {
    if y.Put? && z.Put? && (y.h, y.key) == (z.h, z.key) {
      LookPuts(W, table, r, x, y);
      LookPuts(W, table, q, x, z);
      var pairs := Pairs(SexprPairs(), W.answer(r.text, x)).0;
      assert DistinctKeys(pairs);
      var p :| p in pairs && y == PutPair(y.h, p);
      var p' :| p' in pairs && z == PutPair(z.h, p');
      SameKeySamePair(pairs, p, p');
    }
  }

  lemma SameKeySamePair(pairs: seq<Pair>, p: Pair, q: Pair)
    requires DistinctKeys(pairs) && p in pairs && q in pairs && p.key == q.key
    ensures p == q
  {
  }

  // ---- looks are independent ----

  lemma LookChangesNothing<S(!new)>(W: World<S, Local, Packet, Change>, table: nat, r: Cmd<Packet>, x: S)
    requires LooksOnly(W) && Look(table, r)
    ensures W.effect(r.text, x) == x
  {
    var c :| Proper(c) && Looks(c) && r == CmdFor(c, table);
  }

  lemma LookLeadsToLooks<S(!new)>(W: World<S, Local, Packet, Change>, table: nat, r: Cmd<Packet>, x: S, a: Act<Packet, Change>)
    requires IsCogWorld(W) && LooksOnly(W) && Look(table, r) && a in Acts(W, r, x) && a.Request?
    ensures Look(table, Cmd(a.text, a.data))
  {
    var c :| Proper(c) && Looks(c) && r == CmdFor(c, table);
    var h := RequestsAreForKeys(W, table, c, x, a);
    assert Proper(LoadKeys(h)) && Looks(LoadKeys(h));
  }

  lemma LooksAreIndependent<S(!new)>(W: World<S, Local, Packet, Change>, table: nat)
    requires IsCogWorld(W) && LooksOnly(W)
    ensures Independent(W, (r: Cmd<Packet>) => Look(table, r), (x: S) => true)
  {
    var k, g := (r: Cmd<Packet>) => Look(table, r), (x: S) => true;
    forall r: Cmd<Packet>, x: S | k(r) ensures W.effect(r.text, x) == x {
      LookChangesNothing(W, table, r, x);
    }
    forall r, x, a | k(r) && a in Acts(W, r, x) && a.Request? ensures k(Cmd(a.text, a.data)) {
      LookLeadsToLooks(W, table, r, x, a);
    }
    forall r, q, x, y, z | k(r) && k(q) && Touch(y) in Acts(W, r, x) && Touch(z) in Acts(W, q, x) ensures TouchesAgree(W, y, z) {
      LooksPutApart(W, table, r, q, x, y, z);
      ChangesAgree(W, y, z);
    }
    forall r, q | k(r) && k(q) && r.text == q.text ensures r == q {
      LookIsCanonical(table, r);
      LookIsCanonical(table, q);
      TextDeterminesPacket(table, r, q);
    }
  }

  /** Any program of loads, whatever the schedule, and however often the channel merges equal
      requests, ends with the tables and values of the same loads done one request at a time. */
  lemma LoadsAgree<S(!new)>(
    W: World<S, Local, Packet, Change>, store: S, local: Local, actions: seq<Action<Packet>>, s: Sys<S, Local, Packet, Change>, table: nat)
    requires IsCogWorld(W) && LooksOnly(W) && Reachable(W, store, local, actions, s) && Quiescent(s)
    requires forall p <- ClientCalls(actions, 0) :: Look(table, p.0)
    ensures CallbacksFit(W)
    ensures Both(s.store, s.local) == SimpleRun(W, Program(actions), Both(store, local))
  {
    CallbacksAreFit(W);
    var k, g := (r: Cmd<Packet>) => Look(table, r), (x: S) => true;
    LooksAreIndependent(W, table);
    forall r: Cmd<Packet> | k(r) ensures Idempotent(Effects(W), g, r) {
      forall x ensures W.effect(r.text, W.effect(r.text, x)) == W.effect(r.text, x) {
        LookChangesNothing(W, table, r, x);
        LookChangesNothing(W, table, r, W.effect(r.text, x));
      }
    }
    AsyncDoesWhatSimpleDoes(W, store, local, actions, s, _ => k, _ => g);
  }
}
