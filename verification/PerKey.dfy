/** A condition a client can check: what it may call between the same two barriers. */
module PerKey {
  import opened Wrappers
  import opened Sexpr
  import opened AList
  import opened Commands
  import opened Protocol
  import opened History
  import opened Sequences
  import opened SimpleBackend
  import opened Expansion
  import opened Refinement
  import opened CogIO
  import opened SyncLoad

  // ---- commands ----

  /** Commands that concern one atom only. */
  predicate OnOneAtom(c: Command)
  {
    Stores(c) || c.Remove? || c.LoadValue? || c.LoadKeys?
  }

  predicate Stores(c: Command)
  {
    c.StoreAtom? || c.StoreValue? || c.UpdateValue?
  }

  /** Commands that concern some keys of one atom only. */
  predicate Keyed(c: Command)
  {
    Stores(c) || c.LoadValue?
  }

  function KeysOf(c: Command): set<Atom>
    requires Keyed(c)
  {
    if c.StoreAtom? then (if c.pairs == [] then {TruthKey} else set p <- c.pairs :: p.key)
    else {c.key}
  }

  /** Commands that do not disturb each other: equal ones, and those about different atoms or about
      different keys of an atom. */
  predicate Compatible(c: Command, d: Command)
    requires OnOneAtom(c) && OnOneAtom(d)
  {
    c == d || c.h != d.h || (Keyed(c) && Keyed(d) && KeysOf(c) !! KeysOf(d))
  }

  /** Commands that may be called between the same two barriers: looks, or compatible ones. */
  predicate Together(c: Command, d: Command)
  {
    (Looks(c) && Looks(d)) || (OnOneAtom(c) && OnOneAtom(d) && Compatible(c, d))
  }

  // ---- servers ----

  type Cells<C> = map<Atom, C>
  type Store<C> = map<Atom, Cells<C>>

  function Lookup<C>(m: Store<C>, h: Atom): Option<Cells<C>>
  {
    if h in m then Some(m[h]) else None
  }

  function Changed<C>(m: Store<C>, h: Atom, x: Option<Cells<C>>): Store<C>
  {
    if x.None? then m - {h} else m[h := x.value]
  }

  function Cell<C>(x: Option<Cells<C>>, key: Atom): Option<C>
  {
    if x.Some? && key in x.value then Some(x.value[key]) else None
  }

  /** How a server treats one atom, how a store treats one key of it, and what is answered. */
  datatype Keeper<!C> = Keeper(
    change: (Command, Option<Cells<C>>) -> Option<Cells<C>>,
    store: (Command, Atom, Option<C>) -> Option<C>,
    value: (Command, Option<C>) -> string,
    say: (Command, Option<Cells<C>>) -> string)

  /** Fetches change nothing; a store makes the atom, sets its keys and leaves the others; and
      association lists name each key once. */
  ghost predicate Keeps<C(!new)>(k: Keeper<C>)
  {
    && (forall c: Command, x :: c.LoadValue? || c.LoadKeys? ==> k.change(c, x) == x)
    && (forall c: Command, x :: Stores(c) ==> k.change(c, x).Some?)
    && (forall c: Command, x, key: Atom :: Stores(c) ==>
          Cell(k.change(c, x), key) == if key in KeysOf(c) then k.store(c, key, Cell(x, key)) else Cell(x, key))
    && (forall h, x :: DistinctKeys(Pairs(SexprPairs(), k.say(LoadKeys(h), x)).0))
  }

  /** The server treats each atom by itself, and answers a fetch of one value from that value. */
  ghost predicate KeepsApart<C(!new)>(W: World<Store<C>, Local, Packet, Change>, k: Keeper<C>)
  {
    && Keeps(k)
    && (forall c, m :: Proper(c) && OnOneAtom(c) ==> W.effect(Text(c), m) == Changed(m, c.h, k.change(c, Lookup(m, c.h))))
    && (forall c, m :: Proper(c) && c.LoadValue? ==> W.answer(Text(c), m) == k.value(c, Cell(Lookup(m, c.h), c.key)))
    && (forall c, m :: Proper(c) && c.LoadKeys? ==> W.answer(Text(c), m) == k.say(c, Lookup(m, c.h)))
  }

  // ---- compatible commands commute ----

  lemma LookupChanged<C>(m: Store<C>, h: Atom, g: Atom, x: Option<Cells<C>>)
    ensures Lookup(Changed(m, h, x), g) == if g == h then x else Lookup(m, g)
    ensures x == Lookup(m, h) ==> Changed(m, h, x) == m
  {
  }

  lemma ChangedTwice<C>(m: Store<C>, h: Atom, g: Atom, x: Option<Cells<C>>, y: Option<Cells<C>>)
    ensures h != g ==> Changed(Changed(m, h, x), g, y) == Changed(Changed(m, g, y), h, x)
    ensures h == g ==> Changed(Changed(m, h, x), g, y) == Changed(m, g, y)
  {
  }

  lemma SameCells<C>(x: Option<Cells<C>>, y: Option<Cells<C>>)
    requires x.Some? && y.Some? && forall key :: Cell(x, key) == Cell(y, key)
    ensures x == y
  {
    forall key ensures key in x.value <==> key in y.value {
      assert Cell(x, key) == Cell(y, key);
    }
    forall key | key in x.value ensures x.value[key] == y.value[key] {
      assert Cell(x, key) == Cell(y, key);
    }
    assert x.value == y.value;
  }

  /** Stores of different keys of one atom. */
  lemma StoresCommute<C(!new)>(k: Keeper<C>, c: Command, d: Command, x: Option<Cells<C>>)
    requires Keeps(k) && Stores(c) && Stores(d) && KeysOf(c) !! KeysOf(d)
    ensures k.change(c, k.change(d, x)) == k.change(d, k.change(c, x))
  {
    var y, z := k.change(c, k.change(d, x)), k.change(d, k.change(c, x));
    forall key ensures Cell(y, key) == Cell(z, key) {
    }
    SameCells(y, z);
  }

  lemma ChangesCommute<C(!new)>(k: Keeper<C>, c: Command, d: Command, x: Option<Cells<C>>)
    requires Keeps(k) && OnOneAtom(c) && OnOneAtom(d) && Compatible(c, d) && c.h == d.h
    ensures k.change(c, k.change(d, x)) == k.change(d, k.change(c, x))
  {
    if c != d && Stores(c) && Stores(d) {
      StoresCommute(k, c, d, x);
    }
  }

  lemma EffectsCommute<C(!new)>(W: World<Store<C>, Local, Packet, Change>, k: Keeper<C>, c: Command, d: Command, m: Store<C>)
    requires KeepsApart(W, k) && Proper(c) && Proper(d) && OnOneAtom(c) && OnOneAtom(d) && Compatible(c, d)
    ensures W.effect(Text(c), W.effect(Text(d), m)) == W.effect(Text(d), W.effect(Text(c), m))
  {
    var x, y := k.change(c, Lookup(m, c.h)), k.change(d, Lookup(m, d.h));
    LookupChanged(m, c.h, d.h, x);
    LookupChanged(m, d.h, c.h, y);
    if c.h == d.h {
      ChangesCommute(k, c, d, Lookup(m, c.h));
      ChangedTwice(m, c.h, c.h, x, k.change(d, x));
      ChangedTwice(m, c.h, c.h, y, k.change(c, y));
    } else {
      ChangedTwice(m, c.h, d.h, x, y);
    }
  }

  // ---- and do not change what callbacks do ----

  lemma SameAnswer<C(!new)>(W: World<Store<C>, Local, Packet, Change>, k: Keeper<C>, c: Command, d: Command, m: Store<C>)
    requires KeepsApart(W, k) && Proper(c) && Proper(d) && OnOneAtom(c) && OnOneAtom(d) && Compatible(c, d)
    requires c.LoadValue? || c.LoadKeys?
    ensures W.answer(Text(c), W.effect(Text(d), m)) == W.answer(Text(c), m)
  {
    LookupChanged(m, d.h, c.h, k.change(d, Lookup(m, d.h)));
  }

  lemma SilentPacket<S>(W: World<S, Local, Packet, Change>, table: nat, c: Command, x: S)
    requires IsCogWorld(W) && OnOneAtom(c) && !c.LoadValue? && !c.LoadKeys?
    ensures Acts(W, CmdFor(c, table), x) == []
  {
  }

  lemma SameActs<S>(W: World<S, Local, Packet, Change>, r: Cmd<Packet>, x: S, y: S)
    requires W.answer(r.text, x) == W.answer(r.text, y)
    ensures Acts(W, r, x) == Acts(W, r, y)
  {
  }

  lemma SteadyActs<C(!new)>(
    W: World<Store<C>, Local, Packet, Change>, k: Keeper<C>, table: nat, c: Command, d: Command, m: Store<C>)
    requires IsCogWorld(W) && KeepsApart(W, k) && Proper(c) && Proper(d) && OnOneAtom(c) && OnOneAtom(d) && Compatible(c, d)
    ensures Acts(W, CmdFor(c, table), W.effect(Text(d), m)) == Acts(W, CmdFor(c, table), m)
  {
    if c.LoadValue? || c.LoadKeys? {
      SameAnswer(W, k, c, d, m);
      SameActs(W, CmdFor(c, table), W.effect(Text(d), m), m);
    } else {
      SilentPacket(W, table, c, m);
      SilentPacket(W, table, c, W.effect(Text(d), m));
    }
  }

  /** Every change made belongs to the atom, and for a fetch of one value to the key, of its command. */
  lemma ChangesBelong<S>(W: World<S, Local, Packet, Change>, table: nat, c: Command, x: S, a: Act<Packet, Change>)
    requires IsCogWorld(W) && OnOneAtom(c) && a in Acts(W, CmdFor(c, table), x)
    ensures a.Touch? && a.touch.Put? && a.touch.h == Ref(c.h, Some(table)) && (c.LoadValue? || c.LoadKeys?)
    ensures c.LoadValue? ==> a.touch.key == c.key
  {
    if c.LoadKeys? {
      var plan := AListPlan(Ref(c.h, Some(table)), Pairs(SexprPairs(), W.answer(Text(c), x)).0);
      assert a in plan;
    } else if !c.LoadValue? {
      SilentPacket(W, table, c, x);
    }
  }

  lemma PairsApart(h: Ref, pairs: seq<Pair>, y: Change, z: Change)
    requires DistinctKeys(pairs) && Touch(y) in AListPlan(h, pairs) && Touch(z) in AListPlan(h, pairs)
    ensures Apart(y, z)
  {
    var plan := AListPlan(h, pairs);
    var i :| 0 <= i < |plan| && plan[i] == Touch(y);
    var j :| 0 <= j < |plan| && plan[j] == Touch(z);
    assert y == PutPair(h, pairs[i]) && z == PutPair(h, pairs[j]);
    if i < j {
      assert pairs[i].key != pairs[j].key;
    } else if j < i {
      assert pairs[j].key != pairs[i].key;
    }
  }

  lemma OwnChangesApart<C(!new)>(
    W: World<Store<C>, Local, Packet, Change>, k: Keeper<C>, table: nat, c: Command, m: Store<C>, y: Change, z: Change)
    requires IsCogWorld(W) && KeepsApart(W, k) && Proper(c) && (c.LoadValue? || c.LoadKeys?)
    requires Touch(y) in Acts(W, CmdFor(c, table), m) && Touch(z) in Acts(W, CmdFor(c, table), m)
    ensures Apart(y, z)
  {
    if c.LoadKeys? {
      PairsApart(Ref(c.h, Some(table)), Pairs(SexprPairs(), k.say(c, Lookup(m, c.h))).0, y, z);
    }
  }

  lemma ChangesApart<C(!new)>(
    W: World<Store<C>, Local, Packet, Change>, k: Keeper<C>, table: nat, c: Command, d: Command, m: Store<C>, y: Change, z: Change)
    requires IsCogWorld(W) && KeepsApart(W, k) && Proper(c) && Proper(d) && OnOneAtom(c) && OnOneAtom(d) && Compatible(c, d)
    requires Touch(y) in Acts(W, CmdFor(c, table), m) && Touch(z) in Acts(W, CmdFor(d, table), m)
    ensures Apart(y, z)
  {
    ChangesBelong(W, table, c, m, Touch(y));
    ChangesBelong(W, table, d, m, Touch(z));
    if c == d {
      OwnChangesApart(W, k, table, c, m, y, z);
    }
  }

  // ---- the commands of one epoch ----

  predicate Good(c: Command)
  {
    Proper(c) && OnOneAtom(c)
  }

  /** The commands of an epoch, compatible with each other. */
  ghost predicate Fits(plan: Command -> bool)
  {
    forall c, d :: plan(c) && plan(d) ==> Good(c) && Good(d) && Compatible(c, d)
  }

  ghost predicate Planned(table: nat, plan: Command -> bool, r: Cmd<Packet>)
  {
    exists c :: plan(c) && r == CmdFor(c, table)
  }

  ghost function AnyOf(table: nat, plan: Command -> bool): Cmd<Packet> -> bool
  {
    r => Planned(table, plan, r)
  }

  ghost function Anywhere<C>(): Store<C> -> bool
  {
    m => true
  }

  lemma FitsPair(plan: Command -> bool, c: Command, d: Command)
    requires Fits(plan) && plan(c) && plan(d)
    ensures Good(c) && Good(d) && Compatible(c, d)
  {
  }

  lemma PlannedCommand(table: nat, plan: Command -> bool, r: Cmd<Packet>) returns (c: Command)
    requires Planned(table, plan, r)
    ensures plan(c) && r == CmdFor(c, table)
  {
    c :| plan(c) && r == CmdFor(c, table);
  }

  lemma RequestsCommute<C(!new)>(
    W: World<Store<C>, Local, Packet, Change>, k: Keeper<C>, table: nat, plan: Command -> bool, r: Cmd<Packet>, q: Cmd<Packet>, m: Store<C>)
    requires KeepsApart(W, k) && Fits(plan) && Planned(table, plan, r) && Planned(table, plan, q)
    ensures W.effect(r.text, W.effect(q.text, m)) == W.effect(q.text, W.effect(r.text, m))
  {
    var c := PlannedCommand(table, plan, r);
    var d := PlannedCommand(table, plan, q);
    FitsPair(plan, c, d);
    EffectsCommute(W, k, c, d, m);
  }

  lemma RequestsSteady<C(!new)>(
    W: World<Store<C>, Local, Packet, Change>, k: Keeper<C>, table: nat, plan: Command -> bool, r: Cmd<Packet>, q: Cmd<Packet>, m: Store<C>)
    requires IsCogWorld(W) && KeepsApart(W, k) && Fits(plan) && Planned(table, plan, r) && Planned(table, plan, q)
    ensures Acts(W, r, W.effect(q.text, m)) == Acts(W, r, m)
  {
    var c := PlannedCommand(table, plan, r);
    var d := PlannedCommand(table, plan, q);
    FitsPair(plan, c, d);
    SteadyActs(W, k, table, c, d, m);
  }

  lemma RequestsLocal<C(!new)>(
    W: World<Store<C>, Local, Packet, Change>, k: Keeper<C>, table: nat, plan: Command -> bool, r: Cmd<Packet>, q: Cmd<Packet>,
    m: Store<C>, y: Change, z: Change)
    requires IsCogWorld(W) && KeepsApart(W, k) && Fits(plan) && Planned(table, plan, r) && Planned(table, plan, q)
    requires Touch(y) in Acts(W, r, m) && Touch(z) in Acts(W, q, m)
    ensures TouchesAgree(W, y, z)
  {
    var c := PlannedCommand(table, plan, r);
    var d := PlannedCommand(table, plan, q);
    FitsPair(plan, c, d);
    ChangesApart(W, k, table, c, d, m, y, z);
    ChangesAgree(W, y, z);
  }

  lemma RequestsSpawnNothing<S(!new)>(
    W: World<S, Local, Packet, Change>, table: nat, plan: Command -> bool, r: Cmd<Packet>, x: S, a: Act<Packet, Change>)
    requires IsCogWorld(W) && Fits(plan) && Planned(table, plan, r) && a in Acts(W, r, x)
    ensures !a.Request?
  {
    var c := PlannedCommand(table, plan, r);
    FitsPair(plan, c, c);
    ChangesBelong(W, table, c, x, a);
  }

  lemma PlannedSameText(table: nat, plan: Command -> bool, r: Cmd<Packet>, q: Cmd<Packet>)
    requires Fits(plan) && Planned(table, plan, r) && Planned(table, plan, q) && r.text == q.text
    ensures r == q
  {
    var c := PlannedCommand(table, plan, r);
    var d := PlannedCommand(table, plan, q);
    FitsPair(plan, c, d);
    SameTextExactly(c, d);
  }

  lemma PlannedCommute<C(!new)>(W: World<Store<C>, Local, Packet, Change>, k: Keeper<C>, table: nat, plan: Command -> bool)
    requires KeepsApart(W, k) && Fits(plan)
    ensures Commuting(Effects(W), AnyOf(table, plan), Anywhere())
  {
    forall r, q, m | Planned(table, plan, r) && Planned(table, plan, q)
      ensures W.effect(r.text, W.effect(q.text, m)) == W.effect(q.text, W.effect(r.text, m))
    {
      RequestsCommute(W, k, table, plan, r, q, m);
    }
  }

  lemma PlannedSteady<C(!new)>(W: World<Store<C>, Local, Packet, Change>, k: Keeper<C>, table: nat, plan: Command -> bool)
    requires IsCogWorld(W) && KeepsApart(W, k) && Fits(plan)
    ensures Steady(W, AnyOf(table, plan), Anywhere())
  {
    forall r, q, m | Planned(table, plan, r) && Planned(table, plan, q) ensures Acts(W, r, W.effect(q.text, m)) == Acts(W, r, m) {
      RequestsSteady(W, k, table, plan, r, q, m);
    }
  }

  lemma OnlyTouches<S(!new), L, D(!new), T(!new)>(W: World<S, L, D, T>, p: Cmd<D> -> bool, g: S -> bool)
    requires forall r, x, a :: p(r) && a in Acts(W, r, x) ==> !a.Request?
    ensures SpawnsWithin(W, p, g)
  {
  }

  lemma PlannedSpawnNothing<C(!new)>(W: World<Store<C>, Local, Packet, Change>, table: nat, plan: Command -> bool)
    requires IsCogWorld(W) && Fits(plan)
    ensures SpawnsWithin(W, AnyOf(table, plan), Anywhere())
  {
    forall r, m, a | AnyOf(table, plan)(r) && a in Acts(W, r, m) ensures !a.Request? {
      RequestsSpawnNothing(W, table, plan, r, m, a);
    }
    OnlyTouches(W, AnyOf(table, plan), Anywhere());
  }

  lemma PlannedLocal<C(!new)>(W: World<Store<C>, Local, Packet, Change>, k: Keeper<C>, table: nat, plan: Command -> bool)
    requires IsCogWorld(W) && KeepsApart(W, k) && Fits(plan)
    ensures LocalAgree(W, AnyOf(table, plan), Anywhere())
  {
    forall r, q, m, y, z | Planned(table, plan, r) && Planned(table, plan, q) && Touch(y) in Acts(W, r, m) && Touch(z) in Acts(W, q, m)
      ensures TouchesAgree(W, y, z)
    {
      RequestsLocal(W, k, table, plan, r, q, m, y, z);
    }
  }

  lemma PlannedAreIndependent<C(!new)>(W: World<Store<C>, Local, Packet, Change>, k: Keeper<C>, table: nat, plan: Command -> bool)
    requires IsCogWorld(W) && KeepsApart(W, k) && Fits(plan)
    ensures Independent(W, AnyOf(table, plan), Anywhere())
  {
    PlannedCommute(W, k, table, plan);
    PlannedSteady(W, k, table, plan);
    PlannedSpawnNothing(W, table, plan);
    PlannedLocal(W, k, table, plan);
    forall r, q | Planned(table, plan, r) && Planned(table, plan, q) && r.text == q.text ensures r == q {
      PlannedSameText(table, plan, r, q);
    }
  }

  // ---- programs ----

  /** The client's calls are the commands `cs` on the atoms of one table, and any two called between
      the same barriers go together. */
  ghost predicate Orderly(calls: seq<(Cmd<Packet>, nat)>, cs: seq<Command>, table: nat)
  {
    && |cs| == |calls|
    && (forall i :: 0 <= i < |calls| ==> Proper(cs[i]) && calls[i].0 == CmdFor(cs[i], table))
    && (forall i, j :: 0 <= i < |calls| && 0 <= j < |calls| && calls[i].1 == calls[j].1 ==> Together(cs[i], cs[j]))
  }

  ghost predicate CalledIn(calls: seq<(Cmd<Packet>, nat)>, cs: seq<Command>, n: nat, c: Command)
  {
    exists i :: 0 <= i < |calls| && i < |cs| && calls[i].1 == n && cs[i] == c
  }

  ghost function CommandsOf(calls: seq<(Cmd<Packet>, nat)>, cs: seq<Command>, n: nat): Command -> bool
  {
    c => CalledIn(calls, cs, n, c)
  }

  /** Lists are asked for in this epoch. */
  ghost predicate ListsIn(calls: seq<(Cmd<Packet>, nat)>, cs: seq<Command>, n: nat)
  {
    exists c :: CalledIn(calls, cs, n, c) && ListsAtoms(c)
  }

  lemma CommandsFit(calls: seq<(Cmd<Packet>, nat)>, cs: seq<Command>, table: nat, n: nat)
    requires Orderly(calls, cs, table) && !ListsIn(calls, cs, n)
    ensures Fits(CommandsOf(calls, cs, n))
  {
    forall c, d | CalledIn(calls, cs, n, c) && CalledIn(calls, cs, n, d) ensures Good(c) && Good(d) && Compatible(c, d) {
      CalledTogether(calls, cs, table, n, c, d);
    }
  }

  lemma CalledTogether(calls: seq<(Cmd<Packet>, nat)>, cs: seq<Command>, table: nat, n: nat, c: Command, d: Command)
    requires Orderly(calls, cs, table) && !ListsIn(calls, cs, n) && CalledIn(calls, cs, n, c) && CalledIn(calls, cs, n, d)
    ensures Good(c) && Good(d) && Compatible(c, d)
  {
    var i :| 0 <= i < |calls| && calls[i].1 == n && cs[i] == c;
    var j :| 0 <= j < |calls| && calls[j].1 == n && cs[j] == d;
    assert Together(cs[i], cs[j]) && !ListsAtoms(c) && !ListsAtoms(d);
  }

  lemma LooksThen(calls: seq<(Cmd<Packet>, nat)>, cs: seq<Command>, table: nat, i: nat)
    requires Orderly(calls, cs, table) && i < |calls| && ListsIn(calls, cs, calls[i].1)
    ensures Look(table, calls[i].0)
  {
    var c :| CalledIn(calls, cs, calls[i].1, c) && ListsAtoms(c);
    assert Together(c, cs[i]) && Looks(cs[i]);
  }

  /** Equal calls between the same barriers are numbered, or the second changes nothing. */
  ghost predicate RepeatsIdle<S(!new)>(W: World<S, Local, Packet, Change>, calls: seq<(Cmd<Packet>, nat)>)
  {
    forall i, j :: 0 <= i < j < |calls| && calls[i].1 == calls[j].1 && calls[i].0.text == calls[j].0.text ==>
                     W.unique(calls[i].0.text) || Idle(W, calls[i].0.text)
  }

  ghost predicate Idle<S(!new)>(W: World<S, Local, Packet, Change>, text: string)
  {
    forall x :: W.effect(text, W.effect(text, x)) == W.effect(text, x)
  }

  ghost function Requests(table: nat, calls: seq<(Cmd<Packet>, nat)>, cs: seq<Command>, n: nat): Cmd<Packet> -> bool
  {
    if ListsIn(calls, cs, n) then r => Look(table, r) else AnyOf(table, CommandsOf(calls, cs, n))
  }

  lemma EpochIsIndependent<C(!new)>(
    W: World<Store<C>, Local, Packet, Change>, k: Keeper<C>, calls: seq<(Cmd<Packet>, nat)>, cs: seq<Command>, table: nat, n: nat)
    requires IsCogWorld(W) && LooksOnly(W) && KeepsApart(W, k) && Orderly(calls, cs, table)
    ensures Independent(W, Requests(table, calls, cs, n), Anywhere())
  {
    if ListsIn(calls, cs, n) {
      LooksAreIndependent(W, table);
      SameIndependence(W, (r: Cmd<Packet>) => Look(table, r), Requests(table, calls, cs, n), (m: Store<C>) => true, Anywhere());
    } else {
      CommandsFit(calls, cs, table, n);
      PlannedAreIndependent(W, k, table, CommandsOf(calls, cs, n));
    }
  }

  lemma SameIndependence<S(!new), L(!new), D(!new), T(!new)>(
    W: World<S, L, D, T>, k: Cmd<D> -> bool, k': Cmd<D> -> bool, g: S -> bool, g': S -> bool)
    requires Independent(W, k, g) && (forall c :: k(c) <==> k'(c)) && (forall x :: g(x) <==> g'(x))
    ensures Independent(W, k', g')
  {
  }

  lemma CallIsRequest(calls: seq<(Cmd<Packet>, nat)>, cs: seq<Command>, table: nat, i: nat)
    requires Orderly(calls, cs, table) && i < |calls|
    ensures Requests(table, calls, cs, calls[i].1)(calls[i].0)
  {
    if ListsIn(calls, cs, calls[i].1) {
      LooksThen(calls, cs, table, i);
    } else {
      assert CalledIn(calls, cs, calls[i].1, cs[i]);
      assert CommandsOf(calls, cs, calls[i].1)(cs[i]);
    }
  }

  /** Stores, removals, updates, fetches and loads: on a server that keeps atoms apart, any program in
      which what is called between the same barriers goes together (looks with looks, or commands
      about different atoms or different keys) ends, under every schedule, with the store and
      the tables of the program done in order. */
  lemma OrderlyProgramsAgree<C(!new)>(
    W: World<Store<C>, Local, Packet, Change>, k: Keeper<C>, store: Store<C>, local: Local,
    actions: seq<Action<Packet>>, s: Sys<Store<C>, Local, Packet, Change>, table: nat, cs: seq<Command>)
    requires IsCogWorld(W) && LooksOnly(W) && KeepsApart(W, k) && Reachable(W, store, local, actions, s) && Quiescent(s)
    requires Orderly(ClientCalls(actions, 0), cs, table) && RepeatsIdle(W, ClientCalls(actions, 0))
    ensures CallbacksFit(W)
    ensures Both(s.store, s.local) == SimpleRun(W, Program(actions), Both(store, local))
  {
    CallbacksAreFit(W);
    var calls := ClientCalls(actions, 0);
    var K := (n: nat) => Requests(table, calls, cs, n);
    var G: nat -> (Store<C> -> bool) := (n: nat) => Anywhere();
    forall n: nat ensures Independent(W, K(n), G(n)) {
      EpochIsIndependent(W, k, calls, cs, table, n);
    }
    forall p | p in calls ensures K(p.1)(p.0) {
      var i :| 0 <= i < |calls| && calls[i] == p;
      CallIsRequest(calls, cs, table, i);
    }
    IdleIsHarmless(W, calls, G);
    AsyncDoesWhatSimpleDoes(W, store, local, actions, s, K, G);
  }

  lemma IdleIsHarmless<S(!new)>(W: World<S, Local, Packet, Change>, calls: seq<(Cmd<Packet>, nat)>, G: nat -> (S -> bool))
    requires RepeatsIdle(W, calls)
    ensures RepeatsHarmless(W, calls, G)
  {
    forall i, j | 0 <= i < j < |calls| && calls[i].1 == calls[j].1 && calls[i].0.text == calls[j].0.text && !W.unique(calls[i].0.text)
      ensures Idempotent(Effects(W), G(calls[i].1), calls[i].0)
    {
      assert Idle(W, calls[i].0.text);
    }
  }

  // ---- such servers exist ----

  /** The command, other than a single fetch, that is sent as this text. */
  ghost function Named(text: string): Option<Command>
  {
    if c :| Names(c, text) then Some(c) else None
  }

  ghost predicate Names(c: Command, text: string)
  {
    Proper(c) && !c.FetchKeys? && Text(c) == text
  }

  lemma NamedByItsText(c: Command)
    requires Proper(c) && !c.FetchKeys?
    ensures Named(Text(c)) == Some(c)
  {
    assert Names(c, Text(c));
    var d := Named(Text(c)).value;
    SameTextExactly(c, d);
  }

  ghost function Serve<C>(k: Keeper<C>, text: string, m: Store<C>): Store<C>
  {
    var c := Named(text);
    if c.Some? && OnOneAtom(c.value) then Changed(m, c.value.h, k.change(c.value, Lookup(m, c.value.h))) else m
  }

  ghost function EffectOf<C>(k: Keeper<C>): (string, Store<C>) -> Store<C>
  {
    (text, m) => Serve(k, text, m)
  }

  ghost function AnswerOf<C>(k: Keeper<C>, lists: (Command, Store<C>) -> string): (string, Store<C>) -> string
  {
    (text, m) => Reply(k, lists, text, m)
  }

  ghost function Reply<C>(k: Keeper<C>, lists: (Command, Store<C>) -> string, text: string, m: Store<C>): string
  {
    match Named(text)
    case Some(c) =>
      if c.LoadValue? then k.value(c, Cell(Lookup(m, c.h), c.key))
      else if OnOneAtom(c) then k.say(c, Lookup(m, c.h))
      else lists(c, m)
    case None => ""
  }

  lemma LookServed<C(!new)>(k: Keeper<C>, c: Command, m: Store<C>)
    requires Keeps(k) && Proper(c) && Looks(c)
    ensures Serve(k, Text(c), m) == m
  {
    NamedByItsText(c);
    if c.LoadKeys? {
      LookupChanged(m, c.h, c.h, k.change(c, Lookup(m, c.h)));
    }
  }

  lemma OneAtomServed<C(!new)>(k: Keeper<C>, lists: (Command, Store<C>) -> string, c: Command, m: Store<C>)
    requires Proper(c) && OnOneAtom(c)
    ensures Serve(k, Text(c), m) == Changed(m, c.h, k.change(c, Lookup(m, c.h)))
    ensures c.LoadValue? ==> Reply(k, lists, Text(c), m) == k.value(c, Cell(Lookup(m, c.h), c.key))
    ensures c.LoadKeys? ==> Reply(k, lists, Text(c), m) == k.say(c, Lookup(m, c.h))
  {
    NamedByItsText(c);
  }

  lemma ListServed<C(!new)>(k: Keeper<C>, lists: (Command, Store<C>) -> string, c: Command, m: Store<C>)
    requires Proper(c) && ListsAtoms(c)
    ensures Reply(k, lists, Text(c), m) == lists(c, m)
  {
    NamedByItsText(c);
  }

  ghost function Server<C>(unique: string -> bool, k: Keeper<C>, lists: (Command, Store<C>) -> string): World<Store<C>, Local, Packet, Change>
  {
    CogWorld(unique, EffectOf(k), AnswerOf(k, lists))
  }

  lemma ServesLooks<C(!new)>(unique: string -> bool, k: Keeper<C>, lists: (Command, Store<C>) -> string)
    requires Keeps(k) && forall c, m :: PrintedList(lists(c, m))
    ensures LooksOnly(Server(unique, k, lists))
  {
    forall c, m: Store<C> | Proper(c) && Looks(c) ensures Serve(k, Text(c), m) == m {
      LookServed(k, c, m);
    }
    forall c, m: Store<C> | Proper(c) && ListsAtoms(c) ensures Reply(k, lists, Text(c), m) == lists(c, m) {
      ListServed(k, lists, c, m);
    }
    forall h, m: Store<C> | WellFormed(h) ensures Reply(k, lists, Text(LoadKeys(h)), m) == k.say(LoadKeys(h), Lookup(m, h)) {
      OneAtomServed(k, lists, LoadKeys(h), m);
    }
  }

  lemma ServesAtoms<C(!new)>(unique: string -> bool, k: Keeper<C>, lists: (Command, Store<C>) -> string)
    requires Keeps(k)
    ensures KeepsApart(Server(unique, k, lists), k)
  {
    forall c, m: Store<C> | Proper(c) && OnOneAtom(c)
      ensures Serve(k, Text(c), m) == Changed(m, c.h, k.change(c, Lookup(m, c.h)))
      ensures c.LoadValue? ==> Reply(k, lists, Text(c), m) == k.value(c, Cell(Lookup(m, c.h), c.key))
      ensures c.LoadKeys? ==> Reply(k, lists, Text(c), m) == k.say(c, Lookup(m, c.h))
    {
      OneAtomServed(k, lists, c, m);
    }
  }

  /** Because texts determine commands, every way of treating single atoms and of printing lists
      makes a server that the theorem is about. */
  lemma EveryKeeperServes<C(!new)>(unique: string -> bool, k: Keeper<C>, lists: (Command, Store<C>) -> string)
    requires Keeps(k) && forall c, m :: PrintedList(lists(c, m))
    ensures IsCogWorld(Server(unique, k, lists)) && KeepsApart(Server(unique, k, lists), k) && LooksOnly(Server(unique, k, lists))
  {
    ServesAtoms(unique, k, lists);
    ServesLooks(unique, k, lists);
  }
}
