/** Decoding an association list `((KEY . VALUE)(KEY2 . VALUE2)...)` onto an atom. */
module AList {
  import opened Wrappers
  import opened Sexpr
  import opened ListScan

  /** How reading ends: no pair left, a decoding error, a key without the separator behind it, or never. */
  datatype Outcome = Ended | Threw | NoDot(key: Atom) | Endless

  datatype Pair = Pair(key: Atom, value: Value)

  datatype PairRead = One(pair: Pair, next: nat) | Failed | Dotless(key: Atom)

  function SkipBlanks(s: string, p: nat): (n: nat)
    requires p <= |s|
    ensures p <= n <= |s| && (n < |s| ==> !IsBlank(s[n])) && forall i :: p <= i < n ==> IsBlank(s[i])
    decreases |s| - p
  {
    if p == |s| || !IsBlank(s[p]) then p else SkipBlanks(s, p + 1)
  }

  /** A parser takes something off the front of a text; a reader finds it behind a position. */
  type Parser<!A> = f: string -> Option<(A, string)>
    | forall s: string :: f(s).Some? ==> |f(s).value.1| < |s|
    witness s => None

  type Reader<!A> = f: (string, nat) -> Option<(A, nat)>
    | forall s: string, p: nat :: f(s, p).Some? ==> p < f(s, p).value.1 <= |s|
    witness (s, p) => None

  /** What stands at `p` behind blanks, and the position behind it. */
  function ReadAt<A>(parse: Parser<A>, s: string, p: nat): (r: Option<(A, nat)>)
    ensures r.Some? ==> p < r.value.1 <= |s|
  {
    if p > |s| then None
    else
      var l := SkipBlanks(s, p);
      var a := parse(s[l..]);
      if a.None? then None else Some((a.value.0, |s| - |a.value.1|))
  }

  function ReaderOf<A>(parse: Parser<A>): Reader<A>
  {
    (s, p) => ReadAt(parse, s, p)
  }

  function KeyReader(): Reader<Atom>
  {
    ReaderOf(ParseAtom)
  }

  function ValueReader(): Reader<Value>
  {
    ReaderOf(ParseValue)
  }

  const DOT := " . "

  predicate DotAt(s: string, i: nat)
  {
    i + 3 <= |s| && s[i..i + 3] == DOT
  }

  /** Index of the first separator at or behind `p`, if any. */
  function FindDot(s: string, p: nat): (n: Option<nat>)
    requires p <= |s|
    ensures n.Some? ==> p <= n.value && DotAt(s, n.value) && forall i :: p <= i < n.value ==> !DotAt(s, i)
    ensures n.None? ==> forall i :: p <= i ==> !DotAt(s, i)
    decreases |s| - p
  {
    if p == |s| then None else if DotAt(s, p) then Some(p) else FindDot(s, p + 1)
  }

  /** One pair, from behind its parenthesis. */
  function PairBy(keys: Reader<Atom>, values: Reader<Value>, s: string, p: nat): (r: PairRead)
    ensures r.One? ==> p < r.next <= |s|
  {
    var k := keys(s, p);
    if k.None? then Failed
    else
      var d := FindDot(s, k.value.1);
      if d.None? then Dotless(k.value.0)
      else
        var v := values(s, d.value + 3);
        if v.None? then Failed else One(Pair(k.value.0, v.value.0), v.value.1)
  }

  /** Any way of reading a pair that moves forward. */
  type PairReader = f: (string, nat) -> PairRead
    | forall s: string, p: nat :: f(s, p).One? ==> p < f(s, p).next <= |s|
    witness (s, p) => Failed

  function PairsBy(keys: Reader<Atom>, values: Reader<Value>): PairReader
  {
    (s: string, p: nat) => PairBy(keys, values, s, p)
  }

  datatype Readers = Readers(pair: PairReader, value: Reader<Value>)

  function SexprPairs(): Readers
  {
    Readers(PairsBy(KeyReader(), ValueReader()), ValueReader())
  }

  /** The pairs up to the end, the first fault, or the first key without separator. */
  function PairsFrom(reader: PairReader, s: string, pos: nat): (seq<Pair>, Outcome)
    requires pos <= |s|
    decreases |s| - pos
  {
    var p := Find(s, '(', pos);
    if p == |s| then ([], Ended)
    else
      match reader(s, p + 1)
      case Failed => ([], Threw)
      case Dotless(key) => ([], NoDot(key))
      case One(pair, next) => Then([pair], PairsFrom(reader, s, next))
  }

  function Then(read: seq<Pair>, rest: (seq<Pair>, Outcome)): (seq<Pair>, Outcome)
  {
    (read + rest.0, rest.1)
  }

  /** A second key without separator throws the loop back to where it was. */
  function Final(rest: (seq<Pair>, Outcome)): (seq<Pair>, Outcome)
  {
    if rest.1.NoDot? then (rest.0, Endless) else rest
  }

  /** If a key has no separator behind it, the search for it returns the largest position, adding 3
      wraps round to 2, and the loop takes what stands there for the value and goes on behind it. */
  function ThrownBack(r: Readers, s: string, key: Atom): (seq<Pair>, Outcome)
  {
    var v := r.value(s, 2);
    if v.None? then ([], Threw) else Then([Pair(key, v.value.0)], Final(PairsFrom(r.pair, s, v.value.1)))
  }

  function AllFrom(r: Readers, s: string, pos: nat, thrown: bool): (seq<Pair>, Outcome)
    requires pos <= |s|
  {
    var first := PairsFrom(r.pair, s, pos);
    if thrown then Final(first)
    else if first.1.NoDot? then Then(first.0, ThrownBack(r, s, first.1.key))
    else first
  }

  /** All pairs that the loop puts on the atom, and how it ends. */
  function Pairs(r: Readers, s: string): (seq<Pair>, Outcome)
  {
    var p := SkipBlanks(s, 0);
    if p == |s| then ([], Ended) else if s[p] != '(' then ([], Threw) else AllFrom(r, s, p + 1, false)
  }

  // ---- the decoder ----

  /** Later pairs replace earlier ones and what was there before. */
  function Override(m: map<Atom, Value>, pairs: seq<Pair>): map<Atom, Value>
    decreases |pairs|
  {
    if pairs == [] then m else Override(m[pairs[0].key := pairs[0].value], pairs[1..])
  }

  function AtomsIn(v: Value): set<Atom>
  {
    match v
    case Values(vals) => set w <- vals, a <- AtomsIn(w) :: a
    case Linked(a) => {a}
    case _ => {}
  }

  /** The atom stands in the value at the place to which the indices lead. */
  ghost predicate StandsIn(v: Value, path: seq<nat>, a: Atom)
    decreases |path|
  {
    if path == [] then v == Linked(a) else v.Values? && path[0] < |v.vals| && StandsIn(v.vals[path[0]], path[1..], a)
  }

  ghost predicate Mentions(v: Value, a: Atom)
  {
    exists path :: StandsIn(v, path, a)
  }

  /** The atoms in a value are those at some place in it. */
  lemma {:induction false} AtomsInAreMentioned(v: Value, a: Atom)
    ensures a in AtomsIn(v) <==> Mentions(v, a)
    decreases v
  {
    if v.Values? {
      forall i | 0 <= i < |v.vals| ensures a in AtomsIn(v.vals[i]) <==> Mentions(v.vals[i], a) {
        AtomsInAreMentioned(v.vals[i], a);
      }
      forall i: nat, path | i < |v.vals| && StandsIn(v.vals[i], path, a) ensures Mentions(v, a) {
        assert ([i] + path)[1..] == path;
        assert StandsIn(v, [i] + path, a);
      }
      forall path | StandsIn(v, path, a) ensures exists i :: 0 <= i < |v.vals| && Mentions(v.vals[i], a) {
        assert StandsIn(v.vals[path[0]], path[1..], a);
      }
    } else {
      assert StandsIn(v, [], a) <==> v == Linked(a);
      forall path | StandsIn(v, path, a) ensures path == [] {
      }
    }
  }

  /** What becomes a member of the atom space: keys, atoms inside values, and the atom itself. */
  function Housed(before: set<Atom>, pairs: seq<Pair>, atom: Atom): set<Atom>
    decreases |pairs|
  {
    if pairs == [] then before else Housed(before + Members(pairs[0], atom), pairs[1..], atom)
  }

  function Members(p: Pair, atom: Atom): set<Atom>
  {
    {p.key} + AtomsIn(p.value) + {atom}
  }

  class AtomSpace {
    var atoms: set<Atom>

    constructor ()
      ensures atoms == {}
    {
      atoms := {};
    }

    method Add(a: Atom)
      modifies this
      ensures atoms == old(atoms) + {a}
    {
      atoms := atoms + {a};
    }

    method AddAtomsIn(v: Value)
      modifies this
      ensures atoms == old(atoms) + AtomsIn(v)
    {
      atoms := atoms + AtomsIn(v);
    }
  }

  /** An atom with its values, possibly living in an atom space. */
  class Handle {
    const atom: Atom
    const space: AtomSpace?
    var values: map<Atom, Value>

    constructor (atom: Atom, space: AtomSpace?)
      ensures this.atom == atom && this.space == space && values == map[]
    {
      this.atom, this.space, values := atom, space, map[];
    }

    method SetValue(key: Atom, value: Value)
      modifies this
      ensures values == old(values)[key := value]
    {
      values := values[key := value];
    }

    /** The value is set, and everything it mentions finds a home. */
    method Keep(pair: Pair, home: AtomSpace?)
      modifies this, home
      ensures values == old(values)[pair.key := pair.value]
      ensures home != null ==> home.atoms == old(home.atoms) + Members(pair, atom)
    {
      if home != null {
        home.Add(pair.key);
        home.AddAtomsIn(pair.value);
        SetValue(pair.key, pair.value);
        home.Add(atom);
      } else {
        SetValue(pair.key, pair.value);
      }
    }
  }

  /** Where keys and values found on `atom` are to live. */
  function Home(table: AtomSpace?, atom: Handle): AtomSpace?
  {
    if table == null then atom.space else table
  }

  /** The decoder's loop.  The atom gets every pair read, left to right, whatever the outcome.  When
      the loop would go round for ever the method returns instead, and says so. */
  method RoDecodeAlist(r: Readers, table: AtomSpace?, atom: Handle, alist: string) returns (outcome: Outcome)
    modifies atom, Home(table, atom)
    ensures outcome == Pairs(r, alist).1
    ensures atom.values == Override(old(atom.values), Pairs(r, alist).0)
    ensures var home := if table == null then atom.space else table; home != null ==>
              home.atoms == Housed(old(home.atoms), Pairs(r, alist).0, atom.atom)
              && forall a :: a in home.atoms <==> a in old(home.atoms) || FindsHome(Pairs(r, alist).0, atom.atom, a)
  {
    HouseIsFound();
    var home := Home(table, atom);
    ghost var before := if home == null then {} else home.atoms;
    var pos := SkipBlanks(alist, 0);
    if pos == |alist| {
      return Ended;
    }
    if alist[pos] != '(' {
      return Threw;
    }
    ghost var read: seq<Pair> := [];
    NoneRead(AllFrom(r, alist, pos + 1, false));
    FromNextParen(r, alist, pos + 1, false);
    pos := Find(alist, '(', pos + 1);
    var thrown := false;
    while pos < |alist|
      invariant 0 <= pos <= |alist| && (pos < |alist| ==> alist[pos] == '(')
      invariant Pairs(r, alist) == Then(read, AllFrom(r, alist, pos, thrown))
      invariant atom.values == Override(old(atom.values), read)
      invariant home != null ==> home.atoms == Housed(before, read, atom.atom)
      decreases !thrown, |alist| - pos
    {
      var pass := OnePass(r, alist, pos, thrown, read);
      if pass.Stop? {
        return pass.outcome;
      }
      atom.Keep(pass.pair, home);
      HousedLast(before, read, pass.pair, atom.atom);
      OverrideLast(old(atom.values), read, pass.pair);
      read := read + [pass.pair];
      pos, thrown := Find(alist, '(', pass.next), pass.thrown;
    }
    AllRead(read, Ended);
    return Ended;
  }

  // ---- one pass ----

  datatype PassResult = Stop(outcome: Outcome) | Go(pair: Pair, next: nat, thrown: bool)

  /** The pair at the parenthesis at `pos`, and where to go on; or the end of the loop. */
  method OnePass(r: Readers, s: string, pos: nat, thrown: bool, ghost read: seq<Pair>) returns (pass: PassResult)
    requires pos < |s| && s[pos] == '('
    ensures pass.Stop? ==> Then(read, AllFrom(r, s, pos, thrown)) == (read, pass.outcome)
    ensures pass.Go? ==>
              && pass.next <= |s| && ((pass.thrown == thrown && pos < pass.next) || (pass.thrown && !thrown))
              && Then(read, AllFrom(r, s, pos, thrown)) == Then(read + [pass.pair], AllFrom(r, s, Find(s, '(', pass.next), pass.thrown))
  {
    LoopStops(r, s, pos, thrown, read);
    var p := r.pair(s, pos + 1);
    match p
    case Failed => return Stop(Threw);
    case One(pair, next) =>
      LoopGoesOn(r, s, pos, thrown, read);
      return Go(pair, next, thrown);
    case Dotless(key) =>
      if thrown {
        return Stop(Endless);
      }
      var v := r.value(s, 2);
      if v.None? {
        return Stop(Threw);
      }
      LoopIsThrownBack(r, s, pos, read);
      return Go(Pair(key, v.value.0), v.value.1, true);
  }

  lemma LoopStops(r: Readers, s: string, pos: nat, thrown: bool, read: seq<Pair>)
    requires pos < |s| && s[pos] == '('
    ensures var p := r.pair(s, pos + 1);
            var all := Then(read, AllFrom(r, s, pos, thrown));
            && (p.Failed? ==> all == (read, Threw))
            && (p.Dotless? && thrown ==> all == (read, Endless))
            && (p.Dotless? && !thrown && r.value(s, 2).None? ==> all == (read, Threw))
  {
    AllRead(read, Threw);
    AllRead(read, Endless);
    NoneRead(([], Threw));
  }

  lemma LoopGoesOn(r: Readers, s: string, pos: nat, thrown: bool, read: seq<Pair>)
    requires pos < |s| && s[pos] == '(' && r.pair(s, pos + 1).One?
    ensures var p := r.pair(s, pos + 1);
            Then(read, AllFrom(r, s, pos, thrown)) == Then(read + [p.pair], AllFrom(r, s, Find(s, '(', p.next), thrown))
  {
    var p := r.pair(s, pos + 1);
    PairsFromStep(r.pair, s, pos, pos, p.pair, p.next);
    AllFromStep(r, s, pos, p.pair, p.next, thrown);
    ThenOneMore(read, p.pair, AllFrom(r, s, p.next, thrown));
    FromNextParen(r, s, p.next, thrown);
  }

  lemma LoopIsThrownBack(r: Readers, s: string, pos: nat, read: seq<Pair>)
    requires pos < |s| && s[pos] == '(' && r.pair(s, pos + 1).Dotless? && r.value(s, 2).Some?
    ensures var pair := Pair(r.pair(s, pos + 1).key, r.value(s, 2).value.0);
            Then(read, AllFrom(r, s, pos, false)) == Then(read + [pair], AllFrom(r, s, Find(s, '(', r.value(s, 2).value.1), true))
  {
    var pair, next := Pair(r.pair(s, pos + 1).key, r.value(s, 2).value.0), r.value(s, 2).value.1;
    NoneRead(ThrownBack(r, s, pair.key));
    ThenOneMore(read, pair, AllFrom(r, s, next, true));
    FromNextParen(r, s, next, true);
  }

  lemma AllFromStep(r: Readers, s: string, pos: nat, pair: Pair, next: nat, thrown: bool)
    requires pos <= |s| && next <= |s| && PairsFrom(r.pair, s, pos) == Then([pair], PairsFrom(r.pair, s, next))
    ensures AllFrom(r, s, pos, thrown) == Then([pair], AllFrom(r, s, next, thrown))
  {
    var rest := PairsFrom(r.pair, s, next);
    if rest.1.NoDot? {
      var back := ThrownBack(r, s, rest.1.key);
      assert ([pair] + rest.0) + back.0 == [pair] + (rest.0 + back.0);
    }
  }

  lemma PairsFromStep(reader: PairReader, s: string, p: nat, q: nat, pair: Pair, next: nat)
    requires p <= |s| && Find(s, '(', p) == q < |s| && reader(s, q + 1) == One(pair, next)
    ensures PairsFrom(reader, s, p) == Then([pair], PairsFrom(reader, s, next))
  {
  }

  lemma AllRead(read: seq<Pair>, outcome: Outcome)
    ensures Then(read, ([], outcome)) == (read, outcome)
  {
    assert read + [] == read;
  }

  lemma NoneRead(rest: (seq<Pair>, Outcome))
    ensures Then([], rest) == rest
  {
    assert [] + rest.0 == rest.0;
  }

  lemma FromNextParen(r: Readers, s: string, pos: nat, thrown: bool)
    requires pos <= |s|
    ensures AllFrom(r, s, pos, thrown) == AllFrom(r, s, Find(s, '(', pos), thrown)
  {
    assert PairsFrom(r.pair, s, pos) == PairsFrom(r.pair, s, Find(s, '(', pos));
  }

  lemma ThenOneMore(read: seq<Pair>, pair: Pair, rest: (seq<Pair>, Outcome))
    ensures Then(read, Then([pair], rest)) == Then(read + [pair], rest)
  {
    assert read + ([pair] + rest.0) == (read + [pair]) + rest.0;
  }

  lemma {:induction false} HousedLast(before: set<Atom>, read: seq<Pair>, pair: Pair, atom: Atom)
    ensures Housed(before, read + [pair], atom) == Housed(before, read, atom) + Members(pair, atom)
    decreases |read|
  {
    if read == [] {
      assert read + [pair] == [pair];
    } else {
      assert (read + [pair])[1..] == read[1..] + [pair];
      HousedLast(before + Members(read[0], atom), read[1..], pair, atom);
    }
  }

  /** The atom is a key, or stands somewhere in a value, or is the one that gets the values. */
  ghost predicate FindsHome(pairs: seq<Pair>, atom: Atom, a: Atom)
  {
    exists p <- pairs :: a == p.key || Mentions(p.value, a) || a == atom
  }

  lemma {:induction false} HousedMembers(before: set<Atom>, pairs: seq<Pair>, atom: Atom, a: Atom)
    ensures a in Housed(before, pairs, atom) <==> a in before || FindsHome(pairs, atom, a)
    decreases |pairs|
  {
    if pairs != [] {
      AtomsInAreMentioned(pairs[0].value, a);
      HousedMembers(before + Members(pairs[0], atom), pairs[1..], atom, a);
      assert pairs == [pairs[0]] + pairs[1..];
    }
  }

  lemma HouseIsFound()
    ensures forall before, pairs, atom, a :: a in Housed(before, pairs, atom) <==> a in before || FindsHome(pairs, atom, a)
  {
    forall before, pairs, atom, a ensures a in Housed(before, pairs, atom) <==> a in before || FindsHome(pairs, atom, a) {
      HousedMembers(before, pairs, atom, a);
    }
  }

  lemma {:induction false} OverrideLast(m: map<Atom, Value>, read: seq<Pair>, pair: Pair)
    ensures Override(m, read + [pair]) == Override(m, read)[pair.key := pair.value]
    decreases |read|
  {
    if read == [] {
      assert read + [pair] == [pair];
    } else {
      assert (read + [pair])[1..] == read[1..] + [pair];
      OverrideLast(m[read[0].key := read[0].value], read[1..], pair);
    }
  }

  /** What the last pair with this key says, if there is one. */
  function LastOf(pairs: seq<Pair>, key: Atom): Option<Value>
  {
    if pairs == [] then None
    else if pairs[|pairs| - 1].key == key then Some(pairs[|pairs| - 1].value)
    else LastOf(pairs[..|pairs| - 1], key)
  }

  /** Left-to-right override: a key gets the value of its last pair, and no other key changes. */
  lemma {:induction false} OverrideIsLastPair(m: map<Atom, Value>, pairs: seq<Pair>, key: Atom)
    ensures match LastOf(pairs, key)
            case Some(v) => key in Override(m, pairs) && Override(m, pairs)[key] == v
            case None => (key in Override(m, pairs) <==> key in m) && (key in m ==> Override(m, pairs)[key] == m[key])
  {
    if pairs != [] {
      var init, last := pairs[..|pairs| - 1], pairs[|pairs| - 1];
      assert pairs == init + [last];
      OverrideLast(m, init, last);
      OverrideIsLastPair(m, init, key);
    }
  }

  // ---- printed lists are read back ----

  predicate PairFits(p: Pair)
  {
    WellFormed(p.key) && WellFormedValue(p.value)
  }

  /** Printed pairs, each preceded by blanks. */
  function PrintedPairs(pairs: seq<Pair>, gaps: seq<string>): string
    requires |gaps| == |pairs|
  {
    if pairs == [] then ""
    else gaps[0] + ("(" + (Print(pairs[0].key) + (DOT + (PrintValue(pairs[0].value) + (")" + PrintedPairs(pairs[1..], gaps[1..]))))))
  }

  predicate NoParen(t: string)
  {
    forall c <- t :: c != '('
  }

  lemma Behind2(s: string, p: nat, t: string, u: string)
    requires p <= |s| && s[p..] == t + u
    ensures p + |t| <= |s| && s[p + |t|..] == u
  {
    assert |s[p..]| == |t| + |u|;
    assert s[p..][|t|..] == u;
  }

  /** The reader reads `x` back from `text`, wherever it stands and whatever follows. */
  ghost predicate ReadsBack<A>(reader: Reader<A>, x: A, text: string)
  {
    forall s, p: nat, tail :: StandsAt(s, p, text, tail) ==> reader(s, p) == Some((x, p + |text|))
  }

  ghost predicate StandsAt(s: string, p: nat, text: string, tail: string)
  {
    p <= |s| && s[p..] == text + tail
  }

  ghost predicate ParsesBack<A>(parse: Parser<A>, x: A, text: string)
  {
    text != "" && text[0] == '(' && forall tail :: parse(text + tail) == Some((x, tail))
  }

  lemma ReadAtText<A>(parse: Parser<A>, s: string, p: nat, x: A, text: string, tail: string)
    requires StandsAt(s, p, text, tail) && ParsesBack(parse, x, text)
    ensures ReadAt(parse, s, p) == Some((x, p + |text|))
  {
    Behind2(s, p, text, tail);
    assert s[p] == s[p..][0] == text[0];
  }

  lemma ReadBack<A>(parse: Parser<A>, x: A, text: string)
    requires ParsesBack(parse, x, text)
    ensures ReadsBack(ReaderOf(parse), x, text)
  {
    forall s, p: nat, tail | StandsAt(s, p, text, tail) ensures ReadAt(parse, s, p) == Some((x, p + |text|)) {
      ReadAtText(parse, s, p, x, text, tail);
    }
  }

  lemma KeyReadBack(a: Atom)
    requires WellFormed(a)
    ensures ReadsBack(KeyReader(), a, Print(a))
  {
    PrintStarts(a);
    forall tail ensures ParseAtom(Print(a) + tail) == Some((a, tail)) {
      ParseInvertsPrint(a, tail);
    }
    ReadBack(ParseAtom, a, Print(a));
  }

  lemma PrintStarts(a: Atom)
    ensures Print(a) != "" && Print(a)[0] == '('
  {
  }

  lemma ValueReadBack(v: Value)
    requires WellFormedValue(v)
    ensures ReadsBack(ValueReader(), v, PrintValue(v))
  {
    ValueStarts(v);
    forall tail ensures ParseValue(PrintValue(v) + tail) == Some((v, tail)) {
      ParseInvertsPrintValue(v, tail);
    }
    ReadBack(ParseValue, v, PrintValue(v));
  }

  lemma PairByText(keys: Reader<Atom>, values: Reader<Value>, s: string, p: nat, pair: Pair, k: string, v: string, rest: string)
    requires ReadsBack(keys, pair.key, k) && ReadsBack(values, pair.value, v) && StandsAt(s, p, k, DOT + (v + rest))
    ensures |rest| <= |s| && PairBy(keys, values, s, p) == One(pair, |s| - |rest|) && s[|s| - |rest|..] == rest
  {
    var d := p + |k|;
    Behind2(s, p, k, DOT + (v + rest));
    Behind2(s, d, DOT, v + rest);
    Behind2(s, d + 3, v, rest);
    assert StandsAt(s, d + 3, v, rest);
    assert DotAt(s, d) by {
      assert s[d..d + 3] == s[d..][..3] == DOT;
    }
    assert FindDot(s, d) == Some(d);
  }

  lemma {:induction false} FindSkips(s: string, p: nat, t: string)
    requires p + |t| <= |s| && s[p..p + |t|] == t && NoParen(t)
    ensures Find(s, '(', p) == Find(s, '(', p + |t|)
    decreases |t|
  {
    if t != "" {
      assert s[p] == t[0] && s[p + 1..p + 1 + |t[1..]|] == t[1..];
      assert t[0] in t && forall c <- t[1..] :: c in t;
      FindSkips(s, p + 1, t[1..]);
    }
  }

  lemma FindInFront(s: string, p: nat, t: string, u: string)
    requires p <= |s| && s[p..] == t + u && NoParen(t)
    ensures p + |t| <= |s| && s[p + |t|..] == u && Find(s, '(', p) == Find(s, '(', p + |t|)
  {
    Behind2(s, p, t, u);
    assert s[p..p + |t|] == s[p..][..|t|] == t;
    FindSkips(s, p, t);
  }

  /** The reader reads back the pair printed, wherever it stands and whatever follows. */
  ghost predicate Inverts(reader: PairReader, pair: Pair)
  {
    forall s, p, rest :: Stands(s, p, pair, rest) ==> reader(s, p) == One(pair, |s| - |rest|) && s[|s| - |rest|..] == rest
  }

  ghost predicate Stands(s: string, p: nat, pair: Pair, rest: string)
  {
    |rest| <= |s| && StandsAt(s, p, Print(pair.key), DOT + (PrintValue(pair.value) + rest))
  }

  lemma PairsByInvert(keys: Reader<Atom>, values: Reader<Value>, pair: Pair)
    requires ReadsBack(keys, pair.key, Print(pair.key)) && ReadsBack(values, pair.value, PrintValue(pair.value))
    ensures Inverts(PairsBy(keys, values), pair)
  {
    forall s, p, rest | Stands(s, p, pair, rest)
      ensures PairBy(keys, values, s, p) == One(pair, |s| - |rest|) && s[|s| - |rest|..] == rest
    {
      PairByText(keys, values, s, p, pair, Print(pair.key), PrintValue(pair.value), rest);
    }
  }

  function PairText(pair: Pair, rest: string): string
  {
    Print(pair.key) + (DOT + (PrintValue(pair.value) + rest))
  }

  lemma NextParen(s: string, p: nat, before: string, body: string) returns (q: nat)
    requires NoParen(before) && p <= |s| && s[p..] == before + ("(" + body)
    ensures Find(s, '(', p) == q < |s| && s[q + 1..] == body
  {
    q := p + |before|;
    FindInFront(s, p, before, "(" + body);
    Behind2(s, q, "(", body);
    assert s[q] == s[q..][0];
  }

  /** Up to the next parenthesis, and over one pair. */
  lemma OnePair(reader: PairReader, s: string, p: nat, before: string, pair: Pair, rest: string) returns (next: nat)
    requires Inverts(reader, pair) && NoParen(before) && p <= |s| && s[p..] == before + ("(" + PairText(pair, rest))
    ensures next <= |s| && s[next..] == rest && PairsFrom(reader, s, p) == Then([pair], PairsFrom(reader, s, next))
  {
    var q := NextParen(s, p, before, PairText(pair, rest));
    PairTaken(reader, s, q + 1, pair, rest);
    next := |s| - |rest|;
    PairsFromStep(reader, s, p, q, pair, next);
  }

  lemma PairTaken(reader: PairReader, s: string, p: nat, pair: Pair, rest: string)
    requires Inverts(reader, pair) && p <= |s| && s[p..] == PairText(pair, rest)
    ensures |rest| <= |s| && s[|s| - |rest|..] == rest && reader(s, p) == One(pair, |s| - |rest|)
  {
    assert |s[p..]| == |Print(pair.key)| + (3 + (|PrintValue(pair.value)| + |rest|));
    assert Stands(s, p, pair, rest);
  }

  lemma NoPair(reader: PairReader, s: string, p: nat, before: string)
    requires NoParen(before) && p <= |s| && s[p..] == before
    ensures PairsFrom(reader, s, p) == ([], Ended)
  {
    assert before == before + "";
    FindInFront(s, p, before, "");
  }

  lemma Regroup(before: string, pairs: seq<Pair>, gaps: seq<string>, last: string)
    requires |gaps| == |pairs| > 0
    ensures before + (PrintedPairs(pairs, gaps) + last)
         == (before + gaps[0]) + ("(" + PairText(pairs[0], ")" + (PrintedPairs(pairs[1..], gaps[1..]) + last)))
  {
    var x := ")" + PrintedPairs(pairs[1..], gaps[1..]);
    var v, k := PrintValue(pairs[0].value), Print(pairs[0].key);
    assert x + last == ")" + (PrintedPairs(pairs[1..], gaps[1..]) + last);
    FourParts(gaps[0], k, v, x, last);
    assert PrintedPairs(pairs, gaps) == gaps[0] + ("(" + (k + (DOT + (v + x))));
    assert before + (gaps[0] + ("(" + (k + (DOT + (v + (x + last)))))) == (before + gaps[0]) + ("(" + (k + (DOT + (v + (x + last)))));
  }

  lemma FourParts(g: string, k: string, v: string, x: string, last: string)
    ensures g + ("(" + (k + (DOT + (v + x)))) + last == g + ("(" + (k + (DOT + (v + (x + last)))))
  {
    assert (v + x) + last == v + (x + last);
    assert (DOT + (v + x)) + last == DOT + (v + (x + last));
    assert (k + (DOT + (v + x))) + last == k + (DOT + (v + (x + last)));
    assert ("(" + (k + (DOT + (v + x)))) + last == "(" + (k + (DOT + (v + (x + last))));
  }

  lemma {:induction false} PairsFromPrinted(
    reader: PairReader, s: string, p: nat, before: string, pairs: seq<Pair>, gaps: seq<string>, last: string)
    requires |gaps| == |pairs| && (forall q <- pairs :: Inverts(reader, q)) && (forall g <- gaps :: AllBlank(g)) && NoParen(last)
    requires NoParen(before) && p <= |s| && s[p..] == before + (PrintedPairs(pairs, gaps) + last)
    ensures PairsFrom(reader, s, p) == (pairs, Ended)
    decreases |pairs|
  {
    if pairs == [] {
      assert before + (PrintedPairs(pairs, gaps) + last) == before + last;
      NoPair(reader, s, p, before + last);
    } else {
      var rest := ")" + (PrintedPairs(pairs[1..], gaps[1..]) + last);
      assert gaps[0] in gaps && NoParen(before + gaps[0]);
      assert pairs[0] in pairs;
      Regroup(before, pairs, gaps, last);
      var next := OnePair(reader, s, p, before + gaps[0], pairs[0], rest);
      PairsFromPrinted(reader, s, next, ")", pairs[1..], gaps[1..], last);
      assert [pairs[0]] + pairs[1..] == pairs;
    }
  }

  /** Decoding inverts printing: for all pairs, with blanks anywhere between them, the decoder
      reads exactly those pairs, in order. */
  lemma AListRoundTrip(pairs: seq<Pair>, gaps: seq<string>, first: string, last: string)
    requires |gaps| == |pairs| && (forall p <- pairs :: PairFits(p)) && (forall g <- gaps :: AllBlank(g))
    requires AllBlank(first) && NoParen(last)
    ensures Pairs(SexprPairs(), first + ("(" + (PrintedPairs(pairs, gaps) + last))) == (pairs, Ended)
  {
    forall p | p in pairs ensures Inverts(SexprPairs().pair, p) {
      KeyReadBack(p.key);
      ValueReadBack(p.value);
      PairsByInvert(KeyReader(), ValueReader(), p);
    }
    PairsPrinted(SexprPairs(), pairs, gaps, first, last);
  }

  lemma PairsPrinted(r: Readers, pairs: seq<Pair>, gaps: seq<string>, first: string, last: string)
    requires |gaps| == |pairs| && (forall p <- pairs :: Inverts(r.pair, p)) && (forall g <- gaps :: AllBlank(g))
    requires AllBlank(first) && NoParen(last)
    ensures Pairs(r, first + ("(" + (PrintedPairs(pairs, gaps) + last))) == (pairs, Ended)
  {
    var inner := PrintedPairs(pairs, gaps) + last;
    var s := first + ("(" + inner);
    assert s[0..|first|] == first && s[|first|] == '(';
    BlanksBefore(s, 0, first);
    assert s[|first| + 1..] == "" + inner;
    PairsFromPrinted(r.pair, s, |first| + 1, "", pairs, gaps, last);
  }

  lemma {:induction false} BlanksBefore(s: string, p: nat, t: string)
    requires AllBlank(t) && p + |t| < |s| && s[p..p + |t|] == t && s[p + |t|] == '('
    ensures SkipBlanks(s, p) == p + |t|
    decreases |t|
  {
    if t != "" {
      assert s[p] == t[0] && s[p + 1..p + 1 + |t[1..]|] == t[1..];
      BlanksBefore(s, p + 1, t[1..]);
    }
  }
}
