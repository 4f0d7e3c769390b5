/** The commands of the client, the texts they are sent as, and what a text says about its command. */
module Commands {
  import opened Wrappers
  import opened Sexpr
  import opened AList
  import opened RawNames

  /** `LoadKeys` is the request made for a listed atom, `FetchKeys` the one made for an atom fetched by
      itself.  The flag of `Execute` asks for a fresh run, and is sent only with a meta-data key. */
  datatype Command =
    | StoreAtom(h: Atom, pairs: seq<Pair>)
    | StoreValue(h: Atom, key: Atom, value: Option<Value>)
    | UpdateValue(h: Atom, key: Atom, delta: Value)
    | Remove(h: Atom, recursive: bool)
    | LoadValue(h: Atom, key: Atom)
    | LoadKeys(h: Atom)
    | FetchKeys(h: Atom)
    | Execute(h: Atom, key: Atom, meta: Option<(Atom, bool)>)
    | Incoming(h: Atom)
    | IncomingByType(h: Atom, typ: string)
    | GetAtoms(typ: string, all: bool)
    | SetProxy(h: Atom)
    | ProxyOpen
    | ProxyClose
    | Clear

  const TruthKey := Node("Predicate", "*-TruthValueKey-*")

  predicate Proper(c: Command)
  {
    match c
    case StoreAtom(h, pairs) => WellFormed(h) && forall p <- pairs :: PairFits(p)
    case StoreValue(h, key, value) => WellFormed(h) && WellFormed(key) && (value.Some? ==> WellFormedValue(value.value))
    case UpdateValue(h, key, delta) => WellFormed(h) && WellFormed(key) && WellFormedValue(delta)
    case LoadValue(h, key) => WellFormed(h) && WellFormed(key)
    case IncomingByType(h, typ) => WellFormed(h) && IsTypeName(typ)
    case GetAtoms(typ, _) => IsTypeName(typ)
    case Remove(h, _) => WellFormed(h)
    case LoadKeys(h) => WellFormed(h)
    case FetchKeys(h) => WellFormed(h)
    case Execute(h, key, meta) => WellFormed(h) && WellFormed(key) && (meta.Some? ==> WellFormed(meta.value.0))
    case Incoming(h) => WellFormed(h)
    case SetProxy(h) => WellFormed(h)
    case _ => true
  }

  function Word(c: Command): string
  {
    match c
    case StoreAtom(_, pairs) => if pairs == [] then "cog-set-value!" else "cog-set-values!"
    case StoreValue(_, _, _) => "cog-set-value!"
    case UpdateValue(_, _, _) => "cog-update-value!"
    case Remove(_, recursive) => if recursive then "cog-extract-recursive!" else "cog-extract!"
    case LoadValue(_, _) => "cog-value"
    case LoadKeys(_) => "cog-keys->alist"
    case FetchKeys(_) => "cog-keys->alist"
    case Execute(_, _, _) => "cog-execute-cache!"
    case Incoming(_) => "cog-incoming-set"
    case IncomingByType(_, _) => "cog-incoming-by-type"
    case GetAtoms(_, _) => "cog-get-atoms"
    case SetProxy(_) => "cog-set-proxy!"
    case ProxyOpen => "cog-proxy-open"
    case ProxyClose => "cog-proxy-close"
    case Clear => "cog-atomspace-clear"
  }

  /** A value that is not there is sent as false. */
  function PrintMaybe(v: Option<Value>): string
  {
    if v.None? then "#f" else PrintValue(v.value)
  }

  function NoGaps(n: nat): (gaps: seq<string>)
    ensures |gaps| == n && forall g <- gaps :: g == ""
  {
    seq(n, _ => "")
  }

  function ValuesText(pairs: seq<Pair>): string
  {
    "(" + (PrintedPairs(pairs, NoGaps(|pairs|)) + ")")
  }

  function OnAtom(h: Atom, rest: string): string
  {
    " " + (Print(h) + rest)
  }

  function MetaText(meta: Option<(Atom, bool)>): string
  {
    if meta.None? then "" else Print(meta.value.0) + if meta.value.1 then " #t" else ""
  }

  function Arguments(c: Command): string
  {
    match c
    case StoreAtom(h, pairs) => OnAtom(h, if pairs == [] then Print(TruthKey) + " #f" else ValuesText(pairs))
    case StoreValue(h, key, value) => OnAtom(h, Print(key) + PrintMaybe(value))
    case UpdateValue(h, key, delta) => OnAtom(h, Print(key) + PrintValue(delta))
    case Remove(h, _) => OnAtom(h, "")
    case LoadValue(h, key) => OnAtom(h, Print(key))
    case LoadKeys(h) => OnAtom(h, "")
    case FetchKeys(h) => " " + RawText(h)
    case Execute(h, key, meta) => OnAtom(h, Print(key) + MetaText(meta))
    case Incoming(h) => OnAtom(h, "")
    case IncomingByType(h, typ) => OnAtom(h, " '" + typ)
    case GetAtoms(typ, all) => " '" + (typ + if all then " #t" else "")
    case SetProxy(h) => OnAtom(h, "")
    case _ => ""
  }

  /** The message sent for a command. */
  function Text(c: Command): string
  {
    "(" + (Word(c) + (Arguments(c) + ")\n"))
  }

  // ---- the text determines the command ----

  predicate InWord(c: char)
  {
    c != ' ' && c != ')'
  }

  predicate OneWord(w: string)
  {
    forall x <- w :: InWord(x)
  }

  lemma StoreWords()
    ensures OneWord("cog-set-value!") && OneWord("cog-set-values!") && OneWord("cog-update-value!")
    ensures OneWord("cog-extract!") && OneWord("cog-extract-recursive!")
  {
  }

  lemma FetchWords()
    ensures OneWord("cog-value") && OneWord("cog-keys->alist") && OneWord("cog-execute-cache!")
    ensures OneWord("cog-incoming-set") && OneWord("cog-incoming-by-type") && OneWord("cog-get-atoms")
  {
  }

  lemma ProxyWords()
    ensures OneWord("cog-set-proxy!") && OneWord("cog-proxy-open") && OneWord("cog-proxy-close") && OneWord("cog-atomspace-clear")
  {
  }

  lemma WordIsOneWord(c: Command)
    ensures OneWord(Word(c))
  {
    StoreWords();
    FetchWords();
    ProxyWords();
  }

  lemma ArgumentsBreak(c: Command)
    ensures (Arguments(c) + ")\n") != "" && !InWord((Arguments(c) + ")\n")[0])
  {
    assert Arguments(c) == "" || Arguments(c)[0] == ' ';
  }

  lemma SameParts(c: Command, d: Command)
    requires Text(c) == Text(d)
    ensures Word(c) == Word(d) && Arguments(c) == Arguments(d)
  {
    var x, y := Arguments(c) + ")\n", Arguments(d) + ")\n";
    WordIsOneWord(c);
    WordIsOneWord(d);
    ArgumentsBreak(c);
    ArgumentsBreak(d);
    assert Text(c)[1..] == Word(c) + x && Text(d)[1..] == Word(d) + y;
    SpanIs(Word(c), x, InWord);
    SpanIs(Word(d), y, InWord);
    assert Word(c) == (Word(c) + x)[..|Word(c)|] && Word(d) == (Word(d) + y)[..|Word(d)|];
    assert x == (Word(c) + x)[|Word(c)|..] && y == (Word(d) + y)[|Word(d)|..];
    assert Arguments(c) == x[..|x| - 2] && Arguments(d) == y[..|y| - 2];
  }

  /** Which commands share a word. */
  lemma SameWord(c: Command, d: Command)
    requires Word(c) == Word(d)
    ensures |Word(c)| == |Word(d)| && Word(c)[4] == Word(d)[4] && (|Word(c)| > 9 ==> Word(c)[8] == Word(d)[8])
    ensures c.UpdateValue? <==> d.UpdateValue?
    ensures c.Remove? <==> d.Remove?
    ensures c.Remove? ==> c.recursive == d.recursive
    ensures c.LoadValue? <==> d.LoadValue?
    ensures c.LoadKeys? || c.FetchKeys? <==> d.LoadKeys? || d.FetchKeys?
    ensures c.Execute? <==> d.Execute?
    ensures c.Incoming? <==> d.Incoming?
    ensures c.IncomingByType? <==> d.IncomingByType?
    ensures c.GetAtoms? <==> d.GetAtoms?
    ensures c.SetProxy? <==> d.SetProxy?
    ensures c.ProxyOpen? <==> d.ProxyOpen?
    ensures c.ProxyClose? <==> d.ProxyClose?
    ensures c.Clear? <==> d.Clear?
    ensures (c.StoreAtom? && c.pairs != []) <==> (d.StoreAtom? && d.pairs != [])
  {
  }

  lemma SameAtom(h: Atom, g: Atom, x: string, y: string)
    requires WellFormed(h) && WellFormed(g) && OnAtom(h, x) == OnAtom(g, y)
    ensures h == g && x == y
  {
    assert OnAtom(h, x)[1..] == Print(h) + x && OnAtom(g, y)[1..] == Print(g) + y;
    PrintedAtomsDiffer(h, g, x, y);
  }

  lemma SameValue(v: Value, w: Value)
    requires WellFormedValue(v) && WellFormedValue(w) && PrintValue(v) == PrintValue(w)
    ensures v == w
  {
    ParseInvertsPrintValue(v, "");
    ParseInvertsPrintValue(w, "");
    assert PrintValue(v) + "" == PrintValue(v) && PrintValue(w) + "" == PrintValue(w);
  }

  lemma SameMaybe(v: Option<Value>, w: Option<Value>)
    requires (v.Some? ==> WellFormedValue(v.value)) && (w.Some? ==> WellFormedValue(w.value)) && PrintMaybe(v) == PrintMaybe(w)
    ensures v == w
  {
    if v.Some? {
      ValueStarts(v.value);
    }
    if w.Some? {
      ValueStarts(w.value);
    }
    if v.Some? && w.Some? {
      SameValue(v.value, w.value);
    }
  }

  lemma MaybeStarts(v: Option<Value>)
    ensures PrintMaybe(v) != "" && PrintMaybe(v)[0] != ' '
  {
    if v.Some? {
      ValueStarts(v.value);
    }
  }

  lemma SameType(t: string, u: string, x: string, y: string)
    requires IsTypeName(t) && IsTypeName(u) && (x == "" || !IsLetter(x[0])) && (y == "" || !IsLetter(y[0]))
    requires t + x == u + y
    ensures t == u && x == y
  {
    SpanIs(t, x, IsLetter);
    SpanIs(u, y, IsLetter);
    assert t == (t + x)[..|t|] && u == (u + y)[..|u|] && x == (t + x)[|t|..] && y == (u + y)[|u|..];
  }

  lemma SamePairs(a: seq<Pair>, b: seq<Pair>)
    requires (forall p <- a :: PairFits(p)) && (forall p <- b :: PairFits(p)) && ValuesText(a) == ValuesText(b)
    ensures a == b
  {
    ReadValuesText(a);
    ReadValuesText(b);
  }

  lemma ReadValuesText(pairs: seq<Pair>)
    requires forall p <- pairs :: PairFits(p)
    ensures Pairs(SexprPairs(), ValuesText(pairs)) == (pairs, Ended)
  {
    AListRoundTrip(pairs, NoGaps(|pairs|), "", ")");
    assert "" + ValuesText(pairs) == ValuesText(pairs);
  }

  lemma SameStore(c: Command, d: Command)
    requires Proper(c) && Proper(d) && (c.StoreAtom? || c.StoreValue?) && (d.StoreAtom? || d.StoreValue?)
    requires Word(c) == Word(d) && Arguments(c) == Arguments(d)
    ensures c == d
  {
    SameWord(c, d);
    if c.StoreAtom? && c.pairs != [] {
      SameAtom(c.h, d.h, ValuesText(c.pairs), ValuesText(d.pairs));
      SamePairs(c.pairs, d.pairs);
    } else {
      SamePlainStore(c, d);
    }
  }

  predicate Plain(c: Command)
  {
    (c.StoreAtom? && c.pairs == []) || c.StoreValue?
  }

  function KeyOf(c: Command): Atom
    requires Plain(c)
  {
    if c.StoreAtom? then TruthKey else c.key
  }

  function ValueOf(c: Command): string
    requires Plain(c)
  {
    if c.StoreAtom? then " #f" else PrintMaybe(c.value)
  }

  lemma PlainParts(c: Command)
    requires Proper(c) && Plain(c)
    ensures WellFormed(c.h) && WellFormed(KeyOf(c)) && Arguments(c) == OnAtom(c.h, Print(KeyOf(c)) + ValueOf(c))
    ensures ValueOf(c) != "" && (c.StoreAtom? <==> ValueOf(c)[0] == ' ')
  {
    if c.StoreValue? {
      MaybeStarts(c.value);
    }
  }

  lemma SamePlainStore(c: Command, d: Command)
    requires Proper(c) && Proper(d) && Plain(c) && Plain(d) && Arguments(c) == Arguments(d)
    ensures c == d
  {
    PlainParts(c);
    PlainParts(d);
    SameAtom(c.h, d.h, Print(KeyOf(c)) + ValueOf(c), Print(KeyOf(d)) + ValueOf(d));
    PrintedAtomsDiffer(KeyOf(c), KeyOf(d), ValueOf(c), ValueOf(d));
    if c.StoreValue? {
      SameMaybe(c.value, d.value);
    }
  }

  lemma SameMeta(m: Option<(Atom, bool)>, n: Option<(Atom, bool)>)
    requires (m.Some? ==> WellFormed(m.value.0)) && (n.Some? ==> WellFormed(n.value.0)) && MetaText(m) == MetaText(n)
    ensures m == n
  {
    if m.Some? {
      PrintStarts(m.value.0);
    }
    if n.Some? {
      PrintStarts(n.value.0);
    }
    if m.Some? && n.Some? {
      PrintedAtomsDiffer(m.value.0, n.value.0, if m.value.1 then " #t" else "", if n.value.1 then " #t" else "");
    }
  }

  lemma SameExecute(c: Command, d: Command)
    requires Proper(c) && Proper(d) && c.Execute? && d.Execute? && Arguments(c) == Arguments(d)
    ensures c == d
  {
    SameAtom(c.h, d.h, Print(c.key) + MetaText(c.meta), Print(d.key) + MetaText(d.meta));
    PrintedAtomsDiffer(c.key, d.key, MetaText(c.meta), MetaText(d.meta));
    SameMeta(c.meta, d.meta);
  }

  predicate AsksForKeys(c: Command)
  {
    c.LoadKeys? || c.FetchKeys?
  }

  /** What stands for the atom in a request for keys. */
  function KeysAtom(c: Command): string
    requires AsksForKeys(c)
  {
    if c.LoadKeys? then Print(c.h) else RawText(c.h)
  }

  lemma KeysArguments(c: Command)
    requires AsksForKeys(c)
    ensures Arguments(c) == " " + KeysAtom(c)
  {
    assert Print(c.h) + "" == Print(c.h);
  }

  lemma SameKeysAtom(c: Command, d: Command)
    requires AsksForKeys(c) && AsksForKeys(d)
    ensures Text(c) == Text(d) <==> KeysAtom(c) == KeysAtom(d)
  {
    KeysArguments(c);
    KeysArguments(d);
    if Text(c) == Text(d) {
      SameParts(c, d);
      assert (" " + KeysAtom(c))[1..] == KeysAtom(c) && (" " + KeysAtom(d))[1..] == KeysAtom(d);
    }
  }

  lemma SameOther(c: Command, d: Command)
    requires Proper(c) && Proper(d) && !c.StoreAtom? && !c.StoreValue? && !AsksForKeys(c)
    requires Word(c) == Word(d) && Arguments(c) == Arguments(d)
    ensures c == d
  {
    SameWord(c, d);
    match c
    case UpdateValue(h, key, delta) =>
      SameAtom(h, d.h, Print(key) + PrintValue(delta), Print(d.key) + PrintValue(d.delta));
      PrintedAtomsDiffer(key, d.key, PrintValue(delta), PrintValue(d.delta));
      SameValue(delta, d.delta);
    case LoadValue(h, key) =>
      SameAtom(h, d.h, Print(key), Print(d.key));
      assert Print(key) + "" == Print(key) && Print(d.key) + "" == Print(d.key);
      PrintedAtomsDiffer(key, d.key, "", "");
    case IncomingByType(h, typ) =>
      SameAtom(h, d.h, " '" + typ, " '" + d.typ);
      assert (" '" + typ)[2..] == typ && (" '" + d.typ)[2..] == d.typ;
    case GetAtoms(typ, all) =>
      var x, y := if all then " #t" else "", if d.all then " #t" else "";
      assert Arguments(c)[2..] == typ + x && Arguments(d)[2..] == d.typ + y;
      SameType(typ, d.typ, x, y);
    case Remove(h, _) => SameAtom(h, d.h, "", "");
    case Execute(_, _, _) => SameExecute(c, d);
    case Incoming(h) => SameAtom(h, d.h, "", "");
    case SetProxy(h) => SameAtom(h, d.h, "", "");
    case _ =>
  }

  /** The single fetch `c` is sent as the request that a list reply makes for the atom of `d`. */
  predicate SentAs(c: Command, d: Command)
  {
    c.FetchKeys? && d.LoadKeys? && (c.h == d.h || Misleading(c.h)) && RawText(c.h) == Print(d.h)
  }

  lemma SameUnlessKeys(c: Command, d: Command)
    requires Proper(c) && Proper(d) && !AsksForKeys(c)
    requires Word(c) == Word(d) && Arguments(c) == Arguments(d)
    ensures c == d
  {
    SameWord(c, d);
    if c.StoreAtom? || c.StoreValue? {
      SameStore(c, d);
    } else {
      SameOther(c, d);
    }
  }

  lemma TextsOfOneKind(c: Command, d: Command)
    requires Text(c) == Text(d)
    ensures AsksForKeys(c) <==> AsksForKeys(d)
  {
    SameParts(c, d);
    SameWord(c, d);
  }

  lemma SameKeysTexts(c: Command, d: Command)
    requires Proper(c) && Proper(d) && AsksForKeys(c) && AsksForKeys(d)
    ensures Text(c) == Text(d) <==> c == d || SentAs(c, d) || SentAs(d, c)
  {
    SameKeysAtom(c, d);
    MisleadingExactly(c.h, d.h);
    MisleadingExactly(d.h, c.h);
    if KeysAtom(c) == KeysAtom(d) && c.LoadKeys? == d.LoadKeys? {
      if c.LoadKeys? {
        assert Print(c.h) + "" == Print(d.h) + "";
        PrintedAtomsDiffer(c.h, d.h, "", "");
      } else {
        RawTextsDiffer(c.h, d.h);
      }
    }
  }

  lemma TextsWithoutKeys(c: Command, d: Command)
    requires Proper(c) && Proper(d) && !AsksForKeys(c) && Text(c) == Text(d)
    ensures c == d
  {
    SameParts(c, d);
    SameUnlessKeys(c, d);
  }

  /** Exactly when two commands are sent as the same text: when they are the same, or one is a single
      fetch and the other the key request for the atom that the raw name stands for. */
  lemma SameTextExactly(c: Command, d: Command)
    requires Proper(c) && Proper(d)
    ensures Text(c) == Text(d) <==> c == d || SentAs(c, d) || SentAs(d, c)
  {
    if AsksForKeys(c) && AsksForKeys(d) {
      SameKeysTexts(c, d);
    } else if Text(c) == Text(d) {
      TextsOfOneKind(c, d);
      TextsWithoutKeys(c, d);
    }
  }
}
