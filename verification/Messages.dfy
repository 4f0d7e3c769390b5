/** The protocol as the server reads it: a message taken apart into its operation, its atoms and values in
    their places, and its flags; and that every command is read as what it means. */
module Messages {
  import opened Wrappers
  import opened Sexpr
  import opened AList
  import opened RawNames
  import opened Commands
  import opened Probe

  /** What a client can ask of the server. */
  datatype Request =
    | SetValue(h: Atom, key: Atom, value: Option<Value>)
    | SetValues(h: Atom, pairs: seq<Pair>)
    | ChangeValue(h: Atom, key: Atom, delta: Value)
    | Extract(h: Atom)
    | ExtractRecursive(h: Atom)
    | ValueOn(h: Atom, key: Atom)
    | KeysOn(h: Atom)
    | RunQuery(h: Atom, key: Atom, meta: Option<Atom>, again: bool)
    | IncomingOf(h: Atom)
    | IncomingOfType(h: Atom, typ: string)
    | AtomsOf(typ: string, subtypes: bool)
    | UseProxy(h: Atom)
    | OpenProxy
    | CloseProxy
    | ClearAtoms
    | IsNode(typ: string, name: string)
    | IsLink(typ: string, out: seq<Atom>)

  /** The operations of the protocol. */
  datatype Operation =
    | OpSetValue | OpSetValues | OpChange | OpExtract | OpExtractRecursive | OpValue | OpKeys | OpRun
    | OpIncoming | OpIncomingType | OpAtoms | OpUseProxy | OpOpen | OpClose | OpClear | OpNode | OpLink

  function OperationOf(word: string): Option<Operation>
  {
    if word == "cog-set-value!" then Some(OpSetValue)
    else if word == "cog-set-values!" then Some(OpSetValues)
    else if word == "cog-update-value!" then Some(OpChange)
    else if word == "cog-extract!" then Some(OpExtract)
    else if word == "cog-extract-recursive!" then Some(OpExtractRecursive)
    else if word == "cog-value" then Some(OpValue)
    else if word == "cog-keys->alist" then Some(OpKeys)
    else if word == "cog-execute-cache!" then Some(OpRun)
    else if word == "cog-incoming-set" then Some(OpIncoming)
    else if word == "cog-incoming-by-type" then Some(OpIncomingType)
    else if word == "cog-get-atoms" then Some(OpAtoms)
    else if word == "cog-set-proxy!" then Some(OpUseProxy)
    else if word == "cog-proxy-open" then Some(OpOpen)
    else if word == "cog-proxy-close" then Some(OpClose)
    else if word == "cog-atomspace-clear" then Some(OpClear)
    else if word == "cog-node" then Some(OpNode)
    else if word == "cog-link" then Some(OpLink)
    else None
  }

  // ---- reading ----

  const END := ")\n"

  predicate OpensWith(c: char)
  {
    c != ' ' && c != ')'
  }

  /** A message is one parenthesis with an operation and its arguments, and a newline. */
  function ReadRequest(msg: string): Option<Request>
  {
    if msg == "" || msg[0] != '(' then None
    else
      var n := Span(msg[1..], OpensWith);
      var op := OperationOf(msg[1..][..n]);
      if op.None? then None else ReadArguments(op.value, msg[1..][n..])
  }

  function ReadArguments(op: Operation, s: string): Option<Request>
  {
    match op
    case OpOpen => if s == END then Some(OpenProxy) else None
    case OpClose => if s == END then Some(CloseProxy) else None
    case OpClear => if s == END then Some(ClearAtoms) else None
    case OpAtoms => ReadAtoms(s)
    case OpNode => ReadNode(s)
    case OpLink => ReadLink(s)
    case _ =>
      if s == "" || s[0] != ' ' then None
      else
        var h := ParseAtom(s[1..]);
        if h.None? then None else ReadOnAtom(op, h.value.0, h.value.1)
  }

  /** What follows the atom that the request is about. */
  function ReadOnAtom(op: Operation, h: Atom, s: string): Option<Request>
  {
    match op
    case OpExtract => if s == END then Some(Extract(h)) else None
    case OpExtractRecursive => if s == END then Some(ExtractRecursive(h)) else None
    case OpKeys => if s == END then Some(KeysOn(h)) else None
    case OpIncoming => if s == END then Some(IncomingOf(h)) else None
    case OpUseProxy => if s == END then Some(UseProxy(h)) else None
    case OpIncomingType => ReadType(h, s)
    case OpSetValues => ReadPairs(h, s)
    case _ =>
      var key := ParseAtom(s);
      if key.None? then None else ReadUnderKey(op, h, key.value.0, key.value.1)
  }

  /** What follows the key. */
  function ReadUnderKey(op: Operation, h: Atom, key: Atom, s: string): Option<Request>
  {
    match op
    case OpValue => if s == END then Some(ValueOn(h, key)) else None
    case OpSetValue =>
      if s == "#f" + END || s == " #f" + END then Some(SetValue(h, key, None))
      else
        var v := ParseValue(s);
        if v.Some? && v.value.1 == END then Some(SetValue(h, key, Some(v.value.0))) else None
    case OpChange =>
      var v := ParseValue(s);
      if v.Some? && v.value.1 == END then Some(ChangeValue(h, key, v.value.0)) else None
    case OpRun =>
      if s == END then Some(RunQuery(h, key, None, false))
      else
        var m := ParseAtom(s);
        if m.Some? && m.value.1 == END then Some(RunQuery(h, key, Some(m.value.0), false))
        else if m.Some? && m.value.1 == " #t" + END then Some(RunQuery(h, key, Some(m.value.0), true))
        else None
    case _ => None
  }

  /** A quoted type name, and what follows it. */
  function ReadTypeName(s: string): Option<(string, string)>
  {
    if !(" '" <= s) then None
    else
      var n := Span(s[2..], IsLetter);
      Some((s[2..][..n], s[2..][n..]))
  }

  function ReadType(h: Atom, s: string): Option<Request>
  {
    var t := ReadTypeName(s);
    if t.Some? && t.value.1 == END then Some(IncomingOfType(h, t.value.0)) else None
  }

  function ReadAtoms(s: string): Option<Request>
  {
    var t := ReadTypeName(s);
    if t.Some? && t.value.1 == END then Some(AtomsOf(t.value.0, false))
    else if t.Some? && t.value.1 == " #t" + END then Some(AtomsOf(t.value.0, true))
    else None
  }

  function ReadNode(s: string): Option<Request>
  {
    var t := ReadTypeName(s);
    if t.None? || !(" \"" <= t.value.1) then None
    else
      var name := Unquote(t.value.1[2..]);
      if name.Some? && name.value.1 == END then Some(IsNode(t.value.0, name.value.0)) else None
  }

  function ReadLink(s: string): Option<Request>
  {
    var t := ReadTypeName(s);
    if t.None? || !(" " <= t.value.1) then None
    else
      var out := ParseAtoms(t.value.1[1..]);
      if out.Some? && out.value.1 == END then Some(IsLink(t.value.0, out.value.0)) else None
  }

  /** A parenthesis with pairs of a key and a value between parentheses, separated by a dot. */
  function ReadPairs(h: Atom, s: string): Option<Request>
  {
    if s == "" || s[0] != '(' then None
    else
      var pairs := PairsIn(s[1..]);
      if pairs.Some? && pairs.value.1 == ")" + END then Some(SetValues(h, pairs.value.0)) else None
  }

  function PairsIn(s: string): (r: Option<(seq<Pair>, string)>)
    decreases |s|
    ensures r.Some? ==> |r.value.1| <= |s|
  {
    if s == "" || s[0] != '(' then Some(([], s))
    else
      var key := ParseAtom(s[1..]);
      if key.None? || !(" . " <= key.value.1) then None
      else
        var value := ParseValue(key.value.1[3..]);
        if value.None? || value.value.1 == "" || value.value.1[0] != ')' then None
        else
          var more := PairsIn(value.value.1[1..]);
          if more.None? then None else Some(([Pair(key.value.0, value.value.0)] + more.value.0, more.value.1))
  }

  // ---- what commands mean ----

  /** The request that a command stands for.  A single fetch is left open: it sends its atom's name as it is. */
  function Meant(c: Command): Request
    requires !c.FetchKeys?
  {
    match c
    case StoreAtom(h, pairs) => if pairs == [] then SetValue(h, Node("Predicate", "*-TruthValueKey-*"), None) else SetValues(h, pairs)
    case StoreValue(h, key, value) => SetValue(h, key, value)
    case UpdateValue(h, key, delta) => ChangeValue(h, key, delta)
    case Remove(h, recursive) => if recursive then ExtractRecursive(h) else Extract(h)
    case LoadValue(h, key) => ValueOn(h, key)
    case LoadKeys(h) => KeysOn(h)
    case Execute(h, key, meta) => RunQuery(h, key, if meta.None? then None else Some(meta.value.0), meta.Some? && meta.value.1)
    case Incoming(h) => IncomingOf(h)
    case IncomingByType(h, typ) => IncomingOfType(h, typ)
    case GetAtoms(typ, all) => AtomsOf(typ, all)
    case SetProxy(h) => UseProxy(h)
    case ProxyOpen => OpenProxy
    case ProxyClose => CloseProxy
    case Clear => ClearAtoms
  }

  function Operates(c: Command): Operation
  {
    match c
    case StoreAtom(_, pairs) => if pairs == [] then OpSetValue else OpSetValues
    case StoreValue(_, _, _) => OpSetValue
    case UpdateValue(_, _, _) => OpChange
    case Remove(_, recursive) => if recursive then OpExtractRecursive else OpExtract
    case LoadValue(_, _) => OpValue
    case LoadKeys(_) => OpKeys
    case FetchKeys(_) => OpKeys
    case Execute(_, _, _) => OpRun
    case Incoming(_) => OpIncoming
    case IncomingByType(_, _) => OpIncomingType
    case GetAtoms(_, _) => OpAtoms
    case SetProxy(_) => OpUseProxy
    case ProxyOpen => OpOpen
    case ProxyClose => OpClose
    case Clear => OpClear
  }

  // ---- every command is read as what it means ----

  lemma OperationIs(c: Command)
    ensures OperationOf(Word(c)) == Some(Operates(c))
  {
    WordLengths(c);
  }

  lemma WordLengths(c: Command)
    ensures Word(c) != ""
  {
  }

  lemma RequestIsRead(word: string, arguments: string)
    requires OperationOf(word).Some? && OneWord(word) && arguments != "" && !OpensWith(arguments[0])
    ensures ReadRequest("(" + (word + arguments)) == ReadArguments(OperationOf(word).value, arguments)
  {
    var msg := "(" + (word + arguments);
    assert msg[1..] == word + arguments;
    SpanIs(word, arguments, OpensWith);
    assert (word + arguments)[..|word|] == word && (word + arguments)[|word|..] == arguments;
  }

  lemma TextIsRead(c: Command)
    ensures ReadRequest(Text(c)) == ReadArguments(Operates(c), Arguments(c) + END)
  {
    OperationIs(c);
    WordIsOneWord(c);
    ArgumentsBreak(c);
    RequestIsRead(Word(c), Arguments(c) + END);
  }

  predicate AboutAtom(op: Operation)
  {
    !op.OpOpen? && !op.OpClose? && !op.OpClear? && !op.OpAtoms? && !op.OpNode? && !op.OpLink?
  }

  lemma AtomIsRead(op: Operation, h: Atom, rest: string)
    requires AboutAtom(op) && WellFormed(h)
    ensures ReadArguments(op, OnAtom(h, rest) + END) == ReadOnAtom(op, h, rest + END)
  {
    var s := OnAtom(h, rest) + END;
    assert s[1..] == Print(h) + (rest + END);
    ParseInvertsPrint(h, rest + END);
  }

  predicate UnderKey(op: Operation)
  {
    op.OpValue? || op.OpSetValue? || op.OpChange? || op.OpRun?
  }

  lemma KeyIsRead(op: Operation, h: Atom, key: Atom, rest: string)
    requires UnderKey(op) && WellFormed(h) && WellFormed(key)
    ensures ReadArguments(op, OnAtom(h, Print(key) + rest) + END) == ReadUnderKey(op, h, key, rest + END)
  {
    AtomIsRead(op, h, Print(key) + rest);
    assert (Print(key) + rest) + END == Print(key) + (rest + END);
    ParseInvertsPrint(key, rest + END);
  }

  lemma TypeIsRead(typ: string, rest: string)
    requires IsTypeName(typ) && (rest == "" || !IsLetter(rest[0]))
    ensures ReadTypeName(" '" + (typ + rest)) == Some((typ, rest))
  {
    var s := " '" + (typ + rest);
    assert s[2..] == typ + rest;
    SpanIs(typ, rest, IsLetter);
    assert (typ + rest)[..|typ|] == typ && (typ + rest)[|typ|..] == rest;
  }

  lemma MaybeIsRead(h: Atom, key: Atom, value: Option<Value>)
    requires value.Some? ==> WellFormedValue(value.value)
    ensures ReadUnderKey(OpSetValue, h, key, PrintMaybe(value) + END) == Some(SetValue(h, key, value))
  {
    if value.Some? {
      ValueStarts(value.value);
      assert (PrintMaybe(value) + END)[0] == '(';
      ParseInvertsPrintValue(value.value, END);
    }
  }

  lemma StoreIsRead(c: Command)
    requires Proper(c) && (c.StoreAtom? || c.StoreValue?)
    ensures ReadArguments(Operates(c), Arguments(c) + END) == Some(Meant(c))
  {
    if c.StoreValue? {
      KeyIsRead(OpSetValue, c.h, c.key, PrintMaybe(c.value));
      MaybeIsRead(c.h, c.key, c.value);
    } else if c.pairs == [] {
      assert WellFormed(TruthKey);
      KeyIsRead(OpSetValue, c.h, TruthKey, " #f");
    } else {
      AtomIsRead(OpSetValues, c.h, ValuesText(c.pairs));
      ValuesAreRead(c.h, c.pairs);
    }
  }

  lemma ValuesAreRead(h: Atom, pairs: seq<Pair>)
    requires forall p <- pairs :: PairFits(p)
    ensures ReadOnAtom(OpSetValues, h, ValuesText(pairs) + END) == Some(SetValues(h, pairs))
  {
    var s := ValuesText(pairs) + END;
    assert s[1..] == PrintedPairs(pairs, NoGaps(|pairs|)) + (")" + END);
    var gaps := NoGaps(|pairs|);
    forall i | 0 <= i < |pairs| ensures gaps[i] == "" && PairFits(pairs[i]) {
      assert gaps[i] in gaps && pairs[i] in pairs;
    }
    PairsAreRead(pairs, gaps, ")" + END);
  }

  lemma PairIsRead(p: Pair, more: string)
    requires PairFits(p)
    ensures PairsIn("(" + (Print(p.key) + (" . " + (PrintValue(p.value) + (")" + more)))))
         == (var rest := PairsIn(more); if rest.None? then None else Some(([p] + rest.value.0, rest.value.1)))
  {
    var value := PrintValue(p.value) + (")" + more);
    var s := "(" + (Print(p.key) + (" . " + value));
    assert s[1..] == Print(p.key) + (" . " + value);
    ParseInvertsPrint(p.key, " . " + value);
    assert (" . " + value)[3..] == value && (")" + more)[1..] == more;
    ParseInvertsPrintValue(p.value, ")" + more);
  }

  lemma PairsStep(pairs: seq<Pair>, gaps: seq<string>, tail: string)
    requires |gaps| == |pairs| && pairs != [] && gaps[0] == "" && PairFits(pairs[0])
    ensures PairsIn(PrintedPairs(pairs, gaps) + tail)
         == (var rest := PairsIn(PrintedPairs(pairs[1..], gaps[1..]) + tail);
             if rest.None? then None else Some(([pairs[0]] + rest.value.0, rest.value.1)))
  {
    FirstPair(pairs, gaps, tail);
    PairIsRead(pairs[0], PrintedPairs(pairs[1..], gaps[1..]) + tail);
  }

  lemma {:induction false} PairsAreRead(pairs: seq<Pair>, gaps: seq<string>, tail: string)
    requires |gaps| == |pairs| && forall i :: 0 <= i < |pairs| ==> gaps[i] == "" && PairFits(pairs[i])
    requires tail != "" && tail[0] != '('
    ensures PairsIn(PrintedPairs(pairs, gaps) + tail) == Some((pairs, tail))
  {
    if pairs == [] {
      assert PrintedPairs(pairs, gaps) + tail == tail;
    } else {
      PairsStep(pairs, gaps, tail);
      PairsAreRead(pairs[1..], gaps[1..], tail);
      assert [pairs[0]] + pairs[1..] == pairs;
    }
  }

  lemma FirstPair(pairs: seq<Pair>, gaps: seq<string>, tail: string)
    requires |gaps| == |pairs| && pairs != [] && gaps[0] == ""
    ensures PrintedPairs(pairs, gaps) + tail
         == "(" + (Print(pairs[0].key) + (" . " + (PrintValue(pairs[0].value) + (")" + (PrintedPairs(pairs[1..], gaps[1..]) + tail)))))
  {
    var k, v, more := Print(pairs[0].key), PrintValue(pairs[0].value), PrintedPairs(pairs[1..], gaps[1..]);
    Behind(k, v, more, tail);
    assert PrintedPairs(pairs, gaps) == "(" + (k + (DOT + (v + (")" + more))));
  }

  lemma Behind(k: string, v: string, more: string, tail: string)
    ensures "(" + (k + (DOT + (v + (")" + more)))) + tail == "(" + (k + (DOT + (v + (")" + (more + tail)))))
  {
  }

  lemma RunIsRead(c: Command)
    requires Proper(c) && c.Execute?
    ensures ReadArguments(OpRun, Arguments(c) + END) == Some(Meant(c))
  {
    KeyIsRead(OpRun, c.h, c.key, MetaText(c.meta));
    MetaIsRead(c.h, c.key, c.meta);
  }

  lemma MetaIsRead(h: Atom, key: Atom, meta: Option<(Atom, bool)>)
    requires meta.Some? ==> WellFormed(meta.value.0)
    ensures ReadUnderKey(OpRun, h, key, MetaText(meta) + END)
         == Some(RunQuery(h, key, if meta.None? then None else Some(meta.value.0), meta.Some? && meta.value.1))
  {
    if meta.None? {
      assert MetaText(meta) + END == END;
    } else if meta.value.1 {
      assert MetaText(meta) + END == Print(meta.value.0) + (" #t" + END);
      LastAtomIsRead(h, key, meta.value.0, " #t" + END);
    } else {
      assert MetaText(meta) + END == Print(meta.value.0) + END;
      LastAtomIsRead(h, key, meta.value.0, END);
    }
  }

  lemma LastAtomIsRead(h: Atom, key: Atom, m: Atom, rest: string)
    requires WellFormed(m)
    ensures rest == END ==> ReadUnderKey(OpRun, h, key, Print(m) + rest) == Some(RunQuery(h, key, Some(m), false))
    ensures rest == " #t" + END ==> ReadUnderKey(OpRun, h, key, Print(m) + rest) == Some(RunQuery(h, key, Some(m), true))
  {
    ParseInvertsPrint(m, rest);
    NotTheEnd(m, rest);
    assert |" #t" + END| != |END|;
  }

  lemma NotTheEnd(m: Atom, rest: string)
    ensures Print(m) + rest != END
  {
    PrintStarts(m);
    assert (Print(m) + rest)[0] == '(' && END[0] == ')';
  }

  lemma OneAtomIsRead(c: Command)
    requires Proper(c) && (c.Remove? || c.LoadKeys? || c.Incoming? || c.SetProxy?)
    ensures ReadArguments(Operates(c), Arguments(c) + END) == Some(Meant(c))
  {
    OnlyAtom(Operates(c), c.h);
  }

  lemma OnlyAtom(op: Operation, h: Atom)
    requires AboutAtom(op) && WellFormed(h)
    ensures ReadArguments(op, OnAtom(h, "") + END) == ReadOnAtom(op, h, END)
  {
    AtomIsRead(op, h, "");
    assert "" + END == END;
  }

  lemma TypedIsRead(c: Command)
    requires Proper(c) && (c.IncomingByType? || c.GetAtoms?)
    ensures ReadArguments(Operates(c), Arguments(c) + END) == Some(Meant(c))
  {
    if c.IncomingByType? {
      AtomIsRead(OpIncomingType, c.h, " '" + c.typ);
      assert (" '" + c.typ) + END == " '" + (c.typ + END);
      TypeIsRead(c.typ, END);
    } else {
      var flag := if c.all then " #t" else "";
      assert Arguments(c) + END == " '" + (c.typ + (flag + END));
      TypeIsRead(c.typ, flag + END);
    }
  }

  lemma KeyedIsRead(c: Command)
    requires Proper(c) && (c.UpdateValue? || c.LoadValue?)
    ensures ReadArguments(Operates(c), Arguments(c) + END) == Some(Meant(c))
  {
    if c.UpdateValue? {
      KeyIsRead(OpChange, c.h, c.key, PrintValue(c.delta));
      ParseInvertsPrintValue(c.delta, END);
    } else {
      assert Print(c.key) + "" == Print(c.key);
      KeyIsRead(OpValue, c.h, c.key, "");
      assert "" + END == END;
    }
  }

  lemma ArgumentsAreRead(c: Command)
    requires Proper(c) && !c.FetchKeys?
    ensures ReadArguments(Operates(c), Arguments(c) + END) == Some(Meant(c))
  {
    if c.StoreAtom? || c.StoreValue? {
      StoreIsRead(c);
    } else if c.Execute? {
      RunIsRead(c);
    } else if c.UpdateValue? || c.LoadValue? {
      KeyedIsRead(c);
    } else if c.IncomingByType? || c.GetAtoms? {
      TypedIsRead(c);
    } else if c.Remove? || c.LoadKeys? || c.Incoming? || c.SetProxy? {
      OneAtomIsRead(c);
    } else {
      assert Arguments(c) + END == END;
    }
  }

  /** The message of every command is read as the request it means: the operation, each atom in its
      place, the value or values, and the flags. */
  lemma CommandIsRead(c: Command)
    requires Proper(c) && !c.FetchKeys?
    ensures ReadRequest(Text(c)) == Some(Meant(c))
  {
    TextIsRead(c);
    ArgumentsAreRead(c);
  }

  // ---- the two messages of a single fetch ----

  /** What is read between the quotes, if the first closing quote is the last character. */
  function RawName(name: string): Option<string>
  {
    var r := Unquote(name + "\"");
    if r.Some? && r.value.1 == "" then Some(r.value.0) else None
  }

  /** Reading up to a quote does not depend on what follows it, and needs one. */
  lemma {:induction false} UnquoteLocal(s: string, tail: string)
    requires '"' !in tail
    ensures Unquote(s + tail) == (var r := Unquote(s); if r.None? then None else Some((r.value.0, r.value.1 + tail)))
    decreases |s|
  {
    if s == "" {
      assert s + tail == tail;
      NoQuote(tail);
    } else if s[0] == '"' {
      assert (s + tail)[1..] == s[1..] + tail;
    } else if s[0] == '\\' && |s| >= 2 {
      assert (s + tail)[2..] == s[2..] + tail;
      UnquoteLocal(s[2..], tail);
    } else if s[0] == '\\' {
      if |s + tail| >= 2 {
        assert (s + tail)[2..] == tail[1..];
        NoQuote(tail[1..]);
      }
    } else {
      assert (s + tail)[1..] == s[1..] + tail;
      UnquoteLocal(s[1..], tail);
    }
  }

  lemma {:induction false} NoQuote(s: string)
    requires '"' !in s
    ensures Unquote(s).None?
    decreases |s|
  {
    if s != "" {
      if s[0] == '\\' && |s| >= 2 {
        NoQuote(s[2..]);
      } else {
        NoQuote(s[1..]);
      }
    }
  }

  lemma QuotedIsRead(name: string, tail: string)
    requires '"' !in tail
    ensures var r := Unquote(name + ("\"" + tail));
            if RawName(name).Some? then r == Some((RawName(name).value, tail)) else r.None? || |r.value.1| > |tail|
  {
    assert name + ("\"" + tail) == (name + "\"") + tail;
    UnquoteLocal(name + "\"", tail);
    var r := Unquote(name + "\"");
    if r.Some? && r.value.1 == "" {
      assert "" + tail == tail;
    }
  }

  lemma RawStart(typ: string, name: string, tail: string)
    ensures RawText(Node(typ, name)) + tail == "(" + typ + (" " + ("\"" + (name + ("\"" + (")" + tail)))))
  {
    Quoted(typ, name, tail);
  }

  lemma Quoted(t: string, n: string, x: string)
    ensures ("(" + t + " " + ("\"" + n + "\"") + ")") + x == "(" + t + (" " + ("\"" + (n + ("\"" + (")" + x)))))
  {
  }

  lemma RawIsRead(typ: string, name: string, tail: string)
    requires IsTypeName(typ) && '"' !in tail
    ensures var r := ParseAtom(RawText(Node(typ, name)) + tail);
            if RawName(name).Some? then r == Some((Node(typ, RawName(name).value), tail)) else r.None? || |r.value.1| > |tail|
  {
    var s, inner := RawText(Node(typ, name)) + tail, " " + ("\"" + (name + ("\"" + (")" + tail))));
    RawStart(typ, name, tail);
    HeadOf(typ, inner, s);
    QuotedIsRead(name, ")" + tail);
    NodeRead(s, typ, inner, name + ("\"" + (")" + tail)));
    assert (")" + tail)[1..] == tail;
  }

  /** A text that starts with a node is read up to its closing quote. */
  lemma NodeRead(s: string, typ: string, inner: string, quoted: string)
    requires s != "" && s[0] == '(' && Head(s) == (typ, inner) && typ != "" && inner == " " + ("\"" + quoted)
    ensures ParseAtom(s) == (var q := Unquote(quoted);
                             if q.None? || q.value.1 == "" || q.value.1[0] != ')' then None else Some((Node(typ, q.value.0), q.value.1[1..])))
  {
    assert inner[2..] == quoted;
  }

  /** The request for the keys of an atom fetched by itself: a link is asked for as such; a node is asked for
      under the name that is read between the quotes, which is its own exactly if it is plain; and if
      that name's quotes do not end where it ends, the message cannot be read. */
  lemma FetchIsRead(a: Atom)
    requires WellFormed(a)
    ensures ReadRequest(Text(FetchKeys(a)))
         == if a.Link? then Some(KeysOn(a))
            else if RawName(a.name).Some? then Some(KeysOn(Node(a.typ, RawName(a.name).value)))
            else None
  {
    FetchText(a);
    RawAtomIsRead(a);
    KeysRead(RawText(a) + END);
  }

  lemma FetchText(a: Atom)
    ensures ReadRequest(Text(FetchKeys(a))) == ReadArguments(OpKeys, " " + (RawText(a) + END))
  {
    TextIsRead(FetchKeys(a));
    FetchArguments(a);
  }

  lemma FetchArguments(a: Atom)
    ensures Operates(FetchKeys(a)) == OpKeys && Arguments(FetchKeys(a)) + END == " " + (RawText(a) + END)
  {
    Blank(RawText(a));
  }

  lemma Blank(t: string)
    ensures " " + t + END == " " + (t + END)
  {
  }

  lemma KeysRead(s: string)
    ensures ReadArguments(OpKeys, " " + s)
         == (var h := ParseAtom(s); if h.Some? && h.value.1 == END then Some(KeysOn(h.value.0)) else None)
  {
    assert (" " + s)[1..] == s;
  }

  lemma RawAtomIsRead(a: Atom)
    requires WellFormed(a)
    ensures var r := ParseAtom(RawText(a) + END);
            if a.Link? then r == Some((a, END))
            else if RawName(a.name).Some? then r == Some((Node(a.typ, RawName(a.name).value), END))
            else r.None? || r.value.1 != END
  {
    if a.Link? {
      ParseInvertsPrint(a, END);
    } else {
      RawIsRead(a.typ, a.name, END);
    }
  }

  /** The question put before it: whether the server has the very atom that would be asked for. */
  lemma ProbeIsRead(a: Atom)
    requires WellFormed(a)
    ensures ReadRequest(ProbeText(a))
         == if a.Link? then Some(IsLink(a.typ, a.out))
            else if RawName(a.name).Some? then Some(IsNode(a.typ, RawName(a.name).value))
            else None
  {
    if a.Link? {
      LinkText(a.typ, a.out);
      LinkProbe(a.typ, a.out);
    } else {
      NodeText(a.typ, a.name);
      NodeProbe(a.typ, a.name);
    }
  }

  lemma LinkText(typ: string, out: seq<Atom>)
    ensures ReadRequest(ProbeText(Link(typ, out))) == ReadLink(" '" + (typ + (" " + (PrintAll(out) + END))))
  {
    ProbeWords();
    LinkStarts(typ, out);
    ProbeArguments(ProbeText(Link(typ, out)), "cog-link", OpLink, typ, PrintAll(out));
  }

  lemma LinkStarts(typ: string, out: seq<Atom>)
    ensures ProbeText(Link(typ, out)) == ("(" + "cog-link" + " '") + (typ + " " + PrintAll(out)) + END
  {
    assert "(" + "cog-link" + " '" == "(cog-link '";
  }

  lemma NodeText(typ: string, name: string)
    ensures ReadRequest(ProbeText(Node(typ, name))) == ReadNode(" '" + (typ + (" " + ("\"" + name + "\"" + END))))
  {
    ProbeWords();
    NodeStarts(typ, name);
    ProbeArguments(ProbeText(Node(typ, name)), "cog-node", OpNode, typ, "\"" + name + "\"");
  }

  lemma NodeStarts(typ: string, name: string)
    ensures ProbeText(Node(typ, name)) == ("(" + "cog-node" + " '") + (typ + " " + ("\"" + name + "\"")) + END
  {
    assert "(" + "cog-node" + " '" == "(cog-node '";
  }

  lemma ProbeWords()
    ensures OneWord("cog-node") && OneWord("cog-link")
    ensures OperationOf("cog-node") == Some(OpNode) && OperationOf("cog-link") == Some(OpLink)
  {
  }

  lemma ProbeArguments(msg: string, word: string, op: Operation, typ: string, inside: string)
    requires OperationOf(word) == Some(op) && OneWord(word) && msg == ("(" + word + " '") + (typ + " " + inside) + END
    ensures ReadRequest(msg) == ReadArguments(op, " '" + (typ + (" " + (inside + END))))
  {
    ProbeShape(word, typ, inside);
    RequestIsRead(word, " '" + (typ + (" " + (inside + END))));
  }

  lemma ProbeShape(op: string, typ: string, inside: string)
    ensures ("(" + op + " '") + (typ + " " + inside) + END == "(" + (op + (" '" + (typ + (" " + (inside + END)))))
  {
  }

  lemma LinkProbe(typ: string, out: seq<Atom>)
    requires IsTypeName(typ) && forall o <- out :: WellFormed(o)
    ensures ReadLink(" '" + (typ + (" " + (PrintAll(out) + END)))) == Some(IsLink(typ, out))
  {
    var rest := " " + (PrintAll(out) + END);
    TypeIsRead(typ, rest);
    assert rest[1..] == PrintAll(out) + END;
    ParseAllInvertsPrintAll(out, END);
  }

  lemma NodeProbe(typ: string, name: string)
    requires IsTypeName(typ)
    ensures ReadNode(" '" + (typ + (" " + ("\"" + name + "\"" + END))))
         == if RawName(name).Some? then Some(IsNode(typ, RawName(name).value)) else None
  {
    QuotedRest(name);
    NodeArguments(typ, name + ("\"" + END));
    QuotedIsRead(name, END);
  }

  lemma QuotedRest(name: string)
    ensures " " + ("\"" + name + "\"" + END) == " \"" + (name + ("\"" + END))
  {
  }

  lemma NodeArguments(typ: string, quoted: string)
    requires IsTypeName(typ)
    ensures ReadNode(" '" + (typ + (" \"" + quoted)))
         == (var name := Unquote(quoted); if name.Some? && name.value.1 == END then Some(IsNode(typ, name.value.0)) else None)
  {
    TypeIsRead(typ, " \"" + quoted);
    assert (" \"" + quoted)[2..] == quoted;
  }

  /** A plain name is read as itself; and only a plain one is. */
  lemma PlainIsRead(name: string)
    ensures RawName(name) == Some(name) <==> PlainName(name)
  {
    EscapeLonger(name);
    if PlainName(name) {
      UnquotedBack(name);
    }
    UnquoteShorter(name + "\"");
  }
}
