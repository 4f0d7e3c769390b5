/** Atoms and values as s-expressions: printing and parsing. */
module Sexpr {
  import opened Wrappers

  /** An atom is a node with a name or a link to other atoms. */
  datatype Atom = Node(typ: string, name: string) | Link(typ: string, out: seq<Atom>)

  /** A value is a vector of numbers (kept as printed), of strings, or of values, or an atom. */
  datatype Value = Floats(nums: seq<string>) | Strings(strs: seq<string>) | Values(vals: seq<Value>) | Linked(atom: Atom)

  // ---- lexical matters ----

  predicate IsLetter(c: char)
  {
    'a' <= c <= 'z' || 'A' <= c <= 'Z'
  }

  predicate IsNumberChar(c: char)
  {
    '0' <= c <= '9' || c == '.' || c == '-' || c == '+' || c == 'e'
  }

  predicate IsBlank(c: char)
  {
    c == ' ' || c == '\t' || c == '\n'
  }

  predicate IsTypeName(t: string)
  {
    t != "" && forall c <- t :: IsLetter(c)
  }

  predicate IsNumber(t: string)
  {
    t != "" && forall c <- t :: IsNumberChar(c)
  }

  /** Quotes and backslashes inside a quoted text are preceded by a backslash. */
  function Escape(s: string): string
  {
    if s == "" then ""
    else (if s[0] == '"' || s[0] == '\\' then ['\\', s[0]] else [s[0]]) + Escape(s[1..])
  }

  function Quote(s: string): string
  {
    "\"" + Escape(s) + "\""
  }

  /** The text up to the closing quote, unescaped, and what follows the quote. */
  function Unquote(s: string): (r: Option<(string, string)>)
    ensures r.Some? ==> |r.value.1| < |s|
  {
    if s == "" then None
    else if s[0] == '"' then Some(("", s[1..]))
    else if s[0] == '\\' then
      if |s| < 2 then None
      else
        var r := Unquote(s[2..]);
        if r.None? then None else Some(([s[1]] + r.value.0, r.value.1))
    else
      var r := Unquote(s[1..]);
      if r.None? then None else Some(([s[0]] + r.value.0, r.value.1))
  }

  lemma UnquoteStep(c: char, rest: string)
    ensures Unquote((if c == '"' || c == '\\' then ['\\', c] else [c]) + rest)
         == var r := Unquote(rest); if r.None? then None else Some(([c] + r.value.0, r.value.1))
  {
    var t := (if c == '"' || c == '\\' then ['\\', c] else [c]) + rest;
    if c == '"' || c == '\\' {
      assert t[2..] == rest;
    } else {
      assert t[1..] == rest;
    }
  }

  lemma {:induction false} UnquoteInvertsEscape(s: string, tail: string)
    ensures Unquote(Escape(s) + "\"" + tail) == Some((s, tail))
  {
    if s == "" {
      assert Escape(s) + "\"" + tail == "\"" + tail;
    } else {
      UnquoteInvertsEscape(s[1..], tail);
      var rest := Escape(s[1..]) + "\"" + tail;
      UnquoteStep(s[0], rest);
      Regroup(if s[0] == '"' || s[0] == '\\' then ['\\', s[0]] else [s[0]], Escape(s[1..]), "\"", tail);
      assert [s[0]] + s[1..] == s;
    }
  }

  lemma Regroup(a: string, b: string, c: string, d: string)
    ensures a + b + c + d == a + (b + c + d)
  {
  }

  /** Number of leading characters accepted by `p`. */
  function Span(s: string, p: char -> bool): (n: nat)
    ensures n <= |s|
  {
    if s == "" || !p(s[0]) then 0 else 1 + Span(s[1..], p)
  }

  lemma {:induction false} SpanIs(word: string, tail: string, p: char -> bool)
    requires (forall c <- word :: p(c)) && (tail == "" || !p(tail[0]))
    ensures Span(word + tail, p) == |word|
  {
    if word == "" {
      assert word + tail == tail;
    } else {
      assert (word + tail)[1..] == word[1..] + tail;
      SpanIs(word[1..], tail, p);
    }
  }

  // ---- atoms ----

  predicate WellFormed(a: Atom)
  {
    IsTypeName(a.typ) && (a.Link? ==> forall o <- a.out :: WellFormed(o))
  }

  /** What follows the type: a quoted name, or the atoms linked. */
  function Inside(a: Atom): string
    decreases a, 0
  {
    match a
    case Node(_, name) => Quote(name)
    case Link(_, out) => PrintAll(out)
  }

  function Print(a: Atom): string
    decreases a, 1
  {
    "(" + a.typ + " " + Inside(a) + ")"
  }

  function PrintAll(atoms: seq<Atom>): string
    decreases atoms
  {
    if atoms == [] then "" else Print(atoms[0]) + PrintAll(atoms[1..])
  }

  /** The word after the parenthesis, and what follows it. */
  function Head(s: string): (r: (string, string))
    requires s != ""
    ensures |r.1| < |s|
  {
    var n := Span(s[1..], IsLetter);
    (s[1..][..n], s[1..][n..])
  }

  /** Reads one atom from the start of the text. */
  function ParseAtom(s: string): (r: Option<(Atom, string)>)
    decreases |s|, 0
    ensures r.Some? ==> |r.value.1| < |s|
  {
    if s == "" || s[0] != '(' then None
    else
      var (typ, rest) := Head(s);
      if typ == "" || rest == "" || rest[0] != ' ' then None
      else if |rest| > 1 && rest[1] == '"' then
        var q := Unquote(rest[2..]);
        if q.None? || q.value.1 == "" || q.value.1[0] != ')' then None
        else Some((Node(typ, q.value.0), q.value.1[1..]))
      else
        var q := ParseAtoms(rest[1..]);
        if q.None? || q.value.1 == "" || q.value.1[0] != ')' then None
        else Some((Link(typ, q.value.0), q.value.1[1..]))
  }

  /** Reads as many atoms as follow one another. */
  function ParseAtoms(s: string): (r: Option<(seq<Atom>, string)>)
    decreases |s|, 1
    ensures r.Some? ==> |r.value.1| <= |s|
  {
    if s == "" || s[0] != '(' then Some(([], s))
    else
      var a := ParseAtom(s);
      if a.None? then None
      else
        var q := ParseAtoms(a.value.1);
        if q.None? then None else Some(([a.value.0] + q.value.0, q.value.1))
  }

  lemma HeadOf(typ: string, inner: string, s: string)
    requires s == "(" + typ + inner && (forall c <- typ :: IsLetter(c)) && inner != "" && !IsLetter(inner[0])
    ensures Head(s) == (typ, inner)
  {
    assert s[1..] == typ + inner;
    SpanIs(typ, inner, IsLetter);
  }

  lemma PrintShape(a: Atom, tail: string)
    ensures Print(a) + tail == "(" + a.typ + (" " + (Inside(a) + (")" + tail)))
  {
  }

  lemma ParseNode(typ: string, name: string, tail: string)
    requires IsTypeName(typ)
    ensures ParseAtom(Print(Node(typ, name)) + tail) == Some((Node(typ, name), tail))
  {
    var inner := " " + (Quote(name) + (")" + tail));
    PrintShape(Node(typ, name), tail);
    HeadOf(typ, inner, Print(Node(typ, name)) + tail);
    assert inner[2..] == Escape(name) + "\"" + (")" + tail);
    UnquoteInvertsEscape(name, ")" + tail);
    assert (")" + tail)[1..] == tail;
  }

  lemma ParseLink(typ: string, out: seq<Atom>, tail: string)
    requires IsTypeName(typ) && ParseAtoms(PrintAll(out) + (")" + tail)) == Some((out, ")" + tail))
    ensures ParseAtom(Print(Link(typ, out)) + tail) == Some((Link(typ, out), tail))
  {
    var rest := PrintAll(out) + (")" + tail);
    PrintShape(Link(typ, out), tail);
    HeadOf(typ, " " + rest, Print(Link(typ, out)) + tail);
    assert (" " + rest)[1..] == rest && (")" + tail)[1..] == tail;
    assert rest[0] != '"' by {
      if out != [] {
        assert PrintAll(out)[0] == '(';
      }
    }
  }

  /** Parsing inverts printing, whatever follows and whatever quotes, backslashes and parentheses
      occur in names. */
  lemma {:induction false} ParseInvertsPrint(a: Atom, tail: string)
    requires WellFormed(a)
    ensures ParseAtom(Print(a) + tail) == Some((a, tail))
    decreases a, 1
  {
    match a
    case Node(typ, name) => ParseNode(typ, name, tail);
    case Link(typ, out) =>
      ParseAllInvertsPrintAll(out, ")" + tail);
      ParseLink(typ, out, tail);
  }

  lemma {:induction false} ParseAllInvertsPrintAll(atoms: seq<Atom>, tail: string)
    requires (forall a <- atoms :: WellFormed(a)) && (tail == "" || tail[0] != '(')
    ensures ParseAtoms(PrintAll(atoms) + tail) == Some((atoms, tail))
    decreases atoms
  {
    var s := PrintAll(atoms) + tail;
    if atoms == [] {
      assert s == tail;
    } else {
      assert atoms[0] in atoms;
      assert s == Print(atoms[0]) + (PrintAll(atoms[1..]) + tail);
      ParseInvertsPrint(atoms[0], PrintAll(atoms[1..]) + tail);
      ParseAllInvertsPrintAll(atoms[1..], tail);
      assert [atoms[0]] + atoms[1..] == atoms;
    }
  }

  /** No printed atom is the beginning of another: text that starts with two atoms starts with one. */
  lemma PrintedAtomsDiffer(a: Atom, b: Atom, x: string, y: string)
    requires WellFormed(a) && WellFormed(b) && Print(a) + x == Print(b) + y
    ensures a == b && x == y
  {
    ParseInvertsPrint(a, x);
    ParseInvertsPrint(b, y);
  }

  // ---- values ----

  predicate WellFormedValue(v: Value)
  {
    match v
    case Floats(nums) => forall n <- nums :: IsNumber(n)
    case Strings(_) => true
    case Values(vals) => forall w <- vals :: WellFormedValue(w)
    case Linked(a) => WellFormed(a) && a.typ != "FloatValue" && a.typ != "StringValue" && a.typ != "LinkValue"
  }

  function PrintNums(nums: seq<string>): string
  {
    if nums == [] then "" else " " + nums[0] + PrintNums(nums[1..])
  }

  function PrintStrs(strs: seq<string>): string
  {
    if strs == [] then "" else " " + Quote(strs[0]) + PrintStrs(strs[1..])
  }

  function PrintValue(v: Value): string
    decreases v, 1
  {
    match v
    case Floats(nums) => "(FloatValue" + PrintNums(nums) + ")"
    case Strings(strs) => "(StringValue" + PrintStrs(strs) + ")"
    case Values(vals) => "(LinkValue " + PrintValues(vals) + ")"
    case Linked(a) => Print(a)
  }

  function PrintValues(vals: seq<Value>): string
    decreases vals
  {
    if vals == [] then "" else PrintValue(vals[0]) + PrintValues(vals[1..])
  }

  function ParseNums(s: string): (r: (seq<string>, string))
    ensures |r.1| <= |s|
  {
    if |s| < 2 || s[0] != ' ' || !IsNumberChar(s[1]) then ([], s)
    else
      var n := Span(s[1..], IsNumberChar);
      var r := ParseNums(s[1..][n..]);
      ([s[1..][..n]] + r.0, r.1)
  }

  function ParseStrs(s: string): (r: Option<(seq<string>, string)>)
    decreases |s|
    ensures r.Some? ==> |r.value.1| <= |s|
  {
    if |s| < 2 || s[0] != ' ' || s[1] != '"' then Some(([], s))
    else
      var q := Unquote(s[2..]);
      if q.None? then None
      else
        var r := ParseStrs(q.value.1);
        if r.None? then None else Some(([q.value.0] + r.value.0, r.value.1))
  }

  function ParseValue(s: string): (r: Option<(Value, string)>)
    decreases |s|, 0
    ensures r.Some? ==> |r.value.1| < |s|
  {
    if s == "" || s[0] != '(' then None
    else
      var (typ, rest) := Head(s);
      if typ == "FloatValue" then
        var q := ParseNums(rest);
        if q.1 == "" || q.1[0] != ')' then None else Some((Floats(q.0), q.1[1..]))
      else if typ == "StringValue" then
        var q := ParseStrs(rest);
        if q.None? || q.value.1 == "" || q.value.1[0] != ')' then None else Some((Strings(q.value.0), q.value.1[1..]))
      else if typ == "LinkValue" then
        if rest == "" || rest[0] != ' ' then None
        else
          var q := ParseValues(rest[1..]);
          if q.None? || q.value.1 == "" || q.value.1[0] != ')' then None else Some((Values(q.value.0), q.value.1[1..]))
      else
        var q := ParseAtom(s);
        if q.None? then None else Some((Linked(q.value.0), q.value.1))
  }

  function ParseValues(s: string): (r: Option<(seq<Value>, string)>)
    decreases |s|, 1
    ensures r.Some? ==> |r.value.1| <= |s|
  {
    if s == "" || s[0] != '(' then Some(([], s))
    else
      var a := ParseValue(s);
      if a.None? then None
      else
        var q := ParseValues(a.value.1);
        if q.None? then None else Some(([a.value.0] + q.value.0, q.value.1))
  }

  lemma {:induction false} ParseNumsInverts(nums: seq<string>, tail: string)
    requires (forall n <- nums :: IsNumber(n)) && tail != "" && tail[0] == ')'
    ensures ParseNums(PrintNums(nums) + tail) == (nums, tail)
  {
    var s := PrintNums(nums) + tail;
    if nums == [] {
      assert s == tail;
    } else {
      assert nums[0] in nums;
      var rest := PrintNums(nums[1..]) + tail;
      assert s[1..] == nums[0] + rest;
      assert s[1] == nums[0][0] && nums[0][0] in nums[0];
      SpanIs(nums[0], rest, IsNumberChar);
      assert s[1..][..|nums[0]|] == nums[0] && s[1..][|nums[0]|..] == rest;
      ParseNumsInverts(nums[1..], tail);
      assert [nums[0]] + nums[1..] == nums;
    }
  }

  lemma {:induction false} ParseStrsInverts(strs: seq<string>, tail: string)
    requires tail != "" && tail[0] == ')'
    ensures ParseStrs(PrintStrs(strs) + tail) == Some((strs, tail))
  {
    var s := PrintStrs(strs) + tail;
    if strs == [] {
      assert s == tail;
    } else {
      var rest := PrintStrs(strs[1..]) + tail;
      assert s[2..] == Escape(strs[0]) + "\"" + rest;
      UnquoteInvertsEscape(strs[0], rest);
      ParseStrsInverts(strs[1..], tail);
      assert [strs[0]] + strs[1..] == strs;
    }
  }

  lemma FloatsHead(nums: seq<string>, tail: string)
    ensures var s := PrintValue(Floats(nums)) + tail;
            s[0] == '(' && Head(s) == ("FloatValue", PrintNums(nums) + (")" + tail))
  {
    HeadOf("FloatValue", PrintNums(nums) + (")" + tail), PrintValue(Floats(nums)) + tail);
  }

  lemma ParseFloats(nums: seq<string>, tail: string)
    requires forall n <- nums :: IsNumber(n)
    ensures ParseValue(PrintValue(Floats(nums)) + tail) == Some((Floats(nums), tail))
  {
    FloatsHead(nums, tail);
    ParseNumsInverts(nums, ")" + tail);
    assert (")" + tail)[1..] == tail;
  }

  lemma StringsHead(strs: seq<string>, tail: string)
    ensures var s := PrintValue(Strings(strs)) + tail;
            s[0] == '(' && Head(s) == ("StringValue", PrintStrs(strs) + (")" + tail))
  {
    HeadOf("StringValue", PrintStrs(strs) + (")" + tail), PrintValue(Strings(strs)) + tail);
  }

  lemma ParseStrings(strs: seq<string>, tail: string)
    ensures ParseValue(PrintValue(Strings(strs)) + tail) == Some((Strings(strs), tail))
  {
    StringsHead(strs, tail);
    ParseStrsInverts(strs, ")" + tail);
    assert (")" + tail)[1..] == tail;
  }

  lemma ParseLinked(a: Atom, tail: string)
    requires WellFormedValue(Linked(a))
    ensures ParseValue(Print(a) + tail) == Some((Linked(a), tail))
  {
    var s := Print(a) + tail;
    ParseInvertsPrint(a, tail);
    PrintShape(a, tail);
    HeadOf(a.typ, " " + (Inside(a) + (")" + tail)), s);
    ParseValueOfAtom(s);
  }

  lemma ParseValueOfAtom(s: string)
    requires s != "" && s[0] == '(' && Head(s).0 !in {"FloatValue", "StringValue", "LinkValue"}
    ensures ParseValue(s) == var q := ParseAtom(s); if q.None? then None else Some((Linked(q.value.0), q.value.1))
  {
  }

  /** Parsing inverts printing for values. */
  lemma {:induction false} ParseInvertsPrintValue(v: Value, tail: string)
    requires WellFormedValue(v)
    ensures ParseValue(PrintValue(v) + tail) == Some((v, tail))
    decreases v, 1
  {
    match v
    case Floats(nums) => ParseFloats(nums, tail);
    case Strings(strs) => ParseStrings(strs, tail);
    case Linked(a) => ParseLinked(a, tail);
    case Values(vals) =>
      var inner := " " + (PrintValues(vals) + (")" + tail));
      HeadOf("LinkValue", inner, PrintValue(v) + tail);
      assert inner[1..] == PrintValues(vals) + (")" + tail);
      ParseAllInvertsPrintValues(vals, ")" + tail);
      assert (")" + tail)[1..] == tail;
  }

  lemma {:induction false} ParseAllInvertsPrintValues(vals: seq<Value>, tail: string)
    requires (forall v <- vals :: WellFormedValue(v)) && (tail == "" || tail[0] != '(')
    ensures ParseValues(PrintValues(vals) + tail) == Some((vals, tail))
    decreases vals
  {
    var s := PrintValues(vals) + tail;
    if vals == [] {
      assert s == tail;
    } else {
      assert vals[0] in vals;
      assert s == PrintValue(vals[0]) + (PrintValues(vals[1..]) + tail);
      ParseInvertsPrintValue(vals[0], PrintValues(vals[1..]) + tail);
      ValueStarts(vals[0]);
      ParseAllInvertsPrintValues(vals[1..], tail);
      assert [vals[0]] + vals[1..] == vals;
    }
  }

  lemma ValueStarts(v: Value)
    ensures PrintValue(v) != "" && PrintValue(v)[0] == '('
  {
  }

  // ---- what printed atoms and values look like ----

  lemma PrintedNode()
    ensures Print(Node("Concept", "a")) == "(Concept \"a\")"
  {
    assert Escape("a") == "a" + Escape("a"[1..]);
    assert Quote("a") == "\"a\"";
  }

  lemma PrintedLink(x: Atom, y: Atom)
    ensures Print(Link("List", [x, y])) == "(List " + Print(x) + Print(y) + ")"
  {
    assert [x, y][1..] == [y] && [y][1..] == [];
    assert PrintAll([y]) == Print(y) + PrintAll([]);
    assert PrintAll([x, y]) == Print(x) + PrintAll([y]);
  }

  lemma PrintedQuote()
    ensures Quote("\"\\") == "\"\\\"\\\\\""
  {
    var s := "\"\\";
    assert s[1..] == "\\" && s[1..][1..] == "";
    assert Escape("\\") == "\\\\" + Escape("");
    assert Escape(s) == "\\\"" + Escape("\\");
  }

  lemma NumbersStep(n: string, nums: seq<string>)
    ensures PrintNums([n] + nums) == " " + n + PrintNums(nums)
  {
    assert ([n] + nums)[1..] == nums;
  }

  lemma PrintedNumbers()
    ensures PrintValue(Floats(["1", "2", "3"])) == "(FloatValue 1 2 3)"
  {
    NumbersStep("3", []);
    NumbersStep("2", ["3"]);
    NumbersStep("1", ["2", "3"]);
    assert ["3"] + [] == ["3"] && ["2"] + ["3"] == ["2", "3"] && ["1"] + ["2", "3"] == ["1", "2", "3"];
  }

  lemma PlainQuote(c: char)
    requires c != '"' && c != '\\'
    ensures Quote([c]) == ['"', c, '"']
  {
    assert Escape([c]) == [c] + Escape([c][1..]);
  }

  lemma PrintedStrings()
    ensures PrintValue(Strings(["a", "b", "c"])) == "(StringValue \"a\" \"b\" \"c\")"
  {
    PlainQuote('a');
    PlainQuote('b');
    PlainQuote('c');
    assert ["a", "b", "c"][1..] == ["b", "c"] && ["b", "c"][1..] == ["c"] && ["c"][1..] == [];
    assert PrintStrs(["c"]) == " " + Quote("c") + PrintStrs([]);
    assert PrintStrs(["b", "c"]) == " " + Quote("b") + PrintStrs(["c"]);
    assert PrintStrs(["a", "b", "c"]) == " " + Quote("a") + PrintStrs(["b", "c"]);
  }
}
