/** Atoms printed with their names as they are, as a single fetch prints them. */
module RawNames {
  import opened Wrappers
  import opened Sexpr

  function RawInside(a: Atom): string
  {
    match a
    case Node(_, name) => "\"" + name + "\""
    case Link(_, out) => PrintAll(out)
  }

  /** What a single fetch puts in its request for keys. */
  function RawText(a: Atom): string
  {
    "(" + a.typ + " " + RawInside(a) + ")"
  }

  predicate PlainName(name: string)
  {
    forall c <- name :: c != '"' && c != '\\'
  }

  // ---- what escaping does to names ----

  lemma PlainFirst(c: char, rest: string)
    ensures PlainName([c] + rest) <==> c != '"' && c != '\\' && PlainName(rest)
  {
    var name := [c] + rest;
    assert name[0] == c;
    forall d | d in rest ensures d in name {
      var i :| 0 <= i < |rest| && rest[i] == d;
      assert name[i + 1] == d;
    }
    if PlainName(name) {
      assert c in name;
      forall d | d in rest ensures d != '"' && d != '\\' { assert d in name; }
    }
    if c != '"' && c != '\\' && PlainName(rest) {
      forall d | d in name ensures d != '"' && d != '\\' { assert d == c || d in rest; }
    }
  }

  lemma {:induction false} EscapeLonger(name: string)
    ensures |Escape(name)| >= |name|
    ensures |Escape(name)| == |name| <==> PlainName(name)
    ensures PlainName(name) ==> Escape(name) == name
  {
    if name != "" {
      EscapeLonger(name[1..]);
      assert name == [name[0]] + name[1..];
      PlainFirst(name[0], name[1..]);
    }
  }

  lemma {:induction false} EscapedIsNotPlain(name: string)
    requires !PlainName(name)
    ensures !PlainName(Escape(name))
  {
    assert name != "";
    assert name == [name[0]] + name[1..];
    PlainFirst(name[0], name[1..]);
    if name[0] == '"' || name[0] == '\\' {
      assert Escape(name)[0] == '\\' && Escape(name)[0] in Escape(name);
    } else {
      EscapedIsNotPlain(name[1..]);
      PlainFirst(name[0], Escape(name[1..]));
    }
  }

  lemma UnquotedBack(name: string)
    ensures Unquote(Escape(name) + "\"") == Some((name, ""))
  {
    UnquoteInvertsEscape(name, "");
    assert Escape(name) + "\"" + "" == Escape(name) + "\"";
  }

  /** The name is the escaped form of another name. */
  predicate LooksEscaped(name: string)
  {
    var u := Unquote(name + "\"");
    !PlainName(name) && u.Some? && u.value.1 == "" && Escape(u.value.0) == name
  }

  /** The name of which this one is the escaped form. */
  function Unescaped(name: string): string
    requires LooksEscaped(name)
  {
    Unquote(name + "\"").value.0
  }

  lemma EscapedNames(name: string, other: string)
    ensures name == Escape(other) && name != other <==> LooksEscaped(name) && other == Unescaped(name)
  {
    UnquotedBack(other);
    EscapeLonger(other);
    EscapeLonger(name);
    if name == Escape(other) && name != other {
      EscapedIsNotPlain(other);
    }
  }

  // ---- raw texts and printed texts ----

  lemma RawShape(typ: string, inside: string)
    ensures "(" + typ + " " + inside + ")" == "(" + typ + (" " + (inside + ")"))
  {
  }

  lemma SameShape(t: string, x: string, u: string, y: string)
    requires IsTypeName(t) && IsTypeName(u) && "(" + t + " " + x + ")" == "(" + u + " " + y + ")"
    ensures t == u && x == y
  {
    RawShape(t, x);
    RawShape(u, y);
    var s := "(" + t + " " + x + ")";
    HeadOf(t, " " + (x + ")"), s);
    HeadOf(u, " " + (y + ")"), s);
    assert (" " + (x + ")"))[1..] == x + ")" && (" " + (y + ")"))[1..] == y + ")";
    assert x == (x + ")")[..|x|] && y == (y + ")")[..|y|];
  }

  lemma SameQuoted(x: string, y: string)
    requires "\"" + x + "\"" == "\"" + y + "\""
    ensures x == y
  {
    assert x == ("\"" + x + "\"")[1..1 + |x|] && y == ("\"" + y + "\"")[1..1 + |y|];
  }

  lemma LinkInside(out: seq<Atom>)
    ensures PrintAll(out) == "" || PrintAll(out)[0] == '('
  {
  }

  /** Raw texts differ for different atoms. */
  lemma RawTextsDiffer(a: Atom, b: Atom)
    requires WellFormed(a) && WellFormed(b) && RawText(a) == RawText(b)
    ensures a == b
  {
    SameShape(a.typ, RawInside(a), b.typ, RawInside(b));
    if a.Node? && b.Node? {
      SameQuoted(a.name, b.name);
    } else if a.Node? {
      LinkInside(b.out);
    } else if b.Node? {
      LinkInside(a.out);
    } else {
      assert Print(a) == Print(b) && Print(a) + "" == Print(b) + "";
      PrintedAtomsDiffer(a, b, "", "");
    }
  }

  /** Exactly when a raw text is the printed form of some atom: a link's always, and of itself; a
      node's if its name is the escaped form of the other's name. */
  lemma RawIsPrint(a: Atom, b: Atom)
    requires WellFormed(a) && WellFormed(b)
    ensures RawText(a) == Print(b) <==> if a.Link? then a == b else b.Node? && a.typ == b.typ && a.name == Escape(b.name)
  {
    if RawText(a) == Print(b) {
      SameShape(a.typ, RawInside(a), b.typ, Inside(b));
      if a.Link? {
        assert Print(a) == Print(b) && Print(a) + "" == Print(b) + "";
        PrintedAtomsDiffer(a, b, "", "");
      } else if b.Node? {
        SameQuoted(a.name, Escape(b.name));
      } else {
        LinkInside(b.out);
      }
    }
  }

  /** A node whose raw text is the printed form of another atom. */
  predicate Misleading(a: Atom)
  {
    a.Node? && LooksEscaped(a.name)
  }

  function MistakenFor(a: Atom): Atom
    requires Misleading(a)
  {
    Node(a.typ, Unescaped(a.name))
  }

  /** The raw text of an atom is another atom's printed form exactly when it is misleading. */
  lemma MisleadingExactly(a: Atom, b: Atom)
    requires WellFormed(a) && WellFormed(b)
    ensures RawText(a) == Print(b) && a != b <==> Misleading(a) && b == MistakenFor(a)
  {
    RawIsPrint(a, b);
    if a.Node? && b.Node? {
      EscapedNames(a.name, b.name);
    }
  }

  // ---- what the server makes of a raw text ----

  lemma {:induction false} UnquoteShorter(s: string)
    ensures Unquote(s).Some? ==> |s| >= |Unquote(s).value.0| + 1 + |Unquote(s).value.1|
    ensures Unquote(s).Some? && |s| == |Unquote(s).value.0| + 1 + |Unquote(s).value.1| ==> PlainName(Unquote(s).value.0)
  {
    if s != "" && s[0] != '"' {
      if s[0] != '\\' {
        UnquoteShorter(s[1..]);
      } else if |s| >= 2 {
        UnquoteShorter(s[2..]);
      }
    }
  }

  /** A single fetch asks for the keys of its own atom exactly when the atom is a link or its
      name has neither quotes nor backslashes. */
  lemma FetchAsksForItsAtom(a: Atom)
    requires WellFormed(a)
    ensures ParseAtom(RawText(a)) == Some((a, "")) <==> (a.Node? ==> PlainName(a.name))
  {
    if a.Node? && !PlainName(a.name) {
      RawNode(a.typ, a.name);
    } else {
      if a.Node? {
        EscapeLonger(a.name);
      }
      assert RawText(a) == Print(a) + "";
      ParseInvertsPrint(a, "");
    }
  }

  lemma RawNode(typ: string, name: string)
    requires IsTypeName(typ) && !PlainName(name)
    ensures ParseAtom(RawText(Node(typ, name))) != Some((Node(typ, name), ""))
  {
    var s := RawText(Node(typ, name));
    var inner := " " + ("\"" + (name + "\")"));
    assert s == "(" + typ + inner;
    HeadOf(typ, inner, s);
    assert inner[2..] == name + "\")";
    UnquoteShorter(name + "\")");
  }
}
