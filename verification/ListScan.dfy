/** Decoding a list of atoms: the loop brackets one expression after another without parsing it,
    decodes what is between the brackets, and goes on behind it. */
module ListScan {
  import opened Wrappers
  import opened Sexpr

  // ---- bracketing one expression ----

  /** Open parentheses, whether inside a quoted text, and whether behind a backslash. */
  datatype Scan = Scan(depth: nat, quoted: bool, escaped: bool)

  function Step(st: Scan, c: char): Scan
  {
    if st.escaped then st.(escaped := false)
    else if c == '\\' then st.(escaped := true)
    else if c == '"' then st.(quoted := !st.quoted)
    else if st.quoted then st
    else if c == '(' then st.(depth := st.depth + 1)
    else if c == ')' && st.depth > 0 then st.(depth := st.depth - 1)
    else st
  }

  /** Reads `t`, stopping for good when all parentheses are closed. */
  function Read(st: Scan, t: string): Scan
    decreases |t|
  {
    if t == "" || st.depth == 0 then st else Read(Step(st, t[0]), t[1..])
  }

  lemma {:induction false} ReadAppend(st: Scan, t: string, u: string)
    ensures Read(st, t + u) == Read(Read(st, t), u)
    decreases |t|
  {
    if t == "" {
      assert t + u == u;
    } else if st.depth > 0 {
      assert (t + u)[1..] == t[1..] + u;
      ReadAppend(Step(st, t[0]), t[1..], u);
    }
  }

  /** Where, from `p` on and not beyond `r`, the parentheses are closed, and how many are open. */
  function Close(s: string, p: nat, r: nat, st: Scan): (c: (nat, nat))
    requires p <= r < |s|
    ensures p <= c.0 <= r
    decreases r - p
  {
    var st' := Step(st, s[p]);
    if st'.depth == 0 || p == r then (p, st'.depth) else Close(s, p + 1, r, st')
  }

  datatype Next = Done | Bad | Expr(l: nat, r: nat, open: nat)

  /** Skips blanks from `l`; nothing before `r` means done, anything but a parenthesis is an error. */
  function NextExpr(s: string, l: nat, r: nat): (n: Next)
    requires r < |s|
    ensures n.Expr? ==> l <= n.l < n.r <= r
    decreases |s| - l
  {
    if l > r then Bad
    else if l == r then Done
    else if IsBlank(s[l]) then NextExpr(s, l + 1, r)
    else if s[l] != '(' then Bad
    else var c := Close(s, l + 1, r, Scan(1, false, false)); Expr(l, c.0, c.1)
  }

  // ---- the loop ----

  /** An element met by the loop: what it decodes to, and the text it was decoded from. */
  datatype Element = Element(atom: Atom, text: string)

  type Decoder = string -> Option<Atom>

  /** The atom that the whole text is the printed form of. */
  function AtomIn(text: string): Option<Atom>
  {
    var a := ParseAtom(text);
    if a.None? then None else Some(a.value.0)
  }

  /** The elements met from `l` on, and whether the loop ended without an error. */
  function Elements(decode: Decoder, s: string, l: nat, end: nat): (seq<Element>, bool)
    requires end < |s|
    decreases |s| - l
  {
    match NextExpr(s, l, end)
    case Done => ([], true)
    case Bad => ([], false)
    case Expr(l', r', open) =>
      if open > 0 then ([], true)
      else
        var text := s[l'..r' + 1];
        var a := decode(text);
        if a.None? then ([], false)
        else Behind([Element(a.value, text)], Elements(decode, s, r' + 1, end))
  }

  function Behind(met: seq<Element>, rest: (seq<Element>, bool)): (seq<Element>, bool)
  {
    (met + rest.0, rest.1)
  }

  lemma BehindAll(met: seq<Element>, ok: bool)
    ensures Behind(met, ([], ok)) == (met, ok)
  {
    assert met + [] == met;
  }

  lemma LoopStops(decode: Decoder, s: string, l: nat, end: nat, met: seq<Element>)
    requires end < |s|
    ensures var n := NextExpr(s, l, end);
            var all := Behind(met, Elements(decode, s, l, end));
            && (n.Done? || (n.Expr? && n.open > 0) ==> all == (met, true))
            && (n.Bad? || (n.Expr? && n.open == 0 && decode(s[n.l..n.r + 1]).None?) ==> all == (met, false))
  {
    BehindAll(met, true);
    BehindAll(met, false);
  }

  lemma BehindNone(rest: (seq<Element>, bool))
    ensures Behind([], rest) == rest
  {
    assert [] + rest.0 == rest.0;
  }

  lemma BehindOneMore(met: seq<Element>, e: Element, rest: (seq<Element>, bool))
    ensures Behind(met, Behind([e], rest)) == Behind(met + [e], rest)
  {
    assert met + ([e] + rest.0) == (met + [e]) + rest.0;
  }

  /** The brackets `spans` of the elements, from `l` on, each behind the one before it. */
  ghost predicate Forward(s: string, spans: seq<(nat, nat)>, elements: seq<Element>, l: nat)
  {
    && |spans| == |elements|
    && (forall i :: 0 <= i < |spans| ==>
          l <= spans[i].0 < spans[i].1 < |s| && s[spans[i].0..spans[i].1 + 1] == elements[i].text)
    && (forall i, j :: 0 <= i < j < |spans| ==> spans[i].1 < spans[j].0)
  }

  lemma OneMoreInFront(s: string, spans: seq<(nat, nat)>, elements: seq<Element>, l: nat, span: (nat, nat), e: Element)
    requires l <= span.0 < span.1 < |s| && s[span.0..span.1 + 1] == e.text && Forward(s, spans, elements, span.1 + 1)
    ensures Forward(s, [span] + spans, [e] + elements, l)
  {
    var more, met := [span] + spans, [e] + elements;
    forall i | 0 <= i < |more|
      ensures l <= more[i].0 < more[i].1 < |s| && s[more[i].0..more[i].1 + 1] == met[i].text
    {
      assert i > 0 ==> more[i] == spans[i - 1] && met[i] == elements[i - 1];
    }
    forall i, j | 0 <= i < j < |more| ensures more[i].1 < more[j].0 {
      assert more[j] == spans[j - 1] && (i > 0 ==> more[i] == spans[i - 1]);
    }
  }

  /** Whatever the reply, well formed or not, the texts decoded lie strictly one behind the other. */
  lemma {:induction false} ScanMovesForward(decode: Decoder, s: string, l: nat, end: nat) returns (spans: seq<(nat, nat)>)
    requires end < |s|
    ensures Forward(s, spans, Elements(decode, s, l, end).0, l)
    decreases |s| - l
  {
    spans := [];
    var n := NextExpr(s, l, end);
    if n.Expr? && n.open == 0 {
      var a := decode(s[n.l..n.r + 1]);
      if a.Some? {
        var rest := ScanMovesForward(decode, s, n.r + 1, end);
        OneMoreInFront(s, rest, Elements(decode, s, n.r + 1, end).0, l, (n.l, n.r), Element(a.value, s[n.l..n.r + 1]));
        spans := [(n.l, n.r)] + rest;
      }
    }
  }

  /** Index of the first `c` at or behind `p`, or the length. */
  function Find(s: string, c: char, p: nat): (n: nat)
    requires p <= |s|
    ensures p <= n <= |s| && (n < |s| ==> s[n] == c) && forall i :: p <= i < n ==> s[i] != c
    decreases |s| - p
  {
    if p == |s| || s[p] == c then p else Find(s, c, p + 1)
  }

  /** Index of the last `c` before `p`, if any. */
  function FindLast(s: string, c: char, p: nat): (n: Option<nat>)
    requires p <= |s|
    ensures n.Some? ==> n.value < p && s[n.value] == c && forall i :: n.value < i < p ==> s[i] != c
    ensures n.None? ==> forall i :: 0 <= i < p ==> s[i] != c
  {
    if p == 0 then None else if s[p - 1] == c then Some(p - 1) else FindLast(s, c, p - 1)
  }

  /** Where the list begins: behind the first parenthesis, or at the start if there is none. */
  function ListStart(s: string): (l: nat)
    ensures l <= |s|
  {
    var f := Find(s, '(', 0);
    if f < |s| then f + 1 else 0
  }

  function DecodedList(decode: Decoder, s: string): (seq<Element>, bool)
  {
    var end := FindLast(s, ')', |s|);
    if end.None? then ([], false) else Elements(decode, s, ListStart(s), end.value)
  }

  /** The loop of the list decoder. */
  method DecodeAtomList(decode: Decoder, s: string) returns (elements: seq<Element>, ok: bool)
    ensures (elements, ok) == DecodedList(decode, s)
  {
    elements, ok := [], false;
    var l := ListStart(s);
    var last := FindLast(s, ')', |s|);
    if last.None? {
      return;
    }
    var end := last.value;
    var r := end;
    if l == r {
      ok := true;
      return;
    }
    BehindNone(Elements(decode, s, l, end));
    while true
      invariant r == end && DecodedList(decode, s) == Behind(elements, Elements(decode, s, l, end))
      invariant l <= |s|
      decreases |s| - l
    {
      LoopStops(decode, s, l, end, elements);
      var n := NextExpr(s, l, r);
      if n.Done? || (n.Expr? && 0 < n.open) {
        ok := true;
        return;
      }
      if n.Bad? {
        return;
      }
      var text := s[n.l..n.r + 1];
      var a := decode(text);
      if a.None? {
        return;
      }
      var e := Element(a.value, text);
      BehindOneMore(elements, e, Elements(decode, s, n.r + 1, end));
      elements := elements + [e];
      l, r := n.r + 1, end;
    }
  }

  // ---- printed atoms are bracketed exactly ----

  predicate Plain(c: char)
  {
    c != '\\' && c != '"' && c != '(' && c != ')'
  }

  lemma {:induction false} ReadPlain(d: nat, t: string)
    requires forall c <- t :: Plain(c)
    ensures Read(Scan(d, false, false), t) == Scan(d, false, false)
  {
    if t != "" && d > 0 {
      assert Plain(t[0]);
      ReadPlain(d, t[1..]);
    }
  }

  lemma {:induction false} ReadEscaped(d: nat, name: string)
    requires d > 0
    ensures Read(Scan(d, true, false), Escape(name)) == Scan(d, true, false)
  {
    if name != "" {
      var c := name[0];
      var first := if c == '"' || c == '\\' then ['\\', c] else [c];
      ReadEscaped(d, name[1..]);
      ReadAppend(Scan(d, true, false), first, Escape(name[1..]));
      if |first| == 2 {
        assert first[1..] == [c] && [c][1..] == "";
      }
    }
  }

  lemma ReadQuoted(d: nat, name: string)
    requires d > 0
    ensures Read(Scan(d, false, false), Quote(name)) == Scan(d, false, false)
  {
    ReadAppend(Scan(d, false, false), "\"", Escape(name));
    ReadAppend(Scan(d, false, false), "\"" + Escape(name), "\"");
    ReadEscaped(d, name);
  }

  lemma {:induction false} ReadBody(d: nat, a: Atom)
    requires d > 0 && WellFormed(a)
    ensures Read(Scan(d, false, false), a.typ + " " + Inside(a)) == Scan(d, false, false)
    decreases a, 0
  {
    var st := Scan(d, false, false);
    ReadPlain(d, a.typ + " ");
    ReadAppend(st, a.typ + " ", Inside(a));
    match a
    case Node(_, name) => ReadQuoted(d, name);
    case Link(_, out) => ReadAtoms(d, out);
  }

  lemma {:induction false} ReadAtom(d: nat, a: Atom)
    requires d > 0 && WellFormed(a)
    ensures Read(Scan(d, false, false), Print(a)) == Scan(d, false, false)
    decreases a, 1
  {
    var st, body := Scan(d, false, false), a.typ + " " + Inside(a);
    assert Print(a) == "(" + body + ")";
    ReadAppend(st, "(" + body, ")");
    ReadAppend(st, "(", body);
    ReadBody(d + 1, a);
  }

  lemma {:induction false} ReadAtoms(d: nat, atoms: seq<Atom>)
    requires d > 0 && forall a <- atoms :: WellFormed(a)
    ensures Read(Scan(d, false, false), PrintAll(atoms)) == Scan(d, false, false)
    decreases atoms
  {
    if atoms != [] {
      ReadAtom(d, atoms[0]);
      ReadAppend(Scan(d, false, false), Print(atoms[0]), PrintAll(atoms[1..]));
      ReadAtoms(d, atoms[1..]);
    }
  }

  lemma {:induction false} CloseSkips(s: string, p: nat, r: nat, st: Scan, t: string)
    requires p + |t| <= r < |s| && s[p..p + |t|] == t && st.depth > 0 && Read(st, t).depth > 0
    ensures Close(s, p, r, st) == Close(s, p + |t|, r, Read(st, t))
    decreases |t|
  {
    if t != "" {
      var st' := Step(st, t[0]);
      assert s[p] == t[0] && s[p + 1..p + 1 + |t[1..]|] == t[1..];
      CloseSkips(s, p + 1, r, st', t[1..]);
    }
  }

  lemma Piece(s: string, p: nat, q: nat, i: nat, j: nat)
    requires p <= q <= |s| && i <= j <= q - p
    ensures s[p..q][i..j] == s[p + i..p + j]
  {
    assert |s[p..q][i..j]| == j - i;
    assert forall k :: 0 <= k < j - i ==> s[p..q][i..j][k] == s[p..q][i + k];
  }

  /** From the opening parenthesis of a printed atom the scan ends at its own closing one. */
  lemma AtomIsBracketed(s: string, p: nat, r: nat, a: Atom)
    requires WellFormed(a) && p + |Print(a)| <= r < |s| && s[p..p + |Print(a)|] == Print(a)
    ensures NextExpr(s, p, r) == Expr(p, p + |Print(a)| - 1, 0)
  {
    var body := a.typ + " " + Inside(a);
    var t := Print(a);
    assert t == "(" + body + ")";
    assert s[p] == t[0] && s[p + |t| - 1] == t[|t| - 1];
    assert t[1..1 + |body|] == body;
    Piece(s, p, p + |t|, 1, 1 + |body|);
    ReadBody(1, a);
    CloseSkips(s, p + 1, r, Scan(1, false, false), body);
  }

  // ---- a printed list is decoded into its elements ----

  /** Printed atoms, each preceded by blanks. */
  function Listed(atoms: seq<Atom>, gaps: seq<string>): string
    requires |gaps| == |atoms|
  {
    if atoms == [] then "" else gaps[0] + Print(atoms[0]) + Listed(atoms[1..], gaps[1..])
  }

  function AsElements(atoms: seq<Atom>): (r: seq<Element>)
  {
    seq(|atoms|, i requires 0 <= i < |atoms| => Element(atoms[i], Print(atoms[i])))
  }

  predicate AllBlank(t: string)
  {
    forall c <- t :: IsBlank(c)
  }

  lemma {:induction false} BlanksSkipped(s: string, p: nat, r: nat, t: string)
    requires p + |t| <= r < |s| && s[p..p + |t|] == t && AllBlank(t)
    ensures NextExpr(s, p, r) == NextExpr(s, p + |t|, r)
    decreases |t|
  {
    if t != "" {
      assert s[p] == t[0] && s[p + 1..p + 1 + |t[1..]|] == t[1..];
      BlanksSkipped(s, p + 1, r, t[1..]);
    }
  }

  lemma FirstAndRest(atoms: seq<Atom>, all: (seq<Element>, bool), rest: (seq<Element>, bool))
    requires atoms != [] && rest == (AsElements(atoms[1..]), true)
    requires all == Behind([Element(atoms[0], Print(atoms[0]))], rest)
    ensures all == (AsElements(atoms), true)
  {
    assert AsElements(atoms) == [Element(atoms[0], Print(atoms[0]))] + AsElements(atoms[1..]);
  }

  lemma NothingListed(decode: Decoder, s: string, p: nat, end: nat, last: string)
    requires AllBlank(last) && end == p + |last| < |s| && s[p..end] == last
    ensures Elements(decode, s, p, end) == ([], true)
  {
    BlanksSkipped(s, p, end, last);
  }

  /** The decoder reads back the atoms printed. */
  predicate Inverts(decode: Decoder, atoms: seq<Atom>)
  {
    forall a <- atoms :: WellFormed(a) && decode(Print(a)) == Some(a)
  }

  lemma {:induction false} ElementsOfListed(
    decode: Decoder, s: string, p: nat, end: nat, atoms: seq<Atom>, gaps: seq<string>, last: string)
    requires |gaps| == |atoms| && Inverts(decode, atoms) && (forall g <- gaps :: AllBlank(g)) && AllBlank(last)
    requires end == p + |Listed(atoms, gaps) + last| < |s| && s[p..end] == Listed(atoms, gaps) + last
    ensures Elements(decode, s, p, end) == (AsElements(atoms), true)
    decreases atoms
  {
    if atoms == [] {
      assert Listed(atoms, gaps) + last == last;
      NothingListed(decode, s, p, end, last);
      assert AsElements(atoms) == [];
    } else {
      var rest := Listed(atoms[1..], gaps[1..]) + last;
      assert Listed(atoms, gaps) + last == gaps[0] + Print(atoms[0]) + rest;
      var q, e := FirstBracket(s, p, end, atoms[0], gaps[0], rest);
      TakeElement(decode, s, p, end, q, e, atoms[0], Print(atoms[0]));
      ElementsOfListed(decode, s, e, end, atoms[1..], gaps[1..], last);
      FirstAndRest(atoms, Elements(decode, s, p, end), Elements(decode, s, e, end));
    }
  }

  lemma Parts(s: string, p: nat, a: string, b: string, c: string)
    requires p + |a + b + c| <= |s| && s[p..p + |a + b + c|] == a + b + c
    ensures s[p..p + |a|] == a && s[p + |a|..p + |a| + |b|] == b && s[p + |a| + |b|..p + |a + b + c|] == c
  {
    var t := a + b + c;
    assert t[..|a|] == a && t[|a|..|a| + |b|] == b && t[|a| + |b|..|t|] == c;
    Piece(s, p, p + |t|, 0, |a|);
    Piece(s, p, p + |t|, |a|, |a| + |b|);
    Piece(s, p, p + |t|, |a| + |b|, |t|);
  }

  lemma FirstBracket(s: string, p: nat, end: nat, a: Atom, gap: string, rest: string) returns (q: nat, e: nat)
    requires WellFormed(a) && AllBlank(gap)
    requires end == p + |gap + Print(a) + rest| < |s| && s[p..end] == gap + Print(a) + rest
    ensures q < e <= end && NextExpr(s, p, end) == Expr(q, e - 1, 0) && s[q..e] == Print(a) && s[e..end] == rest
    ensures end - e == |rest|
  {
    q := p + |gap|;
    e := q + |Print(a)|;
    Parts(s, p, gap, Print(a), rest);
    BlanksSkipped(s, p, end, gap);
    AtomIsBracketed(s, q, end, a);
  }

  lemma TakeElement(decode: Decoder, s: string, p: nat, end: nat, q: nat, e: nat, a: Atom, text: string)
    requires q < e <= end < |s| && NextExpr(s, p, end) == Expr(q, e - 1, 0) && s[q..e] == text && decode(text) == Some(a)
    ensures Elements(decode, s, p, end) == Behind([Element(a, text)], Elements(decode, s, e, end))
  {
    assert NextExpr(s, p, end).l == q && NextExpr(s, p, end).r + 1 == e;
  }

  lemma AtomInPrinted(a: Atom)
    requires WellFormed(a)
    ensures AtomIn(Print(a)) == Some(a)
  {
    ParseInvertsPrint(a, "");
    assert Print(a) + "" == Print(a);
  }

  /** Scanning a list inverts printing it: for all atoms, with whatever parentheses, quotes and
      backslashes in their names, and blanks anywhere between them, the loop meets exactly the
      printed atoms, once each and in order, and the text it takes for each is that atom's own
      printed form. */
  lemma ListScanInvertsPrinting(atoms: seq<Atom>, gaps: seq<string>, last: string, tail: string)
    requires |gaps| == |atoms| && (forall a <- atoms :: WellFormed(a)) && (forall g <- gaps :: AllBlank(g)) && AllBlank(last)
    requires forall c <- tail :: c != ')'
    ensures DecodedList(AtomIn, "(" + (Listed(atoms, gaps) + last) + ")" + tail) == (AsElements(atoms), true)
  {
    var inner := Listed(atoms, gaps) + last;
    var s := "(" + inner + ")" + tail;
    var end := 1 + |inner|;
    assert s[1..end] == inner;
    LastParen(s, end, tail, |s|) by {
      assert s[end] == ')' && s[end + 1..] == tail;
    }
    forall a | a in atoms ensures AtomIn(Print(a)) == Some(a) {
      AtomInPrinted(a);
    }
    ElementsOfListed(AtomIn, s, 1, end, atoms, gaps, last);
    assert ListStart(s) == 1;
  }

  lemma {:induction false} LastParen(s: string, end: nat, tail: string, p: nat)
    requires end < p <= |s| && s[end] == ')' && s[end + 1..] == tail && forall c <- tail :: c != ')'
    ensures FindLast(s, ')', p) == Some(end)
  {
    if end < p - 1 {
      assert s[p - 1] == s[end + 1..][p - 1 - end - 1] && s[p - 1] in tail;
      LastParen(s, end, tail, p - 1);
    }
  }
}
