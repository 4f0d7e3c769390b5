/** When the association-list loop ends.  If a pair has no separator, the search for it returns
    the largest position, adding 3 wraps round to 2, and decoding goes on from there. */
module AListLoop {
  import opened Wrappers
  import opened Sexpr
  import opened ListScan
  import opened AList

  datatype Place = At(pos: nat) | Stopped

  /** Where the loop goes on after a missing separator. */
  function Wrapped(r: Readers, s: string): (place: Place)
    ensures place.At? ==> place.pos <= |s|
  {
    var v := r.value(s, 2);
    if v.None? then Stopped else At(v.value.1)
  }

  /** One pass of the loop, wrap-around included. */
  function Pass(r: Readers, s: string, place: Place): Place
  {
    if place.Stopped? || place.pos > |s| then Stopped
    else
      var p := Find(s, '(', place.pos);
      if p == |s| then Stopped
      else
        match r.pair(s, p + 1)
        case One(_, next) => At(next)
        case Failed => Stopped
        case Dotless(_) => Wrapped(r, s)
  }

  function After(r: Readers, s: string, place: Place, n: nat): Place
    decreases n
  {
    if n == 0 then place else After(r, s, Pass(r, s, place), n - 1)
  }

  ghost predicate Ends(r: Readers, s: string, place: Place)
  {
    exists n :: After(r, s, place, n).Stopped?
  }

  predicate MeetsDotless(r: Readers, s: string, pos: nat)
  {
    pos <= |s| && PairsFrom(r.pair, s, pos).1.NoDot?
  }

  lemma {:induction false} AfterSum(r: Readers, s: string, place: Place, m: nat, n: nat)
    ensures After(r, s, place, m + n) == After(r, s, After(r, s, place, m), n)
    decreases m
  {
    if m > 0 {
      AfterSum(r, s, Pass(r, s, place), m - 1, n);
    }
  }

  lemma {:induction false} StoppedStays(r: Readers, s: string, n: nat)
    ensures After(r, s, Stopped, n) == Stopped
  {
    if n > 0 {
      StoppedStays(r, s, n - 1);
    }
  }

  /** The loop follows the pairs: it stops behind the last, or comes to the pair without separator. */
  lemma {:induction false} FollowsPairs(r: Readers, s: string, pos: nat) returns (n: nat)
    requires pos <= |s|
    ensures n > 0
    ensures After(r, s, At(pos), n) == if MeetsDotless(r, s, pos) then Wrapped(r, s) else Stopped
    decreases |s| - pos
  {
    var p := Find(s, '(', pos);
    n := 1;
    assert After(r, s, At(pos), 1) == Pass(r, s, At(pos));
    if p < |s| && r.pair(s, p + 1).One? {
      var next := r.pair(s, p + 1).next;
      var k := FollowsPairs(r, s, next);
      n := k + 1;
      assert PairsFrom(r.pair, s, pos).1 == PairsFrom(r.pair, s, next).1;
    }
  }

  /** A loop that comes back to where it was never stops. */
  lemma {:induction false} CycleNeverStops(r: Readers, s: string, place: Place, m: nat, n: nat)
    requires m > 0 && place.At? && After(r, s, place, m) == place
    ensures After(r, s, place, n).At?
  {
    if n < m {
      AfterSum(r, s, place, n, m - n);
      if After(r, s, place, n).Stopped? {
        StoppedStays(r, s, m - n);
      }
    } else {
      AfterSum(r, s, place, m, n - m);
      CycleNeverStops(r, s, place, m, n - m);
    }
  }

  /** The loop ends exactly when it does not meet a pair without separator twice: once on the way,
      and again from the place it is thrown back to. */
  lemma LoopEndsUnlessThrownBackTwice(r: Readers, s: string, pos: nat)
    requires pos <= |s|
    ensures var back := Wrapped(r, s);
            Ends(r, s, At(pos))
            <==> !(MeetsDotless(r, s, pos) && back.At? && MeetsDotless(r, s, back.pos))
  {
    var back := Wrapped(r, s);
    var n := FollowsPairs(r, s, pos);
    if MeetsDotless(r, s, pos) && back.At? {
      var m := FollowsPairs(r, s, back.pos);
      AfterSum(r, s, At(pos), n, m);
      if MeetsDotless(r, s, back.pos) {
        forall k ensures After(r, s, At(pos), k).At? {
          if k < n {
            AfterSum(r, s, At(pos), k, n - k);
            if After(r, s, At(pos), k).Stopped? {
              StoppedStays(r, s, n - k);
            }
          } else {
            AfterSum(r, s, At(pos), n, k - n);
            CycleNeverStops(r, s, back, m, k - n);
          }
        }
      }
    }
  }

  /** The decoder reports that the loop goes on for ever exactly when it does. */
  lemma EndlessExactly(r: Readers, s: string, pos: nat)
    requires pos <= |s|
    ensures AllFrom(r, s, pos, false).1 == Endless <==> !Ends(r, s, At(pos))
  {
    LoopEndsUnlessThrownBackTwice(r, s, pos);
    NotEndless(r, s, pos);
    if Wrapped(r, s).At? {
      NotEndless(r, s, Wrapped(r, s).pos);
    }
  }

  lemma {:induction false} NotEndless(r: Readers, s: string, pos: nat)
    requires pos <= |s|
    ensures PairsFrom(r.pair, s, pos).1 != Endless
    decreases |s| - pos
  {
    var p := Find(s, '(', pos);
    if p < |s| && r.pair(s, p + 1).One? {
      NotEndless(r, s, r.pair(s, p + 1).next);
    }
  }

  /** On lists with all their separators every pass moves forward and the loop ends. */
  lemma SeparatedListsEnd(r: Readers, s: string, pos: nat)
    requires pos <= |s| && !PairsFrom(r.pair, s, pos).1.NoDot?
    ensures Ends(r, s, At(pos))
  {
    LoopEndsUnlessThrownBackTwice(r, s, pos);
  }

  lemma DotlessPair(keys: Reader<Atom>, values: Reader<Value>, s: string, p: nat, a: Atom, k: string, tail: string)
    requires ReadsBack(keys, a, k) && StandsAt(s, p, k, tail) && forall i :: !DotAt(s, i)
    ensures PairBy(keys, values, s, p) == Dotless(a)
  {
    assert keys(s, p) == Some((a, p + |k|));
    Behind2(s, p, k, tail);
  }

  lemma ThrownBackForEver(r: Readers, s: string, e: nat)
    requires 1 < e < |s| - 1 && s[1] == '(' && s[e] != '(' && s[e + 1] == '('
    requires r.pair(s, 2).Dotless? && r.pair(s, e + 2).Dotless? && Wrapped(r, s) == At(e)
    ensures !Ends(r, s, At(1))
  {
    assert Find(s, '(', 1) == 1 && Find(s, '(', e + 1) == e + 1;
    LoopEndsUnlessThrownBackTwice(r, s, 1);
  }

  function SecondKey(l: string): string
  {
    ")(" + (l + "))")
  }

  predicate TwoKeyList(s: string, k: string, l: string)
  {
    s == "((" + (k + SecondKey(l))
  }

  lemma TwoKeys(s: string, k: string, l: string)
    requires TwoKeyList(s, k, l)
    ensures var e := 2 + |k|;
            e < |s| - 1 && s[1] == '(' && s[e] == ')' && s[e + 1] == '('
            && StandsAt(s, 2, k, SecondKey(l)) && StandsAt(s, e + 2, l, "))")
  {
    Behind2(s, 2, k, SecondKey(l));
    Behind2(s, 2 + |k|, ")(", l + "))");
  }

  lemma TwoBareKeys(keys: Reader<Atom>, values: Reader<Value>, a: Atom, b: Atom, k: string, l: string, s: string)
    requires ReadsBack(keys, a, k) && ReadsBack(keys, b, l) && ReadsBack(values, Linked(a), k) && TwoKeyList(s, k, l)
    requires forall i :: !DotAt(s, i)
    ensures !Ends(Readers(PairsBy(keys, values), values), s, At(1))
  {
    TwoKeys(s, k, l);
    DotlessPair(keys, values, s, 2, a, k, SecondKey(l));
    DotlessPair(keys, values, s, 4 + |k|, b, l, "))");
    assert values(s, 2) == Some((Linked(a), 2 + |k|));
    ThrownBackForEver(Readers(PairsBy(keys, values), values), s, 2 + |k|);
  }

  /** A list of two keys without values and separators is decoded for ever. */
  lemma TwoBareKeysNeverEnd(a: Atom, b: Atom, s: string)
    requires WellFormedValue(Linked(a)) && WellFormed(b) && TwoKeyList(s, Print(a), Print(b))
    requires forall i :: !DotAt(s, i)
    ensures !Ends(SexprPairs(), s, At(1))
  {
    KeyReadBack(a);
    KeyReadBack(b);
    ValueReadBack(Linked(a));
    TwoBareKeys(KeyReader(), ValueReader(), a, b, Print(a), Print(b), s);
  }
}
