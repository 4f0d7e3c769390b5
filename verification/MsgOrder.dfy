/** The messages of the asynchronous channel, the order in which its buffer keeps them,
    and the de-duplicating insertion. */
module MsgOrder {

  /** A queued message.  `data` stands for the callback and the packet handed to it. */
  datatype Msg<+D> = Msg(sequence: nat, noreply: bool, text: string, data: D)

  /** Lexicographic order on message texts. */
  predicate TextLess(a: string, b: string)
  {
    if b == "" then false
    else if a == "" then true
    else a[0] < b[0] || (a[0] == b[0] && TextLess(a[1..], b[1..]))
  }

  predicate Less<D>(a: Msg<D>, b: Msg<D>)
  {
    if a.sequence == 0 && b.sequence == 0 then TextLess(a.text, b.text)
    else a.sequence > b.sequence
  }

  /** Two messages that the ordered set regards as the same element. */
  predicate Equivalent<D>(a: Msg<D>, b: Msg<D>)
  {
    !Less(a, b) && !Less(b, a)
  }

  const UPDATE := "(cog-update-value!"

  /** The first 19 characters of the text are compared with a literal of 18. */
  predicate TakesSequence(text: string)
  {
    text[..if |text| < 19 then |text| else 19] == UPDATE
  }

  /** What the comment above the test asks for: every update message. */
  predicate IsUpdate(text: string)
  {
    UPDATE <= text
  }

  /** The literal test accepts a single text, and no text longer than the literal. */
  lemma LiteralTestAcceptsOneText(text: string)
    ensures TakesSequence(text) <==> text == UPDATE
    ensures IsUpdate(text) && text[|text| - 1] == '\n' ==> !TakesSequence(text)
  {
    assert |UPDATE| == 18;
    if |text| <= 18 {
      assert text[..|text|] == text;
    }
    if text == UPDATE {
      assert text[17] == '!';
    }
  }

  lemma {:induction false} TextLessTotal(a: string, b: string)
    ensures a == b || TextLess(a, b) || TextLess(b, a)
    ensures !(TextLess(a, b) && TextLess(b, a))
    ensures !TextLess(a, a)
  {
    if a != "" {
      TextLessTotal(a[1..], a[1..]);
      if b != "" && a[0] == b[0] {
        TextLessTotal(a[1..], b[1..]);
        assert a == [a[0]] + a[1..] && b == [b[0]] + b[1..];
      }
    }
  }

  lemma {:induction false} TextLessTransitive(a: string, b: string, c: string)
    requires TextLess(a, b) && TextLess(b, c)
    ensures TextLess(a, c)
  {
    if a != "" && a[0] == b[0] == c[0] {
      TextLessTransitive(a[1..], b[1..], c[1..]);
    }
  }

  /** What the order is: at the first place where two texts differ, the smaller character decides, and
      a text comes before its extensions. */
  lemma {:induction false} TextLessExactly(a: string, b: string)
    ensures TextLess(a, b) <==> exists n :: DecidesAt(a, b, n)
  {
    if a != "" && b != "" && a[0] == b[0] {
      TextLessExactly(a[1..], b[1..]);
      assert a == [a[0]] + a[1..] && b == [b[0]] + b[1..];
      forall n: nat | DecidesAt(a[1..], b[1..], n) ensures DecidesAt(a, b, n + 1) {
        assert a[..n + 1] == [a[0]] + a[1..][..n] && b[..n + 1] == [b[0]] + b[1..][..n];
      }
      forall n: nat | DecidesAt(a, b, n) ensures n > 0 && DecidesAt(a[1..], b[1..], n - 1) {
        assert n > 0 ==> a[1..][..n - 1] == a[..n][1..] && b[1..][..n - 1] == b[..n][1..];
      }
    } else {
      assert DecidesAt(a, b, 0) <==> TextLess(a, b);
      forall n: nat | DecidesAt(a, b, n) ensures n == 0 || a[0] == b[0] {
        SameStart(a, b, n);
      }
    }
  }

  lemma SameStart(a: string, b: string, n: nat)
    requires n <= |a| && n <= |b| && a[..n] == b[..n]
    ensures n == 0 || a[0] == b[0]
  {
    if n > 0 {
      assert a[..n][0] == b[..n][0];
    }
  }

  /** The texts agree up to `n`, and there the first ends or has the smaller character. */
  ghost predicate DecidesAt(a: string, b: string, n: nat)
  {
    n <= |a| && n < |b| && a[..n] == b[..n] && (n == |a| || a[n] < b[n])
  }

  /** The classes: same text among the unnumbered, same number among the numbered. */
  lemma EquivalenceClasses<D>(a: Msg<D>, b: Msg<D>)
    ensures Equivalent(a, b) <==> a.sequence == b.sequence && (a.sequence == 0 ==> a.text == b.text)
  {
    TextLessTotal(a.text, b.text);
  }

  /** `operator<` is a strict weak order: irreflexive, transitive, with transitive equivalence. */
  lemma StrictWeakOrder<D>(a: Msg<D>, b: Msg<D>, c: Msg<D>)
    ensures !Less(a, a)
    ensures Less(a, b) && Less(b, c) ==> Less(a, c)
    ensures Equivalent(a, b) && Equivalent(b, c) ==> Equivalent(a, c)
  {
    TextLessTotal(a.text, a.text);
    EquivalenceClasses(a, b);
    EquivalenceClasses(b, c);
    EquivalenceClasses(a, c);
    if TextLess(a.text, b.text) && TextLess(b.text, c.text) {
      TextLessTransitive(a.text, b.text, c.text);
    }
  }

  // ---- the ordered set ----

  ghost predicate Sorted<D>(q: seq<Msg<D>>)
  {
    forall i, j :: 0 <= i < j < |q| ==> Less(q[i], q[j])
  }

  predicate Present<D>(q: seq<Msg<D>>, m: Msg<D>)
  {
    exists i :: 0 <= i < |q| && Equivalent(q[i], m)
  }

  function Insert<D>(q: seq<Msg<D>>, m: Msg<D>): seq<Msg<D>>
  {
    if q == [] then [m]
    else if Less(m, q[0]) then [m] + q
    else if Less(q[0], m) then [q[0]] + Insert(q[1..], m)
    else q
  }

  /** Insertion keeps the order, adds exactly the new message when no equivalent one is
      queued, and changes nothing otherwise. */
  lemma {:induction false} InsertKeepsOneOfEachClass<D>(q: seq<Msg<D>>, m: Msg<D>)
    requires Sorted(q)
    ensures Sorted(Insert(q, m))
    ensures Present(q, m) ==> Insert(q, m) == q
    ensures !Present(q, m) ==> multiset(Insert(q, m)) == multiset(q) + multiset{m}
  {
    if q == [] {
    } else if Less(m, q[0]) {
      forall j | 0 <= j < |q| ensures Less(m, q[j]) {
        StrictWeakOrder(m, q[0], q[j]);
      }
    } else if Less(q[0], m) {
      var rest := q[1..];
      assert q == [q[0]] + rest;
      InsertKeepsOneOfEachClass(rest, m);
      PresentInRest(q, m);
      BelowInserted(q[0], rest, m);
    }
  }

  lemma PresentInRest<D>(q: seq<Msg<D>>, m: Msg<D>)
    requires q != [] && Less(q[0], m)
    ensures Present(q, m) <==> Present(q[1..], m)
  {
    var rest := q[1..];
    forall i | 0 <= i < |q| && Equivalent(q[i], m) ensures Present(rest, m) {
      assert i > 0 && rest[i - 1] == q[i];
    }
    forall i | 0 <= i < |rest| && Equivalent(rest[i], m) ensures Present(q, m) {
      assert q[i + 1] == rest[i];
    }
  }

  lemma BelowInserted<D>(x: Msg<D>, rest: seq<Msg<D>>, m: Msg<D>)
    requires Less(x, m) && forall y <- rest :: Less(x, y)
    requires Insert(rest, m) == rest || multiset(Insert(rest, m)) == multiset(rest) + multiset{m}
    ensures forall y <- Insert(rest, m) :: Less(x, y)
  {
    forall y | y in Insert(rest, m) ensures Less(x, y) {
      assert y in multiset(Insert(rest, m));
    }
  }

  /** Numbered messages come first, the newest in front, so the front of the queue is the
      newest of all numbered messages whenever there is one. */
  lemma NumberedFirstNewestFirst<D>(q: seq<Msg<D>>, i: nat, j: nat)
    requires Sorted(q) && i < j < |q|
    ensures q[j].sequence != 0 ==> q[i].sequence > q[j].sequence
    ensures !Equivalent(q[i], q[j])
  {
    assert Less(q[i], q[j]);
  }

  /** The part of the channel object that its enqueuing methods change: the buffer and the
      counter from which the constructor of a message takes its number. */
  class MsgBuffer<D> {
    var queue: seq<Msg<D>>
    var sequenceCounter: nat

    ghost predicate Valid()
      reads this
    {
      Sorted(queue) && forall m <- queue :: m.sequence <= sequenceCounter
    }

    constructor ()
      ensures Valid() && queue == [] && sequenceCounter == 0
    {
      queue, sequenceCounter := [], 0;
    }

    /** Builds the message and inserts it.  The message is lost exactly when its text did
        not earn a number and the same text is already waiting. */
    method Enqueue(noreply: bool, text: string, data: D)
      requires Valid()
      modifies this
      ensures Valid()
      ensures sequenceCounter == old(sequenceCounter) + if TakesSequence(text) then 1 else 0
      ensures
        var m := Msg(if TakesSequence(text) then old(sequenceCounter) + 1 else 0, noreply, text, data);
        if !TakesSequence(text) && exists o <- old(queue) :: o.sequence == 0 && o.text == text
        then queue == old(queue)
        else multiset(queue) == multiset(old(queue)) + multiset{m}
    {
      var sequence := 0;
      if TakesSequence(text) {
        sequenceCounter := sequenceCounter + 1;
        sequence := sequenceCounter;
      }
      var m := Msg(sequence, noreply, text, data);
      InsertKeepsOneOfEachClass(queue, m);
      forall o: Msg<D> { EquivalenceClasses(o, m); }
      assert Present(queue, m) <==> sequence == 0 && exists o <- queue :: o.sequence == 0 && o.text == text;
      ghost var before := queue;
      queue := Insert(queue, m);
      forall o | o in queue ensures o in before || o == m {
        assert o in multiset(queue);
      }
    }

    /** A worker takes the first message. */
    method PopFront() returns (m: Msg<D>)
      requires Valid() && queue != []
      modifies this`queue
      ensures Valid() && old(queue) == [m] + queue
      ensures m.sequence == 0 ==> forall o <- queue :: o.sequence == 0 && TextLess(m.text, o.text)
      ensures m.sequence != 0 ==> forall o <- queue :: o.sequence < m.sequence
    {
      m := queue[0];
      queue := queue[1..];
      forall o | o in queue
        ensures if m.sequence == 0 then o.sequence == 0 && TextLess(m.text, o.text) else o.sequence < m.sequence
      {
        var j :| 0 <= j < |queue| && queue[j] == o;
        NumberedFirstNewestFirst(old(queue), 0, j + 1);
        assert Less(old(queue)[0], old(queue)[j + 1]);
      }
    }
  }
}
