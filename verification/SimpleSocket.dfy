/** The one socket of the simple backend, shared by client threads.  A lock is held around each
    exchange, except the exchanges that open and close a proxy. */
module SimpleSocket {
  import opened Wrappers

  datatype Ask = Ask(id: nat, text: string)

  /** `waiting` gives the request whose reply each thread waits for; a receipt is the request a
      thread waited for and the request whose reply it got. */
  datatype State = State(
    holder: Option<nat>,
    waiting: map<nat, nat>,
    up: seq<Ask>,
    down: seq<nat>,
    next: nat,
    receipts: seq<(nat, nat)>)

  datatype Action =
    | Acquire(t: nat)
    | Release(t: nat)
    | Send(t: nat, text: string)
    | SendUnguarded(t: nat, text: string)
    | Serve
    | Receive(t: nat)

  const INITIAL := State(None, map[], [], [], 0, [])

  predicate Enabled(s: State, a: Action)
  {
    match a
    case Acquire(t) => s.holder.None? && t !in s.waiting
    case Release(t) => s.holder == Some(t) && t !in s.waiting
    case Send(t, _) => s.holder == Some(t) && t !in s.waiting
    case SendUnguarded(t, _) => s.holder != Some(t) && t !in s.waiting
    case Serve => s.up != []
    case Receive(t) => t in s.waiting && s.down != []
  }

  /** A request with a reply makes its thread wait for it. */
  function Sent(replies: string -> bool, s: State, t: nat, text: string): State
  {
    s.(up := s.up + [Ask(s.next, text)], next := s.next + 1,
       waiting := if replies(text) then s.waiting[t := s.next] else s.waiting)
  }

  function Next(replies: string -> bool, s: State, a: Action): State
    requires Enabled(s, a)
  {
    match a
    case Acquire(t) => s.(holder := Some(t))
    case Release(t) => s.(holder := None)
    case Send(t, text) => Sent(replies, s, t, text)
    case SendUnguarded(t, text) => Sent(replies, s, t, text)
    case Serve => s.(up := s.up[1..], down := s.down + if replies(s.up[0].text) then [s.up[0].id] else [])
    case Receive(t) =>
      s.(down := s.down[1..], waiting := s.waiting - {t}, receipts := s.receipts + [(s.waiting[t], s.down[0])])
  }

  ghost predicate Reaches(replies: string -> bool, s: State, actions: seq<Action>, t: State)
    decreases |actions|
  {
    if actions == [] then s == t
    else Enabled(s, actions[0]) && Reaches(replies, Next(replies, s, actions[0]), actions[1..], t)
  }

  /** Every thread got the reply to its own request. */
  ghost predicate Paired(s: State)
  {
    forall r <- s.receipts :: r.0 == r.1
  }

  /** At no point of the run do two threads wait. */
  ghost predicate OneAtATime(replies: string -> bool, s: State, actions: seq<Action>)
    decreases |actions|
  {
    |s.waiting| <= 1
    && (actions != [] && Enabled(s, actions[0]) ==> OneAtATime(replies, Next(replies, s, actions[0]), actions[1..]))
  }

  // ---- what is outstanding ----

  function Owed(replies: string -> bool, a: Ask): seq<nat>
  {
    if replies(a.text) then [a.id] else []
  }

  function Due(replies: string -> bool, up: seq<Ask>): seq<nat>
  {
    if up == [] then [] else Owed(replies, up[0]) + Due(replies, up[1..])
  }

  /** The replies still to be taken, in the order in which they come. */
  function Outstanding(replies: string -> bool, s: State): seq<nat>
  {
    s.down + Due(replies, s.up)
  }

  lemma {:induction false} DueAppend(replies: string -> bool, up: seq<Ask>, a: Ask)
    ensures Due(replies, up + [a]) == Due(replies, up) + Owed(replies, a)
  {
    var more := up + [a];
    if up == [] {
      assert more[0] == a && more[1..] == [];
    } else {
      assert more[0] == up[0] && more[1..] == up[1..] + [a];
      DueAppend(replies, up[1..], a);
      assert Due(replies, more) == Owed(replies, up[0]) + (Due(replies, up[1..]) + Owed(replies, a));
    }
  }

  /** Different threads wait for different requests, and as many replies are outstanding as
      threads wait. */
  ghost predicate Counted(replies: string -> bool, s: State)
  {
    && (forall t <- s.waiting :: s.waiting[t] < s.next)
    && (forall t, u :: t in s.waiting && u in s.waiting && t != u ==> s.waiting[t] != s.waiting[u])
    && |Outstanding(replies, s)| == |s.waiting|
  }

  lemma OutstandingStep(replies: string -> bool, s: State, a: Action)
    requires Enabled(s, a)
    ensures var o, o' := Outstanding(replies, s), Outstanding(replies, Next(replies, s, a));
            match a
            case Send(t, text) => o' == o + if replies(text) then [s.next] else []
            case SendUnguarded(t, text) => o' == o + if replies(text) then [s.next] else []
            case Receive(t) => o' == o[1..] && o[0] == s.down[0]
            case _ => o' == o
  {
    if a.Send? || a.SendUnguarded? {
      DueAppend(replies, s.up, Ask(s.next, a.text));
    }
  }

  lemma SentCounts(replies: string -> bool, s: State, t: nat, text: string)
    requires Counted(replies, s) && t !in s.waiting
    ensures Counted(replies, Sent(replies, s, t, text))
  {
    DueAppend(replies, s.up, Ask(s.next, text));
    var w := Sent(replies, s, t, text).waiting;
    assert replies(text) ==> w.Keys == s.waiting.Keys + {t};
  }

  lemma ReceiveCounts(replies: string -> bool, s: State, t: nat)
    requires Counted(replies, s) && Enabled(s, Receive(t))
    ensures Counted(replies, Next(replies, s, Receive(t)))
  {
    OutstandingStep(replies, s, Receive(t));
    assert s.waiting.Keys == (s.waiting - {t}).Keys + {t};
  }

  lemma StepCounts(replies: string -> bool, s: State, a: Action)
    requires Counted(replies, s) && Enabled(s, a)
    ensures Counted(replies, Next(replies, s, a))
  {
    match a
    case Send(t, text) => SentCounts(replies, s, t, text);
    case SendUnguarded(t, text) => SentCounts(replies, s, t, text);
    case Receive(t) => ReceiveCounts(replies, s, t);
    case _ => OutstandingStep(replies, s, a);
  }

  /** The one thread that waits, if any, waits for the one reply that is outstanding. */
  ghost predicate Matched(replies: string -> bool, s: State)
  {
    && Counted(replies, s) && Paired(s)
    && forall t <- s.waiting :: Outstanding(replies, s) == [s.waiting[t]]
  }

  lemma OneWaits(s: State, t: nat)
    requires t in s.waiting && |s.waiting| <= 1
    ensures s.waiting == map[t := s.waiting[t]]
  {
    forall u | u in s.waiting ensures u == t {
      if u != t {
        var pair := {t, u};
        SubsetSize(pair, s.waiting.Keys);
      }
    }
  }

  lemma {:induction false} SubsetSize(a: set<nat>, b: set<nat>)
    requires a <= b
    ensures |a| <= |b|
  {
    if a != {} {
      var x :| x in a;
      SubsetSize(a - {x}, b - {x});
    }
  }

  lemma StepMatches(replies: string -> bool, s: State, a: Action)
    requires Matched(replies, s) && Enabled(s, a) && |Next(replies, s, a).waiting| <= 1
    ensures Matched(replies, Next(replies, s, a))
  {
    var t := Next(replies, s, a);
    StepCounts(replies, s, a);
    OutstandingStep(replies, s, a);
    if a.Receive? {
      assert Outstanding(replies, s) == [s.waiting[a.t]];
      assert |Outstanding(replies, t)| == 0;
    } else if (a.Send? || a.SendUnguarded?) && replies(a.text) {
      OneWaits(t, a.t);
      assert |Outstanding(replies, s)| == 0;
    }
  }

  /** If never two threads wait at once, every thread gets the replies to its own requests. */
  lemma {:induction false} OneAtATimeIsPaired(replies: string -> bool, s: State, actions: seq<Action>, t: State)
    requires Matched(replies, s) && Reaches(replies, s, actions, t) && OneAtATime(replies, s, actions)
    ensures Matched(replies, t)
    decreases |actions|
  {
    if actions != [] {
      var u := Next(replies, s, actions[0]);
      assert OneAtATime(replies, u, actions[1..]);
      StepMatches(replies, s, actions[0]);
      OneAtATimeIsPaired(replies, u, actions[1..], t);
    }
  }

  // ---- guarded exchanges ----

  ghost predicate Guarded(actions: seq<Action>)
  {
    forall a <- actions :: !a.SendUnguarded?
  }

  ghost predicate HolderWaits(s: State)
  {
    forall t <- s.waiting :: s.holder == Some(t)
  }

  lemma HolderIsOne(s: State)
    requires HolderWaits(s)
    ensures |s.waiting| <= 1
  {
    if t :| t in s.waiting {
      assert s.waiting.Keys == {t};
    }
  }

  lemma {:induction false} GuardedIsOneAtATime(replies: string -> bool, s: State, actions: seq<Action>, t: State)
    requires HolderWaits(s) && Guarded(actions) && Reaches(replies, s, actions, t)
    ensures OneAtATime(replies, s, actions) && HolderWaits(t)
    decreases |actions|
  {
    HolderIsOne(s);
    if actions != [] {
      GuardedIsOneAtATime(replies, Next(replies, s, actions[0]), actions[1..], t);
    }
  }

  /** With every exchange under the lock, in every interleaving of the threads: each thread gets the
      reply to the request it sent last, and nothing is outstanding while the lock is free. */
  lemma GuardedRunsArePaired(replies: string -> bool, actions: seq<Action>, t: State)
    requires Guarded(actions) && Reaches(replies, INITIAL, actions, t)
    ensures Paired(t)
    ensures forall u <- t.waiting :: t.holder == Some(u) && Outstanding(replies, t) == [t.waiting[u]]
    ensures t.holder.None? ==> Outstanding(replies, t) == []
  {
    GuardedIsOneAtATime(replies, INITIAL, actions, t);
    OneAtATimeIsPaired(replies, INITIAL, actions, t);
    if t.holder.None? {
      assert t.waiting == map[];
    }
  }

  // ---- unguarded exchanges ----

  lemma {:induction false} RunsCount(replies: string -> bool, s: State, actions: seq<Action>, t: State)
    requires Counted(replies, s) && Reaches(replies, s, actions, t)
    ensures Counted(replies, t)
    decreases |actions|
  {
    if actions != [] {
      StepCounts(replies, s, actions[0]);
      RunsCount(replies, Next(replies, s, actions[0]), actions[1..], t);
    }
  }

  /** Once two threads wait, whatever led there, the server may serve and one of them may take
      a reply that is not its own. */
  lemma {:induction false} TwoWaitingCanMiss(replies: string -> bool, s: State) returns (more: seq<Action>, t: State)
    requires Counted(replies, s) && |s.waiting| >= 2
    ensures Reaches(replies, s, more, t) && Drains(more) && !Paired(t)
    decreases |s.up|
  {
    if s.down == [] {
      assert s.up != [];
      var u := Next(replies, s, Serve);
      StepCounts(replies, s, Serve);
      var rest;
      rest, t := TwoWaitingCanMiss(replies, u);
      more := [Serve] + rest;
      assert more[1..] == rest;
    } else {
      var w := OtherWaiting(s, s.down[0]);
      t := Next(replies, s, Receive(w));
      more := [Receive(w)];
      assert more[1..] == [];
      assert t.receipts[|s.receipts|] == (s.waiting[w], s.down[0]);
    }
  }

  lemma OtherWaiting(s: State, id: nat) returns (w: nat)
    requires |s.waiting| >= 2
    requires forall t, u :: t in s.waiting && u in s.waiting && t != u ==> s.waiting[t] != s.waiting[u]
    ensures w in s.waiting && s.waiting[w] != id
  {
    w :| w in s.waiting;
    if s.waiting[w] == id {
      var rest := s.waiting.Keys - {w};
      assert s.waiting.Keys == rest + {w};
      w :| w in rest;
    }
  }

  ghost predicate Drains(more: seq<Action>)
  {
    forall a <- more :: a.Serve? || a.Receive?
  }

  /** No reply can go astray: wherever the run is cut short and only the server and the waiting
      threads go on, every thread gets its own reply. */
  ghost predicate NeverMisses(replies: string -> bool, s: State, actions: seq<Action>)
  {
    forall n, more, t :: 0 <= n <= |actions| && Drains(more) && Reaches(replies, s, actions[..n] + more, t) ==> Paired(t)
  }

  lemma {:induction false} DrainsWait(replies: string -> bool, s: State, more: seq<Action>, t: State)
    requires |s.waiting| <= 1 && Drains(more) && Reaches(replies, s, more, t)
    ensures OneAtATime(replies, s, more)
    decreases |more|
  {
    if more != [] {
      var u := Next(replies, s, more[0]);
      if more[0].Receive? {
        assert s.waiting.Keys == u.waiting.Keys + {more[0].t};
      }
      DrainsWait(replies, u, more[1..], t);
    }
  }

  lemma {:induction false} CutAndDrained(replies: string -> bool, s: State, actions: seq<Action>, n: nat, more: seq<Action>, t: State)
    requires OneAtATime(replies, s, actions) && n <= |actions| && Drains(more) && Reaches(replies, s, actions[..n] + more, t)
    ensures OneAtATime(replies, s, actions[..n] + more)
    decreases n
  {
    if n == 0 {
      assert actions[..n] + more == more;
      DrainsWait(replies, s, more, t);
    } else {
      assert (actions[..n] + more)[1..] == actions[1..][..n - 1] + more;
      CutAndDrained(replies, Next(replies, s, actions[0]), actions[1..], n - 1, more, t);
    }
  }

  lemma {:induction false} TwoWaitSomewhere(replies: string -> bool, s: State, actions: seq<Action>, t: State) returns (n: nat, u: State)
    requires Reaches(replies, s, actions, t) && !OneAtATime(replies, s, actions)
    ensures n <= |actions| && Reaches(replies, s, actions[..n], u) && |u.waiting| >= 2
    decreases |actions|
  {
    if |s.waiting| >= 2 {
      n, u := 0, s;
    } else {
      n, u := TwoWaitSomewhere(replies, Next(replies, s, actions[0]), actions[1..], t);
      n := n + 1;
      assert actions[..n][1..] == actions[1..][..n - 1];
    }
  }

  lemma {:induction false} Continued(replies: string -> bool, s: State, a: seq<Action>, u: State, b: seq<Action>, t: State)
    requires Reaches(replies, s, a, u) && Reaches(replies, u, b, t)
    ensures Reaches(replies, s, a + b, t)
    decreases |a|
  {
    if a == [] {
      assert a + b == b;
    } else {
      assert (a + b)[1..] == a[1..] + b;
      Continued(replies, Next(replies, s, a[0]), a[1..], u, b, t);
    }
  }

  /** Exactly when exchanges outside the lock are safe: no reply of a run can go astray if and only
      if no two threads wait for replies at the same time. */
  lemma SafeExactlyWhenOneAtATime(replies: string -> bool, actions: seq<Action>, s: State)
    requires Reaches(replies, INITIAL, actions, s)
    ensures NeverMisses(replies, INITIAL, actions) <==> OneAtATime(replies, INITIAL, actions)
  {
    if OneAtATime(replies, INITIAL, actions) {
      forall n, more, t | 0 <= n <= |actions| && Drains(more) && Reaches(replies, INITIAL, actions[..n] + more, t)
        ensures Paired(t)
      {
        CutAndDrained(replies, INITIAL, actions, n, more, t);
        OneAtATimeIsPaired(replies, INITIAL, actions[..n] + more, t);
      }
    } else {
      var n, u := TwoWaitSomewhere(replies, INITIAL, actions, s);
      RunsCount(replies, INITIAL, actions[..n], u);
      var more, t := TwoWaitingCanMiss(replies, u);
      Continued(replies, INITIAL, actions[..n], u, more, t);
    }
  }

  lemma OneMore(replies: string -> bool, s: State, a: Action, rest: seq<Action>, t: State)
    requires Enabled(s, a) && Reaches(replies, Next(replies, s, a), rest, t)
    ensures Reaches(replies, s, [a] + rest, t)
  {
    assert ([a] + rest)[1..] == rest;
  }

  /** Closing a proxy: the barrier is sent under the lock, the closing command and the wait for its
      reply are outside.  If another thread fetches in between, each may get the other's reply. */
  lemma ProxyCloseTakesAnothersReply(replies: string -> bool, barrier: string, fetch: string, close: string)
    returns (actions: seq<Action>, s: State)
    requires !replies(barrier) && replies(fetch) && replies(close)
    ensures actions == [Acquire(2)] + ([Send(2, barrier)] + ([Release(2)] + FetchMeanwhile(fetch, close)))
    ensures Reaches(replies, INITIAL, actions, s) && s.receipts == [(2, 1)]
  {
    var s0 := INITIAL;
    var s1 := Next(replies, s0, Acquire(2));
    var s2 := Next(replies, s1, Send(2, barrier));
    var s3 := Next(replies, s2, Release(2));
    assert s3 == INITIAL.(up := [Ask(0, barrier)], next := 1) by { assert [] + [Ask(0, barrier)] == [Ask(0, barrier)]; }
    s := MeanwhileFetched(replies, barrier, fetch, close, s3);
    actions := [Acquire(2)] + ([Send(2, barrier)] + ([Release(2)] + FetchMeanwhile(fetch, close)));
    OneMore(replies, s2, Release(2), FetchMeanwhile(fetch, close), s);
    OneMore(replies, s1, Send(2, barrier), [Release(2)] + FetchMeanwhile(fetch, close), s);
    OneMore(replies, s0, Acquire(2), [Send(2, barrier)] + ([Release(2)] + FetchMeanwhile(fetch, close)), s);
  }

  function FetchMeanwhile(fetch: string, close: string): seq<Action>
  {
    [Acquire(1)] + ([Send(1, fetch)] + ([SendUnguarded(2, close)] + ([Serve] + ([Serve] + ([Receive(2)] + [])))))
  }

  lemma MeanwhileFetched(replies: string -> bool, barrier: string, fetch: string, close: string, s: State) returns (t: State)
    requires !replies(barrier) && replies(fetch) && replies(close) && s == INITIAL.(up := [Ask(0, barrier)], next := 1)
    ensures Reaches(replies, s, FetchMeanwhile(fetch, close), t) && t.receipts == [(2, 1)]
  {
    var s1 := Next(replies, s, Acquire(1));
    var s2 := Next(replies, s1, Send(1, fetch));
    var s3 := Next(replies, s2, SendUnguarded(2, close));
    var s4 := Next(replies, s3, Serve);
    var s5 := Next(replies, s4, Serve);
    assert s3.up == [Ask(0, barrier), Ask(1, fetch), Ask(2, close)] && s3.down == [];
    assert s4.up == [Ask(1, fetch), Ask(2, close)] && s4.down == [];
    assert s5.down == [1] && s5.waiting == map[1 := 1, 2 := 2];
    t := Next(replies, s5, Receive(2));
    OneMore(replies, s5, Receive(2), [], t);
    OneMore(replies, s4, Serve, [Receive(2)] + [], t);
    OneMore(replies, s3, Serve, [Serve] + ([Receive(2)] + []), t);
    OneMore(replies, s2, SendUnguarded(2, close), [Serve] + ([Serve] + ([Receive(2)] + [])), t);
    OneMore(replies, s1, Send(1, fetch), [SendUnguarded(2, close)] + ([Serve] + ([Serve] + ([Receive(2)] + []))), t);
    OneMore(replies, s, Acquire(1), [Send(1, fetch)] + ([SendUnguarded(2, close)] + ([Serve] + ([Serve] + ([Receive(2)] + [])))), t);
  }
}
