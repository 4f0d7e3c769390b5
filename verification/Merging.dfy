/** Runs in which merging calls with equal text changes the outcome. */
module Merging {
  import opened Wrappers
  import opened MsgOrder
  import opened Protocol
  import opened History
  import opened SimpleBackend
  import opened Runs
  import opened Scripts

  // ---- programs of these runs ----

  lemma TwoCallProgram<D>(text: string, noreply: bool, d: D, e: D, rest: seq<Action<D>>)
    requires NoClient(rest)
    ensures Program([Call(text, noreply, d)] + ([Call(text, noreply, e)] + rest)) == [Do(Cmd(text, d)), Do(Cmd(text, e))]
  {
    NoClientProgram(rest);
    OneCallProgram(text, noreply, e, rest);
    OneCallProgram(text, noreply, d, [Call(text, noreply, e)] + rest);
  }

  lemma SimpleTwice<S, L, D(!new), T>(W: World<S, L, D, T>, c: Cmd<D>, d: Cmd<D>, b: Both<S, L>)
    requires CallbacksFit(W)
    ensures SimpleRun(W, [Do(c), Do(d)], b) == SimpleRequest(W, d, SimpleRequest(W, c, b))
  {
    var both, one, none := [Do(c), Do(d)], [Do(d)], [];
    assert both[1..] == one && one[1..] == none;
    var x := SimpleRequest(W, c, b);
    assert SimpleRun(W, both, b) == SimpleRun(W, one, x);
    assert SimpleRun(W, one, x) == SimpleRun(W, none, SimpleRequest(W, d, x));
  }

  // ---- two calls of one text ----

  /** The state after two calls of the same unnumbered text: one waits, the other is gone. */
  ghost function Merged<S, L, D, T>(W: World<S, L, D, T>, store: S, local: L, text: string, d: D, e: D): (s: Sys<S, L, D, T>)
  {
    var s: Sys<S, L, D, T> := Initial(store, local);
    var first := Entered(W, s, text, d, None);
    var second := Msg(0, !W.replies(text), text, Tag(e, 0, 1, None));
    s.(queue := [first], calls := [first, second], dropped := [second])
  }

  lemma TwoCallsMerge<S, L, D, T>(
    W: World<S, L, D, T>, store: S, local: L, text: string, d: D, e: D, rest: seq<Action<D>>, t: Sys<S, L, D, T>)
    requires !W.unique(text) && Reaches(W, Merged(W, store, local, text, d, e), rest, t)
    ensures Reachable(W, store, local, [Call(text, !W.replies(text), d)] + ([Call(text, !W.replies(text), e)] + rest), t)
  {
    var noreply := !W.replies(text);
    var s: Sys<S, L, D, T> := Initial(store, local);
    var s2: Sys<S, L, D, T> := Merged(W, store, local, text, d, e);
    CallWaits(W, s, text, d, None);
    var s1: Sys<S, L, D, T> := s.(queue := s2.queue, calls := s.calls + s2.queue);
    CallMerges(W, s1, text, e, None);
    assert s1.calls + s2.dropped == s2.calls && s1.dropped + s2.dropped == s2.dropped;
    AddStep(W, s1, Call(text, noreply, e), s2, rest, t);
    AddStep(W, s, Call(text, noreply, d), s1, [Call(text, noreply, e)] + rest, t);
  }

  /** Two equal unnumbered commands without reply can end as one: the run below leaves the server
      with a single application, while the program in order applies the command twice.  The
      two stores are the same exactly when a second application changes nothing. */
  lemma RepeatedCommandsMerge<S, L, D(!new), T>(W: World<S, L, D, T>, store: S, local: L, text: string, d: D)
    returns (actions: seq<Action<D>>, s: Sys<S, L, D, T>)
    requires CallbacksFit(W) && !W.unique(text) && !W.replies(text)
    ensures Reachable(W, store, local, actions, s) && Quiescent(s)
    ensures Program(actions) == [Do(Cmd(text, d)), Do(Cmd(text, d))]
    ensures s.store == W.effect(text, store)
    ensures SimpleRun(W, Program(actions), Both(store, local)).store == W.effect(text, W.effect(text, store))
    ensures s.store == SimpleRun(W, Program(actions), Both(store, local)).store
            <==> W.effect(text, W.effect(text, store)) == W.effect(text, store)
  {
    actions, s := MergedCommand(W, store, local, text, d);
    SimpleTwice(W, Cmd(text, d), Cmd(text, d), Both(store, local));
  }

  lemma MergedCommand<S, L, D, T>(W: World<S, L, D, T>, store: S, local: L, text: string, d: D)
    returns (actions: seq<Action<D>>, s: Sys<S, L, D, T>)
    requires !W.unique(text) && !W.replies(text)
    ensures Reachable(W, store, local, actions, s) && Quiescent(s)
    ensures Program(actions) == [Do(Cmd(text, d)), Do(Cmd(text, d))]
    ensures s.store == W.effect(text, store)
  {
    var m := Merged(W, store, local, text, d, d);
    InitialLanes<S, L, D, T>(store, local);
    s := Served(W, m, 0);
    SentAndServed(W, m, 0, [], s);
    TwoCallsMerge(W, store, local, text, d, d, Serving(0, []), s);
    actions := [Call(text, true, d)] + ([Call(text, true, d)] + Serving(0, []));
    TwoCallProgram(text, true, d, d, Serving(0, []));
  }

  /** Two fetches with the same text but different packets: only the first packet is served. */
  lemma SecondPacketIsLost<S, L, D(!new), T>(W: World<S, L, D, T>, store: S, local: L, text: string, d: D, e: D, x: T, y: T)
    returns (actions: seq<Action<D>>, s: Sys<S, L, D, T>)
    requires CallbacksFit(W) && !W.unique(text) && W.replies(text) && W.effect(text, store) == store
    requires W.plan(d, W.answer(text, store)) == [Touch(x)] && W.plan(e, W.answer(text, store)) == [Touch(y)]
    ensures Reachable(W, store, local, actions, s) && Quiescent(s)
    ensures Program(actions) == [Do(Cmd(text, d)), Do(Cmd(text, e))]
    ensures s.local == W.touch(x, local)
    ensures SimpleRun(W, Program(actions), Both(store, local)).local == W.touch(y, W.touch(x, local))
  {
    actions, s := MergedFetch(W, store, local, text, d, e, x);
    SimpleFetches(W, Cmd(text, d), Cmd(text, e), x, y, Both(store, local));
  }

  lemma MergedFetch<S, L, D, T>(W: World<S, L, D, T>, store: S, local: L, text: string, d: D, e: D, x: T)
    returns (actions: seq<Action<D>>, s: Sys<S, L, D, T>)
    requires !W.unique(text) && W.replies(text) && W.plan(d, W.answer(text, store)) == [Touch(x)]
    ensures Reachable(W, store, local, actions, s) && Quiescent(s)
    ensures Program(actions) == [Do(Cmd(text, d)), Do(Cmd(text, e))]
    ensures s.local == W.touch(x, local)
  {
    var m := Merged(W, store, local, text, d, e);
    InitialLanes<S, L, D, T>(store, local);
    s := OneChange(W, Served(W, m, 0), m.queue[0], W.answer(text, store), x);
    SentAndServed(W, m, 0, Taking(), s);
    TwoCallsMerge(W, store, local, text, d, e, Serving(0, Taking()), s);
    actions := [Call(text, false, d)] + ([Call(text, false, e)] + Serving(0, Taking()));
    TwoCallProgram(text, false, d, e, Serving(0, Taking()));
  }

  lemma SimpleFetches<S, L, D(!new), T>(W: World<S, L, D, T>, c: Cmd<D>, d: Cmd<D>, x: T, y: T, b: Both<S, L>)
    requires CallbacksFit(W) && c.text == d.text && W.replies(c.text) && W.effect(c.text, b.store) == b.store
    requires W.plan(c.data, W.answer(c.text, b.store)) == [Touch(x)] && W.plan(d.data, W.answer(c.text, b.store)) == [Touch(y)]
    ensures SimpleRun(W, [Do(c), Do(d)], b).local == W.touch(y, W.touch(x, b.local))
  {
    SimpleTwice(W, c, d, b);
    SimpleFetch(W, c, x, b);
    SimpleFetch(W, d, y, Both(b.store, W.touch(x, b.local)));
  }

  lemma SimpleFetch<S, L, D(!new), T>(W: World<S, L, D, T>, c: Cmd<D>, x: T, b: Both<S, L>)
    requires CallbacksFit(W) && W.replies(c.text) && W.plan(c.data, W.answer(c.text, b.store)) == [Touch(x)]
    ensures SimpleRequest(W, c, b) == Both(W.effect(c.text, b.store), W.touch(x, b.local))
  {
    var one: seq<Act<D, T>> := [Touch(x)];
    assert one[1..] == [];
    assert Acts(W, c, b.store) == one;
    var sent := b.(store := W.effect(c.text, b.store));
    assert TodoFits(W, c.data, one);
    assert SimpleActs(W, c.data, one, sent) == SimpleActs(W, c.data, one[1..], sent.(local := W.touch(x, b.local)));
  }

  // ---- a callback's request merged with a client's ----

  /** A list is answered, and its callback will make the change `add` and request `text` with packet `d`. */
  ghost predicate Lists<S, L, D, T>(W: World<S, L, D, T>, store: S, list: string, dl: D, add: T, text: string, d: D)
  {
    && !W.unique(list) && W.replies(list) && W.effect(list, store) == store
    && !W.unique(text) && W.replies(text)
    && W.plan(dl, W.answer(list, store)) == [Touch(add)] + [Request(text, false, d)]
  }

  /** The state when the callback of the list has begun and a client has called `text` for itself. */
  ghost function Listing<S, L, D, T>(W: World<S, L, D, T>, store: S, local: L, list: string, dl: D, text: string, e: D): Sys<S, L, D, T>
  {
    var s: Sys<S, L, D, T> := Initial(store, local);
    var first := Entered(W, s, list, dl, None);
    var other := Msg(0, !W.replies(text), text, Tag(e, 0, 1, None));
    s.(queue := [other], calls := [first, other], log := [first], ran := map[0 := []],
       lanes := Lanes(CalledLane(first, W.plan(dl, W.answer(list, store)))))
  }

  ghost function Began<D>(list: string, dl: D, text: string, e: D, rest: seq<Action<D>>): seq<Action<D>>
  {
    [Call(list, false, dl)] + Serving(0, [Receive(0)] + ([Call(text, false, e)] + rest))
  }

  lemma ListBegins<S, L, D, T>(
    W: World<S, L, D, T>, store: S, local: L, list: string, dl: D, text: string, e: D, rest: seq<Action<D>>, t: Sys<S, L, D, T>)
    requires !W.unique(list) && W.replies(list) && W.effect(list, store) == store && !W.unique(text) && W.replies(text)
    requires Reaches(W, Listing(W, store, local, list, dl, text, e), rest, t)
    ensures Reachable(W, store, local, Began(list, dl, text, e, rest), t)
  {
    var s: Sys<S, L, D, T> := Initial(store, local);
    var last: Sys<S, L, D, T> := Listing(W, store, local, list, dl, text, e);
    InitialLanes<S, L, D, T>(store, local);
    CallWaits(W, s, list, dl, None);
    var first := Entered(W, s, list, dl, None);
    var s1: Sys<S, L, D, T> := s.(queue := [first], calls := s.calls + [first]);
    var s2: Sys<S, L, D, T> := Served(W, s1, 0);
    ReplyTaken(W, s2, first, W.answer(list, store));
    var s3: Sys<S, L, D, T> := s2.(lanes := last.lanes, ran := s2.ran[0 := []]);
    CallWaits(W, s3, text, e, None);
    assert s3.(queue := last.queue, calls := s3.calls + last.queue) == last by {
      assert s.calls + [first] + last.queue == last.calls && s.log + [first] == last.log;
    }
    AddStep(W, s3, Call(text, false, e), last, rest, t);
    AddStep(W, s2, Receive(0), s3, [Call(text, false, e)] + rest, t);
    SentAndServed(W, s1, 0, [Receive(0)] + ([Call(text, false, e)] + rest), t);
    AddStep(W, s, Call(list, false, dl), s1, Serving(0, [Receive(0)] + ([Call(text, false, e)] + rest)), t);
  }

  /** The callback adds its atom, its request is merged with the client's, and it is over. */
  ghost function Ending<D>(rest: seq<Action<D>>): seq<Action<D>>
  {
    [Run(0)] + ([Run(0)] + ([Run(0)] + rest))
  }

  ghost function Listed<S, L, D, T>(W: World<S, L, D, T>, store: S, local: L, list: string, dl: D, add: T, text: string, d: D, e: D): Sys<S, L, D, T>
  {
    var s: Sys<S, L, D, T> := Listing(W, store, local, list, dl, text, e);
    var lost := Msg(0, !W.replies(text), text, Tag(d, 0, 2, Some(0)));
    s.(lanes := Lanes(Free()), ran := map[0 := [Touch(add)] + [Request(text, false, d)]],
       local := W.touch(add, local), touches := [(add, 0)], calls := s.calls + [lost], dropped := [lost])
  }

  lemma ListEnds<S, L, D, T>(
    W: World<S, L, D, T>, store: S, local: L, list: string, dl: D, add: T, text: string, d: D, e: D, rest: seq<Action<D>>, t: Sys<S, L, D, T>)
    requires Lists(W, store, list, dl, add, text, d) && Reaches(W, Listed(W, store, local, list, dl, add, text, d, e), rest, t)
    ensures Reaches(W, Listing(W, store, local, list, dl, text, e), Ending(rest), t)
  {
    var s: Sys<S, L, D, T> := Listing(W, store, local, list, dl, text, e);
    var last: Sys<S, L, D, T> := Listed(W, store, local, list, dl, add, text, d, e);
    var first: Entry<D> := s.calls[0];
    ChangeMade(W, s, first, add, [Request(text, false, d)]);
    var s1: Sys<S, L, D, T> := s.(lanes := Lanes(CalledLane(first, [Request(text, false, d)])), ran := s.ran[0 := s.ran[0] + [Touch(add)]],
                 local := W.touch(add, s.local), touches := s.touches + [(add, 0)]);
    RequestMerged(W, s1, first, text, d);
    var s2: Sys<S, L, D, T> := last.(lanes := Lanes(CalledLane(first, [])));
    assert s1.(lanes := s2.lanes, ran := s1.ran[0 := s1.ran[0] + [Request(text, false, d)]], calls := s2.calls, dropped := s2.dropped) == s2 by {
      assert s.touches + [(add, 0)] == last.touches && [] + [Touch(add)] + [Request(text, false, d)] == last.ran[0];
    }
    assert s1.dropped + last.dropped == last.dropped;
    CallbackOver(W, s2, first);
    AddStep(W, s2, Run(0), last, rest, t);
    AddStep(W, s1, Run(0), s2, [Run(0)] + rest, t);
    AddStep(W, s, Run(0), s1, [Run(0)] + ([Run(0)] + rest), t);
  }

  /** A client's fetch waits when a callback requests the same text for its own packet: the
      callback's packet is never served. */
  lemma CallbackPacketIsLost<S, L, D, T>(
    W: World<S, L, D, T>, store: S, local: L, list: string, dl: D, add: T, text: string, d: D, e: D, y: T)
    returns (actions: seq<Action<D>>, s: Sys<S, L, D, T>)
    requires Lists(W, store, list, dl, add, text, d) && W.plan(e, W.answer(text, store)) == [Touch(y)]
    ensures Reachable(W, store, local, actions, s) && Quiescent(s)
    ensures Program(actions) == [Do(Cmd(list, dl)), Do(Cmd(text, e))]
    ensures s.touches == [(add, 0), (y, 0)] && s.local == W.touch(y, W.touch(add, local))
    ensures |s.log| == 2 && s.log[0].text == list && s.log[1].text == text
    ensures |s.calls| == 3 && s.calls[0] == s.log[0] && s.calls[0].data == Tag(dl, 0, 0, None)
  {
    s := OtherIsServed(W, store, local, list, dl, add, text, d, e, y);
    actions := ListedRun(W, store, local, list, dl, add, text, d, e, Serving(0, Taking()), s);
  }

  lemma ListedRun<S, L, D, T>(
    W: World<S, L, D, T>, store: S, local: L, list: string, dl: D, add: T, text: string, d: D, e: D, rest: seq<Action<D>>, t: Sys<S, L, D, T>)
    returns (actions: seq<Action<D>>)
    requires Lists(W, store, list, dl, add, text, d) && rest == Serving(0, Taking())
    requires Reaches(W, Listed(W, store, local, list, dl, add, text, d, e), rest, t)
    ensures Reachable(W, store, local, actions, t)
    ensures Program(actions) == [Do(Cmd(list, dl)), Do(Cmd(text, e))]
  {
    actions := Began(list, dl, text, e, Ending(rest));
    ListEnds(W, store, local, list, dl, add, text, d, e, rest, t);
    ListBegins(W, store, local, list, dl, text, e, Ending(rest), t);
    EndingIsQuiet<D>();
    ListProgram(list, dl, text, e, Ending(rest));
  }

  lemma EndingIsQuiet<D>()
    ensures NoClient<D>(Ending(Serving(0, Taking())))
  {
  }

  lemma OtherIsServed<S, L, D, T>(
    W: World<S, L, D, T>, store: S, local: L, list: string, dl: D, add: T, text: string, d: D, e: D, y: T) returns (s: Sys<S, L, D, T>)
    requires W.replies(text) && W.plan(e, W.answer(text, store)) == [Touch(y)]
    ensures Reaches(W, Listed(W, store, local, list, dl, add, text, d, e), Serving(0, Taking()), s) && Quiescent(s)
    ensures s.touches == [(add, 0), (y, 0)] && s.local == W.touch(y, W.touch(add, local))
    ensures |s.log| == 2 && s.log[0].text == list && s.log[1].text == text
    ensures |s.calls| == 3 && s.calls[0] == s.log[0] && s.calls[0].data == Tag(dl, 0, 0, None)
  {
    var m: Sys<S, L, D, T> := Listed(W, store, local, list, dl, add, text, d, e);
    var waiting := m.queue[0];
    s := OneChange(W, Served(W, m, 0), waiting, W.answer(text, store), y);
    SentAndServed(W, m, 0, Taking(), s);
  }

  lemma ListProgram<D>(list: string, dl: D, text: string, e: D, rest: seq<Action<D>>)
    requires NoClient(rest)
    ensures Program(Began(list, dl, text, e, rest)) == [Do(Cmd(list, dl)), Do(Cmd(text, e))]
  {
    NoClientProgram(rest);
    var call := [Call(text, false, e)] + rest;
    OneCallProgram(text, false, e, rest);
    var received := [Receive(0)] + call;
    assert received[1..] == call && [] + Program(call) == Program(call);
    ServingProgram(received);
    OneCallProgram(list, false, dl, Serving(0, received));
  }

  lemma ServingProgram<D>(rest: seq<Action<D>>)
    ensures Program(Serving(0, rest)) == Program(rest)
  {
    var a := [Serve(0)] + rest;
    var b := [Send(0)] + a;
    assert a[1..] == rest && [] + Program(rest) == Program(rest);
    assert b[1..] == a && [] + Program(a) == Program(a);
    assert ([Pop(0, 0)] + b)[1..] == b && [] + Program(b) == Program(b);
  }
}
