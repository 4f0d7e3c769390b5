/** Taking runs apart and putting them together. */
module Runs {
  import opened Protocol
  import opened SimpleBackend

  ghost predicate StepTo<S, L, D, T>(W: World<S, L, D, T>, s: Sys<S, L, D, T>, a: Action<D>, t: Sys<S, L, D, T>)
  {
    Enabled(W, s, a) && t == Next(W, s, a)
  }

  lemma TakeStep<S, L, D, T>(W: World<S, L, D, T>, s: Sys<S, L, D, T>, actions: seq<Action<D>>, t: Sys<S, L, D, T>)
    returns (u: Sys<S, L, D, T>)
    requires actions != [] && Reaches(W, s, actions, t)
    ensures StepTo(W, s, actions[0], u) && Reaches(W, u, actions[1..], t)
  {
    u := Next(W, s, actions[0]);
  }

  lemma AddStep<S, L, D, T>(
    W: World<S, L, D, T>, s: Sys<S, L, D, T>, a: Action<D>, u: Sys<S, L, D, T>, rest: seq<Action<D>>, t: Sys<S, L, D, T>)
    requires StepTo(W, s, a, u) && Reaches(W, u, rest, t)
    ensures Reaches(W, s, [a] + rest, t)
  {
    assert ([a] + rest)[1..] == rest;
  }

  lemma {:induction false} ReachesAppend<S, L, D, T>(
    W: World<S, L, D, T>, s: Sys<S, L, D, T>, a: seq<Action<D>>, u: Sys<S, L, D, T>, b: seq<Action<D>>, t: Sys<S, L, D, T>)
    requires Reaches(W, s, a, u) && Reaches(W, u, b, t)
    ensures Reaches(W, s, a + b, t)
    decreases |a|
  {
    if a == [] {
      assert a + b == b;
    } else {
      var next := TakeStep(W, s, a, u);
      ReachesAppend(W, next, a[1..], u, b, t);
      AddFirst(W, s, a, next, b, t);
    }
  }

  lemma AddFirst<S, L, D, T>(
    W: World<S, L, D, T>, s: Sys<S, L, D, T>, a: seq<Action<D>>, next: Sys<S, L, D, T>, b: seq<Action<D>>, t: Sys<S, L, D, T>)
    requires a != [] && StepTo(W, s, a[0], next) && Reaches(W, next, a[1..] + b, t)
    ensures Reaches(W, s, a + b, t)
  {
    AddStep(W, s, a[0], next, a[1..] + b, t);
    assert [a[0]] + (a[1..] + b) == a + b;
  }

  // ---- their programs ----

  /** Steps of the workers and the server only. */
  ghost predicate NoClient<D>(actions: seq<Action<D>>)
  {
    forall a <- actions :: !a.Call? && !a.Fence?
  }

  lemma {:induction false} NoClientProgram<D>(actions: seq<Action<D>>)
    requires NoClient(actions)
    ensures Program(actions) == []
  {
    if actions != [] {
      assert actions[0] in actions;
      NoClientProgram(actions[1..]);
      assert [] + Program(actions[1..]) == Program(actions[1..]);
    }
  }

  lemma OneCallProgram<D>(text: string, noreply: bool, d: D, rest: seq<Action<D>>)
    ensures Program([Call(text, noreply, d)] + rest) == [Do(Cmd(text, d))] + Program(rest)
  {
    assert ([Call(text, noreply, d)] + rest)[1..] == rest;
  }

  lemma {:induction false} ProgramAppend<D>(a: seq<Action<D>>, b: seq<Action<D>>)
    ensures Program(a + b) == Program(a) + Program(b)
  {
    if a == [] {
      assert a + b == b;
    } else {
      assert (a + b)[1..] == a[1..] + b;
      ProgramAppend(a[1..], b);
    }
  }
}
