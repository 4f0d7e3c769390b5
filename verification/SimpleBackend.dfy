/** The simple backend: one socket, one lock around each request and its reply, and the callback's
    work done on the spot.  A program of client operations has one result, in program order. */
module SimpleBackend {
  import opened Protocol

  /** A request as the client means it: the text sent and the packet for its reply. */
  datatype Cmd<+D> = Cmd(text: string, data: D)

  datatype Op<+D> = Do(cmd: Cmd<D>) | Barrier

  /** The server's store and the local table. */
  datatype Both<S, L> = Both(store: S, local: L)

  /** What the callback of `c` has to do when the server answers from store `x`. */
  ghost function Acts<S, L, D, T>(W: World<S, L, D, T>, c: Cmd<D>, x: S): seq<Act<D, T>>
  {
    if W.replies(c.text) then W.plan(c.data, W.answer(c.text, x)) else []
  }

  /** Send, receive the reply if there is one, and do what it asks for before going on. */
  ghost function SimpleRequest<S, L, D(!new), T>(W: World<S, L, D, T>, c: Cmd<D>, b: Both<S, L>): Both<S, L>
    requires CallbacksFit(W)
    decreases W.rank(c.data), 1, 0
  {
    SimpleActs(W, c.data, Acts(W, c, b.store), b.(store := W.effect(c.text, b.store)))
  }

  ghost function SimpleActs<S, L, D(!new), T>(W: World<S, L, D, T>, d: D, acts: seq<Act<D, T>>, b: Both<S, L>): Both<S, L>
    requires CallbacksFit(W) && TodoFits(W, d, acts)
    decreases W.rank(d), 0, |acts|
  {
    if acts == [] then b
    else
      var b' := match acts[0]
                case Touch(x) => b.(local := W.touch(x, b.local))
                case Request(text, _, data) => SimpleRequest(W, Cmd(text, data), b);
      SimpleActs(W, d, acts[1..], b')
  }

  /** A barrier sends a message without reply and changes nothing here. */
  ghost function SimpleRun<S, L, D(!new), T>(W: World<S, L, D, T>, ops: seq<Op<D>>, b: Both<S, L>): Both<S, L>
    requires CallbacksFit(W)
  {
    if ops == [] then b
    else SimpleRun(W, ops[1..], if ops[0].Do? then SimpleRequest(W, ops[0].cmd, b) else b)
  }

  /** The client's program, read off a run of the asynchronous channel. */
  ghost function Program<D>(actions: seq<Action<D>>): seq<Op<D>>
  {
    if actions == [] then []
    else (match actions[0]
          case Call(text, _, data) => [Do(Cmd(text, data))]
          case Fence => [Barrier]
          case _ => []) + Program(actions[1..])
  }
}
