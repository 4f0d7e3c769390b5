/** The asynchronous channel as a step system: client calls, four workers, one socket per
    worker with a FIFO in each direction, and one server handler per socket. */
module Protocol {
  import opened Wrappers
  import opened MsgOrder

  /** Number of workers, each with its own socket. */
  const NTHREADS: nat := 4

  /** One step of a reply callback: change the local atom table, or enqueue a request. */
  datatype Act<+D, +T> = Touch(touch: T) | Request(text: string, noreply: bool, data: D)

  /** The parts of the world the channel does not define.  `unique` says which texts are given
      a sequence number; `effect`, `answer` and `replies` are the server; `plan` is the callback
      as a function of packet and reply; `touch` is the local table; `rank` bounds how often
      a callback's request can lead to further requests. */
  datatype World<!S, !L, !D, !T> = World(
    unique: string -> bool,
    replies: string -> bool,
    effect: (string, S) -> S,
    answer: (string, S) -> string,
    plan: (D, string) -> seq<Act<D, T>>,
    touch: (T, L) -> L,
    rank: D -> nat)

  /** History carried with each message: the barrier epoch of the call, its position among all
      calls, and the call whose callback made it (if any). */
  datatype Tag<+D> = Tag(data: D, epoch: nat, ticket: nat, parent: Option<nat>)

  type Entry<+D> = Msg<Tag<D>>

  datatype Worker<+D, +T> =
    | Idle
    | Holding(entry: Entry<D>)
    | Awaiting(entry: Entry<D>)
    | Calling(entry: Entry<D>, todo: seq<Act<D, T>>)
    | Due(id: nat)

  datatype Wire<+D> = Req(entry: Entry<D>) | Bar(id: nat)

  /** A worker, the two directions of its socket, and the barrier its server handler waits at. */
  datatype Lane<+D, +T> = Lane(worker: Worker<D, T>, up: seq<Wire<D>>, down: seq<string>, at: Option<nat>)

  /** `queue` to `counter` are the system; the rest is history.  `passed` counts the barriers the
      server has completed, `log` lists the requests in the order the server applied them,
      `touches` the local changes in order, `ran` the callback steps done per call. */
  datatype Sys<S, L, D, T> = Sys(
    queue: seq<Entry<D>>,
    lanes: seq<Lane<D, T>>,
    store: S,
    local: L,
    counter: nat,
    epoch: nat,
    passed: nat,
    calls: seq<Entry<D>>,
    dropped: seq<Entry<D>>,
    log: seq<Entry<D>>,
    touches: seq<(T, nat)>,
    ran: map<nat, seq<Act<D, T>>>)

  datatype Action<+D> =
    | Call(text: string, noreply: bool, data: D)
    | Fence
    | Pop(w: nat, i: nat)
    | Send(w: nat)
    | SendBarrier(w: nat)
    | Serve(w: nat)
    | Arrive(w: nat)
    | Release(id: nat)
    | Receive(w: nat)
    | Run(w: nat)

  function Initial<S, L, D, T>(store: S, local: L): Sys<S, L, D, T>
  {
    Sys([], seq(NTHREADS, _ => Lane(Idle, [], [], None)), store, local, 0, 0, 0, [], [], [], [], map[])
  }

  /** The message constructor followed by insertion into the de-duplicating buffer. */
  function Accept<S, L, D, T>(W: World<S, L, D, T>, s: Sys<S, L, D, T>,
                              text: string, noreply: bool, data: D, parent: Option<nat>): Sys<S, L, D, T>
  {
    var counter := s.counter + if W.unique(text) then 1 else 0;
    var e := Msg(if W.unique(text) then counter else 0, noreply, text,
                 Tag(data, s.epoch, |s.calls|, parent));
    s.(counter := counter,
       queue := Insert(s.queue, e),
       calls := s.calls + [e],
       dropped := if Present(s.queue, e) then s.dropped + [e] else s.dropped)
  }

  ghost predicate Enabled<S, L, D, T>(W: World<S, L, D, T>, s: Sys<S, L, D, T>, a: Action<D>)
  {
    match a
    case Call(text, noreply, data) => noreply == !W.replies(text)
    case Fence => s.queue == [] && forall l <- s.lanes :: l.worker.Idle?
    case Pop(w, i) => w < |s.lanes| && i < |s.queue| && s.lanes[w].worker.Idle?
    case Send(w) => w < |s.lanes| && s.lanes[w].worker.Holding?
    case SendBarrier(w) => w < |s.lanes| && s.lanes[w].worker.Due?
    case Serve(w) => w < |s.lanes| && s.lanes[w].at.None? && s.lanes[w].up != [] && s.lanes[w].up[0].Req?
    case Arrive(w) => w < |s.lanes| && s.lanes[w].at.None? && s.lanes[w].up != [] && s.lanes[w].up[0].Bar?
    case Release(id) => forall l <- s.lanes :: l.at == Some(id)
    case Receive(w) => w < |s.lanes| && s.lanes[w].worker.Awaiting? && s.lanes[w].down != []
    case Run(w) => w < |s.lanes| && s.lanes[w].worker.Calling?
  }

  function Put<S, L, D, T>(s: Sys<S, L, D, T>, w: nat, l: Lane<D, T>): Sys<S, L, D, T>
    requires w < |s.lanes|
  {
    s.(lanes := s.lanes[w := l])
  }

  /** The plain `barrier(block)` hands the block once to each worker when nothing is queued
      and nobody is busy; the caller goes on from there. */
  function HandOut<D, T>(lanes: seq<Lane<D, T>>, id: nat): (r: seq<Lane<D, T>>)
  {
    seq(|lanes|, i requires 0 <= i < |lanes| => lanes[i].(worker := Due(id)))
  }

  function Unblock<D, T>(lanes: seq<Lane<D, T>>): (r: seq<Lane<D, T>>)
  {
    seq(|lanes|, i requires 0 <= i < |lanes| => lanes[i].(at := None))
  }

  ghost function ServeStep<S, L, D, T>(W: World<S, L, D, T>, s: Sys<S, L, D, T>, w: nat): Sys<S, L, D, T>
    requires Enabled(W, s, Serve(w))
  {
    var l := s.lanes[w];
    var e := l.up[0].entry;
    var reply := if W.replies(e.text) then [W.answer(e.text, s.store)] else [];
    Put(s, w, l.(up := l.up[1..], down := l.down + reply))
      .(store := W.effect(e.text, s.store), log := s.log + [e])
  }

  ghost function RunStep<S, L, D, T>(W: World<S, L, D, T>, s: Sys<S, L, D, T>, w: nat): Sys<S, L, D, T>
    requires Enabled(W, s, Run(w))
  {
    var l := s.lanes[w];
    var e, todo := l.worker.entry, l.worker.todo;
    if todo == [] then Put(s, w, l.(worker := Idle))
    else
      var t := e.data.ticket;
      var done := if t in s.ran then s.ran[t] else [];
      var s' := Put(s, w, l.(worker := Calling(e, todo[1..]))).(ran := s.ran[t := done + [todo[0]]]);
      match todo[0]
      case Touch(x) => s'.(local := W.touch(x, s.local), touches := s.touches + [(x, e.data.epoch)])
      case Request(text, noreply, data) => Accept(W, s', text, noreply, data, Some(t))
  }

  ghost function Next<S, L, D, T>(W: World<S, L, D, T>, s: Sys<S, L, D, T>, a: Action<D>): Sys<S, L, D, T>
    requires Enabled(W, s, a)
  {
    match a
    case Call(text, noreply, data) => Accept(W, s, text, noreply, data, None)
    case Fence => s.(lanes := HandOut(s.lanes, s.epoch), epoch := s.epoch + 1)
    case Pop(w, i) =>
      Put(s, w, s.lanes[w].(worker := Holding(s.queue[i]))).(queue := s.queue[..i] + s.queue[i + 1..])
    case Send(w) =>
      var l := s.lanes[w];
      var e := l.worker.entry;
      Put(s, w, l.(up := l.up + [Req(e)], worker := if e.noreply then Idle else Awaiting(e)))
    case SendBarrier(w) =>
      var l := s.lanes[w];
      Put(s, w, l.(up := l.up + [Bar(l.worker.id)], worker := Idle))
    case Serve(w) => ServeStep(W, s, w)
    case Arrive(w) =>
      var l := s.lanes[w];
      Put(s, w, l.(up := l.up[1..], at := Some(l.up[0].id)))
    case Release(id) => s.(lanes := Unblock(s.lanes), passed := s.passed + 1)
    case Receive(w) =>
      var l := s.lanes[w];
      var e := l.worker.entry;
      Put(s, w, l.(worker := Calling(e, W.plan(e.data.data, l.down[0])), down := l.down[1..]))
        .(ran := s.ran[e.data.ticket := []])
    case Run(w) => RunStep(W, s, w)
  }

  /** `t` is reached from `s` by performing `actions`, each enabled in its turn. */
  ghost predicate Reaches<S, L, D, T>(W: World<S, L, D, T>, s: Sys<S, L, D, T>, actions: seq<Action<D>>, t: Sys<S, L, D, T>)
    decreases |actions|
  {
    if actions == [] then s == t
    else Enabled(W, s, actions[0]) && Reaches(W, Next(W, s, actions[0]), actions[1..], t)
  }

  /** What is assumed of the callbacks: requests made by a callback carry the flag the server
      honours, and have lower rank than the call whose reply caused them. */
  ghost predicate CallbacksFit<S, L, D(!new), T>(W: World<S, L, D, T>)
  {
    forall d: D, reply: string :: TodoFits(W, d, W.plan(d, reply))
  }

  ghost predicate TodoFits<S, L, D, T>(W: World<S, L, D, T>, d: D, todo: seq<Act<D, T>>)
  {
    forall a <- todo :: a.Request? ==> a.noreply == !W.replies(a.text) && W.rank(a.data) < W.rank(d)
  }

  /** Nothing queued, nobody busy, nothing on any wire, no handler waiting. */
  ghost predicate Quiescent<S, L, D, T>(s: Sys<S, L, D, T>)
  {
    s.queue == [] && forall l <- s.lanes :: l == Lane(Idle, [], [], None)
  }

  /** The moment at which a barrier may return. */
  ghost predicate Drained<S, L, D, T>(s: Sys<S, L, D, T>)
  {
    s.queue == [] && forall l <- s.lanes :: l.worker.Idle?
  }
}
