/** Middleware composition: what the index guard enforces, and what a composed pipeline computes. */
module Onion {
  import opened Text

  // ---- The guard, against any middleware at all ----

  /**
   One invocation of a composed pipeline of n layers. Ran lists the layers entered, in order; layer n is
   the terminal handler.
   */
  datatype Invocation = Invocation(n: nat, index: int, ran: seq<nat>)

  function Begin(n: nat): Invocation {
    Invocation(n, -1, [])
  }

  /** Layer i can be asked for: it is the first, or the layer before it was entered and holds its next. */
  predicate Reachable(s: Invocation, i: nat) {
    i <= s.n && (i == 0 || i - 1 in s.ran)
  }

  /** A call of dispatch(i): rejected unless i is above every layer entered so far. */
  function Dispatch(s: Invocation, i: nat): Invocation {
    if i <= s.index then s else s.(index := i, ran := s.ran + [i])
  }

  /** Calls of next in any number and order, whoever holds them, also after the pipeline has settled. */
  predicate Possible(s: Invocation, calls: seq<nat>)
    decreases |calls|
  {
    calls == [] || (Reachable(s, calls[0]) && Possible(Dispatch(s, calls[0]), calls[1..]))
  }

  function Dispatches(s: Invocation, calls: seq<nat>): Invocation
    decreases |calls|
  {
    if calls == [] then s else Dispatches(Dispatch(s, calls[0]), calls[1..])
  }

  /** The layers entered are 0, 1, 2 and so on, each once. */
  predicate InOrder(s: Invocation) {
    s.index == |s.ran| - 1 <= s.n && forall k | 0 <= k < |s.ran| :: s.ran[k] == k
  }

  lemma {:induction false} CallsKeepOrder(s: Invocation, calls: seq<nat>)
    requires InOrder(s) && Possible(s, calls)
    ensures InOrder(Dispatches(s, calls)) && Dispatches(s, calls).n == s.n
    decreases |calls|
  {
    if calls != [] {
      CallsKeepOrder(Dispatch(s, calls[0]), calls[1..]);
    }
  }

  /** Whatever the middleware do, each layer and the terminal handler run at most once, in increasing order. */
  lemma EachLayerOnce(n: nat, calls: seq<nat>)
    requires Possible(Begin(n), calls)
    ensures var ran := Dispatches(Begin(n), calls).ran;
            |ran| <= n + 1 && forall k | 0 <= k < |ran| :: ran[k] == k
  {
    CallsKeepOrder(Begin(n), calls);
  }

  // ---- Middleware, and what they compute ----

  /** What a promise settles to. */
  datatype Outcome<+Res> = Fulfilled(res: Res) | Rejected(reason: string)

  const REPEATED: string := "next() called multiple times"

  /** How a call ends, and the world it leaves: whatever the layers and the handler read and write. */
  datatype Ending<+Res, +World> = Ending(out: Outcome<Res>, world: World)

  /** What a layer does next: it ends, or it awaits next on some request. */
  datatype Move<+Req, +Res, +World> = Return(ending: Ending<Res, World>) | Await(req: Req, world: World)

  /**
   A layer, called with a request and the context, told what each of its calls of next so far settled to. It
   may answer by itself, retry, recover from a rejection, throw, or replace the response. Calls bounds how
   often it calls next: one that would go on ends with the rejection.
   */
  datatype Layer<!Req, !Res, !Context, !World> =
    Layer(calls: nat, move: (Req, Context, World, seq<Ending<Res, World>>) -> Move<Req, Res, World>)
  {
    function Next(req: Req, context: Context, world: World, answers: seq<Ending<Res, World>>)
      : (r: Move<Req, Res, World>)
      ensures |answers| >= calls ==> r.Return?
    {
      var m := move(req, context, world, answers);
      if m.Await? && |answers| >= calls then Return(Ending(Rejected(REPEATED), m.world)) else m
    }
  }

  /** What calling next, or a whole pipeline, comes to. */
  type Handler<!Req, !Res, !World> = (Req, World) -> Ending<Res, World>

  /** The end of a layer all of whose further calls of next are rejected. */
  function Rejecting<Req, Res, Context, World>(layer: Layer<Req, Res, Context, World>, req: Req, context: Context,
      world: World, answers: seq<Ending<Res, World>>): Ending<Res, World>
    decreases layer.calls - |answers|
  {
    match layer.Next(req, context, world, answers)
    case Return(ending) => ending
    case Await(_, now) => Rejecting(layer, req, context, world, answers + [Ending(Rejected(REPEATED), now)])
  }

  /** A pipeline, outermost layer first: each layer reaches the one below it once, with its first call of next. */
  function Through<Req, Res, Context, World>(layers: seq<Layer<Req, Res, Context, World>>,
      terminal: Handler<Req, Res, World>, context: Context, req: Req, world: World): Ending<Res, World>
    decreases |layers|
  {
    if layers == [] then terminal(req, world)
    else
      match layers[0].Next(req, context, world, [])
      case Return(ending) => ending
      case Await(r, now) =>
        Rejecting(layers[0], req, context, world, [Through(layers[1..], terminal, context, r, now)])
  }

  class Pipeline<Req(0), Res(0), Context(0), World(0)> {
    const middlewares: seq<Layer<Req, Res, Context, World>>
    const terminal: Handler<Req, Res, World>
    const context: Context
    var index: int

    constructor (middlewares: seq<Layer<Req, Res, Context, World>>, terminal: Handler<Req, Res, World>,
                 context: Context)
      ensures this.middlewares == middlewares && this.terminal == terminal && this.context == context && index == -1
    {
      this.middlewares, this.terminal, this.context, index := middlewares, terminal, context, -1;
    }

    /**
     One index shared by all layers is enough: a dispatch at or below it is rejected and changes nothing, and
     one above it runs the rest of the pipeline with each layer reaching the next at most once.
     */
    method Dispatch(i: nat, req: Req, world: World) returns (r: Ending<Res, World>)
      requires i <= |middlewares|
      modifies this
      ensures i <= old(index) ==> r == Ending(Rejected(REPEATED), world) && index == old(index)
      ensures i > old(index) ==>
                r == Through(middlewares[i..], terminal, context, req, world) && i <= index <= |middlewares|
      decreases |middlewares| - i
    {
      if i <= index {
        return Ending(Rejected(REPEATED), world);
      }
      index := i;
      if i == |middlewares| {
        return terminal(req, world);
      }
      var layer, answers := middlewares[i], [];
      var move := layer.Next(req, context, world, answers);
      ghost var whole := Through(middlewares[i..], terminal, context, req, world);
      assert middlewares[i..][1..] == middlewares[i + 1..];
      while move.Await?
        invariant i <= index <= |middlewares| && move == layer.Next(req, context, world, answers)
        invariant if index == i then answers == [] else whole == Rejecting(layer, req, context, world, answers)
        decreases layer.calls - |answers|
      {
        ghost var below := [Through(middlewares[i + 1..], terminal, context, move.req, move.world)];
        assert [] + below == below;
        var answer := Dispatch(i + 1, move.req, move.world);
        answers := answers + [answer];
        move := layer.Next(req, context, world, answers);
      }
      return move.ending;
    }
  }

  /** A fresh index per call, and a fresh context where the caller brings none. */
  method Compose<Req(0), Res(0), Context(0), World(0)>(middlewares: seq<Layer<Req, Res, Context, World>>,
      next: Handler<Req, Res, World>, req: Req, context: Option<Context>, created: Context, world: World)
    returns (r: Ending<Res, World>)
    ensures r == Through(middlewares, next, if context.Some? then context.value else created, req, world)
  {
    var pipeline := new Pipeline(middlewares, next, if context.Some? then context.value else created);
    r := pipeline.Dispatch(0, req, world);
    assert middlewares[0..] == middlewares;
  }

  // ---- A composed pipeline as a middleware ----

  /** How far layers get before the handler is needed: their end, or the request that reaches it. */
  function Reach<Req, Res, Context, World>(layers: seq<Layer<Req, Res, Context, World>>, context: Context, req: Req,
      world: World): Move<Req, Res, World>
    decreases |layers|
  {
    if layers == [] then Await(req, world)
    else
      match layers[0].Next(req, context, world, [])
      case Return(ending) => Return(ending)
      case Await(r, now) =>
        match Reach(layers[1..], context, r, now)
        case Return(ending) => Return(Rejecting(layers[0], req, context, world, [ending]))
        case Await(r2, now2) => Await(r2, now2)
  }

  function Settled<Req, Res, World>(ending: Ending<Res, World>): Handler<Req, Res, World> {
    (req, world) => ending
  }

  /** The composition of layers is again a layer, one that calls next once. */
  function Composed<Req, Res, Context, World>(layers: seq<Layer<Req, Res, Context, World>>)
    : Layer<Req, Res, Context, World>
  {
    Layer(1, (req, context, world, answers) =>
      if answers == [] then Reach(layers, context, req, world)
      else Return(Through(layers, Settled(answers[0]), context, req, world)))
  }

  lemma {:induction false} ReachThenRest<Req, Res, Context, World>(layers: seq<Layer<Req, Res, Context, World>>,
      terminal: Handler<Req, Res, World>, context: Context, req: Req, world: World)
    ensures Through(layers, terminal, context, req, world)
         == match Reach(layers, context, req, world)
            case Return(ending) => ending
            case Await(r, now) => Through(layers, Settled(terminal(r, now)), context, req, world)
    decreases |layers|
  {
    if layers != [] {
      match layers[0].Next(req, context, world, [])
      case Return(_) =>
      case Await(r, now) => ReachThenRest(layers[1..], terminal, context, r, now);
    }
  }

  /** The rest of a pipeline, as the handler of the layers above it. */
  function Below<Req, Res, Context, World>(layers: seq<Layer<Req, Res, Context, World>>,
      terminal: Handler<Req, Res, World>, context: Context): Handler<Req, Res, World>
  {
    (req, world) => Through(layers, terminal, context, req, world)
  }

  /** Running the composed middleware on top of others is running its layers on top of them. */
  lemma ComposedMeansLayers<Req, Res, Context, World>(layers: seq<Layer<Req, Res, Context, World>>,
      rest: seq<Layer<Req, Res, Context, World>>, terminal: Handler<Req, Res, World>, context: Context, req: Req,
      world: World)
    ensures Through([Composed(layers)] + rest, terminal, context, req, world)
         == Through(layers, Below(rest, terminal, context), context, req, world)
  {
    ReachThenRest(layers, Below(rest, terminal, context), context, req, world);
    assert ([Composed(layers)] + rest)[1..] == rest;
  }

  lemma {:induction false} ThroughAppend<Req, Res, Context, World>(xs: seq<Layer<Req, Res, Context, World>>,
      ys: seq<Layer<Req, Res, Context, World>>, terminal: Handler<Req, Res, World>, context: Context, req: Req,
      world: World)
    ensures Through(xs + ys, terminal, context, req, world)
         == Through(xs, Below(ys, terminal, context), context, req, world)
    decreases |xs|
  {
    if xs == [] {
      assert xs + ys == ys;
    } else {
      assert (xs + ys)[1..] == xs[1..] + ys;
      match xs[0].Next(req, context, world, [])
      case Return(_) =>
      case Await(r, now) => ThroughAppend(xs[1..], ys, terminal, context, r, now);
    }
  }

  /** Layers do not see more of the handler than what its calls come to. */
  lemma {:induction false} SameHandler<Req(!new), Res, Context, World(!new)>(
      layers: seq<Layer<Req, Res, Context, World>>, one: Handler<Req, Res, World>, two: Handler<Req, Res, World>,
      context: Context, req: Req, world: World)
    requires forall r, now :: one(r, now) == two(r, now)
    ensures Through(layers, one, context, req, world) == Through(layers, two, context, req, world)
    decreases |layers|
  {
    if layers != [] {
      match layers[0].Next(req, context, world, [])
      case Return(_) =>
      case Await(r, now) => SameHandler(layers[1..], one, two, context, r, now);
    }
  }

  /** Composing two compositions is composing their layers, whatever the layers do with next. */
  lemma ComposeFlattens<Req(!new), Res, Context, World(!new)>(xs: seq<Layer<Req, Res, Context, World>>,
      ys: seq<Layer<Req, Res, Context, World>>, terminal: Handler<Req, Res, World>, context: Context, req: Req,
      world: World)
    ensures Through([Composed(xs), Composed(ys)], terminal, context, req, world)
         == Through(xs + ys, terminal, context, req, world)
  {
    var inner, flat := Below([Composed(ys)], terminal, context), Below(ys, terminal, context);
    assert [Composed(xs), Composed(ys)] == [Composed(xs)] + [Composed(ys)];
    ComposedMeansLayers(xs, [Composed(ys)], terminal, context, req, world);
    forall r: Req, now: World ensures inner(r, now) == flat(r, now) {
      assert [Composed(ys)] + [] == [Composed(ys)];
      ComposedMeansLayers(ys, [], terminal, context, r, now);
      SameHandler(ys, Below([], terminal, context), terminal, context, r, now);
    }
    SameHandler(xs, inner, flat, context, req, world);
    ThroughAppend(xs, ys, terminal, context, req, world);
  }

  // ---- Response order ----

  function Reversed<T>(s: seq<T>): (r: seq<T>)
    ensures |r| == |s|
  {
    if s == [] then [] else Reversed(s[1..]) + [s[0]]
  }

  /** pipe: first in the list is innermost. */
  method Pipe<Req(0), Res(0), Context(0), World(0)>(middlewares: seq<Layer<Req, Res, Context, World>>,
      next: Handler<Req, Res, World>, req: Req, context: Option<Context>, created: Context, world: World)
    returns (r: Ending<Res, World>)
    ensures r == Through(Reversed(middlewares), next, if context.Some? then context.value else created, req, world)
  {
    r := Compose(Reversed(middlewares), next, req, context, created, world);
  }

  /** The first layer of a pipe is the one next to the handler: it sees the response first. */
  lemma PipeFirstIsInnermost<Req, Res, Context, World>(first: Layer<Req, Res, Context, World>,
      rest: seq<Layer<Req, Res, Context, World>>, terminal: Handler<Req, Res, World>, context: Context, req: Req,
      world: World)
    ensures Through(Reversed([first] + rest), terminal, context, req, world)
         == Through(Reversed(rest), Below([first], terminal, context), context, req, world)
  {
    assert ([first] + rest)[1..] == rest;
    ThroughAppend(Reversed(rest), [first], terminal, context, req, world);
  }
}
