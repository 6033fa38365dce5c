/**
 The dataflow machine that runs TensorFlow graphs: named nodes, live and dead tokens,
 and frames with iterations.  The firing rules are those of the executor
 (core/common_runtime/executor.cc) and of the control-flow kernels
 (core/kernels/control_flow_ops.cc).  A run fires one enabled (node, context) pair at a
 time, in any order, so a statement about all runs is a statement about all schedules.
 */
module Dataflow {

  /** The output slot that stands for a control edge (Graph::kControlSlot). */
  const CONTROL_SLOT: int := -1

  datatype Value = Bool(b: bool) | Index(i: nat) | Tensor(data: seq<int>)

  /** What travels on an edge: a value, or the mark of an untaken branch. */
  datatype Token = Live(v: Value) | Dead

  function Lives(vs: seq<Value>): seq<Token> { seq(|vs|, i requires 0 <= i < |vs| => Live(vs[i])) }

  /** One output of a named node (TensorId). */
  datatype Ref<N(!new, ==)> = Ref(node: N, slot: int)

  datatype Op =
    | Placeholder
    | Kernel(kind: string)
    | Enter(frame: string)
    | Merge
    | Switch
    | NextIteration
    | Exit

  datatype Node<N(!new, ==)> = Node(op: Op, inputs: seq<Ref<N>>)

  /** A graph, indexed by node name. */
  type Graph<N(!new, ==)> = map<N, Node<N>>

  /** Where a node runs: at top level, or in one iteration of a frame. */
  datatype Ctx = Root | Frame(parent: Ctx, frame: string, iter: nat)

  /** One activation of a node. */
  datatype Firing<N(!new, ==)> = At(node: N, ctx: Ctx)

  /** A node that received a dead input is skipped; otherwise it ran on these arguments. */
  datatype Outcome = Skipped | Fired(args: seq<Value>)

  /** Which activations have happened, and how. */
  type State<N(!new, ==)> = map<Firing<N>, Outcome>

  /** The meaning of ordinary kernels: kind, data inputs and output slot give a value. */
  type Kernels = (string, seq<Value>, int) -> Value

  /** A graph, its kernels and the tokens fed to its placeholders. */
  datatype Machine<N(!new, ==)> = Machine(graph: Graph<N>, kernels: Kernels, feeds: map<N, Token>)

  /** The token that an activation puts on one of its output slots. */
  function Output(kernels: Kernels, op: Op, out: Outcome, slot: int): Token {
    if out.Skipped? then Dead
    else if slot == CONTROL_SLOT then Live(Tensor([]))
    else
      match op
      case Kernel(kind) => Live(kernels(kind, out.args, slot))
      case Switch =>
        if 0 <= slot <= 1 && |out.args| == 2 && out.args[1] == Bool(slot == 1) then Live(out.args[0]) else Dead
      case Merge => if 0 <= slot < |out.args| then Live(out.args[slot]) else Dead
      case _ => if slot == 0 && |out.args| == 1 then Live(out.args[0]) else Dead
  }

  /**
   The context in which the outputs of an activation appear.  Enter opens iteration 0 of a
   child frame, NextIteration moves to the next iteration and Exit to the parent context;
   a skipped NextIteration or Exit passes nothing on.
   */
  predicate Reaches(op: Op, at: Ctx, out: Outcome, ctx: Ctx) {
    match op
    case Enter(frame) => ctx == Frame(at, frame, 0)
    case NextIteration => out.Fired? && at.Frame? && ctx == Frame(at.parent, at.frame, at.iter + 1)
    case Exit => out.Fired? && at.Frame? && ctx == at.parent
    case _ => ctx == at
  }

  /** Token `t` has arrived on `r` in context `ctx`. */
  ghost predicate Delivered<N(!new)>(m: Machine<N>, s: State<N>, r: Ref<N>, ctx: Ctx, t: Token) {
    && r.node in m.graph
    && exists at ::
        && At(r.node, at) in s
        && Reaches(m.graph[r.node].op, at, s[At(r.node, at)], ctx)
        && t == Output(m.kernels, m.graph[r.node].op, s[At(r.node, at)], r.slot)
  }

  ghost predicate Gathers<N(!new)>(m: Machine<N>, s: State<N>, refs: seq<Ref<N>>, ctx: Ctx, ts: seq<Token>) {
    |ts| == |refs| && forall i :: 0 <= i < |refs| ==> Delivered(m, s, refs[i], ctx, ts[i])
  }

  /** The values that arrived on data inputs; control inputs carry none. */
  function DataArgs<N(!new, ==)>(refs: seq<Ref<N>>, ts: seq<Token>): seq<Value>
    requires |refs| == |ts|
    requires forall t :: t in ts ==> t.Live?
  {
    if refs == [] then []
    else
      var k := |refs| - 1;
      DataArgs(refs[..k], ts[..k]) + if refs[k].slot == CONTROL_SLOT then [] else [ts[k].v]
  }

  function Combine<N(!new, ==)>(refs: seq<Ref<N>>, ts: seq<Token>): Outcome
    requires |refs| == |ts|
  {
    if Dead in ts then Skipped else Fired(DataArgs(refs, ts))
  }

  function FedOutcome(t: Token): Outcome {
    match t
    case Live(v) => Fired([v])
    case Dead => Skipped
  }

  /**
   A merge waits for its control inputs and then takes any live data input.  It is skipped
   when all data inputs are dead, or a dead token comes from an Enter.
   */
  ghost predicate MergeFires<N(!new)>(m: Machine<N>, s: State<N>, inputs: seq<Ref<N>>, ctx: Ctx, out: Outcome) {
    && (forall i :: 0 <= i < |inputs| && inputs[i].slot == CONTROL_SLOT ==>
          exists t :: Delivered(m, s, inputs[i], ctx, t))
    && match out
       case Fired(args) =>
         && |args| == 2 && args[1].Index? && args[1].i < |inputs|
         && inputs[args[1].i].slot != CONTROL_SLOT
         && Delivered(m, s, inputs[args[1].i], ctx, Live(args[0]))
       case Skipped =>
         exists i ::
           && 0 <= i < |inputs|
           && inputs[i].slot != CONTROL_SLOT
           && Delivered(m, s, inputs[i], ctx, Dead)
           && ((inputs[i].node in m.graph && m.graph[inputs[i].node].op.Enter?)
               || forall j :: 0 <= j < |inputs| && inputs[j].slot != CONTROL_SLOT ==>
                    Delivered(m, s, inputs[j], ctx, Dead))
  }

  /** All inputs arrived in one context, and `out` follows from them. */
  ghost predicate NodeFires<N(!new)>(m: Machine<N>, s: State<N>, node: Node<N>, ctx: Ctx, ts: seq<Token>, out: Outcome) {
    && Gathers(m, s, node.inputs, ctx, ts)
    && (node.inputs == [] ==> ctx == Root)
    && out == Combine(node.inputs, ts)
    && (node.op.Switch? && out.Fired? ==> |out.args| == 2 && out.args[1].Bool?)
  }

  /** Node `n` is enabled in `ctx` with outcome `out`. */
  ghost predicate CanFire<N(!new)>(m: Machine<N>, s: State<N>, n: N, ctx: Ctx, out: Outcome)
    requires n in m.graph
  {
    match m.graph[n].op
    case Placeholder => ctx == Root && n in m.feeds && out == FedOutcome(m.feeds[n])
    case Merge => MergeFires(m, s, m.graph[n].inputs, ctx, out)
    case _ => exists ts :: NodeFires(m, s, m.graph[n], ctx, ts, out)
  }

  ghost predicate Fires<N(!new)>(m: Machine<N>, s: State<N>, n: N, ctx: Ctx, out: Outcome, s': State<N>) {
    n in m.graph && At(n, ctx) !in s && CanFire(m, s, n, ctx, out) && s' == s[At(n, ctx) := out]
  }

  ghost predicate Step<N(!new)>(m: Machine<N>, s: State<N>, s': State<N>) {
    exists n, ctx, out :: Fires(m, s, n, ctx, out, s')
  }

  ghost predicate IsRun<N(!new)>(m: Machine<N>, run: seq<State<N>>) {
    && |run| > 0 && run[0] == map[]
    && forall i :: 0 < i < |run| ==> Step(m, run[i-1], run[i])
  }

  ghost predicate Reachable<N(!new)>(m: Machine<N>, s: State<N>) {
    exists run :: IsRun(m, run) && run[|run|-1] == s
  }

  /** Nothing is left to fire. */
  ghost predicate Quiescent<N(!new)>(m: Machine<N>, s: State<N>) {
    forall n, ctx, out :: n in m.graph && CanFire(m, s, n, ctx, out) ==> At(n, ctx) in s
  }

  /**
   The machine computes `v` on `r`: in every reachable state only a live `v` can be there,
   only at top level, and it is there once nothing is left to fire.
   */
  ghost predicate Denotes<N(!new)>(m: Machine<N>, r: Ref<N>, v: Value) {
    && (forall s, ctx, t :: Reachable(m, s) && Delivered(m, s, r, ctx, t) ==> ctx == Root && t == Live(v))
    && (forall s :: Reachable(m, s) && Quiescent(m, s) ==> Delivered(m, s, r, Root, Live(v)))
  }

  /** No schedule puts a live token on `r`. */
  ghost predicate NeverLive<N(!new)>(m: Machine<N>, r: Ref<N>) {
    forall s, ctx, v :: Reachable(m, s) ==> !Delivered(m, s, r, ctx, Live(v))
  }

  /** NextIteration and Exit nodes never run outside a frame. */
  ghost predicate FrameSafe<N(!new)>(m: Machine<N>) {
    forall s, n ::
      n in m.graph && (m.graph[n].op.NextIteration? || m.graph[n].op.Exit?) && Reachable(m, s) ==> At(n, Root) !in s
  }

  /** Every input of every node names a node of the graph. */
  ghost predicate Closed<N(!new)>(g: Graph<N>) {
    forall n, i :: n in g && 0 <= i < |g[n].inputs| ==> g[n].inputs[i].node in g
  }

  // ----- runs

  lemma ReachableStart<N(!new)>(m: Machine<N>)
    ensures Reachable(m, map[])
  {
    assert IsRun(m, [map[]]);
  }

  lemma ReachableStep<N(!new)>(m: Machine<N>, s: State<N>, n: N, ctx: Ctx, out: Outcome, s': State<N>)
    requires Reachable(m, s) && Fires(m, s, n, ctx, out, s')
    ensures Reachable(m, s')
  {
    var run :| IsRun(m, run) && run[|run|-1] == s;
    assert Step(m, s, s');
    assert IsRun(m, run + [s']);
  }

  /** Every state of a run is reachable through the prefix that leads to it. */
  lemma RunPrefix<N(!new)>(m: Machine<N>, run: seq<State<N>>)
    requires IsRun(m, run) && |run| > 1
    ensures IsRun(m, run[..|run|-1]) && Step(m, run[|run|-2], run[|run|-1])
  {
  }

  // ----- adding nodes to a graph

  /** The part of a state that concerns the nodes of `g`. */
  ghost function Restrict<N(!new)>(s: State<N>, g: Graph<N>): State<N> {
    map f | f in s && f.node in g :: s[f]
  }

  /** `big` is `m` with more nodes; nothing in `m` reads the new ones. */
  ghost predicate Extends<N(!new)>(big: Machine<N>, m: Machine<N>) {
    && Closed(m.graph)
    && (forall n :: n in m.graph ==> n in big.graph && big.graph[n] == m.graph[n])
    && big.kernels == m.kernels
    && (forall n :: n in m.graph ==> (n in big.feeds <==> n in m.feeds))
    && (forall n :: n in m.graph && n in m.feeds ==> big.feeds[n] == m.feeds[n])
  }

  lemma RestrictDelivered<N(!new)>(big: Machine<N>, m: Machine<N>, s: State<N>, r: Ref<N>, ctx: Ctx, t: Token)
    requires Extends(big, m) && r.node in m.graph
    ensures Delivered(big, s, r, ctx, t) <==> Delivered(m, Restrict(s, m.graph), r, ctx, t)
  {
    var q := Restrict(s, m.graph);
    assert forall at :: At(r.node, at) in q <==> At(r.node, at) in s;
  }

  lemma RestrictCanFire<N(!new)>(big: Machine<N>, m: Machine<N>, s: State<N>, n: N, ctx: Ctx, out: Outcome)
    requires Extends(big, m) && n in m.graph
    ensures CanFire(big, s, n, ctx, out) <==> CanFire(m, Restrict(s, m.graph), n, ctx, out)
  {
    var q := Restrict(s, m.graph);
    var node := m.graph[n];
    forall i, t | 0 <= i < |node.inputs|
      ensures Delivered(big, s, node.inputs[i], ctx, t) <==> Delivered(m, q, node.inputs[i], ctx, t)
    {
      RestrictDelivered(big, m, s, node.inputs[i], ctx, t);
    }
    assert forall ts :: Gathers(big, s, node.inputs, ctx, ts) <==> Gathers(m, q, node.inputs, ctx, ts);
    assert forall ts :: NodeFires(big, s, node, ctx, ts, out) <==> NodeFires(m, q, node, ctx, ts, out);
  }

  /** A run of the larger machine, seen on the old nodes, is a run of the smaller one. */
  lemma {:induction false} RestrictReachable<N(!new)>(big: Machine<N>, m: Machine<N>, run: seq<State<N>>)
    requires Extends(big, m) && IsRun(big, run)
    ensures Reachable(m, Restrict(run[|run|-1], m.graph))
    decreases |run|
  {
    if |run| == 1 {
      ReachableStart(m);
      assert Restrict(run[0], m.graph) == map[];
    } else {
      RunPrefix(big, run);
      var s, s' := run[|run|-2], run[|run|-1];
      RestrictReachable(big, m, run[..|run|-1]);
      var n, ctx, out :| Fires(big, s, n, ctx, out, s');
      var q, q' := Restrict(s, m.graph), Restrict(s', m.graph);
      if n in m.graph {
        RestrictCanFire(big, m, s, n, ctx, out);
        assert q' == q[At(n, ctx) := out];
        ReachableStep(m, q, n, ctx, out, q');
      } else {
        assert q' == q;
      }
    }
  }

  lemma RestrictQuiescent<N(!new)>(big: Machine<N>, m: Machine<N>, s: State<N>)
    requires Extends(big, m) && Quiescent(big, s)
    ensures Quiescent(m, Restrict(s, m.graph))
  {
    var q := Restrict(s, m.graph);
    forall n, ctx, out | n in m.graph && CanFire(m, q, n, ctx, out)
      ensures At(n, ctx) in q
    {
      RestrictCanFire(big, m, s, n, ctx, out);
    }
  }

  /** What a graph computes is not changed by nodes added to it. */
  lemma DenotesExtends<N(!new)>(big: Machine<N>, m: Machine<N>, r: Ref<N>, v: Value)
    requires Extends(big, m) && r.node in m.graph && Denotes(m, r, v)
    ensures Denotes(big, r, v)
  {
    forall s, ctx, t | Reachable(big, s) && Delivered(big, s, r, ctx, t)
      ensures ctx == Root && t == Live(v)
    {
      var run :| IsRun(big, run) && run[|run|-1] == s;
      RestrictReachable(big, m, run);
      RestrictDelivered(big, m, s, r, ctx, t);
    }
    forall s | Reachable(big, s) && Quiescent(big, s)
      ensures Delivered(big, s, r, Root, Live(v))
    {
      var run :| IsRun(big, run) && run[|run|-1] == s;
      RestrictReachable(big, m, run);
      RestrictQuiescent(big, m, s);
      RestrictDelivered(big, m, s, r, Root, Live(v));
    }
  }

  /** Nor is deadness. */
  lemma NeverLiveExtends<N(!new)>(big: Machine<N>, m: Machine<N>, r: Ref<N>)
    requires Extends(big, m) && r.node in m.graph && NeverLive(m, r)
    ensures NeverLive(big, r)
  {
    forall s, ctx, v | Reachable(big, s)
      ensures !Delivered(big, s, r, ctx, Live(v))
    {
      var run :| IsRun(big, run) && run[|run|-1] == s;
      RestrictReachable(big, m, run);
      RestrictDelivered(big, m, s, r, ctx, Live(v));
    }
  }
}
