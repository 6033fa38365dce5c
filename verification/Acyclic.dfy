/**
 Graphs without control flow, as a client of the C API builds them: every node reads nodes
 created before it.  Such a graph means what one pass over its nodes computes, and a node is
 dead exactly when it depends on a dead input.
 */
module Acyclic {
  import opened Dataflow

  datatype NodeDef<N(!new, ==)> = NodeDef(name: N, node: Node<N>)

  function ToGraph<N(!new, ==)>(l: seq<NodeDef<N>>): Graph<N> {
    if l == [] then map[]
    else ToGraph(l[..|l|-1])[l[|l|-1].name := l[|l|-1].node]
  }

  /** Each node is an input placeholder or a kernel that reads earlier nodes. */
  predicate Ordered<N(!new, ==)>(l: seq<NodeDef<N>>, ins: seq<N>) {
    l != [] ==>
      var k := |l| - 1;
      var rest := ToGraph(l[..k]);
      && Ordered(l[..k], ins)
      && l[k].name !in rest
      && match l[k].node.op
         case Placeholder => l[k].name in ins && l[k].node.inputs == []
         case Kernel(_) =>
           && l[k].name !in ins
           && forall i :: 0 <= i < |l[k].node.inputs| ==> Read(rest, ins, l[k].node.inputs[i])
         case _ => false
  }

  /** `r` is an output of the graph; inputs have only one. */
  predicate Read<N(!new, ==)>(g: Graph<N>, ins: seq<N>, r: Ref<N>) {
    r.node in g && (r.node in ins ==> r.slot == 0)
  }

  function Env(t: Token): Value {
    if t.Live? then t.v else Tensor([])
  }

  /** The value on `r` when the inputs have the fed values. */
  function Eval<N(!new, ==)>(l: seq<NodeDef<N>>, kernels: Kernels, feeds: map<N, Token>, r: Ref<N>): Value
    decreases |l|, 0
  {
    if l == [] || r.slot == CONTROL_SLOT then Tensor([])
    else
      var k := |l| - 1;
      if l[k].name != r.node then Eval(l[..k], kernels, feeds, r)
      else
        match l[k].node.op
        case Kernel(kind) => kernels(kind, EvalArgs(l[..k], kernels, feeds, l[k].node.inputs), r.slot)
        case _ => if r.node in feeds then Env(feeds[r.node]) else Tensor([])
  }

  function EvalArgs<N(!new, ==)>(l: seq<NodeDef<N>>, kernels: Kernels, feeds: map<N, Token>, refs: seq<Ref<N>>): seq<Value>
    decreases |l|, |refs| + 1
  {
    if refs == [] then []
    else
      var k := |refs| - 1;
      EvalArgs(l, kernels, feeds, refs[..k])
      + if refs[k].slot == CONTROL_SLOT then [] else [Eval(l, kernels, feeds, refs[k])]
  }

  /** Node `n` depends, through data or control inputs, on one of `sources`. */
  predicate Depends<N(!new, ==)>(l: seq<NodeDef<N>>, sources: set<N>, n: N)
    decreases |l|
  {
    && l != []
    && var k := |l| - 1;
       if l[k].name != n then Depends(l[..k], sources, n)
       else n in sources || exists i :: 0 <= i < |l[k].node.inputs| && Depends(l[..k], sources, l[k].node.inputs[i].node)
  }

  ghost function DeadFeeds<N(!new)>(feeds: map<N, Token>): set<N> {
    set n | n in feeds && feeds[n] == Dead
  }

  // ----- single nodes

  /** Every activation happened in some earlier reachable state. */
  lemma {:induction false} FiredOnce<N(!new)>(m: Machine<N>, run: seq<State<N>>, f: Firing<N>) returns (s: State<N>)
    requires IsRun(m, run) && f in run[|run|-1]
    ensures Reachable(m, s) && f.node in m.graph && CanFire(m, s, f.node, f.ctx, run[|run|-1][f])
    decreases |run|
  {
    hide CanFire;
    RunPrefix(m, run);
    var q, q' := run[|run|-2], run[|run|-1];
    var n, ctx, out :| Fires(m, q, n, ctx, out, q');
    if f == At(n, ctx) {
      s := q;
      assert run[..|run|-1][|run|-2] == q;
    } else {
      s := FiredOnce(m, run[..|run|-1], f);
    }
  }

  /** A kernel whose inputs denote values denotes the kernel's value. */
  lemma KernelDenotes<N(!new)>(m: Machine<N>, n: N, vs: seq<Value>, slot: int)
    requires n in m.graph && m.graph[n].op.Kernel? && |vs| == |m.graph[n].inputs|
    requires forall i :: 0 <= i < |vs| ==> Denotes(m, m.graph[n].inputs[i], vs[i])
    ensures Denotes(m, Ref(n, slot), if slot == CONTROL_SLOT then Tensor([])
                    else m.kernels(m.graph[n].op.kind, DataArgs(m.graph[n].inputs, Lives(vs)), slot))
  {
    var node, out := m.graph[n], Fired(DataArgs(m.graph[n].inputs, Lives(vs)));
    forall s, x | Reachable(m, s) && At(n, x) in s
      ensures x == Root && s[At(n, x)] == out
    {
      var run :| IsRun(m, run) && run[|run|-1] == s;
      var q := FiredOnce(m, run, At(n, x));
      var ts :| NodeFires(m, q, node, x, ts, s[At(n, x)]);
      assert forall i :: 0 <= i < |vs| ==> Delivered(m, q, node.inputs[i], x, ts[i]);
      assert ts == Lives(vs);
    }
    forall s | Reachable(m, s) && Quiescent(m, s)
      ensures At(n, Root) in s
    {
      assert NodeFires(m, s, node, Root, Lives(vs), out);
      assert CanFire(m, s, n, Root, out);
    }
  }

  /** A kernel with an input that is never live is never live. */
  lemma KernelDead<N(!new)>(m: Machine<N>, n: N, i: nat, slot: int)
    requires n in m.graph && m.graph[n].op.Kernel? && i < |m.graph[n].inputs|
    requires NeverLive(m, m.graph[n].inputs[i])
    ensures NeverLive(m, Ref(n, slot))
  {
    var node := m.graph[n];
    forall s, x | Reachable(m, s) && At(n, x) in s
      ensures s[At(n, x)] == Skipped
    {
      var run :| IsRun(m, run) && run[|run|-1] == s;
      var q := FiredOnce(m, run, At(n, x));
      var ts :| NodeFires(m, q, node, x, ts, s[At(n, x)]);
      assert Delivered(m, q, node.inputs[i], x, ts[i]);
      assert ts[i] in ts;
    }
  }

  lemma PlaceholderDenotes<N(!new)>(m: Machine<N>, n: N)
    requires n in m.graph && m.graph[n].op.Placeholder? && n in m.feeds
    ensures m.feeds[n].Live? ==> Denotes(m, Ref(n, 0), m.feeds[n].v)
    ensures m.feeds[n].Dead? ==> forall slot :: NeverLive(m, Ref(n, slot))
  {
    forall s, x | Reachable(m, s) && At(n, x) in s
      ensures x == Root && s[At(n, x)] == FedOutcome(m.feeds[n])
    {
      var run :| IsRun(m, run) && run[|run|-1] == s;
      var q := FiredOnce(m, run, At(n, x));
    }
    forall s | Reachable(m, s) && Quiescent(m, s)
      ensures At(n, Root) in s
    {
      assert CanFire(m, s, n, Root, FedOutcome(m.feeds[n]));
    }
  }

  // ----- whole graphs

  lemma {:induction false} OrderedClosed<N(!new)>(l: seq<NodeDef<N>>, ins: seq<N>)
    requires Ordered(l, ins)
    ensures Closed(ToGraph(l))
  {
    if l != [] {
      OrderedClosed(l[..|l|-1], ins);
    }
  }

  lemma {:induction false} OrderedOps<N(!new)>(l: seq<NodeDef<N>>, ins: seq<N>, n: N)
    requires Ordered(l, ins) && n in ToGraph(l)
    ensures if n in ins then ToGraph(l)[n] == Node(Placeholder, []) else ToGraph(l)[n].op.Kernel?
  {
    if l[|l|-1].name != n {
      OrderedOps(l[..|l|-1], ins, n);
    }
  }

  lemma {:induction false} ArgsAgree<N(!new)>(l: seq<NodeDef<N>>, kernels: Kernels, feeds: map<N, Token>,
                                              refs: seq<Ref<N>>, vs: seq<Value>)
    requires |vs| == |refs| && forall i :: 0 <= i < |vs| ==> vs[i] == Eval(l, kernels, feeds, refs[i])
    ensures DataArgs(refs, Lives(vs)) == EvalArgs(l, kernels, feeds, refs)
    decreases |refs|
  {
    if refs != [] {
      var k := |refs| - 1;
      ArgsAgree(l, kernels, feeds, refs[..k], vs[..k]);
      assert Lives(vs)[..k] == Lives(vs[..k]);
    }
  }

  lemma PrefixExtends<N(!new)>(l: seq<NodeDef<N>>, ins: seq<N>, kernels: Kernels, feeds: map<N, Token>)
    requires l != [] && Ordered(l, ins)
    ensures Extends(Machine(ToGraph(l), kernels, feeds), Machine(ToGraph(l[..|l|-1]), kernels, feeds))
  {
    OrderedClosed(l[..|l|-1], ins);
  }

  ghost predicate Means<N(!new)>(l: seq<NodeDef<N>>, kernels: Kernels, feeds: map<N, Token>, r: Ref<N>, m: Machine<N>) {
    if Depends(l, DeadFeeds(feeds), r.node) then NeverLive(m, r)
    else Denotes(m, r, Eval(l, kernels, feeds, r))
  }

  /**
   An output of an acyclic graph is never live if it depends on an input that is fed a dead
   token, and otherwise denotes the value computed by one pass over the nodes.
   */
  lemma {:induction false} AcyclicMeaning<N(!new)>(l: seq<NodeDef<N>>, ins: seq<N>, kernels: Kernels,
                                                   feeds: map<N, Token>, r: Ref<N>)
    requires Ordered(l, ins) && Read(ToGraph(l), ins, r) && forall n :: n in feeds <==> n in ins
    ensures Means(l, kernels, feeds, r, Machine(ToGraph(l), kernels, feeds))
    decreases |l|
  {
    hide NeverLive, Denotes, Extends;
    var k := |l| - 1;
    var rest, m := l[..k], Machine(ToGraph(l), kernels, feeds);
    var m0 := Machine(ToGraph(rest), kernels, feeds);
    PrefixExtends(l, ins, kernels, feeds);
    if l[k].name != r.node {
      AcyclicMeaning(rest, ins, kernels, feeds, r);
      MeansExtends(rest, kernels, feeds, r, m0, m);
    } else if l[k].node.op.Placeholder? {
      PlaceholderDenotes(m, r.node);
      InputMeaning(l, ins, kernels, feeds, r);
    } else {
      var node := l[k].node;
      forall i | 0 <= i < |node.inputs|
        ensures Means(rest, kernels, feeds, node.inputs[i], m)
      {
        AcyclicMeaning(rest, ins, kernels, feeds, node.inputs[i]);
        MeansExtends(rest, kernels, feeds, node.inputs[i], m0, m);
      }
      KernelMeaning(l, ins, kernels, feeds, r);
    }
  }

  lemma MeansExtends<N(!new)>(l: seq<NodeDef<N>>, kernels: Kernels, feeds: map<N, Token>, r: Ref<N>,
                              m: Machine<N>, big: Machine<N>)
    requires Means(l, kernels, feeds, r, m) && Extends(big, m) && r.node in m.graph
    ensures Means(l, kernels, feeds, r, big)
  {
    hide NeverLive, Denotes, Extends;
    if Depends(l, DeadFeeds(feeds), r.node) {
      NeverLiveExtends(big, m, r);
    } else {
      DenotesExtends(big, m, r, Eval(l, kernels, feeds, r));
    }
  }

  lemma InputMeaning<N(!new)>(l: seq<NodeDef<N>>, ins: seq<N>, kernels: Kernels, feeds: map<N, Token>, r: Ref<N>)
    requires Ordered(l, ins) && Read(ToGraph(l), ins, r) && r.node in ins && r.node in feeds
    requires l != [] && l[|l|-1].name == r.node && l[|l|-1].node.op.Placeholder? && l[|l|-1].node.inputs == []
    ensures Means(l, kernels, feeds, r, Machine(ToGraph(l), kernels, feeds))
  {
    hide NeverLive, Denotes;
    PlaceholderDenotes(Machine(ToGraph(l), kernels, feeds), r.node);
    assert r == Ref(r.node, 0);
  }

  ghost predicate AllMean<N(!new)>(l: seq<NodeDef<N>>, kernels: Kernels, feeds: map<N, Token>, refs: seq<Ref<N>>,
                                   m: Machine<N>) {
    forall i :: 0 <= i < |refs| ==> Means(l, kernels, feeds, refs[i], m)
  }

  lemma KernelMeaning<N(!new)>(l: seq<NodeDef<N>>, ins: seq<N>, kernels: Kernels, feeds: map<N, Token>, r: Ref<N>)
    requires l != [] && l[|l|-1].name == r.node && l[|l|-1].node.op.Kernel?
    requires r.node !in feeds
    requires AllMean(l[..|l|-1], kernels, feeds, l[|l|-1].node.inputs, Machine(ToGraph(l), kernels, feeds))
    ensures Means(l, kernels, feeds, r, Machine(ToGraph(l), kernels, feeds))
  {
    hide NeverLive, Denotes;
    var k := |l| - 1;
    var rest, node, m := l[..k], l[k].node, Machine(ToGraph(l), kernels, feeds);
    var dead := DeadFeeds(feeds);
    if i :| 0 <= i < |node.inputs| && Depends(rest, dead, node.inputs[i].node) {
      KernelDead(m, r.node, i, r.slot);
    } else {
      var vs := seq(|node.inputs|, i requires 0 <= i < |node.inputs| => Eval(rest, kernels, feeds, node.inputs[i]));
      ArgsAgree(rest, kernels, feeds, node.inputs, vs);
      KernelDenotes(m, r.node, vs, r.slot);
    }
  }

  lemma AcyclicFrameSafe<N(!new)>(l: seq<NodeDef<N>>, ins: seq<N>, kernels: Kernels, feeds: map<N, Token>)
    requires Ordered(l, ins)
    ensures FrameSafe(Machine(ToGraph(l), kernels, feeds))
  {
    forall n | n in ToGraph(l)
      ensures !ToGraph(l)[n].op.NextIteration? && !ToGraph(l)[n].op.Exit?
    {
      OrderedOps(l, ins, n);
    }
  }

  // ----- acyclic graphs come to rest

  lemma {:induction false} AllAtRoot<N(!new)>(m: Machine<N>, run: seq<State<N>>)
    requires IsRun(m, run)
    requires forall n :: n in m.graph ==> m.graph[n].op.Placeholder? || m.graph[n].op.Kernel?
    ensures forall f :: f in run[|run|-1] ==> f.ctx == Root && f.node in m.graph
    decreases |run|
  {
    if |run| > 1 {
      RunPrefix(m, run);
      AllAtRoot(m, run[..|run|-1]);
      var s, s' := run[|run|-2], run[|run|-1];
      var n, x, out :| Fires(m, s, n, x, out, s');
      if m.graph[n].op.Kernel? && m.graph[n].inputs != [] {
        var ts :| NodeFires(m, s, m.graph[n], x, ts, out);
        assert Delivered(m, s, m.graph[n].inputs[0], x, ts[0]);
      }
    }
  }

  /** A run of the smaller machine is also a run of the larger one. */
  lemma {:induction false} LiftRun<N(!new)>(big: Machine<N>, m: Machine<N>, run: seq<State<N>>)
    requires Extends(big, m) && IsRun(m, run)
    ensures Reachable(big, run[|run|-1]) && Restrict(run[|run|-1], m.graph) == run[|run|-1]
    decreases |run|
  {
    if |run| == 1 {
      ReachableStart(big);
    } else {
      RunPrefix(m, run);
      LiftRun(big, m, run[..|run|-1]);
      var s, s' := run[|run|-2], run[|run|-1];
      var n, x, out :| Fires(m, s, n, x, out, s');
      RestrictCanFire(big, m, s, n, x, out);
      ReachableStep(big, s, n, x, out, s');
    }
  }

  lemma {:induction false} AcyclicRests<N(!new)>(l: seq<NodeDef<N>>, ins: seq<N>, kernels: Kernels, feeds: map<N, Token>)
    returns (s: State<N>)
    requires Ordered(l, ins)
    ensures var m := Machine(ToGraph(l), kernels, feeds); Reachable(m, s) && Quiescent(m, s)
    decreases |l|
  {
    var m := Machine(ToGraph(l), kernels, feeds);
    if l == [] {
      ReachableStart(m);
      s := map[];
    } else {
      var k := |l| - 1;
      var m0 := Machine(ToGraph(l[..k]), kernels, feeds);
      var s0 := AcyclicRests(l[..k], ins, kernels, feeds);
      PrefixExtends(l, ins, kernels, feeds);
      var run :| IsRun(m0, run) && run[|run|-1] == s0;
      LiftRun(m, m0, run);
      s := LastNodeRests(l, ins, kernels, feeds, s0);
    }
  }

  lemma LastNodeRests<N(!new)>(l: seq<NodeDef<N>>, ins: seq<N>, kernels: Kernels, feeds: map<N, Token>, s0: State<N>)
    returns (s: State<N>)
    requires l != [] && Ordered(l, ins)
    requires Reachable(Machine(ToGraph(l), kernels, feeds), s0)
    requires Restrict(s0, ToGraph(l[..|l|-1])) == s0
    requires Quiescent(Machine(ToGraph(l[..|l|-1]), kernels, feeds), s0)
    ensures var m := Machine(ToGraph(l), kernels, feeds); Reachable(m, s) && Quiescent(m, s)
  {
    var n, m := l[|l|-1].name, Machine(ToGraph(l), kernels, feeds);
    var m0 := Machine(ToGraph(l[..|l|-1]), kernels, feeds);
    PrefixExtends(l, ins, kernels, feeds);
    forall q, x, out | Reachable(m, q) && CanFire(m, q, n, x, out)
      ensures x == Root
    {
      FiresAtRoot(l, ins, kernels, feeds, q, n, x, out);
    }
    if x, out :| CanFire(m, s0, n, x, out) && At(n, x) !in s0 {
      s := s0[At(n, x) := out];
      assert Fires(m, s0, n, x, out, s);
      ReachableStep(m, s0, n, x, out, s);
    } else {
      s := s0;
    }
    assert Restrict(s, m0.graph) == s0;
    forall n', x, out | n' in m.graph && CanFire(m, s, n', x, out)
      ensures At(n', x) in s
    {
      if n' != n {
        RestrictCanFire(m, m0, s, n', x, out);
      }
    }
  }

  lemma FiresAtRoot<N(!new)>(l: seq<NodeDef<N>>, ins: seq<N>, kernels: Kernels, feeds: map<N, Token>,
                             s: State<N>, n: N, x: Ctx, out: Outcome)
    requires Ordered(l, ins) && n in ToGraph(l) && Reachable(Machine(ToGraph(l), kernels, feeds), s)
    requires CanFire(Machine(ToGraph(l), kernels, feeds), s, n, x, out)
    ensures x == Root
  {
    var m := Machine(ToGraph(l), kernels, feeds);
    forall n' | n' in ToGraph(l)
      ensures m.graph[n'].op.Placeholder? || m.graph[n'].op.Kernel?
    {
      OrderedOps(l, ins, n');
    }
    var run :| IsRun(m, run) && run[|run|-1] == s;
    AllAtRoot(m, run);
    if m.graph[n].op.Kernel? && m.graph[n].inputs != [] {
      var ts :| NodeFires(m, s, m.graph[n], x, ts, out);
      assert Delivered(m, s, m.graph[n].inputs[0], x, ts[0]);
    }
  }

  /**
   The exact condition under which an output stays dead when the graph is not entered, that
   is, when every input carries a dead token: it depends on an input.
   */
  lemma DeadIffDepends<N(!new)>(l: seq<NodeDef<N>>, ins: seq<N>, kernels: Kernels, feeds: map<N, Token>, r: Ref<N>)
    requires Ordered(l, ins) && Read(ToGraph(l), ins, r)
    requires feeds == map n | n in ins :: Dead
    ensures NeverLive(Machine(ToGraph(l), kernels, feeds), r) <==> Depends(l, (set n | n in ins), r.node)
  {
    AcyclicMeaning(l, ins, kernels, feeds, r);
    assert DeadFeeds(feeds) == set n | n in ins;
    var s := AcyclicRests(l, ins, kernels, feeds);
  }
}
