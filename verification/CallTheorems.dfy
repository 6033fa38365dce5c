/**
 What CopyGraph and TF_FinishWhile leave in the parent graph, from the call to the values: a copied
 graph computes what its source computes on the outputs that replace its inputs, and a finished loop
 computes what the source loop computes.
 */
module CallTheorems {
  import opened Dataflow
  import opened Acyclic
  import opened Hosted
  import opened Splices
  import opened WhileLoops
  import opened GraphApi
  import opened LoopNames
  import opened WhileBuilder
  import opened FinishWhile
  import opened WhileTheorem

  /** The outputs that replace the inputs of the copied graph, and what they denote. */
  ghost predicate Replaced(p: Machine<string>, ins: seq<string>, dst: seq<Ref<string>>, vs: seq<Value>) {
    && |ins| == |dst| == |vs| && |ins| > 0
    && forall i :: 0 <= i < |dst| ==> dst[i].node in p.graph && dst[i].slot != CONTROL_SLOT && Denotes(p, dst[i], vs[i])
  }

  /** The parent graph with the copies. */
  ghost function WithCopy(p: Machine<string>, loop: string, f: Family, sp: Splice<string>, defs: seq<Def>): Machine<string> {
    Machine(p.graph + ToGraph(CopyDefs(loop, f, sp, defs)), p.kernels, p.feeds)
  }

  ghost predicate CopyReady(nodes: seq<Slot>, names: map<string, nat>, p: Machine<string>, loop: string, f: Family,
                            defs: seq<Def>, ins: seq<string>) {
    && Indexed(nodes, names) && p.graph == ToGraph(Ops(nodes)) && Closed(p.graph) && p.feeds.Keys <= p.graph.Keys
    && AcyclicGraph(defs, ins) && PrefixFree(names, loop, f)
  }

  lemma CopyExtends(nodes: seq<Slot>, names: map<string, nat>, p: Machine<string>, loop: string, f: Family,
                    sp: Splice<string>, defs: seq<Def>, ins: seq<string>)
    requires CopyReady(nodes, names, p, loop, f, defs, ins)
    ensures Extends(WithCopy(p, loop, f, sp, defs), p) && DistinctDefs(defs)
    ensures WithCopy(p, loop, f, sp, defs).graph == ToGraph(Ops(nodes) + CopyDefs(loop, f, sp, defs))
  {
    var copies := CopyDefs(loop, f, sp, defs);
    AcyclicUsable(defs, ins);
    CopiesFresh(names, loop, f, sp, defs);
    ToGraphAppend(Ops(nodes), copies);
    hide CopyDefs, Ordered, Ops;
    forall n | n in p.graph
      ensures n !in ToGraph(copies)
    {
      OpsNamed(nodes, names, n);
      ToGraphKeys(copies, n);
    }
  }

  /** The copy of node `i` is in the graph. */
  lemma CopyAt(p: Machine<string>, loop: string, f: Family, sp: Splice<string>, defs: seq<Def>, i: nat)
    requires i < |defs| && DistinctDefs(defs)
    ensures var n, big := Name(loop, f, defs[i].name), WithCopy(p, loop, f, sp, defs);
            n in big.graph && big.graph[n] == CopyNode(sp, defs[i].node)
  {
    hide CopyNode, Name;
    var copies := CopyDefs(loop, f, sp, defs);
    forall j, k | 0 <= j < k < |copies|
      ensures copies[j].name != copies[k].name
    {
      NamesApart(loop, f, defs[j].name, f, defs[k].name);
    }
    DefAt(copies, i);
  }

  lemma {:induction false} DefAt(l: seq<Def>, i: nat)
    requires i < |l| && DistinctDefs(l)
    ensures l[i].name in ToGraph(l) && ToGraph(l)[l[i].name] == l[i].node
  {
    if i < |l| - 1 {
      DefAt(l[..|l|-1], i);
    }
  }

  /** Where the inputs of the copied graph are read in the parent. */
  function Targets(ins: seq<string>, dst: seq<Ref<string>>): map<string, Ref<string>>
    requires |ins| == |dst| && Distinct(ins)
  {
    map i | 0 <= i < |ins| :: ins[i] := dst[i]
  }

  /** Redirected reads of the copy are those of a hosted graph. */
  lemma RemapIsHost(loop: string, f: Family, defs: seq<Def>, ins: seq<string>, dst: seq<Ref<string>>, r: Ref<string>)
    requires |ins| == |dst| > 0 && AcyclicGraph(defs, ins) && Read(ToGraph(defs), ins, r)
    ensures var sp := SpliceOf(loop, f, defs, ins, dst); Remap(sp, r) == Host(sp.rename, Targets(ins, dst), r)
  {
    hide Ordered, Name, ToGraph;
    InputMapAt(ins, dst);
    if r.node in ins {
      var i :| 0 <= i < |ins| && ins[i] == r.node;
      assert Targets(ins, dst)[ins[i]] == dst[i];
      assert r == Ref(ins[i], 0);
    }
  }

  /** Every copied kernel stands in the parent with its reads redirected. */
  lemma CopyHosted(p: Machine<string>, loop: string, f: Family, defs: seq<Def>, ins: seq<string>, dst: seq<Ref<string>>, i: nat)
    requires |ins| == |dst| > 0 && AcyclicGraph(defs, ins) && DistinctDefs(defs) && i < |defs| && defs[i].node.op.Kernel?
    requires var sp := SpliceOf(loop, f, defs, ins, dst);
             Denotes(WithCopy(p, loop, f, sp, defs), Ref(sp.pivot, CONTROL_SLOT), Tensor([]))
    ensures var sp := SpliceOf(loop, f, defs, ins, dst);
            KernelHosted(WithCopy(p, loop, f, sp, defs), defs[i], sp.rename, Targets(ins, dst), Ref(sp.pivot, CONTROL_SLOT))
  {
    hide Ordered, Name, Denotes, CopyDefs, WithCopy;
    var sp, d := SpliceOf(loop, f, defs, ins, dst), defs[i];
    var big, t := WithCopy(p, loop, f, sp, defs), Targets(ins, dst);
    CopyAt(p, loop, f, sp, defs, i);
    DefAt(defs, i);
    OrderedOps(defs, ins, d.name);
    assert sp.rename[d.name] == Name(loop, f, d.name);
    forall j | 0 <= j < |d.node.inputs|
      ensures RemapAll(sp, d.node.inputs)[j] == HostAll(sp.rename, t, d.node.inputs)[j]
    {
      OrderedReads(defs, ins, d.name, j);
      RemapIsHost(loop, f, defs, ins, dst, d.node.inputs[j]);
    }
    assert RemapAll(sp, d.node.inputs) == HostAll(sp.rename, t, d.node.inputs);
  }

  /** The parent hosts the copied graph, with its inputs fed by the replacements. */
  lemma CopyHosts(p: Machine<string>, loop: string, f: Family, defs: seq<Def>, ins: seq<string>, dst: seq<Ref<string>>, vs: seq<Value>)
    requires Replaced(p, ins, dst, vs) && AcyclicGraph(defs, ins) && DistinctDefs(defs)
    requires Extends(WithCopy(p, loop, f, SpliceOf(loop, f, defs, ins, dst), defs), p)
    ensures var sp := SpliceOf(loop, f, defs, ins, dst);
            Hosts(WithCopy(p, loop, f, sp, defs), defs, ins, FeedMap(ins, Lives(vs)), sp.rename, Targets(ins, dst),
                  Ref(sp.pivot, CONTROL_SLOT))
  {
    hide Ordered, Name, Denotes, CopyDefs, WithCopy, KernelHosted, ToGraph, Extends;
    var sp, feeds, t := SpliceOf(loop, f, defs, ins, dst), FeedMap(ins, Lives(vs)), Targets(ins, dst);
    var big, ctl := WithCopy(p, loop, f, sp, defs), Ref(sp.pivot, CONTROL_SLOT);
    FeedsOk(ins, Lives(vs));
    forall i | 0 <= i < |ins|
      ensures Denotes(big, dst[i], vs[i]) && t[ins[i]] == dst[i]
    {
      DenotesExtends(big, p, dst[i], vs[i]);
    }
    ControlDenotes(big, dst[0], vs[0]);
    forall i | 0 <= i < |defs| && defs[i].node.op.Kernel?
      ensures KernelHosted(big, defs[i], sp.rename, t, ctl)
    {
      CopyHosted(p, loop, f, defs, ins, dst, i);
    }
    forall n | n in ins
      ensures InputHosted(big, t, feeds, n)
    {
      var i :| 0 <= i < |ins| && ins[i] == n;
      assert feeds[ins[i]] == Lives(vs)[i];
    }
  }

  /**
   Substitution for CopyGraph: any output of the copy, one that is itself a replaced input included,
   denotes what the source output evaluates to with each input bound to the value of its replacement,
   whatever nodes the replacements belong to.
   */
  lemma CopyComputes(nodes: seq<Slot>, names: map<string, nat>, p: Machine<string>, loop: string, f: Family,
                     defs: seq<Def>, ins: seq<string>, dst: seq<Ref<string>>, vs: seq<Value>, r: Ref<string>)
    requires CopyReady(nodes, names, p, loop, f, defs, ins) && Replaced(p, ins, dst, vs) && Read(ToGraph(defs), ins, r)
    ensures var sp := SpliceOf(loop, f, defs, ins, dst);
            Denotes(WithCopy(p, loop, f, sp, defs), Remap(sp, r), Eval(defs, p.kernels, FeedMap(ins, Lives(vs)), r))
  {
    hide Ordered, Name, Denotes, CopyDefs, WithCopy, Indexed, Eval, ToGraph, PrefixFree, Hosts;
    var sp, feeds := SpliceOf(loop, f, defs, ins, dst), FeedMap(ins, Lives(vs));
    CopyExtends(nodes, names, p, loop, f, sp, defs, ins);
    SameCopyKernels(p, loop, f, sp, defs);
    CopyHosts(p, loop, f, defs, ins, dst, vs);
    LiveFeeds(ins, vs);
    HostedMeaning(WithCopy(p, loop, f, sp, defs), defs, ins, feeds, sp.rename, Targets(ins, dst),
                  Ref(sp.pivot, CONTROL_SLOT), r);
    DependsOnNothing(defs, r.node);
    RemapIsHost(loop, f, defs, ins, dst, r);
  }

  lemma SameCopyKernels(p: Machine<string>, loop: string, f: Family, sp: Splice<string>, defs: seq<Def>)
    ensures WithCopy(p, loop, f, sp, defs).kernels == p.kernels
  {
  }

  // ----- from the calls to the values

  /** The machine that runs a graph of the C API. */
  ghost function MachineOf(nodes: seq<Slot>, kernels: Kernels, feeds: map<string, Token>): Machine<string> {
    Machine(ToGraph(Ops(nodes)), kernels, feeds)
  }

  /** CopyGraph on an acyclic graph: the returned outputs denote what the source outputs evaluate to. */
  method CopyGraphComputes(g: TFGraph, loop: string, f: Family, defs: seq<Def>, ins: seq<string>, dst: seq<Ref<string>>,
                           rets: seq<Ref<string>>, reg: Registry, ghost kernels: Kernels, ghost feeds: map<string, Token>,
                           ghost vs: seq<Value>)
    returns (status: Status, outs: seq<Ref<string>>)
    requires g.Valid() && |ins| == |dst| > 0 && AcyclicGraph(defs, ins)
    requires forall i :: 0 <= i < |rets| ==> Read(ToGraph(defs), ins, rets[i])
    modifies g
    ensures g.Valid()
    ensures status.Ok? && Closed(ToGraph(Ops(old(g.nodes)))) && feeds.Keys <= ToGraph(Ops(old(g.nodes))).Keys
            && Replaced(MachineOf(old(g.nodes), kernels, feeds), ins, dst, vs) ==>
              && |outs| == |rets|
              && forall i :: 0 <= i < |rets| ==>
                   Denotes(MachineOf(g.nodes, kernels, feeds), outs[i], Eval(defs, kernels, FeedMap(ins, Lives(vs)), rets[i]))
  {
    hide Ordered, Name, Denotes, CopyDefs, Indexed, Sentinels, Eval, ToGraph, PrefixFree, SourceImports, TargetsExist, Ops, Slots,
         NameSet, Remap;
    var sp := SpliceOf(loop, f, defs, ins, dst);
    ghost var nodes, names, p := g.nodes, g.nameMap, MachineOf(g.nodes, kernels, feeds);
    status, outs := CopyGraph(g, loop, f, sp, defs, rets, reg);
    if status.Ok? {
      var copies := CopyDefs(loop, f, sp, defs);
      OpsAppend(nodes, Slots(copies));
      OpsOfSlots(copies);
      ghost var ready := Closed(p.graph) && feeds.Keys <= p.graph.Keys && Replaced(p, ins, dst, vs);
      if ready {
        CopyExtends(nodes, names, p, loop, f, sp, defs, ins);
        forall i | 0 <= i < |rets|
          ensures Denotes(WithCopy(p, loop, f, sp, defs), outs[i], Eval(defs, kernels, FeedMap(ins, Lives(vs)), rets[i]))
        {
          CopyComputes(nodes, names, p, loop, f, defs, ins, dst, vs, rets[i]);
        }
      }
    }
  }

  /** What the caller of TF_FinishWhile has to provide: everything but that the call succeeds. */
  ghost predicate Provided(nodes: seq<Slot>, names: map<string, nat>, src: Source, p: Machine<string>, vals: seq<seq<Value>>) {
    && AcyclicSource(src) && Parent(nodes, names, src, p) && LoopTrace(src, p.kernels, vals)
    && (forall j :: 0 <= j < src.Count() ==> Denotes(p, src.inputs[j], vals[0][j]))
    && forall j :: 0 <= j < src.Count() ==> OutputDepends(src, j)
  }

  /** TF_FinishWhile: if the call succeeds, the returned outputs denote the final values of the source loop. */
  method FinishWhileComputes(g: TFGraph, params: WhileParams, inputs: seq<Ref<string>>, reg: Registry,
                             ghost kernels: Kernels, ghost feeds: map<string, Token>, ghost vals: seq<seq<Value>>)
    returns (status: Status, outputs: seq<Ref<string>>)
    requires g.Valid() && |inputs| > 0 && |inputs| == |params.condIn| == |params.bodyIn| == |params.bodyOut|
    requires Distinct(params.condIn) && Distinct(params.bodyIn)
    modifies g
    ensures g.Valid()
    ensures status.Ok? ==> AllSet(params)
    ensures status.Ok? && Provided(old(g.nodes), old(g.nameMap), SourceOf(params, inputs),
                                   MachineOf(old(g.nodes), kernels, feeds), vals) ==>
              && |outputs| == |inputs|
              && forall i :: 0 <= i < |inputs| ==>
                   Denotes(MachineOf(g.nodes, kernels, feeds), outputs[i], vals[|vals|-1][i])
  {
    hide Indexed, Sentinels, LoopDefs, Buildable, Made, Creatable, Ops, ToGraph, Denotes, LoopTrace, Parent, OutputDepends;
    ghost var nodes, names, p := g.nodes, g.nameMap, MachineOf(g.nodes, kernels, feeds);
    status, outputs := FinishWhileLoop(g, params, inputs, reg);
    if status.Ok? {
      ghost var src := SourceOf(params, inputs);
      assert LoopDefs(src)[..|LoopDefs(src)|] == LoopDefs(src);
      ghost var ready := Provided(nodes, names, src, p, vals);
      if ready {
        BuiltGraph(nodes, names, src, reg, p);
        TraceSizes(src, kernels, vals);
        forall i | 0 <= i < |inputs|
          ensures Denotes(WithLoop(p, src), outputs[i], vals[|vals|-1][i])
        {
          WhileComputes(nodes, names, src, reg, p, vals, i);
        }
      }
    }
  }

  lemma BuiltGraph(nodes: seq<Slot>, names: map<string, nat>, src: Source, reg: Registry, p: Machine<string>)
    requires AcyclicSource(src) && Parent(nodes, names, src, p) && Buildable(names, src, reg)
    ensures WithLoop(p, src).graph == ToGraph(Ops(nodes) + LoopDefs(src))
    ensures WithLoop(p, src) == Machine(ToGraph(Ops(nodes) + LoopDefs(src)), p.kernels, p.feeds)
  {
    hide Lowered;
    AcyclicGood(src);
    ParentLowered(nodes, names, src, reg, p);
  }
}
