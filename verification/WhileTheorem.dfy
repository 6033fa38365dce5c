/**
 The end-to-end statement about TF_FinishWhile: when the call succeeds, the parent graph runs
 the loop that the condition graph and the body graph describe.
 */
module WhileTheorem {
  import opened Dataflow
  import opened Acyclic
  import opened Splices
  import opened WhileLoops
  import opened LoopTheorems
  import opened GraphApi
  import opened LoopNames
  import opened WhileBuilder
  import opened FinishWhile

  // ----- the meaning of the source loop, by evaluating its two graphs

  function CondValue(src: Source, kernels: Kernels, vs: seq<Value>): Value
    requires |vs| == |src.condIn| && Distinct(src.condIn)
  {
    Eval(src.cond, kernels, FeedMap(src.condIn, Lives(vs)), src.condOut)
  }

  function BodyValue(src: Source, kernels: Kernels, vs: seq<Value>, j: nat): Value
    requires |vs| == |src.bodyIn| && Distinct(src.bodyIn) && j < |src.bodyOut|
  {
    Eval(src.body, kernels, FeedMap(src.bodyIn, Lives(vs)), src.bodyOut[j])
  }

  /** Running the source loop from `vals[0]`: the body is applied while the condition is true. */
  ghost predicate LoopTrace(src: Source, kernels: Kernels, vals: seq<seq<Value>>)
    requires src.Sized() && Distinct(src.condIn) && Distinct(src.bodyIn)
  {
    && |vals| > 0 && (forall k :: 0 <= k < |vals| ==> |vals[k]| == src.Count())
    && (forall k :: 0 <= k < |vals| ==> CondValue(src, kernels, vals[k]) == Bool(k < |vals| - 1))
    && (forall k, j :: 0 <= k < |vals| - 1 && 0 <= j < src.Count() ==>
          vals[k+1][j] == BodyValue(src, kernels, vals[k], j))
  }

  predicate AcyclicGraph(defs: seq<Def>, ins: seq<string>) {
    Distinct(ins) && Ordered(defs, ins) && forall n :: n in ins ==> n in ToGraph(defs)
  }

  /** Acyclic condition and body graphs over the loop's placeholders, with outputs that exist. */
  predicate AcyclicSource(src: Source) {
    && src.Sized() && AcyclicGraph(src.cond, src.condIn) && AcyclicGraph(src.body, src.bodyIn)
    && Read(ToGraph(src.cond), src.condIn, src.condOut) && src.condOut.slot != CONTROL_SLOT
    && (forall i :: 0 <= i < src.Count() ==>
          && Read(ToGraph(src.body), src.bodyIn, src.bodyOut[i])
          && src.bodyOut[i].slot != CONTROL_SLOT && src.inputs[i].slot != CONTROL_SLOT)
  }

  predicate OutputDepends(src: Source, j: nat)
    requires j < |src.bodyOut|
  {
    Depends(src.body, (set n | n in src.bodyIn), src.bodyOut[j].node)
  }

  // ----- acyclic graphs are usable

  lemma {:induction false} OrderedDistinct(l: seq<Def>, ins: seq<string>, i: nat, j: nat)
    requires Ordered(l, ins) && i < j < |l|
    ensures l[i].name != l[j].name
    decreases |l|
  {
    var k := |l| - 1;
    if j < k {
      OrderedDistinct(l[..k], ins, i, j);
    } else {
      ToGraphKeys(l[..k], l[i].name);
      assert l[..k][i].name == l[i].name;
    }
  }

  lemma {:induction false} OrderedReads(l: seq<Def>, ins: seq<string>, n: string, i: nat)
    requires Ordered(l, ins) && n in ToGraph(l) && i < |ToGraph(l)[n].inputs|
    ensures Read(ToGraph(l), ins, ToGraph(l)[n].inputs[i])
  {
    var k := |l| - 1;
    if l[k].name != n {
      OrderedReads(l[..k], ins, n, i);
    }
  }

  lemma AcyclicUsable(defs: seq<Def>, ins: seq<string>)
    requires AcyclicGraph(defs, ins)
    ensures Usable(defs, ins)
  {
    forall i, j | 0 <= i < j < |defs|
      ensures defs[i].name != defs[j].name
    {
      OrderedDistinct(defs, ins, i, j);
    }
    forall n | n in ins
      ensures ToGraph(defs)[n].op == Placeholder
    {
      OrderedOps(defs, ins, n);
    }
    forall n, i | n in ToGraph(defs) && 0 <= i < |ToGraph(defs)[n].inputs|
      ensures Read(ToGraph(defs), ins, ToGraph(defs)[n].inputs[i])
    {
      OrderedReads(defs, ins, n, i);
    }
  }

  lemma AcyclicGood(src: Source)
    requires AcyclicSource(src)
    ensures GoodSource(src)
  {
    hide Usable, Ordered;
    AcyclicUsable(src.cond, src.condIn);
    AcyclicUsable(src.body, src.bodyIn);
  }

  // ----- what the two graphs compute

  lemma LiveFeeds(names: seq<string>, vs: seq<Value>)
    requires |names| == |vs| && Distinct(names)
    ensures DeadFeeds(FeedMap(names, Lives(vs))) == {}
    ensures forall n :: n in FeedMap(names, Lives(vs)) <==> n in names
  {
    FeedsOk(names, Lives(vs));
  }

  lemma {:induction false} DependsOnNothing(l: seq<Def>, n: string)
    ensures !Depends(l, {}, n)
  {
    if l != [] {
      var k := |l| - 1;
      DependsOnNothing(l[..k], n);
      forall i | 0 <= i < |l[k].node.inputs|
        ensures !Depends(l[..k], {}, l[k].node.inputs[i].node)
      {
        DependsOnNothing(l[..k], l[k].node.inputs[i].node);
      }
    }
  }

  /** Fed with values, an acyclic graph denotes what evaluation gives. */
  lemma GraphDenotes(defs: seq<Def>, ins: seq<string>, kernels: Kernels, vs: seq<Value>, r: Ref<string>)
    requires AcyclicGraph(defs, ins) && |vs| == |ins| && Read(ToGraph(defs), ins, r)
    ensures Denotes(Machine(ToGraph(defs), kernels, FeedMap(ins, Lives(vs))), r,
                    Eval(defs, kernels, FeedMap(ins, Lives(vs)), r))
    ensures FrameSafe(Machine(ToGraph(defs), kernels, FeedMap(ins, Lives(vs))))
  {
    hide Denotes, NeverLive, Ordered, FrameSafe;
    var feeds := FeedMap(ins, Lives(vs));
    LiveFeeds(ins, vs);
    AcyclicMeaning(defs, ins, kernels, feeds, r);
    DependsOnNothing(defs, r.node);
    AcyclicFrameSafe(defs, ins, kernels, feeds);
  }

  lemma AcyclicIterates(src: Source, kernels: Kernels, vals: seq<seq<Value>>)
    requires AcyclicSource(src) && LoopTrace(src, kernels, vals) && WellBuilt(LoopOf(src))
    ensures Iterates(LoopOf(src), kernels, vals)
  {
    hide Denotes, FrameSafe, Ordered, WellBuilt, RoleMap, FeedMap, Eval;
    forall k | 0 <= k < |vals|
      ensures FrameSafe(CondMachine(LoopOf(src), kernels, vals[k]))
      ensures Denotes(CondMachine(LoopOf(src), kernels, vals[k]), src.condOut, Bool(k < |vals| - 1))
    {
      GraphDenotes(src.cond, src.condIn, kernels, vals[k], src.condOut);
    }
    forall k, j | 0 <= k < |vals| - 1 && 0 <= j < src.Count()
      ensures Denotes(BodyMachine(LoopOf(src), kernels, Lives(vals[k])), src.bodyOut[j], vals[k+1][j])
    {
      assert vals[k+1][j] == BodyValue(src, kernels, vals[k], j);
      GraphDenotes(src.body, src.bodyIn, kernels, vals[k], src.bodyOut[j]);
    }
    forall k | 0 <= k < |vals| - 1
      ensures FrameSafe(BodyMachine(LoopOf(src), kernels, Lives(vals[k])))
    {
      GraphDenotes(src.body, src.bodyIn, kernels, vals[k], src.bodyOut[0]);
    }
  }

  /** What an acyclic body puts out when it is not entered. */
  function LeftBehind(src: Source, kernels: Kernels): seq<Token>
    requires src.Sized() && Distinct(src.bodyIn)
  {
    seq(src.Count(), j requires 0 <= j < src.Count() =>
      if OutputDepends(src, j) then Dead
      else Live(Eval(src.body, kernels, FeedMap(src.bodyIn, Deads(src.Count())), src.bodyOut[j])))
  }

  lemma AcyclicLeaves(src: Source, kernels: Kernels)
    requires AcyclicSource(src) && WellBuilt(LoopOf(src))
    ensures LeavesBehind(LoopOf(src), kernels, LeftBehind(src, kernels))
  {
    hide Denotes, NeverLive, FrameSafe, Ordered, WellBuilt, RoleMap;
    var feeds := FeedMap(src.bodyIn, Deads(src.Count()));
    FeedsOk(src.bodyIn, Deads(src.Count()));
    AcyclicFrameSafe(src.body, src.bodyIn, kernels, feeds);
    assert DeadFeeds(feeds) == set n | n in src.bodyIn by { AllDead(src.bodyIn); }
    forall j | 0 <= j < src.Count()
      ensures Means(src.body, kernels, feeds, src.bodyOut[j], Machine(ToGraph(src.body), kernels, feeds))
    {
      AcyclicMeaning(src.body, src.bodyIn, kernels, feeds, src.bodyOut[j]);
    }
  }

  lemma AllDead(names: seq<string>)
    requires Distinct(names)
    ensures DeadFeeds(FeedMap(names, Deads(|names|))) == set n | n in names
  {
    FeedsOk(names, Deads(|names|));
  }

  // ----- the theorems

  /** A parent graph in the state kept by the C API, and the machine that runs it. */
  ghost predicate Parent(nodes: seq<Slot>, names: map<string, nat>, src: Source, p: Machine<string>) {
    && Indexed(nodes, names) && p.graph == ToGraph(Ops(nodes)) && Closed(p.graph)
    && p.feeds.Keys <= p.graph.Keys
    && forall i :: 0 <= i < src.Count() ==> src.inputs[i].node in p.graph
  }

  /** The machine after a successful TF_FinishWhile. */
  ghost function WithLoop(p: Machine<string>, src: Source): Machine<string>
    requires src.Sized()
  {
    Machine(p.graph + ToGraph(LoopDefs(src)), p.kernels, p.feeds)
  }

  lemma ParentLowered(nodes: seq<Slot>, names: map<string, nat>, src: Source, reg: Registry, p: Machine<string>)
    requires GoodSource(src) && Parent(nodes, names, src, p) && Buildable(names, src, reg)
    ensures Lowered(LoopOf(src), p, WithLoop(p, src))
    ensures WithLoop(p, src).graph == ToGraph(Ops(nodes) + LoopDefs(src))
  {
    hide Buildable, GoodSource, Usable, LoopDefs, Lowered, Indexed;
    GoodIsSized(src);
    BuildableApart(nodes, names, src, reg);
    ToGraphAppend(Ops(nodes), LoopDefs(src));
    LoopLowered(src, p, WithLoop(p, src));
  }

  lemma GoodIsSized(src: Source)
    requires GoodSource(src)
    ensures src.Sized()
  {
  }

  /** The loop gets built, and the source loop stops on what the loop inputs denote. */
  ghost predicate Started(nodes: seq<Slot>, names: map<string, nat>, src: Source, reg: Registry,
                          p: Machine<string>, vals: seq<seq<Value>>) {
    && AcyclicSource(src) && Parent(nodes, names, src, p) && Buildable(names, src, reg)
    && LoopTrace(src, p.kernels, vals)
    && forall j :: 0 <= j < src.Count() ==> Denotes(p, src.inputs[j], vals[0][j])
  }

  /** All conditions under which the built loop runs as the source loop does. */
  ghost predicate Stops(nodes: seq<Slot>, names: map<string, nat>, src: Source, reg: Registry,
                        p: Machine<string>, vals: seq<seq<Value>>) {
    Started(nodes, names, src, reg, p, vals) && forall j :: 0 <= j < src.Count() ==> OutputDepends(src, j)
  }

  /** The built loop, placed in its graph. */
  ghost function Built(src: Source, p: Machine<string>, vals: seq<seq<Value>>): Instance<string>
    requires src.Sized() && Distinct(src.bodyIn)
  {
    Instance(LoopOf(src), p, WithLoop(p, src), vals, LeftBehind(src, p.kernels))
  }

  /** The nodes that a successful call adds are a loop with the iteration values of the source loop. */
  lemma BuiltValid(nodes: seq<Slot>, names: map<string, nat>, src: Source, reg: Registry,
                   p: Machine<string>, vals: seq<seq<Value>>)
    requires Started(nodes, names, src, reg, p, vals)
    ensures src.Sized() && Distinct(src.bodyIn) && Built(src, p, vals).Valid()
    ensures |LoopOf(src).inputs| == src.Count() && LoopOf(src).frame == src.name
    ensures forall i :: 0 <= i < src.Count() ==>
              && LoopOf(src).exit[i] == Name(src.name, ExitF, Decimal(i))
              && LoopOf(src).merge[i] == Name(src.name, MergeF, Decimal(i))
  {
    hide Buildable, Usable, LoopDefs, Indexed, Denotes, RoleMap, Ordered, LeavesBehind, Iterates, SplicedOn;
    AcyclicGood(src);
    ParentLowered(nodes, names, src, reg, p);
    LoopWellBuilt(src);
    AcyclicIterates(src, p.kernels, vals);
    AcyclicLeaves(src, p.kernels);
    SourceSized(src);
    LoweredInputs(LoopOf(src), p, WithLoop(p, src), vals[0]);
  }

  lemma LoweredInputs(lp: Loop<string>, p: Machine<string>, big: Machine<string>, vs: seq<Value>)
    requires Lowered(lp, p, big) && |vs| == |lp.inputs| && InputsDenote(lp, p, vs)
    ensures forall i :: 0 <= i < |lp.inputs| ==> Denotes(big, lp.inputs[i], vs[i])
  {
    hide Denotes, WellBuilt;
    forall i | 0 <= i < |lp.inputs|
      ensures Denotes(big, lp.inputs[i], vs[i])
    {
      DenotesExtends(big, p, lp.inputs[i], vs[i]);
    }
  }

  lemma BuiltLoopRuns(nodes: seq<Slot>, names: map<string, nat>, src: Source, reg: Registry,
                      p: Machine<string>, vals: seq<seq<Value>>)
    requires Stops(nodes, names, src, reg, p, vals)
    ensures src.Sized() && Distinct(src.bodyIn) && Runs(LoopOf(src), p, WithLoop(p, src), vals)
    ensures Built(src, p, vals).Valid() && Built(src, p, vals).stop == Deads(src.Count())
    ensures |LoopOf(src).inputs| == src.Count() && LoopOf(src).frame == src.name
    ensures forall i :: 0 <= i < src.Count() ==>
              && LoopOf(src).exit[i] == Name(src.name, ExitF, Decimal(i))
              && LoopOf(src).merge[i] == Name(src.name, MergeF, Decimal(i))
  {
    hide Buildable, Usable, LoopDefs, Indexed, Denotes, RoleMap, Ordered, LeavesBehind, Iterates, Lowered, WellBuilt,
         SplicedOn, Eval, Depends;
    BuiltValid(nodes, names, src, reg, p, vals);
    assert LeftBehind(src, p.kernels) == Deads(src.Count());
    BuiltInputs(src);
    hide LoopOf, LeftBehind, OutputDepends, LoopTrace, AcyclicSource;
    assert InputsDenote(LoopOf(src), p, vals[0]);
  }

  lemma BuiltInputs(src: Source)
    requires src.Sized()
    ensures LoopOf(src).inputs == src.inputs
  {
  }

  /**
   While lowering preserves meaning.  If TF_FinishWhile succeeds on acyclic condition and body
   graphs whose outputs all depend on the body's inputs, and the source loop stops, then under
   every schedule of the resulting graph the loop outputs are the values of the source loop:
   nothing else can appear there, and they are there when the graph has come to rest.
   */
  lemma WhileComputes(nodes: seq<Slot>, names: map<string, nat>, src: Source, reg: Registry,
                      p: Machine<string>, vals: seq<seq<Value>>, i: nat)
    requires Stops(nodes, names, src, reg, p, vals) && i < src.Count()
    ensures Denotes(WithLoop(p, src), Ref(Name(src.name, ExitF, Decimal(i)), 0), vals[|vals|-1][i])
  {
    hide Buildable, LoopDefs, Indexed, Denotes, RoleMap, Ordered, Lowered, Iterates, StopsDead, LoopTrace, Eval, LoopOf,
         Usable, AcyclicSource, WithLoop;
    BuiltLoopRuns(nodes, names, src, reg, p, vals);
    LoopComputes(LoopOf(src), p, WithLoop(p, src), vals, i);
  }

  /**
   The loop variables, iteration by iteration: Merge `i` carries in iteration `k` the value of the
   variable after `k` rounds of the source loop and nothing else, and at rest all iterations took place.
   */
  lemma WhileIterates(nodes: seq<Slot>, names: map<string, nat>, src: Source, reg: Registry,
                      p: Machine<string>, vals: seq<seq<Value>>, s: State<string>, i: nat)
    requires Stops(nodes, names, src, reg, p, vals) && i < src.Count() && Reachable(WithLoop(p, src), s)
    ensures forall x, t :: Delivered(WithLoop(p, src), s, Ref(Name(src.name, MergeF, Decimal(i)), 0), x, t) ==>
              x.Frame? && x.parent == Root && x.frame == src.name && x.iter < |vals| && t == Live(vals[x.iter][i])
    ensures Quiescent(WithLoop(p, src), s) ==>
              forall k :: 0 <= k < |vals| ==>
                Delivered(WithLoop(p, src), s, Ref(Name(src.name, MergeF, Decimal(i)), 0), Frame(Root, src.name, k),
                          Live(vals[k][i]))
  {
    hide Buildable, LoopDefs, Indexed, Denotes, RoleMap, Ordered, Lowered, Iterates, StopsDead, LoopTrace, Eval,
         Reachable, Quiescent, Delivered, LoopOf, Usable, AcyclicSource, WithLoop;
    BuiltLoopRuns(nodes, names, src, reg, p, vals);
    MergeCarries(LoopOf(src), p, WithLoop(p, src), vals, s, i);
  }

  /**
   Substitution for the copied condition: under every schedule each of its outputs carries, in
   iteration `k`, the value of the source output evaluated on the loop variables of that iteration.
   */
  lemma WhileCondOutputs(nodes: seq<Slot>, names: map<string, nat>, src: Source, reg: Registry,
                         p: Machine<string>, vals: seq<seq<Value>>, s: State<string>, r: Ref<string>)
    requires Stops(nodes, names, src, reg, p, vals) && Reachable(WithLoop(p, src), s)
    requires Read(ToGraph(src.cond), src.condIn, r)
    ensures forall x, t :: Delivered(WithLoop(p, src), s, Remap(src.CondSplice(), r), x, t) ==>
              && x.Frame? && x.parent == Root && x.frame == src.name && x.iter < |vals|
              && t == Live(Eval(src.cond, p.kernels, FeedMap(src.condIn, Lives(vals[x.iter])), r))
    ensures Quiescent(WithLoop(p, src), s) ==> forall k :: 0 <= k < |vals| ==>
              Delivered(WithLoop(p, src), s, Remap(src.CondSplice(), r), Frame(Root, src.name, k),
                        Live(Eval(src.cond, p.kernels, FeedMap(src.condIn, Lives(vals[k])), r)))
  {
    hide Buildable, LoopDefs, Indexed, Denotes, RoleMap, Ordered, Instance.Valid, Runs, Eval, Reachable, Quiescent,
         Delivered, LoopOf, WithLoop, FeedMap, LoopTrace, AcyclicSource, Parent, Lives, Remap, SpliceOf, OutputDepends;
    BuiltLoopRuns(nodes, names, src, reg, p, vals);
    TraceSizes(src, p.kernels, vals);
    SplicesOf(src);
    ReadIsReadable(src, r);
    SameKernels(p, src);
    var it := Built(src, p, vals);
    var vs := seq(|vals|, k requires 0 <= k < |vals| =>
      Eval(src.cond, p.kernels, FeedMap(src.condIn, Lives(vals[k])), r));
    forall k | 0 <= k < |vals|
      ensures Denotes(CondMachine(LoopOf(src), p.kernels, vals[k]), r, vs[k])
    {
      CondGraphDenotes(src, p.kernels, vals[k], r);
    }
    CondOutput(it, s, r, vs);
  }

  lemma SameKernels(p: Machine<string>, src: Source)
    requires src.Sized()
    ensures WithLoop(p, src).kernels == p.kernels
  {
  }

  lemma TraceSizes(src: Source, kernels: Kernels, vals: seq<seq<Value>>)
    requires AcyclicSource(src) && LoopTrace(src, kernels, vals)
    ensures src.Sized() && Distinct(src.condIn) && Distinct(src.bodyIn) && |vals| > 0
    ensures forall k :: 0 <= k < |vals| ==> |vals[k]| == src.Count() && |Lives(vals[k])| == src.Count()
  {
  }

  lemma ReadIsReadable(src: Source, r: Ref<string>)
    requires AcyclicSource(src)
    ensures Read(ToGraph(src.cond), src.condIn, r) ==> Readable(LoopOf(src).cond, r)
    ensures Read(ToGraph(src.body), src.bodyIn, r) ==> Readable(LoopOf(src).body, r)
  {
    AcyclicGood(src);
    LoopWellBuilt(src);
    hide Ordered, RoleMap;
  }

  lemma CondGraphDenotes(src: Source, kernels: Kernels, vs: seq<Value>, r: Ref<string>)
    requires AcyclicSource(src) && |vs| == src.Count() && Read(ToGraph(src.cond), src.condIn, r)
    ensures Shaped(LoopOf(src)) && |vs| == |LoopOf(src).condIn| && Distinct(LoopOf(src).condIn)
    ensures Denotes(CondMachine(LoopOf(src), kernels, vs), r, Eval(src.cond, kernels, FeedMap(src.condIn, Lives(vs)), r))
  {
    hide Denotes, Ordered, Eval, FeedMap, RoleMap;
    GraphDenotes(src.cond, src.condIn, kernels, vs, r);
  }

  /** What an output of the body carries in iteration `k`; its inputs are dead in the last one. */
  function BodyToken(src: Source, kernels: Kernels, vals: seq<seq<Value>>, r: Ref<string>, k: nat): Token
    requires src.Sized() && Distinct(src.bodyIn) && k < |vals| && forall i :: 0 <= i < |vals| ==> |vals[i]| == src.Count()
  {
    if k < |vals| - 1 then Live(Eval(src.body, kernels, FeedMap(src.bodyIn, Lives(vals[k])), r))
    else if Depends(src.body, (set n | n in src.bodyIn), r.node) then Dead
    else Live(Eval(src.body, kernels, FeedMap(src.bodyIn, Deads(src.Count())), r))
  }

  /** Substitution for the copied body. */
  lemma WhileBodyOutputs(nodes: seq<Slot>, names: map<string, nat>, src: Source, reg: Registry,
                         p: Machine<string>, vals: seq<seq<Value>>, s: State<string>, r: Ref<string>)
    requires Stops(nodes, names, src, reg, p, vals) && Reachable(WithLoop(p, src), s)
    requires Read(ToGraph(src.body), src.bodyIn, r)
    ensures forall x, t :: Delivered(WithLoop(p, src), s, Remap(src.BodySplice(), r), x, t) ==>
              && x.Frame? && Outer(x).frame == src.name && Outer(x).iter < |vals|
              && t == BodyToken(src, p.kernels, vals, r, Outer(x).iter) && (t.Live? ==> x == Outer(x))
    ensures Quiescent(WithLoop(p, src), s) ==> forall k :: 0 <= k < |vals| && BodyToken(src, p.kernels, vals, r, k).Live? ==>
              Delivered(WithLoop(p, src), s, Remap(src.BodySplice(), r), Frame(Root, src.name, k),
                        BodyToken(src, p.kernels, vals, r, k))
  {
    hide Buildable, LoopDefs, Indexed, Denotes, RoleMap, Ordered, Instance.Valid, Runs, Eval, Reachable, Quiescent,
         Delivered, LoopOf, WithLoop, FeedMap, LoopTrace, AcyclicSource, Parent, Lives, Remap, SpliceOf, OutputDepends,
         BodyToken, NeverLive, Deads;
    BuiltLoopRuns(nodes, names, src, reg, p, vals);
    TraceSizes(src, p.kernels, vals);
    SplicesOf(src);
    ReadIsReadable(src, r);
    SameKernels(p, src);
    var it := Built(src, p, vals);
    var ts := seq(|vals|, k requires 0 <= k < |vals| => BodyToken(src, p.kernels, vals, r, k));
    forall k | 0 <= k < |vals|
      ensures var m := BodyMachine(LoopOf(src), p.kernels, it.BodyTokens(k));
              if ts[k].Live? then Denotes(m, r, ts[k].v) else NeverLive(m, r)
    {
      BodyTokenMeans(src, p.kernels, vals, r, k);
    }
    BodyOutput(it, s, r, ts);
  }

  lemma BodyTokenMeans(src: Source, kernels: Kernels, vals: seq<seq<Value>>, r: Ref<string>, k: nat)
    requires AcyclicSource(src) && LoopTrace(src, kernels, vals) && k < |vals| && Read(ToGraph(src.body), src.bodyIn, r)
    ensures Shaped(LoopOf(src)) && |LoopOf(src).bodyIn| == src.Count() && Distinct(LoopOf(src).bodyIn)
    ensures |Lives(vals[k])| == |Deads(src.Count())| == src.Count()
    ensures var ts := if k < |vals| - 1 then Lives(vals[k]) else Deads(src.Count());
            var t, m := BodyToken(src, kernels, vals, r, k), BodyMachine(LoopOf(src), kernels, ts);
            if t.Live? then Denotes(m, r, t.v) else NeverLive(m, r)
  {
    hide Denotes, NeverLive, Ordered, RoleMap;
    if k < |vals| - 1 {
      GraphDenotes(src.body, src.bodyIn, kernels, vals[k], r);
    } else {
      FeedsOk(src.bodyIn, Deads(src.Count()));
      AllDead(src.bodyIn);
      AcyclicMeaning(src.body, src.bodyIn, kernels, FeedMap(src.bodyIn, Deads(src.Count())), r);
    }
  }

  lemma SplicesOf(src: Source)
    requires src.Sized()
    ensures LoopOf(src).cond == src.CondSplice() && LoopOf(src).body == src.BodySplice()
    ensures LoopOf(src).cond.src == ToGraph(src.cond) && LoopOf(src).body.src == ToGraph(src.body)
    ensures LoopOf(src).condIn == src.condIn && LoopOf(src).bodyIn == src.bodyIn && LoopOf(src).inputs == src.inputs
    ensures LoopOf(src).condOut == src.condOut && LoopOf(src).bodyOut == src.bodyOut
  {
  }

  /**
   Every back edge resolves: the second input of Merge `i`, given by name before its target
   exists, names the NextIteration node of the same index, and a closed graph stays closed.
   */
  lemma BackEdgesResolve(nodes: seq<Slot>, names: map<string, nat>, src: Source, reg: Registry,
                         p: Machine<string>, i: nat)
    requires GoodSource(src) && Parent(nodes, names, src, p) && Buildable(names, src, reg) && i < src.Count()
    ensures var g := WithLoop(p, src).graph;
            var merge, next := Name(src.name, MergeF, Decimal(i)), Name(src.name, NextF, Decimal(i));
            && merge in g && |g[merge].inputs| == 2 && g[merge].inputs[1] == Ref(next, 0)
            && next in g && g[next].op == NextIteration && next !in p.graph
    ensures Closed(WithLoop(p, src).graph)
  {
    hide Buildable, Usable, LoopDefs, Indexed, WellBuilt, RoleMap, Name;
    ParentLowered(nodes, names, src, reg, p);
    SourceSized(src);
    var lp, big := LoopOf(src), WithLoop(p, src);
    RoleFacts(src, p, big, IsMerge(i));
    RoleFacts(src, p, big, IsNext(i));
    LoopCloses(lp, p, big);
  }

  lemma RoleFacts(src: Source, p: Machine<string>, big: Machine<string>, role: Role<string>)
    requires src.Sized() && Lowered(LoopOf(src), p, big) && RoleIn(src, role)
    ensures RoleOk(LoopOf(src), role) && RoleName(src, role) in big.graph && RoleName(src, role) !in p.graph
    ensures big.graph[RoleName(src, role)] == NodeOf(LoopOf(src), role)
  {
    hide RoleMap, SpliceOf;
    RoleAgrees(src, role);
  }

  lemma LoopCloses(lp: Loop<string>, p: Machine<string>, big: Machine<string>)
    requires Lowered(lp, p, big)
    ensures Closed(big.graph)
  {
    forall n, j | n in big.graph && 0 <= j < |big.graph[n].inputs|
      ensures big.graph[n].inputs[j].node in big.graph
    {
      if n in lp.roles {
        LoopReads(lp, lp.roles[n], j);
      } else {
        assert p.graph[n].inputs[j].node in p.graph;
      }
    }
  }
}
