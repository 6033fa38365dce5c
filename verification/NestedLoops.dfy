/**
 Loops inside loops (c/c_api_test.cc, CApiWhileLoopTest.NestedLoop): the body graph of the outer
 loop is the parent graph of an inner one.  The inner loop counts, for the body, as a group of
 inputs that carry its final values; the finished graph computes what the two source loops compute.
 */
module NestedLoops {
  import opened Dataflow
  import opened Acyclic
  import opened Hosted
  import opened Splices
  import opened WhileLoops
  import opened LoopTheorems
  import opened Levels
  import opened GraphApi
  import opened LoopNames
  import opened WhileBuilder
  import opened FinishWhile
  import opened WhileTheorem
  import opened CallTheorems
  import opened Tainted

  /**
   The outer loop's body is `pre`, then the nodes of the finished inner loop, then `post`.  When the body is
   not entered, the `tainted` variables of the inner loop stay dead; others may start from constants.
   */
  datatype Nest = Nest(outer: Source, inner: Source, pre: seq<Def>, post: seq<Def>, tainted: set<nat>)
  {
    ghost function Dead(): set<Role<string>>
      requires inner.Sized()
    {
      DeadRoles(inner, tainted)
    }

    function Exits(): seq<string> { inner.Names(ExitF) }

    function ExitInputs(): seq<Def> {
      seq(|Exits()|, i requires 0 <= i < |Exits()| => NodeDef(Exits()[i], Node(Placeholder, [])))
    }

    /** The body with the inner loop replaced by its outputs as inputs. */
    function View(): seq<Def> { pre + ExitInputs() + post }

    function ViewIns(): seq<string> { outer.bodyIn + Exits() }

    /** The graphs are acyclic apart from the inner loop, and fit together. */
    predicate Fits() {
      && outer.Sized() && AcyclicGraph(outer.cond, outer.condIn)
      && Read(ToGraph(outer.cond), outer.condIn, outer.condOut) && outer.condOut.slot != CONTROL_SLOT
      && AcyclicSource(inner) && AcyclicGraph(pre, outer.bodyIn)
      && (forall i :: 0 <= i < inner.Count() ==> Read(ToGraph(pre), outer.bodyIn, inner.inputs[i]))
      && outer.body == pre + LoopDefs(inner) + post && DistinctDefs(outer.body)
      && AcyclicGraph(View(), ViewIns())
      && (forall j :: 0 <= j < outer.Count() ==>
            && Read(ToGraph(View()), ViewIns(), outer.bodyOut[j])
            && outer.bodyOut[j].slot != CONTROL_SLOT && outer.inputs[j].slot != CONTROL_SLOT)
    }
  }

  // ----- the body graph

  /** The body before, and with, the inner loop, and the whole body. */
  ghost function Before(t: Nest, kernels: Kernels, feeds: map<string, Token>): Machine<string> {
    Machine(ToGraph(t.pre), kernels, feeds)
  }

  ghost function Inside(t: Nest, kernels: Kernels, feeds: map<string, Token>): Machine<string>
    requires t.inner.Sized()
  {
    WithLoop(Before(t, kernels, feeds), t.inner)
  }

  ghost function Whole(t: Nest, kernels: Kernels, feeds: map<string, Token>): Machine<string> {
    Machine(ToGraph(t.outer.body), kernels, feeds)
  }

  lemma DistinctApart(a: seq<Def>, b: seq<Def>)
    requires DistinctDefs(a + b)
    ensures ToGraph(a).Keys !! ToGraph(b).Keys && DistinctDefs(a) && DistinctDefs(b)
  {
    var l := a + b;
    forall i, j | 0 <= i < j < |a|
      ensures a[i].name != a[j].name
    {
      assert l[i] == a[i] && l[j] == a[j];
    }
    forall i, j | 0 <= i < j < |b|
      ensures b[i].name != b[j].name
    {
      assert l[|a|+i] == b[i] && l[|a|+j] == b[j];
    }
    forall i, j | 0 <= i < |a| && 0 <= j < |b|
      ensures a[i].name != b[j].name
    {
      assert l[i] == a[i] && l[|a|+j] == b[j];
    }
    forall n | n in ToGraph(a)
      ensures n !in ToGraph(b)
    {
      ToGraphKeys(a, n);
      ToGraphKeys(b, n);
    }
  }

  /** The three parts of the body have different names and make up its graph. */
  lemma Parts(t: Nest)
    requires t.Fits()
    ensures ToGraph(t.pre).Keys !! ToGraph(LoopDefs(t.inner)).Keys
    ensures (ToGraph(t.pre) + ToGraph(LoopDefs(t.inner))).Keys !! ToGraph(t.post).Keys
    ensures ToGraph(t.outer.body) == ToGraph(t.pre) + ToGraph(LoopDefs(t.inner)) + ToGraph(t.post)
  {
    hide ToGraph, LoopDefs, Ordered, DistinctDefs;
    var pre, mid, post := t.pre, LoopDefs(t.inner), t.post;
    DistinctApart(pre + mid, post);
    DistinctApart(pre, mid);
    ToGraphAppend(pre, mid);
    ToGraphAppend(pre + mid, post);
  }

  lemma InnerLowered(t: Nest, kernels: Kernels, feeds: map<string, Token>)
    requires t.Fits() && feeds.Keys <= ToGraph(t.pre).Keys
    ensures GoodSource(t.inner) && Lowered(LoopOf(t.inner), Before(t, kernels, feeds), Inside(t, kernels, feeds))
    ensures Closed(Inside(t, kernels, feeds).graph)
  {
    hide LoopDefs, Ordered, Lowered, RoleMap, Usable;
    Parts(t);
    AcyclicGood(t.inner);
    OrderedClosed(t.pre, t.outer.bodyIn);
    LoopLowered(t.inner, Before(t, kernels, feeds), Inside(t, kernels, feeds));
    LoopCloses(LoopOf(t.inner), Before(t, kernels, feeds), Inside(t, kernels, feeds));
  }

  lemma WholeExtends(t: Nest, kernels: Kernels, feeds: map<string, Token>)
    requires t.Fits() && feeds.Keys <= ToGraph(t.pre).Keys
    ensures Extends(Whole(t, kernels, feeds), Inside(t, kernels, feeds))
  {
    hide LoopDefs, Ordered, Lowered, RoleMap, Usable, ToGraph;
    InnerLowered(t, kernels, feeds);
    Parts(t);
  }

  // ----- the view of the body

  lemma ViewGraph(t: Nest)
    requires t.Fits()
    ensures ToGraph(t.View()) == ToGraph(t.pre) + ToGraph(t.ExitInputs()) + ToGraph(t.post)
    ensures forall n :: n in ToGraph(t.ExitInputs()) <==> n in t.Exits()
  {
    hide ToGraph;
    ToGraphAppend(t.pre, t.ExitInputs());
    ToGraphAppend(t.pre + t.ExitInputs(), t.post);
    forall n
      ensures n in ToGraph(t.ExitInputs()) <==> n in t.Exits()
    {
      ToGraphKeys(t.ExitInputs(), n);
      if n in t.Exits() {
        var i :| 0 <= i < |t.Exits()| && t.Exits()[i] == n;
        assert t.ExitInputs()[i].name == n;
      }
    }
  }

  lemma ExitsInLoop(t: Nest, i: nat)
    requires t.Fits() && i < t.inner.Count()
    ensures t.Exits()[i] in ToGraph(LoopDefs(t.inner)) && LoopOf(t.inner).exit[i] == t.Exits()[i]
    ensures ToGraph(LoopDefs(t.inner))[t.Exits()[i]].op == Exit
  {
    hide Ordered, RoleMap, Name, LoopDefs, Lowered, ToGraph, Usable, CopyNode;
    var kernels: Kernels := (_, _, _) => Tensor([]);
    InnerLowered(t, kernels, map[]);
    SourceSized(t.inner);
    RoleFacts(t.inner, Before(t, kernels, map[]), Inside(t, kernels, map[]), IsExit(i));
  }

  /** The kernels of the view stand in the body. */
  lemma ViewKernel(t: Nest, n: string)
    requires t.Fits() && n in ToGraph(t.View()) && n !in t.ViewIns()
    ensures n in ToGraph(t.outer.body) && ToGraph(t.outer.body)[n] == ToGraph(t.View())[n] && ToGraph(t.View())[n].op.Kernel?
  {
    hide Ordered, ToGraph, LoopDefs;
    Parts(t);
    ViewGraph(t);
    OrderedOps(t.View(), t.ViewIns(), n);
  }

  /** All nodes of the view stand in the body. */
  lemma ViewInBody(t: Nest, n: string)
    requires t.Fits() && n in ToGraph(t.View())
    ensures n in ToGraph(t.outer.body)
  {
    hide Ordered, ToGraph, LoopDefs;
    Parts(t);
    ViewGraph(t);
    if n in t.Exits() {
      var i :| 0 <= i < |t.Exits()| && t.Exits()[i] == n;
      ExitsInLoop(t, i);
    }
  }

  /** An input of the view carries, in machine `m`, what `feeds` says. */
  ghost predicate Carries(m: Machine<string>, feeds: map<string, Token>, n: string) {
    n in feeds && if feeds[n].Live? then Denotes(m, Ref(n, 0), feeds[n].v) else NeverLive(m, Ref(n, 0))
  }

  function Same(g: Graph<string>): map<string, string> { map n | n in g :: n }

  function Heads(ins: seq<string>): map<string, Ref<string>> { map n | n in ins :: Ref(n, 0) }

  lemma ViewKernelHosted(t: Nest, m: Machine<string>, i: nat)
    requires t.Fits() && m.graph == ToGraph(t.outer.body) && i < |t.View()| && t.View()[i].node.op.Kernel?
    ensures KernelHosted(m, t.View()[i], Same(ToGraph(t.View())), Heads(t.ViewIns()), Ref("", 0))
  {
    hide Ordered, ToGraph, Nest.View, Nest.ViewIns, LoopDefs, Usable;
    var l, ins, d := t.View(), t.ViewIns(), t.View()[i];
    AcyclicUsable(l, ins);
    ViewDistinct(t);
    DefAt(l, i);
    OrderedOps(l, ins, d.name);
    ViewKernel(t, d.name);
    forall j | 0 <= j < |d.node.inputs|
      ensures Host(Same(ToGraph(l)), Heads(ins), d.node.inputs[j]) == d.node.inputs[j]
    {
      OrderedReads(l, ins, d.name, j);
    }
    assert HostAll(Same(ToGraph(l)), Heads(ins), d.node.inputs) == d.node.inputs;
  }

  lemma ViewDistinct(t: Nest)
    requires t.Fits()
    ensures DistinctDefs(t.View())
  {
    hide Ordered;
    AcyclicUsable(t.View(), t.ViewIns());
  }

  /** What the body puts out, given what its inputs and the inner loop put out. */
  lemma ViewMeaning(t: Nest, m: Machine<string>, feeds: map<string, Token>, r: Ref<string>)
    requires t.Fits() && m.graph == ToGraph(t.outer.body) && Read(ToGraph(t.View()), t.ViewIns(), r)
    requires (forall n :: n in feeds <==> n in t.ViewIns()) && forall n :: n in t.ViewIns() ==> Carries(m, feeds, n)
    ensures HostMeans(m, t.View(), feeds, r, r)
  {
    hide Ordered, ToGraph, Nest.View, Nest.ViewIns, KernelHosted, Denotes, NeverLive, Eval, LoopDefs;
    var l, ins := t.View(), t.ViewIns();
    var name, target := Same(ToGraph(l)), Heads(ins);
    forall i | 0 <= i < |l| && l[i].node.op.Kernel?
      ensures KernelHosted(m, l[i], name, target, Ref("", 0))
    {
      ViewKernelHosted(t, m, i);
    }
    assert Hosts(m, l, ins, feeds, name, target, Ref("", 0));
    HostedMeaning(m, l, ins, feeds, name, target, Ref("", 0), r);
    assert Host(name, target, r) == r;
  }

  // ----- the body entered

  /** The inner loop run from what `pre` computes on `vs`. */
  ghost predicate InnerTrace(t: Nest, kernels: Kernels, vs: seq<Value>, inner: seq<seq<Value>>)
    requires t.Fits() && |vs| == t.outer.Count()
  {
    && LoopTrace(t.inner, kernels, inner)
    && forall i :: 0 <= i < t.inner.Count() ==>
         inner[0][i] == Eval(t.pre, kernels, FeedMap(t.outer.bodyIn, Lives(vs)), t.inner.inputs[i])
  }

  /** What the inputs of the view carry when the body is entered with `vs` and the inner loop ends with `ends`. */
  function LiveView(t: Nest, vs: seq<Value>, ends: seq<Value>): map<string, Token>
    requires |vs| == |t.outer.bodyIn| && |ends| == t.inner.Count() && Distinct(t.ViewIns())
  {
    FeedMap(t.ViewIns(), Lives(vs + ends))
  }

  lemma InnerRuns(t: Nest, kernels: Kernels, vs: seq<Value>, inner: seq<seq<Value>>)
    requires t.Fits() && |vs| == t.outer.Count() && InnerTrace(t, kernels, vs, inner)
    requires forall j :: 0 <= j < t.inner.Count() ==> OutputDepends(t.inner, j)
    ensures var feeds := FeedMap(t.outer.bodyIn, Lives(vs));
            Runs(LoopOf(t.inner), Before(t, kernels, feeds), Inside(t, kernels, feeds), inner)
  {
    hide Ordered, Denotes, RoleMap, Lowered, Usable, LoopDefs, Eval, Iterates, LeavesBehind, SplicedOn;
    var feeds := FeedMap(t.outer.bodyIn, Lives(vs));
    FeedsOk(t.outer.bodyIn, Lives(vs));
    InnerLowered(t, kernels, feeds);
    LoopWellBuilt(t.inner);
    AcyclicIterates(t.inner, kernels, inner);
    AcyclicLeaves(t.inner, kernels);
    assert LeftBehind(t.inner, kernels) == Deads(t.inner.Count());
    SourceSized(t.inner);
    forall i | 0 <= i < t.inner.Count()
      ensures Denotes(Before(t, kernels, feeds), t.inner.inputs[i], inner[0][i])
    {
      GraphDenotes(t.pre, t.outer.bodyIn, kernels, vs, t.inner.inputs[i]);
    }
  }

  lemma ViewFeeds(t: Nest, ts: seq<Token>, es: seq<Token>)
    requires t.Fits() && |ts| == t.outer.Count() && |es| == t.inner.Count()
    ensures |t.ViewIns()| == |ts + es| && Distinct(t.ViewIns())
    ensures var feeds := FeedMap(t.ViewIns(), ts + es);
            && (forall n :: n in feeds <==> n in t.ViewIns())
            && (forall i :: 0 <= i < t.outer.Count() ==> feeds[t.outer.bodyIn[i]] == ts[i])
            && (forall i :: 0 <= i < t.inner.Count() ==> feeds[t.Exits()[i]] == es[i])
  {
    hide Ordered, ToGraph, LoopDefs, AcyclicSource;
    var ins := t.ViewIns();
    FeedsOk(ins, ts + es);
    forall i | 0 <= i < t.outer.Count()
      ensures FeedMap(ins, ts + es)[t.outer.bodyIn[i]] == ts[i]
    {
      assert ins[i] == t.outer.bodyIn[i];
    }
    forall i | 0 <= i < t.inner.Count()
      ensures FeedMap(ins, ts + es)[t.Exits()[i]] == es[i]
    {
      assert ins[t.outer.Count()+i] == t.Exits()[i];
    }
  }

  /** A body input is a placeholder of the whole body. */
  lemma BodyInputNode(t: Nest, n: string)
    requires t.Fits() && n in t.outer.bodyIn
    ensures n in ToGraph(t.outer.body) && ToGraph(t.outer.body)[n].op == Placeholder
  {
    hide Ordered, LoopDefs;
    Parts(t);
    OrderedOps(t.pre, t.outer.bodyIn, n);
  }

  /** What the inputs of the view carry: the body inputs are fed, the exits carry what the inner loop puts out. */
  lemma ViewCarries(t: Nest, kernels: Kernels, ts: seq<Token>, es: seq<Token>)
    requires t.Fits() && |ts| == t.outer.Count() && |es| == t.inner.Count() && Distinct(t.ViewIns())
    requires forall i :: 0 <= i < t.inner.Count() ==>
               var m, r := Inside(t, kernels, FeedMap(t.outer.bodyIn, ts)), Ref(t.Exits()[i], 0);
               if es[i].Live? then Denotes(m, r, es[i].v) else NeverLive(m, r)
    ensures |t.ViewIns()| == |ts + es|
    ensures forall n :: n in t.ViewIns() ==>
              Carries(Whole(t, kernels, FeedMap(t.outer.bodyIn, ts)), FeedMap(t.ViewIns(), ts + es), n)
  {
    hide Ordered, ToGraph, LoopDefs, Denotes, NeverLive, FeedMap, Inside, AcyclicSource, Whole, Carries, Nest.View;
    ViewFeeds(t, ts, es);
    forall n | n in t.ViewIns()
      ensures Carries(Whole(t, kernels, FeedMap(t.outer.bodyIn, ts)), FeedMap(t.ViewIns(), ts + es), n)
    {
      if n in t.outer.bodyIn {
        var i :| 0 <= i < |t.outer.bodyIn| && t.outer.bodyIn[i] == n;
        BodyInputCarries(t, kernels, ts, FeedMap(t.ViewIns(), ts + es), i);
      } else {
        var i :| 0 <= i < |t.Exits()| && t.Exits()[i] == n;
        ExitCarries(t, kernels, ts, FeedMap(t.ViewIns(), ts + es), i);
      }
    }
  }

  lemma BodyInputCarries(t: Nest, kernels: Kernels, ts: seq<Token>, all: map<string, Token>, i: nat)
    requires t.Fits() && |ts| == t.outer.Count() && i < |ts| && t.outer.bodyIn[i] in all && all[t.outer.bodyIn[i]] == ts[i]
    ensures Carries(Whole(t, kernels, FeedMap(t.outer.bodyIn, ts)), all, t.outer.bodyIn[i])
  {
    hide Ordered, ToGraph, LoopDefs, Denotes, NeverLive, FeedMap, AcyclicSource;
    FeedsOk(t.outer.bodyIn, ts);
    BodyInputNode(t, t.outer.bodyIn[i]);
    PlaceholderDenotes(Whole(t, kernels, FeedMap(t.outer.bodyIn, ts)), t.outer.bodyIn[i]);
  }

  lemma ExitCarries(t: Nest, kernels: Kernels, ts: seq<Token>, all: map<string, Token>, i: nat)
    requires t.Fits() && |ts| == t.outer.Count() && i < t.inner.Count() && t.Exits()[i] in all
    requires var m, r, e := Inside(t, kernels, FeedMap(t.outer.bodyIn, ts)), Ref(t.Exits()[i], 0), all[t.Exits()[i]];
             if e.Live? then Denotes(m, r, e.v) else NeverLive(m, r)
    ensures Carries(Whole(t, kernels, FeedMap(t.outer.bodyIn, ts)), all, t.Exits()[i])
  {
    hide Ordered, ToGraph, LoopDefs, Denotes, NeverLive, FeedMap, Inside, Extends, Whole;
    var feeds, n := FeedMap(t.outer.bodyIn, ts), t.Exits()[i];
    FeedsOk(t.outer.bodyIn, ts);
    WholeExtends(t, kernels, feeds);
    ExitInside(t, kernels, feeds, i);
    if all[n].Live? {
      DenotesExtends(Whole(t, kernels, feeds), Inside(t, kernels, feeds), Ref(n, 0), all[n].v);
    } else {
      NeverLiveExtends(Whole(t, kernels, feeds), Inside(t, kernels, feeds), Ref(n, 0));
    }
  }

  lemma ExitInside(t: Nest, kernels: Kernels, feeds: map<string, Token>, i: nat)
    requires t.Fits() && i < t.inner.Count()
    ensures t.Exits()[i] in Inside(t, kernels, feeds).graph
  {
    hide Ordered, LoopDefs;
    ExitsInLoop(t, i);
  }

  /** Entered with `vs`, the body puts out what the view evaluates to with the final values of the inner loop. */
  lemma BodyEntered(t: Nest, kernels: Kernels, vs: seq<Value>, inner: seq<seq<Value>>, r: Ref<string>)
    requires t.Fits() && |vs| == t.outer.Count() && InnerTrace(t, kernels, vs, inner)
    requires forall j :: 0 <= j < t.inner.Count() ==> OutputDepends(t.inner, j)
    requires Read(ToGraph(t.View()), t.ViewIns(), r)
    ensures Denotes(Whole(t, kernels, FeedMap(t.outer.bodyIn, Lives(vs))), r,
                    Eval(t.View(), kernels, LiveView(t, vs, inner[|inner|-1]), r))
  {
    hide Ordered, ToGraph, LoopDefs, Denotes, NeverLive, FeedMap, Inside, Runs, Eval, Nest.View, LoopOf, OutputDepends;
    var feeds, ends := FeedMap(t.outer.bodyIn, Lives(vs)), inner[|inner|-1];
    InnerRuns(t, kernels, vs, inner);
    forall i | 0 <= i < t.inner.Count()
      ensures Denotes(Inside(t, kernels, feeds), Ref(t.Exits()[i], 0), ends[i])
    {
      ExitsInLoop(t, i);
      LoopCount(t.inner);
      LoopComputes(LoopOf(t.inner), Before(t, kernels, feeds), Inside(t, kernels, feeds), inner, i);
    }
    ViewCarries(t, kernels, Lives(vs), Lives(ends));
    ViewFeeds(t, Lives(vs), Lives(ends));
    assert Lives(vs) + Lives(ends) == Lives(vs + ends);
    ViewMeaning(t, Whole(t, kernels, feeds), LiveView(t, vs, ends), r);
    LiveFeeds(t.ViewIns(), vs + ends);
    DependsOnNothing(t.View(), r.node);
  }

  lemma LoopCount(src: Source)
    requires src.Sized()
    ensures |LoopOf(src).inputs| == src.Count()
  {
  }

  // ----- the body not entered

  /** The outputs of the inner loop that stay dead. */
  ghost function DeadExits(t: Nest): set<string> {
    set i | i in Held(t.inner, t.tainted) :: t.Exits()[i]
  }

  /**
   The inner loop stops where its source does, its tainted variables start from what depends on an input of the
   outer body and stay tainted, and every output of the outer body depends on a body input or on an output of the
   inner loop that stays dead.
   */
  ghost predicate NestDepends(t: Nest)
    requires t.Fits()
  {
    && (forall j :: 0 <= j < t.inner.Count() ==> OutputDepends(t.inner, j))
    && TaintKept(t.inner, t.tainted)
    && (forall i :: i in t.tainted ==> Depends(t.pre, (set n | n in t.outer.bodyIn), t.inner.inputs[i].node))
    && (forall j :: 0 <= j < t.outer.Count() ==>
          Depends(t.View(), (set n | n in t.outer.bodyIn) + DeadExits(t), t.outer.bodyOut[j].node))
  }

  /** Variables that all start from what depends on the outer body's inputs are all tainted. */
  lemma AllStartsDepend(t: Nest)
    requires t.Fits() && forall i :: i in t.tainted <==> i < t.inner.Count()
    requires forall j :: 0 <= j < t.inner.Count() ==> OutputDepends(t.inner, j)
    requires forall i :: 0 <= i < t.inner.Count() ==> Depends(t.pre, (set n | n in t.outer.bodyIn), t.inner.inputs[i].node)
    requires forall j :: 0 <= j < t.outer.Count() ==> Depends(t.View(), (set n | n in t.ViewIns()), t.outer.bodyOut[j].node)
    ensures NestDepends(t)
  {
    hide Ordered, LoopDefs, ToGraph, Nest.View, OutputDepends, Depends, Usable, Name, Stalls;
    assert Held(t.inner, t.tainted) == t.tainted;
    var all, sources := set n | n in t.ViewIns(), (set n | n in t.outer.bodyIn) + DeadExits(t);
    forall n
      ensures n in all <==> n in sources
    {
      if n in t.Exits() {
        var i :| 0 <= i < |t.Exits()| && t.Exits()[i] == n;
        assert t.Exits()[i] in DeadExits(t);
      }
    }
    assert all == sources;
  }

  lemma ExitRole(src: Source, i: nat)
    requires GoodSource(src) && i < src.Count()
    ensures src.Names(ExitF)[i] in LoopOf(src).roles && LoopOf(src).roles[src.Names(ExitF)[i]] == IsExit(i)
  {
    hide RoleMap, Usable, SplicedOn, Name;
    LoopWellBuilt(src);
    assert RoleOk(LoopOf(src), IsExit(i)) && NameOf(LoopOf(src), IsExit(i)) == src.Names(ExitF)[i];
  }

  /** Not entered, the dead variables of the inner loop start from inputs that are never live. */
  lemma StartsDead(t: Nest, kernels: Kernels)
    requires t.Fits() && NestDepends(t)
    ensures DeadStarts(LoopOf(t.inner), t.Dead(), Before(t, kernels, FeedMap(t.outer.bodyIn, Deads(t.outer.Count()))))
  {
    hide Ordered, LoopDefs, NeverLive, Denotes, Nest.View, OutputDepends, LoopOf, Consistent, ToGraph;
    var ins := t.outer.bodyIn;
    FeedsOk(ins, Deads(|ins|));
    AllDead(ins);
    BuiltInputs(t.inner);
    forall i | 0 <= i < t.inner.Count() && IsEnter(i) in t.Dead()
      ensures NeverLive(Before(t, kernels, FeedMap(ins, Deads(|ins|))), t.inner.inputs[i])
    {
      AcyclicMeaning(t.pre, ins, kernels, FeedMap(ins, Deads(|ins|)), t.inner.inputs[i]);
    }
  }

  /** Not entered, the body inputs and the dead outputs of the inner loop are never live. */
  lemma SourceNeverLive(t: Nest, kernels: Kernels, n: string)
    requires t.Fits() && NestDepends(t) && (n in t.outer.bodyIn || n in DeadExits(t))
    ensures n in t.ViewIns() && NeverLive(Whole(t, kernels, FeedMap(t.outer.bodyIn, Deads(t.outer.Count()))), Ref(n, 0))
  {
    hide Ordered, LoopDefs, ToGraph, NeverLive, FeedMap, LoopOf, Lowered, Consistent, OutputDepends, Depends, Nest.View, Extends,
         DeadStarts;
    var ts := Deads(t.outer.Count());
    var feeds := FeedMap(t.outer.bodyIn, ts);
    FeedsOk(t.outer.bodyIn, ts);
    if n in t.outer.bodyIn {
      var i :| 0 <= i < |ts| && t.outer.bodyIn[i] == n;
      BodyInputNode(t, n);
      PlaceholderDenotes(Whole(t, kernels, feeds), n);
    } else {
      var i :| i in Held(t.inner, t.tainted) && t.Exits()[i] == n;
      TaintConsistent(t.inner, t.tainted);
      DeadRolesHave(t.inner, t.tainted, IsExit(i));
      InnerLowered(t, kernels, feeds);
      StartsDead(t, kernels);
      LoopCount(t.inner);
      ExitsInLoop(t, i);
      LoopStaysDead(LoopOf(t.inner), Before(t, kernels, feeds), Inside(t, kernels, feeds), t.Dead(), i);
      WholeExtends(t, kernels, feeds);
      ExitInside(t, kernels, feeds, i);
      NeverLiveExtends(Whole(t, kernels, feeds), Inside(t, kernels, feeds), Ref(n, 0));
    }
  }

  /** Not entered, the outputs of the body stay dead. */
  lemma BodyNotEntered(t: Nest, kernels: Kernels, j: nat)
    requires t.Fits() && NestDepends(t) && j < t.outer.Count()
    ensures NeverLive(Whole(t, kernels, FeedMap(t.outer.bodyIn, Deads(t.outer.Count()))), t.outer.bodyOut[j])
  {
    hide Ordered, LoopDefs, ToGraph, Denotes, NeverLive, FeedMap, Nest.View, Nest.ViewIns, LoopOf, OutputDepends, Depends,
         KernelHosted, Consistent, DeadExits;
    var l, ins, r := t.View(), t.ViewIns(), t.outer.bodyOut[j];
    var m := Whole(t, kernels, FeedMap(t.outer.bodyIn, Deads(t.outer.Count())));
    var name, target := Same(ToGraph(l)), Heads(ins);
    var dead := (set n | n in t.outer.bodyIn) + DeadExits(t);
    forall i | 0 <= i < |l| && l[i].node.op.Kernel?
      ensures KernelHosted(m, l[i], name, target, Ref("", 0))
    {
      ViewKernelHosted(t, m, i);
    }
    forall n | n in dead
      ensures n in ins && n in target && NeverLive(m, target[n])
    {
      SourceNeverLive(t, kernels, n);
    }
    HostedDead(m, l, ins, dead, name, target, Ref("", 0), r);
    assert Host(name, target, r) == r;
  }

  // ----- levels

  /** Levels of the body: the inner loop is one level deep, its Enter nodes and all else are at level 0. */
  ghost function NestLevels(t: Nest): map<string, int>
    requires t.inner.Sized()
  {
    map n | n in ToGraph(t.outer.body) ::
      if n in LoopOf(t.inner).roles && !LoopOf(t.inner).roles[n].IsEnter? then 1 else 0
  }

  lemma InnerLevelled(t: Nest, kernels: Kernels, feeds: map<string, Token>)
    requires t.Fits() && feeds.Keys <= ToGraph(t.pre).Keys
    ensures var lp := LoopOf(t.inner);
            Levelled(Inside(t, kernels, feeds),
                     LoopLevels(lp, Before(t, kernels, feeds), Inside(t, kernels, feeds), Zeros(t.pre), Zeros(t.inner.cond),
                                Zeros(t.inner.body)))
  {
    hide Ordered, LoopDefs, Lowered, Levelled, LoopOf, Usable, LevelsFit, LoopLevels, ToGraph, Zeros, Inside;
    InnerLowered(t, kernels, feeds);
    InnerFits(t, kernels, feeds);
    LoopLevelled(LoopOf(t.inner), Before(t, kernels, feeds), Inside(t, kernels, feeds), Zeros(t.pre), Zeros(t.inner.cond),
                 Zeros(t.inner.body));
  }

  lemma InnerFits(t: Nest, kernels: Kernels, feeds: map<string, Token>)
    requires t.Fits()
    ensures WellBuilt(LoopOf(t.inner))
    ensures LevelsFit(LoopOf(t.inner), Before(t, kernels, feeds), Zeros(t.pre), Zeros(t.inner.cond), Zeros(t.inner.body))
  {
    hide Ordered, LoopDefs, Levelled, LoopOf, Usable, SourceLevelled, Zeros, ToGraph;
    ZeroSources(t.inner);
    AcyclicGood(t.inner);
    LoopWellBuilt(t.inner);
    SplicesOf(t.inner);
    hide WellBuilt, SpliceOf;
    PreLevelled(t, kernels, feeds);
    ZeroKeys(t.inner.cond);
    ZeroKeys(t.inner.body);
  }

  lemma PreLevelled(t: Nest, kernels: Kernels, feeds: map<string, Token>)
    requires t.Fits()
    ensures Levelled(Before(t, kernels, feeds), Zeros(t.pre))
    ensures forall i :: 0 <= i < t.inner.Count() ==>
              t.inner.inputs[i].node in Zeros(t.pre) && LevelOf(ToGraph(t.pre), Zeros(t.pre), t.inner.inputs[i]) == 0
  {
    hide Ordered, LoopDefs, Levelled;
    AcyclicLevelled(t.pre, t.outer.bodyIn, kernels, feeds);
    forall i | 0 <= i < t.inner.Count()
      ensures LevelOf(ToGraph(t.pre), Zeros(t.pre), t.inner.inputs[i]) == 0
    {
      OrderedOps(t.pre, t.outer.bodyIn, t.inner.inputs[i].node);
    }
  }

  lemma ZeroKeys(defs: seq<Def>)
    ensures Zeros(defs).Keys == ToGraph(defs).Keys
  {
  }

  lemma ZeroSources(src: Source)
    requires AcyclicSource(src)
    ensures SourceLevelled(src.CondSplice(), src.condIn, Zeros(src.cond))
    ensures SourceLevelled(src.BodySplice(), src.bodyIn, Zeros(src.body))
    ensures LevelOf(ToGraph(src.cond), Zeros(src.cond), src.condOut) == 0
    ensures forall i :: 0 <= i < src.Count() ==> LevelOf(ToGraph(src.body), Zeros(src.body), src.bodyOut[i]) == 0
  {
    hide Ordered;
    var kernels: Kernels := (_, _, _) => Tensor([]);
    AcyclicLevelled(src.cond, src.condIn, kernels, map[]);
    AcyclicLevelled(src.body, src.bodyIn, kernels, map[]);
    OrderedOps(src.cond, src.condIn, src.condOut.node);
    forall i | 0 <= i < src.Count()
      ensures LevelOf(ToGraph(src.body), Zeros(src.body), src.bodyOut[i]) == 0
    {
      OrderedOps(src.body, src.bodyIn, src.bodyOut[i].node);
    }
  }

  /** A node of the inner loop, or of the part before it, is at its level in the whole body. */
  lemma InsideLevel(t: Nest, kernels: Kernels, feeds: map<string, Token>, n: string)
    requires t.Fits() && feeds.Keys <= ToGraph(t.pre).Keys && n in Inside(t, kernels, feeds).graph
    ensures var lp, m1 := LoopOf(t.inner), Inside(t, kernels, feeds);
            var ll := LoopLevels(lp, Before(t, kernels, feeds), m1, Zeros(t.pre), Zeros(t.inner.cond), Zeros(t.inner.body));
            && n in ToGraph(t.outer.body) && ToGraph(t.outer.body)[n] == m1.graph[n]
            && n in ll && n in NestLevels(t) && ll[n] == NestLevels(t)[n]
  {
    hide Ordered, LoopDefs, ToGraph, Lowered, RoleMap, Usable, LoopOf;
    Parts(t);
    InnerLowered(t, kernels, feeds);
    if n in LoopOf(t.inner).roles {
      ZeroRole(LoopOf(t.inner), LoopOf(t.inner).roles[n], t);
    }
  }

  lemma ZeroRole(lp: Loop<string>, role: Role<string>, t: Nest)
    ensures LoopLevel(lp, role, Zeros(t.inner.cond), Zeros(t.inner.body)) == if role.IsEnter? then 0 else 1
  {
  }

  lemma ExitLevel(t: Nest, i: nat)
    requires t.Fits() && i < t.inner.Count()
    ensures var n := t.Exits()[i];
            n in ToGraph(t.outer.body) && n in NestLevels(t) && NestLevels(t)[n] == 1 && ToGraph(t.outer.body)[n].op == Exit
  {
    hide Ordered, LoopDefs, ToGraph, Lowered, RoleMap, Usable, Name;
    Parts(t);
    ExitsInLoop(t, i);
    AcyclicGood(t.inner);
    LoopGraph(t.inner, t.Exits()[i]);
    ExitRole(t.inner, i);
  }

  lemma OutsideLevel(t: Nest, n: string)
    requires t.Fits() && n in ToGraph(t.outer.body) && n !in ToGraph(LoopDefs(t.inner))
    ensures n in NestLevels(t) && NestLevels(t)[n] == 0
  {
    hide Ordered, LoopDefs, ToGraph, RoleMap, Usable;
    AcyclicGood(t.inner);
    LoopGraph(t.inner, n);
  }

  /** What the view reads is at level 0 in the body. */
  lemma ReadLevel(t: Nest, r: Ref<string>)
    requires t.Fits() && Read(ToGraph(t.View()), t.ViewIns(), r)
    ensures r.node in ToGraph(t.outer.body) && r.node in NestLevels(t)
    ensures LevelOf(ToGraph(t.outer.body), NestLevels(t), r) == 0
  {
    hide Ordered, LoopDefs, ToGraph, NestLevels, Nest.View;
    ViewInBody(t, r.node);
    if r.node in t.Exits() {
      var i :| 0 <= i < |t.Exits()| && t.Exits()[i] == r.node;
      ExitLevel(t, i);
    } else {
      NotInLoop(t, r.node);
      OutsideLevel(t, r.node);
      if r.node in t.outer.bodyIn {
        BodyInputNode(t, r.node);
      } else {
        ViewKernel(t, r.node);
      }
    }
  }

  lemma NotInLoop(t: Nest, n: string)
    requires t.Fits() && n in ToGraph(t.View()) && n !in t.Exits()
    ensures n !in ToGraph(LoopDefs(t.inner))
  {
    hide Ordered, LoopDefs, ToGraph;
    Parts(t);
    ViewGraph(t);
  }

  /** The body with the inner loop has levels, whatever it is fed with. */
  lemma WholeLevelled(t: Nest, kernels: Kernels, feeds: map<string, Token>)
    requires t.Fits() && feeds.Keys <= ToGraph(t.pre).Keys
    ensures Levelled(Whole(t, kernels, feeds), NestLevels(t))
  {
    hide Ordered, LoopDefs, ToGraph, Usable, NodeLevelled, Nest.View, Nest.ViewIns;
    var m, lv := Whole(t, kernels, feeds), NestLevels(t);
    LevelKeys(t);
    forall n | n in m.graph
      ensures NodeLevelled(m, lv, n)
    {
      WholeNodeLevelled(t, kernels, feeds, n);
    }
  }

  lemma LevelKeys(t: Nest)
    requires t.Fits()
    ensures NestLevels(t).Keys == ToGraph(t.outer.body).Keys
  {
  }

  lemma WholeNodeLevelled(t: Nest, kernels: Kernels, feeds: map<string, Token>, n: string)
    requires t.Fits() && feeds.Keys <= ToGraph(t.pre).Keys && n in ToGraph(t.outer.body)
    ensures NestLevels(t).Keys == ToGraph(t.outer.body).Keys && NodeLevelled(Whole(t, kernels, feeds), NestLevels(t), n)
  {
    LevelKeys(t);
    WholeSplits(t, kernels, feeds);
    if n in Inside(t, kernels, feeds).graph {
      InsideNodeLevelled(t, kernels, feeds, n);
    } else {
      PostLevelled(t, kernels, feeds, n);
    }
  }

  lemma WholeSplits(t: Nest, kernels: Kernels, feeds: map<string, Token>)
    requires t.Fits()
    ensures forall n :: n in ToGraph(t.outer.body) ==> n in Inside(t, kernels, feeds).graph || n in ToGraph(t.post)
  {
    hide Ordered, LoopDefs, ToGraph;
    Parts(t);
  }

  lemma InsideNodeLevelled(t: Nest, kernels: Kernels, feeds: map<string, Token>, n: string)
    requires t.Fits() && feeds.Keys <= ToGraph(t.pre).Keys && n in Inside(t, kernels, feeds).graph
    ensures n in ToGraph(t.outer.body) && NestLevels(t).Keys == ToGraph(t.outer.body).Keys
    ensures NodeLevelled(Whole(t, kernels, feeds), NestLevels(t), n)
  {
    hide Ordered, LoopDefs, ToGraph, NestLevels, Inside, LoopLevels, Nest.View, LoopOf, Levelled, NodeLevelled, Zeros;
    var m1 := Inside(t, kernels, feeds);
    var ll := LoopLevels(LoopOf(t.inner), Before(t, kernels, feeds), m1, Zeros(t.pre), Zeros(t.inner.cond), Zeros(t.inner.body));
    LevelKeys(t);
    InnerLowered(t, kernels, feeds);
    InnerLevelled(t, kernels, feeds);
    LevelledKeys(m1, ll);
    forall q | q in m1.graph
      ensures q in ToGraph(t.outer.body) && ToGraph(t.outer.body)[q] == m1.graph[q] && q in ll && ll[q] == NestLevels(t)[q]
    {
      InsideLevel(t, kernels, feeds, q);
    }
    SameFeeds(t, kernels, feeds);
    LevelCarries(m1, ll, Whole(t, kernels, feeds), NestLevels(t), n);
  }

  lemma LevelledKeys<N(!new)>(m: Machine<N>, lv: map<N, int>)
    requires Levelled(m, lv)
    ensures m.graph.Keys <= lv.Keys
  {
  }

  lemma SameFeeds(t: Nest, kernels: Kernels, feeds: map<string, Token>)
    requires t.inner.Sized()
    ensures Inside(t, kernels, feeds).feeds == Whole(t, kernels, feeds).feeds == feeds
  {
  }

  lemma PostLevelled(t: Nest, kernels: Kernels, feeds: map<string, Token>, n: string)
    requires t.Fits() && feeds.Keys <= ToGraph(t.pre).Keys && n in ToGraph(t.outer.body)
    requires n !in Inside(t, kernels, feeds).graph
    ensures NestLevels(t).Keys == ToGraph(t.outer.body).Keys && NodeLevelled(Whole(t, kernels, feeds), NestLevels(t), n)
  {
    PostNode(t, kernels, feeds, n);
    hide Ordered, LoopDefs, ToGraph, NestLevels, Inside, Nest.View, AcyclicSource;
    LevelKeys(t);
    OutsideLevel(t, n);
    ViewKernel(t, n);
    forall i | 0 <= i < |ToGraph(t.outer.body)[n].inputs|
      ensures var r := ToGraph(t.outer.body)[n].inputs[i];
              r.node in ToGraph(t.outer.body) && LevelOf(ToGraph(t.outer.body), NestLevels(t), r) == 0
    {
      OrderedReads(t.View(), t.ViewIns(), n, i);
      ReadLevel(t, ToGraph(t.View())[n].inputs[i]);
    }
  }

  /** A node behind the inner loop is a kernel of the view. */
  lemma PostNode(t: Nest, kernels: Kernels, feeds: map<string, Token>, n: string)
    requires t.Fits() && n in ToGraph(t.outer.body) && n !in Inside(t, kernels, feeds).graph
    ensures n in ToGraph(t.View()) && n !in t.ViewIns() && n !in ToGraph(LoopDefs(t.inner))
  {
    hide Ordered, LoopDefs, ToGraph, Nest.View;
    Parts(t);
    ViewGraph(t);
    if n in t.Exits() {
      var i :| 0 <= i < |t.Exits()| && t.Exits()[i] == n;
      ExitInside(t, kernels, feeds, i);
    }
  }

  // ----- the outer loop

  /** Every read in the body finds its node, and reads body inputs as data. */
  lemma BodyReadsFound(t: Nest, n: string, i: nat)
    requires t.Fits() && n in ToGraph(t.outer.body) && i < |ToGraph(t.outer.body)[n].inputs|
    ensures Read(ToGraph(t.outer.body), t.outer.bodyIn, ToGraph(t.outer.body)[n].inputs[i])
  {
    hide Ordered, LoopDefs, ToGraph, Nest.View, Lowered, Inside, LoopOf, Usable;
    var kernels: Kernels := (_, _, _) => Tensor([]);
    WholeSplits(t, kernels, map[]);
    if n in Inside(t, kernels, map[]).graph {
      InsideLevel(t, kernels, map[], n);
      InsideReads(t, kernels, n, i);
    } else {
      PostNode(t, kernels, map[], n);
      ViewKernel(t, n);
      OrderedReads(t.View(), t.ViewIns(), n, i);
      ViewInBody(t, ToGraph(t.View())[n].inputs[i].node);
    }
  }

  lemma InsideReads(t: Nest, kernels: Kernels, n: string, i: nat)
    requires t.Fits() && n in Inside(t, kernels, map[]).graph && i < |Inside(t, kernels, map[]).graph[n].inputs|
    ensures Read(ToGraph(t.outer.body), t.outer.bodyIn, Inside(t, kernels, map[]).graph[n].inputs[i])
  {
    hide Ordered, LoopDefs, ToGraph, Nest.View, LoopOf, Usable, Inside;
    var lp, m0, m1 := LoopOf(t.inner), Before(t, kernels, map[]), Inside(t, kernels, map[]);
    var r := m1.graph[n].inputs[i];
    InnerLowered(t, kernels, map[]);
    assert r.node in m1.graph;
    InsideLevel(t, kernels, map[], r.node);
    InnerNode(t, kernels, n);
    if n in lp.roles {
      LoopReads(lp, lp.roles[n], i);
      SplicesOf(t.inner);
      if r in t.inner.inputs {
        var k :| 0 <= k < |t.inner.inputs| && t.inner.inputs[k] == r;
        assert Read(ToGraph(t.pre), t.outer.bodyIn, t.inner.inputs[k]);
      } else {
        RoleNotInput(t, kernels, r.node);
      }
    } else {
      OrderedReads(t.pre, t.outer.bodyIn, n, i);
    }
  }

  lemma InnerNode(t: Nest, kernels: Kernels, n: string)
    requires t.Fits() && n in Inside(t, kernels, map[]).graph
    ensures WellBuilt(LoopOf(t.inner))
    ensures if n in LoopOf(t.inner).roles
            then RoleOk(LoopOf(t.inner), LoopOf(t.inner).roles[n])
                 && Inside(t, kernels, map[]).graph[n] == NodeOf(LoopOf(t.inner), LoopOf(t.inner).roles[n])
            else n in ToGraph(t.pre) && Inside(t, kernels, map[]).graph[n] == ToGraph(t.pre)[n]
  {
    hide Ordered, LoopDefs, ToGraph, LoopOf, Usable, SplicedOn;
    InnerLowered(t, kernels, map[]);
  }

  lemma RoleNotInput(t: Nest, kernels: Kernels, n: string)
    requires t.Fits() && n in LoopOf(t.inner).roles
    ensures n !in t.outer.bodyIn
  {
    hide Ordered, LoopDefs, ToGraph, LoopOf, Usable, WellBuilt;
    InnerLowered(t, kernels, map[]);
  }

  lemma OuterGood(t: Nest)
    requires t.Fits()
    ensures GoodSource(t.outer)
  {
    hide Ordered, LoopDefs, ToGraph, Nest.View, Nest.ViewIns;
    forall n, i | n in ToGraph(t.outer.body) && 0 <= i < |ToGraph(t.outer.body)[n].inputs|
      ensures Read(ToGraph(t.outer.body), t.outer.bodyIn, ToGraph(t.outer.body)[n].inputs[i])
    {
      BodyReadsFound(t, n, i);
    }
    forall n | n in t.outer.bodyIn
      ensures n in ToGraph(t.outer.body) && ToGraph(t.outer.body)[n].op == Placeholder
    {
      BodyInputNode(t, n);
    }
    assert Usable(t.outer.body, t.outer.bodyIn);
    AcyclicUsable(t.outer.cond, t.outer.condIn);
    forall j | 0 <= j < t.outer.Count()
      ensures Read(ToGraph(t.outer.body), t.outer.bodyIn, t.outer.bodyOut[j])
    {
      ViewInBody(t, t.outer.bodyOut[j].node);
      ViewInputs(t);
    }
  }

  lemma ViewInputs(t: Nest)
    ensures forall n :: n in t.outer.bodyIn ==> n in t.ViewIns()
  {
  }

  /** Running the outer loop: `inner[k]` is the run of the inner loop in round `k`. */
  ghost predicate NestTrace(t: Nest, kernels: Kernels, vals: seq<seq<Value>>, inner: seq<seq<seq<Value>>>)
    requires t.Fits()
  {
    && |vals| > 0 && (forall k :: 0 <= k < |vals| ==> |vals[k]| == t.outer.Count()) && |inner| == |vals| - 1
    && (forall k :: 0 <= k < |vals| ==> CondValue(t.outer, kernels, vals[k]) == Bool(k < |vals| - 1))
    && (forall k :: 0 <= k < |vals| - 1 ==> InnerTrace(t, kernels, vals[k], inner[k]))
    && (forall k, j :: 0 <= k < |vals| - 1 && 0 <= j < t.outer.Count() ==>
          vals[k+1][j] == Eval(t.View(), kernels, LiveView(t, vals[k], inner[k][|inner[k]|-1]), t.outer.bodyOut[j]))
  }

  lemma NestFeeds(t: Nest, ts: seq<Token>)
    requires t.Fits() && |ts| == t.outer.Count()
    ensures FeedMap(t.outer.bodyIn, ts).Keys <= ToGraph(t.pre).Keys
  {
    hide Ordered;
    FeedsOk(t.outer.bodyIn, ts);
  }

  lemma NestFrameSafe(t: Nest, kernels: Kernels, ts: seq<Token>)
    requires t.Fits() && |ts| == t.outer.Count()
    ensures FrameSafe(Whole(t, kernels, FeedMap(t.outer.bodyIn, ts)))
  {
    hide Ordered, LoopDefs, ToGraph, Nest.View, Levelled, FrameSafe, FeedMap, NestLevels;
    NestFeeds(t, ts);
    WholeLevelled(t, kernels, FeedMap(t.outer.bodyIn, ts));
    LevelledFrameSafe(Whole(t, kernels, FeedMap(t.outer.bodyIn, ts)), NestLevels(t));
  }

  lemma NestIterates(t: Nest, kernels: Kernels, vals: seq<seq<Value>>, inner: seq<seq<seq<Value>>>)
    requires t.Fits() && NestDepends(t) && NestTrace(t, kernels, vals, inner)
    ensures WellBuilt(LoopOf(t.outer)) && Iterates(LoopOf(t.outer), kernels, vals)
  {
    hide Ordered, LoopDefs, ToGraph, Nest.View, Nest.ViewIns, Usable, Denotes, FrameSafe, Eval, FeedMap, LoopOf, WellBuilt,
         InnerTrace, Whole, AcyclicSource, OutputDepends, Depends;
    OuterGood(t);
    LoopWellBuilt(t.outer);
    SplicesOf(t.outer);
    forall k | 0 <= k < |vals|
      ensures FrameSafe(CondMachine(LoopOf(t.outer), kernels, vals[k]))
      ensures Denotes(CondMachine(LoopOf(t.outer), kernels, vals[k]), t.outer.condOut, Bool(k < |vals| - 1))
    {
      GraphDenotes(t.outer.cond, t.outer.condIn, kernels, vals[k], t.outer.condOut);
    }
    forall k | 0 <= k < |vals| - 1
      ensures FrameSafe(BodyMachine(LoopOf(t.outer), kernels, Lives(vals[k])))
    {
      NestFrameSafe(t, kernels, Lives(vals[k]));
      WholeIsBody(t, kernels, Lives(vals[k]));
    }
    forall k, j | 0 <= k < |vals| - 1 && 0 <= j < t.outer.Count()
      ensures Denotes(BodyMachine(LoopOf(t.outer), kernels, Lives(vals[k])), t.outer.bodyOut[j], vals[k+1][j])
    {
      BodyEntered(t, kernels, vals[k], inner[k], t.outer.bodyOut[j]);
      WholeIsBody(t, kernels, Lives(vals[k]));
    }
  }

  lemma WholeIsBody(t: Nest, kernels: Kernels, ts: seq<Token>)
    requires t.Fits() && |ts| == t.outer.Count()
    ensures |LoopOf(t.outer).bodyIn| == |ts| && Distinct(LoopOf(t.outer).bodyIn)
    ensures BodyMachine(LoopOf(t.outer), kernels, ts) == Whole(t, kernels, FeedMap(t.outer.bodyIn, ts))
  {
    hide Ordered, FeedMap;
  }

  lemma NestLeaves(t: Nest, kernels: Kernels)
    requires t.Fits() && NestDepends(t)
    ensures WellBuilt(LoopOf(t.outer)) && StopsDead(LoopOf(t.outer), kernels)
  {
    hide Ordered, LoopDefs, ToGraph, Nest.View, Nest.ViewIns, Usable, NeverLive, FrameSafe, FeedMap, LoopOf, WellBuilt,
         Whole, AcyclicSource, OutputDepends, Depends;
    OuterGood(t);
    LoopWellBuilt(t.outer);
    SplicesOf(t.outer);
    var ts := Deads(t.outer.Count());
    NestFrameSafe(t, kernels, ts);
    WholeIsBody(t, kernels, ts);
    forall j | 0 <= j < t.outer.Count()
      ensures NeverLive(BodyMachine(LoopOf(t.outer), kernels, ts), t.outer.bodyOut[j])
    {
      BodyNotEntered(t, kernels, j);
    }
  }

  /** The outer loop gets built, and both source loops stop. */
  ghost predicate NestStops(nodes: seq<Slot>, names: map<string, nat>, t: Nest, reg: Registry, p: Machine<string>,
                            vals: seq<seq<Value>>, inner: seq<seq<seq<Value>>>) {
    && t.Fits() && NestDepends(t) && NestTrace(t, p.kernels, vals, inner)
    && Parent(nodes, names, t.outer, p) && Buildable(names, t.outer, reg)
    && forall j :: 0 <= j < t.outer.Count() ==> Denotes(p, t.outer.inputs[j], vals[0][j])
  }

  lemma NestRuns(nodes: seq<Slot>, names: map<string, nat>, t: Nest, reg: Registry, p: Machine<string>,
                 vals: seq<seq<Value>>, inner: seq<seq<seq<Value>>>)
    requires NestStops(nodes, names, t, reg, p, vals, inner)
    ensures t.outer.Sized() && Runs(LoopOf(t.outer), p, WithLoop(p, t.outer), vals)
    ensures |LoopOf(t.outer).inputs| == t.outer.Count()
    ensures forall i :: 0 <= i < t.outer.Count() ==> LoopOf(t.outer).exit[i] == Name(t.outer.name, ExitF, Decimal(i))
  {
    hide Ordered, LoopDefs, ToGraph, Nest.View, Nest.ViewIns, Usable, Denotes, Lowered, Iterates, StopsDead, WellBuilt, RoleMap,
         Buildable, AcyclicSource, Indexed;
    OuterGood(t);
    ParentLowered(nodes, names, t.outer, reg, p);
    NestIterates(t, p.kernels, vals, inner);
    NestLeaves(t, p.kernels);
    SourceSized(t.outer);
  }

  /**
   A loop whose body contains a finished loop: under every schedule the outer loop's outputs can
   carry only the final values of the outer source loop, in which each round runs the inner source
   loop to its end, and they carry them at rest.
   */
  lemma NestedComputes(nodes: seq<Slot>, names: map<string, nat>, t: Nest, reg: Registry, p: Machine<string>,
                       vals: seq<seq<Value>>, inner: seq<seq<seq<Value>>>, i: nat)
    requires NestStops(nodes, names, t, reg, p, vals, inner) && i < t.outer.Count()
    ensures Denotes(WithLoop(p, t.outer), Ref(Name(t.outer.name, ExitF, Decimal(i)), 0), vals[|vals|-1][i])
  {
    hide Nest.Fits, NestDepends, NestTrace, Parent, Buildable, Denotes, Runs, LoopOf, WithLoop;
    NestRuns(nodes, names, t, reg, p, vals, inner);
    LoopComputes(LoopOf(t.outer), p, WithLoop(p, t.outer), vals, i);
  }
}
