/**
 Loops inside loops come to rest: if the outer and the inner source loop stop, no schedule of the
 finished graph runs forever.
 */
module NestedTermination {
  import opened Dataflow
  import opened Acyclic
  import opened Splices
  import opened WhileLoops
  import opened LoopTheorems
  import opened Levels
  import opened LoopBounds
  import opened GraphApi
  import opened LoopNames
  import opened WhileBuilder
  import opened FinishWhile
  import opened WhileTheorem
  import opened WhileTermination
  import opened Tainted
  import opened NestedLoops

  /** The activations of the body when the inner loop runs `rounds` iterations. */
  ghost function EnteredFirings(t: Nest, rounds: nat): set<Firing<string>>
    requires t.Fits()
  {
    AtRoot(t.pre) + LoopActivations(t.inner, rounds) + AtRoot(t.post)
  }

  /** The activations of the body when it is not entered. */
  ghost function DeadFirings(t: Nest): set<Firing<string>>
    requires t.Fits()
  {
    AtRoot(t.pre) + Controls(LoopOf(t.inner), 1) + AtRoot(t.post)
  }

  /** The nodes behind the inner loop run once, at top level. */
  lemma PostWithin(t: Nest, kernels: Kernels, feeds: map<string, Token>, bound: set<Firing<string>>)
    requires t.Fits() && feeds.Keys <= ToGraph(t.pre).Keys && Within(Inside(t, kernels, feeds), bound)
    ensures Within(Whole(t, kernels, feeds), bound + AtRoot(t.post))
  {
    hide Ordered, LoopDefs, ToGraph, Nest.View, Levelled, NestLevels, Inside, Extends, AtRoot;
    var m, m1 := Whole(t, kernels, feeds), Inside(t, kernels, feeds);
    WholeExtends(t, kernels, feeds);
    WholeLevelled(t, kernels, feeds);
    WholeSplits(t, kernels, feeds);
    forall s | Reachable(m, s)
      ensures s.Keys <= bound + AtRoot(t.post)
    {
      var run :| IsRun(m, run) && run[|run|-1] == s;
      RestrictReachable(m, m1, run);
      RunNodes(m, run);
      LevelRun(m, NestLevels(t), run);
      forall f | f in s
        ensures f in bound + AtRoot(t.post)
      {
        if f.node in m1.graph {
          assert f in Restrict(s, m1.graph).Keys;
        } else {
          PostAtRoot(t, kernels, feeds, f);
        }
      }
    }
  }

  lemma PostAtRoot(t: Nest, kernels: Kernels, feeds: map<string, Token>, f: Firing<string>)
    requires t.Fits() && f.node in ToGraph(t.outer.body) && f.node !in Inside(t, kernels, feeds).graph
    requires f.node in NestLevels(t) && Depth(f.ctx) == NestLevels(t)[f.node]
    ensures f in AtRoot(t.post)
  {
    hide Ordered, LoopDefs, ToGraph, Nest.View, NestLevels, Inside;
    PostNode(t, kernels, feeds, f.node);
    OutsideLevel(t, f.node);
    DepthPositive(f.ctx);
    WholeSplits(t, kernels, feeds);
    assert f == At(f.node, Root);
  }

  /** Entered, the inner loop stays within its rounds. */
  lemma InsideWithin(t: Nest, kernels: Kernels, vs: seq<Value>, inner: seq<seq<Value>>)
    requires t.Fits() && NestDepends(t) && |vs| == t.outer.Count() && InnerTrace(t, kernels, vs, inner)
    ensures Within(Inside(t, kernels, FeedMap(t.outer.bodyIn, Lives(vs))), AtRoot(t.pre) + LoopActivations(t.inner, |inner|))
  {
    hide Ordered, LoopDefs, ToGraph, Nest.View, Within, LoopFirings, FeedMap, LoopOf, Runs, Bounded, Instance.Valid, Inside,
         OutputDepends, Depends, AtRoot, Consistent;
    var feeds := FeedMap(t.outer.bodyIn, Lives(vs));
    NestFeeds(t, Lives(vs));
    InnerRuns(t, kernels, vs, inner);
    InnerBounded(t, kernels, feeds, inner);
    var it := Instance(LoopOf(t.inner), Before(t, kernels, feeds), Inside(t, kernels, feeds), inner, Deads(t.inner.Count()));
    LoopWithin(it, Zeros(t.inner.body), AtRoot(t.pre), Rounds(t.inner.cond, |inner|), Rounds(t.inner.body, |inner|));
  }

  /** Entered, the body stays within the rounds of the inner loop. */
  lemma EnteredWithin(t: Nest, kernels: Kernels, vs: seq<Value>, inner: seq<seq<Value>>)
    requires t.Fits() && NestDepends(t) && |vs| == t.outer.Count() && InnerTrace(t, kernels, vs, inner)
    ensures Within(Whole(t, kernels, FeedMap(t.outer.bodyIn, Lives(vs))), EnteredFirings(t, |inner|))
  {
    hide Ordered, LoopDefs, ToGraph, Nest.View, Within, LoopFirings, FeedMap, LoopOf, Inside, Whole, OutputDepends, Depends, AtRoot,
         Consistent, InnerTrace;
    NestFeeds(t, Lives(vs));
    InsideWithin(t, kernels, vs, inner);
    PostWithin(t, kernels, FeedMap(t.outer.bodyIn, Lives(vs)), AtRoot(t.pre) + LoopActivations(t.inner, |inner|));
  }

  lemma InnerBounded(t: Nest, kernels: Kernels, feeds: map<string, Token>, inner: seq<seq<Value>>)
    requires t.Fits() && feeds.Keys <= ToGraph(t.pre).Keys && NestDepends(t)
    requires Runs(LoopOf(t.inner), Before(t, kernels, feeds), Inside(t, kernels, feeds), inner)
    ensures var it := Instance(LoopOf(t.inner), Before(t, kernels, feeds), Inside(t, kernels, feeds), inner, Deads(t.inner.Count()));
            it.Valid() && Bounded(it, Zeros(t.inner.body), AtRoot(t.pre), Rounds(t.inner.cond, |inner|), Rounds(t.inner.body, |inner|))
  {
    hide Ordered, LoopDefs, ToGraph, Nest.View, Within, FeedMap, LoopOf, Runs, Instance.Valid, OutputDepends, Depends, AtRoot,
         SourcesWithin, BodyLevelled, LeftBehind, WithLoop, Rounds, Zeros;
    var p := Before(t, kernels, feeds);
    LoopCount(t.inner);
    InstanceValid(LoopOf(t.inner), p, Inside(t, kernels, feeds), inner);
    InnerLeft(t, kernels);
    assert Built(t.inner, p, inner) == Instance(LoopOf(t.inner), p, Inside(t, kernels, feeds), inner, Deads(t.inner.Count()));
    ValidShaped(Built(t.inner, p, inner));
    BuiltSources(t.inner, p, inner);
    BuiltLevels(t.inner, p, inner);
    AcyclicWithin(t.pre, t.outer.bodyIn, kernels, feeds);
  }

  lemma InnerLeft(t: Nest, kernels: Kernels)
    requires t.Fits() && NestDepends(t)
    ensures LeftBehind(t.inner, kernels) == Deads(t.inner.Count())
  {
    hide Ordered, LoopDefs, ToGraph, Nest.View, Depends, Eval;
  }

  /** Not entered, a body whose inner loop starts from dead values only skips each node once. */
  lemma DeadBodyWithin(t: Nest, kernels: Kernels)
    requires t.Fits()
    requires forall i :: 0 <= i < t.inner.Count() ==> Depends(t.pre, (set n | n in t.outer.bodyIn), t.inner.inputs[i].node)
    ensures Within(Whole(t, kernels, NotEntered(t)), DeadFirings(t))
  {
    hide Ordered, LoopDefs, ToGraph, Nest.View, Within, FeedMap, LoopOf, Levelled, Inside, Whole, AtRoot, Controls, LoopLevels,
         Lowered, NeverLive, OutputDepends, Zeros, Plain, EntersAtTop;
    var feeds := NotEntered(t);
    var p, big, lp := Before(t, kernels, feeds), Inside(t, kernels, feeds), LoopOf(t.inner);
    NestFeeds(t, Deads(t.outer.Count()));
    InnerLowered(t, kernels, feeds);
    InnerLevelled(t, kernels, feeds);
    InnerPlain(t);
    EntersAtZero(t, kernels, feeds);
    AcyclicWithin(t.pre, t.outer.bodyIn, kernels, feeds);
    BuiltInputs(t.inner);
    InnerInputsDead(t, kernels);
    DeadWithin(lp, p, big, LoopLevels(lp, p, big, Zeros(t.pre), Zeros(t.inner.cond), Zeros(t.inner.body)), AtRoot(t.pre));
    PostWithin(t, kernels, feeds, AtRoot(t.pre) + Controls(lp, 1));
  }

  /** What the body inputs carry when the body is not entered. */
  function NotEntered(t: Nest): map<string, Token>
    requires t.Fits()
  {
    FeedMap(t.outer.bodyIn, Deads(t.outer.Count()))
  }

  lemma InnerInputsDead(t: Nest, kernels: Kernels)
    requires t.Fits()
    requires forall i :: 0 <= i < t.inner.Count() ==> Depends(t.pre, (set n | n in t.outer.bodyIn), t.inner.inputs[i].node)
    ensures forall i :: 0 <= i < t.inner.Count() ==> NeverLive(Before(t, kernels, NotEntered(t)), t.inner.inputs[i])
  {
    hide Ordered, LoopDefs, NeverLive, Denotes, Nest.View, OutputDepends;
    var ins := t.outer.bodyIn;
    FeedsOk(ins, Deads(|ins|));
    AllDead(ins);
    forall i | 0 <= i < t.inner.Count()
      ensures NeverLive(Before(t, kernels, FeedMap(ins, Deads(|ins|))), t.inner.inputs[i])
    {
      AcyclicMeaning(t.pre, ins, kernels, FeedMap(ins, Deads(|ins|)), t.inner.inputs[i]);
    }
  }

  // ----- an inner loop that starts from constants in part

  /** The nodes before the inner loop that depend on a body input. */
  ghost function DeadBefore(t: Nest): set<string> {
    set n | n in ToGraph(t.pre) && Depends(t.pre, (set m | m in t.outer.bodyIn), n)
  }

  /** Every variable of the inner loop that starts from what depends on a body input is tainted. */
  ghost predicate DeadComplete(t: Nest)
    requires t.Fits()
  {
    forall i :: 0 <= i < t.inner.Count() && Depends(t.pre, (set n | n in t.outer.bodyIn), t.inner.inputs[i].node) ==> i in t.tainted
  }

  /** Nodes that depend on a body input are skipped when the body is not entered. */
  lemma BeforeSkipped(t: Nest, kernels: Kernels, s: State<string>)
    requires t.Fits() && Reachable(Before(t, kernels, NotEntered(t)), s)
    ensures AllSkipped(s, DeadBefore(t))
  {
    hide Ordered, LoopDefs, ToGraph, Nest.View, NeverLive, Denotes, Depends, FeedMap;
    var ins, m := t.outer.bodyIn, Before(t, kernels, NotEntered(t));
    FeedsOk(ins, Deads(|ins|));
    AllDead(ins);
    forall f | f in s && f.node in DeadBefore(t)
      ensures s[f].Skipped?
    {
      OrderedOps(t.pre, ins, f.node);
      if f.node in ins {
        var i :| 0 <= i < |ins| && ins[i] == f.node;
        var run :| IsRun(m, run) && run[|run|-1] == s;
        PlaceholderFires(m, run, f);
      } else {
        AcyclicMeaning(t.pre, ins, kernels, NotEntered(t), Ref(f.node, CONTROL_SLOT));
        NeverFires(m, s, f);
      }
    }
  }

  /** A node that never passes on live control never fires. */
  lemma NeverFires(m: Machine<string>, s: State<string>, f: Firing<string>)
    requires Reachable(m, s) && f in s && f.node in m.graph && m.graph[f.node].op.Kernel?
    requires NeverLive(m, Ref(f.node, CONTROL_SLOT))
    ensures s[f].Skipped?
  {
    if s[f].Fired? {
      assert At(f.node, f.ctx) in s && Reaches(m.graph[f.node].op, f.ctx, s[f], f.ctx);
      assert Delivered(m, s, Ref(f.node, CONTROL_SLOT), f.ctx, Live(Tensor([])));
    }
  }

  /** Nodes that do not stay dead read from such nodes, but for Merge nodes that wait for the next iteration. */
  lemma InsideSaturated(t: Nest, kernels: Kernels, feeds: map<string, Token>)
    requires t.Fits() && feeds.Keys <= ToGraph(t.pre).Keys && TaintKept(t.inner, t.tainted) && DeadComplete(t)
    ensures Saturated(Inside(t, kernels, feeds).graph, DeadNodes(LoopOf(t.inner), t.Dead(), DeadBefore(t)))
  {
    hide Ordered, LoopDefs, ToGraph, Nest.View, LoopOf, Inside, Lowered, DeadComplete, DeadNodes, DeadBefore, Depends;
    var g, dead := Inside(t, kernels, feeds).graph, DeadNodes(LoopOf(t.inner), t.Dead(), DeadBefore(t));
    forall n, i | n in g && n !in dead && 0 <= i < |g[n].inputs| && g[n].inputs[i].node in dead
      ensures g[n].op.Merge? && g[n].inputs[i].node in g && g[g[n].inputs[i].node].op.NextIteration?
    {
      InsideReadsLive(t, kernels, feeds, n, i);
    }
  }

  lemma InsideReadsLive(t: Nest, kernels: Kernels, feeds: map<string, Token>, n: string, i: nat)
    requires t.Fits() && feeds.Keys <= ToGraph(t.pre).Keys && TaintKept(t.inner, t.tainted) && DeadComplete(t)
    requires var dead := DeadNodes(LoopOf(t.inner), t.Dead(), DeadBefore(t));
             var g := Inside(t, kernels, feeds).graph;
             n in g && n !in dead && i < |g[n].inputs| && g[n].inputs[i].node in dead
    ensures var g := Inside(t, kernels, feeds).graph;
            g[n].op.Merge? && g[n].inputs[i].node in g && g[g[n].inputs[i].node].op.NextIteration?
  {
    hide Ordered, LoopDefs, ToGraph, Nest.View, LoopOf, Inside, WellBuilt, Depends, NodeOf;
    var lp, g := LoopOf(t.inner), Inside(t, kernels, feeds).graph;
    var r := g[n].inputs[i];
    InnerLowered(t, kernels, feeds);
    if n in lp.roles {
      LoopNode(lp, Before(t, kernels, feeds), Inside(t, kernels, feeds), n);
      LoopReads(lp, lp.roles[n], i);
      if lp.roles[n].IsEnter? {
        EnterReadsLive(t, kernels, feeds, n, i);
      } else {
        TaintComplete(t.inner, t.tainted, lp.roles[n]);
        LoopNode(lp, Before(t, kernels, feeds), Inside(t, kernels, feeds), r.node);
        MergeAndNext(lp, lp.roles[n], lp.roles[r.node]);
      }
    } else {
      OrderedReads(t.pre, t.outer.bodyIn, n, i);
      DependsVia(t.pre, t.outer.bodyIn, (set m | m in t.outer.bodyIn), n);
    }
  }

  lemma MergeAndNext<N(!new)>(lp: Loop<N>, a: Role<N>, b: Role<N>)
    requires Shaped(lp) && RoleOk(lp, a) && RoleOk(lp, b)
    ensures a.IsMerge? ==> NodeOf(lp, a).op.Merge?
    ensures b.IsNext? ==> NodeOf(lp, b).op.NextIteration?
  {
  }

  /** An Enter node that does not stay dead reads from a node that does not depend on the body inputs. */
  lemma EnterReadsLive(t: Nest, kernels: Kernels, feeds: map<string, Token>, n: string, i: nat)
    requires t.Fits() && feeds.Keys <= ToGraph(t.pre).Keys && TaintKept(t.inner, t.tainted) && DeadComplete(t)
    requires n in LoopOf(t.inner).roles && LoopOf(t.inner).roles[n].IsEnter? && LoopOf(t.inner).roles[n] !in t.Dead()
    requires n in Inside(t, kernels, feeds).graph && i < |Inside(t, kernels, feeds).graph[n].inputs|
    ensures Inside(t, kernels, feeds).graph[n].inputs[i].node !in DeadNodes(LoopOf(t.inner), t.Dead(), DeadBefore(t))
  {
    hide Ordered, LoopDefs, ToGraph, Nest.View, LoopOf, Inside, WellBuilt, Depends;
    var lp := LoopOf(t.inner);
    InnerLowered(t, kernels, feeds);
    LoopNode(lp, Before(t, kernels, feeds), Inside(t, kernels, feeds), n);
    BuiltInputs(t.inner);
    assert lp.inputs[lp.roles[n].i].node in Before(t, kernels, feeds).graph;
  }

  /** What happens when the body is not entered, if the inner loop starts from constants in part. */
  ghost function PartlyDeadFirings(t: Nest, rounds: nat): set<Firing<string>>
    requires t.Fits()
  {
    AtRoot(t.pre) + (AtRoot(t.pre) + LoopActivations(t.inner, rounds)) + Controls(LoopOf(t.inner), 1) + AtRoot(t.post)
  }

  /**
   Not entered, a body whose inner loop starts from constants in part comes to rest if the inner loop does when
   entered with some values: what is not dead runs as it would run then.
   */
  lemma PartlyDeadWithin(t: Nest, kernels: Kernels, vs: seq<Value>, inner: seq<seq<Value>>)
    requires t.Fits() && NestDepends(t) && DeadComplete(t) && |vs| == t.outer.Count() && InnerTrace(t, kernels, vs, inner)
    ensures Within(Whole(t, kernels, NotEntered(t)), PartlyDeadFirings(t, |inner|))
  {
    hide Ordered, LoopDefs, ToGraph, Nest.View, Within, FeedMap, LoopOf, Levelled, Inside, Whole, AtRoot, Controls, LoopLevels,
         Lowered, NeverLive, OutputDepends, Zeros, Plain, EntersAtTop, DeadComplete, DeadNodes, DeadBefore, Consistent, DeadStarts,
         Saturated, Alike, AllSkipped, Depends, LoopFirings, InnerTrace;
    var feeds, live := NotEntered(t), FeedMap(t.outer.bodyIn, Lives(vs));
    var p, big, lp := Before(t, kernels, feeds), Inside(t, kernels, feeds), LoopOf(t.inner);
    NestFeeds(t, Deads(t.outer.Count()));
    InnerLowered(t, kernels, feeds);
    InnerLevelled(t, kernels, feeds);
    InnerPlain(t);
    EntersAtZero(t, kernels, feeds);
    AcyclicWithin(t.pre, t.outer.bodyIn, kernels, feeds);
    StartsDead(t, kernels);
    TaintConsistent(t.inner, t.tainted);
    InsideWithin(t, kernels, vs, inner);
    InsideAlike(t, kernels, vs);
    InsideSaturated(t, kernels, feeds);
    DeadBeforeInside(t);
    forall q | Reachable(p, q)
      ensures AllSkipped(q, DeadBefore(t))
    {
      BeforeSkipped(t, kernels, q);
    }
    var ll := LoopLevels(lp, p, big, Zeros(t.pre), Zeros(t.inner.cond), Zeros(t.inner.body));
    SomeDeadWithin(lp, p, big, Inside(t, kernels, live), ll, t.Dead(), DeadBefore(t), AtRoot(t.pre),
                   AtRoot(t.pre) + LoopActivations(t.inner, |inner|));
    PostWithin(t, kernels, feeds, AtRoot(t.pre) + (AtRoot(t.pre) + LoopActivations(t.inner, |inner|)) + Controls(lp, 1));
  }

  lemma DeadBeforeInside(t: Nest)
    ensures DeadBefore(t) <= ToGraph(t.pre).Keys
  {
  }

  /** Entered or not, the body differs in what its inputs are fed with, and all of them stay dead if it is not. */
  lemma InsideAlike(t: Nest, kernels: Kernels, vs: seq<Value>)
    requires t.Fits() && |vs| == t.outer.Count()
    ensures Alike(Inside(t, kernels, NotEntered(t)), Inside(t, kernels, FeedMap(t.outer.bodyIn, Lives(vs))),
                  DeadNodes(LoopOf(t.inner), t.Dead(), DeadBefore(t)))
  {
    hide Ordered, LoopDefs, ToGraph, Nest.View, LoopOf, FeedMap, Depends;
    FeedsOk(t.outer.bodyIn, Lives(vs));
    FeedsOk(t.outer.bodyIn, Deads(t.outer.Count()));
    forall n | n in t.outer.bodyIn
      ensures n in DeadBefore(t)
    {
      DependsVia(t.pre, t.outer.bodyIn, (set m | m in t.outer.bodyIn), n);
    }
  }

  lemma InnerPlain(t: Nest)
    requires t.Fits()
    ensures Plain(LoopOf(t.inner))
  {
    hide Ordered, LoopDefs, Nest.View, LoopOf;
    SplicesOf(t.inner);
    forall n | n in ToGraph(t.inner.cond)
      ensures ToGraph(t.inner.cond)[n].op.Kernel? || ToGraph(t.inner.cond)[n].op.Placeholder?
    {
      OrderedOps(t.inner.cond, t.inner.condIn, n);
    }
    forall n | n in ToGraph(t.inner.body)
      ensures ToGraph(t.inner.body)[n].op.Kernel? || ToGraph(t.inner.body)[n].op.Placeholder?
    {
      OrderedOps(t.inner.body, t.inner.bodyIn, n);
    }
  }

  lemma EntersAtZero(t: Nest, kernels: Kernels, feeds: map<string, Token>)
    requires t.Fits() && feeds.Keys <= ToGraph(t.pre).Keys
    ensures var lp, p, big := LoopOf(t.inner), Before(t, kernels, feeds), Inside(t, kernels, feeds);
            var ll := LoopLevels(lp, p, big, Zeros(t.pre), Zeros(t.inner.cond), Zeros(t.inner.body));
            EntersAtTop(lp, ll)
  {
    hide Ordered, LoopDefs, ToGraph, Nest.View, LoopOf, Zeros, WellBuilt;
    InnerLowered(t, kernels, feeds);
  }

  // ----- the theorem

  /** Bounds on the body of the outer loop, round by round; in the last round it is not entered and stays within `rest`. */
  ghost function NestRounds(t: Nest, inner: seq<seq<seq<Value>>>, rest: set<Firing<string>>): seq<set<Firing<string>>>
    requires t.Fits()
  {
    seq(|inner| + 1, k requires 0 <= k < |inner| + 1 => if k < |inner| then EnteredFirings(t, |inner[k]|) else rest)
  }

  ghost function NestActivations(t: Nest, inner: seq<seq<seq<Value>>>, rest: set<Firing<string>>): set<Firing<string>>
    requires t.Fits()
  {
    LoopFirings(LoopOf(t.outer), Rounds(t.outer.cond, |inner| + 1), NestRounds(t, inner, rest))
  }

  ghost function NestBuilt(t: Nest, p: Machine<string>, vals: seq<seq<Value>>): Instance<string>
    requires t.outer.Sized()
  {
    Instance(LoopOf(t.outer), p, WithLoop(p, t.outer), vals, Deads(t.outer.Count()))
  }

  lemma NestSources(t: Nest, p: Machine<string>, vals: seq<seq<Value>>, inner: seq<seq<seq<Value>>>,
                    rest: set<Firing<string>>)
    requires t.Fits() && NestDepends(t) && NestTrace(t, p.kernels, vals, inner) && NestBuilt(t, p, vals).Placed()
    requires Within(Whole(t, p.kernels, NotEntered(t)), rest)
    ensures SourcesWithin(NestBuilt(t, p, vals), Rounds(t.outer.cond, |vals|), NestRounds(t, inner, rest))
  {
    hide Ordered, LoopDefs, ToGraph, Nest.View, Within, FeedMap, LoopOf, WithLoop, AtRoot, Eval, Depends, OutputDepends,
         EnteredFirings, Whole, Lowered, WellBuilt, SplicedOn, InnerTrace;
    var it := NestBuilt(t, p, vals);
    SplicesOf(t.outer);
    SameKernels(p, t.outer);
    forall k | 0 <= k < |vals|
      ensures Within(CondMachine(it.lp, it.big.kernels, it.vals[k]), AtRoot(t.outer.cond))
    {
      AcyclicWithin(t.outer.cond, t.outer.condIn, p.kernels, FeedMap(t.outer.condIn, Lives(vals[k])));
    }
    forall k | 0 <= k < |vals|
      ensures Within(BodyMachine(it.lp, it.big.kernels, it.BodyTokens(k)), NestRounds(t, inner, rest)[k])
    {
      WholeIsBody(t, p.kernels, it.BodyTokens(k));
      if k < |vals| - 1 {
        EnteredWithin(t, p.kernels, vals[k], inner[k]);
      } else {
        assert it.BodyTokens(k) == Deads(t.outer.Count());
      }
    }
  }

  lemma NestBodyLevels(t: Nest, p: Machine<string>, vals: seq<seq<Value>>)
    requires t.Fits() && NestBuilt(t, p, vals).Placed()
    ensures BodyLevelled(NestBuilt(t, p, vals), NestLevels(t))
  {
    hide Ordered, LoopDefs, ToGraph, Nest.View, Nest.ViewIns, FeedMap, LoopOf, WithLoop, Levelled, Whole, Lowered, WellBuilt,
         SplicedOn, NestLevels;
    var it := NestBuilt(t, p, vals);
    SplicesOf(t.outer);
    SameKernels(p, t.outer);
    forall k | 0 <= k < |vals|
      ensures Levelled(BodyMachine(it.lp, it.big.kernels, it.BodyTokens(k)), NestLevels(t))
    {
      WholeIsBody(t, p.kernels, it.BodyTokens(k));
      NestFeeds(t, it.BodyTokens(k));
      WholeLevelled(t, p.kernels, FeedMap(t.outer.bodyIn, it.BodyTokens(k)));
    }
    forall j | 0 <= j < t.outer.Count()
      ensures var r := t.outer.bodyOut[j];
              r.node in ToGraph(t.outer.body) && r.node in NestLevels(t) && LevelOf(ToGraph(t.outer.body), NestLevels(t), r) == 0
    {
      ReadLevel(t, t.outer.bodyOut[j]);
    }
  }

  lemma NestBounded(nodes: seq<Slot>, names: map<string, nat>, t: Nest, reg: Registry, p: Machine<string>,
                    vals: seq<seq<Value>>, inner: seq<seq<seq<Value>>>, bound: set<Firing<string>>, rest: set<Firing<string>>)
    requires NestStops(nodes, names, t, reg, p, vals, inner) && Within(p, bound)
    requires Within(Whole(t, p.kernels, NotEntered(t)), rest)
    ensures t.outer.Sized() && t.inner.Sized() && t.Fits() && |vals| == |inner| + 1 && NestBuilt(t, p, vals).Valid()
    ensures Bounded(NestBuilt(t, p, vals), NestLevels(t), bound, Rounds(t.outer.cond, |vals|), NestRounds(t, inner, rest))
  {
    hide Ordered, LoopDefs, ToGraph, Nest.View, Within, LoopOf, WithLoop, Runs, Instance.Valid, Parent, Buildable, SourcesWithin,
         BodyLevelled, NestLevels, NestDepends, Eval, CondValue;
    NestRuns(nodes, names, t, reg, p, vals, inner);
    InstanceValid(LoopOf(t.outer), p, WithLoop(p, t.outer), vals);
    ValidShaped(NestBuilt(t, p, vals));
    NestSources(t, p, vals, inner, rest);
    NestBodyLevels(t, p, vals);
  }

  /**
   Total correctness for a loop inside a loop: if the body comes to rest when it is not entered, no schedule is
   longer than the parent and the rounds of the two source loops allow, and every run goes on to one at rest with
   the final values delivered.
   */
  lemma NestTerminates(nodes: seq<Slot>, names: map<string, nat>, t: Nest, reg: Registry, p: Machine<string>,
                       vals: seq<seq<Value>>, inner: seq<seq<seq<Value>>>, bound: set<Firing<string>>, rest: set<Firing<string>>,
                       run: seq<State<string>>)
    returns (longer: seq<State<string>>)
    requires NestStops(nodes, names, t, reg, p, vals, inner) && Within(p, bound) && IsRun(WithLoop(p, t.outer), run)
    requires Within(Whole(t, p.kernels, NotEntered(t)), rest)
    ensures |run| <= |bound| + |NestActivations(t, inner, rest)| + 1
    ensures IsRun(WithLoop(p, t.outer), longer) && run <= longer && Quiescent(WithLoop(p, t.outer), longer[|longer|-1])
    ensures forall i :: 0 <= i < t.outer.Count() ==>
              Delivered(WithLoop(p, t.outer), longer[|longer|-1], Ref(Name(t.outer.name, ExitF, Decimal(i)), 0), Root,
                        Live(vals[|vals|-1][i]))
  {
    hide NestStops, Nest.Fits, Instance.Valid, Bounded, LoopFirings, Delivered, Quiescent, LoopOf, WithLoop, IsRun, Step, Name,
         NestRounds, Rounds, NestLevels;
    NestBounded(nodes, names, t, reg, p, vals, inner, bound, rest);
    NestSizes(nodes, names, t, reg, p, vals, inner);
    var big, cb, bb := WithLoop(p, t.outer), Rounds(t.outer.cond, |vals|), NestRounds(t, inner, rest);
    LoopWithin(NestBuilt(t, p, vals), NestLevels(t), bound, cb, bb);
    var all := LoopFirings(LoopOf(t.outer), cb, bb);
    WithinBoundsRuns(big, bound + all, run);
    JoinSize(bound, all);
    longer := WithinRests(big, bound + all, run);
    LastReachable(big, longer);
    forall i | 0 <= i < t.outer.Count()
      ensures Delivered(big, longer[|longer|-1], Ref(Name(t.outer.name, ExitF, Decimal(i)), 0), Root, Live(vals[|vals|-1][i]))
    {
      NestedComputes(nodes, names, t, reg, p, vals, inner, i);
    }
  }

  lemma NestSizes(nodes: seq<Slot>, names: map<string, nat>, t: Nest, reg: Registry, p: Machine<string>,
                  vals: seq<seq<Value>>, inner: seq<seq<seq<Value>>>)
    requires NestStops(nodes, names, t, reg, p, vals, inner)
    ensures |vals| > 0 && forall k :: 0 <= k < |vals| ==> |vals[k]| == t.outer.Count()
  {
  }
}
