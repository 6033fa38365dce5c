/**
 When a finished while loop comes to rest.  If only finitely many activations are possible in the
 parent graph and the source loop stops, then the loop stays within the rounds of the source loop
 exactly if every body output depends on an input of the body; and then no schedule runs forever.
 */
module WhileTermination {
  import opened Dataflow
  import opened Acyclic
  import opened WhileLoops
  import opened LoopTheorems
  import opened Levels
  import opened LoopBounds
  import opened GraphApi
  import opened LoopNames
  import opened WhileBuilder
  import opened FinishWhile
  import opened WhileTheorem

  /** The activations of an acyclic graph. */
  ghost function AtRoot<N(!new)>(l: seq<NodeDef<N>>): set<Firing<N>> {
    set n | n in ToGraph(l) :: At(n, Root)
  }

  /** An acyclic graph runs each node at most once, at top level. */
  lemma AcyclicWithin<N(!new)>(l: seq<NodeDef<N>>, ins: seq<N>, kernels: Kernels, feeds: map<N, Token>)
    requires Ordered(l, ins)
    ensures Within(Machine(ToGraph(l), kernels, feeds), AtRoot(l))
  {
    var m := Machine(ToGraph(l), kernels, feeds);
    forall n | n in ToGraph(l)
      ensures m.graph[n].op.Placeholder? || m.graph[n].op.Kernel?
    {
      OrderedOps(l, ins, n);
    }
    forall s | Reachable(m, s)
      ensures s.Keys <= AtRoot(l)
    {
      var run :| IsRun(m, run) && run[|run|-1] == s;
      AllAtRoot(m, run);
      forall f | f in s
        ensures f in AtRoot(l)
      {
        assert f == At(f.node, Root);
      }
    }
  }

  /** The activations that `rounds` iterations of the loop may have. */
  ghost function LoopActivations(src: Source, rounds: nat): set<Firing<string>>
    requires src.Sized()
  {
    LoopFirings(LoopOf(src), Rounds(src.cond, rounds), Rounds(src.body, rounds))
  }

  ghost function Rounds(defs: seq<Def>, rounds: nat): seq<set<Firing<string>>> {
    seq(rounds, _ => AtRoot(defs))
  }

  lemma BuiltBounded(nodes: seq<Slot>, names: map<string, nat>, src: Source, reg: Registry,
                     p: Machine<string>, vals: seq<seq<Value>>, bound: set<Firing<string>>)
    requires Started(nodes, names, src, reg, p, vals) && Within(p, bound)
    ensures src.Sized() && Distinct(src.bodyIn) && Built(src, p, vals).Valid()
    ensures Bounded(Built(src, p, vals), Zeros(src.body), bound, Rounds(src.cond, |vals|), Rounds(src.body, |vals|))
  {
    hide Buildable, LoopDefs, Indexed, Denotes, RoleMap, Instance.Valid, Eval, LoopOf, WithLoop, FeedMap, Parent, Lives,
         Within, SpliceOf, OutputDepends, Levelled, AtRoot, Zeros, Ordered, LoopTrace;
    BuiltValid(nodes, names, src, reg, p, vals);
    TraceSizes(src, p.kernels, vals);
    ValidShaped(Built(src, p, vals));
    SplicesOf(src);
    SameKernels(p, src);
    BuiltSources(src, p, vals);
    BuiltLevels(src, p, vals);
  }

  lemma BuiltSources(src: Source, p: Machine<string>, vals: seq<seq<Value>>)
    requires AcyclicSource(src) && Built(src, p, vals).Placed()
    ensures SourcesWithin(Built(src, p, vals), Rounds(src.cond, |vals|), Rounds(src.body, |vals|))
  {
    hide Lowered, WellBuilt, RoleMap, SplicedOn, Ordered, Within, FeedMap, AtRoot;
    var it := Built(src, p, vals);
    forall k | 0 <= k < |vals|
      ensures Within(CondMachine(it.lp, it.big.kernels, it.vals[k]), AtRoot(src.cond))
      ensures Within(BodyMachine(it.lp, it.big.kernels, it.BodyTokens(k)), AtRoot(src.body))
    {
      AcyclicWithin(src.cond, src.condIn, p.kernels, FeedMap(src.condIn, Lives(vals[k])));
      AcyclicWithin(src.body, src.bodyIn, p.kernels, FeedMap(src.bodyIn, it.BodyTokens(k)));
    }
  }

  lemma BuiltLevels(src: Source, p: Machine<string>, vals: seq<seq<Value>>)
    requires AcyclicSource(src) && Built(src, p, vals).Placed()
    ensures BodyLevelled(Built(src, p, vals), Zeros(src.body))
  {
    hide Lowered, WellBuilt, RoleMap, SplicedOn, Ordered, Levelled, FeedMap;
    var it := Built(src, p, vals);
    forall k | 0 <= k < |vals|
      ensures Levelled(BodyMachine(it.lp, it.big.kernels, it.BodyTokens(k)), Zeros(src.body))
    {
      AcyclicLevelled(src.body, src.bodyIn, p.kernels, FeedMap(src.bodyIn, it.BodyTokens(k)));
    }
    forall i | 0 <= i < src.Count()
      ensures LevelOf(ToGraph(src.body), Zeros(src.body), src.bodyOut[i]) == 0
    {
      OrderedOps(src.body, src.bodyIn, src.bodyOut[i].node);
    }
  }

  // ----- loops whose body outputs depend on the inputs

  /**
   Total correctness of the lowering: if only finitely many activations are possible in the parent
   graph, no schedule of the graph with the loop runs forever, and every run goes on to one at rest,
   in which every loop output carries the value of the source loop.
   */
  lemma WhileTerminates(nodes: seq<Slot>, names: map<string, nat>, src: Source, reg: Registry,
                        p: Machine<string>, vals: seq<seq<Value>>, bound: set<Firing<string>>, run: seq<State<string>>)
    returns (longer: seq<State<string>>)
    requires Stops(nodes, names, src, reg, p, vals) && Within(p, bound) && IsRun(WithLoop(p, src), run)
    ensures |run| <= |bound| + |LoopActivations(src, |vals|)| + 1
    ensures IsRun(WithLoop(p, src), longer) && run <= longer && Quiescent(WithLoop(p, src), longer[|longer|-1])
    ensures forall i :: 0 <= i < src.Count() ==>
              Delivered(WithLoop(p, src), longer[|longer|-1], Ref(Name(src.name, ExitF, Decimal(i)), 0), Root,
                        Live(vals[|vals|-1][i]))
  {
    hide Started, Instance.Valid, Bounded, LoopFirings, Delivered, Quiescent, RoleMap, LoopOf, WithLoop, Runs, IsRun, Step,
         OutputDepends, Name, LeftBehind;
    BuiltBounded(nodes, names, src, reg, p, vals, bound);
    BuiltLoopRuns(nodes, names, src, reg, p, vals);
    StartedSized(nodes, names, src, reg, p, vals);
    var big, it := WithLoop(p, src), Built(src, p, vals);
    var cb, bb := Rounds(src.cond, |vals|), Rounds(src.body, |vals|);
    LoopWithin(it, Zeros(src.body), bound, cb, bb);
    var all := LoopFirings(LoopOf(src), cb, bb);
    WithinBoundsRuns(big, bound + all, run);
    JoinSize(bound, all);
    longer := WithinRests(big, bound + all, run);
    LastReachable(big, longer);
    forall i | 0 <= i < src.Count()
      ensures Delivered(big, longer[|longer|-1], Ref(Name(src.name, ExitF, Decimal(i)), 0), Root, Live(vals[|vals|-1][i]))
    {
      WhileComputes(nodes, names, src, reg, p, vals, i);
    }
  }

  lemma LastReachable<N(!new)>(m: Machine<N>, run: seq<State<N>>)
    requires IsRun(m, run)
    ensures |run| > 0 && Reachable(m, run[|run|-1])
  {
  }

  // ----- loops whose body has an output that does not

  /** Some variable has entered the iteration after the last one of the source loop. */
  ghost predicate Overruns(src: Source, rounds: nat, s: State<string>) {
    exists i :: 0 <= i < src.Count() && At(Name(src.name, MergeF, Decimal(i)), Frame(Root, src.name, rounds)) in s
  }

  lemma OverrunsIff(nodes: seq<Slot>, names: map<string, nat>, src: Source, reg: Registry,
                    p: Machine<string>, vals: seq<seq<Value>>, s: State<string>)
    requires Started(nodes, names, src, reg, p, vals)
    ensures src.Sized() && Distinct(src.bodyIn) && Built(src, p, vals).Valid()
    ensures Overruns(src, |vals|, s) <==> !Built(src, p, vals).Contained(s)
  {
    hide Started, Instance.Valid, Instance.Placed, RoleMap, LoopOf, WithLoop, LeftBehind, Name;
    BuiltValid(nodes, names, src, reg, p, vals);
    ValidShaped(Built(src, p, vals));
  }

  /**
   Where the lowering does not preserve meaning: if some body output does not depend on the body's
   inputs, every run goes on into the iteration after the one in which the condition became false,
   and no run that is longer than the rounds of the source loop allow has stayed out of it.
   */
  lemma WhileRunsOn(nodes: seq<Slot>, names: map<string, nat>, src: Source, reg: Registry,
                    p: Machine<string>, vals: seq<seq<Value>>, bound: set<Firing<string>>, j: nat, run: seq<State<string>>)
    returns (longer: seq<State<string>>)
    requires Started(nodes, names, src, reg, p, vals) && Within(p, bound) && IsRun(WithLoop(p, src), run)
    requires j < src.Count() && !OutputDepends(src, j)
    ensures IsRun(WithLoop(p, src), longer) && run <= longer && Overruns(src, |vals|, longer[|longer|-1])
    ensures |run| > |bound| + |LoopActivations(src, |vals|)| + 1 ==> Overruns(src, |vals|, run[|run|-1])
  {
    BuiltBounded(nodes, names, src, reg, p, vals, bound);
    LeftLive(src, p.kernels, j);
    hide Started, Instance.Valid, Bounded, LoopFirings, RoleMap, LoopOf, WithLoop, IsRun, Overruns, Instance.Contained,
         OutputDepends;
    BuiltValid(nodes, names, src, reg, p, vals);
    longer := LoopRunsOn(Built(src, p, vals), Zeros(src.body), bound, Rounds(src.cond, |vals|),
                         Rounds(src.body, |vals|), j, run);
    LastReachable(WithLoop(p, src), run);
    LastReachable(WithLoop(p, src), longer);
    OverrunsIff(nodes, names, src, reg, p, vals, run[|run|-1]);
    OverrunsIff(nodes, names, src, reg, p, vals, longer[|longer|-1]);
  }

  lemma LeftLive(src: Source, kernels: Kernels, j: nat)
    requires AcyclicSource(src) && j < src.Count() && !OutputDepends(src, j)
    ensures LeftBehind(src, kernels)[j].Live?
  {
  }

  /** The loop stays within the rounds of the source loop exactly if every body output depends on a body input. */
  lemma WhileStopsIff(nodes: seq<Slot>, names: map<string, nat>, src: Source, reg: Registry,
                      p: Machine<string>, vals: seq<seq<Value>>, bound: set<Firing<string>>)
    requires Started(nodes, names, src, reg, p, vals) && Within(p, bound)
    ensures (forall s :: Reachable(WithLoop(p, src), s) ==> !Overruns(src, |vals|, s)) <==>
            (forall j :: 0 <= j < src.Count() ==> OutputDepends(src, j))
  {
    hide Started, Overruns, OutputDepends, IsRun, Step;
    StartedSized(nodes, names, src, reg, p, vals);
    if j :| 0 <= j < src.Count() && !OutputDepends(src, j) {
      var run := FirstRun(WithLoop(p, src));
      var longer := WhileRunsOn(nodes, names, src, reg, p, vals, bound, j, run);
      LastReachable(WithLoop(p, src), longer);
    } else {
      forall s | Reachable(WithLoop(p, src), s)
        ensures !Overruns(src, |vals|, s)
      {
        StopsWithin(nodes, names, src, reg, p, vals, s);
      }
    }
  }

  lemma StartedSized(nodes: seq<Slot>, names: map<string, nat>, src: Source, reg: Registry,
                     p: Machine<string>, vals: seq<seq<Value>>)
    requires Started(nodes, names, src, reg, p, vals)
    ensures src.Sized() && |vals| > 0 && forall k :: 0 <= k < |vals| ==> |vals[k]| == src.Count()
  {
  }

  lemma FirstRun<N(!new)>(m: Machine<N>) returns (run: seq<State<N>>)
    ensures IsRun(m, run)
  {
    run := [map[]];
  }

  lemma StopsWithin(nodes: seq<Slot>, names: map<string, nat>, src: Source, reg: Registry,
                    p: Machine<string>, vals: seq<seq<Value>>, s: State<string>)
    requires Stops(nodes, names, src, reg, p, vals) && Reachable(WithLoop(p, src), s)
    ensures !Overruns(src, |vals|, s)
  {
    hide Buildable, AcyclicSource, Parent, LoopTrace, Instance.Valid, Runs, Reachable, RoleMap, LoopOf, WithLoop;
    BuiltLoopRuns(nodes, names, src, reg, p, vals);
    if i :| 0 <= i < src.Count() && At(Name(src.name, MergeF, Decimal(i)), Frame(Root, src.name, |vals|)) in s {
      NeverEnters(LoopOf(src), p, WithLoop(p, src), vals, s, i);
    }
  }

  lemma NeverEnters<N(!new)>(lp: Loop<N>, p: Machine<N>, big: Machine<N>, vals: seq<seq<Value>>, s: State<N>, i: nat)
    requires Runs(lp, p, big, vals) && Reachable(big, s) && i < |lp.inputs|
    ensures At(lp.merge[i], Frame(Root, lp.frame, |vals|)) !in s
  {
    hide Lowered, Iterates, StopsDead, InputsDenote, Reachable, WellBuilt;
    if At(lp.merge[i], Frame(Root, lp.frame, |vals|)) in s {
      LoopStops(lp, p, big, vals, s, IsMerge(i), Frame(Root, lp.frame, |vals|));
    }
  }
}
