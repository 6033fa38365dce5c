/**
 A loop that the lowering gets wrong: "x := 20; while (x < 10) x := 5".  The source loop stops at
 once, but the constant in the body is controlled by the Switch node, which also runs when the
 condition is false, so the finished graph goes on to the next iteration.
 */
module ConstantBody {
  import opened Dataflow
  import opened Acyclic
  import opened Splices
  import opened WhileLoops
  import opened LoopBounds
  import opened LoopNames
  import opened WhileBuilder
  import opened FinishWhile
  import opened WhileTheorem
  import opened WhileTermination
  import opened TestGraphs
  import opened EndlessLoop

  const TEN: Def := Constant("scalar", "Const 10")
  const LESS: Def := Binary("less_than", "Less", "cond_input0", "scalar")
  const COND2: seq<Def> := [Input("cond_input0")] + [TEN]
  const FIVE: Def := Constant("scalar", "Const 5")

  const LOOP: Source := Source(
    "test_loop", [Ref("p0", 0)],
    COND2 + [LESS], ["cond_input0"], Ref("less_than", 0),
    [Input("body_input0")] + [FIVE], ["body_input0"], [Ref("scalar", 0)])

  lemma LoopAcyclic()
    ensures AcyclicSource(LOOP)
  {
    SingleInput("cond_input0");
    OrderedMore([Input("cond_input0")], TEN, LOOP.condIn);
    OneMore([Input("cond_input0")], TEN);
    OrderedMore(COND2, LESS, LOOP.condIn);
    OneMore(COND2, LESS);
    SingleInput("body_input0");
    OrderedMore([Input("body_input0")], FIVE, LOOP.bodyIn);
    OneMore([Input("body_input0")], FIVE);
    hide Ordered, ToGraph;
  }

  /** The condition is false from the start. */
  lemma SourceStops()
    ensures Distinct(LOOP.condIn) && Distinct(LOOP.bodyIn) && LoopTrace(LOOP, Scalars, [[Tensor([20])]])
  {
    hide Eval;
    var feeds := FeedMap(["cond_input0"], Lives([Tensor([20])]));
    OneValue("cond_input0", Scalars, 20);
    EvalOther([Input("cond_input0")], TEN, Scalars, feeds, Ref("cond_input0", 0));
    EvalConstant([Input("cond_input0")], TEN, Scalars, feeds);
    EvalBinary(COND2, LESS, Scalars, feeds);
  }

  lemma OutputIsConstant()
    ensures !OutputDepends(LOOP, 0)
  {
    hide Depends;
    DependsLast([Input("body_input0")], FIVE, set n | n in LOOP.bodyIn);
  }

  lemma ValidNames()
    ensures ValidNodeName("cond_input0") && ValidNodeName("less_than") && ValidNodeName("body_input0") && ValidNodeName("scalar")
    ensures ValidNodeName(Bare("test_loop", CondF)) && ValidNodeName(Bare("test_loop", BodyF))
  {
    assert Bare("test_loop", CondF) == "test_loop/cond";
    assert Bare("test_loop", BodyF) == "test_loop/body";
  }

  lemma LoopBuilds()
    ensures LOOP.Sized() && Buildable(INDEX, LOOP, Lenient())
  {
    hide Buildable, LoopDefs, StartsWith, ValidNodeName, CopyDefs, SpliceOf, Bare;
    ValidNames();
    assert NamesOf(LOOP.cond)[0] == "cond_input0" && NamesOf(LOOP.cond)[1] == "scalar";
    assert OutputExists(LOOP.cond, Lenient(), LOOP.condOut) by { assert LOOP.cond[2].name == "less_than"; }
    assert OutputExists(LOOP.body, Lenient(), LOOP.bodyOut[0]) by { assert LOOP.body[1].name == "scalar"; }
    NotUnder("test_loop");
    FreshNameBuilds(INDEX, LOOP, Lenient());
  }

  lemma LoopStarted()
    ensures Started(NODES, INDEX, LOOP, Lenient(), ParentMachine(20, 0), [[Tensor([20])]])
  {
    hide AcyclicGraph, Parent, Buildable, LoopTrace, Denotes;
    LoopAcyclic();
    ParentIsParent(LOOP, 20, 0);
    LoopBuilds();
    SourceStops();
    ParentDenotes(20, 0);
  }

  /**
   The call succeeds and the source loop stops after no round, but every run of the finished graph
   goes on into a second iteration, and every run of a certain length has done so.
   */
  lemma ConstantBodyRunsOn(run: seq<State<string>>) returns (longer: seq<State<string>>)
    requires IsRun(WithLoop(ParentMachine(20, 0), LOOP), run)
    ensures Buildable(INDEX, LOOP, Lenient()) && Distinct(LOOP.condIn) && Distinct(LOOP.bodyIn)
    ensures LoopTrace(LOOP, Scalars, [[Tensor([20])]])
    ensures IsRun(WithLoop(ParentMachine(20, 0), LOOP), longer) && run <= longer && longer != []
    ensures At(Name("test_loop", MergeF, Decimal(0)), Frame(Root, "test_loop", 1)) in longer[|longer|-1]
    ensures run != []
    ensures |run| > |AtRoot([Input("p0")] + [Input("p1")])| + |LoopActivations(LOOP, 1)| + 1 ==>
              At(Name("test_loop", MergeF, Decimal(0)), Frame(Root, "test_loop", 1)) in run[|run|-1]
  {
    hide Started, IsRun, WithLoop, Within, OutputDepends, LoopTrace, Buildable, Name, Overruns, ParentMachine, LoopActivations,
         AtRoot, Decimal;
    LoopBuilds();
    SourceStops();
    LoopStarted();
    OutputIsConstant();
    ParentWithin(20, 0);
    var bound := AtRoot([Input("p0")] + [Input("p1")]);
    longer := WhileRunsOn(NODES, INDEX, LOOP, Lenient(), ParentMachine(20, 0), [[Tensor([20])]], bound, 0, run);
    LastReachable(WithLoop(ParentMachine(20, 0), LOOP), longer);
    LastReachable(WithLoop(ParentMachine(20, 0), LOOP), run);
    OverrunIsSecond(longer[|longer|-1]);
    if Overruns(LOOP, 1, run[|run|-1]) {
      OverrunIsSecond(run[|run|-1]);
    }
  }

  lemma OverrunIsSecond(s: State<string>)
    requires Overruns(LOOP, 1, s)
    ensures At(Name("test_loop", MergeF, Decimal(0)), Frame(Root, "test_loop", 1)) in s
  {
  }

  // ----- what a caller sees

  ghost function LoopCells(): Cells<string> {
    Cells(Ref("p0", 0), "test_loop", Name("test_loop", EnterF, Decimal(0)), Name("test_loop", MergeF, Decimal(0)),
          Name("test_loop", CondF, "scalar"), Name("test_loop", CondF, "less_than"), Name("test_loop", SwitchF, Decimal(0)),
          Name("test_loop", BodyF, "scalar"), Name("test_loop", NextF, Decimal(0)))
  }

  /** The two copied graphs, and what their inputs are replaced by. */
  lemma CondCopies()
    ensures var sp, c := LOOP.CondSplice(), LoopCells();
            && sp.pivot == c.merge && sp.inputMap == map[Ref("cond_input0", 0) := Ref(c.merge, 0)]
            && "scalar" in sp.rename && sp.rename["scalar"] == c.ten && "less_than" in sp.rename && sp.rename["less_than"] == c.less
            && "scalar" in sp.src && sp.src["scalar"] == TEN.node && "less_than" in sp.src && sp.src["less_than"] == LESS.node
            && "scalar" in ToGraph(LOOP.cond) && "less_than" in ToGraph(LOOP.cond)
  {
    hide Name, Decimal;
    SingleInput("cond_input0");
    OneMore([Input("cond_input0")], TEN);
    OneMore(COND2, LESS);
    OneInputMap("cond_input0", Ref(LoopCells().merge, 0));
    assert LOOP.Names(MergeF) == [LoopCells().merge];
    assert Refs(LOOP.Names(MergeF), 0) == [Ref(LoopCells().merge, 0)];
  }

  lemma BodyCopies()
    ensures var sp, c := LOOP.BodySplice(), LoopCells();
            && sp.pivot == c.switch && sp.inputMap == map[Ref("body_input0", 0) := Ref(c.switch, 1)]
            && "scalar" in sp.rename && sp.rename["scalar"] == c.five && "scalar" in sp.src && sp.src["scalar"] == FIVE.node
            && "scalar" in ToGraph(LOOP.body)
  {
    hide Name, Decimal;
    SingleInput("body_input0");
    OneMore([Input("body_input0")], FIVE);
    OneInputMap("body_input0", Ref(LoopCells().switch, 1));
    assert LOOP.Names(SwitchF) == [LoopCells().switch];
    assert Refs(LOOP.Names(SwitchF), 1) == [Ref(LoopCells().switch, 1)];
  }

  lemma OneInputMap(n: string, r: Ref<string>)
    ensures InputMap([n], [r]) == map[Ref(n, 0) := r]
  {
    assert [n][..0] == [] && [r][..0] == [];
  }

  /** The finished graph has the seven nodes. */
  lemma LoopWired()
    ensures Wired(WithLoop(ParentMachine(20, 0), LOOP), LoopCells())
  {
    hide Buildable, LoopDefs, Ordered, Lowered, Name, Decimal, ParentMachine, SpliceOf, Parent, AcyclicGraph;
    var p := ParentMachine(20, 0);
    LoopStarted();
    LoopAcyclic();
    AcyclicGood(LOOP);
    ParentLowered(NODES, INDEX, LOOP, Lenient(), p);
    SameScalars(20, 0);
    SplicesOf(LOOP);
    ControlNodes(p);
    CopiedNodes(p);
  }

  lemma ControlNodes(p: Machine<string>)
    requires Lowered(LoopOf(LOOP), p, WithLoop(p, LOOP))
    ensures var g, c := WithLoop(p, LOOP).graph, LoopCells();
            && c.enter in g && g[c.enter] == Node(Enter("test_loop"), [Ref("p0", 0)])
            && c.merge in g && g[c.merge] == Node(Merge, [Ref(c.enter, 0), Ref(c.next, 0)])
            && c.switch in g && g[c.switch] == Node(Switch, [Ref(c.merge, 0), Ref(c.less, 0)])
            && c.next in g && g[c.next] == Node(NextIteration, [Ref(c.five, 0)])
  {
    hide LoopDefs, Lowered, Name, Decimal, SpliceOf, ToGraph, RoleMap, WithLoop;
    CondCopies();
    BodyCopies();
    RoleFacts(LOOP, p, WithLoop(p, LOOP), IsEnter(0));
    RoleFacts(LOOP, p, WithLoop(p, LOOP), IsMerge(0));
    RoleFacts(LOOP, p, WithLoop(p, LOOP), IsSwitch(0));
    RoleFacts(LOOP, p, WithLoop(p, LOOP), IsNext(0));
  }

  lemma CopiedNodes(p: Machine<string>)
    requires Lowered(LoopOf(LOOP), p, WithLoop(p, LOOP))
    ensures var g, c := WithLoop(p, LOOP).graph, LoopCells();
            && c.ten in g && g[c.ten] == Node(Kernel("Const 10"), [Ref(c.merge, CONTROL_SLOT)])
            && c.less in g && g[c.less] == Node(Kernel("Less"), [Ref(c.merge, 0), Ref(c.ten, 0)])
            && c.five in g && g[c.five] == Node(Kernel("Const 5"), [Ref(c.switch, CONTROL_SLOT)])
  {
    hide LoopDefs, Lowered, Name, Decimal, SpliceOf, ToGraph, RoleMap, WithLoop;
    CondCopies();
    BodyCopies();
    RoleFacts(LOOP, p, WithLoop(p, LOOP), InCond("scalar"));
    RoleFacts(LOOP, p, WithLoop(p, LOOP), InCond("less_than"));
    RoleFacts(LOOP, p, WithLoop(p, LOOP), InBody("scalar"));
    SplicesOf(LOOP);
    LessCopied();
  }

  lemma LessCopied()
    ensures CopyNode(LOOP.CondSplice(), LESS.node) == Node(Kernel("Less"), [Ref(LoopCells().merge, 0), Ref(LoopCells().ten, 0)])
  {
    hide Name, Decimal, SpliceOf;
    CondCopies();
    var sp, refs := LOOP.CondSplice(), LESS.node.inputs;
    assert Ref("scalar", 0) in refs && Ref("scalar", 0) !in sp.inputMap by { assert refs[1] == Ref("scalar", 0); }
    assert RemapAll(sp, refs) == [Ref(LoopCells().merge, 0), Ref(LoopCells().ten, 0)];
  }

  /** The source loop stops at once, but the finished graph never comes to rest. */
  lemma ConstantBodyNeverRests(s: State<string>)
    requires Reachable(WithLoop(ParentMachine(20, 0), LOOP), s)
    ensures Distinct(LOOP.condIn) && Distinct(LOOP.bodyIn) && LoopTrace(LOOP, Scalars, [[Tensor([20])]])
    ensures !Quiescent(WithLoop(ParentMachine(20, 0), LOOP), s)
  {
    hide Reachable, Quiescent, Wired, WithLoop, ParentMachine, Denotes, Extends, LoopTrace, LoopCells;
    SourceStops();
    LoopWired();
    LoopStart();
    NeverRests(WithLoop(ParentMachine(20, 0), LOOP), LoopCells(), Tensor([20]), s);
  }

  /** In the finished graph, too, the loop starts from 20. */
  lemma LoopStart()
    ensures Denotes(WithLoop(ParentMachine(20, 0), LOOP), LoopCells().start, Tensor([20]))
  {
    hide Buildable, LoopDefs, Ordered, Denotes, Name, Decimal, ParentMachine, SpliceOf, AcyclicGraph, WellBuilt, WithLoop;
    LoopStarted();
    LoopAcyclic();
    AcyclicGood(LOOP);
    ParentDenotes(20, 0);
    ParentLowered(NODES, INDEX, LOOP, Lenient(), ParentMachine(20, 0));
    assert LOOP.inputs[0].node in ParentMachine(20, 0).graph;
    DenotesExtends(WithLoop(ParentMachine(20, 0), LOOP), ParentMachine(20, 0), Ref("p0", 0), Tensor([20]));
  }
}
