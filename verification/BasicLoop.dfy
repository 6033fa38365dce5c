/**
 The loop of the C API's own test (c/c_api_test.cc, CApiWhileLoopTest.BasicLoop), for all inputs:
 "while (input1 < input2) input1 += input2 + 1" on 32-bit integers.  It has two variables, a constant
 in the body that only the pivot controls, and an output that is itself an input of the body.
 */
module BasicLoop {
  import opened Dataflow
  import opened Acyclic
  import opened WhileLoops
  import opened LoopBounds
  import opened LoopNames
  import opened WhileBuilder
  import opened FinishWhile
  import opened WhileTheorem
  import opened WhileTermination
  import opened TestGraphs

  // ----- the two graphs of the test

  const COND_INPUTS: seq<Def> := [Input("cond_input0")] + [Input("cond_input1")]
  const LESS: Def := Binary("less_than", "Less", "cond_input0", "cond_input1")
  const BODY_INPUTS: seq<Def> := [Input("body_input0")] + [Input("body_input1")]
  const ADD1: Def := Binary("add1", "Add", "body_input0", "body_input1")
  const ONE: Def := Constant("scalar", "Const 1")
  const ADD2: Def := Binary("add2", "Add", "add1", "scalar")
  const BODY3: seq<Def> := BODY_INPUTS + [ADD1]
  const BODY4: seq<Def> := BODY3 + [ONE]

  const LOOP: Source := Source(
    "test_loop", [Ref("p0", 0), Ref("p1", 0)],
    COND_INPUTS + [LESS], ["cond_input0", "cond_input1"], Ref("less_than", 0),
    BODY4 + [ADD2], ["body_input0", "body_input1"], [Ref("add2", 0), Ref("body_input1", 0)])

  lemma CondAcyclic()
    ensures AcyclicGraph(LOOP.cond, LOOP.condIn) && ToGraph(LOOP.cond).Keys == {"cond_input0", "cond_input1", "less_than"}
  {
    InputPair("cond_input0", "cond_input1");
    OrderedMore(COND_INPUTS, LESS, LOOP.condIn);
    OneMore(COND_INPUTS, LESS);
  }

  lemma BodyAcyclic()
    ensures AcyclicGraph(LOOP.body, LOOP.bodyIn)
    ensures ToGraph(LOOP.body).Keys == {"body_input0", "body_input1", "add1", "scalar", "add2"}
  {
    InputPair("body_input0", "body_input1");
    OrderedMore(BODY_INPUTS, ADD1, LOOP.bodyIn);
    OneMore(BODY_INPUTS, ADD1);
    OrderedMore(BODY3, ONE, LOOP.bodyIn);
    OneMore(BODY3, ONE);
    OrderedMore(BODY4, ADD2, LOOP.bodyIn);
    OneMore(BODY4, ADD2);
  }

  lemma LoopAcyclic()
    ensures AcyclicSource(LOOP)
  {
    hide Ordered, ToGraph;
    CondAcyclic();
    BodyAcyclic();
  }

  lemma CondEval(a: int, b: int)
    ensures Distinct(LOOP.condIn) && CondValue(LOOP, Scalars, Pair(a, b)) == Bool(a < b)
  {
    hide Eval, Wrap;
    var feeds := FeedMap(["cond_input0", "cond_input1"], Lives(Pair(a, b)));
    TwoValues("cond_input0", "cond_input1", Scalars, a, b);
    EvalBinary(COND_INPUTS, LESS, Scalars, feeds);
  }

  lemma BodyEval(a: int, b: int)
    ensures Distinct(LOOP.bodyIn)
    ensures BodyValue(LOOP, Scalars, Pair(a, b), 0) == Tensor([Wrap(Wrap(a + b) + 1)])
    ensures BodyValue(LOOP, Scalars, Pair(a, b), 1) == Tensor([b])
  {
    hide Eval, Wrap;
    TwoValues("body_input0", "body_input1", Scalars, a, b);
    var feeds := FeedMap(["body_input0", "body_input1"], Lives(Pair(a, b)));
    EvalBinary(BODY_INPUTS, ADD1, Scalars, feeds);
    EvalOther(BODY3, ONE, Scalars, feeds, Ref("add1", 0));
    EvalConstant(BODY3, ONE, Scalars, feeds);
    EvalBinary(BODY4, ADD2, Scalars, feeds);
    EvalOther(BODY_INPUTS, ADD1, Scalars, feeds, Ref("body_input1", 0));
    EvalOther(BODY3, ONE, Scalars, feeds, Ref("body_input1", 0));
    EvalOther(BODY4, ADD2, Scalars, feeds, Ref("body_input1", 0));
  }

  lemma OutputsDepend()
    ensures OutputDepends(LOOP, 0) && OutputDepends(LOOP, 1)
  {
    hide Depends;
    var sources := set n | n in LOOP.bodyIn;
    assert LOOP.bodyIn[0] in sources && LOOP.bodyIn[1] in sources;
    DependsLast([Input("body_input0")], Input("body_input1"), sources);
    DependsLast(BODY_INPUTS, ADD1, sources);
    assert ADD1.node.inputs[1].node == "body_input1";
    DependsOther(BODY3, ONE, sources, "add1");
    DependsLast(BODY4, ADD2, sources);
    assert ADD2.node.inputs[0].node == "add1";
    DependsOther(BODY_INPUTS, ADD1, sources, "body_input1");
    DependsOther(BODY3, ONE, sources, "body_input1");
    DependsOther(BODY4, ADD2, sources, "body_input1");
  }

  // ----- what the source loop computes

  /** The values of input1, round by round, while input2 is `b`; the loop stops after the last one. */
  predicate Steps(xs: seq<int>, b: int) {
    && |xs| > 0
    && (forall k :: 0 <= k < |xs| ==> (xs[k] < b <==> k < |xs| - 1))
    && forall k :: 0 <= k < |xs| - 1 ==> xs[k+1] == Wrap(Wrap(xs[k] + b) + 1)
  }

  function Values(xs: seq<int>, b: int): seq<seq<Value>> {
    seq(|xs|, k requires 0 <= k < |xs| => Pair(xs[k], b))
  }

  lemma StepsAreTrace(xs: seq<int>, b: int)
    requires Steps(xs, b)
    ensures Distinct(LOOP.condIn) && Distinct(LOOP.bodyIn) && LoopTrace(LOOP, Scalars, Values(xs, b))
  {
    hide CondValue, BodyValue, Wrap;
    CondEval(0, 0);
    BodyEval(0, 0);
    var vals := Values(xs, b);
    forall k | 0 <= k < |vals|
      ensures CondValue(LOOP, Scalars, vals[k]) == Bool(k < |vals| - 1)
    {
      CondEval(xs[k], b);
    }
    forall k, j | 0 <= k < |vals| - 1 && 0 <= j < 2
      ensures vals[k+1][j] == BodyValue(LOOP, Scalars, vals[k], j)
    {
      BodyEval(xs[k], b);
    }
  }

  /** From inputs for which no addition wraps around, the loop stops. */
  lemma {:induction false} SmallStops(a: int, b: int) returns (xs: seq<int>)
    requires -INT32 <= a && (a >= b || 0 <= b < INT32 / 2)
    ensures Steps(xs, b) && xs[0] == a
    decreases if a < b then b - a else 0
  {
    if a >= b {
      xs := [a];
    } else {
      assert Wrap(a + b) == a + b && Wrap(a + b + 1) == a + b + 1;
      var rest := SmallStops(a + b + 1, b);
      xs := [a] + rest;
    }
  }

  // ----- the call succeeds

  lemma ValidNames()
    ensures ValidNodeName("cond_input0") && ValidNodeName("cond_input1") && ValidNodeName("less_than")
    ensures ValidNodeName("body_input0") && ValidNodeName("body_input1") && ValidNodeName("add1")
    ensures ValidNodeName("scalar") && ValidNodeName("add2")
  {
  }

  lemma ValidPrefixes()
    ensures ValidNodeName(Bare("test_loop", CondF)) && ValidNodeName(Bare("test_loop", BodyF))
  {
    assert Bare("test_loop", CondF) == "test_loop/cond";
    assert Bare("test_loop", BodyF) == "test_loop/body";
  }

  lemma CondImports()
    ensures SourceImports(LOOP.name, CondF, LOOP.CondSplice(), LOOP.cond, [LOOP.condOut], Lenient())
  {
    hide ValidNodeName, CopyDefs, SpliceOf, Bare;
    ValidNames();
    ValidPrefixes();
    var defs := LOOP.cond;
    assert NamesOf(defs)[0] == "cond_input0" && NamesOf(defs)[1] == "cond_input1";
    assert OutputExists(defs, Lenient(), LOOP.condOut) by { assert defs[2].name == "less_than"; }
  }

  lemma BodyImports()
    ensures SourceImports(LOOP.name, BodyF, LOOP.BodySplice(), LOOP.body, LOOP.bodyOut, Lenient())
  {
    hide ValidNodeName, CopyDefs, SpliceOf, Bare;
    ValidNames();
    ValidPrefixes();
    var defs := LOOP.body;
    assert NamesOf(defs)[0] == "body_input0" && NamesOf(defs)[1] == "body_input1" && NamesOf(defs)[2] == "add1";
    assert NamesOf(defs)[3] == "scalar";
    assert OutputExists(defs, Lenient(), LOOP.bodyOut[0]) by { assert defs[4].name == "add2"; }
    assert OutputExists(defs, Lenient(), LOOP.bodyOut[1]) by { assert defs[1].name == "body_input1"; }
  }

  lemma LoopBuilds()
    ensures LOOP.Sized() && Buildable(INDEX, LOOP, Lenient())
  {
    hide SourceImports, Buildable, LoopDefs, StartsWith;
    CondImports();
    BodyImports();
    NotUnder("test_loop");
    FreshNameBuilds(INDEX, LOOP, Lenient());
  }

  // ----- the result of the test

  lemma TestLoopStops(xs: seq<int>, b: int)
    requires Steps(xs, b)
    ensures Stops(NODES, INDEX, LOOP, Lenient(), ParentMachine(xs[0], b), Values(xs, b))
  {
    hide AcyclicGraph, Parent, Buildable, LoopTrace, Denotes, OutputDepends, Wrap;
    LoopAcyclic();
    ParentIsParent(LOOP, xs[0], b);
    LoopBuilds();
    OutputsDepend();
    StepsAreTrace(xs, b);
    ParentDenotes(xs[0], b);
  }

  /**
   TF_FinishWhile succeeds, and from all inputs from which the source loop stops, every run of the
   finished graph is bounded and goes on to one at rest with the last value of input1 on the first loop
   output and input2 on the second; no other token can ever appear there.
   */
  lemma TestLoopComputes(xs: seq<int>, b: int, run: seq<State<string>>) returns (longer: seq<State<string>>)
    requires Steps(xs, b) && IsRun(WithLoop(ParentMachine(xs[0], b), LOOP), run)
    ensures Buildable(INDEX, LOOP, Lenient())
    ensures |run| <= |AtRoot([Input("p0")] + [Input("p1")])| + |LoopActivations(LOOP, |xs|)| + 1
    ensures var big, out0, out1 := WithLoop(ParentMachine(xs[0], b), LOOP), Ref(Name("test_loop", ExitF, Decimal(0)), 0),
                                   Ref(Name("test_loop", ExitF, Decimal(1)), 0);
            && IsRun(big, longer) && run <= longer && Quiescent(big, longer[|longer|-1])
            && Delivered(big, longer[|longer|-1], out0, Root, Live(Tensor([xs[|xs|-1]])))
            && Delivered(big, longer[|longer|-1], out1, Root, Live(Tensor([b])))
            && Denotes(big, out0, Tensor([xs[|xs|-1]])) && Denotes(big, out1, Tensor([b]))
  {
    hide Stops, Denotes, Buildable, Delivered, Quiescent, IsRun, Within, LoopActivations, AtRoot, WithLoop, Name, Wrap;
    var p, vals, bound := ParentMachine(xs[0], b), Values(xs, b), AtRoot([Input("p0")] + [Input("p1")]);
    LoopBuilds();
    TestLoopStops(xs, b);
    ParentWithin(xs[0], b);
    longer := WhileTerminates(NODES, INDEX, LOOP, Lenient(), p, vals, bound, run);
    LastReachable(WithLoop(p, LOOP), longer);
    WhileComputes(NODES, INDEX, LOOP, Lenient(), p, vals, 0);
    WhileComputes(NODES, INDEX, LOOP, Lenient(), p, vals, 1);
    assert vals[|vals|-1] == Pair(xs[|xs|-1], b);
  }

  /** The values in the test: from -9 and 2 the loop ends with 3. */
  lemma TestValues()
    ensures Steps([-9, -6, -3, 0, 3], 2)
  {
    hide Wrap;
    NoWrap(-7);
    NoWrap(-6);
    NoWrap(-4);
    NoWrap(-3);
    NoWrap(-1);
    NoWrap(0);
    NoWrap(2);
    NoWrap(3);
  }

  lemma NoWrap(x: int)
    requires -INT32 <= x < INT32
    ensures Wrap(x) == x
  {
  }

  // ----- a call that fails

  /** A node named like the first Merge makes the call fail and leaves both Enter nodes in the graph. */
  lemma TakenMergeStays()
    ensures var names := INDEX["test_loop/merge0" := 4];
            !Buildable(names, LOOP, Lenient()) && Made(names, LOOP, Lenient()) == 2 < |LoopDefs(LOOP)|
  {
    hide Buildable, LoopDefs, Made;
    var names := INDEX["test_loop/merge0" := 4];
    var merge := Name("test_loop", MergeF, Decimal(0));
    assert merge == "test_loop/merge0";
    forall i | 0 <= i < 2
      ensures Creatable(names, LOOP.Enters()[i], Lenient())
    {
      var n := Name("test_loop", EnterF, Decimal(i));
      assert LOOP.Enters()[i].name == LOOP.Names(EnterF)[i] == n;
      assert n[0] == 't' && "p0"[0] == 'p' && "p1"[0] == 'p';
      NamesApart("test_loop", EnterF, Decimal(i), MergeF, Decimal(0));
    }
    assert LOOP.Merges()[0].name == LOOP.Names(MergeF)[0] == merge;
    MergeTakenLeavesEnters(names, LOOP, Lenient());
  }

  /** A node named like the first Enter makes the call fail and leaves nothing. */
  lemma TakenEnterLeavesNothing()
    ensures var names := INDEX["test_loop/enter0" := 4]; Made(names, LOOP, Lenient()) == 0
  {
    hide Made;
    var names := INDEX["test_loop/enter0" := 4];
    assert Name("test_loop", EnterF, Decimal(0)) == "test_loop/enter0";
    assert LOOP.Enters()[0].name == LOOP.Names(EnterF)[0];
    MadeNothing(names, LOOP, Lenient());
  }
}
