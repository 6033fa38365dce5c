/**
 The nested loop of the C API's own test (c/c_api_test.cc, CApiWhileLoopTest.NestedLoop), for all inputs:
 "while (x < 6) { z := x; while (z < 3) { y += 1; z += 2 }; x += y }" on 32-bit integers; and a variant of it
 with "z := 0", where the inner loop has a variable that starts from a constant.
 */
module NestedTest {
  import opened Dataflow
  import opened Acyclic
  import opened Splices
  import opened WhileLoops
  import opened LoopBounds
  import opened LoopNames
  import opened WhileBuilder
  import opened FinishWhile
  import opened WhileTheorem
  import opened WhileTermination
  import opened CallTheorems
  import opened Tainted
  import opened NestedLoops
  import opened NestedTermination
  import opened TestGraphs

  // ----- the graphs

  const INS: seq<string> := ["body_input0", "body_input1"]
  const COND_INS: seq<string> := ["cond_input0", "cond_input1"]
  const BODY_INPUTS: seq<Def> := [Input("body_input0")] + [Input("body_input1")]
  const COND_INPUTS: seq<Def> := [Input("cond_input0")] + [Input("cond_input1")]
  const LESS: Def := Binary("less_than", "Less", "cond_input0", "scalar")

  /** A condition graph that compares the first variable with a constant. */
  function Below(kind: string): seq<Def> { COND_INPUTS + [Constant("scalar", kind)] + [LESS] }

  const ONE: Def := Constant("one", "Const 1")
  const TWO: Def := Constant("two", "Const 2")
  const ADD: Def := Binary("add", "Add", "body_input1", "one")
  const ADD2: Def := Binary("add2", "Add", "body_input0", "two")
  const INNER3: seq<Def> := BODY_INPUTS + [ONE]
  const INNER4: seq<Def> := INNER3 + [TWO]
  const INNER5: seq<Def> := INNER4 + [ADD]

  const INNER_BODY: seq<Def> := INNER5 + [ADD2]
  const ZERO: Def := Constant("zero", "Const 0")

  /** The nodes before the inner loop; `reset` tells whether z starts from 0 or from x. */
  function Pre(reset: bool): seq<Def> { if reset then BODY_INPUTS + [ZERO] else BODY_INPUTS }

  function Inner(reset: bool): Source {
    Source("inner_loop", [Ref(if reset then "zero" else "body_input0", 0), Ref("body_input1", 0)],
           Below("Const 3"), COND_INS, Ref("less_than", 0), INNER_BODY, INS, [Ref("add2", 0), Ref("add", 0)])
  }

  const EXIT0: string := Name("inner_loop", ExitF, Decimal(0))
  const EXIT1: string := Name("inner_loop", ExitF, Decimal(1))
  const SUM: Def := Binary("add", "Add", "body_input0", EXIT1)

  function Outer(reset: bool): Source {
    Source("test_loop", [Ref("p0", 0), Ref("p1", 0)], Below("Const 6"), COND_INS, Ref("less_than", 0),
           Pre(reset) + LoopDefs(Inner(reset)) + [SUM], INS, [Ref("add", 0), Ref(EXIT1, 0)])
  }

  /** Variables that start from inputs of the outer body are tainted. */
  function Nested(reset: bool): Nest {
    Nest(Outer(reset), Inner(reset), Pre(reset), [SUM], if reset then {1} else {0, 1})
  }

  // ----- condition graphs

  lemma BelowAcyclic(kind: string)
    ensures AcyclicGraph(Below(kind), COND_INS) && "less_than" in ToGraph(Below(kind))
  {
    InputPair("cond_input0", "cond_input1");
    OrderedMore(COND_INPUTS, Constant("scalar", kind), COND_INS);
    OneMore(COND_INPUTS, Constant("scalar", kind));
    OrderedMore(COND_INPUTS + [Constant("scalar", kind)], LESS, COND_INS);
    OneMore(COND_INPUTS + [Constant("scalar", kind)], LESS);
  }

  lemma BelowEval(kind: string, a: int, b: int)
    ensures Distinct(COND_INS)
    ensures Eval(Below(kind), Scalars, FeedMap(COND_INS, Lives(Pair(a, b))), Ref("less_than", 0)) == Bool(a < ConstantOf(kind))
  {
    hide Eval;
    var feeds, d := FeedMap(COND_INS, Lives(Pair(a, b))), Constant("scalar", kind);
    TwoValues("cond_input0", "cond_input1", Scalars, a, b);
    EvalOther(COND_INPUTS, d, Scalars, feeds, Ref("cond_input0", 0));
    EvalConstant(COND_INPUTS, d, Scalars, feeds);
    EvalBinary(COND_INPUTS + [d], LESS, Scalars, feeds);
  }

  // ----- the inner body

  lemma InnerBodyAcyclic()
    ensures AcyclicGraph(INNER_BODY, INS) && "add" in ToGraph(INNER_BODY) && "add2" in ToGraph(INNER_BODY)
  {
    InputPair("body_input0", "body_input1");
    OrderedMore(BODY_INPUTS, ONE, INS);
    OneMore(BODY_INPUTS, ONE);
    OrderedMore(INNER3, TWO, INS);
    OneMore(INNER3, TWO);
    OrderedMore(INNER4, ADD, INS);
    OneMore(INNER4, ADD);
    OrderedMore(INNER5, ADD2, INS);
    OneMore(INNER5, ADD2);
  }

  lemma InnerAcyclic(reset: bool)
    ensures AcyclicSource(Inner(reset))
  {
    hide Ordered, ToGraph, Below;
    BelowAcyclic("Const 3");
    InnerBodyAcyclic();
  }

  lemma InnerBodyEval(reset: bool, a: int, b: int)
    ensures Distinct(INS)
    ensures BodyValue(Inner(reset), Scalars, Pair(a, b), 0) == Tensor([Wrap(a + 2)])
    ensures BodyValue(Inner(reset), Scalars, Pair(a, b), 1) == Tensor([Wrap(b + 1)])
  {
    hide Eval, Wrap;
    var feeds := FeedMap(INS, Lives(Pair(a, b)));
    TwoValues("body_input0", "body_input1", Scalars, a, b);
    EvalOther(BODY_INPUTS, ONE, Scalars, feeds, Ref("body_input0", 0));
    EvalOther(BODY_INPUTS, ONE, Scalars, feeds, Ref("body_input1", 0));
    EvalConstant(BODY_INPUTS, ONE, Scalars, feeds);
    EvalOther(INNER3, TWO, Scalars, feeds, Ref("body_input0", 0));
    EvalOther(INNER3, TWO, Scalars, feeds, Ref("body_input1", 0));
    EvalOther(INNER3, TWO, Scalars, feeds, Ref("one", 0));
    EvalConstant(INNER3, TWO, Scalars, feeds);
    EvalBinary(INNER4, ADD, Scalars, feeds);
    EvalOther(INNER4, ADD, Scalars, feeds, Ref("body_input0", 0));
    EvalOther(INNER4, ADD, Scalars, feeds, Ref("two", 0));
    EvalBinary(INNER5, ADD2, Scalars, feeds);
    EvalOther(INNER5, ADD2, Scalars, feeds, Ref("add", 0));
  }

  /** The body inputs depend on themselves, and the two sums of the inner body on one of them each. */
  lemma InnerDepends(sources: set<string>)
    ensures "body_input0" in sources ==> Depends(BODY_INPUTS, sources, "body_input0") && Depends(INNER_BODY, sources, "add2")
    ensures "body_input1" in sources ==> Depends(BODY_INPUTS, sources, "body_input1") && Depends(INNER_BODY, sources, "add")
  {
    hide Depends;
    assert [] + [Input("body_input0")] == [Input("body_input0")];
    DependsLast([], Input("body_input0"), sources);
    DependsOther([Input("body_input0")], Input("body_input1"), sources, "body_input0");
    DependsLast([Input("body_input0")], Input("body_input1"), sources);
    DependsOther(BODY_INPUTS, ONE, sources, "body_input0");
    DependsOther(BODY_INPUTS, ONE, sources, "body_input1");
    DependsOther(INNER3, TWO, sources, "body_input0");
    DependsOther(INNER3, TWO, sources, "body_input1");
    DependsLast(INNER4, ADD, sources);
    assert ADD.node.inputs[0].node == "body_input1";
    DependsOther(INNER4, ADD, sources, "body_input0");
    DependsLast(INNER5, ADD2, sources);
    assert ADD2.node.inputs[0].node == "body_input0";
    DependsOther(INNER5, ADD2, sources, "add");
  }

  // ----- the outer body

  /** The nodes before the inner loop and its outputs, as inputs of the outer body. */
  function View4(reset: bool): seq<Def> { Pre(reset) + [Input(EXIT0)] + [Input(EXIT1)] }

  lemma ExitNames(reset: bool)
    ensures Nested(reset).Exits() == [EXIT0, EXIT1] && Nested(reset).ExitInputs() == [Input(EXIT0)] + [Input(EXIT1)]
    ensures Nested(reset).View() == View4(reset) + [SUM] && Nested(reset).ViewIns() == INS + [EXIT0, EXIT1]
    ensures EXIT0 != EXIT1 && EXIT0[0] == 'i' && EXIT1[0] == 'i'
  {
    hide Name, LoopDefs;
    NamesApart("inner_loop", ExitF, Decimal(0), ExitF, Decimal(1));
    DecimalInjective(0, 1);
    NameStart("inner_loop", ExitF, Decimal(0));
    NameStart("inner_loop", ExitF, Decimal(1));
    assert Nested(reset).Exits() == [EXIT0, EXIT1];
    assert Nested(reset).ExitInputs() == [Input(EXIT0)] + [Input(EXIT1)];
  }

  lemma NameStart(loop: string, f: Family, rest: string)
    requires loop != ""
    ensures Name(loop, f, rest) != "" && Name(loop, f, rest)[0] == loop[0]
  {
  }

  lemma PreOrdered(reset: bool, ins: seq<string>)
    requires "body_input0" in ins && "body_input1" in ins && "zero" !in ins
    ensures var g := ToGraph(Pre(reset));
            && Ordered(Pre(reset), ins) && g.Keys == {"body_input0", "body_input1"} + (if reset then {"zero"} else {})
            && g["body_input0"] == g["body_input1"] == Node(Placeholder, [])
  {
    hide Ordered, ToGraph;
    NoInputs(ins);
    assert [] + [Input("body_input0")] == [Input("body_input0")];
    MoreInput([], "body_input0", ins);
    MoreInput([Input("body_input0")], "body_input1", ins);
    OrderedMore(BODY_INPUTS, ZERO, ins);
    OneMore(BODY_INPUTS, ZERO);
  }

  lemma ViewIns4()
    ensures var ins := INS + [EXIT0, EXIT1];
            Distinct(ins) && "body_input0" in ins && "body_input1" in ins && EXIT0 in ins && EXIT1 in ins
            && "zero" !in ins && "add" !in ins
  {
    hide Name, Decimal;
    ExitNames(false);
    assert "body_input0"[0] == "body_input1"[0] == 'b' && "add"[0] == 'a' && "zero"[0] == 'z' && "body_input0" != "body_input1";
    Apart4("body_input0", "body_input1", EXIT0, EXIT1);
    var ins := INS + [EXIT0, EXIT1];
    assert ins == ["body_input0", "body_input1", EXIT0, EXIT1];
    assert ins[0] == "body_input0" && ins[1] == "body_input1" && ins[2] == EXIT0 && ins[3] == EXIT1;
  }

  lemma View4Ordered(reset: bool)
    ensures var ins, g := INS + [EXIT0, EXIT1], ToGraph(View4(reset));
            && Ordered(View4(reset), ins) && g.Keys == ToGraph(Pre(reset)).Keys + {EXIT0, EXIT1}
            && "body_input0" in g && g["body_input0"] == g[EXIT1] == Node(Placeholder, []) && "add" !in g
  {
    hide Name, Decimal, Ordered, ToGraph;
    var ins := INS + [EXIT0, EXIT1];
    ViewIns4();
    ExitNames(reset);
    PreOrdered(reset, ins);
    assert "body_input0"[0] == "body_input1"[0] == 'b' && "add"[0] == 'a' && "zero"[0] == 'z';
    MoreInput(Pre(reset), EXIT0, ins);
    MoreInput(Pre(reset) + [Input(EXIT0)], EXIT1, ins);
  }

  lemma ViewAcyclic(reset: bool)
    ensures var g := ToGraph(Nested(reset).View());
            AcyclicGraph(Nested(reset).View(), Nested(reset).ViewIns()) && "add" in g && EXIT1 in g
  {
    hide Nest.View, Nest.ViewIns, Name, Decimal, Ordered, ToGraph, View4;
    ExitNames(reset);
    ViewIns4();
    PreOrdered(reset, INS);
    View4Ordered(reset);
    OrderedMore(View4(reset), SUM, INS + [EXIT0, EXIT1]);
    OneMore(View4(reset), SUM);
  }

  lemma ViewEval(reset: bool, a: int, b: int, x: int, y: int)
    ensures Distinct(Nested(reset).ViewIns())
    ensures var t := Nested(reset);
            var feeds := LiveView(t, Pair(a, b), Pair(x, y));
            && Eval(t.View(), Scalars, feeds, Ref("add", 0)) == Tensor([Wrap(a + y)])
            && Eval(t.View(), Scalars, feeds, Ref(EXIT1, 0)) == Tensor([y])
  {
    hide Nest.View, Nest.ViewIns, Eval, Name, Decimal, Wrap, Ordered, View4, ToGraph;
    ExitNames(reset);
    ViewIns4();
    View4Ordered(reset);
    var ins, vs := INS + [EXIT0, EXIT1], Pair(a, b) + Pair(x, y);
    var feeds := FeedMap(ins, Lives(vs));
    FeedsOk(ins, Lives(vs));
    assert feeds[ins[0]] == Live(vs[0]) && feeds[ins[3]] == Live(vs[3]);
    InputEval(View4(reset), Scalars, feeds, "body_input0", Tensor([a]));
    InputEval(View4(reset), Scalars, feeds, EXIT1, Tensor([y]));
    EvalBinary(View4(reset), SUM, Scalars, feeds);
    EvalOther(View4(reset), SUM, Scalars, feeds, Ref(EXIT1, 0));
  }

  lemma ViewDepends(reset: bool, sources: set<string>)
    requires EXIT1 in sources
    ensures Depends(Nested(reset).View(), sources, "add") && Depends(Nested(reset).View(), sources, EXIT1)
  {
    hide Nest.View, Nest.ViewIns, Depends, Name, Decimal;
    ExitNames(reset);
    assert "add"[0] == 'a';
    DependsLast(Pre(reset) + [Input(EXIT0)], Input(EXIT1), sources);
    DependsLast(View4(reset), SUM, sources);
    assert SUM.node.inputs[1].node == EXIT1;
    DependsOther(View4(reset), SUM, sources, EXIT1);
  }

  lemma BodyDistinct(reset: bool)
    ensures DistinctDefs(Outer(reset).body)
  {
    hide LoopDefs, Ordered, Usable, Name, Decimal;
    InnerAcyclic(reset);
    DistinctOf(Inner(reset));
    LoopDefsDistinct(Inner(reset));
    var pre, mid, l := Pre(reset), LoopDefs(Inner(reset)), Outer(reset).body;
    assert "body_input0"[0] == "body_input1"[0] == 'b' && "add"[0] == 'a' && ("inner_loop" + "/")[0] == 'i' && "zero"[0] == 'z';
    forall i | 0 <= i < |mid|
      ensures mid[i].name != "" && mid[i].name[0] == 'i'
    {
      assert StartsWith(mid[i].name, "inner_loop" + "/");
    }
    forall i, j | 0 <= i < j < |l|
      ensures l[i].name != l[j].name
    {
      assert l[i] == if i < |pre| then pre[i] else mid[i-|pre|];
      assert l[j] == if j < |pre| then pre[j] else if j < |pre| + |mid| then mid[j-|pre|] else SUM;
    }
  }

  lemma DistinctOf(src: Source)
    requires AcyclicSource(src)
    ensures DistinctDefs(src.cond) && DistinctDefs(src.body)
  {
    hide Ordered;
    AcyclicUsable(src.cond, src.condIn);
    AcyclicUsable(src.body, src.bodyIn);
  }

  lemma NestFits(reset: bool)
    ensures Nested(reset).Fits()
  {
    hide LoopDefs, Ordered, ToGraph, Below, Nest.View, Nest.ViewIns, DistinctDefs, Name;
    BelowAcyclic("Const 6");
    InnerAcyclic(reset);
    PreOrdered(reset, INS);
    assert INS[0] == "body_input0" && INS[1] == "body_input1";
    InputPair("body_input0", "body_input1");
    BodyDistinct(reset);
    ViewAcyclic(reset);
    ExitNames(reset);
  }

  lemma PreDepends(reset: bool, n: string)
    requires n in ToGraph(Pre(reset))
    ensures Depends(Pre(reset), (set n | n in INS), n) <==> n != "zero"
  {
    hide Depends;
    var sources := set n | n in INS;
    assert INS[0] in sources && INS[1] in sources && "zero" !in sources;
    PreOrdered(reset, INS);
    InnerDepends(sources);
    DependsLast(BODY_INPUTS, ZERO, sources);
    if n != "zero" {
      DependsOther(BODY_INPUTS, ZERO, sources, n);
    }
  }

  /** The variables that start from inputs of the outer body stay dead when it is not entered, and so do its outputs. */
  lemma NestTainted(reset: bool)
    ensures Nested(reset).Fits() && NestDepends(Nested(reset)) && DeadComplete(Nested(reset))
    ensures !reset ==> forall i :: 0 <= i < 2 ==> Depends(Pre(reset), (set n | n in INS), Inner(reset).inputs[i].node)
  {
    hide LoopDefs, Ordered, Depends, Nest.View, Nest.Fits, Name, Stalls, ToGraph;
    var t := Nested(reset);
    var held := Held(t.inner, t.tainted);
    NestFits(reset);
    PreOrdered(reset, INS);
    InnerDepends(set n | n in INS);
    PreDepends(reset, Inner(reset).inputs[0].node);
    PreDepends(reset, Inner(reset).inputs[1].node);
    assert Holds(t.inner, t.tainted, 1) && 1 in held && (!reset ==> Holds(t.inner, t.tainted, 0) && 0 in held);
    VarAt(INS, held, 0);
    VarAt(INS, held, 1);
    InnerDepends(Vars(INS, held));
    ExitNames(reset);
    assert t.Exits()[1] in DeadExits(t);
    ViewDepends(reset, (set n | n in INS) + DeadExits(t));
  }

  // ----- what the source loops compute

  /** The values of z and y, round by round, in one run of the inner loop. */
  predicate InnerSteps(zs: seq<(int, int)>) {
    && |zs| > 0
    && (forall k :: 0 <= k < |zs| ==> (zs[k].0 < 3 <==> k < |zs| - 1))
    && forall k :: 0 <= k < |zs| - 1 ==> zs[k+1] == (Wrap(zs[k].0 + 2), Wrap(zs[k].1 + 1))
  }

  /** The values of x and y in the outer loop; `inner[k]` is the run of the inner loop in round `k`. */
  predicate OuterSteps(reset: bool, xs: seq<(int, int)>, inner: seq<seq<(int, int)>>) {
    && |xs| == |inner| + 1
    && (forall k :: 0 <= k < |xs| ==> (xs[k].0 < 6 <==> k < |xs| - 1))
    && (forall k :: 0 <= k < |inner| ==> InnerSteps(inner[k]) && inner[k][0] == (if reset then 0 else xs[k].0, xs[k].1))
    && forall k :: 0 <= k < |inner| ==>
         var y := inner[k][|inner[k]|-1].1; xs[k+1] == (Wrap(xs[k].0 + y), y)
  }

  function Values(xs: seq<(int, int)>): seq<seq<Value>> {
    seq(|xs|, k requires 0 <= k < |xs| => Pair(xs[k].0, xs[k].1))
  }

  lemma InnerTraces(reset: bool, zs: seq<(int, int)>)
    requires InnerSteps(zs)
    ensures Distinct(Inner(reset).condIn) && Distinct(Inner(reset).bodyIn) && LoopTrace(Inner(reset), Scalars, Values(zs))
  {
    hide Eval, BodyValue, Wrap, Below;
    BelowEval("Const 3", 0, 0);
    InnerBodyEval(reset, 0, 0);
    var vals := Values(zs);
    forall k | 0 <= k < |vals|
      ensures CondValue(Inner(reset), Scalars, vals[k]) == Bool(k < |vals| - 1)
    {
      BelowEval("Const 3", zs[k].0, zs[k].1);
    }
    forall k, j | 0 <= k < |vals| - 1 && 0 <= j < 2
      ensures vals[k+1][j] == BodyValue(Inner(reset), Scalars, vals[k], j)
    {
      InnerBodyEval(reset, zs[k].0, zs[k].1);
    }
  }

  function InnerValues(inner: seq<seq<(int, int)>>): seq<seq<seq<Value>>> {
    seq(|inner|, k requires 0 <= k < |inner| => Values(inner[k]))
  }

  lemma InnerRunsFrom(reset: bool, x: (int, int), zs: seq<(int, int)>)
    requires Nested(reset).Fits() && InnerSteps(zs) && zs[0] == (if reset then 0 else x.0, x.1)
    ensures InnerTrace(Nested(reset), Scalars, Pair(x.0, x.1), Values(zs))
  {
    hide Eval, Wrap, Nest.Fits, LoopTrace, LoopDefs;
    InnerTraces(reset, zs);
    InputPair("body_input0", "body_input1");
    TwoValues("body_input0", "body_input1", Scalars, x.0, x.1);
    var feeds := FeedMap(INS, Lives(Pair(x.0, x.1)));
    EvalConstant(BODY_INPUTS, ZERO, Scalars, feeds);
    EvalOther(BODY_INPUTS, ZERO, Scalars, feeds, Ref("body_input1", 0));
  }

  lemma OuterTraces(reset: bool, xs: seq<(int, int)>, inner: seq<seq<(int, int)>>)
    requires OuterSteps(reset, xs, inner) && Nested(reset).Fits()
    ensures NestTrace(Nested(reset), Scalars, Values(xs), InnerValues(inner))
  {
    hide Eval, Wrap, Below, Nest.Fits, Nest.View, InnerTrace, InnerSteps, LiveView, Name, Decimal, LoopDefs;
    BelowEval("Const 6", 0, 0);
    var vals, ivs := Values(xs), InnerValues(inner);
    forall k | 0 <= k < |vals|
      ensures CondValue(Outer(reset), Scalars, vals[k]) == Bool(k < |vals| - 1)
    {
      BelowEval("Const 6", xs[k].0, xs[k].1);
    }
    forall k | 0 <= k < |vals| - 1
      ensures InnerTrace(Nested(reset), Scalars, vals[k], ivs[k]) && |ivs[k]| > 0
    {
      InnerRunsFrom(reset, xs[k], inner[k]);
      StepsExist(inner[k]);
    }
    ViewEval(reset, 0, 0, 0, 0);
    forall k, j | 0 <= k < |vals| - 1 && 0 <= j < 2
      ensures vals[k+1][j] == Eval(Nested(reset).View(), Scalars, LiveView(Nested(reset), vals[k], ivs[k][|ivs[k]|-1]), Outer(reset).bodyOut[j])
    {
      StepsExist(inner[k]);
      var e := inner[k][|inner[k]|-1];
      ViewEval(reset, xs[k].0, xs[k].1, e.0, e.1);
      assert ivs[k][|ivs[k]|-1] == Pair(e.0, e.1);
    }
  }

  lemma StepsExist(zs: seq<(int, int)>)
    requires InnerSteps(zs)
    ensures |zs| > 0 && |Values(zs)| == |zs|
  {
  }

  // ----- the outer call succeeds

  predicate PlainChars(s: string) {
    forall i :: 0 <= i < |s| ==> NameChar(s[i]) || s[i] == '_' || s[i] == '-' || s[i] == '/'
  }

  /** Names below a valid loop name are valid. */
  lemma ValidBelow(loop: string, f: Family, rest: string)
    requires ValidNodeName(loop) && PlainChars(rest)
    ensures ValidNodeName(Name(loop, f, rest))
  {
    var s := Name(loop, f, rest);
    assert PlainChars(Text(f));
    forall i | 1 <= i < |s|
      ensures NameChar(s[i]) || s[i] == '_' || s[i] == '-' || s[i] == '/'
    {
      if i < |loop| {
        assert s[i] == loop[i];
      } else if i < |loop| + |Text(f)| {
        assert s[i] == Text(f)[i-|loop|];
      } else {
        assert s[i] == rest[i-|loop|-|Text(f)|];
      }
    }
  }

  lemma LoopNamesValid(src: Source, d: Def)
    requires src.Sized() && ValidNodeName(src.name) && d in LoopDefs(src)
    requires forall x :: x in src.cond || x in src.body ==> ValidNodeName(x.name)
    ensures ValidNodeName(d.name)
  {
    hide ValidNodeName, Name, PlainChars, SpliceOf, CopyNode;
    var conds, bodies := CopyDefs(src.name, CondF, src.CondSplice(), src.cond), CopyDefs(src.name, BodyF, src.BodySplice(), src.body);
    if d in conds {
      var i :| 0 <= i < |conds| && conds[i] == d;
      ValidIsPlain(src.cond[i].name);
      ValidBelow(src.name, CondF, src.cond[i].name);
    } else if d in bodies {
      var i :| 0 <= i < |bodies| && bodies[i] == d;
      ValidIsPlain(src.body[i].name);
      ValidBelow(src.name, BodyF, src.body[i].name);
    } else {
      var f, i := ControlName(src, d);
      DecimalPlain(i);
      ValidBelow(src.name, f, Decimal(i));
    }
  }

  lemma ControlName(src: Source, d: Def) returns (f: Family, i: nat)
    requires src.Sized() && d in LoopDefs(src)
    requires d !in CopyDefs(src.name, CondF, src.CondSplice(), src.cond)
    requires d !in CopyDefs(src.name, BodyF, src.BodySplice(), src.body)
    ensures d.name == Name(src.name, f, Decimal(i))
  {
    hide Name, CopyDefs, SpliceOf, Decimal, Remap;
    if d in src.Enters() {
      i :| 0 <= i < src.Count() && src.Enters()[i] == d;
      f := EnterF;
    } else if d in src.Merges() {
      i :| 0 <= i < src.Count() && src.Merges()[i] == d;
      f := MergeF;
    } else if d in src.Switches() {
      i :| 0 <= i < src.Count() && src.Switches()[i] == d;
      f := SwitchF;
    } else if d in src.Nexts() {
      i :| 0 <= i < src.Count() && src.Nexts()[i] == d;
      f := NextF;
    } else {
      assert d in src.Exits();
      i :| 0 <= i < src.Count() && src.Exits()[i] == d;
      f := ExitF;
    }
    assert d.name == src.Names(f)[i] == Name(src.name, f, Decimal(i));
  }

  lemma ValidIsPlain(s: string)
    requires ValidNodeName(s)
    ensures PlainChars(s)
  {
  }

  lemma DecimalPlain(i: nat)
    ensures PlainChars(Decimal(i))
  {
    forall k | 0 <= k < |Decimal(i)|
      ensures '0' <= Decimal(i)[k] <= '9'
    {
      DecimalDigits(i, |Decimal(i)| - 1 - k);
    }
  }

  lemma ValidNames()
    ensures ValidNodeName("cond_input0") && ValidNodeName("cond_input1") && ValidNodeName("less_than") && ValidNodeName("scalar")
    ensures ValidNodeName("body_input0") && ValidNodeName("body_input1") && ValidNodeName("one") && ValidNodeName("two")
    ensures ValidNodeName("zero")
    ensures ValidNodeName("add") && ValidNodeName("add2") && ValidNodeName("inner_loop")
  {
  }

  lemma ValidPrefixes()
    ensures ValidNodeName(Bare("test_loop", CondF)) && ValidNodeName(Bare("test_loop", BodyF))
  {
    assert Bare("test_loop", CondF) == "test_loop/cond";
    assert Bare("test_loop", BodyF) == "test_loop/body";
  }

  lemma CondImports(reset: bool)
    ensures SourceImports(Outer(reset).name, CondF, Outer(reset).CondSplice(), Outer(reset).cond, [Outer(reset).condOut], Lenient())
  {
    hide ValidNodeName, CopyDefs, SpliceOf, Bare, LoopDefs, Name;
    ValidNames();
    ValidPrefixes();
    var defs := Outer(reset).cond;
    assert NamesOf(defs)[0] == "cond_input0" && NamesOf(defs)[1] == "cond_input1" && NamesOf(defs)[2] == "scalar";
    assert OutputExists(defs, Lenient(), Outer(reset).condOut) by { assert defs[3].name == "less_than"; }
  }

  lemma BodyNamesValid(reset: bool, i: nat)
    requires i < |Outer(reset).body|
    ensures ValidNodeName(Outer(reset).body[i].name)
  {
    hide ValidNodeName, LoopDefs, Name, Decimal;
    ValidNames();
    var pre, mid := Pre(reset), LoopDefs(Inner(reset));
    if |pre| <= i < |pre| + |mid| {
      assert Outer(reset).body[i] == mid[i-|pre|];
      forall x | x in Inner(reset).cond || x in INNER_BODY
        ensures ValidNodeName(x.name)
      {
      }
      LoopNamesValid(Inner(reset), mid[i-|pre|]);
    } else {
      assert Outer(reset).body[i] == if i < |pre| then pre[i] else SUM;
    }
  }

  /** A read that finds its node finds it among the names of the body. */
  lemma BodyClosed(reset: bool)
    ensures AllClosed(Outer(reset).body)
  {
    hide LoopDefs, Name, Nest.Fits, Decimal;
    NestFits(reset);
    var defs := Outer(reset).body;
    BodyDistinct(reset);
    forall i, j | 0 <= i < |defs| && 0 <= j < |defs[i].node.inputs|
      ensures defs[i].node.inputs[j].node in NamesOf(defs)
    {
      FoundInNames(reset, defs, i, j);
    }
  }

  lemma FoundInNames(reset: bool, defs: seq<Def>, i: nat, j: nat)
    requires Nested(reset).Fits() && defs == Outer(reset).body && DistinctDefs(defs) && i < |defs| && j < |defs[i].node.inputs|
    ensures defs[i].node.inputs[j].node in NamesOf(defs)
  {
    hide LoopDefs, Name, Nest.Fits, ToGraph, DistinctDefs, Decimal;
    DefAt(defs, i);
    BodyReadsFound(Nested(reset), defs[i].name, j);
    var n := defs[i].node.inputs[j].node;
    ToGraphKeys(defs, n);
    var k :| 0 <= k < |defs| && defs[k].name == n;
    assert NamesOf(defs)[k] == n;
  }

  lemma BodyImports(reset: bool)
    ensures SourceImports(Outer(reset).name, BodyF, Outer(reset).BodySplice(), Outer(reset).body, Outer(reset).bodyOut, Lenient())
  {
    hide ValidNodeName, CopyDefs, SpliceOf, Bare, LoopDefs, Name, AllClosed, DistinctDefs, Decimal;
    ValidPrefixes();
    BodyDistinct(reset);
    BodyClosed(reset);
    var defs := Outer(reset).body;
    forall i | 0 <= i < |defs|
      ensures ValidNodeName(defs[i].name)
    {
      BodyNamesValid(reset, i);
    }
    assert OutputExists(defs, Lenient(), Outer(reset).bodyOut[0]) by { assert defs[|defs|-1].name == "add"; }
    ExitOutput(reset);
  }

  lemma ExitOutput(reset: bool)
    ensures OutputExists(Outer(reset).body, Lenient(), Ref(EXIT1, 0))
  {
    hide LoopDefs, Name, Nest.Fits, ToGraph, Decimal, Nest.View;
    NestFits(reset);
    ExitNames(reset);
    ViewAcyclic(reset);
    ViewInBody(Nested(reset), EXIT1);
    ToGraphKeys(Outer(reset).body, EXIT1);
  }

  lemma OuterBuilds(reset: bool)
    ensures Outer(reset).Sized() && Buildable(INDEX, Outer(reset), Lenient())
  {
    hide SourceImports, Buildable, LoopDefs, StartsWith, Name;
    CondImports(reset);
    BodyImports(reset);
    NotUnder("test_loop");
    FreshNameBuilds(INDEX, Outer(reset), Lenient());
  }

  // ----- the result of the test

  lemma TestNestStops(reset: bool, xs: seq<(int, int)>, inner: seq<seq<(int, int)>>)
    requires OuterSteps(reset, xs, inner)
    ensures NestStops(NODES, INDEX, Nested(reset), Lenient(), ParentMachine(xs[0].0, xs[0].1), Values(xs), InnerValues(inner))
  {
    hide Nest.Fits, NestDepends, DeadComplete, NestTrace, Parent, Buildable, Denotes, LoopDefs, Name, Wrap, InnerSteps;
    NestTainted(reset);
    OuterTraces(reset, xs, inner);
    ParentIsParent(Outer(reset), xs[0].0, xs[0].1);
    OuterBuilds(reset);
    ParentDenotes(xs[0].0, xs[0].1);
  }

  /** What the body can do when it is not entered. */
  ghost function Rest(reset: bool): set<Firing<string>>
    requires Nested(reset).Fits()
  {
    if reset then PartlyDeadFirings(Nested(reset), 3) else DeadFirings(Nested(reset))
  }

  /** With "z := 0" the inner loop counts to the end although the body is not entered. */
  lemma RestWithin(reset: bool)
    ensures Nested(reset).Fits() && Within(Whole(Nested(reset), Scalars, NotEntered(Nested(reset))), Rest(reset))
  {
    hide Nest.Fits, NestDepends, DeadComplete, Within, Whole, NotEntered, DeadFirings, PartlyDeadFirings, InnerTrace, LoopDefs, Depends,
         Wrap;
    NestTainted(reset);
    if reset {
      var zs := [(0, 0), (2, 1), (4, 2)];
      NoWrap();
      InnerRunsFrom(reset, (0, 0), zs);
      PartlyDeadWithin(Nested(reset), Scalars, Pair(0, 0), Values(zs));
    } else {
      DeadBodyWithin(Nested(reset), Scalars);
    }
  }

  /**
   The outer TF_FinishWhile succeeds, and from all inputs from which both source loops stop, every run of
   the finished graph is bounded and goes on to one at rest with the last values of x and y on the outputs.
   */
  lemma TestNestComputes(reset: bool, xs: seq<(int, int)>, inner: seq<seq<(int, int)>>, run: seq<State<string>>)
    returns (longer: seq<State<string>>)
    requires OuterSteps(reset, xs, inner) && IsRun(WithLoop(ParentMachine(xs[0].0, xs[0].1), Outer(reset)), run)
    ensures Buildable(INDEX, Outer(reset), Lenient()) && Nested(reset).Fits()
    ensures |run| <= |AtRoot([Input("p0")] + [Input("p1")])| + |NestActivations(Nested(reset), InnerValues(inner), Rest(reset))| + 1
    ensures var big, e := WithLoop(ParentMachine(xs[0].0, xs[0].1), Outer(reset)), xs[|xs|-1];
            && IsRun(big, longer) && run <= longer && Quiescent(big, longer[|longer|-1])
            && Delivered(big, longer[|longer|-1], Ref(Name("test_loop", ExitF, Decimal(0)), 0), Root, Live(Tensor([e.0])))
            && Delivered(big, longer[|longer|-1], Ref(Name("test_loop", ExitF, Decimal(1)), 0), Root, Live(Tensor([e.1])))
  {
    hide NestStops, Nest.Fits, Buildable, Delivered, Quiescent, IsRun, Within, NestActivations, AtRoot, WithLoop, Name, Wrap, InnerSteps,
         LoopDefs, Decimal, ParentMachine, Rest, Whole;
    var p, bound := ParentMachine(xs[0].0, xs[0].1), AtRoot([Input("p0")] + [Input("p1")]);
    OuterBuilds(reset);
    TestNestStops(reset, xs, inner);
    ParentWithin(xs[0].0, xs[0].1);
    RestWithin(reset);
    SameScalars(xs[0].0, xs[0].1);
    longer := NestTerminates(NODES, INDEX, Nested(reset), Lenient(), p, Values(xs), InnerValues(inner), bound, Rest(reset), run);
    LastReachable(WithLoop(p, Outer(reset)), longer);
    assert Values(xs)[|xs|-1] == Pair(xs[|xs|-1].0, xs[|xs|-1].1);
  }

  /** The values in the test: from 0 and 0 the loops end with 8 and 3; with "z := 0", with 6 and 4. */
  lemma TestValues()
    ensures OuterSteps(false, [(0, 0), (2, 2), (5, 3), (8, 3)], [[(0, 0), (2, 1), (4, 2)], [(2, 2), (4, 3)], [(5, 3)]])
    ensures OuterSteps(true, [(0, 0), (2, 2), (6, 4)], [[(0, 0), (2, 1), (4, 2)], [(0, 2), (2, 3), (4, 4)]])
  {
    hide Wrap;
    NoWrap();
    var inner := [[(0, 0), (2, 1), (4, 2)], [(2, 2), (4, 3)], [(5, 3)]];
    assert InnerSteps(inner[0]) && InnerSteps(inner[1]) && InnerSteps(inner[2]);
    var again := [[(0, 0), (2, 1), (4, 2)], [(0, 2), (2, 3), (4, 4)]];
    assert InnerSteps(again[0]) && InnerSteps(again[1]);
  }

  lemma NoWrap()
    ensures forall x :: 0 <= x < 10 ==> Wrap(x) == x
  {
  }
}
