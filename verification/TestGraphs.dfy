/**
 The parts that the tests of while loops in the C API share (c/c_api_test.cc): small graphs built one
 node after the other, the kernels on int32 scalars, and a parent graph with two placeholders.
 */
module TestGraphs {
  import opened Dataflow
  import opened Acyclic
  import opened WhileLoops
  import opened LoopBounds
  import opened GraphApi
  import opened LoopNames
  import opened WhileBuilder
  import opened FinishWhile
  import opened WhileTheorem
  import opened WhileTermination

  // ----- adding one node to an acyclic graph

  lemma OneMore(l: seq<Def>, d: Def)
    ensures (l + [d])[..|l|] == l && ToGraph(l + [d]) == ToGraph(l)[d.name := d.node]
  {
    assert (l + [d])[..|l|] == l;
  }

  lemma OrderedMore(l: seq<Def>, d: Def, ins: seq<string>)
    requires Ordered(l, ins) && d.name !in ToGraph(l)
    requires (d.node == Node(Placeholder, []) && d.name in ins)
             || (d.node.op.Kernel? && d.name !in ins
                 && forall i :: 0 <= i < |d.node.inputs| ==> Read(ToGraph(l), ins, d.node.inputs[i]))
    ensures Ordered(l + [d], ins)
  {
    OneMore(l, d);
  }

  lemma EvalOther(l: seq<Def>, d: Def, kernels: Kernels, feeds: map<string, Token>, r: Ref<string>)
    requires r.node != d.name && r.slot == 0
    ensures Eval(l + [d], kernels, feeds, r) == Eval(l, kernels, feeds, r)
  {
    OneMore(l, d);
  }

  lemma EvalInput(l: seq<Def>, d: Def, kernels: Kernels, feeds: map<string, Token>, v: Value)
    requires d.node.op.Placeholder? && d.name in feeds && feeds[d.name] == Live(v)
    ensures Eval(l + [d], kernels, feeds, Ref(d.name, 0)) == v
  {
    OneMore(l, d);
  }

  lemma EvalBinary(l: seq<Def>, d: Def, kernels: Kernels, feeds: map<string, Token>)
    requires d.node.op.Kernel? && |d.node.inputs| == 2 && d.node.inputs[0].slot == d.node.inputs[1].slot == 0
    ensures Eval(l + [d], kernels, feeds, Ref(d.name, 0)) ==
            kernels(d.node.op.kind, [Eval(l, kernels, feeds, d.node.inputs[0]), Eval(l, kernels, feeds, d.node.inputs[1])], 0)
  {
    OneMore(l, d);
    var refs := d.node.inputs;
    assert refs[..1][..0] == [];
    assert EvalArgs(l, kernels, feeds, refs[..1]) == [Eval(l, kernels, feeds, refs[0])];
    assert EvalArgs(l, kernels, feeds, refs) == [Eval(l, kernels, feeds, refs[0]), Eval(l, kernels, feeds, refs[1])];
  }

  lemma EvalConstant(l: seq<Def>, d: Def, kernels: Kernels, feeds: map<string, Token>)
    requires d.node.op.Kernel? && d.node.inputs == []
    ensures Eval(l + [d], kernels, feeds, Ref(d.name, 0)) == kernels(d.node.op.kind, [], 0)
  {
    OneMore(l, d);
  }

  lemma DependsLast(l: seq<Def>, d: Def, sources: set<string>)
    ensures Depends(l + [d], sources, d.name) <==>
            d.name in sources || exists i :: 0 <= i < |d.node.inputs| && Depends(l, sources, d.node.inputs[i].node)
  {
    OneMore(l, d);
  }

  lemma DependsOther(l: seq<Def>, d: Def, sources: set<string>, n: string)
    requires n != d.name
    ensures Depends(l + [d], sources, n) <==> Depends(l, sources, n)
  {
    OneMore(l, d);
  }

  // ----- kernels and graphs

  function Input(name: string): Def { NodeDef(name, Node(Placeholder, [])) }

  function Constant(name: string, kind: string): Def { NodeDef(name, Node(Kernel(kind), [])) }

  function Binary(name: string, kind: string, a: string, b: string): Def {
    NodeDef(name, Node(Kernel(kind), [Ref(a, 0), Ref(b, 0)]))
  }

  const INT32: int := 0x8000_0000

  /** Addition of 32-bit integers wraps around. */
  function Wrap(x: int): int { (x + INT32) % (2 * INT32) - INT32 }

  /** The value of a constant node. */
  function ConstantOf(kind: string): int {
    if kind == "Const 0" then 0
    else if kind == "Const 1" then 1
    else if kind == "Const 2" then 2
    else if kind == "Const 3" then 3
    else if kind == "Const 5" then 5
    else if kind == "Const 6" then 6
    else 10
  }

  /** The kernels of the tests, on scalars. */
  function Scalars(kind: string, args: seq<Value>, slot: int): Value {
    if args == [] then Tensor([ConstantOf(kind)])
    else if |args| != 2 || !args[0].Tensor? || !args[1].Tensor? || |args[0].data| != 1 || |args[1].data| != 1 then Tensor([])
    else if kind == "Less" then Bool(args[0].data[0] < args[1].data[0])
    else Tensor([Wrap(args[0].data[0] + args[1].data[0])])
  }

  function Pair(a: int, b: int): seq<Value> { [Tensor([a]), Tensor([b])] }

  lemma SingleInput(x: string)
    ensures Ordered([Input(x)], [x]) && ToGraph([Input(x)]) == map[x := Node(Placeholder, [])] && Distinct([x])
  {
    assert Ordered<string>([], [x]) && ToGraph<string>([]) == map[];
    assert [] + [Input(x)] == [Input(x)];
    OrderedMore([], Input(x), [x]);
    OneMore([], Input(x));
  }

  lemma OneValue(x: string, kernels: Kernels, a: int)
    ensures Distinct([x])
    ensures Eval([Input(x)], kernels, FeedMap([x], Lives([Tensor([a])])), Ref(x, 0)) == Tensor([a])
  {
    var ins, ts := [x], Lives([Tensor([a])]);
    FeedsOk(ins, ts);
    assert ins[0] == x && FeedMap(ins, ts)[ins[0]] == Live(Tensor([a]));
    assert [] + [Input(x)] == [Input(x)];
    EvalInput([], Input(x), kernels, FeedMap(ins, ts), Tensor([a]));
  }

  lemma InputPair(x: string, y: string)
    requires x != y
    ensures var l, ins := [Input(x)] + [Input(y)], [x, y];
            Ordered(l, ins) && ToGraph(l).Keys == {x, y} && Distinct(ins)
  {
    var ins := [x, y];
    assert Ordered<string>([], ins) && ToGraph<string>([]) == map[];
    assert [] + [Input(x)] == [Input(x)];
    OrderedMore([], Input(x), ins);
    OneMore([], Input(x));
    OrderedMore([Input(x)], Input(y), ins);
    OneMore([Input(x)], Input(y));
  }

  lemma TwoValues(x: string, y: string, kernels: Kernels, a: int, b: int)
    requires x != y
    ensures Distinct([x, y])
    ensures var l, feeds := [Input(x)] + [Input(y)], FeedMap([x, y], Lives(Pair(a, b)));
            && Eval(l, kernels, feeds, Ref(x, 0)) == Tensor([a]) && Eval(l, kernels, feeds, Ref(y, 0)) == Tensor([b])
  {
    var ins, ts := [x, y], Lives(Pair(a, b));
    var feeds := FeedMap(ins, ts);
    FeedsOk(ins, ts);
    assert ins[0] == x && ins[1] == y;
    assert feeds[ins[0]] == Live(Tensor([a])) && feeds[ins[1]] == Live(Tensor([b]));
    assert [] + [Input(x)] == [Input(x)];
    EvalInput([], Input(x), kernels, feeds, Tensor([a]));
    EvalOther([Input(x)], Input(y), kernels, feeds, Ref(x, 0));
    EvalInput([Input(x)], Input(y), kernels, feeds, Tensor([b]));
  }

  lemma NoInputs(ins: seq<string>)
    ensures Ordered<string>([], ins) && ToGraph<string>([]).Keys == {}
  {
  }

  lemma MoreInput(l: seq<Def>, n: string, ins: seq<string>)
    requires Ordered(l, ins) && n in ins && n !in ToGraph(l)
    ensures Ordered(l + [Input(n)], ins) && ToGraph(l + [Input(n)]) == ToGraph(l)[n := Node(Placeholder, [])]
  {
    OrderedMore(l, Input(n), ins);
    OneMore(l, Input(n));
  }

  lemma Apart4(w: string, x: string, y: string, z: string)
    ensures Distinct([w, x, y, z]) <==> w != x && w != y && w != z && x != y && x != z && y != z
  {
    var l := [w, x, y, z];
    assert l[0] == w && l[1] == x && l[2] == y && l[3] == z;
  }

  /** An input evaluates to what it is fed with. */
  lemma {:induction false} InputEval(l: seq<Def>, kernels: Kernels, feeds: map<string, Token>, n: string, v: Value)
    requires n in ToGraph(l) && ToGraph(l)[n].op.Placeholder? && n in feeds && feeds[n] == Live(v)
    ensures Eval(l, kernels, feeds, Ref(n, 0)) == v
  {
    if l[|l|-1].name != n {
      InputEval(l[..|l|-1], kernels, feeds, n, v);
    }
  }

  // ----- the parent graph

  const NODES: seq<Slot> := [Sentinel, Sentinel, Op(Input("p0")), Op(Input("p1"))]
  const INDEX: map<string, nat> := map["p0" := 2, "p1" := 3]

  /** A registry that lets every node in; all nodes of the tests have one output. */
  ghost function Lenient(): Registry { Registry(_ => true, _ => 1) }

  ghost function ParentMachine(a: int, b: int): Machine<string> {
    InputPair("p0", "p1");
    Machine(ToGraph([Input("p0")] + [Input("p1")]), Scalars, FeedMap(["p0", "p1"], Lives(Pair(a, b))))
  }

  lemma ParentOps()
    ensures Ops(NODES) == [Input("p0")] + [Input("p1")]
  {
    var two: seq<Slot>, defs: seq<Def> := [Sentinel, Sentinel], [Input("p0"), Input("p1")];
    var one: seq<Slot> := [Sentinel];
    assert one[..0] == [] && Ops(one) == [];
    assert two == one + one;
    OpsAppend(one, one);
    OpsAppend(two, Slots(defs));
    OpsOfSlots(defs);
    assert NODES == two + Slots(defs);
  }

  lemma ParentGraph()
    ensures ToGraph([Input("p0")] + [Input("p1")]) ==
            map["p0" := Node(Placeholder, []), "p1" := Node(Placeholder, [])]
  {
    assert ToGraph<string>([]) == map[] && [] + [Input("p0")] == [Input("p0")];
    OneMore([], Input("p0"));
    OneMore([Input("p0")], Input("p1"));
  }

  lemma ParentIndexed()
    ensures Indexed(NODES, INDEX)
  {
  }

  lemma ParentIsParent(src: Source, a: int, b: int)
    requires forall i :: 0 <= i < src.Count() ==> src.inputs[i].node == "p0" || src.inputs[i].node == "p1"
    ensures Parent(NODES, INDEX, src, ParentMachine(a, b))
  {
    hide Ordered, Indexed, Ops, ToGraph, FeedMap;
    ParentOps();
    ParentIndexed();
    ParentGraph();
    InputPair("p0", "p1");
    FeedsOk(["p0", "p1"], Lives(Pair(a, b)));
  }

  lemma ParentDenotes(a: int, b: int)
    ensures Denotes(ParentMachine(a, b), Ref("p0", 0), Tensor([a])) && Denotes(ParentMachine(a, b), Ref("p1", 0), Tensor([b]))
  {
    hide Denotes, Eval, FrameSafe;
    var defs, ins := [Input("p0")] + [Input("p1")], ["p0", "p1"];
    InputPair("p0", "p1");
    TwoValues("p0", "p1", Scalars, a, b);
    GraphDenotes(defs, ins, Scalars, Pair(a, b), Ref("p0", 0));
    GraphDenotes(defs, ins, Scalars, Pair(a, b), Ref("p1", 0));
  }

  lemma SameScalars(a: int, b: int)
    ensures ParentMachine(a, b).kernels == Scalars
  {
  }

  /** The parent graph runs each of its two nodes once. */
  lemma ParentWithin(a: int, b: int)
    ensures Within(ParentMachine(a, b), AtRoot([Input("p0")] + [Input("p1")]))
  {
    InputPair("p0", "p1");
    AcyclicWithin([Input("p0")] + [Input("p1")], ["p0", "p1"], Scalars, FeedMap(["p0", "p1"], Lives(Pair(a, b))));
  }

  /** No name of the parent graph starts with the name of a loop that starts with another letter. */
  lemma NotUnder(loop: string)
    requires loop != "" && loop[0] != 'p'
    ensures forall n :: n in INDEX ==> !StartsWith(n, loop + "/")
  {
    assert "p0"[0] == 'p' && "p1"[0] == 'p' && (loop + "/")[0] == loop[0];
  }
}
