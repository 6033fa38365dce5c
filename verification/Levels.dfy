/**
 Static nesting levels.  If every node of a graph can be given the number of frames around it, so
 that edges agree, then under every schedule a node runs exactly that deep; in particular no Exit
 or NextIteration runs outside a frame.  Lowering a loop keeps levels, so this holds for loops
 inside loops, entered or not.
 */
module Levels {
  import opened Dataflow
  import opened Acyclic
  import opened Splices
  import opened WhileLoops

  function Depth(x: Ctx): int {
    if x.Root? then 0 else 1 + Depth(x.parent)
  }

  /** The level of the outputs of a node that runs at level `l`. */
  function OutLevel(op: Op, l: int): int {
    match op
    case Enter(_) => l + 1
    case Exit => l - 1
    case _ => l
  }

  ghost predicate NodeLevelled<N(!new)>(m: Machine<N>, lv: map<N, int>, n: N)
    requires n in m.graph && m.graph.Keys <= lv.Keys
  {
    var node := m.graph[n];
    if node.op.Placeholder? then n in m.feeds ==> lv[n] == 0
    else
      && (node.inputs == [] ==> lv[n] == 0)
      && (node.op.Exit? || node.op.NextIteration? ==> lv[n] >= 1)
      && forall i :: 0 <= i < |node.inputs| && node.inputs[i].node in m.graph ==>
           OutLevel(m.graph[node.inputs[i].node].op, lv[node.inputs[i].node]) == lv[n]
  }

  ghost predicate Levelled<N(!new)>(m: Machine<N>, lv: map<N, int>) {
    m.graph.Keys <= lv.Keys && forall n :: n in m.graph ==> NodeLevelled(m, lv, n)
  }

  /** All activations happen at the level of their node. */
  ghost predicate AtLevel<N(!new)>(lv: map<N, int>, s: State<N>) {
    forall f :: f in s ==> f.node in lv && Depth(f.ctx) == lv[f.node]
  }

  lemma DeliveredDepth<N(!new)>(m: Machine<N>, lv: map<N, int>, s: State<N>, r: Ref<N>, x: Ctx, t: Token)
    requires AtLevel(lv, s) && Delivered(m, s, r, x, t)
    ensures r.node in m.graph && r.node in lv && Depth(x) == OutLevel(m.graph[r.node].op, lv[r.node])
  {
    var at :| At(r.node, at) in s && Reaches(m.graph[r.node].op, at, s[At(r.node, at)], x)
              && t == Output(m.kernels, m.graph[r.node].op, s[At(r.node, at)], r.slot);
    assert Depth(at) == lv[r.node];
  }

  lemma LevelStep<N(!new)>(m: Machine<N>, lv: map<N, int>, s: State<N>, n: N, x: Ctx, out: Outcome)
    requires Levelled(m, lv) && AtLevel(lv, s) && n in m.graph && CanFire(m, s, n, x, out)
    ensures Depth(x) == lv[n]
  {
    hide AtLevel, Delivered;
    var node := m.graph[n];
    assert NodeLevelled(m, lv, n);
    match node.op {
      case Placeholder =>
      case Merge =>
        var i, t := MergeInput(m, s, node.inputs, x, out);
        DeliveredDepth(m, lv, s, node.inputs[i], x, t);
      case _ =>
        var ts :| NodeFires(m, s, node, x, ts, out);
        if node.inputs != [] {
          assert Delivered(m, s, node.inputs[0], x, ts[0]);
          DeliveredDepth(m, lv, s, node.inputs[0], x, ts[0]);
        }
    }
  }

  lemma {:induction false} LevelRun<N(!new)>(m: Machine<N>, lv: map<N, int>, run: seq<State<N>>)
    requires Levelled(m, lv) && IsRun(m, run)
    ensures AtLevel(lv, run[|run|-1])
    decreases |run|
  {
    hide Levelled, CanFire;
    if |run| > 1 {
      RunPrefix(m, run);
      LevelRun(m, lv, run[..|run|-1]);
      var s, s' := run[|run|-2], run[|run|-1];
      assert run[..|run|-1][|run|-2] == s;
      var n, x, out :| Fires(m, s, n, x, out, s');
      LevelStep(m, lv, s, n, x, out);
      assert n in lv by { LevelKnown(m, lv, n); }
    }
  }

  lemma LevelKnown<N(!new)>(m: Machine<N>, lv: map<N, int>, n: N)
    requires Levelled(m, lv) && n in m.graph
    ensures n in lv
  {
  }

  /** A levelled graph is well framed. */
  lemma LevelledFrameSafe<N(!new)>(m: Machine<N>, lv: map<N, int>)
    requires Levelled(m, lv)
    ensures FrameSafe(m)
  {
    forall s, n | n in m.graph && (m.graph[n].op.NextIteration? || m.graph[n].op.Exit?) && Reachable(m, s)
      ensures At(n, Root) !in s
    {
      var run :| IsRun(m, run) && run[|run|-1] == s;
      LevelRun(m, lv, run);
      assert NodeLevelled(m, lv, n);
      assert Depth(Root) == 0;
    }
  }

  /** A node whose surroundings are the same in a larger machine keeps its level there. */
  lemma LevelCarries<N(!new)>(m: Machine<N>, lv: map<N, int>, big: Machine<N>, lb: map<N, int>, n: N)
    requires Levelled(m, lv) && n in m.graph && big.graph.Keys <= lb.Keys && big.feeds == m.feeds
    requires forall q :: q in m.graph ==> q in big.graph && big.graph[q] == m.graph[q] && lb[q] == lv[q]
    requires forall i :: 0 <= i < |m.graph[n].inputs| ==> m.graph[n].inputs[i].node in m.graph
    ensures NodeLevelled(big, lb, n)
  {
    assert NodeLevelled(m, lv, n);
  }

  ghost function Zeros<N(!new)>(l: seq<NodeDef<N>>): map<N, int> {
    map n | n in ToGraph(l) :: 0
  }

  /** Acyclic graphs are at level 0 throughout. */
  lemma AcyclicLevelled<N(!new)>(l: seq<NodeDef<N>>, ins: seq<N>, kernels: Kernels, feeds: map<N, Token>)
    requires Ordered(l, ins)
    ensures Levelled(Machine(ToGraph(l), kernels, feeds), Zeros(l))
  {
    var m, lv := Machine(ToGraph(l), kernels, feeds), Zeros(l);
    forall n | n in m.graph
      ensures NodeLevelled(m, lv, n)
    {
      OrderedOps(l, ins, n);
      forall i | 0 <= i < |m.graph[n].inputs| && m.graph[n].inputs[i].node in m.graph
        ensures OutLevel(m.graph[m.graph[n].inputs[i].node].op, 0) == 0
      {
        OrderedOps(l, ins, m.graph[n].inputs[i].node);
      }
    }
  }

  // ----- a lowered loop

  /** The level of output `r`. */
  ghost function LevelOf<N(!new)>(g: Graph<N>, lv: map<N, int>, r: Ref<N>): int
    requires r.node in g && r.node in lv
  {
    OutLevel(g[r.node].op, lv[r.node])
  }

  /** A condition or body graph whose inputs are at level 0. */
  ghost predicate SourceLevelled<N(!new)>(sp: Splice<N>, ins: seq<N>, lv: map<N, int>) {
    && sp.src.Keys <= lv.Keys
    && (forall n :: n in ins ==> n in lv && lv[n] == 0)
    && forall n :: n in sp.src ==> NodeLevelled(Machine(sp.src, (_, _, _) => Tensor([]), map[]), lv, n)
  }

  ghost function LoopLevel<N(!new)>(lp: Loop<N>, role: Role<N>, lc: map<N, int>, lb: map<N, int>): int {
    match role
    case IsEnter(_) => 0
    case InCond(n) => 1 + if n in lc then lc[n] else 0
    case InBody(n) => 1 + if n in lb then lb[n] else 0
    case _ => 1
  }

  ghost function LoopLevels<N(!new)>(lp: Loop<N>, p: Machine<N>, big: Machine<N>, lp0: map<N, int>, lc: map<N, int>,
                                     lb: map<N, int>): map<N, int>
  {
    map n | n in big.graph ::
      if n in lp.roles then LoopLevel(lp, lp.roles[n], lc, lb) else if n in lp0 then lp0[n] else 0
  }

  /** The levels of a loop, its parent and its two source graphs fit together. */
  ghost predicate LevelsFit<N(!new)>(lp: Loop<N>, p: Machine<N>, lv: map<N, int>, lc: map<N, int>, lb: map<N, int>)
    requires WellBuilt(lp)
  {
    && Levelled(p, lv)
    && (forall i :: 0 <= i < |lp.inputs| ==> lp.inputs[i].node in p.graph && LevelOf(p.graph, lv, lp.inputs[i]) == 0)
    && SourceLevelled(lp.cond, lp.condIn, lc) && SourceLevelled(lp.body, lp.bodyIn, lb)
    && lp.condOut.node in lp.cond.src && LevelOf(lp.cond.src, lc, lp.condOut) == 0
    && (forall i :: 0 <= i < |lp.inputs| ==>
          lp.bodyOut[i].node in lp.body.src && LevelOf(lp.body.src, lb, lp.bodyOut[i]) == 0)
  }

  /** A copy stands one level below its source, and so do the nodes that replace its inputs. */
  ghost predicate CopyPlaced<N(!new)>(sp: Splice<N>, dst: seq<N>, g: Graph<N>, lv: map<N, int>, ls: map<N, int>) {
    && sp.src.Keys <= ls.Keys && sp.src.Keys <= sp.rename.Keys
    && (forall i :: 0 <= i < |dst| ==>
          dst[i] in g && dst[i] in lv && lv[dst[i]] == 1 && (g[dst[i]].op.Merge? || g[dst[i]].op.Switch?))
    && (forall n :: n in sp.src ==>
          && sp.rename[n] in g && sp.rename[n] in lv
          && g[sp.rename[n]] == CopyNode(sp, sp.src[n]) && lv[sp.rename[n]] == 1 + ls[n])
  }

  /** A read in a copy is one level below the read in the source. */
  lemma RemapLevel<N(!new)>(sp: Splice<N>, ins: seq<N>, dst: seq<N>, slot: nat, g: Graph<N>, lv: map<N, int>,
                            ls: map<N, int>, r: Ref<N>)
    requires |ins| == |dst| > 0 && SplicedOn(sp, ins, dst, slot) && CopyPlaced(sp, dst, g, lv, ls)
    requires Readable(sp, r) && forall n :: n in ins ==> n in ls && ls[n] == 0
    ensures var q := Remap(sp, r); q.node in g && q.node in lv && LevelOf(g, lv, q) == 1 + LevelOf(sp.src, ls, r)
  {
    hide CopyNode;
    if r in sp.inputMap {
      var i :| 0 <= i < |ins| && ins[i] == r.node;
      assert r == Ref(ins[i], 0);
      assert dst[i] in g;
      assert sp.src[r.node].op == Placeholder;
    } else {
      CopyKeepsOp(sp, sp.src[r.node]);
      assert g[sp.rename[r.node]] == CopyNode(sp, sp.src[r.node]);
    }
  }

  lemma CopyKeepsOp<N(!new)>(sp: Splice<N>, node: Node<N>)
    ensures CopyNode(sp, node).op == node.op
  {
  }

  lemma CopyLevelled<N(!new)>(sp: Splice<N>, ins: seq<N>, dst: seq<N>, slot: nat, big: Machine<N>, lv: map<N, int>,
                              ls: map<N, int>, n: N)
    requires |ins| == |dst| > 0 && SplicedOn(sp, ins, dst, slot) && CopyPlaced(sp, dst, big.graph, lv, ls)
    requires SourceLevelled(sp, ins, ls) && n in sp.src && big.graph.Keys <= lv.Keys && sp.rename[n] !in big.feeds
    ensures NodeLevelled(big, lv, sp.rename[n])
  {
    hide SplicedOn, CopyPlaced;
    Placed0(sp, ins, dst, slot, big.graph, lv, ls, n);
    var src, g, c := sp.src[n], big.graph, sp.rename[n];
    var node := CopyNode(sp, src);
    assert NodeLevelled(Machine(sp.src, (_, _, _) => Tensor([]), map[]), ls, n);
    if !src.op.Placeholder? {
      forall i | 0 <= i < |node.inputs|
        ensures node.inputs[i].node in g && LevelOf(g, lv, node.inputs[i]) == lv[c]
      {
        if i < |src.inputs| {
          SourceReads(sp, ins, dst, slot, n, i);
          RemapLevel(sp, ins, dst, slot, g, lv, ls, src.inputs[i]);
        } else if src.inputs != [] {
          FirstMapped(sp, ins, dst, slot, n, ls);
        }
      }
      assert node.inputs != [];
    }
  }

  lemma Placed0<N(!new)>(sp: Splice<N>, ins: seq<N>, dst: seq<N>, slot: nat, g: Graph<N>, lv: map<N, int>, ls: map<N, int>, n: N)
    requires |ins| == |dst| > 0 && SplicedOn(sp, ins, dst, slot) && CopyPlaced(sp, dst, g, lv, ls) && n in sp.src
    ensures n in sp.rename && sp.rename[n] in g && sp.rename[n] in lv && n in ls && sp.pivot == dst[0]
    ensures g[sp.rename[n]] == CopyNode(sp, sp.src[n]) && lv[sp.rename[n]] == 1 + ls[n]
    ensures dst[0] in g && dst[0] in lv && lv[dst[0]] == 1 && (g[dst[0]].op.Merge? || g[dst[0]].op.Switch?)
  {
  }

  lemma SourceReads<N(!new)>(sp: Splice<N>, ins: seq<N>, dst: seq<N>, slot: nat, n: N, i: nat)
    requires |ins| == |dst| > 0 && SplicedOn(sp, ins, dst, slot) && n in sp.src && i < |sp.src[n].inputs|
    ensures Readable(sp, sp.src[n].inputs[i]) && sp.src[n].inputs[i].node in sp.src
  {
  }

  /** A node that reads replaced inputs only is at level 0. */
  lemma FirstMapped<N(!new)>(sp: Splice<N>, ins: seq<N>, dst: seq<N>, slot: nat, n: N, ls: map<N, int>)
    requires |ins| == |dst| > 0 && SplicedOn(sp, ins, dst, slot) && SourceLevelled(sp, ins, ls)
    requires n in sp.src && !sp.src[n].op.Placeholder? && sp.src[n].inputs != [] && AllMapped(sp, sp.src[n].inputs)
    ensures ls[n] == 0
  {
    var r := sp.src[n].inputs[0];
    assert r in sp.inputMap;
    assert sp.src[r.node].op == Placeholder;
    assert NodeLevelled(Machine(sp.src, (_, _, _) => Tensor([]), map[]), ls, n);
  }

  /** The node of a role stands in the graph at the level of the role. */
  lemma RoleLevel<N(!new)>(lp: Loop<N>, p: Machine<N>, big: Machine<N>, lv: map<N, int>, lc: map<N, int>, lb: map<N, int>,
                           role: Role<N>)
    requires Lowered(lp, p, big) && RoleOk(lp, role)
    ensures var n := NameOf(lp, role);
            && n in lp.roles && n in big.graph && n !in big.feeds && big.graph[n] == NodeOf(lp, role)
            && n in LoopLevels(lp, p, big, lv, lc, lb)
            && LoopLevels(lp, p, big, lv, lc, lb)[n] == LoopLevel(lp, role, lc, lb)
  {
    hide SplicedOn;
  }

  lemma CondPlaced<N(!new)>(lp: Loop<N>, p: Machine<N>, big: Machine<N>, lv: map<N, int>, lc: map<N, int>, lb: map<N, int>)
    requires Lowered(lp, p, big) && lp.cond.src.Keys <= lc.Keys
    ensures CopyPlaced(lp.cond, lp.merge, big.graph, LoopLevels(lp, p, big, lv, lc, lb), lc)
    ensures lp.cond.src.Keys == lp.cond.rename.Keys && forall n :: n in lp.cond.src ==> lp.cond.rename[n] !in big.feeds
  {
    hide Lowered, WellBuilt, LoopLevels, SplicedOn, CopyNode, Remap;
    Renamed(lp, p, big);
    var ll := LoopLevels(lp, p, big, lv, lc, lb);
    forall i | 0 <= i < |lp.merge|
      ensures lp.merge[i] in big.graph && lp.merge[i] in ll && ll[lp.merge[i]] == 1 && big.graph[lp.merge[i]].op.Merge?
    {
      RoleLevel(lp, p, big, lv, lc, lb, IsMerge(i));
    }
    forall n | n in lp.cond.src
      ensures var c := lp.cond.rename[n];
              c in big.graph && c in ll && big.graph[c] == CopyNode(lp.cond, lp.cond.src[n]) && ll[c] == 1 + lc[n] && c !in big.feeds
    {
      RoleLevel(lp, p, big, lv, lc, lb, InCond(n));
    }
  }

  lemma BodyPlaced<N(!new)>(lp: Loop<N>, p: Machine<N>, big: Machine<N>, lv: map<N, int>, lc: map<N, int>, lb: map<N, int>)
    requires Lowered(lp, p, big) && lp.body.src.Keys <= lb.Keys
    ensures CopyPlaced(lp.body, lp.switch, big.graph, LoopLevels(lp, p, big, lv, lc, lb), lb)
    ensures lp.body.src.Keys == lp.body.rename.Keys && forall n :: n in lp.body.src ==> lp.body.rename[n] !in big.feeds
  {
    hide Lowered, WellBuilt, LoopLevels, SplicedOn, CopyNode, Remap;
    Renamed(lp, p, big);
    var ll := LoopLevels(lp, p, big, lv, lc, lb);
    forall i | 0 <= i < |lp.switch|
      ensures lp.switch[i] in big.graph && lp.switch[i] in ll && ll[lp.switch[i]] == 1 && big.graph[lp.switch[i]].op.Switch?
    {
      RoleLevel(lp, p, big, lv, lc, lb, IsSwitch(i));
    }
    forall n | n in lp.body.src
      ensures var c := lp.body.rename[n];
              c in big.graph && c in ll && big.graph[c] == CopyNode(lp.body, lp.body.src[n]) && ll[c] == 1 + lb[n] && c !in big.feeds
    {
      RoleLevel(lp, p, big, lv, lc, lb, InBody(n));
    }
  }

  lemma Renamed<N(!new)>(lp: Loop<N>, p: Machine<N>, big: Machine<N>)
    requires Lowered(lp, p, big)
    ensures WellBuilt(lp) && Shaped(lp) && lp.cond.src.Keys == lp.cond.rename.Keys && lp.body.src.Keys == lp.body.rename.Keys
    ensures SplicedOn(lp.cond, lp.condIn, lp.merge, 0) && SplicedOn(lp.body, lp.bodyIn, lp.switch, 1)
    ensures Readable(lp.cond, lp.condOut) && forall i :: 0 <= i < |lp.inputs| ==> Readable(lp.body, lp.bodyOut[i])
  {
  }

  lemma ControlLevelled<N(!new)>(lp: Loop<N>, p: Machine<N>, big: Machine<N>, lv: map<N, int>, lc: map<N, int>,
                                 lb: map<N, int>, role: Role<N>)
    requires Lowered(lp, p, big) && LevelsFit(lp, p, lv, lc, lb) && RoleOk(lp, role) && (role.IsEnter? || role.IsMerge? || role.IsExit?)
    ensures NameOf(lp, role) in big.graph && big.graph.Keys <= LoopLevels(lp, p, big, lv, lc, lb).Keys
    ensures NodeLevelled(big, LoopLevels(lp, p, big, lv, lc, lb), NameOf(lp, role))
  {
    hide Lowered, WellBuilt, LoopLevels, SplicedOn, CopyPlaced, Levelled, SourceLevelled, Remap, CopyNode, LevelsFit;
    var ll := LoopLevels(lp, p, big, lv, lc, lb);
    LevelsCover(lp, p, big, lv, lc, lb);
    Renamed(lp, p, big);
    RoleLevel(lp, p, big, lv, lc, lb, role);
    match role {
      case IsEnter(i) =>
        ParentLevel(lp, p, big, lv, lc, lb, i);
      case IsMerge(i) =>
        RoleLevel(lp, p, big, lv, lc, lb, IsEnter(i));
        RoleLevel(lp, p, big, lv, lc, lb, IsNext(i));
      case IsExit(i) =>
        RoleLevel(lp, p, big, lv, lc, lb, IsSwitch(i));
    }
  }

  lemma ReaderLevelled<N(!new)>(lp: Loop<N>, p: Machine<N>, big: Machine<N>, lv: map<N, int>, lc: map<N, int>,
                                 lb: map<N, int>, role: Role<N>)
    requires Lowered(lp, p, big) && LevelsFit(lp, p, lv, lc, lb) && RoleOk(lp, role) && (role.IsSwitch? || role.IsNext?)
    ensures NameOf(lp, role) in big.graph && big.graph.Keys <= LoopLevels(lp, p, big, lv, lc, lb).Keys
    ensures NodeLevelled(big, LoopLevels(lp, p, big, lv, lc, lb), NameOf(lp, role))
  {
    hide Lowered, WellBuilt, LoopLevels, SplicedOn, CopyPlaced, Levelled, SourceLevelled, Remap, CopyNode, LevelsFit;
    var ll := LoopLevels(lp, p, big, lv, lc, lb);
    LevelsCover(lp, p, big, lv, lc, lb);
    Renamed(lp, p, big);
    RoleLevel(lp, p, big, lv, lc, lb, role);
    OutputsAtZero(lp, p, lv, lc, lb);
    if role.IsSwitch? {
      RoleLevel(lp, p, big, lv, lc, lb, IsMerge(role.i));
      CondPlaced(lp, p, big, lv, lc, lb);
      RemapLevel(lp.cond, lp.condIn, lp.merge, 0, big.graph, ll, lc, lp.condOut);
    } else {
      BodyPlaced(lp, p, big, lv, lc, lb);
      RemapLevel(lp.body, lp.bodyIn, lp.switch, 1, big.graph, ll, lb, lp.bodyOut[role.i]);
    }
  }

  lemma OutputsAtZero<N(!new)>(lp: Loop<N>, p: Machine<N>, lv: map<N, int>, lc: map<N, int>, lb: map<N, int>)
    requires WellBuilt(lp) && LevelsFit(lp, p, lv, lc, lb)
    ensures lp.condOut.node in lp.cond.src && lp.condOut.node in lc && LevelOf(lp.cond.src, lc, lp.condOut) == 0
    ensures forall i :: 0 <= i < |lp.inputs| ==>
              lp.bodyOut[i].node in lp.body.src && lp.bodyOut[i].node in lb && LevelOf(lp.body.src, lb, lp.bodyOut[i]) == 0
  {
  }

  lemma LevelsCover<N(!new)>(lp: Loop<N>, p: Machine<N>, big: Machine<N>, lv: map<N, int>, lc: map<N, int>, lb: map<N, int>)
    requires Lowered(lp, p, big) && LevelsFit(lp, p, lv, lc, lb)
    ensures big.graph.Keys <= LoopLevels(lp, p, big, lv, lc, lb).Keys
    ensures lp.cond.src.Keys <= lc.Keys && lp.body.src.Keys <= lb.Keys
    ensures forall n :: n in lp.condIn ==> n in lc && lc[n] == 0
    ensures forall n :: n in lp.bodyIn ==> n in lb && lb[n] == 0
  {
  }

  lemma CopiesLevelled<N(!new)>(lp: Loop<N>, p: Machine<N>, big: Machine<N>, lv: map<N, int>, lc: map<N, int>,
                                lb: map<N, int>, role: Role<N>)
    requires Lowered(lp, p, big) && LevelsFit(lp, p, lv, lc, lb) && RoleOk(lp, role) && (role.InCond? || role.InBody?)
    ensures NameOf(lp, role) in big.graph && big.graph.Keys <= LoopLevels(lp, p, big, lv, lc, lb).Keys
    ensures NodeLevelled(big, LoopLevels(lp, p, big, lv, lc, lb), NameOf(lp, role))
  {
    hide Lowered, WellBuilt, LoopLevels, SplicedOn, CopyPlaced, Levelled, SourceLevelled, NodeLevelled;
    var ll := LoopLevels(lp, p, big, lv, lc, lb);
    LevelsCover(lp, p, big, lv, lc, lb);
    Renamed(lp, p, big);
    RoleLevel(lp, p, big, lv, lc, lb, role);
    if role.InCond? {
      CondPlaced(lp, p, big, lv, lc, lb);
      CopyLevelled(lp.cond, lp.condIn, lp.merge, 0, big, ll, lc, role.n);
    } else {
      BodyPlaced(lp, p, big, lv, lc, lb);
      CopyLevelled(lp.body, lp.bodyIn, lp.switch, 1, big, ll, lb, role.n);
    }
  }

  /** An input of the loop keeps its level. */
  lemma ParentLevel<N(!new)>(lp: Loop<N>, p: Machine<N>, big: Machine<N>, lv: map<N, int>, lc: map<N, int>, lb: map<N, int>, i: nat)
    requires Lowered(lp, p, big) && LevelsFit(lp, p, lv, lc, lb) && i < |lp.inputs|
    ensures var n, ll := lp.inputs[i].node, LoopLevels(lp, p, big, lv, lc, lb);
            n in big.graph && n in ll && LevelOf(big.graph, ll, lp.inputs[i]) == 0
  {
    hide SplicedOn, SourceLevelled;
  }

  lemma ParentNodeLevelled<N(!new)>(lp: Loop<N>, p: Machine<N>, big: Machine<N>, lv: map<N, int>, lc: map<N, int>,
                                    lb: map<N, int>, n: N)
    requires Lowered(lp, p, big) && Levelled(p, lv) && n in p.graph
    ensures n in big.graph && big.graph.Keys <= LoopLevels(lp, p, big, lv, lc, lb).Keys
    ensures NodeLevelled(big, LoopLevels(lp, p, big, lv, lc, lb), n)
  {
    hide WellBuilt;
    assert NodeLevelled(p, lv, n);
    var ll := LoopLevels(lp, p, big, lv, lc, lb);
    forall m | m in p.graph
      ensures m in big.graph && big.graph[m] == p.graph[m] && m !in lp.roles && ll[m] == lv[m]
    {
    }
    forall i | 0 <= i < |p.graph[n].inputs|
      ensures p.graph[n].inputs[i].node in p.graph
    {
    }
  }

  /** Lowering a loop keeps levels. */
  lemma LoopLevelled<N(!new)>(lp: Loop<N>, p: Machine<N>, big: Machine<N>, lv: map<N, int>, lc: map<N, int>, lb: map<N, int>)
    requires Lowered(lp, p, big) && LevelsFit(lp, p, lv, lc, lb)
    ensures Levelled(big, LoopLevels(lp, p, big, lv, lc, lb))
  {
    LoweredSplits(lp, p, big);
    hide Lowered, WellBuilt, NodeLevelled;
    forall n | n in big.graph
      ensures NodeLevelled(big, LoopLevels(lp, p, big, lv, lc, lb), n)
    {
      if n in lp.roles {
        var role := lp.roles[n];
        if role.InCond? || role.InBody? {
          CopiesLevelled(lp, p, big, lv, lc, lb, role);
        } else if role.IsSwitch? || role.IsNext? {
          ReaderLevelled(lp, p, big, lv, lc, lb, role);
        } else {
          ControlLevelled(lp, p, big, lv, lc, lb, role);
        }
      } else {
        ParentNodeLevelled(lp, p, big, lv, lc, lb, n);
      }
    }
  }

  lemma LoweredSplits<N(!new)>(lp: Loop<N>, p: Machine<N>, big: Machine<N>)
    requires Lowered(lp, p, big)
    ensures Shaped(lp) && forall n :: n in big.graph ==> n in p.graph || n in lp.roles
    ensures forall n :: n in lp.roles ==> RoleOk(lp, lp.roles[n]) && NameOf(lp, lp.roles[n]) == n
  {
  }
}
