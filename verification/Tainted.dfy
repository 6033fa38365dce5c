/**
 What stays dead in a loop when some of its variables start from dead values, read off the source loop.
 A set of loop variables is tainted if each of them starts dead and gets from the body an output that
 depends on a tainted variable, or on a condition that does.
 */
module Tainted {
  import opened Dataflow
  import opened Acyclic
  import opened Splices
  import opened WhileLoops
  import opened LoopTheorems
  import opened LoopBounds
  import opened WhileBuilder
  import opened FinishWhile
  import opened WhileTheorem

  function Vars(ins: seq<string>, dead: set<nat>): set<string> {
    set i | 0 <= i < |ins| && i in dead :: ins[i]
  }

  /**
   Node `n` of a graph stays dead in a copy whose inputs `dead` do.  Copies of nodes that read inputs only, and of
   nodes that read nothing, run after the replacement of the first input.
   */
  predicate DeadOut(defs: seq<Def>, ins: seq<string>, dead: set<nat>, n: string) {
    if n in ins then n in Vars(ins, dead) else 0 in dead || Depends(defs, Vars(ins, dead), n)
  }

  /** The same for the copied node itself; copies of inputs run, if at all, after the replacement of the first. */
  predicate DeadCopy(defs: seq<Def>, ins: seq<string>, dead: set<nat>, n: string) {
    if n in ins then 0 in dead else DeadOut(defs, ins, dead, n)
  }

  /** The condition stays dead, so that no iteration is entered. */
  predicate Stalls(src: Source, tainted: set<nat>) {
    DeadOut(src.cond, src.condIn, tainted, src.condOut.node)
  }

  /** The Switch and the Exit of variable `i` stay dead. */
  predicate Holds(src: Source, tainted: set<nat>, i: nat) { i in tainted || Stalls(src, tainted) }

  function Held(src: Source, tainted: set<nat>): set<nat> {
    set i | 0 <= i < src.Count() && Holds(src, tainted, i)
  }

  /** Tainted variables are given dead outputs by the body. */
  predicate TaintKept(src: Source, tainted: set<nat>)
    requires src.Sized()
  {
    forall i :: i in tainted ==>
      i < src.Count() && DeadOut(src.body, src.bodyIn, Held(src, tainted), src.bodyOut[i].node)
  }

  predicate DeadRole(src: Source, tainted: set<nat>, role: Role<string>)
    requires src.Sized() && RoleIn(src, role)
  {
    var held := Held(src, tainted);
    match role
    case IsEnter(i) => i in tainted
    case IsMerge(i) => i in tainted
    case IsSwitch(i) => i in held
    case IsExit(i) => i in held
    case IsNext(i) => DeadOut(src.body, src.bodyIn, held, src.bodyOut[i].node)
    case InCond(n) => DeadCopy(src.cond, src.condIn, tainted, n)
    case InBody(n) => DeadCopy(src.body, src.bodyIn, held, n)
  }

  /** The nodes of the loop that stay dead. */
  ghost function DeadRoles(src: Source, tainted: set<nat>): set<Role<string>>
    requires src.Sized()
  {
    set role | role in AllRoles(src) && DeadRole(src, tainted, role)
  }

  // ----- dependence along single inputs

  lemma {:induction false} DependsLater(l: seq<Def>, ins: seq<string>, k: nat, sources: set<string>, n: string)
    requires Ordered(l, ins) && k <= |l| && n in ToGraph(l[..k])
    ensures Depends(l, sources, n) <==> Depends(l[..k], sources, n)
    decreases |l|
  {
    if k < |l| {
      var rest := l[..|l|-1];
      assert rest[..k] == l[..k];
      DependsLater(rest, ins, k, sources, n);
      PrefixKeys(rest, k, n);
    } else {
      assert l[..k] == l;
    }
  }

  lemma PrefixKeys(l: seq<Def>, k: nat, n: string)
    requires k <= |l| && n in ToGraph(l[..k])
    ensures n in ToGraph(l)
  {
    assert l == l[..k] + l[k..];
    ToGraphAppend(l[..k], l[k..]);
  }

  lemma LastInGraph(l: seq<Def>)
    requires l != []
    ensures ToGraph(l) == ToGraph(l[..|l|-1])[l[|l|-1].name := l[|l|-1].node]
  {
  }

  /** A node depends on a source exactly if it is one or reads from a node that does. */
  lemma {:induction false} DependsVia(l: seq<Def>, ins: seq<string>, sources: set<string>, n: string)
    requires Ordered(l, ins) && n in ToGraph(l)
    ensures Depends(l, sources, n) <==>
            n in sources || exists i :: 0 <= i < |ToGraph(l)[n].inputs| && Depends(l, sources, ToGraph(l)[n].inputs[i].node)
    decreases |l|
  {
    hide ToGraph;
    ToGraphKeys(l, n);
    var k := |l| - 1;
    var rest, inputs := l[..k], ToGraph(l)[n].inputs;
    LastInGraph(l);
    if l[k].name != n {
      DependsVia(rest, ins, sources, n);
    }
    forall i | 0 <= i < |inputs|
      ensures Depends(l, sources, inputs[i].node) <==> Depends(rest, sources, inputs[i].node)
    {
      if l[k].name == n {
        assert Read(ToGraph(rest), ins, inputs[i]);
      } else {
        OrderedReads(rest, ins, n, i);
      }
      DependsLater(l, ins, k, sources, inputs[i].node);
    }
  }

  /** Inputs depend on no other node. */
  lemma InputVia(l: seq<Def>, ins: seq<string>, sources: set<string>, n: string)
    requires Ordered(l, ins) && n in ToGraph(l) && n in ins
    ensures Depends(l, sources, n) <==> n in sources
  {
    hide Ordered, ToGraph, Depends;
    DependsVia(l, ins, sources, n);
    OrderedOps(l, ins, n);
  }

  /** A copied node stays dead because of one of its inputs or because of the pivot, and not without one. */
  lemma CopyVia(defs: seq<Def>, ins: seq<string>, dead: set<nat>, n: string)
    requires Ordered(defs, ins) && n in ToGraph(defs) && n !in ins
    ensures var inputs := ToGraph(defs)[n].inputs;
            DeadOut(defs, ins, dead, n) <==>
            || (exists i :: 0 <= i < |inputs| && DeadOut(defs, ins, dead, inputs[i].node))
            || (0 in dead && forall i :: 0 <= i < |inputs| ==> inputs[i].node in ins)
  {
    hide Ordered, ToGraph, Depends;
    var inputs, sources := ToGraph(defs)[n].inputs, Vars(ins, dead);
    DependsVia(defs, ins, sources, n);
    forall i | 0 <= i < |inputs|
      ensures inputs[i].node in ins ==> (Depends(defs, sources, inputs[i].node) <==> inputs[i].node in sources)
    {
      OrderedReads(defs, ins, n, i);
      if inputs[i].node in ins {
        InputVia(defs, ins, sources, inputs[i].node);
      }
    }
  }

  // ----- dead roles

  lemma DeadRolesHave(src: Source, tainted: set<nat>, role: Role<string>)
    requires src.Sized()
    ensures role in DeadRoles(src, tainted) <==> RoleIn(src, role) && DeadRole(src, tainted, role)
  {
  }

  lemma VarAt(ins: seq<string>, dead: set<nat>, i: nat)
    requires Distinct(ins) && i < |ins|
    ensures ins[i] in Vars(ins, dead) <==> i in dead
  {
  }

  /** What the copied condition reads is dead exactly if it is so in the source. */
  lemma CondReadsDead(src: Source, tainted: set<nat>, r: Ref<string>)
    requires GoodSource(src) && WellBuilt(LoopOf(src)) && Readable(LoopOf(src).cond, r)
    ensures DeadRead(LoopOf(src), DeadRoles(src, tainted), Remap(LoopOf(src).cond, r)) <==>
            DeadOut(src.cond, src.condIn, tainted, r.node)
  {
    hide DeadOut, DeadRoles, LoopOf, Usable, NodeOf, Vars, Holds;
    var lp := LoopOf(src);
    SplicesOf(src);
    CondReads(lp, r);
    DeadRolesHave(src, tainted, lp.roles[Remap(lp.cond, r).node]);
    RoleAgrees(src, lp.roles[Remap(lp.cond, r).node]);
    if r.node in src.condIn {
      var i :| 0 <= i < |src.condIn| && src.condIn[i] == r.node;
      assert r == Ref(lp.condIn[i], 0);
      InputDead(src, tainted, i);
    }
  }

  lemma InputDead(src: Source, tainted: set<nat>, i: nat)
    requires GoodSource(src) && i < src.Count()
    ensures DeadOut(src.cond, src.condIn, tainted, src.condIn[i]) <==> i in tainted
    ensures DeadOut(src.body, src.bodyIn, tainted, src.bodyIn[i]) <==> i in tainted
  {
    hide Usable, Vars, Depends;
    InsDistinct(src);
    VarAt(src.condIn, tainted, i);
    VarAt(src.bodyIn, tainted, i);
  }

  lemma InsDistinct(src: Source)
    requires GoodSource(src)
    ensures Distinct(src.condIn) && Distinct(src.bodyIn)
  {
  }

  lemma BodyReadsDead(src: Source, tainted: set<nat>, r: Ref<string>)
    requires GoodSource(src) && WellBuilt(LoopOf(src)) && Readable(LoopOf(src).body, r)
    ensures DeadRead(LoopOf(src), DeadRoles(src, tainted), Remap(LoopOf(src).body, r)) <==>
            DeadOut(src.body, src.bodyIn, Held(src, tainted), r.node)
  {
    hide DeadOut, DeadRoles, LoopOf, Usable, NodeOf, Vars, Holds, Held;
    var lp := LoopOf(src);
    SplicesOf(src);
    BodyReads(lp, r);
    DeadRolesHave(src, tainted, lp.roles[Remap(lp.body, r).node]);
    RoleAgrees(src, lp.roles[Remap(lp.body, r).node]);
    if r.node in src.bodyIn {
      var i :| 0 <= i < |src.bodyIn| && src.bodyIn[i] == r.node;
      assert r == Ref(lp.bodyIn[i], 0);
      InputDead(src, Held(src, tainted), i);
    }
  }

  /** The control-flow nodes of variable `i` are dead exactly if the source says so. */
  lemma ControlReadsDead(src: Source, tainted: set<nat>, i: nat, slot: int)
    requires GoodSource(src) && WellBuilt(LoopOf(src)) && i < src.Count()
    ensures var lp, dead := LoopOf(src), DeadRoles(src, tainted);
            && i < |lp.enter| && i < |lp.merge| && i < |lp.switch| && i < |lp.next|
            && (DeadRead(lp, dead, Ref(lp.enter[i], slot)) <==> i in tainted)
            && (DeadRead(lp, dead, Ref(lp.merge[i], slot)) <==> i in tainted)
            && (DeadRead(lp, dead, Ref(lp.switch[i], slot)) <==> i in Held(src, tainted))
            && (DeadRead(lp, dead, Ref(lp.next[i], slot)) <==>
                DeadOut(src.body, src.bodyIn, Held(src, tainted), src.bodyOut[i].node))
            && lp.next[i] in lp.roles && lp.roles[lp.next[i]] == IsNext(i)
  {
    hide DeadOut, DeadRoles, LoopOf, Usable, NodeOf, Holds, Held, SplicedOn;
    var lp := LoopOf(src);
    SplicesOf(src);
    assert NameOf(lp, IsEnter(i)) == lp.enter[i] && NameOf(lp, IsMerge(i)) == lp.merge[i];
    assert NameOf(lp, IsSwitch(i)) == lp.switch[i] && NameOf(lp, IsNext(i)) == lp.next[i];
    DeadRolesHave(src, tainted, IsEnter(i));
    DeadRolesHave(src, tainted, IsMerge(i));
    DeadRolesHave(src, tainted, IsSwitch(i));
    DeadRolesHave(src, tainted, IsNext(i));
  }

  /** A copied node is dead exactly if it reads from a dead one. */
  lemma CopyDead(lp: Loop<string>, roles: set<Role<string>>, sp: Splice<string>, defs: seq<Def>, ins: seq<string>, dead: set<nat>,
                 n: string)
    requires Ordered(defs, ins) && n in ToGraph(defs)
    requires sp.src == ToGraph(defs) && forall r :: r in sp.inputMap <==> r.slot == 0 && r.node in ins
    requires forall r :: Readable(sp, r) ==> (DeadRead(lp, roles, Remap(sp, r)) <==> DeadOut(defs, ins, dead, r.node))
    requires DeadRead(lp, roles, Ref(sp.pivot, CONTROL_SLOT)) <==> 0 in dead
    ensures DeadCopy(defs, ins, dead, n) <==> ReadsDead(lp, roles, CopyNode(sp, sp.src[n]))
  {
    hide DeadOut, Ordered, DeadRead, ToGraph;
    var inputs, copied := ToGraph(defs)[n].inputs, CopyNode(sp, sp.src[n]).inputs;
    OrderedOps(defs, ins, n);
    if n !in ins {
      CopyVia(defs, ins, dead, n);
    }
    forall j | 0 <= j < |inputs|
      ensures DeadRead(lp, roles, copied[j]) <==> DeadOut(defs, ins, dead, inputs[j].node)
      ensures inputs[j] in sp.inputMap <==> inputs[j].node in ins
    {
      OrderedReads(defs, ins, n, j);
      assert Readable(sp, inputs[j]);
    }
    assert (forall j :: 0 <= j < |inputs| ==> inputs[j].node in ins) <==> AllMapped(sp, inputs);
    assert AllMapped(sp, inputs) ==> copied[|inputs|] == Ref(sp.pivot, CONTROL_SLOT);
  }

  predicate ReadsDead(lp: Loop<string>, dead: set<Role<string>>, node: Node<string>) {
    exists j :: 0 <= j < |node.inputs| && DeadRead(lp, dead, node.inputs[j])
  }

  /** But for Enter and Merge nodes, a node of the loop is dead exactly if it reads from a dead one. */
  lemma RoleDead(src: Source, tainted: set<nat>, role: Role<string>)
    requires AcyclicSource(src) && GoodSource(src) && WellBuilt(LoopOf(src)) && RoleOk(LoopOf(src), role)
    ensures RoleIn(src, role)
    ensures !role.IsEnter? && !role.IsMerge? ==>
              (DeadRole(src, tainted, role) <==> ReadsDead(LoopOf(src), DeadRoles(src, tainted), NodeOf(LoopOf(src), role)))
  {
    hide DeadOut, DeadCopy, DeadRoles, LoopOf, Usable, Ordered, DeadRead, ReadsDead, ToGraph, WellBuilt, CopyNode, Held;
    WellBuiltShaped(src);
    SplicesOf(src);
    RoleAgrees(src, role);
    match role {
      case IsEnter(_) =>
      case IsMerge(_) =>
      case InCond(n) => CondCopyDead(src, tainted, n);
      case InBody(n) => BodyCopyDead(src, tainted, n);
      case _ => ControlDead(src, tainted, role);
    }
  }

  lemma ControlDead(src: Source, tainted: set<nat>, role: Role<string>)
    requires GoodSource(src) && WellBuilt(LoopOf(src)) && RoleOk(LoopOf(src), role) && RoleIn(src, role)
    requires role.IsSwitch? || role.IsNext? || role.IsExit?
    ensures DeadRole(src, tainted, role) <==> ReadsDead(LoopOf(src), DeadRoles(src, tainted), NodeOf(LoopOf(src), role))
  {
    hide DeadOut, DeadRoles, LoopOf, Usable, DeadRead, ToGraph, SplicedOn, RoleOk, NameOf, Readable, Remap;
    var lp := LoopOf(src);
    SplicesOf(src);
    var inputs := NodeOf(lp, role).inputs;
    ControlReadsDead(src, tainted, role.i, 0);
    CondReadsDead(src, tainted, src.condOut);
    BodyReadsDead(src, tainted, src.bodyOut[role.i]);
    assert inputs[0] == if role.IsSwitch? then Ref(lp.merge[role.i], 0)
                        else if role.IsNext? then Remap(lp.body, lp.bodyOut[role.i]) else Ref(lp.switch[role.i], 0);
    assert role.IsSwitch? ==> inputs[1] == Remap(lp.cond, lp.condOut);
  }

  lemma Replacements(src: Source)
    requires src.Sized() && WellBuilt(LoopOf(src))
    ensures var lp := LoopOf(src);
            && lp.merge != [] && lp.cond.pivot == lp.merge[0] && lp.switch != [] && lp.body.pivot == lp.switch[0]
            && lp.cond.src == ToGraph(src.cond) && lp.body.src == ToGraph(src.body)
            && (forall r :: r in lp.cond.inputMap <==> r.slot == 0 && r.node in src.condIn)
            && (forall r :: r in lp.body.inputMap <==> r.slot == 0 && r.node in src.bodyIn)
  {
    hide RoleMap;
    SplicesOf(src);
  }

  lemma CondCopyDead(src: Source, tainted: set<nat>, n: string)
    requires AcyclicSource(src) && GoodSource(src) && WellBuilt(LoopOf(src)) && n in ToGraph(src.cond)
    ensures var lp := LoopOf(src);
            n in lp.cond.src
            && (DeadCopy(src.cond, src.condIn, tainted, n) <==>
                ReadsDead(lp, DeadRoles(src, tainted), CopyNode(lp.cond, lp.cond.src[n])))
  {
    hide DeadOut, DeadCopy, DeadRoles, LoopOf, Usable, NodeOf, Holds, Held, Ordered, DeadRead, ReadsDead, ToGraph, WellBuilt, CopyNode,
         Readable, Remap;
    var lp := LoopOf(src);
    Replacements(src);
    ControlReadsDead(src, tainted, 0, CONTROL_SLOT);
    forall r | Readable(lp.cond, r)
      ensures DeadRead(lp, DeadRoles(src, tainted), Remap(lp.cond, r)) <==> DeadOut(src.cond, src.condIn, tainted, r.node)
    {
      CondReadsDead(src, tainted, r);
    }
    CopyDead(lp, DeadRoles(src, tainted), lp.cond, src.cond, src.condIn, tainted, n);
  }

  lemma BodyCopyDead(src: Source, tainted: set<nat>, n: string)
    requires AcyclicSource(src) && GoodSource(src) && WellBuilt(LoopOf(src)) && n in ToGraph(src.body)
    ensures var lp := LoopOf(src);
            n in lp.body.src
            && (DeadCopy(src.body, src.bodyIn, Held(src, tainted), n) <==>
                ReadsDead(lp, DeadRoles(src, tainted), CopyNode(lp.body, lp.body.src[n])))
  {
    hide DeadOut, DeadCopy, DeadRoles, LoopOf, Usable, NodeOf, Holds, Held, Ordered, DeadRead, ReadsDead, ToGraph, WellBuilt, CopyNode,
         Readable, Remap;
    var lp, held := LoopOf(src), Held(src, tainted);
    Replacements(src);
    ControlReadsDead(src, tainted, 0, CONTROL_SLOT);
    forall r | Readable(lp.body, r)
      ensures DeadRead(lp, DeadRoles(src, tainted), Remap(lp.body, r)) <==> DeadOut(src.body, src.bodyIn, held, r.node)
    {
      BodyReadsDead(src, tainted, r);
    }
    CopyDead(lp, DeadRoles(src, tainted), lp.body, src.body, src.bodyIn, held, n);
  }

  /** What is dead by the source loop stays dead in the lowered one. */
  lemma TaintConsistent(src: Source, tainted: set<nat>)
    requires AcyclicSource(src) && TaintKept(src, tainted)
    ensures Shaped(LoopOf(src)) && Consistent(LoopOf(src), DeadRoles(src, tainted))
  {
    hide DeadOut, DeadRoles, LoopOf, Usable, Ordered, DeadRead, ToGraph, NodeOf, ReadsDead, Held, WellBuilt;
    var lp, dead := LoopOf(src), DeadRoles(src, tainted);
    AcyclicGood(src);
    LoopWellBuilt(src);
    WellBuiltShaped(src);
    forall role | role in dead
      ensures RoleOk(lp, role) && DeadReason(lp, dead, role)
    {
      RoleAgrees(src, role);
      DeadRolesHave(src, tainted, role);
      RoleDead(src, tainted, role);
      if role.IsMerge? {
        MergeDead(src, tainted, role.i);
      } else if !role.IsEnter? {
        NotMerge(src, role);
        HasReason(lp, dead, role);
      }
    }
  }

  lemma WellBuiltShaped(src: Source)
    requires src.Sized() && WellBuilt(LoopOf(src))
    ensures Shaped(LoopOf(src))
  {
  }

  lemma NotMerge(src: Source, role: Role<string>)
    requires AcyclicSource(src) && Shaped(LoopOf(src)) && RoleOk(LoopOf(src), role) && !role.IsMerge?
    ensures !NodeOf(LoopOf(src), role).op.Merge?
  {
    hide LoopOf, Ordered, ToGraph;
    SplicesOf(src);
    match role {
      case InCond(n) => OrderedOps(src.cond, src.condIn, n);
      case InBody(n) => OrderedOps(src.body, src.bodyIn, n);
      case _ =>
    }
  }

  lemma HasReason(lp: Loop<string>, dead: set<Role<string>>, role: Role<string>)
    requires Shaped(lp) && RoleOk(lp, role) && ReadsDead(lp, dead, NodeOf(lp, role)) && !NodeOf(lp, role).op.Merge?
    ensures DeadReason(lp, dead, role)
  {
  }

  lemma MergeDead(src: Source, tainted: set<nat>, i: nat)
    requires GoodSource(src) && WellBuilt(LoopOf(src)) && TaintKept(src, tainted) && i in tainted
    ensures RoleOk(LoopOf(src), IsMerge(i)) && DeadReason(LoopOf(src), DeadRoles(src, tainted), IsMerge(i))
  {
    hide DeadOut, DeadRoles, LoopOf, Usable, DeadRead, SplicedOn;
    SplicesOf(src);
    ControlReadsDead(src, tainted, i, 0);
  }

  /** What is not dead by the source loop reads from nodes that are not, but for Merge nodes that wait. */
  lemma TaintComplete(src: Source, tainted: set<nat>, role: Role<string>)
    requires AcyclicSource(src) && TaintKept(src, tainted) && Shaped(LoopOf(src)) && RoleOk(LoopOf(src), role)
    requires !role.IsEnter? && role !in DeadRoles(src, tainted)
    ensures ReadsLive(LoopOf(src), DeadRoles(src, tainted), role)
  {
    hide DeadOut, DeadRoles, LoopOf, Usable, Ordered, DeadRead, ToGraph, Held, WellBuilt, SplicedOn;
    var lp, dead := LoopOf(src), DeadRoles(src, tainted);
    AcyclicGood(src);
    LoopWellBuilt(src);
    RoleAgrees(src, role);
    DeadRolesHave(src, tainted, role);
    RoleDead(src, tainted, role);
    if role.IsMerge? {
      MergeLive(src, tainted, role.i);
    }
  }

  lemma MergeLive(src: Source, tainted: set<nat>, i: nat)
    requires GoodSource(src) && WellBuilt(LoopOf(src)) && i < src.Count() && i !in tainted
    ensures RoleOk(LoopOf(src), IsMerge(i)) && ReadsLive(LoopOf(src), DeadRoles(src, tainted), IsMerge(i))
  {
    hide DeadOut, DeadRoles, LoopOf, Usable, DeadRead, SplicedOn;
    SplicesOf(src);
    ControlReadsDead(src, tainted, i, 0);
  }
}
