/**
 TF_NewWhile and TF_FinishWhile (c/c_api.cc): the nodes that a finished loop adds to the
 parent graph, in the order and under the names in which they are created.
 */
module WhileBuilder {
  import opened Dataflow
  import opened Acyclic
  import opened Splices
  import opened WhileLoops
  import opened LoopNames

  type Def = NodeDef<string>

  /** A loop ready to be built: TF_WhileParams with every field set, and the parent's inputs. */
  datatype Source = Source(
    name: string, inputs: seq<Ref<string>>,
    cond: seq<Def>, condIn: seq<string>, condOut: Ref<string>,
    body: seq<Def>, bodyIn: seq<string>, bodyOut: seq<Ref<string>>)
  {
    function Count(): nat { |inputs| }

    predicate Sized() {
      Count() > 0 && |condIn| == Count() && |bodyIn| == Count() && |bodyOut| == Count()
    }

    function Names(f: Family): seq<string> {
      seq(Count(), i requires 0 <= i < Count() => Name(name, f, Decimal(i)))
    }

    function CondSplice(): Splice<string>
      requires Sized()
    {
      SpliceOf(name, CondF, cond, condIn, Refs(Names(MergeF), 0))
    }

    function BodySplice(): Splice<string>
      requires Sized()
    {
      SpliceOf(name, BodyF, body, bodyIn, Refs(Names(SwitchF), 1))
    }

    function Enters(): seq<Def> {
      seq(Count(), i requires 0 <= i < Count() => NodeDef(Names(EnterF)[i], Node(Enter(name), [inputs[i]])))
    }

    function Merges(): seq<Def> {
      seq(Count(), i requires 0 <= i < Count() =>
        NodeDef(Names(MergeF)[i], Node(Merge, [Ref(Names(EnterF)[i], 0), Ref(Names(NextF)[i], 0)])))
    }

    function Switches(): seq<Def>
      requires Sized()
    {
      seq(Count(), i requires 0 <= i < Count() =>
        NodeDef(Names(SwitchF)[i], Node(Switch, [Ref(Names(MergeF)[i], 0), Remap(CondSplice(), condOut)])))
    }

    function Nexts(): seq<Def>
      requires Sized()
    {
      seq(Count(), i requires 0 <= i < Count() =>
        NodeDef(Names(NextF)[i], Node(NextIteration, [Remap(BodySplice(), bodyOut[i])])))
    }

    function Exits(): seq<Def> {
      seq(Count(), i requires 0 <= i < Count() =>
        NodeDef(Names(ExitF)[i], Node(Exit, [Ref(Names(SwitchF)[i], 0)])))
    }
  }

  function Refs(names: seq<string>, slot: int): seq<Ref<string>> {
    seq(|names|, i requires 0 <= i < |names| => Ref(names[i], slot))
  }

  /** The input map that CopyGraph fills in, one source input after the other. */
  function InputMap(ins: seq<string>, dst: seq<Ref<string>>): map<Ref<string>, Ref<string>>
    requires |ins| == |dst|
  {
    if ins == [] then map[]
    else InputMap(ins[..|ins|-1], dst[..|dst|-1])[Ref(ins[|ins|-1], 0) := dst[|dst|-1]]
  }

  function SpliceOf(loop: string, f: Family, defs: seq<Def>, ins: seq<string>, dst: seq<Ref<string>>): Splice<string>
    requires |ins| == |dst| > 0
  {
    Splice(ToGraph(defs), map n | n in ToGraph(defs) :: Name(loop, f, n), InputMap(ins, dst), dst[0].node)
  }

  /** The copied nodes, renamed and with inputs replaced. */
  function CopyDefs(loop: string, f: Family, sp: Splice<string>, defs: seq<Def>): seq<Def> {
    seq(|defs|, i requires 0 <= i < |defs| => NodeDef(Name(loop, f, defs[i].name), CopyNode(sp, defs[i].node)))
  }

  /** Everything TF_FinishWhileHelper adds, in order. */
  function LoopDefs(src: Source): seq<Def>
    requires src.Sized()
  {
    src.Enters() + src.Merges() + CopyDefs(src.name, CondF, src.CondSplice(), src.cond)
    + src.Switches() + CopyDefs(src.name, BodyF, src.BodySplice(), src.body)
    + src.Nexts() + src.Exits()
  }

  // ----- the nodes, written out

  /** What a copy reads: the replacement of an input, or the copy of the node. */
  lemma CopyReadsFrom(loop: string, f: Family, defs: seq<Def>, ins: seq<string>, dst: seq<Ref<string>>, r: Ref<string>)
    requires |ins| == |dst| > 0 && Distinct(ins) && r.node in ToGraph(defs)
    ensures var sp := SpliceOf(loop, f, defs, ins, dst);
            && (forall i :: 0 <= i < |ins| && r == Ref(ins[i], 0) ==> Remap(sp, r) == dst[i])
            && (r.slot != 0 || r.node !in ins ==> Remap(sp, r) == Ref(Name(loop, f, r.node), r.slot))
  {
    InputMapAt(ins, dst);
  }

  /**
   The condition reads Merge outputs and the body the true outputs of Switch nodes; what they read of
   their own nodes they read from the copies, "<name>/cond/<node>" and "<name>/body/<node>".
   */
  lemma CopiesRead(src: Source, r: Ref<string>)
    requires src.Sized() && Distinct(src.condIn) && Distinct(src.bodyIn)
    ensures r.node in ToGraph(src.cond) ==>
              && (forall i :: 0 <= i < src.Count() && r == Ref(src.condIn[i], 0) ==>
                    Remap(src.CondSplice(), r) == Ref(src.name + "/merge" + Decimal(i), 0))
              && (r.slot != 0 || r.node !in src.condIn ==>
                    Remap(src.CondSplice(), r) == Ref(src.name + "/cond/" + r.node, r.slot))
    ensures r.node in ToGraph(src.body) ==>
              && (forall i :: 0 <= i < src.Count() && r == Ref(src.bodyIn[i], 0) ==>
                    Remap(src.BodySplice(), r) == Ref(src.name + "/switch" + Decimal(i), 1))
              && (r.slot != 0 || r.node !in src.bodyIn ==>
                    Remap(src.BodySplice(), r) == Ref(src.name + "/body/" + r.node, r.slot))
  {
    hide SpliceOf, Remap, Decimal;
    if r.node in ToGraph(src.cond) {
      CopyReadsFrom(src.name, CondF, src.cond, src.condIn, Refs(src.Names(MergeF), 0), r);
    }
    if r.node in ToGraph(src.body) {
      CopyReadsFrom(src.name, BodyF, src.body, src.bodyIn, Refs(src.Names(SwitchF), 1), r);
    }
  }

  /**
   The copies: a node that reads inputs only, or nothing, also waits for the replacement of the
   first input, which is "<name>/merge0" for the condition and "<name>/switch0" for the body.
   */
  lemma CopiedNode(src: Source, node: Node<string>)
    requires src.Sized() && Distinct(src.condIn) && Distinct(src.bodyIn)
    ensures var copy, bare := CopyNode(src.CondSplice(), node), forall r :: r in node.inputs ==> r.slot == 0 && r.node in src.condIn;
            && copy.op == node.op && |copy.inputs| == |node.inputs| + (if bare then 1 else 0)
            && (forall j :: 0 <= j < |node.inputs| ==> copy.inputs[j] == Remap(src.CondSplice(), node.inputs[j]))
            && (bare ==> copy.inputs[|node.inputs|] == Ref(src.name + "/merge0", CONTROL_SLOT))
    ensures var copy, bare := CopyNode(src.BodySplice(), node), forall r :: r in node.inputs ==> r.slot == 0 && r.node in src.bodyIn;
            && copy.op == node.op && |copy.inputs| == |node.inputs| + (if bare then 1 else 0)
            && (forall j :: 0 <= j < |node.inputs| ==> copy.inputs[j] == Remap(src.BodySplice(), node.inputs[j]))
            && (bare ==> copy.inputs[|node.inputs|] == Ref(src.name + "/switch0", CONTROL_SLOT))
  {
    hide SpliceOf, CopyNode, Remap, Decimal;
    DecimalZero();
    assert src.Names(MergeF)[0] == src.name + "/merge0" && src.Names(SwitchF)[0] == src.name + "/switch0";
    CopyShape(src.name, CondF, src.cond, src.condIn, Refs(src.Names(MergeF), 0), node);
    CopyShape(src.name, BodyF, src.body, src.bodyIn, Refs(src.Names(SwitchF), 1), node);
  }

  lemma DecimalZero()
    ensures Decimal(0) == "0"
  {
  }

  lemma CopyShape(loop: string, f: Family, defs: seq<Def>, ins: seq<string>, dst: seq<Ref<string>>, node: Node<string>)
    requires |ins| == |dst| > 0 && Distinct(ins)
    ensures var sp, bare := SpliceOf(loop, f, defs, ins, dst), forall r :: r in node.inputs ==> r.slot == 0 && r.node in ins;
            var copy := CopyNode(sp, node);
            && copy.op == node.op && |copy.inputs| == |node.inputs| + (if bare then 1 else 0)
            && (forall j :: 0 <= j < |node.inputs| ==> copy.inputs[j] == Remap(sp, node.inputs[j]))
            && (bare ==> copy.inputs[|node.inputs|] == Ref(dst[0].node, CONTROL_SLOT))
  {
    hide Remap, ToGraph;
    InputMapAt(ins, dst);
  }

  lemma NamedCopies(loop: string, f: Family, sp: Splice<string>, defs: seq<Def>)
    ensures |CopyDefs(loop, f, sp, defs)| == |defs|
    ensures forall j :: 0 <= j < |defs| ==>
              CopyDefs(loop, f, sp, defs)[j] == NodeDef(loop + Text(f) + defs[j].name, CopyNode(sp, defs[j].node))
  {
  }

  /** The control-flow nodes of variable `i`: where in the list they are, their names and what they read. */
  lemma LoopNodes(src: Source, i: nat)
    requires src.Sized() && i < src.Count()
    ensures var n, c, b, l, no := src.Count(), |src.cond|, |src.body|, LoopDefs(src), Decimal(i);
            && |l| == 5 * n + c + b
            && l[i] == NodeDef(src.name + "/enter" + no, Node(Enter(src.name), [src.inputs[i]]))
            && l[n + i] == NodeDef(src.name + "/merge" + no,
                                   Node(Merge, [Ref(src.name + "/enter" + no, 0), Ref(src.name + "/next" + no, 0)]))
            && l[2 * n + c + i] == NodeDef(src.name + "/switch" + no,
                                           Node(Switch, [Ref(src.name + "/merge" + no, 0), Remap(src.CondSplice(), src.condOut)]))
            && l[3 * n + c + b + i] == NodeDef(src.name + "/next" + no,
                                               Node(NextIteration, [Remap(src.BodySplice(), src.bodyOut[i])]))
            && l[4 * n + c + b + i] == NodeDef(src.name + "/exit" + no, Node(Exit, [Ref(src.name + "/switch" + no, 0)]))
  {
    hide SpliceOf, Decimal, Remap, CopyDefs;
    assert src.Names(EnterF)[i] == src.name + "/enter" + Decimal(i) && src.Names(MergeF)[i] == src.name + "/merge" + Decimal(i);
    assert src.Names(SwitchF)[i] == src.name + "/switch" + Decimal(i) && src.Names(NextF)[i] == src.name + "/next" + Decimal(i);
    assert src.Names(ExitF)[i] == src.name + "/exit" + Decimal(i);
    hide Name, Source.Names;
    NamedCopies(src.name, CondF, src.CondSplice(), src.cond);
    NamedCopies(src.name, BodyF, src.BodySplice(), src.body);
    GroupsAt(src, i);
  }

  lemma GroupsAt(src: Source, i: nat)
    requires src.Sized() && i < src.Count()
    ensures var n, c, b, l := src.Count(), |src.cond|, |src.body|, LoopDefs(src);
            && |src.Enters()| == |src.Merges()| == |src.Switches()| == |src.Nexts()| == |src.Exits()| == n
            && |l| == 5 * n + c + b
            && l[i] == src.Enters()[i] && l[n + i] == src.Merges()[i] && l[2 * n + c + i] == src.Switches()[i]
            && l[3 * n + c + b + i] == src.Nexts()[i] && l[4 * n + c + b + i] == src.Exits()[i]
  {
    hide SpliceOf, CopyDefs, Source.Enters, Source.Merges, Source.Switches, Source.Nexts, Source.Exits;
    ControlCounts(src);
    NamedCopies(src.name, CondF, src.CondSplice(), src.cond);
    NamedCopies(src.name, BodyF, src.BodySplice(), src.body);
  }

  /** The copies, after the Merge nodes and after the Switch nodes, in the order of the copied graphs. */
  lemma LoopCopies(src: Source)
    requires src.Sized()
    ensures var n, c, b, l := src.Count(), |src.cond|, |src.body|, LoopDefs(src);
            && |l| == 5 * n + c + b
            && (forall j :: 0 <= j < c ==>
                  l[2 * n + j] == NodeDef(src.name + "/cond/" + src.cond[j].name, CopyNode(src.CondSplice(), src.cond[j].node)))
            && (forall j :: 0 <= j < b ==>
                  l[3 * n + c + j] == NodeDef(src.name + "/body/" + src.body[j].name, CopyNode(src.BodySplice(), src.body[j].node)))
  {
    hide SpliceOf, CopyDefs, CopyNode, Source.Enters, Source.Merges, Source.Switches, Source.Nexts, Source.Exits;
    ControlCounts(src);
    NamedCopies(src.name, CondF, src.CondSplice(), src.cond);
    NamedCopies(src.name, BodyF, src.BodySplice(), src.body);
  }

  // ----- the loop in the terms of module WhileLoops

  /** A graph that may serve as condition or body: named once, closed, reading its inputs as data. */
  predicate Usable(defs: seq<Def>, ins: seq<string>) {
    && Distinct(ins) && (forall i, j :: 0 <= i < j < |defs| ==> defs[i].name != defs[j].name)
    && (forall n :: n in ins ==> n in ToGraph(defs) && ToGraph(defs)[n].op == Placeholder)
    && (forall n, i :: n in ToGraph(defs) && 0 <= i < |ToGraph(defs)[n].inputs| ==>
          Read(ToGraph(defs), ins, ToGraph(defs)[n].inputs[i]))
  }

  predicate GoodSource(src: Source) {
    && src.Sized() && Usable(src.cond, src.condIn) && Usable(src.body, src.bodyIn)
    && Read(ToGraph(src.cond), src.condIn, src.condOut) && src.condOut.slot != CONTROL_SLOT
    && (forall i :: 0 <= i < src.Count() ==>
          && Read(ToGraph(src.body), src.bodyIn, src.bodyOut[i])
          && src.bodyOut[i].slot != CONTROL_SLOT && src.inputs[i].slot != CONTROL_SLOT)
  }

  ghost function BareLoop(src: Source, roles: map<string, Role<string>>): Loop<string>
    requires src.Sized()
  {
    Loop(src.name, src.inputs,
         src.Names(EnterF), src.Names(MergeF), src.Names(SwitchF), src.Names(NextF), src.Names(ExitF),
         src.CondSplice(), src.condIn, src.condOut, src.BodySplice(), src.bodyIn, src.bodyOut, roles)
  }

  function FamilyOf(role: Role<string>): Family {
    match role
    case IsEnter(_) => EnterF
    case IsMerge(_) => MergeF
    case IsSwitch(_) => SwitchF
    case IsNext(_) => NextF
    case IsExit(_) => ExitF
    case InCond(_) => CondF
    case InBody(_) => BodyF
  }

  function Ending(role: Role<string>): string {
    match role
    case InCond(n) => n
    case InBody(n) => n
    case _ => Decimal(role.i)
  }

  predicate RoleIn(src: Source, role: Role<string>) {
    match role
    case InCond(n) => n in ToGraph(src.cond)
    case InBody(n) => n in ToGraph(src.body)
    case _ => role.i < src.Count()
  }

  function RoleName(src: Source, role: Role<string>): string {
    Name(src.name, FamilyOf(role), Ending(role))
  }

  /** A name belongs to at most one role. */
  lemma NameDeterminesRole(src: Source, role: Role<string>, role': Role<string>)
    requires RoleName(src, role) == RoleName(src, role')
    ensures role == role'
  {
    NamesApart(src.name, FamilyOf(role), Ending(role), FamilyOf(role'), Ending(role'));
    if !role.InCond? && !role.InBody? {
      DecimalInjective(role.i, role'.i);
    }
  }

  lemma NamesInjective(src: Source)
    ensures forall role, role' :: RoleName(src, role) == RoleName(src, role') ==> role == role'
  {
    forall role, role' | RoleName(src, role) == RoleName(src, role')
      ensures role == role'
    {
      NameDeterminesRole(src, role, role');
    }
  }

  ghost function AllRoles(src: Source): (roles: set<Role<string>>)
    ensures forall role :: role in roles <==> RoleIn(src, role)
  {
    (set i | 0 <= i < src.Count() :: IsEnter(i)) + (set i | 0 <= i < src.Count() :: IsMerge(i))
    + (set i | 0 <= i < src.Count() :: IsSwitch(i)) + (set i | 0 <= i < src.Count() :: IsNext(i))
    + (set i | 0 <= i < src.Count() :: IsExit(i))
    + (set n | n in ToGraph(src.cond) :: InCond(n)) + (set n | n in ToGraph(src.body) :: InBody(n))
  }

  ghost function AllNames(src: Source): set<string> {
    set role | role in AllRoles(src) :: RoleName(src, role)
  }

  ghost function RoleNamed(src: Source, n: string): (role: Role<string>)
    requires n in AllNames(src)
    ensures RoleIn(src, role) && RoleName(src, role) == n
  {
    var role :| role in AllRoles(src) && RoleName(src, role) == n; role
  }

  ghost function RoleMap(src: Source): map<string, Role<string>> {
    map n | n in AllNames(src) :: RoleNamed(src, n)
  }

  ghost function LoopOf(src: Source): Loop<string>
    requires src.Sized()
  {
    BareLoop(src, RoleMap(src))
  }

  lemma RoleMapOk(src: Source)
    ensures forall role :: RoleIn(src, role) ==> RoleName(src, role) in RoleMap(src) && RoleMap(src)[RoleName(src, role)] == role
    ensures forall n :: n in RoleMap(src) ==> RoleIn(src, RoleMap(src)[n]) && RoleName(src, RoleMap(src)[n]) == n
  {
    NamesInjective(src);
  }

  lemma RoleAgrees(src: Source, role: Role<string>)
    requires src.Sized()
    ensures RoleIn(src, role) <==> RoleOk(LoopOf(src), role)
    ensures RoleIn(src, role) ==> NameOf(LoopOf(src), role) == RoleName(src, role)
  {
    hide RoleMap;
  }

  // ----- the copied graphs

  lemma {:induction false} InputMapAt(ins: seq<string>, dst: seq<Ref<string>>)
    requires |ins| == |dst| && Distinct(ins)
    ensures forall r :: r in InputMap(ins, dst) <==> r.slot == 0 && r.node in ins
    ensures forall i :: 0 <= i < |ins| ==> InputMap(ins, dst)[Ref(ins[i], 0)] == dst[i]
    ensures forall r :: r in InputMap(ins, dst) ==> InputMap(ins, dst)[r] in dst
  {
    if ins != [] {
      var k := |ins| - 1;
      InputMapAt(ins[..k], dst[..k]);
      assert ins == ins[..k] + [ins[k]];
    }
  }

  lemma SpliceOk(src: Source, f: Family, defs: seq<Def>, ins: seq<string>, dst: seq<string>, slot: nat)
    requires |ins| == |dst| > 0 && Usable(defs, ins)
    ensures SplicedOn(SpliceOf(src.name, f, defs, ins, Refs(dst, slot)), ins, dst, slot)
  {
    var sp := SpliceOf(src.name, f, defs, ins, Refs(dst, slot));
    InputMapAt(ins, Refs(dst, slot));
    forall n, n' | n in sp.rename && n' in sp.rename && sp.rename[n] == sp.rename[n']
      ensures n == n'
    {
      NamesApart(src.name, f, n, f, n');
    }
    forall n, i | n in sp.src && 0 <= i < |sp.src[n].inputs|
      ensures Readable(sp, sp.src[n].inputs[i])
    {
      ReadReadable(sp, defs, ins, sp.src[n].inputs[i]);
    }
  }

  lemma ReadReadable(sp: Splice<string>, defs: seq<Def>, ins: seq<string>, r: Ref<string>)
    requires sp.src == ToGraph(defs) && (forall r :: r in sp.inputMap <==> r.slot == 0 && r.node in ins)
    requires Read(ToGraph(defs), ins, r)
    ensures Readable(sp, r)
  {
  }

  /** The names that the C API generates make a well-built loop, for any number of variables. */
  lemma LoopWellBuilt(src: Source)
    requires GoodSource(src)
    ensures WellBuilt(LoopOf(src))
  {
    hide SplicedOn, WellFormed, RoleMap, RoleName, NameOf, SpliceOf, InputMap;
    var lp := LoopOf(src);
    RoleMapOk(src);
    forall role
      ensures RoleIn(src, role) <==> RoleOk(lp, role)
      ensures RoleIn(src, role) ==> NameOf(lp, role) == RoleName(src, role)
    {
      RoleAgrees(src, role);
    }
    SpliceOk(src, CondF, src.cond, src.condIn, src.Names(MergeF), 0);
    SpliceOk(src, BodyF, src.body, src.bodyIn, src.Names(SwitchF), 1);
    OutputReadable(src, CondF, src.cond, src.condIn, Refs(src.Names(MergeF), 0), src.condOut);
    forall i | 0 <= i < src.Count()
      ensures Readable(lp.body, src.bodyOut[i])
    {
      OutputReadable(src, BodyF, src.body, src.bodyIn, Refs(src.Names(SwitchF), 1), src.bodyOut[i]);
    }
  }

  lemma OutputReadable(src: Source, f: Family, defs: seq<Def>, ins: seq<string>, dst: seq<Ref<string>>, r: Ref<string>)
    requires |ins| == |dst| > 0 && Usable(defs, ins) && Read(ToGraph(defs), ins, r)
    ensures Readable(SpliceOf(src.name, f, defs, ins, dst), r)
  {
    InputMapAt(ins, dst);
  }

  // ----- the graph after the loop has been added

  lemma {:induction false} ToGraphKeys(l: seq<Def>, n: string)
    ensures n in ToGraph(l) <==> exists i :: 0 <= i < |l| && l[i].name == n
  {
    if l != [] {
      ToGraphKeys(l[..|l|-1], n);
    }
  }

  lemma {:induction false} ToGraphAt(l: seq<Def>, n: string, node: Node<string>)
    requires n in ToGraph(l) && forall i :: 0 <= i < |l| && l[i].name == n ==> l[i].node == node
    ensures ToGraph(l)[n] == node
  {
    if l[|l|-1].name != n {
      ToGraphAt(l[..|l|-1], n, node);
    }
  }

  /** The definition of the node that plays a role. */
  ghost function DefOf(src: Source, role: Role<string>): Def
    requires src.Sized() && RoleIn(src, role)
  {
    RoleAgrees(src, role);
    NodeDef(RoleName(src, role), NodeOf(LoopOf(src), role))
  }

  lemma CopyPlays(loop: string, f: Family, sp: Splice<string>, defs: seq<Def>, i: nat)
    requires i < |defs| && forall i, j :: 0 <= i < j < |defs| ==> defs[i].name != defs[j].name
    ensures defs[i].name in ToGraph(defs)
    ensures CopyDefs(loop, f, sp, defs)[i] == NodeDef(Name(loop, f, defs[i].name), CopyNode(sp, ToGraph(defs)[defs[i].name]))
  {
    ToGraphKeys(defs, defs[i].name);
    ToGraphAt(defs, defs[i].name, defs[i].node);
  }

  lemma ControlDefs(src: Source, i: nat)
    requires GoodSource(src) && i < src.Count()
    ensures src.Enters()[i] == DefOf(src, IsEnter(i)) && src.Merges()[i] == DefOf(src, IsMerge(i))
    ensures src.Switches()[i] == DefOf(src, IsSwitch(i))
    ensures src.Nexts()[i] == DefOf(src, IsNext(i)) && src.Exits()[i] == DefOf(src, IsExit(i))
  {
    hide Usable, CopyNode, Name, RoleMap, SpliceOf;
  }

  /** Every definition of the loop belongs to a role. */
  lemma DefPlays(src: Source, def: Def) returns (role: Role<string>)
    requires GoodSource(src) && def in LoopDefs(src)
    ensures RoleIn(src, role) && def == DefOf(src, role)
  {
    hide Usable, DefOf, SpliceOf, CopyDefs, Source.Enters, Source.Merges, Source.Switches, Source.Nexts, Source.Exits;
    var conds := CopyDefs(src.name, CondF, src.CondSplice(), src.cond);
    var bodies := CopyDefs(src.name, BodyF, src.BodySplice(), src.body);
    ControlCounts(src);
    forall i | 0 <= i < src.Count()
      ensures src.Enters()[i] == DefOf(src, IsEnter(i)) && src.Merges()[i] == DefOf(src, IsMerge(i))
      ensures src.Switches()[i] == DefOf(src, IsSwitch(i))
      ensures src.Nexts()[i] == DefOf(src, IsNext(i)) && src.Exits()[i] == DefOf(src, IsExit(i))
    {
      ControlDefs(src, i);
    }
    assert def in src.Enters() || def in src.Merges() || def in conds || def in src.Switches() || def in bodies
        || def in src.Nexts() || def in src.Exits();
    if def in conds {
      role := CondDefPlays(src, def);
    } else if def in bodies {
      role := BodyDefPlays(src, def);
    } else if i :| 0 <= i < src.Count() && def == src.Enters()[i] {
      role := IsEnter(i);
    } else if i :| 0 <= i < src.Count() && def == src.Merges()[i] {
      role := IsMerge(i);
    } else if i :| 0 <= i < src.Count() && def == src.Switches()[i] {
      role := IsSwitch(i);
    } else if i :| 0 <= i < src.Count() && def == src.Nexts()[i] {
      role := IsNext(i);
    } else {
      var i :| 0 <= i < src.Count() && def == src.Exits()[i];
      role := IsExit(i);
    }
  }

  lemma ControlCounts(src: Source)
    requires src.Sized()
    ensures |src.Enters()| == |src.Merges()| == |src.Switches()| == |src.Nexts()| == |src.Exits()| == src.Count()
  {
  }

  lemma CondDefPlays(src: Source, def: Def) returns (role: Role<string>)
    requires GoodSource(src) && def in CopyDefs(src.name, CondF, src.CondSplice(), src.cond)
    ensures RoleIn(src, role) && def == DefOf(src, role)
  {
    hide CopyNode, RoleMap, InputMap;
    var defs := CopyDefs(src.name, CondF, src.CondSplice(), src.cond);
    var i :| 0 <= i < |defs| && def == defs[i];
    CopyPlays(src.name, CondF, src.CondSplice(), src.cond, i);
    role := InCond(src.cond[i].name);
  }

  lemma BodyDefPlays(src: Source, def: Def) returns (role: Role<string>)
    requires GoodSource(src) && def in CopyDefs(src.name, BodyF, src.BodySplice(), src.body)
    ensures RoleIn(src, role) && def == DefOf(src, role)
  {
    hide CopyNode, RoleMap, InputMap;
    var defs := CopyDefs(src.name, BodyF, src.BodySplice(), src.body);
    var i :| 0 <= i < |defs| && def == defs[i];
    CopyPlays(src.name, BodyF, src.BodySplice(), src.body, i);
    role := InBody(src.body[i].name);
  }

  /** Every role has a definition. */
  lemma RoleDefined(src: Source, role: Role<string>)
    requires GoodSource(src) && RoleIn(src, role)
    ensures DefOf(src, role) in LoopDefs(src)
  {
    hide Usable, CopyNode, Name, RoleMap;
    match role {
      case IsEnter(i) => assert src.Enters()[i] == DefOf(src, role);
      case IsMerge(i) => assert src.Merges()[i] == DefOf(src, role);
      case IsSwitch(i) => assert src.Switches()[i] == DefOf(src, role);
      case IsNext(i) => assert src.Nexts()[i] == DefOf(src, role);
      case IsExit(i) => assert src.Exits()[i] == DefOf(src, role);
      case InCond(n) => CondDefined(src, n);
      case InBody(n) => BodyDefined(src, n);
    }
  }

  lemma CondDefined(src: Source, n: string)
    requires GoodSource(src) && n in ToGraph(src.cond)
    ensures DefOf(src, InCond(n)) in CopyDefs(src.name, CondF, src.CondSplice(), src.cond)
  {
    hide CopyNode, RoleMap, InputMap;
    ToGraphKeys(src.cond, n);
    var i :| 0 <= i < |src.cond| && src.cond[i].name == n;
    CopyPlays(src.name, CondF, src.CondSplice(), src.cond, i);
    assert CopyDefs(src.name, CondF, src.CondSplice(), src.cond)[i] == DefOf(src, InCond(n));
  }

  lemma BodyDefined(src: Source, n: string)
    requires GoodSource(src) && n in ToGraph(src.body)
    ensures DefOf(src, InBody(n)) in CopyDefs(src.name, BodyF, src.BodySplice(), src.body)
  {
    hide CopyNode, RoleMap, InputMap;
    ToGraphKeys(src.body, n);
    var i :| 0 <= i < |src.body| && src.body[i].name == n;
    CopyPlays(src.name, BodyF, src.BodySplice(), src.body, i);
    assert CopyDefs(src.name, BodyF, src.BodySplice(), src.body)[i] == DefOf(src, InBody(n));
  }

  /** The graph of the generated definitions has exactly the roles' nodes. */
  lemma LoopGraph(src: Source, n: string)
    requires GoodSource(src)
    ensures n in ToGraph(LoopDefs(src)) <==> n in LoopOf(src).roles
    ensures n in LoopOf(src).roles ==>
              RoleIn(src, LoopOf(src).roles[n]) && ToGraph(LoopDefs(src))[n] == DefOf(src, LoopOf(src).roles[n]).node
  {
    hide Usable, LoopDefs, RoleName, RoleMap, NodeOf;
    var l := LoopDefs(src);
    RoleMapOk(src);
    ToGraphKeys(l, n);
    if i :| 0 <= i < |l| && l[i].name == n {
      var role := DefPlays(src, l[i]);
    }
    if n in RoleMap(src) {
      var role := RoleMap(src)[n];
      RoleDefined(src, role);
      forall i | 0 <= i < |l| && l[i].name == n
        ensures l[i].node == DefOf(src, role).node
      {
        var role' := DefPlays(src, l[i]);
        NameDeterminesRole(src, role, role');
      }
      assert exists i :: 0 <= i < |l| && l[i] == DefOf(src, role);
      ToGraphAt(l, n, DefOf(src, role).node);
    }
  }

  /**
   Adding the generated nodes to a closed graph that has none of their names gives a lowered
   loop in the sense of module WhileLoops.
   */
  lemma LoopLowered(src: Source, p: Machine<string>, big: Machine<string>)
    requires GoodSource(src) && Closed(p.graph) && p.feeds.Keys <= p.graph.Keys
    requires forall i :: 0 <= i < src.Count() ==> src.inputs[i].node in p.graph
    requires p.graph.Keys !! ToGraph(LoopDefs(src)).Keys
    requires big == Machine(p.graph + ToGraph(LoopDefs(src)), p.kernels, p.feeds)
    ensures Lowered(LoopOf(src), p, big)
  {
    hide GoodSource, LoopDefs, RoleName, RoleMap, NodeOf, WellBuilt, LoopOf;
    assert src.Sized() && LoopOf(src).inputs == src.inputs && Shaped(LoopOf(src)) by { SourceSized(src); }
    LoopWellBuilt(src);
    forall n
      ensures n in ToGraph(LoopDefs(src)) <==> n in LoopOf(src).roles
      ensures n in LoopOf(src).roles ==> RoleOk(LoopOf(src), LoopOf(src).roles[n])
      ensures n in LoopOf(src).roles ==> ToGraph(LoopDefs(src))[n] == NodeOf(LoopOf(src), LoopOf(src).roles[n])
    {
      LoopGraph(src, n);
      if n in LoopOf(src).roles {
        LoopRole(src, n);
      }
    }
  }

  lemma SourceSized(src: Source)
    requires GoodSource(src)
    ensures src.Sized() && LoopOf(src).inputs == src.inputs && Shaped(LoopOf(src))
  {
  }

  lemma LoopRole(src: Source, n: string)
    requires src.Sized() && n in LoopOf(src).roles
    ensures RoleIn(src, LoopOf(src).roles[n]) && RoleOk(LoopOf(src), LoopOf(src).roles[n])
    ensures DefOf(src, LoopOf(src).roles[n]).node == NodeOf(LoopOf(src), LoopOf(src).roles[n])
  {
    hide RoleMap, RoleName, NodeOf;
    RoleMapOk(src);
    RoleAgrees(src, LoopOf(src).roles[n]);
  }
}
