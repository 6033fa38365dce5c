/**
 The calls that build a while loop (c/c_api.cc): TF_NewWhile, CopyGraph and TF_FinishWhile,
 step by step on the parent graph, with every early return.
 */
module FinishWhile {
  import opened Options
  import opened Dataflow
  import opened Acyclic
  import opened Splices
  import opened WhileLoops
  import opened GraphApi
  import opened LoopNames
  import opened WhileBuilder

  /** TF_WhileParams; the fields that TF_NewWhile leaves unset are optional. */
  datatype WhileParams = WhileParams(
    cond: seq<Def>, condIn: seq<string>, condOut: Option<Ref<string>>,
    body: seq<Def>, bodyIn: seq<string>, bodyOut: seq<Option<Ref<string>>>,
    name: Option<string>)

  /** The op registry: which nodes it lets in, and how many outputs they have. */
  datatype Registry = Registry(accepts: Def -> bool, outputs: Def -> nat)

  function Placeholders(base: string, n: nat): seq<Def> {
    seq(n, i requires 0 <= i < n => NodeDef(base + Decimal(i), Node(Placeholder, [])))
  }

  function NamesOf(defs: seq<Def>): seq<string> {
    seq(|defs|, i requires 0 <= i < |defs| => defs[i].name)
  }

  predicate DistinctDefs(defs: seq<Def>) {
    forall i, j :: 0 <= i < j < |defs| ==> defs[i].name != defs[j].name
  }

  lemma PlaceholdersDistinct(base: string, n: nat)
    ensures DistinctDefs(Placeholders(base, n))
  {
    var defs := Placeholders(base, n);
    forall i, j | 0 <= i < j < n
      ensures defs[i].name != defs[j].name
    {
      assert defs[i].name[|base|..] == Decimal(i) && defs[j].name[|base|..] == Decimal(j);
      DecimalInjective(i, j);
    }
  }

  /** TF_NewWhile: two graphs with one placeholder per input each. */
  method NewWhile(ninputs: nat) returns (status: Status, params: WhileParams)
    ensures status == if ninputs == 0 then Failed(NoInputs) else Ok
    ensures status.Ok? ==>
              && params.cond == Placeholders("cond_input", ninputs) && params.condIn == NamesOf(params.cond)
              && params.body == Placeholders("body_input", ninputs) && params.bodyIn == NamesOf(params.body)
              && |params.cond| == |params.condIn| == |params.body| == |params.bodyIn| == ninputs
              && (forall i :: 0 <= i < ninputs ==>
                    && params.cond[i] == NodeDef("cond_input" + Decimal(i), Node(Placeholder, []))
                    && params.body[i] == NodeDef("body_input" + Decimal(i), Node(Placeholder, []))
                    && params.condIn[i] == "cond_input" + Decimal(i) && params.bodyIn[i] == "body_input" + Decimal(i))
              && DistinctDefs(params.cond) && DistinctDefs(params.body)
              && |params.bodyOut| == ninputs && params.condOut.None? && params.name.None?
              && forall o :: o in params.bodyOut ==> o.None?
  {
    params := WhileParams([], [], None, [], [], [], None);
    if ninputs == 0 {
      return Failed(NoInputs), params;
    }
    var cond, body := [], [];
    for i := 0 to ninputs
      invariant cond == Placeholders("cond_input", i) && body == Placeholders("body_input", i)
    {
      cond := cond + [NodeDef("cond_input" + Decimal(i), Node(Placeholder, []))];
      body := body + [NodeDef("body_input" + Decimal(i), Node(Placeholder, []))];
    }
    PlaceholdersDistinct("cond_input", ninputs);
    PlaceholdersDistinct("body_input", ninputs);
    params := WhileParams(cond, NamesOf(cond), None, body, NamesOf(body), seq(ninputs, _ => None), None);
    status := Ok;
  }

  // ----- adding nodes one by one

  lemma TakeNext(defs: seq<Def>, i: nat)
    requires i < |defs| && DistinctDefs(defs)
    ensures Slots(defs[..i+1]) == Slots(defs[..i]) + [Op(defs[i])]
    ensures NameSet(defs[..i+1]) == NameSet(defs[..i]) + {defs[i].name} && defs[i].name !in NameSet(defs[..i])
  {
    NamesStep(defs, i);
  }

  /** The node has a new name and the registry lets it in. */
  predicate Creatable(names: map<string, nat>, def: Def, reg: Registry) {
    def.name !in names && reg.accepts(def)
  }

  /** How many nodes come before the first one, from `i` on, that cannot be created. */
  function FirstRefused(names: map<string, nat>, defs: seq<Def>, reg: Registry, i: nat): (n: nat)
    requires i <= |defs|
    ensures i <= n <= |defs| && (n < |defs| ==> !Creatable(names, defs[n], reg))
    ensures forall j :: i <= j < n ==> Creatable(names, defs[j], reg)
    decreases |defs| - i
  {
    if i < |defs| && Creatable(names, defs[i], reg) then FirstRefused(names, defs, reg, i + 1) else i
  }

  /** Creates the nodes in order and stops at the first one that is refused. */
  method CreateAll(g: TFGraph, defs: seq<Def>, reg: Registry) returns (status: Status, ghost made: nat)
    requires g.Valid() && DistinctDefs(defs)
    modifies g
    ensures g.Valid() && made <= |defs| && g.nodes == old(g.nodes) + Slots(defs[..made])
    ensures g.nameMap.Keys == old(g.nameMap).Keys + NameSet(defs[..made])
    ensures made == FirstRefused(old(g.nameMap), defs, reg, 0)
    ensures status.Ok? <==> made == |defs|
  {
    hide Indexed, Sentinels;
    made := 0;
    assert defs[..0] == [];
    for i := 0 to |defs|
      invariant made == i && g.Valid() && g.nodes == old(g.nodes) + Slots(defs[..i])
      invariant g.nameMap.Keys == old(g.nameMap).Keys + NameSet(defs[..i])
      invariant FirstRefused(old(g.nameMap), defs, reg, 0) == FirstRefused(old(g.nameMap), defs, reg, i)
    {
      TakeNext(defs, i);
      status := g.FinishOperation(defs[i], reg.accepts(defs[i]));
      if !status.Ok? {
        return;
      }
      made := made + 1;
    }
    assert defs[..|defs|] == defs;
    status := Ok;
  }

  // ----- importing a graph under a prefix

  predicate NameChar(c: char) {
    'a' <= c <= 'z' || 'A' <= c <= 'Z' || '0' <= c <= '9' || c == '.'
  }

  /** IsValidNodeName without internal names. */
  predicate ValidNodeName(s: string) {
    && s != [] && NameChar(s[0])
    && forall i :: 1 <= i < |s| ==> NameChar(s[i]) || s[i] == '_' || s[i] == '-' || s[i] == '/'
  }

  /** The import prefix without its final slash. */
  function Bare(loop: string, f: Family): string {
    loop + Text(f)[..|Text(f)|-1]
  }

  predicate AllClosed(defs: seq<Def>) {
    forall i, j :: 0 <= i < |defs| && 0 <= j < |defs[i].node.inputs| ==> defs[i].node.inputs[j].node in NamesOf(defs)
  }

  /** `r` names an output that its node has, or the control output. */
  predicate OutputExists(defs: seq<Def>, reg: Registry, r: Ref<string>) {
    exists j :: 0 <= j < |defs| && defs[j].name == r.node && (r.slot == CONTROL_SLOT || 0 <= r.slot < reg.outputs(defs[j]))
  }

  predicate ReturnsFound(sp: Splice<string>, defs: seq<Def>, rets: seq<Ref<string>>, reg: Registry) {
    forall i :: 0 <= i < |rets| ==> rets[i] in sp.inputMap || OutputExists(defs, reg, rets[i])
  }

  predicate TargetsExist(names: map<string, nat>, sp: Splice<string>) {
    sp.pivot in names && forall r :: r in sp.inputMap ==> sp.inputMap[r].node in names
  }

  predicate PrefixFree(names: map<string, nat>, loop: string, f: Family) {
    forall n :: n in names ==> !StartsWith(n, loop + Text(f))
  }

  /** What ImportGraphDef demands of the graph it copies. */
  predicate SourceImports(loop: string, f: Family, sp: Splice<string>, defs: seq<Def>, rets: seq<Ref<string>>,
                          reg: Registry) {
    && ValidNodeName(Bare(loop, f))
    && (forall i :: 0 <= i < |defs| ==> ValidNodeName(defs[i].name))
    && DistinctDefs(defs) && AllClosed(defs) && ReturnsFound(sp, defs, rets, reg)
    && forall i :: 0 <= i < |defs| ==> reg.accepts(CopyDefs(loop, f, sp, defs)[i])
  }

  /** Letters, digits and dots make a name, and after the first character also "_", "-" and "/". */
  lemma NodeNameIs(s: string)
    ensures ValidNodeName(s) <==>
            s != "" && forall i :: 0 <= i < |s| ==>
              || 'a' <= s[i] <= 'z' || 'A' <= s[i] <= 'Z' || '0' <= s[i] <= '9' || s[i] == '.'
              || (i > 0 && (s[i] == '_' || s[i] == '-' || s[i] == '/'))
  {
  }

  /**
   What an import under the prefix of a copy demands, written out: the prefix is a name and no node is below it,
   all replacements exist, nodes have different valid names, read nodes of the graph and are let in, and what is
   to be returned is a replaced input or an output of the graph.
   */
  lemma ImportDemands(names: map<string, nat>, loop: string, f: Family, sp: Splice<string>, defs: seq<Def>,
                      rets: seq<Ref<string>>, reg: Registry)
    requires f == CondF || f == BodyF
    ensures var prefix := loop + if f == CondF then "/cond" else "/body";
            PrefixFree(names, loop, f) && TargetsExist(names, sp) && SourceImports(loop, f, sp, defs, rets, reg) <==>
            && ValidNodeName(prefix)
            && (forall n :: n in names ==> |n| <= |prefix| || n[..|prefix| + 1] != prefix + "/")
            && sp.pivot in names && (forall r :: r in sp.inputMap ==> sp.inputMap[r].node in names)
            && (forall i :: 0 <= i < |defs| ==> ValidNodeName(defs[i].name))
            && (forall i, j :: 0 <= i < j < |defs| ==> defs[i].name != defs[j].name)
            && (forall i, j :: 0 <= i < |defs| && 0 <= j < |defs[i].node.inputs| ==>
                  HasNode(defs, defs[i].node.inputs[j].node))
            && (forall r :: r in rets ==>
                  || r in sp.inputMap
                  || exists d :: d in defs && d.name == r.node && (r.slot == CONTROL_SLOT || 0 <= r.slot < reg.outputs(d)))
            && (forall d :: d in defs ==> reg.accepts(NodeDef(prefix + "/" + d.name, CopyNode(sp, d.node))))
  {
    hide ValidNodeName, CopyNode;
    var prefix := loop + if f == CondF then "/cond" else "/body";
    assert Bare(loop, f) == prefix && loop + Text(f) == prefix + "/";
    AllClosedIff(defs);
    forall i | 0 <= i < |rets|
      ensures OutputExists(defs, reg, rets[i]) <==>
              exists d :: d in defs && d.name == rets[i].node
                          && (rets[i].slot == CONTROL_SLOT || 0 <= rets[i].slot < reg.outputs(d))
    {
    }
    forall d | d in defs
      ensures exists i :: 0 <= i < |defs| && CopyDefs(loop, f, sp, defs)[i] == NodeDef(prefix + "/" + d.name, CopyNode(sp, d.node))
    {
      var i :| 0 <= i < |defs| && defs[i] == d;
      assert Name(loop, f, d.name) == prefix + "/" + d.name;
      assert CopyDefs(loop, f, sp, defs)[i] == NodeDef(prefix + "/" + d.name, CopyNode(sp, d.node));
    }
    forall i | 0 <= i < |defs|
      ensures CopyDefs(loop, f, sp, defs)[i] == NodeDef(prefix + "/" + defs[i].name, CopyNode(sp, defs[i].node))
    {
      assert Name(loop, f, defs[i].name) == prefix + "/" + defs[i].name;
    }
  }

  predicate HasNode(defs: seq<Def>, n: string) {
    exists i :: 0 <= i < |defs| && defs[i].name == n
  }

  lemma AllClosedIff(defs: seq<Def>)
    ensures AllClosed(defs) <==> forall i, j :: 0 <= i < |defs| && 0 <= j < |defs[i].node.inputs| ==>
              HasNode(defs, defs[i].node.inputs[j].node)
  {
    forall i, j | 0 <= i < |defs| && 0 <= j < |defs[i].node.inputs|
      ensures defs[i].node.inputs[j].node in NamesOf(defs) <==> HasNode(defs, defs[i].node.inputs[j].node)
    {
      NamedIff(defs, defs[i].node.inputs[j].node);
    }
  }

  lemma NamedIff(defs: seq<Def>, n: string)
    ensures n in NamesOf(defs) <==> HasNode(defs, n)
  {
    if HasNode(defs, n) {
      var i :| 0 <= i < |defs| && defs[i].name == n;
      assert NamesOf(defs)[i] == n;
    }
  }

  /** CopyGraph: all of the source graph is added, or none of it. */
  method CopyGraph(g: TFGraph, loop: string, f: Family, sp: Splice<string>, defs: seq<Def>, rets: seq<Ref<string>>,
                   reg: Registry) returns (status: Status, outs: seq<Ref<string>>)
    requires g.Valid() && sp.rename == map n | n in ToGraph(defs) :: Name(loop, f, n)
    modifies g
    ensures g.Valid()
    ensures status.Ok? <==> PrefixFree(old(g.nameMap), loop, f) && TargetsExist(old(g.nameMap), sp)
                            && SourceImports(loop, f, sp, defs, rets, reg)
    ensures status.Ok? ==>
              && g.nodes == old(g.nodes) + Slots(CopyDefs(loop, f, sp, defs))
              && g.nameMap.Keys == old(g.nameMap).Keys + NameSet(CopyDefs(loop, f, sp, defs))
              && outs == RemapAll(sp, rets)
    ensures !status.Ok? ==> Ops(g.nodes) == Ops(old(g.nodes)) && g.nameMap == old(g.nameMap)
  {
    hide PrefixFree, TargetsExist, DistinctDefs, AllClosed, ReturnsFound, Indexed, Sentinels, ToGraph, Name,
         ValidNodeName, RemapAll, Slots, Ops, Fresh;
    outs := [];
    var copies := CopyDefs(loop, f, sp, defs);
    if !ValidNodeName(Bare(loop, f)) {
      return Failed(InvalidPrefix), outs;
    }
    if !PrefixFree(g.nameMap, loop, f) {
      return Failed(PrefixTaken), outs;
    }
    if !TargetsExist(g.nameMap, sp) {
      return Failed(UnknownDestination), outs;
    }
    if !(DistinctDefs(defs) && forall i :: 0 <= i < |defs| ==> ValidNodeName(defs[i].name)) {
      return Failed(DuplicateInImport), outs;
    }
    if !AllClosed(defs) {
      return Failed(UnknownInput), outs;
    }
    if !forall i :: 0 <= i < |defs| ==> reg.accepts(copies[i]) {
      var created :| 0 <= created <= |defs|;
      OpsOfHoles(created);
      OpsAppend(g.nodes, Holes(created));
      g.AbandonImported(created);
      return Failed(Rejected), outs;
    }
    if !ReturnsFound(sp, defs, rets, reg) {
      OpsOfHoles(|defs|);
      OpsAppend(g.nodes, Holes(|defs|));
      g.AbandonImported(|defs|);
      return Failed(UnknownReturn), outs;
    }
    CopiesFresh(g.nameMap, loop, f, sp, defs);
    g.AdoptImported(copies);
    outs := RemapAll(sp, rets);
    status := Ok;
  }

  lemma CopiesFresh(names: map<string, nat>, loop: string, f: Family, sp: Splice<string>, defs: seq<Def>)
    requires PrefixFree(names, loop, f) && DistinctDefs(defs)
    ensures Fresh(names, CopyDefs(loop, f, sp, defs))
  {
    var copies := CopyDefs(loop, f, sp, defs);
    forall i | 0 <= i < |copies|
      ensures copies[i].name !in names
    {
      NameChars(loop, f, defs[i].name);
    }
    forall i, j | 0 <= i < j < |copies|
      ensures copies[i].name != copies[j].name
    {
      NamesApart(loop, f, defs[i].name, f, defs[j].name);
    }
  }

  // ----- the whole loop

  predicate AllSet(params: WhileParams) {
    params.condOut.Some? && (forall i :: 0 <= i < |params.bodyOut| ==> params.bodyOut[i].Some?) && params.name.Some?
  }

  function SourceOf(params: WhileParams, inputs: seq<Ref<string>>): (src: Source)
    requires AllSet(params)
    ensures Some(src.name) == params.name && src.inputs == inputs
    ensures src.cond == params.cond && src.condIn == params.condIn && Some(src.condOut) == params.condOut
    ensures src.body == params.body && src.bodyIn == params.bodyIn && |src.bodyOut| == |params.bodyOut|
    ensures forall i :: 0 <= i < |src.bodyOut| ==> Some(src.bodyOut[i]) == params.bodyOut[i]
  {
    Source(params.name.value, inputs, params.cond, params.condIn, params.condOut.value, params.body, params.bodyIn,
           seq(|params.bodyOut|, i requires 0 <= i < |params.bodyOut| => params.bodyOut[i].value))
  }

  predicate AllNew(names: map<string, nat>, defs: seq<Def>, reg: Registry) {
    forall i :: 0 <= i < |defs| ==> Creatable(names, defs[i], reg)
  }

  lemma {:induction false} RefusedSame(before: map<string, nat>, now: map<string, nat>, defs: seq<Def>, reg: Registry, i: nat)
    requires i <= |defs| && forall j :: 0 <= j < |defs| ==> (defs[j].name in before <==> defs[j].name in now)
    ensures FirstRefused(before, defs, reg, i) == FirstRefused(now, defs, reg, i)
    decreases |defs| - i
  {
    if i < |defs| {
      RefusedSame(before, now, defs, reg, i + 1);
    }
  }

  lemma AllNewIff(names: map<string, nat>, defs: seq<Def>, reg: Registry)
    ensures AllNew(names, defs, reg) <==> FirstRefused(names, defs, reg, 0) == |defs|
  {
    var n := FirstRefused(names, defs, reg, 0);
    assert n < |defs| ==> !Creatable(names, defs[n], reg);
  }

  /** The condition, on the parent graph before the call, under which the loop gets built. */
  predicate Buildable(names: map<string, nat>, src: Source, reg: Registry)
    requires src.Sized()
  {
    && AllNew(names, src.Enters(), reg) && AllNew(names, src.Merges(), reg)
    && PrefixFree(names, src.name, CondF)
    && SourceImports(src.name, CondF, src.CondSplice(), src.cond, [src.condOut], reg)
    && AllNew(names, src.Switches(), reg)
    && PrefixFree(names, src.name, BodyF)
    && SourceImports(src.name, BodyF, src.BodySplice(), src.body, src.bodyOut, reg)
    && AllNew(names, src.Nexts(), reg) && AllNew(names, src.Exits(), reg)
  }

  /** All names in `defs` belong to the given families under the loop. */
  ghost predicate OfFamilies(loop: string, defs: seq<Def>, fams: set<Family>) {
    forall i :: 0 <= i < |defs| ==> HasFamily(loop, defs[i].name, fams)
  }

  ghost predicate HasFamily(loop: string, n: string, fams: set<Family>) {
    exists f, r :: f in fams && n == Name(loop, f, r)
  }

  /** Whether names of a family are taken does not depend on nodes of other families added before. */
  lemma OtherFamilies(loop: string, defs: seq<Def>, fams: set<Family>, before: map<string, nat>, now: map<string, nat>, f: Family)
    requires OfFamilies(loop, defs, fams) && f !in fams && now.Keys == before.Keys + NameSet(defs)
    ensures forall r :: Name(loop, f, r) in now <==> Name(loop, f, r) in before
    ensures PrefixFree(now, loop, f) <==> PrefixFree(before, loop, f)
  {
    forall i | 0 <= i < |defs|
      ensures !StartsWith(defs[i].name, loop + Text(f)) && forall r :: defs[i].name != Name(loop, f, r)
    {
      assert HasFamily(loop, defs[i].name, fams);
      var g, q :| g in fams && defs[i].name == Name(loop, g, q);
      PrefixApart(loop, g, q, f);
      forall r
        ensures defs[i].name != Name(loop, f, r)
      {
        NamesApart(loop, g, q, f, r);
      }
    }
    forall n | n in now && n !in before
      ensures exists i :: 0 <= i < |defs| && defs[i].name == n
    {
    }
  }

  /** Nodes of one control family, numbered from 0. */
  predicate Numbered(loop: string, f: Family, defs: seq<Def>) {
    forall i :: 0 <= i < |defs| ==> defs[i].name == Name(loop, f, Decimal(i))
  }

  lemma NumberedDistinct(loop: string, f: Family, defs: seq<Def>)
    requires Numbered(loop, f, defs)
    ensures DistinctDefs(defs)
    ensures OfFamilies(loop, defs, {f})
  {
    forall i, j | 0 <= i < j < |defs|
      ensures defs[i].name != defs[j].name
    {
      NamesApart(loop, f, Decimal(i), f, Decimal(j));
      DecimalInjective(i, j);
    }
    forall i | 0 <= i < |defs|
      ensures HasFamily(loop, defs[i].name, {f})
    {
      assert f in {f} && defs[i].name == Name(loop, f, Decimal(i));
    }
  }

  lemma FamiliesJoin(loop: string, a: seq<Def>, fa: set<Family>, b: seq<Def>, fb: set<Family>)
    requires OfFamilies(loop, a, fa) && OfFamilies(loop, b, fb)
    ensures OfFamilies(loop, a + b, fa + fb)
  {
    forall i | 0 <= i < |a + b|
      ensures HasFamily(loop, (a + b)[i].name, fa + fb)
    {
      if i < |a| {
        assert HasFamily(loop, a[i].name, fa);
        var f, r :| f in fa && a[i].name == Name(loop, f, r);
        assert f in fa + fb;
      } else {
        assert HasFamily(loop, b[i-|a|].name, fb);
        var f, r :| f in fb && b[i-|a|].name == Name(loop, f, r);
        assert f in fa + fb;
      }
    }
  }

  lemma NameSetJoin(a: seq<Def>, b: seq<Def>)
    ensures NameSet(a + b) == NameSet(a) + NameSet(b)
  {
    forall n
      ensures n in NameSet(a + b) <==> n in NameSet(a) + NameSet(b)
    {
      if i :| 0 <= i < |a| && a[i].name == n {
        assert (a + b)[i].name == n;
      }
      if i :| 0 <= i < |b| && b[i].name == n {
        assert (a + b)[|a|+i].name == n;
      }
    }
  }

  /** How far the lowering has come: `done` has been added, nothing else. */
  ghost predicate Progress(g: TFGraph, nodes: seq<Slot>, names: map<string, nat>, loop: string, done: seq<Def>, fams: set<Family>)
    reads g
  {
    g.Valid() && Added(g.nodes, g.nameMap, nodes, names, loop, done, fams)
  }

  ghost predicate Added(now: seq<Slot>, nowNames: map<string, nat>, nodes: seq<Slot>, names: map<string, nat>,
                        loop: string, done: seq<Def>, fams: set<Family>)
  {
    Ops(now) == Ops(nodes) + done && nowNames.Keys == names.Keys + NameSet(done) && OfFamilies(loop, done, fams)
  }

  lemma AddMore(was: seq<Slot>, wasNames: map<string, nat>, now: seq<Slot>, nowNames: map<string, nat>,
                nodes: seq<Slot>, names: map<string, nat>, loop: string, done: seq<Def>, fams: set<Family>,
                part: seq<Def>, f: Family)
    requires Added(was, wasNames, nodes, names, loop, done, fams) && OfFamilies(loop, part, {f})
    requires now == was + Slots(part) && nowNames.Keys == wasNames.Keys + NameSet(part)
    ensures Added(now, nowNames, nodes, names, loop, done + part, fams + {f})
  {
    hide Slots, NameSet, OfFamilies;
    OpsAppend(was, Slots(part));
    OpsOfSlots(part);
    NameSetJoin(done, part);
    FamiliesJoin(loop, done, fams, part, {f});
    assert Ops(nodes) + done + part == Ops(nodes) + (done + part);
  }

  lemma NoneAdded(was: seq<Slot>, now: seq<Slot>, nowNames: map<string, nat>, nodes: seq<Slot>, names: map<string, nat>,
                  loop: string, done: seq<Def>, fams: set<Family>, f: Family)
    requires Added(was, nowNames, nodes, names, loop, done, fams) && Ops(now) == Ops(was)
    ensures Added(now, nowNames, nodes, names, loop, done + [], fams + {f})
  {
    assert done + [] == done;
    forall i | 0 <= i < |done|
      ensures HasFamily(loop, done[i].name, fams + {f})
    {
      assert HasFamily(loop, done[i].name, fams);
      var g, r :| g in fams && done[i].name == Name(loop, g, r);
      assert g in fams + {f};
    }
  }

  lemma SomeOfFamily(loop: string, f: Family, defs: seq<Def>, n: nat)
    requires OfFamilies(loop, defs, {f}) && n <= |defs|
    ensures OfFamilies(loop, defs[..n], {f})
  {
  }

  /** One of the five loops that create control-flow nodes. */
  method CreateFamily(g: TFGraph, loop: string, f: Family, defs: seq<Def>, reg: Registry,
                      ghost nodes: seq<Slot>, ghost names: map<string, nat>, ghost done: seq<Def>, ghost fams: set<Family>)
    returns (status: Status, ghost made: nat)
    requires Progress(g, nodes, names, loop, done, fams) && Numbered(loop, f, defs) && f !in fams
    modifies g
    ensures made <= |defs| && Progress(g, nodes, names, loop, done + defs[..made], fams + {f})
    ensures made == FirstRefused(names, defs, reg, 0)
    ensures status.Ok? <==> made == |defs|
  {
    hide Indexed, Sentinels, OfFamilies, NameSet, Name, Slots;
    NumberedDistinct(loop, f, defs);
    OtherFamilies(loop, done, fams, names, g.nameMap, f);
    assert forall i :: 0 <= i < |defs| ==> (defs[i].name in g.nameMap <==> defs[i].name in names);
    RefusedSame(g.nameMap, names, defs, reg, 0);
    ghost var was := g.nameMap;
    status, made := CreateAll(g, defs, reg);
    SomeOfFamily(loop, f, defs, made);
    AddMore(old(g.nodes), was, g.nodes, g.nameMap, nodes, names, loop, done, fams, defs[..made], f);
  }

  /** One of the two CopyGraph calls. */
  method CopyFamily(g: TFGraph, loop: string, f: Family, sp: Splice<string>, defs: seq<Def>, rets: seq<Ref<string>>,
                    reg: Registry, ghost nodes: seq<Slot>, ghost names: map<string, nat>,
                    ghost done: seq<Def>, ghost fams: set<Family>)
    returns (status: Status, outs: seq<Ref<string>>, ghost made: nat)
    requires Progress(g, nodes, names, loop, done, fams) && f !in fams
    requires sp.rename == map n | n in ToGraph(defs) :: Name(loop, f, n)
    requires TargetsExist(g.nameMap, sp)
    modifies g
    ensures made <= |defs| && Progress(g, nodes, names, loop, done + CopyDefs(loop, f, sp, defs)[..made], fams + {f})
    ensures made == if status.Ok? then |defs| else 0
    ensures status.Ok? ==> outs == RemapAll(sp, rets)
    ensures status.Ok? <==> PrefixFree(names, loop, f) && SourceImports(loop, f, sp, defs, rets, reg)
  {
    hide Indexed, Sentinels, OfFamilies, NameSet, SourceImports, PrefixFree, Slots, CopyNode;
    var copies := CopyDefs(loop, f, sp, defs);
    OtherFamilies(loop, done, fams, names, g.nameMap, f);
    ghost var was := g.nameMap;
    status, outs := CopyGraph(g, loop, f, sp, defs, rets, reg);
    made := if status.Ok? then |defs| else 0;
    if status.Ok? {
      assert copies[..made] == copies;
      CopiesOfFamily(loop, f, sp, defs);
      AddMore(old(g.nodes), was, g.nodes, g.nameMap, nodes, names, loop, done, fams, copies, f);
    } else {
      assert copies[..made] == [];
      NoneAdded(old(g.nodes), g.nodes, g.nameMap, nodes, names, loop, done, fams, f);
    }
  }

  lemma CopiesOfFamily(loop: string, f: Family, sp: Splice<string>, defs: seq<Def>)
    ensures OfFamilies(loop, CopyDefs(loop, f, sp, defs), {f})
  {
    forall i | 0 <= i < |defs|
      ensures HasFamily(loop, CopyDefs(loop, f, sp, defs)[i].name, {f})
    {
      assert f in {f} && CopyDefs(loop, f, sp, defs)[i].name == Name(loop, f, defs[i].name);
    }
  }

  // ----- TF_FinishWhile

  /** The seven groups of nodes, in creation order. */
  function Group(src: Source, k: nat): seq<Def>
    requires src.Sized()
  {
    match k
    case 0 => src.Enters()
    case 1 => src.Merges()
    case 2 => CopyDefs(src.name, CondF, src.CondSplice(), src.cond)
    case 3 => src.Switches()
    case 4 => CopyDefs(src.name, BodyF, src.BodySplice(), src.body)
    case 5 => src.Nexts()
    case 6 => src.Exits()
    case _ => []
  }

  predicate IsCopy(k: nat) { k == 2 || k == 4 }

  /** Group `k` can be added to a graph with these names. */
  predicate GroupFine(names: map<string, nat>, src: Source, k: nat, reg: Registry)
    requires src.Sized()
  {
    match k
    case 2 => PrefixFree(names, src.name, CondF)
              && SourceImports(src.name, CondF, src.CondSplice(), src.cond, [src.condOut], reg)
    case 4 => PrefixFree(names, src.name, BodyF)
              && SourceImports(src.name, BodyF, src.BodySplice(), src.body, src.bodyOut, reg)
    case _ => AllNew(names, Group(src, k), reg)
  }

  /** How many nodes of group `k` get created: a copied graph is added as a whole or not at all. */
  function GroupMade(names: map<string, nat>, src: Source, k: nat, reg: Registry): nat
    requires src.Sized()
  {
    if !IsCopy(k) then FirstRefused(names, Group(src, k), reg, 0)
    else if GroupFine(names, src, k, reg) then |Group(src, k)|
    else 0
  }

  /** How many nodes get created from group `k` on: all groups up to the first that meets a refusal. */
  function MadeFrom(names: map<string, nat>, src: Source, k: nat, reg: Registry): nat
    requires src.Sized() && k <= 7
    decreases 7 - k
  {
    if k == 7 then 0
    else GroupMade(names, src, k, reg) + if GroupFine(names, src, k, reg) then MadeFrom(names, src, k + 1, reg) else 0
  }

  /** How many nodes TF_FinishWhile creates, as told by the graph before the call. */
  function Made(names: map<string, nat>, src: Source, reg: Registry): nat
    requires src.Sized()
  {
    MadeFrom(names, src, 0, reg)
  }

  /** The nodes of the first `k` groups. */
  function Upto(src: Source, k: nat): seq<Def>
    requires src.Sized()
  {
    if k == 0 then [] else Upto(src, k - 1) + Group(src, k - 1)
  }

  lemma AllGroups(src: Source)
    requires src.Sized()
    ensures Upto(src, 7) == LoopDefs(src)
  {
    hide Group;
    assert LoopDefs(src) == Group(src, 0) + Group(src, 1) + Group(src, 2) + Group(src, 3) + Group(src, 4)
                            + Group(src, 5) + Group(src, 6) by { GroupsExpanded(src); }
    assert Upto(src, 1) == Group(src, 0) by { assert Upto(src, 0) == []; }
    assert Upto(src, 2) == Upto(src, 1) + Group(src, 1);
    assert Upto(src, 3) == Upto(src, 2) + Group(src, 2);
    assert Upto(src, 4) == Upto(src, 3) + Group(src, 3);
    assert Upto(src, 5) == Upto(src, 4) + Group(src, 4);
    assert Upto(src, 6) == Upto(src, 5) + Group(src, 5);
  }

  lemma GroupsExpanded(src: Source)
    requires src.Sized()
    ensures LoopDefs(src) == Group(src, 0) + Group(src, 1) + Group(src, 2) + Group(src, 3) + Group(src, 4)
                             + Group(src, 5) + Group(src, 6)
  {
    hide CopyDefs, Source.Enters, Source.Merges, Source.Switches, Source.Nexts, Source.Exits, Source.CondSplice,
         Source.BodySplice;
  }

  lemma {:induction false} UptoGrows(src: Source, k: nat, m: nat)
    requires src.Sized() && k <= m
    ensures Upto(src, k) <= Upto(src, m)
    decreases m - k
  {
    hide Group;
    if k < m {
      UptoGrows(src, k, m - 1);
    }
  }

  /** Part of a group, after all groups before it, is a prefix of the whole loop. */
  lemma PartIsPrefix(src: Source, k: nat, made: nat)
    requires src.Sized() && k < 7 && made <= |Group(src, k)|
    ensures |Upto(src, k)| + made <= |LoopDefs(src)|
    ensures Upto(src, k) + Group(src, k)[..made] == LoopDefs(src)[..|Upto(src, k)| + made]
  {
    hide Group;
    AllGroups(src);
    UptoGrows(src, k + 1, 7);
    assert Upto(src, k + 1) == Upto(src, k) + Group(src, k);
  }

  lemma GroupsNumbered(src: Source)
    requires src.Sized()
    ensures Numbered(src.name, EnterF, src.Enters()) && Numbered(src.name, MergeF, src.Merges())
    ensures Numbered(src.name, SwitchF, src.Switches())
    ensures Numbered(src.name, NextF, src.Nexts()) && Numbered(src.name, ExitF, src.Exits())
  {
    hide Name, CopyNode, SpliceOf;
    forall f, i | 0 <= i < src.Count()
      ensures src.Names(f)[i] == Name(src.name, f, Decimal(i))
    {
    }
  }

  /** The outputs that replace a copied graph's inputs have been created before. */
  lemma TargetsCreated(names: map<string, nat>, loop: string, f: Family, defs: seq<Def>, ins: seq<string>,
                       targets: seq<Def>, slot: int)
    requires |ins| == |targets| > 0 && Distinct(ins) && NameSet(targets) <= names.Keys
    ensures TargetsExist(names, SpliceOf(loop, f, defs, ins, Refs(NamesOf(targets), slot)))
  {
    var dst := Refs(NamesOf(targets), slot);
    InputMapAt(ins, dst);
    forall i | 0 <= i < |targets|
      ensures dst[i].node in names
    {
      assert targets[i].name in NameSet(targets);
    }
  }

  /** Lookup by its name finds the node. */
  predicate Found(nodes: seq<Slot>, names: map<string, nat>, def: Def) {
    def.name in names && names[def.name] < |nodes| && nodes[names[def.name]] == Op(def)
  }

  lemma OpsFound(nodes: seq<Slot>, names: map<string, nat>, def: Def)
    requires Indexed(nodes, names) && def in Ops(nodes)
    ensures Found(nodes, names, def)
  {
    OpsComeFrom(nodes, def);
  }

  /** In a graph with a finished loop the copies are found under the two prefixes. */
  lemma CopiesFound(nodes: seq<Slot>, names: map<string, nat>, before: seq<Def>, src: Source)
    requires src.Sized() && Indexed(nodes, names) && Ops(nodes) == before + LoopDefs(src)
    ensures forall j :: 0 <= j < |src.cond| ==>
              Found(nodes, names, NodeDef(src.name + "/cond/" + src.cond[j].name, CopyNode(src.CondSplice(), src.cond[j].node)))
    ensures forall j :: 0 <= j < |src.body| ==>
              Found(nodes, names, NodeDef(src.name + "/body/" + src.body[j].name, CopyNode(src.BodySplice(), src.body[j].node)))
  {
    hide LoopDefs, Indexed, Ops, CopyNode, Found;
    LoopCopies(src);
    var n, c, l := src.Count(), |src.cond|, LoopDefs(src);
    forall j | 0 <= j < |src.cond|
      ensures Found(nodes, names, NodeDef(src.name + "/cond/" + src.cond[j].name, CopyNode(src.CondSplice(), src.cond[j].node)))
    {
      assert l[2 * n + j] in Ops(nodes);
      OpsFound(nodes, names, l[2 * n + j]);
    }
    forall j | 0 <= j < |src.body|
      ensures Found(nodes, names, NodeDef(src.name + "/body/" + src.body[j].name, CopyNode(src.BodySplice(), src.body[j].node)))
    {
      assert l[3 * n + c + j] in Ops(nodes);
      OpsFound(nodes, names, l[3 * n + c + j]);
    }
  }

  lemma ExitsNamed(src: Source)
    ensures |Refs(src.Names(ExitF), 0)| == src.Count()
    ensures forall i :: 0 <= i < src.Count() ==> Refs(src.Names(ExitF), 0)[i] == Ref(src.name + "/exit" + Decimal(i), 0)
  {
  }

  method FinishWhileLoop(g: TFGraph, params: WhileParams, inputs: seq<Ref<string>>, reg: Registry)
    returns (status: Status, outputs: seq<Ref<string>>)
    requires g.Valid() && |inputs| > 0 && |inputs| == |params.condIn| == |params.bodyIn| == |params.bodyOut|
    requires Distinct(params.condIn) && Distinct(params.bodyIn)
    modifies g
    ensures g.Valid()
    ensures !AllSet(params) ==>
              && status.Failed? && g.nodes == old(g.nodes) && g.nameMap == old(g.nameMap)
              && status.error == if params.condOut.None? then CondOutputUnset
                                 else if exists i :: 0 <= i < |inputs| && params.bodyOut[i].None? then BodyOutputUnset
                                 else NameUnset
    ensures AllSet(params) ==>
              var src := SourceOf(params, inputs);
              && Made(old(g.nameMap), src, reg) <= |LoopDefs(src)|
              && Ops(g.nodes) == Ops(old(g.nodes)) + LoopDefs(src)[..Made(old(g.nameMap), src, reg)]
              && (status.Ok? <==> Buildable(old(g.nameMap), src, reg))
              && (status.Ok? ==>
                    && Made(old(g.nameMap), src, reg) == |LoopDefs(src)| && outputs == Refs(src.Names(ExitF), 0)
                    && |outputs| == |inputs|
                    && (forall i :: 0 <= i < |inputs| ==> outputs[i] == Ref(params.name.value + "/exit" + Decimal(i), 0))
                    && (forall j :: 0 <= j < |params.cond| ==>
                          Found(g.nodes, g.nameMap,
                                NodeDef(params.name.value + "/cond/" + params.cond[j].name,
                                        CopyNode(src.CondSplice(), params.cond[j].node))))
                    && (forall j :: 0 <= j < |params.body| ==>
                          Found(g.nodes, g.nameMap,
                                NodeDef(params.name.value + "/body/" + params.body[j].name,
                                        CopyNode(src.BodySplice(), params.body[j].node)))))
              && (Ops(g.nodes) == Ops(old(g.nodes)) <==> !Creatable(old(g.nameMap), src.Enters()[0], reg))
  {
    outputs := [];
    if params.condOut.None? {
      return Failed(CondOutputUnset), outputs;
    }
    for i := 0 to |inputs|
      invariant forall j :: 0 <= j < i ==> params.bodyOut[j].Some?
    {
      if params.bodyOut[i].None? {
        return Failed(BodyOutputUnset), outputs;
      }
    }
    if params.name.None? {
      return Failed(NameUnset), outputs;
    }
    hide LoopDefs, Indexed, Ops, CopyNode, Found, Made, Buildable, Creatable, Refs;
    ghost var src := SourceOf(params, inputs);
    status, outputs := BuildLoop(g, SourceOf(params, inputs), reg);
    if status.Ok? {
      assert LoopDefs(src)[..|LoopDefs(src)|] == LoopDefs(src);
      CopiesFound(g.nodes, g.nameMap, Ops(old(g.nodes)), src);
      ExitsNamed(src);
    }
  }

  function FamilyAt(k: nat): Family {
    match k
    case 0 => EnterF
    case 1 => MergeF
    case 2 => CondF
    case 3 => SwitchF
    case 4 => BodyF
    case 5 => NextF
    case _ => ExitF
  }

  ghost function FamiliesUpto(k: nat): set<Family> {
    if k == 0 then {} else FamiliesUpto(k - 1) + {FamilyAt(k - 1)}
  }

  lemma {:induction false} FamilyIsNew(k: nat, j: nat)
    requires j <= k < 7
    ensures FamilyAt(k) !in FamiliesUpto(j)
    decreases j
  {
    if j > 0 {
      FamilyIsNew(k, j - 1);
    }
  }

  /** The graph has grown by the first `k` groups. */
  ghost predicate AtGroup(g: TFGraph, nodes: seq<Slot>, names: map<string, nat>, src: Source, k: nat)
    requires src.Sized()
    reads g
  {
    Progress(g, nodes, names, src.name, Upto(src, k), FamiliesUpto(k))
  }

  /** The graph has grown by a prefix of the loop. */
  ghost predicate GrownBy(g: TFGraph, nodes: seq<Slot>, src: Source, built: nat)
    requires src.Sized()
    reads g
  {
    g.Valid() && built <= |LoopDefs(src)| && Ops(g.nodes) == Ops(nodes) + LoopDefs(src)[..built]
  }

  method CreateGroup(g: TFGraph, src: Source, k: nat, defs: seq<Def>, reg: Registry,
                     ghost nodes: seq<Slot>, ghost names: map<string, nat>) returns (status: Status, ghost built: nat)
    requires src.Sized() && k < 7 && !IsCopy(k) && AtGroup(g, nodes, names, src, k)
    requires defs == Group(src, k) && Numbered(src.name, FamilyAt(k), defs)
    modifies g
    ensures GrownBy(g, nodes, src, built) && built == |Upto(src, k)| + GroupMade(names, src, k, reg)
    ensures status.Ok? ==> AtGroup(g, nodes, names, src, k + 1)
    ensures status.Ok? <==> GroupFine(names, src, k, reg)
  {
    hide Indexed, Sentinels, OfFamilies, NameSet, Group, LoopDefs, AllNew, Name;
    FamilyIsNew(k, k);
    ghost var made;
    status, made := CreateFamily(g, src.name, FamilyAt(k), defs, reg, nodes, names, Upto(src, k), FamiliesUpto(k));
    PartIsPrefix(src, k, made);
    built := |Upto(src, k)| + made;
    assert defs[..|defs|] == defs;
    AllNewIff(names, defs, reg);
  }

  method CopyGroup(g: TFGraph, src: Source, k: nat, sp: Splice<string>, defs: seq<Def>, rets: seq<Ref<string>>,
                   reg: Registry, ghost nodes: seq<Slot>, ghost names: map<string, nat>)
    returns (status: Status, outs: seq<Ref<string>>, ghost built: nat)
    requires src.Sized() && IsCopy(k) && AtGroup(g, nodes, names, src, k)
    requires (sp, defs, rets) == if k == 2 then (src.CondSplice(), src.cond, [src.condOut])
                                 else (src.BodySplice(), src.body, src.bodyOut)
    requires CopyDefs(src.name, FamilyAt(k), sp, defs) == Group(src, k)
    requires sp.rename == map n | n in ToGraph(defs) :: Name(src.name, FamilyAt(k), n)
    requires TargetsExist(g.nameMap, sp)
    modifies g
    ensures GrownBy(g, nodes, src, built) && built == |Upto(src, k)| + GroupMade(names, src, k, reg)
    ensures status.Ok? ==> AtGroup(g, nodes, names, src, k + 1) && outs == RemapAll(sp, rets)
    ensures status.Ok? <==> GroupFine(names, src, k, reg)
  {
    hide Indexed, Sentinels, OfFamilies, NameSet, Group, LoopDefs, SourceImports, PrefixFree, TargetsExist;
    FamilyIsNew(k, k);
    ghost var made;
    status, outs, made := CopyFamily(g, src.name, FamilyAt(k), sp, defs, rets, reg, nodes, names,
                                     Upto(src, k), FamiliesUpto(k));
    PartIsPrefix(src, k, made);
    built := |Upto(src, k)| + made;
    assert Group(src, k)[..|Group(src, k)|] == Group(src, k);
  }

  /** The loops of TF_FinishWhileHelper; `stopped` is the group that meets a refusal. */
  method BuildGroups(g: TFGraph, src: Source, reg: Registry)
    returns (status: Status, outputs: seq<Ref<string>>, ghost built: nat, ghost stopped: nat)
    requires g.Valid() && src.Sized() && Distinct(src.condIn) && Distinct(src.bodyIn)
    modifies g
    ensures GrownBy(g, old(g.nodes), src, built) && stopped <= 7 && (status.Ok? <==> stopped == 7)
    ensures forall k :: 0 <= k < stopped ==> GroupFine(old(g.nameMap), src, k, reg)
    ensures stopped < 7 ==> !GroupFine(old(g.nameMap), src, stopped, reg)
                            && built == |Upto(src, stopped)| + GroupMade(old(g.nameMap), src, stopped, reg)
    ensures status.Ok? ==> built == |LoopDefs(src)| && outputs == Refs(src.Names(ExitF), 0)
  {
    hide Indexed, Sentinels, OfFamilies, NameSet, LoopDefs, SourceImports, PrefixFree, AllNew, Name, SpliceOf, CopyDefs,
         Source.Enters, Source.Merges, Source.Switches, Source.Nexts, Source.Exits, Upto, NamesOf, TargetsExist, Numbered,
         FamiliesUpto, TFGraph.Valid, AtGroup, Remap, Source.Names, Refs, Ops, GroupFine, GroupMade, GrownBy, ToGraph;
    outputs, stopped := [], 0;
    ghost var nodes, names := g.nodes, g.nameMap;
    GroupsNumbered(src);
    GroupSizes(src, reg, names);
    StartProgress(g, src);
    status, built := CreateGroup(g, src, 0, src.Enters(), reg, nodes, names);
    if !status.Ok? { return; }
    stopped := 1;
    status, built := CreateGroup(g, src, 1, src.Merges(), reg, nodes, names);
    if !status.Ok? { return; }
    stopped := 2;
    CondTargets(g, nodes, names, src);
    var outs;
    status, outs, built := CopyGroup(g, src, 2, src.CondSplice(), src.cond, [src.condOut], reg, nodes, names);
    if !status.Ok? { return; }
    stopped := 3;
    var condOutput := outs[0];
    SwitchesMade(src, condOutput);
    var switches := seq(src.Count(), i requires 0 <= i < src.Count() =>
      NodeDef(src.Names(SwitchF)[i], Node(Switch, [Ref(src.Names(MergeF)[i], 0), condOutput])));
    status, built := CreateGroup(g, src, 3, switches, reg, nodes, names);
    if !status.Ok? { return; }
    stopped := 4;
    BodyTargets(g, nodes, names, src);
    status, outs, built := CopyGroup(g, src, 4, src.BodySplice(), src.body, src.bodyOut, reg, nodes, names);
    if !status.Ok? { return; }
    stopped := 5;
    NextsMade(src, outs);
    var nexts := seq(src.Count(), i requires 0 <= i < src.Count() =>
      NodeDef(src.Names(NextF)[i], Node(NextIteration, [outs[i]])));
    status, built := CreateGroup(g, src, 5, nexts, reg, nodes, names);
    if !status.Ok? { return; }
    stopped := 6;
    status, built := CreateGroup(g, src, 6, src.Exits(), reg, nodes, names);
    if !status.Ok? { return; }
    stopped := 7;
    AllGroups(src);
    outputs := Refs(src.Names(ExitF), 0);
  }

  lemma GroupSizes(src: Source, reg: Registry, names: map<string, nat>)
    requires src.Sized()
    ensures GroupFine(names, src, 6, reg) ==> |Upto(src, 6)| + GroupMade(names, src, 6, reg) == |LoopDefs(src)|
  {
    hide Group, LoopDefs;
    AllGroups(src);
    if GroupFine(names, src, 6, reg) {
      AllNewIff(names, Group(src, 6), reg);
    }
    assert Upto(src, 7) == Upto(src, 6) + Group(src, 6);
  }

  /**
   TF_FinishWhileHelper once all fields are known to be set.  The ops grow by the nodes created
   before the first refusal; a call leaves them alone exactly if the first Enter node is refused.
   */
  method BuildLoop(g: TFGraph, src: Source, reg: Registry)
    returns (status: Status, outputs: seq<Ref<string>>)
    requires g.Valid() && src.Sized() && Distinct(src.condIn) && Distinct(src.bodyIn)
    modifies g
    ensures g.Valid()
    ensures Made(old(g.nameMap), src, reg) <= |LoopDefs(src)|
    ensures Ops(g.nodes) == Ops(old(g.nodes)) + LoopDefs(src)[..Made(old(g.nameMap), src, reg)]
    ensures status.Ok? <==> Buildable(old(g.nameMap), src, reg)
    ensures status.Ok? ==> Made(old(g.nameMap), src, reg) == |LoopDefs(src)| && outputs == Refs(src.Names(ExitF), 0)
    ensures Ops(g.nodes) == Ops(old(g.nodes)) <==> !Creatable(old(g.nameMap), src.Enters()[0], reg)
  {
    hide GroupFine, GroupMade, LoopDefs, Buildable, Creatable, Source.Enters, Ops, Upto, Made, Indexed, Sentinels, Refs;
    ghost var built, stopped;
    status, outputs, built, stopped := BuildGroups(g, src, reg);
    MadeUntil(old(g.nameMap), src, reg, stopped, 0);
    MadeUnfolds(old(g.nameMap), src, reg);
    BuildableIff(old(g.nameMap), src, reg);
    MadeNothing(old(g.nameMap), src, reg);
    assert |Ops(g.nodes)| == |Ops(old(g.nodes))| + built;
  }

  lemma MadeUnfolds(names: map<string, nat>, src: Source, reg: Registry)
    requires src.Sized()
    ensures Made(names, src, reg) == MadeFrom(names, src, 0, reg) && Upto(src, 0) == []
  {
  }

  /** The nodes created are those of the groups before the one that is refused, and a part of that one. */
  lemma {:induction false} MadeUntil(names: map<string, nat>, src: Source, reg: Registry, stopped: nat, k: nat)
    requires src.Sized() && k <= stopped <= 7
    requires forall j :: 0 <= j < stopped ==> GroupFine(names, src, j, reg)
    requires stopped < 7 ==> !GroupFine(names, src, stopped, reg)
    ensures |Upto(src, k)| + MadeFrom(names, src, k, reg)
            == if stopped < 7 then |Upto(src, stopped)| + GroupMade(names, src, stopped, reg) else |LoopDefs(src)|
    decreases 7 - k
  {
    hide GroupFine, Group, LoopDefs;
    if k < stopped {
      MadeUntil(names, src, reg, stopped, k + 1);
      FineMade(names, src, k, reg);
      assert Upto(src, k + 1) == Upto(src, k) + Group(src, k);
    } else if k == 7 {
      AllGroups(src);
    }
  }

  lemma FineMade(names: map<string, nat>, src: Source, k: nat, reg: Registry)
    requires src.Sized() && GroupFine(names, src, k, reg)
    ensures GroupMade(names, src, k, reg) == |Group(src, k)|
  {
    hide SourceImports, PrefixFree, Group, AllNew;
    if !IsCopy(k) {
      AllNewIff(names, Group(src, k), reg);
    }
  }

  lemma BuildableIff(names: map<string, nat>, src: Source, reg: Registry)
    requires src.Sized()
    ensures Buildable(names, src, reg) <==> forall k :: 0 <= k < 7 ==> GroupFine(names, src, k, reg)
  {
    hide AllNew, PrefixFree, SourceImports, CopyDefs, Source.Enters, Source.Merges, Source.Switches, Source.Nexts, Source.Exits;
    assert GroupFine(names, src, 0, reg) <==> AllNew(names, src.Enters(), reg);
    assert GroupFine(names, src, 1, reg) <==> AllNew(names, src.Merges(), reg);
    assert GroupFine(names, src, 3, reg) <==> AllNew(names, src.Switches(), reg);
    assert GroupFine(names, src, 5, reg) <==> AllNew(names, src.Nexts(), reg);
    assert GroupFine(names, src, 6, reg) <==> AllNew(names, src.Exits(), reg);
    assert GroupFine(names, src, 2, reg) <==>
           (PrefixFree(names, src.name, CondF)
            && SourceImports(src.name, CondF, src.CondSplice(), src.cond, [src.condOut], reg));
    assert GroupFine(names, src, 4, reg) <==>
           (PrefixFree(names, src.name, BodyF)
            && SourceImports(src.name, BodyF, src.BodySplice(), src.body, src.bodyOut, reg));
  }

  /** Nothing is created exactly if the first Enter node is refused. */
  lemma MadeNothing(names: map<string, nat>, src: Source, reg: Registry)
    requires src.Sized()
    ensures Made(names, src, reg) == 0 <==> !Creatable(names, src.Enters()[0], reg)
  {
    hide Creatable;
    var enters := src.Enters();
    assert Group(src, 0) == enters;
    if FirstRefused(names, enters, reg, 0) == 0 {
      AllNewIff(names, enters, reg);
    }
  }

  /** A taken Merge name leaves all Enter nodes behind. */
  lemma MergeTakenLeavesEnters(names: map<string, nat>, src: Source, reg: Registry)
    requires src.Sized() && AllNew(names, src.Enters(), reg) && !Creatable(names, src.Merges()[0], reg)
    ensures Made(names, src, reg) == src.Count() < |LoopDefs(src)| && !Buildable(names, src, reg)
  {
    hide Creatable, SourceImports, PrefixFree, CopyDefs;
    AllNewIff(names, src.Enters(), reg);
    assert Group(src, 0) == src.Enters() && Group(src, 1) == src.Merges();
    assert !AllNew(names, src.Merges(), reg);
    assert MadeFrom(names, src, 1, reg) == 0;
  }

  lemma StartProgress(g: TFGraph, src: Source)
    requires g.Valid() && src.Sized()
    ensures AtGroup(g, g.nodes, g.nameMap, src, 0)
  {
    assert Ops(g.nodes) + [] == Ops(g.nodes);
  }

  lemma SwitchesMade(src: Source, condOutput: Ref<string>)
    requires src.Sized() && [condOutput] == RemapAll(src.CondSplice(), [src.condOut])
    ensures |src.Names(SwitchF)| == |src.Names(MergeF)| == src.Count()
    ensures src.Switches() == seq(src.Count(), i requires 0 <= i < src.Count() =>
              NodeDef(src.Names(SwitchF)[i], Node(Switch, [Ref(src.Names(MergeF)[i], 0), condOutput])))
  {
    assert condOutput == RemapAll(src.CondSplice(), [src.condOut])[0];
  }

  lemma NextsMade(src: Source, outs: seq<Ref<string>>)
    requires src.Sized() && outs == RemapAll(src.BodySplice(), src.bodyOut)
    ensures |src.Names(NextF)| == src.Count()
    ensures src.Nexts() == seq(src.Count(), i requires 0 <= i < src.Count() =>
              NodeDef(src.Names(NextF)[i], Node(NextIteration, [outs[i]])))
  {
  }

  lemma CondTargets(g: TFGraph, nodes: seq<Slot>, names: map<string, nat>, src: Source)
    requires src.Sized() && Distinct(src.condIn) && AtGroup(g, nodes, names, src, 2)
    ensures TargetsExist(g.nameMap, src.CondSplice())
    ensures src.CondSplice().rename == map n | n in ToGraph(src.cond) :: Name(src.name, CondF, n)
  {
    NameSetJoin(Upto(src, 1), Group(src, 1));
    assert NamesOf(src.Merges()) == src.Names(MergeF);
    TargetsCreated(g.nameMap, src.name, CondF, src.cond, src.condIn, src.Merges(), 0);
  }

  lemma BodyTargets(g: TFGraph, nodes: seq<Slot>, names: map<string, nat>, src: Source)
    requires src.Sized() && Distinct(src.bodyIn) && AtGroup(g, nodes, names, src, 4)
    ensures TargetsExist(g.nameMap, src.BodySplice())
    ensures src.BodySplice().rename == map n | n in ToGraph(src.body) :: Name(src.name, BodyF, n)
  {
    NameSetJoin(Upto(src, 3), Group(src, 3));
    assert NamesOf(src.Switches()) == src.Names(SwitchF);
    TargetsCreated(g.nameMap, src.name, BodyF, src.body, src.bodyIn, src.Switches(), 1);
  }

  // ----- when the loop gets built, and what the graph then is

  /**
   A loop whose name is not a prefix of any name in the parent graph never meets a name
   collision, for any number of variables.
   */
  lemma FreshNameBuilds(names: map<string, nat>, src: Source, reg: Registry)
    requires src.Sized() && forall n :: n in names ==> !StartsWith(n, src.name + "/")
    requires forall def :: def in LoopDefs(src) ==> reg.accepts(def)
    requires SourceImports(src.name, CondF, src.CondSplice(), src.cond, [src.condOut], reg)
    requires SourceImports(src.name, BodyF, src.BodySplice(), src.body, src.bodyOut, reg)
    ensures Buildable(names, src, reg)
  {
    hide SourceImports, SpliceOf, CopyNode, LoopDefs;
    GroupsInLoop(src);
    forall f, r: string
      ensures Name(src.name, f, r) !in names
    {
      NameChars(src.name, f, r);
    }
    GroupsNumbered(src);
    forall f, n | n in names
      ensures !StartsWith(n, src.name + Text(f))
    {
      UnderLoop(n, src.name, f);
    }
  }

  lemma GroupsInLoop(src: Source)
    requires src.Sized()
    ensures forall def :: (def in src.Enters() || def in src.Merges() || def in src.Switches() || def in src.Nexts()
                           || def in src.Exits()) ==> def in LoopDefs(src)
  {
    hide CopyDefs, Source.Enters, Source.Merges, Source.Switches, Source.Nexts, Source.Exits, Source.CondSplice,
         Source.BodySplice;
  }

  lemma UnderLoop(n: string, loop: string, f: Family)
    ensures StartsWith(n, loop + Text(f)) ==> StartsWith(n, loop + "/")
  {
    if StartsWith(n, loop + Text(f)) {
      assert n[..|loop|+1] == n[..|loop + Text(f)|][..|loop|+1];
    }
  }

  lemma {:induction false} ToGraphAppend(a: seq<Def>, b: seq<Def>)
    ensures ToGraph(a + b) == ToGraph(a) + ToGraph(b)
    decreases |b|
  {
    if b == [] {
      assert a + b == a;
    } else {
      ToGraphAppend(a, b[..|b|-1]);
      assert (a + b)[..|a + b|-1] == a + b[..|b|-1];
    }
  }

  lemma {:induction false} OpsComeFrom(nodes: seq<Slot>, d: Def)
    requires d in Ops(nodes)
    ensures exists id :: 0 <= id < |nodes| && nodes[id] == Op(d)
  {
    var k := |nodes| - 1;
    if d in Ops(nodes[..k]) {
      OpsComeFrom(nodes[..k], d);
      var id :| 0 <= id < k && nodes[..k][id] == Op(d);
      assert nodes[id] == Op(d);
    } else {
      assert nodes[k] == Op(d);
    }
  }

  lemma OpsNamed(nodes: seq<Slot>, names: map<string, nat>, n: string)
    requires forall id :: 0 <= id < |nodes| && nodes[id].Op? ==> nodes[id].def.name in names
    requires n in ToGraph(Ops(nodes))
    ensures n in names
  {
    hide ToGraph, Ops;
    ToGraphKeys(Ops(nodes), n);
    var i :| 0 <= i < |Ops(nodes)| && Ops(nodes)[i].name == n;
    OpsComeFrom(nodes, Ops(nodes)[i]);
  }

  lemma CopiesDistinct(loop: string, f: Family, sp: Splice<string>, defs: seq<Def>)
    requires DistinctDefs(defs)
    ensures DistinctDefs(CopyDefs(loop, f, sp, defs))
  {
    hide CopyNode, Name;
    forall i, j | 0 <= i < j < |defs|
      ensures CopyDefs(loop, f, sp, defs)[i].name != CopyDefs(loop, f, sp, defs)[j].name
    {
      NamesApart(loop, f, defs[i].name, f, defs[j].name);
    }
  }

  lemma FamiliesDistinct(loop: string, a: seq<Def>, fams: set<Family>, b: seq<Def>, f: Family)
    requires OfFamilies(loop, a, fams) && OfFamilies(loop, b, {f}) && f !in fams && DistinctDefs(a) && DistinctDefs(b)
    ensures DistinctDefs(a + b)
  {
    hide Name;
    forall i, j | 0 <= i < |a| && 0 <= j < |b|
      ensures a[i].name != b[j].name
    {
      assert HasFamily(loop, a[i].name, fams) && HasFamily(loop, b[j].name, {f});
      var g, r :| g in fams && a[i].name == Name(loop, g, r);
      var h, q :| h in {f} && b[j].name == Name(loop, h, q);
      NamesApart(loop, g, r, h, q);
    }
  }

  lemma GroupNamed(src: Source, k: nat)
    requires src.Sized() && k < 7 && DistinctDefs(src.cond) && DistinctDefs(src.body)
    ensures OfFamilies(src.name, Group(src, k), {FamilyAt(k)}) && DistinctDefs(Group(src, k))
  {
    hide OfFamilies, DistinctDefs, Numbered, CopyDefs, Source.Enters, Source.Merges, Source.Switches, Source.Nexts, Source.Exits;
    GroupsNumbered(src);
    if k == 2 {
      CopiesOfFamily(src.name, CondF, src.CondSplice(), src.cond);
      CopiesDistinct(src.name, CondF, src.CondSplice(), src.cond);
    } else if k == 4 {
      CopiesOfFamily(src.name, BodyF, src.BodySplice(), src.body);
      CopiesDistinct(src.name, BodyF, src.BodySplice(), src.body);
    } else {
      NumberedDistinct(src.name, FamilyAt(k), Group(src, k));
    }
  }

  lemma {:induction false} UptoDistinct(src: Source, k: nat)
    requires src.Sized() && k <= 7 && DistinctDefs(src.cond) && DistinctDefs(src.body)
    ensures OfFamilies(src.name, Upto(src, k), FamiliesUpto(k)) && DistinctDefs(Upto(src, k))
  {
    if k > 0 {
      UptoDistinct(src, k - 1);
      GroupNamed(src, k - 1);
      FamilyIsNew(k - 1, k - 1);
      hide OfFamilies, DistinctDefs, Group;
      FamiliesDistinct(src.name, Upto(src, k - 1), FamiliesUpto(k - 1), Group(src, k - 1), FamilyAt(k - 1));
      FamiliesJoin(src.name, Upto(src, k - 1), FamiliesUpto(k - 1), Group(src, k - 1), {FamilyAt(k - 1)});
    }
  }

  /** All nodes of a loop have different names, and all of them start with the name of the loop. */
  lemma LoopDefsDistinct(src: Source)
    requires src.Sized() && DistinctDefs(src.cond) && DistinctDefs(src.body)
    ensures DistinctDefs(LoopDefs(src))
    ensures forall i :: 0 <= i < |LoopDefs(src)| ==> StartsWith(LoopDefs(src)[i].name, src.name + "/")
  {
    UptoDistinct(src, 7);
    AllGroups(src);
    hide LoopDefs, DistinctDefs, Name, StartsWith;
    forall i | 0 <= i < |LoopDefs(src)|
      ensures StartsWith(LoopDefs(src)[i].name, src.name + "/")
    {
      assert HasFamily(src.name, LoopDefs(src)[i].name, FamiliesUpto(7));
      var f, r :| f in FamiliesUpto(7) && LoopDefs(src)[i].name == Name(src.name, f, r);
      NameChars(src.name, f, r);
    }
  }

  /** A buildable loop adds only new names. */
  lemma BuildableApart(nodes: seq<Slot>, names: map<string, nat>, src: Source, reg: Registry)
    requires Indexed(nodes, names) && src.Sized() && Buildable(names, src, reg)
    ensures ToGraph(Ops(nodes)).Keys !! ToGraph(LoopDefs(src)).Keys
  {
    hide SourceImports, SpliceOf, CopyNode, Name, Text;
    var l := LoopDefs(src);
    forall n | n in ToGraph(Ops(nodes)) && n in ToGraph(l)
      ensures false
    {
      OpsNamed(nodes, names, n);
      ToGraphKeys(l, n);
      var i :| 0 <= i < |l| && l[i].name == n;
      LoopNameNew(names, src, reg, l[i]);
    }
  }

  lemma LoopNameNew(names: map<string, nat>, src: Source, reg: Registry, def: Def)
    requires src.Sized() && Buildable(names, src, reg) && def in LoopDefs(src)
    ensures def.name !in names
  {
    hide SpliceOf, CopyNode, Name, Source.Enters, Source.Merges, Source.Switches, Source.Nexts, Source.Exits;
    CopiesFresh(names, src.name, CondF, src.CondSplice(), src.cond);
    CopiesFresh(names, src.name, BodyF, src.BodySplice(), src.body);
    GroupsExpanded(src);
  }
}
