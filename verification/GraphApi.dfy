/**
 TF_Graph and the calls that grow and read it under its lock (c/c_api.cc): node ids are
 handed out in order and never reused, a failed import leaves empty ids behind, and a map
 from names to ids is kept beside the nodes.
 */
module GraphApi {
  import opened Options
  import opened Acyclic

  datatype Error =
    | DuplicateName
    | Rejected
    | PrefixTaken
    | InvalidPrefix
    | UnknownDestination
    | DuplicateInImport
    | UnknownInput
    | UnknownReturn
    | CondOutputUnset
    | BodyOutputUnset
    | NameUnset
    | NoInputs

  datatype Status = Ok | Failed(error: Error)

  /** What a node id stands for; ids 0 and 1 are the source and the sink. */
  datatype Slot = Sentinel | Op(def: NodeDef<string>) | Removed

  /** The name index and the node list say the same thing. */
  predicate Indexed(nodes: seq<Slot>, names: map<string, nat>) {
    && (forall n :: n in names ==> names[n] < |nodes| && nodes[names[n]].Op? && nodes[names[n]].def.name == n)
    && (forall id :: 0 <= id < |nodes| && nodes[id].Op? ==>
          nodes[id].def.name in names && names[nodes[id].def.name] == id)
  }

  predicate Sentinels(nodes: seq<Slot>) {
    && |nodes| >= 2
    && forall id :: 0 <= id < |nodes| ==> (nodes[id].Sentinel? <==> id < 2)
  }

  /** Lookup without an index: the first id that carries the name. */
  function Scan(nodes: seq<Slot>, name: string, from: nat): Option<nat>
    decreases |nodes| - from
  {
    if from >= |nodes| then None
    else if nodes[from].Op? && nodes[from].def.name == name then Some(from)
    else Scan(nodes, name, from + 1)
  }

  /** In an indexed graph, names and op nodes correspond one to one, and the index agrees with a scan. */
  lemma {:induction false} IndexAgreesWithScan(nodes: seq<Slot>, names: map<string, nat>, name: string, from: nat)
    requires Indexed(nodes, names)
    ensures Scan(nodes, name, from) == if name in names && names[name] >= from then Some(names[name]) else None
    decreases |nodes| - from
  {
    if from < |nodes| {
      IndexAgreesWithScan(nodes, names, name, from + 1);
    }
  }

  /** The op nodes in id order. */
  function Ops(nodes: seq<Slot>): seq<NodeDef<string>> {
    if nodes == [] then []
    else
      var k := |nodes| - 1;
      Ops(nodes[..k]) + if nodes[k].Op? then [nodes[k].def] else []
  }

  lemma {:induction false} OpsAppend(a: seq<Slot>, b: seq<Slot>)
    ensures Ops(a + b) == Ops(a) + Ops(b)
    decreases |b|
  {
    if b == [] {
      assert a + b == a;
    } else {
      var k := |b| - 1;
      OpsAppend(a, b[..k]);
      assert (a + b)[..|a + b|-1] == a + b[..k];
      assert (a + b)[|a + b|-1] == b[k];
    }
  }

  /** Names and op nodes correspond one to one: there are as many entries in the index as op nodes. */
  lemma {:induction false} IndexCounts(nodes: seq<Slot>, names: map<string, nat>)
    requires Indexed(nodes, names)
    ensures |names.Keys| == |Ops(nodes)|
    decreases |nodes|
  {
    if nodes == [] {
      assert names.Keys == {};
    } else {
      hide Indexed;
      var k := |nodes| - 1;
      var rest := nodes[..k];
      if nodes[k].Op? {
        var n := nodes[k].def.name;
        var fewer := map m | m in names && m != n :: names[m];
        IndexedDrop(nodes, names, fewer);
        IndexCounts(rest, fewer);
        assert names.Keys == fewer.Keys + {n};
      } else {
        IndexedDrop(nodes, names, names);
        IndexCounts(rest, names);
      }
    }
  }

  /** The index without the last node. */
  lemma IndexedDrop(nodes: seq<Slot>, names: map<string, nat>, fewer: map<string, nat>)
    requires Indexed(nodes, names) && nodes != []
    requires var last := nodes[|nodes|-1];
             fewer == if last.Op? then map m | m in names && m != last.def.name :: names[m] else names
    ensures Indexed(nodes[..|nodes|-1], fewer) && (nodes[|nodes|-1].Op? ==> nodes[|nodes|-1].def.name in names)
  {
  }

  function Slots(defs: seq<NodeDef<string>>): seq<Slot> {
    seq(|defs|, i requires 0 <= i < |defs| => Op(defs[i]))
  }

  lemma {:induction false} OpsOfSlots(defs: seq<NodeDef<string>>)
    ensures Ops(Slots(defs)) == defs
  {
    if defs != [] {
      var k := |defs| - 1;
      OpsOfSlots(defs[..k]);
      assert Slots(defs)[..k] == Slots(defs[..k]);
    }
  }

  function Holes(n: nat): seq<Slot> { seq(n, _ => Removed) }

  lemma {:induction false} OpsOfHoles(n: nat)
    ensures Ops(Holes(n)) == []
  {
    if n > 0 {
      OpsOfHoles(n - 1);
      assert Holes(n)[..n-1] == Holes(n - 1);
    }
  }

  /** Names are distinct and new. */
  predicate Fresh(names: map<string, nat>, defs: seq<NodeDef<string>>) {
    && (forall i :: 0 <= i < |defs| ==> defs[i].name !in names)
    && (forall i, j :: 0 <= i < j < |defs| ==> defs[i].name != defs[j].name)
  }

  /** The name map after entering nodes whose ids start at `base`. */
  function Entered(names: map<string, nat>, defs: seq<NodeDef<string>>, base: nat): map<string, nat> {
    if defs == [] then names
    else
      var k := |defs| - 1;
      Entered(names, defs[..k], base)[defs[k].name := base + k]
  }

  lemma EnteredStep(names: map<string, nat>, defs: seq<NodeDef<string>>, base: nat, k: nat)
    requires k < |defs|
    ensures Entered(names, defs[..k+1], base) == Entered(names, defs[..k], base)[defs[k].name := base + k]
  {
    assert defs[..k+1][..k] == defs[..k];
  }

  ghost function NameSet(defs: seq<NodeDef<string>>): set<string> {
    set i | 0 <= i < |defs| :: defs[i].name
  }

  lemma {:induction false} EnteredKeys(names: map<string, nat>, defs: seq<NodeDef<string>>, base: nat, k: nat)
    requires k <= |defs|
    ensures Entered(names, defs[..k], base).Keys == names.Keys + NameSet(defs[..k])
  {
    if k > 0 {
      hide Entered, NameSet;
      EnteredKeys(names, defs, base, k - 1);
      EnteredStep(names, defs, base, k - 1);
      assert NameSet(defs[..k]) == NameSet(defs[..k-1]) + {defs[k-1].name} by { NamesStep(defs, k - 1); }
    }
  }

  lemma NamesStep(defs: seq<NodeDef<string>>, k: nat)
    requires k < |defs|
    ensures NameSet(defs[..k+1]) == NameSet(defs[..k]) + {defs[k].name}
  {
    var a, b := NameSet(defs[..k+1]), NameSet(defs[..k]) + {defs[k].name};
    forall n
      ensures n in a <==> n in b
    {
      if n in b {
        if n == defs[k].name {
          assert defs[..k+1][k].name == n;
        } else {
          var j :| 0 <= j < k && defs[..k][j].name == n;
          assert defs[..k+1][j].name == n;
        }
      }
    }
  }

  lemma SlotsStep(nodes: seq<Slot>, defs: seq<NodeDef<string>>, k: nat)
    requires k < |defs|
    ensures nodes + Slots(defs[..k]) + [Op(defs[k])] == nodes + Slots(defs[..k+1])
  {
    var a, b := nodes + Slots(defs[..k]) + [Op(defs[k])], nodes + Slots(defs[..k+1]);
    assert |a| == |b|;
    assert forall i :: 0 <= i < |a| ==> a[i] == b[i];
  }

  lemma FreshNext(names: map<string, nat>, defs: seq<NodeDef<string>>, k: nat)
    requires Fresh(names, defs) && k < |defs|
    ensures defs[k].name !in names.Keys + NameSet(defs[..k])
  {
  }

  lemma {:induction false} EnteredIndexed(nodes: seq<Slot>, names: map<string, nat>, defs: seq<NodeDef<string>>, k: nat)
    requires Indexed(nodes, names) && Fresh(names, defs) && k <= |defs|
    ensures Indexed(nodes + Slots(defs[..k]), Entered(names, defs[..k], |nodes|))
  {
    hide Indexed, Entered, Slots, NameSet, Fresh;
    if k == 0 {
      NothingEntered(nodes, names, defs);
    } else {
      EnteredIndexed(nodes, names, defs, k - 1);
      var before := Entered(names, defs[..k-1], |nodes|);
      EnteredKeys(names, defs, |nodes|, k - 1);
      FreshNext(names, defs, k - 1);
      assert defs[k-1].name !in before.Keys;
      IndexedAppend(nodes + Slots(defs[..k-1]), before, defs[k-1]);
      SlotsStep(nodes, defs, k - 1);
      EnteredStep(names, defs, |nodes|, k - 1);
      assert |nodes + Slots(defs[..k-1])| == |nodes| + k - 1 by { SlotsLength(defs[..k-1]); }
    }
  }

  lemma NothingEntered(nodes: seq<Slot>, names: map<string, nat>, defs: seq<NodeDef<string>>)
    ensures nodes + Slots(defs[..0]) == nodes && Entered(names, defs[..0], |nodes|) == names
  {
    assert Slots(defs[..0]) == [];
  }

  lemma SlotsLength(defs: seq<NodeDef<string>>)
    ensures |Slots(defs)| == |defs| && forall i :: 0 <= i < |defs| ==> Slots(defs)[i] == Op(defs[i])
  {
  }

  lemma EnteredAll(nodes: seq<Slot>, names: map<string, nat>, defs: seq<NodeDef<string>>)
    requires Indexed(nodes, names) && Sentinels(nodes) && Fresh(names, defs)
    ensures Indexed(nodes + Slots(defs), Entered(names, defs, |nodes|)) && Sentinels(nodes + Slots(defs))
    ensures Entered(names, defs, |nodes|).Keys == names.Keys + NameSet(defs)
  {
    hide Indexed, Sentinels, Fresh, Slots, Entered, NameSet;
    assert defs[..|defs|] == defs;
    EnteredIndexed(nodes, names, defs, |defs|);
    EnteredKeys(names, defs, |nodes|, |defs|);
    SentinelsGrow(nodes, defs);
  }

  lemma SentinelsGrow(nodes: seq<Slot>, defs: seq<NodeDef<string>>)
    requires Sentinels(nodes)
    ensures Sentinels(nodes + Slots(defs))
  {
  }

  lemma IndexedAppend(nodes: seq<Slot>, names: map<string, nat>, def: NodeDef<string>)
    requires Indexed(nodes, names) && def.name !in names
    ensures Indexed(nodes + [Op(def)], names[def.name := |nodes|])
  {
  }

  /** The position at which a traversal continues: the next op id, or the end. */
  function NextOp(nodes: seq<Slot>, from: nat): nat
    decreases |nodes| - from
  {
    if from >= |nodes| || !nodes[from].Removed? then from else NextOp(nodes, from + 1)
  }

  class TFGraph {
    var nodes: seq<Slot>
    var nameMap: map<string, nat>

    ghost predicate Valid()
      reads this
    {
      Sentinels(nodes) && Indexed(nodes, nameMap)
    }

    constructor ()
      ensures Valid() && Ops(nodes) == [] && nodes == [Sentinel, Sentinel] && nameMap == map[]
    {
      nodes, nameMap := [Sentinel, Sentinel], map[];
      new;
      assert nodes[..1] == [Sentinel] && nodes[..1][..0] == [];
    }

    /** TF_FinishOperationLocked: `accepted` is what the op registry says about the node. */
    method FinishOperation(def: NodeDef<string>, accepted: bool) returns (status: Status)
      requires Valid()
      modifies this
      ensures Valid()
      ensures status == if def.name in old(nameMap) then Failed(DuplicateName)
                        else if !accepted then Failed(Rejected) else Ok
      ensures status.Ok? ==> nodes == old(nodes) + [Op(def)] && nameMap == old(nameMap)[def.name := |old(nodes)|]
      ensures !status.Ok? ==> nodes == old(nodes) && nameMap == old(nameMap)
    {
      if def.name in nameMap {
        return Failed(DuplicateName);
      }
      if !accepted {
        return Failed(Rejected);
      }
      nameMap := nameMap[def.name := |nodes|];
      nodes := nodes + [Op(def)];
      status := Ok;
    }

    /**
     The end of GraphImportGraphDefLocked: ImportGraphDef has appended `defs`, and every new
     node is entered into the name map.
     */
    method AdoptImported(defs: seq<NodeDef<string>>)
      requires Valid() && Fresh(nameMap, defs)
      modifies this
      ensures Valid() && nodes == old(nodes) + Slots(defs) && |nodes| == |old(nodes)| + |defs|
      ensures forall i :: 0 <= i < |defs| ==> nodes[|old(nodes)| + i] == Op(defs[i])
      ensures nameMap.Keys == old(nameMap).Keys + NameSet(defs)
    {
      var lastNodeId := |nodes|;
      nodes := nodes + Slots(defs);
      var i := lastNodeId;
      hide Indexed, Sentinels, Fresh, Slots, Entered, NameSet;
      SlotsLength(defs);
      while i < |nodes|
        invariant lastNodeId <= i <= |nodes| && nodes == old(nodes) + Slots(defs)
        invariant nameMap == Entered(old(nameMap), defs[..i - lastNodeId], lastNodeId)
      {
        var k := i - lastNodeId;
        assert nodes[i] == Op(defs[k]);
        EnteredStep(old(nameMap), defs, lastNodeId, k);
        nameMap := nameMap[nodes[i].def.name := i];
        i := i + 1;
      }
      assert defs[..|defs|] == defs;
      EnteredAll(old(nodes), old(nameMap), defs);
    }

    /** A failed import has removed the nodes it made; their ids stay empty. */
    method AbandonImported(created: nat)
      requires Valid()
      modifies this`nodes
      ensures Valid() && nodes == old(nodes) + Holes(created) && |nodes| == |old(nodes)| + created
      ensures forall id :: |old(nodes)| <= id < |nodes| ==> nodes[id].Removed?
    {
      nodes := nodes + Holes(created);
    }

    /** TF_GraphOperationByName finds a node exactly when a scan of all nodes does. */
    method OperationByName(name: string) returns (r: Option<nat>)
      requires Valid()
      ensures r == Scan(nodes, name, 0)
      ensures r.Some? ==> r.value < |nodes| && nodes[r.value].Op? && nodes[r.value].def.name == name
      ensures r.None? ==> forall id :: 0 <= id < |nodes| && nodes[id].Op? ==> nodes[id].def.name != name
    {
      IndexAgreesWithScan(nodes, nameMap, name, 0);
      if name in nameMap {
        r := Some(nameMap[name]);
      } else {
        r := None;
      }
    }

    /** TF_GraphNextOperation. */
    method NextOperation(pos: nat) returns (next: nat, r: Option<nat>)
      requires Valid()
      ensures next == NextOp(nodes, if pos == 0 then 2 else pos + 1)
      ensures r == if next < |nodes| then Some(next) else None
      ensures next > pos && (r.Some? ==> nodes[next].Op?)
      ensures forall id :: pos < id < next && id < |nodes| ==> !nodes[id].Op?
    {
      NextOpFinds(nodes, if pos == 0 then 2 else pos + 1);
      next := if pos == 0 then 2 else pos + 1;
      ghost var start := next;
      while next < |nodes|
        invariant NextOp(nodes, start) == NextOp(nodes, next)
        decreases |nodes| - next
      {
        if !nodes[next].Removed? {
          return next, Some(next);
        }
        next := next + 1;
      }
      r := None;
    }
  }

  // ----- one traversal, with other calls in between

  lemma {:induction false} NextOpFinds(nodes: seq<Slot>, from: nat)
    requires Sentinels(nodes) && from >= 2
    ensures NextOp(nodes, from) >= from
    ensures NextOp(nodes, from) < |nodes| ==> nodes[NextOp(nodes, from)].Op?
    ensures forall id :: from <= id < NextOp(nodes, from) && id < |nodes| ==> nodes[id].Removed?
    decreases |nodes| - from
  {
    if from < |nodes| && nodes[from].Removed? {
      NextOpFinds(nodes, from + 1);
    }
  }

  /**
   A traversal: call `j` of TF_GraphNextOperation sees the node list `lists[j]`, to which calls
   in between may only have appended, and moves the position from `pos[j]` to `pos[j+1]`.
   */
  ghost predicate Traversal(lists: seq<seq<Slot>>, pos: seq<nat>) {
    && |pos| == |lists| + 1 && pos[0] == 0
    && (forall j :: 0 <= j < |lists| ==> Sentinels(lists[j]))
    && (forall j :: 0 < j < |lists| ==> lists[j-1] <= lists[j])
    && (forall j :: 0 <= j < |lists| ==> pos[j+1] == NextOp(lists[j], if pos[j] == 0 then 2 else pos[j] + 1))
    && (forall j :: 0 <= j < |lists| - 1 ==> pos[j+1] < |lists[j]|)
  }

  lemma {:induction false} ListsGrow(lists: seq<seq<Slot>>, pos: seq<nat>, i: nat, j: nat)
    requires Traversal(lists, pos) && i <= j < |lists|
    ensures lists[i] <= lists[j]
    decreases j - i
  {
    if i < j {
      ListsGrow(lists, pos, i, j - 1);
    }
  }

  /** Positions strictly increase, so ops are visited in id order and none twice. */
  lemma {:induction false} TraversalAscends(lists: seq<seq<Slot>>, pos: seq<nat>, i: nat, j: nat)
    requires Traversal(lists, pos) && i < j <= |lists|
    ensures pos[i] < pos[j] && 2 <= pos[j]
    ensures pos[j] < |lists[j-1]| ==> lists[j-1][pos[j]].Op?
    decreases j
  {
    if j > 1 {
      TraversalAscends(lists, pos, if i < j - 1 then i else j - 2, j - 1);
    }
    NextOpFinds(lists[j-1], if pos[j-1] == 0 then 2 else pos[j-1] + 1);
  }

  /**
   A traversal that has returned null has visited every op that was there when it began,
   whatever was added meanwhile.
   */
  lemma {:induction false} TraversalComplete(lists: seq<seq<Slot>>, pos: seq<nat>, id: nat) returns (j: nat)
    requires Traversal(lists, pos) && |lists| > 0 && pos[|lists|] >= |lists[|lists|-1]|
    requires id < |lists[0]| && lists[0][id].Op?
    ensures 0 < j < |pos| && pos[j] == id
  {
    j := 0;
    while pos[j] < id
      invariant 0 <= j <= |lists| && pos[j] <= id
      decreases |lists| - j
    {
      if j == |lists| {
        ListsGrow(lists, pos, 0, |lists| - 1);
        assert false;
      }
      ListsGrow(lists, pos, 0, j);
      assert lists[j][id] == lists[0][id];
      NextOpFinds(lists[j], if pos[j] == 0 then 2 else pos[j] + 1);
      j := j + 1;
    }
    assert id >= 2;
  }
}
