/**
 When a graph is freed (c/c_api.cc, TF_DeleteGraph, TF_NewSession, TF_DeleteSession).  A graph may
 be given up before its sessions are; the thread that finds that nothing needs the graph any more
 frees it after it has released the graph's lock.
 */
module GraphLife {

  import opened Options

  datatype Counts = Counts(numSessions: int, deleteRequested: bool)

  /** Nothing needs the graph any more. */
  predicate Unneeded(c: Counts) { c.deleteRequested && c.numSessions == 0 }

  function Added(c: Counts): Counts { c.(numSessions := c.numSessions + 1) }

  function Requested(c: Counts): Counts { c.(deleteRequested := true) }

  function Dropped(c: Counts): Counts { c.(numSessions := c.numSessions - 1) }

  class GraphCounts {
    var numSessions: int
    var deleteRequested: bool

    ghost function Value(): Counts
      reads this
    {
      Counts(numSessions, deleteRequested)
    }

    constructor ()
      ensures Value() == Counts(0, false)
    {
      numSessions, deleteRequested := 0, false;
    }

    method AddSession()
      modifies this
      ensures Value() == Added(old(Value()))
      ensures numSessions == old(numSessions) + 1 && deleteRequested == old(deleteRequested)
    {
      numSessions := numSessions + 1;
    }

    /** The part of TF_DeleteGraph under the lock; `del`: the caller has to free the graph. */
    method RequestDelete() returns (del: bool)
      modifies this
      ensures Value() == Requested(old(Value())) && (del <==> Unneeded(Value()))
      ensures numSessions == old(numSessions) && deleteRequested && (del <==> numSessions == 0)
    {
      deleteRequested := true;
      del := numSessions == 0;
    }

    /** The part of TF_DeleteSession under the lock. */
    method DropSession() returns (del: bool)
      modifies this
      ensures Value() == Dropped(old(Value())) && (del <==> Unneeded(Value()))
      ensures numSessions == old(numSessions) - 1 && deleteRequested == old(deleteRequested)
      ensures del <==> deleteRequested && numSessions == 0
    {
      numSessions := numSessions - 1;
      del := deleteRequested && numSessions == 0;
    }
  }

  // ----- threads

  /** Inside: holds the graph's lock, the counts are updated.  Reaping: about to free the graph. */
  datatype Pc = Idle | Inside(del: bool) | Reaping

  /**
   `client`: somebody may still call with the graph itself; `open`: sessions not given up yet;
   `freed`: how often the graph was freed.
   */
  datatype State = State(counts: Counts, client: bool, open: nat, freed: nat, holder: Option<nat>, pcs: seq<Pc>)

  datatype Action =
    | EnterNew(t: nat)
    | EnterDeleteGraph(t: nat)
    | EnterDeleteSession(t: nat)
    | Leave(t: nat)
    | Reap(t: nat)
    | UseGraph(t: nat)
    | UseSession(t: nat)

  /** The action reads or writes the graph, its lock included. */
  predicate Touches(x: Action) { !x.Reap? }

  predicate Enabled(s: State, x: Action) {
    && x.t < |s.pcs|
    && match x
       case EnterNew(t) => s.pcs[t].Idle? && s.holder.None? && s.client
       case EnterDeleteGraph(t) => s.pcs[t].Idle? && s.holder.None? && s.client
       case EnterDeleteSession(t) => s.pcs[t].Idle? && s.holder.None? && s.open > 0
       case Leave(t) => s.pcs[t].Inside?
       case Reap(t) => s.pcs[t].Reaping?
       case UseGraph(t) => s.pcs[t].Idle? && s.holder.None? && s.client
       case UseSession(t) => s.pcs[t].Idle? && s.holder.None? && s.open > 0
  }

  function Enter(s: State, t: nat, c: Counts, del: bool): State
    requires t < |s.pcs|
  {
    s.(counts := c, holder := Some(t), pcs := s.pcs[t := Inside(del)])
  }

  function Next(s: State, x: Action): State
    requires Enabled(s, x)
  {
    var c := s.counts;
    match x
    case EnterNew(t) => Enter(s, t, Added(c), false).(open := s.open + 1)
    case EnterDeleteGraph(t) => Enter(s, t, Requested(c), Unneeded(Requested(c))).(client := false)
    case EnterDeleteSession(t) => Enter(s, t, Dropped(c), Unneeded(Dropped(c))).(open := s.open - 1)
    case Leave(t) => s.(holder := None, pcs := s.pcs[t := if s.pcs[t].del then Reaping else Idle])
    case Reap(t) => s.(freed := s.freed + 1, pcs := s.pcs[t := Idle])
    case UseGraph(t) => s
    case UseSession(t) => s
  }

  predicate Initial(s: State) {
    && s.counts == Counts(0, false) && s.client && s.open == 0 && s.freed == 0 && s.holder.None?
    && forall t :: 0 <= t < |s.pcs| ==> s.pcs[t].Idle?
  }

  ghost predicate IsRun(ss: seq<State>, xs: seq<Action>) {
    && |ss| == |xs| + 1 && Initial(ss[0])
    && forall k {:trigger xs[k]} :: 0 <= k < |xs| ==> Enabled(ss[k], xs[k]) && ss[k + 1] == Next(ss[k], xs[k])
  }

  /** The thread has decided to free the graph and has not done it yet. */
  predicate Chosen(pc: Pc) { pc == Inside(true) || pc.Reaping? }

  ghost predicate Inv(s: State) {
    && s.counts == Counts(s.open, !s.client)
    && (forall t :: 0 <= t < |s.pcs| ==> (s.pcs[t].Inside? <==> s.holder == Some(t)))
    && (s.holder.Some? ==> s.holder.value < |s.pcs|)
    && (forall t :: 0 <= t < |s.pcs| && Chosen(s.pcs[t]) ==> Unneeded(s.counts) && s.freed == 0)
    && (forall t, u :: 0 <= t < u < |s.pcs| ==> !(Chosen(s.pcs[t]) && Chosen(s.pcs[u])))
    && (s.freed == 0 && Unneeded(s.counts) ==> exists t :: 0 <= t < |s.pcs| && Chosen(s.pcs[t]))
    && (forall t :: 0 <= t < |s.pcs| && s.pcs[t] == Inside(false) ==> !Unneeded(s.counts))
    && s.freed <= 1 && (s.freed == 1 ==> Unneeded(s.counts))
  }

  lemma InvNext(s: State, x: Action)
    requires Enabled(s, x) && Inv(s)
    ensures Inv(Next(s, x))
  {
    var s' := Next(s, x);
    if s'.freed == 0 && Unneeded(s'.counts) {
      if Unneeded(s.counts) {
        var t :| 0 <= t < |s.pcs| && Chosen(s.pcs[t]);
        assert Chosen(s'.pcs[t]);
      } else {
        assert Chosen(s'.pcs[x.t]);
      }
    }
  }

  lemma {:induction false} RunInv(ss: seq<State>, xs: seq<Action>, k: nat)
    requires IsRun(ss, xs) && k < |ss|
    ensures Inv(ss[k])
  {
    if k > 0 {
      RunInv(ss, xs, k - 1);
      assert Enabled(ss[k - 1], xs[k - 1]);
      InvNext(ss[k - 1], xs[k - 1]);
    }
  }

  /** Nobody reads or writes the graph, or its lock, once it is freed. */
  lemma TouchedAliveOnly(ss: seq<State>, xs: seq<Action>, k: nat)
    requires IsRun(ss, xs) && k < |xs| && Touches(xs[k])
    ensures ss[k].freed == 0
  {
    RunInv(ss, xs, k);
    assert Enabled(ss[k], xs[k]);
  }

  /** The graph is freed once, by one thread, after it was given up and its last session was. */
  lemma FreedOnce(ss: seq<State>, xs: seq<Action>, i: nat, j: nat)
    requires IsRun(ss, xs) && i < |xs| && j < |xs| && xs[i].Reap? && xs[j].Reap?
    ensures i == j && !ss[i].client && ss[i].open == 0
  {
    RunInv(ss, xs, i);
    RunInv(ss, xs, j);
    assert Enabled(ss[i], xs[i]) && Enabled(ss[j], xs[j]);
    if i < j {
      FreedGrows(ss, xs, i + 1, j);
    } else if j < i {
      FreedGrows(ss, xs, j + 1, i);
    }
  }

  lemma {:induction false} FreedGrows(ss: seq<State>, xs: seq<Action>, i: nat, j: nat)
    requires IsRun(ss, xs) && i <= j < |ss|
    ensures ss[i].freed <= ss[j].freed
  {
    if i < j {
      FreedGrows(ss, xs, i, j - 1);
      assert Enabled(ss[j - 1], xs[j - 1]);
    }
  }

  /** When no call is under way, the graph has been freed exactly if it and all its sessions were given up. */
  lemma FreedWhenDone(ss: seq<State>, xs: seq<Action>, k: nat)
    requires IsRun(ss, xs) && k < |ss| && forall t :: 0 <= t < |ss[k].pcs| ==> ss[k].pcs[t].Idle?
    ensures ss[k].freed == if !ss[k].client && ss[k].open == 0 then 1 else 0
  {
    RunInv(ss, xs, k);
  }
}
