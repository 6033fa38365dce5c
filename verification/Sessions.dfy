/**
 Sessions that follow a growing graph (c/c_api.cc, ExtendSessionGraphHelper).  A call holds its
 session's lock from start to end, but gives the graph's lock back before it asks the session to
 extend, so the graph may grow, and other sessions may read it, in the meantime.
 */
module Sessions {

  import opened Options
  import opened Acyclic
  import opened GraphApi

  type Defs = seq<NodeDef<string>>

  /** A request to extend: the nodes to send, and the number of ids that they bring the session to. */
  datatype Request = Request(upTo: nat, payload: Defs)

  /** What a call has to send when it has the graph's lock. */
  function Due(nodes: seq<Slot>, last: nat): Option<Request> {
    if last < |nodes| then Some(Request(|nodes|, Ops(nodes[last..]))) else None
  }

  class TFSession {
    var lastNumGraphNodes: nat

    /** A new session starts at id 0, one that was loaded with its graph at the end of the graph. */
    constructor (start: nat)
      ensures lastNumGraphNodes == start
    {
      lastNumGraphNodes := start;
    }

    /** The part of the call under the graph's lock. */
    method Prepare(g: TFGraph) returns (r: Option<Request>)
      ensures r == Due(g.nodes, lastNumGraphNodes)
      ensures r.None? <==> |g.nodes| <= lastNumGraphNodes
      ensures r.Some? ==> r.value == Request(|g.nodes|, Ops(g.nodes[lastNumGraphNodes..]))
    {
      var numNodes := |g.nodes|;
      if lastNumGraphNodes >= numNodes {
        return None;
      }
      var defs: Defs := [];
      var id := lastNumGraphNodes;
      while id < numNodes
        invariant lastNumGraphNodes <= id <= numNodes
        invariant defs == Ops(g.nodes[lastNumGraphNodes..id])
      {
        assert g.nodes[lastNumGraphNodes..id + 1] == g.nodes[lastNumGraphNodes..id] + [g.nodes[id]];
        OpsAppend(g.nodes[lastNumGraphNodes..id], [g.nodes[id]]);
        if g.nodes[id].Op? {
          defs := defs + [g.nodes[id].def];
        }
        id := id + 1;
      }
      assert g.nodes[lastNumGraphNodes..numNodes] == g.nodes[lastNumGraphNodes..];
      r := Some(Request(numNodes, defs));
    }

    /** The part after the answer of Extend. */
    method Finish(r: Request, extended: bool) returns (ok: bool)
      modifies this
      ensures ok == extended
      ensures lastNumGraphNodes == if extended then r.upTo else old(lastNumGraphNodes)
    {
      if !extended {
        return false;
      }
      lastNumGraphNodes := r.upTo;
      ok := true;
    }
  }

  // ----- threads, sessions and a graph

  /** `sent`: all payloads that the session accepted, one after the other. */
  datatype Session = Session(start: nat, last: nat, sent: Defs)

  datatype Pc = Idle | Extending(sid: nat, request: Request)

  datatype State = State(nodes: seq<Slot>, sessions: seq<Session>, pcs: seq<Pc>)

  datatype Action =
    | Grow(more: seq<Slot>)
    | NewSession
    | LoadSession
    | Begin(t: nat, sid: nat)
    | Accept(t: nat)
    | Refuse(t: nat)

  ghost predicate Enabled(s: State, x: Action) {
    match x
    case Grow(more) => true
    case NewSession => true
    case LoadSession => true
    case Begin(t, sid) =>
      && t < |s.pcs| && s.pcs[t].Idle? && sid < |s.sessions|
      && forall u :: 0 <= u < |s.pcs| && s.pcs[u].Extending? ==> s.pcs[u].sid != sid
    case Accept(t) => t < |s.pcs| && s.pcs[t].Extending? && s.pcs[t].sid < |s.sessions|
    case Refuse(t) => t < |s.pcs| && s.pcs[t].Extending?
  }

  ghost function Next(s: State, x: Action): State
    requires Enabled(s, x)
  {
    match x
    case Grow(more) => s.(nodes := s.nodes + more)
    case NewSession => s.(sessions := s.sessions + [Session(0, 0, [])])
    case LoadSession => s.(sessions := s.sessions + [Session(|s.nodes|, |s.nodes|, [])])
    case Begin(t, sid) =>
      var due := Due(s.nodes, s.sessions[sid].last);
      if due.None? then s else s.(pcs := s.pcs[t := Extending(sid, due.value)])
    case Accept(t) =>
      var sid, r := s.pcs[t].sid, s.pcs[t].request;
      var y := s.sessions[sid];
      s.(sessions := s.sessions[sid := y.(last := r.upTo, sent := y.sent + r.payload)], pcs := s.pcs[t := Idle])
    case Refuse(t) => s.(pcs := s.pcs[t := Idle])
  }

  ghost predicate Initial(s: State) {
    s.sessions == [] && forall t :: 0 <= t < |s.pcs| ==> s.pcs[t].Idle?
  }

  ghost predicate IsRun(ss: seq<State>, xs: seq<Action>) {
    && |ss| == |xs| + 1 && Initial(ss[0])
    && forall k {:trigger xs[k]} :: 0 <= k < |xs| ==> Enabled(ss[k], xs[k]) && ss[k + 1] == Next(ss[k], xs[k])
  }

  /** The session has been sent the op nodes with ids from its start to its counter, in order. */
  ghost predicate UpToDate(nodes: seq<Slot>, x: Session) {
    x.start <= x.last <= |nodes| && x.sent == Ops(nodes[x.start..x.last])
  }

  /** The request in flight is what the session lacks of the ids below `upTo`. */
  ghost predicate InFlight(s: State, pc: Pc) {
    pc.Extending? ==>
      && pc.sid < |s.sessions| && s.sessions[pc.sid].last <= pc.request.upTo <= |s.nodes|
      && pc.request.payload == Ops(s.nodes[s.sessions[pc.sid].last..pc.request.upTo])
  }

  ghost predicate Exclusive(s: State) {
    forall t, u :: 0 <= t < u < |s.pcs| && s.pcs[t].Extending? && s.pcs[u].Extending? ==> s.pcs[t].sid != s.pcs[u].sid
  }

  ghost predicate Inv(s: State) {
    && (forall i :: 0 <= i < |s.sessions| ==> UpToDate(s.nodes, s.sessions[i]))
    && (forall t :: 0 <= t < |s.pcs| ==> InFlight(s, s.pcs[t]))
    && Exclusive(s)
  }

  lemma GrowKeeps(s: State, more: seq<Slot>)
    requires Inv(s)
    ensures Inv(Next(s, Grow(more)))
  {
    hide Ops;
    var s' := Next(s, Grow(more));
    forall i | 0 <= i < |s'.sessions| ensures UpToDate(s'.nodes, s'.sessions[i]) {
      var x := s.sessions[i];
      assert UpToDate(s.nodes, x);
      assert s'.nodes[x.start..x.last] == s.nodes[x.start..x.last];
    }
    forall t | 0 <= t < |s'.pcs| ensures InFlight(s', s'.pcs[t]) {
      var pc := s.pcs[t];
      assert InFlight(s, pc);
      if pc.Extending? {
        var a := s.sessions[pc.sid].last;
        assert s'.nodes[a..pc.request.upTo] == s.nodes[a..pc.request.upTo];
      }
    }
  }

  lemma BeginKeeps(s: State, x: Action)
    requires Inv(s) && x.Begin? && Enabled(s, x)
    ensures Inv(Next(s, x))
  {
    hide Ops;
    var s' := Next(s, x);
    var last := s.sessions[x.sid].last;
    assert s.nodes[last..] == s.nodes[last..|s.nodes|];
    forall t | 0 <= t < |s'.pcs| ensures InFlight(s', s'.pcs[t]) {
      assert InFlight(s, s.pcs[t]);
    }
  }

  lemma AcceptKeeps(s: State, x: Action)
    requires Inv(s) && x.Accept? && Enabled(s, x)
    ensures Inv(Next(s, x))
  {
    hide Ops;
    var s' := Next(s, x);
    var sid, r := s.pcs[x.t].sid, s.pcs[x.t].request;
    var y := s.sessions[sid];
    assert InFlight(s, s.pcs[x.t]) && UpToDate(s.nodes, y);
    assert s.nodes[y.start..r.upTo] == s.nodes[y.start..y.last] + s.nodes[y.last..r.upTo];
    OpsAppend(s.nodes[y.start..y.last], s.nodes[y.last..r.upTo]);
    forall t | 0 <= t < |s'.pcs| ensures InFlight(s', s'.pcs[t]) {
      assert InFlight(s, s.pcs[t]);
    }
  }

  lemma InvNext(s: State, x: Action)
    requires Inv(s) && Enabled(s, x)
    ensures Inv(Next(s, x))
  {
    match x {
      case Grow(more) => GrowKeeps(s, more);
      case Begin(_, _) => BeginKeeps(s, x);
      case Accept(_) => AcceptKeeps(s, x);
      case _ =>
        assert s.nodes[0..0] == [] && s.nodes[|s.nodes|..|s.nodes|] == [];
        forall t | 0 <= t < |Next(s, x).pcs| ensures InFlight(Next(s, x), Next(s, x).pcs[t]) {
          assert InFlight(s, s.pcs[t]);
        }
    }
  }

  lemma {:induction false} RunInv(ss: seq<State>, xs: seq<Action>, k: nat)
    requires IsRun(ss, xs) && k < |ss|
    ensures Inv(ss[k])
  {
    if k > 0 {
      RunInv(ss, xs, k - 1);
      assert Enabled(ss[k - 1], xs[k - 1]);
      InvNext(ss[k - 1], xs[k - 1]);
    }
  }

  /**
   In every run the payloads that a session accepted are, put together, exactly the op nodes with
   ids from the session's start up to its counter, in id order and each once.
   */
  lemma SentExactly(ss: seq<State>, xs: seq<Action>, k: nat, sid: nat)
    requires IsRun(ss, xs) && k < |ss| && sid < |ss[k].sessions|
    ensures var x := ss[k].sessions[sid]; x.start <= x.last <= |ss[k].nodes| && x.sent == Ops(ss[k].nodes[x.start..x.last])
  {
    RunInv(ss, xs, k);
    assert UpToDate(ss[k].nodes, ss[k].sessions[sid]);
  }

  /**
   A new session has been sent all op nodes below its counter, one that was loaded with its graph those that
   were added after it was loaded.
   */
  lemma SentSince(ss: seq<State>, xs: seq<Action>, i: nat, k: nat)
    requires IsRun(ss, xs) && i < k < |ss| && (xs[i].NewSession? || xs[i].LoadSession?)
    ensures |ss[i].sessions| < |ss[k].sessions|
    ensures var x, since := ss[k].sessions[|ss[i].sessions|], if xs[i].NewSession? then 0 else |ss[i].nodes|;
            since <= x.last <= |ss[k].nodes| && x.sent == Ops(ss[k].nodes[since..x.last])
  {
    hide Ops, Inv;
    assert Enabled(ss[i], xs[i]);
    RunGrows(ss, xs, i + 1, k);
    SentExactly(ss, xs, k, |ss[i].sessions|);
  }

  // ----- nothing that a successful call saw is missing

  ghost predicate Later(s: State, s': State) {
    && s.nodes <= s'.nodes && |s.sessions| <= |s'.sessions|
    && forall i :: 0 <= i < |s.sessions| ==>
         s'.sessions[i].start == s.sessions[i].start && s.sessions[i].last <= s'.sessions[i].last
  }

  lemma LaterNext(s: State, x: Action)
    requires Inv(s) && Enabled(s, x)
    ensures Later(s, Next(s, x))
  {
    if x.Accept? {
      assert InFlight(s, s.pcs[x.t]);
    }
  }

  /** The graph and all counters only grow. */
  lemma {:induction false} RunGrows(ss: seq<State>, xs: seq<Action>, i: nat, j: nat)
    requires IsRun(ss, xs) && i <= j < |ss|
    ensures Later(ss[i], ss[j])
  {
    if i < j {
      RunGrows(ss, xs, i, j - 1);
      RunInv(ss, xs, j - 1);
      assert Enabled(ss[j - 1], xs[j - 1]);
      LaterNext(ss[j - 1], xs[j - 1]);
    }
  }

  /** The call that thread `t` began at step `i` succeeds at step `j`, or had nothing to send. */
  ghost predicate Succeeds(ss: seq<State>, xs: seq<Action>, i: nat, j: nat, t: nat, sid: nat)
    requires IsRun(ss, xs) && i < |xs|
  {
    && xs[i] == Begin(t, sid)
    && ((i == j && ss[i + 1] == ss[i]) ||
        (i < j < |xs| && ss[i + 1] != ss[i] && xs[j] == Accept(t)
         && forall k :: i < k < j ==> xs[k] != Accept(t) && xs[k] != Refuse(t)))
  }

  lemma {:induction false} RequestLasts(ss: seq<State>, xs: seq<Action>, i: nat, j: nat, t: nat, sid: nat)
    requires IsRun(ss, xs) && i < j < |ss| && xs[i] == Begin(t, sid) && ss[i + 1] != ss[i]
    requires forall k :: i < k < j ==> xs[k] != Accept(t) && xs[k] != Refuse(t)
    ensures t < |ss[j].pcs| && ss[j].pcs[t].Extending? && ss[j].pcs[t].sid == sid
    ensures ss[j].pcs[t].request.upTo == |ss[i].nodes|
  {
    hide Ops;
    assert Enabled(ss[i], xs[i]);
    if j > i + 1 {
      RequestLasts(ss, xs, i, j - 1, t, sid);
      assert Enabled(ss[j - 1], xs[j - 1]);
    }
  }

  /**
   Once a call has succeeded, and ever after, the session has been sent every op node that was in
   the graph when the call took the graph's lock.
   */
  lemma SeenIsSent(ss: seq<State>, xs: seq<Action>, i: nat, j: nat, k: nat, t: nat, sid: nat)
    requires IsRun(ss, xs) && i < |xs| && Succeeds(ss, xs, i, j, t, sid) && j < k < |ss|
    ensures sid < |ss[i].sessions| && sid < |ss[k].sessions|
    ensures var x := ss[k].sessions[sid];
            x.start <= |ss[i].nodes| <= x.last && Ops(ss[i].nodes[x.start..]) <= x.sent
  {
    hide Ops;
    assert Enabled(ss[i], xs[i]);
    RunInv(ss, xs, i);
    assert UpToDate(ss[i].nodes, ss[i].sessions[sid]);
    RunGrows(ss, xs, i, k);
    if i < j {
      RequestLasts(ss, xs, i, j, t, sid);
      assert Enabled(ss[j], xs[j]);
      RunGrows(ss, xs, j + 1, k);
    }
    SentExactly(ss, xs, k, sid);
    var x, n := ss[k].sessions[sid], |ss[i].nodes|;
    assert x.last >= n;
    assert ss[k].nodes[x.start..x.last] == ss[i].nodes[x.start..] + ss[k].nodes[n..x.last];
    OpsAppend(ss[i].nodes[x.start..], ss[k].nodes[n..x.last]);
  }
}
