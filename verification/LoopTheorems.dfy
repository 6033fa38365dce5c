/**
 What a lowered while loop computes, for every schedule: the values of the source loop.
 The theorems compose: a lowered loop is again a graph that computes values and stays dead
 when its inputs are dead, so it may itself be part of a loop body.
 */
module LoopTheorems {
  import opened Dataflow
  import opened Splices
  import opened WhileLoops

  ghost predicate InputsDenote<N(!new)>(lp: Loop<N>, p: Machine<N>, vs: seq<Value>)
    requires |vs| == |lp.inputs|
  {
    forall i :: 0 <= i < |lp.inputs| ==> Denotes(p, lp.inputs[i], vs[i])
  }

  /** A body that is not entered puts out nothing live. */
  ghost predicate StopsDead<N(!new)>(lp: Loop<N>, kernels: Kernels)
    requires WellBuilt(lp)
  {
    LeavesBehind(lp, kernels, Deads(|lp.inputs|))
  }

  /** A loop with its meaning: the conditions under which it is known to behave. */
  ghost predicate Runs<N(!new)>(lp: Loop<N>, p: Machine<N>, big: Machine<N>, vals: seq<seq<Value>>) {
    && Shaped(lp) && |vals| > 0 && (forall k :: 0 <= k < |vals| ==> |vals[k]| == |lp.inputs|)
    && Lowered(lp, p, big) && Iterates(lp, big.kernels, vals) && StopsDead(lp, big.kernels)
    && InputsDenote(lp, p, vals[0])
  }

  lemma InstanceValid<N(!new)>(lp: Loop<N>, p: Machine<N>, big: Machine<N>, vals: seq<seq<Value>>)
    requires Runs(lp, p, big, vals)
    ensures Instance(lp, p, big, vals, Deads(|lp.inputs|)).Valid()
  {
    forall i | 0 <= i < |lp.inputs|
      ensures Denotes(big, lp.inputs[i], vals[0][i])
    {
      DenotesExtends(big, p, lp.inputs[i], vals[0][i]);
    }
  }

  lemma InvariantHolds<N(!new)>(it: Instance<N>, s: State<N>) returns (wc: seq<State<N>>, wb: seq<State<N>>)
    requires it.Valid() && Reachable(it.big, s)
    requires it.Contained(s) || forall i :: 0 <= i < |it.stop| ==> it.stop[i].Dead?
    ensures it.Invariant(s, wc, wb)
  {
    hide Site.Simulates, Denotes, Iterates, StopsDead, LeavesBehind, Lowered, Instance.EntriesOk;
    var run :| IsRun(it.big, run) && run[|run|-1] == s;
    wc, wb := RunInvariant(it, run);
  }

  lemma LoopSafe<N(!new)>(it: Instance<N>, s: State<N>, i: nat, ctx: Ctx, t: Token)
    requires it.Valid() && Reachable(it.big, s) && i < |it.lp.inputs| && it.stop == Deads(|it.lp.inputs|)
    requires Delivered(it.big, s, Ref(it.lp.exit[i], 0), ctx, t)
    ensures ctx == Root && t == Live(it.vals[|it.vals|-1][i])
  {
    hide Iterates, StopsDead, LeavesBehind, Lowered, Instance.EntriesOk, Reachable, Delivered, SplicedOn, Site.Simulates;
    var wc, wb := InvariantHolds(it, s);
    ExitToken(it, s, i, ctx, t);
  }

  lemma LoopLive<N(!new)>(it: Instance<N>, s: State<N>, i: nat)
    requires it.Valid() && Reachable(it.big, s) && Quiescent(it.big, s) && i < |it.lp.inputs|
    requires it.stop == Deads(|it.lp.inputs|)
    ensures Delivered(it.big, s, Ref(it.lp.exit[i], 0), Root, Live(it.vals[|it.vals|-1][i]))
  {
    hide Iterates, StopsDead, LeavesBehind, Lowered, Instance.EntriesOk, Quiescent, Reachable, Delivered, SplicedOn, Site.Simulates;
    var wc, wb := InvariantHolds(it, s);
    IterationRan(it, s, wc, wb, |it.vals| - 1);
    ExitRan(it, s, i);
  }

  /**
   The loop computes what the source loop computes: under every schedule the only token that
   can leave through Exit `i` is the last value of loop variable `i`, and it has left when
   nothing is left to run.
   */
  lemma LoopComputes<N(!new)>(lp: Loop<N>, p: Machine<N>, big: Machine<N>, vals: seq<seq<Value>>, i: nat)
    requires Runs(lp, p, big, vals) && i < |lp.inputs|
    ensures Denotes(big, Ref(lp.exit[i], 0), vals[|vals|-1][i])
  {
    hide Iterates, StopsDead, LeavesBehind, Lowered, Quiescent, Reachable, Delivered, InputsDenote, Instance.Valid;
    var it, r, v := Instance(lp, p, big, vals, Deads(|lp.inputs|)), Ref(lp.exit[i], 0), vals[|vals|-1][i];
    InstanceValid(lp, p, big, vals);
    forall s, ctx, t | Reachable(big, s) && Delivered(big, s, r, ctx, t)
      ensures ctx == Root && t == Live(v)
    {
      LoopSafe(it, s, i, ctx, t);
    }
    forall s | Reachable(big, s) && Quiescent(big, s)
      ensures Delivered(big, s, r, Root, Live(v))
    {
      LoopLive(it, s, i);
    }
  }

  lemma ExitToken<N(!new)>(it: Instance<N>, s: State<N>, i: nat, ctx: Ctx, t: Token)
    requires it.Placed() && it.EntriesOk(s) && i < |it.lp.inputs|
    requires Delivered(it.big, s, Ref(it.lp.exit[i], 0), ctx, t)
    ensures ctx == Root && t == Live(it.vals[|it.vals|-1][i])
  {
    hide WellBuilt, Lowered, SplicedOn, Instance.EntriesOk;
    RoleNode(it, IsExit(i));
    var n := it.lp.exit[i];
    var at :| At(n, at) in s && Reaches(Exit, at, s[At(n, at)], ctx) && t == Output(it.big.kernels, Exit, s[At(n, at)], 0);
    Entry(it, s, IsExit(i), at);
  }

  /**
   Iteration by iteration: the only token that Merge `i` can put out is, in iteration `k`, the
   value of variable `i` after `k` rounds of the body, and every iteration up to the one where
   the condition fails takes place.
   */
  lemma MergeCarries<N(!new)>(lp: Loop<N>, p: Machine<N>, big: Machine<N>, vals: seq<seq<Value>>, s: State<N>, i: nat)
    requires Runs(lp, p, big, vals) && Reachable(big, s) && i < |lp.inputs|
    ensures forall x, t :: Delivered(big, s, Ref(lp.merge[i], 0), x, t) ==>
              x.Frame? && x.parent == Root && x.frame == lp.frame && x.iter < |vals| && t == Live(vals[x.iter][i])
    ensures Quiescent(big, s) ==>
              forall k :: 0 <= k < |vals| ==>
                Delivered(big, s, Ref(lp.merge[i], 0), Frame(Root, lp.frame, k), Live(vals[k][i]))
  {
    hide Iterates, StopsDead, LeavesBehind, Lowered, Instance.EntriesOk, Quiescent, Reachable, Delivered, InputsDenote, SplicedOn;
    var it, r := Instance(lp, p, big, vals, Deads(|lp.inputs|)), Ref(lp.merge[i], 0);
    InstanceValid(lp, p, big, vals);
    var wc, wb := InvariantHolds(it, s);
    RoleNode(it, IsMerge(i));
    forall x, t | Delivered(big, s, r, x, t)
      ensures it.IsBase(x) && t == Live(vals[x.iter][i])
    {
      RanHere(big, s, r, x, t);
      CondInput(it, s, i, x);
    }
    if Quiescent(big, s) {
      forall k | 0 <= k < |vals|
        ensures Delivered(big, s, r, Frame(Root, lp.frame, k), Live(vals[k][i]))
      {
        IterationRan(it, s, wc, wb, k);
        CondInput(it, s, i, Frame(Root, lp.frame, k));
        RanHere(big, s, r, Frame(Root, lp.frame, k), Live(vals[k][i]));
      }
    }
  }

  // ----- every output of the two copies

  /**
   Substitution for the condition: in iteration `k`, whatever output of the copy is read carries what
   the source graph denotes with its inputs bound to the loop variables of that iteration.
   */
  lemma CondOutput<N(!new)>(it: Instance<N>, s: State<N>, r: Ref<N>, vs: seq<Value>)
    requires it.Valid() && Reachable(it.big, s) && it.stop == Deads(|it.lp.inputs|) && Readable(it.lp.cond, r)
    requires |vs| == |it.vals|
    requires forall k :: 0 <= k < |vs| ==> Denotes(CondMachine(it.lp, it.big.kernels, it.vals[k]), r, vs[k])
    ensures forall x, t :: Delivered(it.big, s, Remap(it.lp.cond, r), x, t) ==> it.IsBase(x) && t == Live(vs[x.iter])
    ensures Quiescent(it.big, s) ==> forall k :: 0 <= k < |vs| ==>
              Delivered(it.big, s, Remap(it.lp.cond, r), Frame(Root, it.lp.frame, k), Live(vs[k]))
  {
    hide Site.Valid, Site.Fed, Site.Simulates, Instance.EntriesOk, Delivered, FeedMap, Quiescent, Lowered, SplicedOn,
         Iterates, LeavesBehind;
    var wc, wb := InvariantHolds(it, s);
    var site := it.CondSite();
    CondSiteValid(it);
    CondFed(it, s);
    CondSource(it, 0);
    SourceReachable(site, s, wc);
    forall x, t | Delivered(it.big, s, Remap(it.lp.cond, r), x, t)
      ensures it.IsBase(x) && t == Live(vs[x.iter])
    {
      CopyDelivers(site, s, wc, r, x, t);
      CondSource(it, Outer(x).iter);
      EmbedInner(x);
    }
    if Quiescent(it.big, s) {
      forall k | 0 <= k < |vs|
        ensures Delivered(it.big, s, Remap(it.lp.cond, r), Frame(Root, it.lp.frame, k), Live(vs[k]))
      {
        IterationRan(it, s, wc, wb, k);
        CondRests(it, s, wc, k);
        CondSource(it, k);
        SourceDelivers(site, s, wc, r, k, Root, Live(vs[k]));
      }
    }
  }

  /** The same for the body; in the last iteration its inputs are dead. */
  lemma BodyOutput<N(!new)>(it: Instance<N>, s: State<N>, r: Ref<N>, ts: seq<Token>)
    requires it.Valid() && Reachable(it.big, s) && it.stop == Deads(|it.lp.inputs|) && Readable(it.lp.body, r)
    requires |ts| == |it.vals|
    requires forall k :: 0 <= k < |ts| ==>
               var m := BodyMachine(it.lp, it.big.kernels, it.BodyTokens(k));
               if ts[k].Live? then Denotes(m, r, ts[k].v) else NeverLive(m, r)
    ensures forall x, t :: Delivered(it.big, s, Remap(it.lp.body, r), x, t) ==>
              x.Frame? && it.IsBase(Outer(x)) && t == ts[Outer(x).iter] && (t.Live? ==> x == Outer(x))
    ensures Quiescent(it.big, s) ==> forall k :: 0 <= k < |ts| && ts[k].Live? ==>
              Delivered(it.big, s, Remap(it.lp.body, r), Frame(Root, it.lp.frame, k), ts[k])
  {
    hide Site.Valid, Site.Fed, Site.Simulates, Instance.EntriesOk, Delivered, FeedMap, Quiescent, Lowered, SplicedOn,
         Iterates, LeavesBehind;
    var wc, wb := InvariantHolds(it, s);
    var site := it.BodySite();
    BodySiteValid(it);
    BodyFed(it, s);
    BodySource(it, 0);
    SourceReachable(site, s, wb);
    forall x, t | Delivered(it.big, s, Remap(it.lp.body, r), x, t)
      ensures x.Frame? && it.IsBase(Outer(x)) && t == ts[Outer(x).iter] && (t.Live? ==> x == Outer(x))
    {
      CopyDelivers(site, s, wb, r, x, t);
      BodySource(it, Outer(x).iter);
      EmbedInner(x);
    }
    if Quiescent(it.big, s) {
      forall k | 0 <= k < |ts| && ts[k].Live?
        ensures Delivered(it.big, s, Remap(it.lp.body, r), Frame(Root, it.lp.frame, k), ts[k])
      {
        IterationRan(it, s, wc, wb, k);
        BodyRests(it, s, wb, k);
        BodySource(it, k);
        SourceDelivers(site, s, wb, r, k, Root, ts[k]);
      }
    }
  }

  lemma CondRests<N(!new)>(it: Instance<N>, s: State<N>, wc: seq<State<N>>, k: nat)
    requires it.Valid() && it.EntriesOk(s) && it.CondSite().Simulates(s, wc) && Quiescent(it.big, s) && k < |it.vals|
    requires forall i :: 0 <= i < |it.lp.inputs| ==> At(it.lp.merge[i], Frame(Root, it.lp.frame, k)) in s
    ensures k < |it.CondSite().feeds| && k < |wc| && Quiescent(it.CondSite().Source(k), wc[k])
  {
    hide Site.Valid, Site.Fed, Site.Simulates, Instance.EntriesOk, Delivered, FeedMap, Quiescent, Lowered, WellFormed, LeavesBehind;
    var site := it.CondSite();
    CondSiteValid(it);
    CondFed(it, s);
    CondSource(it, k);
    SourceReachable(site, s, wc);
    forall r | r in it.lp.cond.inputMap
      ensures At(it.lp.cond.inputMap[r].node, site.Base(k)) in s
    {
      var i :| 0 <= i < |it.lp.condIn| && it.lp.condIn[i] == r.node;
      assert r == Ref(it.lp.condIn[i], 0);
    }
    SourceQuiescent(site, s, wc, k);
  }

  lemma BodyRests<N(!new)>(it: Instance<N>, s: State<N>, wb: seq<State<N>>, k: nat)
    requires it.Valid() && it.EntriesOk(s) && it.BodySite().Simulates(s, wb) && Quiescent(it.big, s) && k < |it.vals|
    requires forall i :: 0 <= i < |it.lp.inputs| ==> At(it.lp.switch[i], Frame(Root, it.lp.frame, k)) in s
    ensures k < |it.BodySite().feeds| && k < |wb| && Quiescent(it.BodySite().Source(k), wb[k])
  {
    hide Site.Valid, Site.Fed, Site.Simulates, Instance.EntriesOk, Delivered, FeedMap, Quiescent, Lowered, WellFormed, LeavesBehind;
    var site := it.BodySite();
    BodySiteValid(it);
    BodyFed(it, s);
    BodySource(it, k);
    SourceReachable(site, s, wb);
    forall r | r in it.lp.body.inputMap
      ensures At(it.lp.body.inputMap[r].node, site.Base(k)) in s
    {
      var i :| 0 <= i < |it.lp.bodyIn| && it.lp.bodyIn[i] == r.node;
      assert r == Ref(it.lp.bodyIn[i], 0);
    }
    SourceQuiescent(site, s, wb, k);
  }

  /** No node of the loop runs in an iteration after the one where the condition fails. */
  lemma LoopStops<N(!new)>(lp: Loop<N>, p: Machine<N>, big: Machine<N>, vals: seq<seq<Value>>, s: State<N>,
                           role: Role<N>, x: Ctx)
    requires Runs(lp, p, big, vals) && Reachable(big, s) && RoleOk(lp, role)
    requires At(NameOf(lp, role), x) in s
    ensures if role.IsEnter? then x == Root else x.Frame? && Outer(x).frame == lp.frame && Outer(x).iter < |vals|
  {
    hide Iterates, StopsDead, LeavesBehind, Reachable, Denotes, Delivered, Lowered, WellBuilt, SplicedOn, Instance.EntriesOk;
    var it := Instance(lp, p, big, vals, Deads(|lp.inputs|));
    InstanceValid(lp, p, big, vals);
    var wc, wb := InvariantHolds(it, s);
    Entry(it, s, role, x);
  }

  /** A loop whose body puts out a live value without being entered does not rest in its last iteration. */
  lemma RestsOutside<N(!new)>(it: Instance<N>, s: State<N>, j: nat)
    requires it.Valid() && Reachable(it.big, s) && Quiescent(it.big, s)
    requires j < |it.lp.inputs| && it.stop[j].Live?
    ensures !it.Contained(s)
  {
    hide Iterates, LeavesBehind, Lowered, WellBuilt, Instance.EntriesOk, Quiescent, Reachable, Delivered, SplicedOn, Site.Simulates, Denotes;
    if it.Contained(s) {
      var wc, wb := InvariantHolds(it, s);
      var last := |it.vals| - 1;
      IterationRan(it, s, wc, wb, last);
      BodyArrived(it, s, wc, wb, j, last);
      NextRan(it, s, j, last);
      MergeRan(it, s, j, last + 1);
    }
  }

  // ----- loops that are not entered, or not with all variables

  /** Every input of a loop node comes from the loop or is one of its inputs. */
  lemma LoopReads<N(!new)>(lp: Loop<N>, role: Role<N>, j: nat)
    requires WellBuilt(lp) && RoleOk(lp, role) && j < |NodeOf(lp, role).inputs|
    ensures if role.IsEnter? then NodeOf(lp, role).inputs[j] in lp.inputs else NodeOf(lp, role).inputs[j].node in lp.roles
  {
    hide SplicedOn;
    match role {
      case IsEnter(i) =>
      case IsMerge(i) =>
        assert NameOf(lp, IsEnter(i)) in lp.roles && NameOf(lp, IsNext(i)) in lp.roles;
      case IsSwitch(i) =>
        assert NameOf(lp, IsMerge(i)) in lp.roles;
        CondReads(lp, lp.condOut);
      case IsNext(i) =>
        BodyReads(lp, lp.bodyOut[i]);
      case IsExit(i) =>
        assert NameOf(lp, IsSwitch(i)) in lp.roles;
      case InCond(n) => CondCopyReads(lp, n, j);
      case InBody(n) => BodyCopyReads(lp, n, j);
    }
  }

  lemma CondCopyReads<N(!new)>(lp: Loop<N>, n: N, j: nat)
    requires WellBuilt(lp) && n in lp.cond.src && j < |CopyNode(lp.cond, lp.cond.src[n]).inputs|
    ensures CopyNode(lp.cond, lp.cond.src[n]).inputs[j].node in lp.roles
  {
    assert RoleOk(lp, IsMerge(0)) && NameOf(lp, IsMerge(0)) in lp.roles;
    if j < |lp.cond.src[n].inputs| {
      CondReads(lp, lp.cond.src[n].inputs[j]);
    }
  }

  lemma BodyCopyReads<N(!new)>(lp: Loop<N>, n: N, j: nat)
    requires WellBuilt(lp) && n in lp.body.src && j < |CopyNode(lp.body, lp.body.src[n]).inputs|
    ensures CopyNode(lp.body, lp.body.src[n]).inputs[j].node in lp.roles
  {
    assert RoleOk(lp, IsSwitch(0)) && NameOf(lp, IsSwitch(0)) in lp.roles;
    if j < |lp.body.src[n].inputs| {
      BodyReads(lp, lp.body.src[n].inputs[j]);
    }
  }

  /** The role of the node from which a copied condition reads `r`. */
  lemma CondReads<N(!new)>(lp: Loop<N>, r: Ref<N>)
    requires WellBuilt(lp) && Readable(lp.cond, r)
    ensures Remap(lp.cond, r).node in lp.roles
    ensures r !in lp.cond.inputMap ==> lp.roles[Remap(lp.cond, r).node] == InCond(r.node)
    ensures forall i :: 0 <= i < |lp.condIn| && r == Ref(lp.condIn[i], 0) ==> lp.roles[Remap(lp.cond, r).node] == IsMerge(i)
  {
    if r in lp.cond.inputMap {
      var i :| 0 <= i < |lp.condIn| && lp.condIn[i] == r.node;
      assert r == Ref(lp.condIn[i], 0) && NameOf(lp, IsMerge(i)) in lp.roles;
    } else {
      assert NameOf(lp, InCond(r.node)) in lp.roles;
    }
  }

  lemma BodyReads<N(!new)>(lp: Loop<N>, r: Ref<N>)
    requires WellBuilt(lp) && Readable(lp.body, r)
    ensures Remap(lp.body, r).node in lp.roles
    ensures r !in lp.body.inputMap ==> lp.roles[Remap(lp.body, r).node] == InBody(r.node)
    ensures forall i :: 0 <= i < |lp.bodyIn| && r == Ref(lp.bodyIn[i], 0) ==> lp.roles[Remap(lp.body, r).node] == IsSwitch(i)
  {
    if r in lp.body.inputMap {
      var i :| 0 <= i < |lp.bodyIn| && lp.bodyIn[i] == r.node;
      assert r == Ref(lp.bodyIn[i], 0) && NameOf(lp, IsSwitch(i)) in lp.roles;
    } else {
      assert NameOf(lp, InBody(r.node)) in lp.roles;
    }
  }

  /** Every loop node has an input, and none of them is fed. */
  lemma LoopNode<N(!new)>(lp: Loop<N>, p: Machine<N>, big: Machine<N>, n: N)
    requires Lowered(lp, p, big) && n in lp.roles
    ensures WellBuilt(lp) && Shaped(lp) && NameOf(lp, lp.roles[n]) == n
    ensures RoleOk(lp, lp.roles[n]) && n in big.graph && big.graph[n] == NodeOf(lp, lp.roles[n])
    ensures big.graph[n].inputs != [] && n !in big.feeds
  {
    hide SplicedOn;
  }

  /** `r` is read from a node whose role is in `dead`. */
  predicate DeadRead<N(!new)>(lp: Loop<N>, dead: set<Role<N>>, r: Ref<N>) {
    r.node in lp.roles && lp.roles[r.node] in dead
  }

  /**
   Why a node with this role stays dead: a Merge because all its data inputs do, any other node because one
   of its inputs does.  An Enter node stays dead because of its loop input.
   */
  ghost predicate DeadReason<N(!new)>(lp: Loop<N>, dead: set<Role<N>>, role: Role<N>)
    requires Shaped(lp) && RoleOk(lp, role)
  {
    var node := NodeOf(lp, role);
    role.IsEnter? || node.op.Placeholder? ||
    if node.op.Merge?
    then forall j :: 0 <= j < |node.inputs| && node.inputs[j].slot != CONTROL_SLOT ==> DeadRead(lp, dead, node.inputs[j])
    else exists j :: 0 <= j < |node.inputs| && DeadRead(lp, dead, node.inputs[j])
  }

  /** A set of roles each of which stays dead because of others in the set. */
  ghost predicate Consistent<N(!new)>(lp: Loop<N>, dead: set<Role<N>>)
    requires Shaped(lp)
  {
    forall role :: role in dead ==> RoleOk(lp, role) && DeadReason(lp, dead, role)
  }

  /** The dead roles include Enter nodes for never-live inputs only. */
  ghost predicate DeadStarts<N(!new)>(lp: Loop<N>, dead: set<Role<N>>, m: Machine<N>) {
    forall i :: 0 <= i < |lp.inputs| && IsEnter(i) in dead ==> NeverLive(m, lp.inputs[i])
  }

  ghost predicate NoneFired<N(!new)>(lp: Loop<N>, dead: set<Role<N>>, s: State<N>) {
    forall f :: f in s && f.node in lp.roles && lp.roles[f.node] in dead ==> s[f].Skipped?
  }

  lemma DeadToken<N(!new)>(lp: Loop<N>, dead: set<Role<N>>, m: Machine<N>, s: State<N>, r: Ref<N>, x: Ctx, t: Token)
    requires NoneFired(lp, dead, s) && DeadRead(lp, dead, r) && Delivered(m, s, r, x, t)
    ensures t == Dead
  {
  }

  lemma DeadStep<N(!new)>(lp: Loop<N>, p: Machine<N>, big: Machine<N>, dead: set<Role<N>>, s: State<N>, n: N, x: Ctx, out: Outcome)
    requires Lowered(lp, p, big) && n in lp.roles && lp.roles[n] in dead && Consistent(lp, dead) && NoneFired(lp, dead, s)
    requires forall i, ctx, v :: 0 <= i < |lp.inputs| && IsEnter(i) in dead ==> !Delivered(big, s, lp.inputs[i], ctx, Live(v))
    requires n in big.graph && CanFire(big, s, n, x, out)
    ensures out.Skipped?
  {
    hide Lowered, WellBuilt, NoneFired, Delivered, DeadRead;
    LoopNode(lp, p, big, n);
    var role, node := lp.roles[n], big.graph[n];
    assert DeadReason(lp, dead, role);
    if node.op.Merge? {
      DeadMerge(lp, dead, big, s, node.inputs, x, out);
    } else if !node.op.Placeholder? {
      var ts: seq<Token> :| NodeFires(big, s, node, x, ts, out);
      if role.IsEnter? {
        assert Delivered(big, s, node.inputs[0], x, ts[0]) && node.inputs[0] == lp.inputs[role.i];
        assert ts[0] in ts && (ts[0].Live? ==> ts[0] == Live(ts[0].v));
      } else {
        var j :| 0 <= j < |node.inputs| && DeadRead(lp, dead, node.inputs[j]);
        assert Delivered(big, s, node.inputs[j], x, ts[j]);
        DeadToken(lp, dead, big, s, node.inputs[j], x, ts[j]);
        assert ts[j] in ts;
      }
    }
  }

  lemma DeadMerge<N(!new)>(lp: Loop<N>, dead: set<Role<N>>, m: Machine<N>, s: State<N>, refs: seq<Ref<N>>, x: Ctx, out: Outcome)
    requires NoneFired(lp, dead, s) && MergeFires(m, s, refs, x, out)
    requires forall j :: 0 <= j < |refs| && refs[j].slot != CONTROL_SLOT ==> DeadRead(lp, dead, refs[j])
    ensures out.Skipped?
  {
    hide NoneFired, DeadRead, Delivered;
    if out.Fired? {
      var j := out.args[1].i;
      DeadToken(lp, dead, m, s, refs[j], x, Live(out.args[0]));
    }
  }

  lemma {:induction false} DeadRun<N(!new)>(lp: Loop<N>, p: Machine<N>, big: Machine<N>, dead: set<Role<N>>, run: seq<State<N>>)
    requires Lowered(lp, p, big) && Consistent(lp, dead) && DeadStarts(lp, dead, big) && IsRun(big, run)
    ensures NoneFired(lp, dead, run[|run|-1])
    decreases |run|
  {
    hide Lowered, Delivered, CanFire, Consistent;
    if |run| > 1 {
      RunPrefix(big, run);
      DeadRun(lp, p, big, dead, run[..|run|-1]);
      var s, s' := run[|run|-2], run[|run|-1];
      assert Reachable(big, s) by { assert run[..|run|-1][|run|-2] == s; }
      var n, x, out :| Fires(big, s, n, x, out, s');
      if n in lp.roles && lp.roles[n] in dead {
        DeadStep(lp, p, big, dead, s, n, x, out);
      }
    }
  }

  lemma DeadStartsExtend<N(!new)>(lp: Loop<N>, p: Machine<N>, big: Machine<N>, dead: set<Role<N>>)
    requires Lowered(lp, p, big) && DeadStarts(lp, dead, p)
    ensures DeadStarts(lp, dead, big)
  {
    hide NeverLive, WellBuilt;
    forall j | 0 <= j < |lp.inputs| && IsEnter(j) in dead
      ensures NeverLive(big, lp.inputs[j])
    {
      NeverLiveExtends(big, p, lp.inputs[j]);
    }
  }

  /** The outputs of a loop that belong to variables which stay dead never let a live value out. */
  lemma LoopStaysDead<N(!new)>(lp: Loop<N>, p: Machine<N>, big: Machine<N>, dead: set<Role<N>>, i: nat)
    requires Lowered(lp, p, big) && Consistent(lp, dead) && DeadStarts(lp, dead, p) && i < |lp.inputs| && IsExit(i) in dead
    ensures NeverLive(big, Ref(lp.exit[i], 0))
  {
    hide Consistent, DeadStarts, Lowered, Delivered, NoneFired;
    DeadStartsExtend(lp, p, big, dead);
    ExitIsDead(lp, p, big, dead, i);
    forall s, ctx, v | Reachable(big, s)
      ensures !Delivered(big, s, Ref(lp.exit[i], 0), ctx, Live(v))
    {
      var run :| IsRun(big, run) && run[|run|-1] == s;
      DeadRun(lp, p, big, dead, run);
      if Delivered(big, s, Ref(lp.exit[i], 0), ctx, Live(v)) {
        DeadToken(lp, dead, big, s, Ref(lp.exit[i], 0), ctx, Live(v));
      }
    }
  }

  lemma ExitIsDead<N(!new)>(lp: Loop<N>, p: Machine<N>, big: Machine<N>, dead: set<Role<N>>, i: nat)
    requires Lowered(lp, p, big) && i < |lp.inputs| && IsExit(i) in dead
    ensures i < |lp.exit| && DeadRead(lp, dead, Ref(lp.exit[i], 0))
  {
    hide SplicedOn;
    assert NameOf(lp, IsExit(i)) in lp.roles && lp.roles[lp.exit[i]] == IsExit(i);
  }

  function EveryRole<N(!new, ==)>(lp: Loop<N>): set<Role<N>> {
    set n | n in lp.roles :: lp.roles[n]
  }

  /** If no input becomes live, everything in the loop stays dead. */
  lemma EveryRoleConsistent<N(!new)>(lp: Loop<N>, p: Machine<N>, big: Machine<N>)
    requires Lowered(lp, p, big)
    ensures WellBuilt(lp) && Consistent(lp, EveryRole(lp))
  {
    hide SplicedOn, DeadReason;
    forall n | n in lp.roles
      ensures RoleOk(lp, lp.roles[n]) && DeadReason(lp, EveryRole(lp), lp.roles[n])
    {
      AnyRoleDead(lp, p, big, n);
    }
  }

  lemma AnyRoleDead<N(!new)>(lp: Loop<N>, p: Machine<N>, big: Machine<N>, n: N)
    requires Lowered(lp, p, big) && n in lp.roles
    ensures Shaped(lp) && RoleOk(lp, lp.roles[n]) && DeadReason(lp, EveryRole(lp), lp.roles[n])
  {
    hide Lowered, WellBuilt, NodeOf;
    LoopNode(lp, p, big, n);
    var role, node := lp.roles[n], big.graph[n];
    if !role.IsEnter? {
      forall j | 0 <= j < |node.inputs|
        ensures DeadRead(lp, EveryRole(lp), node.inputs[j])
      {
        LoopReads(lp, role, j);
      }
      assert DeadRead(lp, EveryRole(lp), node.inputs[0]);
    }
  }
}
