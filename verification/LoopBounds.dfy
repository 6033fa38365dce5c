/**
 Which activations a graph with a lowered loop can reach, and what follows from there being
 finitely many: a loop whose source stops comes to rest, and a loop whose body puts out live
 values without being entered cannot be kept from running on.
 */
module LoopBounds {
  import opened Dataflow
  import opened Splices
  import opened WhileLoops
  import opened LoopTheorems
  import opened Levels

  /** Only the activations in the finite set `bound` ever happen. */
  ghost predicate Within<N(!new)>(m: Machine<N>, bound: set<Firing<N>>) {
    forall s :: Reachable(m, s) ==> s.Keys <= bound
  }

  /** A step adds one activation, so a run is as long as its last state is large. */
  lemma {:induction false} RunLength<N(!new)>(m: Machine<N>, run: seq<State<N>>)
    requires IsRun(m, run)
    ensures |run| == |run[|run|-1].Keys| + 1
    decreases |run|
  {
    if |run| > 1 {
      RunPrefix(m, run);
      RunLength(m, run[..|run|-1]);
      var s, s' := run[|run|-2], run[|run|-1];
      var n, x, out :| Fires(m, s, n, x, out, s');
      assert s'.Keys == s.Keys + {At(n, x)};
    }
  }

  lemma {:induction false} SubsetSize<T>(a: set<T>, b: set<T>)
    requires a <= b
    ensures |a| <= |b|
  {
    if a != {} {
      var x :| x in a;
      SubsetSize(a - {x}, b - {x});
    }
  }

  /** A run whose last state lies in `bound` is no longer than `bound` is large. */
  lemma RunBounded<N(!new)>(m: Machine<N>, bound: set<Firing<N>>, run: seq<State<N>>)
    requires IsRun(m, run) && run[|run|-1].Keys <= bound
    ensures |run| <= |bound| + 1
  {
    RunLength(m, run);
    SubsetSize(run[|run|-1].Keys, bound);
  }

  /** No run is longer than the number of possible activations. */
  lemma WithinBoundsRuns<N(!new)>(m: Machine<N>, bound: set<Firing<N>>, run: seq<State<N>>)
    requires Within(m, bound) && IsRun(m, run)
    ensures |run| <= |bound| + 1
  {
    assert Reachable(m, run[|run|-1]);
    RunBounded(m, bound, run);
  }

  /** A state that is not at rest has a next state. */
  lemma RunContinues<N(!new)>(m: Machine<N>, run: seq<State<N>>) returns (s: State<N>)
    requires IsRun(m, run) && !Quiescent(m, run[|run|-1])
    ensures IsRun(m, run + [s]) && run[|run|-1].Keys <= s.Keys && |s.Keys| == |run[|run|-1].Keys| + 1
  {
    hide CanFire;
    var last := run[|run|-1];
    var n, x, out :| n in m.graph && CanFire(m, last, n, x, out) && At(n, x) !in last;
    s := last[At(n, x) := out];
    assert Fires(m, last, n, x, out, s);
    assert Step(m, last, s);
    assert s.Keys == last.Keys + {At(n, x)};
  }

  /** Every run goes on, as long as something can fire, to a state in which nothing is left to fire. */
  lemma {:induction false} WithinRests<N(!new)>(m: Machine<N>, bound: set<Firing<N>>, run: seq<State<N>>)
    returns (longer: seq<State<N>>)
    requires Within(m, bound) && IsRun(m, run)
    ensures IsRun(m, longer) && run <= longer && Quiescent(m, longer[|longer|-1])
    decreases |bound| + 1 - |run|
  {
    hide Quiescent;
    if Quiescent(m, run[|run|-1]) {
      longer := run;
    } else {
      var s := RunContinues(m, run);
      WithinBoundsRuns(m, bound, run + [s]);
      longer := WithinRests(m, bound, run + [s]);
    }
  }

  lemma JoinSize<T>(a: set<T>, b: set<T>)
    ensures |a + b| <= |a| + |b|
  {
    assert a + b == a + (b - a);
    SubsetSize(b - a, b);
  }

  // ----- the activations of a loop

  /** The activations of a copy, one set for each iteration. */
  ghost function Copies<N(!new)>(sp: Splice<N>, frame: string, bounds: seq<set<Firing<N>>>): set<Firing<N>> {
    set k, f | 0 <= k < |bounds| && f in bounds[k] && f.node in sp.rename ::
      At(sp.rename[f.node], Embed(Frame(Root, frame, k), f.ctx))
  }

  /** The activations of the control-flow nodes in `k` iterations. */
  ghost function Controls<N(!new)>(lp: Loop<N>, k: nat): set<Firing<N>> {
    (set n | n in lp.roles :: At(n, Root)) +
    (set n, i | n in lp.roles && 0 <= i < k :: At(n, Frame(Root, lp.frame, i)))
  }

  ghost function LoopFirings<N(!new)>(lp: Loop<N>, cb: seq<set<Firing<N>>>, bb: seq<set<Firing<N>>>): set<Firing<N>> {
    Controls(lp, |cb|) + Copies(lp.cond, lp.frame, cb) + Copies(lp.body, lp.frame, bb)
  }

  /** The source graphs of the loop, as they run in each iteration, stay within these bounds. */
  ghost predicate SourcesWithin<N(!new)>(it: Instance<N>, cb: seq<set<Firing<N>>>, bb: seq<set<Firing<N>>>)
    requires it.Placed()
  {
    && |cb| == |bb| == |it.vals|
    && (forall k :: 0 <= k < |it.vals| ==> Within(CondMachine(it.lp, it.big.kernels, it.vals[k]), cb[k]))
    && (forall k :: 0 <= k < |it.vals| ==> Within(BodyMachine(it.lp, it.big.kernels, it.BodyTokens(k)), bb[k]))
  }

  lemma InControls<N(!new)>(lp: Loop<N>, k: nat, n: N, x: Ctx)
    requires n in lp.roles && (x.Root? || (x.Frame? && x.parent.Root? && x.frame == lp.frame && x.iter < k))
    ensures At(n, x) in Controls(lp, k)
  {
    if x.Frame? {
      assert x == Frame(Root, lp.frame, x.iter);
    }
  }

  /** A firing of a copy lies in the image of a bound on the source runs. */
  lemma InCopies<N(!new)>(site: Site<N>, s: State<N>, w: seq<State<N>>, bounds: seq<set<Firing<N>>>, n: N, x: Ctx)
    requires WellFormed(site.sp) && site.Simulates(s, w) && n in site.sp.src && At(site.sp.rename[n], x) in s
    requires |bounds| == |site.feeds| && forall k :: 0 <= k < |bounds| ==> Within(site.Source(k), bounds[k])
    ensures At(site.sp.rename[n], x) in Copies(site.sp, site.frame, bounds)
  {
    assert site.InRange(x) && !IsInput(site.sp, n);
    EmbedInner(x);
    var k, f := Outer(x).iter, At(n, Inner(x));
    assert Outer(x) == site.Base(k);
    assert site.Copied(k, n, Inner(x)) == At(site.sp.rename[n], x);
    assert f in w[k];
    assert Within(site.Source(k), bounds[k]);
    assert f in bounds[k];
  }

  /** NextIteration nodes run one level deep. */
  ghost predicate NextsFlat<N(!new)>(lp: Loop<N>, s: State<N>) {
    forall i, x :: 0 <= i < |lp.next| && At(lp.next[i], x) in s ==> Depth(x) == 1
  }

  lemma FlatOuter(x: Ctx)
    requires x.Frame? && Depth(x) == 1
    ensures Outer(x) == x
  {
    assert Depth(x.parent) == 0;
    if x.parent.Frame? {
      DepthPositive(x.parent);
    }
  }

  lemma {:induction false} DepthPositive(x: Ctx)
    ensures Depth(x) >= 0 && (x.Frame? ==> Depth(x) >= 1)
  {
    if x.Frame? {
      DepthPositive(x.parent);
    }
  }

  /** While the invariant of the loop holds, its nodes run within the bounds of its source graphs. */
  lemma RoleWithin<N(!new)>(it: Instance<N>, s: State<N>, wc: seq<State<N>>, wb: seq<State<N>>,
                            cb: seq<set<Firing<N>>>, bb: seq<set<Firing<N>>>, f: Firing<N>)
    requires it.Valid() && it.Invariant(s, wc, wb) && NextsFlat(it.lp, s) && SourcesWithin(it, cb, bb)
    requires f in s && f.node in it.lp.roles
    ensures f in LoopFirings(it.lp, cb, bb)
  {
    var role := it.lp.roles[f.node];
    RolePlays(it, f.node);
    Entry(it, s, role, f.ctx);
    hide Site.Valid, Site.Simulates, Denotes, Iterates, LeavesBehind, WellBuilt, Lowered, SplicedOn, Controls, Copies,
         Within, Instance.EntriesOk, FeedMap;
    match role {
      case InCond(n) =>
        CondWithin(it, s, wc, cb, bb, n, f.ctx);
      case InBody(n) =>
        BodyWithin(it, s, wb, cb, bb, n, f.ctx);
      case IsNext(i) =>
        FlatOuter(f.ctx);
        InControls(it.lp, |cb|, f.node, f.ctx);
      case _ =>
        InControls(it.lp, |cb|, f.node, f.ctx);
    }
  }

  lemma RolePlays<N(!new)>(it: Instance<N>, n: N)
    requires it.Placed() && n in it.lp.roles
    ensures RoleOk(it.lp, it.lp.roles[n]) && NameOf(it.lp, it.lp.roles[n]) == n
  {
  }

  lemma CondWithin<N(!new)>(it: Instance<N>, s: State<N>, wc: seq<State<N>>, cb: seq<set<Firing<N>>>,
                            bb: seq<set<Firing<N>>>, n: N, x: Ctx)
    requires it.Placed() && it.CondSite().Simulates(s, wc) && SourcesWithin(it, cb, bb)
    requires RoleOk(it.lp, InCond(n)) && At(it.lp.cond.rename[n], x) in s
    ensures At(it.lp.cond.rename[n], x) in Copies(it.lp.cond, it.lp.frame, cb)
  {
    hide Site.Simulates, Copies, Within, FeedMap, Lowered;
    forall k | 0 <= k < |cb|
      ensures Within(it.CondSite().Source(k), cb[k])
    {
      CondSource(it, k);
    }
    CondSource(it, 0);
    InCopies(it.CondSite(), s, wc, cb, n, x);
  }

  lemma BodyWithin<N(!new)>(it: Instance<N>, s: State<N>, wb: seq<State<N>>, cb: seq<set<Firing<N>>>,
                            bb: seq<set<Firing<N>>>, n: N, x: Ctx)
    requires it.Placed() && it.BodySite().Simulates(s, wb) && SourcesWithin(it, cb, bb)
    requires RoleOk(it.lp, InBody(n)) && At(it.lp.body.rename[n], x) in s
    ensures At(it.lp.body.rename[n], x) in Copies(it.lp.body, it.lp.frame, bb)
  {
    hide Site.Simulates, Copies, Within, FeedMap, Lowered;
    forall k | 0 <= k < |bb|
      ensures Within(it.BodySite().Source(k), bb[k])
    {
      BodySource(it, k);
    }
    BodySource(it, 0);
    InCopies(it.BodySite(), s, wb, bb, n, x);
  }

  // ----- states of the whole graph

  /** The body graph has levels, and its outputs are at level 0. */
  ghost predicate BodyLevelled<N(!new)>(it: Instance<N>, lb: map<N, int>)
    requires it.Placed()
  {
    && (forall k :: 0 <= k < |it.vals| ==> Levelled(BodyMachine(it.lp, it.big.kernels, it.BodyTokens(k)), lb))
    && (forall i :: 0 <= i < |it.lp.inputs| ==>
          && it.lp.bodyOut[i].node in it.lp.body.src && it.lp.bodyOut[i].node in lb
          && LevelOf(it.lp.body.src, lb, it.lp.bodyOut[i]) == 0)
  }

  /** All that bounds the activations of a graph with a loop: the levels of the body, and bounds on the parts. */
  ghost predicate Bounded<N(!new)>(it: Instance<N>, lb: map<N, int>, bound: set<Firing<N>>,
                                   cb: seq<set<Firing<N>>>, bb: seq<set<Firing<N>>>)
    requires it.Placed()
  {
    BodyLevelled(it, lb) && SourcesWithin(it, cb, bb) && Within(it.p, bound)
  }

  /** What the body puts out appears in the iteration itself, not in a frame inside it. */
  lemma NextFlat<N(!new)>(it: Instance<N>, s: State<N>, wc: seq<State<N>>, wb: seq<State<N>>, lb: map<N, int>,
                          i: nat, x: Ctx, out: Outcome)
    requires it.Valid() && it.Invariant(s, wc, wb) && BodyLevelled(it, lb) && i < |it.lp.inputs|
    requires it.lp.next[i] in it.big.graph && CanFire(it.big, s, it.lp.next[i], x, out)
    ensures Depth(x) == 1
  {
    hide Site.Valid, Site.Fed, Site.Simulates, Instance.EntriesOk, Iterates, LeavesBehind, Delivered, FeedMap, Lowered,
         Denotes, SplicedOn, Levelled;
    RoleNode(it, IsNext(i));
    var r := it.lp.bodyOut[i];
    var ts :| NodeFires(it.big, s, Node(NextIteration, [Remap(it.lp.body, r)]), x, ts, out);
    assert Delivered(it.big, s, [Remap(it.lp.body, r)][0], x, ts[0]);
    BodySiteValid(it);
    BodyFed(it, s);
    BodySource(it, 0);
    SourceReachable(it.BodySite(), s, wb);
    assert Readable(it.lp.body, r);
    CopyDelivers(it.BodySite(), s, wb, r, x, ts[0]);
    var k := Outer(x).iter;
    BodySource(it, k);
    SourceFlat(it.BodySite().Source(k), lb, wb[k], r, Inner(x), ts[0]);
    InnerDepth(x);
  }

  lemma SourceFlat<N(!new)>(m: Machine<N>, lb: map<N, int>, s: State<N>, r: Ref<N>, x: Ctx, t: Token)
    requires Levelled(m, lb) && Reachable(m, s) && Delivered(m, s, r, x, t)
    requires r.node in m.graph && r.node in lb && LevelOf(m.graph, lb, r) == 0
    ensures x == Root
  {
    hide Levelled, Delivered;
    var run :| IsRun(m, run) && run[|run|-1] == s;
    LevelRun(m, lb, run);
    DeliveredDepth(m, lb, s, r, x, t);
    DepthPositive(x);
  }

  lemma {:induction false} InnerDepth(x: Ctx)
    requires x.Frame?
    ensures Depth(x) == 1 + Depth(Inner(x))
  {
    if !x.parent.Root? {
      InnerDepth(x.parent);
    }
  }

  lemma {:induction false} NextsAreFlat<N(!new)>(it: Instance<N>, run: seq<State<N>>, lb: map<N, int>)
    requires it.Valid() && BodyLevelled(it, lb) && IsRun(it.big, run)
    requires it.Contained(run[|run|-1]) || forall i :: 0 <= i < |it.stop| ==> it.stop[i].Dead?
    ensures NextsFlat(it.lp, run[|run|-1])
    decreases |run|
  {
    hide BodyLevelled, CanFire, Iterates, LeavesBehind, Denotes, Lowered, WellBuilt, SplicedOn, Instance.Invariant;
    if |run| > 1 {
      RunPrefix(it.big, run);
      var before, s, s' := run[..|run|-1], run[|run|-2], run[|run|-1];
      assert before[|before|-1] == s;
      var n, x, out :| Fires(it.big, s, n, x, out, s');
      NextsAreFlat(it, before, lb);
      var wc, wb := RunInvariant(it, before);
      forall i, y | 0 <= i < |it.lp.next| && At(it.lp.next[i], y) in s'
        ensures Depth(y) == 1
      {
        if At(it.lp.next[i], y) !in s {
          NextFlat(it, s, wc, wb, lb, i, x, out);
        }
      }
    }
  }

  /** As long as no variable goes past the last iteration, the state stays within the bounds. */
  lemma StateWithin<N(!new)>(it: Instance<N>, run: seq<State<N>>, lb: map<N, int>,
                             bound: set<Firing<N>>, cb: seq<set<Firing<N>>>, bb: seq<set<Firing<N>>>)
    requires it.Valid() && IsRun(it.big, run) && Bounded(it, lb, bound, cb, bb)
    requires it.Contained(run[|run|-1]) || forall i :: 0 <= i < |it.stop| ==> it.stop[i].Dead?
    ensures run[|run|-1].Keys <= bound + LoopFirings(it.lp, cb, bb)
  {
    var s := run[|run|-1];
    var wc, wb := RunInvariant(it, run);
    NextsAreFlat(it, run, lb);
    RestrictReachable(it.big, it.p, run);
    RunNodes(it.big, run);
    LoweredSplits(it.lp, it.p, it.big);
    hide Instance.Valid, Instance.Invariant, Lowered, WellBuilt, LevelsFit, SourcesWithin, LoopFirings, NextsFlat;
    assert Restrict(s, it.p.graph).Keys <= bound;
    forall f | f in s
      ensures f in bound + LoopFirings(it.lp, cb, bb)
    {
      if f.node in it.lp.roles {
        RoleWithin(it, s, wc, wb, cb, bb, f);
      } else {
        assert f in Restrict(s, it.p.graph).Keys;
      }
    }
  }

  lemma {:induction false} RunNodes<N(!new)>(m: Machine<N>, run: seq<State<N>>)
    requires IsRun(m, run)
    ensures forall f :: f in run[|run|-1] ==> f.node in m.graph
    decreases |run|
  {
    if |run| > 1 {
      RunPrefix(m, run);
      RunNodes(m, run[..|run|-1]);
      var n, x, out :| Fires(m, run[|run|-2], n, x, out, run[|run|-1]);
    }
  }

  lemma ValidShaped<N(!new)>(it: Instance<N>)
    requires it.Valid()
    ensures Shaped(it.lp) && it.Placed()
  {
  }

  /** With a loop that stops, only the activations of the parent graph and of the loop's rounds happen. */
  lemma LoopWithin<N(!new)>(it: Instance<N>, lb: map<N, int>,
                            bound: set<Firing<N>>, cb: seq<set<Firing<N>>>, bb: seq<set<Firing<N>>>)
    requires it.Valid() && Bounded(it, lb, bound, cb, bb)
    requires forall i :: 0 <= i < |it.stop| ==> it.stop[i].Dead?
    ensures Within(it.big, bound + LoopFirings(it.lp, cb, bb))
  {
    hide Instance.Valid, Bounded, LoopFirings;
    forall s | Reachable(it.big, s)
      ensures s.Keys <= bound + LoopFirings(it.lp, cb, bb)
    {
      var run :| IsRun(it.big, run) && run[|run|-1] == s;
      StateWithin(it, run, lb, bound, cb, bb);
    }
  }

  /**
   The condition on the body is needed.  If a body that is not entered still puts out a live value,
   every run goes on to one in which some variable has entered the iteration after the one where the
   condition failed, and no run is longer than the bounds without having done so.
   */
  lemma {:induction false} LoopRunsOn<N(!new)>(it: Instance<N>, lb: map<N, int>,
                            bound: set<Firing<N>>, cb: seq<set<Firing<N>>>, bb: seq<set<Firing<N>>>, j: nat, run: seq<State<N>>)
    returns (longer: seq<State<N>>)
    requires it.Valid() && Bounded(it, lb, bound, cb, bb)
    requires j < |it.lp.inputs| && it.stop[j].Live? && IsRun(it.big, run)
    ensures IsRun(it.big, longer) && run <= longer && !it.Contained(longer[|longer|-1])
    ensures |run| > |bound| + |LoopFirings(it.lp, cb, bb)| + 1 ==> !it.Contained(run[|run|-1])
    decreases |bound| + |LoopFirings(it.lp, cb, bb)| + 1 - |run|
  {
    hide Instance.Valid, Instance.Placed, Bounded, LoopFirings, Quiescent, Instance.Contained, Step, SplicedOn, WellBuilt;
    ValidShaped(it);
    var all := LoopFirings(it.lp, cb, bb);
    if !it.Contained(run[|run|-1]) {
      longer := run;
    } else {
      StateWithin(it, run, lb, bound, cb, bb);
      RunBounded(it.big, bound + all, run);
      JoinSize(bound, all);
      assert Reachable(it.big, run[|run|-1]);
      if Quiescent(it.big, run[|run|-1]) {
        RestsOutside(it, run[|run|-1], j);
      }
      var s := RunContinues(it.big, run);
      longer := LoopRunsOn(it, lb, bound, cb, bb, j, run + [s]);
    }
  }

  // ----- a loop that is not entered

  /** The condition and the body are made of ordinary nodes. */
  ghost predicate Plain<N(!new)>(lp: Loop<N>) {
    && (forall n :: n in lp.cond.src ==> lp.cond.src[n].op.Kernel? || lp.cond.src[n].op.Placeholder?)
    && (forall n :: n in lp.body.src ==> lp.body.src[n].op.Kernel? || lp.body.src[n].op.Placeholder?)
  }

  /** Nodes that stay dead are skipped in the first iteration only, their Enter nodes at top level. */
  ghost predicate DeadOnce<N(!new)>(lp: Loop<N>, dead: set<Role<N>>, s: State<N>) {
    forall f :: f in s && f.node in lp.roles && lp.roles[f.node] in dead ==>
      f.ctx == if lp.roles[f.node].IsEnter? then Root else Frame(Root, lp.frame, 0)
  }

  lemma PlainOp<N(!new)>(lp: Loop<N>, p: Machine<N>, big: Machine<N>, n: N)
    requires Lowered(lp, p, big) && Plain(lp) && n in lp.roles
    ensures n in big.graph && n !in big.feeds && RoleOk(lp, lp.roles[n]) && big.graph[n] == NodeOf(lp, lp.roles[n])
    ensures big.graph[n].inputs != []
    ensures var op := big.graph[n].op;
            if lp.roles[n].IsEnter? then op == Enter(lp.frame) else !op.Enter?
  {
    hide SplicedOn;
  }

  /** A dead token in the loop comes from an Enter at top level, or stays where it is. */
  lemma DeadTokenCtx<N(!new)>(lp: Loop<N>, p: Machine<N>, big: Machine<N>, dead: set<Role<N>>, s: State<N>, r: Ref<N>, x: Ctx, t: Token)
    requires Lowered(lp, p, big) && Plain(lp) && NoneFired(lp, dead, s) && DeadOnce(lp, dead, s)
    requires DeadRead(lp, dead, r) && Delivered(big, s, r, x, t)
    ensures x == Frame(Root, lp.frame, 0)
  {
    hide Lowered;
    PlainOp(lp, p, big, r.node);
  }

  lemma DeadCtx<N(!new)>(lp: Loop<N>, p: Machine<N>, big: Machine<N>, dead: set<Role<N>>, s: State<N>, n: N, x: Ctx, out: Outcome)
    requires Lowered(lp, p, big) && Plain(lp) && Consistent(lp, dead) && NoneFired(lp, dead, s) && DeadOnce(lp, dead, s)
    requires n in lp.roles && lp.roles[n] in dead && n in big.graph && CanFire(big, s, n, x, out)
    requires lp.roles[n].IsEnter? ==> x == Root
    ensures x == if lp.roles[n].IsEnter? then Root else Frame(Root, lp.frame, 0)
  {
    hide Lowered, DeadOnce, NoneFired, Delivered, Plain, DeadRead, WellBuilt;
    PlainOp(lp, p, big, n);
    LoweredBuilt(lp, p, big);
    var role, node := lp.roles[n], big.graph[n];
    assert DeadReason(lp, dead, role);
    if !role.IsEnter? && !node.op.Placeholder? {
      if node.op.Merge? {
        var i, t := MergeInput(big, s, node.inputs, x, out);
        DeadTokenCtx(lp, p, big, dead, s, node.inputs[i], x, t);
      } else {
        var ts: seq<Token> :| NodeFires(big, s, node, x, ts, out);
        var j :| 0 <= j < |node.inputs| && DeadRead(lp, dead, node.inputs[j]);
        assert Delivered(big, s, node.inputs[j], x, ts[j]);
        DeadTokenCtx(lp, p, big, dead, s, node.inputs[j], x, ts[j]);
      }
    }
  }

  lemma {:induction false} DeadOnceRun<N(!new)>(lp: Loop<N>, p: Machine<N>, big: Machine<N>, dead: set<Role<N>>, lv: map<N, int>,
                                                run: seq<State<N>>)
    requires Lowered(lp, p, big) && Plain(lp) && IsRun(big, run) && Levelled(big, lv) && EntersAtTop(lp, lv)
    requires Consistent(lp, dead) && DeadStarts(lp, dead, big)
    ensures DeadOnce(lp, dead, run[|run|-1])
    decreases |run|
  {
    hide Lowered, Plain, Levelled, AtLevel, CanFire, Consistent, DeadStarts, NoneFired, EntersAtTop;
    if |run| > 1 {
      RunPrefix(big, run);
      var before, s, s' := run[..|run|-1], run[|run|-2], run[|run|-1];
      assert before[|before|-1] == s;
      DeadOnceRun(lp, p, big, dead, lv, before);
      LevelRun(big, lv, before);
      DeadRun(lp, p, big, dead, before);
      var n, x, out :| Fires(big, s, n, x, out, s');
      if n in lp.roles && lp.roles[n] in dead {
        if lp.roles[n].IsEnter? {
          EnterAtRoot(lp, big, lv, s, n, x, out);
        }
        DeadCtx(lp, p, big, dead, s, n, x, out);
      }
    }
  }

  /** Enter nodes are at level 0. */
  ghost predicate EntersAtTop<N(!new)>(lp: Loop<N>, lv: map<N, int>) {
    forall n :: n in lp.roles && lp.roles[n].IsEnter? ==> n in lv && lv[n] == 0
  }

  lemma EnterAtRoot<N(!new)>(lp: Loop<N>, big: Machine<N>, lv: map<N, int>, s: State<N>, n: N, x: Ctx, out: Outcome)
    requires Levelled(big, lv) && AtLevel(lv, s) && EntersAtTop(lp, lv) && n in lp.roles && lp.roles[n].IsEnter?
    requires n in big.graph && CanFire(big, s, n, x, out)
    ensures x == Root
  {
    hide Levelled, AtLevel, CanFire;
    LevelStep(big, lv, s, n, x, out);
    DepthPositive(x);
  }

  lemma LoweredBuilt<N(!new)>(lp: Loop<N>, p: Machine<N>, big: Machine<N>)
    requires Lowered(lp, p, big)
    ensures WellBuilt(lp) && Shaped(lp) && Extends(big, p)
  {
  }

  /** A loop none of whose inputs becomes live runs each node at most once. */
  lemma DeadWithin<N(!new)>(lp: Loop<N>, p: Machine<N>, big: Machine<N>, lv: map<N, int>, bound: set<Firing<N>>)
    requires Lowered(lp, p, big) && Plain(lp) && Levelled(big, lv) && EntersAtTop(lp, lv) && Within(p, bound)
    requires forall i :: 0 <= i < |lp.inputs| ==> NeverLive(p, lp.inputs[i])
    ensures Within(big, bound + Controls(lp, 1))
  {
    hide Plain, Levelled, NeverLive, Controls, WellBuilt, Lowered, Consistent, EntersAtTop;
    LoweredSplits(lp, p, big);
    LoweredBuilt(lp, p, big);
    EveryRoleConsistent(lp, p, big);
    DeadStartsExtend(lp, p, big, EveryRole(lp));
    forall s | Reachable(big, s)
      ensures s.Keys <= bound + Controls(lp, 1)
    {
      var run :| IsRun(big, run) && run[|run|-1] == s;
      DeadOnceRun(lp, p, big, EveryRole(lp), lv, run);
      RestrictReachable(big, p, run);
      RunNodes(big, run);
      forall f | f in s
        ensures f in bound + Controls(lp, 1)
      {
        if f.node in lp.roles {
          assert lp.roles[f.node] in EveryRole(lp);
          InControls(lp, 1, f.node, f.ctx);
        } else {
          assert f in Restrict(s, p.graph).Keys;
        }
      }
    }
  }

  // ----- a loop that is entered with some variables only

  /** The activations of nodes outside `dead`. */
  ghost function Without<N(!new)>(s: State<N>, dead: set<N>): State<N> {
    map f | f in s && f.node !in dead :: s[f]
  }

  /** Nodes outside `dead` read from nodes outside `dead`, but for Merge nodes that wait for a NextIteration. */
  ghost predicate Saturated<N(!new)>(g: Graph<N>, dead: set<N>) {
    forall n, i :: n in g && n !in dead && 0 <= i < |g[n].inputs| && g[n].inputs[i].node in dead ==>
      g[n].op.Merge? && g[n].inputs[i].node in g && g[g[n].inputs[i].node].op.NextIteration?
  }

  /** The two machines differ at most in what they feed to nodes in `dead`. */
  ghost predicate Alike<N(!new)>(m: Machine<N>, l: Machine<N>, dead: set<N>) {
    && m.graph == l.graph && m.kernels == l.kernels
    && forall n :: n in m.graph && n !in dead ==> (n in m.feeds <==> n in l.feeds) && (n in m.feeds ==> m.feeds[n] == l.feeds[n])
  }

  ghost predicate AllSkipped<N(!new)>(s: State<N>, dead: set<N>) {
    forall f :: f in s && f.node in dead ==> s[f].Skipped?
  }

  lemma WithoutDelivers<N(!new)>(m: Machine<N>, l: Machine<N>, dead: set<N>, s: State<N>, r: Ref<N>, x: Ctx, t: Token)
    requires Alike(m, l, dead) && r.node !in dead
    ensures Delivered(m, s, r, x, t) <==> Delivered(l, Without(s, dead), r, x, t)
  {
    var q := Without(s, dead);
    assert forall at :: At(r.node, at) in q <==> At(r.node, at) in s;
  }

  /** A skipped NextIteration passes nothing on. */
  lemma NothingDelivered<N(!new)>(m: Machine<N>, dead: set<N>, s: State<N>, r: Ref<N>, x: Ctx, t: Token)
    requires AllSkipped(s, dead) && r.node in dead && r.node in m.graph && m.graph[r.node].op.NextIteration?
    ensures !Delivered(m, s, r, x, t)
  {
  }

  /** What can fire outside `dead` can fire in the other machine. */
  lemma AlikeFires<N(!new)>(m: Machine<N>, l: Machine<N>, dead: set<N>, s: State<N>, n: N, x: Ctx, out: Outcome)
    requires Alike(m, l, dead) && Saturated(m.graph, dead) && AllSkipped(s, dead)
    requires n in m.graph && n !in dead && CanFire(m, s, n, x, out)
    ensures CanFire(l, Without(s, dead), n, x, out)
  {
    hide Delivered, Without;
    var node, q := m.graph[n], Without(s, dead);
    forall i, t | 0 <= i < |node.inputs| && Delivered(m, s, node.inputs[i], x, t)
      ensures Delivered(l, q, node.inputs[i], x, t)
    {
      if node.inputs[i].node in dead {
        NothingDelivered(m, dead, s, node.inputs[i], x, t);
      }
      WithoutDelivers(m, l, dead, s, node.inputs[i], x, t);
    }
    if !node.op.Placeholder? && !node.op.Merge? {
      var ts :| NodeFires(m, s, node, x, ts, out);
      assert NodeFires(l, q, node, x, ts, out);
    }
  }

  /**
   Without its dead part, a run of one machine is a run of the other: what does not depend on dead
   inputs happens as if they were live.
   */
  lemma {:induction false} AlikeRun<N(!new)>(m: Machine<N>, l: Machine<N>, dead: set<N>, run: seq<State<N>>)
    requires Alike(m, l, dead) && Saturated(m.graph, dead) && IsRun(m, run)
    requires forall s :: Reachable(m, s) ==> AllSkipped(s, dead)
    ensures Reachable(l, Without(run[|run|-1], dead))
    decreases |run|
  {
    hide CanFire, Saturated, Alike, AllSkipped;
    if |run| == 1 {
      ReachableStart(l);
      assert Without(run[0], dead) == map[];
    } else {
      RunPrefix(m, run);
      AlikeRun(m, l, dead, run[..|run|-1]);
      var s, s' := run[|run|-2], run[|run|-1];
      assert run[..|run|-1][|run|-2] == s && Reachable(m, s);
      var n, x, out :| Fires(m, s, n, x, out, s');
      var q, q' := Without(s, dead), Without(s', dead);
      if n in dead {
        assert q' == q;
      } else {
        AlikeFires(m, l, dead, s, n, x, out);
        assert q' == q[At(n, x) := out];
        SameGraph(m, l, dead);
        ReachableStep(l, q, n, x, out, q');
      }
    }
  }

  lemma SameGraph<N(!new)>(m: Machine<N>, l: Machine<N>, dead: set<N>)
    requires Alike(m, l, dead)
    ensures m.graph == l.graph
  {
  }

  /** A node with this role reads from dead nodes only as a Merge that waits for the next iteration. */
  ghost predicate ReadsLive<N(!new)>(lp: Loop<N>, dead: set<Role<N>>, role: Role<N>)
    requires Shaped(lp) && RoleOk(lp, role)
  {
    var node := NodeOf(lp, role);
    forall j :: 0 <= j < |node.inputs| && DeadRead(lp, dead, node.inputs[j]) ==>
      role.IsMerge? && lp.roles[node.inputs[j].node].IsNext?
  }

  /** The nodes that stay dead: some of the parent's, and those with a dead role. */
  ghost function DeadNodes<N(!new)>(lp: Loop<N>, dead: set<Role<N>>, outside: set<N>): set<N> {
    outside + set n | n in lp.roles && lp.roles[n] in dead
  }

  lemma DeadNodesSkip<N(!new)>(lp: Loop<N>, p: Machine<N>, big: Machine<N>, dead: set<Role<N>>, outside: set<N>, s: State<N>)
    requires Lowered(lp, p, big) && Consistent(lp, dead) && DeadStarts(lp, dead, p) && outside <= p.graph.Keys
    requires (forall q :: Reachable(p, q) ==> AllSkipped(q, outside)) && Reachable(big, s)
    ensures AllSkipped(s, DeadNodes(lp, dead, outside))
  {
    hide Consistent, DeadStarts, Lowered, WellBuilt;
    LoweredBuilt(lp, p, big);
    DeadStartsExtend(lp, p, big, dead);
    var run :| IsRun(big, run) && run[|run|-1] == s;
    DeadRun(lp, p, big, dead, run);
    RestrictReachable(big, p, run);
    var q := Restrict(s, p.graph);
    assert AllSkipped(q, outside);
    forall f | f in s && f.node in outside
      ensures s[f].Skipped?
    {
      assert f in q && q[f] == s[f];
    }
  }

  /**
   A loop entered with some variables only comes to rest if it does when entered with all: beyond the
   first iteration only nodes run that would run then.
   */
  lemma SomeDeadWithin<N(!new)>(lp: Loop<N>, p: Machine<N>, big: Machine<N>, l: Machine<N>, lv: map<N, int>, dead: set<Role<N>>,
                                outside: set<N>, bound: set<Firing<N>>, live: set<Firing<N>>)
    requires Lowered(lp, p, big) && Plain(lp) && Levelled(big, lv) && EntersAtTop(lp, lv) && Within(p, bound) && Within(l, live)
    requires Consistent(lp, dead) && DeadStarts(lp, dead, p) && outside <= p.graph.Keys
    requires forall q :: Reachable(p, q) ==> AllSkipped(q, outside)
    requires Alike(big, l, DeadNodes(lp, dead, outside)) && Saturated(big.graph, DeadNodes(lp, dead, outside))
    ensures Within(big, bound + live + Controls(lp, 1))
  {
    hide Plain, Levelled, Controls, WellBuilt, Lowered, Consistent, EntersAtTop, DeadStarts, Alike, Saturated, AllSkipped;
    LoweredSplits(lp, p, big);
    LoweredBuilt(lp, p, big);
    DeadStartsExtend(lp, p, big, dead);
    var nodes := DeadNodes(lp, dead, outside);
    forall s | Reachable(big, s)
      ensures AllSkipped(s, nodes)
    {
      DeadNodesSkip(lp, p, big, dead, outside, s);
    }
    forall s | Reachable(big, s)
      ensures s.Keys <= bound + live + Controls(lp, 1)
    {
      var run :| IsRun(big, run) && run[|run|-1] == s;
      DeadOnceRun(lp, p, big, dead, lv, run);
      RestrictReachable(big, p, run);
      AlikeRun(big, l, nodes, run);
      RunNodes(big, run);
      forall f | f in s
        ensures f in bound + live + Controls(lp, 1)
      {
        if f.node in p.graph {
          assert f in Restrict(s, p.graph).Keys;
        } else if f.node in nodes {
          InControls(lp, 1, f.node, f.ctx);
        } else {
          assert f in Without(s, nodes).Keys;
        }
      }
    }
  }
}
