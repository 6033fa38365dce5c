/**
 The loop that TF_FinishWhile builds (c/c_api.cc), and what it computes.

 The proofs see node names only through a map from names to roles; module WhileBuilder shows
 that the names the C API really generates give such a map.
 */
module WhileLoops {
  import opened Dataflow
  import opened Splices

  /** What a node of the loop is for. */
  datatype Role<N(!new, ==)> =
    | IsEnter(i: nat)
    | IsMerge(i: nat)
    | IsSwitch(i: nat)
    | IsNext(i: nat)
    | IsExit(i: nat)
    | InCond(n: N)
    | InBody(n: N)

  /** A lowered loop: names of its control-flow nodes and the two copied graphs. */
  datatype Loop<N(!new, ==)> = Loop(
    frame: string,
    inputs: seq<Ref<N>>,
    enter: seq<N>, merge: seq<N>, switch: seq<N>, next: seq<N>, exit: seq<N>,
    cond: Splice<N>, condIn: seq<N>, condOut: Ref<N>,
    body: Splice<N>, bodyIn: seq<N>, bodyOut: seq<Ref<N>>,
    roles: map<N, Role<N>>)

  predicate Distinct<N(!new, ==)>(xs: seq<N>) {
    forall i, j :: 0 <= i < j < |xs| ==> xs[i] != xs[j]
  }

  function FeedMap<N(!new, ==)>(names: seq<N>, ts: seq<Token>): map<N, Token>
    requires |names| == |ts| && Distinct(names)
  {
    map i | 0 <= i < |names| :: names[i] := ts[i]
  }

  function Deads(n: nat): seq<Token> { seq(n, _ => Dead) }

  /** The node that plays a role, as TF_FinishWhileHelper creates it. */
  function NodeOf<N(!new, ==)>(lp: Loop<N>, role: Role<N>): Node<N>
    requires Shaped(lp) && RoleOk(lp, role)
  {
    match role
    case IsEnter(i) => Node(Enter(lp.frame), [lp.inputs[i]])
    case IsMerge(i) => Node(Merge, [Ref(lp.enter[i], 0), Ref(lp.next[i], 0)])
    case IsSwitch(i) => Node(Switch, [Ref(lp.merge[i], 0), Remap(lp.cond, lp.condOut)])
    case IsNext(i) => Node(NextIteration, [Remap(lp.body, lp.bodyOut[i])])
    case IsExit(i) => Node(Exit, [Ref(lp.switch[i], 0)])
    case InCond(n) => CopyNode(lp.cond, lp.cond.src[n])
    case InBody(n) => CopyNode(lp.body, lp.body.src[n])
  }

  predicate RoleOk<N(!new, ==)>(lp: Loop<N>, role: Role<N>) {
    match role
    case InCond(n) => n in lp.cond.src && n in lp.cond.rename
    case InBody(n) => n in lp.body.src && n in lp.body.rename
    case _ => role.i < |lp.inputs|
  }

  /** The name of the node that plays a role. */
  function NameOf<N(!new, ==)>(lp: Loop<N>, role: Role<N>): N
    requires Shaped(lp) && RoleOk(lp, role)
  {
    match role
    case IsEnter(i) => lp.enter[i]
    case IsMerge(i) => lp.merge[i]
    case IsSwitch(i) => lp.switch[i]
    case IsNext(i) => lp.next[i]
    case IsExit(i) => lp.exit[i]
    case InCond(n) => lp.cond.rename[n]
    case InBody(n) => lp.body.rename[n]
  }

  predicate Shaped<N(!new, ==)>(lp: Loop<N>) {
    var n := |lp.inputs|;
    n > 0 && n == |lp.enter| == |lp.merge| == |lp.switch| == |lp.next| == |lp.exit| == |lp.condIn|
    && n == |lp.bodyIn| == |lp.bodyOut|
  }

  /** A copied graph whose input `i` is replaced by output `slot` of `dst[i]`. */
  ghost predicate SplicedOn<N(!new)>(sp: Splice<N>, ins: seq<N>, dst: seq<N>, slot: nat)
    requires |ins| == |dst| > 0
  {
    && WellFormed(sp) && Distinct(ins) && sp.pivot == dst[0]
    && (forall r :: r in sp.inputMap <==> r.slot == 0 && r.node in ins)
    && (forall i :: 0 <= i < |ins| ==> sp.inputMap[Ref(ins[i], 0)] == Ref(dst[i], slot))
  }

  /** The loop is well formed: every role is played by exactly one node. */
  ghost predicate WellBuilt<N(!new)>(lp: Loop<N>) {
    && Shaped(lp)
    && SplicedOn(lp.cond, lp.condIn, lp.merge, 0) && Readable(lp.cond, lp.condOut)
    && SplicedOn(lp.body, lp.bodyIn, lp.switch, 1)
    && lp.condOut.slot != CONTROL_SLOT
    && (forall i :: 0 <= i < |lp.inputs| ==>
          && Readable(lp.body, lp.bodyOut[i])
          && lp.bodyOut[i].slot != CONTROL_SLOT && lp.inputs[i].slot != CONTROL_SLOT)
    && (forall role :: RoleOk(lp, role) ==> NameOf(lp, role) in lp.roles && lp.roles[NameOf(lp, role)] == role)
    && (forall n :: n in lp.roles ==> RoleOk(lp, lp.roles[n]) && NameOf(lp, lp.roles[n]) == n)
  }

  /** `big` is the machine `p` after the loop has been added to its graph. */
  ghost predicate Lowered<N(!new)>(lp: Loop<N>, p: Machine<N>, big: Machine<N>) {
    && WellBuilt(lp)
    && Extends(big, p) && big.feeds == p.feeds && p.feeds.Keys <= p.graph.Keys
    && big.graph.Keys == p.graph.Keys + lp.roles.Keys
    && p.graph.Keys !! lp.roles.Keys
    && (forall n :: n in lp.roles ==> big.graph[n] == NodeOf(lp, lp.roles[n]))
    && (forall i :: 0 <= i < |lp.inputs| ==> lp.inputs[i].node in p.graph)
  }

  // ----- the meaning of the source loop

  function CondMachine<N(!new, ==)>(lp: Loop<N>, kernels: Kernels, vs: seq<Value>): Machine<N>
    requires |vs| == |lp.condIn| && Distinct(lp.condIn)
  {
    Machine(lp.cond.src, kernels, FeedMap(lp.condIn, Lives(vs)))
  }

  function BodyMachine<N(!new, ==)>(lp: Loop<N>, kernels: Kernels, ts: seq<Token>): Machine<N>
    requires |ts| == |lp.bodyIn| && Distinct(lp.bodyIn)
  {
    Machine(lp.body.src, kernels, FeedMap(lp.bodyIn, ts))
  }

  /** `vals[k]` are the loop variables before iteration `k`; the condition first fails on the last. */
  ghost predicate Iterates<N(!new)>(lp: Loop<N>, kernels: Kernels, vals: seq<seq<Value>>)
    requires WellBuilt(lp)
  {
    && |vals| > 0
    && (forall k :: 0 <= k < |vals| ==> |vals[k]| == |lp.inputs|)
    && (forall k :: 0 <= k < |vals| ==>
          && FrameSafe(CondMachine(lp, kernels, vals[k]))
          && Denotes(CondMachine(lp, kernels, vals[k]), lp.condOut, Bool(k < |vals| - 1)))
    && (forall k :: 0 <= k < |vals| - 1 ==> FrameSafe(BodyMachine(lp, kernels, Lives(vals[k]))))
    && (forall k, j :: 0 <= k < |vals| - 1 && 0 <= j < |lp.inputs| ==>
          Denotes(BodyMachine(lp, kernels, Lives(vals[k])), lp.bodyOut[j], vals[k+1][j]))
  }

  /** What the body puts out when it is not entered: nothing live, or a value that ignores its inputs. */
  ghost predicate LeavesBehind<N(!new)>(lp: Loop<N>, kernels: Kernels, stop: seq<Token>)
    requires WellBuilt(lp)
  {
    var m := BodyMachine(lp, kernels, Deads(|lp.inputs|));
    && |stop| == |lp.inputs| && FrameSafe(m)
    && forall j :: 0 <= j < |lp.inputs| ==>
         match stop[j]
         case Live(v) => Denotes(m, lp.bodyOut[j], v)
         case Dead => NeverLive(m, lp.bodyOut[j])
  }

  /** A loop placed in a machine, with its variables' values over the iterations. */
  datatype Instance<N(!new, ==)> =
    Instance(lp: Loop<N>, p: Machine<N>, big: Machine<N>, vals: seq<seq<Value>>, stop: seq<Token>)
  {
    ghost predicate Placed() {
      && Shaped(lp) && SplicedOn(lp.cond, lp.condIn, lp.merge, 0) && SplicedOn(lp.body, lp.bodyIn, lp.switch, 1)
      && WellBuilt(lp) && Lowered(lp, p, big) && |stop| == |lp.inputs|
      && |vals| > 0 && forall k :: 0 <= k < |vals| ==> |vals[k]| == |lp.inputs|
    }

    ghost predicate Valid() {
      && Placed() && Iterates(lp, big.kernels, vals) && LeavesBehind(lp, big.kernels, stop)
      && forall i :: 0 <= i < |lp.inputs| ==> Denotes(big, lp.inputs[i], vals[0][i])
    }

    ghost function CondSite(): Site<N>
      requires Placed()
    {
      Site(big, lp.cond, lp.frame,
           seq(|vals|, k requires 0 <= k < |vals| => FeedMap(lp.condIn, Lives(vals[k]))))
    }

    /** The body is entered in every iteration but the last. */
    function BodyTokens(k: nat): seq<Token>
      requires k < |vals|
    {
      if k < |vals| - 1 then Lives(vals[k]) else Deads(|lp.inputs|)
    }

    ghost function BodySite(): Site<N>
      requires Placed()
    {
      Site(big, lp.body, lp.frame,
           seq(|vals|, k requires 0 <= k < |vals| => FeedMap(lp.bodyIn, BodyTokens(k))))
    }

    predicate IsBase(x: Ctx) { x.Frame? && x.parent.Root? && x.frame == lp.frame && x.iter < |vals| }

    /** What the body puts out for variable `i` in iteration `k`. */
    function NextToken(k: nat, i: nat): Token
      requires k < |vals| && i < |lp.inputs| == |stop|
      requires forall k :: 0 <= k < |vals| ==> |vals[k]| == |lp.inputs|
    {
      if k < |vals| - 1 then Live(vals[k+1][i]) else stop[i]
    }

    /** No variable has gone on to an iteration after the last one. */
    ghost predicate Contained(s: State<N>)
      requires Shaped(lp)
    {
      forall i :: 0 <= i < |lp.inputs| ==> At(lp.merge[i], Frame(Root, lp.frame, |vals|)) !in s
    }

    /** How a node of the loop may have run. */
    predicate EntryOk(role: Role<N>, x: Ctx, out: Outcome)
      requires Shaped(lp) && RoleOk(lp, role) && |vals| > 0 && |stop| == |lp.inputs|
      requires forall k :: 0 <= k < |vals| ==> |vals[k]| == |lp.inputs|
    {
      var last := |vals| - 1;
      match role
      case IsEnter(i) => x.Root? && out == Fired([vals[0][i]])
      case IsMerge(i) => IsBase(x) && out.Fired? && |out.args| == 2 && out.args[0] == vals[x.iter][i]
      case IsSwitch(i) => IsBase(x) && out == Fired([vals[x.iter][i], Bool(x.iter < last)])
      case IsNext(i) =>
        && x.Frame? && IsBase(Outer(x))
        && var t := NextToken(Outer(x).iter, i);
           if t.Live? then x == Outer(x) && out == Fired([t.v]) else out == Skipped
      case IsExit(i) => IsBase(x) && out == if x.iter == last then Fired([vals[last][i]]) else Skipped
      case InCond(_) => x.Frame? && IsBase(Outer(x))
      case InBody(_) => x.Frame? && IsBase(Outer(x))
    }

    ghost predicate EntriesOk(s: State<N>)
      requires Placed()
    {
      forall f :: f in s && f.node in lp.roles ==> EntryOk(lp.roles[f.node], f.ctx, s[f])
    }

    ghost predicate Invariant(s: State<N>, wc: seq<State<N>>, wb: seq<State<N>>)
      requires Placed()
    {
      Reachable(big, s) && EntriesOk(s) && CondSite().Simulates(s, wc) && BodySite().Simulates(s, wb)
    }
  }

  // ----- the two copies inside the loop

  lemma FeedsOk<N(!new)>(names: seq<N>, ts: seq<Token>)
    requires |names| == |ts| && Distinct(names)
    ensures FeedMap(names, ts).Keys == set n | n in names
    ensures forall i :: 0 <= i < |names| ==> FeedMap(names, ts)[names[i]] == ts[i]
  {
  }

  lemma SpliceValid<N(!new)>(site: Site<N>, ins: seq<N>, dst: seq<N>, slot: nat)
    requires |ins| == |dst| > 0 && SplicedOn(site.sp, ins, dst, slot)
    requires forall n :: n in site.sp.src ==>
               && site.sp.rename[n] in site.big.graph
               && site.big.graph[site.sp.rename[n]] == CopyNode(site.sp, site.sp.src[n])
               && site.sp.rename[n] !in site.big.feeds
    requires forall i :: 0 <= i < |dst| ==>
               dst[i] in site.big.graph && (site.big.graph[dst[i]].op.Merge? || site.big.graph[dst[i]].op.Switch?)
    requires forall k :: 0 <= k < |site.feeds| ==> site.feeds[k].Keys == (set n | n in ins) && FrameSafe(site.Source(k))
    ensures site.Valid()
  {
    var sp, g := site.sp, site.big.graph;
    forall r | r in sp.inputMap
      ensures sp.inputMap[r].node in g && (g[sp.inputMap[r].node].op.Merge? || g[sp.inputMap[r].node].op.Switch?)
    {
      var i :| 0 <= i < |ins| && ins[i] == r.node;
      assert r == Ref(ins[i], 0);
      assert sp.inputMap[r] == Ref(dst[i], slot);
    }
    assert dst[0] in g;
    forall k, n | 0 <= k < |site.feeds| && n in sp.src
      ensures n in site.feeds[k] <==> IsInput(sp, n)
    {
      assert n in site.feeds[k].Keys <==> n in ins;
    }
  }

  /** The node that plays a role is in the graph and is not fed. */
  lemma RoleNode<N(!new)>(it: Instance<N>, role: Role<N>)
    requires Lowered(it.lp, it.p, it.big) && RoleOk(it.lp, role)
    ensures NameOf(it.lp, role) in it.big.graph && it.big.graph[NameOf(it.lp, role)] == NodeOf(it.lp, role)
    ensures NameOf(it.lp, role) !in it.big.feeds
  {
  }

  lemma CondSource<N(!new)>(it: Instance<N>, k: nat)
    requires it.Placed() && k < |it.vals|
    ensures |it.CondSite().feeds| == |it.vals|
    ensures it.CondSite().Source(k) == CondMachine(it.lp, it.big.kernels, it.vals[k])
    ensures it.CondSite().feeds[k].Keys == set n | n in it.lp.condIn
    ensures forall i :: 0 <= i < |it.lp.inputs| ==> it.CondSite().feeds[k][it.lp.condIn[i]] == Live(it.vals[k][i])
  {
    hide WellBuilt, Lowered, WellFormed;
    FeedsOk(it.lp.condIn, Lives(it.vals[k]));
  }

  lemma BodySource<N(!new)>(it: Instance<N>, k: nat)
    requires it.Placed() && k < |it.vals|
    ensures |it.BodySite().feeds| == |it.vals|
    ensures it.BodySite().Source(k) == BodyMachine(it.lp, it.big.kernels, it.BodyTokens(k))
    ensures it.BodySite().feeds[k].Keys == set n | n in it.lp.bodyIn
    ensures forall i :: 0 <= i < |it.lp.inputs| ==> it.BodySite().feeds[k][it.lp.bodyIn[i]] == it.BodyTokens(k)[i]
  {
    hide WellBuilt, Lowered, WellFormed;
    FeedsOk(it.lp.bodyIn, it.BodyTokens(k));
  }

  lemma CondSiteValid<N(!new)>(it: Instance<N>)
    requires it.Valid()
    ensures it.CondSite().Valid()
  {
    hide Site.Valid, WellFormed, WellBuilt, Lowered, FeedMap, FrameSafe, Denotes;
    var site, lp := it.CondSite(), it.lp;
    forall k | 0 <= k < |site.feeds|
      ensures FrameSafe(site.Source(k)) && site.feeds[k].Keys == set n | n in lp.condIn
    {
      CondSource(it, k);
    }
    forall n | n in lp.cond.src
      ensures n in lp.cond.rename
      ensures lp.cond.rename[n] in it.big.graph && lp.cond.rename[n] !in it.big.feeds
      ensures it.big.graph[lp.cond.rename[n]] == CopyNode(lp.cond, lp.cond.src[n])
    {
      assert n in lp.cond.rename by { Renamed(lp.cond); }
      RoleNode(it, InCond(n));
    }
    forall i | 0 <= i < |lp.inputs|
      ensures lp.merge[i] in it.big.graph && it.big.graph[lp.merge[i]].op == Merge
    {
      RoleNode(it, IsMerge(i));
    }
    SpliceValid(site, lp.condIn, lp.merge, 0);
  }

  lemma Renamed<N(!new)>(sp: Splice<N>)
    requires WellFormed(sp)
    ensures sp.rename.Keys == sp.src.Keys
  {
  }

  lemma BodySiteValid<N(!new)>(it: Instance<N>)
    requires it.Valid()
    ensures it.BodySite().Valid()
  {
    hide Site.Valid, WellFormed, WellBuilt, Lowered, FeedMap, FrameSafe, Denotes, NeverLive;
    var site, lp := it.BodySite(), it.lp;
    forall k | 0 <= k < |site.feeds|
      ensures FrameSafe(site.Source(k)) && site.feeds[k].Keys == set n | n in lp.bodyIn
    {
      BodySource(it, k);
    }
    forall n | n in lp.body.src
      ensures n in lp.body.rename
      ensures lp.body.rename[n] in it.big.graph && lp.body.rename[n] !in it.big.feeds
      ensures it.big.graph[lp.body.rename[n]] == CopyNode(lp.body, lp.body.src[n])
    {
      assert n in lp.body.rename by { Renamed(lp.body); }
      RoleNode(it, InBody(n));
    }
    forall i | 0 <= i < |lp.inputs|
      ensures lp.switch[i] in it.big.graph && it.big.graph[lp.switch[i]].op == Switch
    {
      RoleNode(it, IsSwitch(i));
    }
    SpliceValid(site, lp.bodyIn, lp.switch, 1);
  }

  /** A loop node that ran did so in the way its role allows. */
  lemma Entry<N(!new)>(it: Instance<N>, s: State<N>, role: Role<N>, x: Ctx)
    requires it.Placed() && it.EntriesOk(s) && RoleOk(it.lp, role)
    requires At(NameOf(it.lp, role), x) in s
    ensures it.EntryOk(role, x, s[At(NameOf(it.lp, role), x)])
  {
  }

  lemma SpliceFed<N(!new)>(site: Site<N>, s: State<N>, ins: seq<N>, dst: seq<N>, slot: nat)
    requires |ins| == |dst| > 0 && SplicedOn(site.sp, ins, dst, slot) && site.Valid()
    requires forall i, x :: 0 <= i < |dst| && At(dst[i], x) in s ==>
               && site.IsBase(x) && s[At(dst[i], x)].Fired? && ins[i] in site.feeds[x.iter] && dst[i] in site.big.graph
               && Output(site.big.kernels, site.big.graph[dst[i]].op, s[At(dst[i], x)], slot) == site.feeds[x.iter][ins[i]]
    ensures site.Fed(s)
  {
    forall r, x | r in site.sp.inputMap && At(site.sp.inputMap[r].node, x) in s
      ensures site.IsBase(x)
      ensures Output(site.big.kernels, site.big.graph[site.sp.inputMap[r].node].op,
                     s[At(site.sp.inputMap[r].node, x)], site.sp.inputMap[r].slot) == site.feeds[x.iter][r.node]
    {
      var i :| 0 <= i < |ins| && ins[i] == r.node;
      assert r == Ref(ins[i], 0);
    }
  }

  lemma CondInput<N(!new)>(it: Instance<N>, s: State<N>, i: nat, x: Ctx)
    requires it.Placed() && it.EntriesOk(s) && i < |it.lp.inputs| && At(it.lp.merge[i], x) in s
    ensures it.IsBase(x) && s[At(it.lp.merge[i], x)].Fired? && it.lp.merge[i] in it.big.graph
    ensures Output(it.big.kernels, it.big.graph[it.lp.merge[i]].op, s[At(it.lp.merge[i], x)], 0)
            == Live(it.vals[x.iter][i])
  {
    hide WellBuilt, Lowered;
    Entry(it, s, IsMerge(i), x);
    RoleNode(it, IsMerge(i));
  }

  lemma BodyInput<N(!new)>(it: Instance<N>, s: State<N>, i: nat, x: Ctx)
    requires it.Placed() && it.EntriesOk(s) && i < |it.lp.inputs| && At(it.lp.switch[i], x) in s
    ensures it.IsBase(x) && s[At(it.lp.switch[i], x)].Fired? && it.lp.switch[i] in it.big.graph
    ensures var last := |it.vals| - 1;
            var op, out := it.big.graph[it.lp.switch[i]].op, s[At(it.lp.switch[i], x)];
            && Output(it.big.kernels, op, out, 1) == (if x.iter < last then Live(it.vals[x.iter][i]) else Dead)
            && Output(it.big.kernels, op, out, 0) == (if x.iter < last then Dead else Live(it.vals[last][i]))
  {
    hide WellBuilt, Lowered;
    Entry(it, s, IsSwitch(i), x);
    RoleNode(it, IsSwitch(i));
  }

  lemma CondFed<N(!new)>(it: Instance<N>, s: State<N>)
    requires it.Placed() && it.EntriesOk(s) && it.CondSite().Valid()
    ensures it.CondSite().Fed(s)
  {
    hide Site.Valid, Site.Fed, Instance.EntriesOk, WellBuilt, Lowered, SplicedOn, FeedMap;
    forall i, x | 0 <= i < |it.lp.merge| && At(it.lp.merge[i], x) in s
      ensures it.CondSite().IsBase(x) && s[At(it.lp.merge[i], x)].Fired? && it.lp.merge[i] in it.big.graph
      ensures it.lp.condIn[i] in it.CondSite().feeds[x.iter]
      ensures Output(it.big.kernels, it.big.graph[it.lp.merge[i]].op, s[At(it.lp.merge[i], x)], 0)
              == it.CondSite().feeds[x.iter][it.lp.condIn[i]]
    {
      CondInput(it, s, i, x);
      CondSource(it, x.iter);
    }
    SpliceFed(it.CondSite(), s, it.lp.condIn, it.lp.merge, 0);
  }

  lemma BodyFed<N(!new)>(it: Instance<N>, s: State<N>)
    requires it.Placed() && it.EntriesOk(s) && it.BodySite().Valid()
    ensures it.BodySite().Fed(s)
  {
    hide Site.Valid, Site.Fed, Instance.EntriesOk, WellBuilt, Lowered, SplicedOn, FeedMap;
    forall i, x | 0 <= i < |it.lp.switch| && At(it.lp.switch[i], x) in s
      ensures it.BodySite().IsBase(x) && s[At(it.lp.switch[i], x)].Fired? && it.lp.switch[i] in it.big.graph
      ensures it.lp.bodyIn[i] in it.BodySite().feeds[x.iter]
      ensures Output(it.big.kernels, it.big.graph[it.lp.switch[i]].op, s[At(it.lp.switch[i], x)], 1)
              == it.BodySite().feeds[x.iter][it.lp.bodyIn[i]]
    {
      BodyInput(it, s, i, x);
      BodySource(it, x.iter);
    }
    SpliceFed(it.BodySite(), s, it.lp.bodyIn, it.lp.switch, 1);
  }

  // ----- tokens inside the loop

  lemma CondToken<N(!new)>(it: Instance<N>, s: State<N>, wc: seq<State<N>>, wb: seq<State<N>>, x: Ctx, t: Token)
    requires it.Valid() && it.Invariant(s, wc, wb)
    requires it.IsBase(x) && Delivered(it.big, s, Remap(it.lp.cond, it.lp.condOut), x, t)
    ensures t == Live(Bool(x.iter < |it.vals| - 1))
  {
    hide Site.Valid, Site.Fed, Instance.EntriesOk, Delivered, FeedMap, Lowered, SplicedOn;
    CondSiteValid(it);
    CondFed(it, s);
    CopyDelivers(it.CondSite(), s, wc, it.lp.condOut, x, t);
    CondSource(it, x.iter);
  }

  lemma BodySourceToken<N(!new)>(it: Instance<N>, k: nat, q: State<N>, j: nat, x: Ctx, t: Token)
    requires it.Valid() && k < |it.vals| && j < |it.lp.inputs| && k < |it.BodySite().feeds|
    requires Reachable(it.BodySite().Source(k), q) && Delivered(it.BodySite().Source(k), q, it.lp.bodyOut[j], x, t)
    ensures t == it.NextToken(k, j) && (t.Live? ==> x.Root?)
  {
    hide WellBuilt, Lowered, Delivered, FeedMap, SplicedOn;
    BodySource(it, k);
  }

  lemma ValidSplice<N(!new)>(site: Site<N>)
    requires site.Valid()
    ensures WellFormed(site.sp)
  {
  }

  lemma SourceReachable<N(!new)>(site: Site<N>, s: State<N>, w: seq<State<N>>)
    requires site.Valid() && site.Simulates(s, w)
    ensures |w| == |site.feeds| && forall k :: 0 <= k < |w| ==> Reachable(site.Source(k), w[k])
  {
  }

  lemma BodyToken<N(!new)>(it: Instance<N>, s: State<N>, wc: seq<State<N>>, wb: seq<State<N>>, j: nat, x: Ctx, t: Token)
    requires it.Valid() && it.Invariant(s, wc, wb) && j < |it.lp.inputs|
    requires Delivered(it.big, s, Remap(it.lp.body, it.lp.bodyOut[j]), x, t)
    ensures x.Frame? && it.IsBase(Outer(x))
    ensures t == it.NextToken(Outer(x).iter, j) && (t.Live? ==> x == Outer(x))
  {
    hide Site.Valid, Site.Fed, Site.Simulates, Instance.EntriesOk, Iterates, LeavesBehind, Delivered, FeedMap, Lowered, Denotes, SplicedOn;
    BodySiteValid(it);
    BodyFed(it, s);
    BodySource(it, 0);
    SourceReachable(it.BodySite(), s, wb);
    assert Readable(it.lp.body, it.lp.bodyOut[j]);
    CopyDelivers(it.BodySite(), s, wb, it.lp.bodyOut[j], x, t);
    EmbedInner(x);
    BodySourceToken(it, Outer(x).iter, wb[Outer(x).iter], j, Inner(x), t);
  }

  lemma DataArgsOne<N(!new)>(r: Ref<N>, t: Token)
    requires r.slot != CONTROL_SLOT && t.Live?
    ensures DataArgs([r], [t]) == [t.v]
  {
    assert [r][..0] == [] && [t][..0] == [];
  }

  lemma OneInput<N(!new)>(m: Machine<N>, s: State<N>, op: Op, r: Ref<N>, x: Ctx, ts: seq<Token>, out: Outcome)
    requires NodeFires(m, s, Node(op, [r]), x, ts, out) && r.slot != CONTROL_SLOT
    ensures |ts| == 1 && Delivered(m, s, r, x, ts[0])
    ensures ts[0].Dead? ==> out == Skipped
    ensures ts[0].Live? ==> out == Fired([ts[0].v])
  {
    assert Delivered(m, s, [r][0], x, ts[0]);
    assert ts == [ts[0]];
    if ts[0].Live? {
      DataArgsOne(r, ts[0]);
      assert Dead !in ts;
    } else {
      assert ts[0] in ts;
    }
  }

  lemma TwoInputs<N(!new)>(m: Machine<N>, s: State<N>, op: Op, r: Ref<N>, q: Ref<N>, x: Ctx, ts: seq<Token>, out: Outcome)
    requires NodeFires(m, s, Node(op, [r, q]), x, ts, out) && r.slot != CONTROL_SLOT && q.slot != CONTROL_SLOT
    ensures |ts| == 2 && Delivered(m, s, r, x, ts[0]) && Delivered(m, s, q, x, ts[1])
    ensures ts[0].Live? && ts[1].Live? ==> out == Fired([ts[0].v, ts[1].v])
  {
    assert Delivered(m, s, [r, q][0], x, ts[0]) && Delivered(m, s, [r, q][1], x, ts[1]);
    assert ts == [ts[0], ts[1]];
    if ts[0].Live? && ts[1].Live? {
      DataArgsOne(r, ts[0]);
      assert [r, q][..1] == [r] && ts[..1] == [ts[0]];
      assert Dead !in ts;
    }
  }

  // ----- each kind of loop node keeps the invariant

  lemma EnterEntry<N(!new)>(it: Instance<N>, s: State<N>, i: nat, x: Ctx, out: Outcome)
    requires it.Valid() && Reachable(it.big, s) && i < |it.lp.inputs|
    requires CanFire(it.big, s, NameOf(it.lp, IsEnter(i)), x, out)
    ensures it.EntryOk(IsEnter(i), x, out)
  {
    RoleNode(it, IsEnter(i));
    var ts :| NodeFires(it.big, s, NodeOf(it.lp, IsEnter(i)), x, ts, out);
    OneInput(it.big, s, Enter(it.lp.frame), it.lp.inputs[i], x, ts, out);
  }

  /** A merge of an Enter that ran at top level and of a NextIteration inside the frame. */
  lemma MergeOfEnterAndNext<N(!new)>(m: Machine<N>, s: State<N>, frame: string, enter: N, next: N, x: Ctx, out: Outcome)
    requires enter in m.graph && m.graph[enter].op == Enter(frame)
    requires next in m.graph && m.graph[next].op == NextIteration
    requires forall at :: At(enter, at) in s ==> at.Root? && s[At(enter, at)].Fired? && |s[At(enter, at)].args| == 1
    requires forall at :: At(next, at) in s && s[At(next, at)].Fired? ==> at.Frame? && |s[At(next, at)].args| == 1
    requires MergeFires(m, s, [Ref(enter, 0), Ref(next, 0)], x, out)
    ensures out.Fired? && |out.args| == 2 && x.Frame?
    ensures || (x == Frame(Root, frame, 0) && At(enter, Root) in s && s[At(enter, Root)] == Fired([out.args[0]]))
            || (x.iter > 0 && var at := Frame(x.parent, x.frame, x.iter - 1);
                At(next, at) in s && s[At(next, at)] == Fired([out.args[0]]))
  {
    assert !Delivered(m, s, Ref(enter, 0), x, Dead) && !Delivered(m, s, Ref(next, 0), x, Dead);
    assert out.Fired?;
    var v := out.args[0];
    if out.args[1].i == 0 {
      assert Delivered(m, s, Ref(enter, 0), x, Live(v));
    } else {
      assert Delivered(m, s, Ref(next, 0), x, Live(v));
      var at :| At(next, at) in s && Reaches(NextIteration, at, s[At(next, at)], x)
                && Live(v) == Output(m.kernels, NextIteration, s[At(next, at)], 0);
      assert at == Frame(x.parent, x.frame, x.iter - 1);
    }
  }

  lemma MergeEntry<N(!new)>(it: Instance<N>, s: State<N>, i: nat, x: Ctx, out: Outcome)
    requires it.Placed() && it.EntriesOk(s) && i < |it.lp.inputs|
    requires CanFire(it.big, s, NameOf(it.lp, IsMerge(i)), x, out)
    requires x != Frame(Root, it.lp.frame, |it.vals|) || it.stop[i].Dead?
    ensures it.EntryOk(IsMerge(i), x, out)
  {
    hide WellBuilt, Lowered, SplicedOn, Instance.EntriesOk;
    var lp := it.lp;
    RoleNode(it, IsMerge(i));
    RoleNode(it, IsEnter(i));
    RoleNode(it, IsNext(i));
    forall at | At(lp.enter[i], at) in s
      ensures it.EntryOk(IsEnter(i), at, s[At(lp.enter[i], at)])
    {
      Entry(it, s, IsEnter(i), at);
    }
    forall at | At(lp.next[i], at) in s
      ensures it.EntryOk(IsNext(i), at, s[At(lp.next[i], at)])
    {
      Entry(it, s, IsNext(i), at);
    }
    MergeOfEnterAndNext(it.big, s, lp.frame, lp.enter[i], lp.next[i], x, out);
  }

  /** Merge and Switch outputs appear in the context in which the node ran. */
  lemma RanHere<N(!new)>(m: Machine<N>, s: State<N>, r: Ref<N>, x: Ctx, t: Token)
    requires r.node in m.graph && (m.graph[r.node].op.Merge? || m.graph[r.node].op.Switch?)
    ensures Delivered(m, s, r, x, t) <==>
              At(r.node, x) in s && t == Output(m.kernels, m.graph[r.node].op, s[At(r.node, x)], r.slot)
  {
  }

  lemma SwitchEntry<N(!new)>(it: Instance<N>, s: State<N>, wc: seq<State<N>>, wb: seq<State<N>>, i: nat, x: Ctx, out: Outcome)
    requires it.Valid() && it.Invariant(s, wc, wb) && i < |it.lp.inputs|
    requires CanFire(it.big, s, NameOf(it.lp, IsSwitch(i)), x, out)
    ensures it.EntryOk(IsSwitch(i), x, out)
  {
    var lp := it.lp;
    RoleNode(it, IsSwitch(i));
    RoleNode(it, IsMerge(i));
    var q := Remap(lp.cond, lp.condOut);
    var ts :| NodeFires(it.big, s, NodeOf(lp, IsSwitch(i)), x, ts, out);
    assert q.slot != CONTROL_SLOT;
    TwoInputs(it.big, s, Switch, Ref(lp.merge[i], 0), q, x, ts, out);
    RanHere(it.big, s, Ref(lp.merge[i], 0), x, ts[0]);
    CondInput(it, s, i, x);
    CondToken(it, s, wc, wb, x, ts[1]);
  }

  lemma NextEntry<N(!new)>(it: Instance<N>, s: State<N>, wc: seq<State<N>>, wb: seq<State<N>>, i: nat, x: Ctx, out: Outcome)
    requires it.Valid() && it.Invariant(s, wc, wb) && i < |it.lp.inputs|
    requires CanFire(it.big, s, NameOf(it.lp, IsNext(i)), x, out)
    ensures it.EntryOk(IsNext(i), x, out)
  {
    RoleNode(it, IsNext(i));
    var r := Remap(it.lp.body, it.lp.bodyOut[i]);
    var ts :| NodeFires(it.big, s, NodeOf(it.lp, IsNext(i)), x, ts, out);
    OneInput(it.big, s, NextIteration, r, x, ts, out);
    BodyToken(it, s, wc, wb, i, x, ts[0]);
  }

  lemma ExitEntry<N(!new)>(it: Instance<N>, s: State<N>, i: nat, x: Ctx, out: Outcome)
    requires it.Placed() && it.EntriesOk(s) && i < |it.lp.inputs|
    requires CanFire(it.big, s, NameOf(it.lp, IsExit(i)), x, out)
    ensures it.EntryOk(IsExit(i), x, out)
  {
    hide WellBuilt, Lowered, SplicedOn, Instance.EntriesOk;
    RoleNode(it, IsExit(i));
    RoleNode(it, IsSwitch(i));
    var ts :| NodeFires(it.big, s, NodeOf(it.lp, IsExit(i)), x, ts, out);
    OneInput(it.big, s, Exit, Ref(it.lp.switch[i], 0), x, ts, out);
    RanHere(it.big, s, Ref(it.lp.switch[i], 0), x, ts[0]);
    BodyInput(it, s, i, x);
  }

  // ----- the invariant over whole runs

  lemma EntryOkFor<N(!new)>(it: Instance<N>, s: State<N>, wc: seq<State<N>>, wb: seq<State<N>>,
                            role: Role<N>, x: Ctx, out: Outcome)
    requires it.Valid() && it.Invariant(s, wc, wb) && RoleOk(it.lp, role)
    requires CanFire(it.big, s, NameOf(it.lp, role), x, out)
    requires role.IsMerge? ==> x != Frame(Root, it.lp.frame, |it.vals|) || it.stop[role.i].Dead?
    ensures it.EntryOk(role, x, out)
  {
    hide WellBuilt, Lowered, SplicedOn, Site.Simulates, Instance.EntriesOk, CanFire, Denotes, Iterates, LeavesBehind;
    RoleNode(it, role);
    match role {
      case IsEnter(i) => EnterEntry(it, s, i, x, out);
      case IsMerge(i) => MergeEntry(it, s, i, x, out);
      case IsSwitch(i) => SwitchEntry(it, s, wc, wb, i, x, out);
      case IsNext(i) => NextEntry(it, s, wc, wb, i, x, out);
      case IsExit(i) => ExitEntry(it, s, i, x, out);
      case InCond(n) => CondCopyEntry(it, s, wc, wb, n, x, out);
      case InBody(n) => BodyCopyEntry(it, s, wc, wb, n, x, out);
    }
  }

  lemma CondCopyEntry<N(!new)>(it: Instance<N>, s: State<N>, wc: seq<State<N>>, wb: seq<State<N>>,
                               n: N, x: Ctx, out: Outcome)
    requires it.Valid() && it.Invariant(s, wc, wb) && n in it.lp.cond.src && n in it.lp.cond.rename
    requires it.lp.cond.rename[n] in it.big.graph && CanFire(it.big, s, it.lp.cond.rename[n], x, out)
    ensures x.Frame? && it.IsBase(Outer(x))
  {
    hide WellBuilt, Lowered, SplicedOn, Site.Simulates, Site.Valid, Site.Fed, Instance.EntriesOk, CanFire, Denotes, Iterates;
    CondSiteValid(it);
    CondFed(it, s);
    CopyFires(it.CondSite(), s, wc, n, x, out);
    CondSource(it, 0);
  }

  lemma BodyCopyEntry<N(!new)>(it: Instance<N>, s: State<N>, wc: seq<State<N>>, wb: seq<State<N>>,
                               n: N, x: Ctx, out: Outcome)
    requires it.Valid() && it.Invariant(s, wc, wb) && n in it.lp.body.src && n in it.lp.body.rename
    requires it.lp.body.rename[n] in it.big.graph && CanFire(it.big, s, it.lp.body.rename[n], x, out)
    ensures x.Frame? && it.IsBase(Outer(x))
  {
    hide WellBuilt, Lowered, SplicedOn, Site.Simulates, Site.Valid, Site.Fed, Instance.EntriesOk, CanFire, Denotes, Iterates;
    BodySiteValid(it);
    BodyFed(it, s);
    CopyFires(it.BodySite(), s, wb, n, x, out);
    BodySource(it, 0);
  }

  /** Different roles have different names, and none of them is a name of the parent graph. */
  lemma RolesApart<N(!new)>(lp: Loop<N>, role: Role<N>, role': Role<N>)
    requires WellBuilt(lp) && RoleOk(lp, role) && RoleOk(lp, role')
    ensures NameOf(lp, role) == NameOf(lp, role') ==> role == role'
  {
  }

  /** The copies and their replaced inputs, as seen from a node with another role. */
  lemma CondApart<N(!new)>(lp: Loop<N>, role: Role<N>)
    requires WellBuilt(lp) && RoleOk(lp, role)
    ensures !role.InCond? ==> forall m :: m in lp.cond.src ==> lp.cond.rename[m] != NameOf(lp, role)
    ensures forall r :: r in lp.cond.inputMap && lp.cond.inputMap[r].node == NameOf(lp, role) ==>
              role.IsMerge? && r == Ref(lp.condIn[role.i], 0)
  {
    hide WellFormed;
    Renamed(lp.cond);
    forall m | m in lp.cond.src && lp.cond.rename[m] == NameOf(lp, role)
      ensures role.InCond?
    {
      RolesApart(lp, role, InCond(m));
    }
    forall r | r in lp.cond.inputMap && lp.cond.inputMap[r].node == NameOf(lp, role)
      ensures role.IsMerge? && r == Ref(lp.condIn[role.i], 0)
    {
      var i :| 0 <= i < |lp.condIn| && lp.condIn[i] == r.node;
      assert r == Ref(lp.condIn[i], 0);
      RolesApart(lp, role, IsMerge(i));
    }
  }

  lemma BodyApart<N(!new)>(lp: Loop<N>, role: Role<N>)
    requires WellBuilt(lp) && RoleOk(lp, role)
    ensures !role.InBody? ==> forall m :: m in lp.body.src ==> lp.body.rename[m] != NameOf(lp, role)
    ensures forall r :: r in lp.body.inputMap && lp.body.inputMap[r].node == NameOf(lp, role) ==>
              role.IsSwitch? && r == Ref(lp.bodyIn[role.i], 0)
  {
    hide WellFormed;
    Renamed(lp.body);
    forall m | m in lp.body.src && lp.body.rename[m] == NameOf(lp, role)
      ensures role.InBody?
    {
      RolesApart(lp, role, InBody(m));
    }
    forall r | r in lp.body.inputMap && lp.body.inputMap[r].node == NameOf(lp, role)
      ensures role.IsSwitch? && r == Ref(lp.bodyIn[role.i], 0)
    {
      var i :| 0 <= i < |lp.bodyIn| && lp.bodyIn[i] == r.node;
      assert r == Ref(lp.bodyIn[i], 0);
      RolesApart(lp, role, IsSwitch(i));
    }
  }

  lemma CondSimStep<N(!new)>(it: Instance<N>, s: State<N>, wc: seq<State<N>>, role: Role<N>, x: Ctx, out: Outcome,
                             s': State<N>) returns (wc': seq<State<N>>)
    requires it.Placed() && it.EntriesOk(s) && it.CondSite().Valid() && it.CondSite().Simulates(s, wc)
    requires RoleOk(it.lp, role) && it.EntryOk(role, x, out) && Fires(it.big, s, NameOf(it.lp, role), x, out, s')
    ensures it.CondSite().Simulates(s', wc')
  {
    hide WellBuilt, Lowered, WellFormed, Site.Valid, Site.Simulates, Instance.EntriesOk, CanFire, SplicedOn;
    var site, lp := it.CondSite(), it.lp;
    CondApart(lp, role);
    ValidSplice(site);
    match role {
      case InCond(n) =>
        CondFed(it, s);
        CopyStepSource(site, s, wc, n, x, out, s');
        wc' := CopyStep(site, s, wc, n, x, out, s');
      case IsMerge(i) =>
        CondSource(it, x.iter);
        CondMapped(lp, i);
        assert x == site.Base(x.iter);
        SourceReachable(site, s, wc);
        wc' := InputStep(site, s, wc, Ref(lp.condIn[i], 0), x.iter, out, s');
      case _ =>
        OtherStep(site, s, wc, NameOf(lp, role), x, out);
        wc' := wc;
    }
  }

  lemma CondMapped<N(!new)>(lp: Loop<N>, i: nat)
    requires WellBuilt(lp) && i < |lp.inputs|
    ensures Ref(lp.condIn[i], 0) in lp.cond.inputMap && lp.cond.inputMap[Ref(lp.condIn[i], 0)] == Ref(lp.merge[i], 0)
  {
  }

  lemma BodyMapped<N(!new)>(lp: Loop<N>, i: nat)
    requires WellBuilt(lp) && i < |lp.inputs|
    ensures Ref(lp.bodyIn[i], 0) in lp.body.inputMap && lp.body.inputMap[Ref(lp.bodyIn[i], 0)] == Ref(lp.switch[i], 1)
  {
  }

  lemma BodySimStep<N(!new)>(it: Instance<N>, s: State<N>, wb: seq<State<N>>, role: Role<N>, x: Ctx, out: Outcome,
                             s': State<N>) returns (wb': seq<State<N>>)
    requires it.Placed() && it.EntriesOk(s) && it.BodySite().Valid() && it.BodySite().Simulates(s, wb)
    requires RoleOk(it.lp, role) && it.EntryOk(role, x, out) && Fires(it.big, s, NameOf(it.lp, role), x, out, s')
    ensures it.BodySite().Simulates(s', wb')
  {
    hide WellBuilt, Lowered, WellFormed, Site.Valid, Site.Simulates, Instance.EntriesOk, CanFire, SplicedOn;
    var site, lp := it.BodySite(), it.lp;
    BodyApart(lp, role);
    ValidSplice(site);
    match role {
      case InBody(n) =>
        BodyFed(it, s);
        CopyStepSource(site, s, wb, n, x, out, s');
        wb' := CopyStep(site, s, wb, n, x, out, s');
      case IsSwitch(i) =>
        BodySource(it, x.iter);
        BodyMapped(lp, i);
        assert x == site.Base(x.iter);
        SourceReachable(site, s, wb);
        wb' := InputStep(site, s, wb, Ref(lp.bodyIn[i], 0), x.iter, out, s');
      case _ =>
        OtherStep(site, s, wb, NameOf(lp, role), x, out);
        wb' := wb;
    }
  }

  lemma StepInvariant<N(!new)>(it: Instance<N>, s: State<N>, wc: seq<State<N>>, wb: seq<State<N>>,
                               n: N, x: Ctx, out: Outcome, s': State<N>)
    returns (wc': seq<State<N>>, wb': seq<State<N>>)
    requires it.Valid() && it.Invariant(s, wc, wb) && Fires(it.big, s, n, x, out, s')
    requires it.Contained(s') || forall i :: 0 <= i < |it.stop| ==> it.stop[i].Dead?
    ensures it.Invariant(s', wc', wb')
  {
    hide Site.Valid, Site.Simulates, CanFire, Denotes, Iterates, LeavesBehind, WellFormed, SplicedOn, Reachable;
    ReachableStep(it.big, s, n, x, out, s');
    CondSiteValid(it);
    BodySiteValid(it);
    if n in it.lp.roles {
      var role := it.lp.roles[n];
      EntryOkFor(it, s, wc, wb, role, x, out);
      wc' := CondSimStep(it, s, wc, role, x, out, s');
      wb' := BodySimStep(it, s, wb, role, x, out, s');
    } else {
      ParentApart(it, n);
      OtherStep(it.CondSite(), s, wc, n, x, out);
      OtherStep(it.BodySite(), s, wb, n, x, out);
      wc', wb' := wc, wb;
    }
  }

  lemma ParentApart<N(!new)>(it: Instance<N>, n: N)
    requires it.Placed() && n !in it.lp.roles
    ensures forall m :: m in it.lp.cond.src ==> m in it.lp.cond.rename && it.lp.cond.rename[m] != n
    ensures forall m :: m in it.lp.body.src ==> m in it.lp.body.rename && it.lp.body.rename[m] != n
    ensures forall r :: r in it.lp.cond.inputMap ==> it.lp.cond.inputMap[r].node != n
    ensures forall r :: r in it.lp.body.inputMap ==> it.lp.body.inputMap[r].node != n
  {
    hide Lowered, WellBuilt, Shaped, SplicedOn;
    CondOutsideRoles(it.lp, n);
    BodyOutsideRoles(it.lp, n);
  }

  lemma CondOutsideRoles<N(!new)>(lp: Loop<N>, n: N)
    requires WellBuilt(lp) && n !in lp.roles
    ensures forall m :: m in lp.cond.src ==> m in lp.cond.rename && lp.cond.rename[m] != n
    ensures forall r :: r in lp.cond.inputMap ==> lp.cond.inputMap[r].node != n
  {
    forall m | m in lp.cond.src
      ensures m in lp.cond.rename && lp.cond.rename[m] != n
    {
      assert RoleOk(lp, InCond(m)) && NameOf(lp, InCond(m)) in lp.roles;
    }
    forall r | r in lp.cond.inputMap
      ensures lp.cond.inputMap[r].node != n
    {
      var i :| 0 <= i < |lp.condIn| && lp.condIn[i] == r.node;
      assert r == Ref(lp.condIn[i], 0);
      assert RoleOk(lp, IsMerge(i)) && NameOf(lp, IsMerge(i)) in lp.roles;
    }
  }

  lemma BodyOutsideRoles<N(!new)>(lp: Loop<N>, n: N)
    requires WellBuilt(lp) && n !in lp.roles
    ensures forall m :: m in lp.body.src ==> m in lp.body.rename && lp.body.rename[m] != n
    ensures forall r :: r in lp.body.inputMap ==> lp.body.inputMap[r].node != n
  {
    forall m | m in lp.body.src
      ensures m in lp.body.rename && lp.body.rename[m] != n
    {
      assert RoleOk(lp, InBody(m)) && NameOf(lp, InBody(m)) in lp.roles;
    }
    forall r | r in lp.body.inputMap
      ensures lp.body.inputMap[r].node != n
    {
      var i :| 0 <= i < |lp.bodyIn| && lp.bodyIn[i] == r.node;
      assert r == Ref(lp.bodyIn[i], 0);
      assert RoleOk(lp, IsSwitch(i)) && NameOf(lp, IsSwitch(i)) in lp.roles;
    }
  }

  /** The invariant holds after every run. */
  lemma {:induction false} RunInvariant<N(!new)>(it: Instance<N>, run: seq<State<N>>)
    returns (wc: seq<State<N>>, wb: seq<State<N>>)
    requires it.Valid() && IsRun(it.big, run)
    requires it.Contained(run[|run|-1]) || forall i :: 0 <= i < |it.stop| ==> it.stop[i].Dead?
    ensures it.Invariant(run[|run|-1], wc, wb)
    decreases |run|
  {
    hide Site.Valid, Site.Simulates, CanFire, Denotes, Iterates, LeavesBehind, WellFormed, SplicedOn, Reachable, Lowered;
    if |run| == 1 {
      CondSiteValid(it);
      BodySiteValid(it);
      ReachableStart(it.big);
      wc := SimulatesStart(it.CondSite());
      wb := SimulatesStart(it.BodySite());
    } else {
      RunPrefix(it.big, run);
      var s, s' := run[|run|-2], run[|run|-1];
      var n, x, out :| Fires(it.big, s, n, x, out, s');
      wc, wb := RunInvariant(it, run[..|run|-1]);
      wc, wb := StepInvariant(it, s, wc, wb, n, x, out, s');
    }
  }

  // ----- nothing gets stuck

  /** A node with one data input runs once that input has arrived. */
  lemma OneInputFires<N(!new)>(m: Machine<N>, s: State<N>, op: Op, r: Ref<N>, x: Ctx, v: Value)
    requires Delivered(m, s, r, x, Live(v)) && r.slot != CONTROL_SLOT && !op.Switch?
    ensures exists ts :: NodeFires(m, s, Node(op, [r]), x, ts, Fired([v]))
  {
    DataArgsOne(r, Live(v));
    assert NodeFires(m, s, Node(op, [r]), x, [Live(v)], Fired([v]));
  }

  lemma SwitchFires<N(!new)>(m: Machine<N>, s: State<N>, r: Ref<N>, q: Ref<N>, x: Ctx, v: Value, b: bool)
    requires Delivered(m, s, r, x, Live(v)) && Delivered(m, s, q, x, Live(Bool(b)))
    requires r.slot != CONTROL_SLOT && q.slot != CONTROL_SLOT
    ensures exists ts :: NodeFires(m, s, Node(Switch, [r, q]), x, ts, Fired([v, Bool(b)]))
  {
    var ts := [Live(v), Live(Bool(b))];
    DataArgsOne(r, Live(v));
    assert [r, q][..1] == [r] && ts[..1] == [Live(v)];
    assert NodeFires(m, s, Node(Switch, [r, q]), x, ts, Fired([v, Bool(b)]));
  }

  lemma EnterRan<N(!new)>(it: Instance<N>, s: State<N>, i: nat)
    requires it.Valid() && Reachable(it.big, s) && Quiescent(it.big, s) && i < |it.lp.inputs|
    ensures At(it.lp.enter[i], Root) in s
  {
    hide SplicedOn, Iterates, LeavesBehind, Delivered;
    RoleNode(it, IsEnter(i));
    OneInputFires(it.big, s, Enter(it.lp.frame), it.lp.inputs[i], Root, it.vals[0][i]);
    assert CanFire(it.big, s, it.lp.enter[i], Root, Fired([it.vals[0][i]]));
  }

  /** A live token on either input makes a merge run. */
  lemma MergeRan<N(!new)>(it: Instance<N>, s: State<N>, i: nat, k: nat)
    requires it.Placed() && it.EntriesOk(s) && Quiescent(it.big, s) && i < |it.lp.inputs| && k <= |it.vals|
    requires k > 0 ==> it.NextToken(k - 1, i).Live?
    requires if k == 0 then At(it.lp.enter[i], Root) in s else At(it.lp.next[i], Frame(Root, it.lp.frame, k - 1)) in s
    ensures At(it.lp.merge[i], Frame(Root, it.lp.frame, k)) in s
  {
    hide WellBuilt, Lowered, SplicedOn, Instance.EntriesOk;
    var lp, x := it.lp, Frame(Root, it.lp.frame, k);
    RoleNode(it, IsMerge(i));
    RoleNode(it, IsEnter(i));
    RoleNode(it, IsNext(i));
    var j, r := if k == 0 then 0 else 1, if k == 0 then Ref(lp.enter[i], 0) else Ref(lp.next[i], 0);
    if k == 0 {
      Entry(it, s, IsEnter(i), Root);
    } else {
      Entry(it, s, IsNext(i), Frame(Root, lp.frame, k - 1));
    }
    var v := if k == 0 then it.vals[0][i] else it.NextToken(k - 1, i).v;
    assert Delivered(it.big, s, r, x, Live(v));
    assert MergeFires(it.big, s, [Ref(lp.enter[i], 0), Ref(lp.next[i], 0)], x, Fired([v, Index(j)]));
    assert CanFire(it.big, s, lp.merge[i], x, Fired([v, Index(j)]));
  }

  lemma CondArrived<N(!new)>(it: Instance<N>, s: State<N>, wc: seq<State<N>>, wb: seq<State<N>>, k: nat)
    requires it.Valid() && it.Invariant(s, wc, wb) && Quiescent(it.big, s) && k < |it.vals|
    requires forall i :: 0 <= i < |it.lp.inputs| ==> At(it.lp.merge[i], Frame(Root, it.lp.frame, k)) in s
    ensures Delivered(it.big, s, Remap(it.lp.cond, it.lp.condOut), Frame(Root, it.lp.frame, k),
                      Live(Bool(k < |it.vals| - 1)))
  {
    hide Site.Valid, Site.Fed, Site.Simulates, Instance.EntriesOk, Delivered, FeedMap, Quiescent, Lowered, WellFormed, LeavesBehind;
    var site := it.CondSite();
    CondSiteValid(it);
    CondFed(it, s);
    CondSource(it, k);
    SourceReachable(site, s, wc);
    forall r | r in it.lp.cond.inputMap
      ensures At(it.lp.cond.inputMap[r].node, site.Base(k)) in s
    {
      var i :| 0 <= i < |it.lp.condIn| && it.lp.condIn[i] == r.node;
      assert r == Ref(it.lp.condIn[i], 0);
    }
    SourceQuiescent(site, s, wc, k);
    assert Readable(it.lp.cond, it.lp.condOut);
    SourceDelivers(site, s, wc, it.lp.condOut, k, Root, Live(Bool(k < |it.vals| - 1)));
  }

  lemma SwitchRan<N(!new)>(it: Instance<N>, s: State<N>, wc: seq<State<N>>, wb: seq<State<N>>, i: nat, k: nat)
    requires it.Placed() && it.EntriesOk(s) && Quiescent(it.big, s) && i < |it.lp.inputs| && k < |it.vals|
    requires At(it.lp.merge[i], Frame(Root, it.lp.frame, k)) in s
    requires Delivered(it.big, s, Remap(it.lp.cond, it.lp.condOut), Frame(Root, it.lp.frame, k),
                       Live(Bool(k < |it.vals| - 1)))
    ensures At(it.lp.switch[i], Frame(Root, it.lp.frame, k)) in s
  {
    hide Lowered, SplicedOn, Instance.EntriesOk;
    var lp, x, v := it.lp, Frame(Root, it.lp.frame, k), it.vals[k][i];
    CondInput(it, s, i, x);
    RoleNode(it, IsMerge(i));
    RoleNode(it, IsSwitch(i));
    RanHere(it.big, s, Ref(lp.merge[i], 0), x, Live(v));
    assert Remap(lp.cond, lp.condOut).slot != CONTROL_SLOT by { CondMappedData(lp); }
    SwitchFires(it.big, s, Ref(lp.merge[i], 0), Remap(lp.cond, lp.condOut), x, v, k < |it.vals| - 1);
    assert CanFire(it.big, s, lp.switch[i], x, Fired([v, Bool(k < |it.vals| - 1)]));
  }

  lemma CondMappedData<N(!new)>(lp: Loop<N>)
    requires WellBuilt(lp)
    ensures Remap(lp.cond, lp.condOut).slot != CONTROL_SLOT
    ensures forall i :: 0 <= i < |lp.inputs| ==> Remap(lp.body, lp.bodyOut[i]).slot != CONTROL_SLOT
  {
  }

  lemma BodySourceArrived<N(!new)>(it: Instance<N>, k: nat, q: State<N>, j: nat)
    requires it.Valid() && k < |it.vals| && j < |it.lp.inputs| && k < |it.BodySite().feeds|
    requires Reachable(it.BodySite().Source(k), q) && Quiescent(it.BodySite().Source(k), q)
    requires it.NextToken(k, j).Live?
    ensures Delivered(it.BodySite().Source(k), q, it.lp.bodyOut[j], Root, it.NextToken(k, j))
  {
    hide WellBuilt, Lowered, Delivered, FeedMap, SplicedOn, Quiescent;
    BodySource(it, k);
  }

  lemma BodyArrived<N(!new)>(it: Instance<N>, s: State<N>, wc: seq<State<N>>, wb: seq<State<N>>, j: nat, k: nat)
    requires it.Valid() && it.Invariant(s, wc, wb) && Quiescent(it.big, s) && k < |it.vals| && j < |it.lp.inputs|
    requires forall i :: 0 <= i < |it.lp.inputs| ==> At(it.lp.switch[i], Frame(Root, it.lp.frame, k)) in s
    requires it.NextToken(k, j).Live?
    ensures Delivered(it.big, s, Remap(it.lp.body, it.lp.bodyOut[j]), Frame(Root, it.lp.frame, k), it.NextToken(k, j))
  {
    hide Site.Valid, Site.Fed, Site.Simulates, Instance.EntriesOk, Delivered, FeedMap, Quiescent, Lowered, WellFormed, LeavesBehind, Iterates, Denotes;
    var site := it.BodySite();
    BodySiteValid(it);
    BodyFed(it, s);
    BodySource(it, k);
    SourceReachable(site, s, wb);
    forall r | r in it.lp.body.inputMap
      ensures At(it.lp.body.inputMap[r].node, site.Base(k)) in s
    {
      var i :| 0 <= i < |it.lp.bodyIn| && it.lp.bodyIn[i] == r.node;
      assert r == Ref(it.lp.bodyIn[i], 0);
    }
    SourceQuiescent(site, s, wb, k);
    assert Readable(it.lp.body, it.lp.bodyOut[j]);
    BodySourceArrived(it, k, wb[k], j);
    SourceDelivers(site, s, wb, it.lp.bodyOut[j], k, Root, it.NextToken(k, j));
  }

  lemma NextRan<N(!new)>(it: Instance<N>, s: State<N>, i: nat, k: nat)
    requires it.Placed() && Quiescent(it.big, s) && i < |it.lp.inputs| && k < |it.vals| && it.NextToken(k, i).Live?
    requires Delivered(it.big, s, Remap(it.lp.body, it.lp.bodyOut[i]), Frame(Root, it.lp.frame, k), it.NextToken(k, i))
    ensures At(it.lp.next[i], Frame(Root, it.lp.frame, k)) in s
  {
    hide Lowered, SplicedOn, Delivered;
    var x, r := Frame(Root, it.lp.frame, k), Remap(it.lp.body, it.lp.bodyOut[i]);
    RoleNode(it, IsNext(i));
    CondMappedData(it.lp);
    OneInputFires(it.big, s, NextIteration, r, x, it.NextToken(k, i).v);
    assert CanFire(it.big, s, it.lp.next[i], x, Fired([it.NextToken(k, i).v]));
  }

  lemma ExitRan<N(!new)>(it: Instance<N>, s: State<N>, i: nat)
    requires it.Placed() && it.EntriesOk(s) && Quiescent(it.big, s) && i < |it.lp.inputs|
    requires At(it.lp.switch[i], Frame(Root, it.lp.frame, |it.vals| - 1)) in s
    ensures Delivered(it.big, s, Ref(it.lp.exit[i], 0), Root, Live(it.vals[|it.vals|-1][i]))
  {
    hide WellBuilt, Lowered, SplicedOn, Instance.EntriesOk;
    var lp, x, v := it.lp, Frame(Root, it.lp.frame, |it.vals| - 1), it.vals[|it.vals|-1][i];
    BodyInput(it, s, i, x);
    RoleNode(it, IsSwitch(i));
    RoleNode(it, IsExit(i));
    RanHere(it.big, s, Ref(lp.switch[i], 0), x, Live(v));
    OneInputFires(it.big, s, Exit, Ref(lp.switch[i], 0), x, v);
    assert CanFire(it.big, s, lp.exit[i], x, Fired([v]));
    Entry(it, s, IsExit(i), x);
    assert Reaches(Exit, x, s[At(lp.exit[i], x)], Root);
  }

  /** When nothing is left to fire, iteration `k` has been entered and its condition decided. */
  lemma {:induction false} IterationRan<N(!new)>(it: Instance<N>, s: State<N>, wc: seq<State<N>>, wb: seq<State<N>>, k: nat)
    requires it.Valid() && it.Invariant(s, wc, wb) && Quiescent(it.big, s) && k < |it.vals|
    ensures forall i :: 0 <= i < |it.lp.inputs| ==>
              && At(it.lp.merge[i], Frame(Root, it.lp.frame, k)) in s
              && At(it.lp.switch[i], Frame(Root, it.lp.frame, k)) in s
    decreases k
  {
    hide Quiescent, Lowered, WellBuilt, SplicedOn, Site.Simulates, Denotes, Iterates, LeavesBehind, Instance.EntriesOk, Delivered;
    if k > 0 {
      IterationRan(it, s, wc, wb, k - 1);
    }
    forall i | 0 <= i < |it.lp.inputs|
      ensures At(it.lp.merge[i], Frame(Root, it.lp.frame, k)) in s
    {
      if k == 0 {
        EnterRan(it, s, i);
      } else {
        BodyArrived(it, s, wc, wb, i, k - 1);
        NextRan(it, s, i, k - 1);
      }
      MergeRan(it, s, i, k);
    }
    CondArrived(it, s, wc, wb, k);
    forall i | 0 <= i < |it.lp.inputs|
      ensures At(it.lp.switch[i], Frame(Root, it.lp.frame, k)) in s
    {
      SwitchRan(it, s, wc, wb, i, k);
    }
  }
}
