/**
 CopyGraph (c/c_api.cc): a source graph is copied under new names into a larger graph, its
 input placeholders are replaced by existing outputs, and nodes that would otherwise depend
 on nothing in the copy get a control input from a pivot.

 The copies made for a loop run once per iteration.  The simulation below shows that what the
 copy does in one iteration is, step for step, a run of the source graph fed with the tokens
 found on the replacing outputs.
 */
module Splices {
  import opened Dataflow

  datatype Splice<N(!new, ==)> = Splice(src: Graph<N>, rename: map<N, N>, inputMap: map<Ref<N>, Ref<N>>, pivot: N)

  // ----- contexts below one outermost frame

  function Embed(base: Ctx, q: Ctx): Ctx {
    if q.Root? then base else Frame(Embed(base, q.parent), q.frame, q.iter)
  }

  function Outer(x: Ctx): (o: Ctx)
    requires x.Frame?
    ensures o.Frame? && o.parent.Root?
  {
    if x.parent.Root? then x else Outer(x.parent)
  }

  function Inner(x: Ctx): Ctx
    requires x.Frame?
  {
    if x.parent.Root? then Root else Frame(Inner(x.parent), x.frame, x.iter)
  }

  lemma {:induction false} EmbedInner(x: Ctx)
    requires x.Frame?
    ensures Outer(x).Frame? && Outer(x).parent.Root? && Embed(Outer(x), Inner(x)) == x
  {
    if !x.parent.Root? {
      EmbedInner(x.parent);
    }
  }

  lemma {:induction false} InnerEmbed(base: Ctx, q: Ctx)
    requires base.Frame? && base.parent.Root?
    ensures Embed(base, q).Frame? && Outer(Embed(base, q)) == base && Inner(Embed(base, q)) == q
  {
    if !q.Root? {
      InnerEmbed(base, q.parent);
    }
  }

  // ----- the copy

  /** Where an input of a source node points in the copy. */
  function Remap<N(!new, ==)>(sp: Splice<N>, r: Ref<N>): Ref<N> {
    if r in sp.inputMap then sp.inputMap[r]
    else if r.node in sp.rename then Ref(sp.rename[r.node], r.slot)
    else r
  }

  function RemapAll<N(!new, ==)>(sp: Splice<N>, refs: seq<Ref<N>>): seq<Ref<N>> {
    seq(|refs|, i requires 0 <= i < |refs| => Remap(sp, refs[i]))
  }

  predicate AllMapped<N(!new, ==)>(sp: Splice<N>, refs: seq<Ref<N>>) {
    forall r :: r in refs ==> r in sp.inputMap
  }

  function CopyNode<N(!new, ==)>(sp: Splice<N>, node: Node<N>): Node<N> {
    Node(node.op,
         RemapAll(sp, node.inputs) + if AllMapped(sp, node.inputs) then [Ref(sp.pivot, CONTROL_SLOT)] else [])
  }

  predicate IsInput<N(!new, ==)>(sp: Splice<N>, n: N) {
    Ref(n, 0) in sp.inputMap
  }

  /** `r` reads an input placeholder only through the output that is replaced. */
  predicate Readable<N(!new, ==)>(sp: Splice<N>, r: Ref<N>) {
    r.node in sp.src && (IsInput(sp, r.node) ==> r in sp.inputMap)
  }

  /** A source graph that can be copied. */
  ghost predicate WellFormed<N(!new)>(sp: Splice<N>) {
    && sp.rename.Keys == sp.src.Keys
    && (forall n, n' :: n in sp.rename && n' in sp.rename && sp.rename[n] == sp.rename[n'] ==> n == n')
    && (forall n, i :: n in sp.src && 0 <= i < |sp.src[n].inputs| ==> Readable(sp, sp.src[n].inputs[i]))
    && (forall r :: r in sp.inputMap ==> r.slot == 0 && r.node in sp.src && sp.src[r.node].op == Placeholder)
    && (forall r :: r in sp.inputMap ==> sp.inputMap[r].slot != CONTROL_SLOT)
  }

  /** A copy inside a machine, in the iterations of one top-level frame. */
  datatype Site<N(!new, ==)> = Site(big: Machine<N>, sp: Splice<N>, frame: string, feeds: seq<map<N, Token>>)
  {
    function Base(k: nat): Ctx { Frame(Root, frame, k) }

    /** The source graph as it should run in iteration `k`. */
    function Source(k: nat): Machine<N>
      requires k < |feeds|
    {
      Machine(sp.src, big.kernels, feeds[k])
    }

    predicate IsBase(x: Ctx) { x.Frame? && x.parent.Root? && x.frame == frame && x.iter < |feeds| }

    predicate InRange(x: Ctx) { x.Frame? && IsBase(Outer(x)) }

    ghost predicate Valid() {
      && WellFormed(sp)
      && (forall n :: n in sp.src ==>
            && sp.rename[n] in big.graph
            && big.graph[sp.rename[n]] == CopyNode(sp, sp.src[n])
            && sp.rename[n] !in big.feeds)
      && (forall r :: r in sp.inputMap ==>
            && sp.inputMap[r].node in big.graph
            && (big.graph[sp.inputMap[r].node].op.Merge? || big.graph[sp.inputMap[r].node].op.Switch?))
      && sp.pivot in big.graph
      && (big.graph[sp.pivot].op.Merge? || big.graph[sp.pivot].op.Switch?)
      && (forall k, n :: 0 <= k < |feeds| && n in sp.src ==> (n in feeds[k] <==> IsInput(sp, n)))
      && (forall k :: 0 <= k < |feeds| ==> FrameSafe(Source(k)))
    }

    /** The replacing outputs carry, in iteration `k`, what the source run `k` is fed with. */
    ghost predicate Fed(s: State<N>)
      requires Valid()
    {
      && (forall r, x :: r in sp.inputMap && At(sp.inputMap[r].node, x) in s ==>
            && IsBase(x)
            && Output(big.kernels, big.graph[sp.inputMap[r].node].op, s[At(sp.inputMap[r].node, x)], sp.inputMap[r].slot)
               == feeds[x.iter][r.node])
      && (forall x :: At(sp.pivot, x) in s ==> IsBase(x) && s[At(sp.pivot, x)].Fired?)
    }

    /** The activation of the copy of `n` in iteration `k` that corresponds to one of `n` in `q`. */
    function Copied(k: nat, n: N, q: Ctx): Firing<N>
      requires n in sp.rename
    {
      At(sp.rename[n], Embed(Base(k), q))
    }

    /** Iteration `k` of the copy in `s` is in the same state as the source run `w[k]`. */
    ghost predicate Simulates(s: State<N>, w: seq<State<N>>)
      requires WellFormed(sp)
    {
      && |w| == |feeds|
      && (forall k :: 0 <= k < |w| ==> Reachable(Source(k), w[k]))
      && (forall k, f :: 0 <= k < |w| && f in w[k] ==> f.node in sp.src)
      && (forall k, n, q {:trigger Copied(k, n, q)} {:trigger At(n, q) in w[k]} ::
            0 <= k < |w| && n in sp.src && !IsInput(sp, n) ==>
              && (At(n, q) in w[k] <==> Copied(k, n, q) in s)
              && (At(n, q) in w[k] ==> s[Copied(k, n, q)] == w[k][At(n, q)]))
      && (forall n, x {:trigger At(sp.rename[n], x)} ::
            n in sp.src && At(sp.rename[n], x) in s ==> InRange(x) && !IsInput(sp, n))
      && (forall k, r :: 0 <= k < |w| && r in sp.inputMap ==>
            (At(r.node, Root) in w[k] <==> At(sp.inputMap[r].node, Base(k)) in s))
    }
  }

  // ----- facts about source runs

  /** A placeholder runs at top level and passes on what it is fed. */
  lemma {:induction false} PlaceholderFires<N(!new)>(m: Machine<N>, run: seq<State<N>>, f: Firing<N>)
    requires IsRun(m, run) && f in run[|run|-1] && f.node in m.graph && m.graph[f.node].op.Placeholder?
    ensures f.ctx == Root && f.node in m.feeds && run[|run|-1][f] == FedOutcome(m.feeds[f.node])
    decreases |run|
  {
    if |run| > 1 {
      RunPrefix(m, run);
      var s, s' := run[|run|-2], run[|run|-1];
      var n, ctx, out :| Fires(m, s, n, ctx, out, s');
      if f != At(n, ctx) {
        PlaceholderFires(m, run[..|run|-1], f);
      }
    }
  }

  lemma PlaceholderDelivers<N(!new)>(m: Machine<N>, s: State<N>, n: N)
    requires Reachable(m, s) && n in m.graph && m.graph[n].op.Placeholder?
    ensures forall ctx, t :: Delivered(m, s, Ref(n, 0), ctx, t) ==>
              ctx == Root && At(n, Root) in s && n in m.feeds && t == m.feeds[n]
    ensures At(n, Root) in s ==> n in m.feeds && Delivered(m, s, Ref(n, 0), Root, m.feeds[n])
  {
    var run :| IsRun(m, run) && run[|run|-1] == s;
    forall x | At(n, x) in s
      ensures x == Root && n in m.feeds && s[At(n, x)] == FedOutcome(m.feeds[n])
    {
      PlaceholderFires(m, run, At(n, x));
    }
  }

  // ----- tokens of the copy are tokens of the source

  /** A node context moves inside an iteration exactly as it does in the source run. */
  lemma InnerReaches(op: Op, at: Ctx, out: Outcome, x: Ctx)
    requires at.Frame? && Reaches(op, at, out, x)
    requires op.NextIteration? || op.Exit? ==> !Inner(at).Root?
    ensures x.Frame? && Outer(x) == Outer(at) && Reaches(op, Inner(at), out, Inner(x))
  {
  }

  lemma EmbedReaches(op: Op, base: Ctx, at: Ctx, out: Outcome, x: Ctx)
    requires base.Frame? && base.parent.Root? && Reaches(op, at, out, x)
    ensures Reaches(op, Embed(base, at), out, Embed(base, x))
  {
  }

  lemma CopyDelivers<N(!new)>(site: Site<N>, s: State<N>, w: seq<State<N>>, r: Ref<N>, x: Ctx, t: Token)
    requires site.Valid() && site.Fed(s) && site.Simulates(s, w)
    requires Readable(site.sp, r)
    requires Delivered(site.big, s, Remap(site.sp, r), x, t)
    ensures site.InRange(x) && Delivered(site.Source(Outer(x).iter), w[Outer(x).iter], r, Inner(x), t)
  {
    var q := Remap(site.sp, r);
    var op := site.big.graph[q.node].op;
    var at :| At(q.node, at) in s && Reaches(op, at, s[At(q.node, at)], x)
              && t == Output(site.big.kernels, op, s[At(q.node, at)], q.slot);
    if r in site.sp.inputMap {
      InputDelivers(site, s, w, r, x);
    } else {
      InnerDelivers(site, s, w, r, at, x);
    }
  }

  lemma InputDelivers<N(!new)>(site: Site<N>, s: State<N>, w: seq<State<N>>, r: Ref<N>, x: Ctx)
    requires site.Valid() && site.Fed(s) && site.Simulates(s, w)
    requires r in site.sp.inputMap && At(site.sp.inputMap[r].node, x) in s
    ensures site.IsBase(x) && Outer(x) == x && Inner(x) == Root
    ensures r.node in site.feeds[x.iter]
    ensures Delivered(site.Source(x.iter), w[x.iter], r, Root, site.feeds[x.iter][r.node])
  {
    assert site.IsBase(x);
    assert x.parent == Root;
    assert x == site.Base(x.iter);
    PlaceholderDelivers(site.Source(x.iter), w[x.iter], r.node);
  }

  lemma InnerDelivers<N(!new)>(site: Site<N>, s: State<N>, w: seq<State<N>>, r: Ref<N>, at: Ctx, x: Ctx)
    requires WellFormed(site.sp) && site.Simulates(s, w)
    requires forall k :: 0 <= k < |site.feeds| ==> FrameSafe(site.Source(k))
    requires r.node in site.sp.src && At(site.sp.rename[r.node], at) in s
    requires Reaches(site.sp.src[r.node].op, at, s[At(site.sp.rename[r.node], at)], x)
    ensures site.InRange(x)
    ensures Delivered(site.Source(Outer(x).iter), w[Outer(x).iter], r, Inner(x),
                      Output(site.big.kernels, site.sp.src[r.node].op, s[At(site.sp.rename[r.node], at)], r.slot))
  {
    var k, f := Outer(at).iter, At(r.node, Inner(at));
    EmbedInner(at);
    assert Outer(at) == site.Base(k);
    assert site.Copied(k, r.node, Inner(at)) == At(site.sp.rename[r.node], at);
    assert f in w[k];
    assert w[k][f] == s[At(site.sp.rename[r.node], at)];
    InnerReaches(site.sp.src[r.node].op, at, w[k][f], x);
  }

  lemma SourceDelivers<N(!new)>(site: Site<N>, s: State<N>, w: seq<State<N>>, r: Ref<N>, k: nat, q: Ctx, t: Token)
    requires site.Valid() && site.Fed(s) && site.Simulates(s, w)
    requires Readable(site.sp, r) && k < |w|
    requires Delivered(site.Source(k), w[k], r, q, t)
    ensures Delivered(site.big, s, Remap(site.sp, r), Embed(site.Base(k), q), t)
  {
    var sp := site.sp;
    if r in sp.inputMap {
      PlaceholderDelivers(site.Source(k), w[k], r.node);
      assert At(sp.inputMap[r].node, site.Base(k)) in s;
    } else {
      var op := sp.src[r.node].op;
      var at :| At(r.node, at) in w[k] && Reaches(op, at, w[k][At(r.node, at)], q)
                && t == Output(site.big.kernels, op, w[k][At(r.node, at)], r.slot);
      EmbedReaches(op, site.Base(k), at, w[k][At(r.node, at)], q);
      assert site.Copied(k, r.node, at) in s;
    }
  }

  // ----- firings of the copy are firings of the source

  lemma {:induction false} RemapArgs<N(!new)>(sp: Splice<N>, refs: seq<Ref<N>>, ts: seq<Token>)
    requires WellFormed(sp) && |refs| == |ts| && forall t :: t in ts ==> t.Live?
    ensures DataArgs(RemapAll(sp, refs), ts) == DataArgs(refs, ts)
  {
    if refs != [] {
      var k := |refs| - 1;
      RemapArgs(sp, refs[..k], ts[..k]);
      assert RemapAll(sp, refs)[..k] == RemapAll(sp, refs[..k]);
    }
  }

  lemma PivotArgs<N(!new)>(refs: seq<Ref<N>>, ts: seq<Token>, pivot: Ref<N>, t: Token)
    requires |refs| == |ts| && t.Live? && pivot.slot == CONTROL_SLOT
    ensures Combine(refs + [pivot], ts + [t]) == Combine(refs, ts)
  {
    assert Dead in ts + [t] <==> Dead in ts;
    assert (refs + [pivot])[..|refs|] == refs && (ts + [t])[..|ts|] == ts;
  }

  lemma RemapCombine<N(!new)>(sp: Splice<N>, refs: seq<Ref<N>>, ts: seq<Token>)
    requires WellFormed(sp) && |refs| == |ts|
    ensures Combine(RemapAll(sp, refs), ts) == Combine(refs, ts)
  {
    if Dead !in ts {
      RemapArgs(sp, refs, ts);
    }
  }

  lemma PivotDelivers<N(!new)>(site: Site<N>, s: State<N>, x: Ctx, t: Token)
    requires site.Valid() && site.Fed(s)
    ensures Delivered(site.big, s, Ref(site.sp.pivot, CONTROL_SLOT), x, t)
            ==> site.IsBase(x) && At(site.sp.pivot, x) in s && t.Live?
    ensures At(site.sp.pivot, x) in s
            ==> Delivered(site.big, s, Ref(site.sp.pivot, CONTROL_SLOT), x, Live(Tensor([])))
  {
  }

  /** Inputs of the copy of `n` that arrived in `x` arrived in the source run too. */
  lemma CopyInputs<N(!new)>(site: Site<N>, s: State<N>, w: seq<State<N>>, n: N, x: Ctx)
    requires site.Valid() && site.Fed(s) && site.Simulates(s, w) && n in site.sp.src
    ensures forall i, t {:trigger Delivered(site.big, s, Remap(site.sp, site.sp.src[n].inputs[i]), x, t)} ::
              (0 <= i < |site.sp.src[n].inputs|
               && Delivered(site.big, s, Remap(site.sp, site.sp.src[n].inputs[i]), x, t)) ==>
              && site.InRange(x)
              && Delivered(site.Source(Outer(x).iter), w[Outer(x).iter], site.sp.src[n].inputs[i], Inner(x), t)
  {
    var refs := site.sp.src[n].inputs;
    forall i, t | 0 <= i < |refs| && Delivered(site.big, s, Remap(site.sp, refs[i]), x, t)
      ensures site.InRange(x) && Delivered(site.Source(Outer(x).iter), w[Outer(x).iter], refs[i], Inner(x), t)
    {
      CopyDelivers(site, s, w, refs[i], x, t);
    }
  }

  lemma SourceInputs<N(!new)>(site: Site<N>, s: State<N>, w: seq<State<N>>, n: N, k: nat, q: Ctx)
    requires site.Valid() && site.Fed(s) && site.Simulates(s, w) && n in site.sp.src && k < |w|
    ensures forall i, t {:trigger Delivered(site.Source(k), w[k], site.sp.src[n].inputs[i], q, t)} ::
              (0 <= i < |site.sp.src[n].inputs|
               && Delivered(site.Source(k), w[k], site.sp.src[n].inputs[i], q, t)) ==>
              Delivered(site.big, s, Remap(site.sp, site.sp.src[n].inputs[i]), Embed(site.Base(k), q), t)
  {
    var refs := site.sp.src[n].inputs;
    forall i, t | 0 <= i < |refs| && Delivered(site.Source(k), w[k], refs[i], q, t)
      ensures Delivered(site.big, s, Remap(site.sp, refs[i]), Embed(site.Base(k), q), t)
    {
      SourceDelivers(site, s, w, refs[i], k, q, t);
    }
  }

  /** Leaving out a live pivot does not change what a node does. */
  lemma DropPivot<N(!new)>(a: Machine<N>, s: State<N>, x: Ctx, ts: seq<Token>, b: Machine<N>, s': State<N>, y: Ctx,
                  sp: Splice<N>, node: Node<N>, out: Outcome)
    requires WellFormed(sp) && NodeFires(a, s, CopyNode(sp, node), x, ts, out)
    requires forall i, t :: 0 <= i < |node.inputs| && Delivered(a, s, Remap(sp, node.inputs[i]), x, t) ==>
               Delivered(b, s', node.inputs[i], y, t)
    requires forall t :: Delivered(a, s, Ref(sp.pivot, CONTROL_SLOT), x, t) ==> t.Live?
    requires node.inputs == [] ==> y == Root
    ensures exists ts' :: NodeFires(b, s', node, y, ts', out)
  {
    hide Delivered;
    var k, refs := |node.inputs|, CopyNode(sp, node).inputs;
    var ts' := ts[..k];
    RemapCombine(sp, node.inputs, ts');
    if AllMapped(sp, node.inputs) {
      assert Delivered(a, s, refs[k], x, ts[k]);
      PivotArgs(RemapAll(sp, node.inputs), ts', refs[k], ts[k]);
      assert ts == ts' + [ts[k]];
    } else {
      assert ts == ts' && refs == RemapAll(sp, node.inputs);
    }
    forall i | 0 <= i < k
      ensures Delivered(b, s', node.inputs[i], y, ts'[i])
    {
      assert Delivered(a, s, refs[i], x, ts[i]);
    }
    assert NodeFires(b, s', node, y, ts', out);
  }

  lemma AddPivot<N(!new)>(a: Machine<N>, s: State<N>, x: Ctx, b: Machine<N>, s': State<N>, y: Ctx, ts: seq<Token>,
                 sp: Splice<N>, node: Node<N>, out: Outcome)
    requires WellFormed(sp) && NodeFires(b, s', node, y, ts, out)
    requires forall i, t :: 0 <= i < |node.inputs| && Delivered(b, s', node.inputs[i], y, t) ==>
               Delivered(a, s, Remap(sp, node.inputs[i]), x, t)
    requires AllMapped(sp, node.inputs) ==> Delivered(a, s, Ref(sp.pivot, CONTROL_SLOT), x, Live(Tensor([])))
    ensures exists ts' :: NodeFires(a, s, CopyNode(sp, node), x, ts', out)
  {
    hide Delivered;
    var k, refs := |node.inputs|, CopyNode(sp, node).inputs;
    RemapCombine(sp, node.inputs, ts);
    if AllMapped(sp, node.inputs) {
      PivotArgs(RemapAll(sp, node.inputs), ts, refs[k], Live(Tensor([])));
      assert NodeFires(a, s, CopyNode(sp, node), x, ts + [Live(Tensor([]))], out);
    } else {
      assert refs == RemapAll(sp, node.inputs);
      assert NodeFires(a, s, CopyNode(sp, node), x, ts, out);
    }
  }

  /** The copy reads from an Enter exactly where the source does. */
  ghost predicate SameEnters<N(!new)>(a: Machine<N>, b: Machine<N>, sp: Splice<N>, refs: seq<Ref<N>>) {
    forall i :: 0 <= i < |refs| ==>
      ((Remap(sp, refs[i]).node in a.graph && a.graph[Remap(sp, refs[i]).node].op.Enter?)
       <==> (refs[i].node in b.graph && b.graph[refs[i].node].op.Enter?))
  }

  lemma DropMergePivot<N(!new)>(a: Machine<N>, s: State<N>, x: Ctx, b: Machine<N>, s': State<N>, y: Ctx,
                       sp: Splice<N>, node: Node<N>, out: Outcome) 
    requires WellFormed(sp) && MergeFires(a, s, CopyNode(sp, node).inputs, x, out)
    requires forall i, t :: 0 <= i < |node.inputs| && Delivered(a, s, Remap(sp, node.inputs[i]), x, t) ==>
               Delivered(b, s', node.inputs[i], y, t)
    requires SameEnters(a, b, sp, node.inputs)
    ensures MergeFires(b, s', node.inputs, y, out)
  {
    hide Delivered;
    var refs := CopyNode(sp, node).inputs;
    assert forall i :: 0 <= i < |node.inputs| ==> refs[i] == Remap(sp, node.inputs[i]);
    assert forall i :: 0 <= i < |node.inputs| ==> (refs[i].slot == CONTROL_SLOT <==> node.inputs[i].slot == CONTROL_SLOT);
    match out {
      case Fired(args) =>
        assert Delivered(a, s, refs[args[1].i], x, Live(args[0]));
      case Skipped =>
        var i :| && 0 <= i < |refs|
             && refs[i].slot != CONTROL_SLOT
             && Delivered(a, s, refs[i], x, Dead)
             && ((refs[i].node in a.graph && a.graph[refs[i].node].op.Enter?)
                 || forall j :: 0 <= j < |refs| && refs[j].slot != CONTROL_SLOT ==> Delivered(a, s, refs[j], x, Dead));
        assert Delivered(b, s', node.inputs[i], y, Dead);
    }
  }

  lemma AddMergePivot<N(!new)>(a: Machine<N>, s: State<N>, x: Ctx, b: Machine<N>, s': State<N>, y: Ctx,
                      sp: Splice<N>, node: Node<N>, out: Outcome)
    requires WellFormed(sp) && MergeFires(b, s', node.inputs, y, out)
    requires forall i, t :: 0 <= i < |node.inputs| && Delivered(b, s', node.inputs[i], y, t) ==>
               Delivered(a, s, Remap(sp, node.inputs[i]), x, t)
    requires AllMapped(sp, node.inputs) ==> Delivered(a, s, Ref(sp.pivot, CONTROL_SLOT), x, Live(Tensor([])))
    requires SameEnters(a, b, sp, node.inputs)
    ensures MergeFires(a, s, CopyNode(sp, node).inputs, x, out)
  {
    hide Delivered;
    var refs := CopyNode(sp, node).inputs;
    assert forall i :: 0 <= i < |node.inputs| ==> refs[i] == Remap(sp, node.inputs[i]);
    assert forall i :: 0 <= i < |node.inputs| ==> (refs[i].slot == CONTROL_SLOT <==> node.inputs[i].slot == CONTROL_SLOT);
    forall i | 0 <= i < |refs| && refs[i].slot == CONTROL_SLOT
      ensures exists t :: Delivered(a, s, refs[i], x, t)
    {
      if i < |node.inputs| {
        var t :| Delivered(b, s', node.inputs[i], y, t);
        assert Delivered(a, s, refs[i], x, t);
      }
    }
    if out.Skipped? {
      var i :| && 0 <= i < |node.inputs|
               && node.inputs[i].slot != CONTROL_SLOT
               && Delivered(b, s', node.inputs[i], y, Dead)
               && ((node.inputs[i].node in b.graph && b.graph[node.inputs[i].node].op.Enter?)
                   || forall j :: 0 <= j < |node.inputs| && node.inputs[j].slot != CONTROL_SLOT ==>
                        Delivered(b, s', node.inputs[j], y, Dead));
      assert Delivered(a, s, refs[i], x, Dead);
      if !(node.inputs[i].node in b.graph && b.graph[node.inputs[i].node].op.Enter?) {
        forall j | 0 <= j < |refs| && refs[j].slot != CONTROL_SLOT
          ensures Delivered(a, s, refs[j], x, Dead)
        {
          assert j < |node.inputs| && Delivered(b, s', node.inputs[j], y, Dead);
        }
      }
    }
  }

  lemma CopyEnters<N(!new)>(site: Site<N>, n: N, k: nat)
    requires site.Valid() && n in site.sp.src && k < |site.feeds|
    ensures SameEnters(site.big, site.Source(k), site.sp, site.sp.src[n].inputs)
  {
  }

  lemma CopyNodeFires<N(!new)>(site: Site<N>, s: State<N>, w: seq<State<N>>, n: N, x: Ctx, ts: seq<Token>, out: Outcome)
    requires site.Valid() && site.Fed(s) && site.Simulates(s, w) && n in site.sp.src
    requires NodeFires(site.big, s, CopyNode(site.sp, site.sp.src[n]), x, ts, out)
    ensures site.InRange(x)
    ensures exists ts' :: NodeFires(site.Source(Outer(x).iter), w[Outer(x).iter], site.sp.src[n], Inner(x), ts', out)
  {
    var sp, node := site.sp, site.sp.src[n];
    var refs, k := CopyNode(sp, node).inputs, |node.inputs|;
    CopyInputs(site, s, w, n, x);
    if AllMapped(sp, node.inputs) {
      assert Delivered(site.big, s, refs[k], x, ts[k]);
      PivotDelivers(site, s, x, ts[k]);
    } else {
      assert 0 < k && Delivered(site.big, s, refs[0], x, ts[0]);
    }
    forall t | Delivered(site.big, s, Ref(sp.pivot, CONTROL_SLOT), x, t)
      ensures t.Live?
    {
      PivotDelivers(site, s, x, t);
    }
    DropPivot(site.big, s, x, ts, site.Source(Outer(x).iter), w[Outer(x).iter], Inner(x), sp, node, out);
  }

  lemma MergeInput<N(!new)>(m: Machine<N>, s: State<N>, refs: seq<Ref<N>>, x: Ctx, out: Outcome) returns (i: nat, t: Token)
    requires MergeFires(m, s, refs, x, out)
    ensures i < |refs| && refs[i].slot != CONTROL_SLOT && Delivered(m, s, refs[i], x, t)
  {
    if out.Fired? {
      i, t := out.args[1].i, Live(out.args[0]);
    } else {
      i :| 0 <= i < |refs| && refs[i].slot != CONTROL_SLOT && Delivered(m, s, refs[i], x, Dead);
      t := Dead;
    }
  }

  lemma CopyMergeFires<N(!new)>(site: Site<N>, s: State<N>, w: seq<State<N>>, n: N, x: Ctx, out: Outcome)
    requires site.Valid() && site.Fed(s) && site.Simulates(s, w) && n in site.sp.src
    requires MergeFires(site.big, s, CopyNode(site.sp, site.sp.src[n]).inputs, x, out)
    ensures site.InRange(x)
    ensures MergeFires(site.Source(Outer(x).iter), w[Outer(x).iter], site.sp.src[n].inputs, Inner(x), out)
  {
    var sp, node := site.sp, site.sp.src[n];
    var refs := CopyNode(sp, node).inputs;
    CopyInputs(site, s, w, n, x);
    var i, t := MergeInput(site.big, s, refs, x, out);
    assert i < |node.inputs| && refs[i] == Remap(sp, node.inputs[i]);
    CopyEnters(site, n, Outer(x).iter);
    DropMergePivot(site.big, s, x, site.Source(Outer(x).iter), w[Outer(x).iter], Inner(x), sp, node, out);
  }

  lemma CopyFires<N(!new)>(site: Site<N>, s: State<N>, w: seq<State<N>>, n: N, x: Ctx, out: Outcome)
    requires site.Valid() && site.Fed(s) && site.Simulates(s, w) && n in site.sp.src
    requires CanFire(site.big, s, site.sp.rename[n], x, out)
    ensures !IsInput(site.sp, n) && site.InRange(x)
    ensures CanFire(site.Source(Outer(x).iter), w[Outer(x).iter], n, Inner(x), out)
  {
    var node := site.sp.src[n];
    assert site.big.graph[site.sp.rename[n]] == CopyNode(site.sp, node);
    if node.op.Merge? {
      CopyMergeFires(site, s, w, n, x, out);
    } else {
      assert !node.op.Placeholder?;
      var ts :| NodeFires(site.big, s, CopyNode(site.sp, node), x, ts, out);
      CopyNodeFires(site, s, w, n, x, ts, out);
    }
  }

  /** In an iteration whose pivot has run, nodes that depend on nothing else may run. */
  lemma PivotReady<N(!new)>(site: Site<N>, s: State<N>, w: seq<State<N>>, node: Node<N>, k: nat, q: Ctx, i: nat, t: Token)
    requires site.Valid() && site.Fed(s) && site.Simulates(s, w) && k < |w|
    requires At(site.sp.pivot, site.Base(k)) in s && AllMapped(site.sp, node.inputs)
    requires q == Root || (i < |node.inputs| && Delivered(site.Source(k), w[k], node.inputs[i], q, t))
    ensures Delivered(site.big, s, Ref(site.sp.pivot, CONTROL_SLOT), Embed(site.Base(k), q), Live(Tensor([])))
  {
    if q != Root {
      assert node.inputs[i] in site.sp.inputMap;
      PlaceholderDelivers(site.Source(k), w[k], node.inputs[i].node);
    }
    PivotDelivers(site, s, site.Base(k), Live(Tensor([])));
  }

  lemma SourceNodeFires<N(!new)>(site: Site<N>, s: State<N>, w: seq<State<N>>, n: N, k: nat, q: Ctx, ts: seq<Token>, out: Outcome)
    requires site.Valid() && site.Fed(s) && site.Simulates(s, w) && n in site.sp.src && k < |w|
    requires At(site.sp.pivot, site.Base(k)) in s
    requires NodeFires(site.Source(k), w[k], site.sp.src[n], q, ts, out)
    ensures exists ts' :: NodeFires(site.big, s, CopyNode(site.sp, site.sp.src[n]), Embed(site.Base(k), q), ts', out)
  {
    var node := site.sp.src[n];
    SourceInputs(site, s, w, n, k, q);
    if AllMapped(site.sp, node.inputs) {
      PivotReady(site, s, w, node, k, q, 0, if node.inputs == [] then Dead else ts[0]);
    }
    AddPivot(site.big, s, Embed(site.Base(k), q), site.Source(k), w[k], q, ts, site.sp, node, out);
  }

  lemma SourceMergeFires<N(!new)>(site: Site<N>, s: State<N>, w: seq<State<N>>, n: N, k: nat, q: Ctx, out: Outcome)
    requires site.Valid() && site.Fed(s) && site.Simulates(s, w) && n in site.sp.src && k < |w|
    requires At(site.sp.pivot, site.Base(k)) in s
    requires MergeFires(site.Source(k), w[k], site.sp.src[n].inputs, q, out)
    ensures MergeFires(site.big, s, CopyNode(site.sp, site.sp.src[n]).inputs, Embed(site.Base(k), q), out)
  {
    var node := site.sp.src[n];
    SourceInputs(site, s, w, n, k, q);
    CopyEnters(site, n, k);
    if AllMapped(site.sp, node.inputs) {
      var i, t :| 0 <= i < |node.inputs| && Delivered(site.Source(k), w[k], node.inputs[i], q, t);
      PivotReady(site, s, w, node, k, q, i, t);
    }
    AddMergePivot(site.big, s, Embed(site.Base(k), q), site.Source(k), w[k], q, site.sp, node, out);
  }

  /** A source node that can run can run in the copy too. */
  lemma SourceFires<N(!new)>(site: Site<N>, s: State<N>, w: seq<State<N>>, n: N, k: nat, q: Ctx, out: Outcome)
    requires site.Valid() && site.Fed(s) && site.Simulates(s, w) && n in site.sp.src && k < |w|
    requires !site.sp.src[n].op.Placeholder?
    requires At(site.sp.pivot, site.Base(k)) in s
    requires CanFire(site.Source(k), w[k], n, q, out)
    ensures CanFire(site.big, s, site.sp.rename[n], Embed(site.Base(k), q), out)
  {
    if site.sp.src[n].op.Merge? {
      SourceMergeFires(site, s, w, n, k, q, out);
    } else {
      var ts :| NodeFires(site.Source(k), w[k], site.sp.src[n], q, ts, out);
      SourceNodeFires(site, s, w, n, k, q, ts, out);
    }
  }

  // ----- one step of the larger machine

  lemma CopyStepSource<N(!new)>(site: Site<N>, s: State<N>, w: seq<State<N>>, n: N, x: Ctx, out: Outcome, s': State<N>)
    requires site.Valid() && site.Fed(s) && site.Simulates(s, w) && n in site.sp.src
    requires Fires(site.big, s, site.sp.rename[n], x, out, s')
    ensures !IsInput(site.sp, n) && site.InRange(x)
    ensures At(n, Inner(x)) !in w[Outer(x).iter]
    ensures Reachable(site.Source(Outer(x).iter), w[Outer(x).iter][At(n, Inner(x)) := out])
  {
    CopyFires(site, s, w, n, x, out);
    var k, f := Outer(x).iter, At(n, Inner(x));
    EmbedInner(x);
    assert Outer(x) == site.Base(k);
    assert site.Copied(k, n, f.ctx) !in s;
    assert Fires(site.Source(k), w[k], n, Inner(x), out, w[k][f := out]);
    ReachableStep(site.Source(k), w[k], n, Inner(x), out, w[k][f := out]);
  }

  /** A copied node runs: the source run of that iteration takes the same step. */
  lemma CopyStep<N(!new)>(site: Site<N>, s: State<N>, w: seq<State<N>>, n: N, x: Ctx, out: Outcome, s': State<N>)
    returns (w': seq<State<N>>)
    requires WellFormed(site.sp) && site.Simulates(s, w) && n in site.sp.src
    requires s' == s[At(site.sp.rename[n], x) := out]
    requires forall r :: r in site.sp.inputMap ==> site.sp.inputMap[r].node != site.sp.rename[n]
    requires !IsInput(site.sp, n) && site.InRange(x)
    requires At(n, Inner(x)) !in w[Outer(x).iter]
    requires Reachable(site.Source(Outer(x).iter), w[Outer(x).iter][At(n, Inner(x)) := out])
    ensures site.Simulates(s', w')
  {
    var k, f := Outer(x).iter, At(n, Inner(x));
    w' := w[k := w[k][f := out]];
    EmbedInner(x);
    assert Outer(x) == site.Base(k);
    forall j, m, q | 0 <= j < |w'| && m in site.sp.src && !IsInput(site.sp, m)
      ensures At(m, q) in w'[j] <==> site.Copied(j, m, q) in s'
      ensures At(m, q) in w'[j] ==> s'[site.Copied(j, m, q)] == w'[j][At(m, q)]
    {
      InnerEmbed(site.Base(j), q);
      assert At(m, q) in w[j] <==> site.Copied(j, m, q) in s;
    }
    forall j, r | 0 <= j < |w'| && r in site.sp.inputMap
      ensures At(r.node, Root) in w'[j] <==> At(site.sp.inputMap[r].node, site.Base(j)) in s'
    {
      assert IsInput(site.sp, r.node);
    }
  }

  /** A replacing output arrives: the source run gets the corresponding input. */
  lemma InputStep<N(!new)>(site: Site<N>, s: State<N>, w: seq<State<N>>, r: Ref<N>, k: nat, out: Outcome, s': State<N>)
    returns (w': seq<State<N>>)
    requires WellFormed(site.sp) && site.Simulates(s, w)
    requires r in site.sp.inputMap && k < |w| && r.node in site.feeds[k]
    requires At(site.sp.inputMap[r].node, site.Base(k)) !in s
    requires s' == s[At(site.sp.inputMap[r].node, site.Base(k)) := out]
    requires forall n :: n in site.sp.src ==> site.sp.rename[n] != site.sp.inputMap[r].node
    requires forall q :: q in site.sp.inputMap && q != r ==> site.sp.inputMap[q].node != site.sp.inputMap[r].node
    ensures site.Simulates(s', w')
  {
    var f, fed := At(r.node, Root), FedOutcome(site.feeds[k][r.node]);
    assert f !in w[k] && IsInput(site.sp, r.node);
    assert Fires(site.Source(k), w[k], r.node, Root, fed, w[k][f := fed]);
    ReachableStep(site.Source(k), w[k], r.node, Root, fed, w[k][f := fed]);
    w' := w[k := w[k][f := fed]];
    InputStepInputs(site, s, w, r, k, out, fed);
  }

  lemma InputStepInputs<N(!new)>(site: Site<N>, s: State<N>, w: seq<State<N>>, r: Ref<N>, k: nat, out: Outcome, fed: Outcome)
    requires WellFormed(site.sp) && site.Simulates(s, w)
    requires r in site.sp.inputMap && k < |w|
    requires forall q :: q in site.sp.inputMap && q != r ==> site.sp.inputMap[q].node != site.sp.inputMap[r].node
    ensures var s' := s[At(site.sp.inputMap[r].node, site.Base(k)) := out];
            var w' := w[k := w[k][At(r.node, Root) := fed]];
            forall j, q :: 0 <= j < |w| && q in site.sp.inputMap ==>
              (At(q.node, Root) in w'[j] <==> At(site.sp.inputMap[q].node, site.Base(j)) in s')
  {
    assert forall q :: q in site.sp.inputMap && q.node == r.node ==> q == r;
  }

  /** A step elsewhere changes nothing here. */
  lemma OtherStep<N(!new)>(site: Site<N>, s: State<N>, w: seq<State<N>>, n: N, x: Ctx, out: Outcome)
    requires site.Valid() && site.Simulates(s, w)
    requires forall m :: m in site.sp.src ==> site.sp.rename[m] != n
    requires forall r :: r in site.sp.inputMap ==> site.sp.inputMap[r].node != n
    ensures site.Simulates(s[At(n, x) := out], w)
  {
  }

  lemma SimulatesStart<N(!new)>(site: Site<N>) returns (w: seq<State<N>>)
    requires site.Valid()
    ensures site.Simulates(map[], w)
  {
    w := seq(|site.feeds|, _ => map[]);
    forall k | 0 <= k < |w|
      ensures Reachable(site.Source(k), w[k])
    {
      ReachableStart(site.Source(k));
    }
  }

  lemma CopyFired<N(!new)>(site: Site<N>, s: State<N>, w: seq<State<N>>, k: nat, n: N, q: Ctx)
    requires WellFormed(site.sp) && site.Simulates(s, w) && k < |w| && n in site.sp.src
    requires site.Copied(k, n, q) in s
    ensures At(n, q) in w[k]
  {
    InnerEmbed(site.Base(k), q);
  }

  lemma SourceFired<N(!new)>(site: Site<N>, s: State<N>, w: seq<State<N>>, k: nat, n: N, q: Ctx, out: Outcome)
    requires site.Valid() && site.Fed(s) && site.Simulates(s, w) && k < |w| && n in site.sp.src
    requires At(site.sp.pivot, site.Base(k)) in s && !site.sp.src[n].op.Placeholder?
    requires forall x, o :: CanFire(site.big, s, site.sp.rename[n], x, o) ==> At(site.sp.rename[n], x) in s
    requires CanFire(site.Source(k), w[k], n, q, out)
    ensures At(n, q) in w[k]
  {
    SourceFires(site, s, w, n, k, q, out);
    CopyFired(site, s, w, k, n, q);
  }

  /** If nothing is left to fire, the source run of a started iteration is finished too. */
  lemma SourceQuiescent<N(!new)>(site: Site<N>, s: State<N>, w: seq<State<N>>, k: nat)
    requires site.Valid() && site.Fed(s) && site.Simulates(s, w) && k < |w|
    requires Quiescent(site.big, s)
    requires At(site.sp.pivot, site.Base(k)) in s
    requires forall r :: r in site.sp.inputMap ==> At(site.sp.inputMap[r].node, site.Base(k)) in s
    ensures Quiescent(site.Source(k), w[k])
  {
    forall n, q, out | n in site.sp.src && CanFire(site.Source(k), w[k], n, q, out)
      ensures At(n, q) in w[k]
    {
      if site.sp.src[n].op.Placeholder? {
        assert IsInput(site.sp, n);
      } else {
        SourceFired(site, s, w, k, n, q, out);
      }
    }
  }
}
