/**
 Seven nodes that never come to rest: the graph that TF_FinishWhile makes of "while (x < 10) x := 5".
 In every iteration the constant is set free by the Switch, whatever the condition says, and sends
 the loop into the next one.
 */
module EndlessLoop {
  import opened Dataflow
  import opened WhileLoops
  import opened LoopBounds
  import opened TestGraphs

  datatype Cells<N(!new, ==)> = Cells(start: Ref<N>, frame: string, enter: N, merge: N, ten: N, less: N, switch: N, five: N, next: N)

  ghost predicate Wired<N(!new)>(m: Machine<N>, c: Cells<N>) {
    && m.kernels == Scalars && c.start.slot != CONTROL_SLOT
    && c.enter in m.graph && m.graph[c.enter] == Node(Enter(c.frame), [c.start])
    && c.merge in m.graph && m.graph[c.merge] == Node(Merge, [Ref(c.enter, 0), Ref(c.next, 0)])
    && c.ten in m.graph && m.graph[c.ten] == Node(Kernel("Const 10"), [Ref(c.merge, CONTROL_SLOT)])
    && c.less in m.graph && m.graph[c.less] == Node(Kernel("Less"), [Ref(c.merge, 0), Ref(c.ten, 0)])
    && c.switch in m.graph && m.graph[c.switch] == Node(Switch, [Ref(c.merge, 0), Ref(c.less, 0)])
    && c.five in m.graph && m.graph[c.five] == Node(Kernel("Const 5"), [Ref(c.switch, CONTROL_SLOT)])
    && c.next in m.graph && m.graph[c.next] == Node(NextIteration, [Ref(c.five, 0)])
  }

  predicate Scalar(v: Value) { v.Tensor? && |v.data| == 1 }

  /** How each of the nodes runs: never skipped, on scalars. */
  ghost predicate Regular<N(!new)>(c: Cells<N>, n: N, out: Outcome) {
    && (n == c.enter ==> out.Fired? && |out.args| == 1 && Scalar(out.args[0]))
    && (n == c.merge ==> out.Fired? && |out.args| == 2 && Scalar(out.args[0]))
    && (n == c.ten || n == c.five ==> out == Fired([]))
    && (n == c.less ==> out.Fired? && |out.args| == 2 && Scalar(out.args[0]) && Scalar(out.args[1]))
    && (n == c.switch ==> out.Fired? && |out.args| == 2 && Scalar(out.args[0]) && out.args[1].Bool?)
    && (n == c.next ==> out.Fired? && |out.args| == 1 && Scalar(out.args[0]))
  }

  ghost predicate AllRegular<N(!new)>(c: Cells<N>, s: State<N>) {
    forall f :: f in s ==> Regular(c, f.node, s[f])
  }

  /** All that arrives from the nodes is live. */
  lemma RegularTokens<N(!new)>(m: Machine<N>, c: Cells<N>, s: State<N>, r: Ref<N>, x: Ctx, t: Token)
    requires Wired(m, c) && AllRegular(c, s) && Delivered(m, s, r, x, t)
    ensures r == Ref(c.enter, 0) || r == Ref(c.merge, 0) || r == Ref(c.ten, 0) || r == Ref(c.five, 0) || r == Ref(c.next, 0) ==>
              t.Live? && Scalar(t.v)
    ensures r == Ref(c.less, 0) ==> t.Live? && t.v.Bool?
    ensures r == Ref(c.merge, CONTROL_SLOT) || r == Ref(c.switch, CONTROL_SLOT) ==> t.Live?
  {
    var op := m.graph[r.node].op;
    var at :| At(r.node, at) in s && Reaches(op, at, s[At(r.node, at)], x) && t == Output(m.kernels, op, s[At(r.node, at)], r.slot);
    assert Regular(c, r.node, s[At(r.node, at)]);
  }

  lemma NoArgs<N(!new)>(r: Ref<N>, t: Token)
    requires r.slot == CONTROL_SLOT && t.Live?
    ensures DataArgs([r], [t]) == [] && Combine([r], [t]) == Fired([])
  {
    assert [r][..0] == [] && [t][..0] == [];
    assert DataArgs([r], [t]) == DataArgs([r][..0], [t][..0]) + [];
  }

  lemma ControlInput<N(!new)>(m: Machine<N>, s: State<N>, op: Op, r: Ref<N>, x: Ctx, ts: seq<Token>, out: Outcome)
    requires NodeFires(m, s, Node(op, [r]), x, ts, out) && r.slot == CONTROL_SLOT
    ensures |ts| == 1 && Delivered(m, s, r, x, ts[0]) && (ts[0].Live? ==> out == Fired([]))
  {
    assert Delivered(m, s, [r][0], x, ts[0]);
    assert ts == [ts[0]];
    if ts[0].Live? {
      NoArgs(r, ts[0]);
    }
  }

  lemma RegularStep<N(!new)>(m: Machine<N>, c: Cells<N>, s: State<N>, n: N, x: Ctx, out: Outcome)
    requires Wired(m, c) && AllRegular(c, s) && n in m.graph && CanFire(m, s, n, x, out)
    requires forall y, t :: Delivered(m, s, c.start, y, t) ==> t.Live? && Scalar(t.v)
    ensures Regular(c, n, out)
  {
    hide AllRegular, Delivered, NodeFires, Scalars;
    if n == c.merge {
      MergeRegular(m, c, s, x, out);
    } else if n == c.enter {
      var ts :| NodeFires(m, s, m.graph[n], x, ts, out);
      OneInput(m, s, Enter(c.frame), c.start, x, ts, out);
    } else if n == c.ten {
      var ts :| NodeFires(m, s, m.graph[n], x, ts, out);
      ControlInput(m, s, m.graph[n].op, Ref(c.merge, CONTROL_SLOT), x, ts, out);
      RegularTokens(m, c, s, Ref(c.merge, CONTROL_SLOT), x, ts[0]);
    } else if n == c.five {
      var ts :| NodeFires(m, s, m.graph[n], x, ts, out);
      ControlInput(m, s, m.graph[n].op, Ref(c.switch, CONTROL_SLOT), x, ts, out);
      RegularTokens(m, c, s, Ref(c.switch, CONTROL_SLOT), x, ts[0]);
    } else if n == c.less || n == c.switch {
      var q := if n == c.less then Ref(c.ten, 0) else Ref(c.less, 0);
      var ts :| NodeFires(m, s, m.graph[n], x, ts, out);
      TwoInputs(m, s, m.graph[n].op, Ref(c.merge, 0), q, x, ts, out);
      RegularTokens(m, c, s, Ref(c.merge, 0), x, ts[0]);
      RegularTokens(m, c, s, q, x, ts[1]);
    } else if n == c.next {
      var ts :| NodeFires(m, s, m.graph[n], x, ts, out);
      OneInput(m, s, NextIteration, Ref(c.five, 0), x, ts, out);
      RegularTokens(m, c, s, Ref(c.five, 0), x, ts[0]);
    }
  }

  lemma MergeRegular<N(!new)>(m: Machine<N>, c: Cells<N>, s: State<N>, x: Ctx, out: Outcome)
    requires Wired(m, c) && AllRegular(c, s) && MergeFires(m, s, [Ref(c.enter, 0), Ref(c.next, 0)], x, out)
    ensures out.Fired? && |out.args| == 2 && Scalar(out.args[0])
  {
    hide AllRegular, Delivered;
    var refs := [Ref(c.enter, 0), Ref(c.next, 0)];
    if out.Fired? {
      RegularTokens(m, c, s, refs[out.args[1].i], x, Live(out.args[0]));
    } else {
      var i :| 0 <= i < 2 && Delivered(m, s, refs[i], x, Dead);
      RegularTokens(m, c, s, refs[i], x, Dead);
    }
  }

  lemma {:induction false} RegularRun<N(!new)>(m: Machine<N>, c: Cells<N>, v: Value, run: seq<State<N>>)
    requires Wired(m, c) && Denotes(m, c.start, v) && Scalar(v) && IsRun(m, run)
    ensures AllRegular(c, run[|run|-1])
    decreases |run|
  {
    hide Wired, CanFire, Regular, Delivered;
    if |run| > 1 {
      RunPrefix(m, run);
      RegularRun(m, c, v, run[..|run|-1]);
      var s, s' := run[|run|-2], run[|run|-1];
      assert run[..|run|-1][|run|-2] == s && Reachable(m, s);
      var n, x, out :| Fires(m, s, n, x, out, s');
      RegularStep(m, c, s, n, x, out);
    }
  }

  // ----- one iteration leads to the next

  lemma ControlFires<N(!new)>(m: Machine<N>, s: State<N>, op: Op, r: Ref<N>, x: Ctx, v: Value)
    requires Delivered(m, s, r, x, Live(v)) && r.slot == CONTROL_SLOT && !op.Switch?
    ensures exists ts :: NodeFires(m, s, Node(op, [r]), x, ts, Fired([]))
  {
    var ts := [Live(v)];
    NoArgs(r, Live(v));
    assert NodeFires(m, s, Node(op, [r]), x, ts, Fired([]));
  }

  lemma PairFires<N(!new)>(m: Machine<N>, s: State<N>, op: Op, r: Ref<N>, q: Ref<N>, x: Ctx, v: Value, w: Value)
    requires Delivered(m, s, r, x, Live(v)) && Delivered(m, s, q, x, Live(w)) && !op.Switch?
    requires r.slot != CONTROL_SLOT && q.slot != CONTROL_SLOT
    ensures exists ts :: NodeFires(m, s, Node(op, [r, q]), x, ts, Fired([v, w]))
  {
    var ts := [Live(v), Live(w)];
    DataArgsOne(r, Live(v));
    assert [r, q][..1] == [r] && ts[..1] == [Live(v)];
    assert NodeFires(m, s, Node(op, [r, q]), x, ts, Fired([v, w]));
  }

  /** What a node that has run puts on an output in its own context. */
  lemma Puts<N(!new)>(m: Machine<N>, s: State<N>, n: N, x: Ctx, slot: int)
    requires n in m.graph && At(n, x) in s && (m.graph[n].op.Kernel? || m.graph[n].op.Merge? || m.graph[n].op.Switch?)
    ensures Delivered(m, s, Ref(n, slot), x, Output(m.kernels, m.graph[n].op, s[At(n, x)], slot))
  {
  }

  /** At rest, an iteration whose Merge has run has run its Switch. */
  lemma SwitchRan<N(!new)>(m: Machine<N>, c: Cells<N>, s: State<N>, x: Ctx)
    requires Wired(m, c) && AllRegular(c, s) && Quiescent(m, s) && At(c.merge, x) in s
    ensures At(c.switch, x) in s
  {
    hide Delivered, NodeFires;
    var v := s[At(c.merge, x)].args[0];
    Puts(m, s, c.merge, x, 0);
    Puts(m, s, c.merge, x, CONTROL_SLOT);
    ControlFires(m, s, m.graph[c.ten].op, Ref(c.merge, CONTROL_SLOT), x, Tensor([]));
    assert CanFire(m, s, c.ten, x, Fired([]));
    Puts(m, s, c.ten, x, 0);
    var w := Scalars("Const 10", [], 0);
    PairFires(m, s, m.graph[c.less].op, Ref(c.merge, 0), Ref(c.ten, 0), x, v, w);
    assert CanFire(m, s, c.less, x, Fired([v, w]));
    Puts(m, s, c.less, x, 0);
    var out := s[At(c.less, x)];
    assert Scalars("Less", out.args, 0).Bool?;
    SwitchFires(m, s, Ref(c.merge, 0), Ref(c.less, 0), x, v, Scalars("Less", out.args, 0).b);
    assert CanFire(m, s, c.switch, x, Fired([v, Scalars("Less", out.args, 0)]));
  }

  /** At rest, an iteration that has run its Switch is followed by another. */
  lemma NextMergeRan<N(!new)>(m: Machine<N>, c: Cells<N>, s: State<N>, k: nat)
    requires Wired(m, c) && AllRegular(c, s) && Quiescent(m, s) && At(c.switch, Frame(Root, c.frame, k)) in s
    ensures At(c.merge, Frame(Root, c.frame, k + 1)) in s
  {
    hide NodeFires;
    var x, y := Frame(Root, c.frame, k), Frame(Root, c.frame, k + 1);
    Puts(m, s, c.switch, x, CONTROL_SLOT);
    ControlFires(m, s, m.graph[c.five].op, Ref(c.switch, CONTROL_SLOT), x, Tensor([]));
    assert CanFire(m, s, c.five, x, Fired([]));
    Puts(m, s, c.five, x, 0);
    var v := Scalars("Const 5", [], 0);
    OneInputFires(m, s, NextIteration, Ref(c.five, 0), x, v);
    assert CanFire(m, s, c.next, x, Fired([v]));
    var w := s[At(c.next, x)].args[0];
    assert Delivered(m, s, Ref(c.next, 0), y, Live(w));
    assert MergeFires(m, s, [Ref(c.enter, 0), Ref(c.next, 0)], y, Fired([w, Index(1)]));
    assert CanFire(m, s, c.merge, y, Fired([w, Index(1)]));
  }

  lemma FirstMergeRan<N(!new)>(m: Machine<N>, c: Cells<N>, s: State<N>, v: Value)
    requires Wired(m, c) && AllRegular(c, s) && Quiescent(m, s) && Delivered(m, s, c.start, Root, Live(v))
    ensures At(c.merge, Frame(Root, c.frame, 0)) in s
  {
    hide NodeFires;
    var y := Frame(Root, c.frame, 0);
    OneInputFires(m, s, Enter(c.frame), c.start, Root, v);
    assert CanFire(m, s, c.enter, Root, Fired([v]));
    var w := s[At(c.enter, Root)].args[0];
    assert Delivered(m, s, Ref(c.enter, 0), y, Live(w));
    assert MergeFires(m, s, [Ref(c.enter, 0), Ref(c.next, 0)], y, Fired([w, Index(0)]));
    assert CanFire(m, s, c.merge, y, Fired([w, Index(0)]));
  }

  lemma {:induction false} EveryIterationRan<N(!new)>(m: Machine<N>, c: Cells<N>, s: State<N>, v: Value, k: nat)
    requires Wired(m, c) && AllRegular(c, s) && Quiescent(m, s) && Delivered(m, s, c.start, Root, Live(v))
    ensures At(c.merge, Frame(Root, c.frame, k)) in s
  {
    hide Wired, AllRegular, Quiescent, Delivered;
    if k == 0 {
      FirstMergeRan(m, c, s, v);
    } else {
      EveryIterationRan(m, c, s, v, k - 1);
      SwitchRan(m, c, s, Frame(Root, c.frame, k - 1));
      NextMergeRan(m, c, s, k - 1);
    }
  }

  /** The first `k` activations of the Merge. */
  ghost function Merges<N(!new)>(c: Cells<N>, k: nat): set<Firing<N>> {
    set i | 0 <= i < k :: At(c.merge, Frame(Root, c.frame, i))
  }

  lemma {:induction false} MergesCount<N(!new)>(c: Cells<N>, k: nat)
    ensures |Merges(c, k)| == k
  {
    if k > 0 {
      MergesCount(c, k - 1);
      assert Merges(c, k) == Merges(c, k - 1) + {At(c.merge, Frame(Root, c.frame, k - 1))};
    }
  }

  /** No reachable state is at rest. */
  lemma NeverRests<N(!new)>(m: Machine<N>, c: Cells<N>, v: Value, s: State<N>)
    requires Wired(m, c) && Denotes(m, c.start, v) && Scalar(v) && Reachable(m, s)
    ensures !Quiescent(m, s)
  {
    hide Wired, Quiescent, Delivered, Regular;
    var run :| IsRun(m, run) && run[|run|-1] == s;
    RegularRun(m, c, v, run);
    if Quiescent(m, s) {
      var k := |s.Keys| + 1;
      forall f | f in Merges(c, k)
        ensures f in s.Keys
      {
        var i :| 0 <= i < k && f == At(c.merge, Frame(Root, c.frame, i));
        EveryIterationRan(m, c, s, v, i);
      }
      SubsetSize(Merges(c, k), s.Keys);
      MergesCount(c, k);
    }
  }
}
