/**
 An acyclic graph that lives inside another graph: its kernels stand there under other names, its
 inputs are outputs of the host, and a kernel may have one more control input.  What its outputs
 carry is still what one pass over its nodes computes.
 */
module Hosted {
  import opened Dataflow
  import opened Acyclic

  /** Where an output of the guest graph is found in the host. */
  function Host<N(!new, ==)>(name: map<N, N>, target: map<N, Ref<N>>, r: Ref<N>): Ref<N> {
    if r.node in target then target[r.node]
    else if r.node in name then Ref(name[r.node], r.slot)
    else r
  }

  function HostAll<N(!new, ==)>(name: map<N, N>, target: map<N, Ref<N>>, refs: seq<Ref<N>>): seq<Ref<N>> {
    seq(|refs|, i requires 0 <= i < |refs| => Host(name, target, refs[i]))
  }

  /** The host has the kernel, with its inputs redirected and perhaps the control input `ctl`. */
  ghost predicate KernelHosted<N(!new)>(m: Machine<N>, d: NodeDef<N>, name: map<N, N>, target: map<N, Ref<N>>, ctl: Ref<N>) {
    && d.name in name && name[d.name] in m.graph && d.name !in target
    && m.graph[name[d.name]].op == d.node.op
    && var ins := HostAll(name, target, d.node.inputs);
       || m.graph[name[d.name]].inputs == ins
       || (m.graph[name[d.name]].inputs == ins + [ctl] && ctl.slot == CONTROL_SLOT && Denotes(m, ctl, Tensor([])))
  }

  /** The output that stands for input `n` carries what the input is fed with. */
  ghost predicate InputHosted<N(!new)>(m: Machine<N>, target: map<N, Ref<N>>, feeds: map<N, Token>, n: N) {
    && n in target && n in feeds && target[n].slot != CONTROL_SLOT
    && if feeds[n].Live? then Denotes(m, target[n], feeds[n].v) else NeverLive(m, target[n])
  }

  ghost predicate Hosts<N(!new)>(m: Machine<N>, l: seq<NodeDef<N>>, ins: seq<N>, feeds: map<N, Token>,
                                 name: map<N, N>, target: map<N, Ref<N>>, ctl: Ref<N>) {
    && (forall i :: 0 <= i < |l| && l[i].node.op.Kernel? ==> KernelHosted(m, l[i], name, target, ctl))
    && (forall n :: n in ins ==> InputHosted(m, target, feeds, n))
  }

  ghost predicate HostMeans<N(!new)>(m: Machine<N>, l: seq<NodeDef<N>>, feeds: map<N, Token>, h: Ref<N>, r: Ref<N>) {
    if Depends(l, DeadFeeds(feeds), r.node) then NeverLive(m, h)
    else Denotes(m, h, Eval(l, m.kernels, feeds, r))
  }

  lemma {:induction false} HostArgs<N(!new)>(l: seq<NodeDef<N>>, kernels: Kernels, feeds: map<N, Token>, refs: seq<Ref<N>>,
                                             hosted: seq<Ref<N>>, vs: seq<Value>)
    requires |vs| == |refs| == |hosted| && forall i :: 0 <= i < |vs| ==> vs[i] == Eval(l, kernels, feeds, refs[i])
    requires forall i :: 0 <= i < |refs| ==> (hosted[i].slot == CONTROL_SLOT <==> refs[i].slot == CONTROL_SLOT)
    ensures DataArgs(hosted, Lives(vs)) == EvalArgs(l, kernels, feeds, refs)
    decreases |refs|
  {
    if refs != [] {
      var k := |refs| - 1;
      HostArgs(l, kernels, feeds, refs[..k], hosted[..k], vs[..k]);
      assert Lives(vs)[..k] == Lives(vs[..k]);
    }
  }

  /** A trailing control input adds no argument. */
  lemma ControlArgs<N(!new)>(refs: seq<Ref<N>>, ctl: Ref<N>, vs: seq<Value>)
    requires |vs| == |refs| && ctl.slot == CONTROL_SLOT
    ensures DataArgs(refs + [ctl], Lives(vs + [Tensor([])])) == DataArgs(refs, Lives(vs))
  {
    var k := |refs|;
    assert (refs + [ctl])[..k] == refs && Lives(vs + [Tensor([])])[..k] == Lives(vs);
  }

  /** A kernel in the host, all of whose inputs denote values. */
  lemma HostedKernelDenotes<N(!new)>(m: Machine<N>, d: NodeDef<N>, name: map<N, N>, target: map<N, Ref<N>>, ctl: Ref<N>,
                                     vs: seq<Value>, slot: int)
    requires KernelHosted(m, d, name, target, ctl) && d.node.op.Kernel? && |vs| == |d.node.inputs|
    requires forall i :: 0 <= i < |vs| ==> Denotes(m, Host(name, target, d.node.inputs[i]), vs[i])
    ensures Denotes(m, Ref(name[d.name], slot), if slot == CONTROL_SLOT then Tensor([])
                    else m.kernels(d.node.op.kind, DataArgs(HostAll(name, target, d.node.inputs), Lives(vs)), slot))
  {
    hide Denotes, DataArgs;
    var n, ins := name[d.name], HostAll(name, target, d.node.inputs);
    if m.graph[n].inputs == ins {
      KernelDenotes(m, n, vs, slot);
    } else {
      ControlArgs(ins, ctl, vs);
      KernelDenotes(m, n, vs + [Tensor([])], slot);
    }
  }

  lemma HostedKernelDead<N(!new)>(m: Machine<N>, d: NodeDef<N>, name: map<N, N>, target: map<N, Ref<N>>, ctl: Ref<N>,
                                  i: nat, slot: int)
    requires KernelHosted(m, d, name, target, ctl) && d.node.op.Kernel? && i < |d.node.inputs|
    requires NeverLive(m, Host(name, target, d.node.inputs[i]))
    ensures NeverLive(m, Ref(name[d.name], slot))
  {
    hide Denotes, NeverLive;
    KernelDead(m, name[d.name], i, slot);
  }

  /**
   In a host, an output of an acyclic graph is never live if it depends on a dead input, and otherwise
   denotes the value computed by one pass over the nodes.
   */
  lemma {:induction false} HostedMeaning<N(!new)>(m: Machine<N>, l: seq<NodeDef<N>>, ins: seq<N>, feeds: map<N, Token>,
                                                  name: map<N, N>, target: map<N, Ref<N>>, ctl: Ref<N>, r: Ref<N>)
    requires Ordered(l, ins) && Read(ToGraph(l), ins, r) && forall n :: n in feeds <==> n in ins
    requires Hosts(m, l, ins, feeds, name, target, ctl) && forall n :: n in target ==> n in ins
    ensures HostMeans(m, l, feeds, Host(name, target, r), r)
    decreases |l|
  {
    hide NeverLive, Denotes;
    var k := |l| - 1;
    var rest, d := l[..k], l[k];
    assert Hosts(m, rest, ins, feeds, name, target, ctl);
    if d.name != r.node {
      HostedMeaning(m, rest, ins, feeds, name, target, ctl, r);
    } else if d.node.op.Placeholder? {
      assert InputHosted(m, target, feeds, r.node);
    } else {
      forall i | 0 <= i < |d.node.inputs|
        ensures HostMeans(m, rest, feeds, Host(name, target, d.node.inputs[i]), d.node.inputs[i])
      {
        HostedMeaning(m, rest, ins, feeds, name, target, ctl, d.node.inputs[i]);
      }
      assert KernelHosted(m, l[k], name, target, ctl);
      HostedKernelMeaning(m, l, ins, feeds, name, target, ctl, r);
    }
  }

  ghost predicate AllHostMean<N(!new)>(m: Machine<N>, l: seq<NodeDef<N>>, feeds: map<N, Token>, name: map<N, N>,
                                       target: map<N, Ref<N>>, refs: seq<Ref<N>>) {
    forall i :: 0 <= i < |refs| ==> HostMeans(m, l, feeds, Host(name, target, refs[i]), refs[i])
  }

  lemma HostedKernelMeaning<N(!new)>(m: Machine<N>, l: seq<NodeDef<N>>, ins: seq<N>, feeds: map<N, Token>,
                                     name: map<N, N>, target: map<N, Ref<N>>, ctl: Ref<N>, r: Ref<N>)
    requires l != [] && l[|l|-1].name == r.node && l[|l|-1].node.op.Kernel? && Ordered(l, ins) && r.node !in feeds
    requires KernelHosted(m, l[|l|-1], name, target, ctl)
    requires forall n :: n in target ==> n in ins && target[n].slot != CONTROL_SLOT
    requires AllHostMean(m, l[..|l|-1], feeds, name, target, l[|l|-1].node.inputs)
    ensures HostMeans(m, l, feeds, Host(name, target, r), r)
  {
    hide NeverLive, Denotes;
    var k := |l| - 1;
    var rest, d := l[..k], l[k];
    var refs := d.node.inputs;
    if i :| 0 <= i < |refs| && Depends(rest, DeadFeeds(feeds), refs[i].node) {
      assert HostMeans(m, rest, feeds, Host(name, target, refs[i]), refs[i]);
      HostedKernelDead(m, d, name, target, ctl, i, r.slot);
    } else {
      var vs := seq(|refs|, i requires 0 <= i < |refs| => Eval(rest, m.kernels, feeds, refs[i]));
      forall i | 0 <= i < |refs|
        ensures Denotes(m, Host(name, target, refs[i]), vs[i])
        ensures HostAll(name, target, refs)[i].slot == CONTROL_SLOT <==> refs[i].slot == CONTROL_SLOT
      {
        assert HostMeans(m, rest, feeds, Host(name, target, refs[i]), refs[i]);
        assert Read(ToGraph(rest), ins, refs[i]);
      }
      HostArgs(rest, m.kernels, feeds, refs, HostAll(name, target, refs), vs);
      HostedKernelDenotes(m, d, name, target, ctl, vs, r.slot);
    }
  }

  /** An output that depends on an input which is never live is never live, whatever the other inputs carry. */
  lemma {:induction false} HostedDead<N(!new)>(m: Machine<N>, l: seq<NodeDef<N>>, ins: seq<N>, dead: set<N>,
                                               name: map<N, N>, target: map<N, Ref<N>>, ctl: Ref<N>, r: Ref<N>)
    requires Ordered(l, ins) && Read(ToGraph(l), ins, r) && Depends(l, dead, r.node)
    requires forall i :: 0 <= i < |l| && l[i].node.op.Kernel? ==> KernelHosted(m, l[i], name, target, ctl)
    requires forall n :: n in dead ==> n in ins && n in target && NeverLive(m, target[n])
    ensures NeverLive(m, Host(name, target, r))
    decreases |l|
  {
    hide NeverLive, Denotes;
    var k := |l| - 1;
    var rest, d := l[..k], l[k];
    if d.name != r.node {
      HostedDead(m, rest, ins, dead, name, target, ctl, r);
    } else if r.node !in dead {
      assert KernelHosted(m, l[k], name, target, ctl);
      var i :| 0 <= i < |d.node.inputs| && Depends(rest, dead, d.node.inputs[i].node);
      HostedDead(m, rest, ins, dead, name, target, ctl, d.node.inputs[i]);
      HostedKernelDead(m, d, name, target, ctl, i, r.slot);
    }
  }

  /** A node with an output that denotes a value passes on control. */
  lemma ControlDenotes<N(!new)>(m: Machine<N>, r: Ref<N>, v: Value)
    requires Denotes(m, r, v) && r.slot != CONTROL_SLOT
    ensures Denotes(m, Ref(r.node, CONTROL_SLOT), Tensor([]))
  {
    var c := Ref(r.node, CONTROL_SLOT);
    forall s, x, t | Reachable(m, s) && Delivered(m, s, c, x, t)
      ensures x == Root && t == Live(Tensor([]))
    {
      var op := m.graph[r.node].op;
      var at :| At(r.node, at) in s && Reaches(op, at, s[At(r.node, at)], x)
                && t == Output(m.kernels, op, s[At(r.node, at)], CONTROL_SLOT);
      assert Delivered(m, s, r, x, Output(m.kernels, op, s[At(r.node, at)], r.slot));
    }
    forall s | Reachable(m, s) && Quiescent(m, s)
      ensures Delivered(m, s, c, Root, Live(Tensor([])))
    {
      var op := m.graph[r.node].op;
      assert Delivered(m, s, r, Root, Live(v));
      var at :| At(r.node, at) in s && Reaches(op, at, s[At(r.node, at)], Root)
                && Live(v) == Output(m.kernels, op, s[At(r.node, at)], r.slot);
      assert Output(m.kernels, op, s[At(r.node, at)], CONTROL_SLOT) == Live(Tensor([]));
    }
  }
}
