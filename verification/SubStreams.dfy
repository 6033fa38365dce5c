/**
 The pool of sub-streams of a stream (stream_executor/stream.cc, GetOrCreateSubStream,
 ReturnSubStream and BlockHostUntilDone).
 */
module SubStreams {

  /** `ok`: the sub-stream was set up and has not failed. */
  datatype Sub = Sub(available: bool, ok: bool)

  /** `Abort`: a check of the program fails. */
  datatype Lease = Abort | Leased(index: nat)

  /** `Hang`: the thread waits for a lock that it holds itself. */
  datatype Blocked = Hang | Done(ok: bool)

  /** What a blocking call does, in order. */
  datatype Event = WaitSub(index: nat) | Sweep | WaitSelf

  /** The first available sub-stream from `i` on. */
  function FirstAvailable(pool: seq<Sub>, i: nat): (k: nat)
    requires i <= |pool|
    ensures i <= k <= |pool| && (k < |pool| ==> pool[k].available)
    ensures forall j :: i <= j < k ==> !pool[j].available
    decreases |pool| - i
  {
    if i == |pool| || pool[i].available then i else FirstAvailable(pool, i + 1)
  }

  /** The pool after `GetOrCreateSubStream`; `init`: a new sub-stream can be set up. */
  function Got(pool: seq<Sub>, init: bool): seq<Sub> {
    var k := FirstAvailable(pool, 0);
    if k < |pool| then pool[k := pool[k].(available := false)] else pool + [Sub(false, init)]
  }

  function Returned(pool: seq<Sub>, k: nat): seq<Sub>
    requires k < |pool|
  {
    pool[k := pool[k].(available := true)]
  }

  function AllAvailable(pool: seq<Sub>): seq<Sub> {
    seq(|pool|, i requires 0 <= i < |pool| => pool[i].(available := true))
  }

  /** The sub-streams in use below `n`, in order. */
  function InUse(pool: seq<Sub>, n: nat): seq<Event>
    requires n <= |pool|
  {
    if n == 0 then [] else InUse(pool, n - 1) + if pool[n - 1].available then [] else [WaitSub(n - 1)]
  }

  lemma {:induction false} InUseExact(pool: seq<Sub>, n: nat)
    requires n <= |pool|
    ensures forall e :: e in InUse(pool, n) <==> e.WaitSub? && e.index < n && !pool[e.index].available
    ensures forall i, j :: 0 <= i < j < |InUse(pool, n)| ==> InUse(pool, n)[i].index < InUse(pool, n)[j].index
  {
    if n > 0 {
      InUseExact(pool, n - 1);
      var before := InUse(pool, n - 1);
      forall i | 0 <= i < |before|
        ensures before[i].WaitSub? && before[i].index < n - 1
      {
        assert before[i] in before;
      }
    }
  }

  /** One stream, as one thread sees it; `locked`: the thread holds the lock of the stream. */
  class StreamPool {
    var subStreams: seq<Sub>
    var ok: bool
    var locked: bool

    constructor (ok: bool)
      ensures subStreams == [] && this.ok == ok && !locked
    {
      subStreams, this.ok, locked := [], ok, false;
    }

    /** Asks for the lock, which a thread that holds it already never gets. */
    method Lock() returns (got: bool)
      modifies this`locked
      ensures got <==> !old(locked)
      ensures locked
    {
      got := !locked;
      locked := true;
    }

    method Unlock()
      requires locked
      modifies this`locked
      ensures !locked
    {
      locked := false;
    }

    /** CheckError: a failed operation sets the error flag, under the lock; `finishes` is false if the call never returns. */
    method CheckError(success: bool) returns (finishes: bool)
      modifies this`locked, this`ok
      ensures finishes <==> success || !old(locked)
      ensures finishes ==> ok == (old(ok) && success) && locked == old(locked)
      ensures !finishes ==> locked
    {
      if success {
        return true;
      }
      finishes := Lock();
      if !finishes {
        return;
      }
      ok := false;
      Unlock();
    }

    /** The check after setting up a new sub-stream looks at the flag of the stream itself. */
    method GetOrCreateSubStream(init: bool) returns (r: Lease)
      requires !locked
      modifies this
      ensures ok == old(ok) && subStreams == Got(old(subStreams), init) && !locked
      ensures var k, n := FirstAvailable(old(subStreams), 0), |old(subStreams)|;
              && r == (if k < n || ok then Leased(k) else Abort)
              && |subStreams| == (if k < n then n else n + 1)
              && subStreams[k] == Sub(false, if k < n then old(subStreams)[k].ok else init)
              && forall i :: 0 <= i < n && i != k ==> subStreams[i] == old(subStreams)[i]
    {
      var got := Lock();
      var i := 0;
      while i < |subStreams|
        invariant i <= |subStreams| && subStreams == old(subStreams) && ok == old(ok) && locked
        invariant FirstAvailable(subStreams, 0) == FirstAvailable(subStreams, i)
      {
        if subStreams[i].available {
          subStreams := subStreams[i := subStreams[i].(available := false)];
          Unlock();
          return Leased(i);
        }
        i := i + 1;
      }
      subStreams := subStreams + [Sub(false, init)];
      Unlock();
      if !ok {
        return Abort;
      }
      r := Leased(|subStreams| - 1);
    }

    /** `found` is false when the process is stopped: the sub-stream is not one of this stream. */
    method ReturnSubStream(k: nat) returns (found: bool)
      requires !locked
      modifies this
      ensures ok == old(ok) && (found <==> k < |old(subStreams)|) && !locked
      ensures subStreams == if found then Returned(old(subStreams), k) else old(subStreams)
      ensures found ==> |subStreams| == |old(subStreams)| && subStreams[k] == Sub(true, old(subStreams)[k].ok)
      ensures forall i :: 0 <= i < |old(subStreams)| && i != k ==> subStreams[i] == old(subStreams)[i]
    {
      var got := Lock();
      var i := 0;
      while i < |subStreams|
        invariant i <= |subStreams| && i <= k && subStreams == old(subStreams) && ok == old(ok) && locked
      {
        if i == k {
          subStreams := subStreams[i := subStreams[i].(available := true)];
          Unlock();
          return true;
        }
        i := i + 1;
      }
      Unlock();
      found := false;
    }

    /**
     Waits for the sub-streams in use, then frees finalized temporaries, then waits for the stream
     itself.  A wait for a sub-stream fails at once if it is not ok, and otherwise as `waits[i]` says;
     `self` is the answer for the stream.  The lock is held while sub-streams are waited for.
     */
    method BlockHostUntilDone(waits: seq<bool>, self: bool) returns (r: Blocked, events: seq<Event>)
      requires |waits| == |subStreams| && !locked
      modifies this
      ensures !old(ok) ==> r == Done(false) && events == [] && subStreams == old(subStreams) && !ok
      ensures old(ok) ==>
                (r == Hang <==>
                 exists i :: 0 <= i < |waits| && !old(subStreams)[i].available && (!old(subStreams)[i].ok || !waits[i]))
      ensures old(ok) && r != Hang ==>
                && r == Done(self) && ok == self && subStreams == AllAvailable(old(subStreams))
                && |subStreams| == |old(subStreams)|
                && (forall i :: 0 <= i < |subStreams| ==> subStreams[i] == Sub(true, old(subStreams)[i].ok))
                && events == InUse(old(subStreams), |old(subStreams)|) + [Sweep, WaitSelf]
                && (forall i :: 0 <= i < |subStreams| ==> (WaitSub(i) in events <==> !old(subStreams)[i].available))
      ensures r != Hang ==> !locked
    {
      events := [];
      if !ok {
        return Done(false), [];
      }
      var got := Lock();
      var i := 0;
      while i < |subStreams|
        invariant i <= |subStreams| == |old(subStreams)| && ok && locked
        invariant forall j :: 0 <= j < i ==> old(subStreams)[j].available || (old(subStreams)[j].ok && waits[j])
        invariant forall j :: 0 <= j < i ==> subStreams[j] == old(subStreams)[j].(available := true)
        invariant forall j :: i <= j < |subStreams| ==> subStreams[j] == old(subStreams)[j]
        invariant events == InUse(old(subStreams), i)
      {
        if !subStreams[i].available {
          events := events + [WaitSub(i)];
          var returned := CheckError(subStreams[i].ok && waits[i]);
          if !returned {
            return Hang, events;
          }
          subStreams := subStreams[i := subStreams[i].(available := true)];
        }
        i := i + 1;
      }
      Unlock();
      assert subStreams == AllAvailable(old(subStreams));
      InUseExact(old(subStreams), |old(subStreams)|);
      events := events + [Sweep];
      events := events + [WaitSelf];
      var returned := CheckError(self);
      r := Done(ok);
    }
  }

  /**
   A new sub-stream that could not be set up passes the check, which looks at the flag of the stream
   itself, and is handed out; the next blocking call on the stream never returns.
   */
  method FailedSubStreamHangs(stream: StreamPool, waits: seq<bool>, self: bool) returns (lease: Lease, r: Blocked)
    requires stream.ok && !stream.locked && |waits| == |stream.subStreams| + 1
    requires forall i :: 0 <= i < |stream.subStreams| ==> !stream.subStreams[i].available
    modifies stream
    ensures lease == Leased(|old(stream.subStreams)|) && r == Hang
  {
    ghost var n := |stream.subStreams|;
    assert FirstAvailable(stream.subStreams, 0) == n;
    lease := stream.GetOrCreateSubStream(false);
    assert !stream.subStreams[n].available && !stream.subStreams[n].ok;
    var events;
    r, events := stream.BlockHostUntilDone(waits, self);
  }

  // ----- who has which sub-stream

  /** `leases`: pairs of a client and the sub-stream that it was given and has not returned. */
  datatype State = State(pool: seq<Sub>, leases: set<(nat, nat)>)

  datatype Action = Get(client: nat, init: bool) | Return(client: nat, k: nat) | Block

  predicate Enabled(s: State, x: Action) {
    match x
    case Get(c, _) => forall x :: x in s.leases ==> x.0 != c
    case Return(c, k) => (c, k) in s.leases && k < |s.pool|
    case Block => true
  }

  function Next(s: State, x: Action): State
    requires Enabled(s, x)
  {
    match x
    case Get(c, init) => State(Got(s.pool, init), s.leases + {(c, FirstAvailable(s.pool, 0))})
    case Return(c, k) => State(Returned(s.pool, k), s.leases - {(c, k)})
    case Block => State(AllAvailable(s.pool), s.leases)
  }

  /** No sub-stream is leased to two clients. */
  ghost predicate Exclusive(s: State) {
    forall c, d, k :: (c, k) in s.leases && (d, k) in s.leases ==> c == d
  }

  ghost predicate InPool(s: State) {
    forall c, k :: (c, k) in s.leases ==> k < |s.pool|
  }

  /** What is leased is not available. */
  ghost predicate Withheld(s: State) {
    forall c, k :: (c, k) in s.leases ==> k < |s.pool| && !s.pool[k].available
  }

  lemma WithheldNext(s: State, x: Action)
    requires Enabled(s, x) && Withheld(s) && Exclusive(s) && (x.Block? ==> s.leases == {})
    ensures Withheld(Next(s, x)) && Exclusive(Next(s, x))
  {
  }

  /** What happens from state `s` on. */
  ghost predicate Continues(s: State, ss: seq<State>, xs: seq<Action>) {
    && |ss| == |xs| + 1 && ss[0] == s
    && forall k {:trigger xs[k]} :: 0 <= k < |xs| ==> Enabled(ss[k], xs[k]) && ss[k + 1] == Next(ss[k], xs[k])
  }

  predicate BlockFree(xs: seq<Action>) {
    forall k :: 0 <= k < |xs| ==> !xs[k].Block?
  }

  /** Whatever the clients do from `s` on, short of a blocking call, no sub-stream gets two of them. */
  ghost predicate SafeFrom(s: State) {
    forall ss, xs :: Continues(s, ss, xs) && BlockFree(xs) ==> Exclusive(ss[|xs|])
  }

  lemma {:induction false} WithheldStays(s: State, ss: seq<State>, xs: seq<Action>, k: nat)
    requires Continues(s, ss, xs) && k < |ss| && Withheld(s) && Exclusive(s)
    requires forall i :: 0 <= i < k && xs[i].Block? ==> ss[i].leases == {}
    ensures Withheld(ss[k]) && Exclusive(ss[k])
  {
    if k > 0 {
      WithheldStays(s, ss, xs, k - 1);
      assert Enabled(ss[k - 1], xs[k - 1]);
      WithheldNext(ss[k - 1], xs[k - 1]);
    }
  }

  /** Clients hold sub-streams of the pool only. */
  lemma {:induction false} LeasesInPool(s: State, ss: seq<State>, xs: seq<Action>, k: nat)
    requires Continues(s, ss, xs) && k < |ss| && InPool(s)
    ensures InPool(ss[k])
  {
    if k > 0 {
      LeasesInPool(s, ss, xs, k - 1);
      assert Enabled(ss[k - 1], xs[k - 1]);
    }
  }

  /** A client that has no lease. */
  lemma {:induction false} FreshClient(leases: set<(nat, nat)>) returns (c: nat)
    ensures forall d, k :: (d, k) in leases ==> d < c
  {
    if leases == {} {
      c := 0;
    } else {
      var x :| x in leases;
      var rest := FreshClient(leases - {x});
      c := if rest > x.0 then rest else x.0 + 1;
      forall d, k | (d, k) in leases
        ensures d < c
      {
        assert (d, k) == x || (d, k) in leases - {x};
      }
    }
  }

  lemma PrependStep(s: State, x: Action, ss: seq<State>, xs: seq<Action>)
    requires Enabled(s, x) && Continues(Next(s, x), ss, xs)
    ensures Continues(s, [s] + ss, [x] + xs)
  {
    var ss', xs' := [s] + ss, [x] + xs;
    forall k | 0 <= k < |xs'|
      ensures Enabled(ss'[k], xs'[k]) && ss'[k + 1] == Next(ss'[k], xs'[k])
    {
      if k > 0 {
        assert xs'[k] == xs[k - 1] && ss'[k] == ss[k - 1] && ss'[k + 1] == ss[k];
      }
    }
  }

  /** New clients take the available sub-streams in order, until one of them gets sub-stream `k` as well. */
  lemma {:induction false} SharedInTheEnd(s: State, c: nat, k: nat) returns (ss: seq<State>, xs: seq<Action>)
    requires (c, k) in s.leases && k < |s.pool| && s.pool[k].available
    ensures Continues(s, ss, xs) && BlockFree(xs) && !Exclusive(ss[|xs|])
    decreases k - FirstAvailable(s.pool, 0)
  {
    var first := FirstAvailable(s.pool, 0);
    assert first <= k;
    var d := FreshClient(s.leases);
    var x := Get(d, true);
    var s' := Next(s, x);
    if first == k {
      assert (c, k) in s'.leases && (d, k) in s'.leases && c != d;
      ss, xs := [s'], [];
    } else {
      assert FirstAvailable(s'.pool, 0) > first;
      ss, xs := SharedInTheEnd(s', c, k);
    }
    PrependStep(s, x, ss, xs);
    assert ([s] + ss)[|xs| + 1] == ss[|xs|];
    ss, xs := [s] + ss, [x] + xs;
  }

  /** Leases stay exclusive, whatever the clients do short of a blocking call, exactly if no leased sub-stream is available. */
  lemma SafeIffWithheld(s: State)
    requires Exclusive(s) && InPool(s)
    ensures SafeFrom(s) <==> Withheld(s)
  {
    if Withheld(s) {
      forall ss, xs | Continues(s, ss, xs) && BlockFree(xs)
        ensures Exclusive(ss[|xs|])
      {
        WithheldStays(s, ss, xs, |xs|);
      }
    } else {
      var c, k :| (c, k) in s.leases && !(k < |s.pool| && !s.pool[k].available);
      var ss, xs := SharedInTheEnd(s, c, k);
      assert Continues(s, ss, xs) && BlockFree(xs) && !Exclusive(ss[|xs|]);
    }
  }

  /** The same for every state that a stream can get into. */
  lemma ReachableSafeIff(ss: seq<State>, xs: seq<Action>, k: nat)
    requires Continues(State([], {}), ss, xs) && k < |ss| && Exclusive(ss[k])
    ensures SafeFrom(ss[k]) <==> Withheld(ss[k])
  {
    LeasesInPool(State([], {}), ss, xs, k);
    SafeIffWithheld(ss[k]);
  }

  /** A blocking call keeps leases safe exactly if no lease is out. */
  lemma BlockSafeIff(s: State)
    requires Withheld(s) && Exclusive(s)
    ensures SafeFrom(Next(s, Block)) <==> s.leases == {}
  {
    var s' := Next(s, Block);
    SafeIffWithheld(s');
    if s.leases != {} {
      var x :| x in s.leases;
      assert (x.0, x.1) in s'.leases;
    }
  }

  /** When nobody blocks on the stream with sub-streams out, each sub-stream has at most one client. */
  lemma BlockWithoutLeases(ss: seq<State>, xs: seq<Action>, k: nat)
    requires Continues(State([], {}), ss, xs) && k < |ss|
    requires forall i :: 0 <= i < k && xs[i].Block? ==> ss[i].leases == {}
    ensures Exclusive(ss[k]) && Withheld(ss[k])
  {
    WithheldStays(State([], {}), ss, xs, k);
  }

  // ----- the pool holds no more than it has to

  /** A sub-stream that is given back is the next one to be handed out, unless one before it is available. */
  lemma ReturnedIsReused(s: State, c: nat, k: nat, d: nat, init: bool)
    requires Enabled(s, Return(c, k)) && Enabled(Next(s, Return(c, k)), Get(d, init))
    requires forall i :: 0 <= i < k ==> !s.pool[i].available
    ensures var e := Next(Next(s, Return(c, k)), Get(d, init));
            && |e.pool| == |s.pool| && e.leases == s.leases - {(c, k)} + {(d, k)}
            && (!s.pool[k].available ==> e.pool == s.pool)
  {
    var pool := Returned(s.pool, k);
    assert pool[k].available && forall i :: 0 <= i < k ==> pool[i] == s.pool[i];
  }

  ghost predicate LeasedBy(s: State, k: nat) { exists c :: (c, k) in s.leases }

  /** What is not available is leased. */
  ghost predicate AllLeased(s: State) {
    forall k :: 0 <= k < |s.pool| && !s.pool[k].available ==> LeasedBy(s, k)
  }

  lemma AllLeasedNext(s: State, x: Action)
    requires Enabled(s, x) && AllLeased(s) && Exclusive(s) && Withheld(s)
    ensures AllLeased(Next(s, x))
  {
    var s' := Next(s, x);
    forall k | 0 <= k < |s'.pool| && !s'.pool[k].available
      ensures LeasedBy(s', k)
    {
      if x.Get? && k == FirstAvailable(s.pool, 0) {
        assert (x.client, k) in s'.leases;
      } else {
        assert LeasedBy(s, k);
        var c :| (c, k) in s.leases;
        assert (c, k) in s'.leases;
      }
    }
  }

  /** If nobody blocks with sub-streams out, a sub-stream is unavailable exactly if one client has it. */
  lemma {:induction false} UnavailableIffLeased(ss: seq<State>, xs: seq<Action>, k: nat, i: nat)
    requires Continues(State([], {}), ss, xs) && k < |ss| && i < |ss[k].pool|
    requires forall j :: 0 <= j < k && xs[j].Block? ==> ss[j].leases == {}
    ensures !ss[k].pool[i].available <==> LeasedBy(ss[k], i)
    ensures Exclusive(ss[k])
  {
    BlockWithoutLeases(ss, xs, k);
    AllLeasedStays(ss, xs, k);
  }

  lemma {:induction false} AllLeasedStays(ss: seq<State>, xs: seq<Action>, k: nat)
    requires Continues(State([], {}), ss, xs) && k < |ss|
    requires forall j :: 0 <= j < k && xs[j].Block? ==> ss[j].leases == {}
    ensures AllLeased(ss[k])
  {
    if k > 0 {
      AllLeasedStays(ss, xs, k - 1);
      BlockWithoutLeases(ss, xs, k - 1);
      assert Enabled(ss[k - 1], xs[k - 1]);
      AllLeasedNext(ss[k - 1], xs[k - 1]);
    }
  }

  ghost function LeasedOnes(leases: set<(nat, nat)>): set<nat> { set x | x in leases :: x.1 }

  lemma {:induction false} LeasedSize(leases: set<(nat, nat)>)
    requires forall c, d, k :: (c, k) in leases && (d, k) in leases ==> c == d
    ensures |LeasedOnes(leases)| == |leases|
  {
    if leases != {} {
      var x :| x in leases;
      var rest := leases - {x};
      LeasedSize(rest);
      forall y | y in rest
        ensures y.1 != x.1
      {
        assert (y.0, y.1) in leases && (x.0, x.1) in leases;
      }
      assert LeasedOnes(leases) == LeasedOnes(rest) + {x.1};
    }
  }

  lemma {:induction false} Bounded(ks: set<nat>, n: nat)
    requires forall k :: k in ks ==> k < n
    ensures |ks| <= n
    ensures (forall k :: 0 <= k < n ==> k in ks) ==> |ks| == n
  {
    if n > 0 {
      Bounded(ks - {n - 1}, n - 1);
      assert n - 1 in ks ==> ks == ks - {n - 1} + {n - 1};
      assert n - 1 !in ks ==> ks == ks - {n - 1};
    } else {
      assert ks == {};
    }
  }

  /** There are at most as many leases as sub-streams, and as many if none is available. */
  lemma LeasesFit(s: State)
    requires Exclusive(s) && Withheld(s) && AllLeased(s)
    ensures |s.leases| <= |s.pool|
    ensures FirstAvailable(s.pool, 0) == |s.pool| ==> |s.leases| == |s.pool|
  {
    var ks := LeasedOnes(s.leases);
    forall k | k in ks
      ensures k < |s.pool|
    {
      var x :| x in s.leases && x.1 == k;
      assert (x.0, x.1) in s.leases;
    }
    if FirstAvailable(s.pool, 0) == |s.pool| {
      forall k | 0 <= k < |s.pool|
        ensures k in ks
      {
        assert LeasedBy(s, k);
        var c :| (c, k) in s.leases;
        assert (c, k).1 == k;
      }
    }
    LeasedSize(s.leases);
    Bounded(ks, |s.pool|);
  }

  /**
   If nobody blocks with sub-streams out, the pool is as large as the largest number of sub-streams that
   were out at once, and no larger.
   */
  lemma {:induction false} PoolIsPeak(ss: seq<State>, xs: seq<Action>, k: nat) returns (peak: nat)
    requires Continues(State([], {}), ss, xs) && k < |ss|
    requires forall j :: 0 <= j < k && xs[j].Block? ==> ss[j].leases == {}
    ensures peak <= k && |ss[peak].leases| == |ss[k].pool|
    ensures forall j :: 0 <= j <= k ==> |ss[j].leases| <= |ss[k].pool|
  {
    hide Exclusive, Withheld, AllLeased, Enabled, Next;
    AllLeasedStays(ss, xs, k);
    BlockWithoutLeases(ss, xs, k);
    LeasesFit(ss[k]);
    if k == 0 {
      peak := 0;
    } else {
      peak := PoolIsPeak(ss, xs, k - 1);
      assert Enabled(ss[k - 1], xs[k - 1]);
      AllLeasedStays(ss, xs, k - 1);
      BlockWithoutLeases(ss, xs, k - 1);
      PoolGrows(ss[k - 1], xs[k - 1]);
      if |ss[k].pool| != |ss[k - 1].pool| {
        peak := k;
      }
    }
  }

  /** The pool grows only when all of it is leased, and then with the number of leases. */
  lemma PoolGrows(s: State, x: Action)
    requires Enabled(s, x) && Exclusive(s) && Withheld(s) && AllLeased(s)
    ensures |Next(s, x).pool| >= |s.pool|
    ensures |Next(s, x).pool| != |s.pool| ==> |Next(s, x).leases| == |Next(s, x).pool|
  {
    LeasesFit(s);
    if x.Get? {
      assert (x.client, |s.pool|) !in s.leases;
    }
  }
}
