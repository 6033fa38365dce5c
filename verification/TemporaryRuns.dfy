/**
 Threads that use the temporary memory of one stream.  Allocation on the device happens outside
 the manager's lock, the record is made inside it, and a sweep frees and erases inside it in two
 separate steps, so that another thread may be given a freed address before its record is erased.
 */
module TemporaryRuns {

  import opened Options
  import opened TemporaryMemory

  /**
   Where a thread is.  Pending: a block was allocated and is not on record yet.  Constructing: the
   record is made, the handle is not.  Finalizing: between the check and the mark of Finalize.
   Sweeping, Erasing, Forcing: holds the lock; `todo` are the records not visited yet.
   */
  datatype Pc =
    | Idle
    | Pending(addr: nat)
    | Constructing(handle: Handle)
    | Finalizing(handle: Handle)
    | Sweeping(todo: set<nat>)
    | Erasing(addr: nat, todo: set<nat>)
    | Forcing(todo: set<nat>)

  /** Calls into the device's allocator. */
  datatype Event = Allocated(addr: nat) | Freed(addr: nat)

  /**
   `live`: blocks that this stream has allocated and not freed; `foreign`: blocks of others;
   `handles`: handles at rest; `marked`: handles whose own Finalize or destructor has marked.
   */
  datatype State = State(
    ledger: Ledger, pcs: seq<Pc>, holder: Option<nat>, live: set<nat>, foreign: set<nat>,
    log: seq<Event>, handles: set<Handle>, marked: set<Handle>, aborted: bool)

  datatype Action =
    | Allocate(t: nat, a: nat)
    | Refuse(t: nat)
    | Insert(t: nat)
    | Construct(t: nat)
    | CheckFinalize(t: nat, h: Handle)
    | MarkFinalize(t: nat)
    | Destroy(t: nat, h: Handle)
    | BeginSweep(t: nat)
    | Visit(t: nat, a: nat)
    | Erase(t: nat)
    | EndSweep(t: nat)
    | BeginForce(t: nat)
    | ForceFree(t: nat, a: nat)
    | Elsewhere(t: nat, foreign: set<nat>)

  predicate Enabled(s: State, x: Action) {
    && !s.aborted && x.t < |s.pcs|
    && (forall t :: 0 <= t < |s.pcs| && s.pcs[t].Forcing? ==> x.ForceFree? && x.t == t)
    && match x
       case Allocate(t, a) => s.pcs[t].Idle? && a !in s.live && a !in s.foreign
       case Refuse(t) => s.pcs[t].Idle?
       case Insert(t) => s.pcs[t].Pending? && s.holder.None?
       case Construct(t) => s.pcs[t].Constructing? && s.holder.None?
       case CheckFinalize(t, h) => s.pcs[t].Idle? && h in s.handles && s.holder.None?
       case MarkFinalize(t) => s.pcs[t].Finalizing? && s.holder.None?
       case Destroy(t, h) => s.pcs[t].Idle? && h in s.handles && s.holder.None?
       case BeginSweep(t) => s.pcs[t].Idle? && s.holder.None?
       case Visit(t, a) => s.pcs[t].Sweeping? && a in s.pcs[t].todo
       case Erase(t) => s.pcs[t].Erasing?
       case EndSweep(t) => s.pcs[t].Sweeping? && s.pcs[t].todo == {}
       case BeginForce(t) => s.pcs[t].Idle? && s.holder.None?
       case ForceFree(t, a) => s.pcs[t].Forcing? && a in s.pcs[t].todo
       case Elsewhere(t, foreign) => s.live !! foreign
  }

  function At(s: State, t: nat, pc: Pc): State
    requires t < |s.pcs|
  {
    s.(pcs := s.pcs[t := pc])
  }

  function Free(s: State, a: nat): State {
    s.(live := s.live - {a}, log := s.log + [Freed(a)])
  }

  function Next(s: State, x: Action): State
    requires Enabled(s, x)
  {
    match x
    case Allocate(t, a) => At(s, t, Pending(a)).(live := s.live + {a}, log := s.log + [Allocated(a)])
    case Refuse(t) => s
    case Insert(t) =>
      var a := s.pcs[t].addr;
      At(s, t, Constructing(Handle(a, s.ledger.generation + 1))).(ledger := Inserted(s.ledger, a))
    case Construct(t) => At(s, t, Idle).(handles := s.handles + {s.pcs[t].handle})
    case CheckFinalize(t, h) => At(s, t, Finalizing(h)).(handles := s.handles - {h})
    case MarkFinalize(t) =>
      var h := s.pcs[t].handle;
      if h.addr !in s.ledger.records then s.(aborted := true)
      else At(s, t, Idle).(ledger := Marked(s.ledger, h.addr), handles := s.handles + {h}, marked := s.marked + {h})
    case Destroy(t, h) =>
      s.(ledger := Marked(s.ledger, h.addr), handles := s.handles - {h}, marked := s.marked + {h})
    case BeginSweep(t) => At(s, t, Sweeping(s.ledger.records.Keys)).(holder := Some(t))
    case Visit(t, a) =>
      var todo := s.pcs[t].todo - {a};
      if a in s.ledger.records && s.ledger.records[a].finalized then At(Free(s, a), t, Erasing(a, todo))
      else At(s, t, Sweeping(todo))
    case Erase(t) => At(s, t, Sweeping(s.pcs[t].todo)).(ledger := Erased(s.ledger, s.pcs[t].addr))
    case EndSweep(t) => At(s, t, Idle).(holder := None)
    case BeginForce(t) => At(s, t, Forcing(s.ledger.records.Keys)).(holder := Some(t))
    case ForceFree(t, a) => At(Free(s, a), t, Forcing(s.pcs[t].todo - {a}))
    case Elsewhere(t, foreign) => s.(foreign := foreign)
  }

  /** A new stream and its threads. */
  predicate Initial(s: State) {
    && s.ledger.records == map[] && s.holder.None? && s.live == {} && s.log == []
    && s.handles == {} && s.marked == {} && !s.aborted
    && forall t :: 0 <= t < |s.pcs| ==> s.pcs[t].Idle?
  }

  /** A run: the states it goes through and the actions between them. */
  ghost predicate IsRun(ss: seq<State>, xs: seq<Action>) {
    && |ss| == |xs| + 1 && Initial(ss[0])
    && forall k {:trigger xs[k]} :: 0 <= k < |xs| ==> Enabled(ss[k], xs[k]) && ss[k + 1] == Next(ss[k], xs[k])
  }

  // ----- what is outstanding

  /** Recorded blocks that are not freed yet. */
  function Recorded(s: State): set<nat> {
    var keys := s.ledger.records.Keys;
    match s.holder
    case None => keys
    case Some(t) =>
      if t < |s.pcs| && s.pcs[t].Erasing? then keys - {s.pcs[t].addr}
      else if t < |s.pcs| && s.pcs[t].Forcing? then s.pcs[t].todo
      else keys
  }

  function PendingBlocks(s: State): set<nat> {
    set t | 0 <= t < |s.pcs| && s.pcs[t].Pending? :: s.pcs[t].addr
  }

  predicate Holding(pc: Pc) { pc.Sweeping? || pc.Erasing? || pc.Forcing? }

  /** The lock is held by the thread that sweeps, and by it alone; it visits records only. */
  ghost predicate Locked(s: State) {
    && (forall t :: 0 <= t < |s.pcs| ==> (Holding(s.pcs[t]) <==> s.holder == Some(t)))
    && (s.holder.Some? ==> s.holder.value < |s.pcs|)
    && (forall t :: 0 <= t < |s.pcs| && Holding(s.pcs[t]) ==> s.pcs[t].todo <= s.ledger.records.Keys)
    && (forall t :: 0 <= t < |s.pcs| && s.pcs[t].Erasing? ==>
          && s.pcs[t].addr in s.ledger.records && s.ledger.records[s.pcs[t].addr].finalized
          && s.pcs[t].addr !in s.pcs[t].todo)
  }

  /** Every outstanding block is recorded or pending with one thread. */
  ghost predicate Accounted(s: State) {
    && s.live == Recorded(s) + PendingBlocks(s)
    && (forall t :: 0 <= t < |s.pcs| && s.pcs[t].Pending? ==> s.pcs[t].addr !in Recorded(s))
    && (forall t, u :: 0 <= t < u < |s.pcs| && s.pcs[t].Pending? && s.pcs[u].Pending? ==>
          s.pcs[t].addr != s.pcs[u].addr)
    && s.live !! s.foreign
  }

  /** The blocks outstanding after the calls in `log`, if no call was out of place. */
  function Replay(log: seq<Event>): Option<set<nat>> {
    if log == [] then Some({})
    else
      match Replay(log[..|log| - 1])
      case None => None
      case Some(live) =>
        match log[|log| - 1]
        case Allocated(a) => if a in live then None else Some(live + {a})
        case Freed(a) => if a in live then Some(live - {a}) else None
  }

  ghost predicate Inv(s: State) {
    Locked(s) && Accounted(s) && Replay(s.log) == Some(s.live) && Stamped(s.ledger)
  }

  lemma InitialInv(s: State)
    requires Initial(s)
    ensures Inv(s)
  {
  }

  lemma LockedNext(s: State, x: Action)
    requires Enabled(s, x) && Locked(s)
    ensures Locked(Next(s, x))
  {
  }

  lemma StampedNext(s: State, x: Action)
    requires Enabled(s, x) && Stamped(s.ledger)
    ensures Stamped(Next(s, x).ledger) && s.ledger.generation <= Next(s, x).ledger.generation
  {
    hide Locked, Accounted;
  }

  lemma Appended(log: seq<Event>, e: Event)
    ensures (log + [e])[..|log|] == log
  {
  }

  lemma LoggedNext(s: State, x: Action)
    requires Enabled(s, x) && Inv(s)
    ensures Replay(Next(s, x).log) == Some(Next(s, x).live)
  {
    match x {
      case Allocate(t, a) => Appended(s.log, Allocated(a));
      case Visit(t, a) => FreeOwn(s, x, a); Appended(s.log, Freed(a));
      case ForceFree(t, a) => FreeOwn(s, x, a); Appended(s.log, Freed(a));
      case _ =>
    }
  }

  /** Only an outstanding block is freed. */
  lemma FreeOwn(s: State, x: Action, a: nat)
    requires Enabled(s, x) && Locked(s) && Accounted(s) && (x == Visit(x.t, a) || x == ForceFree(x.t, a))
    ensures a in s.live && a in Recorded(s)
  {
  }

  ghost predicate PendingApart(s: State) {
    forall t, u :: 0 <= t < u < |s.pcs| && s.pcs[t].Pending? && s.pcs[u].Pending? ==>
      s.pcs[t].addr != s.pcs[u].addr
  }

  /** How the pending blocks change when thread `t` moves to `pc`. */
  lemma PendingMoves(s: State, s': State, t: nat, pc: Pc)
    requires t < |s.pcs| && s'.pcs == s.pcs[t := pc] && PendingApart(s)
    requires pc.Pending? ==> s.pcs[t].Idle?
    ensures PendingBlocks(s') ==
            if pc.Pending? then PendingBlocks(s) + {pc.addr}
            else if s.pcs[t].Pending? then PendingBlocks(s) - {s.pcs[t].addr}
            else PendingBlocks(s)
  {
    var p, p' := PendingBlocks(s), PendingBlocks(s');
    forall u | 0 <= u < |s.pcs| && u != t && s.pcs[u].Pending?
      ensures s.pcs[u].addr in p && s.pcs[u].addr in p' && (s.pcs[t].Pending? ==> s.pcs[u].addr != s.pcs[t].addr)
    {
      assert s'.pcs[u] == s.pcs[u];
    }
    assert pc.Pending? ==> pc.addr in p' by { assert s'.pcs[t] == pc; }
    assert s.pcs[t].Pending? ==> s.pcs[t].addr in p;
    forall a | a in p' ensures a in p || (pc.Pending? && a == pc.addr) {
      var u :| 0 <= u < |s'.pcs| && s'.pcs[u].Pending? && a == s'.pcs[u].addr;
      if u != t { assert s'.pcs[u] == s.pcs[u]; }
    }
  }

  lemma AllocateAccounted(s: State, x: Action)
    requires Enabled(s, x) && Locked(s) && Accounted(s) && x.Allocate?
    ensures Accounted(Next(s, x))
  {
    var s' := Next(s, x);
    PendingMoves(s, s', x.t, Pending(x.a));
    assert forall t :: 0 <= t < |s.pcs| && s.pcs[t].Pending? ==> s.pcs[t].addr in PendingBlocks(s);
    assert Recorded(s') == Recorded(s);
  }

  lemma InsertAccounted(s: State, x: Action)
    requires Enabled(s, x) && Locked(s) && Accounted(s) && x.Insert?
    ensures Accounted(Next(s, x))
  {
    var s', a := Next(s, x), s.pcs[x.t].addr;
    PendingMoves(s, s', x.t, s'.pcs[x.t]);
    assert a in PendingBlocks(s);
    assert Recorded(s') == Recorded(s) + {a};
    assert forall t, u :: 0 <= t < |s.pcs| && 0 <= u < |s.pcs| && t != u && s.pcs[t].Pending? && s.pcs[u].Pending? ==>
      s.pcs[t].addr != s.pcs[u].addr;
  }

  lemma FreeAccounted(s: State, x: Action)
    requires Enabled(s, x) && Locked(s) && Accounted(s) && (x.Visit? || x.ForceFree?)
    ensures Accounted(Next(s, x))
  {
    var s' := Next(s, x);
    FreeOwn(s, x, x.a);
    PendingMoves(s, s', x.t, s'.pcs[x.t]);
    assert forall t :: 0 <= t < |s.pcs| && s.pcs[t].Pending? ==> s.pcs[t].addr in PendingBlocks(s);
    assert x.a !in PendingBlocks(s);
    if s'.pcs[x.t].Sweeping? {
      assert Recorded(s') == Recorded(s);
    } else {
      assert Recorded(s') == Recorded(s) - {x.a};
    }
  }

  lemma OtherAccounted(s: State, x: Action)
    requires Enabled(s, x) && Locked(s) && Accounted(s)
    requires !x.Allocate? && !x.Insert? && !x.Visit? && !x.ForceFree?
    ensures Accounted(Next(s, x))
  {
    var s' := Next(s, x);
    if s'.pcs != s.pcs {
      PendingMoves(s, s', x.t, s'.pcs[x.t]);
    }
    SameRecorded(s, x);
  }

  lemma SameRecorded(s: State, x: Action)
    requires Enabled(s, x) && Locked(s)
    requires !x.Allocate? && !x.Insert? && !x.Visit? && !x.ForceFree?
    ensures Recorded(Next(s, x)) == Recorded(s)
  {
    assert Recorded(Next(s, x)) - Recorded(s) == {} && Recorded(s) - Recorded(Next(s, x)) == {};
  }

  lemma InvNext(s: State, x: Action)
    requires Enabled(s, x) && Inv(s)
    ensures Inv(Next(s, x))
  {
    LockedNext(s, x);
    StampedNext(s, x);
    LoggedNext(s, x);
    hide Locked, Replay, Stamped, Next, Enabled, Accounted;
    if x.Allocate? {
      AllocateAccounted(s, x);
    } else if x.Insert? {
      InsertAccounted(s, x);
    } else if x.Visit? || x.ForceFree? {
      FreeAccounted(s, x);
    } else {
      OtherAccounted(s, x);
    }
  }

  lemma {:induction false} RunInv(ss: seq<State>, xs: seq<Action>, k: nat)
    requires IsRun(ss, xs) && k < |ss|
    ensures Inv(ss[k])
  {
    if k == 0 {
      InitialInv(ss[0]);
    } else {
      RunInv(ss, xs, k - 1);
      assert xs[k - 1] in xs;
      InvNext(ss[k - 1], xs[k - 1]);
    }
  }

  // ----- conservation

  function Count(log: seq<Event>, e: Event): nat {
    if log == [] then 0 else Count(log[..|log| - 1], e) + if log[|log| - 1] == e then 1 else 0
  }

  lemma {:induction false} ReplayCounts(log: seq<Event>, a: nat)
    requires Replay(log).Some?
    ensures Count(log, Allocated(a)) == Count(log, Freed(a)) + if a in Replay(log).value then 1 else 0
  {
    if log != [] {
      ReplayCounts(log[..|log| - 1], a);
    }
  }

  /**
   In every state of every run the blocks outstanding are the recorded and the pending ones, no
   block twice, and every block was freed as often as it was allocated, but for the outstanding
   ones; the allocator is never asked to free a block that is not outstanding.
   */
  lemma Conservation(ss: seq<State>, xs: seq<Action>, k: nat, a: nat)
    requires IsRun(ss, xs) && k < |ss|
    ensures ss[k].live == Recorded(ss[k]) + PendingBlocks(ss[k]) && Recorded(ss[k]) !! PendingBlocks(ss[k])
    ensures PendingApart(ss[k])
    ensures Replay(ss[k].log) == Some(ss[k].live)
    ensures Count(ss[k].log, Allocated(a)) == Count(ss[k].log, Freed(a)) + if a in ss[k].live then 1 else 0
  {
    RunInv(ss, xs, k);
    ReplayCounts(ss[k].log, a);
  }

  /** The record that an allocation makes is new: the check before it never fails. */
  lemma InsertIsFresh(ss: seq<State>, xs: seq<Action>, k: nat)
    requires IsRun(ss, xs) && k < |xs| && xs[k].Insert?
    ensures ss[k].pcs[xs[k].t].addr !in ss[k].ledger.records
  {
    RunInv(ss, xs, k);
    assert Enabled(ss[k], xs[k]);
  }

  /**
   When the stream is destroyed, only the blocks of threads caught inside an allocation remain;
   without such a thread every block has been freed exactly as often as it was allocated.
   */
  lemma DestructionFreesAll(ss: seq<State>, xs: seq<Action>, k: nat, t: nat, a: nat)
    requires IsRun(ss, xs) && k < |ss| && t < |ss[k].pcs| && ss[k].pcs[t] == Forcing({})
    ensures ss[k].live == PendingBlocks(ss[k])
    ensures a !in PendingBlocks(ss[k]) ==> Count(ss[k].log, Allocated(a)) == Count(ss[k].log, Freed(a))
  {
    Conservation(ss, xs, k, a);
    RunInv(ss, xs, k);
    assert Holding(ss[k].pcs[t]);
  }

  // ----- a sweep is atomic

  /** A sweep over `before` by thread `t` is under way. */
  ghost predicate SweepUnderWay(before: Ledger, s: State, t: nat) {
    && t < |s.pcs| && s.holder == Some(t) && (s.pcs[t].Sweeping? || s.pcs[t].Erasing?)
    && s.ledger.generation == before.generation
    && (s.pcs[t].Erasing? ==> s.pcs[t].addr in before.records && before.records[s.pcs[t].addr].finalized)
    && (forall a :: a in s.ledger.records <==> Unswept(before, s.pcs[t], a))
    && (forall a :: a in s.ledger.records ==> s.ledger.records[a] == before.records[a])
  }

  predicate Unswept(before: Ledger, pc: Pc, a: nat)
    requires pc.Sweeping? || pc.Erasing?
  {
    && a in before.records
    && (before.records[a].finalized ==> a in pc.todo || (pc.Erasing? && a == pc.addr))
  }

  lemma SweepNext(before: Ledger, s: State, x: Action, t: nat)
    requires Enabled(s, x) && Inv(s) && SweepUnderWay(before, s, t) && x != EndSweep(t)
    ensures SweepUnderWay(before, Next(s, x), t)
  {
    hide Accounted, Replay, Stamped;
    assert Holding(s.pcs[t]);
    if x.t == t {
      assert x.Visit? || x.Erase? || x.Elsewhere?;
      if x.Visit? {
        assert x.a in s.ledger.records;
      }
    } else {
      assert !Holding(s.pcs[x.t]);
    }
  }

  lemma {:induction false} SweepLasts(ss: seq<State>, xs: seq<Action>, i: nat, j: nat, t: nat)
    requires IsRun(ss, xs) && i < j < |ss| && xs[i] == BeginSweep(t)
    requires forall k :: i < k < j ==> xs[k] != EndSweep(t)
    ensures SweepUnderWay(ss[i].ledger, ss[j], t)
  {
    hide Inv;
    assert Enabled(ss[i], xs[i]);
    if j > i + 1 {
      SweepLasts(ss, xs, i, j - 1, t);
      RunInv(ss, xs, j - 1);
      assert Enabled(ss[j - 1], xs[j - 1]);
      SweepNext(ss[i].ledger, ss[j - 1], xs[j - 1], t);
    }
  }

  /**
   Whatever other threads do meanwhile, a whole sweep changes the ledger as one step that removes
   the finalized records.
   */
  lemma SweepIsAtomic(ss: seq<State>, xs: seq<Action>, i: nat, j: nat, t: nat)
    requires IsRun(ss, xs) && i < j < |xs| && xs[i] == BeginSweep(t) && xs[j] == EndSweep(t)
    requires forall k :: i < k < j ==> xs[k] != EndSweep(t)
    ensures ss[j + 1].ledger == Swept(ss[i].ledger)
  {
    SweepLasts(ss, xs, i, j, t);
    assert Enabled(ss[j], xs[j]);
    assert ss[j].ledger.records == Swept(ss[i].ledger).records;
  }

  // ----- what a handle reports never goes back

  lemma {:induction false} GenerationGrows(ss: seq<State>, xs: seq<Action>, i: nat, j: nat)
    requires IsRun(ss, xs) && i <= j < |ss|
    ensures ss[i].ledger.generation <= ss[j].ledger.generation
  {
    if i < j {
      GenerationGrows(ss, xs, i, j - 1);
      RunInv(ss, xs, j - 1);
      assert Enabled(ss[j - 1], xs[j - 1]);
      StampedNext(ss[j - 1], xs[j - 1]);
    }
  }

  lemma StatusNext(s: State, x: Action, h: Handle)
    requires Enabled(s, x) && Stamped(s.ledger) && h.generation <= s.ledger.generation
    ensures FinalizedIn(s.ledger, h) ==> FinalizedIn(Next(s, x).ledger, h)
    ensures !AllocatedIn(s.ledger, h) ==> !AllocatedIn(Next(s, x).ledger, h)
  {
  }

  /**
   Once a handle that was given out reports that it is finalized, or that it is no longer
   allocated, it does so for the rest of the run, also when its address is used again.
   */
  lemma {:induction false} StatusMonotone(ss: seq<State>, xs: seq<Action>, i: nat, j: nat, h: Handle)
    requires IsRun(ss, xs) && i <= j < |ss| && h.generation <= ss[i].ledger.generation
    ensures FinalizedIn(ss[i].ledger, h) ==> FinalizedIn(ss[j].ledger, h)
    ensures !AllocatedIn(ss[i].ledger, h) ==> !AllocatedIn(ss[j].ledger, h)
  {
    hide FinalizedIn, AllocatedIn;
    if i < j {
      StatusMonotone(ss, xs, i, j - 1, h);
      GenerationGrows(ss, xs, i, j - 1);
      RunInv(ss, xs, j - 1);
      assert Enabled(ss[j - 1], xs[j - 1]);
      StatusNext(ss[j - 1], xs[j - 1], h);
    }
  }

  // ----- how long a handle is allocated, and from when on it is finalized

  /** The action forgets the record of `a`. */
  predicate ErasesAt(s: State, x: Action, a: nat) {
    x.Erase? && x.t < |s.pcs| && s.pcs[x.t].Erasing? && s.pcs[x.t].addr == a
  }

  /** The action marks the record of `a`, through whatever handle. */
  predicate MarksAt(s: State, x: Action, a: nat) {
    match x
    case MarkFinalize(t) => t < |s.pcs| && s.pcs[t].Finalizing? && s.pcs[t].handle.addr == a
    case Destroy(_, h) => h.addr == a
    case _ => false
  }

  lemma LifeNext(s: State, x: Action, h: Handle)
    requires Enabled(s, x) && Inv(s) && h.generation <= s.ledger.generation
    ensures AllocatedIn(Next(s, x).ledger, h) <==> AllocatedIn(s.ledger, h) && !ErasesAt(s, x, h.addr)
    ensures FinalizedIn(Next(s, x).ledger, h) <==> FinalizedIn(s.ledger, h) || MarksAt(s, x, h.addr)
  {
    if x.Insert? {
      assert s.pcs[x.t].addr !in s.ledger.records;
    }
  }

  lemma NewStatus(s: State, x: Action)
    requires Enabled(s, x) && x.Insert?
    ensures var h, l := Handle(s.pcs[x.t].addr, s.ledger.generation + 1), Next(s, x).ledger;
            AllocatedIn(l, h) && !FinalizedIn(l, h) && l.generation == h.generation
  {
  }

  /**
   A handle is allocated from the making of its record until a sweep erases the record of its address,
   finalized or not, and never again.  It is finalized from the first mark of its address on, through
   whatever handle, and not before.
   */
  lemma {:induction false} HandleLife(ss: seq<State>, xs: seq<Action>, i: nat, j: nat, h: Handle)
    requires IsRun(ss, xs) && i < j < |ss| && xs[i].Insert?
    requires h == Handle(ss[i].pcs[xs[i].t].addr, ss[i].ledger.generation + 1)
    ensures AllocatedIn(ss[j].ledger, h) <==> forall k :: i < k < j ==> !ErasesAt(ss[k], xs[k], h.addr)
    ensures FinalizedIn(ss[j].ledger, h) <==> exists k :: i < k < j && MarksAt(ss[k], xs[k], h.addr)
  {
    hide Inv, ErasesAt, MarksAt, Next, Enabled, AllocatedIn, FinalizedIn, Initial;
    assert Enabled(ss[i], xs[i]);
    NewStatus(ss[i], xs[i]);
    if j > i + 1 {
      HandleLife(ss, xs, i, j - 1, h);
      GenerationGrows(ss, xs, i + 1, j - 1);
      RunInv(ss, xs, j - 1);
      assert Enabled(ss[j - 1], xs[j - 1]);
      LifeNext(ss[j - 1], xs[j - 1], h);
    }
  }

  // ----- who finalizes a record

  /** Every finalized record was finalized through its own handle. */
  ghost predicate OwnersOnly(s: State) {
    forall a :: a in s.ledger.records && s.ledger.records[a].finalized ==>
      Handle(a, s.ledger.records[a].generation) in s.marked
  }

  /** The handle through which an action marks a record. */
  function Marker(s: State, x: Action): Option<Handle> {
    match x
    case MarkFinalize(t) => if t < |s.pcs| && s.pcs[t].Finalizing? then Some(s.pcs[t].handle) else None
    case Destroy(t, h) => Some(h)
    case _ => None
  }

  /** The action marks a record that belongs to a later allocation at the same address. */
  predicate Hijacks(s: State, x: Action) {
    && Marker(s, x).Some?
    && var h := Marker(s, x).value;
       && h.addr in s.ledger.records && !s.ledger.records[h.addr].finalized
       && s.ledger.records[h.addr].generation != h.generation
  }

  /** Handles a thread or the heap holds, and handles that were marked, were issued before. */
  ghost predicate Issued(s: State) {
    && (forall h :: h in s.marked ==> h.generation <= s.ledger.generation && FinalizedIn(s.ledger, h))
    && (forall h :: h in s.handles ==> h.generation <= s.ledger.generation)
    && (forall t :: 0 <= t < |s.pcs| && (s.pcs[t].Finalizing? || s.pcs[t].Constructing?) ==>
          s.pcs[t].handle.generation <= s.ledger.generation)
  }

  lemma IssuedNext(s: State, x: Action)
    requires Enabled(s, x) && Stamped(s.ledger) && Issued(s)
    ensures Issued(Next(s, x))
  {
    var s' := Next(s, x);
    StampedNext(s, x);
    forall h | h in s'.marked
      ensures h.generation <= s'.ledger.generation && FinalizedIn(s'.ledger, h)
    {
      if h in s.marked {
        StatusNext(s, x, h);
      }
    }
  }

  lemma {:induction false} RunIssued(ss: seq<State>, xs: seq<Action>, k: nat)
    requires IsRun(ss, xs) && k < |ss|
    ensures Issued(ss[k])
  {
    hide Issued;
    if k == 0 {
      InitialIssued(ss[0]);
    } else {
      RunIssued(ss, xs, k - 1);
      RunInv(ss, xs, k - 1);
      assert Enabled(ss[k - 1], xs[k - 1]);
      IssuedNext(ss[k - 1], xs[k - 1]);
    }
  }

  lemma InitialIssued(s: State)
    requires Initial(s)
    ensures Issued(s) && OwnersOnly(s)
  {
  }

  lemma OwnersOnlyNext(s: State, x: Action)
    requires Enabled(s, x) && Issued(s) && OwnersOnly(s)
    ensures OwnersOnly(Next(s, x)) <==> !Hijacks(s, x)
  {
    var s' := Next(s, x);
    if Hijacks(s, x) {
      var h := Marker(s, x).value;
      assert Handle(h.addr, s.ledger.records[h.addr].generation) !in s.marked;
      assert s'.ledger.records[h.addr] == s.ledger.records[h.addr].(finalized := true);
    } else {
      forall a | a in s'.ledger.records && s'.ledger.records[a].finalized
        ensures Handle(a, s'.ledger.records[a].generation) in s'.marked
      {
      }
    }
  }

  /**
   Throughout a run records are finalized through their own handles only, exactly when no action
   of the run marks through a handle whose address now carries another unfinalized record.
   */
  lemma {:induction false} OwnersOnlyIff(ss: seq<State>, xs: seq<Action>)
    requires IsRun(ss, xs)
    ensures (forall k :: 0 <= k < |ss| ==> OwnersOnly(ss[k])) <==>
            (forall k :: 0 <= k < |xs| ==> !Hijacks(ss[k], xs[k]))
  {
    hide OwnersOnly, Hijacks, Issued;
    forall k | 0 <= k < |xs|
      ensures OwnersOnly(ss[k]) ==> (OwnersOnly(ss[k + 1]) <==> !Hijacks(ss[k], xs[k]))
    {
      RunIssued(ss, xs, k);
      assert Enabled(ss[k], xs[k]);
      if OwnersOnly(ss[k]) {
        OwnersOnlyNext(ss[k], xs[k]);
      }
    }
    if forall k :: 0 <= k < |xs| ==> !Hijacks(ss[k], xs[k]) {
      forall k | 0 <= k < |ss| ensures OwnersOnly(ss[k]) {
        OwnersInduct(ss, xs, k);
      }
    } else {
      var k :| 0 <= k < |xs| && Hijacks(ss[k], xs[k]);
      assert OwnersOnly(ss[k]) ==> !OwnersOnly(ss[k + 1]);
    }
  }

  lemma {:induction false} OwnersInduct(ss: seq<State>, xs: seq<Action>, k: nat)
    requires IsRun(ss, xs) && k < |ss| && forall i :: 0 <= i < k ==> !Hijacks(ss[i], xs[i])
    ensures OwnersOnly(ss[k])
  {
    hide OwnersOnly, Hijacks, Issued;
    if k == 0 {
      InitialIssued(ss[0]);
    } else {
      OwnersInduct(ss, xs, k - 1);
      RunIssued(ss, xs, k - 1);
      assert Enabled(ss[k - 1], xs[k - 1]);
      OwnersOnlyNext(ss[k - 1], xs[k - 1]);
    }
  }

  // ----- clients that destroy a handle before its address is used again

  /** A handle that exists: at rest, being made, or being finalized. */
  ghost predicate Held(s: State, h: Handle) {
    || h in s.handles
    || exists t :: 0 <= t < |s.pcs| && (s.pcs[t] == Constructing(h) || s.pcs[t] == Finalizing(h))
  }

  /** A record is made only at an address without handles, and a handle is finalized at most once. */
  ghost predicate Disciplined(s: State, x: Action)
    requires Enabled(s, x)
  {
    && (x.Insert? ==> forall h :: Held(s, h) ==> h.addr != s.pcs[x.t].addr)
    && (x.CheckFinalize? ==> x.h !in s.marked)
  }

  predicate InHand(pc: Pc) { pc.Constructing? || pc.Finalizing? }

  /** No handle is in two places, and a handle in the hands of a thread is not marked. */
  ghost predicate Unique(s: State) {
    && (forall t :: 0 <= t < |s.pcs| && InHand(s.pcs[t]) ==>
          s.pcs[t].handle !in s.marked && s.pcs[t].handle !in s.handles)
    && (forall t, u :: 0 <= t < u < |s.pcs| && InHand(s.pcs[t]) && InHand(s.pcs[u]) ==>
          s.pcs[t].handle != s.pcs[u].handle)
  }

  /** The handle is not stale, and unless it is finalized its block is on record. */
  predicate Good(s: State, h: Handle) {
    && (h.addr in s.ledger.records ==> s.ledger.records[h.addr].generation == h.generation)
    && (h !in s.marked ==> h.addr in s.ledger.records && !s.ledger.records[h.addr].finalized)
  }

  ghost predicate Current(s: State) {
    && !s.aborted && Unique(s)
    && forall h :: Held(s, h) ==> Good(s, h)
  }

  lemma HeldNext(s: State, x: Action, h: Handle)
    requires Enabled(s, x) && Held(Next(s, x), h)
    ensures Held(s, h) || (x.Insert? && h == Handle(s.pcs[x.t].addr, s.ledger.generation + 1))
  {
    var s' := Next(s, x);
    if h !in s'.handles {
      var t :| 0 <= t < |s'.pcs| && (s'.pcs[t] == Constructing(h) || s'.pcs[t] == Finalizing(h));
      assert s'.pcs[t] == s.pcs[t] || t == x.t;
    } else if h !in s.handles {
      assert s.pcs[x.t].Constructing? || s.pcs[x.t].Finalizing?;
    }
  }

  /** A handle in the hands of a thread after a step was there before, is new, or is taken up. */
  lemma InHandNext(s: State, x: Action, t: nat)
    requires Enabled(s, x) && t < |s.pcs| && InHand(Next(s, x).pcs[t])
    ensures || Next(s, x).pcs[t] == s.pcs[t]
            || (x.t == t && x.Insert? && Next(s, x).pcs[t].handle.generation == s.ledger.generation + 1)
            || (x.t == t && x == CheckFinalize(t, Next(s, x).pcs[t].handle))
  {
  }

  lemma UniqueNext(s: State, x: Action)
    requires Enabled(s, x) && Issued(s) && Unique(s) && (x.CheckFinalize? ==> x.h !in s.marked)
    ensures Unique(Next(s, x))
  {
    var s' := Next(s, x);
    forall t | 0 <= t < |s'.pcs| && InHand(s'.pcs[t])
      ensures s'.pcs[t].handle !in s'.marked && s'.pcs[t].handle !in s'.handles
    {
      InHandRests(s, x, t);
    }
    forall t, u | 0 <= t < u < |s'.pcs| && InHand(s'.pcs[t]) && InHand(s'.pcs[u])
      ensures s'.pcs[t].handle != s'.pcs[u].handle
    {
      hide Next, Enabled;
      InHandNext(s, x, t);
      InHandNext(s, x, u);
    }
  }

  lemma InHandRests(s: State, x: Action, t: nat)
    requires Enabled(s, x) && Issued(s) && Unique(s) && (x.CheckFinalize? ==> x.h !in s.marked)
    requires t < |s.pcs| && InHand(Next(s, x).pcs[t])
    ensures Next(s, x).pcs[t].handle !in Next(s, x).marked && Next(s, x).pcs[t].handle !in Next(s, x).handles
  {
    InHandNext(s, x, t);
    if x.t != t && InHand(s.pcs[x.t]) {
      assert s.pcs[x.t].handle != s.pcs[t].handle;
    }
  }

  lemma GoodNext(s: State, x: Action, h: Handle)
    requires Enabled(s, x) && Locked(s) && Disciplined(s, x) && Current(s) && Held(s, h)
    ensures Good(Next(s, x), h)
  {
    assert Good(s, h);
    if Marker(s, x).Some? {
      var m := Marker(s, x).value;
      assert Held(s, m) && Good(s, m);
    }
  }

  lemma NewGood(s: State, x: Action)
    requires Enabled(s, x) && Issued(s) && x.Insert?
    ensures Good(Next(s, x), Handle(s.pcs[x.t].addr, s.ledger.generation + 1))
  {
  }

  lemma CurrentNext(s: State, x: Action)
    requires Enabled(s, x) && Inv(s) && Issued(s) && Disciplined(s, x) && Current(s)
    ensures Current(Next(s, x))
  {
    var s' := Next(s, x);
    NoAbort(s, x);
    UniqueNext(s, x);
    hide Locked, Accounted, Replay, Stamped, Issued, Unique, Good;
    forall h | Held(s', h) ensures Good(s', h) {
      HeldNext(s, x, h);
      if Held(s, h) {
        GoodNext(s, x, h);
      } else {
        NewGood(s, x);
      }
    }
  }

  lemma NoAbort(s: State, x: Action)
    requires Enabled(s, x) && Current(s)
    ensures !Next(s, x).aborted
  {
    if x.MarkFinalize? {
      assert Held(s, s.pcs[x.t].handle);
    }
  }

  lemma {:induction false} RunCurrent(ss: seq<State>, xs: seq<Action>, k: nat)
    requires IsRun(ss, xs) && k < |ss|
    requires forall i :: 0 <= i < k ==> Enabled(ss[i], xs[i]) && Disciplined(ss[i], xs[i])
    ensures Current(ss[k])
  {
    if k > 0 {
      hide Current, Disciplined;
      RunCurrent(ss, xs, k - 1);
      RunInv(ss, xs, k - 1);
      RunIssued(ss, xs, k - 1);
      assert Enabled(ss[k - 1], xs[k - 1]);
      CurrentNext(ss[k - 1], xs[k - 1]);
    }
  }

  /**
   In a run of disciplined clients the fatal branch is never taken, and until the stream is
   destroyed a handle that its owner has not finalized names an outstanding block of its own:
   the checks in the constructor, in Finalize and in the accessors of the handle all hold.
   */
  lemma DisciplinedHandlesUsable(ss: seq<State>, xs: seq<Action>, k: nat, h: Handle)
    requires IsRun(ss, xs) && k < |ss| && Held(ss[k], h)
    requires forall i :: 0 <= i < k ==> Enabled(ss[i], xs[i]) && Disciplined(ss[i], xs[i])
    ensures !ss[k].aborted && OwnersOnly(ss[k])
    ensures h !in ss[k].marked ==> AllocatedIn(ss[k].ledger, h) && !FinalizedIn(ss[k].ledger, h)
    ensures h !in ss[k].marked && (forall t :: 0 <= t < |ss[k].pcs| ==> !ss[k].pcs[t].Forcing?) ==>
              h.addr in ss[k].live && h.addr !in PendingBlocks(ss[k])
  {
    RunCurrent(ss, xs, k);
    forall i | 0 <= i < k ensures !Hijacks(ss[i], xs[i]) {
      RunCurrent(ss, xs, i);
      assert Enabled(ss[i], xs[i]);
      CurrentNeverHijacks(ss[i], xs[i]);
    }
    OwnersInduct(ss, xs, k);
    RunInv(ss, xs, k);
    assert Good(ss[k], h);
    var s := ss[k];
    if h !in s.marked && forall t :: 0 <= t < |s.pcs| ==> !s.pcs[t].Forcing? {
      RecordedOwn(s, h);
    }
  }

  lemma RecordedOwn(s: State, h: Handle)
    requires Inv(s) && Good(s, h) && h !in s.marked && forall t :: 0 <= t < |s.pcs| ==> !s.pcs[t].Forcing?
    ensures h.addr in s.live && h.addr !in PendingBlocks(s)
  {
    assert h.addr in Recorded(s);
  }

  lemma CurrentNeverHijacks(s: State, x: Action)
    requires Enabled(s, x) && Current(s)
    ensures !Hijacks(s, x)
  {
    if Marker(s, x).Some? {
      assert Held(s, Marker(s, x).value);
    }
  }

  // ----- a stale destructor frees a block in use

  /** The run goes on with action `x`, into state `e`. */
  lemma Continue(ss: seq<State>, xs: seq<Action>, x: Action, e: State)
    requires IsRun(ss, xs) && Enabled(ss[|xs|], x) && e == Next(ss[|xs|], x)
    ensures IsRun(ss + [e], xs + [x])
  {
    hide Enabled, Next, Initial;
    var ss', xs' := ss + [e], xs + [x];
    forall k | 0 <= k < |xs'|
      ensures Enabled(ss'[k], xs'[k]) && ss'[k + 1] == Next(ss'[k], xs'[k])
    {
      if k < |xs| {
        assert xs'[k] == xs[k] && ss'[k] == ss[k] && ss'[k + 1] == ss[k + 1];
      }
    }
  }

  predicate OneIdle(s: State) { s.pcs == [Idle] && s.holder.None? && !s.aborted }

  /** The one thread allocates block `a` and gets its handle. */
  lemma RunAllocates(ss: seq<State>, xs: seq<Action>, a: nat) returns (ss': seq<State>, xs': seq<Action>)
    requires IsRun(ss, xs) && OneIdle(ss[|xs|]) && a !in ss[|xs|].live && a !in ss[|xs|].foreign
    ensures IsRun(ss', xs') && ss <= ss' && xs <= xs' && OneIdle(ss'[|xs'|])
    ensures var s, e := ss[|xs|], ss'[|xs'|];
            && e.ledger == Inserted(s.ledger, a) && e.live == s.live + {a} && e.foreign == s.foreign
            && e.handles == s.handles + {Handle(a, s.ledger.generation + 1)} && e.marked == s.marked
  {
    hide IsRun;
    Shape(ss, xs);
    var s := ss[|xs|];
    var s1 := Next(s, Allocate(0, a));
    Continue(ss, xs, Allocate(0, a), s1);
    var s2 := Next(s1, Insert(0));
    Continue(ss + [s1], xs + [Allocate(0, a)], Insert(0), s2);
    var s3 := Next(s2, Construct(0));
    Continue(ss + [s1] + [s2], xs + [Allocate(0, a)] + [Insert(0)], Construct(0), s3);
    ss', xs' := ss + [s1] + [s2] + [s3], xs + [Allocate(0, a)] + [Insert(0)] + [Construct(0)];
  }

  lemma Shape(ss: seq<State>, xs: seq<Action>)
    requires IsRun(ss, xs)
    ensures |ss| == |xs| + 1
  {
  }

  /** The one thread finalizes a handle whose block is on record. */
  lemma RunFinalizes(ss: seq<State>, xs: seq<Action>, h: Handle) returns (ss': seq<State>, xs': seq<Action>)
    requires IsRun(ss, xs) && OneIdle(ss[|xs|]) && h in ss[|xs|].handles && h.addr in ss[|xs|].ledger.records
    ensures IsRun(ss', xs') && ss <= ss' && xs <= xs' && OneIdle(ss'[|xs'|])
    ensures var s, e := ss[|xs|], ss'[|xs'|];
            && e.ledger == Marked(s.ledger, h.addr) && e.live == s.live && e.foreign == s.foreign
            && e.handles == s.handles && e.marked == s.marked + {h}
  {
    hide IsRun;
    Shape(ss, xs);
    var s := ss[|xs|];
    var s1 := Next(s, CheckFinalize(0, h));
    Continue(ss, xs, CheckFinalize(0, h), s1);
    var s2 := Next(s1, MarkFinalize(0));
    Continue(ss + [s1], xs + [CheckFinalize(0, h)], MarkFinalize(0), s2);
    ss', xs' := ss + [s1] + [s2], xs + [CheckFinalize(0, h)] + [MarkFinalize(0)];
    assert s2.handles == s.handles;
  }

  /** The one thread sweeps a ledger with one finalized record. */
  lemma RunSweeps(ss: seq<State>, xs: seq<Action>, a: nat, r: Record) returns (ss': seq<State>, xs': seq<Action>)
    requires IsRun(ss, xs) && OneIdle(ss[|xs|]) && r.finalized && ss[|xs|].ledger.records == map[a := r]
    ensures IsRun(ss', xs') && ss <= ss' && xs <= xs' && OneIdle(ss'[|xs'|])
    ensures var s, e := ss[|xs|], ss'[|xs'|];
            && e.ledger == Ledger(map[], s.ledger.generation) && e.live == s.live - {a} && e.foreign == s.foreign
            && e.handles == s.handles && e.marked == s.marked
  {
    hide IsRun;
    Shape(ss, xs);
    var s := ss[|xs|];
    var s1 := Next(s, BeginSweep(0));
    Continue(ss, xs, BeginSweep(0), s1);
    assert s1.pcs[0].todo == {a};
    var s2 := Next(s1, Visit(0, a));
    Continue(ss + [s1], xs + [BeginSweep(0)], Visit(0, a), s2);
    var s3 := Next(s2, Erase(0));
    Continue(ss + [s1] + [s2], xs + [BeginSweep(0)] + [Visit(0, a)], Erase(0), s3);
    assert s3.ledger.records == map[];
    var s4 := Next(s3, EndSweep(0));
    Continue(ss + [s1] + [s2] + [s3], xs + [BeginSweep(0)] + [Visit(0, a)] + [Erase(0)], EndSweep(0), s4);
    ss' := ss + [s1] + [s2] + [s3] + [s4];
    xs' := xs + [BeginSweep(0)] + [Visit(0, a)] + [Erase(0)] + [EndSweep(0)];
  }

  /**
   A block is finalized and swept while its handle lives on; its address is used again; the old
   handle is destroyed; and the next sweep frees the new block, whose owner still holds it.
   */
  lemma StaleDestructorFrees(a: nat, start: nat) returns (ss: seq<State>, xs: seq<Action>, h: Handle)
    ensures IsRun(ss, xs) && ss[0].ledger.generation == start
    ensures h.addr == a && Held(ss[|xs|], h) && h !in ss[|xs|].marked && h.addr !in ss[|xs|].live
    ensures exists k :: 0 <= k < |xs| && Hijacks(ss[k], xs[k])
  {
    var s0 := State(Ledger(map[], start), [Idle], None, {}, {}, [], {}, {}, false);
    ss, xs := [s0], [];
    var stale := Handle(a, start + 1);
    h := Handle(a, start + 2);
    assert IsRun(ss, xs);
    hide IsRun, Next;
    ss, xs := RunAllocates(ss, xs, a);
    ss, xs := RunFinalizes(ss, xs, stale);
    assert ss[|xs|].ledger.records == map[a := Record(start + 1, true)];
    ss, xs := RunSweeps(ss, xs, a, Record(start + 1, true));
    ss, xs := RunAllocates(ss, xs, a);
    Shape(ss, xs);
    var n, s := |xs|, ss[|xs|];
    var e := NextDestroy(s, stale);
    Continue(ss, xs, Destroy(0, stale), e);
    ss, xs := ss + [e], xs + [Destroy(0, stale)];
    assert Hijacks(ss[n], xs[n]);
    assert e.ledger.records == map[a := Record(start + 2, true)];
    var ss', xs' := RunSweeps(ss, xs, a, Record(start + 2, true));
    assert ss'[n] == ss[n] && xs'[n] == xs[n];
    ss, xs := ss', xs';
  }

  lemma NextDestroy(s: State, h: Handle) returns (e: State)
    requires OneIdle(s) && h in s.handles
    ensures Enabled(s, Destroy(0, h)) && e == Next(s, Destroy(0, h))
    ensures e == s.(ledger := Marked(s.ledger, h.addr), handles := s.handles - {h}, marked := s.marked + {h})
  {
    e := Next(s, Destroy(0, h));
  }
}
