/**
 How many blocks fit on a core, and the largest register count that still lets a wanted number
 of blocks fit (stream_executor/device_description.cc).  All arithmetic is on 64-bit unsigned
 numbers; a division by zero stops the program.
 */
module Occupancy {

  import opened Division

  const U64: nat := 0x1_0000_0000_0000_0000
  const UNINITIALIZED: nat := U64 - 1
  const I32: nat := 0x8000_0000

  datatype Device = Device(
    registersPerThreadLimit: nat, threadsPerWarp: nat, warpAllocGranularity: nat, registerAllocGranularity: nat,
    registersPerBlockLimit: nat, sharedMemoryPerCore: nat, blocksPerCoreLimit: nat,
    sharedMemoryAllocGranularity: nat, threadsPerCoreLimit: nat)

  datatype ThreadDim = ThreadDim(x: nat, y: nat, z: nat)

  /** A result, or the trap of a division by zero. */
  datatype Outcome = Trap | Value(n: nat)

  function W(x: nat): nat { x % U64 }

  function Min(a: nat, b: nat): nat { if a < b then a else b }

  /** MathUtil::CeilOfRatio. */
  function CeilOfRatio(n: nat, d: nat): nat
    requires d > 0
  {
    var q := n / d;
    if n > q * d then q + 1 else q
  }

  lemma CeilBounds(n: nat, d: nat)
    requires d > 0
    ensures (CeilOfRatio(n, d) - 1) * d < n <= CeilOfRatio(n, d) * d
  {
    QuotientBounds(n, d);
    var q := n / d;
    assert (q + 1) * d == q * d + d && (q - 1) * d == q * d - d;
  }

  /** Rounding up to a multiple, without wrap-around. */
  function Up(v: nat, n: nat): nat
    requires n > 0
  {
    CeilOfRatio(v, n) * n
  }

  function RoundUp(v: nat, n: nat): nat
    requires n > 0
  {
    W(Up(v, n))
  }

  function RoundDown(v: nat, n: nat): (r: nat)
    requires n > 0
    ensures r <= v < r + n && r % n == 0
  {
    QuotientBounds(v, n);
    DivMod(v / n, 0, n);
    v / n * n
  }

  predicate Uninitialized(dev: Device) {
    UNINITIALIZED in {dev.registersPerThreadLimit, dev.threadsPerWarp, dev.warpAllocGranularity,
                      dev.registerAllocGranularity, dev.registersPerBlockLimit, dev.sharedMemoryPerCore,
                      dev.blocksPerCoreLimit}
  }

  /** CalculateOccupancy. */
  function CalculateOccupancy(dev: Device, regs: nat, smem: nat, dims: ThreadDim): Outcome {
    if Uninitialized(dev) then Value(0)
    else if regs > dev.registersPerThreadLimit then Value(0)
    else if dev.threadsPerWarp == 0 || dev.warpAllocGranularity == 0 || dev.registerAllocGranularity == 0 then Trap
    else
      var warps := CeilOfRatio(W(dims.x * dims.y * dims.z), dev.threadsPerWarp);
      var allocWarps := RoundUp(warps, dev.warpAllocGranularity);
      var allocRegs := RoundUp(W(dev.threadsPerWarp * regs), dev.registerAllocGranularity);
      var regsPerBlock := W(allocWarps * allocRegs);
      if regsPerBlock == 0 || dev.sharedMemoryAllocGranularity == 0 then Trap
      else
        var regLimit := dev.registersPerBlockLimit / regsPerBlock;
        var allocSmem := RoundUp(smem, dev.sharedMemoryAllocGranularity);
        var smemLimit := if allocSmem > 0 then dev.sharedMemoryPerCore / allocSmem else dev.blocksPerCoreLimit;
        var blockThreads := W(warps * dev.threadsPerWarp);
        if blockThreads == 0 then Trap
        else Value(Min(Min(dev.blocksPerCoreLimit, regLimit), Min(smemLimit, dev.threadsPerCoreLimit / blockThreads)))
  }

  // ----- what a block takes, without wrap-around

  predicate Sensible(dev: Device) {
    && !Uninitialized(dev) && dev.threadsPerWarp > 0 && dev.warpAllocGranularity > 0
    && dev.registerAllocGranularity > 0 && dev.sharedMemoryAllocGranularity > 0
  }

  function Threads(dims: ThreadDim): nat { dims.x * dims.y * dims.z }

  function Warps(dev: Device, dims: ThreadDim): nat
    requires Sensible(dev)
  {
    CeilOfRatio(Threads(dims), dev.threadsPerWarp)
  }

  function AllocWarps(dev: Device, dims: ThreadDim): nat
    requires Sensible(dev)
  {
    Up(Warps(dev, dims), dev.warpAllocGranularity)
  }

  function AllocRegs(dev: Device, regs: nat): nat
    requires Sensible(dev)
  {
    Up(dev.threadsPerWarp * regs, dev.registerAllocGranularity)
  }

  function AllocSmem(dev: Device, smem: nat): nat
    requires Sensible(dev)
  {
    Up(smem, dev.sharedMemoryAllocGranularity)
  }

  /** None of the intermediate results wraps around. */
  predicate Fits(dev: Device, regs: nat, smem: nat, dims: ThreadDim)
    requires Sensible(dev)
  {
    && Threads(dims) < U64 && AllocWarps(dev, dims) < U64 && dev.threadsPerWarp * regs < U64
    && AllocRegs(dev, regs) < U64 && AllocWarps(dev, dims) * AllocRegs(dev, regs) < U64
    && AllocSmem(dev, smem) < U64 && Warps(dev, dims) * dev.threadsPerWarp < U64
  }

  /** `b` blocks can be on a core at the same time. */
  predicate CanHold(dev: Device, regs: nat, smem: nat, dims: ThreadDim, b: nat)
    requires Sensible(dev)
  {
    && b <= dev.blocksPerCoreLimit
    && b * (AllocWarps(dev, dims) * AllocRegs(dev, regs)) <= dev.registersPerBlockLimit
    && b * AllocSmem(dev, smem) <= dev.sharedMemoryPerCore
    && b * (Warps(dev, dims) * dev.threadsPerWarp) <= dev.threadsPerCoreLimit
  }

  lemma Wrap(x: nat)
    requires x < U64
    ensures W(x) == x
  {
  }

  lemma UpPositive(v: nat, n: nat)
    requires v > 0 && n > 0
    ensures CeilOfRatio(v, n) > 0 && Up(v, n) > 0
  {
    CeilBounds(v, n);
    assert 0 * n == 0;
    Positive(CeilOfRatio(v, n), n);
  }

  lemma Positive(a: nat, b: nat)
    requires a > 0 && b > 0
    ensures a * b > 0
  {
  }

  lemma QuotientBound(b: nat, cost: nat, total: nat)
    requires cost > 0
    ensures b <= total / cost <==> b * cost <= total
  {
    QuotientBounds(total, cost);
    Scaled(b, total / cost, cost);
    Scaled(total / cost + 1, b, cost);
  }

  /**
   The occupancy is the largest number of blocks that respects all four limits, and the
   computation traps exactly for empty blocks and for zero registers.
   */
  lemma OccupancyExact(dev: Device, regs: nat, smem: nat, dims: ThreadDim, b: nat)
    requires Sensible(dev) && regs <= dev.registersPerThreadLimit && Fits(dev, regs, smem, dims)
    ensures CalculateOccupancy(dev, regs, smem, dims) == Trap <==> regs == 0 || Threads(dims) == 0
    ensures CalculateOccupancy(dev, regs, smem, dims).Value? ==>
              (b <= CalculateOccupancy(dev, regs, smem, dims).n <==> CanHold(dev, regs, smem, dims, b))
  {
    hide W, Up, CeilOfRatio, Uninitialized;
    var tpw := dev.threadsPerWarp;
    Wrap(Threads(dims));
    Wrap(AllocWarps(dev, dims));
    Wrap(tpw * regs);
    Wrap(AllocRegs(dev, regs));
    Wrap(AllocWarps(dev, dims) * AllocRegs(dev, regs));
    Wrap(AllocSmem(dev, smem));
    Wrap(Warps(dev, dims) * tpw);
    UpZero(tpw);
    UpZero(dev.warpAllocGranularity);
    UpZero(dev.registerAllocGranularity);
    var cost := AllocWarps(dev, dims) * AllocRegs(dev, regs);
    if regs == 0 {
      assert tpw * regs == 0 && cost == 0;
    } else if Threads(dims) == 0 {
      assert Warps(dev, dims) == 0 && AllocWarps(dev, dims) == 0 && cost == 0;
    } else {
      UpPositive(Threads(dims), tpw);
      UpPositive(Warps(dev, dims), dev.warpAllocGranularity);
      Positive(tpw, regs);
      UpPositive(tpw * regs, dev.registerAllocGranularity);
      Positive(AllocWarps(dev, dims), AllocRegs(dev, regs));
      Positive(Warps(dev, dims), tpw);
      QuotientBound(b, cost, dev.registersPerBlockLimit);
      QuotientBound(b, Warps(dev, dims) * tpw, dev.threadsPerCoreLimit);
      if AllocSmem(dev, smem) > 0 {
        QuotientBound(b, AllocSmem(dev, smem), dev.sharedMemoryPerCore);
      } else {
        assert b * AllocSmem(dev, smem) == 0;
      }
    }
  }

  /** A number between `v` and `v + n` that `n` divides is the one that rounding up gives. */
  lemma UpIs(v: nat, n: nat, u: nat)
    requires n > 0 && u % n == 0 && v <= u < v + n
    ensures Up(v, n) == u
  {
    hide CeilOfRatio;
    var q := u / n;
    assert u == q * n && (q - 1) * n == q * n - n;
    CeilIs(v, n, q);
  }

  /**
   The same in plain words: `w` warps have room for all threads of a block and no warp is empty; warps, registers
   of a warp and shared memory are allocated in whole units; the occupancy is the largest number of blocks that
   the limits of a core on blocks, registers, shared memory and threads allow.
   */
  lemma BlocksFit(dev: Device, regs: nat, smem: nat, dims: ThreadDim, b: nat, w: nat, warps: nat, regsPerWarp: nat, memory: nat)
    requires Sensible(dev) && 0 < regs <= dev.registersPerThreadLimit && Fits(dev, regs, smem, dims)
    requires 0 < dims.x * dims.y * dims.z <= w * dev.threadsPerWarp && (w - 1) * dev.threadsPerWarp < dims.x * dims.y * dims.z
    requires warps % dev.warpAllocGranularity == 0 && w <= warps < w + dev.warpAllocGranularity
    requires regsPerWarp % dev.registerAllocGranularity == 0
    requires dev.threadsPerWarp * regs <= regsPerWarp < dev.threadsPerWarp * regs + dev.registerAllocGranularity
    requires memory % dev.sharedMemoryAllocGranularity == 0 && smem <= memory < smem + dev.sharedMemoryAllocGranularity
    ensures CalculateOccupancy(dev, regs, smem, dims).Value?
    ensures b <= CalculateOccupancy(dev, regs, smem, dims).n <==>
            && b <= dev.blocksPerCoreLimit
            && b * (warps * regsPerWarp) <= dev.registersPerBlockLimit
            && b * memory <= dev.sharedMemoryPerCore
            && b * (w * dev.threadsPerWarp) <= dev.threadsPerCoreLimit
  {
    hide CalculateOccupancy, Up, CeilOfRatio, Uninitialized, Fits;
    CeilIs(Threads(dims), dev.threadsPerWarp, w);
    UpIs(w, dev.warpAllocGranularity, warps);
    UpIs(dev.threadsPerWarp * regs, dev.registerAllocGranularity, regsPerWarp);
    UpIs(smem, dev.sharedMemoryAllocGranularity, memory);
    OccupancyExact(dev, regs, smem, dims, b);
  }

  /** Seven fields are required, and a device that lacks one of them holds nothing; so do too many registers. */
  lemma RequiredFields(dev: Device, regs: nat, smem: nat, dims: ThreadDim)
    ensures Uninitialized(dev) <==>
            var none := 0xFFFF_FFFF_FFFF_FFFF;
            || dev.registersPerThreadLimit == none || dev.threadsPerWarp == none || dev.warpAllocGranularity == none
            || dev.registerAllocGranularity == none || dev.registersPerBlockLimit == none || dev.sharedMemoryPerCore == none
            || dev.blocksPerCoreLimit == none
    ensures Uninitialized(dev) || regs > dev.registersPerThreadLimit ==> CalculateOccupancy(dev, regs, smem, dims) == Value(0)
  {
  }

  lemma UpZero(n: nat)
    requires n > 0
    ensures CeilOfRatio(0, n) == 0 && Up(0, n) == 0
  {
  }

  // ----- more resources per block never let more blocks fit

  lemma CeilMonotone(v: nat, v': nat, n: nat)
    requires n > 0 && v <= v'
    ensures CeilOfRatio(v, n) <= CeilOfRatio(v', n) && Up(v, n) <= Up(v', n)
  {
    hide CeilOfRatio;
    CeilBounds(v, n);
    CeilBounds(v', n);
    var q, q' := CeilOfRatio(v, n), CeilOfRatio(v', n);
    assert (q - 1) * n < v' <= q' * n;
    Scaled(q', q - 1, n);
    Scaled(q, q', n);
  }

  lemma ProductMonotone(a: nat, a': nat, b: nat, b': nat)
    requires a <= a' && b <= b'
    ensures a * b <= a' * b'
  {
    Scaled(a, a', b);
    Scaled(b, b', a');
    assert a * b <= a' * b && b * a' <= b' * a';
  }

  lemma HoldsFewer(dev: Device, regs: nat, smem: nat, dims: ThreadDim, regs': nat, smem': nat, dims': ThreadDim, b: nat)
    requires Sensible(dev) && regs <= regs' && smem <= smem' && Threads(dims) <= Threads(dims')
    requires CanHold(dev, regs', smem', dims', b)
    ensures CanHold(dev, regs, smem, dims, b)
  {
    hide Up, CeilOfRatio, Threads;
    var tpw := dev.threadsPerWarp;
    CeilMonotone(Threads(dims), Threads(dims'), tpw);
    CeilMonotone(Warps(dev, dims), Warps(dev, dims'), dev.warpAllocGranularity);
    ProductMonotone(tpw, tpw, regs, regs');
    CeilMonotone(tpw * regs, tpw * regs', dev.registerAllocGranularity);
    CeilMonotone(smem, smem', dev.sharedMemoryAllocGranularity);
    ProductMonotone(AllocWarps(dev, dims), AllocWarps(dev, dims'), AllocRegs(dev, regs), AllocRegs(dev, regs'));
    ProductMonotone(Warps(dev, dims), Warps(dev, dims'), tpw, tpw);
    ProductMonotone(b, b, AllocWarps(dev, dims) * AllocRegs(dev, regs), AllocWarps(dev, dims') * AllocRegs(dev, regs'));
    ProductMonotone(b, b, AllocSmem(dev, smem), AllocSmem(dev, smem'));
    ProductMonotone(b, b, Warps(dev, dims) * tpw, Warps(dev, dims') * tpw);
  }

  /** Occupancy falls, or stays, as registers, shared memory and threads per block grow. */
  lemma OccupancyAntitone(dev: Device, regs: nat, smem: nat, dims: ThreadDim, regs': nat, smem': nat, dims': ThreadDim)
    requires Sensible(dev) && 0 < regs <= regs' && smem <= smem' && 0 < Threads(dims) <= Threads(dims')
    requires Fits(dev, regs, smem, dims) && Fits(dev, regs', smem', dims')
    ensures CalculateOccupancy(dev, regs', smem', dims').Value?
    ensures regs <= dev.registersPerThreadLimit ==>
              && CalculateOccupancy(dev, regs, smem, dims).Value?
              && CalculateOccupancy(dev, regs', smem', dims').n <= CalculateOccupancy(dev, regs, smem, dims).n
  {
    hide CalculateOccupancy, CanHold, Fits, Threads;
    if regs' <= dev.registersPerThreadLimit {
      OccupancyExact(dev, regs', smem', dims', 0);
      var n' := CalculateOccupancy(dev, regs', smem', dims').n;
      OccupancyExact(dev, regs', smem', dims', n');
      OccupancyExact(dev, regs, smem, dims, n');
      HoldsFewer(dev, regs, smem, dims, regs', smem', dims', n');
    } else {
      OverLimit(dev, regs', smem', dims');
      if regs <= dev.registersPerThreadLimit {
        OccupancyExact(dev, regs, smem, dims, 0);
      }
    }
  }

  lemma OverLimit(dev: Device, regs: nat, smem: nat, dims: ThreadDim)
    requires regs > dev.registersPerThreadLimit
    ensures CalculateOccupancy(dev, regs, smem, dims) == Value(0)
  {
  }

  // ----- the register search

  /** Conversion to a 32-bit int. */
  function AsInt32(x: nat): (r: int)
    ensures -0x8000_0000 <= r < 0x8000_0000 && (x - r) % 0x1_0000_0000 == 0
  {
    var low := x % (2 * I32);
    if low >= I32 then low - 2 * I32 else low
  }

  /** And back to an unsigned 64-bit number. */
  function AsUInt64(x: int): (u: nat)
    ensures -0x8000_0000 <= x < 0x8000_0000 ==> u < U64 && (u == x || u == x + U64)
  {
    if x < 0 then (x + U64) % U64 else x
  }

  /** The search from candidate `r` downwards. */
  function SearchFrom(dev: Device, smem: nat, dims: ThreadDim, target: nat, step: nat, r: int): Outcome
    decreases r
  {
    if r <= 0 then Value(0)
    else
      match CalculateOccupancy(dev, r, smem, dims)
      case Trap => Trap
      case Value(n) =>
        if n >= target then Value(r)
        else if step == 0 then Trap
        else
          QuotientBounds(r - 1, step);
          SearchFrom(dev, smem, dims, target, step, RoundDown(r - 1, step))
  }

  function Step(dev: Device): nat
    requires dev.threadsPerWarp > 0
  {
    AsUInt64(AsInt32(dev.registerAllocGranularity / dev.threadsPerWarp))
  }

  /** CalculateRegisterLimitForTargetOccupancy. */
  method RegisterLimit(dev: Device, smem: nat, dims: ThreadDim, target: nat) returns (result: Outcome)
    ensures result == if dev.threadsPerWarp == 0 then Trap
                      else SearchFrom(dev, smem, dims, target, Step(dev), AsInt32(dev.registersPerThreadLimit))
  {
    if dev.threadsPerWarp == 0 {
      return Trap;
    }
    var step := Step(dev);
    var r := AsInt32(dev.registersPerThreadLimit);
    while r > 0
      invariant SearchFrom(dev, smem, dims, target, step, AsInt32(dev.registersPerThreadLimit))
                == SearchFrom(dev, smem, dims, target, step, r)
      decreases r
    {
      var occupancy := CalculateOccupancy(dev, r, smem, dims);
      if occupancy.Trap? {
        return Trap;
      }
      if occupancy.n >= target {
        return Value(r);
      }
      if step == 0 {
        return Trap;
      }
      QuotientBounds(r - 1, step);
      r := RoundDown(r - 1, step);
    }
    result := Value(0);
  }

  /** The conditions under which the search is asked a sensible question. */
  predicate Searchable(dev: Device, smem: nat, dims: ThreadDim) {
    && Sensible(dev) && dev.registersPerThreadLimit < I32 && dev.registerAllocGranularity < I32
    && dev.threadsPerWarp <= dev.registerAllocGranularity
    && Threads(dims) > 0 && Fits(dev, dev.registersPerThreadLimit, smem, dims)
  }

  lemma FitsBelow(dev: Device, regs: nat, smem: nat, dims: ThreadDim, r: nat)
    requires Sensible(dev) && Fits(dev, regs, smem, dims) && r <= regs
    ensures Fits(dev, r, smem, dims)
  {
    hide Up, CeilOfRatio, Threads;
    ProductMonotone(dev.threadsPerWarp, dev.threadsPerWarp, r, regs);
    CeilMonotone(dev.threadsPerWarp * r, dev.threadsPerWarp * regs, dev.registerAllocGranularity);
    ProductMonotone(AllocWarps(dev, dims), AllocWarps(dev, dims), AllocRegs(dev, r), AllocRegs(dev, regs));
  }

  /** `r` registers per thread allow the target occupancy. */
  predicate Reaches(dev: Device, smem: nat, dims: ThreadDim, target: nat, r: nat)
    requires Sensible(dev)
  {
    CanHold(dev, r, smem, dims, target)
  }

  lemma ReachesExact(dev: Device, smem: nat, dims: ThreadDim, target: nat, r: nat)
    requires Searchable(dev, smem, dims) && 0 < r <= dev.registersPerThreadLimit
    ensures CalculateOccupancy(dev, r, smem, dims).Value?
    ensures CalculateOccupancy(dev, r, smem, dims).n >= target <==> Reaches(dev, smem, dims, target, r)
  {
    hide CalculateOccupancy, CanHold, Fits, Threads;
    FitsBelow(dev, dev.registersPerThreadLimit, smem, dims, r);
    OccupancyExact(dev, r, smem, dims, target);
  }

  /** All register counts in one step are rounded up to the same allocation. */
  lemma SameAllocation(dev: Device, step: nat, k: nat, low: nat, r: nat)
    requires Sensible(dev) && step > 0 && dev.registerAllocGranularity == step * dev.threadsPerWarp
    requires low == k * step && low < r <= low + step
    ensures AllocRegs(dev, r) == dev.threadsPerWarp * (low + step)
  {
    hide Sensible;
    var tpw, g := dev.threadsPerWarp, dev.registerAllocGranularity;
    assert tpw * (low + step) == (k + 1) * g by {
      assert (k + 1) * (step * tpw) == (k * step + step) * tpw;
    }
    assert tpw * low == k * g by { assert k * (step * tpw) == k * step * tpw; }
    assert k * g < tpw * r by { assert tpw > 0 by { TpwPositive(dev); } Less(low, r, tpw); }
    Scaled(r, low + step, tpw);
    CeilIs(tpw * r, g, k + 1);
  }

  lemma TpwPositive(dev: Device)
    requires Sensible(dev)
    ensures dev.threadsPerWarp > 0 && dev.registerAllocGranularity > 0
  {
  }

  lemma Less(x: int, y: int, p: int)
    requires x < y && p > 0
    ensures p * x < p * y
  {
  }

  lemma CeilIs(v: nat, n: nat, q: nat)
    requires n > 0 && (q - 1) * n < v <= q * n
    ensures CeilOfRatio(v, n) == q && Up(v, n) == q * n
  {
    hide CeilOfRatio;
    CeilBounds(v, n);
    var c: int := CeilOfRatio(v, n);
    Scaled(c, q - 1, n);
    Scaled(q, c - 1, n);
  }

  /** The largest register count up to the device's limit that reaches the target, or 0. */
  ghost predicate Best(dev: Device, smem: nat, dims: ThreadDim, target: nat, r: nat)
    requires Sensible(dev)
  {
    && r <= dev.registersPerThreadLimit
    && (r > 0 ==> Reaches(dev, smem, dims, target, r))
    && FailsAbove(dev, smem, dims, target, r)
  }

  ghost predicate FailsAbove(dev: Device, smem: nat, dims: ThreadDim, target: nat, low: nat)
    requires Sensible(dev)
  {
    forall r: nat :: low < r <= dev.registersPerThreadLimit ==> !Reaches(dev, smem, dims, target, r)
  }

  /** The step covers whole allocation units, or skips nothing. */
  predicate StepExact(tpw: nat, granularity: nat)
    requires tpw > 0
  {
    granularity % tpw == 0 || granularity / tpw == 1
  }

  lemma SameReach(dev: Device, smem: nat, dims: ThreadDim, target: nat, r: nat, r': nat)
    requires Sensible(dev) && AllocRegs(dev, r) == AllocRegs(dev, r')
    ensures Reaches(dev, smem, dims, target, r) <==> Reaches(dev, smem, dims, target, r')
  {
    hide AllocRegs, AllocWarps, Warps, AllocSmem, Sensible;
  }

  /** A failed candidate rules out every register count that the next step passes over. */
  lemma SkipsOnlyFailures(dev: Device, smem: nat, dims: ThreadDim, target: nat, r: nat)
    requires Searchable(dev, smem, dims) && StepExact(dev.threadsPerWarp, dev.registerAllocGranularity)
    requires 0 < r <= dev.registersPerThreadLimit && FailsAbove(dev, smem, dims, target, r)
    requires !Reaches(dev, smem, dims, target, r)
    ensures var step := dev.registerAllocGranularity / dev.threadsPerWarp;
            step > 0 && RoundDown(r - 1, step) < r && FailsAbove(dev, smem, dims, target, RoundDown(r - 1, step))
  {
    hide Reaches, Fits, Threads, AllocRegs;
    var tpw, g := dev.threadsPerWarp, dev.registerAllocGranularity;
    var step := g / tpw;
    StepPositive(g, tpw);
    QuotientBounds(r - 1, step);
    var low := RoundDown(r - 1, step);
    forall r': nat | low < r' <= dev.registersPerThreadLimit
      ensures !Reaches(dev, smem, dims, target, r')
    {
      if r' < r {
        if g % tpw == 0 {
          WholeUnits(g, tpw);
          SameAllocation(dev, step, (r - 1) / step, low, r);
          SameAllocation(dev, step, (r - 1) / step, low, r');
          SameReach(dev, smem, dims, target, r, r');
        }
      }
    }
  }

  lemma StepPositive(g: nat, tpw: nat)
    requires 0 < tpw <= g
    ensures g / tpw > 0
  {
    QuotientBounds(g, tpw);
    if g / tpw <= 0 {
      Scaled(g / tpw, 0, tpw);
    }
  }

  lemma WholeUnits(g: nat, tpw: nat)
    requires tpw > 0 && g % tpw == 0
    ensures g == g / tpw * tpw
  {
  }

  lemma {:induction false} SearchFindsBest(dev: Device, smem: nat, dims: ThreadDim, target: nat, r: nat)
    requires Searchable(dev, smem, dims) && StepExact(dev.threadsPerWarp, dev.registerAllocGranularity)
    requires r <= dev.registersPerThreadLimit && FailsAbove(dev, smem, dims, target, r)
    ensures var found := SearchFrom(dev, smem, dims, target, dev.registerAllocGranularity / dev.threadsPerWarp, r);
            found.Value? && Best(dev, smem, dims, target, found.n)
    decreases r
  {
    hide CalculateOccupancy, Reaches, Fits, Threads, RoundDown, StepExact;
    if r > 0 {
      ReachesExact(dev, smem, dims, target, r);
      if !Reaches(dev, smem, dims, target, r) {
        SkipsOnlyFailures(dev, smem, dims, target, r);
        SearchFindsBest(dev, smem, dims, target,
                        RoundDown(r - 1, dev.registerAllocGranularity / dev.threadsPerWarp));
      }
    }
  }

  lemma StepPlain(dev: Device, smem: nat, dims: ThreadDim)
    requires Searchable(dev, smem, dims)
    ensures Step(dev) == dev.registerAllocGranularity / dev.threadsPerWarp
    ensures AsInt32(dev.registersPerThreadLimit) == dev.registersPerThreadLimit
  {
    hide Fits, Threads, Sensible;
    TpwPositive(dev);
    QuotientAtMost(dev.registerAllocGranularity, dev.threadsPerWarp);
    Unchanged32(dev.registersPerThreadLimit);
    Unchanged32(dev.registerAllocGranularity / dev.threadsPerWarp);
  }

  lemma Unchanged32(x: nat)
    requires x < I32
    ensures AsInt32(x) == x && AsUInt64(AsInt32(x)) == x
  {
  }

  lemma QuotientAtMost(g: nat, tpw: nat)
    requires tpw > 0
    ensures g / tpw <= g
  {
    QuotientBounds(g, tpw);
    Scaled(1, tpw, g / tpw);
  }

  /** The search as the program calls it. */
  function Found(dev: Device, smem: nat, dims: ThreadDim, target: nat): Outcome
    requires dev.threadsPerWarp > 0
  {
    SearchFrom(dev, smem, dims, target, Step(dev), AsInt32(dev.registersPerThreadLimit))
  }

  /** The search finds the best register count although it tests one candidate per step only. */
  lemma SearchExact(dev: Device, smem: nat, dims: ThreadDim, target: nat)
    requires Searchable(dev, smem, dims) && StepExact(dev.threadsPerWarp, dev.registerAllocGranularity)
    ensures Found(dev, smem, dims, target).Value? && Best(dev, smem, dims, target, Found(dev, smem, dims, target).n)
  {
    hide Fits, Threads, StepExact, SearchFrom, Reaches;
    StepPlain(dev, smem, dims);
    SearchFindsBest(dev, smem, dims, target, dev.registersPerThreadLimit);
  }

  // ----- other granularities make the search miss the best count

  /** A device for which a step that does not cover whole allocation units misses the best count. */
  function Missing(tpw: nat, granularity: nat): Device
    requires 0 < tpw <= granularity && granularity % tpw != 0
  {
    MissingWith(tpw, granularity, granularity / tpw, CeilOfRatio(tpw, granularity % tpw))
  }

  function MissingWith(tpw: nat, granularity: nat, step: nat, j: nat): Device {
    Device(j * step + 2, tpw, 1, granularity, j * granularity, 1, 1, 1, tpw)
  }

  lemma DivisionParts(g: nat, tpw: nat)
    requires tpw > 0
    ensures g == g / tpw * tpw + g % tpw && g % tpw < tpw
  {
  }

  lemma MissingNumbers(tpw: nat, g: nat, step: nat, rem: nat, j: nat)
    requires 0 < tpw && g == step * tpw + rem && 0 < rem < tpw && j == CeilOfRatio(tpw, rem)
    ensures 0 < j <= tpw
    ensures tpw * (j * step + 1) <= j * g < tpw * (j * step + 2)
    ensures j * step + rem <= g
  {
    hide CeilOfRatio;
    CeilBounds(tpw, rem);
    var jr := j * rem;
    assert tpw <= jr && jr < tpw + rem by { assert (j - 1) * rem == jr - rem; }
    Scaled(tpw, j - 1, rem);
    Scaled(1, rem, tpw);
    assert (j - 1) * rem == jr - rem;
    assert j * g == j * (step * tpw) + jr;
    assert tpw * (j * step + 1) == j * (step * tpw) + tpw;
    assert tpw * (j * step + 2) == j * (step * tpw) + 2 * tpw;
    Scaled(j, tpw, step);
  }

  lemma CeilAtMost(v: nat, n: nat, q: nat)
    requires n > 0
    ensures Up(v, n) <= q * n <==> v <= q * n
  {
    hide CeilOfRatio;
    CeilBounds(v, n);
    var c: int := CeilOfRatio(v, n);
    Scaled(q, c - 1, n);
    Scaled(c, q, n);
  }

  lemma MissingReaches(dev: Device, tpw: nat, g: nat, j: nat, r: nat)
    requires 0 < tpw && g > 0
    requires dev == Device(dev.registersPerThreadLimit, tpw, 1, g, j * g, 1, 1, 1, tpw) && Sensible(dev)
    ensures Reaches(dev, 0, ThreadDim(tpw, 1, 1), 1, r) <==> tpw * r <= j * g
    ensures Warps(dev, ThreadDim(tpw, 1, 1)) == 1 && AllocWarps(dev, ThreadDim(tpw, 1, 1)) == 1
    ensures AllocSmem(dev, 0) == 0 && Threads(ThreadDim(tpw, 1, 1)) == tpw
  {
    hide Up, CeilOfRatio, Sensible;
    CeilIs(tpw, tpw, 1);
    CeilIs(1, 1, 1);
    UpZero(1);
    CeilAtMost(tpw * r, g, j);
  }

  lemma UpWithin(v: nat, n: nat)
    requires n > 0
    ensures Up(v, n) < v + n
  {
    CeilBounds(v, n);
    assert (CeilOfRatio(v, n) - 1) * n == Up(v, n) - n;
  }

  lemma MissingSensible(tpw: nat, g: nat)
    requires 0 < tpw <= g < I32 - 1 && g % tpw != 0
    ensures Searchable(Missing(tpw, g), 0, ThreadDim(tpw, 1, 1))
  {
    hide CeilOfRatio, MissingWith, Searchable;
    DivisionParts(g, tpw);
    MissingSearchable(tpw, g, g / tpw, g % tpw, CeilOfRatio(tpw, g % tpw));
  }

  lemma MissingSearchable(tpw: nat, g: nat, step: nat, rem: nat, j: nat)
    requires 0 < tpw <= g < I32 - 1 && g == step * tpw + rem && 0 < rem < tpw && j == CeilOfRatio(tpw, rem)
    ensures Searchable(MissingWith(tpw, g, step, j), 0, ThreadDim(tpw, 1, 1))
  {
    hide CeilOfRatio, Searchable, MissingWith;
    MissingNumbers(tpw, g, step, rem, j);
    var dev := MissingWith(tpw, g, step, j);
    assert dev == Device(j * step + 2, tpw, 1, g, j * g, 1, 1, 1, tpw) by { Missed(tpw, g, step, j); }
    MissingFits(dev, tpw, g, j);
  }

  lemma Missed(tpw: nat, g: nat, step: nat, j: nat)
    ensures MissingWith(tpw, g, step, j) == Device(j * step + 2, tpw, 1, g, j * g, 1, 1, 1, tpw)
  {
  }

  lemma MissingFits(dev: Device, tpw: nat, g: nat, j: nat)
    requires 0 < tpw <= g < I32 - 1 && j <= tpw && dev.registersPerThreadLimit < I32
    requires dev == Device(dev.registersPerThreadLimit, tpw, 1, g, j * g, 1, 1, 1, tpw)
    ensures Searchable(dev, 0, ThreadDim(tpw, 1, 1))
  {
    hide Up, CeilOfRatio, Threads, Warps, AllocWarps, AllocSmem;
    var limit := dev.registersPerThreadLimit;
    ProductMonotone(j, I32, g, I32);
    assert Sensible(dev);
    MissingReaches(dev, tpw, g, j, 0);
    ProductMonotone(tpw, I32, limit, I32);
    UpWithin(tpw * limit, g);
  }

  /**
   For every other warp size and granularity there is a device with these two numbers on which the
   search returns less than the best register count.
   */
  lemma SearchMisses(tpw: nat, g: nat)
    requires 0 < tpw <= g < I32 - 1 && !StepExact(tpw, g)
    ensures var dev, dims := Missing(tpw, g), ThreadDim(tpw, 1, 1);
            && Searchable(dev, 0, dims) && dev.threadsPerWarp == tpw && dev.registerAllocGranularity == g
            && Found(dev, 0, dims, 1).Value? && !Best(dev, 0, dims, 1, Found(dev, 0, dims, 1).n)
  {
    hide CalculateOccupancy, Reaches, Fits, Threads, CeilOfRatio, RoundDown;
    var dev, dims := Missing(tpw, g), ThreadDim(tpw, 1, 1);
    var j, step := CeilOfRatio(tpw, g % tpw), g / tpw;
    MissingSensible(tpw, g);
    StepPlain(dev, 0, dims);
    StepPositive(g, tpw);
    MissingNumbers(tpw, g, step, g % tpw, j);
    var r := j * step;
    Positive(j, step);
    assert tpw * r <= tpw * (r + 1);
    MissingReaches(dev, tpw, g, j, r);
    MissingReaches(dev, tpw, g, j, r + 1);
    MissingReaches(dev, tpw, g, j, r + 2);
    ReachesExact(dev, 0, dims, 1, r);
    ReachesExact(dev, 0, dims, 1, r + 2);
    RoundsTo(j, step);
    assert SearchFrom(dev, 0, dims, 1, step, r) == Value(r);
    assert SearchFrom(dev, 0, dims, 1, step, r + 2) == Value(r);
    assert Reaches(dev, 0, dims, 1, r + 1);
  }

  lemma RoundsTo(j: nat, step: nat)
    requires step >= 2
    ensures RoundDown(j * step + 1, step) == j * step
  {
    DivMod(j, 1, step);
  }

  /** With a granularity below the warp size the step is zero: one candidate, then a division by zero. */
  lemma SearchTraps(dev: Device, smem: nat, dims: ThreadDim, target: nat)
    requires Sensible(dev) && 0 < dev.registersPerThreadLimit < I32 && Threads(dims) > 0
    requires dev.registerAllocGranularity < dev.threadsPerWarp && Fits(dev, dev.registersPerThreadLimit, smem, dims)
    ensures Found(dev, smem, dims, target) ==
            if Reaches(dev, smem, dims, target, dev.registersPerThreadLimit)
            then Value(dev.registersPerThreadLimit) else Trap
  {
    hide CalculateOccupancy, CanHold, Fits, Threads;
    OccupancyExact(dev, dev.registersPerThreadLimit, smem, dims, target);
    assert dev.registerAllocGranularity / dev.threadsPerWarp == 0;
  }
}
