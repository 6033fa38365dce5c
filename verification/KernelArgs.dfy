/**
 Kernel arguments (stream_executor/kernel.h).  An argument list with shared-memory arguments in
 between is kept as parallel arrays, one group for each kind, and merged again by an iterator.
 */
module KernelArgs {

  import opened Options

  const SIZE_T: nat := 0x1_0000_0000_0000_0000
  const POINTER_SIZE: nat := 8

  /** An address: null, one of the caller's, or that of a slot in the list's own pointer array. */
  datatype Pointer = Null | Caller(p: nat) | Slot(i: nat)

  /** An argument as it is added. */
  datatype Arg = Value(p: nat, size: nat) | Device(memory: nat) | Shared(bytes: nat)

  /** An argument as the iterator gives it. */
  datatype KernelArg = KernelArg(isShared: bool, address: Pointer, size: nat)

  /** The number of arguments that are not shared memory. */
  function Plain(args: seq<Arg>): (n: nat)
    ensures n <= |args|
  {
    if args == [] then 0
    else Plain(args[..|args| - 1]) + if args[|args| - 1].Shared? then 0 else 1
  }

  /** What the iterator has to say about argument `i`. */
  function Expected(args: seq<Arg>, i: nat): KernelArg
    requires i < |args|
  {
    match args[i]
    case Value(p, size) => KernelArg(false, Caller(p), size)
    case Device(_) => KernelArg(false, Slot(Plain(args[..i])), POINTER_SIZE)
    case Shared(bytes) => KernelArg(true, Null, bytes)
  }

  function SharedTotal(args: seq<Arg>): nat {
    if args == [] then 0
    else SharedTotal(args[..|args| - 1]) + if args[|args| - 1].Shared? then args[|args| - 1].bytes else 0
  }

  // ----- where an argument is kept

  /** Argument `i` is the next plain one, or the next shared one, after those before it. */
  lemma {:induction false} PlainStep(args: seq<Arg>, i: nat)
    requires i < |args|
    ensures Plain(args[..i + 1]) == Plain(args[..i]) + if args[i].Shared? then 0 else 1
  {
    assert args[..i + 1][..i] == args[..i];
  }

  lemma {:induction false} PlainMonotone(args: seq<Arg>, i: nat, j: nat)
    requires i <= j <= |args|
    ensures Plain(args[..i]) <= Plain(args[..j]) <= Plain(args[..i]) + (j - i)
  {
    if i < j {
      PlainMonotone(args, i, j - 1);
      PlainStep(args, j - 1);
    }
  }

  /** Two arguments of one kind are kept in two places. */
  lemma PlacesApart(args: seq<Arg>, i: nat, j: nat)
    requires i < j < |args|
    ensures !args[i].Shared? ==> Plain(args[..i]) < Plain(args[..j])
    ensures args[i].Shared? ==> i - Plain(args[..i]) < j - Plain(args[..j])
  {
    PlainStep(args, i);
    PlainMonotone(args, i + 1, j);
  }

  /** What the arrays of an argument list hold. */
  datatype Arrays = Arrays(pointers: seq<nat>, addresses: seq<Pointer>, sizes: seq<nat>, bytes: seq<nat>, indices: seq<nat>)

  predicate SameLength(c: Arrays) {
    |c.pointers| == |c.addresses| == |c.sizes| == |c.bytes| == |c.indices|
  }

  /** Argument `i` is kept in its place. */
  ghost predicate Stored(args: seq<Arg>, i: nat, c: Arrays)
    requires i < |args| && SameLength(c)
  {
    var r := Plain(args[..i]);
    if args[i].Shared? then
      0 <= i - r < |c.indices| && c.indices[i - r] == i && c.bytes[i - r] == args[i].bytes
    else
      && r < |c.addresses| && KernelArg(false, c.addresses[r], c.sizes[r]) == Expected(args, i)
      && (args[i].Device? ==> c.pointers[r] == args[i].memory)
  }

  ghost predicate AllStored(args: seq<Arg>, c: Arrays) {
    SameLength(c) && forall i :: 0 <= i < |args| ==> Stored(args, i, c)
  }

  /** The arrays after argument `x` was put behind the arguments `args`. */
  function Put(args: seq<Arg>, x: Arg, c: Arrays): Arrays
    requires SameLength(c) && (if x.Shared? then |args| - Plain(args) else Plain(args)) < |c.indices|
  {
    var r := Plain(args);
    match x
    case Value(p, size) => c.(addresses := c.addresses[r := Caller(p)], sizes := c.sizes[r := size])
    case Device(m) =>
      c.(pointers := c.pointers[r := m], addresses := c.addresses[r := Slot(r)], sizes := c.sizes[r := POINTER_SIZE])
    case Shared(n) => c.(bytes := c.bytes[|args| - r := n], indices := c.indices[|args| - r := |args|])
  }

  /** A new argument finds its place, and overwrites none of the others. */
  lemma PutStores(args: seq<Arg>, x: Arg, c: Arrays)
    requires AllStored(args, c) && (if x.Shared? then |args| - Plain(args) else Plain(args)) < |c.indices|
    ensures AllStored(args + [x], Put(args, x, c))
  {
    hide Plain, Stored, Put;
    var more, c' := args + [x], Put(args, x, c);
    PutLast(args, x, c);
    forall i | 0 <= i < |args| ensures Stored(more, i, c') {
      PutKeeps(args, x, c, i);
    }
  }

  lemma PutLast(args: seq<Arg>, x: Arg, c: Arrays)
    requires SameLength(c) && (if x.Shared? then |args| - Plain(args) else Plain(args)) < |c.indices|
    ensures SameLength(Put(args, x, c)) && Stored(args + [x], |args|, Put(args, x, c))
  {
    hide Plain, SameLength;
    var more, c', r := args + [x], Put(args, x, c), Plain(args);
    assert more[..|args|] == args && more[|args|] == x;
    Lengths(c);
    assert |c'.pointers| == |c.pointers| && |c'.addresses| == |c.addresses| && |c'.sizes| == |c.sizes|
      && |c'.bytes| == |c.bytes| && |c'.indices| == |c.indices|;
    assert SameLength(c') by { Lengths(c'); }
    match x {
      case Value(p, size) => assert c'.addresses[r] == Caller(p) && c'.sizes[r] == size;
      case Device(m) => assert c'.addresses[r] == Slot(r) && c'.sizes[r] == POINTER_SIZE && c'.pointers[r] == m;
      case Shared(n) => assert c'.bytes[|args| - r] == n && c'.indices[|args| - r] == |args|;
    }
  }

  lemma Lengths(c: Arrays)
    ensures SameLength(c) <==> |c.pointers| == |c.addresses| == |c.sizes| == |c.bytes| == |c.indices|
  {
  }

  lemma PutKeeps(args: seq<Arg>, x: Arg, c: Arrays, i: nat)
    requires SameLength(c) && (if x.Shared? then |args| - Plain(args) else Plain(args)) < |c.indices|
    requires i < |args| && Stored(args, i, c)
    ensures SameLength(Put(args, x, c)) && Stored(args + [x], i, Put(args, x, c))
  {
    hide Plain;
    KeptBelow(args, i);
    assert (args + [x])[..i] == args[..i];
  }

  class KernelArgsArray {
    const pointers: array<nat>
    const addresses: array<Pointer>
    const sizes: array<nat>
    const bytes: array<nat>
    const indices: array<nat>
    var totalShared: nat
    var numAddresses: nat
    var numShared: nat
    ghost var args: seq<Arg>

    ghost predicate Shape() {
      && pointers != sizes && pointers != bytes && pointers != indices
      && sizes != bytes && sizes != indices && bytes != indices
      && pointers.Length == addresses.Length == sizes.Length == bytes.Length == indices.Length
    }

    ghost function Contents(): Arrays
      reads pointers, addresses, sizes, bytes, indices
    {
      Arrays(pointers[..], addresses[..], sizes[..], bytes[..], indices[..])
    }

    /** The arguments added so far are all kept, in `args`, and the counters count them. */
    ghost predicate Valid()
      reads this, pointers, addresses, sizes, bytes, indices
    {
      && Shape() && AllStored(args, Contents())
      && numAddresses == Plain(args) && numShared == |args| - Plain(args)
      && totalShared == SharedTotal(args) % SIZE_T
    }

    constructor (kNumArgs: nat)
      ensures Valid() && args == [] && pointers.Length == kNumArgs
      ensures fresh(pointers) && fresh(addresses) && fresh(sizes) && fresh(bytes) && fresh(indices)
    {
      pointers, sizes := new nat[kNumArgs], new nat[kNumArgs];
      bytes, indices := new nat[kNumArgs], new nat[kNumArgs];
      addresses := new Pointer[kNumArgs](_ => Null);
      totalShared, numAddresses, numShared := 0, 0, 0;
      args := [];
    }

    method AddArgument(p: nat, size: nat)
      requires Valid() && numAddresses < addresses.Length
      modifies this, addresses, sizes
      ensures Valid() && args == old(args) + [Value(p, size)]
    {
      hide Plain, SharedTotal, AllStored;
      Grown(args, Value(p, size));
      PutStores(args, Value(p, size), Contents());
      addresses[numAddresses] := Caller(p);
      sizes[numAddresses] := size;
      numAddresses := numAddresses + 1;
      assert Contents() == Put(args, Value(p, size), old(Contents()));
      args := args + [Value(p, size)];
    }

    method AddDeviceMemoryArgument(memory: nat)
      requires Valid() && numAddresses < addresses.Length
      modifies this, pointers, addresses, sizes
      ensures Valid() && args == old(args) + [Device(memory)]
    {
      hide Plain, SharedTotal, AllStored;
      Grown(args, Device(memory));
      PutStores(args, Device(memory), Contents());
      pointers[numAddresses] := memory;
      addresses[numAddresses] := Slot(numAddresses);
      sizes[numAddresses] := POINTER_SIZE;
      numAddresses := numAddresses + 1;
      assert Contents() == Put(args, Device(memory), old(Contents()));
      args := args + [Device(memory)];
    }

    method AddSharedBytes(n: nat)
      requires Valid() && numShared < indices.Length
      modifies this, bytes, indices
      ensures Valid() && args == old(args) + [Shared(n)]
    {
      hide Plain, SharedTotal, AllStored;
      Grown(args, Shared(n));
      PutStores(args, Shared(n), Contents());
      indices[numShared] := numAddresses + numShared;
      bytes[numShared] := n;
      numShared := numShared + 1;
      Wraps(SharedTotal(args), n);
      totalShared := (totalShared + n) % SIZE_T;
      assert Contents() == Put(args, Shared(n), old(Contents()));
      args := args + [Shared(n)];
    }

    method NumberOfArguments() returns (n: nat)
      requires Valid()
      ensures n == |args|
    {
      n := numAddresses + numShared;
    }

    method NumberOfSharedBytes() returns (n: nat)
      requires Valid()
      ensures n == SharedTotal(args) % SIZE_T
    {
      n := totalShared;
    }
  }

  lemma Wraps(total: nat, n: nat)
    ensures (total % SIZE_T + n) % SIZE_T == (total + n) % SIZE_T
  {
  }

  lemma Grown(args: seq<Arg>, x: Arg)
    ensures Plain(args + [x]) == Plain(args) + (if x.Shared? then 0 else 1)
    ensures SharedTotal(args + [x]) == SharedTotal(args) + (if x.Shared? then x.bytes else 0)
  {
    assert (args + [x])[..|args|] == args;
  }

  /** Arguments are kept below the counters. */
  lemma KeptBelow(args: seq<Arg>, i: nat)
    requires i < |args|
    ensures if args[i].Shared? then i - Plain(args[..i]) < |args| - Plain(args) else Plain(args[..i]) < Plain(args)
  {
    PlainStep(args, i);
    PlainMonotone(args, i + 1, |args|);
    assert args[..|args|] == args;
  }

  // ----- the iterator

  class KernelArgIterator {
    const source: KernelArgsArray
    const numberOfArguments: nat
    const sharedEnd: nat
    var argIndex: nat
    var addressIter: nat
    var sharedIter: nat
    ghost const args: seq<Arg>

    /** The iterator stands before argument `argIndex` of `args`. */
    ghost predicate Valid()
      reads this
    {
      && numberOfArguments == |args| && sharedEnd == |args| - Plain(args) && argIndex <= |args|
      && addressIter == Plain(args[..argIndex]) && sharedIter == argIndex - Plain(args[..argIndex])
    }

    constructor (source: KernelArgsArray)
      requires source.Valid()
      ensures this.source == source && args == source.args && argIndex == 0 && Valid()
    {
      this.source := source;
      numberOfArguments := source.numAddresses + source.numShared;
      sharedEnd := source.numShared;
      argIndex, addressIter, sharedIter := 0, 0, 0;
      args := source.args;
    }

    method HasNext() returns (more: bool)
      requires Valid()
      ensures more <==> argIndex < |args|
    {
      more := argIndex < numberOfArguments;
    }

    /** The next argument; nothing when there is none. */
    method Next() returns (r: Option<KernelArg>)
      requires Valid() && AllStored(args, source.Contents())
      modifies this
      ensures Valid()
      ensures old(argIndex) < |args| ==> r == Some(Expected(args, old(argIndex))) && argIndex == old(argIndex) + 1
      ensures old(argIndex) == |args| ==> r == None && argIndex == old(argIndex)
      ensures old(argIndex) < |args| ==>
                match args[old(argIndex)]
                case Value(p, size) => r == Some(KernelArg(false, Caller(p), size))
                case Device(memory) =>
                  && r.Some? && !r.value.isShared && r.value.size == 8 && r.value.address.Slot?
                  && r.value.address.i < source.pointers.Length && source.pointers[r.value.address.i] == memory
                case Shared(bytes) => r == Some(KernelArg(true, Null, bytes))
    {
      if argIndex >= numberOfArguments {
        return None;
      }
      hide AllStored, Plain;
      Located(args, argIndex, source.Contents());
      PlainStep(args, argIndex);
      if sharedIter != sharedEnd && argIndex == source.indices[sharedIter] {
        r := Some(KernelArg(true, Null, source.bytes[sharedIter]));
        sharedIter := sharedIter + 1;
      } else {
        r := Some(KernelArg(false, source.addresses[addressIter], source.sizes[addressIter]));
        addressIter := addressIter + 1;
      }
      argIndex := argIndex + 1;
    }
  }

  /** The index under the shared cursor tells whether argument `i` is shared; then the cursors find it. */
  lemma Located(args: seq<Arg>, i: nat, c: Arrays)
    requires i < |args| && AllStored(args, c)
    ensures SameLength(c) && Stored(args, i, c)
    ensures var s := i - Plain(args[..i]);
            && (s < |args| - Plain(args) ==> s < |c.indices|)
            && (args[i].Shared? <==> s < |args| - Plain(args) && c.indices[s] == i)
            && s <= |args| - Plain(args)
  {
    var s := i - Plain(args[..i]);
    PlainMonotone(args, i, |args|);
    assert args[..|args|] == args;
    if args[i].Shared? {
      KeptBelow(args, i);
    } else if s < |args| - Plain(args) {
      var k := NextShared(args, i);
      assert Stored(args, k, c);
    }
  }

  /** The next shared argument from `i` on is the one under the shared cursor. */
  lemma {:induction false} NextShared(args: seq<Arg>, i: nat) returns (k: nat)
    requires i < |args| && i - Plain(args[..i]) < |args| - Plain(args)
    ensures i <= k < |args| && args[k].Shared? && k - Plain(args[..k]) == i - Plain(args[..i])
    decreases |args| - i
  {
    PlainStep(args, i);
    assert args[..|args|] == args;
    if args[i].Shared? {
      k := i;
    } else {
      k := NextShared(args, i + 1);
    }
  }

  /** What a launch reads through the argument is what was added; pointers are kept in `slots`. */
  predicate Represents(k: KernelArg, a: Arg, slots: seq<nat>) {
    match a
    case Value(p, size) => k == KernelArg(false, Caller(p), size)
    case Device(memory) => !k.isShared && k.size == 8 && k.address.Slot? && k.address.i < |slots| && slots[k.address.i] == memory
    case Shared(bytes) => k == KernelArg(true, Null, bytes)
  }

  /** The whole iteration: exactly the arguments added, in the order in which they were added, then an end. */
  method Collect(list: KernelArgsArray) returns (all: seq<KernelArg>)
    requires list.Valid()
    ensures |all| == |list.args| && forall i :: 0 <= i < |all| ==> all[i] == Expected(list.args, i)
    ensures forall i :: 0 <= i < |all| ==> Represents(all[i], list.args[i], list.pointers[..])
  {
    var it := new KernelArgIterator(list);
    all := [];
    var more := it.HasNext();
    while more
      invariant it.Valid() && it.args == list.args && it.source == list && fresh(it)
      invariant |all| == it.argIndex && forall i :: 0 <= i < |all| ==> all[i] == Expected(list.args, i)
      invariant forall i :: 0 <= i < |all| ==> Represents(all[i], list.args[i], list.pointers[..])
      invariant more <==> it.argIndex < |it.args|
      decreases |it.args| - it.argIndex
    {
      var r := it.Next();
      all := all + [r.value];
      more := it.HasNext();
    }
  }

  /** Any list of at most `kNumArgs` arguments is packed and comes back from the iterator as it went in. */
  method PackAndIterate(args: seq<Arg>, kNumArgs: nat) returns (all: seq<KernelArg>, slots: seq<nat>, shared: nat)
    requires |args| <= kNumArgs
    ensures |all| == |args| && forall i :: 0 <= i < |all| ==> Represents(all[i], args[i], slots)
    ensures |all| == |args| && forall i :: 0 <= i < |all| ==> all[i] == Expected(args, i)
    ensures shared == SharedTotal(args) % SIZE_T
  {
    var list := new KernelArgsArray(kNumArgs);
    hide Plain, SharedTotal, AllStored, Expected;
    var i := 0;
    while i < |args|
      invariant i <= |args| && list.Valid() && list.args == args[..i] && fresh(list)
      invariant fresh(list.pointers) && fresh(list.addresses) && fresh(list.sizes)
      invariant fresh(list.bytes) && fresh(list.indices) && list.pointers.Length == kNumArgs
    {
      match args[i] {
        case Value(p, size) => list.AddArgument(p, size);
        case Device(memory) => list.AddDeviceMemoryArgument(memory);
        case Shared(n) => list.AddSharedBytes(n);
      }
      assert args[..i + 1] == args[..i] + [args[i]];
      i := i + 1;
    }
    assert args[..|args|] == args;
    all := Collect(list);
    slots := list.pointers[..];
    shared := list.NumberOfSharedBytes();
  }
}
