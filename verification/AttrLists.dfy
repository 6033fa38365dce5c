/**
 String-list and shape-list attributes (c/c_api.cc, TF_OperationGetAttrMetadata,
 TF_OperationGetAttrStringList and TF_OperationGetAttrShapeList).  The caller asks for the total
 size, gets storage of that size, and receives the items one after the other in that storage.
 */
module AttrLists {

  import opened Options

  datatype Status = Ok | NotFound | NotAList | NoStorage

  /** The items one after the other. */
  function Flat<T>(items: seq<seq<T>>): seq<T> {
    if items == [] then [] else Flat(items[..|items| - 1]) + items[|items| - 1]
  }

  /** Where item `i` starts. */
  function Offset<T>(items: seq<seq<T>>, i: nat): nat
    requires i <= |items|
  {
    |Flat(items[..i])|
  }

  lemma FlatStep<T>(items: seq<seq<T>>, i: nat)
    requires i < |items|
    ensures Flat(items[..i + 1]) == Flat(items[..i]) + items[i]
    ensures Offset(items, i + 1) == Offset(items, i) + |items[i]|
  {
    assert items[..i + 1][..i] == items[..i];
  }

  lemma {:induction false} FlatPrefix<T>(items: seq<seq<T>>, i: nat, j: nat)
    requires i <= j <= |items|
    ensures Flat(items[..i]) <= Flat(items[..j]) && Offset(items, i) <= Offset(items, j)
  {
    if i < j {
      FlatPrefix(items, i, j - 1);
      FlatStep(items, j - 1);
    }
  }

  /** Item `i` is the slice that starts at its offset. */
  lemma SliceIsItem<T>(items: seq<seq<T>>, n: nat, i: nat)
    requires i < n <= |items|
    ensures Offset(items, i) + |items[i]| == Offset(items, i + 1) <= Offset(items, n)
    ensures Flat(items[..n])[Offset(items, i)..Offset(items, i + 1)] == items[i]
  {
    FlatStep(items, i);
    FlatPrefix(items, i + 1, n);
  }

  /** Storage of the total size suffices for any number of requested items. */
  lemma TotalSuffices<T>(items: seq<seq<T>>, n: nat)
    requires n <= |items|
    ensures Offset(items, n) <= |Flat(items)|
  {
    FlatPrefix(items, n, |items|);
    assert items[..|items|] == items;
  }

  method CopyInto<T>(storage: array<T>, p: nat, s: seq<T>)
    requires p + |s| <= storage.Length
    modifies storage
    ensures storage[..] == old(storage[..p]) + s + old(storage[p + |s|..])
  {
    var j := 0;
    while j < |s|
      invariant j <= |s|
      invariant storage[..] == old(storage[..p]) + s[..j] + old(storage[p + j..])
    {
      storage[p + j] := s[j];
      j := j + 1;
    }
  }

  // ----- sizes

  newtype Byte = x: int | 0 <= x < 256

  type Bytes = seq<Byte>

  /** A list of strings or a missing or other attribute. */
  datatype StringAttr = Missing | Scalar | List(strings: seq<Bytes>)

  /** `None` is a shape of unknown rank. */
  type Shape = Option<seq<int>>

  function Dims(s: Shape): seq<int> { if s.None? then [] else s.value }

  function AllDims(shapes: seq<Shape>): seq<seq<int>> {
    seq(|shapes|, i requires 0 <= i < |shapes| => Dims(shapes[i]))
  }

  /** The total size in the metadata; lists that are empty have none. */
  method StringListTotalSize(strings: seq<Bytes>) returns (total: int)
    ensures total == if strings == [] then -1 else |Flat(strings)|
  {
    if |strings| == 0 {
      return -1;
    }
    total := 0;
    var i := 0;
    while i < |strings|
      invariant i <= |strings| && total == Offset(strings, i)
    {
      FlatStep(strings, i);
      total := total + |strings[i]|;
      i := i + 1;
    }
    assert strings[..|strings|] == strings;
  }

  method ShapeListTotalSize(shapes: seq<Shape>) returns (total: int)
    ensures total == if shapes == [] then -1 else |Flat(AllDims(shapes))|
  {
    if |shapes| == 0 {
      return -1;
    }
    total := 0;
    var i := 0;
    while i < |shapes|
      invariant i <= |shapes| && total == Offset(AllDims(shapes), i)
    {
      FlatStep(AllDims(shapes), i);
      total := total + if shapes[i].None? then 0 else |shapes[i].value|;
      i := i + 1;
    }
    assert AllDims(shapes)[..|shapes|] == AllDims(shapes);
  }

  // ----- the getters

  /** The first `n` items are in the storage, each where its pointer and length say, and nothing else changed. */
  ghost predicate Delivered<T(!new)>(items: seq<seq<T>>, n: nat, values: seq<nat>, storage: seq<T>, before: seq<T>)
    requires n <= |items|
  {
    && n <= |values| && Offset(items, n) <= |storage| && |storage| == |before|
    && (forall i :: 0 <= i < n ==> values[i] == Offset(items, i))
    && storage[..Offset(items, n)] == Flat(items[..n])
    && storage[Offset(items, n)..] == before[Offset(items, n)..]
  }

  /** In delivered storage each item is found at its pointer, and the next one begins where it ends. */
  lemma DeliveredItem<T(!new)>(items: seq<seq<T>>, n: nat, values: seq<nat>, storage: seq<T>, before: seq<T>, i: nat)
    requires n <= |items| && Delivered(items, n, values, storage, before) && i < n
    ensures values[i] + |items[i]| <= |storage| && storage[values[i]..values[i] + |items[i]|] == items[i]
    ensures i + 1 < n ==> values[i + 1] == values[i] + |items[i]|
    ensures i == 0 ==> values[i] == 0
  {
    SliceIsItem(items, n, i);
    assert storage[..Offset(items, n)][Offset(items, i)..Offset(items, i + 1)]
        == storage[Offset(items, i)..Offset(items, i + 1)];
  }

  /** The same for all items; what is delivered ends where the last one does. */
  lemma DeliveredItems<T(!new)>(items: seq<seq<T>>, n: nat, values: seq<nat>, storage: seq<T>, before: seq<T>)
    requires n <= |items| && Delivered(items, n, values, storage, before)
    ensures n <= |values| && (n > 0 ==> values[0] == 0)
    ensures forall i :: 0 <= i < n ==>
              && values[i] + |items[i]| <= Offset(items, n) <= |storage|
              && storage[values[i]..values[i] + |items[i]|] == items[i]
    ensures forall i, j :: 0 <= i && j == i + 1 && j < n ==> values[j] == values[i] + |items[i]|
  {
    hide Flat;
    forall i | 0 <= i < n
      ensures values[i] + |items[i]| <= Offset(items, n) <= |storage|
      ensures storage[values[i]..values[i] + |items[i]|] == items[i]
    {
      DeliveredItem(items, n, values, storage, before, i);
      SliceIsItem(items, n, i);
    }
    forall i, j | 0 <= i && j == i + 1 && j < n
      ensures values[j] == values[i] + |items[i]|
    {
      DeliveredItem(items, n, values, storage, before, i);
    }
    if n > 0 {
      DeliveredItem(items, n, values, storage, before, 0);
    }
  }

  lemma DeliverNext<T(!new)>(items: seq<seq<T>>, n: nat, values: seq<nat>, storage: seq<T>, before: seq<T>,
                             values': seq<nat>, storage': seq<T>)
    requires n < |items| && Delivered(items, n, values, storage, before)
    requires Offset(items, n + 1) <= |storage| && n < |values|
    requires values' == values[n := Offset(items, n)]
    requires var p := Offset(items, n);
             p + |items[n]| <= |storage| && storage' == storage[..p] + items[n] + storage[p + |items[n]|..]
    ensures Delivered(items, n + 1, values', storage', before)
  {
    hide Flat;
    FlatStep(items, n);
    var p, q := Offset(items, n), Offset(items, n + 1);
    assert storage'[..q] == storage[..p] + items[n];
    assert storage'[q..] == storage[q..];
    assert storage[q..] == storage[p..][q - p..] && before[q..] == before[p..][q - p..];
  }

  /** The loop of the getter for string lists. */
  method FillStrings(strings: seq<Bytes>, len: int, values: array<nat>, lengths: array<nat>, storage: array<Byte>, storageSize: nat)
    returns (status: Status)
    requires values != lengths && storageSize <= storage.Length && values.Length == lengths.Length
    requires len <= |strings| && len <= values.Length
    modifies values, lengths, storage
    ensures status == Ok || status == NoStorage
    ensures var n := if len < 0 then 0 else len;
            && (status == NoStorage <==> Offset(strings, n) > storageSize)
            && (forall i :: n <= i < values.Length ==> values[i] == old(values[i]) && lengths[i] == old(lengths[i]))
            && (status == Ok ==>
                  && Delivered(strings, n, values[..], storage[..], old(storage[..]))
                  && forall i :: 0 <= i < n ==> lengths[i] == |strings[i]|)
            && (status == NoStorage ==>
                  exists k: nat :: k < n && Offset(strings, k) <= storageSize < Offset(strings, k + 1)
                    && Delivered(strings, k, values[..], storage[..], old(storage[..])))
  {
    hide Flat, Offset, Delivered;
    var p: nat, i: nat := 0, 0;
    DeliverNone(strings, values[..], storage[..]);
    while i < len
      invariant (i == 0 || i <= len) && p == Offset(strings, i) <= storageSize
      invariant Delivered(strings, i, values[..], storage[..], old(storage[..]))
      invariant forall k :: 0 <= k < i ==> lengths[k] == |strings[k]|
      invariant forall k :: i <= k < values.Length ==> values[k] == old(values[k]) && lengths[k] == old(lengths[k])
    {
      FlatStep(strings, i);
      ghost var vs, st := values[..], storage[..];
      values[i] := p;
      lengths[i] := |strings[i]|;
      assert values[..] == vs[i := p];
      if p + |strings[i]| > storageSize {
        FlatPrefix(strings, i + 1, len);
        DeliveredSame(strings, i, vs, values[..], storage[..], old(storage[..]));
        return NoStorage;
      }
      CopyInto(storage, p, strings[i]);
      DeliverNext(strings, i, vs, st, old(storage[..]), values[..], storage[..]);
      p := p + |strings[i]|;
      i := i + 1;
    }
    status := Ok;
  }

  /**
   The getter for string lists.  It fails exactly if the requested strings do not fit into the
   storage; before it fails it delivers the longest prefix that fits.
   */
  method GetAttrStringList(attr: StringAttr, values: array<nat>, lengths: array<nat>, maxValues: int,
                           storage: array<Byte>, storageSize: nat)
    returns (status: Status)
    requires values != lengths && storageSize <= storage.Length
    requires attr.List? ==> maxValues <= values.Length || |attr.strings| <= values.Length
    requires values.Length == lengths.Length
    modifies values, lengths, storage
    ensures attr.Missing? <==> status == NotFound
    ensures attr.Scalar? <==> status == NotAList
    ensures !attr.List? ==> storage[..] == old(storage[..]) && values[..] == old(values[..]) && lengths[..] == old(lengths[..])
    ensures attr.List? ==>
              var n: nat := if maxValues < 0 then 0 else if maxValues < |attr.strings| then maxValues else |attr.strings|;
              && (status == NoStorage <==> Offset(attr.strings, n) > storageSize)
              && (forall i :: n <= i < values.Length ==> values[i] == old(values[i]) && lengths[i] == old(lengths[i]))
              && (status == Ok ==>
                    && Delivered(attr.strings, n, values[..], storage[..], old(storage[..]))
                    && (forall i :: 0 <= i < n ==>
                          && lengths[i] == |attr.strings[i]| && values[i] + lengths[i] <= storageSize
                          && storage[values[i]..values[i] + lengths[i]] == attr.strings[i])
                    && (forall i, j :: 0 <= i && j == i + 1 && j < n ==> values[j] == values[i] + lengths[i])
                    && (n > 0 ==> values[0] == 0))
              && (status == NoStorage ==>
                    exists k: nat :: k < n && Offset(attr.strings, k) <= storageSize < Offset(attr.strings, k + 1)
                      && Delivered(attr.strings, k, values[..], storage[..], old(storage[..])))
  {
    hide Flat, Offset, Delivered;
    match attr {
      case Missing => return NotFound;
      case Scalar => return NotAList;
      case List(strings) =>
        var len := if maxValues < |strings| then maxValues else |strings|;
        status := FillStrings(strings, len, values, lengths, storage, storageSize);
        if status == Ok {
          DeliveredItems(strings, if len < 0 then 0 else len, values[..], storage[..], old(storage[..]));
        }
    }
  }

  lemma DeliverNone<T(!new)>(items: seq<seq<T>>, values: seq<nat>, storage: seq<T>)
    ensures Delivered(items, 0, values, storage, storage) && Offset(items, 0) == 0
  {
  }

  lemma DeliveredSame<T(!new)>(items: seq<seq<T>>, n: nat, values: seq<nat>, values': seq<nat>, storage: seq<T>, before: seq<T>)
    requires n <= |items| && Delivered(items, n, values, storage, before)
    requires |values'| == |values| && forall i :: 0 <= i < n ==> values'[i] == values[i]
    ensures Delivered(items, n, values', storage, before)
  {
  }

  /** The loop of the getter for shape lists. */
  method FillShapes(shapes: seq<Shape>, len: int, values: array<nat>, numDims: array<int>, storage: array<int>, storageSize: nat)
    returns (status: Status)
    requires numDims != storage && storageSize <= storage.Length && values.Length == numDims.Length
    requires len <= |shapes| && len <= values.Length
    modifies values, numDims, storage
    ensures status == Ok || status == NoStorage
    ensures var n, items := if len < 0 then 0 else len, AllDims(shapes);
            && (status == NoStorage <==> Offset(items, n) > storageSize)
            && (forall i :: n <= i < values.Length ==> values[i] == old(values[i]) && numDims[i] == old(numDims[i]))
            && (status == Ok ==>
                  && Delivered(items, n, values[..], storage[..], old(storage[..]))
                  && forall i :: 0 <= i < n ==> numDims[i] == if shapes[i].None? then -1 else |shapes[i].value|)
            && (status == NoStorage ==>
                  exists k: nat :: k < n && Offset(items, k) <= storageSize < Offset(items, k + 1)
                    && Delivered(items, k, values[..], storage[..], old(storage[..])))
  {
    hide Flat, Offset, Delivered;
    ghost var items := AllDims(shapes);
    var p: nat, left: nat, i: nat := 0, storageSize, 0;
    DeliverNone(items, values[..], storage[..]);
    while i < len
      invariant (i == 0 || i <= len) && p == Offset(items, i) <= storageSize && left == storageSize - p
      invariant Delivered(items, i, values[..], storage[..], old(storage[..]))
      invariant forall k :: 0 <= k < i ==> numDims[k] == if shapes[k].None? then -1 else |shapes[k].value|
      invariant forall k :: i <= k < values.Length ==> values[k] == old(values[k]) && numDims[k] == old(numDims[k])
    {
      FlatStep(items, i);
      ghost var vs, st := values[..], storage[..];
      var n: int := if shapes[i].None? then -1 else |shapes[i].value|;
      numDims[i] := n;
      values[i] := p;
      assert values[..] == vs[i := p];
      if n >= 0 {
        if left < n {
          FlatPrefix(items, i + 1, len);
          DeliveredSame(items, i, vs, values[..], storage[..], old(storage[..]));
          return NoStorage;
        }
        left := left - n;
        CopyInto(storage, p, shapes[i].value);
        p := p + n;
      } else {
        assert storage[..] == st[..p] + items[i] + st[p + |items[i]|..];
      }
      DeliverNext(items, i, vs, st, old(storage[..]), values[..], storage[..]);
      i := i + 1;
    }
    status := Ok;
  }

  /** The getter for shape lists; `attr` is the answer of the attribute lookup. */
  method GetAttrShapeList(attr: Option<seq<Shape>>, values: array<nat>, numDims: array<int>, maxValues: int,
                          storage: array<int>, storageSize: nat)
    returns (status: Status)
    requires numDims != storage && storageSize <= storage.Length
    requires attr.Some? ==> maxValues <= values.Length || |attr.value| <= values.Length
    requires values.Length == numDims.Length
    modifies values, numDims, storage
    ensures attr.None? <==> status == NotFound
    ensures attr.None? ==> storage[..] == old(storage[..]) && values[..] == old(values[..]) && numDims[..] == old(numDims[..])
    ensures attr.Some? ==>
              var n: nat := if maxValues < 0 then 0 else if maxValues < |attr.value| then maxValues else |attr.value|;
              var items := AllDims(attr.value);
              && (status == NoStorage <==> Offset(items, n) > storageSize)
              && (forall i :: n <= i < values.Length ==> values[i] == old(values[i]) && numDims[i] == old(numDims[i]))
              && (status == Ok ==>
                    && Delivered(items, n, values[..], storage[..], old(storage[..]))
                    && (forall i :: 0 <= i < n && attr.value[i].None? ==> numDims[i] == -1)
                    && (forall i :: 0 <= i < n && attr.value[i].Some? ==>
                          && numDims[i] == |attr.value[i].value| && values[i] + numDims[i] <= storageSize
                          && storage[values[i]..values[i] + numDims[i]] == attr.value[i].value)
                    && (forall i, j :: 0 <= i && j == i + 1 && j < n ==>
                          values[j] == values[i] + if attr.value[i].None? then 0 else numDims[i])
                    && (n > 0 ==> values[0] == 0))
              && (status == NoStorage ==>
                    exists k: nat :: k < n && Offset(items, k) <= storageSize < Offset(items, k + 1)
                      && Delivered(items, k, values[..], storage[..], old(storage[..])))
  {
    hide Flat, Offset, Delivered;
    if attr.None? {
      return NotFound;
    }
    var shapes := attr.value;
    var len := if |shapes| < maxValues then |shapes| else maxValues;
    status := FillShapes(shapes, len, values, numDims, storage, storageSize);
    if status == Ok {
      DeliveredItems(AllDims(shapes), if len < 0 then 0 else len, values[..], storage[..], old(storage[..]));
    }
  }
}
