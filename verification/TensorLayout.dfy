/**
 Dimension order, strides and element addresses of batch tensors (stream_executor/dnn.cc).
 A batch descriptor stores its elements in row-major order of one layout, and can be asked for
 dimensions and strides in any other.
 */
module TensorLayout {

  import opened Division

  datatype DataLayout = YXDepthBatch | YXBatchDepth | BatchYXDepth | BatchDepthYX

  /** GetDimIndices. */
  function DepthIndex(l: DataLayout, n: nat): int {
    match l
    case YXBatchDepth => n - 1
    case YXDepthBatch => n - 2
    case BatchYXDepth => n - 1
    case BatchDepthYX => 1
  }

  function BatchIndex(l: DataLayout, n: nat): int {
    match l
    case YXBatchDepth => n - 2
    case YXDepthBatch => n - 1
    case BatchYXDepth => 0
    case BatchDepthYX => 0
  }

  function SpatialIndex(l: DataLayout): nat {
    match l
    case YXBatchDepth => 0
    case YXDepthBatch => 0
    case BatchYXDepth => 1
    case BatchDepthYX => 2
  }

  /** The vector that a layout makes of a batch, a depth and a spatial part. */
  function Pack(l: DataLayout, b: int, d: int, sp: seq<int>): seq<int> {
    match l
    case YXBatchDepth => sp + [b, d]
    case YXDepthBatch => sp + [d, b]
    case BatchYXDepth => [b] + sp + [d]
    case BatchDepthYX => [b, d] + sp
  }

  function BatchOf(l: DataLayout, v: seq<int>): int
    requires |v| >= 2
  {
    v[BatchIndex(l, |v|)]
  }

  function DepthOf(l: DataLayout, v: seq<int>): int
    requires |v| >= 2
  {
    v[DepthIndex(l, |v|)]
  }

  function SpatialOf(l: DataLayout, v: seq<int>): seq<int>
    requires |v| >= 2
  {
    v[SpatialIndex(l)..SpatialIndex(l)+|v|-2]
  }

  /** Rearranging a vector from one layout to another. */
  function Reorder(v: seq<int>, from: DataLayout, to: DataLayout): seq<int>
    requires |v| >= 2
  {
    Pack(to, BatchOf(from, v), DepthOf(from, v), SpatialOf(from, v))
  }

  lemma PackParts(l: DataLayout, v: seq<int>)
    requires |v| >= 2
    ensures Pack(l, BatchOf(l, v), DepthOf(l, v), SpatialOf(l, v)) == v
  {
  }

  lemma PartsOfPack(l: DataLayout, b: int, d: int, sp: seq<int>)
    ensures var v := Pack(l, b, d, sp);
            |v| == |sp| + 2 && BatchOf(l, v) == b && DepthOf(l, v) == d && SpatialOf(l, v) == sp
  {
  }

  /** ReorderDims: three moves into a new vector. */
  method ReorderDims(input: seq<int>, from: DataLayout, to: DataLayout) returns (reordered: seq<int>)
    requires |input| >= 2
    ensures reordered == Reorder(input, from, to)
  {
    if from == to {
      PackParts(from, input);
      return input;
    }
    hide BatchIndex, DepthIndex, SpatialIndex, Pack, Reorder;
    var n := |input|;
    IndicesApart(from, n);
    IndicesApart(to, n);
    var dFrom, bFrom, sFrom := DepthIndex(from, n), BatchIndex(from, n), SpatialIndex(from);
    var dTo, bTo, sTo := DepthIndex(to, n), BatchIndex(to, n), SpatialIndex(to);
    var out := new int[n](_ => 0);
    out[bTo] := input[bFrom];
    out[dTo] := input[dFrom];
    for i := 0 to n - 2
      invariant out[bTo] == input[bFrom] && out[dTo] == input[dFrom]
      invariant forall j :: sTo <= j < sTo + i ==> out[j] == input[sFrom+j-sTo]
    {
      out[sTo+i] := input[sFrom+i];
    }
    reordered := out[..];
    MovedIsReordered(input, from, to, reordered);
  }

  lemma MovedIsReordered(input: seq<int>, from: DataLayout, to: DataLayout, out: seq<int>)
    requires |input| == |out| >= 2
    requires BatchOf(to, out) == BatchOf(from, input) && DepthOf(to, out) == DepthOf(from, input)
    requires forall j :: SpatialIndex(to) <= j < SpatialIndex(to) + |input| - 2 ==>
               out[j] == input[SpatialIndex(from)+j-SpatialIndex(to)]
    ensures out == Reorder(input, from, to)
  {
    hide BatchIndex, DepthIndex, SpatialIndex, Pack;
    IndicesApart(from, |input|);
    IndicesApart(to, |input|);
    forall j | 0 <= j < |input| - 2
      ensures SpatialOf(to, out)[j] == SpatialOf(from, input)[j]
    {
      var k, m := SpatialIndex(to) + j, SpatialIndex(from) + j;
      assert SpatialIndex(from)+k-SpatialIndex(to) == m && out[k] == input[m];
      SpatialAt(to, out, j);
      SpatialAt(from, input, j);
    }
    assert SpatialOf(to, out) == SpatialOf(from, input);
    PackParts(to, out);
  }

  lemma SpatialAt(l: DataLayout, v: seq<int>, j: nat)
    requires j + 2 < |v|
    ensures SpatialIndex(l) + j < |v| && SpatialOf(l, v)[j] == v[SpatialIndex(l) + j]
  {
  }

  /** The batch, the depth and the spatial positions are different places of the vector. */
  lemma IndicesApart(l: DataLayout, n: nat)
    requires n >= 2
    ensures 0 <= DepthIndex(l, n) < n && 0 <= BatchIndex(l, n) < n && SpatialIndex(l) + n - 2 <= n
    ensures DepthIndex(l, n) != BatchIndex(l, n)
    ensures !(SpatialIndex(l) <= DepthIndex(l, n) < SpatialIndex(l) + n - 2)
    ensures !(SpatialIndex(l) <= BatchIndex(l, n) < SpatialIndex(l) + n - 2)
  {
  }

  // ----- rearranging is functorial

  /** Going from one layout to another and on to a third is going there directly. */
  lemma ReorderComposes(v: seq<int>, a: DataLayout, b: DataLayout, c: DataLayout)
    requires |v| >= 2
    ensures |Reorder(v, a, b)| == |v| && Reorder(Reorder(v, a, b), b, c) == Reorder(v, a, c)
  {
    PartsOfPack(b, BatchOf(a, v), DepthOf(a, v), SpatialOf(a, v));
  }

  /** Going there and back changes nothing. */
  lemma ReorderInverts(v: seq<int>, a: DataLayout, b: DataLayout)
    requires |v| >= 2
    ensures |Reorder(v, a, b)| == |v| && Reorder(Reorder(v, a, b), b, a) == v
  {
    ReorderComposes(v, a, b, a);
    PackParts(a, v);
  }

  lemma PackMultiset(l: DataLayout, b: int, d: int, sp: seq<int>)
    ensures multiset(Pack(l, b, d, sp)) == multiset(sp) + multiset{b, d}
  {
  }

  /** No dimension is lost or duplicated. */
  lemma ReorderPermutes(v: seq<int>, from: DataLayout, to: DataLayout)
    requires |v| >= 2
    ensures multiset(Reorder(v, from, to)) == multiset(v)
  {
    PackMultiset(to, BatchOf(from, v), DepthOf(from, v), SpatialOf(from, v));
    PackMultiset(from, BatchOf(from, v), DepthOf(from, v), SpatialOf(from, v));
    PackParts(from, v);
  }

  // ----- products and sums over layouts

  function Product(v: seq<int>): int {
    if v == [] then 1 else v[0] * Product(v[1..])
  }

  function Dot(v: seq<int>, w: seq<int>): int
    requires |v| == |w|
  {
    if v == [] then 0 else v[0] * w[0] + Dot(v[1..], w[1..])
  }

  lemma {:induction false} ProductAppend(v: seq<int>, w: seq<int>)
    ensures Product(v + w) == Product(v) * Product(w)
  {
    if v == [] {
      assert v + w == w;
    } else {
      ProductAppend(v[1..], w);
      assert (v + w)[1..] == v[1..] + w;
      assert v[0] * (Product(v[1..]) * Product(w)) == v[0] * Product(v[1..]) * Product(w);
    }
  }

  lemma {:induction false} DotAppend(v: seq<int>, w: seq<int>, v': seq<int>, w': seq<int>)
    requires |v| == |v'| && |w| == |w'|
    ensures Dot(v + w, v' + w') == Dot(v, v') + Dot(w, w')
  {
    if v == [] {
      assert v + w == w && v' + w' == w';
    } else {
      DotAppend(v[1..], w, v'[1..], w');
      assert (v + w)[1..] == v[1..] + w && (v' + w')[1..] == v'[1..] + w';
    }
  }

  lemma ProductPair(b: int, d: int)
    ensures Product([b, d]) == b * d && Product([b]) == b
  {
    assert [b, d][1..] == [d] && [d][1..] == [] && [b][1..] == [];
    assert Product([]) == 1 && Product([d]) == d * Product([]);
  }

  lemma DotPair(b: int, d: int, b': int, d': int)
    ensures Dot([b, d], [b', d']) == b * b' + d * d' && Dot([b], [b']) == b * b'
  {
    assert [b, d][1..] == [d] && [b', d'][1..] == [d'] && [d][1..] == [] && [d'][1..] == [];
    assert Dot([], []) == 0 && Dot([d], [d']) == d * d' + Dot([], []);
  }

  /** The number of elements does not depend on the layout. */
  lemma PackProduct(l: DataLayout, b: int, d: int, sp: seq<int>)
    ensures Product(Pack(l, b, d, sp)) == b * d * Product(sp)
  {
    ProductPair(b, d);
    ProductPair(d, b);
    match l {
      case YXBatchDepth => ProductAppend(sp, [b, d]);
      case YXDepthBatch => ProductAppend(sp, [d, b]);
      case BatchYXDepth => ProductAppend([b] + sp, [d]); ProductAppend([b], sp);
                           assert b * Product(sp) * d == b * d * Product(sp);
      case BatchDepthYX => ProductAppend([b, d], sp);
    }
  }

  /** Nor does the inner product of two vectors arranged alike. */
  lemma PackDot(l: DataLayout, b: int, d: int, sp: seq<int>, b': int, d': int, sp': seq<int>)
    requires |sp| == |sp'|
    ensures |Pack(l, b, d, sp)| == |Pack(l, b', d', sp')|
    ensures Dot(Pack(l, b, d, sp), Pack(l, b', d', sp')) == b * b' + d * d' + Dot(sp, sp')
  {
    DotPair(b, d, b', d');
    DotPair(d, b, d', b');
    match l {
      case YXBatchDepth => DotAppend(sp, [b, d], sp', [b', d']);
      case YXDepthBatch => DotAppend(sp, [d, b], sp', [d', b']);
      case BatchYXDepth => DotAppend([b] + sp, [d], [b'] + sp', [d']); DotAppend([b], sp, [b'], sp');
      case BatchDepthYX => DotAppend([b, d], sp, [b', d'], sp');
    }
  }

  /** Two vectors rearranged alike have the same inner product as before. */
  lemma ReorderDot(v: seq<int>, w: seq<int>, from: DataLayout, to: DataLayout)
    requires |v| == |w| >= 2
    ensures |Reorder(v, from, to)| == |Reorder(w, from, to)|
    ensures Dot(Reorder(v, from, to), Reorder(w, from, to)) == Dot(v, w)
  {
    PackDot(to, BatchOf(from, v), DepthOf(from, v), SpatialOf(from, v), BatchOf(from, w), DepthOf(from, w), SpatialOf(from, w));
    PackDot(from, BatchOf(from, v), DepthOf(from, v), SpatialOf(from, v), BatchOf(from, w), DepthOf(from, w), SpatialOf(from, w));
    PackParts(from, v);
    PackParts(from, w);
  }

  // ----- row-major strides

  function RowMajor(dims: seq<int>): (strides: seq<int>)
    ensures |strides| == |dims|
  {
    if dims == [] then [] else [Product(dims[1..])] + RowMajor(dims[1..])
  }

  predicate InBox(idx: seq<int>, dims: seq<int>) {
    |idx| == |dims| && forall i :: 0 <= i < |idx| ==> 0 <= idx[i] < dims[i]
  }

  predicate Positive(dims: seq<int>) {
    forall i :: 0 <= i < |dims| ==> dims[i] > 0
  }

  lemma {:induction false} ProductPositive(dims: seq<int>)
    requires Positive(dims)
    ensures Product(dims) > 0
  {
    if dims != [] {
      ProductPositive(dims[1..]);
    }
  }

  /** The index whose element is at a given place. */
  function Locate(a: int, dims: seq<int>): (idx: seq<int>)
    requires Positive(dims)
    ensures |idx| == |dims|
    decreases |dims|
  {
    if dims == [] then []
    else
      ProductPositive(dims[1..]);
      var p := Product(dims[1..]);
      [a / p] + Locate(a % p, dims[1..])
  }

  lemma Below(q: int, r: int, p: int, n: int)
    requires 0 <= q < n && 0 <= r < p
    ensures 0 <= q * p + r < n * p
  {
    assert q * p <= (n - 1) * p;
  }

  /** Addresses stay below the number of elements and determine the index. */
  lemma {:induction false} RowMajorInjects(idx: seq<int>, dims: seq<int>)
    requires Positive(dims) && InBox(idx, dims)
    ensures 0 <= Dot(idx, RowMajor(dims)) < Product(dims)
    ensures Locate(Dot(idx, RowMajor(dims)), dims) == idx
  {
    if dims != [] {
      ProductPositive(dims[1..]);
      var p, rest := Product(dims[1..]), Dot(idx[1..], RowMajor(dims[1..]));
      RowMajorInjects(idx[1..], dims[1..]);
      assert RowMajor(dims)[1..] == RowMajor(dims[1..]);
      assert Dot(idx, RowMajor(dims)) == idx[0] * p + rest;
      Below(idx[0], rest, p, dims[0]);
      DivMod(idx[0], rest, p);
    }
  }

  /** Every address below the number of elements belongs to an index. */
  lemma {:induction false} RowMajorCovers(a: int, dims: seq<int>)
    requires Positive(dims) && 0 <= a < Product(dims)
    ensures InBox(Locate(a, dims), dims) && Dot(Locate(a, dims), RowMajor(dims)) == a
    decreases |dims|
  {
    if dims != [] {
      ProductPositive(dims[1..]);
      Quotient(a, Product(dims[1..]), dims[0]);
      RowMajorCovers(a % Product(dims[1..]), dims[1..]);
      CoverStep(a, dims);
    }
  }

  lemma CoverStep(a: int, dims: seq<int>)
    requires Positive(dims) && dims != [] && Product(dims[1..]) > 0
    requires 0 <= a / Product(dims[1..]) < dims[0]
    requires InBox(Locate(a % Product(dims[1..]), dims[1..]), dims[1..])
    requires Dot(Locate(a % Product(dims[1..]), dims[1..]), RowMajor(dims[1..])) == a % Product(dims[1..])
    ensures InBox(Locate(a, dims), dims) && Dot(Locate(a, dims), RowMajor(dims)) == a
  {
    hide Dot, InBox, Product;
    var p := Product(dims[1..]);
    DotCons(a / p, Locate(a % p, dims[1..]), p, RowMajor(dims[1..]));
    InBoxCons(a / p, Locate(a % p, dims[1..]), dims);
  }

  lemma DotCons(x: int, xs: seq<int>, y: int, ys: seq<int>)
    requires |xs| == |ys|
    ensures Dot([x] + xs, [y] + ys) == x * y + Dot(xs, ys)
  {
    assert ([x] + xs)[1..] == xs && ([y] + ys)[1..] == ys;
  }

  lemma InBoxCons(x: int, xs: seq<int>, dims: seq<int>)
    requires dims != [] && 0 <= x < dims[0] && InBox(xs, dims[1..])
    ensures InBox([x] + xs, dims)
  {
  }

  lemma Quotient(a: int, p: int, n: int)
    requires 0 <= a < n * p && p > 0
    ensures 0 <= a / p < n
  {
    var q := a / p;
    assert a == q * p + a % p;
    Scaled(n, q, p);
    Scaled(q, -1, p);
  }

  // ----- batch descriptors

  datatype BatchDescriptor = BatchDescriptor(count: int, featureMaps: int, spatial: seq<int>, layout: DataLayout)

  function FullDims(desc: BatchDescriptor, l: DataLayout): seq<int> {
    Pack(l, desc.count, desc.featureMaps, desc.spatial)
  }

  function FullStrides(desc: BatchDescriptor, l: DataLayout): (strides: seq<int>)
    ensures |strides| == |FullDims(desc, l)|
  {
    PartsOfPack(desc.layout, desc.count, desc.featureMaps, desc.spatial);
    PartsOfPack(l, desc.count, desc.featureMaps, desc.spatial);
    var phys := RowMajor(FullDims(desc, desc.layout));
    PartsOfPack(l, BatchOf(desc.layout, phys), DepthOf(desc.layout, phys), SpatialOf(desc.layout, phys));
    Reorder(phys, desc.layout, l)
  }

  /** BatchDescriptor::full_dims. */
  method ComputeFullDims(desc: BatchDescriptor, l: DataLayout) returns (dims: seq<int>)
    ensures dims == FullDims(desc, l)
    ensures dims == match l
                    case YXDepthBatch => desc.spatial + [desc.featureMaps, desc.count]
                    case YXBatchDepth => desc.spatial + [desc.count, desc.featureMaps]
                    case BatchYXDepth => [desc.count] + desc.spatial + [desc.featureMaps]
                    case BatchDepthYX => [desc.count, desc.featureMaps] + desc.spatial
    ensures |dims| == |desc.spatial| + 2 && dims[BatchIndex(l, |dims|)] == desc.count
    ensures dims[DepthIndex(l, |dims|)] == desc.featureMaps
    ensures dims[SpatialIndex(l)..SpatialIndex(l) + |desc.spatial|] == desc.spatial
  {
    PartsOfPack(l, desc.count, desc.featureMaps, desc.spatial);
    var bdyx := [desc.count, desc.featureMaps] + desc.spatial;
    PartsOfPack(BatchDepthYX, desc.count, desc.featureMaps, desc.spatial);
    dims := ReorderDims(bdyx, BatchDepthYX, l);
  }

  function Stride(dims: seq<int>, j: nat): int
    requires j < |dims|
  {
    Product(dims[j+1..])
  }

  lemma {:induction false} RowMajorAt(dims: seq<int>, j: nat)
    requires j < |dims|
    ensures RowMajor(dims)[j] == Stride(dims, j)
  {
    if j > 0 {
      RowMajorAt(dims[1..], j - 1);
      assert dims[1..][j..] == dims[j+1..];
    }
  }

  /** Each stride is the next one times the next dimension, and the last one is 1. */
  lemma StrideBefore(dims: seq<int>, i: nat)
    requires i < |dims|
    ensures Stride(dims, i) == if i + 1 == |dims| then 1 else Stride(dims, i + 1) * dims[i+1]
  {
    if i + 1 < |dims| {
      assert dims[i+1..][1..] == dims[i+2..];
    }
  }

  /** The loop of full_strides: strides from the last dimension to the first. */
  method PhysicalStrides(dims: seq<int>) returns (strides: seq<int>)
    requires |dims| >= 2
    ensures strides == RowMajor(dims) && |strides| == |dims|
    ensures strides[|dims|-1] == 1 && forall i, j :: 0 <= i && j == i + 1 && j < |dims| ==> strides[i] == strides[j] * dims[j]
  {
    hide RowMajor, Stride;
    var n := |dims|;
    var out := new int[n](_ => 0);
    out[n-1] := 1;
    StrideBefore(dims, n - 1);
    var i := n - 2;
    while i >= 0
      invariant -1 <= i <= n - 2
      invariant forall j :: i < j < n ==> out[j] == Stride(dims, j)
      invariant out[n-1] == 1 && forall j, k :: i < j && k == j + 1 && k < n ==> out[j] == out[k] * dims[k]
    {
      StrideBefore(dims, i);
      out[i] := out[i+1] * dims[i+1];
      i := i - 1;
    }
    strides := out[..];
    forall j | 0 <= j < n
      ensures strides[j] == RowMajor(dims)[j]
    {
      RowMajorAt(dims, j);
    }
  }

  function Times(v: seq<int>, k: int): (w: seq<int>)
    ensures |w| == |v|
  {
    seq(|v|, i requires 0 <= i < |v| => k * v[i])
  }

  /** Row-major strides of a longer vector: those of its front grow by what its end holds. */
  lemma {:induction false} RowMajorAppend(v: seq<int>, w: seq<int>)
    ensures RowMajor(v + w) == Times(RowMajor(v), Product(w)) + RowMajor(w)
  {
    hide Product;
    if v == [] {
      assert v + w == w && Times(RowMajor(v), Product(w)) == [];
    } else {
      hide Times;
      RowMajorAppend(v[1..], w);
      ProductAppend(v[1..], w);
      assert (v + w)[1..] == v[1..] + w;
      TimesCons(Product(v[1..]), RowMajor(v[1..]), Product(w));
    }
  }

  lemma TimesCons(x: int, xs: seq<int>, k: int)
    ensures Times([x] + xs, k) == [x * k] + Times(xs, k)
  {
    assert forall i :: 0 <= i < |xs| ==> ([x] + xs)[i + 1] == xs[i];
  }

  lemma RowMajorSmall(x: int, y: int)
    ensures RowMajor([x, y]) == [y, 1] && RowMajor([x]) == [1] && Product([x, y]) == x * y && Product([x]) == x
  {
    assert [x, y][1..] == [y] && [x][1..] == [] && [y][1..] == [];
  }

  /** Between two neighbouring images, two neighbouring feature maps, and the factor on the strides inside a map. */
  function BatchStride(desc: BatchDescriptor): int {
    match desc.layout
    case YXDepthBatch => 1
    case YXBatchDepth => desc.featureMaps
    case BatchYXDepth => desc.featureMaps * Product(desc.spatial)
    case BatchDepthYX => desc.featureMaps * Product(desc.spatial)
  }

  function DepthStride(desc: BatchDescriptor): int {
    match desc.layout
    case YXDepthBatch => desc.count
    case YXBatchDepth => 1
    case BatchYXDepth => 1
    case BatchDepthYX => Product(desc.spatial)
  }

  function SpatialScale(desc: BatchDescriptor): int {
    match desc.layout
    case YXDepthBatch => desc.featureMaps * desc.count
    case YXBatchDepth => desc.count * desc.featureMaps
    case BatchYXDepth => desc.featureMaps
    case BatchDepthYX => 1
  }

  lemma StoredStrides(desc: BatchDescriptor)
    ensures RowMajor(FullDims(desc, desc.layout)) ==
            Pack(desc.layout, BatchStride(desc), DepthStride(desc), Times(RowMajor(desc.spatial), SpatialScale(desc)))
  {
    var c, f, sp := desc.count, desc.featureMaps, desc.spatial;
    RowMajorSmall(c, f);
    RowMajorSmall(f, c);
    match desc.layout {
      case YXDepthBatch => RowMajorAppend(sp, [f, c]);
      case YXBatchDepth => RowMajorAppend(sp, [c, f]);
      case BatchYXDepth =>
        RowMajorAppend([c], sp + [f]);
        RowMajorAppend(sp, [f]);
        ProductAppend(sp, [f]);
        assert [c] + sp + [f] == [c] + (sp + [f]);
      case BatchDepthYX => RowMajorAppend([c, f], sp);
    }
  }

  /** BatchDescriptor::full_strides: row-major strides of the stored layout, rearranged. */
  method ComputeFullStrides(desc: BatchDescriptor, l: DataLayout) returns (strides: seq<int>)
    ensures strides == FullStrides(desc, l) && |strides| == |desc.spatial| + 2
    ensures strides[BatchIndex(l, |strides|)] == BatchStride(desc) && strides[DepthIndex(l, |strides|)] == DepthStride(desc)
    ensures strides[SpatialIndex(l)..SpatialIndex(l) + |desc.spatial|] == Times(RowMajor(desc.spatial), SpatialScale(desc))
  {
    hide RowMajor, Pack;
    StoredStrides(desc);
    PartsOfPack(desc.layout, BatchStride(desc), DepthStride(desc), Times(RowMajor(desc.spatial), SpatialScale(desc)));
    PartsOfPack(l, BatchStride(desc), DepthStride(desc), Times(RowMajor(desc.spatial), SpatialScale(desc)));
    var phys := ComputeFullDims(desc, desc.layout);
    PartsOfPack(desc.layout, desc.count, desc.featureMaps, desc.spatial);
    var physStrides := PhysicalStrides(phys);
    strides := ReorderDims(physStrides, desc.layout, l);
  }

  /** BatchDescriptor::NodesPerFeatureMap. */
  method NodesPerFeatureMap(desc: BatchDescriptor) returns (nodes: int)
    ensures nodes == Product(desc.spatial)
  {
    nodes := 1;
    for i := 0 to |desc.spatial|
      invariant nodes * Product(desc.spatial[i..]) == Product(desc.spatial)
    {
      assert desc.spatial[i..][1..] == desc.spatial[i+1..];
      assert nodes * (desc.spatial[i] * Product(desc.spatial[i+1..])) == nodes * desc.spatial[i] * Product(desc.spatial[i+1..]);
      nodes := nodes * desc.spatial[i];
    }
  }

  /** BatchDescriptor::ElementCount is the product of the dimensions in every layout. */
  method ElementCount(desc: BatchDescriptor, l: DataLayout) returns (n: int)
    ensures n == Product(FullDims(desc, l)) == desc.count * desc.featureMaps * Product(desc.spatial)
  {
    var nodes := NodesPerFeatureMap(desc);
    PackProduct(l, desc.count, desc.featureMaps, desc.spatial);
    n := desc.count * desc.featureMaps * nodes;
  }

  ghost predicate WellSized(desc: BatchDescriptor) {
    desc.count > 0 && desc.featureMaps > 0 && Positive(desc.spatial)
  }

  /** Where the element with index `idx`, written in layout `l`, is stored. */
  function Address(desc: BatchDescriptor, l: DataLayout, idx: seq<int>): int
    requires |idx| == |FullDims(desc, l)|
  {
    Dot(idx, FullStrides(desc, l))
  }

  /** A logical element has the same address whichever layout is asked for. */
  lemma AddressIndependent(desc: BatchDescriptor, l: DataLayout, m: DataLayout, b: int, d: int, sp: seq<int>)
    requires |sp| == |desc.spatial|
    ensures |Pack(l, b, d, sp)| == |FullDims(desc, l)| && |Pack(m, b, d, sp)| == |FullDims(desc, m)|
    ensures Address(desc, l, Pack(l, b, d, sp)) == Address(desc, m, Pack(m, b, d, sp))
  {
    AddressPhysical(desc, l, b, d, sp);
    AddressPhysical(desc, m, b, d, sp);
  }

  lemma AddressPhysical(desc: BatchDescriptor, l: DataLayout, b: int, d: int, sp: seq<int>)
    requires |sp| == |desc.spatial|
    ensures |Pack(l, b, d, sp)| == |FullDims(desc, l)|
    ensures |Pack(desc.layout, b, d, sp)| == |RowMajor(FullDims(desc, desc.layout))|
    ensures Address(desc, l, Pack(l, b, d, sp)) == Dot(Pack(desc.layout, b, d, sp), RowMajor(FullDims(desc, desc.layout)))
  {
    hide RowMajor, Pack, Dot;
    PartsOfPack(desc.layout, desc.count, desc.featureMaps, desc.spatial);
    PartsOfPack(l, desc.count, desc.featureMaps, desc.spatial);
    PartsOfPack(l, b, d, sp);
    PartsOfPack(desc.layout, b, d, sp);
    var phys, idx := RowMajor(FullDims(desc, desc.layout)), Pack(desc.layout, b, d, sp);
    ReorderDot(idx, phys, desc.layout, l);
  }

  lemma PackInBox(l: DataLayout, b: int, d: int, sp: seq<int>, b': int, d': int, sp': seq<int>)
    requires |sp| == |sp'|
    ensures InBox(Pack(l, b, d, sp), Pack(l, b', d', sp')) <==> 0 <= b < b' && 0 <= d < d' && InBox(sp, sp')
  {
    var v, w := Pack(l, b, d, sp), Pack(l, b', d', sp');
    var k := SpatialIndex(l);
    PartsOfPack(l, b, d, sp);
    PartsOfPack(l, b', d', sp');
    if InBox(v, w) {
      forall i | 0 <= i < |sp|
        ensures 0 <= sp[i] < sp'[i]
      {
        assert sp[i] == v[k+i] && sp'[i] == w[k+i];
      }
      assert v[BatchIndex(l, |v|)] == b && v[DepthIndex(l, |v|)] == d;
    }
  }

  lemma PackPositive(l: DataLayout, b: int, d: int, sp: seq<int>)
    requires b > 0 && d > 0 && Positive(sp)
    ensures Positive(Pack(l, b, d, sp))
  {
  }

  /** The element that feature map `d` of image `b` has at position `sp`. */
  ghost predicate Logical(desc: BatchDescriptor, b: int, d: int, sp: seq<int>) {
    0 <= b < desc.count && 0 <= d < desc.featureMaps && |sp| == |desc.spatial|
    && forall i :: 0 <= i < |sp| ==> 0 <= sp[i] < desc.spatial[i]
  }

  lemma {:induction false} DotTimes(v: seq<int>, w: seq<int>, k: int)
    requires |v| == |w|
    ensures Dot(v, Times(w, k)) == k * Dot(v, w)
  {
    if v != [] {
      DotTimes(v[1..], w[1..], k);
      assert Times(w, k)[1..] == Times(w[1..], k);
      assert v[0] * (k * w[0]) == k * (v[0] * w[0]);
    }
  }

  /** Where an element is stored, in the terms of its image, its feature map and its position. */
  lemma LogicalAddress(desc: BatchDescriptor, l: DataLayout, b: int, d: int, sp: seq<int>)
    requires |sp| == |desc.spatial|
    ensures |Pack(l, b, d, sp)| == |FullDims(desc, l)|
    ensures Address(desc, l, Pack(l, b, d, sp)) ==
            b * BatchStride(desc) + d * DepthStride(desc) + SpatialScale(desc) * Dot(sp, RowMajor(desc.spatial))
  {
    hide RowMajor, Pack, Dot, Product;
    AddressPhysical(desc, l, b, d, sp);
    StoredStrides(desc);
    PackDot(desc.layout, b, d, sp, BatchStride(desc), DepthStride(desc), Times(RowMajor(desc.spatial), SpatialScale(desc)));
    DotTimes(sp, RowMajor(desc.spatial), SpatialScale(desc));
  }

  /**
   For positive sizes, and in every layout, addresses are a bijection from the elements of all images
   onto [0, ElementCount): they stay in range and different elements have different addresses.
   */
  lemma AddressInjects(desc: BatchDescriptor, l: DataLayout, b: int, d: int, sp: seq<int>, b': int, d': int, sp': seq<int>)
    requires WellSized(desc) && Logical(desc, b, d, sp) && Logical(desc, b', d', sp')
    ensures |Pack(l, b, d, sp)| == |Pack(l, b', d', sp')| == |FullDims(desc, l)|
    ensures 0 <= Address(desc, l, Pack(l, b, d, sp)) < desc.count * desc.featureMaps * Product(desc.spatial)
    ensures Address(desc, l, Pack(l, b, d, sp)) == Address(desc, l, Pack(l, b', d', sp')) ==> b == b' && d == d' && sp == sp'
  {
    hide RowMajor, Dot, Product, Locate, Address, Pack, BatchOf, DepthOf, SpatialOf, Reorder;
    PackInBox(l, b, d, sp, desc.count, desc.featureMaps, desc.spatial);
    PackInBox(l, b', d', sp', desc.count, desc.featureMaps, desc.spatial);
    PartsOfPack(l, b, d, sp);
    PartsOfPack(l, b', d', sp');
    AddressStored(desc, l, Pack(l, b, d, sp));
    AddressStored(desc, l, Pack(l, b', d', sp'));
  }

  /** The address of an index of the box, and the index at that address. */
  lemma AddressStored(desc: BatchDescriptor, l: DataLayout, idx: seq<int>)
    requires WellSized(desc) && InBox(idx, FullDims(desc, l))
    ensures Positive(FullDims(desc, desc.layout)) && 0 <= Address(desc, l, idx) < desc.count * desc.featureMaps * Product(desc.spatial)
    ensures |Locate(Address(desc, l, idx), FullDims(desc, desc.layout))| >= 2
    ensures Reorder(Locate(Address(desc, l, idx), FullDims(desc, desc.layout)), desc.layout, l) == idx
  {
    hide RowMajor, Dot, Product, Locate;
    PartsOfPack(l, desc.count, desc.featureMaps, desc.spatial);
    var b, d, sp := BatchOf(l, idx), DepthOf(l, idx), SpatialOf(l, idx);
    PackParts(l, idx);
    PackInBox(l, b, d, sp, desc.count, desc.featureMaps, desc.spatial);
    PackInBox(desc.layout, b, d, sp, desc.count, desc.featureMaps, desc.spatial);
    PackPositive(desc.layout, desc.count, desc.featureMaps, desc.spatial);
    AddressPhysical(desc, l, b, d, sp);
    PackProduct(desc.layout, desc.count, desc.featureMaps, desc.spatial);
    RowMajorInjects(Pack(desc.layout, b, d, sp), FullDims(desc, desc.layout));
    PartsOfPack(desc.layout, b, d, sp);
  }

  /** And every place is taken. */
  lemma AddressCovers(desc: BatchDescriptor, l: DataLayout, a: int) returns (b: int, d: int, sp: seq<int>)
    requires WellSized(desc) && 0 <= a < desc.count * desc.featureMaps * Product(desc.spatial)
    ensures Logical(desc, b, d, sp) && |Pack(l, b, d, sp)| == |FullDims(desc, l)| && Address(desc, l, Pack(l, b, d, sp)) == a
  {
    hide RowMajor, Dot, Product, Locate;
    var dims := FullDims(desc, desc.layout);
    PackPositive(desc.layout, desc.count, desc.featureMaps, desc.spatial);
    PackProduct(desc.layout, desc.count, desc.featureMaps, desc.spatial);
    RowMajorCovers(a, dims);
    PartsOfPack(desc.layout, desc.count, desc.featureMaps, desc.spatial);
    var phys := Locate(a, dims);
    b, d, sp := BatchOf(desc.layout, phys), DepthOf(desc.layout, phys), SpatialOf(desc.layout, phys);
    PackParts(desc.layout, phys);
    PackInBox(desc.layout, b, d, sp, desc.count, desc.featureMaps, desc.spatial);
    AddressPhysical(desc, l, b, d, sp);
  }
}
