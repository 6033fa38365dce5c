/**
 The TF_STRING tensor codec (c/c_api.cc) and the varints it uses (core/lib/core/coding.cc):
 a table of 64-bit offsets, then length-prefixed strings.  The varint is the one of the
 Protocol Buffers Encoding specification, section "Base 128 Varints".
 */
module StringCodec {

  import opened Division

  type byte = b: int | 0 <= b < 256

  const U64: int := 0x1_0000_0000_0000_0000
  const I64: int := 0x8000_0000_0000_0000

  datatype Result<+T> = Ok(value: T) | Malformed | OutOfBounds

  function Pow128(n: nat): (p: nat)
    ensures p > 0
  {
    if n == 0 then 1 else 128 * Pow128(n - 1)
  }

  // ----- varints

  function Varint(v: nat): seq<byte> {
    if v < 128 then [v] else [v % 128 + 128] + Varint(v / 128)
  }

  /** Byte `i` holds the seven bits of weight 128^i, and all bytes but the last have the continuation bit. */
  lemma {:induction false} VarintByte(v: nat, i: nat)
    requires i < |Varint(v)|
    ensures Varint(v)[i] == v / Pow128(i) % 128 + if i < |Varint(v)| - 1 then 128 else 0
  {
    if v >= 128 && i > 0 {
      VarintByte(v / 128, i - 1);
      DivideTwice(v, 128, Pow128(i - 1));
    }
  }

  /** As many bytes as the number needs. */
  lemma {:induction false} VarintSize(v: nat)
    ensures |Varint(v)| >= 1 && v < Pow128(|Varint(v)|) && (|Varint(v)| > 1 ==> Pow128(|Varint(v)| - 1) <= v)
  {
    if v >= 128 {
      VarintSize(v / 128);
      assert v < 128 * (v / 128 + 1);
      var n := |Varint(v)| - 1;
      assert n > 1 ==> Pow128(n) == 128 * Pow128(n - 1);
    }
  }

  /** EncodeVarint64. */
  method EncodeVarint64(v0: nat) returns (out: seq<byte>)
    ensures out == Varint(v0)
    ensures |out| >= 1 && v0 < Pow128(|out|) && (|out| > 1 ==> Pow128(|out| - 1) <= v0)
    ensures forall i :: 0 <= i < |out| ==> out[i] == v0 / Pow128(i) % 128 + if i < |out| - 1 then 128 else 0
  {
    hide Pow128;
    var v := v0;
    out := [];
    while v >= 128
      invariant out + Varint(v) == Varint(v0)
    {
      out := out + [v % 128 + 128];
      v := v / 128;
    }
    out := out + [v];
    VarintWritten(v0);
  }

  lemma VarintWritten(v: nat)
    ensures var s := Varint(v);
            && |s| >= 1 && v < Pow128(|s|) && (|s| > 1 ==> Pow128(|s| - 1) <= v)
            && forall i :: 0 <= i < |s| ==> s[i] == v / Pow128(i) % 128 + if i < |s| - 1 then 128 else 0
  {
    hide Pow128, Varint;
    VarintSize(v);
    forall i | 0 <= i < |Varint(v)|
      ensures Varint(v)[i] == v / Pow128(i) % 128 + if i < |Varint(v)| - 1 then 128 else 0
    {
      VarintByte(v, i);
    }
  }

  /** VarintLength. */
  method VarintLength(v0: nat) returns (len: nat)
    ensures len == |Varint(v0)|
    ensures len >= 1 && v0 < Pow128(len) && (len > 1 ==> Pow128(len - 1) <= v0)
  {
    VarintSize(v0);
    var v := v0;
    len := 1;
    while v >= 128
      invariant len + |Varint(v)| - 1 == |Varint(v0)|
    {
      v := v / 128;
      len := len + 1;
    }
  }

  /** What the decoder makes of the bytes of a varint: seven bits each, least significant first. */
  function Bits(s: seq<byte>): nat {
    if s == [] then 0 else s[0] % 128 + 128 * Bits(s[1..])
  }

  /** The number of bytes up to and including the first one without a continuation bit. */
  function Stop(s: seq<byte>): nat {
    if s == [] then 0 else if s[0] < 128 then 1 else 1 + Stop(s[1..])
  }

  predicate Terminated(s: seq<byte>) {
    s != [] && (s[0] < 128 || Terminated(s[1..]))
  }

  lemma {:induction false} VarintShape(v: nat, rest: seq<byte>)
    ensures Terminated(Varint(v) + rest) && Stop(Varint(v) + rest) == |Varint(v)|
    ensures Bits(Varint(v)) == v && |Varint(v)| > 0
  {
    var s := Varint(v) + rest;
    if v >= 128 {
      VarintShape(v / 128, rest);
      assert s[1..] == Varint(v / 128) + rest;
      assert Varint(v)[1..] == Varint(v / 128);
    } else {
      assert Varint(v)[1..] == [];
    }
  }

  lemma {:induction false} VarintBound(v: nat, n: nat)
    requires v < Pow128(n) && n > 0
    ensures |Varint(v)| <= n
  {
    if v >= 128 {
      assert n > 1 by { assert Pow128(1) == 128 * Pow128(0); }
      VarintBound(v / 128, n - 1);
    }
  }

  /** A 64-bit length takes at most ten bytes. */
  lemma VarintFits(v: nat)
    requires v < U64
    ensures |Varint(v)| <= 10
  {
    PowersOf128();
    VarintBound(v, 10);
  }

  lemma PowersOf128()
    ensures Pow128(9) == I64 && Pow128(10) == 128 * I64 && Pow128(0) == 1 && U64 == 2 * I64
  {
    assert Pow128(2) == 128 * Pow128(1) && Pow128(1) == 128;
    assert Pow128(4) == 128 * Pow128(3) && Pow128(3) == 128 * Pow128(2);
    assert Pow128(6) == 128 * Pow128(5) && Pow128(5) == 128 * Pow128(4);
    assert Pow128(8) == 128 * Pow128(7) && Pow128(7) == 128 * Pow128(6);
    assert Pow128(10) == 128 * Pow128(9) && Pow128(9) == 128 * Pow128(8);
  }

  /** Bits of a longer string: the next seven bits go on top. */
  lemma {:induction false} BitsAppend(s: seq<byte>, b: byte)
    ensures Bits(s + [b]) == Bits(s) + Pow128(|s|) * (b % 128)
  {
    if s == [] {
      assert (s + [b])[1..] == [];
    } else {
      BitsAppend(s[1..], b);
      assert (s + [b])[1..] == s[1..] + [b];
      assert Pow128(|s|) == 128 * Pow128(|s| - 1);
      assert 128 * (Pow128(|s| - 1) * (b % 128)) == Pow128(|s|) * (b % 128);
    }
  }

  lemma NextByte(src: seq<byte>, i: nat)
    requires i < |src|
    ensures Bits(src[..i+1]) == Bits(src[..i]) + (src[i] % 128) * Pow128(i)
    ensures src[i..] != [] && src[i..][0] == src[i] && src[i..][1..] == src[i+1..]
  {
    assert src[..i+1] == src[..i] + [src[i]];
    BitsAppend(src[..i], src[i]);
  }

  /**
   GetVarint64Ptr: at most ten bytes are read, and bits above the 64th are lost.  Gives the
   number of bytes read, or 0 for a null result.
   */
  method GetVarint64(src: seq<byte>) returns (read: nat, value: nat)
    ensures read > 0 <==> Terminated(src) && Stop(src) <= 10
    ensures read > 0 ==> read == Stop(src) <= |src| && value == Bits(src[..read]) % U64
    ensures read > 0 ==> read <= 10 && src[read - 1] < 128 && forall j :: 0 <= j < read - 1 ==> src[j] >= 128
    ensures read == 0 ==> forall j :: 0 <= j < 10 && j < |src| ==> src[j] >= 128
  {
    hide Bits, Pow128;
    value, read := 0, 0;
    var i := 0;
    var weight: nat := 1;
    assert src[0..] == src && src[..0] == [];
    assert Pow128(0) == 1 && Bits([]) == 0 by { Units(); }
    while i < 10 && i < |src|
      invariant 0 <= i <= 10 && i <= |src| && value == Bits(src[..i]) && weight == Pow128(i)
      invariant Terminated(src) <==> Terminated(src[i..])
      invariant Stop(src) == i + Stop(src[i..])
      invariant forall j :: 0 <= j < i ==> src[j] >= 128
      decreases 10 - i
    {
      NextByte(src, i);
      if src[i] < 128 {
        return i + 1, (value + src[i] * weight) % U64;
      }
      value := value + src[i] % 128 * weight;
      weight := 128 * weight;
      assert Pow128(i + 1) == 128 * Pow128(i) by { NextPower(i); }
      i := i + 1;
    }
    StopPositive(src[i..]);
    value := 0;
  }

  lemma Units()
    ensures Pow128(0) == 1 && Bits([]) == 0
  {
  }

  lemma NextPower(i: nat)
    ensures Pow128(i + 1) == 128 * Pow128(i)
  {
  }

  lemma StopPositive(s: seq<byte>)
    ensures Terminated(s) ==> Stop(s) > 0
    ensures s == [] ==> !Terminated(s)
  {
  }

  /** Decoding an encoded length, whatever follows it, gives the length back. */
  lemma VarintRoundTrip(v: nat, rest: seq<byte>)
    requires v < U64
    ensures var s := Varint(v) + rest;
            Terminated(s) && Stop(s) <= 10 && Stop(s) <= |s| && Bits(s[..Stop(s)]) % U64 == v
  {
    VarintShape(v, rest);
    VarintFits(v);
    assert (Varint(v) + rest)[..|Varint(v)|] == Varint(v);
  }

  // ----- one string

  /** TF_StringEncodedSize, with size_t arithmetic. */
  method StringEncodedSize(len: nat) returns (size: nat)
    ensures size == (|Varint(len)| + len) % U64
  {
    var n := VarintLength(len);
    size := (n + len) % U64;
  }

  function EncodeString(s: seq<byte>): seq<byte> {
    Varint(|s|) + s
  }

  /** TF_StringEncode into a buffer of `room` bytes: the bytes written, or an error. */
  method StringEncode(s: seq<byte>, room: nat) returns (r: Result<seq<byte>>)
    requires |s| < U64
    ensures r == if |EncodeString(s)| < U64 && |EncodeString(s)| <= room then Ok(EncodeString(s)) else Malformed
  {
    var sz := StringEncodedSize(|s|);
    VarintFits(|s|);
    if sz < |s| || room < sz {
      return Malformed;
    }
    var prefix := EncodeVarint64(|s|);
    r := Ok(prefix + s);
  }

  /**
   TF_StringDecode followed by copying the string out.  The C code does not compare the
   decoded length with the buffer, so a length that is too large makes it read outside.
   */
  method StringDecode(src: seq<byte>) returns (r: Result<seq<byte>>)
    ensures r == DecodedString(src)
    ensures r.Malformed? <==> forall j :: 0 <= j < 10 && j < |src| ==> src[j] >= 128
    ensures !r.Malformed? ==>
              var p := Stop(src);
              && 0 < p <= |src| && src[p - 1] < 128 && (forall j :: 0 <= j < p - 1 ==> src[j] >= 128)
              && (r.OutOfBounds? <==> Bits(src[..p]) % U64 > |src| - p)
              && (r.Ok? ==> p + Bits(src[..p]) % U64 <= |src| && r.value == src[p..p + Bits(src[..p]) % U64])
  {
    var p, len := GetVarint64(src);
    if p == 0 {
      return Malformed;
    }
    if len > |src| - p {
      return OutOfBounds;
    }
    r := Ok(src[p..p+len]);
  }

  function DecodedString(src: seq<byte>): Result<seq<byte>> {
    if !(Terminated(src) && Stop(src) <= 10) then Malformed
    else
      StopInside(src);
      var p := Stop(src);
      var len := Bits(src[..p]) % U64;
      if len > |src| - p then OutOfBounds else Ok(src[p..p+len])
  }

  lemma {:induction false} StopInside(s: seq<byte>)
    ensures Stop(s) <= |s|
  {
    if s != [] && s[0] >= 128 {
      StopInside(s[1..]);
    }
  }

  /** Decoding an encoded string, whatever follows it, gives the string back and stays inside. */
  lemma StringRoundTrip(s: seq<byte>, rest: seq<byte>)
    requires |s| < U64
    ensures DecodedString(EncodeString(s) + rest) == Ok(s)
  {
    var src := EncodeString(s) + rest;
    assert src == Varint(|s|) + (s + rest);
    VarintRoundTrip(|s|, s + rest);
    VarintShape(|s|, s + rest);
    assert src[|Varint(|s|)|..|Varint(|s|)|+|s|] == s;
  }

  // ----- 64-bit offsets, least significant byte first

  function Fixed64(v: nat, bytes: nat): seq<byte> {
    if bytes == 0 then [] else [v % 256] + Fixed64(v / 256, bytes - 1)
  }

  function ReadFixed(s: seq<byte>): nat {
    if s == [] then 0 else s[0] + 256 * ReadFixed(s[1..])
  }

  function Pow256(n: nat): nat { if n == 0 then 1 else 256 * Pow256(n - 1) }

  lemma {:induction false} FixedRoundTrip(v: nat, bytes: nat)
    requires v < Pow256(bytes)
    ensures |Fixed64(v, bytes)| == bytes && ReadFixed(Fixed64(v, bytes)) == v
  {
    if bytes > 0 {
      FixedRoundTrip(v / 256, bytes - 1);
      assert Fixed64(v, bytes)[1..] == Fixed64(v / 256, bytes - 1);
    }
  }

  /** Byte `k` of the number holds the bits of weight 256^k. */
  lemma {:induction false} FixedByte(v: nat, bytes: nat, k: nat)
    requires k < bytes
    ensures |Fixed64(v, bytes)| == bytes && Pow256(k) > 0 && Fixed64(v, bytes)[k] == v / Pow256(k) % 256
  {
    FixedLength(v, bytes);
    if k > 0 {
      FixedByte(v / 256, bytes - 1, k - 1);
      DivideTwice(v, 256, Pow256(k - 1));
    }
  }

  lemma OffsetFits()
    ensures Pow256(8) == U64
  {
    assert Pow256(2) == 256 * Pow256(1) && Pow256(1) == 256;
    assert Pow256(4) == 256 * Pow256(3) && Pow256(3) == 256 * Pow256(2);
    assert Pow256(6) == 256 * Pow256(5) && Pow256(5) == 256 * Pow256(4);
    assert Pow256(8) == 256 * Pow256(7) && Pow256(7) == 256 * Pow256(6);
  }

  // ----- tensors of strings

  /** The data part: the encoded strings one after the other. */
  function Data(strs: seq<seq<byte>>): seq<byte> {
    if strs == [] then [] else Data(strs[..|strs|-1]) + EncodeString(strs[|strs|-1])
  }

  /** The table part: where each string starts in the data part. */
  function Table(strs: seq<seq<byte>>): seq<byte> {
    if strs == [] then [] else Table(strs[..|strs|-1]) + Fixed64(|Data(strs[..|strs|-1])|, 8)
  }

  lemma {:induction false} FixedLength(v: nat, n: nat)
    ensures |Fixed64(v, n)| == n
  {
    if n > 0 {
      FixedLength(v / 256, n - 1);
    }
  }

  lemma {:induction false} TableLength(strs: seq<seq<byte>>)
    ensures |Table(strs)| == 8 * |strs|
  {
    if strs != [] {
      TableLength(strs[..|strs|-1]);
      FixedLength(|Data(strs[..|strs|-1])|, 8);
    }
  }

  /** The data up to string `i` is a prefix of all data, followed by string `i`. */
  lemma {:induction false} DataAt(strs: seq<seq<byte>>, i: nat) returns (rest: seq<byte>)
    requires i < |strs|
    ensures Data(strs) == Data(strs[..i]) + EncodeString(strs[i]) + rest
    decreases |strs|
  {
    var k := |strs| - 1;
    if i == k {
      rest := [];
    } else {
      var r := DataAt(strs[..k], i);
      assert strs[..k][..i] == strs[..i];
      rest := r + EncodeString(strs[k]);
      assert Data(strs) == Data(strs[..i]) + EncodeString(strs[i]) + r + EncodeString(strs[k]);
    }
  }

  lemma {:induction false} TableAt(strs: seq<seq<byte>>, i: nat)
    requires i < |strs|
    ensures |Table(strs)| == 8 * |strs|
    ensures Table(strs)[8*i..8*i+8] == Fixed64(|Data(strs[..i])|, 8)
    decreases |strs|
  {
    hide Fixed64, Data;
    TableLength(strs);
    var k := |strs| - 1;
    TableLength(strs[..k]);
    FixedLength(|Data(strs[..k])|, 8);
    if i < k {
      TableAt(strs[..k], i);
      assert strs[..k][..i] == strs[..i];
      SliceOfFirst(Table(strs[..k]), Fixed64(|Data(strs[..k])|, 8), 8 * i, 8 * i + 8);
    } else {
      assert strs[..i] == strs[..k];
    }
  }

  lemma SliceOfFirst(a: seq<byte>, b: seq<byte>, lo: nat, hi: nat)
    requires lo <= hi <= |a|
    ensures (a + b)[lo..hi] == a[lo..hi]
  {
  }

  /** The encoded tensor: table, then data. */
  function EncodedTensor(strs: seq<seq<byte>>): seq<byte> {
    Table(strs) + Data(strs)
  }

  /**
   The bytes of an encoded tensor: entry `i` of the table is the place of string `i` after the table, in eight
   bytes, least significant first, and at that place are the length and the characters of the string.
   */
  lemma TensorBytes(strs: seq<seq<byte>>, i: nat, k: nat) returns (offset: nat)
    requires i < |strs| && k < 8
    ensures var src, n, len := EncodedTensor(strs), |strs|, |Varint(|strs[i]|)| + |strs[i]|;
            && 8 * n + offset + len <= |src| && Pow256(k) > 0 && src[8 * i + k] == offset / Pow256(k) % 256
            && src[8 * n + offset..8 * n + offset + len] == Varint(|strs[i]|) + strs[i]
    ensures i == 0 ==> offset == 0
    ensures offset == |Data(strs[..i])|
    ensures |Data(strs[..i + 1])| == offset + |Varint(|strs[i]|)| + |strs[i]|
  {
    hide Fixed64, Table, Data, Varint;
    offset := |Data(strs[..i])|;
    TableAt(strs, i);
    FixedByte(offset, 8, k);
    var rest := DataAt(strs, i);
    NextString(strs, i);
    EmptyTensor();
    var src, n := EncodedTensor(strs), |strs|;
    assert src[8 * i + k] == Table(strs)[8*i..8*i+8][k];
    assert src[8 * n + offset..] == EncodeString(strs[i]) + rest;
    assert src[8 * n + offset..8 * n + offset + |EncodeString(strs[i])|] == src[8 * n + offset..][..|EncodeString(strs[i])|];
  }

  method WriteAt(a: array<byte>, pos: nat, bytes: seq<byte>)
    requires pos + |bytes| <= a.Length
    modifies a
    ensures a[..] == old(a[..pos]) + bytes + old(a[pos+|bytes|..])
  {
    for i := 0 to |bytes|
      invariant a[..] == old(a[..pos]) + bytes[..i] + old(a[pos+i..])
    {
      a[pos+i] := bytes[i];
    }
    assert bytes[..|bytes|] == bytes;
  }

  lemma NextString(strs: seq<seq<byte>>, i: nat)
    requires i < |strs|
    ensures Data(strs[..i+1]) == Data(strs[..i]) + EncodeString(strs[i])
    ensures Table(strs[..i+1]) == Table(strs[..i]) + Fixed64(|Data(strs[..i])|, 8)
    ensures |Data(strs[..i])| + |EncodeString(strs[i])| <= |Data(strs)|
  {
    var part := strs[..i+1];
    assert part[..i] == strs[..i] && part[|part|-1] == strs[i];
    var rest := DataAt(strs, i);
  }

  /** The first loop of TF_Tensor_EncodeStrings. */
  method BytesNeeded(strs: seq<seq<byte>>) returns (size: nat)
    requires |EncodedTensor(strs)| < U64
    ensures size == |EncodedTensor(strs)| == 8 * |strs| + |Data(strs)|
  {
    hide Data, Table, EncodeString, Fixed64;
    TableLength(strs);
    EmptyTensor();
    size := 0;
    for i := 0 to |strs|
      invariant size == 8 * i + |Data(strs[..i])|
    {
      NextString(strs, i);
      EncodedLength(strs[i]);
      var encodedSize := StringEncodedSize(|strs[i]|);
      size := (size + 8 + encodedSize) % U64;
    }
    assert strs[..|strs|] == strs;
  }

  /** TF_Tensor_EncodeStrings; the two CHECKs are the asserts. */
  method EncodeStrings(strs: seq<seq<byte>>) returns (base: array<byte>)
    requires |EncodedTensor(strs)| < U64
    ensures fresh(base) && base[..] == EncodedTensor(strs)
  {
    hide Data, Table, EncodeString, Fixed64;
    TableLength(strs);
    EmptyTensor();
    var n := |strs|;
    var size := BytesNeeded(strs);
    assert strs[..n] == strs;
    base := new byte[size](_ => 0);
    var dst := 8 * n;
    for i := 0 to n
      invariant fresh(base) && base.Length == size && dst == 8 * n + |Data(strs[..i])| <= size
      invariant base[..8*i] == Table(strs[..i]) && base[8*n..dst] == Data(strs[..i])
    {
      NextString(strs, i);
      TableLength(strs[..i]);
      FixedLength(dst - 8 * n, 8);
      EncodedLength(strs[i]);
      var encoded := StringEncode(strs[i], size - dst);
      assert encoded.Ok?;
      WriteOffset(base, 8 * i, Fixed64(dst - 8 * n, 8), 8 * n, dst);
      WriteData(base, dst, encoded.value, 8 * (i + 1), 8 * n);
      dst := dst + |encoded.value|;
    }
    assert dst == size;
    assert base[..8*n] + base[8*n..dst] == base[..];
  }

  lemma EmptyTensor()
    ensures Data([]) == [] && Table([]) == []
  {
  }

  lemma EncodedLength(s: seq<byte>)
    ensures |EncodeString(s)| == |Varint(|s|)| + |s|
  {
  }

  method WriteOffset(a: array<byte>, pos: nat, bytes: seq<byte>, lo: nat, hi: nat)
    requires pos + |bytes| <= lo <= hi <= a.Length
    modifies a
    ensures a[..pos+|bytes|] == old(a[..pos]) + bytes && a[lo..hi] == old(a[lo..hi])
  {
    WriteAt(a, pos, bytes);
    assert a[..pos+|bytes|] == a[..][..pos+|bytes|] && a[lo..hi] == a[..][lo..hi];
  }

  method WriteData(a: array<byte>, pos: nat, bytes: seq<byte>, keep: nat, start: nat)
    requires keep <= start <= pos && pos + |bytes| <= a.Length
    modifies a
    ensures a[..keep] == old(a[..keep]) && a[start..pos+|bytes|] == old(a[start..pos]) + bytes
  {
    WriteAt(a, pos, bytes);
    assert a[..keep] == a[..][..keep] && a[start..pos+|bytes|] == a[..][start..pos+|bytes|];
  }

  /** Element `i`: its offset is compared as a signed number. */
  function DecodedElement(src: seq<byte>, n: nat, i: nat): Result<seq<byte>>
    requires i < n && 8 * n <= |src|
  {
    var offset := ReadFixed(src[8*i..8*i+8]) % U64;
    var signed := if offset >= I64 then offset - U64 else offset;
    if signed >= |src| - 8 * n then Malformed
    else if signed < 0 then OutOfBounds
    else DecodedString(src[8*n+signed..])
  }

  /**
   Offsets below the size of the data part lead to a string.  Others are malformed, but for those with the
   highest bit set, which pass the signed comparison and lead outside.
   */
  lemma ElementCases(src: seq<byte>, n: nat, i: nat)
    requires i < n && 8 * n <= |src| < I64
    ensures var offset := ReadFixed(src[8*i..8*i+8]);
            && offset < U64
            && (offset < |src| - 8 * n ==> DecodedElement(src, n, i) == DecodedString(src[8 * n + offset..]))
            && (|src| - 8 * n <= offset < I64 ==> DecodedElement(src, n, i) == Malformed)
            && (I64 <= offset ==> DecodedElement(src, n, i) == OutOfBounds)
  {
    hide DecodedString;
    OffsetFits();
    ReadFixedBound(src[8*i..8*i+8]);
  }

  lemma {:induction false} ReadFixedBound(s: seq<byte>)
    ensures ReadFixed(s) < Pow256(|s|)
  {
    if s != [] {
      ReadFixedBound(s[1..]);
    }
  }

  function DecodedFrom(src: seq<byte>, n: nat, i: nat): Result<seq<seq<byte>>>
    requires i <= n && 8 * n <= |src|
    decreases n - i
  {
    if i == n then Ok([])
    else
      match DecodedElement(src, n, i)
      case Malformed => Malformed
      case OutOfBounds => OutOfBounds
      case Ok(s) =>
        match DecodedFrom(src, n, i + 1)
        case Malformed => Malformed
        case OutOfBounds => OutOfBounds
        case Ok(rest) => Ok([s] + rest)
  }

  /** The same failure. */
  predicate Fails(a: Result<seq<byte>>, r: Result<seq<seq<byte>>>) {
    (a.Malformed? && r.Malformed?) || (a.OutOfBounds? && r.OutOfBounds?)
  }

  /** TF_Tensor_DecodeStrings for a tensor of `n` elements. */
  method DecodeStrings(src: seq<byte>, n: nat) returns (r: Result<seq<seq<byte>>>)
    ensures r == if |src| / 8 < n then Malformed else DecodedFrom(src, n, 0)
    ensures r.Ok? ==> |src| / 8 >= n == |r.value| && forall i :: 0 <= i < n ==> DecodedElement(src, n, i) == Ok(r.value[i])
    ensures !r.Ok? && |src| / 8 >= n ==>
              exists i: nat :: i < n && Fails(DecodedElement(src, n, i), r) && forall j :: 0 <= j < i ==> DecodedElement(src, n, j).Ok?
  {
    hide DecodedString, ReadFixed;
    if |src| / 8 < n {
      return Malformed;
    }
    var strs := [];
    var i := 0;
    PrependNone(DecodedFrom(src, n, 0));
    while i < n
      invariant i <= n
      invariant DecodedFrom(src, n, 0) == Prepend(strs, DecodedFrom(src, n, i))
      invariant |strs| == i && forall j :: 0 <= j < i ==> DecodedElement(src, n, j) == Ok(strs[j])
    {
      var offset := ReadFixed(src[8*i..8*i+8]) % U64;
      var signed := if offset >= I64 then offset - U64 else offset;
      if signed >= |src| - 8 * n {
        return Malformed;
      }
      if signed < 0 {
        return OutOfBounds;
      }
      var s := StringDecode(src[8*n+signed..]);
      if !s.Ok? {
        return if s.Malformed? then Malformed else OutOfBounds;
      }
      assert DecodedFrom(src, n, i) == Prepend([s.value], DecodedFrom(src, n, i + 1));
      PrependMore(strs, s.value, DecodedFrom(src, n, i + 1));
      strs := strs + [s.value];
      i := i + 1;
    }
    assert strs + [] == strs;
    r := Ok(strs);
  }

  function Prepend(strs: seq<seq<byte>>, r: Result<seq<seq<byte>>>): Result<seq<seq<byte>>> {
    match r
    case Ok(rest) => Ok(strs + rest)
    case Malformed => Malformed
    case OutOfBounds => OutOfBounds
  }

  lemma PrependNone(r: Result<seq<seq<byte>>>)
    ensures Prepend([], r) == r
  {
    if r.Ok? {
      assert [] + r.value == r.value;
    }
  }

  lemma PrependMore(strs: seq<seq<byte>>, s: seq<byte>, r: Result<seq<seq<byte>>>)
    ensures Prepend(strs, Prepend([s], r)) == Prepend(strs + [s], r)
  {
    if r.Ok? {
      assert strs + ([s] + r.value) == strs + [s] + r.value;
    }
  }

  // ----- the round trip

  lemma ElementRoundTrip(strs: seq<seq<byte>>, i: nat)
    requires i < |strs| && |EncodedTensor(strs)| < I64
    ensures |EncodedTensor(strs)| >= 8 * |strs|
    ensures DecodedElement(EncodedTensor(strs), |strs|, i) == Ok(strs[i])
  {
    hide Data, Table, Fixed64, ReadFixed, DecodedString, EncodeString;
    var src, n := EncodedTensor(strs), |strs|;
    TableAt(strs, i);
    var offset := |Data(strs[..i])|;
    var rest := DataAt(strs, i);
    assert src[8*i..8*i+8] == Table(strs)[8*i..8*i+8];
    OffsetFits();
    FixedRoundTrip(offset, 8);
    assert |EncodeString(strs[i])| >= 1 + |strs[i]| by { EncodedLength(strs[i]); VarintShape(|strs[i]|, []); }
    assert src[8*n+offset..] == EncodeString(strs[i]) + rest;
    StringRoundTrip(strs[i], rest);
  }

  lemma TensorLength(strs: seq<seq<byte>>)
    ensures |EncodedTensor(strs)| >= 8 * |strs|
  {
    TableLength(strs);
  }

  lemma {:induction false} TensorRoundTripFrom(strs: seq<seq<byte>>, i: nat)
    requires i <= |strs| && |EncodedTensor(strs)| < I64
    ensures |EncodedTensor(strs)| >= 8 * |strs|
    ensures DecodedFrom(EncodedTensor(strs), |strs|, i) == Ok(strs[i..])
    decreases |strs| - i
  {
    hide DecodedElement, EncodedTensor;
    assert |EncodedTensor(strs)| >= 8 * |strs| by { TensorLength(strs); }
    if i < |strs| {
      ElementRoundTrip(strs, i);
      TensorRoundTripFrom(strs, i + 1);
      assert strs[i..] == [strs[i]] + strs[i+1..];
    } else {
      assert strs[i..] == [];
    }
  }

  /**
   Decoding an encoded tensor gives the same strings; no element is reported malformed and no
   read leaves the buffer.
   */
  lemma TensorRoundTrip(strs: seq<seq<byte>>)
    requires |EncodedTensor(strs)| < I64
    ensures |EncodedTensor(strs)| / 8 >= |strs| && DecodedFrom(EncodedTensor(strs), |strs|, 0) == Ok(strs)
  {
    TensorRoundTripFrom(strs, 0);
    assert strs[0..] == strs;
  }
}
