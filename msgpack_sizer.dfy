/**
 * The MessagePack sizer of the AssemblyScript runtime (`WriteSizer`): it
 * walks a value as the encoder would and only counts the bytes the
 * encoder is to write, so the caller can allocate the buffer first.
 * The size functions below give each write's contribution; the class
 * adds them to its `length` field; the lemmas set them against the
 * reference encoding.
 */
module MsgPackSizer {
  import opened Wrappers
  import opened Bytes
  import opened MsgPackFormat
  import opened MsgPackEncoding

  /** `writeInt64`: fixint, int 8, 16, 32 or 64. */
  function IntSize(v: int): (r: nat)
    ensures 1 <= r <= 9
  {
    if -32 <= v < 0x80 then 1
    else if -0x80 <= v < 0x80 then 2
    else if -0x8000 <= v < 0x8000 then 3
    else if -0x8000_0000 <= v < 0x8000_0000 then 5
    else 9
  }

  /** `writeUInt64`: fixint, uint 8, 16, 32 or 64. */
  function UIntSize(v: nat): (r: nat)
    ensures 1 <= r <= 9
  {
    if v < 0x80 then 1
    else if v < 0x100 then 2
    else if v < 0x1_0000 then 3
    else if v < 0x1_0000_0000 then 5
    else 9
  }

  /** `writeStringLength`: fixstr, str 8, 16 or 32 header. */
  function StringLengthSize(n: nat): (r: nat)
    ensures 1 <= r <= 5
  {
    if n < 32 then 1 else if n <= 0xff then 2 else if n <= 0xffff then 3 else 5
  }

  /** `writeString`: the header and the UTF-8 bytes. */
  function StringSize(utf8: seq<byte>): nat
  {
    StringLengthSize(|utf8|) + |utf8|
  }

  /** `writeBytesLength`: bin 8, 16 or 32 header. */
  function BytesLengthSize(n: nat): (r: nat)
    ensures 2 <= r <= 5
  {
    if n <= 0xff then 2 else if n <= 0xffff then 3 else 5
  }

  /** `writeBytes` as written: nil for no bytes, else header, bytes and one byte more. */
  function BytesSize(n: nat): (r: nat)
    ensures r >= 1 && (n > 0 ==> r > n)
  {
    if n == 0 then 1 else BytesLengthSize(n) + n + 1
  }

  /** `writeArrayLength`: fixarray, array 16 or 32 header. */
  function ArrayLengthSize(n: nat): (r: nat)
    ensures 1 <= r <= 5
  {
    if n < 16 then 1 else if n <= 0xffff then 3 else 5
  }

  /** `writeMapLength`: fixmap, map 16 or 32 header. */
  function MapLengthSize(n: nat): (r: nat)
    ensures 1 <= r <= 5
  {
    if n < 16 then 1 else if n <= 0xffff then 3 else 5
  }

  /** What the item callback adds for each item, in order. */
  function SumSizes<T>(items: seq<T>, size: T -> nat): nat
  {
    if items == [] then 0 else SumSizes(items[..|items| - 1], size) + size(items[|items| - 1])
  }

  /** `writeArray`: the header, then each item through its callback. */
  function ArraySize<T>(a: seq<T>, size: T -> nat): nat
  {
    ArrayLengthSize(|a|) + SumSizes(a, size)
  }

  function EntrySizes<K, V>(entries: seq<(K, V)>, keySize: K -> nat, valueSize: V -> nat): nat
  {
    if entries == [] then 0
    else
      var e := entries[|entries| - 1];
      EntrySizes(entries[..|entries| - 1], keySize, valueSize) + keySize(e.0) + valueSize(e.1)
  }

  /** `writeMap`: the header, then each key and its value through their callbacks. */
  function MapSize<K, V>(entries: seq<(K, V)>, keySize: K -> nat, valueSize: V -> nat): nat
  {
    MapLengthSize(|entries|) + EntrySizes(entries, keySize, valueSize)
  }

  /** `writeNullable...`: a nil byte when absent. */
  function NullableSize<T>(o: Option<T>, size: T -> nat): nat
  {
    match o
    case None => 1
    case Some(v) => size(v)
  }

  /** The size `writeBytes` evidently intends: the length of the bin (or nil) encoding. */
  function BytesSizeCorrected(n: nat): (r: nat)
    ensures r >= 1 && (n > 0 ==> r > n)
  {
    if n == 0 then 1 else BytesLengthSize(n) + n
  }

  /** Each integer write counts exactly the bytes of the shortest signed encoding. */
  lemma {:induction false} IntSizeIsEncodingLength(v: int)
    requires IsI64(v)
    ensures IntSize(v) == |EncodeInt(v)|
  {
  }

  lemma {:induction false} UIntSizeIsEncodingLength(v: nat)
    requires IsU64(v)
    ensures UIntSize(v) == |EncodeUInt(v)|
  {
  }

  /** Header sizes are the lengths of the headers the encoder writes. */
  lemma {:induction false} HeaderSizesAreHeaderLengths(n: nat)
    requires n <= U32_MAX
    ensures StringLengthSize(n) == |StringHeader(n)|
    ensures BytesLengthSize(n) == |BinHeader(n)|
    ensures ArrayLengthSize(n) == |ArrayHeader(n)|
    ensures MapLengthSize(n) == |MapHeader(n)|
  {
  }

  lemma {:induction false} StringSizeIsEncodingLength(utf8: seq<byte>)
    requires |utf8| <= U32_MAX
    ensures StringSize(utf8) == |EncodeString(utf8)|
  {
    HeaderSizesAreHeaderLengths(|utf8|);
  }

  /** As written, `writeBytes` counts one byte more than the encoding of any non-empty byte string. */
  lemma {:induction false} BytesSizeOvercounts(b: seq<byte>)
    requires |b| <= U32_MAX
    ensures b == [] ==> BytesSize(|b|) == |EncodeBytes(b)|
    ensures b != [] ==> BytesSize(|b|) == |EncodeBytes(b)| + 1
  {
    HeaderSizesAreHeaderLengths(|b|);
  }

  /** The corrected count is exactly the length of the encoding. */
  lemma {:induction false} BytesSizeCorrectedIsEncodingLength(b: seq<byte>)
    requires |b| <= U32_MAX
    ensures BytesSizeCorrected(|b|) == |EncodeBytes(b)|
  {
    HeaderSizesAreHeaderLengths(|b|);
  }

  /** The item sizes, summed from the front. */
  lemma {:induction false} SumSizesCons<T>(items: seq<T>, size: T -> nat)
    requires items != []
    ensures SumSizes(items, size) == size(items[0]) + SumSizes(items[1..], size)
    decreases |items|
  {
    if |items| > 1 {
      var init := items[..|items| - 1];
      assert init[0] == items[0];
      assert init[1..] == items[1..][..|items[1..]| - 1];
      SumSizesCons(init, size);
    } else {
      assert items[1..] == [];
    }
  }

  /** An integer array's items count exactly the bytes of their encodings. */
  lemma {:induction false} SumIntSizes(vs: seq<int>)
    requires AllI64(vs)
    ensures SumSizes(vs, IntSize) == |Concat(IntEncodings(vs))|
    decreases |vs|
  {
    if vs != [] {
      SumSizesCons(vs, IntSize);
      assert IntEncodings(vs)[1..] == IntEncodings(vs[1..]);
      SumIntSizes(vs[1..]);
    }
  }

  /** Sizing an integer array gives the length of its encoding, header included. */
  lemma {:induction false} ArraySizeOfInts(vs: seq<int>)
    requires AllI64(vs) && |vs| <= U32_MAX
    ensures ArraySize(vs, IntSize) == |ArrayHeader(|vs|) + Concat(IntEncodings(vs))|
  {
    HeaderSizesAreHeaderLengths(|vs|);
    SumIntSizes(vs);
  }

  /**
   * What the sizer counts for a whole document when each node goes through
   * its `write...` call and each container's items through `writeArray`'s
   * callback (`writeBytes` as written).
   */
  function ValueSize(v: Value): nat
    decreases v, 1
  {
    match v
    case Nil => 1
    case Bool(_) => 1
    case Int(i) => IntSize(i)
    case UInt(u) => if u < 0 then 0 else UIntSize(u)  // no u64 is negative: such a node is not `Valid`
    case Float32(_) => 5
    case Float64(_) => 9
    case Str(s) => StringSize(s)
    case Bin(b) => BytesSize(|b|)
    case Array(items) => ArrayLengthSize(|items|) + ValuesSize(items)
    case Map(kvs) => MapLengthSize(|kvs| / 2) + ValuesSize(kvs)
  }

  function ValuesSize(vs: seq<Value>): nat
    decreases vs, 0
  {
    if vs == [] then 0 else ValueSize(vs[0]) + ValuesSize(vs[1..])
  }

  /** The non-empty byte strings anywhere in a document: each is counted one byte too many. */
  function NonEmptyBins(v: Value): nat
    decreases v, 1
  {
    match v
    case Bin(b) => if b == [] then 0 else 1
    case Array(items) => NonEmptyBinsIn(items)
    case Map(kvs) => NonEmptyBinsIn(kvs)
    case _ => 0
  }

  function NonEmptyBinsIn(vs: seq<Value>): nat
    decreases vs, 0
  {
    if vs == [] then 0 else NonEmptyBins(vs[0]) + NonEmptyBinsIn(vs[1..])
  }

  /**
   * Sizing a document counts exactly the length of its encoding, plus one
   * byte for every non-empty byte string in it: without byte strings the
   * sizer is exact at any depth.
   */
  lemma {:induction false} ValueSizeIsEncodingLength(v: Value)
    requires Valid(v)
    ensures ValueSize(v) == |Encode(v)| + NonEmptyBins(v)
    decreases v, 1
  {
    match v
    case Int(i) => IntSizeIsEncodingLength(i);
    case UInt(u) => UIntSizeIsEncodingLength(u);
    case Str(s) => StringSizeIsEncodingLength(s);
    case Bin(b) => BytesSizeOvercounts(b);
    case Array(items) =>
      HeaderSizesAreHeaderLengths(|items|);
      ValuesSizeIsEncodingLength(items);
    case Map(kvs) =>
      HeaderSizesAreHeaderLengths(|kvs| / 2);
      ValuesSizeIsEncodingLength(kvs);
    case _ =>
  }

  lemma {:induction false} ValuesSizeIsEncodingLength(vs: seq<Value>)
    requires ValidSeq(vs)
    ensures ValuesSize(vs) == |EncodeSeq(vs)| + NonEmptyBinsIn(vs)
    decreases vs, 0
  {
    if vs != [] {
      ValueSizeIsEncodingLength(vs[0]);
      ValuesSizeIsEncodingLength(vs[1..]);
    }
  }

  /** `writeArray` with the document sizer as its item callback counts what `ValueSize` does for the array. */
  lemma {:induction false} ArraySizeOfValues(items: seq<Value>)
    ensures ArraySize(items, ValueSize) == ValueSize(Array(items))
  {
    SumSizesIsValuesSize(items);
  }

  lemma {:induction false} SumSizesIsValuesSize(vs: seq<Value>)
    ensures SumSizes(vs, ValueSize) == ValuesSize(vs)
    decreases |vs|
  {
    if vs != [] {
      SumSizesCons(vs, ValueSize);
      SumSizesIsValuesSize(vs[1..]);
    }
  }

  class WriteSizer {
    /** the number of bytes counted so far */
    var length: int

    constructor()
      ensures length == 0
    {
      length := 0;
    }

    method WriteNil()
      modifies this
      ensures length == old(length) + 1
    {
      length := length + 1;
    }

    method WriteBool(value: bool)
      modifies this
      ensures length == old(length) + 1
    {
      length := length + 1;
    }

    method WriteInt8(value: int)
      requires -0x80 <= value < 0x80
      modifies this
      ensures length == old(length) + IntSize(value)
    {
      WriteInt64(value);
    }

    method WriteInt16(value: int)
      requires -0x8000 <= value < 0x8000
      modifies this
      ensures length == old(length) + IntSize(value)
    {
      WriteInt64(value);
    }

    method WriteInt32(value: int)
      requires -0x8000_0000 <= value < 0x8000_0000
      modifies this
      ensures length == old(length) + IntSize(value)
    {
      WriteInt64(value);
    }

    method WriteInt64(value: int)
      requires IsI64(value)
      modifies this
      ensures length == old(length) + IntSize(value)
    {
      if value >= -32 && value < 0x80 {
        length := length + 1;
      } else if value < 0x80 && value >= -0x80 {
        length := length + 2;
      } else if value < 0x8000 && value >= -0x8000 {
        length := length + 3;
      } else if value < 0x8000_0000 && value >= -0x8000_0000 {
        length := length + 5;
      } else {
        length := length + 9;
      }
    }

    method WriteUInt8(value: nat)
      requires value < 0x100
      modifies this
      ensures length == old(length) + UIntSize(value)
    {
      WriteUInt64(value);
    }

    method WriteUInt16(value: nat)
      requires value < 0x1_0000
      modifies this
      ensures length == old(length) + UIntSize(value)
    {
      WriteUInt64(value);
    }

    method WriteUInt32(value: nat)
      requires value < 0x1_0000_0000
      modifies this
      ensures length == old(length) + UIntSize(value)
    {
      WriteUInt64(value);
    }

    method WriteUInt64(value: nat)
      requires IsU64(value)
      modifies this
      ensures length == old(length) + UIntSize(value)
    {
      if value < 0x80 {
        length := length + 1;
      } else if value < 0x100 {
        length := length + 2;
      } else if value < 0x1_0000 {
        length := length + 3;
      } else if value < 0x1_0000_0000 {
        length := length + 5;
      } else {
        length := length + 9;
      }
    }

    method WriteFloat32()
      modifies this
      ensures length == old(length) + 5
    {
      length := length + 5;
    }

    method WriteFloat64()
      modifies this
      ensures length == old(length) + 9
    {
      length := length + 9;
    }

    method WriteStringLength(n: nat)
      requires n <= U32_MAX
      modifies this
      ensures length == old(length) + StringLengthSize(n)
    {
      if n < 32 {
        length := length + 1;
      } else if n <= 0xff {
        length := length + 2;
      } else if n <= 0xffff {
        length := length + 3;
      } else {
        length := length + 5;
      }
    }

    /** `writeString`, given the runtime's UTF-8 encoder. */
    method WriteString(value: string, utf8Encode: string -> seq<byte>)
      requires |utf8Encode(value)| <= U32_MAX
      modifies this
      ensures length == old(length) + StringSize(utf8Encode(value))
    {
      var buf := utf8Encode(value);
      WriteStringLength(|buf|);
      length := length + |buf|;
    }

    method WriteBytesLength(n: nat)
      requires n <= U32_MAX
      modifies this
      ensures length == old(length) + BytesLengthSize(n)
    {
      if n <= 0xff {
        length := length + 2;
      } else if n <= 0xffff {
        length := length + 3;
      } else {
        length := length + 5;
      }
    }

    method WriteBytes(value: seq<byte>)
      requires |value| <= U32_MAX
      modifies this
      ensures length == old(length) + BytesSize(|value|)
    {
      if |value| == 0 {
        length := length + 1;
        return;
      }
      WriteBytesLength(|value|);
      length := length + |value| + 1;
    }

    method WriteArrayLength(n: nat)
      requires n <= U32_MAX
      modifies this
      ensures length == old(length) + ArrayLengthSize(n)
    {
      if n < 16 {
        length := length + 1;
      } else if n <= 0xffff {
        length := length + 3;
      } else {
        length := length + 5;
      }
    }

    /** `writeArray`; `fn` gives the number of bytes the item callback counts for an item. */
    method WriteArray<T>(a: seq<T>, fn: T -> nat)
      requires |a| <= U32_MAX
      modifies this
      ensures length == old(length) + ArraySize(a, fn)
    {
      WriteArrayLength(|a|);
      var i := 0;
      while i < |a|
        invariant 0 <= i <= |a|
        invariant length == old(length) + ArrayLengthSize(|a|) + SumSizes(a[..i], fn)
      {
        assert a[..i + 1][..i] == a[..i];
        length := length + fn(a[i]);
        i := i + 1;
      }
      assert a[..|a|] == a;
    }

    method WriteMapLength(n: nat)
      requires n <= U32_MAX
      modifies this
      ensures length == old(length) + MapLengthSize(n)
    {
      if n < 16 {
        length := length + 1;
      } else if n <= 0xffff {
        length := length + 3;
      } else {
        length := length + 5;
      }
    }

    /** `writeMap` over the map's entries in key order; the callbacks give their byte counts. */
    method WriteMap<K, V>(entries: seq<(K, V)>, keyFn: K -> nat, valueFn: V -> nat)
      requires |entries| <= U32_MAX
      modifies this
      ensures length == old(length) + MapSize(entries, keyFn, valueFn)
    {
      WriteMapLength(|entries|);
      var i := 0;
      while i < |entries|
        invariant 0 <= i <= |entries|
        invariant length == old(length) + MapLengthSize(|entries|) + EntrySizes(entries[..i], keyFn, valueFn)
      {
        assert entries[..i + 1][..i] == entries[..i];
        var key := entries[i].0;
        var value := entries[i].1;
        length := length + keyFn(key);
        length := length + valueFn(value);
        i := i + 1;
      }
      assert entries[..|entries|] == entries;
    }

    method WriteNullableBool(value: Option<bool>)
      modifies this
      ensures length == old(length) + NullableSize(value, _ => 1)
    {
      if value.None? {
        WriteNil();
        return;
      }
      WriteBool(value.value);
    }

    method WriteNullableInt8(value: Option<int>)
      requires value.Some? ==> -0x80 <= value.value < 0x80
      modifies this
      ensures length == old(length) + NullableSize(value, IntSize)
    {
      if value.None? {
        WriteNil();
        return;
      }
      WriteInt8(value.value);
    }

    method WriteNullableInt16(value: Option<int>)
      requires value.Some? ==> -0x8000 <= value.value < 0x8000
      modifies this
      ensures length == old(length) + NullableSize(value, IntSize)
    {
      if value.None? {
        WriteNil();
        return;
      }
      WriteInt16(value.value);
    }

    method WriteNullableInt32(value: Option<int>)
      requires value.Some? ==> -0x8000_0000 <= value.value < 0x8000_0000
      modifies this
      ensures length == old(length) + NullableSize(value, IntSize)
    {
      if value.None? {
        WriteNil();
        return;
      }
      WriteInt32(value.value);
    }

    method WriteNullableInt64(value: Option<int>)
      requires value.Some? ==> IsI64(value.value)
      modifies this
      ensures length == old(length) + NullableSize(value, IntSize)
    {
      if value.None? {
        WriteNil();
        return;
      }
      WriteInt64(value.value);
    }

    method WriteNullableUInt8(value: Option<nat>)
      requires value.Some? ==> value.value < 0x100
      modifies this
      ensures length == old(length) + NullableSize(value, UIntSize)
    {
      if value.None? {
        WriteNil();
        return;
      }
      WriteUInt8(value.value);
    }

    method WriteNullableUInt16(value: Option<nat>)
      requires value.Some? ==> value.value < 0x1_0000
      modifies this
      ensures length == old(length) + NullableSize(value, UIntSize)
    {
      if value.None? {
        WriteNil();
        return;
      }
      WriteUInt16(value.value);
    }

    method WriteNullableUInt32(value: Option<nat>)
      requires value.Some? ==> value.value < 0x1_0000_0000
      modifies this
      ensures length == old(length) + NullableSize(value, UIntSize)
    {
      if value.None? {
        WriteNil();
        return;
      }
      WriteUInt32(value.value);
    }

    method WriteNullableUInt64(value: Option<nat>)
      requires value.Some? ==> IsU64(value.value)
      modifies this
      ensures length == old(length) + NullableSize(value, UIntSize)
    {
      if value.None? {
        WriteNil();
        return;
      }
      WriteUInt64(value.value);
    }

    /** `writeNullableFloat32`; the float's value does not affect its size. */
    method WriteNullableFloat32<F>(value: Option<F>)
      modifies this
      ensures length == old(length) + NullableSize(value, _ => 5)
    {
      if value.None? {
        WriteNil();
        return;
      }
      WriteFloat32();
    }

    method WriteNullableFloat64<F>(value: Option<F>)
      modifies this
      ensures length == old(length) + NullableSize(value, _ => 9)
    {
      if value.None? {
        WriteNil();
        return;
      }
      WriteFloat64();
    }

    method WriteNullableString(value: Option<string>, utf8Encode: string -> seq<byte>)
      requires value.Some? ==> |utf8Encode(value.value)| <= U32_MAX
      modifies this
      ensures length == old(length) + NullableSize(value, s => StringSize(utf8Encode(s)))
    {
      if value.None? {
        WriteNil();
        return;
      }
      WriteString(value.value, utf8Encode);
    }

    method WriteNullableBytes(value: Option<seq<byte>>)
      requires value.Some? ==> |value.value| <= U32_MAX
      modifies this
      ensures length == old(length) + NullableSize(value, (b: seq<byte>) => BytesSize(|b|))
    {
      if value.None? {
        WriteNil();
        return;
      }
      WriteBytes(value.value);
    }

    method WriteNullableArray<T>(a: Option<seq<T>>, fn: T -> nat)
      requires a.Some? ==> |a.value| <= U32_MAX
      modifies this
      ensures length == old(length) + NullableSize(a, (items: seq<T>) => ArraySize(items, fn))
    {
      if a.None? {
        WriteNil();
        return;
      }
      WriteArray(a.value, fn);
    }

    method WriteNullableMap<K, V>(m: Option<seq<(K, V)>>, keyFn: K -> nat, valueFn: V -> nat)
      requires m.Some? ==> |m.value| <= U32_MAX
      modifies this
      ensures length == old(length) + NullableSize(m, (entries: seq<(K, V)>) => MapSize(entries, keyFn, valueFn))
    {
      if m.None? {
        WriteNil();
        return;
      }
      WriteMap(m.value, keyFn, valueFn);
    }
  }
}
