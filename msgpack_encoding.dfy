/**
 * A reference MessagePack encoder, written from the format specification:
 * the smallest encoding of every integer, the string / bin / array / map
 * headers, and a tree of values with the encoding of a whole document.
 * It is the partner both of the decoder (reading an encoding gives the
 * value back) and of the sizer (the size it predicts is the encoding's
 * length).
 */
module MsgPackEncoding {
  import opened Bytes
  import opened MsgPackFormat

  const I64_MIN: int := -0x8000_0000_0000_0000
  const I64_MAX: int := 0x7fff_ffff_ffff_ffff
  const U64_MAX: int := 0xffff_ffff_ffff_ffff
  const U32_MAX: int := 0xffff_ffff

  predicate IsI64(v: int) { I64_MIN <= v <= I64_MAX }
  predicate IsU64(v: int) { 0 <= v <= U64_MAX }

  function EncodeNil(): seq<byte> { [NIL] }

  function EncodeBool(b: bool): seq<byte> { [if b then TRUE else FALSE] }

  /** The shortest signed encoding: fixint, negative fixint, int 8/16/32/64. */
  function EncodeInt(v: int): (e: seq<byte>)
    requires IsI64(v)
  {
    if 0 <= v < 0x80 then [v]
    else if -32 <= v < 0 then [v + 0x100]
    else if -0x80 <= v < 0x80 then [INT8] + BytesOf(v % 0x100, 1)
    else if -0x8000 <= v < 0x8000 then [INT16] + BytesOf(v % 0x1_0000, 2)
    else if -0x8000_0000 <= v < 0x8000_0000 then [INT32] + BytesOf(v % 0x1_0000_0000, 4)
    else [INT64] + BytesOf(v % 0x1_0000_0000_0000_0000, 8)
  }

  /** The shortest unsigned encoding: fixint, uint 8/16/32/64. */
  function EncodeUInt(v: int): (e: seq<byte>)
    requires IsU64(v)
  {
    if v < 0x80 then [v]
    else if v < 0x100 then [UINT8] + BytesOf(v, 1)
    else if v < 0x1_0000 then [UINT16] + BytesOf(v, 2)
    else if v < 0x1_0000_0000 then [UINT32] + BytesOf(v, 4)
    else [UINT64] + BytesOf(v, 8)
  }

  function StringHeader(n: nat): seq<byte>
    requires n <= U32_MAX
  {
    if n < 32 then [0xa0 + n]
    else if n < 0x100 then [STR8] + BytesOf(n, 1)
    else if n < 0x1_0000 then [STR16] + BytesOf(n, 2)
    else [STR32] + BytesOf(n, 4)
  }

  function BinHeader(n: nat): seq<byte>
    requires n <= U32_MAX
  {
    if n < 0x100 then [BIN8] + BytesOf(n, 1)
    else if n < 0x1_0000 then [BIN16] + BytesOf(n, 2)
    else [BIN32] + BytesOf(n, 4)
  }

  function ArrayHeader(n: nat): seq<byte>
    requires n <= U32_MAX
  {
    if n < 16 then [0x90 + n]
    else if n < 0x1_0000 then [ARRAY16] + BytesOf(n, 2)
    else [ARRAY32] + BytesOf(n, 4)
  }

  function MapHeader(n: nat): seq<byte>
    requires n <= U32_MAX
  {
    if n < 16 then [0x80 + n]
    else if n < 0x1_0000 then [MAP16] + BytesOf(n, 2)
    else [MAP32] + BytesOf(n, 4)
  }

  function EncodeString(utf8: seq<byte>): seq<byte>
    requires |utf8| <= U32_MAX
  {
    StringHeader(|utf8|) + utf8
  }

  /** Empty byte strings are written as nil, which the decoder reads back as empty. */
  function EncodeBytes(b: seq<byte>): seq<byte>
    requires |b| <= U32_MAX
  {
    if b == [] then [NIL] else BinHeader(|b|) + b
  }

  /**
   * A MessagePack document. A map holds its keys and values alternately,
   * key first, as they appear on the wire.
   */
  datatype Value =
    | Nil
    | Bool(b: bool)
    | Int(i: int)
    | UInt(u: int)
    | Float32(bits32: int)
    | Float64(bits64: int)
    | Str(utf8: seq<byte>)
    | Bin(bytes: seq<byte>)
    | Array(items: seq<Value>)
    | Map(keysAndValues: seq<Value>)

  /**
   * Values whose every number fits its wire format and whose every length
   * fits a signed 32-bit integer (maps: twice their entry count does).
   */
  predicate Valid(v: Value)
  {
    match v
    case Int(i) => IsI64(i)
    case UInt(u) => IsU64(u)
    case Float32(bits) => 0 <= bits < 0x1_0000_0000
    case Float64(bits) => IsU64(bits)
    case Str(s) => |s| < 0x8000_0000
    case Bin(b) => |b| < 0x8000_0000
    case Array(items) => |items| < 0x8000_0000 && ValidSeq(items)
    case Map(kvs) => |kvs| < 0x8000_0000 && |kvs| % 2 == 0 && ValidSeq(kvs)
    case _ => true
  }

  predicate ValidSeq(vs: seq<Value>)
  {
    forall i :: 0 <= i < |vs| ==> Valid(vs[i])
  }

  /** The nested values a container's header announces (none for scalars). */
  function Children(v: Value): seq<Value>
  {
    match v
    case Array(items) => items
    case Map(kvs) => kvs
    case _ => []
  }

  /** Everything of a value's encoding except its children's encodings. */
  function Head(v: Value): seq<byte>
    requires Valid(v)
  {
    match v
    case Nil => EncodeNil()
    case Bool(b) => EncodeBool(b)
    case Int(i) => EncodeInt(i)
    case UInt(u) => EncodeUInt(u)
    case Float32(bits) => [FLOAT32] + BytesOf(bits, 4)
    case Float64(bits) => [FLOAT64] + BytesOf(bits, 8)
    case Str(s) => EncodeString(s)
    case Bin(b) => EncodeBytes(b)
    case Array(items) => ArrayHeader(|items|)
    case Map(kvs) => MapHeader(|kvs| / 2)
  }

  function Encode(v: Value): seq<byte>
    requires Valid(v)
    decreases v, 1
  {
    match v
    case Array(items) => Head(v) + EncodeSeq(items)
    case Map(kvs) => Head(v) + EncodeSeq(kvs)
    case _ => Head(v)
  }

  lemma {:induction false} EncodeIsHeadAndChildren(v: Value)
    requires Valid(v)
    ensures ValidSeq(Children(v))
    ensures Encode(v) == Head(v) + EncodeSeq(Children(v))
  {
  }

  function EncodeSeq(vs: seq<Value>): seq<byte>
    requires ValidSeq(vs)
    decreases vs, 0
  {
    if vs == [] then [] else Encode(vs[0]) + EncodeSeq(vs[1..])
  }

  lemma {:induction false} EncodeSeqAppend(a: seq<Value>, b: seq<Value>)
    requires ValidSeq(a) && ValidSeq(b)
    ensures ValidSeq(a + b)
    ensures EncodeSeq(a + b) == EncodeSeq(a) + EncodeSeq(b)
  {
    if a != [] {
      assert (a + b)[1..] == a[1..] + b;
      EncodeSeqAppend(a[1..], b);
    } else {
      assert a + b == b;
    }
  }

  lemma {:induction false} HeadNonEmpty(v: Value)
    requires Valid(v)
    ensures |Head(v)| >= 1
  {
  }

  /** Encodings written one after the other. */
  function Concat(encs: seq<seq<byte>>): seq<byte>
  {
    if encs == [] then [] else encs[0] + Concat(encs[1..])
  }

  predicate AllI64(vs: seq<int>) { forall i :: 0 <= i < |vs| ==> IsI64(vs[i]) }

  /** The encodings of the items of an integer array. */
  function IntEncodings(vs: seq<int>): (encs: seq<seq<byte>>)
    requires AllI64(vs)
    ensures |encs| == |vs|
  {
    seq(|vs|, i requires 0 <= i < |vs| => EncodeInt(vs[i]))
  }
}
