/**
 * The prefix bytes of the MessagePack format specification ("int", "str",
 * "bin", "array", "map", "nil", "bool", "float" and "ext" families) and
 * the fixed-width integer arithmetic the decoder relies on: big-endian
 * unsigned reads, two's-complement reinterpretation and truncating casts.
 */
module MsgPackFormat {
  import opened Bytes

  const NIL: byte := 0xc0
  const FALSE: byte := 0xc2
  const TRUE: byte := 0xc3
  const BIN8: byte := 0xc4
  const BIN16: byte := 0xc5
  const BIN32: byte := 0xc6
  const FLOAT32: byte := 0xca
  const FLOAT64: byte := 0xcb
  const UINT8: byte := 0xcc
  const UINT16: byte := 0xcd
  const UINT32: byte := 0xce
  const UINT64: byte := 0xcf
  const INT8: byte := 0xd0
  const INT16: byte := 0xd1
  const INT32: byte := 0xd2
  const INT64: byte := 0xd3
  const FIXEXT1: byte := 0xd4
  const FIXEXT2: byte := 0xd5
  const FIXEXT4: byte := 0xd6
  const FIXEXT8: byte := 0xd7
  const FIXEXT16: byte := 0xd8
  const STR8: byte := 0xd9
  const STR16: byte := 0xda
  const STR32: byte := 0xdb
  const ARRAY16: byte := 0xdc
  const ARRAY32: byte := 0xdd
  const MAP16: byte := 0xde
  const MAP32: byte := 0xdf

  /** positive fixint 0xxxxxxx */
  predicate IsFixedInt(b: byte) { b < 0x80 }
  /** negative fixint 111xxxxx */
  predicate IsNegativeFixedInt(b: byte) { b >= 0xe0 }
  /** fixmap 1000xxxx */
  predicate IsFixedMap(b: byte) { 0x80 <= b < 0x90 }
  /** fixarray 1001xxxx */
  predicate IsFixedArray(b: byte) { 0x90 <= b < 0xa0 }
  /** fixstr 101xxxxx */
  predicate IsFixedString(b: byte) { 0xa0 <= b < 0xc0 }

  /** `b & 0x1f` */
  function Low5(b: byte): nat { b % 32 }
  /** `b & 0x0f` (FOUR_LEAST_SIG_BITS_IN_BYTE) */
  function Low4(b: byte): nat { b % 16 }

  function Pow256(n: nat): (r: nat)
    ensures r >= 1
  {
    if n == 0 then 1 else 256 * Pow256(n - 1)
  }

  /** The unsigned value of n bytes, most significant first. */
  function BigEndian(s: seq<byte>): nat
  {
    if s == [] then 0 else BigEndian(s[..|s| - 1]) * 256 + s[|s| - 1]
  }

  lemma {:induction false} BigEndianBound(s: seq<byte>)
    ensures BigEndian(s) < Pow256(|s|)
  {
    if s != [] {
      BigEndianBound(s[..|s| - 1]);
    }
  }

  /** The n big-endian bytes of v. */
  function BytesOf(v: nat, n: nat): (s: seq<byte>)
    ensures |s| == n
  {
    if n == 0 then [] else BytesOf(v / 256, n - 1) + [v % 256]
  }

  lemma {:induction false} BigEndianSnoc(h: seq<byte>, b: byte)
    ensures BigEndian(h + [b]) == BigEndian(h) * 256 + b
  {
    assert (h + [b])[..|h|] == h;
  }

  lemma {:induction false} BigEndianBytesOf(v: nat, n: nat)
    requires v < Pow256(n)
    ensures BigEndian(BytesOf(v, n)) == v
  {
    if n > 0 {
      BigEndianBytesOf(v / 256, n - 1);
      BigEndianSnoc(BytesOf(v / 256, n - 1), v % 256);
    }
  }

  /** Reinterprets an n-byte unsigned value as two's complement. */
  function ToSigned(u: nat, n: nat): int
  {
    if 2 * u >= Pow256(n) then u - Pow256(n) else u
  }

  /** A truncating cast to a signed n-byte integer (`<i8>`, `<i16>`, `<i32>`). */
  function WrapSigned(v: int, n: nat): int
  {
    ToSigned(v % Pow256(n), n)
  }

  /** A truncating cast to an unsigned n-byte integer (`<u8>`, `<u16>`, `<u32>`). */
  function WrapUnsigned(v: int, n: nat): nat
  {
    v % Pow256(n)
  }

  predicate InSigned(v: int, n: nat) { -(Pow256(n) as int) <= 2 * v < Pow256(n) }

  lemma {:induction false} ModSmall(v: int, p: int)
    requires 0 <= v < p
    ensures v % p == v
  {
  }

  lemma {:induction false} ModSmallNegative(v: int, p: int)
    requires -p <= v < 0
    ensures v % p == v + p
  {
  }

  lemma {:induction false} WrapSignedInRange(v: int, n: nat)
    ensures InSigned(WrapSigned(v, n), n)
    ensures InSigned(v, n) ==> WrapSigned(v, n) == v
  {
    var p: int := Pow256(n);
    if InSigned(v, n) {
      if v >= 0 {
        ModSmall(v, p);
      } else {
        ModSmallNegative(v, p);
      }
    }
  }

  lemma {:induction false} Pow256Values()
    ensures Pow256(1) == 0x100 && Pow256(2) == 0x1_0000 && Pow256(4) == 0x1_0000_0000
    ensures Pow256(8) == 0x1_0000_0000_0000_0000
  {
    assert Pow256(2) == 256 * Pow256(1);
    assert Pow256(4) == 256 * 256 * Pow256(2);
    assert Pow256(8) == 256 * 256 * 256 * 256 * Pow256(4);
  }
}
