/**
 * What the decoder promises about the reference encoding: every reader
 * gives back the value that was encoded and leaves the cursor right after
 * its encoding; the narrowing readers and `skip` are set against their
 * corrected definitions.
 */
module MsgPackReaderProofs {
  import opened Wrappers
  import opened Bytes
  import opened MsgPackFormat
  import opened MsgPackEncoding
  import opened MsgPackReader

  lemma {:induction false} AtSplit(buf: seq<byte>, pos: nat, a: seq<byte>, b: seq<byte>)
    requires At(buf, pos, a + b)
    ensures At(buf, pos, a) && At(buf, pos + |a|, b)
  {
    assert buf[pos..pos + |a|] == (a + b)[..|a|];
    assert buf[pos + |a|..pos + |a| + |b|] == (a + b)[|a|..];
  }

  lemma {:induction false} UIntAtOf(buf: seq<byte>, pos: nat, v: nat, n: nat)
    requires v < Pow256(n) && At(buf, pos, BytesOf(v, n))
    ensures UIntAt(buf, pos, n) == Decoded(Ok(v), pos + n)
  {
    BigEndianBytesOf(v, n);
  }

  lemma {:induction false} IntAtOf(buf: seq<byte>, pos: nat, v: int, n: nat)
    requires InSigned(v, n) && At(buf, pos, BytesOf(v % Pow256(n), n))
    ensures IntAt(buf, pos, n) == Decoded(Ok(v), pos + n)
  {
    UIntAtOf(buf, pos, v % Pow256(n), n);
    WrapSignedInRange(v, n);
  }

  /** A prefix byte followed by an n-byte big-endian number. */
  lemma {:induction false} PrefixedUInt(buf: seq<byte>, pos: nat, prefix: byte, v: nat, n: nat)
    requires v < Pow256(n) && At(buf, pos, [prefix] + BytesOf(v, n))
    ensures ByteAt(buf, pos) == Decoded(Ok(prefix), pos + 1)
    ensures UIntAt(buf, pos + 1, n) == Decoded(Ok(v), pos + 1 + n)
  {
    AtSplit(buf, pos, [prefix], BytesOf(v, n));
    assert buf[pos..pos + 1] == [prefix];
    UIntAtOf(buf, pos + 1, v, n);
  }

  /** A prefix byte followed by an n-byte two's-complement number. */
  lemma {:induction false} PrefixedInt(buf: seq<byte>, pos: nat, prefix: byte, v: int, n: nat)
    requires InSigned(v, n) && At(buf, pos, [prefix] + BytesOf(v % Pow256(n), n))
    ensures ByteAt(buf, pos) == Decoded(Ok(prefix), pos + 1)
    ensures IntAt(buf, pos + 1, n) == Decoded(Ok(v), pos + 1 + n)
  {
    AtSplit(buf, pos, [prefix], BytesOf(v % Pow256(n), n));
    assert buf[pos..pos + 1] == [prefix];
    IntAtOf(buf, pos + 1, v, n);
  }

  lemma {:induction false} ReadBoolRoundTrip(buf: seq<byte>, pos: nat, b: bool)
    requires At(buf, pos, EncodeBool(b))
    ensures ReadBoolAt(buf, pos) == Decoded(Ok(b), pos + 1)
  {
    assert buf[pos] == EncodeBool(b)[0];
  }

  lemma {:induction false} ReadInt64RoundTrip(buf: seq<byte>, pos: nat, v: int)
    requires IsI64(v) && At(buf, pos, EncodeInt(v))
    ensures ReadInt64At(buf, pos) == Decoded(Ok(v), pos + |EncodeInt(v)|)
  {
    Pow256Values();
    var e := EncodeInt(v);
    assert buf[pos] == e[0];
    if 0 <= v < 0x80 {
    } else if -32 <= v < 0 {
    } else if -0x80 <= v < 0x80 {
      PrefixedInt(buf, pos, INT8, v, 1);
    } else if -0x8000 <= v < 0x8000 {
      PrefixedInt(buf, pos, INT16, v, 2);
    } else if -0x8000_0000 <= v < 0x8000_0000 {
      PrefixedInt(buf, pos, INT32, v, 4);
    } else {
      PrefixedInt(buf, pos, INT64, v, 8);
    }
  }

  lemma {:induction false} ReadUInt64RoundTrip(buf: seq<byte>, pos: nat, v: int)
    requires IsU64(v) && At(buf, pos, EncodeUInt(v))
    ensures ReadUInt64At(buf, pos) == Decoded(Ok(v), pos + |EncodeUInt(v)|)
  {
    Pow256Values();
    var e := EncodeUInt(v);
    assert buf[pos] == e[0];
    if v < 0x80 {
    } else if v < 0x100 {
      PrefixedUInt(buf, pos, UINT8, v, 1);
    } else if v < 0x1_0000 {
      PrefixedUInt(buf, pos, UINT16, v, 2);
    } else if v < 0x1_0000_0000 {
      PrefixedUInt(buf, pos, UINT32, v, 4);
    } else {
      PrefixedUInt(buf, pos, UINT64, v, 8);
    }
  }

  /** A length header written by `header` is read back by `read`. */
  lemma {:induction false} PrefixedLength(buf: seq<byte>, pos: nat, e: seq<byte>, prefix: byte, v: nat, n: nat)
    requires v < Pow256(n) && e == [prefix] + BytesOf(v, n) && At(buf, pos, e)
    ensures ByteAt(buf, pos) == Decoded(Ok(prefix), pos + 1)
    ensures UIntAt(buf, pos + 1, n) == Decoded(Ok(v), pos + |e|)
  {
    PrefixedUInt(buf, pos, prefix, v, n);
  }

  lemma {:induction false} ReadStringLengthRoundTrip(buf: seq<byte>, pos: nat, n: nat)
    requires n <= U32_MAX && At(buf, pos, StringHeader(n))
    ensures ReadStringLengthAt(buf, pos) == Decoded(Ok(n), pos + |StringHeader(n)|)
  {
    Pow256Values();
    var e := StringHeader(n);
    assert buf[pos] == e[0];
    if n < 32 {
      assert Low5(e[0]) == n;
    } else if n < 0x100 {
      PrefixedLength(buf, pos, e, STR8, n, 1);
    } else if n < 0x1_0000 {
      PrefixedLength(buf, pos, e, STR16, n, 2);
    } else {
      PrefixedLength(buf, pos, e, STR32, n, 4);
    }
  }

  lemma {:induction false} ReadStringRoundTrip(buf: seq<byte>, pos: nat, utf8: seq<byte>)
    requires |utf8| <= U32_MAX && At(buf, pos, EncodeString(utf8))
    ensures ReadStringBytesAt(buf, pos) == Decoded(Ok(utf8), pos + |EncodeString(utf8)|)
  {
    var p := pos + |StringHeader(|utf8|)|;
    assert ReadStringLengthAt(buf, pos) == Decoded(Ok(|utf8|), p) by {
      AtSplit(buf, pos, StringHeader(|utf8|), utf8);
      ReadStringLengthRoundTrip(buf, pos, |utf8|);
    }
    assert At(buf, p, utf8) by {
      AtSplit(buf, pos, StringHeader(|utf8|), utf8);
    }
  }

  lemma {:induction false} ReadBinLengthRoundTrip(buf: seq<byte>, pos: nat, n: nat)
    requires 0 < n <= U32_MAX && At(buf, pos, BinHeader(n))
    ensures ReadBytesLengthAt(buf, pos) == Decoded(Ok(n), pos + |BinHeader(n)|)
  {
    Pow256Values();
    var e := BinHeader(n);
    assert buf[pos] == e[0];
    if n < 0x100 {
      PrefixedLength(buf, pos, e, BIN8, n, 1);
    } else if n < 0x1_0000 {
      PrefixedLength(buf, pos, e, BIN16, n, 2);
    } else {
      PrefixedLength(buf, pos, e, BIN32, n, 4);
    }
  }

  lemma {:induction false} ReadBytesRoundTrip(buf: seq<byte>, pos: nat, b: seq<byte>)
    requires |b| <= U32_MAX && At(buf, pos, EncodeBytes(b))
    ensures ReadBytesAt(buf, pos) == Decoded(Ok(b), pos + |EncodeBytes(b)|)
  {
    if b == [] {
      assert buf[pos] == NIL;
      assert buf[pos + 1..pos + 1] == [];
    } else {
      var p := pos + |BinHeader(|b|)|;
      assert ReadBytesLengthAt(buf, pos) == Decoded(Ok(|b|), p) && At(buf, p, b) by {
        AtSplit(buf, pos, BinHeader(|b|), b);
        ReadBinLengthRoundTrip(buf, pos, |b|);
      }
    }
  }

  lemma {:induction false} ReadArrayLengthRoundTrip(buf: seq<byte>, pos: nat, n: nat)
    requires n <= U32_MAX && At(buf, pos, ArrayHeader(n))
    ensures ReadArrayLengthAt(buf, pos) == Decoded(Ok(n), pos + |ArrayHeader(n)|)
  {
    Pow256Values();
    var e := ArrayHeader(n);
    assert buf[pos] == e[0];
    if n < 16 {
      assert Low4(e[0]) == n;
    } else if n < 0x1_0000 {
      PrefixedLength(buf, pos, e, ARRAY16, n, 2);
    } else {
      PrefixedLength(buf, pos, e, ARRAY32, n, 4);
    }
  }

  lemma {:induction false} ReadMapLengthRoundTrip(buf: seq<byte>, pos: nat, n: nat)
    requires n <= U32_MAX && At(buf, pos, MapHeader(n))
    ensures ReadMapLengthAt(buf, pos) == Decoded(Ok(n), pos + |MapHeader(n)|)
  {
    Pow256Values();
    var e := MapHeader(n);
    assert buf[pos] == e[0];
    if n < 16 {
      assert Low4(e[0]) == n;
    } else if n < 0x1_0000 {
      PrefixedLength(buf, pos, e, MAP16, n, 2);
    } else {
      PrefixedLength(buf, pos, e, MAP32, n, 4);
    }
  }

  /** A nil is read as no value by every nullable reader. */
  lemma {:induction false} ReadNullableOfNil<T>(buf: seq<byte>, pos: nat, fn: Reader<T>)
    requires At(buf, pos, EncodeNil())
    ensures ReadNullableAt(buf, pos, fn) == Decoded(Ok(None), pos + 1)
  {
    assert buf[pos] == NIL;
  }

  lemma {:induction false} AtConcat(buf: seq<byte>, pos: nat, encs: seq<seq<byte>>)
    requires encs != [] && At(buf, pos, Concat(encs))
    ensures At(buf, pos, encs[0]) && At(buf, pos + |encs[0]|, Concat(encs[1..]))
    ensures |Concat(encs)| == |encs[0]| + |Concat(encs[1..])|
  {
    AtSplit(buf, pos, encs[0], Concat(encs[1..]));
  }

  lemma {:induction false} ReadItemsStep<T>(buf: seq<byte>, pos: nat, n: nat, fn: Reader<T>, acc: seq<T>)
    requires n > 0 && fn(buf, pos).result.Ok?
    ensures ReadItemsAt(buf, pos, n, fn, acc) ==
              ReadItemsAt(buf, fn(buf, pos).pos, n - 1, fn, acc + [fn(buf, pos).result.value])
  {
  }

  /** Each encoding, laid out from `pos` on, is read back by `fn` as the matching value. */
  ghost predicate ReadsBack<T>(buf: seq<byte>, pos: nat, fn: Reader<T>, encs: seq<seq<byte>>, vals: seq<T>)
    decreases encs
  {
    |encs| == |vals| &&
    (encs != [] ==>
       fn(buf, pos) == Decoded(Ok(vals[0]), pos + |encs[0]|) &&
       ReadsBack(buf, pos + |encs[0]|, fn, encs[1..], vals[1..]))
  }

  /** Items laid out one after the other are read back in order. */
  lemma {:induction false} ReadItemsOfEncodings<T>(buf: seq<byte>, pos: nat, fn: Reader<T>,
                                                   encs: seq<seq<byte>>, vals: seq<T>, acc: seq<T>)
    requires ReadsBack(buf, pos, fn, encs, vals)
    ensures ReadItemsAt(buf, pos, |vals|, fn, acc) == Decoded(Ok(acc + vals), pos + |Concat(encs)|)
    decreases encs
  {
    if encs == [] {
      assert acc + vals == acc;
    } else {
      var next := pos + |encs[0]|;
      var acc' := acc + [vals[0]];
      assert ReadItemsAt(buf, pos, |vals|, fn, acc) == ReadItemsAt(buf, next, |vals[1..]|, fn, acc') by {
        ReadItemsStep(buf, pos, |vals|, fn, acc);
      }
      ReadItemsOfEncodings(buf, next, fn, encs[1..], vals[1..], acc');
      assert acc' + vals[1..] == acc + vals;
    }
  }

  lemma {:induction false} IntsReadBack(buf: seq<byte>, pos: nat, vs: seq<int>)
    requires AllI64(vs) && At(buf, pos, Concat(IntEncodings(vs)))
    ensures ReadsBack(buf, pos, ReadInt64At, IntEncodings(vs), vs)
    decreases vs
  {
    if vs != [] {
      var encs := IntEncodings(vs);
      assert encs[1..] == IntEncodings(vs[1..]);
      assert At(buf, pos, encs[0]) && At(buf, pos + |encs[0]|, Concat(encs[1..])) by {
        AtConcat(buf, pos, encs);
      }
      ReadInt64RoundTrip(buf, pos, vs[0]);
      IntsReadBack(buf, pos + |encs[0]|, vs[1..]);
    }
  }

  /** An array of integers read with `readInt64` as the item callback. */
  lemma {:induction false} ReadIntArrayRoundTrip(buf: seq<byte>, pos: nat, vs: seq<int>)
    requires AllI64(vs) && |vs| <= U32_MAX
    requires At(buf, pos, ArrayHeader(|vs|) + Concat(IntEncodings(vs)))
    ensures ReadArrayAt(buf, pos, ReadInt64At) ==
              Decoded(Ok(vs), pos + |ArrayHeader(|vs|) + Concat(IntEncodings(vs))|)
  {
    var encs := IntEncodings(vs);
    var next := pos + |ArrayHeader(|vs|)|;
    assert ReadArrayLengthAt(buf, pos) == Decoded(Ok(|vs|), next) && At(buf, next, Concat(encs)) by {
      AtSplit(buf, pos, ArrayHeader(|vs|), Concat(encs));
      ReadArrayLengthRoundTrip(buf, pos, |vs|);
    }
    assert ReadItemsAt(buf, next, |vs|, ReadInt64At, []) == Decoded(Ok([] + vs), next + |Concat(encs)|) by {
      IntsReadBack(buf, next, vs);
      ReadItemsOfEncodings(buf, next, ReadInt64At, encs, vs, []);
    }
    assert [] + vs == vs;
  }

  /** On success, an array has as many items as its header announced. */
  lemma {:induction false} ReadItemsCount<T>(buf: seq<byte>, pos: nat, n: nat, fn: Reader<T>, acc: seq<T>)
    ensures var d := ReadItemsAt(buf, pos, n, fn, acc);
            d.result.Ok? ==> |d.result.value| == |acc| + n && d.result.value[..|acc|] == acc
    decreases n
  {
    if n > 0 {
      var item := fn(buf, pos);
      if item.result.Ok? {
        var acc' := acc + [item.result.value];
        ReadItemsCount(buf, item.pos, n - 1, fn, acc');
        var d := ReadItemsAt(buf, pos, n, fn, acc);
        if d.result.Ok? {
          assert d.result.value[..|acc|] == d.result.value[..|acc'|][..|acc|];
        }
      }
    }
  }

  // ---------------------------------------------------------------------
  // Narrowing: as written and corrected

  /** `readInt8` never reports an overflow: its guard holds for every value. */
  lemma {:induction false} ReadInt8NeverOverflows(buf: seq<byte>, pos: nat)
    ensures ReadInt8At(buf, pos).result.Ok? <==> ReadInt64At(buf, pos).result.Ok?
    ensures ReadInt64At(buf, pos).result.Ok? ==>
              ReadInt8At(buf, pos).result.value == WrapSigned(ReadInt64At(buf, pos).result.value, 1)
  {
  }

  /** 200, encoded as int 16, is read by `readInt8` as -56 instead of an overflow error. */
  lemma {:induction false} ReadInt8OfTwoHundred()
    ensures ReadInt8At([INT16, 0x00, 0xc8], 0) == Decoded(Ok(-56), 3)
  {
    var buf: seq<byte> := [INT16, 0x00, 0xc8];
    assert buf[1..3] == [0x00, 0xc8];
    assert BigEndian([0x00, 0xc8]) == 200 by {
      assert [0x00, 0xc8][..1] == [0x00];
      assert BigEndian([0x00]) == 0 by { assert [0x00][..0] == []; }
    }
    assert ReadInt64At(buf, 0) == Decoded(Ok(200), 3);
    assert WrapSigned(200, 1) == -56;
  }

  /** The corrected `readInt8/16/32`: in range the encoded value, out of range the overflow error. */
  lemma {:induction false} ReadNarrowCheckedRoundTrip(buf: seq<byte>, pos: nat, v: int, n: nat)
    requires IsI64(v) && At(buf, pos, EncodeInt(v))
    ensures NarrowSignedChecked(ReadInt64At(buf, pos), n) ==
              if InSigned(v, n) then Decoded(Ok(v), pos + |EncodeInt(v)|)
              else Fail(IntegerOverflow(v, 8 * n), pos + |EncodeInt(v)|)
  {
    ReadInt64RoundTrip(buf, pos, v);
  }

  /** `readUInt8` never reports an overflow either: 256 is read as 0. */
  lemma {:induction false} ReadUInt8OfTwoHundredFiftySix()
    ensures ReadUInt8At([UINT16, 0x01, 0x00], 0) == Decoded(Ok(0), 3)
  {
    var buf: seq<byte> := [UINT16, 0x01, 0x00];
    assert buf[1..3] == [0x01, 0x00];
    assert BigEndian([0x01, 0x00]) == 256 by {
      assert [0x01, 0x00][..1] == [0x01];
      assert BigEndian([0x01]) == 1 by { assert [0x01][..0] == []; }
    }
    assert ReadUInt64At(buf, 0) == Decoded(Ok(256), 3);
  }

  lemma {:induction false} ReadUnsignedNarrowCheckedRoundTrip(buf: seq<byte>, pos: nat, v: int, n: nat)
    requires IsU64(v) && At(buf, pos, EncodeUInt(v))
    ensures NarrowUnsignedChecked(ReadUInt64At(buf, pos), n) ==
              if v < Pow256(n) then Decoded(Ok(v), pos + |EncodeUInt(v)|)
              else Fail(UnsignedIntegerOverflow(v, 8 * n), pos + |EncodeUInt(v)|)
  {
    ReadUInt64RoundTrip(buf, pos, v);
  }

  // ---------------------------------------------------------------------
  // Skipping: as written and corrected

  /** A head is a prefix byte followed by a payload of n bytes that `getSize` discards. */
  lemma {:induction false} GetSizeOfPayload(buf: seq<byte>, pos: nat, e: seq<byte>)
    requires |e| >= 1 && At(buf, pos, e)
    ensures ByteAt(buf, pos) == Decoded(Ok(e[0]), pos + 1)
    ensures DiscardThenNone(buf, pos + 1, |e| - 1) == Decoded(Ok(0), pos + |e|)
  {
    assert buf[pos] == e[0];
  }

  lemma {:induction false} GetSizeOfInt(buf: seq<byte>, pos: nat, v: int)
    requires IsI64(v) && At(buf, pos, EncodeInt(v))
    ensures GetSizeAt(buf, pos) == Decoded(Ok(0), pos + |EncodeInt(v)|)
  {
    GetSizeOfPayload(buf, pos, EncodeInt(v));
  }

  lemma {:induction false} GetSizeOfUInt(buf: seq<byte>, pos: nat, v: int)
    requires IsU64(v) && At(buf, pos, EncodeUInt(v))
    ensures GetSizeAt(buf, pos) == Decoded(Ok(0), pos + |EncodeUInt(v)|)
  {
    GetSizeOfPayload(buf, pos, EncodeUInt(v));
  }

  /** A length of n bytes after the prefix, then that many bytes, all discarded. */
  lemma {:induction false} DiscardSizedOf(buf: seq<byte>, pos: nat, prefix: byte, len: nat, n: nat, payload: seq<byte>)
    requires len < Pow256(n) && len < 0x8000_0000 && |payload| == len
    requires At(buf, pos, [prefix] + BytesOf(len, n) + payload)
    ensures ByteAt(buf, pos) == Decoded(Ok(prefix), pos + 1)
    ensures DiscardSized(buf, pos + 1, n) == Decoded(Ok(0), pos + 1 + n + len)
  {
    AtSplit(buf, pos, [prefix] + BytesOf(len, n), payload);
    PrefixedUInt(buf, pos, prefix, len, n);
    Pow256Values();
    WrapSignedInRange(len, 4);
  }

  lemma {:induction false} GetSizeOfStr(buf: seq<byte>, pos: nat, s: seq<byte>)
    requires |s| < 0x8000_0000 && At(buf, pos, EncodeString(s))
    ensures GetSizeAt(buf, pos) == Decoded(Ok(0), pos + |EncodeString(s)|)
  {
    Pow256Values();
    var n := |s|;
    if n < 32 {
      GetSizeOfPayload(buf, pos, EncodeString(s));
      assert Low5(0xa0 + n) == n;
    } else if n < 0x100 {
      DiscardSizedOf(buf, pos, STR8, n, 1, s);
    } else if n < 0x1_0000 {
      DiscardSizedOf(buf, pos, STR16, n, 2, s);
    } else {
      DiscardSizedOf(buf, pos, STR32, n, 4, s);
    }
  }

  lemma {:induction false} GetSizeOfBin(buf: seq<byte>, pos: nat, b: seq<byte>)
    requires |b| < 0x8000_0000 && At(buf, pos, EncodeBytes(b))
    ensures GetSizeAt(buf, pos) == Decoded(Ok(0), pos + |EncodeBytes(b)|)
  {
    Pow256Values();
    var n := |b|;
    if n == 0 {
      assert buf[pos] == NIL;
    } else if n < 0x100 {
      DiscardSizedOf(buf, pos, BIN8, n, 1, b);
    } else if n < 0x1_0000 {
      DiscardSizedOf(buf, pos, BIN16, n, 2, b);
    } else {
      DiscardSizedOf(buf, pos, BIN32, n, 4, b);
    }
  }

  /** An n-byte count after the prefix, cast to i32 and multiplied by perEntry. */
  lemma {:induction false} CountSizedOf(buf: seq<byte>, pos: nat, prefix: byte, count: nat, n: nat, perEntry: nat)
    requires count < Pow256(n) && perEntry * count < 0x8000_0000 && 1 <= perEntry <= 2
    requires At(buf, pos, [prefix] + BytesOf(count, n))
    ensures ByteAt(buf, pos) == Decoded(Ok(prefix), pos + 1)
    ensures CountSized(buf, pos + 1, n, perEntry) == Decoded(Ok(perEntry * count), pos + 1 + n)
  {
    PrefixedUInt(buf, pos, prefix, count, n);
    Pow256Values();
    WrapSignedInRange(count, 4);
    WrapSignedInRange(perEntry * count, 4);
  }

  lemma {:induction false} GetSizeOfArrayHeader(buf: seq<byte>, pos: nat, n: nat)
    requires n < 0x8000_0000 && At(buf, pos, ArrayHeader(n))
    ensures GetSizeAt(buf, pos) == Decoded(Ok(n), pos + |ArrayHeader(n)|)
  {
    Pow256Values();
    if n < 16 {
      assert buf[pos] == 0x90 + n;
      assert Low4(0x90 + n) == n;
    } else if n < 0x1_0000 {
      CountSizedOf(buf, pos, ARRAY16, n, 2, 1);
    } else {
      CountSizedOf(buf, pos, ARRAY32, n, 4, 1);
    }
  }

  lemma {:induction false} GetSizeOfMapHeader(buf: seq<byte>, pos: nat, n: nat)
    requires 2 * n < 0x8000_0000 && At(buf, pos, MapHeader(n))
    ensures GetSizeAt(buf, pos) == Decoded(Ok(2 * n), pos + |MapHeader(n)|)
  {
    Pow256Values();
    if n < 16 {
      assert buf[pos] == 0x80 + n;
      assert Low4(0x80 + n) == n;
    } else if n < 0x1_0000 {
      CountSizedOf(buf, pos, MAP16, n, 2, 2);
    } else {
      CountSizedOf(buf, pos, MAP32, n, 4, 2);
    }
  }

  /** `getSize` consumes exactly a value's head and announces its children. */
  lemma {:induction false} GetSizeOfHead(buf: seq<byte>, pos: nat, v: Value)
    requires Valid(v) && At(buf, pos, Head(v))
    ensures GetSizeAt(buf, pos) == Decoded(Ok(|Children(v)|), pos + |Head(v)|)
  {
    match v
    case Nil => assert buf[pos] == NIL;
    case Bool(b) => assert buf[pos] == Head(v)[0];
    case Int(i) => GetSizeOfInt(buf, pos, i);
    case UInt(u) => GetSizeOfUInt(buf, pos, u);
    case Float32(bits) => GetSizeOfPayload(buf, pos, Head(v));
    case Float64(bits) => GetSizeOfPayload(buf, pos, Head(v));
    case Str(s) => GetSizeOfStr(buf, pos, s);
    case Bin(b) => GetSizeOfBin(buf, pos, b);
    case Array(items) => GetSizeOfArrayHeader(buf, pos, |items|);
    case Map(kvs) => GetSizeOfMapHeader(buf, pos, |kvs| / 2);
  }

  /** The corrected skip passes over whole values, however deeply they nest. */
  lemma {:induction false} SkipValuesOfEncoding(buf: seq<byte>, pos: nat, vs: seq<Value>)
    requires ValidSeq(vs) && At(buf, pos, EncodeSeq(vs))
    ensures SkipValuesAt(buf, pos, |vs|) == Decoded(Ok(()), pos + |EncodeSeq(vs)|)
    decreases |EncodeSeq(vs)|
  {
    if vs == [] {
      assert EncodeSeq(vs) == [];
    } else {
      var v := vs[0];
      var rest := Children(v) + vs[1..];
      var next := pos + |Head(v)|;
      EncodeSeqCons(vs);
      AtSplit(buf, pos, Head(v), EncodeSeq(rest));
      GetSizeOfHead(buf, pos, v);
      SkipStep(buf, pos, |vs|, |Children(v)|, next);
      assert SkipValuesAt(buf, pos, |vs|) == SkipValuesAt(buf, next, |rest|);
      SkipValuesOfEncoding(buf, next, rest);
      assert |EncodeSeq(vs)| == |Head(v)| + |EncodeSeq(rest)|;
    }
  }

  /** The first value's head, then its children and the remaining values. */
  lemma {:induction false} EncodeSeqCons(vs: seq<Value>)
    requires vs != [] && ValidSeq(vs)
    ensures Valid(vs[0]) && ValidSeq(Children(vs[0]) + vs[1..])
    ensures EncodeSeq(vs) == Head(vs[0]) + EncodeSeq(Children(vs[0]) + vs[1..])
    ensures |Head(vs[0])| >= 1 && |vs| - 1 + |Children(vs[0])| == |Children(vs[0]) + vs[1..]|
  {
    var v, c, r := vs[0], Children(vs[0]), vs[1..];
    assert Valid(v) && ValidSeq(r);
    assert EncodeSeq(vs) == Encode(v) + EncodeSeq(r);
    assert ValidSeq(c) && Encode(v) == Head(v) + EncodeSeq(c) by {
      EncodeIsHeadAndChildren(v);
    }
    assert ValidSeq(c + r) && EncodeSeq(c + r) == EncodeSeq(c) + EncodeSeq(r) by {
      EncodeSeqAppend(c, r);
    }
    BytesAssoc(Head(v), EncodeSeq(c), EncodeSeq(r));
    HeadNonEmpty(v);
  }

  lemma BytesAssoc(a: seq<byte>, b: seq<byte>, c: seq<byte>)
    ensures (a + b) + c == a + (b + c)
  {
  }

  lemma {:induction false} SkipStep(buf: seq<byte>, pos: nat, pending: nat, count: nat, next: nat)
    requires pending > 0 && GetSizeAt(buf, pos) == Decoded(Ok(count), next)
    ensures SkipValuesAt(buf, pos, pending) == SkipValuesAt(buf, next, pending - 1 + count)
  {
  }

  lemma {:induction false} SkipValueOfEncoding(buf: seq<byte>, pos: nat, v: Value)
    requires Valid(v) && At(buf, pos, Encode(v))
    ensures SkipValuesAt(buf, pos, 1) == Decoded(Ok(()), pos + |Encode(v)|)
  {
    assert EncodeSeq([v]) == Encode(v) + EncodeSeq([]);
    SkipValuesOfEncoding(buf, pos, [v]);
  }

  /**
   * `skip` as written on [[1, 2]]: the outer header announces one object,
   * the inner header is that object, and its two items are left unread.
   */
  lemma {:induction false} SkipOfNestedArray()
    ensures Encode(Array([Array([Int(1), Int(2)])])) == [0x91, 0x92, 0x01, 0x02]
    ensures SkipAt([0x91, 0x92, 0x01, 0x02], 0) == Decoded(Ok(()), 2)
    ensures SkipValuesAt([0x91, 0x92, 0x01, 0x02], 0, 1) == Decoded(Ok(()), 4)
  {
    var buf: seq<byte> := [0x91, 0x92, 0x01, 0x02];
    assert GetSizeAt(buf, 0) == Decoded(Ok(1), 1);
    assert GetSizeAt(buf, 1) == Decoded(Ok(2), 2);
    assert GetSizeAt(buf, 2) == Decoded(Ok(0), 3);
    assert GetSizeAt(buf, 3) == Decoded(Ok(0), 4);
    assert DiscardObjectsAt(buf, 2, 0) == Decoded(Ok(()), 2);
    assert SkipValuesAt(buf, 4, 0) == Decoded(Ok(()), 4);
    assert SkipValuesAt(buf, 3, 1) == Decoded(Ok(()), 4);
    assert SkipValuesAt(buf, 2, 2) == Decoded(Ok(()), 4);
    assert SkipValuesAt(buf, 1, 1) == Decoded(Ok(()), 4);
  }
}
