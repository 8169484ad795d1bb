/**
 * The MessagePack decoder of the AssemblyScript runtime (`ReadDecoder`).
 *
 * Every read is first specified as a function of the buffer and the
 * cursor position (`...At`) returning the decoded value or the error
 * thrown together with the position the cursor had reached at that
 * moment; the class `ReadDecoder` then implements the source's methods
 * over a cursor field and is proved to agree with those functions.
 * The reference encoder of `MsgPackEncoding` is the partner: reading an
 * encoding gives back the encoded value and stops right after it.
 */
module MsgPackReader {
  import opened Wrappers
  import opened Bytes
  import opened Strings
  import opened MsgPackFormat
  import opened MsgPackEncoding

  /** The AssemblyScript runtime's `E_INVALIDLENGTH` message. */
  const E_INVALIDLENGTH: string := "Invalid length"

  datatype DecodeError =
    /** the buffer view refuses to read or skip past its end (a RangeError) */
    | OutOfBuffer
    /** Error "bad value for bool" */
    | BadBool
    /** Error "interger overflow: value = <value>; bits = <bits>" */
    | IntegerOverflow(value: int, bits: int)
    /** Error "unsigned interger overflow: value = <value>; bits = <bits>" */
    | UnsignedIntegerOverflow(value: int, bits: int)
    /** Error "bad prefix for int" */
    | BadIntPrefix
    /** Error "bad prefix for unsigned int" */
    | BadUIntPrefix
    /** Error "bad prefix" */
    | BadPrefix
    /** RangeError E_INVALIDLENGTH + suffix */
    | InvalidLength(suffix: string)
    /** TypeError "invalid prefix, bad encoding for val: <lead>" */
    | InvalidPrefix(lead: byte)

  /** The outcome of a read: the value or the error, and where the cursor stopped. */
  datatype Decoded<T> = Decoded(result: Result<T, DecodeError>, pos: nat)

  /** A callback that reads one item from the decoder (`fn: (reader: Read) => T`). */
  type Reader<T> = (seq<byte>, nat) -> Decoded<T>

  function Fail<T>(e: DecodeError, pos: nat): Decoded<T>
  {
    Decoded(Err(e), pos)
  }

  /** Re-types a failed read. */
  function Propagate<A, B>(d: Decoded<A>): Decoded<B>
    requires d.result.Err?
  {
    Decoded(Err(d.result.error), d.pos)
  }

  function MapDecoded<A, B>(d: Decoded<A>, f: A -> B): Decoded<B>
  {
    if d.result.Err? then Propagate(d) else Decoded(Ok(f(d.result.value)), d.pos)
  }

  /** The bytes of `e` are found in `buf` from `pos` on. */
  predicate At(buf: seq<byte>, pos: nat, e: seq<byte>)
  {
    pos + |e| <= |buf| && buf[pos..pos + |e|] == e
  }

  // ---------------------------------------------------------------------
  // The buffer view

  /** `getUint8` */
  function ByteAt(buf: seq<byte>, pos: nat): Decoded<byte>
  {
    if pos < |buf| then Decoded(Ok(buf[pos]), pos + 1) else Fail(OutOfBuffer, pos)
  }

  /** `peekUint8`: the next byte, without moving the cursor. */
  function PeekAt(buf: seq<byte>, pos: nat): Decoded<byte>
  {
    if pos < |buf| then Decoded(Ok(buf[pos]), pos) else Fail(OutOfBuffer, pos)
  }

  /** `getUint16`, `getUint32`, `getUint64` (n = 2, 4, 8): big-endian. */
  function UIntAt(buf: seq<byte>, pos: nat, n: nat): Decoded<nat>
  {
    if pos + n <= |buf| then Decoded(Ok(BigEndian(buf[pos..pos + n])), pos + n)
    else Fail(OutOfBuffer, pos)
  }

  /** `getInt8` ... `getInt64`: big-endian two's complement. */
  function IntAt(buf: seq<byte>, pos: nat, n: nat): Decoded<int>
  {
    var u := UIntAt(buf, pos, n);
    if u.result.Err? then Propagate(u) else Decoded(Ok(ToSigned(u.result.value, n)), u.pos)
  }

  /** `getBytes(n)`: a copy of the next n bytes. */
  function BytesAt(buf: seq<byte>, pos: nat, n: nat): Decoded<seq<byte>>
  {
    if pos + n <= |buf| then Decoded(Ok(buf[pos..pos + n]), pos + n) else Fail(OutOfBuffer, pos)
  }

  /** `discard(n)`: moves the cursor n bytes on. */
  function DiscardAt(buf: seq<byte>, pos: nat, n: int): Decoded<()>
  {
    if 0 <= n && pos + n <= |buf| then Decoded(Ok(()), pos + n) else Fail(OutOfBuffer, pos)
  }

  // ---------------------------------------------------------------------
  // Scalars

  function ReadBoolAt(buf: seq<byte>, pos: nat): Decoded<bool>
  {
    var b := ByteAt(buf, pos);
    if b.result.Err? then Propagate(b)
    else if b.result.value == TRUE then Decoded(Ok(true), b.pos)
    else if b.result.value == FALSE then Decoded(Ok(false), b.pos)
    else Fail(BadBool, b.pos)
  }

  function ReadInt64At(buf: seq<byte>, pos: nat): Decoded<int>
  {
    var p := ByteAt(buf, pos);
    if p.result.Err? then Propagate(p)
    else
      var prefix := p.result.value;
      if IsFixedInt(prefix) then Decoded(Ok(prefix), p.pos)
      else if IsNegativeFixedInt(prefix) then Decoded(Ok(prefix - 0x100), p.pos)
      else if prefix == INT8 then IntAt(buf, p.pos, 1)
      else if prefix == INT16 then IntAt(buf, p.pos, 2)
      else if prefix == INT32 then IntAt(buf, p.pos, 4)
      else if prefix == INT64 then IntAt(buf, p.pos, 8)
      else Fail(BadIntPrefix, p.pos)
  }

  function ReadUInt64At(buf: seq<byte>, pos: nat): Decoded<nat>
  {
    var p := ByteAt(buf, pos);
    if p.result.Err? then Propagate(p)
    else
      var prefix := p.result.value;
      if IsFixedInt(prefix) then Decoded(Ok(prefix), p.pos)
      else if IsNegativeFixedInt(prefix) then Fail(BadPrefix, p.pos)
      else if prefix == UINT8 then UIntAt(buf, p.pos, 1)
      else if prefix == UINT16 then UIntAt(buf, p.pos, 2)
      else if prefix == UINT32 then UIntAt(buf, p.pos, 4)
      else if prefix == UINT64 then UIntAt(buf, p.pos, 8)
      else Fail(BadUIntPrefix, p.pos)
  }

  /**
   * `readInt8/16/32` as written: the guard `value <= MAX || value >= MIN`
   * holds for every value, so the overflow error is never thrown and the
   * value is truncated to `bits` = 8 * n bits.
   */
  function NarrowSigned(d: Decoded<int>, n: nat, min: int, max: int): Decoded<int>
  {
    if d.result.Err? then d
    else
      var v := d.result.value;
      if v <= max || v >= min then Decoded(Ok(WrapSigned(v, n)), d.pos)
      else Fail(IntegerOverflow(v, 8 * n), d.pos)
  }

  /** `readUInt8/16/32` as written: `value <= MAX || value >= 0` always holds. */
  function NarrowUnsigned(d: Decoded<nat>, n: nat, max: int): Decoded<nat>
  {
    if d.result.Err? then d
    else
      var v := d.result.value;
      if v <= max || v >= 0 then Decoded(Ok(WrapUnsigned(v, n)), d.pos)
      else Fail(UnsignedIntegerOverflow(v, 8 * n), d.pos)
  }

  function ReadInt8At(buf: seq<byte>, pos: nat): Decoded<int> { NarrowSigned(ReadInt64At(buf, pos), 1, -0x80, 0x7f) }
  function ReadInt16At(buf: seq<byte>, pos: nat): Decoded<int> { NarrowSigned(ReadInt64At(buf, pos), 2, -0x8000, 0x7fff) }
  function ReadInt32At(buf: seq<byte>, pos: nat): Decoded<int> { NarrowSigned(ReadInt64At(buf, pos), 4, -0x8000_0000, 0x7fff_ffff) }
  function ReadUInt8At(buf: seq<byte>, pos: nat): Decoded<nat> { NarrowUnsigned(ReadUInt64At(buf, pos), 1, 0xff) }
  function ReadUInt16At(buf: seq<byte>, pos: nat): Decoded<nat> { NarrowUnsigned(ReadUInt64At(buf, pos), 2, 0xffff) }
  function ReadUInt32At(buf: seq<byte>, pos: nat): Decoded<nat> { NarrowUnsigned(ReadUInt64At(buf, pos), 4, 0xffff_ffff) }

  /** `readFloat32` / `readFloat64`: the IEEE 754 bit pattern of n bytes after its prefix. */
  function ReadFloatAt(buf: seq<byte>, pos: nat, prefix: byte, n: nat): Decoded<nat>
  {
    var p := ByteAt(buf, pos);
    if p.result.Err? then Propagate(p)
    else if p.result.value == prefix then UIntAt(buf, p.pos, n)
    else Fail(BadPrefix, p.pos)
  }

  function ReadFloat32At(buf: seq<byte>, pos: nat): Decoded<nat> { ReadFloatAt(buf, pos, FLOAT32, 4) }
  function ReadFloat64At(buf: seq<byte>, pos: nat): Decoded<nat> { ReadFloatAt(buf, pos, FLOAT64, 8) }

  // ---------------------------------------------------------------------
  // Strings, byte arrays, arrays and maps

  /** `isNextNil`: consumes a nil byte if one comes next. */
  function IsNextNilAt(buf: seq<byte>, pos: nat): Decoded<bool>
  {
    var p := PeekAt(buf, pos);
    if p.result.Err? then Propagate(p)
    else if p.result.value == NIL then Decoded(Ok(true), pos + 1)
    else Decoded(Ok(false), pos)
  }

  /** A fixstr, a fixarray (sic), or str 8/16/32. */
  function ReadStringLengthAt(buf: seq<byte>, pos: nat): Decoded<nat>
  {
    var l := ByteAt(buf, pos);
    if l.result.Err? then Propagate(l)
    else
      var lead := l.result.value;
      if IsFixedString(lead) then Decoded(Ok(Low5(lead)), l.pos)
      else if IsFixedArray(lead) then Decoded(Ok(Low4(lead)), l.pos)
      else if lead == STR8 then UIntAt(buf, l.pos, 1)
      else if lead == STR16 then UIntAt(buf, l.pos, 2)
      else if lead == STR32 then UIntAt(buf, l.pos, 4)
      else Fail(InvalidLength(NatToString(lead)), l.pos)
  }

  /** The UTF-8 bytes `readString` hands to the UTF-8 decoder. */
  function ReadStringBytesAt(buf: seq<byte>, pos: nat): Decoded<seq<byte>>
  {
    var n := ReadStringLengthAt(buf, pos);
    if n.result.Err? then Propagate(n) else BytesAt(buf, n.pos, n.result.value)
  }

  /** Nil (length 0), a fixarray (sic), or bin 8/16/32. */
  function ReadBytesLengthAt(buf: seq<byte>, pos: nat): Decoded<nat>
  {
    var nil := IsNextNilAt(buf, pos);
    if nil.result.Err? then Propagate(nil)
    else if nil.result.value then Decoded(Ok(0), nil.pos)
    else
      var l := ByteAt(buf, nil.pos);
      if l.result.Err? then Propagate(l)
      else
        var lead := l.result.value;
        if IsFixedArray(lead) then Decoded(Ok(Low4(lead)), l.pos)
        else if lead == BIN8 then UIntAt(buf, l.pos, 1)
        else if lead == BIN16 then UIntAt(buf, l.pos, 2)
        else if lead == BIN32 then UIntAt(buf, l.pos, 4)
        else Fail(InvalidLength(""), l.pos)
  }

  /** `readString`: the string's bytes, given to the runtime's UTF-8 decoder. */
  function ReadStringAt(buf: seq<byte>, pos: nat, utf8Decode: seq<byte> -> string): Decoded<string>
  {
    MapDecoded(ReadStringBytesAt(buf, pos), utf8Decode)
  }

  function ReadBytesAt(buf: seq<byte>, pos: nat): Decoded<seq<byte>>
  {
    var n := ReadBytesLengthAt(buf, pos);
    if n.result.Err? then Propagate(n) else BytesAt(buf, n.pos, n.result.value)
  }

  /** A fixarray, array 16/32, or nil (length 0). */
  function ReadArrayLengthAt(buf: seq<byte>, pos: nat): Decoded<nat>
  {
    var l := ByteAt(buf, pos);
    if l.result.Err? then Propagate(l)
    else
      var lead := l.result.value;
      if IsFixedArray(lead) then Decoded(Ok(Low4(lead)), l.pos)
      else if lead == ARRAY16 then UIntAt(buf, l.pos, 2)
      else if lead == ARRAY32 then UIntAt(buf, l.pos, 4)
      else if lead == NIL then Decoded(Ok(0), l.pos)
      else Fail(InvalidLength(NatToString(lead)), l.pos)
  }

  /** Reads n items with `fn` after the ones already in `acc`. */
  function ReadItemsAt<T>(buf: seq<byte>, pos: nat, n: nat, fn: Reader<T>, acc: seq<T>): Decoded<seq<T>>
    decreases n
  {
    if n == 0 then Decoded(Ok(acc), pos)
    else
      var item := fn(buf, pos);
      if item.result.Err? then Propagate(item)
      else ReadItemsAt(buf, item.pos, n - 1, fn, acc + [item.result.value])
  }

  function ReadArrayAt<T>(buf: seq<byte>, pos: nat, fn: Reader<T>): Decoded<seq<T>>
  {
    var n := ReadArrayLengthAt(buf, pos);
    if n.result.Err? then Propagate(n) else ReadItemsAt(buf, n.pos, n.result.value, fn, [])
  }

  /** A fixmap or map 16/32; unlike arrays, nil is refused. */
  function ReadMapLengthAt(buf: seq<byte>, pos: nat): Decoded<nat>
  {
    var l := ByteAt(buf, pos);
    if l.result.Err? then Propagate(l)
    else
      var lead := l.result.value;
      if IsFixedMap(lead) then Decoded(Ok(Low4(lead)), l.pos)
      else if lead == MAP16 then UIntAt(buf, l.pos, 2)
      else if lead == MAP32 then UIntAt(buf, l.pos, 4)
      else Fail(InvalidLength(""), l.pos)
  }

  /** Reads n key/value pairs into `acc`; a repeated key keeps its last value (`Map.set`). */
  function ReadEntriesAt<K, V>(buf: seq<byte>, pos: nat, n: nat, keyFn: Reader<K>, valueFn: Reader<V>,
                               acc: map<K, V>): Decoded<map<K, V>>
    decreases n
  {
    if n == 0 then Decoded(Ok(acc), pos)
    else
      var k := keyFn(buf, pos);
      if k.result.Err? then Propagate(k)
      else
        var v := valueFn(buf, k.pos);
        if v.result.Err? then Propagate(v)
        else ReadEntriesAt(buf, v.pos, n - 1, keyFn, valueFn, acc[k.result.value := v.result.value])
  }

  function ReadMapAt<K, V>(buf: seq<byte>, pos: nat, keyFn: Reader<K>, valueFn: Reader<V>): Decoded<map<K, V>>
  {
    var n := ReadMapLengthAt(buf, pos);
    if n.result.Err? then Propagate(n) else ReadEntriesAt(buf, n.pos, n.result.value, keyFn, valueFn, map[])
  }

  /** `readNullable...`: nil is read as no value, anything else with `fn`. */
  function ReadNullableAt<T>(buf: seq<byte>, pos: nat, fn: Reader<T>): Decoded<Option<T>>
  {
    var nil := IsNextNilAt(buf, pos);
    if nil.result.Err? then Propagate(nil)
    else if nil.result.value then Decoded(Ok(None), nil.pos)
    else
      var d := fn(buf, nil.pos);
      if d.result.Err? then Propagate(d) else Decoded(Ok(Some(d.result.value)), d.pos)
  }

  // ---------------------------------------------------------------------
  // Skipping values

  function DiscardThenNone(buf: seq<byte>, pos: nat, n: int): (r: Decoded<int>)
    ensures r.result.Ok? ==> r.result.value == 0 && pos <= r.pos <= |buf|
  {
    var d := DiscardAt(buf, pos, n);
    if d.result.Err? then Propagate(d) else Decoded(Ok(0), d.pos)
  }

  /** Reads an n-byte length, then discards that many bytes (cast to i32). */
  function DiscardSized(buf: seq<byte>, pos: nat, n: nat): (r: Decoded<int>)
    ensures r.result.Ok? ==> r.result.value == 0 && pos <= r.pos <= |buf|
  {
    var u := UIntAt(buf, pos, n);
    if u.result.Err? then Propagate(u) else DiscardThenNone(buf, u.pos, WrapSigned(u.result.value, 4))
  }

  /** Reads an n-byte count of nested objects, cast to i32 (times two for maps, wrapping). */
  function CountSized(buf: seq<byte>, pos: nat, n: nat, perEntry: int): (r: Decoded<int>)
    ensures r.result.Ok? ==> pos <= r.pos <= |buf|
  {
    var u := UIntAt(buf, pos, n);
    if u.result.Err? then Propagate(u) else Decoded(Ok(WrapSigned(perEntry * WrapSigned(u.result.value, 4), 4)), u.pos)
  }

  /**
   * `getSize`: consumes one value's header (and a scalar's payload) and
   * returns the number of nested objects the header announces.
   */
  function GetSizeAt(buf: seq<byte>, pos: nat): (r: Decoded<int>)
    ensures r.result.Ok? ==> pos < r.pos <= |buf|
  {
    var l := ByteAt(buf, pos);
    if l.result.Err? then Propagate(l)
    else
      var lead := l.result.value;
      var q := l.pos;
      if IsNegativeFixedInt(lead) || IsFixedInt(lead) then Decoded(Ok(0), q)
      else if IsFixedString(lead) then DiscardThenNone(buf, q, Low5(lead))
      else if IsFixedArray(lead) then Decoded(Ok(Low4(lead)), q)
      else if IsFixedMap(lead) then Decoded(Ok(2 * Low4(lead)), q)
      else if lead == NIL || lead == TRUE || lead == FALSE then Decoded(Ok(0), q)
      else if lead == BIN8 || lead == STR8 then DiscardSized(buf, q, 1)
      else if lead == BIN16 || lead == STR16 then DiscardSized(buf, q, 2)
      else if lead == BIN32 || lead == STR32 then DiscardSized(buf, q, 4)
      else if lead == FLOAT32 || lead == UINT32 || lead == INT32 then DiscardThenNone(buf, q, 4)
      else if lead == FLOAT64 || lead == UINT64 || lead == INT64 then DiscardThenNone(buf, q, 8)
      else if lead == UINT8 || lead == INT8 then DiscardThenNone(buf, q, 1)
      else if lead == UINT16 || lead == INT16 then DiscardThenNone(buf, q, 2)
      else if lead == FIXEXT1 then DiscardThenNone(buf, q, 2)
      else if lead == FIXEXT2 then DiscardThenNone(buf, q, 3)
      else if lead == FIXEXT4 then DiscardThenNone(buf, q, 5)
      else if lead == FIXEXT8 then DiscardThenNone(buf, q, 9)
      else if lead == FIXEXT16 then DiscardThenNone(buf, q, 17)
      else if lead == ARRAY16 then CountSized(buf, q, 2, 1)
      else if lead == ARRAY32 then CountSized(buf, q, 4, 1)
      else if lead == MAP16 then CountSized(buf, q, 2, 2)
      else if lead == MAP32 then CountSized(buf, q, 4, 2)
      else Fail(InvalidPrefix(lead), q)
  }

  /** The loop of `skip`: calls `getSize` n more times, ignoring what each returns. */
  function DiscardObjectsAt(buf: seq<byte>, pos: nat, n: int): Decoded<()>
    decreases n
  {
    if n <= 0 then Decoded(Ok(()), pos)
    else
      var s := GetSizeAt(buf, pos);
      if s.result.Err? then Propagate(s) else DiscardObjectsAt(buf, s.pos, n - 1)
  }

  /** `skip` as written: nested objects of nested objects are not counted. */
  function SkipAt(buf: seq<byte>, pos: nat): Decoded<()>
  {
    var s := GetSizeAt(buf, pos);
    if s.result.Err? then Propagate(s) else DiscardObjectsAt(buf, s.pos, s.result.value)
  }

  // ---------------------------------------------------------------------
  // Corrected definitions

  /**
   * The narrowing `readInt8/16/32` evidently intend: the value must lie
   * in the n-byte signed range (`value <= MAX && value >= MIN`).
   */
  function NarrowSignedChecked(d: Decoded<int>, n: nat): (r: Decoded<int>)
    ensures d.result.Ok? && InSigned(d.result.value, n) ==> r == d
    ensures d.result.Ok? && !InSigned(d.result.value, n) ==>
              r == Fail(IntegerOverflow(d.result.value, 8 * n), d.pos)
    ensures d.result.Err? ==> r == d
  {
    if d.result.Err? then d
    else
      var v := d.result.value;
      if InSigned(v, n) then Decoded(Ok(v), d.pos)
      else Fail(IntegerOverflow(v, 8 * n), d.pos)
  }

  /** The narrowing `readUInt8/16/32` evidently intend: the value must be below 2^(8n). */
  function NarrowUnsignedChecked(d: Decoded<nat>, n: nat): (r: Decoded<nat>)
    ensures d.result.Ok? && d.result.value < Pow256(n) ==> r == d
    ensures d.result.Ok? && d.result.value >= Pow256(n) ==>
              r == Fail(UnsignedIntegerOverflow(d.result.value, 8 * n), d.pos)
    ensures d.result.Err? ==> r == d
  {
    if d.result.Err? then d
    else
      var v := d.result.value;
      if v < Pow256(n) then Decoded(Ok(v), d.pos)
      else Fail(UnsignedIntegerOverflow(v, 8 * n), d.pos)
  }

  /**
   * The skip `skip` evidently intends: keep a count of the values still
   * to be skipped, adding the nested objects of every header met on the
   * way, so a whole value is skipped however deeply it nests.
   */
  function SkipValuesAt(buf: seq<byte>, pos: nat, pending: nat): Decoded<()>
    decreases |buf| - pos
  {
    if pending == 0 then Decoded(Ok(()), pos)
    else
      var s := GetSizeAt(buf, pos);
      if s.result.Err? then Propagate(s)
      else SkipValuesAt(buf, s.pos, pending - 1 + (if s.result.value > 0 then s.result.value else 0))
  }

  // ---------------------------------------------------------------------
  // The decoder

  class ReadDecoder {
    /** the bytes being decoded */
    const buf: seq<byte>
    /** the view's cursor */
    var pos: nat

    constructor(ua: seq<byte>)
      ensures buf == ua && pos == 0
    {
      buf := ua;
      pos := 0;
    }

    method GetUint8() returns (r: Result<byte, DecodeError>)
      modifies this
      ensures Decoded(r, pos) == ByteAt(buf, old(pos))
    {
      if pos < |buf| {
        r := Ok(buf[pos]);
        pos := pos + 1;
      } else {
        r := Err(OutOfBuffer);
      }
    }

    method PeekUint8() returns (r: Result<byte, DecodeError>)
      ensures Decoded(r, pos) == PeekAt(buf, pos)
    {
      if pos < |buf| {
        r := Ok(buf[pos]);
      } else {
        r := Err(OutOfBuffer);
      }
    }

    /** `getUint16`, `getUint32`, `getUint64` for n = 2, 4, 8. */
    method GetUInt(n: nat) returns (r: Result<nat, DecodeError>)
      modifies this
      ensures Decoded(r, pos) == UIntAt(buf, old(pos), n)
    {
      if pos + n <= |buf| {
        r := Ok(BigEndian(buf[pos..pos + n]));
        pos := pos + n;
      } else {
        r := Err(OutOfBuffer);
      }
    }

    /** `getInt8` ... `getInt64` for n = 1, 2, 4, 8. */
    method GetInt(n: nat) returns (r: Result<int, DecodeError>)
      modifies this
      ensures Decoded(r, pos) == IntAt(buf, old(pos), n)
    {
      var u := GetUInt(n);
      if u.Err? {
        return Err(u.error);
      }
      r := Ok(ToSigned(u.value, n));
    }

    method GetBytes(n: nat) returns (r: Result<seq<byte>, DecodeError>)
      modifies this
      ensures Decoded(r, pos) == BytesAt(buf, old(pos), n)
    {
      if pos + n <= |buf| {
        r := Ok(buf[pos..pos + n]);
        pos := pos + n;
      } else {
        r := Err(OutOfBuffer);
      }
    }

    method Discard(n: int) returns (r: Result<(), DecodeError>)
      modifies this
      ensures Decoded(r, pos) == DiscardAt(buf, old(pos), n)
    {
      if 0 <= n && pos + n <= |buf| {
        pos := pos + n;
        r := Ok(());
      } else {
        r := Err(OutOfBuffer);
      }
    }

    method ReadBool() returns (r: Result<bool, DecodeError>)
      modifies this
      ensures Decoded(r, pos) == ReadBoolAt(buf, old(pos))
    {
      var value := GetUint8();
      if value.Err? {
        return Err(value.error);
      }
      if value.value == TRUE {
        return Ok(true);
      } else if value.value == FALSE {
        return Ok(false);
      }
      return Err(BadBool);
    }

    method ReadInt8() returns (r: Result<int, DecodeError>)
      modifies this
      ensures Decoded(r, pos) == ReadInt8At(buf, old(pos))
    {
      var value := ReadInt64();
      if value.Err? {
        return value;
      }
      var v := value.value;
      if v <= 0x7f || v >= -0x80 {
        return Ok(WrapSigned(v, 1));
      }
      return Err(IntegerOverflow(v, 8));
    }

    method ReadInt16() returns (r: Result<int, DecodeError>)
      modifies this
      ensures Decoded(r, pos) == ReadInt16At(buf, old(pos))
    {
      var value := ReadInt64();
      if value.Err? {
        return value;
      }
      var v := value.value;
      if v <= 0x7fff || v >= -0x8000 {
        return Ok(WrapSigned(v, 2));
      }
      return Err(IntegerOverflow(v, 16));
    }

    method ReadInt32() returns (r: Result<int, DecodeError>)
      modifies this
      ensures Decoded(r, pos) == ReadInt32At(buf, old(pos))
    {
      var value := ReadInt64();
      if value.Err? {
        return value;
      }
      var v := value.value;
      if v <= 0x7fff_ffff || v >= -0x8000_0000 {
        return Ok(WrapSigned(v, 4));
      }
      return Err(IntegerOverflow(v, 32));
    }

    method ReadInt64() returns (r: Result<int, DecodeError>)
      modifies this
      ensures Decoded(r, pos) == ReadInt64At(buf, old(pos))
    {
      var p := GetUint8();
      if p.Err? {
        return Err(p.error);
      }
      var prefix := p.value;
      if IsFixedInt(prefix) {
        return Ok(prefix);
      }
      if IsNegativeFixedInt(prefix) {
        return Ok(prefix as int - 0x100);
      }
      if prefix == INT8 {
        r := GetInt(1);
      } else if prefix == INT16 {
        r := GetInt(2);
      } else if prefix == INT32 {
        r := GetInt(4);
      } else if prefix == INT64 {
        r := GetInt(8);
      } else {
        r := Err(BadIntPrefix);
      }
    }

    method ReadUInt8() returns (r: Result<nat, DecodeError>)
      modifies this
      ensures Decoded(r, pos) == ReadUInt8At(buf, old(pos))
    {
      var value := ReadUInt64();
      if value.Err? {
        return value;
      }
      var v := value.value;
      if v <= 0xff || v >= 0 {
        return Ok(WrapUnsigned(v, 1));
      }
      return Err(UnsignedIntegerOverflow(v, 8));
    }

    method ReadUInt16() returns (r: Result<nat, DecodeError>)
      modifies this
      ensures Decoded(r, pos) == ReadUInt16At(buf, old(pos))
    {
      var value := ReadUInt64();
      if value.Err? {
        return value;
      }
      var v := value.value;
      if v <= 0xffff || v >= 0 {
        return Ok(WrapUnsigned(v, 2));
      }
      return Err(UnsignedIntegerOverflow(v, 16));
    }

    method ReadUInt32() returns (r: Result<nat, DecodeError>)
      modifies this
      ensures Decoded(r, pos) == ReadUInt32At(buf, old(pos))
    {
      var value := ReadUInt64();
      if value.Err? {
        return value;
      }
      var v := value.value;
      if v <= 0xffff_ffff || v >= 0 {
        return Ok(WrapUnsigned(v, 4));
      }
      return Err(UnsignedIntegerOverflow(v, 32));
    }

    method ReadUInt64() returns (r: Result<nat, DecodeError>)
      modifies this
      ensures Decoded(r, pos) == ReadUInt64At(buf, old(pos))
    {
      var p := GetUint8();
      if p.Err? {
        return Err(p.error);
      }
      var prefix := p.value;
      if IsFixedInt(prefix) {
        return Ok(prefix);
      } else if IsNegativeFixedInt(prefix) {
        return Err(BadPrefix);
      }
      if prefix == UINT8 {
        r := GetUInt(1);
      } else if prefix == UINT16 {
        r := GetUInt(2);
      } else if prefix == UINT32 {
        r := GetUInt(4);
      } else if prefix == UINT64 {
        r := GetUInt(8);
      } else {
        r := Err(BadUIntPrefix);
      }
    }

    method ReadFloat32() returns (r: Result<nat, DecodeError>)
      modifies this
      ensures Decoded(r, pos) == ReadFloat32At(buf, old(pos))
    {
      var p := GetUint8();
      if p.Err? {
        return Err(p.error);
      }
      if p.value == FLOAT32 {
        r := GetUInt(4);
      } else {
        r := Err(BadPrefix);
      }
    }

    method ReadFloat64() returns (r: Result<nat, DecodeError>)
      modifies this
      ensures Decoded(r, pos) == ReadFloat64At(buf, old(pos))
    {
      var p := GetUint8();
      if p.Err? {
        return Err(p.error);
      }
      if p.value == FLOAT64 {
        r := GetUInt(8);
      } else {
        r := Err(BadPrefix);
      }
    }

    method ReadStringLength() returns (r: Result<nat, DecodeError>)
      modifies this
      ensures Decoded(r, pos) == ReadStringLengthAt(buf, old(pos))
    {
      var l := GetUint8();
      if l.Err? {
        return Err(l.error);
      }
      var leadByte := l.value;
      if IsFixedString(leadByte) {
        return Ok(Low5(leadByte));
      }
      if IsFixedArray(leadByte) {
        return Ok(Low4(leadByte));
      }
      if leadByte == STR8 {
        r := GetUInt(1);
      } else if leadByte == STR16 {
        r := GetUInt(2);
      } else if leadByte == STR32 {
        r := GetUInt(4);
      } else {
        r := Err(InvalidLength(NatToString(leadByte)));
      }
    }

    method ReadString(utf8Decode: seq<byte> -> string) returns (r: Result<string, DecodeError>)
      modifies this
      ensures Decoded(r, pos) == ReadStringAt(buf, old(pos), utf8Decode)
    {
      var strLen := ReadStringLength();
      if strLen.Err? {
        return Err(strLen.error);
      }
      var stringBytes := GetBytes(strLen.value);
      if stringBytes.Err? {
        return Err(stringBytes.error);
      }
      return Ok(utf8Decode(stringBytes.value));
    }

    method ReadBytesLength() returns (r: Result<nat, DecodeError>)
      modifies this
      ensures Decoded(r, pos) == ReadBytesLengthAt(buf, old(pos))
    {
      var nil := IsNextNil();
      if nil.Err? {
        return Err(nil.error);
      }
      if nil.value {
        return Ok(0);
      }
      var l := GetUint8();
      if l.Err? {
        return Err(l.error);
      }
      var leadByte := l.value;
      if IsFixedArray(leadByte) {
        return Ok(Low4(leadByte));
      }
      if leadByte == BIN8 {
        r := GetUInt(1);
      } else if leadByte == BIN16 {
        r := GetUInt(2);
      } else if leadByte == BIN32 {
        r := GetUInt(4);
      } else {
        r := Err(InvalidLength(""));
      }
    }

    method ReadBytes() returns (r: Result<seq<byte>, DecodeError>)
      modifies this
      ensures Decoded(r, pos) == ReadBytesAt(buf, old(pos))
    {
      var arrLength := ReadBytesLength();
      if arrLength.Err? {
        return Err(arrLength.error);
      }
      r := GetBytes(arrLength.value);
    }

    method ReadArrayLength() returns (r: Result<nat, DecodeError>)
      modifies this
      ensures Decoded(r, pos) == ReadArrayLengthAt(buf, old(pos))
    {
      var l := GetUint8();
      if l.Err? {
        return Err(l.error);
      }
      var leadByte := l.value;
      if IsFixedArray(leadByte) {
        r := Ok(Low4(leadByte));
      } else if leadByte == ARRAY16 {
        r := GetUInt(2);
      } else if leadByte == ARRAY32 {
        r := GetUInt(4);
      } else if leadByte == NIL {
        r := Ok(0);
      } else {
        r := Err(InvalidLength(NatToString(leadByte)));
      }
    }

    method ReadArray<T>(fn: Reader<T>) returns (r: Result<seq<T>, DecodeError>)
      modifies this
      ensures Decoded(r, pos) == ReadArrayAt(buf, old(pos), fn)
    {
      var size := ReadArrayLength();
      if size.Err? {
        return Err(size.error);
      }
      var a: seq<T> := [];
      var i := 0;
      while i < size.value
        invariant 0 <= i <= size.value
        invariant ReadItemsAt(buf, pos, size.value - i, fn, a) == ReadArrayAt(buf, old(pos), fn)
      {
        var item := fn(buf, pos);
        pos := item.pos;
        if item.result.Err? {
          return Err(item.result.error);
        }
        a := a + [item.result.value];
        i := i + 1;
      }
      return Ok(a);
    }

    method ReadMapLength() returns (r: Result<nat, DecodeError>)
      modifies this
      ensures Decoded(r, pos) == ReadMapLengthAt(buf, old(pos))
    {
      var l := GetUint8();
      if l.Err? {
        return Err(l.error);
      }
      var leadByte := l.value;
      if IsFixedMap(leadByte) {
        r := Ok(Low4(leadByte));
      } else if leadByte == MAP16 {
        r := GetUInt(2);
      } else if leadByte == MAP32 {
        r := GetUInt(4);
      } else {
        r := Err(InvalidLength(""));
      }
    }

    method ReadMap<K, V>(keyFn: Reader<K>, valueFn: Reader<V>) returns (r: Result<map<K, V>, DecodeError>)
      modifies this
      ensures Decoded(r, pos) == ReadMapAt(buf, old(pos), keyFn, valueFn)
    {
      var size := ReadMapLength();
      if size.Err? {
        return Err(size.error);
      }
      var m: map<K, V> := map[];
      var i := 0;
      while i < size.value
        invariant 0 <= i <= size.value
        invariant ReadEntriesAt(buf, pos, size.value - i, keyFn, valueFn, m) == ReadMapAt(buf, old(pos), keyFn, valueFn)
      {
        var key := keyFn(buf, pos);
        pos := key.pos;
        if key.result.Err? {
          return Err(key.result.error);
        }
        var value := valueFn(buf, pos);
        pos := value.pos;
        if value.result.Err? {
          return Err(value.result.error);
        }
        m := m[key.result.value := value.result.value];
        i := i + 1;
      }
      return Ok(m);
    }

    method ReadNullableBool() returns (r: Result<Option<bool>, DecodeError>)
      modifies this
      ensures Decoded(r, pos) == ReadNullableAt(buf, old(pos), ReadBoolAt)
    {
      var nil := IsNextNil();
      if nil.Err? {
        return Err(nil.error);
      }
      if nil.value {
        return Ok(None);
      }
      var v := ReadBool();
      r := if v.Ok? then Ok(Some(v.value)) else Err(v.error);
    }

    method ReadNullableInt8() returns (r: Result<Option<int>, DecodeError>)
      modifies this
      ensures Decoded(r, pos) == ReadNullableAt(buf, old(pos), ReadInt8At)
    {
      var nil := IsNextNil();
      if nil.Err? {
        return Err(nil.error);
      }
      if nil.value {
        return Ok(None);
      }
      var v := ReadInt8();
      r := if v.Ok? then Ok(Some(v.value)) else Err(v.error);
    }

    method ReadNullableInt16() returns (r: Result<Option<int>, DecodeError>)
      modifies this
      ensures Decoded(r, pos) == ReadNullableAt(buf, old(pos), ReadInt16At)
    {
      var nil := IsNextNil();
      if nil.Err? {
        return Err(nil.error);
      }
      if nil.value {
        return Ok(None);
      }
      var v := ReadInt16();
      r := if v.Ok? then Ok(Some(v.value)) else Err(v.error);
    }

    method ReadNullableInt32() returns (r: Result<Option<int>, DecodeError>)
      modifies this
      ensures Decoded(r, pos) == ReadNullableAt(buf, old(pos), ReadInt32At)
    {
      var nil := IsNextNil();
      if nil.Err? {
        return Err(nil.error);
      }
      if nil.value {
        return Ok(None);
      }
      var v := ReadInt32();
      r := if v.Ok? then Ok(Some(v.value)) else Err(v.error);
    }

    method ReadNullableInt64() returns (r: Result<Option<int>, DecodeError>)
      modifies this
      ensures Decoded(r, pos) == ReadNullableAt(buf, old(pos), ReadInt64At)
    {
      var nil := IsNextNil();
      if nil.Err? {
        return Err(nil.error);
      }
      if nil.value {
        return Ok(None);
      }
      var v := ReadInt64();
      r := if v.Ok? then Ok(Some(v.value)) else Err(v.error);
    }

    method ReadNullableUInt8() returns (r: Result<Option<nat>, DecodeError>)
      modifies this
      ensures Decoded(r, pos) == ReadNullableAt(buf, old(pos), ReadUInt8At)
    {
      var nil := IsNextNil();
      if nil.Err? {
        return Err(nil.error);
      }
      if nil.value {
        return Ok(None);
      }
      var v := ReadUInt8();
      r := if v.Ok? then Ok(Some(v.value)) else Err(v.error);
    }

    method ReadNullableUInt16() returns (r: Result<Option<nat>, DecodeError>)
      modifies this
      ensures Decoded(r, pos) == ReadNullableAt(buf, old(pos), ReadUInt16At)
    {
      var nil := IsNextNil();
      if nil.Err? {
        return Err(nil.error);
      }
      if nil.value {
        return Ok(None);
      }
      var v := ReadUInt16();
      r := if v.Ok? then Ok(Some(v.value)) else Err(v.error);
    }

    method ReadNullableUInt32() returns (r: Result<Option<nat>, DecodeError>)
      modifies this
      ensures Decoded(r, pos) == ReadNullableAt(buf, old(pos), ReadUInt32At)
    {
      var nil := IsNextNil();
      if nil.Err? {
        return Err(nil.error);
      }
      if nil.value {
        return Ok(None);
      }
      var v := ReadUInt32();
      r := if v.Ok? then Ok(Some(v.value)) else Err(v.error);
    }

    method ReadNullableUInt64() returns (r: Result<Option<nat>, DecodeError>)
      modifies this
      ensures Decoded(r, pos) == ReadNullableAt(buf, old(pos), ReadUInt64At)
    {
      var nil := IsNextNil();
      if nil.Err? {
        return Err(nil.error);
      }
      if nil.value {
        return Ok(None);
      }
      var v := ReadUInt64();
      r := if v.Ok? then Ok(Some(v.value)) else Err(v.error);
    }

    method ReadNullableFloat32() returns (r: Result<Option<nat>, DecodeError>)
      modifies this
      ensures Decoded(r, pos) == ReadNullableAt(buf, old(pos), ReadFloat32At)
    {
      var nil := IsNextNil();
      if nil.Err? {
        return Err(nil.error);
      }
      if nil.value {
        return Ok(None);
      }
      var v := ReadFloat32();
      r := if v.Ok? then Ok(Some(v.value)) else Err(v.error);
    }

    method ReadNullableFloat64() returns (r: Result<Option<nat>, DecodeError>)
      modifies this
      ensures Decoded(r, pos) == ReadNullableAt(buf, old(pos), ReadFloat64At)
    {
      var nil := IsNextNil();
      if nil.Err? {
        return Err(nil.error);
      }
      if nil.value {
        return Ok(None);
      }
      var v := ReadFloat64();
      r := if v.Ok? then Ok(Some(v.value)) else Err(v.error);
    }

    method ReadNullableString(utf8Decode: seq<byte> -> string) returns (r: Result<Option<string>, DecodeError>)
      modifies this
      ensures Decoded(r, pos) == ReadNullableAt(buf, old(pos), (b, p) => ReadStringAt(b, p, utf8Decode))
    {
      var nil := IsNextNil();
      if nil.Err? {
        return Err(nil.error);
      }
      if nil.value {
        return Ok(None);
      }
      var v := ReadString(utf8Decode);
      r := if v.Ok? then Ok(Some(v.value)) else Err(v.error);
    }

    method ReadNullableBytes() returns (r: Result<Option<seq<byte>>, DecodeError>)
      modifies this
      ensures Decoded(r, pos) == ReadNullableAt(buf, old(pos), ReadBytesAt)
    {
      var nil := IsNextNil();
      if nil.Err? {
        return Err(nil.error);
      }
      if nil.value {
        return Ok(None);
      }
      var v := ReadBytes();
      r := if v.Ok? then Ok(Some(v.value)) else Err(v.error);
    }

    method ReadNullableArray<T>(fn: Reader<T>) returns (r: Result<Option<seq<T>>, DecodeError>)
      modifies this
      ensures Decoded(r, pos) == ReadNullableAt(buf, old(pos), (b, p) => ReadArrayAt(b, p, fn))
    {
      var nil := IsNextNil();
      if nil.Err? {
        return Err(nil.error);
      }
      if nil.value {
        return Ok(None);
      }
      var v := ReadArray(fn);
      r := if v.Ok? then Ok(Some(v.value)) else Err(v.error);
    }

    method ReadNullableMap<K, V>(keyFn: Reader<K>, valueFn: Reader<V>) returns (r: Result<Option<map<K, V>>, DecodeError>)
      modifies this
      ensures Decoded(r, pos) == ReadNullableAt(buf, old(pos), (b, p) => ReadMapAt(b, p, keyFn, valueFn))
    {
      var nil := IsNextNil();
      if nil.Err? {
        return Err(nil.error);
      }
      if nil.value {
        return Ok(None);
      }
      var v := ReadMap(keyFn, valueFn);
      r := if v.Ok? then Ok(Some(v.value)) else Err(v.error);
    }

    method IsNextNil() returns (r: Result<bool, DecodeError>)
      modifies this
      ensures Decoded(r, pos) == IsNextNilAt(buf, old(pos))
    {
      var next := PeekUint8();
      if next.Err? {
        return Err(next.error);
      }
      if next.value == NIL {
        var _ := Discard(1);
        return Ok(true);
      }
      return Ok(false);
    }

    method Skip() returns (r: Result<(), DecodeError>)
      modifies this
      ensures Decoded(r, pos) == SkipAt(buf, old(pos))
    {
      var n := GetSize();
      if n.Err? {
        return Err(n.error);
      }
      var numberOfObjectsToDiscard := n.value;
      while numberOfObjectsToDiscard > 0
        invariant DiscardObjectsAt(buf, pos, numberOfObjectsToDiscard) == SkipAt(buf, old(pos))
      {
        var s := GetSize();
        if s.Err? {
          return Err(s.error);
        }
        numberOfObjectsToDiscard := numberOfObjectsToDiscard - 1;
      }
      return Ok(());
    }

    /** Reads an n-byte length and discards that many bytes (the length cast to i32). */
    method DiscardSizedBy(n: nat) returns (r: Result<int, DecodeError>)
      modifies this
      ensures Decoded(r, pos) == DiscardSized(buf, old(pos), n)
    {
      var len := GetUInt(n);
      if len.Err? {
        return Err(len.error);
      }
      var d := Discard(WrapSigned(len.value, 4));
      r := if d.Ok? then Ok(0) else Err(d.error);
    }

    method DiscardFixed(n: nat) returns (r: Result<int, DecodeError>)
      modifies this
      ensures Decoded(r, pos) == DiscardThenNone(buf, old(pos), n)
    {
      var d := Discard(n);
      r := if d.Ok? then Ok(0) else Err(d.error);
    }

    method CountBy(n: nat, perEntry: int) returns (r: Result<int, DecodeError>)
      modifies this
      ensures Decoded(r, pos) == CountSized(buf, old(pos), n, perEntry)
    {
      var count := GetUInt(n);
      if count.Err? {
        return Err(count.error);
      }
      r := Ok(WrapSigned(perEntry * WrapSigned(count.value, 4), 4));
    }

    method GetSize() returns (r: Result<int, DecodeError>)
      modifies this
      ensures Decoded(r, pos) == GetSizeAt(buf, old(pos))
    {
      var l := GetUint8();
      if l.Err? {
        return Err(l.error);
      }
      var leadByte := l.value;
      if IsNegativeFixedInt(leadByte) || IsFixedInt(leadByte) {
        r := Ok(0);
      } else if IsFixedString(leadByte) {
        r := DiscardFixed(Low5(leadByte));
      } else if IsFixedArray(leadByte) {
        r := Ok(Low4(leadByte));
      } else if IsFixedMap(leadByte) {
        r := Ok(2 * Low4(leadByte));
      } else if leadByte == NIL || leadByte == TRUE || leadByte == FALSE {
        r := Ok(0);
      } else if leadByte == BIN8 || leadByte == STR8 {
        r := DiscardSizedBy(1);
      } else if leadByte == BIN16 || leadByte == STR16 {
        r := DiscardSizedBy(2);
      } else if leadByte == BIN32 || leadByte == STR32 {
        r := DiscardSizedBy(4);
      } else if leadByte == FLOAT32 || leadByte == UINT32 || leadByte == INT32 {
        r := DiscardFixed(4);
      } else if leadByte == FLOAT64 || leadByte == UINT64 || leadByte == INT64 {
        r := DiscardFixed(8);
      } else if leadByte == UINT8 || leadByte == INT8 {
        r := DiscardFixed(1);
      } else if leadByte == UINT16 || leadByte == INT16 {
        r := DiscardFixed(2);
      } else if leadByte == FIXEXT1 {
        r := DiscardFixed(2);
      } else if leadByte == FIXEXT2 {
        r := DiscardFixed(3);
      } else if leadByte == FIXEXT4 {
        r := DiscardFixed(5);
      } else if leadByte == FIXEXT8 {
        r := DiscardFixed(9);
      } else if leadByte == FIXEXT16 {
        r := DiscardFixed(17);
      } else if leadByte == ARRAY16 {
        r := CountBy(2, 1);
      } else if leadByte == ARRAY32 {
        r := CountBy(4, 1);
      } else if leadByte == MAP16 {
        r := CountBy(2, 2);
      } else if leadByte == MAP32 {
        r := CountBy(4, 2);
      } else {
        r := Err(InvalidPrefix(leadByte));
      }
    }
  }
}
