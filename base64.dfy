/**
 * The base64 encoding of section 4 of RFC 4648 (alphabet A–Z a–z 0–9 + /,
 * '=' padding), as produced by Node's `Buffer.toString("base64")`, with the
 * decoder that inverts it.
 */
module Base64 {
  import opened Bytes
  import opened Wrappers

  type sextet = x: int | 0 <= x < 64

  /** The alphabet character of a 6-bit value. */
  function CharOf(x: sextet): char
  {
    if x < 26 then ('A' as int + x) as char
    else if x < 52 then ('a' as int + x - 26) as char
    else if x < 62 then ('0' as int + x - 52) as char
    else if x == 62 then '+'
    else '/'
  }

  /** The 6-bit value of an alphabet character. */
  function IndexOf(c: char): Option<sextet>
  {
    if 'A' <= c <= 'Z' then Some(c as int - 'A' as int)
    else if 'a' <= c <= 'z' then Some(c as int - 'a' as int + 26)
    else if '0' <= c <= '9' then Some(c as int - '0' as int + 52)
    else if c == '+' then Some(62)
    else if c == '/' then Some(63)
    else None
  }

  /** The four characters of a full group of three bytes. */
  function Group3(b0: byte, b1: byte, b2: byte): (g: string)
    ensures |g| == 4
  {
    var x0: sextet := b0 / 4;
    var x1: sextet := b0 % 4 * 16 + b1 / 16;
    var x2: sextet := b1 % 16 * 4 + b2 / 64;
    var x3: sextet := b2 % 64;
    [CharOf(x0), CharOf(x1), CharOf(x2), CharOf(x3)]
  }

  /** The four characters of a final group of two bytes. */
  function Group2(b0: byte, b1: byte): (g: string)
    ensures |g| == 4
  {
    var x0: sextet := b0 / 4;
    var x1: sextet := b0 % 4 * 16 + b1 / 16;
    var x2: sextet := b1 % 16 * 4;
    [CharOf(x0), CharOf(x1), CharOf(x2), '=']
  }

  /** The four characters of a final group of one byte. */
  function Group1(b0: byte): (g: string)
    ensures |g| == 4
  {
    var x0: sextet := b0 / 4;
    var x1: sextet := b0 % 4 * 16;
    [CharOf(x0), CharOf(x1), '=', '=']
  }

  function Encode(b: seq<byte>): string
  {
    if |b| == 0 then ""
    else if |b| == 1 then Group1(b[0])
    else if |b| == 2 then Group2(b[0], b[1])
    else Group3(b[0], b[1], b[2]) + Encode(b[3..])
  }

  /** Decodes one group of four characters into one to three bytes. */
  function DecodeGroup(g: string): Option<seq<byte>>
    requires |g| == 4
  {
    match (IndexOf(g[0]), IndexOf(g[1]), IndexOf(g[2]), IndexOf(g[3]))
    case (Some(x0), Some(x1), None, None) =>
      if g[2] == '=' && g[3] == '=' && x1 % 16 == 0 then Some([x0 as int * 4 + x1 as int / 16]) else None
    case (Some(x0), Some(x1), Some(x2), None) =>
      if g[3] == '=' && x2 % 4 == 0 then Some([x0 as int * 4 + x1 as int / 16, x1 as int % 16 * 16 + x2 as int / 4]) else None
    case (Some(x0), Some(x1), Some(x2), Some(x3)) =>
      Some([x0 as int * 4 + x1 as int / 16, x1 as int % 16 * 16 + x2 as int / 4, x2 as int % 4 * 64 + x3 as int])
    case _ => None
  }

  function Decode(s: string): Option<seq<byte>>
    decreases |s|
  {
    if |s| == 0 then Some([])
    else if |s| < 4 then None
    else match DecodeGroup(s[..4])
      case None => None
      case Some(g) =>
        if |g| < 3 && |s| > 4 then None
        else match Decode(s[4..])
          case None => None
          case Some(rest) => Some(g + rest)
  }

  lemma IndexOfCharOf(x: sextet)
    ensures IndexOf(CharOf(x)) == Some(x)
  {
  }

  lemma DecodeGroup3(b0: byte, b1: byte, b2: byte)
    ensures DecodeGroup(Group3(b0, b1, b2)) == Some([b0, b1, b2])
  {
    var x0, x1, x2, x3 := b0 / 4, b0 % 4 * 16 + b1 / 16, b1 % 16 * 4 + b2 / 64, b2 % 64;
    IndexOfCharOf(x0); IndexOfCharOf(x1); IndexOfCharOf(x2); IndexOfCharOf(x3);
    assert x1 / 16 == b0 % 4 && x1 % 16 == b1 / 16;
    assert x2 / 4 == b1 % 16 && x2 % 4 == b2 / 64;
  }

  lemma DecodeGroup2(b0: byte, b1: byte)
    ensures DecodeGroup(Group2(b0, b1)) == Some([b0, b1])
  {
    var x0, x1, x2 := b0 / 4, b0 % 4 * 16 + b1 / 16, b1 % 16 * 4;
    IndexOfCharOf(x0); IndexOfCharOf(x1); IndexOfCharOf(x2);
    assert x1 / 16 == b0 % 4 && x1 % 16 == b1 / 16;
    assert x2 / 4 == b1 % 16 && x2 % 4 == 0;
  }

  lemma DecodeGroup1(b0: byte)
    ensures DecodeGroup(Group1(b0)) == Some([b0])
  {
    var x0, x1 := b0 / 4, b0 % 4 * 16;
    IndexOfCharOf(x0); IndexOfCharOf(x1);
    assert x1 / 16 == b0 % 4 && x1 % 16 == 0;
  }

  /** Every three bytes become four characters; a final partial group is padded. */
  lemma {:induction false} EncodeLength(b: seq<byte>)
    ensures |Encode(b)| == 4 * ((|b| + 2) / 3)
    decreases |b|
  {
    if |b| >= 3 {
      var g := Group3(b[0], b[1], b[2]);
      EncodeLength(b[3..]);
      assert Encode(b) == g + Encode(b[3..]);
      assert (|b| + 2) / 3 == (|b[3..]| + 2) / 3 + 1;
    }
  }

  /** A final group of one byte decodes back to it. */
  lemma DecodeGroup1Alone(b0: byte)
    ensures Decode(Group1(b0)) == Some([b0])
  {
    var s := Group1(b0);
    DecodeGroup1(b0);
    assert s[..4] == s && s[4..] == [];
    assert [b0] + [] == [b0];
  }

  /** A final group of two bytes decodes back to them. */
  lemma DecodeGroup2Alone(b0: byte, b1: byte)
    ensures Decode(Group2(b0, b1)) == Some([b0, b1])
  {
    var s := Group2(b0, b1);
    DecodeGroup2(b0, b1);
    assert s[..4] == s && s[4..] == [];
    assert [b0, b1] + [] == [b0, b1];
  }

  /** A full group of three bytes decodes back to them, in front of whatever the rest decodes to. */
  lemma DecodeGroup3Then(b: seq<byte>, t: string)
    requires |b| >= 3
    ensures Decode(Group3(b[0], b[1], b[2]) + t) == if Decode(t).None? then None else Some(b[..3] + Decode(t).value)
  {
    var s := Group3(b[0], b[1], b[2]) + t;
    DecodeGroup3(b[0], b[1], b[2]);
    assert s[..4] == Group3(b[0], b[1], b[2]) && s[4..] == t;
    assert b[..3] == [b[0], b[1], b[2]];
  }

  /** Decoding an encoding gives the bytes back. */
  lemma {:induction false} DecodeEncode(b: seq<byte>)
    ensures Decode(Encode(b)) == Some(b)
    decreases |b|
  {
    if |b| == 1 {
      DecodeGroup1Alone(b[0]);
      assert b == [b[0]];
    } else if |b| == 2 {
      DecodeGroup2Alone(b[0], b[1]);
      assert b == [b[0], b[1]];
    } else if |b| >= 3 {
      DecodeEncode(b[3..]);
      DecodeGroup3Then(b, Encode(b[3..]));
      assert b[..3] + b[3..] == b;
    }
  }
}
