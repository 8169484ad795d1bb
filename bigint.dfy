/**
 * The base-10^9 big integer of the Uniswap v2 wrapper: a sign flag and a
 * vector of i32 "digits", least significant first. Every result is a fresh
 * object whose digit vector is filled in place, so a big integer is a value
 * here and each operation is a method that builds the new digit vector in a
 * local sequence (or, for `mul`, a fresh array), proved equal to a
 * specification function on which the properties are stated.
 *
 * The defects of the original are kept: `compareTo` orders non-negative
 * numbers the wrong way round (negative ones only when their digit counts
 * or top-digit widths differ), `copy` forgets the sign, and the digit products and carries of
 * `mul`, `divInt` and `modInt` are computed in 32 bits and wrap.
 */
module BigIntegers {
  import opened Wrappers
  import opened Strings

  const BASE: int := 1_000_000_000
  const TWO_32: int := 0x1_0000_0000
  const MIN_I32: int := -0x8000_0000
  const MAX_I32: int := 0x7fff_ffff

  /** The message of the RangeError thrown by `divInt` and `modInt`. */
  const DIVIDE_BY_ZERO: string := "Divide by zero"
  /** The message of the RangeError an AssemblyScript array read past its end throws. */
  const INDEX_OUT_OF_RANGE: string := "Index out of range"

  datatype BigInt = BigInt(isNegative: bool, d: seq<int>)

  predicate IsI32(x: int) { MIN_I32 <= x <= MAX_I32 }

  /** An i32 result: x wrapped into [-2^31, 2^31) by whole turns of 2^32. */
  function Wrap32(x: int): (r: int)
    ensures IsI32(r)
    ensures IsI32(x) ==> r == x
    decreases if x > MAX_I32 then x - MAX_I32 else if x < MIN_I32 then MIN_I32 - x else 0
  {
    if x > MAX_I32 then Wrap32(x - TWO_32)
    else if x < MIN_I32 then Wrap32(x + TWO_32)
    else x
  }

  /** Wrapping keeps the value modulo 2^32: it is the i32 that agrees with x in the low 32 bits. */
  lemma {:induction false} Wrap32Congruent(x: int)
    ensures (x - Wrap32(x)) % TWO_32 == 0
    decreases if x > MAX_I32 then x - MAX_I32 else if x < MIN_I32 then MIN_I32 - x else 0
  {
    if x > MAX_I32 {
      Wrap32Congruent(x - TWO_32);
    } else if x < MIN_I32 {
      Wrap32Congruent(x + TWO_32);
    }
  }

  function Abs(x: int): nat { if x < 0 then -x else x }

  /** Integer division truncating toward zero, as i64 `/` does. */
  function TruncDiv(a: int, b: int): int
    requires b != 0
  {
    var q := Abs(a) / Abs(b);
    if (a < 0) != (b < 0) then -q else q
  }

  /** The remainder of truncating division: it takes the sign of the dividend, as i64 `%` does. */
  function TruncRem(a: int, b: int): (r: int)
    requires b != 0
    ensures Abs(r) < Abs(b)
  {
    if a < 0 then -(Abs(a) % Abs(b)) else a % Abs(b)
  }

  /** Every digit lies in [0, 10^9). */
  predicate InRange(d: seq<int>)
  {
    forall i :: 0 <= i < |d| ==> 0 <= d[i] < BASE
  }

  /** The number a digit vector stands for. */
  function Value(d: seq<int>): int
  {
    if d == [] then 0 else d[0] + BASE * Value(d[1..])
  }

  function Pow(k: nat): (r: nat)
    ensures r >= 1
  {
    if k == 0 then 1 else BASE * Pow(k - 1)
  }

  /** A non-negative value as `new BigInt` of its decimal numeral builds it. */
  predicate Canonical(b: BigInt)
  {
    !b.isNegative && |b.d| >= 1 && InRange(b.d) && (|b.d| == 1 || b.d[|b.d| - 1] != 0)
  }

  // ---------------------------------------------------------------------
  // trimLeadingZeros, fromDigits, copy, opposite
  // ---------------------------------------------------------------------

  /** The digits with the high zeros dropped, keeping at least one digit. */
  function Trimmed(d: seq<int>): (r: seq<int>)
    ensures |r| <= |d| && r == d[..|r|]
    ensures |r| <= 1 || r[|r| - 1] != 0
    ensures |d| >= 1 ==> |r| >= 1
    ensures forall i :: |r| <= i < |d| ==> d[i] == 0
    decreases |d|
  {
    if |d| > 1 && d[|d| - 1] == 0 then Trimmed(d[..|d| - 1]) else d
  }

  /** `trimLeadingZeros`: pops zero digits off the top while more than one digit is left. */
  method TrimLeadingZeros(d: seq<int>) returns (r: seq<int>)
    ensures r == Trimmed(d)
  {
    r := d;
    while |r| > 1 && r[|r| - 1] == 0
      invariant Trimmed(r) == Trimmed(d)
      decreases |r|
    {
      r := r[..|r| - 1];
    }
  }

  /** `BigInt.fromDigits`: the digits pushed one by one onto an empty value of the given sign, then trimmed. */
  method FromDigits(digits: seq<int>, isNegative: bool) returns (b: BigInt)
    ensures b == BigInt(isNegative, Trimmed(digits))
  {
    var d: seq<int> := [];
    for i := 0 to |digits|
      invariant d == digits[..i]
    {
      d := d + [digits[i]];
    }
    assert d == digits;
    d := TrimLeadingZeros(d);
    b := BigInt(isNegative, d);
  }

  /** `copy`: the same digits, trimmed, and the sign lost. */
  method Copy(a: BigInt) returns (b: BigInt)
    ensures b == BigInt(false, Trimmed(a.d))
  {
    b := FromDigits(a.d, false);
  }

  /** `opposite`: the same digits, trimmed, and the sign flipped. */
  method Opposite(a: BigInt) returns (b: BigInt)
    ensures b == BigInt(!a.isNegative, Trimmed(a.d))
  {
    b := FromDigits(a.d, !a.isNegative);
  }

  // ---------------------------------------------------------------------
  // constructor
  // ---------------------------------------------------------------------

  /** The longest prefix of decimal digits. */
  function LeadingDigits(s: string): (r: string)
    ensures IsDigits(r) && |r| <= |s| && r == s[..|r|]
    ensures IsDigits(s) ==> r == s
  {
    if s == [] || !IsDigit(s[0]) then [] else [s[0]] + LeadingDigits(s[1..])
  }

  /** `I32.parseInt` of one chunk, on decimal text: an optional sign, then the leading decimal digits; 0 when there are none. */
  function ParseChunk(s: string): int
  {
    if |s| > 0 && s[0] == '-' then 0 - DigitsValue(LeadingDigits(s[1..]))
    else if |s| > 0 && s[0] == '+' then DigitsValue(LeadingDigits(s[1..]))
    else DigitsValue(LeadingDigits(s))
  }

  /**
   * The chunks of the first i characters of s appended to acc: cut nine at a
   * time from the right, so least significant first; the last chunk may be
   * shorter.
   */
  function Chunks(acc: seq<int>, s: string, i: nat): (r: seq<int>)
    requires i <= |s|
    ensures |r| >= |acc| && r[..|acc|] == acc
    ensures i >= 1 ==> |r| > |acc|
    decreases i
  {
    if i == 0 then acc
    else if i < 9 then acc + [ParseChunk(s[..i])]
    else Chunks(acc + [ParseChunk(s[i - 9..i])], s, i - 9)
  }

  /** `new BigInt(s)`: a leading "-" sets the sign; the rest is cut into chunks, then trimmed. */
  function Parsed(s: string): BigInt
  {
    var negative := |s| >= 1 && s[0] == '-';
    var rest := if negative then s[1..] else s;
    BigInt(negative, Trimmed(Chunks([], rest, |rest|)))
  }

  /** The constructor (and `fromString`). */
  method FromString(s: string) returns (b: BigInt)
    ensures b == Parsed(s)
  {
    var negative := false;
    var rest := s;
    if |s| >= 1 && s[0] == '-' {
      negative := true;
      rest := s[1..];
    }
    var d: seq<int> := [];
    var i := |rest|;
    while i > 0
      invariant 0 <= i <= |rest|
      invariant Chunks(d, rest, i) == Chunks([], rest, |rest|)
      decreases i
    {
      var chunk;
      if i < 9 {
        chunk := rest[..i];
      } else {
        chunk := rest[i - 9..i];
      }
      d := d + [ParseChunk(chunk)];
      i := if i < 9 then 0 else i - 9;
    }
    d := TrimLeadingZeros(d);
    b := BigInt(negative, d);
  }

  // ---------------------------------------------------------------------
  // add and sub
  // ---------------------------------------------------------------------

  /** Digit i of y, or 0 past its end. */
  function At(y: seq<int>, i: nat): int
  {
    if i < |y| then y[i] else 0
  }

  /** One step of `add`: the i32 sum of a digit, the carry and the other digit, less 10^9 and a carry of 1 when it reaches 10^9. */
  function AddDigit(a: int, carry: int, b: int): (r: (int, int))
    ensures r.1 == 0 || r.1 == 1
  {
    var s := Wrap32(a + carry + b);
    if s >= BASE then (s - BASE, 1) else (s, 0)
  }

  /**
   * The carry loop of `add` from position i on, over the receiver's digits x
   * and the other's digits y: a zero digit is pushed when x runs out, each
   * sum is formed in i32, and the loop goes on while digits or a carry remain.
   */
  function AddFrom(x: seq<int>, y: seq<int>, i: nat, carry: int): (r: seq<int>)
    requires carry == 0 || carry == 1
    decreases (if i <= |x| then |x| - i else 0) + (if i <= |y| then |y| - i else 0), carry
  {
    if i >= |x| && i >= |y| && carry == 0 then []
    else
      var (digit, next) := AddDigit(At(x, i), carry, At(y, i));
      [digit] + AddFrom(x, y, i + 1, next)
  }

  /** A result with a prefix put in front of its digits. */
  function Prefixed(p: seq<int>, r: Result<seq<int>, string>): Result<seq<int>, string>
  {
    if r.Err? then r else Ok(p + r.value)
  }

  /**
   * The borrow loop of `sub` from position i on: it runs while digits of y
   * or a borrow remain, and reading a receiver digit past the end of x throws.
   */
  function SubFrom(x: seq<int>, y: seq<int>, i: nat, borrow: int): (r: Result<seq<int>, string>)
    requires i <= |x|
    ensures r.Err? ==> r.error == INDEX_OUT_OF_RANGE
    ensures r.Ok? ==> |r.value| == |x| - i
    decreases |x| - i
  {
    if i >= |y| && borrow == 0 then Ok(x[i..])
    else if i == |x| then Err(INDEX_OUT_OF_RANGE)
    else
      var step := SubDigit(x[i], borrow, At(y, i));
      Prefixed([step.0], SubFrom(x, y, i + 1, step.1))
  }

  /** One step of `sub`: the i32 difference of a digit, the borrow and the other digit, plus 10^9 and a borrow of 1 when it is negative. */
  function SubDigit(a: int, borrow: int, b: int): (r: (int, int))
    ensures r.1 == 0 || r.1 == 1
  {
    var s := Wrap32(a - borrow - b);
    if s < 0 then (Wrap32(s + BASE), 1) else (s, 0)
  }

  function PlusRank(a: BigInt, b: BigInt): nat
  {
    if a.isNegative != b.isNegative then 3 else 0
  }

  function MinusRank(a: BigInt, b: BigInt): nat
  {
    if !a.isNegative && !b.isNegative && Compare(a, b).Ok? && Compare(a, b).value < 0 then 2 else 1
  }

  /** `add`: mixed signs go to `sub`; equal signs add the digits of `copy()`, which has lost the sign. */
  function Plus(a: BigInt, b: BigInt): Result<BigInt, string>
    decreases PlusRank(a, b)
  {
    if a.isNegative && !b.isNegative then Minus(b, BigInt(false, Trimmed(a.d)))
    else if !a.isNegative && b.isNegative then Minus(a, BigInt(false, Trimmed(b.d)))
    else Ok(BigInt(false, AddFrom(Trimmed(a.d), b.d, 0, 0)))
  }

  /**
   * `sub`: any negative operand turns it into an `add`; two non-negative
   * operands are swapped (and the result negated) when `lt` holds, and
   * otherwise the digits of `copy()` are borrowed from.
   */
  function Minus(a: BigInt, b: BigInt): Result<BigInt, string>
    decreases MinusRank(a, b)
  {
    if a.isNegative && b.isNegative then Plus(a, b)
    else if !a.isNegative && b.isNegative then Plus(a, BigInt(false, Trimmed(b.d)))
    else if a.isNegative && !b.isNegative then Plus(a, BigInt(true, Trimmed(b.d)))
    else
      var c := Compare(a, b);
      if c.Err? then Err(c.error)
      else if c.value < 0 then
        CompareAntisymmetric(a, b);
        var r := Minus(b, a);
        if r.Err? then r else Ok(BigInt(!r.value.isNegative, Trimmed(r.value.d)))
      else
        var r := SubFrom(Trimmed(a.d), b.d, 0, 0);
        if r.Err? then Err(r.error) else Ok(BigInt(false, Trimmed(r.value)))
  }

  lemma PrefixedEmpty(r: Result<seq<int>, string>)
    ensures Prefixed([], r) == r
  {
    if r.Ok? {
      assert [] + r.value == r.value;
    }
  }

  lemma PrefixedAppend(p: seq<int>, digit: int, r: Result<seq<int>, string>)
    ensures Prefixed(p, Prefixed([digit], r)) == Prefixed(p + [digit], r)
  {
    if r.Ok? {
      assert p + ([digit] + r.value) == (p + [digit]) + r.value;
    }
  }

  /**
   * The loop of `add` as it runs on the copy's digits r: position i is
   * pushed as a zero when it is one past the end, and the loop goes on while
   * i < n or a carry remains.
   */
  function AddRun(r: seq<int>, y: seq<int>, n: nat, i: nat, carry: int): seq<int>
    requires |y| <= n && i <= |r| && (carry == 0 || carry == 1)
    decreases (if |r| >= n then |r| else n) + 1 - i, carry
  {
    if !(i < n || carry != 0) then r
    else
      var r' := if i == |r| then r + [0] else r;
      var (digit, next) := AddDigit(r'[i], carry, At(y, i));
      AddRun(r'[i := digit], y, n, i + 1, next)
  }

  /** The digits of x from position i on; none once i is past the end. */
  function Drop(x: seq<int>, i: nat): seq<int>
  {
    if i <= |x| then x[i..] else []
  }

  /** One turn of the loop of `add` on a copy holding p and then the digits of x from |p| on. */
  lemma AddRunStep(x: seq<int>, y: seq<int>, p: seq<int>, carry: int)
    requires carry == 0 || carry == 1
    requires |p| < |x| || |p| < |y| || carry != 0
    ensures var n := if |x| >= |y| then |x| else |y|;
      var step := AddDigit(At(x, |p|), carry, At(y, |p|));
      AddRun(p + Drop(x, |p|), y, n, |p|, carry) == AddRun((p + [step.0]) + Drop(x, |p| + 1), y, n, |p| + 1, step.1)
  {
    var i := |p|;
    var r := p + Drop(x, i);
    var step := AddDigit(At(x, i), carry, At(y, i));
    var pushed := if i == |r| then r + [0] else r;
    assert pushed[i] == At(x, i);
    assert pushed[i := step.0] == (p + [step.0]) + Drop(x, i + 1);
  }

  /**
   * Run on a copy holding the finished digits p followed by the digits of x
   * from position i = |p| on, the loop appends to p what `AddFrom` gives.
   */
  lemma {:induction false} AddRunIsAddFrom(x: seq<int>, y: seq<int>, p: seq<int>, carry: int)
    requires carry == 0 || carry == 1
    ensures AddRun(p + Drop(x, |p|), y, if |x| >= |y| then |x| else |y|, |p|, carry) == p + AddFrom(x, y, |p|, carry)
    decreases (if |p| <= |x| then |x| - |p| else 0) + (if |p| <= |y| then |y| - |p| else 0), carry
  {
    var i := |p|;
    if i < |x| || i < |y| || carry != 0 {
      var step := AddDigit(At(x, i), carry, At(y, i));
      AddRunStep(x, y, p, carry);
      AddRunIsAddFrom(x, y, p + [step.0], step.1);
      AppendAssoc(p, [step.0], AddFrom(x, y, i + 1, step.1));
    } else {
      assert p + Drop(x, i) == p + [];
    }
  }

  lemma AppendAssoc(a: seq<int>, b: seq<int>, c: seq<int>)
    ensures (a + b) + c == a + (b + c)
  {
  }

  /** The loop of `add` on the digits of the copy. */
  method AddLoop(x: seq<int>, y: seq<int>) returns (r: seq<int>)
    ensures r == AddFrom(x, y, 0, 0)
  {
    r := x;
    var carry := 0;
    var n := if |x| >= |y| then |x| else |y|;
    var i := 0;
    while i < n || carry != 0
      invariant i <= |r| && (carry == 0 || carry == 1)
      invariant AddRun(r, y, n, i, carry) == AddRun(x, y, n, 0, 0)
      decreases (if |r| >= n then |r| else n) + 1 - i, carry
    {
      if i == |r| {
        r := r + [0];
      }
      var step := AddDigit(r[i], carry, At(y, i));
      r := r[i := step.0];
      carry := step.1;
      i := i + 1;
    }
    AddRunIsAddFrom(x, y, [], 0);
    assert [] + Drop(x, 0) == x;
  }

  /** The loop of `sub` as it runs on the copy's digits r; reading past the end of r throws. */
  function SubRun(r: seq<int>, y: seq<int>, i: nat, borrow: int): Result<seq<int>, string>
    requires i <= |r|
    decreases |r| - i
  {
    if !(i < |y| || borrow != 0) then Ok(r)
    else if i == |r| then Err(INDEX_OUT_OF_RANGE)
    else
      var step := SubDigit(r[i], borrow, At(y, i));
      SubRun(r[i := step.0], y, i + 1, step.1)
  }

  /**
   * Run on a copy holding the finished digits p followed by the digits of x
   * from position |p| on, the loop puts p in front of what `SubFrom` gives.
   */
  lemma {:induction false} SubRunIsSubFrom(x: seq<int>, y: seq<int>, p: seq<int>, borrow: int)
    requires |p| <= |x|
    ensures SubRun(p + x[|p|..], y, |p|, borrow) == Prefixed(p, SubFrom(x, y, |p|, borrow))
    decreases |x| - |p|
  {
    var i := |p|;
    if (i < |y| || borrow != 0) && i < |x| {
      var step := SubDigit(x[i], borrow, At(y, i));
      assert (p + x[i..])[i := step.0] == (p + [step.0]) + x[i + 1..];
      SubRunIsSubFrom(x, y, p + [step.0], step.1);
      PrefixedAppend(p, step.0, SubFrom(x, y, i + 1, step.1));
    } else if i < |y| || borrow != 0 {
      assert p + x[i..] == p;
    } else if SubFrom(x, y, i, borrow).Ok? {
      assert SubFrom(x, y, i, borrow) == Ok(x[i..]);
    }
  }

  /** The loop of `sub` on the digits of the copy. */
  method SubLoop(x: seq<int>, y: seq<int>) returns (r: Result<seq<int>, string>)
    ensures r == SubFrom(x, y, 0, 0)
  {
    SubRunIsSubFrom(x, y, [], 0);
    assert [] + x[0..] == x;
    PrefixedEmpty(SubFrom(x, y, 0, 0));
    var d := x;
    var borrow := 0;
    var i := 0;
    while i < |y| || borrow != 0
      invariant i <= |d|
      invariant SubRun(d, y, i, borrow) == SubRun(x, y, 0, 0)
      decreases |d| - i
    {
      if i == |d| {
        return Err(INDEX_OUT_OF_RANGE);
      }
      var step := SubDigit(d[i], borrow, At(y, i));
      d := d[i := step.0];
      borrow := step.1;
      i := i + 1;
    }
    r := Ok(d);
  }

  /** `add`. */
  method Add(a: BigInt, b: BigInt) returns (r: Result<BigInt, string>)
    ensures r == Plus(a, b)
    decreases PlusRank(a, b), 1
  {
    if a.isNegative && !b.isNegative {
      var o := Opposite(a);
      r := Sub(b, o);
    } else if !a.isNegative && b.isNegative {
      var o := Opposite(b);
      r := Sub(a, o);
    } else {
      var res := Copy(a);
      var d := AddLoop(res.d, b.d);
      r := Ok(BigInt(false, d));
    }
  }

  /** `sub`. */
  method Sub(a: BigInt, b: BigInt) returns (r: Result<BigInt, string>)
    ensures r == Minus(a, b)
    decreases MinusRank(a, b), 0
  {
    if a.isNegative && b.isNegative {
      r := Add(a, b);
    } else if !a.isNegative && b.isNegative {
      var o := Opposite(b);
      r := Add(a, o);
    } else if a.isNegative && !b.isNegative {
      var o := Opposite(b);
      r := Add(a, o);
    } else {
      var c := CompareTo(a, b);
      if c.Err? {
        return Err(c.error);
      }
      if c.value < 0 {
        CompareAntisymmetric(a, b);
        var s := Sub(b, a);
        if s.Err? {
          return s;
        }
        var o := Opposite(s.value);
        return Ok(o);
      }
      var res := Copy(a);
      var d := SubLoop(res.d, b.d);
      if d.Err? {
        return Err(d.error);
      }
      var t := TrimLeadingZeros(d.value);
      r := Ok(BigInt(false, t));
    }
  }

  // ---------------------------------------------------------------------
  // mul
  // ---------------------------------------------------------------------

  /**
   * Row i of `mul`: the digit x times the digits y added into res from
   * position i on, the carry running on past y while non-zero. The sum is
   * formed in i32 and wraps; reading res past its end throws.
   */
  function MulRow(res: seq<int>, x: int, y: seq<int>, i: nat, j: nat, carry: int): (r: Result<seq<int>, string>)
    ensures r.Ok? ==> |r.value| == |res|
    ensures r.Err? ==> r.error == INDEX_OUT_OF_RANGE
    decreases |res| - (i + j)
  {
    if !(j < |y| || carry != 0) then Ok(res)
    else if i + j >= |res| then Err(INDEX_OUT_OF_RANGE)
    else
      var yj := if j < |y| then y[j] else 0;
      var cur := Wrap32(res[i + j] + x * yj + carry);
      MulRow(res[i + j := TruncRem(cur, BASE)], x, y, i, j + 1, TruncDiv(cur, BASE))
  }

  /** The rows of `mul` from row i on. */
  function MulRows(res: seq<int>, x: seq<int>, y: seq<int>, i: nat): (r: Result<seq<int>, string>)
    ensures r.Ok? ==> |r.value| == |res|
    ensures r.Err? ==> r.error == INDEX_OUT_OF_RANGE
    decreases |x| - i
  {
    if i >= |x| then Ok(res)
    else
      var row := MulRow(res, x[i], y, i, 0, 0);
      if row.Err? then row else MulRows(row.value, x, y, i + 1)
  }

  /** `mul`: |a| + |b| zero digits, the rows added in, then `fromDigits` with the sign set when the signs differ. */
  function Times(a: BigInt, b: BigInt): Result<BigInt, string>
  {
    var rows := MulRows(seq(|a.d| + |b.d|, _ => 0), a.d, b.d, 0);
    if rows.Err? then Err(rows.error) else Ok(BigInt(a.isNegative != b.isNegative, Trimmed(rows.value)))
  }

  /** `mul`. */
  method Mul(a: BigInt, b: BigInt) returns (r: Result<BigInt, string>)
    ensures r == Times(a, b)
  {
    var n := |a.d| + |b.d|;
    var res := new int[n](_ => 0);
    assert res[..] == seq(n, _ => 0);
    for i := 0 to |a.d|
      invariant res.Length == n
      invariant MulRows(res[..], a.d, b.d, i) == MulRows(seq(n, _ => 0), a.d, b.d, 0)
    {
      ghost var before := res[..];
      var row := MulRowLoop(res, a.d[i], b.d, i);
      MulRowsStep(before, a.d, b.d, i);
      if !row {
        return Err(INDEX_OUT_OF_RANGE);
      }
    }
    MulRowsDone(res[..], a.d, b.d);
    var t := TrimLeadingZeros(res[..]);
    r := Ok(BigInt(a.isNegative != b.isNegative, t));
  }

  /** Row i of `mul` either fails, failing the whole product, or hands its result to row i + 1. */
  lemma MulRowsStep(res: seq<int>, x: seq<int>, y: seq<int>, i: nat)
    requires i < |x|
    ensures MulRow(res, x[i], y, i, 0, 0).Err? ==> MulRows(res, x, y, i).Err?
    ensures MulRow(res, x[i], y, i, 0, 0).Ok? ==>
      MulRows(res, x, y, i) == MulRows(MulRow(res, x[i], y, i, 0, 0).value, x, y, i + 1)
  {
  }

  lemma MulRowsDone(res: seq<int>, x: seq<int>, y: seq<int>)
    ensures MulRows(res, x, y, |x|) == Ok(res)
  {
  }

  method MulRowLoop(res: array<int>, x: int, y: seq<int>, i: nat) returns (ok: bool)
    requires i <= res.Length
    modifies res
    ensures var row := MulRow(old(res[..]), x, y, i, 0, 0);
      ok == row.Ok? && (ok ==> res[..] == row.value)
  {
    var carry := 0;
    var j := 0;
    ghost var row := MulRow(res[..], x, y, i, 0, 0);
    while j < |y| || carry != 0
      invariant MulRow(res[..], x, y, i, j, carry) == row
      invariant i + j <= res.Length || !(j < |y| || carry != 0)
      decreases res.Length - (i + j)
    {
      if i + j >= res.Length {
        return false;
      }
      var yj := if j < |y| then y[j] else 0;
      var cur := Wrap32(res[i + j] + x * yj + carry);
      res[i + j] := TruncRem(cur, BASE);
      carry := TruncDiv(cur, BASE);
      j := j + 1;
    }
    return true;
  }

  // ---------------------------------------------------------------------
  // divInt and modInt
  // ---------------------------------------------------------------------

  /**
   * The loop of `divInt` and `modInt` from digit i down: the carry times
   * 10^9 plus the digit, formed in i32, divided by x; the quotient replaces
   * the digit and the remainder is carried. Gives the digits and the last carry.
   */
  function DivFrom(d: seq<int>, x: int, i: int, carry: int): (r: (seq<int>, int))
    requires x != 0 && -1 <= i < |d|
    ensures |r.0| == |d|
    decreases i + 1
  {
    if i < 0 then (d, carry)
    else
      var step := DivDigit(d[i], carry, x);
      DivFrom(d[i := step.0], x, i - 1, step.1)
  }

  /** One step of the division loop: the i32 quotient digit and the remainder carried down. */
  function DivDigit(digit: int, carry: int, x: int): (int, int)
    requires x != 0
  {
    var cur := Wrap32(digit + carry * BASE);
    (Wrap32(TruncDiv(cur, x)), TruncRem(cur, x))
  }

  /** `divInt`: "Divide by zero" for 0; otherwise the quotient digits, signed when exactly one operand is negative. */
  function Quotient(a: BigInt, x: int): Result<BigInt, string>
  {
    if x == 0 then Err(DIVIDE_BY_ZERO)
    else
      var d := Trimmed(a.d);
      Ok(BigInt(a.isNegative != (x < 0), Trimmed(DivFrom(d, x, |d| - 1, 0).0)))
  }

  /** `modInt`: "Divide by zero" for 0; otherwise the last carry of the division loop. */
  function Remainder(a: BigInt, x: int): Result<int, string>
  {
    if x == 0 then Err(DIVIDE_BY_ZERO)
    else
      var d := Trimmed(a.d);
      Ok(DivFrom(d, x, |d| - 1, 0).1)
  }

  /** The division loop shared by `divInt` and `modInt`. */
  method DivLoop(d: seq<int>, x: int) returns (q: seq<int>, carry: int)
    requires x != 0
    ensures (q, carry) == DivFrom(d, x, |d| - 1, 0)
  {
    q := d;
    carry := 0;
    var i := |d| - 1;
    while i >= 0
      invariant -1 <= i < |d| && |q| == |d|
      invariant DivFrom(q, x, i, carry) == DivFrom(d, x, |d| - 1, 0)
      decreases i + 1
    {
      var cur := Wrap32(q[i] + carry * BASE);
      q := q[i := Wrap32(TruncDiv(cur, x))];
      carry := TruncRem(cur, x);
      i := i - 1;
    }
  }

  /** `divInt`. */
  method DivInt(a: BigInt, x: int) returns (r: Result<BigInt, string>)
    requires IsI32(x)
    ensures r == Quotient(a, x)
  {
    if x == 0 {
      return Err(DIVIDE_BY_ZERO);
    }
    var res := FromDigits(a.d, a.isNegative != (x < 0));
    var q, _ := DivLoop(res.d, x);
    var t := TrimLeadingZeros(q);
    r := Ok(BigInt(res.isNegative, t));
  }

  /** `modInt`. */
  method ModInt(a: BigInt, x: int) returns (r: Result<int, string>)
    requires IsI32(x)
    ensures r == Remainder(a, x)
  {
    if x == 0 {
      return Err(DIVIDE_BY_ZERO);
    }
    var res := Copy(a);
    var _, carry := DivLoop(res.d, x);
    r := Ok(carry);
  }

  // ---------------------------------------------------------------------
  // compareTo and the comparisons built on it
  // ---------------------------------------------------------------------

  /** The digit loop of `compareTo`, from position k - 1 down: a smaller receiver digit gives 1, a larger -1. */
  function CompareFrom(x: seq<int>, y: seq<int>, k: nat): (r: int)
    requires |x| == |y| && k <= |x|
    ensures -1 <= r <= 1
  {
    if k == 0 then 0
    else if x[k - 1] < y[k - 1] then 1
    else if x[k - 1] > y[k - 1] then -1
    else CompareFrom(x, y, k - 1)
  }

  /**
   * `compareTo`: signs first, then the number of digits, then the number of
   * decimal characters of the top digit, then the digits from the top. On
   * non-negative operands each test answers the wrong way round; on two
   * negative ones the digit loop compares magnitudes and so gives the usual
   * sign, while the earlier tests stay reversed. Two empty digit vectors of the same
   * sign make it read digit -1, which throws.
   */
  function Compare(a: BigInt, b: BigInt): (r: Result<int, string>)
    ensures r.Ok? ==> -1 <= r.value <= 1
  {
    var la, lb := |a.d|, |b.d|;
    if a.isNegative && !b.isNegative then Ok(1)
    else if !a.isNegative && b.isNegative then Ok(-1)
    else if la > lb && !a.isNegative then Ok(-1)
    else if lb > la && !a.isNegative then Ok(1)
    else if la > lb && a.isNegative then Ok(1)
    else if lb > la && a.isNegative then Ok(-1)
    else if la == 0 then Err(INDEX_OUT_OF_RANGE)
    else
      var ta, tb := |IntToString(a.d[la - 1])|, |IntToString(b.d[lb - 1])|;
      if ta > tb && !a.isNegative then Ok(-1)
      else if tb > ta && !a.isNegative then Ok(1)
      else if ta > tb && a.isNegative then Ok(1)
      else if tb > ta && a.isNegative then Ok(-1)
      else Ok(CompareFrom(a.d, b.d, la))
  }

  /** `compareTo`. */
  method CompareTo(a: BigInt, b: BigInt) returns (r: Result<int, string>)
    ensures r == Compare(a, b)
  {
    var la, lb := |a.d|, |b.d|;
    if a.isNegative && !b.isNegative { return Ok(1); }
    if !a.isNegative && b.isNegative { return Ok(-1); }
    if la > lb && !a.isNegative { return Ok(-1); }
    if lb > la && !a.isNegative { return Ok(1); }
    if la > lb && a.isNegative { return Ok(1); }
    if lb > la && a.isNegative { return Ok(-1); }
    if la == 0 { return Err(INDEX_OUT_OF_RANGE); }
    var ta, tb := |IntToString(a.d[la - 1])|, |IntToString(b.d[lb - 1])|;
    if ta > tb && !a.isNegative { return Ok(-1); }
    if tb > ta && !a.isNegative { return Ok(1); }
    if ta > tb && a.isNegative { return Ok(1); }
    if tb > ta && a.isNegative { return Ok(-1); }
    var i := la - 1;
    while i >= 0
      invariant -1 <= i < la
      invariant CompareFrom(a.d, b.d, i + 1) == CompareFrom(a.d, b.d, la)
      decreases i + 1
    {
      if a.d[i] < b.d[i] { return Ok(1); }
      if a.d[i] > b.d[i] { return Ok(-1); }
      i := i - 1;
    }
    return Ok(0);
  }

  /** `equals`: `compareTo` answers 0, whichever way round the operands are taken. */
  function Equals(a: BigInt, b: BigInt): (r: Result<bool, string>)
    ensures r.Ok? <==> Compare(b, a).Ok?
    ensures r.Ok? ==> (r.value <==> Compare(b, a).value == 0)
  {
    CompareAntisymmetric(a, b);
    var c := Compare(a, b); if c.Err? then Err(c.error) else Ok(c.value == 0)
  }

  /** `lt`: the receiver is below the other exactly when the other is above the receiver. */
  function Lt(a: BigInt, b: BigInt): (r: Result<bool, string>)
    ensures r == Gt(b, a)
  {
    CompareAntisymmetric(a, b);
    var c := Compare(a, b); if c.Err? then Err(c.error) else Ok(c.value < 0)
  }

  /** `lte`: the swap of `gte`, and the negation of `gt`. */
  function Lte(a: BigInt, b: BigInt): (r: Result<bool, string>)
    ensures r == Gte(b, a)
    ensures r.Ok? <==> Gt(a, b).Ok?
    ensures r.Ok? ==> (r.value <==> !Gt(a, b).value)
  {
    CompareAntisymmetric(a, b);
    var c := Compare(a, b); if c.Err? then Err(c.error) else Ok(c.value <= 0)
  }

  /** `gt`: the other operand compares below the receiver when the operands are swapped. */
  function Gt(a: BigInt, b: BigInt): (r: Result<bool, string>)
    ensures r.Ok? <==> Compare(b, a).Ok?
    ensures r.Ok? ==> (r.value <==> Compare(b, a).value < 0)
  {
    CompareAntisymmetric(a, b);
    var c := Compare(a, b); if c.Err? then Err(c.error) else Ok(c.value > 0)
  }

  /** `gte`: the negation of `lt`. */
  function Gte(a: BigInt, b: BigInt): (r: Result<bool, string>)
    ensures r.Ok? <==> Lt(a, b).Ok?
    ensures r.Ok? ==> (r.value <==> !Lt(a, b).value)
  {
    var c := Compare(a, b); if c.Err? then Err(c.error) else Ok(c.value >= 0)
  }

  /** Swapping the operands of `compareTo` negates its answer, and it fails for both or neither. */
  lemma {:induction false} CompareAntisymmetric(a: BigInt, b: BigInt)
    ensures Compare(a, b).Ok? == Compare(b, a).Ok?
    ensures Compare(a, b).Ok? ==> Compare(b, a).value == -Compare(a, b).value
  {
    if |a.d| == |b.d| && |a.d| > 0 && a.isNegative == b.isNegative {
      CompareFromAntisymmetric(a.d, b.d, |a.d|);
    }
  }

  lemma {:induction false} CompareFromAntisymmetric(x: seq<int>, y: seq<int>, k: nat)
    requires |x| == |y| && k <= |x|
    ensures CompareFrom(y, x, k) == -CompareFrom(x, y, k)
  {
    if k > 0 && x[k - 1] == y[k - 1] {
      CompareFromAntisymmetric(x, y, k - 1);
    }
  }

  // ---------------------------------------------------------------------
  // toString
  // ---------------------------------------------------------------------

  /** A lower digit as `toString` writes it: padded with zeros to nine characters. */
  function Padded(x: int): string
  {
    PadStart(IntToString(x), 9, '0')
  }

  /** The digits i down to 0 appended to acc, each padded. */
  function Lower(acc: string, d: seq<int>, i: int): string
    requires i < |d|
    decreases i + 1
  {
    if i < 0 then acc else Lower(acc + Padded(d[i]), d, i - 1)
  }

  /** `toString`: "0" for no digits; otherwise the sign, the top digit as it is, then the lower digits padded. */
  function Format(b: BigInt): string
  {
    if |b.d| == 0 then "0"
    else Lower((if b.isNegative then "-" else "") + IntToString(b.d[|b.d| - 1]), b.d, |b.d| - 2)
  }

  /** `toString`. */
  method ToString(b: BigInt) returns (s: string)
    ensures s == Format(b)
  {
    if |b.d| == 0 {
      return "0";
    }
    var m := |b.d| - 1;
    s := (if b.isNegative then "-" else "") + IntToString(b.d[m]);
    var i := m - 1;
    while i >= 0
      invariant -1 <= i < m
      invariant Lower(s, b.d, i) == Format(b)
      decreases i + 1
    {
      s := s + Padded(b.d[i]);
      i := i - 1;
    }
  }
}
