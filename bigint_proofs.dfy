/**
 * What the base-10^9 big integer computes, stated on the values its digit
 * vectors stand for: `add` of operands of one sign is the magnitude sum
 * (the sign is lost), `compareTo` orders non-negative values the wrong
 * way round and negative ones only partly so, `sub` of two different non-negative values throws, `toString`
 * inverts the constructor on canonical numerals, and the i32 products of
 * `mul` and `modInt` wrap.
 */
module BigIntegerProofs {
  import opened Wrappers
  import opened Strings
  import opened BigIntegers

  // ---------------------------------------------------------------------
  // digit vectors and their values
  // ---------------------------------------------------------------------

  lemma InRangeTail(d: seq<int>, i: nat)
    requires InRange(d) && i <= |d|
    ensures InRange(d[i..]) && InRange(d[..i])
  {
  }

  /** A vector of n digits in range stands for a value in [0, 10^(9n)). */
  lemma {:induction false} ValueBound(d: seq<int>)
    requires InRange(d)
    ensures 0 <= Value(d) < Pow(|d|)
    decreases |d|
  {
    if d != [] {
      InRangeTail(d, 1);
      ValueBound(d[1..]);
    }
  }

  /** A digit put on top counts 10^9 to the power of the position it lands in. */
  lemma {:induction false} ValueSnoc(d: seq<int>, t: int)
    ensures Value(d + [t]) == Value(d) + t * Pow(|d|)
    decreases |d|
  {
    if d != [] {
      assert (d + [t])[1..] == d[1..] + [t];
      ValueSnoc(d[1..], t);
      assert BASE * (t * Pow(|d| - 1)) == t * Pow(|d|);
    }
  }

  /** Trimming drops only zero digits from the top, so it keeps the value. */
  lemma {:induction false} TrimmedValue(d: seq<int>)
    ensures Value(Trimmed(d)) == Value(d)
    decreases |d|
  {
    if |d| > 1 && d[|d| - 1] == 0 {
      var p := d[..|d| - 1];
      assert d == p + [0];
      ValueSnoc(p, 0);
      TrimmedValue(p);
    }
  }

  lemma TrimmedInRange(d: seq<int>)
    requires InRange(d)
    ensures InRange(Trimmed(d))
  {
    var r := Trimmed(d);
    assert forall k :: 0 <= k < |r| ==> r[k] == d[k];
  }

  lemma InRangeCons(digit: int, rest: seq<int>)
    requires 0 <= digit < BASE && InRange(rest)
    ensures InRange([digit] + rest)
  {
  }

  /** The value of the digits from i on is the digit at i plus 10^9 times the value of the rest. */
  lemma DropStep(x: seq<int>, i: nat)
    ensures Value(Drop(x, i)) == At(x, i) + BASE * Value(Drop(x, i + 1))
  {
    if i < |x| {
      assert x[i..][1..] == x[i + 1..];
    }
  }

  lemma DropInRange(x: seq<int>, i: nat)
    requires InRange(x)
    ensures InRange(Drop(x, i)) && 0 <= At(x, i) < BASE
  {
    if i <= |x| {
      InRangeTail(x, i);
    }
  }

  // ---------------------------------------------------------------------
  // add
  // ---------------------------------------------------------------------

  /** With digits in range no i32 sum wraps: a step of `add` splits the sum into a digit in range and a carry. */
  lemma AddDigitValue(a: int, carry: int, b: int)
    requires 0 <= a < BASE && 0 <= b < BASE && (carry == 0 || carry == 1)
    ensures var r := AddDigit(a, carry, b); 0 <= r.0 < BASE && r.0 + BASE * r.1 == a + carry + b
  {
    assert IsI32(a + carry + b);
  }

  lemma AddFromUnfold(x: seq<int>, y: seq<int>, i: nat, carry: int)
    requires carry == 0 || carry == 1
    requires !(i >= |x| && i >= |y| && carry == 0)
    ensures var step := AddDigit(At(x, i), carry, At(y, i));
      var rest := AddFrom(x, y, i + 1, step.1);
      AddFrom(x, y, i, carry) == [step.0] + rest && Value([step.0] + rest) == step.0 + BASE * Value(rest)
  {
    var step := AddDigit(At(x, i), carry, At(y, i));
    assert ([step.0] + AddFrom(x, y, i + 1, step.1))[1..] == AddFrom(x, y, i + 1, step.1);
  }

  /** With digits in range, the carry loop from position i yields digits in range. */
  lemma {:induction false} AddFromInRange(x: seq<int>, y: seq<int>, i: nat, carry: int)
    requires InRange(x) && InRange(y) && (carry == 0 || carry == 1)
    ensures InRange(AddFrom(x, y, i, carry))
    decreases (if i <= |x| then |x| - i else 0) + (if i <= |y| then |y| - i else 0), carry
  {
    if !(i >= |x| && i >= |y| && carry == 0) {
      DropInRange(x, i);
      DropInRange(y, i);
      var step := AddDigit(At(x, i), carry, At(y, i));
      AddDigitValue(At(x, i), carry, At(y, i));
      AddFromInRange(x, y, i + 1, step.1);
      AddFromUnfold(x, y, i, carry);
      InRangeCons(step.0, AddFrom(x, y, i + 1, step.1));
    }
  }

  /**
   * With digits in range, the value of what the carry loop yields from
   * position i is the value of both operands' digits from i on plus the carry.
   */
  lemma {:induction false} AddFromValue(x: seq<int>, y: seq<int>, i: nat, carry: int)
    requires InRange(x) && InRange(y) && (carry == 0 || carry == 1)
    ensures Value(AddFrom(x, y, i, carry)) == Value(Drop(x, i)) + Value(Drop(y, i)) + carry
    decreases (if i <= |x| then |x| - i else 0) + (if i <= |y| then |y| - i else 0), carry
  {
    if i >= |x| && i >= |y| && carry == 0 {
      assert Drop(x, i) == [] && Drop(y, i) == [];
    } else {
      DropInRange(x, i);
      DropInRange(y, i);
      var step := AddDigit(At(x, i), carry, At(y, i));
      AddDigitValue(At(x, i), carry, At(y, i));
      AddFromValue(x, y, i + 1, step.1);
      AddFromUnfold(x, y, i, carry);
      DropStep(x, i);
      DropStep(y, i);
    }
  }

  /**
   * `add` of two operands of the same sign adds their magnitudes and, as
   * `copy()` has lost the sign, always answers a non-negative value: the
   * sum of two negative numbers comes out positive.
   */
  lemma PlusSameSign(a: BigInt, b: BigInt)
    requires a.isNegative == b.isNegative && InRange(a.d) && InRange(b.d)
    ensures Plus(a, b).Ok? && !Plus(a, b).value.isNegative
    ensures InRange(Plus(a, b).value.d)
    ensures Value(Plus(a, b).value.d) == Value(a.d) + Value(b.d)
  {
    var x := Trimmed(a.d);
    TrimmedInRange(a.d);
    TrimmedValue(a.d);
    AddFromInRange(x, b.d, 0, 0);
    AddFromValue(x, b.d, 0, 0);
    assert Drop(x, 0) == x && Drop(b.d, 0) == b.d;
  }

  // ---------------------------------------------------------------------
  // compareTo
  // ---------------------------------------------------------------------

  lemma {:induction false} PowMonotone(i: nat, j: nat)
    requires i <= j
    ensures Pow(i) <= Pow(j)
    decreases j
  {
    if i < j {
      PowMonotone(i, j - 1);
    }
  }

  lemma MulMonotone(a: int, b: int, p: int)
    requires a <= b && p >= 0
    ensures a * p <= b * p
  {
    assert b * p - a * p == (b - a) * p;
  }

  /** A vector in range whose top digit is not zero stands for at least 10^9 to the power of its top position. */
  lemma TopBound(d: seq<int>)
    requires InRange(d) && |d| >= 1 && d[|d| - 1] != 0
    ensures Value(d) >= Pow(|d| - 1)
  {
    var p := d[..|d| - 1];
    assert d == p + [d[|d| - 1]];
    ValueSnoc(p, d[|d| - 1]);
    InRangeTail(d, |d| - 1);
    ValueBound(p);
    MulMonotone(1, d[|d| - 1], Pow(|d| - 1));
  }

  /** Of two vectors in range, one with more digits and a non-zero top digit is the larger. */
  lemma LongerIsLarger(x: seq<int>, y: seq<int>)
    requires InRange(x) && InRange(y) && |x| > |y| && x[|x| - 1] != 0
    ensures Value(y) < Value(x)
  {
    TopBound(x);
    ValueBound(y);
    PowMonotone(|y|, |x| - 1);
  }

  /** Of two vectors in range of one length, the one with the smaller top digit is the smaller. */
  lemma TopDominates(p: seq<int>, q: seq<int>, s: int, t: int)
    requires |p| == |q| && InRange(p) && InRange(q) && 0 <= s < t
    ensures Value(p + [s]) < Value(q + [t])
  {
    var n := Pow(|p|);
    ValueSnoc(p, s);
    ValueSnoc(q, t);
    ValueBound(p);
    ValueBound(q);
    MulMonotone(s + 1, t, n);
    assert (s + 1) * n == s * n + n;
  }

  /**
   * The digit loop of `compareTo` from position k - 1 down answers 1 when
   * the receiver's first k digits stand for the smaller value, -1 when for
   * the larger, and 0 when for the same.
   */
  lemma {:induction false} CompareFromValue(x: seq<int>, y: seq<int>, k: nat)
    requires |x| == |y| && k <= |x| && InRange(x) && InRange(y)
    ensures CompareFrom(x, y, k) == if Value(x[..k]) < Value(y[..k]) then 1
                                    else if Value(x[..k]) > Value(y[..k]) then -1
                                    else 0
    decreases k
  {
    if k > 0 {
      var p, q := x[..k - 1], y[..k - 1];
      assert x[..k] == p + [x[k - 1]] && y[..k] == q + [y[k - 1]];
      InRangeTail(x, k - 1);
      InRangeTail(y, k - 1);
      if x[k - 1] < y[k - 1] {
        TopDominates(p, q, x[k - 1], y[k - 1]);
      } else if x[k - 1] > y[k - 1] {
        TopDominates(q, p, y[k - 1], x[k - 1]);
      } else {
        ValueSnoc(p, x[k - 1]);
        ValueSnoc(q, y[k - 1]);
        CompareFromValue(x, y, k - 1);
      }
    }
  }

  lemma {:induction false} Pow10Monotone(i: nat, j: nat)
    requires i <= j
    ensures Pow10(i) <= Pow10(j)
    decreases j
  {
    if i < j {
      Pow10Monotone(i, j - 1);
    }
  }

  /** A number written with more decimal characters than another is the larger. */
  lemma TextLengthOrder(m: nat, n: nat)
    requires |NatToString(m)| > |NatToString(n)|
    ensures m > n
  {
    var sm, sn := NatToString(m), NatToString(n);
    DigitsValueOfNatToString(m);
    DigitsValueOfNatToString(n);
    LeadingDigitBound(sm);
    DigitsValueBound(sn);
    Pow10Monotone(|sn|, |sm| - 1);
  }

  /** Of two canonical vectors of one length, the one whose top digit has more decimal characters is the larger. */
  lemma TopTextOrder(x: seq<int>, y: seq<int>)
    requires |x| == |y| >= 1 && InRange(x) && InRange(y)
    requires |IntToString(x[|x| - 1])| > |IntToString(y[|y| - 1])|
    ensures Value(y) < Value(x)
  {
    var k := |x| - 1;
    TextLengthOrder(x[k], y[k]);
    assert x == x[..k] + [x[k]] && y == y[..k] + [y[k]];
    InRangeTail(x, k);
    InRangeTail(y, k);
    TopDominates(y[..k], x[..k], y[k], x[k]);
  }

  /**
   * On canonical values `compareTo` answers the wrong way round: 1 when the
   * receiver is the smaller, -1 when it is the larger, 0 when they are equal.
   * So `lt` holds exactly when the receiver is the larger.
   */
  lemma CompareReversed(a: BigInt, b: BigInt)
    requires Canonical(a) && Canonical(b)
    ensures Compare(a, b) == Ok(if Value(a.d) < Value(b.d) then 1 else if Value(a.d) > Value(b.d) then -1 else 0)
    ensures Lt(a, b) == Ok(Value(a.d) > Value(b.d))
  {
    var la, lb := |a.d|, |b.d|;
    if la != lb {
      CompareReversedByLength(a, b);
    } else if |IntToString(a.d[la - 1])| != |IntToString(b.d[lb - 1])| {
      CompareReversedByTopText(a, b);
    } else {
      CompareReversedByDigits(a, b);
    }
  }

  /** Digit vectors of different lengths: the longer one is the larger. */
  lemma CompareReversedByLength(a: BigInt, b: BigInt)
    requires Canonical(a) && Canonical(b) && |a.d| != |b.d|
    ensures Compare(a, b) == Ok(if Value(a.d) < Value(b.d) then 1 else if Value(a.d) > Value(b.d) then -1 else 0)
  {
    if |a.d| > |b.d| {
      LongerIsLarger(a.d, b.d);
    } else {
      LongerIsLarger(b.d, a.d);
    }
  }

  /** Equal lengths, top digits of different widths: the wider top digit is the larger number. */
  lemma CompareReversedByTopText(a: BigInt, b: BigInt)
    requires Canonical(a) && Canonical(b) && |a.d| == |b.d|
    requires |IntToString(a.d[|a.d| - 1])| != |IntToString(b.d[|b.d| - 1])|
    ensures Compare(a, b) == Ok(if Value(a.d) < Value(b.d) then 1 else if Value(a.d) > Value(b.d) then -1 else 0)
  {
    if |IntToString(a.d[|a.d| - 1])| > |IntToString(b.d[|b.d| - 1])| {
      TopTextOrder(a.d, b.d);
    } else {
      TopTextOrder(b.d, a.d);
    }
  }

  /** Equal lengths and top widths: the digit-by-digit comparison from the top decides. */
  lemma CompareReversedByDigits(a: BigInt, b: BigInt)
    requires Canonical(a) && Canonical(b) && |a.d| == |b.d|
    requires |IntToString(a.d[|a.d| - 1])| == |IntToString(b.d[|b.d| - 1])|
    ensures Compare(a, b) == Ok(if Value(a.d) < Value(b.d) then 1 else if Value(a.d) > Value(b.d) then -1 else 0)
  {
    CompareFromValue(a.d, b.d, |a.d|);
    assert a.d[..|a.d|] == a.d && b.d[..|b.d|] == b.d;
  }

  /**
   * Two negative numbers: the tests on the digit count and on the width of
   * the top digit answer the wrong way round, as for non-negative ones, but
   * the digit loop compares magnitudes, which for negatives gives the usual
   * sign.
   */
  lemma CompareNegatives(a: BigInt, b: BigInt)
    requires a.isNegative && b.isNegative
    requires Canonical(BigInt(false, a.d)) && Canonical(BigInt(false, b.d))
    ensures |a.d| != |b.d| || |IntToString(a.d[|a.d| - 1])| != |IntToString(b.d[|b.d| - 1])| ==>
              Compare(a, b) == Ok(if -Value(a.d) < -Value(b.d) then 1 else if -Value(a.d) > -Value(b.d) then -1 else 0)
    ensures |a.d| == |b.d| && |IntToString(a.d[|a.d| - 1])| == |IntToString(b.d[|b.d| - 1])| ==>
              Compare(a, b) == Ok(if -Value(a.d) < -Value(b.d) then -1 else if -Value(a.d) > -Value(b.d) then 1 else 0)
  {
    var pa, pb := BigInt(false, a.d), BigInt(false, b.d);
    if |a.d| != |b.d| {
      CompareReversedByLength(pa, pb);
    } else if |IntToString(a.d[|a.d| - 1])| != |IntToString(b.d[|b.d| - 1])| {
      CompareReversedByTopText(pa, pb);
    } else {
      CompareReversedByDigits(pa, pb);
    }
  }

  // ---------------------------------------------------------------------
  // sub
  // ---------------------------------------------------------------------

  /** With digits in range no i32 difference wraps: a step of `sub` gives a digit in range and a borrow. */
  lemma SubDigitValue(a: int, borrow: int, b: int)
    requires 0 <= a < BASE && 0 <= b < BASE && (borrow == 0 || borrow == 1)
    ensures var r := SubDigit(a, borrow, b); 0 <= r.0 < BASE && r.0 - BASE * r.1 == a - borrow - b
  {
    assert IsI32(a - borrow - b);
    assert IsI32(a - borrow - b + BASE);
  }

  lemma SubFromUnfold(x: seq<int>, y: seq<int>, i: nat, borrow: int)
    requires i < |x| && (i < |y| || borrow != 0)
    ensures var step := SubDigit(x[i], borrow, At(y, i));
      var rest := SubFrom(x, y, i + 1, step.1);
      SubFrom(x, y, i, borrow) == Prefixed([step.0], rest) &&
      (rest.Ok? ==> Value([step.0] + rest.value) == step.0 + BASE * Value(rest.value))
  {
    var step := SubDigit(x[i], borrow, At(y, i));
    var rest := SubFrom(x, y, i + 1, step.1);
    if rest.Ok? {
      assert ([step.0] + rest.value)[1..] == rest.value;
    }
  }

  /** With digits in range, the borrow loop from position i yields digits in range. */
  lemma {:induction false} SubFromInRange(x: seq<int>, y: seq<int>, i: nat, borrow: int)
    requires InRange(x) && InRange(y) && (borrow == 0 || borrow == 1) && i <= |x|
    ensures SubFrom(x, y, i, borrow).Ok? ==> InRange(SubFrom(x, y, i, borrow).value)
    decreases |x| - i
  {
    if i >= |y| && borrow == 0 {
      InRangeTail(x, i);
    } else if i < |x| {
      DropInRange(y, i);
      var step := SubDigit(x[i], borrow, At(y, i));
      SubDigitValue(x[i], borrow, At(y, i));
      SubFromInRange(x, y, i + 1, step.1);
      var rest := SubFrom(x, y, i + 1, step.1);
      if rest.Ok? {
        InRangeCons(step.0, rest.value);
      }
    }
  }

  /**
   * With digits in range, the borrow loop from position i succeeds exactly
   * when the other operand has no more digits than the receiver and the
   * receiver's digits from i on are worth at least the other's plus the
   * borrow; it then yields the difference.
   */
  lemma {:induction false} SubFromValue(x: seq<int>, y: seq<int>, i: nat, borrow: int)
    requires InRange(x) && InRange(y) && (borrow == 0 || borrow == 1) && i <= |x|
    ensures SubFrom(x, y, i, borrow).Ok? <==> |y| <= |x| && Value(x[i..]) >= Value(Drop(y, i)) + borrow
    ensures SubFrom(x, y, i, borrow).Ok? ==>
              Value(SubFrom(x, y, i, borrow).value) == Value(x[i..]) - Value(Drop(y, i)) - borrow
    decreases |x| - i
  {
    InRangeTail(x, i);
    ValueBound(x[i..]);
    if i >= |y| && borrow == 0 {
      assert Drop(y, i) == [];
    } else if i == |x| {
      assert x[i..] == [];
      DropInRange(y, i);
      ValueBound(Drop(y, i));
    } else {
      DropInRange(y, i);
      var step := SubDigit(x[i], borrow, At(y, i));
      SubDigitValue(x[i], borrow, At(y, i));
      SubFromValue(x, y, i + 1, step.1);
      SubFromUnfold(x, y, i, borrow);
      DropStep(x, i);
      DropStep(y, i);
      assert Drop(x, i) == x[i..] && Drop(x, i + 1) == x[i + 1..];
    }
  }

  /** A vector in range worth nothing trims to the single digit 0. */
  lemma {:induction false} ZeroTrimmed(d: seq<int>)
    requires InRange(d) && |d| >= 1 && Value(d) == 0
    ensures Trimmed(d) == [0]
    decreases |d|
  {
    var k := |d| - 1;
    var p := d[..k];
    assert d == p + [d[k]];
    ValueSnoc(p, d[k]);
    InRangeTail(d, k);
    ValueBound(p);
    if d[k] >= 1 {
      MulMonotone(1, d[k], Pow(k));
    }
    if k >= 1 {
      ZeroTrimmed(p);
    }
  }

  /**
   * `sub` of two canonical non-negative values: the reversed `lt` sends the
   * larger-minus-smaller case to the swapped subtraction, so both orders
   * borrow past the end of the smaller operand and throw. Only equal values
   * succeed, with 0.
   */
  lemma MinusOfCanonicals(a: BigInt, b: BigInt)
    requires Canonical(a) && Canonical(b)
    ensures Minus(a, b) == if Value(a.d) == Value(b.d) then Ok(BigInt(false, [0])) else Err(INDEX_OUT_OF_RANGE)
  {
    CompareReversed(a, b);
    CompareReversed(b, a);
    assert Trimmed(a.d) == a.d && Trimmed(b.d) == b.d;
    assert Drop(a.d, 0) == a.d && Drop(b.d, 0) == b.d;
    assert a.d[0..] == a.d && b.d[0..] == b.d;
    SubFromValue(a.d, b.d, 0, 0);
    SubFromValue(b.d, a.d, 0, 0);
    if Value(a.d) == Value(b.d) {
      if |b.d| > |a.d| {
        LongerIsLarger(b.d, a.d);
      }
      var r := SubFrom(a.d, b.d, 0, 0);
      SubFromInRange(a.d, b.d, 0, 0);
      ZeroTrimmed(r.value);
    }
  }

  // ---------------------------------------------------------------------
  // mul, divInt and modInt
  // ---------------------------------------------------------------------

  /** 10^10 wraps in i32 to 1410065408. */
  lemma WrapProduct()
    ensures Wrap32(100000 * 100000) == 1410065408
  {
    assert Wrap32(10000000000) == Wrap32(5705032704);
    assert Wrap32(5705032704) == Wrap32(1410065408);
  }

  /** The first partial product of 100000 * 100000 leaves digit 410065408 and carry 1. */
  lemma MulWrapsFirstDigit()
    ensures MulRow([0, 0], 100000, [100000], 0, 0, 0) == MulRow([410065408, 0], 100000, [100000], 0, 1, 1)
  {
    WrapProduct();
    assert Wrap32(0 + 100000 * 100000 + 0) == 1410065408;
    assert TruncRem(1410065408, BASE) == 410065408 && TruncDiv(1410065408, BASE) == 1;
    assert [0, 0][0 := 410065408] == [410065408, 0];
  }

  /** The carry 1 lands in the second digit. */
  lemma MulWrapsCarry()
    ensures MulRow([410065408, 0], 100000, [100000], 0, 1, 1) == Ok([410065408, 1])
  {
    assert Wrap32(0 + 100000 * 0 + 1) == 1;
    assert TruncRem(1, BASE) == 1 && TruncDiv(1, BASE) == 0;
    assert [410065408, 0][1 := 1] == [410065408, 1];
    assert MulRow([410065408, 1], 100000, [100000], 0, 2, 0) == Ok([410065408, 1]);
  }

  /**
   * `mul` forms each partial product in i32: 100000 * 100000 wraps to
   * 1410065408 and the product comes out as that value, not 10^10.
   */
  lemma MulWraps()
    ensures Times(BigInt(false, [100000]), BigInt(false, [100000])) == Ok(BigInt(false, [410065408, 1]))
    ensures Value([410065408, 1]) == 1410065408 != 100000 * 100000
  {
    MulWrapsFirstDigit();
    MulWrapsCarry();
    assert seq(2, _ => 0) == [0, 0];
    assert MulRows([410065408, 1], [100000], [100000], 1) == Ok([410065408, 1]);
    assert Trimmed([410065408, 1]) == [410065408, 1];
    assert Value([410065408, 1]) == 410065408 + BASE * Value([1]);
    assert Value([1]) == 1 + BASE * Value([]);
  }

  /**
   * The carry times 10^9 plus a digit is formed in i32: with divisor 3 it
   * can reach 2^31 and wrap, so `modInt` of 2147483648 by 3 gives -2
   * where the remainder is 2.
   */
  lemma RemainderOverflow()
    ensures Value([147483648, 2]) == 2147483648 && 2147483648 % 3 == 2
    ensures Remainder(BigInt(false, [147483648, 2]), 3) == Ok(-2)
  {
    assert Value([147483648, 2]) == 147483648 + BASE * Value([2]);
    assert Value([2]) == 2 + BASE * Value([]);
    assert Trimmed([147483648, 2]) == [147483648, 2];
    assert Wrap32(2 + 0 * BASE) == 2;
    assert TruncDiv(2, 3) == 0 && TruncRem(2, 3) == 2;
    assert Wrap32(147483648 + 2 * BASE) == Wrap32(2147483648 - TWO_32);
    assert Wrap32(147483648 + 2 * BASE) == -2147483648;
    assert TruncRem(-2147483648, 3) == -2;
    var last := DivFrom([147483648, 2][1 := 0], 3, 0, 2);
    assert last.1 == -2;
    assert DivFrom([147483648, 2], 3, 1, 0).1 == -2;
  }

  /** The arithmetic of one step of the division loop. */
  lemma DivStepArith(v: int, q: int, p: int, x: int, c: int, w: int, r: int, digit: int, carry: int)
    requires v * x + c == w + r * p
    requires q * x + r == digit + carry * BASE
    ensures (v + q * p) * x + c == (w + digit * p) + carry * (BASE * p)
  {
    assert (v + q * p) * x == v * x + (q * x) * p;
    assert (q * x) * p == (digit + carry * BASE) * p - r * p;
    assert (digit + carry * BASE) * p == digit * p + carry * (BASE * p);
  }

  /** One step of the division loop by 1 or 2 wraps nothing and yields a digit in range and a carry below the divisor. */
  lemma DivDigitValue(digit: int, carry: int, x: int)
    requires 0 <= digit < BASE && 1 <= x <= 2 && 0 <= carry < x
    ensures var r := DivDigit(digit, carry, x);
      0 <= r.0 < BASE && 0 <= r.1 < x && r.0 * x + r.1 == digit + carry * BASE
  {
    var cur := digit + carry * BASE;
    assert IsI32(cur);
    if x == 1 {
      assert TruncDiv(cur, 1) == cur && TruncRem(cur, 1) == 0;
    } else {
      assert TruncDiv(cur, 2) == cur / 2 && TruncRem(cur, 2) == cur % 2;
    }
  }

  /** The division loop run from digit i down leaves the digits above i alone. */
  lemma {:induction false} DivFromFrame(d: seq<int>, x: int, i: int, carry: int)
    requires x != 0 && -1 <= i < |d|
    ensures DivFrom(d, x, i, carry).0[i + 1..] == d[i + 1..]
    decreases i + 1
  {
    if i >= 0 {
      var step := DivDigit(d[i], carry, x);
      var d' := d[i := step.0];
      DivFromFrame(d', x, i - 1, step.1);
      assert d'[i + 1..] == d[i + 1..];
    }
  }

  /**
   * For divisor 1 or 2 no i32 intermediate of the division loop wraps: run
   * from digit i down with a carry below the divisor, it divides the value
   * of the digits up to i, plus the carry at their top, exactly.
   */
  lemma {:induction false} DivFromValue(d: seq<int>, x: int, i: int, carry: int)
    requires InRange(d) && 1 <= x <= 2 && -1 <= i < |d| && 0 <= carry < x
    ensures var r := DivFrom(d, x, i, carry);
      InRange(r.0) && 0 <= r.1 < x &&
      Value(r.0[..i + 1]) * x + r.1 == Value(d[..i + 1]) + carry * Pow(i + 1)
    decreases i + 1
  {
    if i >= 0 {
      var step := DivDigit(d[i], carry, x);
      DivDigitValue(d[i], carry, x);
      var q := step.0;
      var d' := d[i := q];
      DivFromValue(d', x, i - 1, step.1);
      DivFromFrame(d', x, i - 1, step.1);
      var r := DivFrom(d', x, i - 1, step.1);
      assert r.0[..i + 1] == r.0[..i] + [q] by {
        assert r.0[i] == r.0[i..][0] == d'[i..][0];
      }
      assert d[..i + 1] == d'[..i] + [d[i]];
      ValueSnoc(r.0[..i], q);
      ValueSnoc(d'[..i], d[i]);
      DivStepArith(Value(r.0[..i]), q, Pow(i), x, r.1, Value(d'[..i]), step.1, d[i], carry);
      assert Pow(i + 1) == BASE * Pow(i);
    }
  }

  /** The quotient and remainder by 1 or 2 are the only ones with the remainder below the divisor. */
  lemma DivUnique(n: int, q: int, r: int, x: int)
    requires (x == 1 || x == 2) && q * x + r == n && 0 <= r < x
    ensures q == n / x && r == n % x
  {
  }

  /**
   * `divInt` and `modInt` by 1 or 2 of digits in range are exact: the
   * quotient keeps the receiver's sign and holds the value divided, and
   * the remainder is the value's remainder.
   */
  lemma DivideSmall(a: BigInt, x: int)
    requires InRange(a.d) && (x == 1 || x == 2)
    ensures Quotient(a, x).Ok? && Quotient(a, x).value.isNegative == a.isNegative
    ensures InRange(Quotient(a, x).value.d) && Value(Quotient(a, x).value.d) == Value(a.d) / x
    ensures Remainder(a, x) == Ok(Value(a.d) % x)
  {
    var d := Trimmed(a.d);
    TrimmedValue(a.d);
    TrimmedInRange(a.d);
    DivideWhole(d, x);
    var q := DivFrom(d, x, |d| - 1, 0).0;
    TrimmedValue(q);
    TrimmedInRange(q);
  }

  /** The whole division loop by 1 or 2 over digits in range leaves the quotient's digits and the remainder. */
  lemma DivideWhole(d: seq<int>, x: int)
    requires InRange(d) && (x == 1 || x == 2)
    ensures InRange(DivFrom(d, x, |d| - 1, 0).0)
    ensures Value(DivFrom(d, x, |d| - 1, 0).0) == Value(d) / x
    ensures DivFrom(d, x, |d| - 1, 0).1 == Value(d) % x
  {
    DivFromValue(d, x, |d| - 1, 0);
    var r := DivFrom(d, x, |d| - 1, 0);
    assert r.0[..|d|] == r.0 && d[..|d|] == d;
    DivUnique(Value(d), Value(r.0), r.1, x);
  }

  // ---------------------------------------------------------------------
  // the constructor and toString
  // ---------------------------------------------------------------------

  lemma ShiftArith(a: int, p: int, v: int, digit: int)
    ensures 10 * (a * p + v) + digit == a * (10 * p) + (10 * v + digit)
  {
  }

  /** The value of two numerals written one after the other. */
  lemma {:induction false} DigitsValueConcat(u: string, c: string)
    requires IsDigits(u) && IsDigits(c)
    ensures DigitsValue(u + c) == DigitsValue(u) * Pow10(|c|) + DigitsValue(c)
    decreases |c|
  {
    if c == [] {
      assert u + c == u;
    } else {
      var c' := c[..|c| - 1];
      var uc := u + c;
      assert uc[..|uc| - 1] == u + c' && uc[|uc| - 1] == c[|c| - 1];
      assert IsDigits(c');
      DigitsValueConcat(u, c');
      var digit := DigitOf(c[|c| - 1]);
      assert DigitsValue(uc) == 10 * DigitsValue(u + c') + digit;
      assert DigitsValue(c) == 10 * DigitsValue(c') + digit;
      ShiftArith(DigitsValue(u), Pow10(|c'|), DigitsValue(c'), digit);
    }
  }

  lemma Pow10Nine()
    ensures Pow10(9) == BASE
  {
    assert Pow10(3) == 1000;
    assert Pow10(6) == 1000 * Pow10(3);
    assert Pow10(9) == 1000 * Pow10(6);
  }

  /** A chunk of decimal characters is parsed to its value: it has no sign to read. */
  lemma ParseChunkDigits(c: string)
    requires IsDigits(c)
    ensures ParseChunk(c) == DigitsValue(c)
  {
    if |c| > 0 {
      assert IsDigit(c[0]);
    }
  }

  /** A leading zero adds nothing to the value. */
  lemma LeadingZeroValue(s: string)
    requires IsDigits(s)
    ensures DigitsValue(['0'] + s) == DigitsValue(s)
  {
    DigitsValueConcat(['0'], s);
    var zero := DigitsValue(['0']);
    assert zero == 10 * DigitsValue([]) + DigitOf('0');
    assert zero * Pow10(|s|) == 0;
  }

  /** Padding with zeros in front adds one zero at a time. */
  lemma {:induction false} PadStartCons(x: string, n: nat, c: char)
    requires |x| < n
    ensures PadStart(x, n, c) == [c] + PadStart(x, n - 1, c)
    decreases n - |x|
  {
    if |x| + 1 < n {
      PadStartCons([c] + x, n, c);
    }
  }

  /**
   * A run of n decimal characters is rebuilt from its value by padding
   * with zeros to n characters: `toString` writes a lower digit back as
   * the 9 characters it was parsed from.
   */
  lemma {:induction false} PadRoundTrip(w: string)
    requires IsDigits(w) && |w| >= 1
    ensures PadStart(NatToString(DigitsValue(w)), |w|, '0') == w
    decreases |w|
  {
    if |w| > 1 && w[0] == '0' {
      var w' := w[1..];
      assert w == ['0'] + w';
      LeadingZeroValue(w');
      PadRoundTrip(w');
      var x := NatToString(DigitsValue(w'));
      PadStartCons(x, |w|, '0');
      assert PadStart(x, |w|, '0') == ['0'] + w';
    } else {
      NatToStringOfDigitsValue(w);
    }
  }

  lemma PaddedChunk(w: string)
    requires IsDigits(w) && |w| == 9
    ensures Padded(DigitsValue(w)) == w
  {
    PadRoundTrip(w);
  }

  /** The accumulator of the chunk loop is the bottom of its result. */
  lemma {:induction false} ChunksShift(acc: seq<int>, s: string, i: nat)
    requires i <= |s|
    ensures Chunks(acc, s, i) == acc + Chunks([], s, i)
    decreases i
  {
    var p := if i < 9 then [ParseChunk(s[..i])] else [ParseChunk(s[i - 9..i])];
    assert [] + p == p;
    if i >= 9 {
      ChunksShift(acc + p, s, i - 9);
      ChunksShift(p, s, i - 9);
      AppendAssoc(acc, p, Chunks([], s, i - 9));
    }
  }

  /** The chunk loop from i: the chunk ending at i, then the loop from i - 9. */
  lemma ChunksUnfold(s: string, i: nat)
    requires 9 <= i <= |s|
    ensures Chunks([], s, i) == [ParseChunk(s[i - 9..i])] + Chunks([], s, i - 9)
  {
    var p := [ParseChunk(s[i - 9..i])];
    assert [] + p == p;
    ChunksShift(p, s, i - 9);
  }

  /** Up to 9 characters make a single chunk. */
  lemma ChunksSingle(s: string, i: nat)
    requires 1 <= i <= 9 && i <= |s|
    ensures Chunks([], s, i) == [ParseChunk(s[..i])]
  {
    if i == 9 {
      ChunksUnfold(s, 9);
      assert s[0..9] == s[..9];
    } else {
      assert [] + [ParseChunk(s[..i])] == [ParseChunk(s[..i])];
    }
  }

  /** The chunks of the first i decimal characters, bottom first, as the values of their characters. */
  function DecimalChunks(t: string, i: nat): (r: seq<int>)
    requires IsDigits(t) && i <= |t|
    ensures i >= 1 ==> |r| >= 1
    decreases i
  {
    if i == 0 then []
    else if i <= 9 then [DigitsValue(t[..i])]
    else [DigitsValue(t[i - 9..i])] + DecimalChunks(t, i - 9)
  }

  /** On decimal characters the chunk loop yields the values of their chunks. */
  lemma {:induction false} ChunksDecimal(t: string, i: nat)
    requires IsDigits(t) && i <= |t|
    ensures Chunks([], t, i) == DecimalChunks(t, i)
    decreases i
  {
    if 1 <= i <= 9 {
      ChunksSingle(t, i);
      ParseChunkDigits(t[..i]);
    } else if i > 9 {
      ChunksUnfold(t, i);
      ParseChunkDigits(t[i - 9..i]);
      ChunksDecimal(t, i - 9);
    }
  }

  lemma ValueCons(x: int, rest: seq<int>)
    ensures Value([x] + rest) == x + BASE * Value(rest)
  {
    assert ([x] + rest)[1..] == rest;
  }

  lemma SliceSplit(s: string, a: nat, b: nat, c: nat)
    requires a <= b <= c <= |s|
    ensures s[a..c] == s[a..b] + s[b..c]
  {
  }

  /** The chunks of decimal characters are digits in range. */
  lemma {:induction false} DecimalChunksInRange(t: string, i: nat)
    requires IsDigits(t) && i <= |t|
    ensures InRange(DecimalChunks(t, i))
    decreases i
  {
    Pow10Nine();
    if 1 <= i <= 9 {
      DigitsValueBound(t[..i]);
      Pow10Monotone(i, 9);
    } else if i > 9 {
      DigitsValueBound(t[i - 9..i]);
      DecimalChunksInRange(t, i - 9);
      InRangeCons(DigitsValue(t[i - 9..i]), DecimalChunks(t, i - 9));
    }
  }

  /** The chunks of the first i decimal characters stand for the value of those characters. */
  lemma {:induction false} DecimalChunksValue(t: string, i: nat)
    requires IsDigits(t) && i <= |t|
    ensures Value(DecimalChunks(t, i)) == DigitsValue(t[..i])
    decreases i
  {
    if 1 <= i <= 9 {
      ValueCons(DigitsValue(t[..i]), []);
    } else if i > 9 {
      var w := t[i - 9..i];
      DecimalChunksValue(t, i - 9);
      ValueCons(DigitsValue(w), DecimalChunks(t, i - 9));
      SliceSplit(t, 0, i - 9, i);
      assert t[..i] == t[0..i] && t[..i - 9] == t[0..i - 9];
      DigitsValueConcat(t[..i - 9], w);
      Pow10Nine();
    }
  }

  /** How many characters the top chunk takes: 1 to 9, the rest coming in nines. */
  function TopLength(i: nat): (h: nat)
    requires i >= 1
    ensures 1 <= h <= 9 && h <= i
  {
    if i <= 9 then i else TopLength(i - 9)
  }

  lemma LastOfCons(x: int, rest: seq<int>)
    requires |rest| >= 1
    ensures Last([x] + rest) == Last(rest)
  {
  }

  /** The top chunk of the first i decimal characters is the value of the first TopLength(i) of them. */
  lemma {:induction false} DecimalChunksTop(t: string, i: nat)
    requires IsDigits(t) && 1 <= i <= |t|
    ensures Last(DecimalChunks(t, i)) == DigitsValue(t[..TopLength(i)])
    decreases i
  {
    if i > 9 {
      DecimalChunksTop(t, i - 9);
      LastOfCons(DigitsValue(t[i - 9..i]), DecimalChunks(t, i - 9));
    }
  }

  /** `toString` appends the lower digits padded, from the top down: the accumulator stays in front. */
  lemma {:induction false} LowerShift(acc: string, d: seq<int>, i: int)
    requires i < |d|
    ensures Lower(acc, d, i) == acc + Lower("", d, i)
    decreases i + 1
  {
    if i >= 0 {
      var p := Padded(d[i]);
      LowerShift(acc + p, d, i - 1);
      LowerShift(p, d, i - 1);
      assert "" + p == p;
      assert (acc + p) + Lower("", d, i - 1) == acc + (p + Lower("", d, i - 1));
    }
  }

  /** The bottom digit is written last. */
  lemma {:induction false} LowerCons(acc: string, x: int, d: seq<int>, j: int)
    requires -1 <= j < |d|
    ensures Lower(acc, [x] + d, j + 1) == Lower(acc, d, j) + Padded(x)
    decreases j + 1
  {
    if j >= 0 {
      assert ([x] + d)[j + 1] == d[j];
      LowerCons(acc + Padded(d[j]), x, d, j - 1);
    }
  }

  /** A slice of decimal characters is decimal characters. */
  lemma DigitsSlice(t: string, a: nat, b: nat)
    requires IsDigits(t) && a <= b <= |t|
    ensures IsDigits(t[a..b])
  {
    assert forall k :: 0 <= k < b - a ==> t[a..b][k] == t[a + k];
  }

  /** Past the top chunk, the chunks are the lowest nine characters' value and the chunks of the rest. */
  lemma DecimalChunksStep(t: string, i: nat)
    requires IsDigits(t) && 9 < i <= |t|
    ensures IsDigits(t[i - 9..i])
    ensures DecimalChunks(t, i) == [DigitsValue(t[i - 9..i])] + DecimalChunks(t, i - 9)
    ensures Padded(DigitsValue(t[i - 9..i])) == t[i - 9..i]
    ensures TopLength(i) == TopLength(i - 9)
  {
    DigitsSlice(t, i - 9, i);
    PaddedChunk(t[i - 9..i]);
  }

  /** `toString`'s loop over the lower chunks writes back all but the top chunk's characters. */
  lemma {:induction false} DecimalChunksLower(t: string, i: nat)
    requires IsDigits(t) && 1 <= i <= |t|
    ensures Lower("", DecimalChunks(t, i), |DecimalChunks(t, i)| - 2) == t[TopLength(i)..i]
    decreases i
  {
    if i > 9 {
      DecimalChunksStep(t, i);
      var rest := DecimalChunks(t, i - 9);
      DecimalChunksLower(t, i - 9);
      LowerCons("", DigitsValue(t[i - 9..i]), rest, |rest| - 2);
      SliceSplit(t, TopLength(i), i - 9, i);
    }
  }

  /** The constructor on decimal characters with an optional '-': the sign from the '-', the chunks of the rest. */
  lemma ParsedDecimal(negative: bool, t: string)
    requires IsDigits(t)
    ensures Parsed((if negative then "-" else "") + t) == BigInt(negative, Trimmed(DecimalChunks(t, |t|)))
  {
    var s := (if negative then "-" else "") + t;
    if negative {
      assert s[1..] == t;
    } else {
      assert s == t;
      if |t| > 0 {
        assert IsDigit(s[0]);
      }
    }
    ChunksDecimal(t, |t|);
  }

  /**
   * The constructor reads an optional '-' and decimal characters into
   * digits in range standing for their value, with the sign set by the '-'.
   */
  lemma ParsedValue(negative: bool, t: string)
    requires IsDigits(t)
    ensures var b := Parsed((if negative then "-" else "") + t);
      b.isNegative == negative && InRange(b.d) && Value(b.d) == DigitsValue(t)
  {
    ParsedDecimal(negative, t);
    var c := DecimalChunks(t, |t|);
    DecimalChunksInRange(t, |t|);
    DecimalChunksValue(t, |t|);
    assert t[..|t|] == t;
    TrimmedValue(c);
    TrimmedInRange(c);
  }

  /** The top chunk of a canonical numeral of more than one chunk is not 0. */
  lemma TopChunkNonzero(t: string)
    requires IsCanonicalNumeral(t) && |t| > 9
    ensures DigitsValue(t[..TopLength(|t|)]) != 0
  {
    var top := t[..TopLength(|t|)];
    assert IsCanonicalNumeral(top);
    if |top| > 1 {
      LeadingDigitBound(top);
    } else {
      assert top == [t[0]];
      assert top[..0] == [];
      assert DigitsValue(top) == 10 * DigitsValue([]) + DigitOf(t[0]);
    }
  }

  /** The chunks of a canonical numeral need no trimming. */
  lemma DecimalChunksTrimmed(t: string)
    requires IsCanonicalNumeral(t)
    ensures Trimmed(DecimalChunks(t, |t|)) == DecimalChunks(t, |t|)
  {
    var c := DecimalChunks(t, |t|);
    if |c| > 1 {
      assert |t| > 9;
      DecimalChunksTop(t, |t|);
      TopChunkNonzero(t);
    }
  }

  /** `toString` writes the top digit unpadded after the sign, then the lower digits. */
  lemma FormatOf(negative: bool, d: seq<int>, top: string, low: string)
    requires |d| >= 1 && IntToString(Last(d)) == top && Lower("", d, |d| - 2) == low
    ensures Format(BigInt(negative, d)) == ((if negative then "-" else "") + top) + low
  {
    FormatUnfold(BigInt(negative, d));
    LowerShift((if negative then "-" else "") + top, d, |d| - 2);
  }

  /** A non-empty prefix of a canonical numeral is canonical. */
  lemma CanonicalPrefix(t: string, h: nat)
    requires IsCanonicalNumeral(t) && 1 <= h <= |t|
    ensures IsCanonicalNumeral(t[..h])
  {
    assert t[..h][0] == t[0];
  }

  /** The top chunk of a canonical numeral is the value of its first TopLength characters, themselves canonical. */
  lemma DecimalChunksTopCanonical(t: string)
    requires IsCanonicalNumeral(t)
    ensures IsCanonicalNumeral(t[..TopLength(|t|)])
    ensures Last(DecimalChunks(t, |t|)) == DigitsValue(t[..TopLength(|t|)])
  {
    DecimalChunksTop(t, |t|);
    CanonicalPrefix(t, TopLength(|t|));
  }

  /** The top chunk of a canonical numeral is written unpadded as the numeral's first TopLength characters. */
  lemma DecimalChunksText(t: string)
    requires IsCanonicalNumeral(t)
    ensures IntToString(Last(DecimalChunks(t, |t|))) == t[..TopLength(|t|)]
  {
    DecimalChunksTopCanonical(t);
    NatToStringOfDigitsValue(t[..TopLength(|t|)]);
    IntToStringOfNat(DigitsValue(t[..TopLength(|t|)]));
  }

  /** `toString` writes the chunks of a canonical numeral back as the numeral, after the sign. */
  lemma FormatDecimalChunks(negative: bool, t: string)
    requires IsCanonicalNumeral(t)
    ensures Format(BigInt(negative, DecimalChunks(t, |t|))) == (if negative then "-" else "") + t
  {
    var h := TopLength(|t|);
    DecimalChunksText(t);
    DecimalChunksLower(t, |t|);
    FormatOf(negative, DecimalChunks(t, |t|), t[..h], t[h..|t|]);
    SignedSplit(if negative then "-" else "", t, h);
  }

  /** A signed text cut at `h` glues back together. */
  lemma SignedSplit(sign: string, t: string, h: nat)
    requires h <= |t|
    ensures (sign + t[..h]) + t[h..|t|] == sign + t
  {
    assert t[..h] + t[h..|t|] == t;
    StringAssoc(sign, t[..h], t[h..|t|]);
  }

  /** The top digit of a non-empty digit vector. */
  function Last(d: seq<int>): int
    requires |d| >= 1
  {
    d[|d| - 1]
  }

  lemma FormatUnfold(b: BigInt)
    requires |b.d| >= 1
    ensures Format(b) == Lower((if b.isNegative then "-" else "") + IntToString(b.d[|b.d| - 1]), b.d, |b.d| - 2)
  {
  }

  lemma IntToStringOfNat(n: nat)
    ensures IntToString(n) == NatToString(n)
  {
  }

  lemma StringAssoc(a: string, b: string, c: string)
    ensures (a + b) + c == a + (b + c)
  {
  }

  /**
   * `toString` inverts the constructor on a canonical numeral with an
   * optional '-': the parsed digits need no trimming, the top digit is
   * written without padding and every lower one as its 9 characters.
   */
  lemma FormatParsed(negative: bool, t: string)
    requires IsCanonicalNumeral(t)
    ensures Format(Parsed((if negative then "-" else "") + t)) == (if negative then "-" else "") + t
  {
    ParsedDecimal(negative, t);
    DecimalChunksTrimmed(t);
    FormatDecimalChunks(negative, t);
  }
}
