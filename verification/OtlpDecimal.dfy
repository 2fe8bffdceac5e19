/**
 Dollar amounts of access-log records. A plain decimal of any length becomes
 the exact amount in billionths, rounded half up, or is refused exactly when
 that does not fit in a signed 64-bit integer.
 */
module OtlpDecimal {
  import opened Common

  const NANOS: int := 1_000_000_000

  predicate IsDigit(c: char) {
    '0' <= c <= '9'
  }

  predicate AllDigits(s: string) {
    forall i :: 0 <= i < |s| ==> IsDigit(s[i])
  }

  function DigitValue(c: char): nat
    requires IsDigit(c)
  {
    c as int - '0' as int
  }

  /** The number a string of digits denotes. */
  function Value(s: string): nat
    requires AllDigits(s)
  {
    if s == [] then 0 else 10 * Value(s[..|s| - 1]) + DigitValue(s[|s| - 1])
  }

  function Pow10(k: nat): nat
    ensures Pow10(k) > 0
  {
    if k == 0 then 1 else 10 * Pow10(k - 1)
  }

  /** `split_once('.')`, with an empty fraction when there is no point. */
  function SplitAtPoint(s: string): (parts: (string, string))
    ensures '.' in s ==> s == parts.0 + "." + parts.1 && '.' !in parts.0
    ensures '.' !in s ==> parts == (s, "")
  {
    if s == [] then ("", "")
    else if s[0] == '.' then
      assert s == "" + "." + s[1..];
      ("", s[1..])
    else
      var rest := SplitAtPoint(s[1..]);
      assert s == [s[0]] + s[1..];
      ([s[0]] + rest.0, rest.1)
  }

  /** Digits with at most one point, and at least one digit. */
  predicate Plain(s: string) {
    var (whole, fraction) := SplitAtPoint(s);
    !(whole == "" && fraction == "") && AllDigits(whole) && AllDigits(fraction)
  }

  /** `x` is `n / d` rounded to the nearest integer, halves up. */
  predicate IsHalfUp(n: nat, d: nat, x: int) {
    (2 * x - 1) * d <= 2 * n < (2 * x + 1) * d
  }

  /** `x` is the amount `text` denotes, in billionths, rounded half up. */
  predicate IsNanosOf(text: string, x: int)
    requires Plain(text)
  {
    var (whole, fraction) := SplitAtPoint(text);
    assert AllDigits(whole + fraction);
    IsHalfUp(Value(whole + fraction) * NANOS, Pow10(|fraction|), x)
  }

  lemma HalfUpUnique(n: nat, d: nat, x: int, y: int)
    requires d > 0 && IsHalfUp(n, d, x) && IsHalfUp(n, d, y)
    ensures x == y
  {
    if x < y {
      MultiplyOrder(2 * x + 1, 2 * y - 1, d);
      assert false;
    } else if y < x {
      MultiplyOrder(2 * y + 1, 2 * x - 1, d);
      assert false;
    }
  }

  lemma MultiplyOrder(a: int, b: int, c: nat)
    requires a <= b
    ensures a * c <= b * c
  {
  }

  lemma TenTimes(p: nat, q: nat)
    ensures 10 * (p * q) == (10 * p) * q
  {
  }

  lemma {:induction false} PowSum(a: nat, b: nat)
    ensures Pow10(a + b) == Pow10(a) * Pow10(b)
  {
    if a > 0 {
      PowSum(a - 1, b);
      TenTimes(Pow10(a - 1), Pow10(b));
    }
  }

  lemma PowNine()
    ensures Pow10(9) == NANOS
  {
    assert Pow10(4) == 10_000;
    PowSum(4, 5);
    assert Pow10(5) == 100_000;
  }

  lemma ValueSnoc(s: string, c: char)
    requires AllDigits(s) && IsDigit(c)
    ensures AllDigits(s + [c]) && Value(s + [c]) == 10 * Value(s) + DigitValue(c)
  {
    assert (s + [c])[..|s|] == s;
  }

  lemma ShiftLeft(v: nat, p: nat, x: nat, d: nat)
    ensures 10 * (v * p + x) + d == v * (10 * p) + (10 * x + d)
  {
  }

  lemma {:induction false} ValueConcat(a: string, b: string)
    requires AllDigits(a) && AllDigits(b)
    ensures AllDigits(a + b)
    ensures Value(a + b) == Value(a) * Pow10(|b|) + Value(b)
  {
    if b == [] {
      assert a + b == a;
    } else {
      var init, last := b[..|b| - 1], b[|b| - 1];
      ValueConcat(a, init);
      ValueSnoc(a + init, last);
      ValueSnoc(init, last);
      assert a + b == (a + init) + [last] && b == init + [last];
      assert Pow10(|b|) == 10 * Pow10(|init|);
      ShiftLeft(Value(a), Pow10(|init|), Value(init), DigitValue(last));
    }
  }

  lemma {:induction false} ValueBound(s: string)
    requires AllDigits(s)
    ensures Value(s) < Pow10(|s|)
  {
    if s != [] {
      ValueBound(s[..|s| - 1]);
    }
  }

  function Zeros(k: nat): (r: string)
    ensures |r| == k && AllDigits(r)
    ensures forall i :: 0 <= i < k ==> r[i] == '0'
  {
    if k == 0 then [] else Zeros(k - 1) + ['0']
  }

  /** The first nine digits of a fraction, padded with zeros. */
  function NineDigits(fraction: string): string
    requires AllDigits(fraction)
    ensures |NineDigits(fraction)| == 9 && AllDigits(NineDigits(fraction))
  {
    if |fraction| > 9 then fraction[..9] else fraction + Zeros(9 - |fraction|)
  }

  lemma {:induction false} ValueOfZeros(k: nat)
    ensures Value(Zeros(k)) == 0
  {
    if k > 0 {
      ValueOfZeros(k - 1);
      ValueSnoc(Zeros(k - 1), '0');
    }
  }

  /** The tenth digit decides: it is at least five exactly when what follows the ninth is at least a half. */
  lemma TenthDigitDecides(rest: string)
    requires AllDigits(rest) && rest != []
    ensures DigitValue(rest[0]) >= 5 <==> 2 * Value(rest) >= Pow10(|rest|)
  {
    var tail := rest[1..];
    assert rest == [rest[0]] + tail;
    ValueConcat([rest[0]], tail);
    ValueBound(tail);
    assert Value([rest[0]]) == DigitValue(rest[0]) by {
      assert [rest[0]][..0] == [];
    }
    var d, p := DigitValue(rest[0]), Pow10(|tail|);
    if d >= 5 {
      MultiplyOrder(5, d, p);
    } else {
      MultiplyOrder(d, 4, p);
    }
  }

  /** What the digit loop and the rounding digit compute. */
  function Computed(whole: string, fraction: string): int
    requires AllDigits(whole) && AllDigits(fraction)
  {
    Value(whole) * NANOS + Value(NineDigits(fraction)) +
    (if |fraction| > 9 && DigitValue(fraction[9]) >= 5 then 1 else 0)
  }

  lemma Reorder(y: int, d: nat, c: nat)
    ensures (y * d) * c == y * (c * d)
  {
  }

  lemma Doubled(n: nat, c: nat)
    ensures (2 * n) * c == 2 * (n * c) && (2 * n + 1) * c == 2 * (n * c) + c
  {
  }

  /** Rounding a quotient does not change when both sides are multiplied. */
  lemma ScaleHalfUp(n: nat, d: nat, c: nat, x: int)
    requires c > 0 && IsHalfUp(n, d, x)
    ensures IsHalfUp(n * c, c * d, x)
  {
    MultiplyOrder((2 * x - 1) * d, 2 * n, c);
    MultiplyOrder(2 * n + 1, (2 * x + 1) * d, c);
    Reorder(2 * x - 1, d, c);
    Reorder(2 * x + 1, d, c);
    Doubled(n, c);
  }

  /** A whole number of billionths needs no rounding. */
  lemma ShortArithmetic(w: nat, v: nat, d: nat, e: nat, n: nat)
    requires d > 0 && d * e == n
    ensures IsHalfUp((w * d + v) * n, d, w * n + v * e)
  {
    var x := w * n + v * e;
    assert (w * d) * n == (w * n) * d;
    assert v * n == (v * e) * d by {
      assert v * (d * e) == (v * e) * d;
    }
    assert (w * d + v) * n == x * d;
    assert (2 * x - 1) * d == 2 * (x * d) - d;
    assert (2 * x + 1) * d == 2 * (x * d) + d;
  }

  lemma RoundRemainder(q: nat, r: nat, p: nat)
    requires r < p
    ensures IsHalfUp(q * p + r, p, q + if 2 * r >= p then 1 else 0)
  {
    assert (2 * (q + 1) - 1) * p == 2 * (q * p) + p;
    assert (2 * (q + 1) + 1) * p == 2 * (q * p) + 3 * p;
    assert (2 * q - 1) * p == 2 * (q * p) - p;
    assert (2 * q + 1) * p == 2 * (q * p) + p;
  }

  /** Digits past the ninth only matter through the half they reach or not. */
  lemma LongArithmetic(w: nat, a: nat, r: nat, p: nat, n: nat)
    requires r < p && n > 0
    ensures IsHalfUp((w * (n * p) + (a * p + r)) * n, n * p, w * n + a + if 2 * r >= p then 1 else 0)
  {
    var q := w * n + a;
    assert w * (n * p) == (w * n) * p;
    assert w * (n * p) + (a * p + r) == q * p + r;
    RoundRemainder(q, r, p);
    ScaleHalfUp(q * p + r, p, n, q + if 2 * r >= p then 1 else 0);
  }

  lemma NinePowers(a: nat, b: nat)
    requires a + b == 9
    ensures Pow10(a) * Pow10(b) == NANOS
  {
    PowSum(a, b);
    PowNine();
  }

  lemma PaddedValue(fraction: string, k: nat)
    requires AllDigits(fraction)
    ensures AllDigits(fraction + Zeros(k)) && Value(fraction + Zeros(k)) == Value(fraction) * Pow10(k)
  {
    ValueConcat(fraction, Zeros(k));
    ValueOfZeros(k);
  }

  lemma ShortComputed(whole: string, fraction: string)
    requires AllDigits(whole) && AllDigits(fraction) && |fraction| <= 9
    ensures Computed(whole, fraction) == Value(whole) * NANOS + Value(fraction) * Pow10(9 - |fraction|)
  {
    PaddedValue(fraction, 9 - |fraction|);
  }

  /** The same over plain integers: the digits' value is `total`, and what is computed is `x`. */
  lemma ShortHalfUp(total: nat, w: nat, v: nat, d: nat, e: nat, x: int)
    requires d > 0 && d * e == NANOS && total == w * d + v && x == w * NANOS + v * e
    ensures IsHalfUp(total * NANOS, d, x)
  {
    ShortArithmetic(w, v, d, e, NANOS);
  }

  lemma ShortFraction(whole: string, fraction: string)
    requires AllDigits(whole) && AllDigits(fraction) && |fraction| <= 9
    ensures AllDigits(whole + fraction)
    ensures IsHalfUp(Value(whole + fraction) * NANOS, Pow10(|fraction|), Computed(whole, fraction))
  {
    var k := 9 - |fraction|;
    ValueConcat(whole, fraction);
    ShortComputed(whole, fraction);
    NinePowers(|fraction|, k);
    ShortHalfUp(
      Value(whole + fraction), Value(whole), Value(fraction), Pow10(|fraction|), Pow10(k), Computed(whole, fraction));
  }

  lemma LongFraction(whole: string, fraction: string)
    requires AllDigits(whole) && AllDigits(fraction) && |fraction| > 9
    ensures AllDigits(whole + fraction)
    ensures IsHalfUp(Value(whole + fraction) * NANOS, Pow10(|fraction|), Computed(whole, fraction))
  {
    var head, rest := fraction[..9], fraction[9..];
    assert fraction == head + rest;
    ValueConcat(whole, fraction);
    ValueConcat(head, rest);
    ValueBound(rest);
    TenthDigitDecides(rest);
    PowNine();
    PowSum(9, |rest|);
    LongArithmetic(Value(whole), Value(head), Value(rest), Pow10(|rest|), NANOS);
  }

  /** Every plain decimal has the nanos the digit loop computes. */
  lemma ComputedIsNanos(text: string)
    requires Plain(text)
    ensures
      var (whole, fraction) := SplitAtPoint(text);
      IsNanosOf(text, Computed(whole, fraction))
  {
    var (whole, fraction) := SplitAtPoint(text);
    if |fraction| <= 9 {
      ShortFraction(whole, fraction);
    } else {
      LongFraction(whole, fraction);
    }
  }

  lemma OnlyComputed(text: string, x: int)
    requires Plain(text) && IsNanosOf(text, x)
    ensures
      var (whole, fraction) := SplitAtPoint(text);
      x == Computed(whole, fraction)
  {
    var (whole, fraction) := SplitAtPoint(text);
    ComputedIsNanos(text);
    assert AllDigits(whole + fraction);
    HalfUpUnique(Value(whole + fraction) * NANOS, Pow10(|fraction|), x, Computed(whole, fraction));
  }

  /** The digit loop. */
  method NineDigitValue(fraction: string) returns (nanos: nat)
    requires AllDigits(fraction)
    ensures nanos == Value(NineDigits(fraction))
  {
    ghost var nine := NineDigits(fraction);
    nanos := 0;
    for index := 0 to 9
      invariant nanos == Value(nine[..index])
    {
      assert nine[..index + 1] == nine[..index] + [nine[index]];
      ValueSnoc(nine[..index], nine[index]);
      nanos := nanos * 10 + if index < |fraction| then DigitValue(fraction[index]) else 0;
    }
    assert nine[..9] == nine;
  }

  /** What `decimal_nanos` answers. */
  function NanosOf(text: string, viaFloat: Option<int>): Option<int> {
    if !Plain(text) then viaFloat
    else
      var (whole, fraction) := SplitAtPoint(text);
      var x := Computed(whole, fraction);
      if x <= I64_MAX then Some(x) else None
  }

  /**
   Parses a plain decimal exactly; any other notation gives `viaFloat`, the
   result of the floating-point path.
   */
  method DecimalNanos(text: string, viaFloat: Option<int>) returns (r: Option<int>)
    ensures r == NanosOf(text, viaFloat)
    ensures !Plain(text) ==> r == viaFloat
    ensures Plain(text) ==>
              exists x :: IsNanosOf(text, x) && r == if x <= I64_MAX then Some(x) else None
    ensures Plain(text) ==>
              forall x :: IsNanosOf(text, x) ==> r == if x <= I64_MAX then Some(x) else None
  {
    var (whole, fraction) := SplitAtPoint(text);
    if !Plain(text) {
      return viaFloat;
    }
    ghost var exact := Computed(whole, fraction);
    ComputedIsNanos(text);
    forall x | IsNanosOf(text, x)
      ensures x == exact
    {
      OnlyComputed(text, x);
    }
    var wholeValue := Value(whole);
    if wholeValue > I64_MAX {
      return None;
    }
    var nanos := NineDigitValue(fraction);
    var roundUp := |fraction| > 9 && fraction[9] >= '5';
    var product := wholeValue * NANOS;
    if product > I64_MAX {
      return None;
    }
    var sum := product + nanos + if roundUp then 1 else 0;
    if sum > I64_MAX {
      return None;
    }
    return Some(sum);
  }
}
