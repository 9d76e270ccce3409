/**
 * Numbers in bencode.hpp: `decode_digits` with its overflow checks, and the decimal text that
 * the encoder writes.
 */
module BencodeDigits {

  datatype Error = EndOfInput | Syntax | Overflow | Underflow

  /** A decoded value and the position after it, or an error and the position it was met at. */
  datatype Result<+T> = Ok(value: T, pos: nat) | Err(error: Error, pos: nat)

  /** A fixed-width integer type: its range and `std::numeric_limits<T>::digits10`. */
  datatype IntType = IntType(min: int, max: int, digits10: nat)

  const LONG_LONG := IntType(-0x8000_0000_0000_0000, 0x7fff_ffff_ffff_ffff, 18)
  const SIZE_T := IntType(0, 0xffff_ffff_ffff_ffff, 19)

  function Pow10(n: nat): (r: nat)
    ensures r > 0
  {
    if n == 0 then 1 else 10 * Pow10(n - 1)
  }

  predicate Fits(t: IntType, v: int) {
    t.min <= v <= t.max
  }

  /** Any number of `digits10` digits with this sign fits the type. */
  ghost predicate SafeDigits(t: IntType, sgn: int) {
    && t.min <= 0 < 10 <= t.max
    && (sgn == 1 || sgn == -1)
    && (sgn == 1 ==> Pow10(t.digits10) - 1 <= t.max)
    && (sgn == -1 ==> t.min <= -(Pow10(t.digits10) - 1) && t.min <= -10)
  }

  lemma StandardTypes()
    ensures SafeDigits(LONG_LONG, 1) && SafeDigits(LONG_LONG, -1) && SafeDigits(SIZE_T, 1)
    ensures LONG_LONG.max < Pow10(LONG_LONG.digits10 + 1) && -LONG_LONG.min < Pow10(LONG_LONG.digits10 + 1)
    ensures SIZE_T.max < Pow10(SIZE_T.digits10 + 1)
  {
    assert Pow10(4) == 10000;
    assert Pow10(8) == 10000 * Pow10(4);
    assert Pow10(12) == 10000 * Pow10(8);
    assert Pow10(16) == 10000 * Pow10(12);
    assert Pow10(18) == 100 * Pow10(16);
    assert Pow10(20) == 100 * Pow10(18);
  }

  predicate IsDigit(c: char) { '0' <= c <= '9' }

  function DigitValue(c: char): (d: nat)
    requires IsDigit(c)
    ensures d <= 9
  {
    c as int - '0' as int
  }

  /** A read at the end of the input sees no digit. */
  predicate DigitAt(s: string, pos: nat) {
    pos < |s| && IsDigit(s[pos])
  }

  predicate CharAt(s: string, pos: nat, c: char) {
    pos < |s| && s[pos] == c
  }

  predicate AllDigits(ds: string) {
    forall k :: 0 <= k < |ds| ==> IsDigit(ds[k])
  }

  /** The number a digit string denotes. */
  function DecimalValue(ds: string): nat
    requires AllDigits(ds)
  {
    if ds == "" then 0 else DecimalValue(ds[..|ds| - 1]) * 10 + DigitValue(ds[|ds| - 1])
  }

  /** The end of the maximal run of digits at `pos`. */
  function RunEnd(s: string, pos: nat): (end: nat)
    requires pos <= |s|
    ensures pos <= end <= |s| && !DigitAt(s, end)
    ensures forall k :: pos <= k < end ==> IsDigit(s[k])
    decreases |s| - pos
  {
    if DigitAt(s, pos) then RunEnd(s, pos + 1) else pos
  }

  /** `v * sgn` for a sign that is one or minus one. */
  function Signed(sgn: int, v: int): int {
    if sgn == 1 then v else -v
  }

  function RangeError(sgn: int): Error {
    if sgn == 1 then Overflow else Underflow
  }

  /**
   * What reading an optionally negated run of digits yields: the exact value if it fits, an
   * over- or underflow if it does not or if the run is longer than `digits10 + 1`, and an end
   * of input error if a run of at most `digits10` digits ends with the input.
   */
  function ReadDigits(t: IntType, s: string, pos: nat, sgn: int): (r: Result<int>)
    requires pos <= |s|
    ensures r.Ok? ==> pos <= r.pos <= |s|
  {
    var end := RunEnd(s, pos);
    if end - pos <= t.digits10 then
      if end == |s| then Err(EndOfInput, end) else Ok(Signed(sgn, DecimalValue(s[pos..end])), end)
    else
      var stop := pos + t.digits10 + 1;
      var v := Signed(sgn, DecimalValue(s[pos..stop]));
      if !Fits(t, v) || stop < end then Err(RangeError(sgn), stop) else Ok(v, stop)
  }

  // ---------------------------------------------------------------- the code's arithmetic

  /** C++ integer division truncates toward zero, and the remainder has the dividend's sign. */
  function TruncDiv(a: int, b: int): int
    requires b > 0
  {
    if a >= 0 then a / b else -((-a) / b)
  }

  function TruncMod(a: int, b: int): int
    requires b > 0
  {
    a - TruncDiv(a, b) * b
  }

  predicate CheckOverflow(t: IntType, value: int, digit: int) {
    value > TruncDiv(t.max, 10) || (value == TruncDiv(t.max, 10) && digit > TruncMod(t.max, 10))
  }

  predicate CheckUnderflow(t: IntType, value: int, digit: int) {
    value < TruncDiv(t.min, 10) || (value == TruncDiv(t.min, 10) && digit < TruncMod(t.min, 10))
  }

  /** The overflow check fires exactly when appending the digit would exceed the maximum. */
  lemma CheckOverflowExact(t: IntType, value: int, digit: int)
    requires t.max >= 0 && 0 <= digit <= 9
    ensures CheckOverflow(t, value, digit) <==> value * 10 + digit > t.max
  {
  }

  /** The underflow check fires exactly when it would go below the minimum. */
  lemma CheckUnderflowExact(t: IntType, value: int, digit: int)
    requires t.min <= 0 && -9 <= digit <= 0
    ensures CheckUnderflow(t, value, digit) <==> value * 10 + digit < t.min
  {
  }

  /** An arithmetic result that must be representable in the type. */
  function Exact(t: IntType, v: int): int
    requires Fits(t, v)
  {
    v
  }

  /** Appending a digit, with every intermediate result checked to be in range. */
  function Append(t: IntType, value: int, digit: int): int
    requires Fits(t, value * 10) && Fits(t, value * 10 + digit)
  {
    Exact(t, Exact(t, value * 10) + digit)
  }

  lemma {:induction false} DecimalBound(ds: string)
    requires AllDigits(ds)
    ensures DecimalValue(ds) < Pow10(|ds|)
  {
    if ds != "" { DecimalBound(ds[..|ds| - 1]); }
  }

  lemma {:induction false} Pow10Monotone(a: nat, b: nat)
    requires a <= b
    ensures Pow10(a) <= Pow10(b)
  {
    if a < b { Pow10Monotone(a, b - 1); }
  }

  lemma AppendDigit(s: string, pos: nat, k: nat)
    requires pos <= k < |s| && (forall j :: pos <= j <= k ==> IsDigit(s[j]))
    ensures AllDigits(s[pos..k]) && AllDigits(s[pos..k + 1])
    ensures DecimalValue(s[pos..k + 1]) == DecimalValue(s[pos..k]) * 10 + DigitValue(s[k])
  {
    assert s[pos..k + 1][..k - pos] == s[pos..k];
  }

  /** While fewer than `digits10` digits are read, appending one more cannot leave the range. */
  lemma EarlyDigitsFit(t: IntType, sgn: int, ds: string, digit: nat)
    requires SafeDigits(t, sgn) && AllDigits(ds) && |ds| < t.digits10 && digit <= 9
    ensures Fits(t, Signed(sgn, digit))
    ensures Fits(t, Signed(sgn, DecimalValue(ds)) * 10)
    ensures Fits(t, Signed(sgn, DecimalValue(ds)) * 10 + Signed(sgn, digit))
  {
    DecimalBound(ds);
    Pow10Monotone(|ds| + 1, t.digits10);
  }

  lemma {:induction false} RunEndFrom(s: string, pos: nat, k: nat)
    requires pos <= k <= |s| && (forall j :: pos <= j < k ==> IsDigit(s[j]))
    ensures RunEnd(s, pos) == RunEnd(s, k)
    decreases k - pos
  {
    if pos < k { RunEndFrom(s, pos + 1, k); }
  }

  /** The run is over within `digits10` digits. */
  lemma ShortRun(t: IntType, s: string, start: nat, begin: nat, sgn: int)
    requires start <= begin <= |s| && begin - start <= t.digits10 && !DigitAt(s, begin)
    requires forall k :: start <= k < begin ==> IsDigit(s[k])
    ensures ReadDigits(t, s, start, sgn)
      == if begin == |s| then Err(EndOfInput, begin) else Ok(Signed(sgn, DecimalValue(s[start..begin])), begin)
  {
    hide DecimalValue;
    RunEndFrom(s, start, begin);
  }

  /** The run has a digit after the first `digits10`, and perhaps more. */
  lemma LongRun(t: IntType, s: string, start: nat, begin: nat, sgn: int)
    requires start <= begin < |s| && begin - start == t.digits10 && DigitAt(s, begin)
    requires forall k :: start <= k < begin ==> IsDigit(s[k])
    ensures AllDigits(s[start..begin + 1])
    ensures var v := Signed(sgn, DecimalValue(s[start..begin + 1]));
      ReadDigits(t, s, start, sgn)
      == if !Fits(t, v) || DigitAt(s, begin + 1) then Err(RangeError(sgn), begin + 1) else Ok(v, begin + 1)
  {
    hide DecimalValue;
    RunEndFrom(s, start, begin + 1);
  }

  /**
   * Reads digits into a fixed-width value: as many as always fit without any check, one more
   * with the exact check, and any further one is too many.
   */
  method DecodeDigits(t: IntType, s: string, start: nat, sgn: int) returns (r: Result<int>)
    requires start <= |s| && SafeDigits(t, sgn)
    ensures r == ReadDigits(t, s, start, sgn)
  {
    assert DecimalValue(s[start..start]) == 0;
    hide DecimalValue, CheckOverflow, CheckUnderflow, Pow10, ReadDigits;
    var begin := start;
    var value := 0;
    var i := 0;
    while i != t.digits10
      invariant 0 <= i <= t.digits10 && begin == start + i <= |s|
      invariant forall k :: start <= k < begin ==> IsDigit(s[k])
      invariant value == Signed(sgn, DecimalValue(s[start..begin]))
      decreases t.digits10 - i
    {
      if begin == |s| {
        ShortRun(t, s, start, begin, sgn);
        return Err(EndOfInput, begin);
      }
      if !IsDigit(s[begin]) {
        ShortRun(t, s, start, begin, sgn);
        return Ok(value, begin);
      }
      EarlyDigitsFit(t, sgn, s[start..begin], DigitValue(s[begin]));
      AppendDigit(s, start, begin);
      value := Append(t, value, Exact(t, Signed(sgn, DigitValue(s[begin]))));
      begin := begin + 1;
      i := i + 1;
    }
    if begin == |s| {
      ShortRun(t, s, start, begin, sgn);
      return Err(EndOfInput, begin);
    }

    if DigitAt(s, begin) {
      LongRun(t, s, start, begin, sgn);
      AppendDigit(s, start, begin);
      var digit := Exact(t, Signed(sgn, DigitValue(s[begin])));
      begin := begin + 1;
      if sgn == 1 {
        CheckOverflowExact(t, value, digit);
        if CheckOverflow(t, value, digit) {
          return Err(Overflow, begin);
        }
      } else {
        CheckUnderflowExact(t, value, digit);
        if CheckUnderflow(t, value, digit) {
          return Err(Underflow, begin);
        }
      }
      value := Append(t, value, digit);
    } else {
      ShortRun(t, s, start, begin, sgn);
    }

    if DigitAt(s, begin) {
      return Err(RangeError(sgn), begin);
    }
    return Ok(value, begin);
  }

  /**
   * Exactness: a run of at most `digits10 + 1` digits is read as its mathematical value if that
   * fits the type and is an over- or underflow otherwise, as a longer run always is; but a run
   * of at most `digits10` digits that ends with the input is an end of input error.
   */
  lemma DigitsExact(t: IntType, s: string, pos: nat, sgn: int)
    requires pos <= |s| && SafeDigits(t, sgn)
    ensures var end := RunEnd(s, pos);
      var v := Signed(sgn, DecimalValue(s[pos..end]));
      var r := ReadDigits(t, s, pos, sgn);
      && (end - pos > t.digits10 + 1 ==> r.Err? && r.error == RangeError(sgn))
      && (end - pos <= t.digits10 && end == |s| ==> r == Err(EndOfInput, |s|))
      && (end - pos <= t.digits10 + 1 && (end - pos <= t.digits10 ==> end < |s|) ==>
            if Fits(t, v) then r == Ok(v, end) else r.Err? && r.error == RangeError(sgn))
  {
    var end := RunEnd(s, pos);
    if end - pos <= t.digits10 {
      DecimalBound(s[pos..end]);
      Pow10Monotone(end - pos, t.digits10);
    }
  }

  // ---------------------------------------------------------------- decimal text

  function DigitChar(d: nat): (c: char)
    requires d <= 9
    ensures IsDigit(c) && DigitValue(c) == d
  {
    ('0' as int + d) as char
  }

  /** The shortest decimal text of a number. */
  function Decimal(n: nat): (ds: string)
    ensures ds != "" && AllDigits(ds)
  {
    if n < 10 then [DigitChar(n)] else Decimal(n / 10) + [DigitChar(n % 10)]
  }

  function IntText(n: int): string {
    if n < 0 then "-" + Decimal(-n) else Decimal(n)
  }

  /** No leading zeros and at least one digit. */
  predicate CanonicalDigits(ds: string) {
    AllDigits(ds) && ds != "" && (ds[0] == '0' ==> |ds| == 1)
  }

  lemma {:induction false} DecimalRoundTrip(n: nat)
    ensures DecimalValue(Decimal(n)) == n
  {
    if n >= 10 {
      DecimalRoundTrip(n / 10);
      var ds := Decimal(n);
      assert ds[..|ds| - 1] == Decimal(n / 10);
    }
  }

  lemma {:induction false} DecimalIsCanonical(n: nat)
    ensures CanonicalDigits(Decimal(n))
    ensures n > 0 ==> Decimal(n)[0] != '0'
  {
    if n >= 10 { DecimalIsCanonical(n / 10); }
  }

  lemma {:induction false} LeadingDigit(ds: string)
    requires AllDigits(ds) && ds != "" && ds[0] != '0'
    ensures DecimalValue(ds) > 0
  {
    if |ds| > 1 { LeadingDigit(ds[..|ds| - 1]); }
  }

  /** Printing the value of a digit string gives the string back iff it has no leading zeros. */
  lemma {:induction false} CanonicalIffReprinted(ds: string)
    requires AllDigits(ds)
    ensures CanonicalDigits(ds) <==> Decimal(DecimalValue(ds)) == ds
  {
    DecimalIsCanonical(DecimalValue(ds));
    if CanonicalDigits(ds) {
      var last := |ds| - 1;
      if last > 0 {
        CanonicalIffReprinted(ds[..last]);
        LeadingDigit(ds[..last]);
        assert ds == ds[..last] + [ds[last]];
        assert DigitChar(DigitValue(ds[last])) == ds[last];
      }
    }
  }

  lemma {:induction false} DecimalLength(n: nat, k: nat)
    requires n < Pow10(k) && k > 0
    ensures |Decimal(n)| <= k
  {
    if n >= 10 { DecimalLength(n / 10, k - 1); }
  }

  /** The encoder's buffer of `digits10 + 2` characters always suffices. */
  lemma TextFitsBuffer(n: int)
    ensures Fits(LONG_LONG, n) ==> |IntText(n)| <= LONG_LONG.digits10 + 2
    ensures Fits(SIZE_T, n) ==> |IntText(n)| <= SIZE_T.digits10 + 2
  {
    StandardTypes();
    if Fits(LONG_LONG, n) { DecimalLength(if n < 0 then -n else n, LONG_LONG.digits10 + 1); }
    if Fits(SIZE_T, n) { DecimalLength(n, SIZE_T.digits10 + 1); }
  }

  /** The text `e` is what the input holds at `pos`. */
  ghost predicate Starts(s: string, pos: nat, e: string) {
    pos + |e| <= |s| && s[pos..pos + |e|] == e
  }

  lemma RunIsText(s: string, pos: nat, ds: string)
    requires AllDigits(ds) && Starts(s, pos, ds) && !DigitAt(s, pos + |ds|)
    ensures RunEnd(s, pos) == pos + |ds| && s[pos..RunEnd(s, pos)] == ds
  {
    assert forall k :: pos <= k < pos + |ds| ==> s[k] == s[pos..pos + |ds|][k - pos];
    RunEndFrom(s, pos, pos + |ds|);
  }

  /** Printed digits followed by something that is not a digit are read back exactly. */
  lemma ReadPrinted(t: IntType, s: string, pos: nat, n: nat, sgn: int)
    requires SafeDigits(t, sgn) && Fits(t, Signed(sgn, n)) && n < Pow10(t.digits10 + 1)
    requires Starts(s, pos, Decimal(n)) && pos + |Decimal(n)| < |s| && !DigitAt(s, pos + |Decimal(n)|)
    ensures ReadDigits(t, s, pos, sgn) == Ok(Signed(sgn, n), pos + |Decimal(n)|)
  {
    RunIsText(s, pos, Decimal(n));
    DecimalRoundTrip(n);
    DecimalLength(n, t.digits10 + 1);
  }
}
