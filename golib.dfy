/** The pieces of Go's runtime and standard library whose exact behaviour the
    handlers depend on: strconv's integer and boolean parsers, the byte length
    `len` gives a string, and 64-bit two's-complement arithmetic on `int`. */
module GoLib {

  const MaxUint64: nat := 0xFFFF_FFFF_FFFF_FFFF
  const MaxInt64: int := 0x7FFF_FFFF_FFFF_FFFF
  const MinInt64: int := -0x8000_0000_0000_0000
  const TwoTo64: nat := 0x1_0000_0000_0000_0000

  // ---------------------------------------------------------------------------
  // int arithmetic

  /** The 64-bit `int` Go computes for the mathematical value x. */
  function Wrap64(x: int): (r: int)
    ensures MinInt64 <= r <= MaxInt64
    ensures (r - x) % TwoTo64 == 0
    ensures MinInt64 <= x <= MaxInt64 ==> r == x
  {
    var m := x % TwoTo64;
    if m > MaxInt64 then m - TwoTo64 else m
  }

  // ---------------------------------------------------------------------------
  // len(string): the number of UTF-8 bytes

  /** Bytes UTF-8 uses to encode one Unicode scalar value. */
  function Utf8Width(c: char): (w: nat)
    ensures 1 <= w <= 4
    ensures w == 1 <==> (c as int) < 0x80
  {
    if (c as int) < 0x80 then 1
    else if (c as int) < 0x800 then 2
    else if (c as int) < 0x1_0000 then 3
    else 4
  }

  /** Go's `len(s)` for a string s: it counts bytes, not characters. */
  function ByteLen(s: string): (n: nat)
    ensures |s| <= n <= 4 * |s|
    ensures n == |s| <==> forall i :: 0 <= i < |s| ==> (s[i] as int) < 0x80
  {
    if s == [] then 0
    else
      var rest := ByteLen(s[1..]);
      assert forall i :: 0 < i < |s| ==> s[i] == s[1..][i - 1];
      Utf8Width(s[0]) + rest
  }

  // ---------------------------------------------------------------------------
  // decimal digits

  predicate IsDigit(c: char) { '0' <= c <= '9' }

  predicate AllDigits(s: string) { forall i :: 0 <= i < |s| ==> IsDigit(s[i]) }

  function DigitValue(c: char): (d: nat)
    requires IsDigit(c)
    ensures d <= 9
  {
    (c as int) - ('0' as int)
  }

  function DigitChar(d: nat): (c: char)
    requires d <= 9
    ensures IsDigit(c) && DigitValue(c) == d
  {
    (('0' as int) + d) as char
  }

  /** The value of the digits of s appended, most significant first, to acc. */
  function Accumulate(acc: nat, s: string): nat
    requires AllDigits(s)
    decreases |s|
  {
    if s == [] then acc
    else
      assert AllDigits(s[1..]) by { assert forall i :: 0 <= i < |s| - 1 ==> s[1..][i] == s[i + 1]; }
      Accumulate(acc * 10 + DigitValue(s[0]), s[1..])
  }

  /** The value of a string of decimal digits. */
  function Value(s: string): nat
    requires AllDigits(s)
  {
    Accumulate(0, s)
  }

  /** Length of the longest all-digit prefix of s. */
  function DigitRun(s: string): (k: nat)
    ensures k <= |s|
    ensures AllDigits(s[..k])
    ensures k < |s| ==> !IsDigit(s[k])
  {
    if s == [] || !IsDigit(s[0]) then 0
    else
      var k := 1 + DigitRun(s[1..]);
      assert forall i :: 0 < i < k ==> s[..k][i] == s[1..][..k - 1][i - 1];
      k
  }

  lemma {:induction false} AccumulateAtLeast(acc: nat, s: string)
    requires AllDigits(s)
    ensures Accumulate(acc, s) >= acc
    ensures s != [] ==> Accumulate(acc, s) >= acc * 10 + DigitValue(s[0])
    decreases |s|
  {
    if s != [] {
      assert AllDigits(s[1..]) by { assert forall i :: 0 <= i < |s| - 1 ==> s[1..][i] == s[i + 1]; }
      AccumulateAtLeast(acc * 10 + DigitValue(s[0]), s[1..]);
    }
  }

  lemma {:induction false} AccumulateAppend(acc: nat, s: string, c: char)
    requires AllDigits(s) && IsDigit(c)
    ensures AllDigits(s + [c])
    ensures Accumulate(acc, s + [c]) == Accumulate(acc, s) * 10 + DigitValue(c)
    decreases |s|
  {
    assert forall i :: 0 <= i < |s| ==> (s + [c])[i] == s[i];
    if s != [] {
      assert AllDigits(s[1..]) by { assert forall i :: 0 <= i < |s| - 1 ==> s[1..][i] == s[i + 1]; }
      assert (s + [c])[1..] == s[1..] + [c];
      AccumulateAppend(acc * 10 + DigitValue(s[0]), s[1..], c);
    }
  }

  function Pow10(n: nat): (p: nat)
    ensures p >= 1
  {
    if n == 0 then 1 else 10 * Pow10(n - 1)
  }

  lemma {:induction false} Pow10Grows(a: nat, b: nat)
    requires a <= b
    ensures Pow10(a) <= Pow10(b)
    decreases b
  {
    if a < b {
      Pow10Grows(a, b - 1);
    }
  }

  lemma MulMono(x: nat, y: nat, p: nat)
    requires x <= y
    ensures x * p <= y * p
  {
  }

  /** Appending digit d to acc moves it, scaled by p, inside acc's own band. */
  lemma DigitStep(acc: nat, d: nat, p: nat)
    requires d < 10
    ensures acc * (10 * p) <= (acc * 10 + d) * p
    ensures (acc * 10 + d + 1) * p <= (acc + 1) * (10 * p)
  {
    MulMono(acc * 10, acc * 10 + d, p);
    MulMono(acc * 10 + d + 1, (acc + 1) * 10, p);
    assert acc * (10 * p) == (acc * 10) * p;
    assert (acc + 1) * (10 * p) == ((acc + 1) * 10) * p;
  }

  lemma {:induction false} AccumulateBounds(acc: nat, s: string)
    requires AllDigits(s)
    ensures acc * Pow10(|s|) <= Accumulate(acc, s) < (acc + 1) * Pow10(|s|)
    decreases |s|
  {
    if s != [] {
      var d := DigitValue(s[0]);
      var p := Pow10(|s| - 1);
      assert AllDigits(s[1..]) by { assert forall i :: 0 <= i < |s| - 1 ==> s[1..][i] == s[i + 1]; }
      AccumulateBounds(acc * 10 + d, s[1..]);
      assert Accumulate(acc, s) == Accumulate(acc * 10 + d, s[1..]);
      assert Pow10(|s|) == 10 * p;
      DigitStep(acc, d, p);
    }
  }

  /** Nineteen digits are already too many for a 64-bit int. */
  lemma Pow10ExceedsInt64()
    ensures Pow10(19) > MaxInt64
  {
    assert Pow10(4) == 10000;
    assert Pow10(8) == 100000000;
    assert Pow10(12) == 1000000000000;
    assert Pow10(16) == 10000000000000000;
  }

  /** A numeral of at most 18 digits spells a 64-bit int, and `len` of it is
      its number of digits. */
  lemma ShortNumeralIsInt64(s: string)
    requires s != [] && AllDigits(s) && |s| <= 18
    ensures IsInt64Literal(s)
    ensures ByteLen(s) == |s|
  {
    ValueBelow(s);
    Pow10Grows(|s|, 18);
    assert Pow10(4) == 10000;
    assert Pow10(8) == 100000000;
    assert Pow10(12) == 1000000000000;
    assert Pow10(16) == 10000000000000000;
    assert Pow10(18) == 1000000000000000000;
    assert Unsigned(s) == s by { assert IsDigit(s[0]); }
    assert forall i :: 0 <= i < |s| ==> (s[i] as int) < 0x80 by {
      forall i | 0 <= i < |s| ensures (s[i] as int) < 0x80 { assert IsDigit(s[i]); }
    }
  }

  /** A string of k digits spells a number below 10^k ... */
  lemma ValueBelow(s: string)
    requires AllDigits(s)
    ensures Value(s) < Pow10(|s|)
  {
    AccumulateBounds(0, s);
  }

  /** ... and, without a leading zero, one of at least 10^(k-1). */
  lemma ValueAtLeast(s: string)
    requires AllDigits(s) && s != [] && s[0] != '0'
    ensures Value(s) >= Pow10(|s| - 1)
  {
    var d := DigitValue(s[0]);
    assert AllDigits(s[1..]) by { assert forall i :: 0 <= i < |s| - 1 ==> s[1..][i] == s[i + 1]; }
    assert Value(s) == Accumulate(d, s[1..]);
    AccumulateBounds(d, s[1..]);
    MulMono(1, d, Pow10(|s| - 1));
  }

  // ---------------------------------------------------------------------------
  // strconv

  /** strconv's error kinds: none, ErrSyntax, ErrRange. */
  datatype NumError = NoError | ErrSyntax | ErrRange

  /** The value and the error a strconv parser returns together. */
  datatype Parsed = Parsed(value: int, err: NumError)

  /** The digit loop of strconv.ParseUint(s, 10, 64) after it has read n:
      a non-digit is a syntax error; the first digit that would take the
      value past MaxUint64 stops the scan with a range error, whatever follows. */
  function ScanUint(s: string, n: nat): Parsed
    requires n <= MaxUint64
    decreases |s|
  {
    if s == [] then Parsed(n, NoError)
    else if !IsDigit(s[0]) then Parsed(0, ErrSyntax)
    else if n >= MaxUint64 / 10 + 1 then Parsed(MaxUint64, ErrRange)
    else if n * 10 + DigitValue(s[0]) > MaxUint64 then Parsed(MaxUint64, ErrRange)
    else ScanUint(s[1..], n * 10 + DigitValue(s[0]))
  }

  /** What the scan computes, stated on the digit prefix of s. */
  lemma {:induction false} ScanUintMeaning(s: string, n: nat)
    requires n <= MaxUint64
    ensures var k := DigitRun(s);
      ScanUint(s, n) ==
        if Accumulate(n, s[..k]) > MaxUint64 then Parsed(MaxUint64, ErrRange)
        else if k < |s| then Parsed(0, ErrSyntax)
        else Parsed(Accumulate(n, s), NoError)
    decreases |s|
  {
    var k := DigitRun(s);
    if s == [] {
    } else if !IsDigit(s[0]) {
      assert k == 0 && s[..k] == [];
    } else {
      var d := DigitValue(s[0]);
      assert k == 1 + DigitRun(s[1..]);
      assert s[..k][1..] == s[1..][..k - 1];
      AccumulateAtLeast(n * 10 + d, s[1..][..k - 1]);
      if n >= MaxUint64 / 10 + 1 {
      } else if n * 10 + d > MaxUint64 {
      } else {
        ScanUintMeaning(s[1..], n * 10 + d);
        if k == |s| {
          assert s[..k] == s;
          assert s[1..][..k - 1] == s[1..];
        }
      }
    }
  }

  /** strconv.ParseUint(s, 10, 64): the value of an all-digit string of at
      most MaxUint64; MaxUint64 with ErrRange once the digit prefix overflows;
      0 with ErrSyntax for an empty string or a non-digit. */
  function ParseUint(s: string): (r: Parsed)
    ensures var k := DigitRun(s);
      r == if Value(s[..k]) > MaxUint64 then Parsed(MaxUint64, ErrRange)
           else if s == [] || k < |s| then Parsed(0, ErrSyntax)
           else Parsed(Value(s), NoError)
  {
    if s == [] then Parsed(0, ErrSyntax)
    else
      ScanUintMeaning(s, 0);
      assert DigitRun(s) == |s| ==> s[..|s|] == s;
      ScanUint(s, 0)
  }

  /** ParseUint succeeds exactly on the decimal spellings of 0..MaxUint64. */
  lemma ParseUintAccepts(s: string)
    ensures ParseUint(s).err == NoError <==> s != [] && AllDigits(s) && Value(s) <= MaxUint64
    ensures ParseUint(s).err == NoError ==> ParseUint(s).value == Value(s)
    ensures 0 <= ParseUint(s).value <= MaxUint64
  {
    var k := DigitRun(s);
    if AllDigits(s) {
      assert k == |s| && s[..k] == s;
    }
  }

  /** The digits after an optional leading sign. */
  function Unsigned(s: string): string
  {
    if s != [] && (s[0] == '+' || s[0] == '-') then s[1..] else s
  }

  predicate Negative(s: string) { s != [] && s[0] == '-' }

  /** s spells a 64-bit signed integer in base 10. */
  predicate IsInt64Literal(s: string)
  {
    var d := Unsigned(s);
    d != [] && AllDigits(d) &&
    (if Negative(s) then Value(d) <= -MinInt64 else Value(d) <= MaxInt64)
  }

  /** strconv.Atoi on a 64-bit platform, i.e. strconv.ParseInt(s, 10, 64).
      (Atoi's fast path for inputs shorter than 19 bytes gives the same results.)
      On ErrRange the value is clamped to the nearer bound, on ErrSyntax it is 0. */
  function Atoi(s: string): (r: Parsed)
    ensures MinInt64 <= r.value <= MaxInt64
    ensures r.err == ErrSyntax ==> r.value == 0
    ensures r.err == ErrRange ==> r.value == (if Negative(s) then MinInt64 else MaxInt64)
    ensures r.err == NoError <==> IsInt64Literal(s)
    ensures r.err == NoError ==>
      r.value == (if Negative(s) then -(Value(Unsigned(s)) as int) else Value(Unsigned(s)))
  {
    if s == [] then Parsed(0, ErrSyntax)
    else
      var neg := s[0] == '-';
      var u := ParseUint(Unsigned(s));
      ParseUintAccepts(Unsigned(s));
      if u.err == ErrSyntax then Parsed(0, ErrSyntax)
      else if !neg && u.value >= -MinInt64 then Parsed(MaxInt64, ErrRange)
      else if neg && u.value > -MinInt64 then Parsed(MinInt64, ErrRange)
      else Parsed(if neg then -u.value else u.value, u.err)
  }

  /** Atoi reports ErrRange exactly when the digit prefix after the sign
      overflows uint64 (whatever follows it, as in ParseUint), or when the
      digits after the sign are all digits and exceed the int64 bound on the
      sign's side. */
  lemma AtoiRange(s: string)
    ensures var d := Unsigned(s); var k := DigitRun(d);
      Atoi(s).err == ErrRange <==>
        s != [] &&
        (Value(d[..k]) > MaxUint64 ||
         (d != [] && AllDigits(d) && Value(d) > (if Negative(s) then -MinInt64 else MaxInt64)))
  {
    var d := Unsigned(s);
    var k := DigitRun(d);
    ParseUintAccepts(d);
    if AllDigits(d) {
      assert k == |d| && d[..k] == d;
    }
  }

  /** The value and the success flag strconv.ParseBool returns. */
  datatype BoolParsed = BoolParsed(value: bool, ok: bool)

  const TrueSpellings: set<string> := {"1", "t", "T", "TRUE", "true", "True"}
  const FalseSpellings: set<string> := {"0", "f", "F", "FALSE", "false", "False"}

  /** strconv.ParseBool: anything but the twelve accepted spellings is an
      error, and the value returned with an error is false. */
  function ParseBool(s: string): (r: BoolParsed)
    ensures r.ok <==> s in TrueSpellings + FalseSpellings
    ensures r.value <==> s in TrueSpellings
  {
    if s == "1" || s == "t" || s == "T" || s == "TRUE" || s == "true" || s == "True" then
      BoolParsed(true, true)
    else if s == "0" || s == "f" || s == "F" || s == "FALSE" || s == "false" || s == "False" then
      BoolParsed(false, true)
    else
      BoolParsed(false, false)
  }

  /** strconv.FormatBool. */
  function FormatBool(b: bool): string
  {
    if b then "true" else "false"
  }

  lemma ParseBoolFormatBool(b: bool)
    ensures ParseBool(FormatBool(b)) == BoolParsed(b, true)
  {
  }

  /** The base-10 spelling Go prints for an unsigned integer (%d, FormatUint). */
  function Decimal(n: nat): (s: string)
    ensures s != [] && AllDigits(s)
    decreases n
  {
    if n < 10 then [DigitChar(n)]
    else
      var front := Decimal(n / 10);
      assert forall i :: 0 <= i < |front| ==> (front + [DigitChar(n % 10)])[i] == front[i];
      front + [DigitChar(n % 10)]
  }

  lemma {:induction false} DecimalValue(n: nat)
    ensures Value(Decimal(n)) == n
    decreases n
  {
    if n >= 10 {
      DecimalValue(n / 10);
      AccumulateAppend(0, Decimal(n / 10), DigitChar(n % 10));
      assert Decimal(n) == Decimal(n / 10) + [DigitChar(n % 10)];
      assert (n / 10) * 10 + n % 10 == n;
    } else {
      var c := DigitChar(n);
      assert Decimal(n) == [c];
      assert [c][1..] == [];
      assert Accumulate(0, [c]) == Accumulate(DigitValue(c), []) == n;
    }
  }

  /** Printing a 64-bit unsigned number and parsing it back gives the number. */
  lemma ParseUintDecimal(n: nat)
    requires n <= MaxUint64
    ensures ParseUint(Decimal(n)) == Parsed(n, NoError)
  {
    DecimalValue(n);
    ParseUintAccepts(Decimal(n));
  }
}
