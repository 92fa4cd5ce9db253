/**
 * Go's `strconv.ParseInt(s, 10, 64)`: an optional `+` or `-`, one or more
 * decimal digits, and a value that fits a signed 64-bit integer.
 * `FormatInt64` (Go's `strconv.FormatInt(n, 10)`) is its reference inverse.
 */
module GoStrconv {
  import opened Wrappers

  const MinInt64: int := -0x8000_0000_0000_0000
  const MaxInt64: int := 0x7FFF_FFFF_FFFF_FFFF

  newtype int64 = x: int | -0x8000_0000_0000_0000 <= x < 0x8000_0000_0000_0000

  predicate IsDigit(c: char) {
    '0' <= c <= '9'
  }

  predicate AllDigits(s: string) {
    forall i :: 0 <= i < |s| ==> IsDigit(s[i])
  }

  function DigitValue(c: char): (d: nat)
    requires IsDigit(c)
    ensures d < 10
  {
    c as int - '0' as int
  }

  function DigitChar(d: nat): (c: char)
    requires d < 10
    ensures IsDigit(c) && DigitValue(c) == d
  {
    ('0' as int + d) as char
  }

  /** The value of a digit string read most significant digit first. */
  function DecimalValue(s: string): nat
    requires AllDigits(s)
  {
    if s == [] then 0 else DecimalValue(s[..|s| - 1]) * 10 + DigitValue(s[|s| - 1])
  }

  /** The shortest decimal spelling of `n`. */
  function DecimalString(n: nat): (r: string)
    ensures |r| > 0 && AllDigits(r)
  {
    if n < 10 then [DigitChar(n)] else DecimalString(n / 10) + [DigitChar(n % 10)]
  }

  function ParseInt64(s: string): (r: Option<int64>)
    ensures r.Some? ==> |s| > 0
    ensures r.Some? ==> forall i :: 1 <= i < |s| ==> IsDigit(s[i])
    ensures r.Some? ==> IsDigit(s[0]) || s[0] == '+' || s[0] == '-'
    ensures r.Some? && s[0] == '-' ==> r.value <= 0
    ensures r.Some? && s[0] != '-' ==> r.value >= 0
  {
    var signed := |s| > 0 && (s[0] == '+' || s[0] == '-');
    var digits := if signed then s[1..] else s;
    if digits == [] || !AllDigits(digits) then None
    else
      var v: int := if signed && s[0] == '-' then -(DecimalValue(digits) as int) else DecimalValue(digits);
      if MinInt64 <= v <= MaxInt64 then Some(v as int64) else None
  }

  function FormatInt64(n: int64): (r: string)
    ensures |r| > 0
  {
    if n < 0 then "-" + DecimalString(-(n as int)) else DecimalString(n as int)
  }

  lemma {:induction false} DecimalValueOfString(n: nat)
    ensures DecimalValue(DecimalString(n)) == n
  {
    if n >= 10 {
      var s := DecimalString(n);
      assert s[..|s| - 1] == DecimalString(n / 10);
      DecimalValueOfString(n / 10);
    }
  }

  lemma ParseNegative(ds: string)
    requires |ds| > 0 && AllDigits(ds) && DecimalValue(ds) <= -MinInt64
    ensures ParseInt64("-" + ds) == Some((-(DecimalValue(ds) as int)) as int64)
  {
    assert ("-" + ds)[1..] == ds;
  }

  lemma ParseUnsigned(ds: string)
    requires |ds| > 0 && AllDigits(ds) && DecimalValue(ds) <= MaxInt64
    ensures ParseInt64(ds) == Some(DecimalValue(ds) as int64)
  {
  }

  /** Parsing undoes formatting for every 64-bit value. */
  lemma ParseFormatRoundTrip(n: int64)
    ensures ParseInt64(FormatInt64(n)) == Some(n)
  {
    if n < 0 {
      DecimalValueOfString(-(n as int));
      ParseNegative(DecimalString(-(n as int)));
    } else {
      DecimalValueOfString(n as int);
      ParseUnsigned(DecimalString(n as int));
    }
  }

  /** A leading `+` is accepted and changes nothing. */
  lemma ParsePlusSign(n: int64)
    requires n >= 0
    ensures ParseInt64("+" + FormatInt64(n)) == Some(n)
  {
    var s := "+" + FormatInt64(n);
    assert s[1..] == DecimalString(n as int);
    DecimalValueOfString(n as int);
  }

  /** Values outside the 64-bit range are rejected, whichever sign they carry. */
  lemma ParseRejectsOutOfRange(n: nat)
    requires n > MaxInt64
    ensures ParseInt64(DecimalString(n)) == None
    ensures n > -MinInt64 ==> ParseInt64("-" + DecimalString(n)) == None
  {
    DecimalValueOfString(n);
    var s := "-" + DecimalString(n);
    assert s[1..] == DecimalString(n);
  }

  /** The empty string and a lone sign are not numbers. */
  lemma ParseRejectsEmpty()
    ensures ParseInt64("") == None
    ensures ParseInt64("+") == None
    ensures ParseInt64("-") == None
  {
  }
}
