/**
  Discord snowflake identifiers: Rust `u64` values, the `i64` columns SQLite
  stores them in, the two `as` casts between them, and `str::parse::<u64>`.
 */
module Ids {
  import opened Wrappers

  const TWO_POW_63: int := 0x8000_0000_0000_0000
  const TWO_POW_64: int := 0x1_0000_0000_0000_0000

  type u64 = x: int | 0 <= x < TWO_POW_64
  type i64 = x: int | -TWO_POW_63 <= x < TWO_POW_63

  /** `x as i64`: the same 64-bit pattern read as two's complement. */
  function AsI64(x: u64): (y: i64)
    ensures (x - y) % TWO_POW_64 == 0
    ensures AsU64(y) == x
  {
    if x < TWO_POW_63 then x else x - TWO_POW_64
  }

  /** `y as u64`: the same 64-bit pattern read as unsigned. */
  function AsU64(y: i64): (x: u64)
    ensures (x - y) % TWO_POW_64 == 0
  {
    if y >= 0 then y else y + TWO_POW_64
  }

  /** The signed column value determines the id it was written from. */
  lemma AsI64Injective(a: u64, b: u64)
    ensures AsI64(a) == AsI64(b) <==> a == b
  {
    if AsI64(a) == AsI64(b) {
      assert AsU64(AsI64(a)) == a && AsU64(AsI64(b)) == b;
    }
  }

  /** Reading a stored column back as `u64` and writing it again gives the same column value. */
  lemma AsU64RoundTrip(y: i64)
    ensures AsI64(AsU64(y)) == y
  {
  }

  predicate IsDigit(c: char) {
    '0' <= c <= '9'
  }

  predicate AllDigits(s: string) {
    forall i :: 0 <= i < |s| ==> IsDigit(s[i])
  }

  function DigitValue(c: char): (d: nat)
    requires IsDigit(c)
    ensures d < 10
  {
    (c as int) - ('0' as int)
  }

  function DigitChar(d: nat): (c: char)
    requires d < 10
    ensures IsDigit(c) && DigitValue(c) == d
  {
    ('0' as int + d) as char
  }

  /** The number a string of decimal digits denotes (most significant digit first). */
  function DecimalValue(ds: string): nat
    requires AllDigits(ds)
  {
    if ds == [] then 0 else DecimalValue(ds[..|ds| - 1]) * 10 + DigitValue(ds[|ds| - 1])
  }

  /** The shortest decimal rendering of `n`. */
  function ToDecimal(n: nat): (ds: string)
    ensures ds != [] && AllDigits(ds)
  {
    if n < 10 then [DigitChar(n)] else ToDecimal(n / 10) + [DigitChar(n % 10)]
  }

  lemma {:induction false} DecimalValueOfToDecimal(n: nat)
    ensures DecimalValue(ToDecimal(n)) == n
  {
    if n >= 10 {
      var ds := ToDecimal(n);
      assert ds[..|ds| - 1] == ToDecimal(n / 10);
      DecimalValueOfToDecimal(n / 10);
    }
  }

  /** The digits `parse::<u64>` reads: everything after one optional leading `+`. */
  function UnsignedDigits(s: string): string {
    if |s| > 0 && s[0] == '+' then s[1..] else s
  }

  /**
    `str::parse::<u64>`: an optional `+`, then at least one ASCII digit and nothing
    else, denoting a value below 2^64. No `-`, no whitespace, no empty string.
   */
  function ParseU64(s: string): (r: Option<u64>)
    ensures r.Some? ==> UnsignedDigits(s) != [] && AllDigits(UnsignedDigits(s))
    ensures r.Some? ==> r.value == DecimalValue(UnsignedDigits(s))
    ensures r.None? && UnsignedDigits(s) != [] && AllDigits(UnsignedDigits(s))
            ==> DecimalValue(UnsignedDigits(s)) >= TWO_POW_64
    ensures s == [] || s == "+" ==> r.None?
    ensures |s| > 0 && s[0] == '-' ==> r.None?
  {
    var ds := UnsignedDigits(s);
    if ds != [] && AllDigits(ds) && DecimalValue(ds) < TWO_POW_64 then Some(DecimalValue(ds)) else None
  }

  /** Every `u64` parses back from its decimal rendering, with or without a leading `+`. */
  lemma ParseU64RoundTrip(n: u64)
    ensures ParseU64(ToDecimal(n)) == Some(n)
    ensures ParseU64("+" + ToDecimal(n)) == Some(n)
  {
    DecimalValueOfToDecimal(n);
    var ds := ToDecimal(n);
    assert ds[0] != '+';
    assert ("+" + ds)[1..] == ds;
  }

  /** A decimal number of 2^64 or more does not parse. */
  lemma ParseU64Overflow(n: nat)
    requires n >= TWO_POW_64
    ensures ParseU64(ToDecimal(n)).None?
  {
    DecimalValueOfToDecimal(n);
    assert ToDecimal(n)[0] != '+';
  }
}
