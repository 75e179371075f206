/** Rust's `str::parse::<u32>()`: an optional single `+`, then one or more
    ASCII decimal digits, accumulated left to right with checked `u32`
    arithmetic. Any other text, and any value above `u32::MAX`, is an error.
    The error kind (empty, invalid digit, overflow) is not kept: the plugin
    only ever replaces an error by a default. */
module ParseInt {
  import opened Wrappers
  import opened Ints

  predicate IsDigit(c: char) { '0' <= c <= '9' }

  function DigitValue(c: char): (d: nat)
    requires IsDigit(c)
    ensures d <= 9
  {
    c as int - '0' as int
  }

  function DigitChar(d: nat): (c: char)
    requires d <= 9
    ensures IsDigit(c) && DigitValue(c) == d
  {
    ('0' as int + d) as char
  }

  predicate AllDigits(s: string) {
    forall i :: 0 <= i < |s| ==> IsDigit(s[i])
  }

  /** The value of a digit string, read as positional base ten (most
      significant digit first). The empty string reads as 0. */
  function DecimalValue(s: string): nat
    requires AllDigits(s)
  {
    if s == [] then 0 else DecimalValue(s[..|s| - 1]) * 10 + DigitValue(s[|s| - 1])
  }

  /** The text after one optional leading `+`. */
  function Unsigned(s: string): string {
    if |s| > 0 && s[0] == '+' then s[1..] else s
  }

  /** The texts `u32` parsing accepts: an optional `+` and a non-empty run of
      digits whose value fits in 32 bits. */
  predicate IsU32Text(s: string) {
    var d := Unsigned(s);
    |d| > 0 && AllDigits(d) && DecimalValue(d) <= U32_MAX
  }

  /** The digit loop: multiply the running value by ten, add the next digit,
      and fail on a non-digit or on either step overflowing `u32`. */
  function Accumulate(acc: U32, s: string): Option<U32>
    decreases |s|
  {
    if s == [] then Some(acc)
    else if !IsDigit(s[0]) then None
    else if acc * 10 > U32_MAX then None
    else if acc * 10 + DigitValue(s[0]) > U32_MAX then None
    else Accumulate(acc * 10 + DigitValue(s[0]), s[1..])
  }

  /** `<u32 as FromStr>::from_str`. A lone `+` or `-` is rejected; a leading
      `-` is not a sign for an unsigned type, so it fails as a non-digit. */
  function ParseU32(s: string): Option<U32> {
    if s == [] then None
    else if s == "+" || s == "-" then None
    else Accumulate(0, if s[0] == '+' then s[1..] else s)
  }

  /** Parsing succeeds exactly on the accepted texts, with their value. */
  lemma ParseU32Value(s: string)
    ensures ParseU32(s).Some? <==> IsU32Text(s)
    ensures ParseU32(s).Some? ==> ParseU32(s).value == DecimalValue(Unsigned(s))
  {
    if s != [] && s != "+" && s != "-" {
      var digits := if s[0] == '+' then s[1..] else s;
      AccumulateValue([], digits);
      assert [] + digits == digits;
    }
  }

  lemma {:induction false} DecimalValueMonotone(p: string, q: string)
    requires AllDigits(p + q)
    ensures AllDigits(p)
    ensures DecimalValue(p) <= DecimalValue(p + q)
    decreases |q|
  {
    assert forall i :: 0 <= i < |p| ==> (p + q)[i] == p[i];
    if q != [] {
      var q' := q[..|q| - 1];
      assert (p + q)[..|p + q| - 1] == p + q';
      assert forall i :: 0 <= i < |p + q'| ==> (p + q')[i] == (p + q)[i];
      DecimalValueMonotone(p, q');
      assert DecimalValue(p + q) == DecimalValue(p + q') * 10 + DigitValue((p + q)[|p + q| - 1]);
    } else {
      assert p + q == p;
    }
  }

  /** Two digit strings make a digit string. */
  lemma AllDigitsAppend(p: string, q: string)
    requires AllDigits(p) && AllDigits(q)
    ensures AllDigits(p + q)
  {
    forall i | 0 <= i < |p + q| ensures IsDigit((p + q)[i]) {
      if i < |p| { assert (p + q)[i] == p[i]; } else { assert (p + q)[i] == q[i - |p|]; }
    }
  }

  /** A non-empty string is digits exactly when its first character and the
      rest are. */
  lemma AllDigitsCons(q: string)
    requires q != []
    ensures AllDigits(q) <==> IsDigit(q[0]) && AllDigits(q[1..])
  {
    if IsDigit(q[0]) && AllDigits(q[1..]) {
      forall i | 0 <= i < |q| ensures IsDigit(q[i]) {
        if i > 0 { assert q[i] == q[1..][i - 1]; }
      }
    }
  }

  /** Running the digit loop from the value of an already-read prefix `p`
      yields the value of `p + q` exactly when `q` is all digits and that
      value fits. */
  lemma {:induction false} AccumulateValue(p: string, q: string)
    requires AllDigits(p) && DecimalValue(p) <= U32_MAX
    ensures AllDigits(q) ==> AllDigits(p + q)
    ensures Accumulate(DecimalValue(p), q) ==
      if AllDigits(q) && DecimalValue(p + q) <= U32_MAX then Some(DecimalValue(p + q)) else None
    decreases |q|
  {
    if AllDigits(q) {
      AllDigitsAppend(p, q);
    }
    if q == [] {
      assert p + q == p;
    } else {
      AllDigitsCons(q);
      if IsDigit(q[0]) {
        var p' := p + [q[0]];
        AllDigitsAppend(p, [q[0]]);
        assert p'[..|p'| - 1] == p;
        assert DecimalValue(p') == DecimalValue(p) * 10 + DigitValue(q[0]);
        assert p' + q[1..] == p + q;
        if DecimalValue(p') > U32_MAX {
          if AllDigits(q) {
            DecimalValueMonotone(p', q[1..]);
          }
        } else {
          AccumulateValue(p', q[1..]);
        }
      }
    }
  }

  /** The decimal rendering of a natural number (Rust's `Display` for
      unsigned integers): no sign, no leading zeros. */
  function ToDecimal(n: nat): (s: string)
    ensures |s| > 0
    decreases n
  {
    if n < 10 then [DigitChar(n)] else ToDecimal(n / 10) + [DigitChar(n % 10)]
  }

  lemma {:induction false} ToDecimalValue(n: nat)
    ensures AllDigits(ToDecimal(n))
    ensures DecimalValue(ToDecimal(n)) == n
    decreases n
  {
    var s := ToDecimal(n);
    if n >= 10 {
      ToDecimalValue(n / 10);
      var p := ToDecimal(n / 10);
      assert s == p + [DigitChar(n % 10)];
      assert AllDigits(s) by {
        forall i | 0 <= i < |s| ensures IsDigit(s[i]) {
          if i < |p| { assert s[i] == p[i]; }
        }
      }
      assert s[..|s| - 1] == p;
    }
  }

  /** Parsing the decimal rendering of any `u32` gives that number back. */
  lemma ParseU32RoundTrip(n: U32)
    ensures ParseU32(ToDecimal(n)) == Some(n)
  {
    ToDecimalValue(n);
    ParseU32Value(ToDecimal(n));
    assert Unsigned(ToDecimal(n)) == ToDecimal(n);
  }
}
