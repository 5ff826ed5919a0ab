/**
 * Java's `long` text conversions as the core uses them: the token stores the
 * numeric tenant id as `Long.toString`, and the login and logout paths read
 * it back with `Long.parseLong`.
 */
module JavaLong {
  import opened Wrappers

  const LongMin: int := -0x8000_0000_0000_0000
  const LongMax: int := 0x7FFF_FFFF_FFFF_FFFF

  predicate InLongRange(n: int) { LongMin <= n <= LongMax }

  predicate IsDigit(c: char) { '0' <= c <= '9' }

  predicate AllDigits(s: string) { forall i :: 0 <= i < |s| ==> IsDigit(s[i]) }

  function DigitChar(d: nat): (c: char)
    requires d < 10
    ensures IsDigit(c)
  {
    ('0' as int + d) as char
  }

  function DigitValue(c: char): (d: nat)
    requires IsDigit(c)
    ensures d < 10
  {
    c as int - '0' as int
  }

  /** The value of a string of decimal digits, most significant first. */
  function DigitsValue(s: string): nat
    requires AllDigits(s)
  {
    if s == [] then 0 else 10 * DigitsValue(s[..|s| - 1]) + DigitValue(s[|s| - 1])
  }

  /** The decimal digits of a natural number, without leading zeros. */
  function NatToString(n: nat): (s: string)
    ensures s != [] && AllDigits(s)
  {
    if n < 10 then [DigitChar(n)] else NatToString(n / 10) + [DigitChar(n % 10)]
  }

  /** `Long.toString`: an optional minus sign followed by the digits of the magnitude. */
  function ToString(n: int): string
  {
    if n < 0 then "-" + NatToString(-n) else NatToString(n)
  }

  /**
   * `Long.parseLong(s)` in radix 10: an optional `+` or `-`, then at least one
   * digit, with the value inside the `long` range; `None` stands for the
   * `NumberFormatException` thrown otherwise.
   */
  function ParseLong(s: string): (r: Option<int>)
    ensures r.Some? ==> InLongRange(r.value)
  {
    if s == [] then None
    else
      var negative := s[0] == '-';
      var body := if s[0] == '-' || s[0] == '+' then s[1..] else s;
      if body == [] || !AllDigits(body) then None
      else
        var v: int := if negative then 0 - DigitsValue(body) as int else DigitsValue(body);
        if InLongRange(v) then Some(v) else None
  }

  lemma {:induction false} NatToStringValue(n: nat)
    ensures DigitsValue(NatToString(n)) == n
  {
    if n >= 10 {
      var s := NatToString(n);
      NatToStringValue(n / 10);
      assert s[..|s| - 1] == NatToString(n / 10);
    }
  }

  /** Parsing what `Long.toString` printed gives back the number. */
  lemma ParseToString(n: int)
    requires InLongRange(n)
    ensures ParseLong(ToString(n)) == Some(n)
  {
    var s := ToString(n);
    if n < 0 {
      var digits := NatToString(-n);
      NatToStringValue(-n);
      assert s[0] == '-' && s[1..] == digits;
    } else {
      var digits := NatToString(n);
      NatToStringValue(n);
      assert s == digits && IsDigit(s[0]);
    }
  }

  /** Once the sign is dropped, what `Long.toString` prints is all digits and starts with one. */
  lemma ToStringShape(n: int)
    ensures var s := ToString(n);
            && |s| >= 1
            && (IsDigit(s[0]) || s[0] == '-')
            && (forall i :: 1 <= i < |s| ==> IsDigit(s[i]))
            && (s[0] == '-' ==> |s| >= 2 && IsDigit(s[1]))
  {
  }
}
