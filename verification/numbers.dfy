/**
 * Rust integer formatting (`Display` for `i64`), parsing (`str::parse::<i64>`)
 * and the truncating `/` and `%` of Rust's signed integers.
 */
module Numbers {
  import opened Common

  const I64_MIN: int := -0x8000_0000_0000_0000
  const I64_MAX: int := 0x7FFF_FFFF_FFFF_FFFF

  predicate IsI64(n: int)
  {
    I64_MIN <= n <= I64_MAX
  }

  predicate IsDigit(c: char)
  {
    '0' <= c <= '9'
  }

  predicate AllDigits(s: string)
  {
    forall i :: 0 <= i < |s| ==> IsDigit(s[i])
  }

  function DigitChar(d: nat): (c: char)
    requires d < 10
    ensures IsDigit(c) && c as int - '0' as int == d
  {
    (d + '0' as int) as char
  }

  /** The value of a string of decimal digits. */
  function DigitsValue(s: string): nat
    requires AllDigits(s)
  {
    if s == [] then 0 else DigitsValue(s[..|s| - 1]) * 10 + (s[|s| - 1] as int - '0' as int)
  }

  /** Decimal digits of `n` without leading zeros: `n.to_string()` for a non-negative integer. */
  function ShowNat(n: nat): (r: string)
    ensures |r| >= 1 && AllDigits(r)
    ensures DigitsValue(r) == n
    ensures r[0] == '0' ==> n == 0
  {
    if n < 10 then [DigitChar(n)]
    else
      var h := ShowNat(n / 10);
      var r := h + [DigitChar(n % 10)];
      assert r[..|r| - 1] == h;
      r
  }

  /** `n.to_string()` for an `i64`: a minus sign before the digits of a negative number. */
  function ShowInt(n: int): (r: string)
    ensures forall i :: 0 <= i < |r| ==> IsDigit(r[i]) || r[i] == '-'
    ensures |r| >= 1
  {
    if n < 0 then "-" + ShowNat(-n) else ShowNat(n)
  }

  /**
   * `s.parse::<i64>()`: an optional `+` or `-`, then at least one decimal digit,
   * and a value inside the `i64` range; anything else is an error (`None`).
   */
  function ParseI64(s: string): (r: Option<int>)
    ensures r.Some? ==> IsI64(r.value)
    ensures r.Some? ==> s != [] && (IsDigit(s[0]) || s[0] == '-' || s[0] == '+')
    ensures r.Some? ==> forall i :: 1 <= i < |s| ==> IsDigit(s[i])
  {
    var negative := |s| > 0 && s[0] == '-';
    var body := if |s| > 0 && (s[0] == '-' || s[0] == '+') then s[1..] else s;
    if body == [] || !AllDigits(body) then None
    else
      var mag: int := DigitsValue(body);
      var v := if negative then -mag else mag;
      if IsI64(v) then Some(v) else None
  }

  /** Parsing what `Display` printed gives the number back, for every `i64`. */
  lemma ParseShowInt(n: int)
    requires IsI64(n)
    ensures ParseI64(ShowInt(n)) == Some(n)
  {
    if n < 0 {
      assert ShowInt(n)[1..] == ShowNat(-n);
    } else {
      assert ShowInt(n)[0] != '-' && ShowInt(n)[0] != '+';
    }
  }

  /** Rust's `a / b` on signed integers: the quotient rounded toward zero. */
  function TruncDiv(a: int, b: int): (q: int)
    requires b > 0
    ensures a >= 0 ==> q >= 0 && 0 <= a - q * b < b
    ensures a <= 0 ==> q <= 0 && -b < a - q * b <= 0
  {
    var m := if a >= 0 then a else -a;
    var d := m / b;
    var r := m % b;
    assert m == d * b + r && 0 <= r < b;
    if a >= 0 then d
    else
      assert (-d) * b == -(d * b);
      -d
  }

  /** Rust's `a % b` on signed integers: the remainder has the sign of `a`. */
  function TruncRem(a: int, b: int): (r: int)
    requires b > 0
    ensures a >= 0 ==> 0 <= r < b
    ensures a < 0 ==> -b < r <= 0
    ensures a == TruncDiv(a, b) * b + r
  {
    a - TruncDiv(a, b) * b
  }
}
