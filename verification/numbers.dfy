/**
 * Kotlin's 32-bit `Int`, its decimal `toString()` and `String.toIntOrNull()`,
 * which the codec uses to store and read back a room's ARGB color.
 */
module Numbers {
  import opened Wrappers

  const MinInt32: int := -0x8000_0000
  const MaxInt32: int := 0x7FFF_FFFF

  type Int32 = x: int | MinInt32 <= x <= MaxInt32

  /** Kotlin's `Long.toInt()`: keep the low 32 bits, read them as two's complement. */
  function ToInt32(x: int): (r: Int32)
    ensures (r - x) % 0x1_0000_0000 == 0
    ensures MinInt32 <= x <= MaxInt32 ==> r == x
  {
    var low := x % 0x1_0000_0000;
    if low <= MaxInt32 then low else low - 0x1_0000_0000
  }

  predicate IsDigit(c: char)
  {
    '0' <= c <= '9'
  }

  predicate AllDigits(s: string)
  {
    forall i :: 0 <= i < |s| ==> IsDigit(s[i])
  }

  function DigitChar(d: nat): (c: char)
    requires d < 10
  {
    ('0' as int + d) as char
  }

  /** The value of a string of decimal digits, read most significant first. */
  function DigitsValue(s: string): nat
    requires AllDigits(s)
  {
    if s == [] then 0
    else DigitsValue(s[..|s| - 1]) * 10 + (s[|s| - 1] as int - '0' as int)
  }

  /** The decimal digits of `n`, without leading zeros ("0" for zero). */
  function NatToString(n: nat): (s: string)
    ensures |s| >= 1 && AllDigits(s)
    ensures s[0] == '0' ==> n == 0
  {
    if n < 10 then [DigitChar(n)] else NatToString(n / 10) + [DigitChar(n % 10)]
  }

  /** Kotlin's `Int.toString()`: a leading '-' for negative values, then the digits. */
  function IntToString(x: int): (s: string)
    ensures |s| >= 1
    ensures forall i :: 0 <= i < |s| ==> IsDigit(s[i]) || s[i] == '-'
  {
    if x < 0 then "-" + NatToString(-x) else NatToString(x)
  }

  /** The value of an unsigned digit string if it fits in `Int32` with the given sign. */
  function SignedValue(digits: string, negative: bool): (r: Option<Int32>)
    requires AllDigits(digits)
  {
    var v: int := DigitsValue(digits);
    if negative then (if -v >= MinInt32 then Some(-v) else None)
    else (if v <= MaxInt32 then Some(v) else None)
  }

  /**
   * Kotlin's `String.toIntOrNull()`: an optional '+' or '-', then one or more
   * decimal digits, and a value within the 32-bit range; anything else is null.
   */
  function ParseInt32(s: string): (r: Option<Int32>)
    ensures r.Some? ==> |s| >= 1 && IsDigit(s[|s| - 1])
    ensures r.Some? && r.value < 0 ==> s[0] == '-'
    // Null for a non-digit after the first character, and for a first character
    // that is neither a digit nor a sign followed by more.
    ensures (exists i :: 0 < i < |s| && !IsDigit(s[i])) ==> r.None?
    ensures |s| >= 1 && !IsDigit(s[0]) && (|s| == 1 || (s[0] != '+' && s[0] != '-')) ==> r.None?
    // Unsigned digits: their value, or null when it exceeds `Int.MAX_VALUE`.
    ensures |s| >= 1 && AllDigits(s) ==> (r.Some? <==> DigitsValue(s) <= MaxInt32)
    ensures r.Some? && AllDigits(s) ==> r.value == DigitsValue(s)
    // A sign and digits: the signed value, or null when it leaves the 32-bit range.
    ensures |s| >= 2 && s[0] == '+' && AllDigits(s[1..]) ==>
      (r.Some? <==> DigitsValue(s[1..]) <= MaxInt32) && (r.Some? ==> r.value == DigitsValue(s[1..]))
    ensures |s| >= 2 && s[0] == '-' && AllDigits(s[1..]) ==>
      (r.Some? <==> DigitsValue(s[1..]) <= -MinInt32) && (r.Some? ==> r.value == -(DigitsValue(s[1..]) as int))
  {
    if |s| == 0 then None
    else if s[0] < '0' then
      if |s| == 1 then None
      else if s[0] != '-' && s[0] != '+' then None
      else if !AllDigits(s[1..]) then None
      else SignedValue(s[1..], s[0] == '-')
    else if !AllDigits(s) then None
    else SignedValue(s, false)
  }

  lemma {:induction false} DigitsOfNat(n: nat)
    ensures DigitsValue(NatToString(n)) == n
  {
    var s := NatToString(n);
    if n >= 10 {
      DigitsOfNat(n / 10);
      assert s[..|s| - 1] == NatToString(n / 10);
    }
  }

  /** Printing a 32-bit value and parsing it back gives the value. */
  lemma ParseIntToString(x: Int32)
    ensures ParseInt32(IntToString(x)) == Some(x)
  {
    var s := IntToString(x);
    if x < 0 {
      var n: nat := -(x as int);
      DigitsOfNat(n);
      assert s[1..] == NatToString(n);
    } else {
      DigitsOfNat(x);
    }
  }
}
