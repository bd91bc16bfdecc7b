/** strconv's decimal printer and parser for 64-bit integers. */
module Decimal {
  import opened Wrappers
  import opened FixedWidth

  predicate IsDigit(c: char) {
    '0' <= c <= '9'
  }

  predicate AllDigits(s: string) {
    forall i | 0 <= i < |s| :: IsDigit(s[i])
  }

  function FormatNat(n: nat): (s: string)
    ensures s != [] && AllDigits(s)
  {
    var digit := [('0' as int + n % 10) as char];
    if n < 10 then digit else FormatNat(n / 10) + digit
  }

  /** strconv.FormatInt(n, 10) and strconv.Itoa. */
  function FormatInt(n: int): (s: string)
    ensures s != []
  {
    if n < 0 then "-" + FormatNat(-n) else FormatNat(n)
  }

  /** The value of a string of digits. */
  function DigitsValue(s: string): nat
    requires AllDigits(s)
  {
    if s == [] then 0
    else 10 * DigitsValue(s[..|s| - 1]) + (s[|s| - 1] as int - '0' as int)
  }

  function ParseDigits(s: string): Option<nat> {
    if s != [] && AllDigits(s) then Some(DigitsValue(s)) else None
  }

  /** strconv.Atoi and strconv.ParseInt(s, 10, 64): an optional sign, then digits, in range. */
  function ParseInt(s: string): (r: Option<int>)
    ensures r.Some? ==> IsInt64(r.value)
  {
    var signed := s != [] && (s[0] == '-' || s[0] == '+');
    match ParseDigits(if signed then s[1..] else s)
    case None => None
    case Some(v) =>
      var n := (if signed && s[0] == '-' then -1 else 1) * v;
      if IsInt64(n) then Some(n) else None
  }

  lemma {:induction false} DigitsRoundTrip(n: nat)
    ensures DigitsValue(FormatNat(n)) == n
  {
    var s := FormatNat(n);
    if n >= 10 {
      DigitsRoundTrip(n / 10);
      assert s[..|s| - 1] == FormatNat(n / 10);
    } else {
      assert s[..|s| - 1] == [];
    }
  }

  /** Parsing undoes printing, for every 64-bit integer. */
  lemma FormatParseRoundTrip(n: int)
    requires IsInt64(n)
    ensures ParseInt(FormatInt(n)) == Some(n)
  {
    if n < 0 {
      DigitsRoundTrip(-n);
      assert FormatInt(n)[1..] == FormatNat(-n);
    } else {
      DigitsRoundTrip(n);
      assert IsDigit(FormatNat(n)[0]);
    }
  }

  // ---- what the digits mean ----

  function Pow10(k: nat): (p: nat)
    ensures p >= 1
  {
    if k == 0 then 1 else 10 * Pow10(k - 1)
  }

  function DigitOf(c: char): int {
    match c
    case '0' => 0
    case '1' => 1
    case '2' => 2
    case '3' => 3
    case '4' => 4
    case '5' => 5
    case '6' => 6
    case '7' => 7
    case '8' => 8
    case _ => 9
  }

  /** The positional value of a string of digits: each counts for its power of ten. */
  function Positional(s: string): int {
    if s == [] then 0 else DigitOf(s[0]) * Pow10(|s| - 1) + Positional(s[1..])
  }

  lemma {:induction false} PositionalAppend(s: string, c: char)
    ensures Positional(s + [c]) == 10 * Positional(s) + DigitOf(c)
  {
    if s == [] {
      assert Positional([c]) == DigitOf(c) * Pow10(0) + Positional([]);
    } else {
      PositionalAppend(s[1..], c);
      assert (s + [c])[1..] == s[1..] + [c];
      Shift(DigitOf(s[0]), Pow10(|s| - 1));
    }
  }

  lemma Shift(d: int, p: int)
    ensures d * (10 * p) == 10 * (d * p)
  {
  }

  lemma DigitIs(c: char)
    requires IsDigit(c)
    ensures DigitOf(c) == c as int - '0' as int
  {
  }

  lemma {:induction false} ValueIsPositional(s: string)
    requires AllDigits(s)
    ensures DigitsValue(s) == Positional(s)
  {
    if s != [] {
      ValueIsPositional(s[..|s| - 1]);
      PositionalAppend(s[..|s| - 1], s[|s| - 1]);
      DigitIs(s[|s| - 1]);
      assert s == s[..|s| - 1] + [s[|s| - 1]];
    }
  }

  lemma {:induction false} NoLeadingZero(n: nat)
    ensures n > 0 ==> FormatNat(n)[0] != '0'
  {
    if n >= 10 {
      NoLeadingZero(n / 10);
      assert FormatNat(n)[0] == FormatNat(n / 10)[0];
    }
  }

  /** Printing gives the decimal digits of the number, without leading zeros. */
  lemma PrintedIs(n: nat)
    ensures AllDigits(FormatNat(n)) && Positional(FormatNat(n)) == n
    ensures n == 0 ==> FormatNat(n) == "0"
    ensures n > 0 ==> FormatNat(n)[0] != '0'
  {
    DigitsRoundTrip(n);
    ValueIsPositional(FormatNat(n));
    NoLeadingZero(n);
  }

  /** The ways to write a number: an optional sign and digits of that value. */
  ghost predicate Writes(s: string, sign: string, digits: string, n: int) {
    && sign in {"", "+", "-"} && s == sign + digits && digits != [] && AllDigits(digits)
    && n == if sign == "-" then -Positional(digits) else Positional(digits)
  }

  /** A number is read from an optional sign and digits of that value, leading zeros allowed, if int64 holds it. */
  lemma ReadIff(s: string, n: int)
    ensures ParseInt(s) == Some(n) <==> IsInt64(n) && exists sign, digits :: Writes(s, sign, digits, n)
  {
    var signed := s != [] && (s[0] == '-' || s[0] == '+');
    var rest := if signed then s[1..] else s;
    if ParseInt(s) == Some(n) {
      ValueIsPositional(rest);
      var sign := if signed then [s[0]] else [];
      assert Writes(s, sign, rest, n);
    }
    if sign, digits :| Writes(s, sign, digits, n) {
      ValueIsPositional(digits);
      assert IsDigit(digits[0]);
      assert digits == rest;
    }
  }
}
