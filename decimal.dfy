/** Decimal text for integers as the Go standard library writes and reads it:
    `strconv.Itoa` (also what `fmt`'s `%d` prints) and `strconv.Atoi`, on a
    platform whose `int` is 64 bits wide. */
module Decimal {
  import opened Wrappers

  const MinInt64: int := -0x8000_0000_0000_0000
  const MaxInt64: int := 0x7FFF_FFFF_FFFF_FFFF

  predicate IsDigit(c: char) { '0' <= c <= '9' }

  predicate AllDigits(s: string) { forall i :: 0 <= i < |s| ==> IsDigit(s[i]) }

  function DigitValue(c: char): (d: nat)
    requires IsDigit(c)
    ensures d < 10
  {
    c as int - '0' as int
  }

  function DigitChar(d: nat): (c: char)
    requires d < 10
    ensures IsDigit(c) && DigitValue(c) == d
  {
    ('0' as int + d) as char
  }

  /** The value of a string of decimal digits, most significant first. */
  function DigitsValue(s: string): nat
    requires AllDigits(s)
  {
    if s == [] then 0 else DigitsValue(s[..|s| - 1]) * 10 + DigitValue(s[|s| - 1])
  }

  /** The shortest decimal digits of `n`. */
  function NatDigits(n: nat): (s: string)
    ensures |s| > 0 && AllDigits(s)
    ensures DigitsValue(s) == n
    ensures s[0] == '0' ==> n == 0
  {
    if n < 10 then [DigitChar(n)]
    else
      var prefix := NatDigits(n / 10);
      var s := prefix + [DigitChar(n % 10)];
      assert s[..|s| - 1] == prefix;
      s
  }

  /** strconv.Itoa: a minus sign for negative values, then the digits. */
  function Itoa(n: int): (s: string)
    ensures |s| > 0
    ensures n >= 0 ==> AllDigits(s) && DigitsValue(s) == n
    ensures n < 0 ==> s[0] == '-' && AllDigits(s[1..]) && DigitsValue(s[1..]) == -n
  {
    if n < 0 then
      var s := "-" + NatDigits(-n);
      assert s[1..] == NatDigits(-n);
      s
    else NatDigits(n)
  }

  /** The syntax strconv.Atoi accepts: an optional sign, then at least one
      decimal digit (leading zeros allowed, no underscores, no spaces). */
  predicate IsIntegerLiteral(s: string) {
    var digits := if |s| > 0 && (s[0] == '+' || s[0] == '-') then s[1..] else s;
    |digits| > 0 && AllDigits(digits)
  }

  /** strconv.Atoi: the literal's value when `s` is an integer literal whose
      value fits in 64 bits, otherwise an error (None). */
  function Atoi(s: string): (r: Option<int>)
    ensures r.Some? ==> IsIntegerLiteral(s) && MinInt64 <= r.value <= MaxInt64
    ensures r.None? ==> !IsIntegerLiteral(s) || !(MinInt64 <= LiteralValue(s) <= MaxInt64)
  {
    if !IsIntegerLiteral(s) then None
    else
      var v := LiteralValue(s);
      if MinInt64 <= v <= MaxInt64 then Some(v) else None
  }

  /** The unbounded value of an integer literal. */
  function LiteralValue(s: string): int
    requires IsIntegerLiteral(s)
  {
    if s[0] == '-' then -(DigitsValue(s[1..]) as int)
    else if s[0] == '+' then DigitsValue(s[1..])
    else DigitsValue(s)
  }

  /** Reading back what Itoa wrote gives the number again. */
  lemma {:induction false} AtoiItoa(n: int)
    requires MinInt64 <= n <= MaxInt64
    ensures Atoi(Itoa(n)) == Some(n)
  {
    var s := Itoa(n);
    if n >= 0 {
      assert s[0] != '-' && s[0] != '+';
      assert IsIntegerLiteral(s);
    } else {
      assert s[1..] == NatDigits(-n);
      assert IsIntegerLiteral(s);
    }
  }

  /** Two numbers with the same decimal text are the same number. */
  lemma ItoaInjective(a: int, b: int)
    requires MinInt64 <= a <= MaxInt64 && MinInt64 <= b <= MaxInt64
    requires Itoa(a) == Itoa(b)
    ensures a == b
  {
    AtoiItoa(a);
    AtoiItoa(b);
  }
}
