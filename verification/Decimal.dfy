/** Decimal integers as `strconv` prints and parses them. */
module Decimal {
  import opened Wrappers

  const MIN_INT64: int := -0x8000_0000_0000_0000
  const MAX_INT64: int := 0x7fff_ffff_ffff_ffff

  predicate IsInt64(n: int) {
    MIN_INT64 <= n <= MAX_INT64
  }

  predicate IsDigit(c: char) {
    '0' <= c <= '9'
  }

  predicate AllDigits(s: string) {
    forall i :: 0 <= i < |s| ==> IsDigit(s[i])
  }

  function Digits(n: nat): (s: string)
    ensures s != "" && AllDigits(s)
  {
    if n < 10 then ['0' + n as char] else Digits(n / 10) + ['0' + (n % 10) as char]
  }

  function Value(s: string): nat
    requires AllDigits(s)
  {
    if s == "" then 0 else 10 * Value(s[..|s| - 1]) + (s[|s| - 1] - '0') as int
  }

  lemma {:induction false} ValueOfDigits(n: nat)
    ensures Value(Digits(n)) == n
  {
    var s := Digits(n);
    if n < 10 {
      assert Value(s[..0]) == 0;
    } else {
      ValueOfDigits(n / 10);
      assert s[..|s| - 1] == Digits(n / 10);
    }
  }

  /** `strconv.FormatInt(n, 10)`. */
  function FormatInt(n: int): string {
    if n < 0 then "-" + Digits(-n) else Digits(n)
  }

  /** `strconv.ParseInt(s, 10, 64)`; `None` stands for its syntax and range errors. */
  function ParseInt(s: string): Option<int> {
    var negative := s != "" && s[0] == '-';
    var digits := if s != "" && (s[0] == '-' || s[0] == '+') then s[1..] else s;
    if digits == "" || !AllDigits(digits) then None
    else
      var magnitude: int := Value(digits);
      var n := if negative then -magnitude else magnitude;
      if IsInt64(n) then Some(n) else None
  }

  lemma ParseDigits(n: int)
    requires n >= 0
    ensures ParseInt(Digits(n)) == if IsInt64(n) then Some(n) else None
    ensures ParseInt("-" + Digits(n)) == if IsInt64(-n) then Some(-n) else None
  {
    ValueOfDigits(n);
    assert IsDigit(Digits(n)[0]);
    assert ("-" + Digits(n))[1..] == Digits(n);
  }

  /** Printing then parsing is the identity on the whole int64 range, and an error outside it. */
  lemma ParseFormat(n: int)
    ensures ParseInt(FormatInt(n)) == if IsInt64(n) then Some(n) else None
  {
    ParseDigits(if n < 0 then -n else n);
  }

  /** `s` is `n` in decimal digits, with a minus sign, a plus sign or none. */
  predicate IsDecimal(s: string, n: int, digits: string) {
    && digits != "" && AllDigits(digits)
    && (|| (n == Value(digits) && (s == digits || s == "+" + digits))
        || (-n == Value(digits) && s == "-" + digits))
  }

  /** Exactly the int64 values in decimal digits with an optional sign are parsed. */
  lemma ParseIntExactly(s: string, n: int)
    ensures ParseInt(s) == Some(n) <==> IsInt64(n) && exists digits :: IsDecimal(s, n, digits)
  {
    if ParseInt(s) == Some(n) {
      var signed := s[0] == '-' || s[0] == '+';
      var digits := if signed then s[1..] else s;
      assert signed ==> s == [s[0]] + digits;
      assert IsDecimal(s, n, digits);
    }
    forall digits | IsInt64(n) && IsDecimal(s, n, digits)
      ensures ParseInt(s) == Some(n)
    {
      assert IsDigit(digits[0]);
      assert ("-" + digits)[1..] == digits && ("+" + digits)[1..] == digits;
    }
  }
}
