/** Decimal text of integers as Go's `%d`, strconv.Itoa, strconv.Atoi and strconv.ParseUint treat it. */
module Decimal {
  import opened Wrappers

  const MAX_UINT64: int := 0xFFFF_FFFF_FFFF_FFFF
  const MAX_INT64: int := 0x7FFF_FFFF_FFFF_FFFF

  predicate IsDigit(c: char) {
    '0' <= c <= '9'
  }

  predicate AllDigits(s: string) {
    forall i :: 0 <= i < |s| ==> IsDigit(s[i])
  }

  function DigitChar(d: nat): char
    requires d < 10
  {
    (d + 48) as char
  }

  function DigitValue(c: char): nat
    requires IsDigit(c)
  {
    c as nat - 48
  }

  /** The shortest decimal text of `n`. */
  function Digits(n: nat): string {
    if n < 10 then [DigitChar(n)] else Digits(n / 10) + [DigitChar(n % 10)]
  }

  /** The number a digit string denotes, leading zeros allowed. */
  function Value(s: string): nat
    requires AllDigits(s)
  {
    if s == "" then 0 else 10 * Value(s[..|s| - 1]) + DigitValue(s[|s| - 1])
  }

  /** Non-empty, digits only, and no leading zero unless the text is "0". */
  predicate Canonical(s: string) {
    s != "" && AllDigits(s) && (|s| > 1 ==> s[0] != '0')
  }

  lemma {:induction false} DigitsCanonical(n: nat)
    ensures Canonical(Digits(n)) && Value(Digits(n)) == n
    ensures n > 0 ==> Digits(n)[0] != '0'
  {
    if n < 10 {
      assert Digits(n)[..0] == "";
    } else {
      DigitsCanonical(n / 10);
      assert Digits(n)[..|Digits(n)| - 1] == Digits(n / 10);
    }
  }

  /** A canonical text is the one that printing its value gives. */
  lemma {:induction false} CanonicalIsPrinted(s: string)
    requires Canonical(s)
    ensures Digits(Value(s)) == s
  {
    var front := s[..|s| - 1];
    if front != "" {
      CanonicalIsPrinted(front);
      CanonicalPositive(front);
      assert s == front + [s[|s| - 1]];
    } else {
      assert Value(front) == 0;
    }
  }

  lemma {:induction false} CanonicalPositive(s: string)
    requires Canonical(s) && s[0] != '0'
    ensures Value(s) > 0
  {
    if |s| > 1 {
      CanonicalPositive(s[..|s| - 1]);
    }
  }

  lemma DigitsInjective(m: nat, n: nat)
    requires Digits(m) == Digits(n)
    ensures m == n
  {
    DigitsCanonical(m);
    DigitsCanonical(n);
  }

  /** `%d` and strconv.Itoa. */
  function Itoa(i: int): string {
    if i < 0 then "-" + Digits(-i) else Digits(i)
  }

  lemma ItoaInjective(i: int, j: int)
    requires Itoa(i) == Itoa(j)
    ensures i == j
  {
    DigitsCanonical(if i < 0 then -i else i);
    DigitsCanonical(if j < 0 then -j else j);
    if i < 0 && j < 0 {
      assert Itoa(i)[1..] == Digits(-i) && Itoa(j)[1..] == Digits(-j);
    }
  }

  /** strconv.ParseUint(s, 10, 64): digits only, no sign, and at most 2^64 - 1. */
  function ParseUint64(s: string): Option<nat> {
    if s != "" && AllDigits(s) && Value(s) <= MAX_UINT64 then Some(Value(s)) else None
  }

  /** How many characters at the start are digits. */
  function DigitRun(s: string): (n: nat)
    ensures n <= |s| && AllDigits(s[..n]) && (n < |s| ==> !IsDigit(s[n]))
  {
    if s == "" || !IsDigit(s[0]) then 0 else 1 + DigitRun(s[1..])
  }

  /**
    The number strconv.ParseUint(s, 10, 64) returns, error or not: it reads digits until they exceed 64 bits, which
    gives 2^64 - 1 whatever follows, or until another character, which gives zero.
  */
  function ParseUint64Number(s: string): nat {
    var n := DigitRun(s);
    if Value(s[..n]) > MAX_UINT64 then MAX_UINT64 else if n == |s| then Value(s[..n]) else 0
  }

  lemma ParsedNumber(s: string)
    requires ParseUint64(s).Some?
    ensures ParseUint64Number(s) == ParseUint64(s).value
  {
    assert s[..DigitRun(s)] == s;
  }

  /** strconv.Atoi for a 64-bit int: an optional sign, then digits, then the range check. */
  function Atoi(s: string): Option<int> {
    var signed := s != "" && (s[0] == '-' || s[0] == '+');
    var digits := if signed then s[1..] else s;
    if digits == "" || !AllDigits(digits) then None
    else
      var magnitude: int := Value(digits);
      var v := if signed && s[0] == '-' then 0 - magnitude else magnitude;
      if 0 - MAX_INT64 - 1 <= v <= MAX_INT64 then Some(v) else None
  }

  lemma ParseUint64Printed(n: nat)
    requires n <= MAX_UINT64
    ensures ParseUint64(Digits(n)) == Some(n)
  {
    DigitsCanonical(n);
  }

  lemma AtoiPrinted(n: nat)
    requires n <= MAX_INT64
    ensures Atoi(Digits(n)) == Some(n)
  {
    DigitsCanonical(n);
    assert IsDigit(Digits(n)[0]);
  }

  /** A printed natural number has no sign and no separator in it. */
  lemma DigitsHasNo(n: nat, c: char)
    requires !IsDigit(c)
    ensures c !in Digits(n)
  {
    DigitsCanonical(n);
  }
}
