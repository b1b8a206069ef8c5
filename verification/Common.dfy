/** Option and Result values shared by every module, and the decimal text of natural numbers. */
module Common {
  datatype Option<+T> = None | Some(value: T)

  datatype Result<+T, +E> = Ok(value: T) | Err(error: E)
}

/** `str(n)` and `int(s)` for natural numbers: the text of attempts and frame indices. */
module Decimal {
  import opened Common

  predicate IsDigit(c: char) {
    '0' <= c <= '9'
  }

  predicate AllDigits(s: string) {
    forall i :: 0 <= i < |s| ==> IsDigit(s[i])
  }

  function DigitChar(d: nat): (c: char)
    requires d < 10
    ensures IsDigit(c) && DigitValue(c) == d
  {
    '0' + d as char
  }

  function DigitValue(c: char): (d: nat)
    requires IsDigit(c)
    ensures d < 10
  {
    (c - '0') as nat
  }

  /** The decimal text of `n`. */
  function Print(n: nat): (s: string)
    ensures |s| > 0 && AllDigits(s)
  {
    if n < 10 then [DigitChar(n)] else Print(n / 10) + [DigitChar(n % 10)]
  }

  function Value(s: string): nat
    requires AllDigits(s)
  {
    if s == [] then 0 else 10 * Value(s[..|s| - 1]) + DigitValue(s[|s| - 1])
  }

  /** Digits only: the signs, underscores and blanks that Python's `int` tolerates never occur in `str(n)`. */
  function Parse(s: string): Option<nat> {
    if s != [] && AllDigits(s) then Some(Value(s)) else None
  }

  lemma {:induction false} ParsePrint(n: nat)
    ensures Parse(Print(n)) == Some(n)
  {
    if n >= 10 {
      ParsePrint(n / 10);
      var s := Print(n);
      assert s[..|s| - 1] == Print(n / 10) && s[|s| - 1] == DigitChar(n % 10);
      assert Value(s) == 10 * (n / 10) + n % 10;
    }
  }

  lemma PrintInjective(m: nat, n: nat)
    requires Print(m) == Print(n)
    ensures m == n
  {
    ParsePrint(m);
    ParsePrint(n);
  }

  /** Most significant digit first, base ten, without leading zeros. */
  lemma PrintExamples()
    ensures Print(0) == "0" && Print(9) == "9" && Print(10) == "10" && Print(429) == "429" && Print(1024) == "1024"
  {
  }
}
