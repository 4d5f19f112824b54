/** Decimal numerals: what `str` prints for an int and what reads it back. */
module Decimal {
  import opened Wrappers

  predicate IsDigit(c: char) {
    '0' <= c <= '9'
  }

  ghost predicate AllDigits(s: string) {
    forall i :: 0 <= i < |s| ==> IsDigit(s[i])
  }

  function DigitChar(d: nat): char
    requires d < 10
  {
    '0' + d as char
  }

  function Print(n: nat): string {
    if n < 10 then [DigitChar(n)] else Print(n / 10) + [DigitChar(n % 10)]
  }

  function PrintInt(n: int): string {
    if n < 0 then "-" + Print(-n) else Print(n)
  }

  function Value(s: string): nat
    requires AllDigits(s)
  {
    if s == "" then 0 else 10 * Value(s[..|s| - 1]) + (s[|s| - 1] - '0') as nat
  }

  lemma {:induction false} PrintDigits(n: nat)
    ensures Print(n) != "" && AllDigits(Print(n))
    ensures Value(Print(n)) == n
  {
    if n >= 10 {
      PrintDigits(n / 10);
      assert Print(n)[..|Print(n)| - 1] == Print(n / 10);
    } else {
      assert Print(n)[..0] == "";
    }
  }

  /** No leading zero, except in "0" itself. */
  lemma {:induction false} NoLeadingZero(n: nat)
    ensures Print(n) != ""
    ensures n > 0 ==> Print(n)[0] != '0'
    ensures n == 0 ==> Print(n) == "0"
  {
    if n >= 10 {
      NoLeadingZero(n / 10);
    }
  }

  lemma PrintIsInjective(m: nat, n: nat)
    requires Print(m) == Print(n)
    ensures m == n
  {
    PrintDigits(m);
    PrintDigits(n);
  }

  // ---------------------------------------------------------------- splitting off numerals

  /** How many leading characters are digits. */
  function DigitRun(s: string): (k: nat)
    ensures k <= |s|
    ensures AllDigits(s[..k])
    ensures k < |s| ==> !IsDigit(s[k])
  {
    if s == "" || !IsDigit(s[0]) then 0 else
    var k := DigitRun(s[1..]);
    assert s[..k + 1] == [s[0]] + s[1..][..k];
    k + 1
  }

  lemma {:induction false} DigitRunIs(digits: string, rest: string)
    requires AllDigits(digits)
    requires rest == "" || !IsDigit(rest[0])
    ensures DigitRun(digits + rest) == |digits|
  {
    if digits == "" {
      assert digits + rest == rest;
    } else {
      DigitRunIs(digits[1..], rest);
      assert (digits + rest)[1..] == digits[1..] + rest;
    }
  }

  /** `int(s)` on plain decimal text: digits, perhaps after a minus. */
  function ReadInt(s: string): Option<int> {
    if s != "" && s[0] == '-' then
      match ReadNat(s[1..])
      case Some(n) => Some(-n)
      case None => None
    else ReadNat(s)
  }

  function ReadNat(s: string): Option<int> {
    if s != "" && DigitRun(s) == |s| then Some(Value(s[..DigitRun(s)])) else None
  }

  lemma ReadNatPrint(n: nat)
    ensures ReadNat(Print(n)) == Some(n)
  {
    var s := Print(n);
    PrintDigits(n);
    DigitRunIs(s, "");
    assert s + "" == s;
    assert s[..|s|] == s;
  }

  lemma ReadIntPrint(n: int)
    ensures ReadInt(PrintInt(n)) == Some(n)
  {
    if n < 0 {
      ReadNatPrint(-n);
      assert PrintInt(n)[1..] == Print(-n);
    } else {
      ReadNatPrint(n);
      PrintDigits(n);
      assert IsDigit(Print(n)[0]);
    }
  }
}
