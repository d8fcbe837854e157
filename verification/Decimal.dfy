/** Decimal numbers as text: std::to_string and back. */
module Decimal {
  import opened Bytes

  predicate IsDigit(c: char) { '0' <= c <= '9' }

  /** Without the last digit, and the last digit. */
  function Front(n: nat, octal: bool): nat { if octal then n / 8 else n / 10 }
  function Last(n: nat, octal: bool): (r: nat)
    ensures r < 10 && (octal ==> r < 8)
  {
    if octal then n % 8 else n % 10
  }
  function Shift(n: nat, octal: bool): nat { if octal then n * 8 else n * 10 }

  lemma FrontAndLast(n: nat, octal: bool)
    ensures n == Shift(Front(n, octal), octal) + Last(n, octal)
    ensures Front(n, octal) < n || (n == 0 && Front(n, octal) == 0)
  {
  }

  /** The decimal or octal digits of a number. */
  function Digits(n: nat, octal: bool := false): (r: string)
    ensures r != [] && forall i :: 0 <= i < |r| ==> IsDigit(r[i])
    decreases n
  {
    FrontAndLast(n, octal);
    (if Front(n, octal) == 0 then [] else Digits(Front(n, octal), octal)) + ['0' + Last(n, octal) as char]
  }

  predicate Numeric(s: string, octal: bool) { forall i :: 0 <= i < |s| ==> IsDigit(s[i]) && (octal ==> s[i] < '8') }

  function Value(s: string, octal: bool): nat
    requires Numeric(s, octal)
  {
    if s == [] then 0 else
      assert IsDigit(s[|s| - 1]);
      Shift(Value(s[..|s| - 1], octal), octal) + (s[|s| - 1] - '0') as nat
  }

  lemma {:induction false} ValueOfDigits(n: nat, octal: bool)
    ensures Numeric(Digits(n, octal), octal) && Value(Digits(n, octal), octal) == n
    decreases n
  {
    hide Front, Last, Shift;
    FrontAndLast(n, octal);
    var all, m := Digits(n, octal), Front(n, octal);
    var front := if m == 0 then [] else Digits(m, octal);
    assert all[..|front|] == front;
    if m == 0 {
      ShiftZero(octal);
    } else {
      ValueOfDigits(m, octal);
    }
  }

  lemma ShiftZero(octal: bool)
    ensures Shift(0, octal) == 0
  {
  }

  /** Different numbers have different digits. */
  lemma DigitsInjective(m: nat, n: nat)
    requires Digits(m) == Digits(n)
    ensures m == n
  {
    ValueOfDigits(m, false);
    ValueOfDigits(n, false);
  }

  predicate Blank(c: char) { c == ' ' || c == '\t' }

  function TrimLeft(s: string): string
    decreases |s|
  {
    if s != [] && Blank(s[0]) then TrimLeft(s[1..]) else s
  }

  function TrimRight(s: string): string
    decreases |s|
  {
    if s != [] && Blank(s[|s| - 1]) then TrimRight(s[..|s| - 1]) else s
  }

  /** Blanks around the digits are allowed; a number beyond 64 bits is not one. */
  function ParseUint(text: string, octal: bool := false): Option<nat> {
    var s := TrimRight(TrimLeft(text));
    if s == [] || !Numeric(s, octal) then None
    else if Value(s, octal) >= U64 then None
    else Some(Value(s, octal))
  }

  lemma ParseDigits(n: nat, octal: bool)
    ensures ParseUint(Digits(n, octal), octal) == if n < U64 then Some(n) else None
  {
    ValueOfDigits(n, octal);
  }
}
