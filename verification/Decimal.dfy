/** The "%d" conversion, and reading its output back. */
module Decimal {
  import opened Common

  const DIGITS := "0123456789"

  function Digits(n: nat): (s: string)
    ensures s != ""
  {
    if n < 10 then [DIGITS[n]] else Digits(n / 10) + [DIGITS[n % 10]]
  }

  /** printf("%d", n) */
  function Print(n: int): string {
    if n < 0 then "-" + Digits(-n) else Digits(n)
  }

  function DigitValue(c: char): Option<nat> {
    match c
    case '0' => Some(0)
    case '1' => Some(1)
    case '2' => Some(2)
    case '3' => Some(3)
    case '4' => Some(4)
    case '5' => Some(5)
    case '6' => Some(6)
    case '7' => Some(7)
    case '8' => Some(8)
    case '9' => Some(9)
    case _ => None
  }

  function Shifted(high: Option<nat>, low: Option<nat>): Option<nat> {
    if high.None? || low.None? then None else Some(10 * high.value + low.value)
  }

  function ReadDigits(s: string): Option<nat> {
    if s == "" then Some(0) else Shifted(ReadDigits(Front(s)), DigitValue(Last(s)))
  }

  function Negated(n: Option<int>): Option<int> {
    if n.None? then None else Some(-n.value)
  }

  function Read(s: string): Option<int> {
    if s == "" || s == "-" then None
    else if s[0] == '-' then Negated(ReadDigits(s[1..]))
    else ReadDigits(s)
  }

  lemma DigitRead(d: nat)
    requires d < 10
    ensures DigitValue(DIGITS[d]) == Some(d) && DIGITS[d] !in "-:\0"
  {
  }

  lemma {:induction false} DigitsRead(n: nat)
    ensures ReadDigits(Digits(n)) == Some(n)
    ensures '-' !in Digits(n) && ':' !in Digits(n) && '\0' !in Digits(n)
  {
    if n < 10 {
      DigitRead(n);
      assert Front([DIGITS[n]]) == [];
      assert ReadDigits([]) == Some(0);
    } else {
      DigitRead(n % 10);
      DigitsRead(n / 10);
      FrontOfSnoc(Digits(n / 10), DIGITS[n % 10]);
    }
  }

  lemma ReadSigned(s: string)
    requires s != "" && '-' !in s
    ensures Read(s) == ReadDigits(s) && Read("-" + s) == Negated(ReadDigits(s))
  {
    assert ("-" + s)[1..] == s && s[0] != '-';
  }

  /** Every number reads back as itself, and its text has no NUL and no colon. */
  lemma PrintRead(n: int)
    ensures Read(Print(n)) == Some(n)
    ensures '\0' !in Print(n) && ':' !in Print(n)
  {
    var m: nat := if n < 0 then -n else n;
    DigitsRead(m);
    ReadSigned(Digits(m));
  }
}
