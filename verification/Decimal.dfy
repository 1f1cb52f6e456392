/** Decimal numbers as Go's fmt and strconv packages print and parse them. */
module Decimal {
  import opened Common

  predicate IsDigit(c: char) {
    '0' <= c <= '9'
  }

  predicate AllDigits(s: string) {
    forall i | 0 <= i < |s| :: IsDigit(s[i])
  }

  /** `%d` of a natural number. */
  function Print(n: nat): string {
    var last := ['0' + (n % 10) as char];
    if n < 10 then last else Print(n / 10) + last
  }

  /** The number a string of digits denotes. */
  function Value(s: string): nat
    requires AllDigits(s)
  {
    if s == "" then 0 else 10 * Value(s[..|s| - 1]) + (s[|s| - 1] - '0') as int
  }

  lemma {:induction false} ValueOfPrint(n: nat)
    ensures Print(n) != "" && AllDigits(Print(n)) && Value(Print(n)) == n
    decreases n
  {
    if n >= 10 {
      ValueOfPrint(n / 10);
      assert Print(n)[..|Print(n)| - 1] == Print(n / 10);
    }
  }

  lemma PrintInjective(m: nat, n: nat)
    requires Print(m) == Print(n)
    ensures m == n
  {
    ValueOfPrint(m);
    ValueOfPrint(n);
  }

  /** `s` is exactly what `%d` prints for some number. */
  predicate Canonical(s: string) {
    AllDigits(s) && Print(Value(s)) == s
  }

  lemma PrintCanonical(n: nat)
    ensures Canonical(Print(n)) && Value(Print(n)) == n
  {
    ValueOfPrint(n);
  }

  // ---- strconv.Atoi -------------------------------------------------------

  /** Applies an optional sign to a digit string; `None` when there is no digit or the value leaves int64. */
  function SignedValue(sign: string, digits: string): Option<int>
    requires AllDigits(digits)
  {
    var v: int := if sign == "-" then 0 - Value(digits) else Value(digits);
    if digits != "" && -MAX_INT - 1 <= v <= MAX_INT then Some(v) else None
  }

  function SignOf(s: string): string {
    if s != "" && (s[0] == '+' || s[0] == '-') then s[..1] else ""
  }

  /** `strconv.Atoi`: optional sign, then digits only, within int64. */
  function Atoi(s: string): Option<int> {
    var sign := SignOf(s);
    var digits := s[|sign|..];
    if AllDigits(digits) then SignedValue(sign, digits) else None
  }

  lemma AtoiOfPrint(n: nat)
    requires n <= MAX_INT
    ensures Atoi(Print(n)) == Some(n)
  {
    ValueOfPrint(n);
    assert Print(n)[0..] == Print(n);
  }

  // ---- fmt.Sscanf with verb %d -------------------------------------------

  predicate IsBlank(c: char) {
    c == ' ' || c == '\t' || c == '\r' || c == (11 as char) || c == (12 as char)
  }

  function SkipBlanks(s: string): (r: string)
    ensures |r| <= |s|
  {
    if s != "" && IsBlank(s[0]) then SkipBlanks(s[1..]) else s
  }

  /** The longest prefix of `s` made of digits. */
  function DigitRun(s: string): (r: string)
    ensures AllDigits(r) && r <= s
    ensures |r| < |s| ==> !IsDigit(s[|r|])
  {
    if s != "" && IsDigit(s[0]) then [s[0]] + DigitRun(s[1..]) else ""
  }

  /** Scanning `%d` into an unsigned variable: blanks, then at least one digit; whatever follows is left unread. */
  function ScanUint(s: string, limit: nat): Option<nat> {
    var digits := DigitRun(SkipBlanks(s));
    if digits != "" && Value(digits) < limit then Some(Value(digits)) else None
  }

  /** Scanning `%d` into a signed int. */
  function ScanInt(s: string): Option<int> {
    var t := SkipBlanks(s);
    var sign := SignOf(t);
    SignedValue(sign, DigitRun(t[|sign|..]))
  }

  lemma {:induction false} DigitRunStops(digits: string, rest: string)
    requires AllDigits(digits)
    requires rest == "" || !IsDigit(rest[0])
    ensures DigitRun(digits + rest) == digits
    decreases |digits|
  {
    if digits == "" {
      assert digits + rest == rest;
    } else {
      assert (digits + rest)[1..] == digits[1..] + rest;
      DigitRunStops(digits[1..], rest);
    }
  }

  lemma ScanUintOfPrint(n: nat, rest: string, limit: nat)
    requires rest == "" || !IsDigit(rest[0])
    ensures ScanUint(Print(n) + rest, limit) == if n < limit then Some(n) else None
  {
    ValueOfPrint(n);
    DigitRunStops(Print(n), rest);
  }

  lemma ScanIntOfPrint(n: nat)
    requires n <= MAX_INT
    ensures ScanInt(Print(n)) == Some(n)
  {
    ValueOfPrint(n);
    DigitRunStops(Print(n), "");
    assert Print(n) + "" == Print(n);
    assert Print(n)[0..] == Print(n);
    assert IsDigit(Print(n)[0]);
    hide Print, Value, DigitRun;
  }
}
