/** Decimal numbers as C prints and scans them. */
module Decimal {
  import opened Bytes
  import opened Options

  predicate IsDigit(c: char) {
    '0' <= c <= '9'
  }

  predicate IsSpace(c: char) {
    c == ' ' || 9 <= c as int <= 13
  }

  predicate AllDigits(s: string) {
    forall i :: 0 <= i < |s| ==> IsDigit(s[i])
  }

  function Digits(n: nat): (s: string)
    ensures s != [] && AllDigits(s)
  {
    (if n < 10 then [] else Digits(n / 10)) + [('0' as int + n % 10) as char]
  }

  /** `%d` */
  function Printed(n: int): string {
    if n < 0 then ['-'] + Digits(-n) else Digits(n)
  }

  function Value(s: string): nat
    requires AllDigits(s)
  {
    if s == [] then 0
    else
      assert IsDigit(s[|s| - 1]);
      10 * Value(s[..|s| - 1]) + (s[|s| - 1] as int - '0' as int)
  }

  /** How many digits the string starts with. */
  function Leading(s: string): (k: nat)
    ensures k <= |s| && AllDigits(s[..k]) && (k == |s| || !IsDigit(s[k]))
  {
    if s == [] || !IsDigit(s[0]) then 0
    else
      var k := 1 + Leading(s[1..]);
      assert s[..k] == [s[0]] + s[1..][..k - 1];
      k
  }

  function SkipSpace(s: string): (r: string)
    ensures |r| <= |s|
  {
    if s != [] && IsSpace(s[0]) then SkipSpace(s[1..]) else s
  }

  function ScanDigits(s: string): Option<(int, string)> {
    var k := Leading(s);
    if k == 0 then None else Some((Value(s[..k]), s[k..]))
  }

  /** A number with an optional sign, and what follows it. */
  function Scan(s: string): Option<(int, string)> {
    if s != [] && s[0] == '-' then
      var r := ScanDigits(s[1..]);
      if r.None? then None else Some((-r.value.0, r.value.1))
    else ScanDigits(if s != [] && s[0] == '+' then s[1..] else s)
  }

  lemma {:induction false} DigitsValue(n: nat)
    ensures Value(Digits(n)) == n
  {
    var s := Digits(n);
    if 10 <= n {
      DigitsValue(n / 10);
      assert s[..|s| - 1] == Digits(n / 10);
    } else {
      assert s[..|s| - 1] == [];
    }
  }

  lemma {:induction false} LeadingIs(d: string, rest: string)
    requires AllDigits(d) && (rest == [] || !IsDigit(rest[0]))
    ensures Leading(d + rest) == |d|
  {
    if d == [] {
      assert d + rest == rest;
    } else {
      LeadingIs(d[1..], rest);
      assert (d + rest)[1..] == d[1..] + rest;
    }
  }

  lemma ScanDigitsPrinted(n: nat, rest: string)
    requires rest == [] || !IsDigit(rest[0])
    ensures ScanDigits(Digits(n) + rest) == Some((n, rest))
  {
    LeadingIs(Digits(n), rest);
    DigitsValue(n);
    assert (Digits(n) + rest)[..|Digits(n)|] == Digits(n);
  }

  lemma ScanNegative(t: string)
    ensures Scan(['-'] + t).None? <==> ScanDigits(t).None?
    ensures Scan(['-'] + t).Some? ==>
            Scan(['-'] + t).value.0 == -ScanDigits(t).value.0 && Scan(['-'] + t).value.1 == ScanDigits(t).value.1
  {
    assert (['-'] + t)[1..] == t;
  }

  lemma ScanNatural(n: nat, rest: string)
    requires rest == [] || !IsDigit(rest[0])
    ensures Scan(Digits(n) + rest) == Some((n, rest))
  {
    assert (Digits(n) + rest)[0] == Digits(n)[0];
    ScanDigitsPrinted(n, rest);
  }

  /** Whatever number is printed is scanned again, up to the first character that is no digit. */
  lemma ScanPrinted(n: int, rest: string)
    requires rest == [] || !IsDigit(rest[0])
    ensures Scan(Printed(n) + rest).Some?
    ensures Scan(Printed(n) + rest).value.0 == n && Scan(Printed(n) + rest).value.1 == rest
  {
    if n < 0 {
      var m: nat := -n;
      ScanDigitsPrinted(m, rest);
      ScanNegative(Digits(m) + rest);
      Associative(['-'], Digits(m), rest);
    } else {
      ScanNatural(n, rest);
    }
  }

  lemma PrintedNotSpace(n: int)
    ensures Printed(n) != [] && !IsSpace(Printed(n)[0])
  {
    assert 0 <= n ==> IsDigit(Digits(n)[0]);
  }
}
