/** Decimal text: what std::to_string prints and what std::from_chars reads back. */
module Decimal {
  import opened Common

  const INT64_MAX: int := 0x7FFF_FFFF_FFFF_FFFF
  const INT64_MIN: int := -0x8000_0000_0000_0000

  predicate IsDigit(c: char) { '0' <= c <= '9' }

  predicate AllDigits(s: string) { forall i | 0 <= i < |s| :: IsDigit(s[i]) }

  function DigitOf(c: char): nat
    requires IsDigit(c)
  {
    c as nat - '0' as nat
  }

  /** The number a run of digits denotes. */
  function Value(s: string): nat
    requires AllDigits(s)
  {
    if s == "" then 0 else Value(s[..|s| - 1]) * 10 + DigitOf(s[|s| - 1])
  }

  function Print(n: nat): (s: string)
    ensures s != "" && AllDigits(s)
  {
    if n < 10 then [n as char + '0'] else Print(n / 10) + [(n % 10) as char + '0']
  }

  function PrintInt(n: int): string {
    if n < 0 then "-" + Print(-n) else Print(n)
  }

  lemma {:induction false} ValueOfPrint(n: nat)
    ensures Value(Print(n)) == n
  {
    if n >= 10 {
      ValueOfPrint(n / 10);
      assert Print(n)[..|Print(n)| - 1] == Print(n / 10);
    }
  }

  lemma {:induction false} ValueMonotone(s: string, n: nat)
    requires AllDigits(s) && n <= |s|
    ensures Value(s[..n]) <= Value(s)
  {
    if n < |s| {
      ValueMonotone(s[..|s| - 1], n);
      assert s[..|s| - 1][..n] == s[..n];
    } else {
      assert s[..n] == s;
    }
  }

  /** The length of the leading run of digits. */
  function RunLength(s: string): (n: nat)
    ensures n <= |s| && AllDigits(s[..n]) && (n < |s| ==> !IsDigit(s[n]))
  {
    if s == "" || !IsDigit(s[0]) then 0 else 1 + RunLength(s[1..])
  }

  lemma {:induction false} RunLengthIs(s: string, n: nat)
    requires n <= |s| && AllDigits(s[..n]) && (n < |s| ==> !IsDigit(s[n]))
    ensures RunLength(s) == n
  {
    if n > 0 {
      assert s[0] == s[..n][0] && s[1..][..n - 1] == s[..n][1..];
      RunLengthIs(s[1..], n - 1);
    }
  }

  /** The text after an optional minus sign. */
  function Magnitude(s: string): string {
    if s != "" && s[0] == '-' then s[1..] else s
  }

  /** The int64_t a digit run denotes; an empty run and overflow are errors. */
  function Ranged(negative: bool, run: string): Option<int>
    requires AllDigits(run)
  {
    if run == "" then None
    else
      var v := if negative then 0 - Value(run) else Value(run);
      if INT64_MIN <= v <= INT64_MAX then Some(v) else None
  }

  /** std::from_chars into an int64_t: characters after the number are ignored. */
  function ParseInt(s: string): Option<int> {
    var body := Magnitude(s);
    Ranged(s != "" && s[0] == '-', body[..RunLength(body)])
  }

  lemma PrintedRun(m: nat, rest: string)
    requires rest != "" ==> !IsDigit(rest[0])
    ensures (Print(m) + rest)[..RunLength(Print(m) + rest)] == Print(m)
  {
    var digits := Print(m);
    assert (digits + rest)[..|digits|] == digits;
    RunLengthIs(digits + rest, |digits|);
  }

  /** Printing and reading back gives the number, whatever non-digit text follows. */
  lemma ParsePrinted(n: nat, rest: string)
    requires n <= INT64_MAX && (rest != "" ==> !IsDigit(rest[0]))
    ensures ParseInt(Print(n) + rest) == Some(n)
  {
    var digits := Print(n);
    PrintedRun(n, rest);
    ValueOfPrint(n);
    assert IsDigit(digits[0]) && (digits + rest)[0] == digits[0];
  }
}
