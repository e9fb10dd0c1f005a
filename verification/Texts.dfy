/** Plain string operations the tools rely on, and the small wrappers every module uses. */
module Texts {

  datatype Option<+T> = None | Some(value: T)

  /** The ASCII and Latin-1 characters that Python's str.strip removes. */
  predicate IsSpace(c: char) {
    c == ' ' || '\t' <= c <= '\r' || '\U{1c}' <= c <= '\U{1f}' || c == '\U{85}' || c == '\U{a0}'
  }

  function RStrip(s: string): (r: string)
    ensures r <= s
    ensures r == "" || !IsSpace(r[|r| - 1])
    ensures r == s <==> s == "" || !IsSpace(s[|s| - 1])
  {
    if s != "" && IsSpace(s[|s| - 1]) then RStrip(s[..|s| - 1]) else s
  }

  predicate Blank(s: string) {
    RStrip(s) == ""
  }

  function Strip(s: string): string {
    if s != "" && IsSpace(s[0]) then Strip(s[1..]) else RStrip(s)
  }

  function StripNewlines(s: string): (r: string)
    ensures |r| <= |s|
    ensures r != "" ==> r[|r| - 1] == s[|s| - 1]
    ensures r == "" || r[0] != '\n'
    ensures r == s <==> s == "" || s[0] != '\n'
  {
    if s != "" && s[0] == '\n' then StripNewlines(s[1..]) else s
  }

  /** Only newlines are stripped, and only from the front. */
  lemma {:induction false} NewlinesStripped(s: string)
    ensures var r := StripNewlines(s);
      s[|s| - |r|..] == r && forall i :: 0 <= i < |s| - |r| ==> s[i] == '\n'
  {
    if s != "" && s[0] == '\n' {
      NewlinesStripped(s[1..]);
    }
  }

  /** Only white space is stripped, and only from the end. */
  lemma {:induction false} SpacesStripped(s: string)
    ensures forall i :: |RStrip(s)| <= i < |s| ==> IsSpace(s[i])
  {
    if s != "" && IsSpace(s[|s| - 1]) {
      SpacesStripped(s[..|s| - 1]);
    }
  }

  predicate StartsWith(s: string, prefix: string) {
    prefix <= s
  }

  predicate EndsWith(s: string, suffix: string) {
    |suffix| <= |s| && s[|s| - |suffix|..] == suffix
  }

  function Decimal(n: nat): (r: string)
    ensures r != ""
    ensures forall i :: 0 <= i < |r| ==> '0' <= r[i] <= '9'
  {
    if n < 10 then [Digit(n)] else Decimal(n / 10) + [Digit(n % 10)]
  }

  function Digit(d: nat): (c: char)
    requires d < 10
    ensures '0' <= c <= '9'
  {
    '0' + d as char
  }

  lemma {:induction false} DecimalInjective(m: nat, n: nat)
    requires Decimal(m) == Decimal(n)
    ensures m == n
  {
    var a, b := Decimal(m), Decimal(n);
    assert a[|a| - 1] == Digit(m % 10) && b[|b| - 1] == Digit(n % 10);
    if m >= 10 && n >= 10 {
      assert a[..|a| - 1] == Decimal(m / 10) && b[..|b| - 1] == Decimal(n / 10);
      DecimalInjective(m / 10, n / 10);
    }
  }

  function Pow10(d: nat): (p: nat)
    ensures p > 0
  {
    if d == 0 then 1 else 10 * Pow10(d - 1)
  }

  lemma {:induction false} DecimalLength(n: nat, d: nat)
    requires d > 0
    ensures |Decimal(n)| <= d <==> n < Pow10(d)
  {
    if n >= 10 && d > 1 {
      DecimalLength(n / 10, d - 1);
    } else if n >= 10 {
      assert Pow10(1) == 10 * Pow10(0);
    } else {
      Pow10Grows(1, d);
      assert Pow10(1) == 10 * Pow10(0);
    }
  }

  lemma {:induction false} Pow10Grows(d: nat, e: nat)
    requires d <= e
    ensures Pow10(d) <= Pow10(e)
  {
    if d < e {
      Pow10Grows(d, e - 1);
    }
  }
}
