/** Numbers and addresses written as text. */
module Numeral {

  predicate Base(base: nat) { base == 10 || base == 16 }

  function Digit(d: nat): char
    requires d < 16
  {
    "0123456789abcdef"[d]
  }

  function DigitValue(c: char): int {
    if '0' <= c <= '9' then c as int - '0' as int else c as int - 'a' as int + 10
  }

  predicate IsDigit(c: char) { '0' <= c <= '9' || 'a' <= c <= 'f' }

  lemma DigitRoundTrip(d: nat)
    requires d < 16
    ensures DigitValue(Digit(d)) == d && IsDigit(Digit(d))
  {
  }

  /** The number in a base, without leading zeros. */
  function Text(n: nat, base: nat): (s: string)
    requires Base(base)
    ensures |s| > 0
  {
    if n < base then [Digit(n)] else Text(n / base, base) + [Digit(n % base)]
  }

  function Value(s: string, base: nat): int {
    if s == [] then 0 else Value(s[..|s| - 1], base) * base + DigitValue(s[|s| - 1])
  }

  predicate Digits(s: string) { forall i :: 0 <= i < |s| ==> IsDigit(s[i]) }

  /** A numeral is read back as its number, uses digits only, and has no leading zero. */
  lemma {:induction false} TextRoundTrip(n: nat, base: nat)
    requires Base(base)
    ensures Value(Text(n, base), base) == n && Digits(Text(n, base))
    ensures Text(n, base)[0] == '0' ==> Text(n, base) == "0"
  {
    var s := Text(n, base);
    DigitRoundTrip(n % base);
    if n < base {
      assert s[..0] == [];
    } else {
      TextRoundTrip(n / base, base);
      assert s[..|s| - 1] == Text(n / base, base);
    }
  }

  /** Parts joined by a separator. */
  function Join(parts: seq<string>, sep: char): string {
    if parts == [] then []
    else if |parts| == 1 then parts[0]
    else Join(parts[..|parts| - 1], sep) + [sep] + parts[|parts| - 1]
  }

  /** Cutting at the last separator. */
  lemma LastSeparator(a: string, x: string, b: string, y: string, sep: char)
    requires a + [sep] + x == b + [sep] + y && sep !in x && sep !in y
    ensures a == b && x == y
  {
    var s := a + [sep] + x;
    assert s[|a|] == sep && s[|b|] == sep;
    if |a| < |b| {
      assert false;
    } else if |b| < |a| {
      assert false;
    } else {
      assert a == s[..|a|] && b == s[..|a|];
      assert x == s[|a| + 1..] && y == s[|a| + 1..];
    }
  }

  lemma {:induction false} JoinInjective(p: seq<string>, q: seq<string>, sep: char)
    requires |p| == |q| && Join(p, sep) == Join(q, sep)
    requires forall i :: 0 <= i < |p| ==> sep !in p[i] && sep !in q[i]
    ensures p == q
    decreases |p|
  {
    if |p| > 1 {
      var n := |p| - 1;
      LastSeparator(Join(p[..n], sep), p[n], Join(q[..n], sep), q[n], sep);
      JoinInjective(p[..n], q[..n], sep);
      assert p == p[..n] + [p[n]] && q == q[..n] + [q[n]];
    }
  }
}
