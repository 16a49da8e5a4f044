/** Decimal rendering of natural numbers, as Go's `fmt.Sprintf("%d", n)` and
    JavaScript's `n.toString()` produce it, and Go's `fmt.Sscanf(s, "%d", &u)`
    reading an unsigned integer back. */
module Decimal {
  import opened Wrappers

  function DigitChar(d: nat): (c: char)
    requires d < 10
    ensures '0' <= c <= '9'
  {
    ['0', '1', '2', '3', '4', '5', '6', '7', '8', '9'][d]
  }

  predicate IsDigit(c: char) {
    '0' <= c <= '9'
  }

  function DigitValue(c: char): (d: nat)
    requires IsDigit(c)
    ensures d < 10
  {
    (c as int) - ('0' as int)
  }

  /** The shortest decimal numeral of `n`; it has no leading zero unless it is "0". */
  function NatToString(n: nat): (s: string)
    ensures |s| >= 1
    ensures forall i :: 0 <= i < |s| ==> IsDigit(s[i])
    ensures n >= 10 ==> |s| >= 2
    decreases n
  {
    if n < 10 then [DigitChar(n)] else NatToString(n / 10) + [DigitChar(n % 10)]
  }

  /** The value of a string of digits. */
  function ValueOf(s: string): (n: nat)
    requires forall i :: 0 <= i < |s| ==> IsDigit(s[i])
  {
    if s == [] then 0 else 10 * ValueOf(s[..|s| - 1]) + DigitValue(s[|s| - 1])
  }

  lemma DigitRoundTrip(d: nat)
    requires d < 10
    ensures DigitValue(DigitChar(d)) == d
  {
  }

  /** Reading back the numeral of `n` gives `n`. */
  lemma {:induction false} ValueOfNatToString(n: nat)
    ensures ValueOf(NatToString(n)) == n
    decreases n
  {
    var s := NatToString(n);
    if n < 10 {
      DigitRoundTrip(n);
    } else {
      ValueOfNatToString(n / 10);
      DigitRoundTrip(n % 10);
      assert s[..|s| - 1] == NatToString(n / 10);
    }
  }

  /** Distinct numbers have distinct numerals, so ids rendered from distinct
      database keys never collide. */
  lemma NatToStringInjective(m: nat, n: nat)
    requires NatToString(m) == NatToString(n)
    ensures m == n
  {
    ValueOfNatToString(m);
    ValueOfNatToString(n);
  }

  /** The longest prefix of `s` made of digits. */
  function DigitPrefix(s: string): (p: string)
    ensures |p| <= |s| && p == s[..|p|]
    ensures forall i :: 0 <= i < |p| ==> IsDigit(s[i])
    ensures |p| < |s| ==> !IsDigit(s[|p|])
  {
    if s == [] || !IsDigit(s[0]) then [] else [s[0]] + DigitPrefix(s[1..])
  }

  /** `fmt.Sscanf(s, "%d", &u)` into a Go `uint` (64 bits): the value of the
      leading digits, or None when there are none or the value does not fit,
      in which case the target keeps its zero value. Trailing characters are
      not an error. */
  function ScanUint(s: string): (r: Option<nat>)
    ensures s == [] || !IsDigit(s[0]) ==> r == None
    ensures r.Some? ==> r.value < 0x1_0000_0000_0000_0000
  {
    var p := DigitPrefix(s);
    if p == [] then None
    else var v := ValueOf(p); if v < 0x1_0000_0000_0000_0000 then Some(v) else None
  }

  /** Digits followed by anything: the characters after the digits are
      ignored. */
  lemma {:induction false} DigitPrefixOfNumeral(d: string, rest: string)
    requires forall i :: 0 <= i < |d| ==> IsDigit(d[i])
    requires rest == [] || !IsDigit(rest[0])
    ensures DigitPrefix(d + rest) == d
  {
    if d != [] {
      assert (d + rest)[1..] == d[1..] + rest;
      DigitPrefixOfNumeral(d[1..], rest);
    }
  }

  /** A room id that is the numeral of an in-range number, possibly followed
      by a non-digit, scans to that number. */
  lemma ScanUintOfNumeral(n: nat, rest: string)
    requires n < 0x1_0000_0000_0000_0000
    requires rest == [] || !IsDigit(rest[0])
    ensures ScanUint(NatToString(n) + rest) == Some(n)
  {
    DigitPrefixOfNumeral(NatToString(n), rest);
    ValueOfNatToString(n);
  }
}
