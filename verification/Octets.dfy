/** Byte strings written as characters below 256, and the character classes the parsers use. */
module Octets {
  type Octet = c: char | c as int < 256

  type Text = seq<Octet>

  lemma Regroup(a: Text, b: Text, c: Text)
    ensures a + (b + c) == (a + b) + c
  {
  }

  /** Text without line ends. */
  predicate OneLine(s: Text) { '\r' !in s && '\n' !in s }

  function Lower(c: Octet): Octet {
    if 'A' <= c <= 'Z' then (c as int + 32) as char else c
  }

  predicate IsHex(c: Octet) {
    '0' <= c <= '9' || 'a' <= c <= 'f' || 'A' <= c <= 'F'
  }

  function HexValue(c: Octet): (v: nat)
    requires IsHex(c)
    ensures v < 16
  {
    if c <= '9' then c as int - '0' as int
    else if c <= 'F' then c as int - 'A' as int + 10
    else c as int - 'a' as int + 10
  }

  /** A digit is worth its place among the sixteen, in either case. */
  lemma HexIsPlace(c: Octet)
    requires IsHex(c)
    ensures "0123456789abcdef"[HexValue(c)] == Lower(c)
  {
    var digits := "0123456789abcdef";
    assert digits[HexValue(c)] == if HexValue(c) < 10 then ('0' as int + HexValue(c)) as char
                                  else ('a' as int + HexValue(c) - 10) as char;
  }

  /** Blank characters that a header may use, line ends not included. */
  predicate IsBlank(c: Octet) {
    c == ' ' || c == '\t' || c == 11 as char || c == 12 as char
  }

  /** The length of the longest prefix without `c`. */
  function Before(s: Text, c: Octet): (n: nat)
    ensures n <= |s| && (n < |s| ==> s[n] == c) && c !in s[..n]
  {
    if s == [] || s[0] == c then 0
    else
      assert s[..1 + Before(s[1..], c)] == [s[0]] + s[1..][..Before(s[1..], c)];
      1 + Before(s[1..], c)
  }

  lemma BeforeIs(s: Text, c: Octet, n: nat)
    requires n <= |s| && c !in s[..n] && (n < |s| ==> s[n] == c)
    ensures Before(s, c) == n
  {
    if n < |s| {
      assert s[n] == c;
    }
  }

  /** The first line, with its line feed when it has one, and what follows it. */
  function FirstLine(s: Text): (l: Text)
    ensures l <= s && (s != [] ==> l != [])
  {
    var n := Before(s, '\n');
    if n < |s| then s[..n + 1] else s
  }

  function AfterLine(s: Text): (r: Text)
    ensures FirstLine(s) + r == s && |r| <= |s| && (s != [] ==> |r| < |s|)
  {
    s[|FirstLine(s)|..]
  }
}
