/** Character and string helpers: decimal rendering of integers and Foundation's
    `capitalized`, restricted to ASCII. */
module Text {

  predicate IsDigit(c: char) {
    '0' <= c <= '9'
  }

  predicate IsLower(c: char) {
    'a' <= c <= 'z'
  }

  /** Word separators for `capitalized`: space, tab and line terminators. */
  predicate IsSeparator(c: char) {
    c == ' ' || c == '\t' || c == '\n' || c == '\r'
  }

  function Upper(c: char): (u: char)
    ensures IsLower(c) ==> 'A' <= u <= 'Z' && u as int == c as int - 32
    ensures !IsLower(c) && !('A' <= c <= 'Z') ==> u == c
  {
    if IsLower(c) then (c as int - 32) as char else c
  }

  function Lower(c: char): (l: char)
    ensures 'A' <= c <= 'Z' ==> IsLower(l) && l as int == c as int + 32
    ensures !('A' <= c <= 'Z') ==> l == c
  {
    if 'A' <= c <= 'Z' then (c as int + 32) as char else c
  }

  function DigitChar(d: nat): (c: char)
    requires d < 10
    ensures IsDigit(c) && c as int - '0' as int == d
  {
    ('0' as int + d) as char
  }

  function DigitValue(c: char): nat
    requires IsDigit(c)
  {
    c as int - '0' as int
  }

  /** Swift's string interpolation of a non-negative `Int`: decimal, no leading zeros. */
  function NatToString(n: nat): (s: string)
    ensures 1 <= |s|
    ensures forall i :: 0 <= i < |s| ==> IsDigit(s[i])
    ensures s[|s| - 1] == DigitChar(n % 10)
    ensures n < 10 <==> |s| == 1
  {
    if n < 10 then [DigitChar(n)] else NatToString(n / 10) + [DigitChar(n % 10)]
  }

  /** Reads a string of decimal digits back as a number. */
  function ParseNat(s: string): nat
    requires forall i :: 0 <= i < |s| ==> IsDigit(s[i])
  {
    if s == [] then 0 else ParseNat(s[..|s| - 1]) * 10 + DigitValue(s[|s| - 1])
  }

  /** Decimal rendering is inverted by parsing, so it loses no information. */
  lemma {:induction false} ParseNatToString(n: nat)
    ensures ParseNat(NatToString(n)) == n
  {
    var s := NatToString(n);
    if n >= 10 {
      ParseNatToString(n / 10);
      assert s[..|s| - 1] == NatToString(n / 10);
    }
  }

  lemma NatToStringInjective(m: nat, n: nat)
    requires NatToString(m) == NatToString(n)
    ensures m == n
  {
    ParseNatToString(m);
    ParseNatToString(n);
  }

  /** Foundation's `capitalized` on ASCII text: the first character of every word
      upper-cased, every other character lower-cased. `atStart` tells whether the
      next character begins a word. */
  function CapitalizeFrom(s: string, atStart: bool): (r: string)
    ensures |r| == |s|
  {
    if s == [] then []
    else [if atStart then Upper(s[0]) else Lower(s[0])] + CapitalizeFrom(s[1..], IsSeparator(s[0]))
  }

  function Capitalized(s: string): (r: string)
    ensures |r| == |s|
  {
    CapitalizeFrom(s, true)
  }

  /** Inside a word of lower-case letters nothing changes. */
  lemma {:induction false} CapitalizeLowerWord(s: string)
    requires forall i :: 0 <= i < |s| ==> IsLower(s[i])
    ensures CapitalizeFrom(s, false) == s
  {
    if s != [] {
      CapitalizeLowerWord(s[1..]);
    }
  }

  /** A single lower-case word: only its first letter is upper-cased. */
  lemma CapitalizedWord(s: string)
    requires |s| >= 1
    requires forall i :: 0 <= i < |s| ==> IsLower(s[i])
    ensures Capitalized(s) == [Upper(s[0])] + s[1..]
    ensures 'A' <= Capitalized(s)[0] <= 'Z'
  {
    CapitalizeLowerWord(s[1..]);
  }
}
