/** String helpers the game relies on: JavaScript's `String.prototype.trim`
    (used on the player's name) and the decimal rendering of a number inside
    a template literal (used for letter ids). */
module Text {

  /** The characters `trim` strips: ECMAScript WhiteSpace and LineTerminator. */
  const Whitespace: set<char> := {
    '\t', '\n', '\U{000B}', '\U{000C}', '\r', ' ', '\U{00A0}', '\U{1680}',
    '\U{2000}', '\U{2001}', '\U{2002}', '\U{2003}', '\U{2004}', '\U{2005}',
    '\U{2006}', '\U{2007}', '\U{2008}', '\U{2009}', '\U{200A}',
    '\U{2028}', '\U{2029}', '\U{202F}', '\U{205F}', '\U{3000}', '\U{FEFF}'
  }

  /** One of the characters `trim` strips. */
  predicate IsWhitespace(c: char) {
    c in Whitespace
  }

  /** True when `s[lo..hi]` holds only whitespace. */
  predicate BlankBetween(s: string, lo: nat, hi: nat)
    requires lo <= hi <= |s|
  {
    forall i :: lo <= i < hi ==> IsWhitespace(s[i])
  }

  /** True when the string has no character other than whitespace. */
  predicate IsBlank(s: string) {
    BlankBetween(s, 0, |s|)
  }

  /** How many whitespace characters `s` starts with. */
  function LeadingBlanks(s: string): (k: nat)
    ensures k <= |s| && BlankBetween(s, 0, k)
    ensures k == |s| || !IsWhitespace(s[k])
  {
    if s != [] && IsWhitespace(s[0]) then
      var k := LeadingBlanks(s[1..]);
      assert forall i :: 1 <= i < k + 1 ==> s[i] == s[1..][i - 1];
      k + 1
    else
      0
  }

  /** How many whitespace characters `s` ends with. */
  function TrailingBlanks(s: string): (k: nat)
    ensures k <= |s| && BlankBetween(s, |s| - k, |s|)
    ensures k == |s| || !IsWhitespace(s[|s| - 1 - k])
  {
    if s != [] && IsWhitespace(s[|s| - 1]) then
      var init := s[..|s| - 1];
      var k := TrailingBlanks(init);
      assert forall i :: 0 <= i < |init| ==> init[i] == s[i];
      k + 1
    else
      0
  }

  /** `String.prototype.trim`: the slice of `s` left once its leading and
      trailing whitespace are cut. It neither starts nor ends with
      whitespace, everything cut before and after it is whitespace, and it
      is empty exactly when `s` is blank. */
  function Trim(s: string): (r: string)
    ensures r == [] || (!IsWhitespace(r[0]) && !IsWhitespace(r[|r| - 1]))
    ensures r == [] <==> IsBlank(s)
    ensures LeadingBlanks(s) + |r| <= |s|
    ensures r == s[LeadingBlanks(s)..LeadingBlanks(s) + |r|]
    ensures BlankBetween(s, 0, LeadingBlanks(s))
    ensures BlankBetween(s, LeadingBlanks(s) + |r|, |s|)
  {
    var a := LeadingBlanks(s);
    var b := TrailingBlanks(s[a..]);
    TrailingBlanksAfter(s, a);
    var r := s[a..|s| - b];
    assert r != [] ==> r[0] == s[a] && r[|r| - 1] == s[|s| - 1 - b];
    assert r == [] <==> IsBlank(s) by {
      if r == [] {
        BlankJoin(s, 0, a, |s|);
      } else {
        assert !IsWhitespace(s[a]);
      }
    }
    r
  }

  /** Two blank stretches side by side make one. */
  lemma BlankJoin(s: string, lo: nat, mid: nat, hi: nat)
    requires lo <= mid <= hi <= |s|
    requires BlankBetween(s, lo, mid) && BlankBetween(s, mid, hi)
    ensures BlankBetween(s, lo, hi)
  {
  }

  /** The trailing whitespace of `s[a..]`, counted in `s`'s own positions. */
  lemma TrailingBlanksAfter(s: string, a: nat)
    requires a <= |s|
    ensures TrailingBlanks(s[a..]) <= |s| - a
    ensures BlankBetween(s, |s| - TrailingBlanks(s[a..]), |s|)
    ensures TrailingBlanks(s[a..]) == |s| - a || !IsWhitespace(s[|s| - 1 - TrailingBlanks(s[a..])])
  {
    var t := s[a..];
    var b := TrailingBlanks(t);
    forall i | |s| - b <= i < |s| ensures IsWhitespace(s[i]) {
      assert s[i] == t[i - a];
    }
    if b < |t| {
      assert s[|s| - 1 - b] == t[|t| - 1 - b];
    }
  }

  /** Trimming twice is trimming once. */
  lemma TrimIdempotent(s: string)
    ensures Trim(Trim(s)) == Trim(s)
  {
    var r := Trim(s);
    if r != [] {
      assert LeadingBlanks(r) == 0;
      assert TrailingBlanks(r[0..]) == 0;
      assert r[0..|r|] == r;
    }
  }

  /** The digit character for `d`. */
  function DigitChar(d: nat): (c: char)
    requires d < 10
    ensures '0' <= c <= '9'
    ensures c as int - '0' as int == d
  {
    (48 + d) as char
  }

  /** The number a string of decimal digits spells, most significant first. */
  function DecimalValue(s: string): nat
    requires forall i :: 0 <= i < |s| ==> '0' <= s[i] <= '9'
  {
    if s == [] then 0
    else DecimalValue(s[..|s| - 1]) * 10 + (s[|s| - 1] as int - '0' as int)
  }

  /** How a non-negative integer is written in a JavaScript template literal:
      its decimal digits, most significant first. */
  function NatToDecimal(n: nat): (r: string)
    ensures |r| >= 1
    ensures (n < 10) == (|r| == 1)
    ensures forall i :: 0 <= i < |r| ==> '0' <= r[i] <= '9'
    decreases n
  {
    if n < 10 then [DigitChar(n)] else NatToDecimal(n / 10) + [DigitChar(n % 10)]
  }

  /** The digits spell `n` exactly, with no leading zero. */
  lemma {:induction false} NatToDecimalValue(n: nat)
    ensures DecimalValue(NatToDecimal(n)) == n
    ensures |NatToDecimal(n)| > 1 ==> NatToDecimal(n)[0] != '0'
    decreases n
  {
    if n >= 10 {
      var r := NatToDecimal(n);
      assert r[..|r| - 1] == NatToDecimal(n / 10);
      NatToDecimalValue(n / 10);
    }
  }

  /** Different numbers are written differently. */
  lemma NatToDecimalInjective(a: nat, b: nat)
    requires NatToDecimal(a) == NatToDecimal(b)
    ensures a == b
  {
    NatToDecimalValue(a);
    NatToDecimalValue(b);
  }
}
