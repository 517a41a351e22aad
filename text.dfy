/** Character classes and String.prototype.trim, as the contact form uses them. */
module Text {

  /** The ECMAScript WhiteSpace and LineTerminator code points: the set matched
      by `\s` in a regular expression and stripped by `trim`. */
  predicate IsWhitespace(c: char) {
    || c == '\t' || c == '\n' || c == '\U{000B}' || c == '\U{000C}' || c == '\r'
    || c == ' ' || c == '\U{00A0}' || c == '\U{1680}'
    || ('\U{2000}' <= c <= '\U{200A}')
    || c == '\U{2028}' || c == '\U{2029}' || c == '\U{202F}' || c == '\U{205F}'
    || c == '\U{3000}' || c == '\U{FEFF}'
  }

  predicate AllWhitespace(s: string) {
    forall k | 0 <= k < |s| :: IsWhitespace(s[k])
  }

  /** Number of whitespace characters at the start of `s`. */
  function LeadingWhitespace(s: string): (n: nat)
    ensures n <= |s|
    ensures AllWhitespace(s[..n])
    ensures n < |s| ==> !IsWhitespace(s[n])
  {
    if |s| > 0 && IsWhitespace(s[0]) then
      var n := 1 + LeadingWhitespace(s[1..]);
      assert s[..n] == [s[0]] + s[1..][..n - 1];
      n
    else 0
  }

  /** Number of whitespace characters at the end of `s`. */
  function TrailingWhitespace(s: string): (n: nat)
    ensures n <= |s|
    ensures forall k | |s| - n <= k < |s| :: IsWhitespace(s[k])
    ensures n < |s| ==> !IsWhitespace(s[|s| - n - 1])
  {
    if |s| > 0 && IsWhitespace(s[|s| - 1]) then
      var init := s[..|s| - 1];
      var n := 1 + TrailingWhitespace(init);
      assert forall k | |s| - n <= k < |s| - 1 :: s[k] == init[k];
      n
    else 0
  }

  /** `s.trim()`: the slice left after dropping whitespace at both ends; what
      lies before it and after it is whitespace only. */
  function Trim(s: string): (r: string)
    ensures LeadingWhitespace(s) + |r| <= |s|
    ensures r == s[LeadingWhitespace(s)..LeadingWhitespace(s) + |r|]
    ensures AllWhitespace(s[LeadingWhitespace(s) + |r|..])
    ensures r != [] ==> !IsWhitespace(r[0]) && !IsWhitespace(r[|r| - 1])
    ensures r == [] <==> AllWhitespace(s)
  {
    var i := LeadingWhitespace(s);
    var t := s[i..];
    var r := t[..|t| - TrailingWhitespace(t)];
    assert s[i + |r|..] == t[|t| - TrailingWhitespace(t)..];
    assert r == [] ==> AllWhitespace(s) by {
      if r == [] {
        assert t[|t| - TrailingWhitespace(t)..] == t;
        assert i == |s|;
        assert s[..i] == s;
      }
    }
    r
  }

  /** Trimming twice is trimming once. */
  lemma TrimIdempotent(s: string)
    ensures Trim(Trim(s)) == Trim(s)
  {
    var r := Trim(s);
    if r != [] {
      assert LeadingWhitespace(r) == 0;
      assert TrailingWhitespace(r) == 0;
    }
  }

  /** UTF-16 code units of one character: two for a character outside the
      Basic Multilingual Plane (a surrogate pair), one otherwise. */
  function Utf16Units(c: char): nat {
    if c > '\U{FFFF}' then 2 else 1
  }

  /** A string's `length`, which counts UTF-16 code units, not characters. */
  function Utf16Length(s: string): (n: nat)
    ensures |s| <= n <= 2 * |s|
    ensures (forall k | 0 <= k < |s| :: s[k] <= '\U{FFFF}') ==> n == |s|
    ensures (exists k | 0 <= k < |s| :: s[k] > '\U{FFFF}') ==> n > |s|
    decreases |s|
  {
    if s == [] then 0
    else
      assert (exists k | 0 <= k < |s| :: s[k] > '\U{FFFF}') && s[0] <= '\U{FFFF}' ==>
        exists k | 0 <= k < |s[1..]| :: s[1..][k] > '\U{FFFF}' by {
        if (exists k | 0 <= k < |s| :: s[k] > '\U{FFFF}') && s[0] <= '\U{FFFF}' {
          var k :| 0 <= k < |s| && s[k] > '\U{FFFF}';
          assert s[1..][k - 1] == s[k];
        }
      }
      Utf16Units(s[0]) + Utf16Length(s[1..])
  }

  /** One character is one code unit, or two outside the Basic Multilingual Plane. */
  lemma Utf16LengthChar(c: char)
    ensures Utf16Length([c]) == if c > '\U{FFFF}' then 2 else 1
  {
    assert [c][1..] == [];
  }

  /** The length of a concatenation is the sum of the lengths. */
  lemma {:induction false} Utf16LengthConcat(a: string, b: string)
    ensures Utf16Length(a + b) == Utf16Length(a) + Utf16Length(b)
    decreases |a|
  {
    if a == [] {
      assert a + b == b;
    } else {
      assert (a + b)[0] == a[0];
      assert (a + b)[1..] == a[1..] + b;
      Utf16LengthConcat(a[1..], b);
    }
  }

  /** Characters of the ASCII digit class `\d`. */
  predicate IsDigit(c: char) {
    '0' <= c <= '9'
  }
}
