/** The two regular expressions of the contact form, as character-level predicates. */
module Patterns {
  import opened Text

  // ---------------------------------------------------------------------------
  // Email: /^[^\s@]+@[^\s@]+\.[^\s@]+$/
  // ---------------------------------------------------------------------------

  /** A character of the class `[^\s@]`. */
  predicate EmailChar(c: char) {
    !IsWhitespace(c) && c != '@'
  }

  predicate AllEmailChars(s: string) {
    forall k | 0 <= k < |s| :: EmailChar(s[k])
  }

  /** `s` splits as `L "@" D "." T` with `L`, `D`, `T` non-empty runs of `[^\s@]`,
      the `@` at index `at` and the `.` at index `dot`. */
  predicate EmailSplit(s: string, at: int, dot: int) {
    && 0 < at && at + 1 < dot && dot + 1 < |s|
    && s[at] == '@' && s[dot] == '.'
    && AllEmailChars(s[..at]) && AllEmailChars(s[at + 1..dot]) && AllEmailChars(s[dot + 1..])
  }

  /** The anchored email pattern, as the regular-expression engine reads it:
      some choice of the `@` and of the `.` makes the whole string match. */
  ghost predicate EmailPattern(s: string) {
    exists at: int, dot: int :: EmailSplit(s, at, dot)
  }

  /** Index of the first `c` in `s`, or `|s|` when there is none. */
  function IndexOf(s: string, c: char): (i: nat)
    ensures i <= |s|
    ensures i < |s| ==> s[i] == c
    ensures forall k | 0 <= k < i :: s[k] != c
  {
    if |s| == 0 then 0
    else if s[0] == c then 0
    else 1 + IndexOf(s[1..], c)
  }

  /** The check `emailRegex.test(s)` performs, in plain terms: no whitespace,
      exactly one `@`, something before it, and a `.` in the domain that is
      neither its first nor its last character. */
  predicate IsEmail(s: string) {
    var at := IndexOf(s, '@');
    && (forall k | 0 <= k < |s| :: !IsWhitespace(s[k]))
    && 0 < at < |s|
    && '@' !in s[at + 1..]
    && at + 3 <= |s| && '.' in s[at + 2..|s| - 1]
  }

  /** The plain check decides exactly the regular expression. */
  lemma EmailPatternIff(s: string)
    ensures EmailPattern(s) <==> IsEmail(s)
  {
    if IsEmail(s) {
      IsEmailMatches(s);
    }
    if EmailPattern(s) {
      MatchIsEmail(s);
    }
  }

  /** The plain check finds a split: the first `@` and some `.` of the domain. */
  lemma IsEmailMatches(s: string)
    requires IsEmail(s)
    ensures EmailPattern(s)
  {
    var at := IndexOf(s, '@');
    var mid := s[at + 2..|s| - 1];
    var j :| 0 <= j < |mid| && mid[j] == '.';
    var dot := at + 2 + j;
    assert s[dot] == '.';
    forall k | 0 <= k < |s| && k != at ensures EmailChar(s[k]) {
      if k > at {
        assert s[k] == s[at + 1..][k - at - 1];
      }
    }
    assert AllEmailChars(s[..at]);
    assert AllEmailChars(s[at + 1..dot]);
    assert AllEmailChars(s[dot + 1..]);
    assert EmailSplit(s, at, dot);
  }

  /** Any split the pattern makes passes the plain check. */
  lemma MatchIsEmail(s: string)
    requires EmailPattern(s)
    ensures IsEmail(s)
  {
    var at, dot :| EmailSplit(s, at, dot);
    SplitHasNoWhitespace(s, at, dot);
    SplitFirstAt(s, at, dot);
    SplitOneAt(s, at, dot);
    assert s[at + 2..|s| - 1][dot - at - 2] == '.';
  }

  lemma SplitHasNoWhitespace(s: string, at: int, dot: int)
    requires EmailSplit(s, at, dot)
    ensures forall k | 0 <= k < |s| :: !IsWhitespace(s[k])
  {
    forall k | 0 <= k < |s| ensures !IsWhitespace(s[k]) {
      if k < at {
        assert s[k] == s[..at][k];
      } else if at < k < dot {
        assert s[k] == s[at + 1..dot][k - at - 1];
      } else if dot < k {
        assert s[k] == s[dot + 1..][k - dot - 1];
      }
    }
  }

  lemma SplitFirstAt(s: string, at: int, dot: int)
    requires EmailSplit(s, at, dot)
    ensures IndexOf(s, '@') == at
  {
    forall k | 0 <= k < at ensures s[k] != '@' {
      assert s[k] == s[..at][k];
    }
  }

  lemma SplitOneAt(s: string, at: int, dot: int)
    requires EmailSplit(s, at, dot)
    ensures '@' !in s[at + 1..]
  {
    var rest := s[at + 1..];
    forall k | 0 <= k < |rest| ensures rest[k] != '@' {
      var p := at + 1 + k;
      if p < dot {
        assert s[p] == s[at + 1..dot][p - at - 1];
      } else if dot < p {
        assert s[p] == s[dot + 1..][p - dot - 1];
      }
    }
  }

  /** Three sample addresses. */
  lemma EmailExamples()
    ensures EmailPattern("a@b.c")
    ensures !EmailPattern("a@b")
    ensures !EmailPattern("a b@c.d")
  {
    assert EmailSplit("a@b.c", 1, 3);
    EmailPatternIff("a@b");
    EmailPatternIff("a b@c.d");
    assert IsWhitespace("a b@c.d"[1]);
  }

  // ---------------------------------------------------------------------------
  // Phone: /^[\d\s\-\+\(\)]+$/
  // ---------------------------------------------------------------------------

  /** A character of the class `[\d\s\-\+\(\)]`. */
  predicate PhoneChar(c: char) {
    IsDigit(c) || IsWhitespace(c) || c == '-' || c == '+' || c == '(' || c == ')'
  }

  /** The anchored phone pattern: one or more characters of the class. */
  predicate PhonePattern(s: string) {
    |s| > 0 && forall k | 0 <= k < |s| :: PhoneChar(s[k])
  }

  /** Trimming cannot turn a string the pattern rejects into one it accepts,
      except by emptying it: the whitespace it removes is itself in the class. */
  lemma {:induction false} PhonePatternTrim(s: string)
    ensures PhonePattern(Trim(s)) ==> PhonePattern(s)
    ensures PhonePattern(s) && Trim(s) != [] ==> PhonePattern(Trim(s))
  {
    var i := LeadingWhitespace(s);
    var r := Trim(s);
    if PhonePattern(r) {
      forall k | 0 <= k < |s| ensures PhoneChar(s[k]) {
        if k < i {
          assert s[k] == s[..i][k];
        } else if k < i + |r| {
          assert s[k] == r[k - i];
        } else {
          assert s[k] == s[i + |r|..][k - i - |r|];
        }
      }
    }
    if PhonePattern(s) && r != [] {
      forall k | 0 <= k < |r| ensures PhoneChar(r[k]) {
        assert r[k] == s[i + k];
      }
    }
  }

  /** Every character of the phone class is in the Basic Multilingual Plane, so
      a string the pattern accepts has as many UTF-16 code units as characters. */
  lemma PhonePatternUtf16(s: string)
    requires PhonePattern(s)
    ensures Utf16Length(s) == |s|
  {
    forall k | 0 <= k < |s| ensures s[k] <= '\U{FFFF}' {
      assert PhoneChar(s[k]);
    }
  }

  /** The four sample numbers: two accepted, one too short, one with letters. */
  lemma PhoneExamples()
    ensures PhonePattern("+971 50 123 4567") && Utf16Length("+971 50 123 4567") >= 8
    ensures PhonePattern("--------") && Utf16Length("--------") >= 8
    ensures Utf16Length("12345") < 8
    ensures !PhonePattern("12-34-AB")
  {
    InternationalPhone();
    DashesPhone();
    ShortPhone();
    LetterPhone();
  }

  lemma LetterPhone()
    ensures !PhonePattern("12-34-AB")
  {
    assert !PhoneChar("12-34-AB"[6]);
  }

  lemma InternationalPhone()
    ensures PhonePattern("+971 50 123 4567") && Utf16Length("+971 50 123 4567") == 16
  {
    var s := "+971 50 123 4567";
    forall k | 0 <= k < |s| ensures PhoneChar(s[k]) {
      assert s[k] in "+0123456789 ";
    }
    PhonePatternUtf16(s);
  }

  lemma DashesPhone()
    ensures PhonePattern("--------") && Utf16Length("--------") == 8
  {
    PhonePatternUtf16("--------");
  }

  lemma ShortPhone()
    ensures Utf16Length("12345") == 5
  {
    assert PhonePattern("12345");
    PhonePatternUtf16("12345");
  }
}
