/**
 * The e-mail check of the contact form (script.js:140): the trimmed value must
 * match `^[^\s@]+@[^\s@]+\.[^\s@]+$`. The pattern is given here twice: as the
 * decomposition it describes, and as a character-level predicate, and the two
 * are proved to agree.
 */
module EmailCheck {
  import opened JsText

  /** A character the class `[^\s@]` accepts. */
  predicate IsAddressChar(c: char) {
    !IsSpace(c) && c != '@'
  }

  /** A string `[^\s@]+` accepts. */
  predicate IsAtom(s: string) {
    |s| > 0 && forall k :: 0 <= k < |s| ==> IsAddressChar(s[k])
  }

  /** The split `s[..at]`, `s[at]`, `s[at + 1..dot]`, `s[dot]`, `s[dot + 1..]`
      that the pattern describes. */
  predicate IsSplit(s: string, at: int, dot: int) {
    0 <= at < dot < |s| && s[at] == '@' && s[dot] == '.' &&
    IsAtom(s[..at]) && IsAtom(s[at + 1..dot]) && IsAtom(s[dot + 1..])
  }

  /** The language of the pattern: some `@` and some later `.` cut `s` into
      three non-empty runs of characters that are neither white space nor `@`. */
  ghost predicate MatchesPattern(s: string) {
    exists at, dot :: IsSplit(s, at, dot)
  }

  /** Position of the first `c` in `s`. */
  function IndexOf(s: string, c: char): (i: nat)
    requires c in s
    ensures i < |s| && s[i] == c && c !in s[..i]
  {
    if s[0] == c then 0
    else
      var i := 1 + IndexOf(s[1..], c);
      assert s[..i] == [s[0]] + s[1..][..i - 1];
      i
  }

  /** The character-level reading of the pattern: no white space anywhere,
      one `@` with something before it, and after it a domain part that has no
      further `@` and holds a `.` that is neither its first nor its last
      character. */
  predicate IsValidEmail(s: string) {
    && (forall k :: 0 <= k < |s| ==> !IsSpace(s[k]))
    && '@' in s
    && var at := IndexOf(s, '@');
       var domain := s[at + 1..];
       && at > 0
       && '@' !in domain
       && |domain| >= 3
       && '.' in domain[1..|domain| - 1]
  }

  /** The character-level predicate accepts exactly the strings the pattern
      matches. */
  lemma ValidEmailIffPattern(s: string)
    ensures IsValidEmail(s) <==> MatchesPattern(s)
  {
    if IsValidEmail(s) {
      ValidEmailMatches(s);
    }
    if MatchesPattern(s) {
      PatternIsValidEmail(s);
    }
  }

  lemma ValidEmailMatches(s: string)
    requires IsValidEmail(s)
    ensures MatchesPattern(s)
  {
    var at := IndexOf(s, '@');
    var domain := s[at + 1..];
    var inner := domain[1..|domain| - 1];
    var k := IndexOf(inner, '.');
    var dot := at + 2 + k;
    assert s[dot] == inner[k] == '.';
    assert s[at + 1..dot] == domain[..k + 1];
    assert s[dot + 1..] == domain[k + 2..];
    forall m | 0 <= m < |domain| ensures domain[m] != '@' {
      assert domain[m] in domain;
    }
    forall m | 0 <= m < at ensures s[..at][m] != '@' {
      assert s[..at][m] in s[..at];
    }
    assert IsAtom(s[..at]);
    assert IsAtom(s[at + 1..dot]);
    assert IsSplit(s, at, dot);
  }

  lemma SplitHasNoSpace(s: string, at: int, dot: int)
    requires IsSplit(s, at, dot)
    ensures forall k :: 0 <= k < |s| ==> !IsSpace(s[k])
  {
    forall k | 0 <= k < |s| ensures !IsSpace(s[k]) {
      if k < at {
        assert s[k] == s[..at][k];
      } else if at < k < dot {
        assert s[k] == s[at + 1..dot][k - at - 1];
      } else if dot < k {
        assert s[k] == s[dot + 1..][k - dot - 1];
      }
    }
  }

  lemma SplitAtIsFirst(s: string, at: int, dot: int)
    requires IsSplit(s, at, dot)
    ensures '@' in s && IndexOf(s, '@') == at
  {
    assert s[at] in s;
    var first := IndexOf(s, '@');
  }

  lemma SplitDomain(s: string, at: int, dot: int)
    requires IsSplit(s, at, dot)
    ensures var domain := s[at + 1..];
      '@' !in domain && |domain| >= 3 && '.' in domain[1..|domain| - 1]
  {
    var domain := s[at + 1..];
    forall m | 0 <= m < |domain| ensures domain[m] != '@' {
      if m < dot - at - 1 {
        assert domain[m] == s[at + 1..dot][m];
      } else if m > dot - at - 1 {
        assert domain[m] == s[dot + 1..][m - (dot - at)];
      }
    }
    assert domain[1..|domain| - 1][dot - at - 2] == '.';
  }

  lemma PatternIsValidEmail(s: string)
    requires MatchesPattern(s)
    ensures IsValidEmail(s)
  {
    var at, dot :| IsSplit(s, at, dot);
    SplitHasNoSpace(s, at, dot);
    SplitAtIsFirst(s, at, dot);
    SplitDomain(s, at, dot);
  }

  /** Four standard cases: one accepted, three refused. */
  lemma Examples()
    ensures IsValidEmail("a@b.co")
    ensures !IsValidEmail("a@b")
    ensures !IsValidEmail("a b@c.com")
    ensures !IsValidEmail("@c.com")
  {
    assert IndexOf("a@b.co", '@') == 1;
    assert "a@b.co"[2..][1..3][0] == '.';
    assert IndexOf("a@b", '@') == 1;
    assert IsSpace("a b@c.com"[1]);
    assert IndexOf("@c.com", '@') == 0;
  }
}
