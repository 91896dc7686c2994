/**
 * The two pieces of JavaScript string behaviour the page script relies on:
 * `String.prototype.trim` and the `length` of a string, which counts UTF-16
 * code units. Dafny strings are sequences of Unicode scalar values, so a code
 * point above U+FFFF is one `char` here and two units in JavaScript.
 */
module JsText {

  /** The characters ECMAScript calls WhiteSpace or LineTerminator. Both `trim`
      and the regular-expression class `\s` are defined over this same set. */
  predicate IsSpace(c: char) {
    || c == '\t' || c == '\n' || c == '\U{000B}' || c == '\U{000C}' || c == '\r'
    || c == ' ' || c == '\U{00A0}' || c == '\U{1680}'
    || ('\U{2000}' <= c <= '\U{200A}')
    || c == '\U{2028}' || c == '\U{2029}' || c == '\U{202F}' || c == '\U{205F}'
    || c == '\U{3000}' || c == '\U{FEFF}'
  }

  predicate AllSpace(s: string) {
    forall k :: 0 <= k < |s| ==> IsSpace(s[k])
  }

  /** Number of white-space characters at the front of `s`. */
  function LeadingSpace(s: string): (n: nat)
    ensures n <= |s| && AllSpace(s[..n])
    ensures n < |s| ==> !IsSpace(s[n])
  {
    if |s| > 0 && IsSpace(s[0]) then
      var n := 1 + LeadingSpace(s[1..]);
      assert s[..n] == [s[0]] + s[1..][..n - 1];
      n
    else 0
  }

  /** Number of white-space characters just before position `end` of `s`. */
  function SpaceBefore(s: string, end: nat): (n: nat)
    requires end <= |s|
    ensures n <= end
    ensures forall k :: end - n <= k < end ==> IsSpace(s[k])
    ensures n < end ==> !IsSpace(s[end - n - 1])
  {
    if end > 0 && IsSpace(s[end - 1]) then 1 + SpaceBefore(s, end - 1) else 0
  }

  /** Number of white-space characters at the back of `s`. */
  function TrailingSpace(s: string): (n: nat)
    ensures n <= |s| && AllSpace(s[|s| - n..])
    ensures n < |s| ==> !IsSpace(s[|s| - n - 1])
  {
    SpaceBefore(s, |s|)
  }

  /** `s.trim()`: `s` with the white space at both ends cut away. */
  function Trim(s: string): string {
    var rest := s[LeadingSpace(s)..];
    rest[..|rest| - TrailingSpace(rest)]
  }

  /** What `Trim` keeps is a slice of its input: nothing but white space is
      cut, and what is left neither starts nor ends with white space, which
      fixes the result uniquely. */
  lemma TrimIsSlice(s: string)
    ensures var r := Trim(s);
      && (exists i, j :: 0 <= i <= j <= |s| && r == s[i..j] && AllSpace(s[..i]) && AllSpace(s[j..]))
      && (r == [] || (!IsSpace(r[0]) && !IsSpace(r[|r| - 1])))
  {
    var i := LeadingSpace(s);
    var rest := s[i..];
    var j := i + |rest| - TrailingSpace(rest);
    assert s[j..] == rest[|rest| - TrailingSpace(rest)..];
    assert s[i..j] == rest[..|rest| - TrailingSpace(rest)];
  }

  /** Conversely, a string that neither starts nor ends with white space is
      its own trim. */
  lemma TrimKeepsUnspaced(s: string)
    requires s == [] || (!IsSpace(s[0]) && !IsSpace(s[|s| - 1]))
    ensures Trim(s) == s
  {
    if s != [] {
      assert LeadingSpace(s) == 0;
      assert s[|s| - 1] in s[|s| - TrailingSpace(s)..] || TrailingSpace(s) == 0;
    }
  }

  /** Trimming an already trimmed string changes nothing. */
  lemma TrimIdempotent(s: string)
    ensures Trim(Trim(s)) == Trim(s)
  {
    var t := Trim(s);
    TrimIsSlice(s);
    if t != [] {
      assert LeadingSpace(t) == 0;
      assert TrailingSpace(t) == 0;
    }
  }

  /** `s.length` in JavaScript: a code point above U+FFFF is a surrogate pair,
      two UTF-16 code units; every other code point is one. */
  function Utf16Length(s: string): (n: nat)
    ensures |s| <= n <= 2 * |s|
  {
    if s == [] then 0
    else (if s[0] as int > 0xFFFF then 2 else 1) + Utf16Length(s[1..])
  }

  /** The JavaScript length equals the number of code points exactly when no
      code point lies outside the Basic Multilingual Plane. */
  lemma {:induction false} Utf16LengthIsSizeIffBmp(s: string)
    ensures Utf16Length(s) == |s| <==> forall k :: 0 <= k < |s| ==> s[k] as int <= 0xFFFF
  {
    if s != [] {
      Utf16LengthIsSizeIffBmp(s[1..]);
      assert forall k :: 1 <= k < |s| ==> s[k] == s[1..][k - 1];
    }
  }
}
