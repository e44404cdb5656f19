/** String helpers the core relies on from Go's standard library and the
    repository: strings.ToLower (ASCII letters only), strings.Compare,
    strings.ReplaceAll and SanitizeEmojis (common/formatters.go). */
module Text {

  function LowerChar(c: char): char {
    if 'A' <= c <= 'Z' then (c as int + 32) as char else c
  }

  /** strings.ToLower, restricted to ASCII letters. */
  function ToLower(s: string): (r: string)
    ensures |r| == |s|
    ensures forall i :: 0 <= i < |s| ==> r[i] == LowerChar(s[i])
  {
    if s == [] then [] else [LowerChar(s[0])] + ToLower(s[1..])
  }

  /** strings.Compare(a, b) < 0: lexicographic order by code point, which is
      the byte order of the UTF-8 encodings. */
  predicate LexLess(a: string, b: string) {
    if a == [] then b != []
    else if b == [] then false
    else if a[0] != b[0] then a[0] < b[0]
    else LexLess(a[1..], b[1..])
  }

  lemma {:induction false} LexLessIrreflexive(a: string)
    ensures !LexLess(a, a)
  {
    if a != [] { LexLessIrreflexive(a[1..]); }
  }

  lemma {:induction false} LexLessTransitive(a: string, b: string, c: string)
    requires LexLess(a, b) && LexLess(b, c)
    ensures LexLess(a, c)
  {
    if a != [] && b != [] && c != [] && a[0] == b[0] && b[0] == c[0] {
      LexLessTransitive(a[1..], b[1..], c[1..]);
    }
  }

  lemma {:induction false} LexLessTotal(a: string, b: string)
    ensures a == b || LexLess(a, b) || LexLess(b, a)
  {
    if a != [] && b != [] && a[0] == b[0] {
      LexLessTotal(a[1..], b[1..]);
      if a[1..] == b[1..] {
        assert a == [a[0]] + a[1..] && b == [b[0]] + b[1..];
      }
    }
  }

  /** strings.ReplaceAll(s, pat, "") for a non-empty pattern: every
      non-overlapping occurrence, scanned left to right, is removed. */
  function RemoveAll(s: string, pat: string): (r: string)
    requires pat != []
    ensures |r| <= |s|
    decreases |s|
  {
    if |s| < |pat| then s
    else if s[..|pat|] == pat then RemoveAll(s[|pat|..], pat)
    else [s[0]] + RemoveAll(s[1..], pat)
  }

  predicate OccursAt(s: string, pat: string, i: int) {
    0 <= i <= |s| - |pat| && s[i..i + |pat|] == pat
  }

  ghost predicate Occurs(s: string, pat: string) {
    exists i :: OccursAt(s, pat, i)
  }

  lemma {:induction false} RemoveAllAbsent(s: string, pat: string)
    requires pat != [] && !Occurs(s, pat)
    ensures RemoveAll(s, pat) == s
    decreases |s|
  {
    if |s| >= |pat| {
      assert !OccursAt(s, pat, 0);
      assert s[0..0 + |pat|] == s[..|pat|];
      assert !Occurs(s[1..], pat) by {
        forall i | 0 <= i <= |s[1..]| - |pat|
          ensures !OccursAt(s[1..], pat, i)
        {
          assert !OccursAt(s, pat, i + 1);
          assert s[1..][i..i + |pat|] == s[i + 1..i + 1 + |pat|];
        }
      }
      RemoveAllAbsent(s[1..], pat);
    }
  }

  /** A prefix equal to the pattern is dropped; the rest is processed as usual. */
  lemma RemoveAllPrefix(pat: string, rest: string)
    requires pat != [] && !Occurs(rest, pat)
    ensures RemoveAll(pat + rest, pat) == rest
  {
    assert (pat + rest)[..|pat|] == pat;
    assert (pat + rest)[|pat|..] == rest;
    RemoveAllAbsent(rest, pat);
  }

  /** The characters SanitizeEmojis replaces: the ASCII members of category Sk
      (circumflex and grave accent) and the explicit code-point ranges of its
      pattern; U+1F300-U+1F6FF lies inside U+1F000-U+1FAFF. */
  predicate IsEmoji(c: char) {
    c == '^' || c == '`'
    || (0x1F000 <= c as int <= 0x1FAFF)
    || (0x2600 <= c as int <= 0x27BF)
  }

  /** Drop the maximal run of emoji characters at the start of s. */
  function DropEmojiRun(s: string): (r: string)
    ensures |r| <= |s|
    ensures r == [] || !IsEmoji(r[0])
  {
    if s != [] && IsEmoji(s[0]) then DropEmojiRun(s[1..]) else s
  }

  /** Every maximal run of emoji characters becomes one copy of the replacement. */
  function SanitizeEmojis(s: string, replacement: string): string
    decreases |s|
  {
    if s == [] then []
    else if IsEmoji(s[0]) then replacement + SanitizeEmojis(DropEmojiRun(s), replacement)
    else [s[0]] + SanitizeEmojis(s[1..], replacement)
  }

  /** A string with no emoji passes unchanged. */
  lemma {:induction false} SanitizeNoEmoji(s: string, replacement: string)
    requires forall i :: 0 <= i < |s| ==> !IsEmoji(s[i])
    ensures SanitizeEmojis(s, replacement) == s
  {
    if s != [] { SanitizeNoEmoji(s[1..], replacement); }
  }

  /** With an emoji-free replacement, the result holds no emoji. */
  lemma {:induction false} SanitizeRemovesEmoji(s: string, replacement: string)
    requires forall i :: 0 <= i < |replacement| ==> !IsEmoji(replacement[i])
    ensures forall i :: 0 <= i < |SanitizeEmojis(s, replacement)| ==> !IsEmoji(SanitizeEmojis(s, replacement)[i])
    decreases |s|
  {
    if s != [] {
      if IsEmoji(s[0]) {
        SanitizeRemovesEmoji(DropEmojiRun(s), replacement);
      } else {
        SanitizeRemovesEmoji(s[1..], replacement);
      }
    }
  }

  predicate IsHexDigit(c: char) {
    ('0' <= c <= '9') || ('a' <= c <= 'f') || ('A' <= c <= 'F')
  }
}
