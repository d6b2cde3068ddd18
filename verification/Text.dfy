/** Substring search and trimming, as the string methods of the source provide them. */
module Text {
  import opened Wrappers

  /** `pat` occurs in `s` at index `i`. */
  predicate At(s: string, pat: string, i: nat) {
    i + |pat| <= |s| && s[i..i + |pat|] == pat
  }

  /** The first occurrence of `pat` in `s` at or after `from`. */
  function IndexOf(s: string, pat: string, from: nat := 0): (r: Option<nat>)
    requires from <= |s|
    ensures r.Some? ==> from <= r.value && At(s, pat, r.value) && forall j | from <= j < r.value :: !At(s, pat, j)
    ensures r.None? ==> forall j | from <= j :: !At(s, pat, j)
    decreases |s| - from
  {
    if from + |pat| > |s| then None
    else if At(s, pat, from) then Some(from)
    else if from == |s| then None
    else IndexOf(s, pat, from + 1)
  }

  lemma FirstOccurrence(s: string, pat: string, i: nat)
    requires At(s, pat, i) && forall j | 0 <= j < i :: !At(s, pat, j)
    ensures IndexOf(s, pat) == Some(i)
  {}

  predicate Contains(s: string, pat: string) {
    IndexOf(s, pat).Some?
  }

  // Letter case, of ASCII letters only.

  function LowerChar(c: char): char {
    if 'A' <= c <= 'Z' then (c as int + 32) as char else c
  }

  function Lower(s: string): (r: string)
    ensures |r| == |s| && forall i | 0 <= i < |s| :: r[i] == LowerChar(s[i])
  {
    seq(|s|, i requires 0 <= i < |s| => LowerChar(s[i]))
  }

  /** The same character, or one letter in its two cases. */
  predicate SameLetter(c: char, d: char) {
    c == d || ('A' <= c <= 'Z' && d == c - 'A' + 'a') || ('A' <= d <= 'Z' && c == d - 'A' + 'a')
  }

  predicate SameLetters(s: string, t: string) {
    |s| == |t| && forall i | 0 <= i < |s| :: SameLetter(s[i], t[i])
  }

  /** `word` stands at index `i`, in any letter case. */
  predicate IsSpelledAt(s: string, word: string, i: nat) {
    i + |word| <= |s| && SameLetters(s[i..i + |word|], word)
  }

  lemma LowerCharIff(c: char, d: char)
    ensures LowerChar(c) == LowerChar(d) <==> SameLetter(c, d)
  {
  }

  /** Lower-casing identifies exactly the texts that differ in letter case only. */
  lemma LowerIff(s: string, t: string)
    ensures Lower(s) == Lower(t) <==> SameLetters(s, t)
  {
    hide LowerChar, SameLetter;
    if |s| == |t| {
      forall i | 0 <= i < |s| ensures LowerChar(s[i]) == LowerChar(t[i]) <==> SameLetter(s[i], t[i]) {
        LowerCharIff(s[i], t[i]);
      }
      assert forall i | 0 <= i < |s| :: Lower(s)[i] == LowerChar(s[i]) && Lower(t)[i] == LowerChar(t[i]);
    }
  }

  // The white space that ECMAScript and Rust agree on, and what each adds.

  predicate IsCommonSpace(c: char) {
    || '\U{0009}' <= c <= '\U{000D}' || c == ' ' || c == '\U{00A0}' || c == '\U{1680}'
    || '\U{2000}' <= c <= '\U{200A}' || c == '\U{2028}' || c == '\U{2029}' || c == '\U{202F}'
    || c == '\U{205F}' || c == '\U{3000}'
  }

  /** What `String.prototype.trim` removes. */
  predicate IsScriptSpace(c: char) {
    IsCommonSpace(c) || c == '\U{FEFF}'
  }

  /** What Rust's `char::is_whitespace` accepts. */
  predicate IsRustSpace(c: char) {
    IsCommonSpace(c) || c == '\U{0085}'
  }

  function TrimStart(s: string, space: char -> bool): (r: string)
    ensures |r| <= |s| && r == s[|s| - |r|..] && forall i | 0 <= i < |s| - |r| :: space(s[i])
    ensures |r| > 0 ==> !space(r[0])
  {
    if |s| > 0 && space(s[0]) then TrimStart(s[1..], space) else s
  }

  function TrimEnd(s: string, space: char -> bool): (r: string)
    ensures r <= s && forall i | |r| <= i < |s| :: space(s[i])
    ensures |r| > 0 ==> !space(r[|r| - 1])
  {
    if |s| > 0 && space(s[|s| - 1]) then TrimEnd(s[..|s| - 1], space) else s
  }

  function Trim(s: string, space: char -> bool): (r: string)
    ensures |r| > 0 ==> !space(r[0]) && !space(r[|r| - 1])
  {
    TrimStart(TrimEnd(s, space), space)
  }

  /** A string with no space at either end is its own trim. */
  lemma TrimFixed(s: string, space: char -> bool)
    requires |s| > 0 ==> !space(s[0]) && !space(s[|s| - 1])
    ensures Trim(s, space) == s
  {}
}
