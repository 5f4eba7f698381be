/**
 * The pieces of Python's `str` behaviour that the application relies on:
 * `strip()`, slicing with `[:n]`, `lower()` / `title()` restricted to ASCII,
 * the `in` substring test, case-insensitive literal matching as done by
 * `re.IGNORECASE`, and `", ".join(...)`.
 */
module Text {
  import opened Wrappers

  // ---------------------------------------------------------------------------
  // Whitespace and strip()

  /** The characters for which Python's `str.isspace()` holds. */
  predicate IsSpace(c: char) {
    || ('\t' <= c <= '\r')              // \t \n \x0b \x0c \r
    || ('\U{1C}' <= c <= '\U{1F}')      // the four information separators
    || c == ' ' || c == '\U{85}' || c == '\U{A0}' || c == '\U{1680}'
    || ('\U{2000}' <= c <= '\U{200A}')
    || c == '\U{2028}' || c == '\U{2029}' || c == '\U{202F}' || c == '\U{205F}'
    || c == '\U{3000}'
  }

  predicate AllSpace(s: string) {
    forall i :: 0 <= i < |s| ==> IsSpace(s[i])
  }

  /** Neither end of `s` is whitespace: what `strip()` always produces. */
  predicate IsStripped(s: string) {
    s == [] || (!IsSpace(s[0]) && !IsSpace(s[|s| - 1]))
  }

  /** `lstrip()`: drops the leading whitespace and nothing else (see `TrimLeftSplits`). */
  function TrimLeft(s: string): (r: string)
    ensures |r| <= |s|
    ensures r == [] || !IsSpace(r[0])
  {
    if s != [] && IsSpace(s[0]) then TrimLeft(s[1..]) else s
  }

  /** What `lstrip()` drops is whitespace, and what it keeps is the rest of the text. */
  lemma {:induction false} TrimLeftSplits(s: string)
    ensures TrimLeft(s) == s[|s| - |TrimLeft(s)|..]
    ensures AllSpace(s[..|s| - |TrimLeft(s)|])
  {
    if s != [] && IsSpace(s[0]) {
      TrimLeftSplits(s[1..]);
      var r := TrimLeft(s);
      assert s[..|s| - |r|] == [s[0]] + s[1..][..|s| - 1 - |r|];
    }
  }

  /** `rstrip()`: drops the trailing whitespace and nothing else (see `TrimRightSplits`). */
  function TrimRight(s: string): (r: string)
    ensures |r| <= |s|
    ensures r == [] || !IsSpace(r[|r| - 1])
  {
    if s != [] && IsSpace(s[|s| - 1]) then TrimRight(s[..|s| - 1]) else s
  }

  /** What `rstrip()` drops is whitespace, and what it keeps is the start of the text. */
  lemma {:induction false} TrimRightSplits(s: string)
    ensures TrimRight(s) == s[..|TrimRight(s)|]
    ensures AllSpace(s[|TrimRight(s)|..])
  {
    if s != [] && IsSpace(s[|s| - 1]) {
      TrimRightSplits(s[..|s| - 1]);
      var r := TrimRight(s);
      assert s[..|s| - 1][..|r|] == s[..|r|];
      assert s[|r|..] == s[..|s| - 1][|r|..] + [s[|s| - 1]];
    }
  }

  /** `strip()`; what it keeps and drops is stated by `StripKeepsInner`. */
  function Strip(s: string): (r: string)
    ensures IsStripped(r)
    ensures |r| <= |s|
  {
    var l := TrimLeft(s);
    var r := TrimRight(l);
    TrimRightSplits(l);
    assert r != [] ==> !IsSpace(r[0]) by {
      if r != [] { assert r[0] == l[0]; }
    }
    r
  }

  /** `strip()` keeps only characters of its input, and keeps none exactly when the input is all whitespace. */
  lemma StripKeepsInner(s: string)
    ensures forall c :: c in Strip(s) ==> c in s
    ensures Strip(s) == [] <==> AllSpace(s)
  {
    var l := TrimLeft(s);
    var r := TrimRight(l);
    TrimLeftSplits(s);
    TrimRightSplits(l);
    assert r == [] ==> AllSpace(s) by {
      if r == [] {
        assert s == s[..|s| - |l|] + l;
        assert AllSpace(l[|r|..]);
      }
    }
    forall c | c in r ensures c in s {
      var i :| 0 <= i < |r| && r[i] == c;
      assert l[i] == c;
      assert s[|s| - |l| + i] == c;
    }
  }

  /** Stripping text that is already stripped changes nothing; so `strip()` is idempotent. */
  lemma {:induction false} StripStripped(s: string)
    requires IsStripped(s)
    ensures Strip(s) == s
  {
    assert TrimLeft(s) == s;
    assert TrimRight(s) == s;
  }

  lemma StripIdempotent(s: string)
    ensures Strip(Strip(s)) == Strip(s)
  {
    StripStripped(Strip(s));
  }

  // ---------------------------------------------------------------------------
  // Slicing

  /** Python's `s[:n]`: a negative `n` counts from the end of the string. */
  function SliceTo(s: string, n: int): (r: string)
    ensures |r| <= |s| && r == s[..|r|]
    ensures n >= 0 ==> |r| == if n < |s| then n else |s|
    ensures n < 0 ==> |r| == if -n < |s| then |s| + n else 0
  {
    if n >= 0 then (if n < |s| then s[..n] else s)
    else (if -n < |s| then s[..|s| + n] else [])
  }

  // ---------------------------------------------------------------------------
  // ASCII case mapping

  predicate IsUpperLetter(c: char) { 'A' <= c <= 'Z' }
  predicate IsLowerLetter(c: char) { 'a' <= c <= 'z' }
  predicate IsLetter(c: char) { IsUpperLetter(c) || IsLowerLetter(c) }

  function LowerChar(c: char): char {
    if IsUpperLetter(c) then (c as int + 32) as char else c
  }

  function UpperChar(c: char): char {
    if IsLowerLetter(c) then (c as int - 32) as char else c
  }

  /** `lower()` on ASCII letters; every other character is left alone. */
  function Lower(s: string): (r: string)
    ensures |r| == |s|
    ensures forall i :: 0 <= i < |s| ==> r[i] == LowerChar(s[i])
  {
    seq(|s|, i requires 0 <= i < |s| => LowerChar(s[i]))
  }

  lemma LowerAppend(a: string, b: string)
    ensures Lower(a + b) == Lower(a) + Lower(b)
  {
  }

  /**
   * `title()`: a letter that follows a letter is lower-cased, any other letter
   * is upper-cased.
   */
  function Title(s: string): (r: string)
    ensures |r| == |s|
  {
    seq(|s|, i requires 0 <= i < |s| => if i > 0 && IsLetter(s[i - 1]) then LowerChar(s[i]) else UpperChar(s[i]))
  }

  /** Title-casing changes the case of letters and nothing else. */
  lemma TitleKeepsLower(s: string)
    ensures Lower(Title(s)) == Lower(s)
  {
    forall i | 0 <= i < |s| ensures Lower(Title(s))[i] == Lower(s)[i] {
      assert IsLetter(LowerChar(s[i])) == IsLetter(s[i]);
    }
  }

  /** The title-cased form depends only on the lower-cased form. */
  lemma TitleSeesOnlyLower(s: string, t: string)
    requires Lower(s) == Lower(t)
    ensures Title(s) == Title(t)
  {
    forall i | 0 <= i < |s| ensures Title(s)[i] == Title(t)[i] {
      SameUpToCase(s[i], t[i]);
      if i > 0 {
        SameUpToCase(s[i - 1], t[i - 1]);
      }
    }
  }

  /** Characters with the same lower-case form have the same upper-case form and are both letters or both not. */
  lemma SameUpToCase(a: char, b: char)
    requires LowerChar(a) == LowerChar(b)
    ensures UpperChar(a) == UpperChar(b) && IsLetter(a) == IsLetter(b)
  {
  }

  /** One upper-case letter followed by lower-case letters, as "English" is. */
  predicate IsCapitalisedWord(s: string) {
    && |s| > 0
    && IsUpperLetter(s[0])
    && forall i :: 1 <= i < |s| ==> IsLowerLetter(s[i])
  }

  lemma TitleOfCapitalisedWord(s: string)
    requires IsCapitalisedWord(s)
    ensures Title(s) == s
  {
  }

  /**
   * For a capitalised word `w`, `title()` maps `s` to `w` exactly when `s`
   * spells `w` in any mixture of upper and lower case.
   */
  lemma TitleMatchesIgnoringCase(s: string, w: string)
    requires IsCapitalisedWord(w)
    ensures Title(s) == w <==> Lower(s) == Lower(w)
  {
    TitleOfCapitalisedWord(w);
    TitleKeepsLower(s);
    if Lower(s) == Lower(w) {
      TitleSeesOnlyLower(s, w);
    }
  }

  // ---------------------------------------------------------------------------
  // Substrings

  /** `pat` occurs in `s` at index `q`. */
  predicate MatchesAt(s: string, pat: string, q: int) {
    0 <= q && q + |pat| <= |s| && s[q..q + |pat|] == pat
  }

  /** Python's `pat in s` for strings. */
  predicate Contains(s: string, pat: string) {
    exists q :: 0 <= q <= |s| - |pat| && MatchesAt(s, pat, q)
  }

  /** `pat` occurs in `s` at index `q` when ASCII case is ignored. */
  predicate MatchesAtIgnoringCase(s: string, pat: string, q: int) {
    0 <= q && q + |pat| <= |s| && Lower(s[q..q + |pat|]) == Lower(pat)
  }

  /** The first index at or after `q` where `pat` occurs, ignoring ASCII case. */
  function FindIgnoringCase(s: string, pat: string, q: nat): (r: Option<nat>)
    ensures r.Some? ==> q <= r.value && MatchesAtIgnoringCase(s, pat, r.value)
    ensures r.Some? ==> forall k :: q <= k < r.value ==> !MatchesAtIgnoringCase(s, pat, k)
    ensures r.None? ==> forall k :: q <= k ==> !MatchesAtIgnoringCase(s, pat, k)
    decreases |s| - q
  {
    if q + |pat| > |s| then None
    else if MatchesAtIgnoringCase(s, pat, q) then Some(q)
    else FindIgnoringCase(s, pat, q + 1)
  }

  /** The search finds a match that no earlier index has. */
  lemma FindsFirstMatch(s: string, pat: string, p: nat)
    requires MatchesAtIgnoringCase(s, pat, p)
    requires forall k :: 0 <= k < p ==> !MatchesAtIgnoringCase(s, pat, k)
    ensures FindIgnoringCase(s, pat, 0) == Some(p)
  {
    var r := FindIgnoringCase(s, pat, 0);
    assert r.Some? ==> r.value <= p;
  }

  // ---------------------------------------------------------------------------
  // Joining

  /** `sep.join(xs)` */
  function Join(xs: seq<string>, sep: string): string {
    if xs == [] then ""
    else if |xs| == 1 then xs[0]
    else xs[0] + sep + Join(xs[1..], sep)
  }
}
