/**
 * Reading the four sections out of the model's assessment and laying out
 * the two summaries (app_production.py:557-607 for the diagnosis turn,
 * 649-683 for the rebuild on later turns).
 *
 * Each section is found with a case-insensitive, dot-matches-newline
 * regular expression: the section's label, then the shortest text up to a
 * later label or the end of the text (`$`), for the last section the rest
 * of the text. The captured text is stripped; a missing label yields
 * "Not found".
 */
module Report {
  import opened Wrappers
  import opened Text

  const DiagnosisLabel := "Diagnosis:"
  const DrugLabel := "Proposed New Drug:"
  const DosageLabel := "Hypothetical Dosage/Instructions:"
  const SafetyLabel := "Allergy/Safety Note:"

  const NotFound := "Not found"

  // ===========================================================================
  // The regular expressions

  /** Where `$` matches without MULTILINE: the very end, or just before a final newline. */
  predicate AtEnd(s: string, e: int) {
    e == |s| || (e == |s| - 1 && 0 <= e && s[e] == '\n')
  }

  /** Where `(?:stop1|stop2|...|$)` can match. */
  predicate StopsAt(s: string, stops: seq<string>, e: int) {
    AtEnd(s, e) || exists m :: 0 <= m < |stops| && MatchesAtIgnoringCase(s, stops[m], e)
  }

  /**
   * The end of the shortest `(.*?)` starting at `e`: the first position from
   * `e` on where a stop matches (see `FirstStopStops`).
   */
  function FirstStop(s: string, stops: seq<string>, e: nat): (r: nat)
    requires e <= |s|
    ensures e <= r <= |s|
    decreases |s| - e
  {
    if StopsAt(s, stops, e) then e else FirstStop(s, stops, e + 1)
  }

  /** A stop matches where `FirstStop` ends, and at no position before it. */
  lemma {:induction false} FirstStopStops(s: string, stops: seq<string>, e: nat)
    requires e <= |s|
    ensures StopsAt(s, stops, FirstStop(s, stops, e))
    ensures forall k :: e <= k < FirstStop(s, stops, e) ==> !StopsAt(s, stops, k)
    decreases |s| - e
  {
    if !StopsAt(s, stops, e) {
      FirstStopStops(s, stops, e + 1);
    }
  }

  /**
   * Group 1 of `re.search(label + "(.*?)(?:" + "|".join(stops) + "|$)", s,
   * re.DOTALL | re.IGNORECASE)`, stripped; `None` when there is no match.
   * A match starts at the first occurrence of the label, since from there the
   * rest of the pattern always matches.
   */
  function ShortestAfter(s: string, tag: string, stops: seq<string>): (r: Option<string>)
    ensures r.Some? ==> IsStripped(r.value)
  {
    match FindIgnoringCase(s, tag, 0)
    case None => None
    case Some(p) => Some(Section(s, p + |tag|, stops))
  }

  /** The search finds nothing exactly when the label occurs nowhere. */
  lemma ShortestAfterMisses(s: string, tag: string, stops: seq<string>)
    ensures ShortestAfter(s, tag, stops).None? <==> forall k :: !MatchesAtIgnoringCase(s, tag, k)
  {
  }

  /** The stripped text from `start` up to the first stop after it. */
  function Section(s: string, start: nat, stops: seq<string>): (r: string)
    requires start <= |s|
    ensures IsStripped(r)
  {
    Strip(s[start..FirstStop(s, stops, start)])
  }

  /** Group 1 of `re.search(label + "(.*)", s, re.DOTALL | re.IGNORECASE)`, stripped. */
  function RestAfter(s: string, tag: string): (r: Option<string>)
    ensures r.None? <==> forall k :: !MatchesAtIgnoringCase(s, tag, k)
    ensures r.Some? ==> IsStripped(r.value)
  {
    match FindIgnoringCase(s, tag, 0)
    case None => None
    case Some(p) => Some(Strip(s[p + |tag|..]))
  }

  /** The four sections of an assessment. */
  datatype Sections = Sections(diagnosis: string, drug: string, dosage: string, safety: string)

  /** The four searches, each with "Not found" for a missing label. */
  function Extract(response: string): (r: Sections)
    ensures r.diagnosis == NotFound || IsStripped(r.diagnosis)
    ensures r.drug == NotFound || IsStripped(r.drug)
    ensures r.dosage == NotFound || IsStripped(r.dosage)
    ensures r.safety == NotFound || IsStripped(r.safety)
  {
    Sections(
      ShortestAfter(response, DiagnosisLabel, [DrugLabel, DosageLabel, SafetyLabel]).GetOr(NotFound),
      ShortestAfter(response, DrugLabel, [DosageLabel, SafetyLabel]).GetOr(NotFound),
      ShortestAfter(response, DosageLabel, [SafetyLabel]).GetOr(NotFound),
      RestAfter(response, SafetyLabel).GetOr(NotFound))
  }

  /** A reply that mentions none of the labels, such as an error message, yields "Not found" four times. */
  lemma NoLabelsNothingFound(response: string)
    requires forall k :: !MatchesAtIgnoringCase(response, DiagnosisLabel, k)
    requires forall k :: !MatchesAtIgnoringCase(response, DrugLabel, k)
    requires forall k :: !MatchesAtIgnoringCase(response, DosageLabel, k)
    requires forall k :: !MatchesAtIgnoringCase(response, SafetyLabel, k)
    ensures Extract(response) == Sections(NotFound, NotFound, NotFound, NotFound)
  {
    ShortestAfterMisses(response, DiagnosisLabel, [DrugLabel, DosageLabel, SafetyLabel]);
    ShortestAfterMisses(response, DrugLabel, [DosageLabel, SafetyLabel]);
    ShortestAfterMisses(response, DosageLabel, [SafetyLabel]);
  }

  // ===========================================================================
  // The format the diagnosis prompt asks for, and reading it back

  /** Position of `segs[i]` in `Join(segs, "\n")`. */
  function Offset(segs: seq<string>, i: nat): nat
    requires i <= |segs|
  {
    if i == 0 then 0 else Offset(segs, i - 1) + |segs[i - 1]| + 1
  }

  lemma {:induction false} OffsetTail(segs: seq<string>, i: nat)
    requires 1 <= i <= |segs|
    ensures Offset(segs, i) == |segs[0]| + 1 + Offset(segs[1..], i - 1)
  {
    if i > 1 {
      OffsetTail(segs, i - 1);
    }
  }

  /** Where each segment, and each newline after it, sits in the joined text. */
  lemma {:induction false} JoinLayout(segs: seq<string>, i: nat)
    requires i < |segs|
    ensures Offset(segs, i) + |segs[i]| <= |Join(segs, "\n")|
    ensures i + 1 < |segs| ==> Offset(segs, i) + |segs[i]| < |Join(segs, "\n")|
    ensures Join(segs, "\n")[Offset(segs, i)..Offset(segs, i) + |segs[i]|] == segs[i]
    ensures i + 1 < |segs| ==> Join(segs, "\n")[Offset(segs, i) + |segs[i]|] == '\n'
    ensures i + 1 == |segs| ==> Offset(segs, i) + |segs[i]| == |Join(segs, "\n")|
  {
    var s := Join(segs, "\n");
    if |segs| > 1 {
      assert s == segs[0] + "\n" + Join(segs[1..], "\n");
      if i > 0 {
        OffsetTail(segs, i);
        JoinLayout(segs[1..], i - 1);
        var o := Offset(segs[1..], i - 1);
        var n := |segs[0]| + 1;
        assert s[n + o..n + o + |segs[i]|] == Join(segs[1..], "\n")[o..o + |segs[i]|];
      }
    }
  }

  lemma {:induction false} LowerKeepsNewline(pat: string, j: int)
    requires '\n' !in pat && 0 <= j < |pat|
    ensures Lower(pat)[j] != '\n'
  {
    assert pat[j] in pat;
  }

  /** `pat` matches at `k` inside segment `i` of the joined text. */
  ghost predicate MatchInSegment(segs: seq<string>, pat: string, k: int, i: int) {
    && 0 <= i < |segs| && Offset(segs, i) <= k && k + |pat| <= Offset(segs, i) + |segs[i]|
    && MatchesAtIgnoringCase(segs[i], pat, k - Offset(segs, i))
  }

  /** A newline-free pattern cannot match across the newline that joins two texts. */
  lemma NoMatchAcrossNewline(x: string, y: string, pat: string, k: int)
    requires '\n' !in pat && 0 <= k <= |x| < k + |pat| <= |x| + 1 + |y|
    ensures !MatchesAtIgnoringCase(x + "\n" + y, pat, k)
  {
    var s := x + "\n" + y;
    assert s[k..k + |pat|][|x| - k] == '\n';
    LowerKeepsNewline(pat, |x| - k);
  }

  /** A newline-free pattern matches the joined text only inside one segment. */
  lemma {:induction false} MatchInJoin(segs: seq<string>, pat: string, k: int)
    requires '\n' !in pat && |segs| > 0
    ensures MatchesAtIgnoringCase(Join(segs, "\n"), pat, k) ==> exists i :: MatchInSegment(segs, pat, k, i)
  {
    var s := Join(segs, "\n");
    var x := segs[0];
    if |segs| == 1 {
      if MatchesAtIgnoringCase(s, pat, k) {
        assert MatchInSegment(segs, pat, k, 0);
      }
    } else {
      var y := Join(segs[1..], "\n");
      assert s == x + "\n" + y;
      if 0 <= k <= |x| < k + |pat| <= |s| {
        NoMatchAcrossNewline(x, y, pat, k);
      }
      if MatchesAtIgnoringCase(s, pat, k) {
        if k + |pat| <= |x| {
          assert s[k..k + |pat|] == x[k..k + |pat|];
          assert MatchInSegment(segs, pat, k, 0);
        } else {
          var k' := k - |x| - 1;
          assert s[k..k + |pat|] == y[k'..k' + |pat|];
          MatchInJoin(segs[1..], pat, k');
          var i :| MatchInSegment(segs[1..], pat, k', i);
          OffsetTail(segs, i + 1);
          assert segs[i + 1] == segs[1..][i];
          assert MatchInSegment(segs, pat, k, i + 1);
        }
      }
    }
  }

  /** `Offset` grows with the index. */
  lemma {:induction false} OffsetMonotone(segs: seq<string>, i: nat, j: nat)
    requires i <= j <= |segs|
    ensures Offset(segs, i) + (j - i) <= Offset(segs, j)
    ensures i < j ==> Offset(segs, i) + |segs[i]| + 1 <= Offset(segs, j)
    decreases j - i
  {
    if i < j {
      OffsetMonotone(segs, i, j - 1);
    }
  }

  /** Text that mentions none of the four labels, in any case. */
  ghost predicate Unlabelled(f: string) {
    forall k ::
      && !MatchesAtIgnoringCase(f, DiagnosisLabel, k)
      && !MatchesAtIgnoringCase(f, DrugLabel, k)
      && !MatchesAtIgnoringCase(f, DosageLabel, k)
      && !MatchesAtIgnoringCase(f, SafetyLabel, k)
  }

  /** A section body that reads back unchanged: stripped, and free of the labels. */
  ghost predicate Clean(f: string) {
    IsStripped(f) && Unlabelled(f)
  }

  /**
   * The layout the diagnosis prompt asks for: each label on its own line,
   * its text below it, a blank line between sections.
   */
  function Lines(sec: Sections): seq<string> {
    [DiagnosisLabel, sec.diagnosis, "", DrugLabel, sec.drug, "", DosageLabel, sec.dosage, "", SafetyLabel, sec.safety]
  }

  function Format(sec: Sections): string {
    Join(Lines(sec), "\n")
  }

  /** The safety label cannot occur inside the dosage label. */
  lemma SafetyNotInDosage(j: int)
    ensures !MatchesAtIgnoringCase(DosageLabel, SafetyLabel, j)
  {
    if 0 <= j && j + |SafetyLabel| <= |DosageLabel| {
      var w := DosageLabel[j..j + |SafetyLabel|];
      assert Lower(w)[|SafetyLabel| - 1] == LowerChar(DosageLabel[j + |SafetyLabel| - 1]);
      assert Lower(SafetyLabel)[|SafetyLabel| - 1] == ':';
      if j == 13 {
        assert Lower(w)[0] == 'd' && Lower(SafetyLabel)[0] == 'a';
      } else {
        assert DosageLabel[j + |SafetyLabel| - 1] != ':';
      }
    }
  }

  /** No line before label line `3 * n` of the layout contains that label. */
  lemma EarlierLinesLackLabel(sec: Sections, n: nat, i: nat, j: int)
    requires Clean(sec.diagnosis) && Clean(sec.drug) && Clean(sec.dosage) && Clean(sec.safety)
    requires n < 4 && i < 3 * n
    ensures !MatchesAtIgnoringCase(Lines(sec)[i], Lines(sec)[3 * n], j)
  {
    var lines := Lines(sec);
    var pat := lines[3 * n];
    if i % 3 == 1 {
      assert Unlabelled(lines[i]);
    } else if i % 3 == 2 {
      assert lines[i] == "";
    } else if n == 3 && i == 6 {
      SafetyNotInDosage(j);
    } else {
      assert |lines[i]| < |pat|;
    }
  }

  /**
   * A newline-free pattern that is segment `i` and occurs in no earlier
   * segment first occurs in the joined text where segment `i` starts.
   */
  lemma FirstMatchAt(segs: seq<string>, pat: string, i: nat)
    requires '\n' !in pat && i < |segs| && segs[i] == pat
    requires forall i', j :: 0 <= i' < i ==> !MatchesAtIgnoringCase(segs[i'], pat, j)
    ensures FindIgnoringCase(Join(segs, "\n"), pat, 0) == Some(Offset(segs, i))
  {
    JoinLayout(segs, i);
    forall k | 0 <= k < Offset(segs, i) ensures !MatchesAtIgnoringCase(Join(segs, "\n"), pat, k) {
      MatchInJoin(segs, pat, k);
      forall i' | 0 <= i' < |segs| && Offset(segs, i') <= k
        ensures !MatchesAtIgnoringCase(segs[i'], pat, k - Offset(segs, i'))
      {
        if i' >= i {
          OffsetMonotone(segs, i, i');
        }
      }
    }
    FindsFirstMatch(Join(segs, "\n"), pat, Offset(segs, i));
  }

  /**
   * A newline-free pattern that occurs in none of the segments strictly
   * between `lo` and `hi` does not occur in the joined text between the end
   * of segment `lo` and the start of segment `hi`.
   */
  lemma NoMatchBetween(segs: seq<string>, pat: string, lo: nat, hi: nat, k: int)
    requires '\n' !in pat && |pat| > 0 && lo < hi < |segs|
    requires forall i', j :: lo < i' < hi ==> !MatchesAtIgnoringCase(segs[i'], pat, j)
    requires Offset(segs, lo) + |segs[lo]| <= k < Offset(segs, hi)
    ensures !MatchesAtIgnoringCase(Join(segs, "\n"), pat, k)
  {
    MatchInJoin(segs, pat, k);
    forall i' | 0 <= i' < |segs| && Offset(segs, i') <= k && k + |pat| <= Offset(segs, i') + |segs[i']|
      ensures !MatchesAtIgnoringCase(segs[i'], pat, k - Offset(segs, i'))
    {
      if i' <= lo {
        OffsetMonotone(segs, i', lo);
      } else if i' >= hi {
        OffsetMonotone(segs, hi, i');
      }
    }
  }

  /** The position of label line `3 * n` of the layout. */
  function LabelAt(sec: Sections, n: nat): nat
    requires n < 4
  {
    Offset(Lines(sec), 3 * n)
  }

  /** In the layout, label number `n` first occurs on its own line. */
  lemma LabelPositions(sec: Sections, n: nat)
    requires Clean(sec.diagnosis) && Clean(sec.drug) && Clean(sec.dosage) && Clean(sec.safety)
    requires n < 4
    ensures FindIgnoringCase(Format(sec), Lines(sec)[3 * n], 0) == Some(LabelAt(sec, n))
  {
    var segs := Lines(sec);
    forall i', j | 0 <= i' < 3 * n ensures !MatchesAtIgnoringCase(segs[i'], segs[3 * n], j) {
      EarlierLinesLackLabel(sec, n, i', j);
    }
    FirstMatchAt(segs, segs[3 * n], 3 * n);
  }

  /** Between label line `n` and label line `n + 1` only the section body and newlines lie. */
  lemma NoLaterLabelInBody(sec: Sections, n: nat, stop: string, k: int)
    requires Clean(sec.diagnosis) && Clean(sec.drug) && Clean(sec.dosage) && Clean(sec.safety)
    requires n < 3 && stop in [DrugLabel, DosageLabel, SafetyLabel]
    requires LabelAt(sec, n) + |Lines(sec)[3 * n]| <= k < LabelAt(sec, n + 1)
    ensures !MatchesAtIgnoringCase(Format(sec), stop, k)
  {
    var segs := Lines(sec);
    BodyLinesUnlabelled(sec, n, stop);
    assert '\n' !in stop && |stop| > 0;
    NoMatchBetween(segs, stop, 3 * n, 3 * n + 3, k);
  }

  /** The body line and the blank line of section `n` mention no label. */
  lemma BodyLinesUnlabelled(sec: Sections, n: nat, stop: string)
    requires Unlabelled(sec.diagnosis) && Unlabelled(sec.drug) && Unlabelled(sec.dosage)
    requires n < 3 && stop in [DrugLabel, DosageLabel, SafetyLabel]
    ensures forall i', j :: 3 * n < i' < 3 * n + 3 ==> !MatchesAtIgnoringCase(Lines(sec)[i'], stop, j)
  {
    forall i', j | 3 * n < i' < 3 * n + 3 ensures !MatchesAtIgnoringCase(Lines(sec)[i'], stop, j) {
      assert Lines(sec)[i'] in [sec.diagnosis, sec.drug, sec.dosage, ""];
    }
  }

  /** `Strip` ignores whitespace added around stripped text. */
  lemma {:induction false} StripPadded(w1: string, f: string, w2: string)
    requires AllSpace(w1) && AllSpace(w2) && IsStripped(f)
    ensures Strip(w1 + f + w2) == f
  {
    var t := f + w2;
    assert w1 + f + w2 == w1 + t;
    if f == [] {
      assert t == w2;
      TrimLeftPadded(w1, t);
      assert TrimLeft(w1 + t) == [];
    } else {
      assert t[0] == f[0];
      assert !AllSpace(t) by { assert !IsSpace(t[0]); }
      TrimLeftPadded(w1, t);
      assert TrimLeft(w1 + t) == t;
      TrimRightPadded(f, w2);
    }
  }

  lemma {:induction false} TrimLeftPadded(w: string, t: string)
    requires AllSpace(w) && (t == [] || !IsSpace(t[0]) || AllSpace(t))
    ensures TrimLeft(w + t) == if AllSpace(t) then [] else t
  {
    if w != [] {
      assert (w + t)[1..] == w[1..] + t;
      TrimLeftPadded(w[1..], t);
    } else if t != [] && AllSpace(t) {
      assert w + t == t && t[1..] == [] + t[1..];
      assert AllSpace(t[1..]);
      TrimLeftPadded([], t[1..]);
    } else {
      assert w + t == t;
    }
  }

  lemma {:induction false} TrimRightPadded(t: string, w: string)
    requires AllSpace(w) && t != [] && !IsSpace(t[|t| - 1])
    ensures TrimRight(t + w) == t
  {
    if w != [] {
      assert (t + w)[..|t + w| - 1] == t + w[..|w| - 1];
      TrimRightPadded(t, w[..|w| - 1]);
    } else {
      assert t + w == t;
    }
  }

  /** What lies between the end of segment `a` and the start of segment `a + 3`, when `a + 2` is empty. */
  lemma BetweenLines(segs: seq<string>, a: nat)
    requires a + 3 < |segs| && segs[a + 2] == ""
    ensures Offset(segs, a) + |segs[a]| <= Offset(segs, a + 3) <= |Join(segs, "\n")|
    ensures Join(segs, "\n")[Offset(segs, a) + |segs[a]|..Offset(segs, a + 3)] == "\n" + segs[a + 1] + "\n\n"
  {
    var s := Join(segs, "\n");
    JoinLayout(segs, a);
    JoinLayout(segs, a + 1);
    JoinLayout(segs, a + 2);
    JoinLayout(segs, a + 3);
    var start := Offset(segs, a) + |segs[a]|;
    var f := segs[a + 1];
    assert s[start..Offset(segs, a + 3)] == [s[start]] + s[start + 1..start + 1 + |f|]
      + [s[start + 1 + |f|]] + [s[start + 2 + |f|]];
  }

  /** What follows the second-to-last segment. */
  lemma BeforeLastLine(segs: seq<string>, a: nat)
    requires a + 2 == |segs|
    ensures Offset(segs, a) + |segs[a]| <= |Join(segs, "\n")|
    ensures Join(segs, "\n")[Offset(segs, a) + |segs[a]|..] == "\n" + segs[a + 1]
  {
    var s := Join(segs, "\n");
    JoinLayout(segs, a);
    JoinLayout(segs, a + 1);
    var start := Offset(segs, a) + |segs[a]|;
    assert s[start..] == [s[start]] + s[start + 1..];
  }

  lemma NewlinesAreSpace()
    ensures AllSpace("\n") && AllSpace("\n\n")
  {
  }

  /** The lazy search for `tag` reads back `body` when the text between the match and the first stop strips to it. */
  lemma ShortestAfterReads(s: string, tag: string, stops: seq<string>, p: nat, body: string)
    requires FindIgnoringCase(s, tag, 0) == Some(p)
    requires p + |tag| <= |s| && Section(s, p + |tag|, stops) == body
    ensures ShortestAfter(s, tag, stops) == Some(body)
  {
  }

  /** No stop matches between the end of segment `a` and the start of segment `a + 3`. */
  ghost predicate NoStopBetween(segs: seq<string>, a: nat, stops: seq<string>)
    requires a + 3 < |segs|
  {
    forall m, k :: 0 <= m < |stops| && Offset(segs, a) + |segs[a]| <= k < Offset(segs, a + 3)
      ==> !MatchesAtIgnoringCase(Join(segs, "\n"), stops[m], k)
  }

  /**
   * Segment `a + 3` is the first of `stops`, it matches where it sits, and no
   * stop matches between the end of segment `a` and the start of segment `a + 3`.
   */
  ghost predicate NextStopIsLabel(segs: seq<string>, a: nat, stops: seq<string>) {
    && a + 3 < |segs| && segs[a + 2] == ""
    && |stops| > 0 && stops[0] == segs[a + 3] && segs[a + 3] != ""
    && MatchesAtIgnoringCase(Join(segs, "\n"), stops[0], Offset(segs, a + 3))
    && NoStopBetween(segs, a, stops)
  }

  /** With nothing stopping the search in between, the stop after segment `a` is segment `a + 3`. */
  lemma StopAfterBody(segs: seq<string>, a: nat, stops: seq<string>)
    requires NextStopIsLabel(segs, a, stops)
    ensures Offset(segs, a) + |segs[a]| <= Offset(segs, a + 3) <= |Join(segs, "\n")|
    ensures FirstStop(Join(segs, "\n"), stops, Offset(segs, a) + |segs[a]|) == Offset(segs, a + 3)
  {
    var s := Join(segs, "\n");
    BetweenLines(segs, a);
    var start := Offset(segs, a) + |segs[a]|;
    var next := Offset(segs, a + 3);
    JoinLayout(segs, a + 3);
    forall k | start <= k < next ensures !StopsAt(s, stops, k) {
      assert !AtEnd(s, k);
    }
    assert StopsAt(s, stops, next);
    FirstStopIsFirst(s, stops, start, next);
  }

  /** The text between segment `a` and segment `a + 3` strips to segment `a + 1`. */
  lemma BodyBetween(segs: seq<string>, a: nat, stops: seq<string>)
    requires NextStopIsLabel(segs, a, stops) && IsStripped(segs[a + 1])
    ensures Offset(segs, a) + |segs[a]| <= |Join(segs, "\n")|
    ensures Section(Join(segs, "\n"), Offset(segs, a) + |segs[a]|, stops) == segs[a + 1]
  {
    StopAfterBody(segs, a, stops);
    BetweenLines(segs, a);
    NewlinesAreSpace();
    StripPadded("\n", segs[a + 1], "\n\n");
  }

  /**
   * Segment `a` is a label whose first occurrence is its own; `a + 3` is the
   * first stop after it, and nothing in between stops the search: then the
   * lazy search reads back segment `a + 1`.
   */
  lemma ReadsBackBetween(segs: seq<string>, a: nat, stops: seq<string>)
    requires NextStopIsLabel(segs, a, stops) && IsStripped(segs[a + 1])
    requires FindIgnoringCase(Join(segs, "\n"), segs[a], 0) == Some(Offset(segs, a))
    ensures ShortestAfter(Join(segs, "\n"), segs[a], stops) == Some(segs[a + 1])
  {
    BodyBetween(segs, a, stops);
    ShortestAfterReads(Join(segs, "\n"), segs[a], stops, Offset(segs, a), segs[a + 1]);
  }

  /** A section followed by a later label reads back as its body. */
  lemma ReadsBackSection(sec: Sections, n: nat, tag: string, body: string, stops: seq<string>)
    requires Clean(sec.diagnosis) && Clean(sec.drug) && Clean(sec.dosage) && Clean(sec.safety)
    requires n < 3 && tag == Lines(sec)[3 * n] && body == Lines(sec)[3 * n + 1]
    requires |stops| > 0 && stops[0] == Lines(sec)[3 * n + 3]
    requires forall m :: 0 <= m < |stops| ==> stops[m] in [DrugLabel, DosageLabel, SafetyLabel]
    ensures ShortestAfter(Format(sec), tag, stops) == Some(body)
  {
    var segs := Lines(sec);
    LabelPositions(sec, n);
    LabelPositions(sec, n + 1);
    forall m, k | 0 <= m < |stops| && Offset(segs, 3 * n) + |segs[3 * n]| <= k < Offset(segs, 3 * n + 3)
      ensures !MatchesAtIgnoringCase(Format(sec), stops[m], k)
    {
      NoLaterLabelInBody(sec, n, stops[m], k);
    }
    assert segs[3 * n + 2] == "" && segs[3 * n + 3] != "" && IsStripped(segs[3 * n + 1]) by {
      assert n == 0 || n == 1 || n == 2;
    }
    ReadsBackBetween(segs, 3 * n, stops);
  }

  lemma {:induction false} FirstStopIsFirst(s: string, stops: seq<string>, e: nat, r: nat)
    requires e <= r <= |s|
    requires StopsAt(s, stops, r)
    requires forall k :: e <= k < r ==> !StopsAt(s, stops, k)
    ensures FirstStop(s, stops, e) == r
    decreases r - e
  {
    if e < r {
      FirstStopIsFirst(s, stops, e + 1, r);
    }
  }

  /** A label segment whose first occurrence is its own, before the last segment, reads back the last segment. */
  lemma ReadsBackEnd(segs: seq<string>, a: nat)
    requires a + 2 == |segs| && IsStripped(segs[a + 1])
    requires FindIgnoringCase(Join(segs, "\n"), segs[a], 0) == Some(Offset(segs, a))
    ensures RestAfter(Join(segs, "\n"), segs[a]) == Some(segs[a + 1])
  {
    var s := Join(segs, "\n");
    BeforeLastLine(segs, a);
    NewlinesAreSpace();
    StripPadded("\n", segs[a + 1], "");
    assert s[Offset(segs, a) + |segs[a]|..] == "\n" + segs[a + 1] + "";
  }

  /** The last section runs to the end of the text. */
  lemma ReadsBackLast(sec: Sections)
    requires Clean(sec.diagnosis) && Clean(sec.drug) && Clean(sec.dosage) && Clean(sec.safety)
    ensures RestAfter(Format(sec), SafetyLabel) == Some(sec.safety)
  {
    LabelPositions(sec, 3);
    ReadsBackEnd(Lines(sec), 9);
  }

  /** Each of the first three sections reads back up to the label that follows it. */
  lemma ReadsBackDiagnosis(sec: Sections)
    requires Clean(sec.diagnosis) && Clean(sec.drug) && Clean(sec.dosage) && Clean(sec.safety)
    ensures ShortestAfter(Format(sec), DiagnosisLabel, [DrugLabel, DosageLabel, SafetyLabel]) == Some(sec.diagnosis)
  {
    ReadsBackSection(sec, 0, DiagnosisLabel, sec.diagnosis, [DrugLabel, DosageLabel, SafetyLabel]);
  }

  lemma ReadsBackDrug(sec: Sections)
    requires Clean(sec.diagnosis) && Clean(sec.drug) && Clean(sec.dosage) && Clean(sec.safety)
    ensures ShortestAfter(Format(sec), DrugLabel, [DosageLabel, SafetyLabel]) == Some(sec.drug)
  {
    ReadsBackSection(sec, 1, DrugLabel, sec.drug, [DosageLabel, SafetyLabel]);
  }

  lemma ReadsBackDosage(sec: Sections)
    requires Clean(sec.diagnosis) && Clean(sec.drug) && Clean(sec.dosage) && Clean(sec.safety)
    ensures ShortestAfter(Format(sec), DosageLabel, [SafetyLabel]) == Some(sec.dosage)
  {
    ReadsBackSection(sec, 2, DosageLabel, sec.dosage, [SafetyLabel]);
  }

  /**
   * An assessment in the requested layout reads back as the four section
   * bodies it was made of, provided each body is stripped and mentions no
   * label.
   */
  lemma FormatThenExtract(sec: Sections)
    requires Clean(sec.diagnosis) && Clean(sec.drug) && Clean(sec.dosage) && Clean(sec.safety)
    ensures Extract(Format(sec)) == sec
  {
    ReadsBackDiagnosis(sec);
    ReadsBackDrug(sec);
    ReadsBackDosage(sec);
    ReadsBackLast(sec);
  }

  // ===========================================================================
  // A reply that leaves the safety section out

  /** The layout with the safety section missing: its first eight lines. */
  function ShortLines(sec: Sections): seq<string> {
    Lines(sec)[..8]
  }

  function FormatWithoutSafety(sec: Sections): string {
    Join(ShortLines(sec), "\n")
  }

  /** Without its last section the layout mentions the safety label nowhere. */
  lemma SafetyNowhere(sec: Sections, k: int)
    requires Unlabelled(sec.diagnosis) && Unlabelled(sec.drug) && Unlabelled(sec.dosage)
    ensures !MatchesAtIgnoringCase(FormatWithoutSafety(sec), SafetyLabel, k)
  {
    var segs := ShortLines(sec);
    MatchInJoin(segs, SafetyLabel, k);
    forall i | 0 <= i < |segs| && Offset(segs, i) <= k
      ensures !MatchesAtIgnoringCase(segs[i], SafetyLabel, k - Offset(segs, i))
    {
      if i == 6 {
        SafetyNotInDosage(k - Offset(segs, i));
      } else if i % 3 == 1 {
        assert Unlabelled(segs[i]);
      } else {
        assert |segs[i]| < |SafetyLabel|;
      }
    }
  }

  /** In the shortened layout, label number `n` still first occurs on its own line. */
  lemma ShortLabelPositions(sec: Sections, n: nat)
    requires Clean(sec.diagnosis) && Clean(sec.drug) && Clean(sec.dosage)
    requires n < 3
    ensures FindIgnoringCase(FormatWithoutSafety(sec), ShortLines(sec)[3 * n], 0) == Some(Offset(ShortLines(sec), 3 * n))
  {
    var full := sec.(safety := "");
    var segs := ShortLines(sec);
    assert segs == Lines(full)[..8];
    assert Clean(full.safety);
    forall i', j | 0 <= i' < 3 * n ensures !MatchesAtIgnoringCase(segs[i'], segs[3 * n], j) {
      EarlierLinesLackLabel(full, n, i', j);
    }
    FirstMatchAt(segs, segs[3 * n], 3 * n);
  }

  /** In the shortened layout, between label line `n` and the next only the body and newlines lie. */
  lemma ShortNoLaterLabelInBody(sec: Sections, n: nat, stop: string, k: int)
    requires Unlabelled(sec.diagnosis) && Unlabelled(sec.drug)
    requires n < 2 && stop in [DrugLabel, DosageLabel, SafetyLabel]
    requires Offset(ShortLines(sec), 3 * n) + |ShortLines(sec)[3 * n]| <= k < Offset(ShortLines(sec), 3 * n + 3)
    ensures !MatchesAtIgnoringCase(FormatWithoutSafety(sec), stop, k)
  {
    var segs := ShortLines(sec);
    forall i', j | 3 * n < i' < 3 * n + 3 ensures !MatchesAtIgnoringCase(segs[i'], stop, j) {
      assert segs[i'] in [sec.diagnosis, sec.drug, ""];
    }
    assert '\n' !in stop && |stop| > 0;
    NoMatchBetween(segs, stop, 3 * n, 3 * n + 3, k);
  }

  /** The diagnosis and the drug still read back up to the label that follows them. */
  lemma ShortReadsBackSection(sec: Sections, n: nat, stops: seq<string>)
    requires Clean(sec.diagnosis) && Clean(sec.drug) && Clean(sec.dosage)
    requires n < 2 && |stops| > 0 && stops[0] == Lines(sec)[3 * n + 3]
    requires forall m :: 0 <= m < |stops| ==> stops[m] in [DrugLabel, DosageLabel, SafetyLabel]
    ensures ShortestAfter(FormatWithoutSafety(sec), Lines(sec)[3 * n], stops) == Some(Lines(sec)[3 * n + 1])
  {
    var segs := ShortLines(sec);
    assert segs[3 * n] == Lines(sec)[3 * n] && segs[3 * n + 1] == Lines(sec)[3 * n + 1] && segs[3 * n + 3] == Lines(sec)[3 * n + 3];
    ShortLabelPositions(sec, n);
    ShortLabelPositions(sec, n + 1);
    forall m, k | 0 <= m < |stops| && Offset(segs, 3 * n) + |segs[3 * n]| <= k < Offset(segs, 3 * n + 3)
      ensures !MatchesAtIgnoringCase(FormatWithoutSafety(sec), stops[m], k)
    {
      ShortNoLaterLabelInBody(sec, n, stops[m], k);
    }
    assert segs[3 * n + 2] == "" && segs[3 * n + 3] != "" && IsStripped(segs[3 * n + 1]) by {
      assert n == 0 || n == 1;
    }
    ReadsBackBetween(segs, 3 * n, stops);
  }

  /**
   * A label segment whose first occurrence is its own, before the last
   * segment, with no stop anywhere in the text: the lazy search runs to `$`
   * and reads back the last segment.
   */
  lemma ReadsBackToEnd(segs: seq<string>, a: nat, stops: seq<string>)
    requires a + 2 == |segs| && IsStripped(segs[a + 1])
    requires FindIgnoringCase(Join(segs, "\n"), segs[a], 0) == Some(Offset(segs, a))
    requires forall m, k :: 0 <= m < |stops| ==> !MatchesAtIgnoringCase(Join(segs, "\n"), stops[m], k)
    ensures ShortestAfter(Join(segs, "\n"), segs[a], stops) == Some(segs[a + 1])
  {
    BeforeLastLine(segs, a);
    SectionToEnd(Join(segs, "\n"), Offset(segs, a) + |segs[a]|, segs[a + 1], stops);
    ShortestAfterReads(Join(segs, "\n"), segs[a], stops, Offset(segs, a), segs[a + 1]);
  }

  /** A text that ends in a newline and a stripped line, with no stop in it, has that line as its last section. */
  lemma SectionToEnd(s: string, start: nat, f: string, stops: seq<string>)
    requires start <= |s| && s[start..] == "\n" + f && IsStripped(f)
    requires forall m, k :: 0 <= m < |stops| ==> !MatchesAtIgnoringCase(s, stops[m], k)
    ensures Section(s, start, stops) == f
  {
    NewlinesAreSpace();
    if f == [] {
      assert s[start] == '\n' && |s| == start + 1;
      FirstStopIsFirst(s, stops, start, start);
      StripPadded("", f, "");
      assert s[start..start] == "" + f + "";
    } else {
      assert s[|s| - 1] == f[|f| - 1];
      forall k | start <= k < |s| ensures !StopsAt(s, stops, k) {
        assert !AtEnd(s, k);
      }
      FirstStopIsFirst(s, stops, start, |s|);
      StripPadded("\n", f, "");
      assert s[start..|s|] == "\n" + f + "";
    }
  }

  /** Without a safety section the diagnosis and the drug read back as before. */
  lemma ShortReadsBackDiagnosis(sec: Sections)
    requires Clean(sec.diagnosis) && Clean(sec.drug) && Clean(sec.dosage)
    ensures ShortestAfter(FormatWithoutSafety(sec), DiagnosisLabel, [DrugLabel, DosageLabel, SafetyLabel]) == Some(sec.diagnosis)
  {
    ShortReadsBackSection(sec, 0, [DrugLabel, DosageLabel, SafetyLabel]);
  }

  lemma ShortReadsBackDrug(sec: Sections)
    requires Clean(sec.diagnosis) && Clean(sec.drug) && Clean(sec.dosage)
    ensures ShortestAfter(FormatWithoutSafety(sec), DrugLabel, [DosageLabel, SafetyLabel]) == Some(sec.drug)
  {
    ShortReadsBackSection(sec, 1, [DosageLabel, SafetyLabel]);
  }

  /** Without a safety section the dosage runs to the end of the text. */
  lemma ShortReadsBackDosage(sec: Sections)
    requires Clean(sec.diagnosis) && Clean(sec.drug) && Clean(sec.dosage)
    ensures ShortestAfter(FormatWithoutSafety(sec), DosageLabel, [SafetyLabel]) == Some(sec.dosage)
  {
    forall m, k | 0 <= m < |[SafetyLabel]| ensures !MatchesAtIgnoringCase(FormatWithoutSafety(sec), [SafetyLabel][m], k) {
      SafetyNowhere(sec, k);
    }
    ShortLabelPositions(sec, 2);
    ReadsBackToEnd(ShortLines(sec), 6, [SafetyLabel]);
  }

  /** Without a safety section the last search finds nothing. */
  lemma SafetyNotFound(sec: Sections)
    requires Unlabelled(sec.diagnosis) && Unlabelled(sec.drug) && Unlabelled(sec.dosage)
    ensures RestAfter(FormatWithoutSafety(sec), SafetyLabel) == None
  {
    forall k ensures !MatchesAtIgnoringCase(FormatWithoutSafety(sec), SafetyLabel, k) {
      SafetyNowhere(sec, k);
    }
  }

  /**
   * A reply in the requested layout whose safety section is missing yields
   * the other three bodies and "Not found" for the safety note.
   */
  lemma MissingSafetyNotFound(sec: Sections)
    requires Clean(sec.diagnosis) && Clean(sec.drug) && Clean(sec.dosage)
    ensures Extract(FormatWithoutSafety(sec)) == Sections(sec.diagnosis, sec.drug, sec.dosage, NotFound)
  {
    ShortReadsBackDiagnosis(sec);
    ShortReadsBackDrug(sec);
    ShortReadsBackDosage(sec);
    SafetyNotFound(sec);
    ExtractFromSearches(FormatWithoutSafety(sec), sec.diagnosis, sec.drug, sec.dosage);
  }

  /** Three searches that succeed and a last one that fails give three bodies and "Not found". */
  lemma ExtractFromSearches(response: string, diagnosis: string, drug: string, dosage: string)
    requires ShortestAfter(response, DiagnosisLabel, [DrugLabel, DosageLabel, SafetyLabel]) == Some(diagnosis)
    requires ShortestAfter(response, DrugLabel, [DosageLabel, SafetyLabel]) == Some(drug)
    requires ShortestAfter(response, DosageLabel, [SafetyLabel]) == Some(dosage)
    requires RestAfter(response, SafetyLabel) == None
    ensures Extract(response) == Sections(diagnosis, drug, dosage, NotFound)
  {
  }
}
