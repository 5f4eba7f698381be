/**
 * The table of supported languages (`LANG_CODES`, app_production.py:60-65):
 * display names in the table's own order with their two-letter codes.
 */
module Languages {
  import opened Wrappers
  import opened Text
  import Sorting

  const Table: seq<(string, string)> := [
    ("English", "en"), ("Arabic", "ar"), ("German", "de"), ("Spanish", "es"), ("French", "fr"),
    ("Hindi", "hi"), ("Italian", "it"), ("Japanese", "ja"), ("Korean", "ko"), ("Portuguese", "pt"),
    ("Russian", "ru"), ("Chinese", "zh"), ("Bengali", "bn"), ("Tamil", "ta"), ("Telugu", "te"),
    ("Thai", "th"), ("Ukrainian", "uk"), ("Turkish", "tr"), ("Vietnamese", "vi"), ("Kannada", "kn")
  ]

  /** `LANG_CODES.keys()`, in insertion order. */
  function Names(): (r: seq<string>)
    ensures |r| == |Table|
    ensures forall i :: 0 <= i < |Table| ==> r[i] == Table[i].0
  {
    seq(|Table|, i requires 0 <= i < |Table| => Table[i].0)
  }

  /** `name in LANG_CODES` */
  predicate IsName(name: string) {
    name in Names()
  }

  /** `code in LANG_CODES.values()` */
  predicate IsCode(code: string) {
    exists i :: 0 <= i < |Table| && Table[i].1 == code
  }

  /** `LANG_CODES[name]` */
  function CodeOf(name: string): (code: string)
    requires IsName(name)
    ensures IsCode(code)
    ensures exists i :: 0 <= i < |Table| && Table[i] == (name, code)
  {
    CodeFrom(name, 0)
  }

  /** `LANG_CODES[name] if name in LANG_CODES else None` */
  function Lookup(name: string): (r: Option<string>)
    ensures r.Some? <==> IsName(name)
    ensures r.Some? ==> r.value == CodeOf(name)
  {
    if name in Names() then Some(CodeOf(name)) else None
  }

  function CodeFrom(name: string, k: nat): (code: string)
    requires exists i :: k <= i < |Table| && Table[i].0 == name
    ensures exists i :: k <= i < |Table| && Table[i] == (name, code)
    decreases |Table| - k
  {
    if Table[k].0 == name then Table[k].1 else CodeFrom(name, k + 1)
  }

  /**
   * The first name whose code is `code`, or `code` itself when there is none:
   * `next((name for name, c in LANG_CODES.items() if c == code), code)`.
   */
  function NameOf(code: string): string {
    NameFrom(code, 0)
  }

  function NameFrom(code: string, k: nat): string
    decreases |Table| - k
  {
    if k >= |Table| then code
    else if Table[k].1 == code then Table[k].0
    else NameFrom(code, k + 1)
  }

  /** A known code gets a name it is paired with in the table; an unknown code is kept as it is. */
  lemma NameOfFinds(code: string)
    ensures IsCode(code) ==> exists i :: 0 <= i < |Table| && Table[i] == (NameOf(code), code)
    ensures !IsCode(code) ==> NameOf(code) == code
  {
    NameFromFinds(code, 0);
  }

  lemma {:induction false} NameFromFinds(code: string, k: nat)
    ensures (exists i :: k <= i < |Table| && Table[i].1 == code) ==>
              exists i :: k <= i < |Table| && Table[i] == (NameFrom(code, k), code)
    ensures !(exists i :: k <= i < |Table| && Table[i].1 == code) ==> NameFrom(code, k) == code
    decreases |Table| - k
  {
    if k < |Table| && Table[k].1 != code {
      NameFromFinds(code, k + 1);
      if exists i :: k <= i < |Table| && Table[i].1 == code {
        var i :| k <= i < |Table| && Table[i].1 == code;
        assert k + 1 <= i;
      }
    }
  }

  /** Every display name is one capitalised word. */
  lemma NamesAreCapitalisedWords()
    ensures forall i :: 0 <= i < |Table| ==> IsCapitalisedWord(Table[i].0)
  {
  }

  /** No two entries share a code, and no two share a name. */
  lemma TableIsInjective()
    ensures forall i, j :: 0 <= i < j < |Table| ==> Table[i].1 != Table[j].1
    ensures forall i, j :: 0 <= i < j < |Table| ==> Table[i].0 != Table[j].0
  {
  }

  /** "auto", the auto-detect marker, is not a language code. */
  lemma AutoIsNotACode()
    ensures !IsCode("auto")
  {
  }

  /** "en" is the code of English. */
  lemma EnglishIsEn()
    ensures IsName("English") && CodeOf("English") == "en" && IsCode("en") && NameOf("en") == "English"
  {
    TableIsInjective();
    assert Table[0] == ("English", "en");
  }

  /**
   * `title()` turns a typed language name into a table key exactly when the
   * typed text spells that key in any mixture of upper and lower case.
   */
  lemma {:induction false} TitleSelectsIgnoringCase(s: string)
    ensures IsName(Title(s)) <==> exists i :: 0 <= i < |Table| && Lower(s) == Lower(Table[i].0)
  {
    NamesAreCapitalisedWords();
    forall i | 0 <= i < |Table| ensures Title(s) == Table[i].0 <==> Lower(s) == Lower(Table[i].0) {
      TitleMatchesIgnoringCase(s, Table[i].0);
    }
  }

  /** Names and codes translate into each other without loss. */
  lemma NameCodeRoundTrip(name: string)
    requires IsName(name)
    ensures NameOf(CodeOf(name)) == name
  {
    NameOfFinds(CodeOf(name));
    TableIsInjective();
  }

  /** The names of the table in the order of Python's `sorted()`. */
  const SortedNames: seq<string> := [
    "Arabic", "Bengali", "Chinese", "English", "French", "German", "Hindi", "Italian", "Japanese", "Kannada",
    "Korean", "Portuguese", "Russian", "Spanish", "Tamil", "Telugu", "Thai", "Turkish", "Ukrainian", "Vietnamese"
  ]

  /** `SortedNames` is in ascending order. */
  lemma SortedNamesAscend()
    ensures Sorting.Sorted(SortedNames)
  {
    // where each name first differs from the next one
    var at := [0, 0, 0, 0, 0, 0, 0, 0, 0, 1, 0, 0, 0, 0, 1, 1, 1, 0, 0];
    forall i | 0 <= i < |SortedNames| - 1 ensures Sorting.Below(SortedNames[i], SortedNames[i + 1]) {
      Sorting.BelowAt(SortedNames[i], SortedNames[i + 1], at[i]);
    }
    Sorting.ChainSorted(SortedNames);
  }

  /** No name occurs twice in `SortedNames`. */
  lemma SortedNamesDiffer()
    ensures forall i, j :: 0 <= i < j < |SortedNames| ==> SortedNames[i] != SortedNames[j]
  {
    SortedNamesAscend();
    Sorting.StrictlySortedDistinct(SortedNames);
  }

  /** Every name of `SortedNames` is a name of the table. */
  lemma SortedNamesAreNames()
    ensures forall i :: 0 <= i < |SortedNames| ==> SortedNames[i] in Names()
  {
    // where each sorted name stands in the table
    var at := [1, 12, 11, 0, 4, 2, 5, 6, 7, 19, 8, 9, 10, 3, 13, 14, 15, 17, 16, 18];
    forall i | 0 <= i < |SortedNames| ensures SortedNames[i] in Names() {
      assert Names()[at[i]] == SortedNames[i];
    }
  }

  /** `SortedNames` holds the table's names, each as often as the table does. */
  lemma SortedNamesAreTheNames()
    ensures multiset(SortedNames) == multiset(Names())
  {
    SortedNamesAreNames();
    SortedNamesDiffer();
    Sorting.DistinctRearrangement(SortedNames, Names());
  }

  /** `sorted(LANG_CODES.keys())` is `SortedNames`. */
  lemma SortedKeys(keys: seq<string>)
    requires keys == Names()
    ensures Sorting.Sort(keys) == SortedNames
  {
    SortedNamesAscend();
    SortedNamesAreTheNames();
    Sorting.SortIsTheOrderedArrangement(keys, SortedNames);
  }
}
