/**
 * The two wrappers around the language model: translation with caching
 * (`gemini_translate`, app_production.py:196-254) and open-ended generation
 * with error classification (`get_gemini_response`, 256-292).
 *
 * The model itself is an oracle: a function from a prompt to either an
 * answer text or a raised exception (its `str(e)`).
 */
module Gateway {
  import opened Wrappers
  import opened Text
  import Languages
  import opened Cache

  datatype Reply = Answer(text: string) | Raised(error: string)

  /** A turn of conversation handed to the model as context. */
  datatype Turn = Turn(role: string, text: string)

  /**
   * `generate` stands for `gemini_client.generate_content(prompt, ...).text`,
   * `chat` for `start_chat(history=...).send_message(prompt).text`.
   */
  datatype Oracle = Oracle(generate: string -> Reply, chat: (seq<Turn>, string) -> Reply)

  // ===========================================================================
  // Translation

  /**
   * `not text or text.strip() == ""`: every character is whitespace, which by
   * the contract of `Strip` is the same as stripping to nothing.
   */
  predicate IsBlank(text: string) {
    AllSpace(text)
  }

  /** An unknown source code becomes "auto" (detect the language). */
  function SourceCode(src: string): (r: string)
    ensures Languages.IsCode(r) || r == "auto"
    ensures Languages.IsCode(src) ==> r == src
    ensures !Languages.IsCode(src) ==> r == "auto"
  {
    if Languages.IsCode(src) then src else "auto"
  }

  /** An unknown target code becomes "en". */
  function TargetCode(tgt: string): (r: string)
    ensures Languages.IsCode(r)
    ensures Languages.IsCode(tgt) ==> r == tgt
    ensures !Languages.IsCode(tgt) ==> r == "en"
  {
    Languages.EnglishIsEn();
    if Languages.IsCode(tgt) then tgt else "en"
  }

  /**
   * The instruction sent to the model; `src` and `tgt` are already normalised.
   * Its long middle line is written as a concatenation of shorter pieces.
   */
  function TranslationPrompt(text: string, src: string, tgt: string): string {
    var tgtName := Languages.NameOf(tgt);
    var task :=
      if src != "auto" then "Translate this text from " + Languages.NameOf(src) + " to " + tgtName + ". \n"
      else "Translate this text to " + tgtName + ". \n";
    task
    + "IMPORTANT: " + "Provide ONLY " + "the direct " + "translation. "
    + "Do not " + "include " + "explanations, " + "alternatives, " + "or breakdowns.\n"
    + "\nText to translate: " + text + "\n\nTranslation:"
  }

  /** `s.split('\n')[0]` */
  function BeforeNewline(s: string): (r: string)
    ensures '\n' !in r
    ensures |r| <= |s| && r == s[..|r|]
    ensures '\n' !in s ==> r == s
    ensures |r| < |s| ==> s[|r|] == '\n'
  {
    if s == [] || s[0] == '\n' then []
    else [s[0]] + BeforeNewline(s[1..])
  }

  /**
   * The clean-up of the raw model output: strip it, and if several lines
   * remain keep the first one, stripped again.
   */
  function FirstLine(raw: string): (r: string)
    ensures '\n' !in r
    ensures IsStripped(r)
    ensures '\n' !in Strip(raw) ==> r == Strip(raw)
    ensures '\n' in Strip(raw) ==> r == Strip(BeforeNewline(Strip(raw)))
  {
    var result := Strip(raw);
    if '\n' in result then StripKeepsInner(BeforeNewline(result)); Strip(BeforeNewline(result)) else result
  }

  /**
   * What a translation returns, and the value it writes to the cache (if any),
   * given the cache read `cached` that preceded it.
   */
  datatype Translation = Translation(text: string, store: Option<string>)

  /**
   * `gemini_translate` apart from its cache access: the cache read arrives
   * as `cached`, the cache write leaves as `store`.
   */
  function Translated(text: string, src: string, tgt: string, cached: Option<string>, generate: string -> Reply): (t: Translation)
    // 1. blank text comes back empty
    ensures IsBlank(text) ==> t == Translation("", None)
    // 2. a cache hit with a non-empty value is returned as it is
    ensures !IsBlank(text) && cached.Some? && cached.value != "" ==> t == Translation(cached.value, None)
    // 6. whatever is written to the cache is what is returned: one stripped line
    ensures t.store.Some? ==> t.store.value == t.text && '\n' !in t.text && IsStripped(t.text)
    // 7. without a write, the result is the input, an empty string or the cached value
    ensures t.store.None? ==> t.text == text || t.text == "" || cached == Some(t.text)
  {
    if IsBlank(text) then Translation("", None)
    else if cached.Some? && cached.value != "" then Translation(cached.value, None)
    else Requested(text, SourceCode(src), TargetCode(tgt), generate)
  }

  /**
   * The rest of `gemini_translate` after a cache miss, with the codes already
   * normalised: the same language needs no call, a failed call gives the text
   * back, and a successful one gives the first line of the answer to cache.
   */
  function Requested(text: string, src: string, tgt: string, generate: string -> Reply): (t: Translation)
    ensures t.store.Some? ==> t.store.value == t.text && '\n' !in t.text && IsStripped(t.text)
    ensures t.store.None? ==> t.text == text
  {
    if src != "auto" && src == tgt then Translation(text, None)
    else
      match generate(TranslationPrompt(text, src, tgt))
      case Raised(_) => Translation(text, None)
      case Answer(raw) =>
        var line := FirstLine(raw);
        Translation(line, Some(line))
  }

  /** A known source code equal to the target code returns the text unchanged. */
  lemma SameCodeIsPassthrough(text: string, src: string, tgt: string, cached: Option<string>, generate: string -> Reply)
    requires !IsBlank(text) && (cached.None? || cached.value == "")
    requires Languages.IsCode(src) && src == TargetCode(tgt)
    ensures Translated(text, src, tgt, cached, generate) == Translation(text, None)
  {
    Languages.AutoIsNotACode();
    assert SourceCode(src) == src;
  }

  /** A failed model call returns the input unchanged and writes nothing. */
  lemma FailureIsPassthrough(text: string, src: string, tgt: string, cached: Option<string>, generate: string -> Reply)
    requires !IsBlank(text) && (cached.None? || cached.value == "")
    requires !(Languages.IsCode(src) && src == TargetCode(tgt))
    requires generate(TranslationPrompt(text, SourceCode(src), TargetCode(tgt))).Raised?
    ensures Translated(text, src, tgt, cached, generate) == Translation(text, None)
  {
    Languages.AutoIsNotACode();
  }

  /** A successful model call returns, and caches, the first line of its answer. */
  lemma SuccessIsCachedFirstLine(text: string, src: string, tgt: string, cached: Option<string>, generate: string -> Reply)
    requires !IsBlank(text) && (cached.None? || cached.value == "")
    requires !(Languages.IsCode(src) && src == TargetCode(tgt))
    requires generate(TranslationPrompt(text, SourceCode(src), TargetCode(tgt))).Answer?
    ensures var line := FirstLine(generate(TranslationPrompt(text, SourceCode(src), TargetCode(tgt))).text);
            Translated(text, src, tgt, cached, generate) == Translation(line, Some(line))
  {
    Languages.AutoIsNotACode();
  }

  /**
   * Blank text, a cache hit and a same-language request never reach the
   * model: the outcome is the same whatever the model would answer.
   */
  lemma ShortCircuitsIgnoreTheModel(text: string, src: string, tgt: string, cached: Option<string>,
                                    g1: string -> Reply, g2: string -> Reply)
    requires IsBlank(text) || (cached.Some? && cached.value != "") || (Languages.IsCode(src) && src == TargetCode(tgt))
    ensures Translated(text, src, tgt, cached, g1) == Translated(text, src, tgt, cached, g2)
  {
    if !IsBlank(text) && (cached.None? || cached.value == "") {
      SameCodeIsPassthrough(text, src, tgt, cached, g1);
      SameCodeIsPassthrough(text, src, tgt, cached, g2);
    }
  }

  /** `translate(t, L, L) == t` for a known code L, when the cache holds nothing for the key. */
  lemma SameLanguageIsIdentity(text: string, code: string, cached: Option<string>, generate: string -> Reply)
    requires Languages.IsCode(code)
    requires cached.None? || cached.value == ""
    ensures Translated(text, code, code, cached, generate).text == if IsBlank(text) then "" else text
  {
    if !IsBlank(text) {
      SameCodeIsPassthrough(text, code, code, cached, generate);
    }
  }

  /**
   * What a translation returns when the cache holds `entries` and is switched
   * on or off by `enabled`: the cache read is the first thing it does.
   */
  function TranslatedNow(enabled: bool, entries: map<string, Entry>, generate: string -> Reply,
                         text: string, src: string, tgt: string, now: int): string
  {
    var cached := if enabled then Lookup(entries, CacheKey(text, src, tgt), now) else None;
    Translated(text, src, tgt, cached, generate).text
  }

  /** A translation looks at the entry under its own key and at no other. */
  lemma ReadsOnlyItsKey(enabled: bool, a: map<string, Entry>, b: map<string, Entry>, generate: string -> Reply,
                        text: string, src: string, tgt: string, now: int)
    requires CacheKey(text, src, tgt) in a <==> CacheKey(text, src, tgt) in b
    requires CacheKey(text, src, tgt) in a ==> a[CacheKey(text, src, tgt)] == b[CacheKey(text, src, tgt)]
    ensures TranslatedNow(enabled, a, generate, text, src, tgt, now) == TranslatedNow(enabled, b, generate, text, src, tgt, now)
  {
    assert Lookup(a, CacheKey(text, src, tgt), now) == Lookup(b, CacheKey(text, src, tgt), now);
  }

  /**
   * The entries a translation leaves behind: an expired entry under its key is
   * dropped by the read, and a fresh answer is written with the default TTL.
   * No other key is touched.
   */
  function EntriesAfter(enabled: bool, ttl: int, entries: map<string, Entry>, generate: string -> Reply,
                        text: string, src: string, tgt: string, now: int): (m: map<string, Entry>)
    ensures forall k :: k != CacheKey(text, src, tgt) ==> (k in m <==> k in entries) && (k in m ==> m[k] == entries[k])
  {
    if IsBlank(text) || !enabled then entries
    else
      var key := CacheKey(text, src, tgt);
      var t := Translated(text, src, tgt, Lookup(entries, key, now), generate);
      var kept := AfterLookup(entries, key, now);
      if t.store.Some? then kept[key := Entry(t.store.value, now + ttl)] else kept
  }

  /**
   * A non-empty answer the model gave is served from the cache by the same
   * request until its TTL runs out, whatever the model would answer then.
   */
  lemma CachedAnswerIsReused(ttl: int, entries: map<string, Entry>, g1: string -> Reply, g2: string -> Reply,
                             text: string, src: string, tgt: string, now: int, later: int)
    requires !IsBlank(text)
    requires Translated(text, src, tgt, Lookup(entries, CacheKey(text, src, tgt), now), g1).store.Some?
    requires TranslatedNow(true, entries, g1, text, src, tgt, now) != ""
    requires now <= later < now + ttl
    ensures TranslatedNow(true, EntriesAfter(true, ttl, entries, g1, text, src, tgt, now), g2, text, src, tgt, later)
            == TranslatedNow(true, entries, g1, text, src, tgt, now)
  {
    var key := CacheKey(text, src, tgt);
    var m := EntriesAfter(true, ttl, entries, g1, text, src, tgt, now);
    assert Lookup(m, key, later) == Some(TranslatedNow(true, entries, g1, text, src, tgt, now));
  }

  /**
   * An empty answer is cached too, but the hit test is truthiness: the next
   * request goes to the model as if nothing were cached.
   */
  lemma EmptyAnswerIsNotReused(ttl: int, entries: map<string, Entry>, g1: string -> Reply, g2: string -> Reply,
                               text: string, src: string, tgt: string, now: int, later: int)
    requires !IsBlank(text)
    requires Translated(text, src, tgt, Lookup(entries, CacheKey(text, src, tgt), now), g1).store == Some("")
    requires now <= later < now + ttl
    ensures TranslatedNow(true, EntriesAfter(true, ttl, entries, g1, text, src, tgt, now), g2, text, src, tgt, later)
            == TranslatedNow(true, map[], g2, text, src, tgt, later)
  {
    var key := CacheKey(text, src, tgt);
    var m := EntriesAfter(true, ttl, entries, g1, text, src, tgt, now);
    assert Lookup(m, key, later) == Some("");
  }

  /** A translation does not change what a request with another cache key reads. */
  lemma OtherKeysReadAlike(enabled: bool, ttl: int, entries: map<string, Entry>, g1: string -> Reply, g2: string -> Reply,
                           text: string, src: string, tgt: string, text2: string, src2: string, tgt2: string, now: int, later: int)
    requires CacheKey(text2, src2, tgt2) != CacheKey(text, src, tgt)
    ensures TranslatedNow(enabled, EntriesAfter(enabled, ttl, entries, g1, text, src, tgt, now), g2, text2, src2, tgt2, later)
            == TranslatedNow(enabled, entries, g2, text2, src2, tgt2, later)
  {
    var key2 := CacheKey(text2, src2, tgt2);
    assert Lookup(EntriesAfter(enabled, ttl, entries, g1, text, src, tgt, now), key2, later) == Lookup(entries, key2, later);
  }

  /** `gemini_translate(text, src, tgt)` at time `now`, reading and writing `cache`. */
  method Translate(cache: TtlCache, generate: string -> Reply, text: string, src: string, tgt: string, now: int)
    returns (r: string)
    modifies cache
    ensures r == TranslatedNow(cache.enabled, old(cache.entries), generate, text, src, tgt, now)
    ensures cache.entries == EntriesAfter(cache.enabled, cache.defaultTtl, old(cache.entries), generate, text, src, tgt, now)
  {
    if IsBlank(text) {
      return "";
    }
    var key := CacheKey(text, src, tgt);
    var cached := cache.Get(key, now);
    var t := Translated(text, src, tgt, cached, generate);
    if t.store.Some? {
      cache.Set(key, t.store.value, None, now);
    }
    return t.text;
  }

  // ===========================================================================
  // Generation

  /**
   * The first element of a turn's "parts" list: a dict with an optional
   * "text" key, or a value that is not a dict. Indexing such a value with
   * "text" raises a TypeError whose message depends on the value's type
   * (a string, a list, a number), so the message is carried as data.
   */
  datatype Part = Part(text: Option<string>) | Unindexable(error: string)

  /**
   * One element of the `chat_history` list: a dict with optional "role" and
   * "parts" keys, or anything that is not a dict.
   */
  datatype HistoryItem = Message(role: Option<string>, parts: Option<seq<Part>>) | NotADict

  /** What the filter does with one element: skip it, keep a turn, or raise. */
  datatype Conversion = Skip | Keep(turn: Turn) | Fail(error: string)

  function Convert(item: HistoryItem): Conversion {
    match item
    case NotADict => Skip
    case Message(role, parts) =>
      if role.None? || parts.None? then Skip
      else if parts.value == [] then Fail("list index out of range")   // IndexError
      else
        match parts.value[0]
        case Unindexable(error) => Fail(error)                          // TypeError
        case Part(text) =>
          if text.None? then Fail("'text'")                             // KeyError
          else Keep(Turn(role.value, text.value))
  }

  /** The history the filter (app_production.py:262-269) builds from `items`, or the error it raises. */
  function Formatted(items: seq<HistoryItem>): Result<seq<Turn>, string> {
    if items == [] then Ok([])
    else
      match Formatted(items[..|items| - 1])
      case Err(e) => Err(e)
      case Ok(turns) =>
        match Convert(items[|items| - 1])
        case Skip => Ok(turns)
        case Keep(t) => Ok(turns + [t])
        case Fail(e) => Err(e)
  }

  lemma {:induction false} ErrorPersists(items: seq<HistoryItem>, i: nat)
    requires i <= |items|
    requires Formatted(items[..i]).Err?
    ensures Formatted(items) == Formatted(items[..i])
    decreases |items| - i
  {
    if i < |items| {
      assert items[..i + 1][..i] == items[..i];
      ErrorPersists(items, i + 1);
    } else {
      assert items[..i] == items;
    }
  }

  /** The dict form in which the dialogue records its own turns. */
  function AsItem(t: Turn): HistoryItem {
    Message(Some(t.role), Some([Part(Some(t.text))]))
  }

  /** Turns recorded as dicts pass the filter unchanged. */
  lemma {:induction false} RecordedTurnsPassThrough(turns: seq<Turn>)
    ensures Formatted(seq(|turns|, i requires 0 <= i < |turns| => AsItem(turns[i]))) == Ok(turns)
  {
    if turns != [] {
      var items := seq(|turns|, i requires 0 <= i < |turns| => AsItem(turns[i]));
      var shorter := turns[..|turns| - 1];
      assert items[..|items| - 1] == seq(|shorter|, i requires 0 <= i < |shorter| => AsItem(shorter[i]));
      RecordedTurnsPassThrough(shorter);
      assert turns == shorter + [turns[|turns| - 1]];
    }
  }

  /** The history filter of `get_gemini_response` (app_production.py:262-269). */
  method FormatHistory(items: seq<HistoryItem>) returns (r: Result<seq<Turn>, string>)
    ensures r == Formatted(items)
  {
    var formatted: seq<Turn> := [];
    var i := 0;
    while i < |items|
      invariant 0 <= i <= |items|
      invariant Formatted(items[..i]) == Ok(formatted)
    {
      assert items[..i + 1][..i] == items[..i];
      match Convert(items[i]) {
        case Skip =>
        case Keep(t) =>
          formatted := formatted + [t];
        case Fail(e) =>
          ErrorPersists(items, i + 1);
          return Err(e);
      }
      i := i + 1;
    }
    assert items[..i] == items;
    return Ok(formatted);
  }

  /** The four user-facing failure categories. */
  datatype Failure = BadKey | RateLimited | BadRequest | Unclassified

  predicate MentionsKey(d: string) {
    Contains(d, "401") || Contains(d, "unauthorized") || Contains(d, "api key not valid")
  }

  predicate MentionsRate(d: string) {
    Contains(d, "429") || Contains(d, "quota") || Contains(d, "rate")
  }

  predicate MentionsBadRequest(d: string) {
    Contains(d, "400") || Contains(d, "invalid")
  }

  /** The category of an exception, checked in order on `str(e).lower()`. */
  function Classify(error: string): (f: Failure)
    ensures f == BadKey <==> MentionsKey(Lower(error))
    ensures f == RateLimited <==> !MentionsKey(Lower(error)) && MentionsRate(Lower(error))
    ensures f == BadRequest <==>
      !MentionsKey(Lower(error)) && !MentionsRate(Lower(error)) && MentionsBadRequest(Lower(error))
    ensures f == Unclassified <==>
      !MentionsKey(Lower(error)) && !MentionsRate(Lower(error)) && !MentionsBadRequest(Lower(error))
  {
    var d := Lower(error);
    if MentionsKey(d) then BadKey
    else if MentionsRate(d) then RateLimited
    else if MentionsBadRequest(d) then BadRequest
    else Unclassified
  }

  function FailureMessage(f: Failure): string {
    match f
    case BadKey => "\U{274C} Error: Invalid API key. Please check your GEMINI_API_KEY in the .env file."
    case RateLimited => "\U{23F3} Error: Rate limit exceeded. Please try again in a few moments."
    case BadRequest => "\U{26A0}\U{FE0F} Error: Invalid request. Please try rephrasing your message."
    case Unclassified => "\U{274C} Error: Unable to process your request. Please try again later."
  }

  /**
   * The "rate" test is a plain substring test, so an error that merely
   * mentions generating content, and nothing about the key, is reported as a
   * rate limit.
   */
  lemma GenerateReadsAsRateLimit(error: string)
    requires Contains(Lower(error), "generate")
    requires !MentionsKey(Lower(error))
    ensures Classify(error) == RateLimited
  {
    var d := Lower(error);
    var q :| 0 <= q <= |d| - 8 && MatchesAt(d, "generate", q);
    assert d[q + 4..q + 8] == d[q..q + 8][4..8];
    assert MatchesAt(d, "rate", q + 4);
  }

  /** What the caller receives for a model reply: the answer, or the category's message. */
  function Shown(reply: Reply): string {
    match reply
    case Answer(t) => t
    case Raised(e) => FailureMessage(Classify(e))
  }

  /** `get_gemini_response(prompt_text, chat_history)`; it never raises. */
  method Respond(oracle: Oracle, prompt: string, history: seq<HistoryItem>) returns (r: string)
    ensures Formatted(history).Err? ==> r == FailureMessage(Classify(Formatted(history).error))
    ensures Formatted(history) == Ok([]) ==> r == Shown(oracle.generate(prompt))
    ensures Formatted(history).Ok? && Formatted(history).value != [] ==>
      r == Shown(oracle.chat(Formatted(history).value, prompt))
  {
    var formatted := FormatHistory(history);
    match formatted {
      case Err(e) =>
        return FailureMessage(Classify(e));
      case Ok(turns) =>
        var reply := if turns != [] then oracle.chat(turns, prompt) else oracle.generate(prompt);
        match reply {
          case Answer(t) => return t;
          case Raised(e) => return FailureMessage(Classify(e));
        }
    }
  }
}
