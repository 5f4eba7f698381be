/**
 * The consultation dialogue (`initialize_chat_state` and `process_chat`,
 * app_production.py:385-697): a state object that walks through the stages
 * ask_language, ask_symptoms, ask_allergies, generate_response and
 * general_qna, and the on-screen transcript of `[user, bot]` rows.
 */
module Chat {
  import opened Wrappers
  import opened Text
  import Languages
  import opened RateLimit
  import opened Cache
  import opened Gateway
  import Report
  import opened Summary

  // ===========================================================================
  // Input

  /** `sanitize_input`: cut to `maxLen` characters (Python slicing), then strip. */
  function Sanitize(text: string, maxLen: int): (r: string)
    ensures text == "" ==> r == ""
    ensures IsStripped(r)
    ensures maxLen >= 0 ==> |r| <= maxLen
    ensures r == Strip(SliceTo(text, maxLen)) || text == ""
  {
    if text == "" then "" else Strip(SliceTo(text, maxLen))
  }

  /** With a non-negative length bound, sanitising twice is sanitising once. */
  lemma SanitizeIdempotent(text: string, maxLen: int)
    requires maxLen >= 0
    ensures Sanitize(Sanitize(text, maxLen), maxLen) == Sanitize(text, maxLen)
  {
    var r := Sanitize(text, maxLen);
    if r != "" {
      assert SliceTo(r, maxLen) == r;
      StripStripped(r);
    }
  }

  /**
   * A message that survives sanitising is never blank, so the
   * `not message.strip()` branch of the symptoms stage cannot be taken.
   */
  lemma SanitizedIsNotBlank(text: string, maxLen: int)
    requires Sanitize(text, maxLen) != ""
    ensures !IsBlank(Sanitize(text, maxLen))
    ensures Strip(Sanitize(text, maxLen)) == Sanitize(text, maxLen)
  {
    StripStripped(Sanitize(text, maxLen));
  }

  // A folding device: IsSanitisedFrom, SanitisedAs and SanitisedText say no
  // more than `r == Sanitize(text, maxLen)`; they only keep the stripping out
  // of the contracts that pass the text along.
  ghost predicate IsSanitisedFrom(text: string, maxLen: int, r: string) {
    r == Sanitize(text, maxLen)
  }

  /**
   * `r` is `Sanitize(text, maxLen)`, stated for every text that is that
   * result so that the stripping stays folded until `SanitisedText` unfolds it.
   */
  ghost predicate SanitisedAs(text: string, maxLen: int, r: string) {
    forall u {:trigger IsSanitisedFrom(text, maxLen, u)} :: IsSanitisedFrom(text, maxLen, u) ==> r == u
  }

  /**
   * A proof step, not a property of `sanitize_input`: unfolds `SanitisedAs`
   * back into the equation `r == Sanitize(text, maxLen)` it folds.
   */
  lemma SanitisedText(text: string, maxLen: int, r: string)
    requires SanitisedAs(text, maxLen, r)
    ensures r == Sanitize(text, maxLen)
  {
    assert IsSanitisedFrom(text, maxLen, Sanitize(text, maxLen));
  }

  /** `sanitize_input(text)` as the dialogue calls it. */
  method SanitizeInput(text: string, maxLen: int) returns (r: string)
    ensures SanitisedAs(text, maxLen, r) && IsStripped(r)
  {
    r := Sanitize(text, maxLen);
  }

  /** Python's `f"{x}"` for an optional string: `None` prints as "None". */
  function Show(x: Option<string>): string {
    match x
    case None => "None"
    case Some(s) => s
  }

  /** An optional string that Python treats as true: present and non-empty. */
  predicate IsSet(x: Option<string>) {
    x.Some? && x.value != ""
  }

  // ===========================================================================
  // Fixed texts

  const RateLimitMessage := "\U{23F3} Rate limit exceeded. Please wait a moment before sending another message."
  const EnglishPlaceholder := "\U{1F4CA} Report summary will appear here after diagnosis."
  const TranslatedPlaceholder := "\U{1F4CB} Translated report summary will appear here."
  const SymptomsPrompt := "Please describe your symptoms in detail."
  const LanguageNotSet := "\U{274C} Error: Language not set. Please start over."
  const AllergiesQuestion :=
    "\U{2705} Thank you for sharing your symptoms. Do you have any known allergies? If none, please say 'None'."
  const AnalysingMessage := "\U{23F3} Analyzing your symptoms and allergies... This may take a moment."
  const ThinkingMessage := "\U{1F4AD} Thinking about your question..."

  function Welcome(language: string): string {
    "\U{2705} Thank you! Your selected language is " + language + "."
  }

  /** The English reply of the ask_language stage once a language is chosen. */
  function WelcomeReply(language: string): string {
    Welcome(language) + "\n\n" + SymptomsPrompt
  }

  /**
   * The reply to a name that is not in the table; the list is
   * `", ".join(sorted(LANG_CODES.keys()))` (`Languages.SortedKeys`).
   */
  function Unsupported(message: string): string {
    "\U{274C} Sorry, '" + message + "' is not supported. Please select from:\n" + Join(Languages.SortedNames, ", ")
  }

  function DiagnosisPrompt(symptoms: string, allergies: string): string {
    "Based on the symptoms and allergies below, provide a concise medical assessment.\n\n"
    + "Symptoms: " + symptoms + "\n"
    + "Allergies: " + allergies + "\n\n"
    + "Provide your response in this EXACT format with brief, clear information:\n\n"
    + "Diagnosis:\n[2-3 sentences about the likely condition]\n\n"
    + "Proposed New Drug:\n[2-3 sentences about a hypothetical drug name and how it works]\n\n"
    + "Hypothetical Dosage/Instructions:\n[2-3 sentences about dosage, frequency, and how to take it]\n\n"
    + "Allergy/Safety Note:\n[2-3 sentences about safety considerations given the patient's allergies]\n\n"
    + "Keep each section brief and direct. No extra explanations or bullet point breakdowns."
  }

  /** The context of a follow-up question; its lines keep the source's twelve-space indent. */
  function QuestionPrompt(symptoms: string, allergies: string, drugConcept: string, question: string): string {
    "\n            Previous symptoms: " + symptoms
    + "\n            Previous allergies: " + allergies
    + "\n            Previous diagnosis and drug concept: " + drugConcept
    + "\n            \n            User question: " + question
    + "\n            \n            Respond in a clear, concise way.\n            "
  }
  /** The two requests the dialogue makes of the model. */
  datatype Request =
    | Assessment(symptoms: string, allergies: string)
    | Question(symptoms: string, allergies: string, drugConcept: string, question: string)

  function PromptOf(q: Request): string {
    match q
    case Assessment(symptoms, allergies) => DiagnosisPrompt(symptoms, allergies)
    case Question(symptoms, allergies, drugConcept, question) => QuestionPrompt(symptoms, allergies, drugConcept, question)
  }

  // A folding device: IsPromptOf, AnsweredWith and ShownAnswer say no more
  // than `r == Shown(oracle.generate(PromptOf(q)))`; they only keep the long
  // prompts out of the contracts that pass the answer along.
  ghost predicate IsPromptOf(q: Request, p: string) {
    p == PromptOf(q)
  }

  /**
   * `r` is what `get_gemini_response(prompt)` gives for the prompt of `q`.
   * It is stated for every text `p` that is that prompt, so that the long
   * prompt is spelled out only where a proof asks for it (`ShownAnswer`).
   */
  ghost predicate AnsweredWith(oracle: Oracle, q: Request, r: string) {
    forall p {:trigger IsPromptOf(q, p)} :: IsPromptOf(q, p) ==> r == Shown(oracle.generate(p))
  }

  /**
   * A proof step, not a property of `get_gemini_response`: unfolds
   * `AnsweredWith` back into the equation on the spelled-out prompt it folds.
   */
  lemma ShownAnswer(oracle: Oracle, q: Request, r: string)
    requires AnsweredWith(oracle, q, r)
    ensures r == Shown(oracle.generate(PromptOf(q)))
  {
    assert IsPromptOf(q, PromptOf(q));
  }

  /** `get_gemini_response(prompt)` on the prompt of `q`, without a chat history. */
  method Consult(oracle: Oracle, q: Request) returns (r: string)
    ensures AnsweredWith(oracle, q, r)
  {
    r := Respond(oracle, PromptOf(q), []);
    forall p | IsPromptOf(q, p)
      ensures r == Shown(oracle.generate(p))
    {
    }
  }


  // A folding device: IsRefusalOf, RefusedWith and RefusalText say no more
  // than `r == Unsupported(message)`; they only keep the list of language
  // names out of the contracts that pass the refusal along.
  ghost predicate IsRefusalOf(message: string, r: string) {
    r == Unsupported(message)
  }

  /**
   * `r` is the refusal of `message` as a language name, stated for every text
   * that is that refusal so that the list of names stays folded (`RefusalText`).
   */
  ghost predicate RefusedWith(message: string, r: string) {
    forall u {:trigger IsRefusalOf(message, u)} :: IsRefusalOf(message, u) ==> r == u
  }

  lemma RefusalText(message: string, r: string)
    requires RefusedWith(message, r)
    ensures r == Unsupported(message)
  {
    assert IsRefusalOf(message, Unsupported(message));
  }

  /** The reply to a name that is not in the table, in English only. */
  method Refuse(message: string) returns (r: string)
    ensures RefusedWith(message, r)
  {
    r := Unsupported(message);
  }

  // ===========================================================================
  // Series of translations

  /**
   * What a series of `gemini_translate(text, src, tgt)` calls in one turn
   * shares: the cache's switch and default TTL, the model, the language pair
   * and the clock. A text equal to `skip` is passed through without a call,
   * as the diagnosis turn does with a section that reads "Not found".
   */
  datatype Pass = Pass(enabled: bool, ttl: int, generate: string -> Reply, src: string, tgt: string,
                       skip: Option<string>, now: int)

  /** One call of the series: `text` gives `r` and takes the cache from `before` to `after`. */
  ghost predicate Step(p: Pass, text: string, r: string, before: map<string, Entry>, after: map<string, Entry>) {
    if p.skip == Some(text) then r == text && after == before
    else
      && r == TranslatedNow(p.enabled, before, p.generate, text, p.src, p.tgt, p.now)
      && after == EntriesAfter(p.enabled, p.ttl, before, p.generate, text, p.src, p.tgt, p.now)
  }

  /** The `i`-th call of a series. */
  ghost predicate StepOfRun(p: Pass, texts: seq<string>, rs: seq<string>, states: seq<map<string, Entry>>, i: int) {
    0 <= i < |texts| && i < |rs| && i + 1 < |states| && Step(p, texts[i], rs[i], states[i], states[i + 1])
  }

  /**
   * `texts` translated one after the other into `rs`; `states[i]` is the
   * cache before the `i`-th call, so each call sees what the earlier ones wrote.
   */
  ghost predicate TranslatedRun(p: Pass, texts: seq<string>, rs: seq<string>, states: seq<map<string, Entry>>) {
    && |rs| == |texts| && |states| == |texts| + 1
    && forall i :: 0 <= i < |texts| ==> StepOfRun(p, texts, rs, states, i)
  }

  /** Calls that each did their step form a run. */
  lemma StepsMakeARun(p: Pass, texts: seq<string>, rs: seq<string>, states: seq<map<string, Entry>>)
    requires |rs| == |texts| && |states| == |texts| + 1
    requires forall j :: 0 <= j < |texts| ==> Step(p, texts[j], rs[j], states[j], states[j + 1])
    ensures TranslatedRun(p, texts, rs, states)
  {
    forall i | 0 <= i < |texts|
      ensures StepOfRun(p, texts, rs, states, i)
    {
    }
  }

  /** The calls, in order, on `cache`. */
  method TranslateEach(cache: TtlCache, generate: string -> Reply, texts: seq<string>, src: string, tgt: string,
                       skip: Option<string>, now: int)
    returns (rs: seq<string>, ghost states: seq<map<string, Entry>>)
    modifies cache
    ensures TranslatedRun(Pass(cache.enabled, cache.defaultTtl, generate, src, tgt, skip, now), texts, rs, states)
    ensures |states| == |texts| + 1 && states[0] == old(cache.entries) && states[|texts|] == cache.entries
  {
    rs, states := TranslateSteps(cache, generate, texts, src, tgt, skip, now);
    StepsMakeARun(Pass(cache.enabled, cache.defaultTtl, generate, src, tgt, skip, now), texts, rs, states);
  }

  /** The loop of `TranslateEach`, stated call by call. */
  method TranslateSteps(cache: TtlCache, generate: string -> Reply, texts: seq<string>, src: string, tgt: string,
                       skip: Option<string>, now: int)
    returns (rs: seq<string>, ghost states: seq<map<string, Entry>>)
    modifies cache
    ensures |rs| == |texts| && |states| == |texts| + 1 && states[0] == old(cache.entries) && states[|texts|] == cache.entries
    ensures forall j :: 0 <= j < |texts| ==>
      Step(Pass(cache.enabled, cache.defaultTtl, generate, src, tgt, skip, now), texts[j], rs[j], states[j], states[j + 1])
  {
    ghost var p := Pass(cache.enabled, cache.defaultTtl, generate, src, tgt, skip, now);
    rs, states := [], [cache.entries];
    for i := 0 to |texts|
      invariant |rs| == i && |states| == i + 1
      invariant states[0] == old(cache.entries) && states[i] == cache.entries
      invariant forall j :: 0 <= j < i ==> Step(p, texts[j], rs[j], states[j], states[j + 1])
    {
      var r := TranslateStep(cache, generate, texts[i], src, tgt, skip, now);
      rs, states := rs + [r], states + [cache.entries];
    }
  }

  /** One call of the loop: the text equal to `skip` is passed over, any other is translated. */
  method TranslateStep(cache: TtlCache, generate: string -> Reply, text: string, src: string, tgt: string,
                       skip: Option<string>, now: int)
    returns (r: string)
    modifies cache
    ensures Step(Pass(cache.enabled, cache.defaultTtl, generate, src, tgt, skip, now), text, r, old(cache.entries), cache.entries)
  {
    r := text;
    if skip != Some(text) {
      r := Translate(cache, generate, text, src, tgt, now);
    }
  }

  /** A key written by the call on `text` is that text's key; other keys keep their entries. */
  lemma {:induction false} StepKeepsOtherKeys(p: Pass, text: string, r: string, before: map<string, Entry>,
                                              after: map<string, Entry>, key: string)
    requires Step(p, text, r, before, after)
    requires key != CacheKey(text, p.src, p.tgt)
    ensures (key in after <==> key in before) && (key in after ==> after[key] == before[key])
  {
  }

  /** The `i`-th call of a series leaves every key but its own as it was. */
  lemma RunStepKeepsOtherKeys(p: Pass, texts: seq<string>, rs: seq<string>, states: seq<map<string, Entry>>,
                              key: string, i: nat)
    requires TranslatedRun(p, texts, rs, states)
    requires i < |texts| && key != CacheKey(texts[i], p.src, p.tgt)
    ensures (key in states[i + 1] <==> key in states[i]) && (key in states[i + 1] ==> states[i + 1][key] == states[i][key])
  {
    assert StepOfRun(p, texts, rs, states, i);
    StepKeepsOtherKeys(p, texts[i], rs[i], states[i], states[i + 1], key);
  }

  /** The calls before the `j`-th leave `key` as it was if none of them had that key. */
  lemma {:induction false} EarlierCallsKeepKey(p: Pass, texts: seq<string>, rs: seq<string>,
                                               states: seq<map<string, Entry>>, key: string, j: nat)
    requires TranslatedRun(p, texts, rs, states)
    requires j <= |texts|
    requires forall k :: 0 <= k < j ==> CacheKey(texts[k], p.src, p.tgt) != key
    ensures (key in states[j] <==> key in states[0]) && (key in states[j] ==> states[j][key] == states[0][key])
  {
    if j > 0 {
      EarlierCallsKeepKey(p, texts, rs, states, key, j - 1);
      RunStepKeepsOtherKeys(p, texts, rs, states, key, j - 1);
    }
  }

  /** Different texts have different keys under the same language pair. */
  lemma TextsHaveTheirOwnKeys(a: string, b: string, src: string, tgt: string)
    requires a != b
    ensures CacheKey(a, src, tgt) != CacheKey(b, src, tgt)
  {
    if |a| == |b| {
      var i :| 0 <= i < |a| && a[i] != b[i];
      assert CacheKey(a, src, tgt)[i] == a[i];
      assert CacheKey(b, src, tgt)[i] == b[i];
    } else {
      assert |CacheKey(a, src, tgt)| != |CacheKey(b, src, tgt)|;
    }
  }

  /**
   * When no text of a series repeats an earlier one, the calls do not see each
   * other: each gives what it would have given on the cache the series started from.
   */
  lemma DistinctTextsReadTheStartingCache(p: Pass, texts: seq<string>, rs: seq<string>,
                                          states: seq<map<string, Entry>>, i: nat)
    requires TranslatedRun(p, texts, rs, states)
    requires forall j, k :: 0 <= j < k < |texts| ==> texts[j] != texts[k]
    requires i < |texts| && p.skip != Some(texts[i])
    ensures rs[i] == TranslatedNow(p.enabled, states[0], p.generate, texts[i], p.src, p.tgt, p.now)
  {
    var key := CacheKey(texts[i], p.src, p.tgt);
    forall k | 0 <= k < i
      ensures CacheKey(texts[k], p.src, p.tgt) != key
    {
      TextsHaveTheirOwnKeys(texts[k], texts[i], p.src, p.tgt);
    }
    EarlierCallsKeepKey(p, texts, rs, states, key, i);
    assert StepOfRun(p, texts, rs, states, i);
    ReadsOnlyItsKey(p.enabled, states[i], states[0], p.generate, texts[i], p.src, p.tgt, p.now);
  }

  /** With the cache switched off every call goes to the model and nothing is written. */
  lemma DisabledCacheIsBypassed(p: Pass, texts: seq<string>, rs: seq<string>, states: seq<map<string, Entry>>, i: nat)
    requires TranslatedRun(p, texts, rs, states) && !p.enabled
    requires i < |texts|
    ensures rs[i] == if p.skip == Some(texts[i]) then texts[i]
                     else Translated(texts[i], p.src, p.tgt, None, p.generate).text
    ensures states[i + 1] == states[0]
  {
    if i > 0 {
      DisabledCacheIsBypassed(p, texts, rs, states, i - 1);
    }
    assert StepOfRun(p, texts, rs, states, i);
  }

  /**
   * `user_message_en` (app_production.py:433-435): a non-blank message is
   * translated into English when the session's code is known and is not "en";
   * otherwise it is used as it is.
   */
  method HearInEnglish(cache: TtlCache, generate: string -> Reply, message: string, code: Option<string>, now: int)
    returns (heard: string, ghost states: seq<map<string, Entry>>)
    modifies cache
    ensures code.Some? && code.value != "en" && !IsBlank(message) ==>
      && TranslatedRun(Pass(cache.enabled, cache.defaultTtl, generate, code.value, "en", None, now), [message], [heard], states)
      && states[0] == old(cache.entries) && states[1] == cache.entries
    ensures !(code.Some? && code.value != "en" && !IsBlank(message)) ==> heard == message && cache.entries == old(cache.entries)
  {
    if code.Some? && code.value != "en" && !IsBlank(message) {
      var out;
      out, states := TranslateEach(cache, generate, [message], code.value, "en", None, now);
      heard := out[0];
      assert out == [heard];
    } else {
      heard, states := message, [cache.entries];
    }
  }

  /** The four sections of an assessment in the order the summaries show them. */
  function SectionTexts(sec: Report.Sections): (r: seq<string>)
    ensures Bodies("", "", sec)[2..] == r
  {
    [sec.diagnosis, sec.drug, sec.dosage, sec.safety]
  }

  /** `s` lays out six headings over the patient's two `answers` and four further bodies. */
  predicate LaysOut(style: Style, s: string, titles: seq<string>, answers: seq<string>, bodies: seq<string>) {
    && |titles| == 6 && |answers| == 2 && |bodies| == 4
    && s == Layout(style, titles, answers + bodies)
  }

  /**
   * The waiting message of the allergies and general_qna stages, translated
   * and shown as the bot side of the newest row until the reply replaces it.
   */
  method ShowWaiting(cache: TtlCache, transcript: Transcript, generate: string -> Reply, text: string, code: string, now: int)
    returns (waiting: string, ghost ws: seq<map<string, Entry>>)
    requires transcript.rows != []
    modifies cache, transcript
    ensures TranslatedRun(Pass(cache.enabled, cache.defaultTtl, generate, "en", code, None, now), [text], [waiting], ws)
    ensures ws[0] == old(cache.entries) && ws[1] == cache.entries
    ensures transcript.OnlyLastReplyChanged() && transcript.rows[|transcript.rows| - 1].bot == waiting
  {
    var out;
    out, ws := TranslateEach(cache, generate, [text], "en", code, None, now);
    waiting := out[0];
    assert out == [waiting];
    transcript.SetLastReply(waiting);
  }

  /**
   * Both summaries of the diagnosis turn (app_production.py:557-607). The
   * English one has bold headings over the English answers and the sections
   * of `assessment`; the translated one has the six headings translated under
   * `###`, the answers as typed, and each section translated unless it is
   * "Not found". The headings are translated before the sections.
   */
  method DiagnosisTurnSummaries(cache: TtlCache, generate: string -> Reply, code: string, now: int,
                                symptomsEn: string, allergiesEn: string, symptomsTyped: string, allergiesTyped: string,
                                assessment: string)
    returns (english: string, translated: string, ghost titles: seq<string>, ghost bodies: seq<string>,
             ghost hs: seq<map<string, Entry>>, ghost bs: seq<map<string, Entry>>)
    modifies cache
    ensures english == Layout(Bold, DiagnosisTurnHeadings, Bodies(symptomsEn, allergiesEn, Report.Extract(assessment)))
    ensures LaysOut(Headed, translated, titles, [symptomsTyped, allergiesTyped], bodies)
    ensures TranslatedRun(Pass(cache.enabled, cache.defaultTtl, generate, "en", code, None, now), DiagnosisTurnHeadings, titles, hs)
    ensures TranslatedRun(Pass(cache.enabled, cache.defaultTtl, generate, "en", code, Some(Report.NotFound), now),
                          SectionTexts(Report.Extract(assessment)), bodies, bs)
    ensures hs[0] == old(cache.entries) && hs[6] == bs[0] && bs[4] == cache.entries
    ensures StartsWithHashes(translated)
  {
    var sec := Report.Extract(assessment);
    english := Layout(Bold, DiagnosisTurnHeadings, Bodies(symptomsEn, allergiesEn, sec));
    var ts, xs;
    ts, hs := TranslateEach(cache, generate, DiagnosisTurnHeadings, "en", code, None, now);
    xs, bs := TranslateEach(cache, generate, SectionTexts(sec), "en", code, Some(Report.NotFound), now);
    translated := Layout(Headed, ts, [symptomsTyped, allergiesTyped] + xs);
    SummaryPrefix(Headed, ts, [symptomsTyped, allergiesTyped] + xs);
    titles, bodies := ts, xs;
  }

  /**
   * Both summaries as rebuilt on a turn after the diagnosis
   * (app_production.py:649-683): other headings than on the diagnosis turn,
   * bold headings in both, and every section translated, "Not found"
   * included, before the headings are.
   */
  method LaterTurnSummaries(cache: TtlCache, generate: string -> Reply, code: string, now: int,
                            symptomsEn: string, allergiesEn: string, symptomsTyped: string, allergiesTyped: string,
                            assessment: string)
    returns (english: string, translated: string, ghost titles: seq<string>, ghost bodies: seq<string>,
             ghost bs: seq<map<string, Entry>>, ghost hs: seq<map<string, Entry>>)
    modifies cache
    ensures english == Layout(Bold, LaterTurnHeadings, Bodies(symptomsEn, allergiesEn, Report.Extract(assessment)))
    ensures LaysOut(Bold, translated, titles, [symptomsTyped, allergiesTyped], bodies)
    ensures TranslatedRun(Pass(cache.enabled, cache.defaultTtl, generate, "en", code, None, now),
                          SectionTexts(Report.Extract(assessment)), bodies, bs)
    ensures TranslatedRun(Pass(cache.enabled, cache.defaultTtl, generate, "en", code, None, now), LaterTurnHeadings, titles, hs)
    ensures bs[0] == old(cache.entries) && bs[4] == hs[0] && hs[6] == cache.entries
    ensures !StartsWithHashes(translated)
  {
    var sec := Report.Extract(assessment);
    english := Layout(Bold, LaterTurnHeadings, Bodies(symptomsEn, allergiesEn, sec));
    var xs, ts;
    xs, bs := TranslateEach(cache, generate, SectionTexts(sec), "en", code, None, now);
    ts, hs := TranslateEach(cache, generate, LaterTurnHeadings, "en", code, None, now);
    translated := Layout(Bold, ts, [symptomsTyped, allergiesTyped] + xs);
    SummaryPrefix(Bold, ts, [symptomsTyped, allergiesTyped] + xs);
    titles, bodies := ts, xs;
  }


  // ===========================================================================
  // Stages

  datatype Stage = AskLanguage | AskSymptoms | AskAllergies | GenerateResponse | GeneralQna

  /** The position of a stage along the dialogue. */
  function Rank(s: Stage): nat {
    match s
    case AskLanguage => 0
    case AskSymptoms => 1
    case AskAllergies => 2
    case GenerateResponse => 3
    case GeneralQna => 4
  }

  /**
   * The stage an admitted, non-empty `message` leads to from `stage` when the
   * session's language code is `code`. The message is the sanitised one, which
   * is already stripped, so the source's `message.strip().title()` is
   * `Title(message)` here. The allergies turn passes through
   * generate_response and ends in general_qna; an unset code in the symptoms
   * or allergies stage starts the session over.
   */
  function StageAfter(stage: Stage, message: string, code: Option<string>): Stage {
    match stage
    case AskLanguage => if Languages.IsName(Title(message)) then AskSymptoms else AskLanguage
    case AskSymptoms => if IsSet(code) then AskAllergies else AskLanguage
    case AskAllergies => if IsSet(code) then GeneralQna else AskLanguage
    case GenerateResponse => GenerateResponse
    case GeneralQna => GeneralQna
  }

  /**
   * A turn moves the dialogue at most one question forward (the allergies
   * turn skips over generate_response), or starts over because the code is unset.
   */
  lemma StagesMoveForward(stage: Stage, message: string, code: Option<string>)
    ensures var next := StageAfter(stage, message, code);
      || next == stage
      || (Rank(next) == Rank(stage) + 1 && next != GenerateResponse)
      || (stage == AskAllergies && next == GeneralQna)
      || (next == AskLanguage && !IsSet(code) && (stage == AskSymptoms || stage == AskAllergies))
    ensures StageAfter(stage, message, code) != GenerateResponse || stage == GenerateResponse
  {
  }

  /** The table's codes are all set (two letters each). */
  lemma CodesAreSet(code: string)
    requires Languages.IsCode(code)
    ensures IsSet(Some(code))
  {
    var i :| 0 <= i < |Languages.Table| && Languages.Table[i].1 == code;
    assert |Languages.Table[i].1| == 2;
  }

  /** A session whose code comes from the table never starts over. */
  lemma KnownCodeNeverResets(stage: Stage, message: string, code: string)
    requires Languages.IsCode(code)
    ensures StageAfter(stage, message, Some(code)) != AskLanguage || stage == AskLanguage
  {
    CodesAreSet(code);
  }

  /**
   * The ask_language stage moves on exactly when the message spells one of the
   * table's names in any mixture of upper and lower case.
   */
  lemma LanguageAcceptedIgnoringCase(message: string, code: Option<string>)
    ensures StageAfter(AskLanguage, message, code) == AskSymptoms <==>
      exists i :: 0 <= i < |Languages.Table| && Lower(message) == Lower(Languages.Table[i].0)
  {
    Languages.TitleSelectsIgnoringCase(message);
  }

  // ===========================================================================
  // The transcript shown on screen

  datatype Row = Row(user: string, bot: string)

  /** The chatbot's `history`: a list of `[user, bot]` rows. */
  class Transcript {
    var rows: seq<Row>

    constructor ()
      ensures rows == []
    {
      rows := [];
    }

    /** `history.append([user, bot])` */
    method Append(row: Row)
      modifies this
      ensures rows == old(rows) + [row]
    {
      rows := rows + [row];
    }

    /** `history[-1][1] = bot` */
    method SetLastReply(bot: string)
      requires rows != []
      modifies this
      ensures |rows| == |old(rows)| && rows[..|rows| - 1] == old(rows)[..|rows| - 1]
      ensures rows[|rows| - 1] == Row(old(rows)[|rows| - 1].user, bot)
    {
      rows := rows[..|rows| - 1] + [Row(rows[|rows| - 1].user, bot)];
    }

    /** Only the bot side of the last row differs from before. */
    twostate predicate OnlyLastReplyChanged()
      reads this
    {
      && |rows| == |old(rows)| && rows != []
      && rows[..|rows| - 1] == old(rows)[..|rows| - 1]
      && rows[|rows| - 1].user == old(rows)[|rows| - 1].user
    }

    /** `history[-1] = row` on a non-empty history; otherwise the history becomes `[row]`. */
    method ReplaceLast(row: Row)
      modifies this
      ensures old(rows) == [] ==> rows == [row]
      ensures old(rows) != [] ==> rows == old(rows)[..|old(rows)| - 1] + [row]
    {
      if rows != [] {
        rows := rows[..|rows| - 1] + [row];
      } else {
        rows := [row];
      }
    }
  }

  // ===========================================================================
  // The session state

  /** The thirteen entries of the `state` dict, as a value. */
  datatype Session = Session(stage: Stage, language: Option<string>, langCode: Option<string>,
                             symptomsUserLang: Option<string>, symptomsEn: Option<string>,
                             allergiesUserLang: Option<string>, allergiesEn: Option<string>,
                             diagnosisEn: Option<string>, drugConceptFullEn: Option<string>,
                             history: seq<Turn>, userId: string, sessionStart: int,
                             translatedSummary: Option<string>)

  /** What `initialize_chat_state` returns. */
  function InitialSession(userId: string, now: int): Session {
    Session(AskLanguage, None, None, None, None, None, None, None, None, [], userId, now, None)
  }

  class ChatState {
    var stage: Stage
    var language: Option<string>
    var langCode: Option<string>
    var symptomsUserLang: Option<string>
    var symptomsEn: Option<string>
    var allergiesUserLang: Option<string>
    var allergiesEn: Option<string>
    var diagnosisEn: Option<string>
    var drugConceptFullEn: Option<string>
    /** `gemini_chat_history_manual`: the turns recorded as `{"role", "parts": [{"text"}]}` dicts. */
    var history: seq<Turn>
    var userId: string
    var sessionStart: int
    /** Only set on the diagnosis turn; absent before. */
    var translatedSummary: Option<string>

    /** The state `initialize_chat_state` builds. */
    predicate IsInitial(userId: string, now: int)
      reads this
    {
      && stage == AskLanguage
      && language.None? && langCode.None?
      && symptomsUserLang.None? && symptomsEn.None?
      && allergiesUserLang.None? && allergiesEn.None?
      && diagnosisEn.None? && drugConceptFullEn.None?
      && history == []
      && this.userId == userId && sessionStart == now
      && translatedSummary.None?
    }

    /** The state's entries, as a value. */
    function Snapshot(): Session
      reads this
    {
      Session(stage, language, langCode, symptomsUserLang, symptomsEn, allergiesUserLang, allergiesEn,
              diagnosisEn, drugConceptFullEn, history, userId, sessionStart, translatedSummary)
    }

    /**
     * What the dialogue itself ever produces: generate_response never
     * outlasts a turn, a language code is set from the chosen name exactly
     * after the first stage, and each later stage has the answers it needs.
     */
    ghost predicate Valid()
      reads this
    {
      && stage != GenerateResponse
      && (stage == AskLanguage <==> langCode.None?)
      && (langCode.Some? ==>
            language.Some? && Languages.IsName(language.value) && langCode.value == Languages.CodeOf(language.value))
      && (stage == AskAllergies || stage == GeneralQna ==> symptomsEn.Some? && symptomsUserLang.Some?)
      && (stage == GeneralQna <==> drugConceptFullEn.Some?)
      && (stage == GeneralQna ==> allergiesEn.Some? && allergiesUserLang.Some? && translatedSummary.Some?)
    }

    /** `initialize_chat_state()`; the user id (an MD5 prefix of the clock) is a parameter. */
    constructor (userId: string, now: int)
      ensures IsInitial(userId, now)
      ensures Valid()
    {
      stage := AskLanguage;
      language := None;
      langCode := None;
      symptomsUserLang := None;
      symptomsEn := None;
      allergiesUserLang := None;
      allergiesEn := None;
      diagnosisEn := None;
      drugConceptFullEn := None;
      history := [];
      this.userId := userId;
      sessionStart := now;
      translatedSummary := None;
    }

    /** The fields no stage after the first one writes. */
    twostate predicate KeepsSession()
      reads this
    {
      && language == old(language) && langCode == old(langCode)
      && userId == old(userId) && sessionStart == old(sessionStart) && diagnosisEn == old(diagnosisEn)
    }

    twostate predicate KeepsSymptoms()
      reads this
    {
      symptomsUserLang == old(symptomsUserLang) && symptomsEn == old(symptomsEn)
    }

    twostate predicate KeepsAllergies()
      reads this
    {
      allergiesUserLang == old(allergiesUserLang) && allergiesEn == old(allergiesEn)
    }

    twostate predicate KeepsOutcome()
      reads this
    {
      drugConceptFullEn == old(drugConceptFullEn) && translatedSummary == old(translatedSummary)
    }

    /**
     * The ask_language stage with a name of the table (app_production.py:443-467).
     * `selected` is the message after strip() and title() and `code` its
     * code. Both are stored, and the reply is the welcome and the symptoms
     * question, each translated into that language.
     */
    method AcceptLanguage(cache: TtlCache, generate: string -> Reply, selected: string, code: string, now: int)
      returns (reply: string, ghost parts: seq<string>, ghost states: seq<map<string, Entry>>)
      modifies this, cache
      ensures stage == AskSymptoms && language == Some(selected) && langCode == Some(code)
      ensures history == old(history) + [Turn("user", "User selected language: " + selected), Turn("model", WelcomeReply(selected))]
      ensures TranslatedRun(Pass(cache.enabled, cache.defaultTtl, generate, "en", code, None, now),
                            [Welcome(selected), SymptomsPrompt], parts, states)
      ensures states[0] == old(cache.entries) && states[2] == cache.entries
      ensures reply == parts[0] + "\n\n" + parts[1]
      ensures userId == old(userId) && sessionStart == old(sessionStart) && diagnosisEn == old(diagnosisEn)
      ensures KeepsSymptoms() && KeepsAllergies() && KeepsOutcome()
    {
      var rs;
      rs, states := TranslateEach(cache, generate, [Welcome(selected), SymptomsPrompt], "en", code, None, now);
      reply := rs[0] + "\n\n" + rs[1];
      parts := rs;
      language := Some(selected);
      langCode := Some(code);
      stage := AskSymptoms;
      history := history + [Turn("user", "User selected language: " + selected), Turn("model", WelcomeReply(selected))];
    }

    /**
     * The ask_symptoms stage with the language set (app_production.py:482-497):
     * the answer is kept as typed (`typed`, the message after strip()) and in
     * English, and the allergies question is asked in the user's language.
     */
    method TakeSymptoms(cache: TtlCache, generate: string -> Reply, typed: string, heard: string, code: string, now: int)
      returns (reply: string, ghost states: seq<map<string, Entry>>)
      requires stage == AskSymptoms
      modifies this, cache
      ensures old(Valid()) ==> Valid()
      ensures symptomsUserLang == Some(typed) && symptomsEn == Some(heard) && stage == AskAllergies
      ensures history == old(history) + [Turn("user", "Symptoms: " + heard), Turn("model", AllergiesQuestion)]
      ensures TranslatedRun(Pass(cache.enabled, cache.defaultTtl, generate, "en", code, None, now), [AllergiesQuestion], [reply], states)
      ensures states[0] == old(cache.entries) && states[1] == cache.entries
      ensures KeepsSession() && KeepsAllergies() && KeepsOutcome()
    {
      var rs;
      rs, states := TranslateEach(cache, generate, [AllergiesQuestion], "en", code, None, now);
      reply := rs[0];
      assert rs == [reply];
      symptomsUserLang := Some(typed);
      symptomsEn := Some(heard);
      stage := AskAllergies;
      history := history + [Turn("user", "Symptoms: " + heard), Turn("model", AllergiesQuestion)];
    }

    /**
     * The ask_allergies stage with the language set, first part
     * (app_production.py:505-512): the answer is kept as typed and in English,
     * and the dialogue enters generate_response.
     */
    method RecordAllergies(typed: string, heard: string)
      modifies this
      ensures allergiesUserLang == Some(typed) && allergiesEn == Some(heard) && stage == GenerateResponse
      ensures history == old(history) + [Turn("user", "Allergies: " + heard)]
      ensures KeepsSession() && KeepsSymptoms() && KeepsOutcome()
    {
      allergiesUserLang := Some(typed);
      allergiesEn := Some(heard);
      stage := GenerateResponse;
      history := history + [Turn("user", "Allergies: " + heard)];
    }

    /**
     * The end of the generate_response step (app_production.py:538-555): the
     * model's `assessment` is kept, recorded as the model's turn and
     * translated, and the dialogue moves on to general_qna.
     */
    method RecordAssessment(cache: TtlCache, generate: string -> Reply, assessment: string, code: string, now: int)
      returns (reply: string, ghost rs: seq<map<string, Entry>>)
      modifies this, cache
      ensures drugConceptFullEn == Some(assessment) && stage == GeneralQna
      ensures history == old(history) + [Turn("model", assessment)]
      ensures TranslatedRun(Pass(cache.enabled, cache.defaultTtl, generate, "en", code, None, now), [assessment], [reply], rs)
      ensures rs[0] == old(cache.entries) && rs[1] == cache.entries
      ensures KeepsSession() && KeepsSymptoms() && KeepsAllergies() && translatedSummary == old(translatedSummary)
    {
      drugConceptFullEn := Some(assessment);
      stage := GeneralQna;
      var out;
      out, rs := TranslateEach(cache, generate, [assessment], "en", code, None, now);
      reply := out[0];
      assert out == [reply];
      history := history + [Turn("model", assessment)];
    }

    /** `state["translated_summary"] = translated` at the end of the diagnosis turn. */
    method KeepSummary(translated: string)
      modifies this
      ensures translatedSummary == Some(translated)
      ensures KeepsSession() && KeepsSymptoms() && KeepsAllergies() && drugConceptFullEn == old(drugConceptFullEn)
      ensures stage == old(stage) && history == old(history)
    {
      translatedSummary := Some(translated);
    }

    /**
     * The ask_allergies stage with the language set (app_production.py:504-607):
     * the answer is recorded, the waiting message shown, the assessment asked
     * for and translated, and both summaries written; the translated one is
     * kept in the state.
     */
    method AllergiesTurn(cache: TtlCache, transcript: Transcript, oracle: Oracle, typed: string, heard: string, code: string, now: int)
      returns (reply: string, english: string, translated: string,
               assessment: string, ghost titles: seq<string>, ghost bodies: seq<string>,
               ghost waiting: string, ghost ws: seq<map<string, Entry>>, ghost rs: seq<map<string, Entry>>,
               ghost hs: seq<map<string, Entry>>, ghost bs: seq<map<string, Entry>>)
      requires stage == AskAllergies && transcript.rows != []
      modifies this, cache, transcript
      ensures old(Valid()) ==> Valid()
      ensures allergiesUserLang == Some(typed) && allergiesEn == Some(heard) && stage == GeneralQna
      ensures AnsweredWith(oracle, Assessment(Show(old(symptomsEn)), heard), assessment)
      ensures drugConceptFullEn == Some(assessment) && translatedSummary == Some(translated)
      ensures history == old(history) + [Turn("user", "Allergies: " + heard)] + [Turn("model", assessment)]
      ensures english == Layout(Bold, DiagnosisTurnHeadings, Bodies(Show(old(symptomsEn)), heard, Report.Extract(assessment)))
      ensures LaysOut(Headed, translated, titles, [Show(old(symptomsUserLang)), typed], bodies)
      ensures StartsWithHashes(translated)
      ensures transcript.OnlyLastReplyChanged()
      ensures KeepsSession() && KeepsSymptoms()
      ensures TranslatedRun(Pass(cache.enabled, cache.defaultTtl, oracle.generate, "en", code, None, now), [AnalysingMessage], [waiting], ws)
      ensures TranslatedRun(Pass(cache.enabled, cache.defaultTtl, oracle.generate, "en", code, None, now), [assessment], [reply], rs)
      ensures TranslatedRun(Pass(cache.enabled, cache.defaultTtl, oracle.generate, "en", code, None, now), DiagnosisTurnHeadings, titles, hs)
      ensures TranslatedRun(Pass(cache.enabled, cache.defaultTtl, oracle.generate, "en", code, Some(Report.NotFound), now),
                            SectionTexts(Report.Extract(assessment)), bodies, bs)
      ensures ws[0] == old(cache.entries) && ws[1] == rs[0] && rs[1] == hs[0]
      ensures hs[6] == bs[0] && bs[4] == cache.entries
    {
      var request := Assessment(Show(symptomsEn), heard);
      RecordAllergies(typed, heard);
      var shown;
      shown, ws := ShowWaiting(cache, transcript, oracle.generate, AnalysingMessage, code, now);
      assessment := Consult(oracle, request);
      reply, rs := RecordAssessment(cache, oracle.generate, assessment, code, now);
      english, translated, titles, bodies, hs, bs :=
        DiagnosisTurnSummaries(cache, oracle.generate, code, now, Show(symptomsEn), heard, Show(symptomsUserLang), typed, assessment);
      KeepSummary(translated);
      waiting := shown;
    }

    /**
     * A question in the general_qna stage (app_production.py:612-641, the
     * waiting message aside): the model sees the earlier answers and the
     * assessment, not the recorded history, and its answer is translated.
     */
    method Answer(cache: TtlCache, oracle: Oracle, heard: string, code: string, now: int)
      returns (answer: string, reply: string, ghost rs: seq<map<string, Entry>>)
      modifies this, cache
      ensures old(Valid()) ==> Valid()
      ensures AnsweredWith(oracle, Question(Show(old(symptomsEn)), Show(old(allergiesEn)), Show(old(drugConceptFullEn)), heard), answer)
      ensures history == old(history) + [Turn("user", heard), Turn("model", answer)]
      ensures TranslatedRun(Pass(cache.enabled, cache.defaultTtl, oracle.generate, "en", code, None, now), [answer], [reply], rs)
      ensures rs[0] == old(cache.entries) && rs[1] == cache.entries
      ensures stage == old(stage)
      ensures KeepsSession() && KeepsSymptoms() && KeepsAllergies() && KeepsOutcome()
    {
      var request := Question(Show(symptomsEn), Show(allergiesEn), Show(drugConceptFullEn), heard);
      history := history + [Turn("user", heard)];
      answer := Consult(oracle, request);
      var out;
      out, rs := TranslateEach(cache, oracle.generate, [answer], "en", code, None, now);
      reply := out[0];
      assert out == [reply];
      history := history + [Turn("model", answer)];
    }
  }

  // ===========================================================================
  // One turn of the dialogue

  /** The allergies turn with the language set: the one turn that writes the summaries itself. */
  predicate WritesSummaries(stage: Stage, code: Option<string>) {
    stage == AskAllergies && IsSet(code)
  }

  /** The symptoms and allergies stages start over when the language code is unset. */
  predicate StartsOver(stage: Stage, code: Option<string>) {
    (stage == AskSymptoms || stage == AskAllergies) && !IsSet(code)
  }

  /**
   * The state a turn leaves when the session does not start over
   * (app_production.py:443-641). `m` is the sanitised message, `heard` the
   * message in English, `answer` the model's answer on the allergies and
   * general_qna stages, and `summary` the translated summary the allergies
   * turn writes.
   */
  function SessionAfter(s: Session, m: string, heard: string, answer: string, summary: string): (r: Session)
    ensures !StartsOver(s.stage, s.langCode) ==> r.stage == StageAfter(s.stage, m, s.langCode)
    ensures r.userId == s.userId && r.sessionStart == s.sessionStart && r.diagnosisEn == s.diagnosisEn
    ensures s.history <= r.history && |r.history| <= |s.history| + 2
    ensures s.stage != AskLanguage ==> r.language == s.language && r.langCode == s.langCode
  {
    match s.stage
    case AskLanguage =>
      var selected := Title(m);
      if Languages.IsName(selected) then
        s.(stage := AskSymptoms, language := Some(selected), langCode := Some(Languages.CodeOf(selected)),
           history := s.history + [Turn("user", "User selected language: " + selected), Turn("model", WelcomeReply(selected))])
      else s
    case AskSymptoms =>
      s.(stage := AskAllergies, symptomsUserLang := Some(m), symptomsEn := Some(heard),
         history := s.history + [Turn("user", "Symptoms: " + heard), Turn("model", AllergiesQuestion)])
    case AskAllergies =>
      s.(stage := GeneralQna, allergiesUserLang := Some(m), allergiesEn := Some(heard),
         drugConceptFullEn := Some(answer), translatedSummary := Some(summary),
         history := s.history + [Turn("user", "Allergies: " + heard), Turn("model", answer)])
    case GenerateResponse => s
    case GeneralQna =>
      s.(history := s.history + [Turn("user", heard), Turn("model", answer)])
  }

  /** What the model is asked on the allergies stage, and on general_qna. */
  function RequestOf(s: Session, heard: string): Request {
    if s.stage == AskAllergies then Assessment(Show(s.symptomsEn), heard)
    else Question(Show(s.symptomsEn), Show(s.allergiesEn), Show(s.drugConceptFullEn), heard)
  }

  /** The English texts a stage translates into its reply, joined by blank lines. */
  function EnglishReply(s: Session, m: string, answer: string): seq<string> {
    match s.stage
    case AskLanguage => [Welcome(Title(m)), SymptomsPrompt]
    case AskSymptoms => [AllergiesQuestion]
    case _ => [answer]
  }

  /**
   * A stage's turn without a start-over: the session `s` became `n`, the model
   * answered the stage's request, and the reply `bot` is the refusal of an
   * unknown language name, nothing on generate_response, or else the
   * stage's English texts translated (`parts`, over the cache `states`) and
   * joined. `before` and `after` are the cache around the turn; the refusal
   * and generate_response leave it alone, and the first two stages translate
   * from the cache as the turn found it.
   */
  ghost predicate StageDone(s: Session, n: Session, m: string, heard: string, answer: string, summary: string,
                            bot: string, parts: seq<string>, states: seq<map<string, Entry>>, oracle: Oracle,
                            enabled: bool, ttl: int, before: map<string, Entry>, after: map<string, Entry>, now: int) {
    && n == SessionAfter(s, m, heard, answer, summary)
    && (s.stage == AskAllergies || s.stage == GeneralQna ==> AnsweredWith(oracle, RequestOf(s, heard), answer))
    && if s.stage == GenerateResponse then bot == "" && after == before
       else if s.stage == AskLanguage && !Languages.IsName(Title(m)) then RefusedWith(m, bot) && after == before
       else
         && TranslatedRun(Pass(enabled, ttl, oracle.generate, "en", Show(n.langCode), None, now), EnglishReply(s, m, answer), parts, states)
         && bot == Join(parts, "\n\n")
         && (s.stage == AskLanguage || s.stage == AskSymptoms ==> states[0] == before)
         && (s.stage != AskAllergies ==> states[|states| - 1] == after)
  }

  /**
   * What the diagnosis turn reads and translates besides its reply: the
   * sections of the assessment, the waiting message (`waiting` over the cache
   * states `ws`), the headings (`titles` over `hs`) and the sections
   * (`bodies` over `bs`).
   */
  datatype Written = Written(sections: Report.Sections, waiting: string, ws: seq<map<string, Entry>>,
                             titles: seq<string>, hs: seq<map<string, Entry>>,
                             bodies: seq<string>, bs: seq<map<string, Entry>>)

  /** Nothing read or translated: what a turn other than the diagnosis reports. */
  const NothingWritten := Written(Report.Sections("", "", "", ""), "", [], [], [], [], [])

  /**
   * `sec` is what the four searches read out of `answer`, that is
   * `sec == Report.Extract(answer)`. The equation sits under a quantifier
   * over the one value `answer`, so that a proof unfolds the searches only
   * where it mentions them.
   */
  ghost predicate SectionsOf(answer: string, sec: Report.Sections) {
    forall x | x == answer :: Report.Extract(x) == sec
  }

  /**
   * The summaries of the diagnosis turn (app_production.py:504-607), for the
   * stored symptoms in English `symptoms` and as typed `typed`, the typed
   * allergies `m` and their English `heard`, and the model's assessment
   * `answer`: the English summary `english` in bold
   * layout, and the translated one `translated` with `###` headings, laid
   * out from the translated headings and sections. The cache goes from
   * `before` through the waiting message, the reply (over `states`), the
   * headings and the sections to `after`.
   */
  ghost predicate DiagnosisWritten(symptoms: string, typed: string, m: string, heard: string, answer: string, english: string, translated: string,
                                   states: seq<map<string, Entry>>, w: Written, p: Pass,
                                   before: map<string, Entry>, after: map<string, Entry>) {
    && SectionsOf(answer, w.sections)
    && english == Layout(Bold, DiagnosisTurnHeadings, Bodies(symptoms, heard, w.sections))
    && LaysOut(Headed, translated, w.titles, [typed, m], w.bodies)
    && TranslatedRun(p, [AnalysingMessage], [w.waiting], w.ws)
    && TranslatedRun(p, DiagnosisTurnHeadings, w.titles, w.hs)
    && TranslatedRun(p.(skip := Some(Report.NotFound)), SectionTexts(w.sections), w.bodies, w.bs)
    && |states| == 2
    && w.ws[0] == before && w.ws[1] == states[0] && states[1] == w.hs[0] && w.hs[6] == w.bs[0] && w.bs[4] == after
  }

  /**
   * What `DiagnosisWritten` says of the two summaries, with the sections
   * written as the searches of `Report.Extract` find them in the assessment.
   */
  lemma DiagnosisSummariesRead(symptoms: string, typed: string, m: string, heard: string, answer: string,
                               english: string, translated: string, states: seq<map<string, Entry>>, w: Written, p: Pass,
                               before: map<string, Entry>, after: map<string, Entry>)
    requires DiagnosisWritten(symptoms, typed, m, heard, answer, english, translated, states, w, p, before, after)
    ensures english == Layout(Bold, DiagnosisTurnHeadings, Bodies(symptoms, heard, Report.Extract(answer)))
    ensures StartsWithHashes(translated)
    ensures TranslatedRun(p.(skip := Some(Report.NotFound)), SectionTexts(Report.Extract(answer)), w.bodies, w.bs)
  {
    assert Report.Extract(answer) == w.sections;
    SummaryPrefix(Headed, w.titles, [typed, m] + w.bodies);
  }

  /**
   * A turn of `process_chat` after the message was heard: a start-over gives
   * a fresh session under `freshId` and the "language not set" reply;
   * otherwise the stage does its part (`StageDone`).
   */
  ghost predicate Dispatched(s: Session, n: Session, m: string, heard: string, answer: string, summary: string,
                             bot: string, parts: seq<string>, states: seq<map<string, Entry>>, oracle: Oracle,
                             enabled: bool, ttl: int, before: map<string, Entry>, after: map<string, Entry>,
                             now: int, freshId: string) {
    if StartsOver(s.stage, s.langCode) then n == InitialSession(freshId, now) && bot == LanguageNotSet && after == before
    else StageDone(s, n, m, heard, answer, summary, bot, parts, states, oracle, enabled, ttl, before, after, now)
  }

  /**
   * `user_message_en` (app_production.py:433-435) as `HearInEnglish` computes
   * it, the cache going from `before` to `after`.
   */
  ghost predicate HeardAs(enabled: bool, ttl: int, generate: string -> Reply, message: string, code: Option<string>,
                          now: int, before: map<string, Entry>, after: map<string, Entry>,
                          heard: string, hs: seq<map<string, Entry>>) {
    if code.Some? && code.value != "en" && !IsBlank(message) then
      && TranslatedRun(Pass(enabled, ttl, generate, code.value, "en", None, now), [message], [heard], hs)
      && hs[0] == before && hs[1] == after
    else heard == message && after == before
  }

  /**
   * The ask_language stage (app_production.py:443-476): the message,
   * title-cased, is accepted when it is one of the table's names and refused
   * otherwise. `m` is the sanitised message, so stripping it again changes
   * nothing (`Text.StripStripped`).
   */
  method LanguageStage(st: ChatState, cache: TtlCache, oracle: Oracle, m: string, now: int)
    returns (bot: string, ghost parts: seq<string>, ghost states: seq<map<string, Entry>>)
    requires st.stage == AskLanguage && IsStripped(m)
    modifies st, cache
    ensures st.stage == StageAfter(AskLanguage, m, old(st.langCode))
    ensures old(st.Valid()) ==> st.Valid()
    ensures Languages.IsName(Title(m)) ==>
      st.language == Some(Title(m)) && st.langCode == Some(Languages.CodeOf(Title(m)))
    ensures !Languages.IsName(Title(m)) ==> RefusedWith(m, bot) && unchanged(st) && cache.entries == old(cache.entries)
    ensures st.symptomsEn == old(st.symptomsEn) && st.allergiesEn == old(st.allergiesEn)
    ensures st.drugConceptFullEn == old(st.drugConceptFullEn) && st.translatedSummary == old(st.translatedSummary)
    ensures StageDone(old(st.Snapshot()), st.Snapshot(), m, m, "", "", bot, parts, states, oracle,
                      cache.enabled, cache.defaultTtl, old(cache.entries), cache.entries, now)
  {
    ghost var s0 := st.Snapshot();
    var selected := Title(m);
    var found := Languages.Lookup(selected);
    if found.Some? {
      bot, parts, states := st.AcceptLanguage(cache, oracle.generate, selected, found.value, now);
      assert parts[1..] == [parts[1]];
      assert st.Snapshot() == SessionAfter(s0, m, m, "", "");
      assert EnglishReply(s0, m, "") == [Welcome(selected), SymptomsPrompt];
    } else {
      bot := Refuse(m);
      parts, states := [], [];
      assert st.Snapshot() == SessionAfter(s0, m, m, "", "");
    }
  }

  /**
   * The stage dispatch of `process_chat` (app_production.py:439-641) for an
   * admitted message `m` whose row `[m, ""]` is already on screen; `heard` is
   * `m` in English. As `m` is sanitised, the source's `message.strip()` is
   * `m` itself. The state object answering the next turn is `next`: the
   * same one, or a fresh one with the id `freshId` when the session starts over.
   */
  method Converse(st: ChatState, transcript: Transcript, cache: TtlCache, oracle: Oracle,
                  m: string, heard: string, now: int, freshId: string)
    returns (bot: string, english: string, translated: string, next: ChatState,
             ghost answer: string, ghost parts: seq<string>, ghost states: seq<map<string, Entry>>, ghost w: Written)
    requires transcript.rows != [] && IsStripped(m)
    modifies st, transcript, cache
    ensures next.stage == StageAfter(old(st.stage), m, old(st.langCode))
    ensures old(st.Valid()) ==> next.Valid()
    ensures transcript.OnlyLastReplyChanged()
    ensures next != st <==> StartsOver(old(st.stage), old(st.langCode))
    ensures next != st ==> fresh(next) && next.IsInitial(freshId, now) && unchanged(st)
    ensures Dispatched(old(st.Snapshot()), next.Snapshot(), m, heard, answer, translated, bot, parts, states, oracle,
                       cache.enabled, cache.defaultTtl, old(cache.entries), cache.entries, now, freshId)
    ensures WritesSummaries(old(st.stage), old(st.langCode)) ==>
      && StartsWithHashes(translated) && st.translatedSummary == Some(translated)
      && DiagnosisWritten(Show(old(st.symptomsEn)), Show(old(st.symptomsUserLang)), m, heard, answer, english, translated, states, w,
                          Pass(cache.enabled, cache.defaultTtl, oracle.generate, "en", Show(old(st.langCode)), None, now), old(cache.entries), cache.entries)
    ensures !WritesSummaries(old(st.stage), old(st.langCode)) ==>
      english == EnglishPlaceholder && translated == TranslatedPlaceholder
  {
    english, translated := EnglishPlaceholder, TranslatedPlaceholder;
    answer, parts, states, w := "", [], [], NothingWritten;
    if StartsOver(st.stage, st.langCode) {
      bot := LanguageNotSet;
      next := new ChatState(freshId, now);
      return;
    }
    next := st;
    if st.stage == AskLanguage {
      bot, parts, states := LanguageStage(st, cache, oracle, m, now);
    } else if st.stage == GenerateResponse {
      bot := "";
    } else {
      bot, english, translated, answer, parts, states, w := Continue(st, transcript, cache, oracle, m, heard, now);
    }
  }

  /**
   * The symptoms and allergies stages with the language set, and the
   * general_qna stage (app_production.py:478-641).
   */
  method Continue(st: ChatState, transcript: Transcript, cache: TtlCache, oracle: Oracle, m: string, heard: string, now: int)
    returns (bot: string, english: string, translated: string,
             ghost answer: string, ghost parts: seq<string>, ghost states: seq<map<string, Entry>>, ghost w: Written)
    requires st.stage == AskSymptoms || st.stage == AskAllergies || st.stage == GeneralQna
    requires !StartsOver(st.stage, st.langCode) && transcript.rows != []
    modifies st, transcript, cache
    ensures st.stage == StageAfter(old(st.stage), m, old(st.langCode))
    ensures old(st.Valid()) ==> st.Valid()
    ensures transcript.OnlyLastReplyChanged()
    ensures WritesSummaries(old(st.stage), old(st.langCode)) ==>
      && StartsWithHashes(translated) && st.translatedSummary == Some(translated)
      && DiagnosisWritten(Show(old(st.symptomsEn)), Show(old(st.symptomsUserLang)), m, heard, answer, english, translated, states, w,
                          Pass(cache.enabled, cache.defaultTtl, oracle.generate, "en", Show(old(st.langCode)), None, now), old(cache.entries), cache.entries)
    ensures !WritesSummaries(old(st.stage), old(st.langCode)) ==>
      english == EnglishPlaceholder && translated == TranslatedPlaceholder
    ensures StageDone(old(st.Snapshot()), st.Snapshot(), m, heard, answer, translated, bot, parts, states, oracle,
                      cache.enabled, cache.defaultTtl, old(cache.entries), cache.entries, now)
  {
    english, translated := EnglishPlaceholder, TranslatedPlaceholder;
    w := NothingWritten;
    if st.stage == AskSymptoms {
      answer := "";
      bot, parts, states := SymptomsStage(st, cache, oracle, m, heard, now);
    } else if st.stage == AskAllergies {
      bot, english, translated, answer, parts, states, w := AllergiesStage(st, transcript, cache, oracle, m, heard, now);
    } else {
      bot, answer, parts, states := QuestionStage(st, transcript, cache, oracle, m, heard, now);
    }
  }

  /** The ask_symptoms stage with the language set, as a stage of the dialogue. */
  method SymptomsStage(st: ChatState, cache: TtlCache, oracle: Oracle, m: string, heard: string, now: int)
    returns (bot: string, ghost parts: seq<string>, ghost states: seq<map<string, Entry>>)
    requires st.stage == AskSymptoms && !StartsOver(st.stage, st.langCode)
    modifies st, cache
    ensures old(st.Valid()) ==> st.Valid()
    ensures StageDone(old(st.Snapshot()), st.Snapshot(), m, heard, "", TranslatedPlaceholder, bot, parts, states, oracle,
                      cache.enabled, cache.defaultTtl, old(cache.entries), cache.entries, now)
  {
    ghost var s0 := st.Snapshot();
    bot, states := st.TakeSymptoms(cache, oracle.generate, m, heard, Show(st.langCode), now);
    parts := [bot];
    assert st.Snapshot() == SessionAfter(s0, m, heard, "", TranslatedPlaceholder);
  }

  /** The ask_allergies stage with the language set, as a stage of the dialogue. */
  method AllergiesStage(st: ChatState, transcript: Transcript, cache: TtlCache, oracle: Oracle, m: string, heard: string, now: int)
    returns (bot: string, english: string, translated: string,
             ghost answer: string, ghost parts: seq<string>, ghost states: seq<map<string, Entry>>, ghost w: Written)
    requires st.stage == AskAllergies && !StartsOver(st.stage, st.langCode) && transcript.rows != []
    modifies st, transcript, cache
    ensures old(st.Valid()) ==> st.Valid()
    ensures transcript.OnlyLastReplyChanged()
    ensures StartsWithHashes(translated) && st.translatedSummary == Some(translated)
    ensures DiagnosisWritten(Show(old(st.symptomsEn)), Show(old(st.symptomsUserLang)), m, heard, answer, english, translated, states, w,
                             Pass(cache.enabled, cache.defaultTtl, oracle.generate, "en", Show(old(st.langCode)), None, now), old(cache.entries), cache.entries)
    ensures StageDone(old(st.Snapshot()), st.Snapshot(), m, heard, answer, translated, bot, parts, states, oracle,
                      cache.enabled, cache.defaultTtl, old(cache.entries), cache.entries, now)
  {
    ghost var s0 := st.Snapshot();
    ghost var titles, bodies, waiting, ws, hs, bs;
    var assessment;
    bot, english, translated, assessment, titles, bodies, waiting, ws, states, hs, bs :=
      st.AllergiesTurn(cache, transcript, oracle, m, heard, Show(st.langCode), now);
    answer, parts := assessment, [bot];
    w := Written(Report.Extract(answer), waiting, ws, titles, hs, bodies, bs);
    assert st.history == s0.history + [Turn("user", "Allergies: " + heard), Turn("model", answer)];
    assert st.Snapshot() == s0.(stage := GeneralQna, allergiesUserLang := Some(m), allergiesEn := Some(heard),
                                drugConceptFullEn := Some(answer), translatedSummary := Some(translated),
                                history := st.history);
  }

  /**
   * The general_qna stage (app_production.py:612-641): the thinking message
   * is shown, then replaced by the translated answer.
   */
  method QuestionStage(st: ChatState, transcript: Transcript, cache: TtlCache, oracle: Oracle, m: string, heard: string, now: int)
    returns (bot: string, ghost answer: string, ghost parts: seq<string>, ghost states: seq<map<string, Entry>>)
    requires st.stage == GeneralQna && transcript.rows != []
    modifies st, transcript, cache
    ensures old(st.Valid()) ==> st.Valid()
    ensures transcript.OnlyLastReplyChanged()
    ensures StageDone(old(st.Snapshot()), st.Snapshot(), m, heard, answer, TranslatedPlaceholder, bot, parts, states, oracle,
                      cache.enabled, cache.defaultTtl, old(cache.entries), cache.entries, now)
  {
    ghost var s0 := st.Snapshot();
    ghost var ws;
    var code := Show(st.langCode);
    var waiting;
    waiting, ws := ShowWaiting(cache, transcript, oracle.generate, ThinkingMessage, code, now);
    answer, bot, states := st.Answer(cache, oracle, heard, code, now);
    parts := [bot];
    assert st.Snapshot() == SessionAfter(s0, m, heard, answer, TranslatedPlaceholder);
  }

  /** The placeholder never reads as a summary with `###` headings. */
  lemma PlaceholderLacksHashes()
    ensures !StartsWithHashes(TranslatedPlaceholder)
  {
    assert TranslatedPlaceholder[1] == ' ';
  }

  /**
   * The stage's answer to the admitted, sanitised message `m`, whose row is
   * the newest one (app_production.py:432-645): `m` is heard in English, the
   * stage replies, and the reply becomes the row's bot side.
   */
  method Exchange(st: ChatState, transcript: Transcript, cache: TtlCache, oracle: Oracle, m: string, now: int, freshId: string)
    returns (english: string, translated: string, next: ChatState, bot: string, ghost t: TurnRecord)
    requires IsStripped(m) && transcript.rows != []
    modifies st, transcript, cache
    ensures |transcript.rows| == |old(transcript.rows)|
    ensures transcript.rows == old(transcript.rows)[..|old(transcript.rows)| - 1] + [Row(old(transcript.rows)[|old(transcript.rows)| - 1].user, bot)]
    ensures next.stage == StageAfter(old(st.stage), m, old(st.langCode))
    ensures old(st.Valid()) ==> next.Valid()
    ensures next != st <==> StartsOver(old(st.stage), old(st.langCode))
    ensures next != st ==> fresh(next) && unchanged(st)
    ensures t.before == old(cache.entries) && t.after == cache.entries && t.bot == bot && t.summary == translated
    ensures TurnOf(old(st.Snapshot()), next.Snapshot(), m, t, oracle, cache.enabled, cache.defaultTtl, now, freshId)
    ensures WritesSummaries(old(st.stage), old(st.langCode)) ==>
      && StartsWithHashes(translated) && next.translatedSummary == Some(translated)
      && DiagnosisWritten(Show(old(st.symptomsEn)), Show(old(st.symptomsUserLang)), m, t.heard, t.answer, english, translated, t.states, t.written,
                          Pass(cache.enabled, cache.defaultTtl, oracle.generate, "en", Show(old(st.langCode)), None, now), t.heardCache, t.after)
    ensures !WritesSummaries(old(st.stage), old(st.langCode)) ==>
      english == EnglishPlaceholder && translated == TranslatedPlaceholder
  {
    ghost var before := cache.entries;
    ghost var hs, answer, parts, states, w;
    var heard;
    heard, hs := HearInEnglish(cache, oracle.generate, m, st.langCode, now);
    ghost var heardCache := cache.entries;
    bot, english, translated, next, answer, parts, states, w := Settle(st, transcript, cache, oracle, m, heard, now, freshId);
    t := TurnRecord(heard, hs, before, heardCache, cache.entries, answer, translated, bot, parts, states, w);
  }

  /** The stage's reply to the heard message (`Converse`), put on the newest row as its bot side. */
  method Settle(st: ChatState, transcript: Transcript, cache: TtlCache, oracle: Oracle,
                m: string, heard: string, now: int, freshId: string)
    returns (bot: string, english: string, translated: string, next: ChatState,
             ghost answer: string, ghost parts: seq<string>, ghost states: seq<map<string, Entry>>, ghost w: Written)
    requires transcript.rows != [] && IsStripped(m)
    modifies st, transcript, cache
    ensures |transcript.rows| == |old(transcript.rows)|
    ensures transcript.rows == old(transcript.rows)[..|old(transcript.rows)| - 1] + [Row(old(transcript.rows)[|old(transcript.rows)| - 1].user, bot)]
    ensures next.stage == StageAfter(old(st.stage), m, old(st.langCode))
    ensures old(st.Valid()) ==> next.Valid()
    ensures next != st <==> StartsOver(old(st.stage), old(st.langCode))
    ensures next != st ==> fresh(next) && unchanged(st)
    ensures Dispatched(old(st.Snapshot()), next.Snapshot(), m, heard, answer, translated, bot, parts, states, oracle,
                       cache.enabled, cache.defaultTtl, old(cache.entries), cache.entries, now, freshId)
    ensures WritesSummaries(old(st.stage), old(st.langCode)) ==>
      && StartsWithHashes(translated) && next.translatedSummary == Some(translated)
      && DiagnosisWritten(Show(old(st.symptomsEn)), Show(old(st.symptomsUserLang)), m, heard, answer, english, translated, states, w,
                          Pass(cache.enabled, cache.defaultTtl, oracle.generate, "en", Show(old(st.langCode)), None, now), old(cache.entries), cache.entries)
    ensures !WritesSummaries(old(st.stage), old(st.langCode)) ==>
      english == EnglishPlaceholder && translated == TranslatedPlaceholder
  {
    bot, english, translated, next, answer, parts, states, w := Converse(st, transcript, cache, oracle, m, heard, now, freshId);
    transcript.SetLastReply(bot);
  }

  /**
   * What one admitted turn went through: the message as heard, the cache
   * before the turn, after hearing (over `hs`) and after the stage, the
   * model's answer, the translated summary, and the reply with the
   * translations it is made of (over `states`).
   */
  datatype TurnRecord = TurnRecord(heard: string, hs: seq<map<string, Entry>>, before: map<string, Entry>,
                                   heardCache: map<string, Entry>, after: map<string, Entry>,
                                   answer: string, summary: string, bot: string, parts: seq<string>,
                                   states: seq<map<string, Entry>>, written: Written)

  /**
   * One admitted turn as `ProcessChat` states it: `m` heard in the session's
   * language, then dispatched by the stage.
   */
  ghost predicate TurnOf(s: Session, n: Session, m: string, t: TurnRecord, oracle: Oracle, enabled: bool, ttl: int,
                         now: int, freshId: string) {
    && HeardAs(enabled, ttl, oracle.generate, m, s.langCode, now, t.before, t.heardCache, t.heard, t.hs)
    && Dispatched(s, n, m, t.heard, t.answer, t.summary, t.bot, t.parts, t.states, oracle, enabled, ttl,
                  t.heardCache, t.after, now, freshId)
  }

  /** In a session without a language, the message "English" selects English and asks for the symptoms. */
  lemma ChoosingEnglish(s: Session, n: Session, t: TurnRecord, oracle: Oracle, enabled: bool, ttl: int, now: int, freshId: string)
    requires s.stage == AskLanguage && s.langCode.None?
    requires TurnOf(s, n, "English", t, oracle, enabled, ttl, now, freshId)
    ensures n.stage == AskSymptoms && n.language == Some("English") && n.langCode == Some("en")
    ensures n.symptomsEn == s.symptomsEn && n.allergiesEn == s.allergiesEn && n.drugConceptFullEn == s.drugConceptFullEn
    ensures n.userId == s.userId && n.sessionStart == s.sessionStart && |n.history| == |s.history| + 2
  {
    Languages.EnglishIsEn();
    TitleOfEnglish();
    assert n == SessionAfter(s, "English", t.heard, t.answer, t.summary);
  }

  lemma TitleOfEnglish()
    ensures Title("English") == "English"
  {
  }

  /** In an English session the symptoms turn stores the message, as typed and as heard, and asks about allergies. */
  lemma EnglishSymptoms(s: Session, n: Session, m: string, t: TurnRecord, oracle: Oracle, enabled: bool, ttl: int, now: int, freshId: string)
    requires s.stage == AskSymptoms && s.langCode == Some("en")
    requires TurnOf(s, n, m, t, oracle, enabled, ttl, now, freshId)
    ensures n.stage == AskAllergies && n.symptomsUserLang == Some(m) && n.symptomsEn == Some(m)
    ensures n.language == s.language && n.langCode == s.langCode
    ensures n.userId == s.userId && n.sessionStart == s.sessionStart && |n.history| == |s.history| + 2
  {
    assert t.heard == m;
  }

  /**
   * In an English session the allergies turn stores the message, asks the
   * model to assess the stored symptoms with these allergies, keeps its
   * answer and moves on to general_qna.
   */
  lemma EnglishAllergies(s: Session, n: Session, m: string, t: TurnRecord, oracle: Oracle, enabled: bool, ttl: int, now: int, freshId: string)
    requires s.stage == AskAllergies && s.langCode == Some("en")
    requires TurnOf(s, n, m, t, oracle, enabled, ttl, now, freshId)
    ensures n.stage == GeneralQna && n.allergiesUserLang == Some(m) && n.allergiesEn == Some(m)
    ensures n.drugConceptFullEn.Some? && AnsweredWith(oracle, Assessment(Show(s.symptomsEn), m), n.drugConceptFullEn.value)
    ensures n.language == s.language && n.langCode == s.langCode
    ensures n.symptomsUserLang == s.symptomsUserLang && n.symptomsEn == s.symptomsEn
    ensures n.userId == s.userId && n.sessionStart == s.sessionStart && |n.history| == |s.history| + 2
  {
    assert t.heard == m;
    assert RequestOf(s, t.heard) == Assessment(Show(s.symptomsEn), m);
  }

  /**
   * The opening of a session in English, such as "English", "I have a
   * headache", "none": the three turns store the language, the symptoms and
   * the allergies as typed, ask the model for an assessment of exactly those
   * answers, store it, and end in general_qna. Each turn comes at its own
   * time (`now1`, `now2`, `now3`) with its own spare session id.
   */
  lemma EnglishOpening(oracle: Oracle, enabled: bool, ttl: int, userId: string, start: int,
                       now1: int, now2: int, now3: int, id1: string, id2: string, id3: string,
                       symptoms: string, allergies: string, s1: Session, s2: Session, s3: Session,
                       t1: TurnRecord, t2: TurnRecord, t3: TurnRecord)
    requires TurnOf(InitialSession(userId, start), s1, "English", t1, oracle, enabled, ttl, now1, id1)
    requires TurnOf(s1, s2, symptoms, t2, oracle, enabled, ttl, now2, id2)
    requires TurnOf(s2, s3, allergies, t3, oracle, enabled, ttl, now3, id3)
    ensures s3.stage == GeneralQna && s3.language == Some("English") && s3.langCode == Some("en")
    ensures s3.symptomsUserLang == Some(symptoms) && s3.symptomsEn == Some(symptoms)
    ensures s3.allergiesUserLang == Some(allergies) && s3.allergiesEn == Some(allergies)
    ensures s3.drugConceptFullEn.Some? && AnsweredWith(oracle, Assessment(symptoms, allergies), s3.drugConceptFullEn.value)
    ensures s3.userId == userId && s3.sessionStart == start && |s3.history| == 6
  {
    var s0 := InitialSession(userId, start);
    assert s0.stage == AskLanguage && s0.langCode.None?;
    ChoosingEnglish(s0, s1, t1, oracle, enabled, ttl, now1, id1);
    assert s1.stage == AskSymptoms && s1.langCode == Some("en");
    EnglishSymptoms(s1, s2, symptoms, t2, oracle, enabled, ttl, now2, id2);
    assert s2.stage == AskAllergies && s2.langCode == Some("en") && Show(s2.symptomsEn) == symptoms;
    EnglishAllergies(s2, s3, allergies, t3, oracle, enabled, ttl, now3, id3);
  }

  /**
   * What the rebuild of the summaries reads and translates: the sections of
   * the stored assessment, the translated sections (`bodies` over the cache
   * states `bs`) and the translated headings (`titles` over `hs`).
   */
  datatype Rebuilt = Rebuilt(sections: Report.Sections, bodies: seq<string>, bs: seq<map<string, Entry>>,
                             titles: seq<string>, hs: seq<map<string, Entry>>)

  /** Nothing rebuilt: what a turn without the rebuild reports. */
  const NothingRebuilt := Rebuilt(Report.Sections("", "", "", ""), [], [], [], [])

  /**
   * The summaries rebuilt from the stored answers and `assessment`
   * (app_production.py:649-683): the English one in bold layout over the
   * English answers and the sections read from the assessment, the
   * translated one in bold layout over the translated headings, the answers
   * as typed and the translated sections. The sections are translated first,
   * then the headings, taking the cache from `before` to `after`.
   */
  ghost predicate RebuiltSummaries(symptomsEn: string, allergiesEn: string, symptomsTyped: string, allergiesTyped: string,
                                   assessment: string, english: string, translated: string, r: Rebuilt, p: Pass,
                                   before: map<string, Entry>, after: map<string, Entry>) {
    && SectionsOf(assessment, r.sections)
    && english == Layout(Bold, LaterTurnHeadings, Bodies(symptomsEn, allergiesEn, r.sections))
    && LaysOut(Bold, translated, r.titles, [symptomsTyped, allergiesTyped], r.bodies)
    && TranslatedRun(p, SectionTexts(r.sections), r.bodies, r.bs)
    && TranslatedRun(p, LaterTurnHeadings, r.titles, r.hs)
    && r.bs[0] == before && r.bs[4] == r.hs[0] && r.hs[6] == after
  }

  /**
   * What `RebuiltSummaries` says of the two summaries, with the sections
   * written as the searches of `Report.Extract` find them in the assessment.
   */
  lemma RebuiltSummariesRead(symptomsEn: string, allergiesEn: string, symptomsTyped: string, allergiesTyped: string,
                             assessment: string, english: string, translated: string, r: Rebuilt, p: Pass,
                             before: map<string, Entry>, after: map<string, Entry>)
    requires RebuiltSummaries(symptomsEn, allergiesEn, symptomsTyped, allergiesTyped, assessment, english, translated, r, p, before, after)
    ensures english == Layout(Bold, LaterTurnHeadings, Bodies(symptomsEn, allergiesEn, Report.Extract(assessment)))
    ensures !StartsWithHashes(translated)
    ensures TranslatedRun(p, SectionTexts(Report.Extract(assessment)), r.bodies, r.bs)
  {
    assert Report.Extract(assessment) == r.sections;
    SummaryPrefix(Bold, r.titles, [symptomsTyped, allergiesTyped] + r.bodies);
  }

  /**
   * The summaries at the end of a turn (app_production.py:649-683): rebuilt
   * from the stored assessment when there is one, unless the turn itself
   * wrote the `###` summary; otherwise kept as they are.
   */
  method Rebuild(st: ChatState, cache: TtlCache, generate: string -> Reply, now: int, english: string, translated: string)
    returns (english': string, translated': string, ghost r: Rebuilt)
    modifies cache
    ensures IsSet(st.drugConceptFullEn) && !StartsWithHashes(translated) ==>
      && RebuiltSummaries(Show(st.symptomsEn), Show(st.allergiesEn), Show(st.symptomsUserLang), Show(st.allergiesUserLang),
                          st.drugConceptFullEn.value, english', translated', r,
                          Pass(cache.enabled, cache.defaultTtl, generate, "en", Show(st.langCode), None, now),
                          old(cache.entries), cache.entries)
      && !StartsWithHashes(translated')
    ensures !(IsSet(st.drugConceptFullEn) && !StartsWithHashes(translated)) ==>
      english' == english && translated' == translated && cache.entries == old(cache.entries)
  {
    english', translated', r := english, translated, NothingRebuilt;
    if IsSet(st.drugConceptFullEn) && !StartsWithHashes(translated) {
      ghost var titles, bodies, bs, hs;
      english', translated', titles, bodies, bs, hs :=
        LaterTurnSummaries(cache, generate, Show(st.langCode), now, Show(st.symptomsEn), Show(st.allergiesEn),
                           Show(st.symptomsUserLang), Show(st.allergiesUserLang), st.drugConceptFullEn.value);
      r := Rebuilt(Report.Extract(st.drugConceptFullEn.value), bodies, bs, titles, hs);
    }
  }

  /**
   * An admitted, sanitised, non-empty message `m` (app_production.py:432-686):
   * it gets a row of its own whose bot side is the stage's reply
   * (`Exchange`), and the summaries are rebuilt after the diagnosis (`Rebuild`).
   */
  method Admit(st: ChatState, transcript: Transcript, cache: TtlCache, oracle: Oracle, m: string, now: int, freshId: string)
    returns (english: string, translated: string, next: ChatState, ghost t: TurnRecord, ghost r: Rebuilt)
    requires IsStripped(m)
    modifies st, transcript, cache
    ensures old(st.Valid()) ==> next.Valid()
    ensures transcript.rows == old(transcript.rows) + [Row(m, t.bot)]
    ensures next.stage == StageAfter(old(st.stage), m, old(st.langCode))
    ensures next != st <==> StartsOver(old(st.stage), old(st.langCode))
    ensures next != st ==> fresh(next) && unchanged(st)
    ensures t.before == old(cache.entries)
    ensures TurnOf(old(st.Snapshot()), next.Snapshot(), m, t, oracle, cache.enabled, cache.defaultTtl, now, freshId)
    ensures WritesSummaries(old(st.stage), old(st.langCode)) ==>
      && StartsWithHashes(translated) && next.translatedSummary == Some(translated)
      && DiagnosisWritten(Show(old(st.symptomsEn)), Show(old(st.symptomsUserLang)), m, t.heard, t.answer, english, translated, t.states, t.written,
                          Pass(cache.enabled, cache.defaultTtl, oracle.generate, "en", Show(old(st.langCode)), None, now), t.heardCache, t.after)
    ensures !WritesSummaries(old(st.stage), old(st.langCode)) && !IsSet(next.drugConceptFullEn) ==>
      english == EnglishPlaceholder && translated == TranslatedPlaceholder
    ensures WritesSummaries(old(st.stage), old(st.langCode)) || !IsSet(next.drugConceptFullEn) ==> cache.entries == t.after
    ensures !WritesSummaries(old(st.stage), old(st.langCode)) && IsSet(next.drugConceptFullEn) ==>
      && RebuiltSummaries(Show(next.symptomsEn), Show(next.allergiesEn), Show(next.symptomsUserLang), Show(next.allergiesUserLang),
                            next.drugConceptFullEn.value, english, translated, r,
                            Pass(cache.enabled, cache.defaultTtl, oracle.generate, "en", Show(next.langCode), None, now),
                            t.after, cache.entries)
      && !StartsWithHashes(translated)
  {
    transcript.Append(Row(m, ""));
    var reply;
    english, translated, next, reply, t := Exchange(st, transcript, cache, oracle, m, now, freshId);
    PlaceholderLacksHashes();
    english, translated, r := Rebuild(next, cache, oracle.generate, now, english, translated);
  }

  /**
   * `process_chat(message, history, state)` (app_production.py:408-686): the
   * message is sanitised; an empty one changes nothing. A message the rate
   * limiter refuses replaces the newest row with the rate-limit notice. Any
   * other message is answered (`Admit`).
   */
  method ProcessChat(st: ChatState, transcript: Transcript, limiter: RateLimiter, cache: TtlCache, oracle: Oracle,
                     maxLen: int, message: string, now: int, freshId: string)
    returns (english: string, translated: string, next: ChatState, ghost m: string, ghost admitted: bool,
             ghost t: TurnRecord, ghost r: Rebuilt)
    requires limiter.Valid()
    modifies st, transcript, limiter, cache
    ensures SanitisedAs(message, maxLen, m)
    ensures limiter.Valid() && (old(st.Valid()) ==> next.Valid())
    ensures m == "" ==> next == st && english == "" && translated == "" && unchanged(st, transcript, limiter, cache)
    ensures m != "" ==>
      admitted == (!limiter.enabled || RateLimit.Step(old(limiter.WindowOf(st.userId)), now, limiter.perMinute, limiter.perHour).admitted)
    ensures m != "" && !limiter.enabled ==> limiter.store == old(limiter.store)
    ensures m != "" && limiter.enabled ==>
      limiter.store == old(limiter.store)[old(st.userId) :=
                                          RateLimit.Step(old(limiter.WindowOf(st.userId)), now, limiter.perMinute, limiter.perHour).window]
    ensures m != "" && !admitted ==>
      && next == st && english == "" && translated == "" && unchanged(st, cache)
      && transcript.rows == (if old(transcript.rows) == [] then [] else old(transcript.rows)[..|old(transcript.rows)| - 1])
                            + [Row(m, RateLimitMessage)]
    ensures m != "" && admitted ==>
      && transcript.rows == old(transcript.rows) + [Row(m, t.bot)]
      && next.stage == StageAfter(old(st.stage), m, old(st.langCode))
      && (next != st <==> StartsOver(old(st.stage), old(st.langCode)))
      && (next != st ==> fresh(next) && unchanged(st))
      && t.before == old(cache.entries)
      && TurnOf(old(st.Snapshot()), next.Snapshot(), m, t, oracle, cache.enabled, cache.defaultTtl, now, freshId)
    ensures m != "" && admitted && WritesSummaries(old(st.stage), old(st.langCode)) ==>
      && StartsWithHashes(translated) && next.translatedSummary == Some(translated)
      && DiagnosisWritten(Show(old(st.symptomsEn)), Show(old(st.symptomsUserLang)), m, t.heard, t.answer, english, translated, t.states, t.written,
                          Pass(cache.enabled, cache.defaultTtl, oracle.generate, "en", Show(old(st.langCode)), None, now), t.heardCache, t.after)
    ensures m != "" && admitted && !WritesSummaries(old(st.stage), old(st.langCode)) && !IsSet(next.drugConceptFullEn) ==>
      english == EnglishPlaceholder && translated == TranslatedPlaceholder
    ensures m != "" && admitted && (WritesSummaries(old(st.stage), old(st.langCode)) || !IsSet(next.drugConceptFullEn)) ==>
      cache.entries == t.after
    ensures m != "" && admitted && !WritesSummaries(old(st.stage), old(st.langCode)) && IsSet(next.drugConceptFullEn) ==>
      && RebuiltSummaries(Show(next.symptomsEn), Show(next.allergiesEn), Show(next.symptomsUserLang), Show(next.allergiesUserLang),
                            next.drugConceptFullEn.value, english, translated, r,
                            Pass(cache.enabled, cache.defaultTtl, oracle.generate, "en", Show(next.langCode), None, now),
                            t.after, cache.entries)
      && !StartsWithHashes(translated)
  {
    var text := SanitizeInput(message, maxLen);
    m := text;
    next, admitted := st, false;
    t := TurnRecord("", [], cache.entries, cache.entries, cache.entries, "", "", "", [], [], NothingWritten);
    r := NothingRebuilt;
    if text == "" {
      english, translated := "", "";
      return;
    }
    var ok := limiter.Check(st.userId, now);
    admitted := ok;
    if !ok {
      transcript.ReplaceLast(Row(text, RateLimitMessage));
      english, translated := "", "";
      return;
    }
    english, translated, next, t, r := Admit(st, transcript, cache, oracle, text, now, freshId);
  }
}
