# PharmaGEN consultation core in Dafny

PharmaGEN is a chat application. It asks the patient for a language, their
symptoms and their allergies. It then asks a language model for an assessment
and answers follow-up questions, translating every exchange into the
patient's language. This project models the deterministic layer of
`app_production.py` that sits around the model, and the configuration check
of `config.py`. It proves properties of each part:

- **Configuration** (`config.dfy`): the start-up validation `Config.validate` and
  the rule that turns an environment string into a boolean flag.
- **Rate limiting** (`rate_limit.dfy`): the in-memory sliding-window limiter
  `check_rate_limit`. It is a class over the per-user store of minute and hour
  time stamps, specified by a pure decision function `Step`.
- **Cache** (`cache.dfy`): the in-memory TTL cache `get_cache` / `set_cache`, as
  a class over the map of `(value, expiry)` entries, and the translation key
  `cache_key`.
- **Model gateway** (`gateway.dfy`): `gemini_translate` and
  `get_gemini_response`.
  - `gemini_translate` covers the blank-text and cache short-circuits, code
    normalisation, the same-language pass-through, first-line clean-up,
    caching, and failure pass-through.
  - `get_gemini_response` covers the history filter and the four-way error
    classification.
  - The model is an oracle: a function from a prompt to an answer text or a
    raised error.
- **Assessment extraction and summaries** (`report.dfy`, `summary.dfy`): the four
  case-insensitive, dot-all label searches that cut the model's assessment
  into sections, and the two Markdown summaries. Both are modelled in their
  diagnosis-turn form and in their rebuilt form for later turns.
- **The dialogue** (`chat.dfy`): `sanitize_input`, `initialize_chat_state` and
  `process_chat`.
  - The session state and the on-screen history are classes whose methods
    update their fields in place.
  - The stages are ask_language, ask_symptoms, ask_allergies,
    generate_response and general_qna.
  - Every series of translations in a turn is tied, call by call, to the
    cache contents before and after it.
- **Python string behaviour** (`text.dfy`, `languages.dfy`, `sorting.dfy`): the
  supporting definitions the rest relies on.
  - `strip()` with Python's whitespace set, `s[:n]` slicing, and ASCII
    `lower()` / `title()`.
  - Substring and case-insensitive search, and `", ".join`.
  - The `LANG_CODES` table and `sorted()` of its names.

The clock (`time.time()`) is a parameter `now` in whole seconds, and one
value of it is used for a whole turn. The model and the MD5 hashes are
abstracted as described under "Left out".

## Model

| member | source | states |
|---|---|---|
| Config.FlagSpellings | config.py:20-32 | A flag is on exactly when its value (or its default) is "true" in any mix of upper and lower case; "1", "yes" and "on" leave it off |
| Config.DefaultFlags | config.py:20-32 | With nothing set in the environment, rate limiting and the cache are on and Redis is off |
| Config.Validate | config.py:75-89 | The missing-key message appears iff the key is empty. The per-minute message appears iff that limit is <= 0. The port message appears iff the port is < 1 or > 65535, so 1 and 65535 pass. No other message appears, the order is key, rate, port, there are at most three, and the list is empty iff all three conditions hold |
| Config.DefaultsLackOnlyTheKey | config.py:14-37 | Validated with all defaults, the settings fail only for the missing API key |
| RateLimit.Recent | app_production.py:103-108 | The filtered list keeps every stamp younger than the span as often as it occurs, and no other stamp. It keeps all of them when all are recent and none when all are old |
| RateLimit.Step | app_production.py:99-121 | A call is admitted iff both filtered lists are below their limits. A denied call leaves exactly the filtered lists and records nothing. An admitted call leaves the filtered lists with `now` appended to each. Each list stays within its ceiling |
| RateLimit.QuietMinuteFreesTheMinuteWindow | app_production.py:103-121 | Once every minute stamp is a minute old, a call is admitted provided the hour window still has room |
| RateLimit.BurstWithinAMinute | app_production.py:99-121 | For calls within one minute of stamps no earlier than its start, call i is admitted iff the stamps held plus i stay below both limits |
| RateLimit.ExactlyCeilingAdmitted | app_production.py:99-121 | A new user's calls within one minute: exactly the first min(per-minute, per-hour) are admitted and every later one is denied |
| RateLimit.RateLimiter.constructor | app_production.py:48 | The store starts empty, and no list exceeds its ceiling |
| RateLimit.RateLimiter.Check | app_production.py:68-121 | Disabled: admits and leaves the store unchanged. Enabled: the answer and the user's new window are those of `Step` on the old window (an unknown user starts empty), and other users are untouched. The ceiling invariant is preserved |
| Cache.Lookup | app_production.py:135-142 | A read returns the stored value iff the key is present and not yet expired |
| Cache.AfterLookup | app_production.py:135-142 | A read removes the key iff it is expired, and leaves every other key as it was |
| Cache.WriteThenRead | app_production.py:124-159 | A value written with TTL `ttl` at time t is read back at t' iff t' < t + ttl; from then on the read returns nothing and deletes the key |
| Cache.WriteLeavesOtherKeys | app_production.py:144-159 | A write does not change what any other key reads |
| Cache.CacheKeyInjective | app_production.py:161-164 | For codes without ':', equal keys mean equal text, source code and target code |
| Cache.TtlCache.constructor | app_production.py:47 | The cache starts empty with its switch and default TTL |
| Cache.TtlCache.Get | app_production.py:124-142 | Disabled: returns nothing and changes nothing. Enabled: returns the unexpired value and evicts the key only when it is expired |
| Cache.TtlCache.Set | app_production.py:144-159 | Disabled: changes nothing. Enabled: stores the value under the key with expiry now + ttl, where a missing ttl means the default TTL |
| Gateway.SourceCode | app_production.py:210 | A code of the table is kept as the source; any other value becomes "auto" |
| Gateway.TargetCode | app_production.py:211 | A code of the table is kept as the target; any other value becomes "en" |
| Gateway.BeforeNewline | app_production.py:248 | `split('\n')[0]` is a prefix without a newline that ends at the first newline, and is the whole text when there is none |
| Gateway.FirstLine | app_production.py:243-248 | The cleaned answer is stripped and has no newline. It is the stripped answer when that is a single line, and otherwise the stripped first line of the stripped answer |
| Gateway.Translated | app_production.py:196-254 | Blank text gives "" with no write. A non-empty cache hit is returned with no write. Anything written is what is returned: one stripped line. Without a write, the result is the input, "" or the cached value |
| Gateway.Requested | app_production.py:210-254 | After a miss, a write happens only for a model answer, and a result without a write is the input text |
| Gateway.SameCodeIsPassthrough | app_production.py:210-214 | A known source code equal to the effective target returns the text unchanged and writes nothing |
| Gateway.FailureIsPassthrough | app_production.py:235-254 | A model call that raises returns the input unchanged and writes nothing |
| Gateway.SuccessIsCachedFirstLine | app_production.py:235-251 | A successful call returns the first line of the stripped answer and caches exactly that |
| Gateway.ShortCircuitsIgnoreTheModel | app_production.py:201-214 | Blank text, a cache hit and a same-language request give the same outcome whatever the model would answer |
| Gateway.SameLanguageIsIdentity | app_production.py:201-214 | Translating from a known code to itself returns the text ("" if blank) when the cache holds nothing usable |
| Gateway.ReadsOnlyItsKey | app_production.py:204-208 | A translation's result depends on the cache only through the entry under its own key |
| Gateway.EntriesAfter | app_production.py:204-250 | A translation changes no cache key but its own |
| Gateway.CachedAnswerIsReused | app_production.py:204-250 | A non-empty answer the model gave is served from the cache for the same request until its TTL runs out, whatever the model would say then |
| Gateway.EmptyAnswerIsNotReused | app_production.py:204-250 | An empty answer is cached, but the truthiness test treats it as a miss, so the next request behaves as if the cache were empty |
| Gateway.OtherKeysReadAlike | app_production.py:204-250 | A translation does not change what a request with another key returns |
| Gateway.Translate | app_production.py:196-254 | `gemini_translate` on the cache object: its result and the new cache entries are those of the specification above at the cache contents it started from |
| Gateway.ErrorPersists | app_production.py:262-269 | Once the history filter raises on a prefix, the whole filter raises the same error |
| Gateway.RecordedTurnsPassThrough | app_production.py:262-269 | Turns recorded as `{"role", "parts": [{"text"}]}` dicts pass the filter unchanged |
| Gateway.FormatHistory | app_production.py:262-269 | The loop builds the filtered history, or the first IndexError, KeyError or TypeError (a first part that is not a dict), exactly as the recursive definition does |
| Gateway.Classify | app_production.py:283-292 | Each of the four categories holds iff its substring test holds and the earlier tests fail, on the lower-cased error text |
| Gateway.GenerateReadsAsRateLimit | app_production.py:287-288 | An error mentioning "generate" and nothing about the key is reported as a rate limit |
| Gateway.Respond | app_production.py:256-292 | A filter error gives its category's message. An empty history uses single-shot generation and a non-empty one the chat session. A raised error becomes its category's message |
| Text.Strip | app_production.py:193 | `strip()` leaves neither end whitespace and never lengthens the text |
| Text.StripKeepsInner | app_production.py:193 | `strip()` keeps only characters of its input, and gives "" exactly when the input is all whitespace |
| Text.StripIdempotent | app_production.py:193 | Stripping twice is stripping once |
| Text.SliceTo | app_production.py:192 | `s[:n]` is a prefix of length min(n, len) for n >= 0, and drops -n characters from the end for n < 0 |
| Text.TitleMatchesIgnoringCase | app_production.py:444-446 | For a capitalised word w, `title()` gives w exactly when the text spells w in any case |
| Text.FindIgnoringCase | app_production.py:557-564 | The search returns the first index at which the pattern matches ignoring case, and nothing iff it matches nowhere |
| Text.FindsFirstMatch | app_production.py:557-564 | The search finds a match that no earlier index has |
| Languages.CodeOf | app_production.py:60-65 | A name of the table maps to a code of the table, paired with it |
| Languages.Lookup | app_production.py:446-448 | `name in LANG_CODES` holds iff the lookup succeeds, and it yields that name's code |
| Languages.NameOfFinds | app_production.py:216-220 | The reverse lookup gives a name paired with a known code, and the code itself when the code is unknown |
| Languages.TableIsInjective | app_production.py:60-65 | No two entries share a name or a code |
| Languages.NameCodeRoundTrip | app_production.py:60-65 | Mapping a name to its code and back gives the name |
| Languages.TitleSelectsIgnoringCase | app_production.py:444-446 | The title-cased message is a name of the table iff the message spells one of the names in any case |
| Languages.SortedNamesAreTheNames | app_production.py:469 | The listed names are exactly the table's names, each once |
| Languages.SortedKeys | app_production.py:469 | `sorted(LANG_CODES.keys())` is the fixed alphabetical list shown to the user |
| Sorting.Sort | app_production.py:469 | `sorted()` returns an ordered permutation of its input |
| Sorting.SortIsTheOrderedArrangement | app_production.py:469 | Any ordered permutation of the input is the sort's result |
| Report.FirstStopStops | app_production.py:557-562 | The lazy group ends at the first position where a later label or `$` matches, and nowhere earlier |
| Report.ShortestAfterMisses | app_production.py:557-566 | A label search finds nothing iff the label occurs nowhere, in any case |
| Report.RestAfter | app_production.py:563-569 | The last search fails iff its label is absent, and otherwise gives stripped text |
| Report.Extract | app_production.py:557-569 | Each of the four fields is "Not found" or stripped text |
| Report.NoLabelsNothingFound | app_production.py:557-569 | An answer mentioning no label, such as an error message, yields "Not found" four times |
| Report.ReadsBackDiagnosis | app_production.py:557-558 | In the layout the prompt asks for, the diagnosis search yields the diagnosis text |
| Report.ReadsBackDrug | app_production.py:559-560 | In that layout, the drug search yields the drug text |
| Report.ReadsBackDosage | app_production.py:561-562 | In that layout, the dosage search yields the dosage text |
| Report.ReadsBackLast | app_production.py:563-564 | In that layout, the safety search yields the safety text |
| Report.FormatThenExtract | app_production.py:523-569 | An assessment written in the requested layout, with stripped bodies that mention no label, reads back as exactly its four sections |
| Report.SafetyNowhere | app_production.py:563-564 | The layout without its safety section mentions the safety label nowhere |
| Report.ShortReadsBackDosage | app_production.py:561-562 | Without a safety section, the dosage search runs to the end of the text and yields the dosage text |
| Report.SafetyNotFound | app_production.py:563-564 | Without a safety section, the safety search finds nothing |
| Report.MissingSafetyNotFound | app_production.py:557-569 | An assessment in the requested layout whose safety section is missing yields its diagnosis, drug and dosage texts, and "Not found" for the safety note |
| Summary.LayoutOrder | app_production.py:577-607 | Entry i of a summary comes after entries 0..i-1 and before the rest, so the six sections appear in their fixed order |
| Summary.SummaryPrefix | app_production.py:602-607 | A summary with `###` headings starts with "###" and a bold one never does, which decides whether a later turn rebuilds it |
| Chat.Sanitize | app_production.py:188-194 | The result is stripped and is "" for "". It is no longer than the limit and equals `strip(text[:limit])` |
| Chat.SanitizeIdempotent | app_production.py:188-194 | Sanitising twice is sanitising once |
| Chat.SanitizedIsNotBlank | app_production.py:479-481 | A sanitised non-empty message is not blank, so the `not message.strip()` branch of the symptoms stage is unreachable |
| Chat.Consult | app_production.py:544 | The dialogue asks the model without history: the answer is what `get_gemini_response` gives for the request's prompt alone |
| Chat.TranslateStep | app_production.py:592-595 | A text equal to the skip value ("Not found") passes through with no cache change; any other is translated as `gemini_translate` specifies |
| Chat.TranslateSteps | app_production.py:584-595 | Each call of a series of translations does its step on the cache left by the call before |
| Chat.TranslateEach | app_production.py:584-595 | A series of translations forms a run from the starting cache to the final one |
| Chat.StepKeepsOtherKeys | app_production.py:204-250 | One call of a series leaves every key but its own as it was |
| Chat.RunStepKeepsOtherKeys | app_production.py:584-595 | The i-th call of a run leaves every key but its own as it was |
| Chat.EarlierCallsKeepKey | app_production.py:584-595 | Calls that do not use a key leave its entry as it was |
| Chat.TextsHaveTheirOwnKeys | app_production.py:161-164 | Different texts under the same language pair have different cache keys |
| Chat.DistinctTextsReadTheStartingCache | app_production.py:584-595 | When no text repeats, each call of a run gives what it would give on the cache the run started with |
| Chat.DisabledCacheIsBypassed | app_production.py:584-595 | With the cache switched off, every call goes to the model and the entries never change |
| Chat.HearInEnglish | app_production.py:433-435 | The message is translated into English iff the session code is set, not "en", and the message is not blank; otherwise it is used as is and the cache is untouched |
| Chat.ShowWaiting | app_production.py:514-518 | The waiting message is translated and becomes the bot side of the newest row, and nothing else on screen changes |
| Chat.DiagnosisTurnSummaries | app_production.py:557-607 | The English summary has bold headings over the English answers and extracted sections. The translated summary has `###` headings, the typed answers and the translated sections, with "Not found" kept. Headings are translated before the sections, and the summary starts with "###" |
| Chat.LaterTurnSummaries | app_production.py:649-683 | The rebuilt summaries have bold headings with the later labels. Every section, "Not found" included, is translated before the headings, and the translated summary never starts with "###" |
| Chat.StagesMoveForward | app_production.py:443-611 | A turn stays at its stage or moves one stage forward (the allergies turn skips generate_response), or starts over because the code is unset. It never ends in generate_response unless it was there |
| Chat.CodesAreSet | app_production.py:60-65 | Every code of the table is a non-empty string |
| Chat.KnownCodeNeverResets | app_production.py:474-503 | A session whose code comes from the table never starts over |
| Chat.LanguageAcceptedIgnoringCase | app_production.py:443-449 | The language stage moves on exactly when the message spells a table name in any case |
| Chat.Transcript.constructor | app_production.py:425-426 | A missing history starts as an empty list |
| Chat.Transcript.Append | app_production.py:428 | A row is added at the end and the earlier rows are kept |
| Chat.Transcript.SetLastReply | app_production.py:643-644 | Only the bot side of the last row changes |
| Chat.Transcript.ReplaceLast | app_production.py:419-422 | The last row is replaced, or the history becomes that one row when it was empty |
| Chat.ChatState.constructor | app_production.py:391-406 | The fresh state is at ask_language with every answer unset, an empty model history, and the given id and start time. It satisfies the session invariant |
| Chat.ChatState.AcceptLanguage | app_production.py:443-467 | The chosen name and its code are stored and the stage becomes ask_symptoms. The two turns are recorded, and the reply is the translated welcome and symptoms question |
| Chat.ChatState.TakeSymptoms | app_production.py:482-497 | Symptoms are kept as typed and in English, and the stage becomes ask_allergies. The two turns are recorded, the allergies question is translated, and the invariant is preserved |
| Chat.ChatState.RecordAllergies | app_production.py:505-512 | Allergies are kept as typed and in English, the stage becomes generate_response, and the user turn is recorded |
| Chat.ChatState.RecordAssessment | app_production.py:544-555 | The assessment is stored, the stage becomes general_qna, the model turn is recorded, and the reply is its translation |
| Chat.ChatState.KeepSummary | app_production.py:609 | The translated summary is stored and nothing else changes |
| Chat.ChatState.AllergiesTurn | app_production.py:499-609 | The diagnosis turn as a whole: answers are stored, the stage ends at general_qna, and the assessment is the model's answer to the diagnosis prompt. The reply, waiting message, headings and sections are translated in the source's order over one chain of cache states. Both summaries are as specified, and the invariant is preserved |
| Chat.ChatState.Answer | app_production.py:611-641 | The question and the model's answer to the context prompt are recorded, the reply is the answer's translation, and the stage and answers are unchanged |
| Chat.SessionAfter | app_production.py:443-641 | The state after a turn that does not start over follows `StageAfter`. It keeps the user id, the start time and the diagnosis entry, and the recorded history only grows, by at most two turns |
| Chat.LanguageStage | app_production.py:443-472 | A table name in any case is accepted with its code; the new state is `SessionAfter`'s, and the reply is the translated welcome and symptoms question. Anything else is refused with the state and cache untouched |
| Chat.Converse | app_production.py:443-641 | The stage dispatch. An unset code in the symptoms or allergies stage gives a fresh initial state, the start-over message, and no cache change. Otherwise the new state is `SessionAfter`'s, the model answered the stage's request, and the reply is the refusal, nothing on generate_response, or the stage's texts translated. The diagnosis turn writes both summaries as `DiagnosisWritten` states them; other turns give the placeholders |
| Chat.Continue | app_production.py:474-641 | The symptoms, allergies and question stages with a known code leave `SessionAfter`'s state and reply with the stage's texts translated. The allergies stage writes both summaries (`DiagnosisWritten`), other stages the placeholders. They keep the invariant and change only the newest row's reply |
| Chat.SymptomsStage | app_production.py:482-497 | The symptoms stage leaves `SessionAfter`'s state, and its reply is the allergies question translated from the cache as the turn found it |
| Chat.AllergiesStage | app_production.py:499-609 | The allergies stage leaves `SessionAfter`'s state with the model's assessment of the stored symptoms and these allergies, and its reply is that assessment translated. `DiagnosisWritten` holds: the English summary is the bold layout of the stored symptoms, the heard allergies and the sections read from the assessment; the translated one is the `###` layout of the translated headings, the typed answers and the translated sections; the cache runs from the turn's start through the waiting message, the reply, the headings and the sections to its end |
| Chat.DiagnosisSummariesRead | app_production.py:557-607 | Under `DiagnosisWritten`, the English summary is the bold layout over `Report.Extract` of the assessment, the translated one starts with `###`, and its sections are the translations of those extracted sections |
| Chat.RebuiltSummariesRead | app_production.py:649-683 | Under `RebuiltSummaries`, the English summary is the bold layout over the stored answers and `Report.Extract` of the assessment, the translated one has no `###` headings, and its sections are the translations of those extracted sections |
| Chat.QuestionStage | app_production.py:611-641 | The question stage records the question and the model's answer to the context prompt, and replies with the answer translated |
| Chat.PlaceholderLacksHashes | app_production.py:441 | The translated placeholder does not start with "###", so a turn after the diagnosis rebuilds the summaries |
| Chat.Settle | app_production.py:443-646 | The stage's turn (`Dispatched`, and `DiagnosisWritten` on the diagnosis turn) with its reply put on the newest row |
| Chat.Exchange | app_production.py:430-646 | The message is heard in English as `HearInEnglish` specifies, the stage acts on that (`Dispatched`), and the reply becomes the newest row's bot side. On the diagnosis turn the returned summaries are those `DiagnosisWritten` states |
| Chat.Rebuild | app_production.py:648-683 | After the diagnosis, unless the turn wrote a `###` summary, the English summary is rebuilt with the later labels from the stored assessment. Otherwise both summaries and the cache are unchanged |
| Chat.Admit | app_production.py:428-686 | An admitted message gets one new row whose bot side is the reply of the turn it took (`TurnOf`: heard, then dispatched). A start-over gives a fresh state object. The diagnosis turn returns the summaries `DiagnosisWritten` states; a later turn after the diagnosis returns the rebuilt English summary and a translated one without `###`; any other turn the placeholders |
| Chat.ProcessChat | app_production.py:408-686 | An empty sanitised message changes nothing. A denied message replaces the newest row with the rate-limit notice and leaves the state and cache unchanged. An admitted one appends one row whose bot side is the reply of the turn it took (`TurnOf`), from the state and cache as they were, and returns the summaries as `Chat.Admit` states them. For a non-empty message the limiter's store is unchanged when rate limiting is off, and otherwise holds the user's new window from `RateLimit.Step` |
| Chat.ChoosingEnglish | app_production.py:443-467 | In a session without a language, the turn "English" selects English with code "en" and moves to ask_symptoms |
| Chat.EnglishSymptoms | app_production.py:482-497 | In an English session the symptoms turn stores the message as typed and as heard, and moves to ask_allergies |
| Chat.EnglishAllergies | app_production.py:504-609 | In an English session the allergies turn stores the message, keeps the model's assessment of the stored symptoms with these allergies, and moves to general_qna |
| Chat.EnglishOpening | app_production.py:443-609 | The turns "English", a symptoms message and an allergies message, as `process_chat` takes them at three times of their own, store those answers and the model's assessment of exactly them, and end in general_qna |

## Left out

- Redis (app_production.py:29-44, 77-97, 129-133, 152-157): an external store behind a network client. Its rate limiter is a fixed-window counter, a different rule; only the in-memory paths are modelled.
- The language model: `generate_content` and `start_chat(...).send_message` are the oracle functions `generate` and `chat`. Temperatures, the output token limit and the generation configuration are not modelled.
- MD5: `cache_key` keeps the string it would hash, `text:src:tgt`, so two requests share an entry exactly when that string is equal. The session id derived from the clock's hash (app_production.py:404) is a parameter.
- The clock: `time.time()` is an integer parameter, not a float, and every clock read of a turn (the rate limiter's at app_production.py:73, the cache's at app_production.py:137 and app_production.py:159) is taken as the same value `now`. The time that passes between them, model-call latency included, is not modelled, so an entry that expires during a turn is read as live.
- Case mapping: `lower()`, `title()` and `re.IGNORECASE` are modelled for ASCII letters only; other Unicode case pairs are treated as caseless.
- Config: the environment-string conversions with `int()`/`float()`, dotenv loading, and the settings no core function reads are not modelled; values are taken as already converted.
- PDF generation (app_production.py:294-382), the Gradio interface, start-up and logging are not modelled.
- The exception handler of `process_chat` (app_production.py:688-697) is not modelled: no operation of the model raises.
- The `not message.strip()` branch of the symptoms stage (app_production.py:479-481) is not a branch of the model; `Chat.SanitizedIsNotBlank` shows it cannot be reached.
- Gateway.FailureMessage: the messages are fixed per category and so do not depend on the error text. The stronger wording "no message contains the raw error text" is not stated, because it fails for an empty error text or one that is part of a message.
- Chat.QuestionStage: its reply is stated as the answer's translation, but not from which cache state, since the waiting message is translated first; that step is stated by `Chat.ShowWaiting`.
- A history turn whose `parts` value is not a list (a string or a dict) is not modelled: `parts` is a list, and only its first element may be something other than a dict.
- The state dictionary's `history` rebinding: when `process_chat` receives `None` as history it builds a new list; the model's transcript is an object that always exists.
- `gemini_chat_history_manual` is recorded but never passed to the model by the dialogue (app_production.py:544, 633). `Chat.Consult` calls `Gateway.Respond` with an empty history, so the chat-session branch is reached only through `Gateway.Respond` directly.
