# SmartDocs text cores in Dafny

SmartDocs is a collaborative document editor. Besides the editor itself, it has
a Python text analytics service and a few small pieces of text logic in the
browser and the Node backend. This project models those pieces and proves what
they promise:

- **Text analytics service** (`rag_service.py`), module `RagService`:
  - HTML cleaning.
  - Chunking a text into word runs of bounded weight.
  - Keyword-overlap ranking of chunks, with a stable descending sort (module `Ranking`).
  - Rule-based answers and first/middle/last summaries.
  - The word-frequency table and top-ten list of the analysis route.
  - The input guards of the three routes.
- **Document statistics bar** (`DocumentStats.jsx`), module `DocumentStats`:
  - Character, word and page counts of tag-free content.
  - The "opened for" and "created" time labels.
- **Team chat** (`CollaborationChat.jsx`), module `CollaborationChat`:
  - The relative time label of a message.
  - The `Chat` class, whose `SendMessage` appends a message only when the input is not blank.
- **Autocomplete prompt** (`AIService.js`), module `AIService`:
  - The prompt built from the text before the cursor.
  - The normalisation of the model's reply.
- **Autocomplete hook** (`useAIAutocomplete.js`), module `AIAutocomplete`:
  - A class whose methods are the hook's handlers.
  - The browser's pending timers are a field, and time passing is the `Fire` event.

The shared string machinery lives in module `Text`. It covers:

- character classes;
- Python `str.split()` as `Words`, `' '.join` as `Unwords`, and `re.split` on a character class as `SplitOn`;
- `strip`/`trim`, tag stripping, ASCII lower-casing, and decimal rendering and parsing.

Module `Wrappers` holds `Option` and the millisecond lengths of a minute, an hour and a day.

Three loops of the service are methods whose `ensures` ties them to a specification function:

- `ChunkText` to `Chunks`;
- `FindRelevantContext` to `RelevantContext`;
- `WordFrequency` to `Tally` and `FirstSeen`, the dictionary and its key insertion order.

The properties are lemmas about those functions.

Where the code and its description differ, the model follows the code:

- `generate_answer` falls back to `"Here's what I found: …"` only after the first-sentence rule. That rule always applies, because a split always yields at least one piece. `GenerateAnswer` therefore has no fallback branch.
- The autocomplete hook creates request ids "to handle race conditions". Only the timer callback compares the id, though; `onCompleted` does not. `Completed` takes any reply, and `LateReplyIsShown` shows a stale reply becoming the suggestion while a newer request is still waiting.
- The prompt is the last ten words followed by a space and the last word. That last word is itself among the ten, so the prompt repeats it. `SmartPromptFacts` states this as written.

## Model

| member | source | states |
|---|---|---|
| RagService.CleanHtml | python-rag-service/rag_service.py:16-20 | the value of `clean_html`: tags removed, every whitespace run made one space, the ends stripped; its properties are `CleanHtmlIsWords` and `CleanTextBounds` |
| RagService.CleanHtmlIsWords | python-rag-service/rag_service.py:16-20 | the cleaned text has no whitespace at either end and every whitespace run is one space; it equals the words of the tag-free text joined by single spaces, and has the same words |
| Text.StripTags | python-rag-service/rag_service.py:18 | `re.sub('<[^>]+>', '', s)` and, with the flag off, JavaScript's `replace(/<[^>]*>/g, '')`; its properties are `StripTagsRemovesTags`, `StripTagsNoTag` and `StripTagsSkipsTag` |
| Text.StripTagsRemovesTags | python-rag-service/rag_service.py:18 | after tag stripping no `<` is followed later by a `>`, except an empty `<>`, which only Python's `<[^>]+>` leaves |
| Text.StripTagsNoTag | frontend/src/components/DocumentStats.jsx:15 | text without `<` passes tag stripping unchanged |
| Text.StripTagsKeepsPrefix | python-rag-service/rag_service.py:18 | text before the first `<` is kept as it is, and stripping carries on with the rest |
| Text.StripTagsSkipsTag | python-rag-service/rag_service.py:18 | a tag `<body>` whose body has no `>` (and, for Python's `<[^>]+>`, is not empty) is removed and nothing else: the text before it is kept and the text after it is stripped in turn |
| Text.Collapse | python-rag-service/rag_service.py:19 | `re.sub(r'\s+', ' ', s)`; its contract says every whitespace character left is a plain space not followed by whitespace, and a leading non-space character is kept |
| Text.Words | python-rag-service/rag_service.py:24 | Python's `str.split()`: the maximal runs of non-whitespace; its contract says each is a non-empty word without whitespace |
| Text.SplitOn | python-rag-service/rag_service.py:67 | `re.split` on a character class: the pieces between maximal runs of the class; its contract says there is at least one piece |
| Text.NormalizeIsUnwords | python-rag-service/rag_service.py:19-20 | collapsing whitespace runs and stripping gives a normalised text, namely the words joined by single spaces |
| Text.WordsOfUnwords | python-rag-service/rag_service.py:34 | splitting words joined by single spaces gives back the same words |
| Text.UnwordsOfWords | python-rag-service/rag_service.py:19-20 | a normalised text is the join of its own words |
| Text.JsSplitTrimmed | backend/services/AIService.js:85 | `s.trim().split(/\s+/)` is the words of `s`, or `[""]` when there are none |
| Text.WordsAtMostLength | frontend/src/components/DocumentStats.jsx:17 | a text has no more words than characters |
| Text.ParseIntToString | frontend/src/components/DocumentStats.jsx:39 | a rendered integer parses back to itself |
| RagService.Chunks | python-rag-service/rag_service.py:22-41 | the value of `chunk_text`: the greedy grouping of the words joined by spaces; its properties are `ChunksPartitionWords` and `ChunksOfBlank` |
| RagService.ChunkText | python-rag-service/rag_service.py:22-41 | the loop with its running length and current run returns exactly `Chunks(text, size)` |
| RagService.ChunksPartitionWords | python-rag-service/rag_service.py:22-41 | the words of the chunks, in order, are exactly `text.split()`; no chunk is empty; every chunk but the last reached the size; no proper prefix of a chunk reached it |
| RagService.ChunksOfBlank | python-rag-service/rag_service.py:24-41 | a blank or empty text gives no chunk |
| Ranking.SortDesc | python-rag-service/rag_service.py:54 | the sort returns a non-increasing permutation of its input |
| Ranking.SortDescKeeps | python-rag-service/rag_service.py:54 | the sort is stable: the entries of each key keep their order; key sum and positive count are unchanged |
| Ranking.InsertFacts | python-rag-service/rag_service.py:54 | inserting into a sorted list keeps it sorted and adds exactly that entry, before the entries of equal key (the insertion sort runs from the back, so this keeps the input order) |
| Ranking.TakePositive | python-rag-service/rag_service.py:55 | the first n entries of a sorted list hold min(n, number of positive entries) positive entries |
| Ranking.PrefixKeeps | python-rag-service/rag_service.py:55 | a prefix keeps each key's entries in order and does not raise the key sum or the positive count |
| Ranking.TopOfSort | python-rag-service/rag_service.py:54-55 | the first n entries of the sort are entries of the input; an entry left out has a key no larger than any entry taken, and entries are left out only when n were taken |
| RagService.RelevantContext | python-rag-service/rag_service.py:43-55 | the value of `find_relevant_context`: the positive-scored chunks among the first `top_k` of the stable sort; its properties are `RelevantContextFacts` and the lemmas it gathers |
| RagService.FindRelevantContext | python-rag-service/rag_service.py:43-55 | the scoring loop, the sort and the filter return exactly `RelevantContext(text, query, top_k)` |
| RagService.RankedCount | python-rag-service/rag_service.py:54-55 | as many chunks are returned as there are chunks with a positive score, capped at `top_k` |
| RagService.RankedOrder | python-rag-service/rag_service.py:48-55 | every returned chunk is a chunk of the text with a positive score, in non-increasing score order |
| RagService.RankedTop | python-rag-service/rag_service.py:43-55 | the chunks returned are the most relevant: a chunk of the text that scores higher than a returned chunk is returned too, and when fewer than `top_k` come back every chunk with a positive score is among them |
| RagService.RankedStable | python-rag-service/rag_service.py:54-55 | returned chunks of equal score appear in their order in the text |
| RagService.RelevantContextFacts | python-rag-service/rag_service.py:43-55 | all of the above for the chunks of the text at size 500: at most `top_k` results, as many as there are positive-scored chunks up to `top_k`, each positive, best first, no omitted chunk outscoring a returned one, ties in text order |
| RagService.RelevantSentences | python-rag-service/rag_service.py:68 | every kept sentence is the stripped form of a sentence whose lower-case form contains one of the question's words; the converse is `RelevantKeepsAll` |
| RagService.RelevantKeepsAll | python-rag-service/rag_service.py:68 | every sentence that mentions a word of the question is kept, stripped |
| RagService.RelevantFirst | python-rag-service/rag_service.py:68-70 | when sentence j is the first that mentions a question word, the list is non-empty and its first entry is sentence j stripped |
| RagService.RelevantSomeFirst | python-rag-service/rag_service.py:68-69 | a non-empty list means some sentence mentions a question word, and then there is a first one |
| RagService.RelevantSentencesFacts | python-rag-service/rag_service.py:68-70 | no longer than the sentences; every mentioning sentence kept; non-empty exactly when some sentence mentions a question word; its first entry is the first such sentence, stripped |
| RagService.CountAnswer | python-rag-service/rag_service.py:74 | the word-count answer ends with a full stop |
| RagService.GenerateAnswer | python-rag-service/rag_service.py:57-83 | the value of `generate_answer`, its rules in source order; its properties are `GenerateAnswerFacts` and `GenerateAnswerPeriod` |
| RagService.GenerateAnswerDefine | python-rag-service/rag_service.py:66-70 | a definition question over a non-blank context with a sentence that mentions a question word is answered by the FIRST such sentence, stripped, plus `.` |
| RagService.GenerateAnswerFacts | python-rag-service/rag_service.py:57-83 | empty or blank context gives the fixed message; otherwise the rules apply in priority order: for what/define/meaning, when some sentence mentions a word of the question, the first such sentence; the word count for how many/count/number; the summary for summary/summarize/about; else the first sentence |
| RagService.GenerateAnswerPeriod | python-rag-service/rag_service.py:57-81 | every answer is non-empty and ends with `.` |
| RagService.KeptSentences | python-rag-service/rag_service.py:88 | no more sentences than pieces, and every kept sentence is longer than 20 characters; the converse is `KeptLong` |
| RagService.KeptLong | python-rag-service/rag_service.py:88 | every piece longer than 20 characters once stripped is kept, stripped |
| RagService.KeptFrom | python-rag-service/rag_service.py:88 | every kept sentence is the stripped form of a piece longer than 20 characters |
| RagService.KeptNone | python-rag-service/rag_service.py:88-91 | no sentence is kept exactly when no piece is longer than 20 characters once stripped |
| RagService.KeptSentencesFacts | python-rag-service/rag_service.py:88 | the filter keeps exactly the long pieces, stripped: every long piece kept, nothing else kept, none kept exactly when no piece is long |
| RagService.SummarySelection | python-rag-service/rag_service.py:93-106 | three sentences or fewer are kept whole; of more, exactly the first, the middle (`len // 2`) and the last, at distinct increasing positions |
| RagService.SummarizeText | python-rag-service/rag_service.py:85-106 | the value of `summarize_text`; its properties are `SummarySelection` and `SummarizeTextFacts` |
| RagService.SummaryCases | python-rag-service/rag_service.py:90-106 | the fixed message when no sentence is kept, otherwise the selected sentences joined by spaces plus `.`; always non-empty and ending with `.` |
| RagService.SummarizeTextFacts | python-rag-service/rag_service.py:85-106 | the fixed message when no piece of the split is longer than 20 characters once stripped, otherwise the selected kept sentences joined by spaces plus `.`; always non-empty and ending with `.` |
| RagService.CountedWords | python-rag-service/rag_service.py:184-186 | at most one entry per word of the text, each longer than three characters; what the entries are is `CountedWordsCounts` and `CountedWordsMembers` |
| RagService.Occurrences | python-rag-service/rag_service.py:184-187 | the number of words of the text whose `lower().strip('.,!?;:')` form is a given string; a reference count, without contract |
| RagService.CountedWordsCounts | python-rag-service/rag_service.py:184-187 | each string longer than three characters occurs among the counted words as often as words of the text normalise to it, and no shorter string occurs |
| RagService.CountedWordsIn | python-rag-service/rag_service.py:184-187 | the normalised form of every counted word of the text is among the counted words |
| RagService.CountedWordsFrom | python-rag-service/rag_service.py:184-187 | every counted entry is the normalised form of a counted word of the text |
| RagService.CountedWordsMembers | python-rag-service/rag_service.py:184-187 | both directions together: the counted entries are exactly the normalised forms of the words longer than three characters once normalised |
| RagService.WordFrequency | python-rag-service/rag_service.py:183-187 | the dictionary loop builds exactly `Tally` of the counted words, with its keys in first-insertion order |
| RagService.Tally | python-rag-service/rag_service.py:183-187 | the dictionary `word_freq` after counting the given words; its properties are `TallyCounts` and `TallyTotal` |
| RagService.FirstSeen | python-rag-service/rag_service.py:183-187 | the key order of `word_freq`, first insertion first; its properties are `FirstSeenFacts` |
| RagService.TallyCounts | python-rag-service/rag_service.py:183-187 | the keys of the table are the counted words, each mapped to its number of occurrences (at least one) |
| RagService.FirstSeenFacts | python-rag-service/rag_service.py:183-187 | the key order lists every key of the table exactly once |
| RagService.TallyTotal | python-rag-service/rag_service.py:183-187 | the counts of the table add up to the number of counted words |
| RagService.FrequenciesCounts | python-rag-service/rag_service.py:183-189 | each item of `word_freq.items()` is a word longer than three characters whose count is the number of words of the text that normalise to it; the counts add up to the number of counted words; every counted word of the text has an item, and no two items share a word |
| RagService.TopWords | python-rag-service/rag_service.py:189 | the value of `top_words`: the first ten of the stable descending sort of the items; its properties are `TopWordsFacts` |
| RagService.TopWordsAreTop | python-rag-service/rag_service.py:189 | `top_words` has ten entries, or all of them when fewer words are counted, and no word left out is more frequent than a word kept |
| RagService.TopWordsCounts | python-rag-service/rag_service.py:183-189 | each word kept is longer than three characters and its count is the number of words of the text that normalise to it; the counts kept add up to at most the word count |
| RagService.TopWordsOrder | python-rag-service/rag_service.py:189 | the words kept are sorted by count, and words of equal count keep their first-occurrence order |
| RagService.TopWordsFacts | python-rag-service/rag_service.py:189 | `top_words` has min(10, number of distinct counted words) entries, sorted by count; no word left out is more frequent than one kept; each count the number of words of the text that normalise to its word (at least one); the total is at most the word count; equal counts stay in first-occurrence order |
| RagService.QueryDocument | python-rag-service/rag_service.py:114-134 | status 400 exactly when content or question is missing or empty; otherwise the answer for the top three chunks of the cleaned text, and the first two chunks as context |
| RagService.SummarizeDocument | python-rag-service/rag_service.py:139-163 | status 400 exactly when content is missing or empty; otherwise a summary ending with `.`, with word count ≤ character count ≤ original length |
| RagService.CleanTextBounds | python-rag-service/rag_service.py:148-160 | cleaning never lengthens the text, and the cleaned text has no more words than characters |
| RagService.SentenceCount | python-rag-service/rag_service.py:180-181 | the number of non-blank pieces of the sentence split |
| RagService.AnalyzeDocument | python-rag-service/rag_service.py:168-198 | status 400 exactly when content is missing or empty; otherwise word, sentence and character counts of the cleaned text and its top words (at most ten, sorted, total at most the word count) |
| DocumentStats.Pages | frontend/src/components/DocumentStats.jsx:18 | the page count is at least one, and equals ⌈characters / 3000⌉ when there are characters |
| DocumentStats.WordCount | frontend/src/components/DocumentStats.jsx:17 | the number of non-empty pieces of `trim().split(/\s+/)`; its properties are `WordCountFacts` |
| DocumentStats.WordCountFacts | frontend/src/components/DocumentStats.jsx:17 | the word count is the number of whitespace-separated words; zero exactly for blank text; at most the number of characters |
| DocumentStats.ContentStats | frontend/src/components/DocumentStats.jsx:13-27 | the statistics after the content effect; its properties are `ContentStatsFacts` |
| DocumentStats.ContentStatsFacts | frontend/src/components/DocumentStats.jsx:13-27 | falsy content leaves the stats unchanged; otherwise characters are the length of the tag-free text, words at most characters, the page bounds hold, and the time fields are untouched |
| DocumentStats.OpenedLabel | frontend/src/components/DocumentStats.jsx:31-42 | the "opened for" label of a time difference; its properties are `ParseOpenedLabel` |
| DocumentStats.ParseOpenedLabel | frontend/src/components/DocumentStats.jsx:30-43 | the opened label is `"{m}m"` below an hour and `"{h}h {m mod 60}m"` from an hour on, and reads back as the whole minutes ⌊diff / 60000⌋ |
| DocumentStats.CreatedLabel | frontend/src/components/DocumentStats.jsx:45-62 | the "created" label of a time difference; its properties are `CreatedLabelThresholds` |
| DocumentStats.CreatedLabelThresholds | frontend/src/components/DocumentStats.jsx:45-64 | whole days from a day on, whole hours (1–23) from an hour, whole minutes (1–59) from a minute, and `"Just now"` exactly below a minute |
| DocumentStats.CalculateTime | frontend/src/components/DocumentStats.jsx:29-66 | the statistics after one run of `calculateTime`; its properties are `CalculateTimeFacts` |
| DocumentStats.CalculateTimeFacts | frontend/src/components/DocumentStats.jsx:29-66 | the time update leaves the counts alone, and each label is recomputed only when its timestamp is truthy |
| CollaborationChat.FormatTime | frontend/src/components/CollaborationChat.jsx:47-60 | the relative time label of a message; its properties are `FormatTimeThresholds` |
| CollaborationChat.FormatTimeThresholds | frontend/src/components/CollaborationChat.jsx:47-60 | whole hours from an hour on, whole minutes (1–59) from a minute, and `"Just now"` exactly below a minute, timestamps in the future included |
| CollaborationChat.SenderName | frontend/src/components/CollaborationChat.jsx:37 | the user's name when present and non-empty, else `"You"` |
| CollaborationChat.SenderColor | frontend/src/components/CollaborationChat.jsx:40 | the user's colour when present and non-empty, else `"#34a853"` |
| CollaborationChat.Chat.constructor | frontend/src/components/CollaborationChat.jsx:5-21 | the two seeded messages and an empty input |
| CollaborationChat.Chat.SetNewMessage | frontend/src/components/CollaborationChat.jsx:104 | the input takes the typed value; the messages are unchanged |
| CollaborationChat.Chat.SendMessage | frontend/src/components/CollaborationChat.jsx:32-45 | a blank input changes nothing; otherwise exactly one message is appended, earlier messages are untouched and the input is cleared |
| AIService.BeforeCursor | backend/services/AIService.js:83 | the prefix before the clamped cursor is a prefix of the text, of length equal to the cursor when it is in range |
| AIService.LastN | backend/services/AIService.js:87 | `slice(-n)` is the last min(n, length) elements |
| AIService.PromptIgnoresAfterCursor | backend/services/AIService.js:83 | text after the cursor never changes the prompt |
| AIService.SmartPrompt | backend/services/AIService.js:83-100 | the prompt for the text before the cursor, or none when the call is skipped; its properties are `SmartPromptFacts` |
| AIService.SmartPromptOfWords | backend/services/AIService.js:83-100 | the prompt in terms of `str.split()`-style words: none when there are no words or the last has fewer than two characters, else the last ten words, a space and the last word |
| AIService.SmartPromptGate | backend/services/AIService.js:85-98 | a prompt is made exactly when there are words before the cursor and the last has at least two characters |
| AIService.SmartPromptFacts | backend/services/AIService.js:83-100 | there is a prompt exactly when there are words and the last has at least two characters; the prompt is the last (at most ten) words joined by single spaces, a space and the last word; a blank prefix gives no prompt |
| AIService.Normalize | backend/services/AIService.js:126-139 | a failed or throwing call gives `""`; otherwise the trimmed first generated text, else the trimmed top-level one, else `""`; never padded with whitespace |
| AIService.GenerateSmartSuggestion | backend/services/AIService.js:75-139 | `""` when there is no word before the cursor or the last word has fewer than two characters, whatever the model returns; otherwise the normalised reply; the suggestion is always trimmed, and a failed call gives `""` |
| AIAutocomplete.Cancel | frontend/src/hooks/useAIAutocomplete.js:43 | `clearTimeout` removes exactly the timers with that handle |
| AIAutocomplete.Autocomplete.constructor | frontend/src/hooks/useAIAutocomplete.js:8-11 | no suggestion, not loading, no timer reference, no request id |
| AIAutocomplete.Autocomplete.RequestSuggestion | frontend/src/hooks/useAIAutocomplete.js:33-71 | the previous timer is cancelled, the suggestion is cleared, a fresh request id becomes the latest, and exactly one timer for it is pending |
| AIAutocomplete.Autocomplete.Fire | frontend/src/hooks/useAIAutocomplete.js:55-70 | a firing timer issues the query and sets loading exactly when it is pending and carries the latest id; otherwise no effect |
| AIAutocomplete.Autocomplete.Completed | frontend/src/hooks/useAIAutocomplete.js:15-25 | loading ends; the suggestion is the returned text when the query succeeded with a non-empty one, and `""` otherwise, with no check of the request id |
| AIAutocomplete.Autocomplete.Error | frontend/src/hooks/useAIAutocomplete.js:26-30 | loading ends and the suggestion is cleared |
| AIAutocomplete.Autocomplete.Clear | frontend/src/hooks/useAIAutocomplete.js:73-80 | suggestion cleared, loading off, no timer pending; the latest request id and the timer reference are unchanged |
| AIAutocomplete.Autocomplete.Accept | frontend/src/hooks/useAIAutocomplete.js:82-87 | returns the suggestion held before the call and leaves `""` |
| AIAutocomplete.LateReplyIsShown | frontend/src/hooks/useAIAutocomplete.js:13-71 | a reply to an older request still becomes the suggestion while the newer request's timer is pending |

Every handler of `Autocomplete` keeps `Valid()`. That invariant says:

- at most one timer is pending;
- the pending timer is the one the reference names, and it carries the latest request id.

## Left out

- Operational transform, versioning, presence and the WebSocket relay are done by the `sharedb` and `rich-text` libraries. No code of theirs is in the repository.
- The GraphQL resolvers, Mongoose models and client queries are database and schema plumbing.
- The HTTP layer of the text analytics service is not modelled: Flask routing, JSON bodies, the `timestamp` fields, the health route and the 500 error path. Each route is a member taking its fields as `Option<string>`, where `None` is an absent or null field.
- The Hugging Face call is not modelled. Its outcome is an input, a `Reply` value.
- The backend's axios wrapper of the text service is not modelled.
- `average_word_length` is left out: it is a floating-point value.
- Regular expressions are modelled by character classes:
  - Whitespace is the ASCII set space, tab, line feed, carriage return, vertical tab and form feed. Python and JavaScript also count Unicode spaces. Python's `str.split()` and `\s` also count the ASCII separators U+001C to U+001F, which JavaScript's `\s` does not; the model counts none of the four.
  - Lower-casing covers ASCII letters only.
  - Lengths count characters, not UTF-16 code units.
- `Date.now()`, `new Date()` and the timers are not modelled directly:
  - Timestamps and "now" are integer parameters.
  - The hook's request ids come from a counter, so they are distinct. The source's millisecond ids can repeat within one millisecond.
- Timestamps given as date strings, and their `new Date(…).getTime()` parsing, are left out. Timestamps are numbers, and a falsy one is `None` or `0`.
- The React effects, the one-minute interval, scrolling and rendering are left out. Each update is the function's result or the method's new state.
- The UI components without logic and the dependency-check script `test-server.js` are left out.
- Random colour choice is left out.
- RagService.SummarizeTextFacts: it does not state the converse of the message case. A text whose only kept sentence is the message sentence itself gives the same output as a text with no kept sentence.
- RagService.KeptSentencesFacts: it states which pieces are kept but not that they keep their order; the summary's choice of first, middle and last rests on `KeptSentences` itself.
- RagService.FindRelevantContext: `top_k` is a natural number. The default of three is the only value any caller passes.
- RagService.RelevantSentencesFacts: it states which sentences are kept and which comes first, but not that the later ones keep their order; `generate_answer` uses only the first.
- RagService.ChunksPartitionWords: it does not single out a trailing leftover chunk. The fact that no proper prefix of any chunk reached the size is the form that holds for every chunk.
- AIAutocomplete.Autocomplete.Accept: it returns the current suggestion. The source returns the value its callback captured at the last render, and the two agree once React has re-rendered.
