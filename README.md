# backend_chatbot core, modelled in Dafny

This project models three parts of a retrieval-augmented chatbot backend:

- the **reranker** (`RerankService`);
- the **text chunker** of the PDF service;
- the **Telegram bot's session state machine**.

It proves properties of each model.

- `text.dfy` (modules `Wrappers` and `Text`): Python's `str.strip()`, `str.lower()`/`str.upper()` and the regular-expression class `\w`.
- `rerank.dfy` (module `Rerank`): the rerank service.
  - Four sub-scores:
    - similarity from the vector-store distance;
    - document length;
    - keyword overlap after tokenising and removing stop words;
    - chunk metadata.
  - Their 0.4/0.3/0.2/0.1 weighted sum.
  - Reranking (a stable sort by descending score, then a `top_k` slice).
  - The per-document explanation.
  - `rerank_documents` and `get_rerank_explanation` are methods with loops. Each is proved equal to a specification built from the sub-score functions, and the ranking's properties are proved as lemmas about that specification.
- `chunker.dfy` (module `Chunker`): `split_text_into_chunks`.
  - The window slides over the text.
  - A window that does not reach the end is cut back to its last space, period or newline, if that point lies in the window's second half.
  - Each window is stripped, and empty chunks are dropped.
  - The imperative loop is proved equal to a recursive specification over the sequence of windows.
- `session.dfy` (module `Session`): the session model.
  - `UserState` has exactly the four values NEW, PENDING_OPTIN, ACTIVE and EXITED.
  - `UserSession` is a class with the five fields the handlers assign.
  - `SessionTable` is the in-memory `user_sessions` dictionary from Telegram user id to session object. No session object is shared between two users.
- `bot.dfy` (module `Bot`): the session-changing parts of the handlers `/start`, `/reset`, `/modo`, `/provider`, the inline buttons and plain text messages.
  - Each handler appears twice:
    - as a method that assigns the session objects in place;
    - as a pure transition on the table of session values, which specifies the method.
  - The backend's HTTP answer is a parameter. The request the bot would post and the reply it would send are returned as data.
  - Runs of events are folded with `Run`. Lemmas about runs prove that every session stays well formed, and that an ACTIVE session was activated by a mode button pressed after the user's latest `/start` and latest SALIR.

Python's stable `list.sort` by descending score is modelled as an insertion sort. It orders records by score, descending, and by original position among equal scores. `SortIsStablePermutation` proves it is a permutation with exactly this order. A mode button makes a session ACTIVE from any state, including NEW, EXITED and a session the press itself creates; `ButtonEffects` states this. So a stale button from an earlier conversation skips the ACEPTO opt-in.

## Model

| member | source | states |
|---|---|---|
| Text.Strip | app/services/pdf_service.py:62 | `strip()` removes only whitespace, and only before and after the slice it keeps; the result is empty exactly when the argument is all whitespace, and otherwise starts and ends with non-whitespace |
| Text.StripIdempotent | app/services/pdf_service.py:62 | stripping twice is stripping once |
| Rerank.DistanceToScore | app/services/rerank_service.py:89-96 | the body is the definition, `max(0, 1 - distance/2)`; its facts are in `Rerank.DistanceToScoreRange` and `Rerank.DistanceToScoreAntitone` |
| Rerank.LengthScore | app/services/rerank_service.py:98-115 | the body is the definition of the three length bands; its facts are in `Rerank.LengthScoreRange`, `Rerank.LengthScoreGrowsBelowBand` and `Rerank.LengthScoreShrinksAboveBand` |
| Rerank.DistanceToScoreRange | app/services/rerank_service.py:89-96 | the similarity score is never negative, at most 1 for a non-negative distance, zero exactly from distance 2 on, and at least 1 for a non-positive distance |
| Rerank.DistanceToScoreAntitone | app/services/rerank_service.py:89-96 | a larger distance never gives a larger similarity score |
| Rerank.LengthScoreRange | app/services/rerank_service.py:98-115 | the length score lies in [0, 1], equals 1 exactly inside the 200..1500 band, is at least 0.7 above it and proportional to the length below it |
| Rerank.LengthScoreGrowsBelowBand | app/services/rerank_service.py:107-109 | below the band a longer document never scores lower |
| Rerank.LengthScoreShrinksAboveBand | app/services/rerank_service.py:110-112 | above the band a longer document never scores higher |
| Rerank.WordRuns | app/services/rerank_service.py:151 | the body is the definition of the matches of `\b\w+\b`, left to right; its facts are in `Rerank.WordRunsAreWords`, `Rerank.WordRunsSplit` and `Rerank.RunLength` |
| Rerank.Tokenize | app/services/rerank_service.py:145-152 | the body is the definition: the word matches longer than two characters; its facts are in `Rerank.LongTokensMembers` and `Rerank.TokensAreLongWords` |
| Rerank.Keywords | app/services/rerank_service.py:123-132 | the body is the definition: the set of tokens of the lower-cased text that are not stop words; its facts are in `Rerank.KeywordsAreTokens` |
| Rerank.KeywordOverlapScore | app/services/rerank_service.py:117-143 | the body is the definition; its facts are in `Rerank.OverlapScoreFacts` and `Rerank.KeywordOverlapScoreFacts` |
| Rerank.MetadataScore | app/services/rerank_service.py:154-188 | the body is the definition of the neutral score and the two boosts; its facts are in `Rerank.MetadataScoreRange` and `Rerank.MetadataScoreFavoursEarlyChunks` |
| Rerank.ScoreDocument | app/services/rerank_service.py:44-75 | the body is the definition of one scored record and its 0.4/0.3/0.2/0.1 weighting; its facts are in `Rerank.ScoreDocumentBounds` and `Rerank.CloserNeverScoresLower` |
| Rerank.ScoreAll | app/services/rerank_service.py:41-75 | the body is the definition of the scored list over `zip(documents, distances)`; its facts are in `Rerank.ScoreAllEntries`, and `Rerank.ScoreDocuments` computes it |
| Rerank.Ranked | app/services/rerank_service.py:40-78 | the body is the definition: the scored list, stably sorted by descending score; its facts are in `Rerank.SortIsStablePermutation` and `Rerank.RankedFacts` |
| Rerank.RunLength | app/services/rerank_service.py:151 | the run of word characters at the front of a string is maximal |
| Rerank.WordRunsAreWords | app/services/rerank_service.py:151 | every match of `\b\w+\b` is a non-empty string of word characters |
| Rerank.WordRunsSplit | app/services/rerank_service.py:151 | a non-word character separates the matches: those of `a + [c] + b` are those of `a` followed by those of `b` |
| Rerank.LongTokensMembers | app/services/rerank_service.py:152 | the filter keeps exactly the tokens longer than two characters |
| Rerank.TokensAreLongWords | app/services/rerank_service.py:145-152 | every token is a word of at least three word characters |
| Rerank.ListedIsMembership | app/services/rerank_service.py:127-132 | the stop-word test is membership in the stop-word list |
| Rerank.KeywordsAreTokens | app/services/rerank_service.py:123-132 | a keyword is exactly a token of the lower-cased text that is not a stop word |
| Rerank.OverlapScoreFacts | app/services/rerank_service.py:134-143 | the overlap score is 0.5 for an empty query set; otherwise the fraction of query keywords found, which is 1 exactly when all are found and 0 exactly when none is |
| Rerank.KeywordOverlapScoreFacts | app/services/rerank_service.py:117-143 | the keyword score lies in [0, 1]; it is 0.5 without query keywords and 1 exactly when the document contains every query keyword; a query scores 1 against itself |
| Rerank.MetadataScoreRange | app/services/rerank_service.py:154-188 | the metadata score lies in [0.5, 1]; it is 0.5 without metadata or without the two keys, and above 0.5 with a chunk index; it is 1 exactly when chunk_index < 3 and total_chunks <= 5 |
| Rerank.MetadataScoreFavoursEarlyChunks | app/services/rerank_service.py:169-178 | an earlier chunk index never scores lower |
| Rerank.ScoreDocumentBounds | app/services/rerank_service.py:43-75 | every sub-score is in range, and for a non-negative distance the combined score lies in [0.05, 1] |
| Rerank.CloserNeverScoresLower | app/services/rerank_service.py:43-64 | with everything else equal, a closer document never gets a lower combined score |
| Rerank.ScoreAllEntries | app/services/rerank_service.py:41-75 | one record per pair of `zip(documents, distances)`, the k-th scoring the k-th document at position k |
| Rerank.SortByScore | app/services/rerank_service.py:77-78 | sorting keeps the multiset of records |
| Rerank.SortIsStablePermutation | app/services/rerank_service.py:77-78 | the sorted list is a permutation of the records, non-increasing in score, with equal scores kept in their original order |
| Rerank.RankedFacts | app/services/rerank_service.py:40-78 | the ranking scores every pair exactly once, each entry is the record of its original position, scores do not increase, and ties keep input order |
| Rerank.PrefixSlice | app/services/rerank_service.py:80-81 | `s[:k]` is a prefix of `s`, of length min(k, len s) for k >= 0 and of length max(0, len s + k) for negative k |
| Rerank.ScoreDocuments | app/services/rerank_service.py:41-75 | the scoring loop builds exactly the records of the specification |
| Rerank.RerankDocuments | app/services/rerank_service.py:17-87 | no documents gives three empty lists; otherwise the three lists have the `top_k` slice's length and hold the document, score and metadata of the ranking's leading entries |
| Rerank.Preview | app/services/rerank_service.py:221 | the preview is the document itself up to 100 characters, otherwise its first 100 characters followed by "..." |
| Rerank.GetRerankExplanation | app/services/rerank_service.py:190-232 | the loop produces one explanation per scored pair, in input order |
| Rerank.ExplanationsMatchRanking | app/services/rerank_service.py:203-232 | explanations are in input order, carry each document's length and distance, and give every ranked document the combined score the ranking used |
| Chunker.RFind | app/services/pdf_service.py:53-55 | `rfind` gives the last index of the character, or -1 when it is absent |
| Chunker.CutPoint | app/services/pdf_service.py:53-57 | the cut point lies in [-1, window length); which character it is, is in `Chunker.CutPointIsLastCutChar` |
| Chunker.CutPointIsLastCutChar | app/services/pdf_service.py:53-57 | the cut point is the last space, period or newline of the window, or -1 |
| Chunker.WindowEnd | app/services/pdf_service.py:48-60 | a window ends after its start and at most `chunk_size` characters later |
| Chunker.WindowEndCut | app/services/pdf_service.py:52-60 | a window is shortened exactly when it does not reach the end of the text and its last cut character lies past its middle; it then ends on that character and no cut character follows within the full window |
| Chunker.NextStart | app/services/pdf_service.py:63 | each window starts strictly after the previous one (corrected step, see Findings) |
| Chunker.NextStartIsAsWritten | app/services/pdf_service.py:63 | when 2*overlap <= chunk_size, as with the defaults 1000/200, the corrected step is the source's `end - overlap` |
| Chunker.Windows | app/services/pdf_service.py:47-63 | every window starts inside the text and is non-empty and at most `chunk_size` long |
| Chunker.WindowsChain | app/services/pdf_service.py:45-63 | the windows start at 0, each ends where the cut rule says, each next one starts at the step from the previous, and the last step leaves the text |
| Chunker.WindowsCover | app/services/pdf_service.py:45-63 | with a non-negative overlap, every character of the text lies in some window |
| Chunker.WindowsOverlap | app/services/pdf_service.py:63 | when 2*overlap <= chunk_size, every window after the first starts at the previous window's end minus `overlap`, the source's `end - overlap`; the text slices share fewer characters when the previous window runs past the end of the text, and none when `overlap` is negative |
| Chunker.RawChunks | app/services/pdf_service.py:62 | one collected chunk per window; the entries are in `Chunker.RawChunksEntries` |
| Chunker.RawChunksEntries | app/services/pdf_service.py:62 | the k-th collected chunk is the k-th window, stripped |
| Chunker.NonEmpty | app/services/pdf_service.py:65 | the filter never lengthens the list; which chunks it keeps, how often and in what order is in `Chunker.NonEmptyMembers`, `Chunker.NonEmptyCounts` and `Chunker.NonEmptyAppend` |
| Chunker.NonEmptyMembers | app/services/pdf_service.py:65 | a chunk is in the filtered list exactly when it is a non-empty chunk of the input |
| Chunker.NonEmptyCounts | app/services/pdf_service.py:65 | the filter keeps every non-empty chunk as often as it occurs, repeats included, and drops every empty one |
| Chunker.NonEmptyAppend | app/services/pdf_service.py:65 | the filter keeps the order: filtering a concatenation is concatenating the filtered parts |
| Chunker.NonEmptyKeepsAll | app/services/pdf_service.py:65 | a list without empty chunks passes the filter unchanged |
| Chunker.Chunks | app/services/pdf_service.py:45-65 | the body is the definition: the stripped windows with empty chunks dropped; its facts are in `Chunker.ChunksAreStrippedPieces`, `Chunker.BlankTextHasNoChunks`, `Chunker.ShortTextIsOneChunk` and `Chunker.TailWindowRepeats`, and `Chunker.SplitTextIntoChunks` computes it |
| Chunker.CutWindow | app/services/pdf_service.py:48-60 | one turn of the loop computes the window's end and its text as the specification does |
| Chunker.SplitTextIntoChunks | app/services/pdf_service.py:32-65 | the loop returns exactly the stripped non-empty windows of the specification |
| Chunker.ChunksAreStrippedPieces | app/services/pdf_service.py:47-65 | every chunk is non-empty, at most `chunk_size` long, occurs in the text and has no surrounding whitespace |
| Chunker.BlankTextHasNoChunks | app/services/pdf_service.py:62-65 | an empty or all-whitespace text gives no chunks |
| Chunker.ShortTextIsOneChunk | app/services/pdf_service.py:47-65 | a text that fits in one window, and whose step leaves it, gives exactly its stripped self |
| Chunker.TailChunkRepeats | app/services/pdf_service.py:47-65 | the tail of the last full window comes back as an extra chunk: "abcdefghijklm" with 8/3 gives "abcdefgh", "fghijklm", "klm" |
| Chunker.TailWindowRepeats | app/services/pdf_service.py:47-63 | whenever a window reaches the end of the text and the step from it still lands inside the text, another window follows; both run to the end of the text, so the later one's chunk is a suffix of the earlier one's |
| Chunker.DefaultStepIsAsWritten | app/services/pdf_service.py:32-63 | with the default chunk size 1000 and overlap 200 the corrected step is the source's `end - overlap` from every start |
| Chunker.CorrectedStepDiffers | app/services/pdf_service.py:58-63 | on "aaaaaa " followed by 18 b's, with chunk_size 10 and overlap 7, the first window is cut at 6; the source's step goes to -1 while the corrected step goes to 1 |
| Chunker.AsWrittenStepStalls | app/services/pdf_service.py:58-63 | with chunk_size 10 and overlap 7 the source's step on "aaaaaaaaa bbbbbbbbbbbb" leads from start 0 to start 2 and then from 2 back to 2 |
| Session.DefaultSession | app/telegram/session.py:13-19 | a new session is NEW, in "breve" mode with the "llama" provider, with no history and no sources, and is well formed |
| Session.UserSession.constructor | app/telegram/session.py:13-19 | the constructor sets those defaults on the object's fields |
| Session.SessionTable.constructor | app/telegram/session.py:22-23 | the table starts empty |
| Bot.Start | app/telegram/bot.py:100-105 | the body is the definition of `/start` on the table; its facts are in `Bot.StartOpensOptIn`, and `Bot.CmdStart` computes it |
| Bot.Reset | app/telegram/bot.py:132-137 | the body is the definition of `/reset`; its facts are in `Bot.ResetClears`, and `Bot.CmdReset` computes it |
| Bot.Modo | app/telegram/bot.py:140-147 | the body is the definition of `/modo`; its facts are in `Bot.ModoToggles`, and `Bot.CmdModo` computes it |
| Bot.Provider | app/telegram/bot.py:149-154 | the body is the definition of `/provider`; its facts are in `Bot.ProviderToggles`, and `Bot.CmdProvider` computes it |
| Bot.Pressed | app/telegram/bot.py:164-189 | the body is the definition of one button press on a session; its facts are in `Bot.ButtonEffects`, and `Bot.PressButton` computes it |
| Bot.Button | app/telegram/bot.py:157-196 | the body is the definition of the button handler on the table; its facts are in `Bot.ButtonEffects` and `Bot.ActivationNeedsModeButton`, and `Bot.HandleButtons` computes it |
| Bot.RequestFor | app/telegram/bot.py:242-258 | the body is the definition of the posted endpoint and payload; its facts are in `Bot.BackendOnlyWhenActive` |
| Bot.Absorb | app/telegram/bot.py:279-288 | the body is the definition of how an answer is stored; its facts are in `Bot.ActiveMessageRecordsAnswer`, `Bot.ExchangeKeepsAlternation` and `Bot.AbsorbKeepsWellFormed`, and `Bot.RecordAnswer` computes it |
| Bot.Message | app/telegram/bot.py:199-293 | the body is the definition of the message handler; its facts are in `Bot.SalirExits`, `Bot.InactiveMessageChangesNothing`, `Bot.BackendOnlyWhenActive`, `Bot.ActiveMessageRecordsAnswer` and `Bot.MessageTouchesItsUser`, and `Bot.HandleMessage` computes it |
| Bot.Step | app/telegram/bot.py:100-293 | the body is the definition: one update dispatched to its handler; its facts are in `Bot.StepOnlyTouchesItsUser`, `Bot.StepPreservesWellFormed` and `Bot.DeactivationLeavesActive` |
| Bot.Run | app/telegram/bot.py:72-80 | the body is the definition: updates applied one at a time, in order; its facts are in `Bot.RunPreservesWellFormed` and `Bot.ActiveRunHasModeButton` |
| Bot.Lookup | app/telegram/bot.py:151 | `get(user_id) or UserSession()` yields a known user's stored session and a default session for an unknown user |
| Bot.AnswerOf | app/telegram/bot.py:279 | the answer is never empty: a non-empty "response" if there is one, else a non-empty "answer", else the fixed fallback text |
| Bot.SourcesOf | app/telegram/bot.py:280 | a non-empty "sources" if there is one, else a non-empty "found_documents", else nothing; so the sources are empty exactly when both are missing or empty |
| Bot.CmdStart | app/telegram/bot.py:100-105 | the table becomes `Start` of the old one, and no session object is shared |
| Bot.CmdReset | app/telegram/bot.py:132-137 | the table becomes `Reset` of the old one |
| Bot.SessionFor | app/telegram/bot.py:151-152 | the user's session object is found, or created and stored; no other entry changes |
| Bot.CmdModo | app/telegram/bot.py:140-147 | the table becomes `Modo` of the old one |
| Bot.CmdProvider | app/telegram/bot.py:149-154 | the table becomes `Provider` of the old one |
| Bot.PressButton | app/telegram/bot.py:164-189 | the session object's fields become `Pressed` of their old values |
| Bot.HandleButtons | app/telegram/bot.py:157-196 | the table becomes `Button` of the old one |
| Bot.RecordAnswer | app/telegram/bot.py:282-288 | the session object's fields become `Absorb` of their old values |
| Bot.HandleMessage | app/telegram/bot.py:199-293 | the table, the posted request and the reply are those of `Message` on the old table |
| Bot.StartOpensOptIn | app/telegram/bot.py:100-105 | `/start` replaces any session by a PENDING_OPTIN one with default mode and provider and nothing remembered; a second `/start` changes nothing more |
| Bot.ResetClears | app/telegram/bot.py:132-137 | `/reset` empties history and sources and keeps state, mode and provider; it is idempotent and a no-op for an unknown user |
| Bot.ModoToggles | app/telegram/bot.py:140-147 | `/modo` always changes the mode and only the mode, gives an unknown user a NEW session in "extendido", and applied twice to a well-formed session restores the table |
| Bot.ProviderToggles | app/telegram/bot.py:149-154 | `/provider` always changes the provider and only the provider, gives an unknown user a NEW session using "gemini", and applied twice to a well-formed session restores the table |
| Bot.ButtonEffects | app/telegram/bot.py:157-196 | a provider button sets only the provider; a mode button sets the mode ("modo_breve" gives breve, any other gives extendido) and makes the session ACTIVE from any state; other buttons only store the session |
| Bot.SalirExits | app/telegram/bot.py:201-212 | SALIR, after strip and in any case, moves a known user's session to EXITED from every state, changes nothing else and calls no backend |
| Bot.InactiveMessageChangesNothing | app/telegram/bot.py:204-230 | outside ACTIVE any other text leaves the table unchanged and calls no backend; in NEW or PENDING_OPTIN ACEPTO only brings up the model buttons, and EXITED is asked to choose first |
| Bot.BackendOnlyWhenActive | app/telegram/bot.py:228-258 | a request is posted exactly for a known ACTIVE session and a text other than SALIR; it carries the session's provider and the stripped text; "breve" posts to RAG with 3 results and no reranking, otherwise the conversation endpoint gets the history, 5 results and reranking |
| Bot.ActiveMessageRecordsAnswer | app/telegram/bot.py:260-288 | a failed call changes nothing; a successful one keeps state, mode and provider, appends exactly the user's text then the answer to an "extendido" history, and replaces the sources exactly when some were returned |
| Bot.ExchangeKeepsAlternation | app/telegram/bot.py:283-285 | appending a user turn and an assistant turn keeps the history alternating |
| Bot.AbsorbKeepsWellFormed | app/telegram/bot.py:282-288 | storing an answer keeps a well-formed session well formed |
| Bot.MessageTouchesItsUser | app/telegram/bot.py:199-293 | a message leaves the table alone or replaces only its sender's session |
| Bot.StepOnlyTouchesItsUser | app/telegram/bot.py:100-293 | every handler leaves the sessions of all other users as they were |
| Bot.StepPreservesWellFormed | app/telegram/bot.py:100-293 | every handler keeps the mode in {breve, extendido}, the provider in {llama, gemini} and the history a sequence of user/assistant exchanges |
| Bot.RunPreservesWellFormed | app/telegram/bot.py:72-80 | processing any sequence of updates from well-formed sessions keeps them well formed |
| Bot.ActivationNeedsModeButton | app/telegram/bot.py:181-189 | a session becomes ACTIVE only through a mode button from its own user |
| Bot.DeactivationLeavesActive | app/telegram/bot.py:105 | after `/start`, or SALIR at line 210, the user's session is not ACTIVE |
| Bot.ActiveRunHasModeButton | app/telegram/bot.py:72-80 | a session ACTIVE at the end of a run of updates, and not at its start, was activated by a mode button pressed after the user's latest `/start` and latest SALIR |

## Left out

- Text.Upper: covers ASCII and Latin-1, including `µ` (U+00B5) and `ÿ` (U+00FF), whose capitals lie outside Latin-1. It leaves `ß` (U+00DF) unchanged where Python's `str.upper()` gives the two letters "SS", because the model keeps one character per character. Beyond Latin-1, Python also maps characters such as U+017F or U+0131 onto ASCII letters. So `Bot.SalirExits` and `Bot.InactiveMessageChangesNothing` recognise SALIR and ACEPTO on the ASCII/Latin-1 spellings only. Neither word contains "SS", so a text with `ß` cannot upper-case to either of them in Python.
- Text.Lower: matches Python's `str.lower()` on ASCII and Latin-1. Letters beyond Latin-1 are left as they are, where Python lower-cases them before tokenising.
- Text.IsWordChar: `\w` is approximated on ASCII and Latin-1; Unicode letters and digits beyond U+00FF are not word characters in the model.
- Floating point: distances and scores are exact reals. Rounding, NaN and infinities are not modelled.
- Rerank.GetRerankExplanation: does not round the reported scores and distance to three decimals (`round(x, 3)`, lines 223-228), because rounding is floating-point formatting; `Rerank.ExplanationsMatchRanking` relates the unrounded values.
- Rerank.MetadataScore: requires `chunk_index` and `total_chunks` to be numbers, because comparing another type with an integer raises `TypeError` in Python. Numbers are integers in the model.
- Rerank.RerankDocuments: requires the same of the metadata dictionaries. A metadata value's other types and nesting are reduced to integers and strings.
- Python's `list.sort` is a library routine, not part of the source. It is specified by its result, a stable sort, which `Rerank.SortByScore` computes as an insertion sort.
- `PDFService.extract_text` (app/services/pdf_service.py:12-29) is PDF library I/O and is not part of this model.
- Chunker.SplitTextIntoChunks: requires `chunk_size > 0`. The only caller uses the defaults 1000/200.
  - With `chunk_size == 0` every window is empty. The source then returns `[]` when `overlap < 0` and loops forever otherwise.
  - Negative chunk sizes are not modelled, and neither is the negative slice indexing they cause. For example, chunk_size -3 and overlap -5 on "hello world" slice `text[0:-3]`, which is "hello wo"; the cut at 5 applies, and the source returns ["hello"].
- Chunker.SplitTextIntoChunks: uses the corrected step (see Findings) wherever `end - overlap <= start`. That can happen only when `2*overlap > chunk_size`.
  - The model then differs from the source on every such input, including inputs where the source finishes, with other chunks.
  - Example: "aaaaaa " followed by 18 b's, with chunk_size 10 and overlap 7 (`Chunker.CorrectedStepDiffers`).
    - The source's first window is cut at 6, so start becomes -1. `text[-1:9]` is empty, the next start is 2, and the second chunk is "aaaa bbbbb".
    - The model steps 0 → 1 → 4, and its second chunk is "aaaaa bbbb".
- `session_id` (a random UUID) and `last_activity` (the clock) are not modelled: no handler reads them.
- All Telegram and HTTP I/O is out of scope. That covers:
  - the Application setup, the polling loop and its error retry (bot.py:27-97);
  - `/politica`, `/fuentes` and the error handler, which send text and change no session;
  - the typing indicator;
  - the reply texts, Markdown and keyboards.
  The chosen reply is kept as the `Reply` value.
- Bot.HandleMessage: the backend call is a parameter (`BackendResponse`). The JSON body is reduced to the four keys the bot reads, each missing/null, a string or a list of strings. A non-string "response" or non-list "sources" is not modelled.
- Bot.HandleMessage: `update.message.text` is taken to be present, as the text-message filter guarantees.
- Concurrency: the handlers are async, but each is modelled as one atomic step. Updates are processed one at a time by the polling loop.
- The LlamaIndex/LangChain pipelines, the LLM, embedding, vector-store and chat services, and the HTTP routes are outside this model.

## Findings

| source | as written | input that shows it | evidently intended | confidence | as-written member | corrected member |
|---|---|---|---|---|---|---|
| app/services/pdf_service.py:58-63 | after a cut, `start = end - overlap` can fail to advance when `overlap` exceeds half of `chunk_size` | text "aaaaaaaaa bbbbbbbbbbbb", chunk_size 10, overlap 7: the window from 0 is cut at 9, so start becomes 2; the window from 2 is cut at 9 again, so start stays 2 and the loop never ends | every turn of the loop advances, so the function terminates for every text | not executed | Chunker.AsWrittenStepStalls | Chunker.NextStart |

`Chunker.NextStart` takes `end - overlap` when that advances, and the next character otherwise. `Chunker.NextStartIsAsWritten` and `Chunker.WindowsOverlap` prove it equals the source's step whenever `2*overlap <= chunk_size`. `Chunker.DefaultStepIsAsWritten` proves the same for the defaults. `Chunker.SplitTextIntoChunks` terminates for every positive chunk size.

The correction is not confined to the inputs where the source loops. Wherever `end - overlap <= start`, the source steps to a start at or before the old one, and it may still finish with different chunks. `Chunker.CorrectedStepDiffers` shows one such input; "Left out" describes it.
