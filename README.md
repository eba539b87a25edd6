# vaxsupport-backend core, modelled in Dafny

This project models the core of the vaccine-support chat backend:

- **The chat context builder** (`buildInputFromHistory`). It places a system turn first, then the stored messages of a conversation in the order they were created, then the new user turn. A backward walk then trims that list to a character budget: it keeps the newest turns and stops at the first turn that does not fit.
- **The daily quota gate** (`checkMessageLimit`). It resets a user's counter lazily on a new day. It then rejects the user when the counter has reached `MESSAGE_LIMIT`, with that variable's JavaScript semantics: unset is NaN and the empty string is 0.
- **The chat controller**:
  - `getActiveModelKey` picks the engine.
  - `startConversation` and `sendMessage` choose conversation titles.
  - `sendMessage` validates the request, stores the user message and relays the engine's events as server-sent-event frames.
  - The relay stores a completed answer and counts the turn.
  - The catch block turns an exception into an error frame or an HTTP error.
- **The model-configuration admin endpoints**: `addModel`, `updateModel`, `activateModel` and `deleteModel`, over a table of configurations that is updated in place.
- **The fine-tuning dataset endpoint**:
  - `parseQA` turns "Q: … / A: …" text into question/answer pairs.
  - `qaToJsonl` writes them as JSON Lines chat examples, with the optional system prompt and the request validation.

Files:

- `common.dfy`: ECMAScript white space, `trim`, `slice`, `join` and `split(/\r?\n/)`.
- `json.dfy`: `JSON.stringify` of a string, and a reader that proves it round-trips.
- `store.dfy`: the documents (users, conversations, messages, model configurations) and the `Database` class whose fields the controllers update.
- `history.dfy`: the context builder.
- `quota.dfy`: the quota gate.
- `chat.dfy`: the chat controller.
- `model_admin.dfy`: the model-configuration endpoints.
- `dataset.dfy`: the dataset endpoint.

Parts of the code that change state step by step are methods over the `Database` fields or over sequences, with loops where the code loops. Each such method is proved equal to a specification function, and the properties are lemmas about those functions:

- `TrimToBudget` against `Window`;
- `ParseQA` against `ParseSpec`;
- `CheckMessageLimit` against `GateStep`;
- `ActivateModel` against `Activate`.

The parser has a second, independent reference: `Expected` reads the pairs off the blocks that each question marker opens, and `ParseMatchesBlocks` proves the line-by-line state machine equal to it.

Where the code and its documentation disagree, the model follows the code:

- `sendMessage` reads the history after it stores the user message, so the engine's context repeats the new text (`Chat.ContextRepeatsNewText`).
- The "New Chat" fallback in `sendMessage` is unreachable because the text is never empty at that point (`Chat.NewConversationTitle`).
- `startConversation` keeps 50 characters of the first message, while `sendMessage` keeps 60.
- `addModel` can leave two configurations active (`ModelAdmin.AddCanBreakSingleActive`).
- With `MESSAGE_LIMIT` unset, the gate never rejects, yet the `done` frame counts `attemptsLeft` down from 999999 (`Chat.UnsetLimitsDisagree`).

## Model

| member | source | states |
|---|---|---|
| `Common.Trim` | src/controllers/datasetController.js:20-21 | the result of `String.prototype.trim` has no white space at either end |
| `Common.TrimmedIsFixed` | src/controllers/datasetController.js:81 | `trim` leaves a string unchanged exactly when neither end is white space |
| `Common.TrimEmptyIff` | src/controllers/datasetController.js:84 | `!s.trim()` holds exactly when every character of s is white space |
| `Common.TrimIdempotent` | src/controllers/datasetController.js:96-97 | trimming a trimmed string changes nothing |
| `Common.Take` | src/controllers/chatController.js:104 | `slice(0, n)` is a prefix of length min(n, length) |
| `Common.SplitLines` | src/controllers/datasetController.js:9 | `split(/\r?\n/)` yields at least one line, and no line holds a line feed |
| `Common.SplitLinesOfJoin` | src/controllers/datasetController.js:9 | splitting the `\n`-join of lines that hold no `\n` and do not end in `\r` gives those lines back |
| `Json.Quote` | src/controllers/chatController.js:225 | `JSON.stringify(s)` is a quoted literal with no line feed or carriage return |
| `Json.QuotePrintable` | src/controllers/chatController.js:225 | every control character is escaped, so no code point below 0x20 is written |
| `Json.DecodeQuote` | src/controllers/chatController.js:225 | reading back `JSON.stringify(s)` gives s and leaves the following text untouched |
| `Json.DecodeEscapeBody` | src/controllers/chatController.js:225 | the escaped body of a string reads back as the original characters up to the closing quote |
| `Json.HexValueOfDigit` | src/controllers/chatController.js:225 | the hex digits of a `\u` escape read back as the value written |
| `History.BuildInputFromHistory` | src/helpers/buildInputFromHistory.js:10-44 | the result is the budget window of (system turn, stored messages in creation order, new user turn), with the defaults for absent options |
| `History.TrimToBudget` | src/helpers/buildInputFromHistory.js:34-43 | the reversed walk with early `break`, then the reversal, yields exactly `Window`: the longest suffix of the candidates that fits the budget, in the original order |
| `History.Reverse` | src/helpers/buildInputFromHistory.js:35 | position i of the result holds position length-1-i of the input |
| `History.CandidateLayout` | src/helpers/buildInputFromHistory.js:21-30 | candidate 0 is the system turn and the only one with the system role, stored message i is at i+1, the new user turn is last |
| `History.RoleMapping` | src/helpers/buildInputFromHistory.js:21-24 | a "bot" message becomes an assistant turn and any other a user turn; missing text becomes "" |
| `History.WindowWithinBudget` | src/helpers/buildInputFromHistory.js:34-42 | the kept turns cost (length + 20 each) at most the budget |
| `History.WindowMaximal` | src/helpers/buildInputFromHistory.js:39 | when a turn is dropped, adding the newest dropped turn would exceed the budget |
| `History.WindowCharacterized` | src/helpers/buildInputFromHistory.js:34-42 | the kept count is the one and only count whose suffix fits while one more turn does not |
| `History.KeptCountFitsMaximally` | src/helpers/buildInputFromHistory.js:34-42 | the kept count fits maximally |
| `History.FitsMaximallyUnique` | src/helpers/buildInputFromHistory.js:34-42 | at most one count fits maximally |
| `History.KeepCountPeel` | src/helpers/buildInputFromHistory.js:38-41 | one step of the walk: stop when the turn does not fit, otherwise keep it and continue with the budget it leaves |
| `History.WindowPeel` | src/helpers/buildInputFromHistory.js:37-42 | when the newest turn is kept, the window is the older turns' window under the remaining budget, plus that turn |
| `History.SumCostAppend` | src/helpers/buildInputFromHistory.js:41 | the running total is additive over concatenation |
| `History.SumCostMonotone` | src/helpers/buildInputFromHistory.js:41 | a longer suffix never costs less |
| `History.NewUserTurnKept` | src/helpers/buildInputFromHistory.js:27-43 | the new user turn is kept, last, exactly when it fits on its own; otherwise the context is empty |
| `History.SystemTurnDroppedFirst` | src/helpers/buildInputFromHistory.js:30-43 | the system turn is kept only when every other turn is kept too |
| `History.TightBudgetKeepsOnlyNewTurn` | src/helpers/buildInputFromHistory.js:38-39 | with budget 40 and one-character turns only the new user turn survives |
| `History.AmpleBudgetKeepsAll` | src/helpers/buildInputFromHistory.js:34-43 | with an ample budget the whole candidate list is returned |
| `Quota.CheckMessageLimit` | src/middleware/checkMessageLimitMiddleware.js:7-33 | the middleware's decision and the user table it leaves are `GateStep`: 404 for an unknown user, a saved reset on a new day, 403 at the limit, `next()` otherwise |
| `Quota.UnknownUserUnchanged` | src/middleware/checkMessageLimitMiddleware.js:12-15 | an unknown user is turned away and nothing is written |
| `Quota.GateDecision` | src/middleware/checkMessageLimitMiddleware.js:17-33 | other users are untouched; the user is dated today, with the counter kept on the same day and 0 on a new day; the gate rejects if and only if that counter reaches the limit |
| `Quota.GateNeverIncrements` | src/middleware/checkMessageLimitMiddleware.js:21-25 | the gate never raises a counter: it keeps it or resets it to 0 |
| `Quota.SameDayUntouched` | src/middleware/checkMessageLimitMiddleware.js:21 | on the day last seen, the gate writes nothing |
| `Quota.GateIdempotent` | src/middleware/checkMessageLimitMiddleware.js:17-31 | running the gate twice on the same day equals running it once |
| `Quota.RolloverAdmits` | src/middleware/checkMessageLimitMiddleware.js:21-31 | after a day rollover any positive limit admits |
| `Quota.UnsetLimitNeverRejects` | src/middleware/checkMessageLimitMiddleware.js:28 | with `MESSAGE_LIMIT` unset (NaN) `count >= limit` is never true |
| `Quota.EmptyLimitRejectsAll` | src/middleware/checkMessageLimitMiddleware.js:28 | with `MESSAGE_LIMIT` set to "" the limit is 0 and every known user is rejected |
| `Quota.DailyCompletionsBounded` | src/middleware/checkMessageLimitMiddleware.js:21-31 | over any day of requests (gate, then a counted completion), the counter exceeds the limit by at most the one turn that reached it |
| `Quota.SameDayBounded` | src/controllers/chatController.js:239-240 | the same bound is preserved by every further request of the same day |
| `Quota.LimitThenRollover` | src/middleware/checkMessageLimitMiddleware.js:21-31 | at 5 of 5 the gate rejects; on the next day it resets to 0 and admits |
| `Chat.MostRecentActive` | src/controllers/chatController.js:75-77 | picks an active configuration with the latest `updatedAt`, or none when none is active; ties go to the first in table order |
| `Chat.ActiveModelKey` | src/controllers/chatController.js:72-84 | the key of the most recent active configuration when the lookup succeeds and the key is non-empty and known to the engine; "gpt-5" in every other case, and never anything else |
| `Chat.StartTitle` | src/controllers/chatController.js:34 | `title` if non-empty, else the first 50 characters of a non-empty `firstMessage`, else "New Chat" |
| `Chat.StartConversation` | src/controllers/chatController.js:14-53 | 401 without a session user and nothing stored; otherwise a new empty conversation owned by the user, with `StartTitle` |
| `Chat.Retitle` | src/controllers/chatController.js:120-122 | an empty or "new chat" (any ASCII case) title becomes the first 60 characters of the text; any other title stays |
| `Chat.PlaceholderTitles` | src/controllers/chatController.js:120 | `/^new chat$/i` accepts every case of "new chat" and rejects extra characters |
| `Chat.SendMessage` | src/controllers/chatController.js:89-273 | 400, 404 and 404 come before any write; otherwise the user message is stored and appended, the title fixed, the context built from the stored history, the model selected, the events relayed; a completed non-blank answer is stored, appended and counted, and nothing else is stored |
| `Chat.StoreUserMessage` | src/controllers/chatController.js:98-123 | loads or creates the conversation, stores the user message with a fresh id, appends it and fixes the title |
| `Chat.RelayEvents` | src/controllers/chatController.js:220-258 | the frames are the delta frames of the deltas before the first terminal event or disconnect, then at most one terminal frame; the store changes only on a stored completion |
| `Chat.Finish` | src/controllers/chatController.js:226-256 | the terminal frame for each ending (done, engine error, stream error, none) and the stored turn for a completion |
| `Chat.Complete` | src/controllers/chatController.js:226-253 | a non-blank answer is stored trimmed, appended and counted, and a `done` frame reports the ids, the model and `attemptsLeft`; a blank answer stores nothing and yields an error frame |
| `Chat.RelayCharacterized` | src/controllers/chatController.js:220-258 | the relay forwards exactly the deltas before its stop index, and its ending is determined by the event at that index |
| `Chat.RelayIgnoresAfterClose` | src/controllers/chatController.js:221 | events after the client disconnects do not affect the result |
| `Chat.AtMostOneTerminalFrame` | src/controllers/chatController.js:220-258 | a stream carries at most one `done` or `error` frame, and only as its last frame |
| `Chat.FrameLines` | src/controllers/chatController.js:225 | a frame whose name and data hold no line break is exactly an `event:` line, one `data:` line and the blank line that ends it |
| `Chat.DeltaFrameOnWire` | src/controllers/chatController.js:225 | the data of a delta frame holds no line break, so the frame is a single `data:` line after its `event: delta` line, and that line reads back as the delta |
| `Chat.ErrorFrameOnWire` | src/controllers/chatController.js:265 | the data of a stream error frame holds no line break, so the frame is a single `data:` line after its `event: error` line, and its message reads back |
| `Chat.ErrorMessage` | src/controllers/chatController.js:263 | `error?.message \|\| "Error while streaming"` is never empty and keeps a non-empty message |
| `Chat.AttemptsLeft` | src/controllers/chatController.js:242-250 | `Math.max(0, limit - count)` is NaN exactly when the limit is, otherwise it is non-negative and at least `limit - count` |
| `Chat.Caught` | src/controllers/chatController.js:261-271 | after the headers, an error frame with a non-empty message (the error's own when it has one); before them, the response status, or 500 when it is absent, with the response data as the body, or `{"message":"Error processing request"}` when the data is absent or empty |
| `Chat.HistoryOf` | src/helpers/buildInputFromHistory.js:16-19 | the history never has more entries than there are stored messages |
| `Chat.HistoryOfMembers` | src/helpers/buildInputFromHistory.js:16-24 | every message of the conversation is in its history, and every history entry is a message of that conversation |
| `Chat.HistoryOfConcat` | src/helpers/buildInputFromHistory.js:16-19 | creation order is kept: the history of earlier messages followed by later ones is the earlier history followed by the later history |
| `Chat.StopIndex` | src/controllers/chatController.js:220-257 | the relay stops no later than the disconnect; every event before the stop is a delta or an ignored event; the event at the stop is a throw, a completion, an engine error, or is at or past the disconnect |
| `Chat.ContextRepeatsNewText` | src/controllers/chatController.js:116-143 | the history is read after the user message is stored, so the last two candidates are both the new text |
| `Chat.NewConversationHistory` | src/controllers/chatController.js:103-117 | a new conversation's history is just the stored user message |
| `Chat.NoHistory` | src/helpers/buildInputFromHistory.js:16-19 | a conversation without stored messages has an empty history |
| `Chat.NewConversationTitle` | src/controllers/chatController.js:104-122 | a new conversation is titled with the first 60 characters of the (non-empty) text; "New Chat" is never used |
| `Chat.AttemptsLeftAgreesWithGate` | src/controllers/chatController.js:242-250 | with a numeric limit, `attemptsLeft` is 0 exactly when the gate would reject |
| `Chat.UnsetLimitsDisagree` | src/controllers/chatController.js:242 | with `MESSAGE_LIMIT` unset the gate's limit is NaN while `attemptsLeft` counts down from 999999 |
| `ModelAdmin.IndexOf` | src/controllers/modelController.js:58 | finds the position of the configuration with the id, or proves none has it |
| `ModelAdmin.ActivateModel` | src/controllers/modelController.js:50-91 | 404 with no change for an unknown id; otherwise every other active configuration is deactivated, the target activated, and the updated document returned |
| `ModelAdmin.ActivateKeepsDocuments` | src/controllers/modelController.js:67-78 | activation changes only `active` flags and timestamps |
| `ModelAdmin.WellFormedKept` | src/controllers/modelController.js:67-78 | a table with the same documents keeps the id, name and key invariants |
| `ModelAdmin.ActivateLeavesExactlyOne` | src/controllers/modelController.js:66-78 | after activation exactly the target is active |
| `ModelAdmin.ActivateIdempotent` | src/controllers/modelController.js:50-91 | activating the same id again changes nothing but timestamps |
| `ModelAdmin.AddModel` | src/controllers/modelController.js:4-17 | a missing name or key, or a duplicate name or key, gives 500 with no change; otherwise the document is appended with a fresh id and returned with 201 |
| `ModelAdmin.AddCanBreakSingleActive` | src/controllers/modelController.js:7-9 | adding an active configuration beside an active one leaves two active |
| `ModelAdmin.UpdateModel` | src/controllers/modelController.js:30-48 | 404 with no change for an unknown id; the present fields replace the stored ones, an explicit `null` description clearing the stored one, unless that clashes with another document's name or key (500, no change) |
| `ModelAdmin.UpdateKeepsActive` | src/controllers/modelController.js:33-35 | an update never changes which configurations are active |
| `ModelAdmin.DeleteModel` | src/controllers/modelController.js:93-110 | 404 with no change for an unknown id; otherwise exactly that configuration is removed |
| `ModelAdmin.DeleteActive` | src/controllers/modelController.js:97 | deleting keeps "at most one active"; deleting the only active one leaves none active |
| `Dataset.MarkerSound` | src/controllers/datasetController.js:12-13 | every match of the marker patterns is: spaces, the letter (either case), spaces, `:` or `-`, spaces, then the capture, which holds no line terminator |
| `Dataset.MarkerComplete` | src/controllers/datasetController.js:12-13 | every line of that shape matches, and the capture is the rest after the leading spaces |
| `Dataset.ScanRest` | src/controllers/datasetController.js:12-13 | the greedy `\s*(.*)$` captures the rest with its leading space dropped, and fails on a line terminator |
| `Dataset.ExampleMarkers` | src/controllers/datasetController.js:12-13 | "Q: x" is a question marker capturing "x", and "A: y" an answer marker capturing "y" |
| `Dataset.PairOf` | src/controllers/datasetController.js:19-22 | a block yields a pair exactly when neither its question lines nor its answer lines, joined by `\n`, are blank; that pair is the two trimmed joins, which are clean |
| `Dataset.ParseQA` | src/controllers/datasetController.js:8-66 | the loop over the lines, then the final flush, yields `ParseSpec(text)` |
| `Dataset.ParseLine` | src/controllers/datasetController.js:29-59 | one iteration: the question pattern is tried first, then the answer pattern, then the open block's mode |
| `Dataset.RunNext` | src/controllers/datasetController.js:28-60 | the state after i+1 lines is one step past the state after i lines |
| `Dataset.ParseMatchesBlocks` | src/controllers/datasetController.js:8-66 | the state machine yields exactly the pairs of the blocks opened by question markers, in marker order |
| `Dataset.RunMatchesBlocks` | src/controllers/datasetController.js:28-60 | after every prefix of lines, the machine's state is the one read off the blocks |
| `Dataset.StepMatchesBlocks` | src/controllers/datasetController.js:29-59 | one more line moves the block view exactly as one loop iteration does |
| `Dataset.LastQIsLastMarker` | src/controllers/datasetController.js:30-35 | the open block starts at the last question marker |
| `Dataset.FirstAIsFirst` | src/controllers/datasetController.js:39-49 | the answer starts at the first answer marker after the question |
| `Dataset.RunWellFormed` | src/controllers/datasetController.js:15-60 | between lines the machine has no open block with nothing collected, an open question with no answer, or an answer under a question |
| `Dataset.PairsNotBlank` | src/controllers/datasetController.js:20-22 | every pair's question and answer are non-blank and trimmed |
| `Dataset.PrefaceIgnored` | src/controllers/datasetController.js:53-59 | lines before the first question marker contribute nothing |
| `Dataset.PrefaceLeavesInit` | src/controllers/datasetController.js:41-59 | before the first question marker, plain lines and stray answer markers leave the initial state |
| `Dataset.StrayLinesIgnored` | src/controllers/datasetController.js:41-59 | with no open block, any line but a question marker changes nothing |
| `Dataset.RepeatedAnswersAccumulate` | src/controllers/datasetController.js:47-48 | under an open answer, another answer marker extends the same answer and emits nothing |
| `Dataset.UnansweredQuestionDropped` | src/controllers/datasetController.js:19-63 | a question without an answer yields nothing, at the next question marker or at the end |
| `Dataset.RunConcat` | src/controllers/datasetController.js:28-60 | running over two pieces of text is running over the first, then the second |
| `Dataset.SystemOf` | src/controllers/datasetController.js:75-82 | `system: ""` selects the built-in prompt |
| `Dataset.SystemMessageRule` | src/controllers/datasetController.js:75-100 | a non-blank `system` adds a trimmed system message before the user and assistant messages; raw text, an absent or a blank `system` give only those two |
| `Dataset.ChatMessagesLayout` | src/controllers/datasetController.js:95-100 | the messages are [system?, user, assistant], with the system message exactly when the prompt is not blank |
| `Dataset.EncodeLine` | src/controllers/datasetController.js:101 | `JSON.stringify({ messages })` holds no line feed and does not end in `\r` |
| `Dataset.DecodeMessageOf` | src/controllers/datasetController.js:97-100 | each `{ role, content }` object reads back as the message |
| `Dataset.DecodeElementsOf` | src/controllers/datasetController.js:101 | the array of messages reads back in full |
| `Dataset.DecodeLineOf` | src/controllers/datasetController.js:101 | each dataset line reads back as exactly the messages it was written from |
| `Dataset.JsonlLines` | src/controllers/datasetController.js:103 | splitting the JSONL text on line feeds gives the pair lines in order, then an empty string after the trailing `\n` |
| `Dataset.DatasetLineContents` | src/controllers/datasetController.js:94-103 | line k reads back as [system?, user q_k, assistant a_k] |
| `Dataset.QaToJsonl` | src/controllers/datasetController.js:70-118 | blank text gives 400 "Provide 'text'…"; no pairs gives 400 "No Q/A pairs…"; otherwise 500 without an API key, or the JSONL of the parsed pairs |
| `Store.Database.constructor` | src/models/models.js:3-12 | an empty store satisfies the store invariants: unique configuration ids, names and keys, and every reference points at a stored document |

## Left out

- The database, the session store, the HTTP framework and the event-stream transport. The store is the in-memory `Database` class, and each controller's writes are one atomic step. Concurrent requests and MongoDB transactions (the session in `activateModel`) are not modelled.
- Failures of the store: a save that throws after validation, a malformed ObjectId (CastError), and the catch blocks' 500 replies for such errors. The exception is the required-text failure of `Chat.Complete` on a blank answer.
- The OpenAI client. The engine's event stream is a finite sequence of events, and the client's disconnect is the index of the first event seen with `closed` set. Whether the `Models.findOne` lookup succeeds is the boolean `lookupOk`; `client.models.retrieve` is the set `live` of keys it accepts. The fine-tuning validation of `qaToJsonl` is only the presence check `apiKeyPresent`, which covers both the `OPENAI_API_KEY` variable and the `x-openai-key` header.
- The long system prompt that `sendMessage` passes to `buildInputFromHistory` is the parameter `systemPrompt`.
- `generateAIResponse` is never called.
- `getModels`, `getConversations` and the other controllers and routes are not part of this model, and neither are authentication, countries, states and reports.
- Dates are day numbers. `toDateString` in the server's time zone and clock readings are parameters.
- Numbers are limited to what the comparisons with `MESSAGE_LIMIT` need: a finite real or NaN. `Number` of a non-numeric string is a NaN input rather than a parsed string.
- Strings are sequences of code points. UTF-16 surrogate pairs, and `slice` splitting one, are not modelled.
- `qaToJsonl` accepts a string body or a JSON body whose `text` and `system` are strings or absent. Non-string values and their `String(...)` conversion are not modelled.
- The `done` frame is a structured payload. Its JSON text (usage, ids as strings) is not serialized; only delta and error frames are shown to be well-formed on the wire.
- `Dataset.SystemMessageRule`: does not cover `system: ""`. That case only states that the built-in prompt is selected (`Dataset.SystemOf`). That the built-in prompt is non-blank is not proved, because reasoning over its 500-character literal is too costly for the verifier.
- The model-configuration document is imported as `../models/Models` in one controller and as `../models/models` in the other. Both are taken to be the same schema, with unique names and keys.
- `Chat.MostRecentActive`: MongoDB leaves the order of configurations with equal `updatedAt` unspecified. The model breaks such ties by table order, which is a choice of the model and not a promise of the program.
- `Chat.Caught`: `response.data` is the text of a JSON body, or absent. Falsy non-string data (`0`, `false`, `null`) is not modelled; the one falsy string, `""`, falls back to the default body as in the code.
- `ModelAdmin.UpdateModel`: an explicit JSON `null` for `name` or `key`, which the code stores because `findByIdAndUpdate` strips only `undefined` fields, is not modelled; names and keys are always strings here. An explicit `null` description is modelled and clears the stored description.
