# FoxRouters in Dafny

FoxRouters is an LLM gateway. This project models the state machines and schedulers behind its HTTP
code and proves what they guarantee over every input, every run and every interleaving. Code that
updates fields is modelled by classes and loops that are proved against functions; the laws are lemmas
about those functions. `dafny verify dfyconfig.toml` checks everything.

| module | part of the gateway |
|---|---|
| `Sse`, `Stream`, `StreamWriting` | the Anthropic stream writer: byte-level line splitting, the transducer, and the class with its `toolBlocks` map and the insertion sort of `finalize` |
| `Brackets`, `Bracketing`, `Sequencing` | what a well-bracketed and what a sequential Anthropic event stream is, and exactly when the writer emits one |
| `Reassembly`, `Agreement`, `Response` | the batch reassembler, the non-streaming answer, and their agreement with the streamed message |
| `Closing`, `Extraction` | the end of a streamed message and the result of the reassembler, read off the input alone |
| `GrokUsage` | the usage and content accumulator of the Grok stream |
| `Conversation` | translation of a conversation with tool uses and results |
| `Rotation`, `Failover`, `CodeBuddy`, `Grok` | cyclic selection, the attempt loop, both pools and both failover loops |
| `CodeBuddyRequests`, `GrokRequests` | how a request ends and what it does to the pool, read off the upstream's answers |
| `Lifecycle`, `Lifetime` | the active / cooldown / permanent states, saved and reloaded; one pool member under overlapping requests, workers and late saves |
| `Fallback` | fallback combos behind buffered responses |
| `SharedCounter`, `Strides`, `ProxyRotation` | round robin on a counter shared by processes, and by several proxy scopes |
| `Breaker`, `RateLimit`, `LoginLimiter` | circuit breaker, token bucket, login windows |
| `LogPipeline`, `ProxyPool`, `ProxyEntries`, `GatewayKeys` | log queue and batches, proxy pool, key counters against the store |
| `Prelude` | optional values and both ends of a sequence |

Each operation is tied to a function by its contract, and the laws say what that function yields in terms
of its input, with the program's numbers and strings written out.

Conventions. Every mutex-guarded section is one atomic step. Clocks, randomness, upstream answers, JSON
decoding and store replies are parameters (`World`, `Decoder`, `Incr`, `Rules`, ...), so each law
quantifies over all of them. Go floats are `real`, Go's `%` on signed operands is `GoMod`, times are in
nanoseconds (seconds in `RateLimit`).

What the proofs say about places where the code does less than its comments suggest:

- The writer emits a well-bracketed message if and only if the input is orderly: no text after a named
  tool call closed the text block, and no delta after the terminator (`BracketedIffOrderly`).
- Streamed and batch form give the same tool calls if and only if every call has its id and name in the
  first fragments and keeps them (`CallAgreement`, `StreamAgreesWithBatch`). They read the same payload
  of a line if and only if it does not start with `data: data:`, where the stream cuts the prefix twice
  (`PayloadAgreement`).
- The comment at internal/handlers/anthropic.go:633-634 says that the format requires strictly ordered
  content blocks. The writer keeps that order if and only if there is at most one named tool call and no
  first text behind it (`SequentialIff`); two tool calls leave two blocks open at once (`TwoToolsOverlap`).
- A stream without a finish reason reports `end_turn` where the non-streaming answer, which falls back on
  `tool_calls` (internal/handlers/anthropic.go:1065-1067), reports `tool_use` (`MissingFinishDiffers`).
- The comment at internal/proxy/pool.go:431-436 expects fair rotation within a scope from the shared
  cursor. Requests of a scope with n candidates that are g increments apart go around all candidates if
  and only if g and n have no common factor (`ScopeIsFairIff`). While two scopes take turns that is the
  case exactly for odd n (`AlternatingIsFairIff`); for even n half of the candidates are never used
  (`AlternatingScopesStarve`). With one scope the rotation is exact (`OneScopeIsFair`).
- A half-open circuit that has used its probe admits nothing until some success is reported; errors
  never reopen it (`UsedProbeBlocks`).
- Permanent disabling is absorbing when one thing happens at a time. In general a permanent member stays
  permanent if and only if nobody imports it, no cooldown verdict of a request under way comes in, and
  the store holds the disable at every restart (`StaysPermanentIff`). Runs from a new member that bring a
  disabled one back: `OverlapRevives`, `StaleSaveRevives`, `LostSaveRevives`.
- Dropping idle rate-limit buckets is unobservable if and only if ten minutes refill the burst
  (`UnobservableIff`).
- Once every store command of a gateway key was sent, the stored counters equal those in memory if and
  only if the last snapshot sent, together with the increments then under way, made up memory
  (`QuiescentAgreementIff`). A disable or an operator's update that overlaps a charge can count it twice
  or forget it (`SnapshotCountsTwice`, `UpdateCountsTwice`, `LateSnapshotForgets`).
- The login limiter reads the clock before it takes the lock (login_limiter.go:39-41), so attempts may be
  handled out of order. Nothing that still matters is lost then either (`RunReflects`); the window bounds
  hold for windows shorter by the largest delay (`WindowBounds`), which is none when the order is kept.

## Model

| member | source | states |
|---|---|---|
| `Sse.SplitRoundTrip` | internal/handlers/anthropic.go:680-686 | cutting a buffer at newlines loses no byte, and no line nor the rest holds a newline |
| `Sse.SplitConcat` | internal/handlers/anthropic.go:680-686 | only the unfinished last part of what was read interacts with what is read next |
| `Sse.PushKeepsCarryOpen` | internal/handlers/anthropic.go:680-686 | the carry never holds a newline |
| `Sse.PushConcat` | internal/handlers/anthropic.go:671-688 | two reads equal one read of both, wherever the cut falls |
| `Sse.FragmentationIndependent` | internal/handlers/anthropic.go:671-688 | for every consumer of lines, any way of cutting a byte stream gives the state of one read |
| `Sse.PayloadsAgreeOnLine` | internal/handlers/anthropic.go:696-700 | on one line the stream's and the batch form's payload agree exactly when the prefix is not doubled |
| `Sse.PayloadIgnoresCR` | internal/handlers/anthropic.go:684-685 | removing one or all trailing CRs changes neither the payload the stream reads nor the one the batch form reads |
| `Sse.PayloadAgreement` | internal/handlers/anthropic.go:1161-1168 | stream and batch read the same payload from a raw line if and only if it does not start with `data: data:` |
| `Sse.PayloadIsCore` | internal/handlers/anthropic.go:1165-1168 | the payload of a `data:` line is what follows without the white space around it, for stream and batch, unless that begins with `data:` again |
| `Sse.OtherLinesCarryNothing` | internal/handlers/anthropic.go:696-698 | any other line has no payload |
| `Sse.TrimmedIsCore` | internal/handlers/anthropic.go:700 | trimming finds exactly the text without the white space around it |
| `Stream.WriteConcat` | internal/handlers/anthropic.go:671-688 | two writes equal one write of both, also for error statuses |
| `Stream.WriterFragmentation` | internal/handlers/anthropic.go:671-688 | events, state, carry and error buffer are the same however the body is cut into Write calls, for every status |
| `Stream.StreamedBody` | internal/handlers/anthropic.go:917-925 | writes, the leftover carry and the final finalize together are one run over the items of all lines of the body |
| `StreamWriting.Lookup` | internal/handlers/anthropic.go:618-630 | the map holds one block per tool key, at the content index of its creation order |
| `StreamWriting.SortedIsCreationOrder` | internal/handlers/anthropic.go:789-804 | sorting the map's keys by content index gives the creation order whatever order the map was read in |
| `StreamWriting.StreamWriter.constructor` | internal/handlers/anthropic.go:523-536 | a new writer is in the initial state |
| `StreamWriting.StreamWriter.WriteHeader` | internal/handlers/anthropic.go:544-551 | only the status changes |
| `StreamWriting.StreamWriter.EnsureStart` | internal/handlers/anthropic.go:555-584 | message_start is emitted once |
| `StreamWriting.StreamWriter.EnsureTextBlock` | internal/handlers/anthropic.go:588-598 | the text block opens at most once, also after it was closed |
| `StreamWriting.StreamWriter.CloseTextBlock` | internal/handlers/anthropic.go:602-611 | the text block stops at most once, and only if it was open |
| `StreamWriting.StreamWriter.RegisterBlock` | internal/handlers/anthropic.go:618-630 | the block of a key is found or created; first id and first name win |
| `StreamWriting.StreamWriter.EnsureToolBlock` | internal/handlers/anthropic.go:618-648 | the map version of registering a fragment and opening its block once it has a name, closing the text block before |
| `StreamWriting.StreamWriter.CloseToolBlock` | internal/handlers/anthropic.go:651-660 | a started block stops at most once |
| `StreamWriting.StreamWriter.CollectKeys` | internal/handlers/anthropic.go:792-795 | the slice holds each key of the map once, in any order |
| `StreamWriting.StreamWriter.Insert` | internal/handlers/anthropic.go:797-801 | one step of the in-place insertion sort keeps the keys and extends the sorted prefix |
| `StreamWriting.StreamWriter.SortByIndex` | internal/handlers/anthropic.go:796-801 | after the in-place sort position p holds the p-th created key |
| `StreamWriting.StreamWriter.CloseAllTools` | internal/handlers/anthropic.go:791-805 | the blocks are closed in creation order |
| `StreamWriting.StreamWriter.Finalize` | internal/handlers/anthropic.go:775-815 | the closing events are emitted once: shell, stops in ascending order, message_delta, message_stop; what they say is `Closing.StreamCloses` |
| `StreamWriting.StreamWriter.HandleText` | internal/handlers/anthropic.go:743-751 | a text delta starts the message and the text block if needed |
| `StreamWriting.StreamWriter.HandleFragments` | internal/handlers/anthropic.go:755-768 | the fragments of a chunk are handled one after the other |
| `StreamWriting.StreamWriter.HandleChoice` | internal/handlers/anthropic.go:742-771 | text, fragments and finish reason of the first choice |
| `StreamWriting.StreamWriter.ProcessLine` | internal/handlers/anthropic.go:695-772 | one line has the effect of the item it decodes to: nothing, the terminator, or a chunk |
| `StreamWriting.StreamWriter.Write` | internal/handlers/anthropic.go:671-688 | the loop over the buffer equals the split of carry and input; error statuses only fill the error buffer |
| `StreamWriting.StreamWriter.FinishRequest` | internal/handlers/anthropic.go:917-925 | the tail handling: the leftover line is processed, then the message is finalised if it was started |
| `Brackets.JudgeCorrect` | internal/handlers/anthropic.go:555-660 | a one-pass recogniser accepts exactly the event sequences that are bracketed by the declarative definition |
| `Brackets.DeltaInsideBlock` | internal/handlers/anthropic.go:588-660 | in a bracketed stream every delta lies strictly between the start and the stop of its block |
| `Bracketing.CloseToolsVerdict` | internal/handlers/anthropic.go:791-805 | closing the blocks stops exactly the open ones, in ascending index order |
| `Bracketing.RunMatches` | internal/handlers/anthropic.go:695-815 | after every input the recogniser's verdict on the emitted events is the one predicted from the input alone |
| `Bracketing.BracketedIffOrderly` | internal/handlers/anthropic.go:695-815 | for every item sequence that emits anything, the emitted events are one well-bracketed message if and only if the input was orderly |
| `Bracketing.StreamIsBracketed` | internal/handlers/anthropic.go:917-925 | the same from bytes, over any fragmentation |
| `Bracketing.TextAfterToolIsNotBracketed` | internal/handlers/anthropic.go:588-591 | text, tool, text: the last delta lands on the closed index |
| `Bracketing.ToolThenTextIsBracketed` | internal/handlers/anthropic.go:588-648 | a tool call followed by first text is still bracketed |
| `Sequencing.SequentialIffInOrder` | internal/handlers/anthropic.go:631-648 | the recogniser for block order accepts exactly the bracketed sequences in which every block starts behind all earlier ones, with a higher index |
| `Sequencing.RunFollows` | internal/handlers/anthropic.go:695-815 | after every input the emitted blocks are in order exactly when the input so far has at most one named tool call and no first text behind it |
| `Sequencing.SequentialIff` | internal/handlers/anthropic.go:631-648 | for every item sequence that emits anything, the blocks of the message follow one another if and only if the input is orderly with at most one named tool call and no first text behind it |
| `Sequencing.StreamIsSequential` | internal/handlers/anthropic.go:917-925 | the same from bytes, over any fragmentation |
| `Sequencing.TwoToolsOverlap` | internal/handlers/anthropic.go:618-648 | any two named tool calls are bracketed but not sequential |
| `Reassembly.AddFragments` | internal/handlers/anthropic.go:1211-1227 | the loop over a chunk's fragments: last id and name win, arguments append, keys keep first-seen order |
| `Reassembly.AddCalls` | internal/handlers/anthropic.go:1203-1209 | the calls of a complete message are appended in order |
| `Reassembly.AddChoice` | internal/handlers/anthropic.go:1198-1230 | text, fragments and finish reason of a choice are accumulated |
| `Reassembly.ExtractFromCapturedBody` | internal/handlers/anthropic.go:1131-1246 | a decodable JSON object is returned as decoded; any other body is the fold over its scanned lines; empty input is empty |
| `Agreement.CallAgreement` | internal/handlers/anthropic.go:618-648 | the call a client reads from the events equals the batch call if and only if the fragments are clean (name and id settled before arguments, never changed) |
| `Agreement.RunFollows` | internal/handlers/anthropic.go:695-815 | after every input quiet behind the terminator, the emitted events carry the text, calls and finish reason determined by the fragments seen |
| `Agreement.RunRecords` | internal/handlers/anthropic.go:1151-1245 | after every delta-only input the batch state holds the last id and name and all arguments per key |
| `Agreement.PresentIffClean` | internal/handlers/anthropic.go:618-648 | a list of streamed calls equals the list of full calls if and only if every call is clean |
| `Agreement.CallsAgree` | internal/handlers/anthropic.go:1211-1245 | ordered tool calls of stream and batch are equal if and only if all calls are clean |
| `Agreement.StartedIffOutput` | internal/handlers/anthropic.go:555-584 | nothing is emitted before the message is started |
| `Agreement.BatchStopReason` | internal/handlers/anthropic.go:1063-1075 | the stop reason of the non-streaming answer, from the input: `tool_use` when a tool call came and the last finish reason is empty, else the mapped last one |
| `Agreement.StreamAgreesWithBatch` | internal/handlers/anthropic.go:1151-1245 | on delta-only input quiet behind the terminator: same text; same calls iff clean; stop reason of the non-streaming answer iff the last finish reason is not empty or what the stream kept maps to the answer's fallback |
| `Closing.MapMeans` | internal/handlers/anthropic.go:422-436 | length gives max_tokens, content_filter stop_sequence, tool_calls and function_call tool_use, anything else end_turn |
| `Closing.StreamCloses` | internal/handlers/anthropic.go:806-814 | whatever the upstream sends, once any event is emitted there is exactly one message_delta: its stop reason is what the last non-empty finish reason before the terminator means, its output tokens are the last completion count before it |
| `Closing.StreamStopReason` | internal/handlers/anthropic.go:769-771 | for input quiet behind the terminator the stop reason a client reads is what the last non-empty finish reason means |
| `Closing.AnswerStops` | internal/handlers/anthropic.go:1063-1075 | the non-streaming stop reason: tool_use for a tool call without a finish reason, else what the last finish reason means |
| `Closing.TokensAreLastUsage` | internal/handlers/anthropic.go:735-738 | after any run the token counts are those of the last usage sent |
| `Closing.TextBlockIff` | internal/handlers/anthropic.go:779-784 | a finished message has a text block if and only if it has text or no tool-call fragment |
| `Closing.ErrorBodyIsKept` | internal/handlers/anthropic.go:671-678 | a body with a status of 400 or more is kept byte for byte and starts no message; any other is not kept |
| `Extraction.JsonIsReadWhole` | internal/handlers/anthropic.go:1135-1149 | a body whose first byte behind white space is an opening brace, and which decodes, gives text, finish reason and calls of the decoded response |
| `Extraction.OthersAreReadByLine` | internal/handlers/anthropic.go:1151-1164 | every other body is read line by line |
| `Extraction.LineMeans` | internal/handlers/anthropic.go:1165-1172 | a `data:` line is nothing, the terminator `[DONE]`, or what its payload decodes to, for both readers |
| `Extraction.OtherLinesMeanNothing` | internal/handlers/anthropic.go:1165-1167 | any other line is nothing to both readers |
| `Extraction.ScannedUpTo` | internal/handlers/anthropic.go:1161-1163 | scanning stops at the first line of 4 MiB |
| `Extraction.BatchReads` | internal/handlers/anthropic.go:1198-1230 | over any input the text is that of deltas, or else of complete messages, in order; the finish reason is the last one sent |
| `Extraction.MessageCallsAreRead` | internal/handlers/anthropic.go:1203-1209 | without tool-call deltas the calls are those of the complete messages, in order |
| `Response.ScannedLines` | internal/handlers/anthropic.go:1161-1164 | lines that fit the scanner's buffer are all scanned, without the empty last one |
| `Response.StreamingMatchesBatch` | internal/handlers/anthropic.go:917-925 | from bytes, over any fragmentation: the streamed message against the non-streaming answer from the same body, with the exact condition for each part |
| `Response.ChangedIdDiffers` | internal/handlers/anthropic.go:1218-1223 | a changed id: the stream keeps the first, the batch form the last |
| `Response.EarlyArgumentsAreLost` | internal/handlers/anthropic.go:758-767 | arguments before the name are lost in the stream only |
| `Response.MissingFinishDiffers` | internal/handlers/anthropic.go:1063-1067 | a tool call without a finish reason: `end_turn` in the stream, `tool_use` in the answer |
| `GrokUsage.Accumulator.Read` | internal/upstream/grok.go:841-868 | one read of the upstream body: complete lines are accounted, the rest is carried |
| `GrokUsage.ReadsDoNotMatter` | internal/upstream/grok.go:816-873 | recorded content and token counts are the same for any two ways of reading the same bytes |
| `GrokUsage.TotalsMean` | internal/upstream/grok.go:841-868 | however the stream was read, the record holds the contents of all complete lines, joined, and the last prompt and completion counts |
| `Conversation.TranslateBlocks` | internal/handlers/anthropic.go:219-291 | the block loops of one message give its translation by role |
| `Conversation.TranslateMessages` | internal/handlers/anthropic.go:207-293 | the loop gives the concatenation of the messages' translations |
| `Conversation.TranslateConcat` | internal/handlers/anthropic.go:207-293 | translation is an order-preserving concatenation |
| `Conversation.IdsSurvive` | internal/handlers/anthropic.go:207-293 | tool_call ids equal the assistant tool_use ids and role:tool ids equal the user tool_result ids, in order |
| `Conversation.TranslationKeepsGrounding` | internal/handlers/anthropic.go:207-293 | every result refers to an earlier use before the translation if and only if it does after it |
| `Conversation.UserMeans` | internal/handlers/anthropic.go:223-251 | a user message becomes its non-empty texts, joined by newlines, as one message unless there are none, then one tool message per result with its text and id |
| `Conversation.AssistantMeans` | internal/handlers/anthropic.go:253-287 | an assistant message becomes one message: joined texts or no content, and one call per use with its id, name and arguments, `{}` for missing ones |
| `Conversation.OthersMean` | internal/handlers/anthropic.go:207-221 | any other message keeps its role and the text that can be read |
| `Conversation.ResultTextMeans` | internal/handlers/anthropic.go:183-201 | the text of a tool result: nothing, the string, the joined pieces, or the raw JSON |
| `Conversation.MessagesInOrder` | internal/handlers/anthropic.go:207-293 | what becomes of a message stands between what becomes of those before and after it |
| `Rotation.PosIsMod` | internal/upstream/codebuddy.go:197-206 | the walk around the ring is the program's remainder |
| `Rotation.PickFailsIffNone` | internal/upstream/codebuddy.go:191-210 | selection fails exactly when nothing is eligible, from any cursor |
| `Rotation.PickIsFirst` | internal/upstream/codebuddy.go:197-206 | a selection is the first eligible position at (cursor + i) modulo the pool size, and the cursor moves to the one behind it |
| `Rotation.StaleCursor` | internal/upstream/codebuddy.go:743-758 | a cursor beyond a shrunken pool selects like its remainder, for any number of selections |
| `Rotation.Fair` | internal/upstream/codebuddy.go:191-210 | with k eligible members, k consecutive selections from any cursor return each exactly once |
| `Rotation.PickCovers` | internal/upstream/codebuddy.go:191-210 | a selection extends the stretch of the ring whose needed members were all tried, although members drop out |
| `Lifecycle.SaveLoadClass` | internal/upstream/codebuddy.go:129-144 | save and reload keep the class exactly when no cooldown was stamped within the first second of the epoch |
| `Lifecycle.SaveLoadCooldown` | internal/db/db.go:342-360 | a reloaded cooldown starts at most one second early and never late |
| `Lifecycle.ReenabledMeans` | internal/upstream/codebuddy.go:289-291 | exactly the cooldowns that lie more than ten minutes back become active |
| `Lifecycle.PunishedMeans` | internal/upstream/codebuddy.go:487-495 | a permanent verdict leaves no time, a cooldown verdict the current one |
| `Lifetime.NewIsInOrder` | internal/upstream/codebuddy.go:264-269 | a new member satisfies the invariant and agrees with its row |
| `Lifetime.CarefulKeepsInv` | internal/upstream/codebuddy.go:69-91 | when one thing happens at a time every step keeps the invariant (one request, current copies only, class and credits stored at rest, 240 credits permanent) and a permanent disable |
| `Lifetime.PermanentIsAbsorbing` | internal/upstream/codebuddy.go:275-308 | over every run in which one thing happens at a time, with copies and saves as separate steps, a permanent member stays permanent, is never selected, and is permanent in the store at rest |
| `Lifetime.StaysPermanentIff` | internal/upstream/codebuddy.go:450-605 | over any run, overlapping in any way: permanent throughout if and only if no import, no cooldown verdict and no restart while the store lacks the disable |
| `Lifetime.RowIsLastSent` | internal/db/db.go:342-360 | over any run the row is the copy sent last |
| `Lifetime.MemoryIsLastTaken` | internal/upstream/codebuddy.go:499-503 | as long as the process runs, memory is the copy taken last whenever nobody still has to take one |
| `Lifetime.StoreAgreesIff` | internal/db/db.go:286-310 | at rest the row agrees with memory if and only if the copy sent last is the copy taken last |
| `Lifetime.StoredPermanentIff` | internal/upstream/codebuddy.go:129-144 | a reload finds the member permanent if and only if the copy sent last was one of a permanent member |
| `Lifetime.OverlapRevives` | internal/upstream/codebuddy.go:487-503 | a run from a new member with two attempts in flight: permanent and stored, then cooldown, then active |
| `Lifetime.StaleSaveRevives` | internal/upstream/codebuddy.go:275-308 | a run from a new member in which the worker's copy reaches the store after a stored permanent verdict, and a restart makes the member active |
| `Lifetime.LostSaveRevives` | internal/upstream/codebuddy.go:487-503 | a run from a new member in which a restart between the verdict and its save makes the member active |
| `Lifetime.StepMeans` | internal/upstream/codebuddy.go:487-503 | what every step makes of flag and credits, with the limits of 240 credits and ten minutes |
| `Lifetime.DueMeans` | internal/upstream/codebuddy.go:499-503 | which steps leave a copy to be written |
| `CodeBuddy.AttemptsTouchOnlyTried` | internal/upstream/codebuddy.go:450-605 | a request changes only keys it tried, tries only keys enabled at its start, and is served by the last one tried |
| `CodeBuddy.FailoverComplete` | internal/upstream/codebuddy.go:450-605 | a request answers 503 only with the tried keys being exactly those enabled at its start, whatever errors occur and whatever the cursor |
| `CodeBuddyRequests.RequestEnds` | internal/upstream/codebuddy.go:450-605 | served by the last key tried iff its answer is below 400; rejected iff it is a 400 with bad parameters or an unknown model and not exhausted; all answers before were network errors or at least 400; cancelled, or 503 with every attempt made or no key left, iff all failed |
| `CodeBuddyRequests.RequestMarks` | internal/upstream/codebuddy.go:468-583 | after a request every key differs from before in its flag only, and that is as the answers to its attempts say |
| `CodeBuddyRequests.LastTryDecides` | internal/upstream/codebuddy.go:487-583 | permanent exactly after a 401, a 429 of an inactive trial, a banned 403 or an exhausted 4xx other than 429; in cooldown from that attempt on after any other 4xx that is not passed on |
| `CodeBuddyRequests.DisablingAnswersStay` | internal/upstream/codebuddy.go:487-583 | a key is never tried again after a disabling answer, and its flag at the end is the one that answer set |
| `CodeBuddyRequests.QuietKeysKeepTheirFlag` | internal/upstream/codebuddy.go:584-592 | network errors, 5xx and successes leave a key as it was |
| `CodeBuddy.KeptAre` | internal/upstream/codebuddy.go:762-785 | cleanup keeps exactly the keys that are not permanently disabled |
| `CodeBuddy.RowMeans` | internal/db/db.go:342-360 | a row holds credits, requests, and whether and since which second the key is disabled |
| `CodeBuddy.TrimSpaceCuts` | internal/upstream/codebuddy.go:250 | trimming cuts only white space, and only at both ends |
| `CodeBuddy.CBKeyManager.Next` | internal/upstream/codebuddy.go:191-210 | the scan returns the first enabled key from the cursor on and moves the cursor behind it |
| `CodeBuddy.CBKeyManager.AddKey` | internal/upstream/codebuddy.go:249-272 | the trimmed key is appended exactly when it is not empty and not there yet |
| `CodeBuddy.CBKeyManager.DeleteKey` | internal/upstream/codebuddy.go:743-758 | exactly that key goes, from pool and store; the cursor stays |
| `CodeBuddy.CBKeyManager.ReenableCooldowns` | internal/upstream/codebuddy.go:275-308 | both passes: exactly the elapsed cooldowns become active, and afterwards the store follows |
| `CodeBuddy.CBKeyManager.LiftCooldowns` | internal/upstream/codebuddy.go:287-301 | the first pass changes keys only; the copies cover everything the store now lacks |
| `CodeBuddy.CBKeyManager.WriteSnapshots` | internal/upstream/codebuddy.go:302-307 | writing the copies brings the store back in step |
| `CodeBuddy.CBKeyManager.AddCredits` | internal/upstream/codebuddy.go:69-91 | one key is charged; at 240 credits it is permanently disabled |
| `CodeBuddy.CBKeyManager.CleanupDisabled` | internal/upstream/codebuddy.go:762-785 | exactly the permanently disabled keys go, in order, from pool and store |
| `CodeBuddy.CBKeyManager.ProxyCodeBuddy` | internal/upstream/codebuddy.go:450-605 | the attempt loop equals the specified walk over answers, and pool and store stay in step |
| `Grok.Best` | internal/upstream/grok.go:370-384 | the second pass takes the latest expiry among the enabled accounts, the first of them on a tie, and none only if all are disabled |
| `Grok.NextFailsIffAllDisabled` | internal/upstream/grok.go:345-391 | selection fails exactly when every account is disabled |
| `Grok.FirstPassFair` | internal/upstream/grok.go:345-368 | with k enabled fresh accounts, k consecutive selections return each exactly once |
| `Grok.SecondPassSticks` | internal/upstream/grok.go:370-389 | with no fresh account every cursor yields the same account, and the cursor advances by one |
| `Grok.FailoverComplete` | internal/upstream/grok.go:659-785 | a request answers 503 only after trying every account that was enabled at its start and fresh at each selection |
| `GrokRequests.AttemptMeans` | internal/upstream/grok.go:675-770 | one attempt, from its answers: permanent after a revoked refresh, a second 401, a 402 or a marked 403; cooldown after any other 403; served below 500 otherwise; the expiry changes exactly on a refresh |
| `GrokRequests.RequestEnds` | internal/upstream/grok.go:659-785 | served by the last account tried iff the answer that counts passes; none before did; cancelled iff the client left; otherwise 503 with every attempt made or no account left |
| `GrokRequests.RequestMarks` | internal/upstream/grok.go:675-770 | after a request every flag is as the answers to the attempts say, and no email changed |
| `GrokRequests.FreshMeans` | internal/upstream/grok.go:361 | fresh is enabled with more than ten minutes of token left |
| `GrokRequests.UpsertMeans` | internal/upstream/grok.go:507-558 | an import replaces the account of its email or adds one; every other stays |
| `GrokRequests.NotBannedMeans` | internal/upstream/grok.go:952-981 | cleanup keeps exactly the accounts that are not permanently disabled |
| `Failover.LoopTold` | internal/upstream/grok.go:659-785 | for any pool and any turn: how the attempt loop ends, by which attempts pass |
| `Failover.LoopKeeps` | internal/upstream/grok.go:659-785 | what every turn keeps holds at the end of the loop |
| `Grok.GrokAccountManager.FirstPass` | internal/upstream/grok.go:352-368 | the next enabled fresh account in cyclic order |
| `Grok.GrokAccountManager.Next` | internal/upstream/grok.go:345-391 | both passes; the second takes the latest expiry among the enabled accounts and advances the cursor by one |
| `Grok.GrokAccountManager.UpsertAccount` | internal/upstream/grok.go:507-558 | the account of that email is replaced as active or appended; reports whether it is new |
| `Grok.GrokAccountManager.ReenableCooldowns` | internal/upstream/grok.go:403-421 | exactly the elapsed cooldowns become active |
| `Grok.GrokAccountManager.CleanupBanned` | internal/upstream/grok.go:952-981 | exactly the banned accounts go, in order, and are counted |
| `Grok.GrokAccountManager.Attempt` | internal/upstream/grok.go:675-785 | one attempt with its refresh and retry on 401 changes only the selected account and serves exactly on success |
| `Grok.GrokAccountManager.ProxyGrok` | internal/upstream/grok.go:659-785 | the attempt loop equals the specified walk, with refreshes by others in between |
| `Fallback.BufferedWriter.WriteHeader` | internal/proxy/buffered_writer.go:47-53 | the first status wins |
| `Fallback.BufferedWriter.Write` | internal/proxy/buffered_writer.go:57-62 | bytes are appended and the status is fixed |
| `Fallback.BufferedWriter.Play` | internal/proxy/buffered_writer.go:43-62 | any handler, adding and setting headers, leaves the recording of its operations |
| `Fallback.RecordMeans` | internal/proxy/buffered_writer.go:43-62 | a recording holds all body bytes in order, the first status unless body bytes came before, and per header the values since it was last set |
| `Fallback.BufferedWriter.Flush` | internal/proxy/buffered_writer.go:108-119 | headers are merged whatever order the map is read in; status and body reach the client once |
| `Fallback.Resolve` | internal/proxy/proxy.go:257-303 | the body after alias and effort resolution of a candidate |
| `Fallback.TryCandidate` | internal/proxy/proxy.go:340-369 | one candidate: the body it is sent, the upstream it goes to, the response it leaves in a fresh buffer |
| `Fallback.TryAll` | internal/proxy/proxy.go:379-432 | the loop makes the attempts of the specification and ends with the buffer of the last one |
| `Fallback.ProxyFallback` | internal/proxy/proxy.go:379-439 | the client receives the bytes, the status and the header values of the terminal attempt, once; every attempt before it had a status of at least 500, and it had not, or was the last candidate |
| `Fallback.WalkRoutes` | internal/proxy/proxy.go:340-369 | attempt j goes to the upstream of candidate j with its model name |
| `Fallback.RoutesSpelledOut` | internal/proxy/proxy.go:340-369 | upstream and model name of attempt j: a custom route to its upstream under its own name, an alias to grok-4.5, any other name by its prefix |
| `Fallback.AliasTable` | internal/upstream/grok.go:589-609 | the six aliases with their efforts, and the grok- prefix |
| `Fallback.TriesStopAtSuccess` | internal/proxy/proxy.go:423-432 | from any position: all tries but the last failed with 5xx, and the last did not or was the last candidate |
| `Fallback.WalkInOrder` | internal/proxy/proxy.go:387-432 | candidates are tried in list order, each at most once, up to the first status below 500 |
| `Fallback.OneAnswer` | internal/proxy/proxy.go:433-437 | exactly one status is committed to the client: that of the terminal attempt |
| `Fallback.BodiesAreTheClients` | internal/proxy/proxy.go:387-411 | every attempt's body is the client's except model and, only if the client sent neither field, the first effort asked for so far |
| `Fallback.EffortSticks` | internal/proxy/proxy.go:402-406 | an effort injected for the head stays for all later candidates |
| `Fallback.LaterAliasKeepsFirstEffort` | internal/proxy/proxy.go:398-408 | with the program's own aliases a combo of low and high sends `low` to both |
| `SharedCounter.ComboRegistry.FallbackCounter` | internal/proxy/combo.go:131-136 | the local counter of a combo advances by one |
| `SharedCounter.ComboRegistry.Resolve` | internal/proxy/combo.go:81-122 | fallback resolves to the head; round robin to the counter's position; unknown or empty combos do not resolve; the local counter advances exactly when a round robin gets no value from the store |
| `SharedCounter.ComboRegistry.NextInFallback` | internal/proxy/combo.go:141-157 | the successor of the first occurrence that has one, or none exists |
| `SharedCounter.IndexMeans` | internal/proxy/combo.go:112-115 | for every counter value, also zero and negative ones, the position is (v - 1) modulo the length |
| `SharedCounter.InterleavingIrrelevant` | internal/db/db.go:889-896 | over any interleaving of processes the totals depend only on the number of picks |
| `SharedCounter.HitsBalanced` | internal/proxy/combo.go:95-122 | over any stretch of counter values two positions differ by at most one |
| `SharedCounter.RotationIsFair` | internal/proxy/combo.go:95-136 | for any number of processes and any interleaving the picks per position differ by at most one |
| `SharedCounter.SamePositionIff` | internal/proxy/combo.go:95-122 | two counter values select the same position exactly when the list length divides their distance |
| `Strides.CoprimeIff` | internal/proxy/pool.go:431-443 | strides of g come back to a position within a round exactly when g and the length have a common factor |
| `Strides.RoundIff` | internal/proxy/pool.go:431-443 | n picks at every g-th counter value take all n positions once if and only if g and n have no common factor |
| `Strides.OneClass` | internal/proxy/pool.go:431-443 | with a common factor d all picks stay in one residue class modulo d |
| `Breaker.UpstreamHealth.RecordRequest` | internal/upstream/health.go:82-113 | a request's outcome has the effect of the specified step |
| `Breaker.UpstreamHealth.CanRequest` | internal/upstream/health.go:116-141 | the answer and the state change of an admission question |
| `Breaker.UpstreamHealth.Check` | internal/upstream/health.go:322-413 | an empty pool and a probe status outside 200-399 count as error, a status inside as success, a fully disabled pool as nothing |
| `Breaker.ClosedCountsErrors` | internal/upstream/health.go:82-113 | while closed the count is below 5 and equals the errors since the last success |
| `Breaker.OnlyCycles` | internal/upstream/health.go:82-141 | only closed, open, half-open, closed; opening exactly at the fifth unbroken error, closing exactly on a success |
| `Breaker.StaysOpen` | internal/upstream/health.go:116-141 | the circuit stays open until the period is over, through any checks and late reports |
| `Breaker.QuietAfterOpening` | internal/upstream/health.go:116-141 | after an opening nothing is admitted for 60 seconds |
| `Breaker.HalfOpenEpisode` | internal/upstream/health.go:116-141 | an episode without success admits exactly the flipping request plus the probes used |
| `Breaker.HalfOpenIsBounded` | internal/upstream/health.go:116-141 | an episode admits at most probes + 1 and ends only with a success, into closed |
| `Breaker.UsedProbeBlocks` | internal/upstream/health.go:82-141 | after the probe is used nothing is admitted until a success, for any number of errors and any time |
| `Breaker.AnswersFromHistory` | internal/upstream/health.go:116-141 | every answer over any run, from the events alone: yes while fewer than 5 failures came in a row; after an opening yes from 60 seconds on; then yes once more; all again after a success |
| `Breaker.HealthyAdmitsAll` | internal/upstream/health.go:116-122 | as long as fewer than five failures come in a row every request is let through |
| `Breaker.WaitsAfterOpening` | internal/upstream/health.go:123-131 | after the fifth failure a request is let through exactly from 60 seconds on |
| `RateLimit.Limiter.AllowWithLimit` | internal/ratelimit/ratelimit.go:150-183 | answer and bucket of one request; other clients untouched; rpm <= 0 always passes |
| `RateLimit.Limiter.Cleanup` | internal/ratelimit/ratelimit.go:185-198 | exactly the buckets idle for more than ten minutes go |
| `RateLimit.Spending` | internal/ratelimit/ratelimit.go:161-183 | tokens spent plus tokens left are covered by the burst and the refill in between |
| `RateLimit.RateBound` | internal/ratelimit/ratelimit.go:161-183 | on one bucket, in every stretch of time of length T at most burst + rate * T requests are admitted |
| `RateLimit.SlowClientsPass` | internal/ratelimit/ratelimit.go:161-183 | requests one token of refill apart are never refused |
| `RateLimit.SpacingInUnits` | internal/ratelimit/ratelimit.go:150-183 | window/rpm is that spacing in the program's units |
| `RateLimit.AdmittedIff` | internal/ratelimit/ratelimit.go:161-183 | a request is let through if and only if every stretch that ends with it stays within burst plus rate times its length |
| `RateLimit.LimitMeans` | internal/ratelimit/ratelimit.go:150-165 | rpm per window, and the burst, or rpm for a burst that is not positive |
| `RateLimit.SweptMeans` | internal/ratelimit/ratelimit.go:185-198 | a sweep drops exactly the buckets untouched for more than ten minutes |
| `RateLimit.ClientsAreIndependent` | internal/ratelimit/ratelimit.go:150-183 | a client's bucket depends on its own requests only |
| `RateLimit.CleanupUnobservable` | internal/ratelimit/ratelimit.go:185-198 | when no burst exceeds ten minutes of refill, sweeping at any moments changes no answer of any run |
| `RateLimit.TwoBurstsDiffer` | internal/ratelimit/ratelimit.go:185-198 | otherwise two bursts around a sweep are answered differently |
| `RateLimit.UnobservableIff` | internal/ratelimit/ratelimit.go:185-198 | sweeping is unobservable if and only if ten minutes refill the burst |
| `RateLimit.PassesIsAnswer` | internal/ratelimit/ratelimit.go:150-183 | what is counted as let through is what the limiter answers in the run |
| `RateLimit.PassedIsAdmitted` | internal/ratelimit/ratelimit.go:150-183 | over any run the requests let through for a client are those its own bucket admits |
| `RateLimit.SweepingPasses` | internal/ratelimit/ratelimit.go:185-198 | sweeping at any moments lets the same number of a client's requests through, when no burst exceeds ten minutes of refill |
| `RateLimit.ClientRateBound` | internal/ratelimit/ratelimit.go:150-198 | for a client in any run of many clients, in every stretch of length T at most burst + rate * T requests are let through, with sweeping as well when no burst exceeds ten minutes of refill |
| `LoginLimiter.TrimBefore` | login_limiter.go:96-106 | the in-place trim is a filter, and the rest of the array is untouched |
| `LoginLimiter.Limiter.Attempt` | login_limiter.go:41-75 | the check-and-record section: trim both lists, refuse at either limit, else record in both |
| `LoginLimiter.Limiter.Cleanup` | login_limiter.go:81-94 | every entry is trimmed; exactly those without hour times go |
| `LoginLimiter.MinuteIsRecentHour` | login_limiter.go:49-60 | the minute list is the recent part of the hour list |
| `LoginLimiter.DeletionLosesNothing` | login_limiter.go:81-94 | deleting an entry with an empty hour list loses nothing that can still matter |
| `LoginLimiter.RunReflects` | login_limiter.go:37-94 | over every run, with times in any order and cleanups anywhere, the lists hold exactly the admitted times that can still matter |
| `LoginLimiter.AdmissionIsExact` | login_limiter.go:41-75 | an attempt no earlier than those handled before is admitted if and only if the full history leaves room in the last minute and the last hour |
| `LoginLimiter.RoomIsNeverRefused` | login_limiter.go:41-75 | however late it is handled, an attempt for which the full history leaves room is admitted |
| `LoginLimiter.WindowBounds` | login_limiter.go:37-78 | for any skew of the run: every half-open window of a minute less the skew holds at most 5 admitted logins per address, of an hour less the skew at most 20 |
| `LoginLimiter.SomeSkew` | login_limiter.go:39-41 | every run has a skew, so the bounds apply to all |
| `LoginLimiter.CleanedMeans` | login_limiter.go:81-94 | a cleanup keeps exactly the addresses with a login in the last hour, and their recent times |
| `LogPipeline.Store.LogRequest` | internal/db/db.go:521-530 | an entry is queued, or dropped when the queue is full |
| `LogPipeline.Store.FlushBatch` | internal/db/db.go:556-566 | a non-empty batch is handed over whole and reset |
| `LogPipeline.Store.ConsumeOnce` | internal/db/db.go:568-586 | one pass of the select: take and flush at 200, tick, or stop with a last flush |
| `LogPipeline.StepConserves` | internal/db/db.go:554-587 | every step keeps conservation, extends the flushed batches and flushes nothing after the stop |
| `LogPipeline.RunConserves` | internal/db/db.go:521-587 | over any interleaving the accepted entries are, in order, flushed batches, current batch, queue; each flush has 1 to 200 entries |
| `LogPipeline.DropsOnlyWhenFull` | internal/db/db.go:521-530 | an entry is dropped exactly when it meets 10000 queued ones |
| `LogPipeline.FlushesWhen` | internal/db/db.go:554-587 | entries are handed over, as a whole batch, with the two-hundredth, on a tick or at the stop; a producer queues below 10000 and drops otherwise |
| `LogPipeline.Sizes` | internal/db/db.go:521-587 | after every run the queue holds at most 10000 entries, the batch fewer than 200, every flush 1 to 200 |
| `LogPipeline.NeverFlushedIsTheQueue` | internal/db/db.go:1098-1106 | after shutdown, however the run goes on, what is never flushed is exactly the queue |
| `LogPipeline.ShutdownLosesQueued` | internal/db/db.go:582-584 | a run in which an accepted entry is lost |
| `ProxyPool.NormaliseUpstreams` | internal/proxy/pool.go:663-691 | the loop with its seen-map gives the normalised scope |
| `ProxyPool.ScopeMeaning` | internal/proxy/pool.go:101-114 | a normalised scope covers an upstream if and only if it or "all" was listed, or nothing usable was |
| `ProxyPool.Proxies.RebuildEnabled` | internal/proxy/pool.go:601-609 | the derived list is the filter of the entries |
| `ProxyPool.Proxies.AddEntry` | internal/proxy/pool.go:241-267 | a valid entry is appended and indexed; reports validity |
| `ProxyPool.Proxies.UpdateEntry` | internal/proxy/pool.go:272-334 | blank fields keep, a valid change replaces and resets the failures |
| `ProxyPool.Proxies.DeleteEntry` | internal/proxy/pool.go:337-369 | exactly the entries of that id go |
| `ProxyPool.Proxies.ToggleEntry` | internal/proxy/pool.go:372-403 | the flag flips; switching on resets the failures |
| `ProxyPool.Proxies.Fail` | internal/proxy/pool.go:465-506 | the failure is counted; at the threshold an enabled entry is switched off and the index rebuilt |
| `ProxyPool.Proxies.Succeed` | internal/proxy/pool.go:509-529 | the failure count is reset, the index is not rebuilt |
| `ProxyPool.Proxies.Next` | internal/proxy/pool.go:411-461 | the scoped candidate at the counter's position, local counter when the store fails |
| `ProxyPool.RunCoherent` | internal/proxy/pool.go:241-403 | after every run the derived list agrees in order, id, routing fields and scope with the filter, and enabled entries are below 5 failures |
| `ProxyPool.PickIsSound` | internal/proxy/pool.go:411-461 | a pick is an enabled entry below the threshold whose scope covers the upstream; it fails if and only if there is none |
| `ProxyPool.CountersAreStreaks` | internal/proxy/pool.go:465-529 | after every run each counter is the number of failures since the last success or operator reset |
| `ProxyPool.DisabledAtFifthFailure` | internal/proxy/pool.go:465-506 | a failure switches an enabled entry off if and only if it is the fifth of its streak |
| `ProxyEntries.PoolLists` | internal/proxy/pool.go:241-529 | after every run with fresh ids the pool lists for each id exactly the entry its own operations make: fields, scope, switch and failures |
| `ProxyEntries.OrderIsKept` | internal/proxy/pool.go:241-403 | new entries go to the end; nothing but a deletion changes the order |
| `ProxyEntries.PickedMeans` | internal/proxy/pool.go:415-452 | the pick for counter value v is the enabled entry that serves the upstream at position (v - 1) modulo their number, in list order |
| `ProxyEntries.NormalisedMeans` | internal/proxy/pool.go:663-691 | a normalised scope is just "all" when that was listed or nothing usable was, otherwise the listed values, none blank and none twice |
| `ProxyRotation.OneScopeIsFair` | internal/proxy/pool.go:415-452 | with one scope in use the picks of its entries differ by at most one |
| `ProxyRotation.ScopeRepeatsIff` | internal/proxy/pool.go:431-452 | two requests of a scope get the same entry if and only if the candidate count divides the counter's advance |
| `ProxyRotation.CandidatesDistinct` | internal/proxy/pool.go:415-424 | after every run with fresh ids the candidates of a scope are distinct entries |
| `ProxyRotation.ScopeIsFairIff` | internal/proxy/pool.go:431-452 | n requests of a scope of n candidates, each g increments after the one before, get every candidate exactly once if and only if g and n have no common factor |
| `ProxyRotation.AlternatingIsFairIff` | internal/proxy/pool.go:431-436 | in a run of two scopes taking turns, n requests of a scope of n candidates get each once if and only if n is odd |
| `ProxyRotation.AlternatingScopesStarve` | internal/proxy/pool.go:431-436 | in such a run of any length, with an even number of candidates, those at positions of one parity are never picked |
| `GatewayKeys.Manager.IncrementTokens` | internal/auth/auth.go:488-520 | the charge, the disabling at the quota and the store commands it leaves under way |
| `GatewayKeys.Manager.IncrementRequests` | internal/auth/auth.go:523-536 | the request count and its store command |
| `GatewayKeys.Manager.UpdateKey` | internal/auth/auth.go:445-484 | an operator's change and the snapshot it saves |
| `GatewayKeys.DisabledIffQuotaReached` | internal/auth/auth.go:488-520 | with a fixed positive quota, over any interleaving, a key is disabled if and only if its total reached the quota |
| `GatewayKeys.DisablingStep` | internal/auth/auth.go:488-520 | the step that disables is exactly the charge that brings the total to the quota |
| `GatewayKeys.MemoryTotals` | internal/auth/auth.go:488-536 | after any run memory holds every token charged, every request counted and the last quota set |
| `GatewayKeys.FlagMeans` | internal/auth/auth.go:445-536 | what disables and enables a key, and that nothing else does |
| `GatewayKeys.StepKeepsGap` | internal/auth/auth.go:488-536 | row plus increments under way minus memory changes only when a snapshot is sent |
| `GatewayKeys.GapOfRun` | internal/db/db.go:387-463 | after any run that gap is the one the last snapshot left, or the initial one |
| `GatewayKeys.QuiescentAgreementIff` | internal/db/db.go:387-463 | over any interleaving with disables and updates, once all commands were sent the counters agree if and only if the last snapshot sent plus the increments then under way was memory |
| `GatewayKeys.QuiescentAgreement` | internal/db/db.go:440-463 | hence they agree in every run without update at whose end the key is enabled |
| `GatewayKeys.SequentialAgreement` | internal/db/db.go:387-411 | with calls that do not overlap the row equals memory after each call, through disables and updates |
| `GatewayKeys.SequentialSavesFit` | internal/db/db.go:387-411 | with calls that do not overlap the last snapshot sent fits |
| `GatewayKeys.SnapshotCountsTwice` | internal/auth/auth.go:505-520 | for any two charges a complete run: the disable at the quota overlaps an increment, which counts twice in the store |
| `GatewayKeys.UpdateCountsTwice` | internal/auth/auth.go:445-484 | a complete run: an update that disables nothing overlaps a charge, which counts twice |
| `GatewayKeys.LateSnapshotForgets` | internal/auth/auth.go:479-482 | a complete run: an update's snapshot is sent after a later charge was stored, which is forgotten |

## Left out

- HTTP, TLS, SOCKS5, gin, Redis, ClickHouse and SQLite drivers: foreign libraries. A failed store write is not modelled.
- JSON encoding: decoders are parameters. Both readers of a chunk are given the same decoder.
- Unicode white space beyond ASCII in `TrimSpace`.
- 64-bit wrap-around of counters and float rounding: `int` and `real` instead.
- Pool members are values in a sequence: a key that was deleted while a request still holds its pointer is not modelled.
- The order in which a reload lists keys and accounts, and reloads of proxies and combos. `Lifetime` models save and reload of one member.
- Within one request or pool method, saves happen at their place in the program; saves that interleave with other actors are modelled for one member in `Lifetime`.
- The final 503 of a failover loop is not composed with `Lifetime`: completeness is proved for a pool nobody else touches.
- Token refresh itself and its singleflight: an oracle that may change the expiry but not the disabled flag.
- In `Lifetime` one actor performs one save at a time; the totals of requests a key has served are not part of it.
- Circuit reports inside the attempt loops, and the copying of a served response after the loop's decision.
- LoginLimiter.Limiter.Attempt: trims with the filter function that `TrimBefore` is proved to compute in place, not with shared arrays.
- ProxyPool.NormaliseUpstreams: trimming and lower-casing of a name is the parameter `canon`; field checks are the parameter `Rules`.
- Fallback.ProxyFallback: the non-streaming form; a streaming request makes a single attempt.
- Token usage numbers are not compared between stream and batch form.
- Refresh-event and other log queues besides the request log: same shape as the request log.
- Display names, masking, sessions, CSRF, dashboards, metrics, tunnels and history queries: easy or plumbing.
