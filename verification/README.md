# EncoreHub, verified components

EncoreHub is a chat client in three programs: a TypeScript front end, a Go Gateway and a Rust Engine, shipped together in
a desktop shell. Most of it moves data between processes; what is collected here are the parts that compute something,
keep state that several activities share, or must survive a crash. Each is modelled in the form the program gives it:
methods with loops for its loops, classes for its stores, functions where it has expressions. Every method is proved
against a function or a relation, and the properties that the program relies on are proved of that.

| file | what it models |
|---|---|
| `LinearSystem.dfy`, `TokenModel.dfy` | the Gauss-Jordan solver and the least-squares fits of the token model |
| `EventStream.dfy` | server-sent events: framing, parsing, and the terminal callback of a turn |
| `ConversationStore.dfy` | the cache of conversations and the view that mirrors the one on screen |
| `SecretVault.dfy` | the provider keys, in plain text or sealed, and the requests that change them |
| `LogRedaction.dfy`, `LogBuffer.dfy` | masking of secret values in log lines; the ring of lines and its polling cursor |
| `CivilCalendar.dfy` | dates from day numbers |
| `UsageWindow.dfy`, `UsagePricing.dfy`, `UsageReport.dfy` | the usage report: time buckets, prices and currencies, the sums |
| `DocumentChunks.dfy` | overlapping windows over a document |
| `ContextMeter.dfy`, `Compaction.dfy` | the context meter's rows; where a summarized conversation is cut |
| `LegacyMigration.dfy` | the migration of an old installation under crashes |
| `ToolProtocol.dfy` | removal of tool-call control blocks from text |
| `Text.dfy`, `Wrappers.dfy` | substring search, letter case, trimming, and an optional value |

Some results are worth knowing before changing the code, because what one would expect does not always hold. Each comes
with its exact condition and an input or a run that shows it:

- The comment above the splitter in `frontend/src/services/chat.ts` says that `\r\n\r\n` separates events too. It does
  not: the code cuts a text as the comment promises exactly when `\r\n\r\n` does not occur in it
  (`EventStream.FrameBothIff`). Two events delimited in this way are read as one (`EventStream.ReturnsMergeEvents`,
  `EventStream.TwoEventsUnframed`). The model follows the code.
- The two stream readers do not call exactly one of `onDone` and `onError` on every stream. A read that fails after the
  terminal event calls both (`EventStream.FailureAfterDone`), and an abort that makes the read throw drops a terminal
  event without its blank line (`EventStream.UnterminatedDone`). When exactly one is called, for every text and every
  ending: `EventStream.ExactlyOneTerminal`.
- `frontend/src/stores/conversationStore.ts` says that the view fields always mirror the active entry. Six of the seven
  do until a turn is started before the first load of its conversation arrives, and the load overwrites the turn's entry
  (`ConversationStore.MirrorBreaksIff`, `ConversationStore.MirrorLostRun`). For the seventh, opening a conversation for
  the first time leaves the abort controller of the one before in the view
  (`ConversationStore.ControllerMirrorBreaks`). Saved to the cache on a later switch, it makes Stop abort another
  conversation's turn, from every state with a turn on screen (`ConversationStore.StaleController`); cached controllers
  stay with their conversations exactly as long as no such save happens (`ConversationStore.OwnIffNoForeignSaves`).
- Stop does not always reach the turn on screen. After a failed turn the conversation is loaded again, and that clears the
  controller of whichever turn runs by then (`ConversationStore.LateReloadHidesTurn`). The events that take a turn's
  controller out of its entry are `ConversationStore.LosesController`, and there are no others
  (`ConversationStore.HoldsWhileNotLost`).
- Creating a conversation does not take it off the list of prefetched ones. One that was prefetched before its creation is
  acknowledged loses its running turn to a release (`ConversationStore.PrefetchedTurnIsLost`).
- A log panel starts a poll every 1.5 seconds even when one is unanswered. Two in flight bring the same lines twice, and a
  late answer moves the cursor back; an answer keeps the order exactly when it starts beyond the cursor that it meets
  (`LogBuffers.OverlappingTicksDuplicate`, `LogBuffers.LateAnswerMovesCursorBack`, `LogBuffers.InOrderIffFresh`).
- `engine/src/api/conversations.rs` reads a retained count of 0 as 6, the browser reads it as "everything is
  summarized". They disagree on the boundary exactly for a summary that covers a whole transcript of more than six
  messages (`Compaction.RestoredAgreesIff`), which deletions can bring about (`Compaction.DeletionsBreakBoundary`).
- A restored summary's retained count grows with the conversation, and the Gateway refuses counts above 1000
  (`Compaction.LongTailIsRefused`). A running session's count does not change: messages added since are in neither the
  summary nor the tail that is sent (`Compaction.RunningSummaryIff`), and after a deletion, or when a question is
  replaced, messages are in both (`Compaction.EditingRepeats`). For every transcript: it fits exactly when the summarized
  messages still start it and the count reaches back to their end (`Compaction.SummaryFitsIff`).
- `put_key` in `engine/src/api/secrets.rs` reads the mode and writes the row in two steps. The vault stays sound exactly
  when the mode and the sealing key at the write are those that were read; a row left in the other mode stops encryption
  from being enabled, disabled or given a new password (`SecretVault.Vault.PutAround`, `SecretVault.TransitionsIff`).
- Breakdown shares are divided by a total that `engine/src/api/usage.rs` adds up in 32 bits row by row. They sum to 100
  exactly when there are tokens and as many rows exceed that range upwards as downwards (`UsageReport.SharesAddUpIff`);
  one large row is enough to lose them (`UsageReport.OverflowingRow`).

## Model

| member | source | states |
|---|---|---|
| `LinearSystem.SolveLinearSystem` | frontend/src/services/tokenModel.ts:302-327 | a returned vector solves the system, is the only solution, and the matrix maps no direction near zero; null comes with a non-zero vector that the matrix maps near zero |
| `LinearSystem.SingularYieldsNull` | frontend/src/services/tokenModel.ts:298-315 | a matrix with a non-zero kernel vector makes the solver return null |
| `LinearSystem.FindPivot` | frontend/src/services/tokenModel.ts:310-314 | the chosen row has the entry of largest size from the diagonal down |
| `LinearSystem.ClearRow` | frontend/src/services/tokenModel.ts:318-323 | updating entries from the column on subtracts the whole multiple of the pivot row, because the entries before are zero |
| `LinearSystem.ClearColumn` | frontend/src/services/tokenModel.ts:318-324 | every row but the pivot row loses its multiple of the pivot row, and the pivot row stays |
| `LinearSystem.ColumnKeeps` | frontend/src/services/tokenModel.ts:309-324 | one column of the elimination keeps the solutions, the reduced columns, and the growth bounds on both sides |
| `LinearSystem.SwapKeeps` | frontend/src/services/tokenModel.ts:316 | exchanging the pivot row keeps all of them |
| `LinearSystem.ReducedGivesSolution` | frontend/src/services/tokenModel.ts:326 | the vector read off the reduced matrix meets the promise for a solution of the original system |
| `LinearSystem.RejectedColumnGivesKernel` | frontend/src/services/tokenModel.ts:315 | a column without an entry of at least 1e-9 certifies a vector that the original matrix maps near zero |
| `TokenModel.NormalEquations` | frontend/src/services/tokenModel.ts:231-252 | the loops accumulate the sums of products of the samples and the ridge term on the diagonal |
| `TokenModel.GramRepresents` | frontend/src/services/tokenModel.ts:237-248 | the accumulated matrix, between two vectors, is the sum over the samples of their two predictions multiplied |
| `TokenModel.ErrorExpansion` | frontend/src/services/tokenModel.ts:221-226 | the squared error around any coefficients, as an exact second-order formula |
| `TokenModel.NormalEquationsMinimise` | frontend/src/services/tokenModel.ts:231-254 | a solution of the accumulated system is the one minimiser of squared error plus 1e-6 times squared length, over all coefficients |
| `TokenModel.RidgeAlwaysSolves` | frontend/src/services/tokenModel.ts:250-255 | with the ridge term the solver never returns null, for any samples of at most 1000 features |
| `TokenModel.FitCoefficients` | frontend/src/services/tokenModel.ts:226-262 | null exactly below eight samples; otherwise the coefficients that alone minimise, over the fields of samples and coefficients, the squared errors of intercept, ASCII bytes, other characters and messages plus 1e-6 times their squares, each then put in its own range |
| `TokenModel.FitOutputCoefficients` | frontend/src/services/tokenModel.ts:269-296 | the same for the two coefficients of an output, which has no intercept |
| `TokenModel.FitForgetsOrder` | frontend/src/services/tokenModel.ts:237-254 | the same samples in any order give the same coefficients |
| `EventStream.FrameIsFraming` | frontend/src/services/chat.ts:491-498 | the framing cuts the text into blocks without a separator, in order, and loses nothing |
| `EventStream.FramingIsUnique` | frontend/src/services/chat.ts:491-498 | it is the only way to cut the text at blank lines from the left |
| `EventStream.FrameAppend` | frontend/src/services/chat.ts:485-499 | what has been framed stays framed when text is appended: only the remainder meets the new text |
| `EventStream.Drain` | frontend/src/services/chat.ts:492-498 | the inner loop hands over the blocks of the buffer and leaves its remainder |
| `EventStream.ParseEvent` | frontend/src/services/chat.ts:139-154 | the line loop computes the event name and the joined data of a block, or nothing |
| `EventStream.DataKeepsRest` | frontend/src/services/chat.ts:148-149 | one space after the colon of a data line is dropped, and nothing else |
| `EventStream.UnnamedEvent` | frontend/src/services/chat.ts:139-154 | data without an event line belongs to an event named message |
| `EventStream.SendMessageStream` | frontend/src/services/chat.ts:308-520 | the callbacks depend on the whole text and on how reading ended, and not on how the text was cut into chunks |
| `EventStream.SendGroupMessageStream` | frontend/src/services/groupChat.ts:126-271 | the same for the group stream, which drops an unfinished block at the end and ends with an error at the first event whose fields cannot be read |
| `EventStream.TerminalCallbacks` | frontend/src/services/chat.ts:428-518 | how many terminal callbacks a stream fires, for every text and every ending, both clients; they are always the last callbacks |
| `EventStream.ExactlyOneTerminal` | frontend/src/services/chat.ts:428-518 | exactly one of done and error is called, as the last callback, exactly on a stream that ends unaborted, on an abort after the event that ends the turn, and on a failure before it; the group client also when it stopped reading at an event it cannot read, and it ignores the abort signal at the end of the stream |
| `EventStream.AbortedTerminal` | frontend/src/services/chat.ts:501-514 | an aborted chat stream fires a terminal callback exactly when a done or error event was handled, a trailing one only if the abort shows as the end of the stream |
| `EventStream.FailureAfterDone` | frontend/src/services/chat.ts:510-518 | a read that fails after the done event: the turn is reported as completed and then as failed |
| `EventStream.UnterminatedDone` | frontend/src/services/chat.ts:501-514 | a done event without its blank line completes an aborted turn or is dropped, by how the abort shows |
| `EventStream.RoundTrip` | gateway/internal/handler/chat.go:583 | events as the Gateway writes them, cut anywhere in transit, come out of framing and parsing one by one as they went in |
| `EventStream.ChatDelivers` | frontend/src/services/chat.ts:320-509 | end to end: whatever the Gateway writes during a turn, cut anywhere, reaches the chat client's handlers as one call for each event with one of the nine listed names, with its own data, in order; an open turn then ends in the report that fits the ending |
| `EventStream.ChatCompletes` | frontend/src/services/chat.ts:428-476 | with a done or error event at the end, the last call completes the turn with the data of a done event that is authoritative, and otherwise reports the server's code or the malformed event |
| `EventStream.GroupDelivers` | frontend/src/services/groupChat.ts:126-271 | the same for the eight names of the group client, which passes over data that is not JSON |
| `EventStream.GroupCompletes` | frontend/src/services/groupChat.ts:194-240 | and for its terminal events; one that cannot be read is a network error |
| `EventStream.FrameBothIff` | frontend/src/services/chat.ts:491-498 | for every text, cutting at both delimiters, whichever comes first, is what the code does exactly when the text has no `\r\n\r\n` |
| `EventStream.CarriageReturnsDoNotFrame` | frontend/src/services/chat.ts:491-494 | text with carriage returns before its line feeds is never cut |
| `EventStream.ReturnsMergeEvents` | frontend/src/services/chat.ts:139-154 | any two events delimited by carriage returns and line feeds reach the handler as one block with the name of the second and the data of both |
| `EventStream.TwoEventsUnframed` | frontend/src/services/chat.ts:491-502 | one such text, with a delta and a done event |
| `ConversationStore.MirrorBreaksIff` | frontend/src/stores/conversationStore.ts:85-156 | every event keeps the mirror of the six view fields, except exactly a first load that arrives for the conversation on screen while the view shows a turn |
| `ConversationStore.RunMirrorIff` | frontend/src/stores/conversationStore.ts:267-1111 | over every interleaving, the view is a mirror exactly as long as that does not happen |
| `ConversationStore.MirrorLostRun` | frontend/src/stores/conversationStore.ts:447-456 | a run in which it does: a conversation is opened, a turn is started in it, the load arrives |
| `ConversationStore.NoTurnWhileOpening` | frontend/src/stores/conversationStore.ts:433-456 | it does not in a run in which no turn starts or goes on while a selection waits for the first load of its conversation |
| `ConversationStore.StepRefines` | frontend/src/stores/conversationStore.ts:96-156 | every event does to the store what it does to a plain map of conversations, except exactly the save of a view that is not a mirror; the view occurs in the map's steps only as the messages that seed a turn started without an entry |
| `ConversationStore.RunRefines` | frontend/src/stores/conversationStore.ts:96-156 | so every run of the store is a run of the plain map for as long as no load overwrites a turn on screen |
| `ConversationStore.OtherEntriesUntouched` | frontend/src/stores/conversationStore.ts:138-156 | an event about one conversation changes no other entry, in every state in which the view mirrors that one if it shows it |
| `ConversationStore.DeltasAccumulate` | frontend/src/stores/conversationStore.ts:940-948 | a stream keeps every delta, in order, whatever happens to other conversations meanwhile, first loads and turns included |
| `ConversationStore.StreamAccumulates` | frontend/src/stores/conversationStore.ts:926-1010 | over every run a stream grows by all that is delivered for it and by nothing else: text, reasoning and the arguments of every tool call in order, the longest duration, and it goes on |
| `ConversationStore.FragmentExtends` | frontend/src/stores/conversationStore.ts:958-979 | a fragment for a tool call that is there extends its arguments, sets a name or id that it carries, and touches no other call |
| `ConversationStore.FragmentOpens` | frontend/src/stores/conversationStore.ts:958-979 | one for a new index opens a pending call behind the others |
| `ConversationStore.ResultGoesTo` | frontend/src/stores/conversationStore.ts:980-997 | a result goes to the calls with its id and to pending ones without an id |
| `ConversationStore.ReleaseDropsOnlyIdle` | frontend/src/stores/conversationStore.ts:350-360 | while prefetched conversations are idle, a release drops only one of them, never one on screen or streaming |
| `ConversationStore.PrefetchedIdleBreaks` | frontend/src/stores/conversationStore.ts:325-360 | prefetched conversations stay idle and off screen at every event but two: creating one that is prefetched, and starting a turn in it |
| `ConversationStore.RunKeepsPrefetchedIdle` | frontend/src/stores/conversationStore.ts:325-360 | over every run, they stay so exactly as long as neither happens |
| `ConversationStore.ReleaseDropsStreamIff` | frontend/src/stores/conversationStore.ts:350-360 | a release drops a streaming conversation exactly when it counts as prefetched and is off screen |
| `ConversationStore.PrefetchedTurnIsLost` | frontend/src/stores/conversationStore.ts:487-515 | a run in which a conversation prefetched before its creation is acknowledged loses its turn, and later deltas with it |
| `ConversationStore.ControllerMirrorBreaks` | frontend/src/stores/conversationStore.ts:433-446 | the mirror misses the controller exactly after a first open while the view holds another one |
| `ConversationStore.StaleControllerRun` | frontend/src/stores/conversationStore.ts:403-470 | a run from the initial state that gets there |
| `ConversationStore.StaleController` | frontend/src/stores/conversationStore.ts:403-470 | from every state with a turn on screen, opening another conversation, coming back and going there again makes Stop abort the turn that was left |
| `ConversationStore.StopIsOwnBreaks` | frontend/src/stores/conversationStore.ts:108-116 | at every event, cached controllers stay with their own conversations exactly when leaving a conversation does not save another one's controller to its entry |
| `ConversationStore.OwnIffNoForeignSaves` | frontend/src/stores/conversationStore.ts:403-515 | over every run, they stay so exactly as long as no such save happens |
| `ConversationStore.StopAbortsOwnTurn` | frontend/src/stores/conversationStore.ts:1106-1111 | then Stop aborts only a turn of the conversation on screen |
| `ConversationStore.NoOpeningDuringTurns` | frontend/src/stores/conversationStore.ts:433-446 | no such save happens in a run that opens no conversation for the first time while the view holds a controller |
| `ConversationStore.HoldsIff` | frontend/src/stores/conversationStore.ts:96-156 | in every state, the events that take a turn's controller out of its conversation's entry |
| `ConversationStore.HoldsWhileNotLost` | frontend/src/stores/conversationStore.ts:675-1111 | from every state with a turn and over every run, the entry holds its controller exactly as long as none of them happens |
| `ConversationStore.StopReachesTurn` | frontend/src/stores/conversationStore.ts:1106-1111 | until then Stop, with the conversation on screen, aborts that turn |
| `ConversationStore.LateReloadHidesTurn` | frontend/src/stores/conversationStore.ts:892-912 | a turn fails, the next one starts, the reload of the first arrives: the running turn goes on receiving text and Stop finds none |
| `ConversationStore.StartedThenDone` | frontend/src/stores/conversationStore.ts:158-174 | a turn announced first and completed later leaves the transcript of one completed at once |
| `ConversationStore.ReconcileEndsWithTurn` | frontend/src/stores/conversationStore.ts:158-174 | the persisted turn stands once, at the end, and the optimistic message is gone |
| `ConversationStore.ReconcileKeepsRest` | frontend/src/stores/conversationStore.ts:158-174 | before the persisted turn stand exactly the messages with none of its ids that do not answer its question, in their old order |
| `ConversationStore.ReconcileAppends` | frontend/src/stores/conversationStore.ts:158-174 | a transcript without a trace of the turn is kept whole |
| `ConversationStore.TurnDoneKeepsRest` | frontend/src/stores/conversationStore.ts:834-858 | so does the entry of a conversation when a turn is done, in every state |
| `ConversationStore.TurnEnds` | frontend/src/stores/conversationStore.ts:834-912 | after the last callback of a turn, a local settlement or a reload nothing of the stream is left in the entry, and which transcript is |
| `ConversationStore.SendCuts` | frontend/src/stores/conversationStore.ts:747-790 | a send appends its message behind the transcript, or in the place of the first question to be replaced and all behind it, and starts an empty stream; nothing happens when that question is gone |
| `ConversationStore.SentAndDone` | frontend/src/stores/conversationStore.ts:747-858 | a turn that is sent, perhaps announced, and completed leaves the earlier transcript with the persisted turn behind it |
| `ConversationStore.SentAndFailed` | frontend/src/stores/conversationStore.ts:747-890 | one that fails before anything was persisted leaves the earlier transcript, a replaced question included |
| `ConversationStore.DeletionKeepsRest` | frontend/src/stores/conversationStore.ts:1113-1135 | a deletion takes a message and its replies, and nothing else |
| `ConversationStore.Store.UpdateCache` | frontend/src/stores/conversationStore.ts:138-156 | the entry takes the patch, and the view exactly the patched keys when it shows that entry |
| `ConversationStore.Store.SaveView` | frontend/src/stores/conversationStore.ts:108-116 | the view is written back to the entry of the active conversation, if it has one |
| `ConversationStore.Store.SelectConversation` | frontend/src/stores/conversationStore.ts:403-446 | the new state of a selection, from the cache or on first opening |
| `ConversationStore.Store.PrefetchConversation` | frontend/src/stores/conversationStore.ts:325-329 | the new state when a prefetch begins |
| `ConversationStore.Store.FinishLoad` | frontend/src/stores/conversationStore.ts:447-460 | the new state when a shared load arrives for everyone who waits for it |
| `ConversationStore.Store.FailLoad` | frontend/src/stores/conversationStore.ts:461-467 | the new state when it fails |
| `ConversationStore.Store.ReleaseConversationPrefetch` | frontend/src/stores/conversationStore.ts:350-360 | the new state after a release |
| `ConversationStore.Store.OpenNewConversation` | frontend/src/stores/conversationStore.ts:487-515 | the new state after a conversation was created |
| `ConversationStore.Store.BeginDelete` | frontend/src/stores/conversationStore.ts:525-526 | the new state when a deletion begins |
| `ConversationStore.Store.FinishDelete` | frontend/src/stores/conversationStore.ts:529-570 | the new state after the conversation was deleted |
| `ConversationStore.Store.ReloadAfterDataChange` | frontend/src/stores/conversationStore.ts:303-321 | all local state is dropped and the controller of the view is aborted |
| `ConversationStore.Store.OnTurnEvent` | frontend/src/stores/conversationStore.ts:926-1099 | the new state after any callback of a turn |
| `ConversationStore.Store.StopStreaming` | frontend/src/stores/conversationStore.ts:1106-1111 | which controller Stop aborts |
| `SecretVault.SealAll` | engine/src/api/secrets.rs:126-132 | every plain value is sealed under the key, or the failure of one is reported |
| `SecretVault.OpenAll` | engine/src/api/secrets.rs:159-173 | rows sealed under the key open to what was sealed |
| `SecretVault.Vault.ApplySecretTransition` | engine/crates/storage/src/sqlite/secret_transactions.rs:49-145 | rows and metadata change together, from and to a mode in which every row has its shape and without losing a provider, or not at all |
| `SecretVault.Vault.DeriveAndVerify` | engine/src/api/secrets.rs:341-353 | a password is accepted exactly when it derives the key that the vault is sealed under |
| `SecretVault.Vault.EnableEncryption` | engine/src/api/secrets.rs:98-149 | succeeds exactly in plain mode with a password that derives and seals; then every earlier and seeded key is still there, under that password; a failure changes nothing |
| `SecretVault.Vault.DisableEncryption` | engine/src/api/secrets.rs:153-181 | succeeds exactly with the right password, and keeps every key |
| `SecretVault.Vault.UnlockSession` | engine/src/api/secrets.rs:185-193 | caches the sealing key exactly for the right password |
| `SecretVault.Vault.LockSession` | engine/src/api/secrets.rs:195-198 | forgets the cached key and nothing else |
| `SecretVault.Vault.ChangePassword` | engine/src/api/secrets.rs:202-244 | every key is kept, now under the new password; a failure changes nothing |
| `SecretVault.Vault.ClearAll` | engine/src/api/secrets.rs:248-253 | no key, no password, no cached key |
| `SecretVault.Vault.Put` | engine/src/api/secrets.rs:285-305 | the key is stored, sealed in encrypted mode; refused exactly when that mode is locked or sealing fails |
| `SecretVault.Vault.PreparePut` | engine/src/api/secrets.rs:289-302 | the first half of storing a key makes the row that the mode at this moment calls for, or refuses |
| `SecretVault.Vault.WriteRow` | engine/src/api/secrets.rs:289-302 | the second half writes the row, and the vault stays sound exactly when the row fits the mode at that moment |
| `SecretVault.PreparedRowFitsIff` | engine/src/api/secrets.rs:289-302 | a prepared row fits a mode and a key exactly when it was prepared for them |
| `SecretVault.Vault.PutAround` | engine/src/api/secrets.rs:285-305 | with any requests served between the halves, the vault stays sound exactly when mode and sealing key at the write are those of the check; a row left in the other mode stops every later transition |
| `SecretVault.TransitionsIff` | engine/crates/storage/src/sqlite/secret_transactions.rs:49-145 | storage accepts some transition exactly when every row has the shape of the mode |
| `SecretVault.Vault.Get` | engine/src/api/secrets.rs:269-283 | a permitted read gives the stored key; it is refused only when there is none or the session is locked |
| `SecretVault.Vault.Serve` | engine/src/api/secrets.rs:98-315 | any request keeps the vault sound and has its effect on the plain map of keys exactly when it succeeds |
| `SecretVault.Vault.ServeAll` | engine/src/api/secrets.rs:98-315 | over every sequence of requests, what can be read is what the newest successful request wrote |
| `SecretVault.RunHoldsLastWritten` | engine/src/api/secrets.rs:98-315 | the map of keys after a run is the last value written for each provider, seeds and resets included |
| `LogRedaction.RedactAfterMarkers` | frontend/src-tauri/src/logs.rs:590-672 | the loop ends on every text, with the result of masking the first unmasked occurrence until none is left |
| `LogRedaction.ValueIsMasked` | frontend/src-tauri/src/logs.rs:590-672 | any text without a separator, then a marker in any letter case, blanks and quotes, a colon or equals sign, blanks and quotes, and a value: the value comes out as the mask, whatever it is and whatever follows it |
| `LogRedaction.LetterCaseDoesNotMatter` | frontend/src-tauri/src/logs.rs:604-609 | texts that differ in letter case only have their unmasked values at the same places |
| `LogRedaction.NoSeparatorNoMask` | frontend/src-tauri/src/logs.rs:621-638 | a line without a colon or an equals sign is left as it is |
| `LogRedaction.NoMarkerNoMask` | frontend/src-tauri/src/logs.rs:591-609 | so is one in which no marker occurs in any letter case |
| `LogRedaction.MaskingShrinks` | frontend/src-tauri/src/logs.rs:586-589 | masking one value leaves strictly fewer marker occurrences with an unmasked value |
| `LogRedaction.FindUnmasked` | frontend/src-tauri/src/logs.rs:606-665 | one pass finds the leftmost unmasked occurrence of the first marker that has one |
| `LogRedaction.ScanMarker` | frontend/src-tauri/src/logs.rs:607-664 | resuming after each occurrence misses none |
| `LogRedaction.MarkersDoNotOverlap` | frontend/src-tauri/src/logs.rs:591-612 | two occurrences of one marker never overlap, which is why resuming is enough |
| `LogRedaction.RedactedIsFixedPoint` | frontend/src-tauri/src/logs.rs:590-672 | no marker in the result has an unmasked value, and redacting again changes nothing |
| `LogRedaction.UnchangedIffFullyRedacted` | frontend/src-tauri/src/logs.rs:655-671 | a text is left alone exactly when it has no unmasked value |
| `LogRedaction.RedactedKeepsTerminators` | frontend/src-tauri/src/logs.rs:644-662 | only values are replaced: spaces, quotes and commas stay, in order |
| `LogBuffers.LogBuffer.Append` | frontend/src-tauri/src/logs.rs:339-370 | the line gets the next number and the ring keeps the newest 2000 lines |
| `LogBuffers.LogBuffer.Since` | frontend/src-tauri/src/logs.rs:373-381 | the buffered lines after a number are exactly the end of the history from there, or from the oldest line kept |
| `LogBuffers.LogBuffer.Clear` | frontend/src-tauri/src/logs.rs:383-387 | the lines go and the numbering continues |
| `LogBuffers.PollingNeverDuplicates` | frontend/src/components/settings/LogsPanel.tsx:69-94 | over every run in which no tick starts while another is unanswered, the panel is given lines of the history in order and none twice |
| `LogBuffers.DeliveryKeepsOrderIff` | frontend/src/components/settings/LogsPanel.tsx:72-83 | with any number of ticks in flight, an answer keeps the lines in order exactly when it is empty or starts beyond the present cursor |
| `LogBuffers.InOrderIffFresh` | frontend/src/components/settings/LogsPanel.tsx:69-94 | over every run, the lines are always in order exactly when every answer starts beyond the cursor that it meets |
| `LogBuffers.RunIsCoherent` | frontend/src/components/settings/LogsPanel.tsx:72-83 | over every run, whatever is in flight, given lines are lines of the history and the cursor is the number of the last one |
| `LogBuffers.OverlappingTicksDuplicate` | frontend/src/components/settings/LogsPanel.tsx:88-89 | two ticks in flight from the same cursor bring the same line twice |
| `LogBuffers.LateAnswerMovesCursorBack` | frontend/src/components/settings/LogsPanel.tsx:74-76 | an answer that comes after a later one moves the cursor back |
| `LogBuffers.RowsAreNewest` | frontend/src/components/settings/LogsPanel.tsx:77-82 | the panel renders the newest lines it was given, at most 2000, and no fewer unless it was emptied |
| `LogBuffers.PollIsCompleteIff` | frontend/src-tauri/src/logs.rs:373-381 | an answer brings every line after its cursor exactly when none of them was dropped by capacity or a clear |
| `LogBuffers.TimelyPollingMissesNothing` | frontend/src/components/settings/LogsPanel.tsx:69-94 | one tick at a time, each served before lines beyond its cursor are dropped: the panel was given the whole history up to its cursor |
| `CivilCalendar.CivilFromDaysIsRight` | engine/src/version.rs:104-115 | every day number, negative ones included, gives a valid Gregorian date whose day count is that number |
| `CivilCalendar.CivilFromDaysInverts` | engine/src/version.rs:104-115 | and every date comes back from its day count |
| `CivilCalendar.ConsecutiveDays` | engine/src/version.rs:104-115 | day 0 is 1 January 1970 and consecutive numbers are consecutive dates |
| `CivilCalendar.YearOfEraIsRight` | engine/src/version.rs:108-110 | the corrected division finds the year within the 400-year era |
| `CivilCalendar.MonthAndDayIsRight` | engine/src/version.rs:111-114 | the day of a year that starts in March gives its month and day |
| `UsageWindow.ResolveWindow` | engine/src/api/usage.rs:574-606 | the start is absent exactly for the range "all", otherwise not after the end, and buckets have a length |
| `UsageWindow.NamedWindows` | engine/src/api/usage.rs:614-650 | the length of the window and of its buckets for each named range |
| `UsageWindow.OtherWindows` | engine/src/api/usage.rs:614-650 | a range that is not known is a day |
| `UsageWindow.CustomWindow` | engine/src/api/usage.rs:574-671 | a custom window runs between its two instants, whichever is earlier, by default over a day, with the bucket length for its span |
| `UsageWindow.BucketStart` | engine/src/api/usage.rs:673-676 | an instant lies in its bucket, under any offset and before the epoch |
| `UsageWindow.BucketStartIsUnique` | engine/src/api/usage.rs:673-676 | it is the only start aligned in local time whose bucket holds the instant |
| `UsageWindow.PrefillTrendBuckets` | engine/src/api/usage.rs:678-711 | the loop adds exactly the first 400 aligned starts from the first to the last bucket, empty, and changes none that is there |
| `UsageWindow.LandsInPrefilledIff` | engine/src/api/usage.rs:678-711 | an instant of the window has a prefilled bucket exactly when it is among the first 400 |
| `UsageWindow.PrefillCoversIff` | engine/src/api/usage.rs:678-711 | all instants do exactly when at most 400 buckets cover the window |
| `UsageWindow.PrefilledAreNeeded` | engine/src/api/usage.rs:678-711 | every prefilled start is aligned and is the bucket of some instant of the window |
| `UsageWindow.NamedRangesAreCovered` | engine/src/api/usage.rs:614-671 | named ranges, and custom ones up to 31 days, are always covered |
| `UsagePricing.ReadRates` | engine/src/api/usage.rs:156-169 | the last positive override under any spelling of a currency replaces its default; names are normal and rates positive |
| `UsagePricing.ResolveCurrency` | engine/src/api/usage.rs:171-186 | the display currency is always one that converts, and the requested one if that does |
| `UsagePricing.SelectTier` | engine/src/api/usage.rs:277-287 | the first tier whose condition holds, else the first one without a condition, else the first; only an empty list has none |
| `UsagePricing.BoundsSplit` | engine/src/api/usage.rs:310-324 | a count at a bound belongs to the tier that starts there, a smaller one to the tier that ends there, in the unit of the bound |
| `UsagePricing.UnitsAre` | engine/src/api/usage.rs:326-337 | how many tokens a price is for, by the words in its unit in any letter case |
| `UsagePricing.CurrencySpelling` | engine/src/api/usage.rs:206-208 | every spelling of a currency, with white space around it, is read as its name |
| `UsagePricing.QuoteIs` | engine/src/api/usage.rs:216-305 | what a request costs: its prompt tokens at the prompt price and its other tokens at the completion price, by the first best tier or the direct price, each exchanged from its own currency; a side without a price is free; no cost without any price or with a currency that is not in the table |
| `UsagePricing.DirectPrices` | engine/src/api/usage.rs:216-305 | in their own currency, direct prices are so much for a million tokens of each kind |
| `UsagePricing.OwnCurrency` | engine/src/api/usage.rs:188-192 | an amount shown in its own currency is unchanged |
| `UsagePricing.QuoteScales` | engine/src/api/usage.rs:188-268 | another display currency multiplies a quote by the ratio of the rates, and quotes the same requests |
| `UsageReport.BuildReport` | engine/src/api/usage.rs:405-492 | the loops compute the report as a function of the rows |
| `UsageReport.TotalsAre` | engine/src/api/usage.rs:418-450 | every figure of the totals is the sum of that figure over the rows, and the cost is that of the listed requests with a price |
| `UsageReport.RecordsAre` | engine/src/api/usage.rs:443-450 | every request is listed with the quote for its own provider, model, input and output |
| `UsageReport.SharesAre` | engine/src/api/usage.rs:532-553 | an item's share is its tokens in percent of the total |
| `UsageReport.BreakdownItems` | engine/src/api/usage.rs:511-530 | an item of a breakdown exists for exactly the names that occur, and says what the totals of a report on its rows alone would say |
| `UsageReport.TrendBuckets` | engine/src/api/usage.rs:462-479 | a bucket of the trend holds exactly the tokens of the rows in it, and is there when prefilled or not empty |
| `UsageReport.TrendIsPrefilled` | engine/src/api/usage.rs:436-479 | rows of a window that at most 400 buckets cover add no bucket |
| `UsageReport.BreakdownConserves` | engine/src/api/usage.rs:436-530 | tokens, requests, priced requests and costs of either breakdown sum to those of the totals |
| `UsageReport.TrendConserves` | engine/src/api/usage.rs:462-479 | so do the tokens of the trend |
| `UsageReport.SharesAddUpIff` | engine/src/api/usage.rs:418-553 | for every list of rows, shares sum to 100 exactly when there are tokens and as many rows exceed 32 bits upwards as downwards |
| `UsageReport.SharesOfCountsIff` | engine/src/api/usage.rs:418-553 | for counts, which are not negative, exactly when there are tokens and no row overflows |
| `UsageReport.OverflowingRow` | engine/src/api/usage.rs:418-421 | one row of twice 2 to the power of 30 tokens: its provider has all of them and a share of 0 |
| `UsageReport.CurrencyOnlyRescales` | engine/src/api/usage.rs:405-492 | the whole report in another currency is the same report with every cost multiplied by one factor |
| `DocumentChunks.ParagraphBoundary` | engine/src/document_processing.rs:89-96 | the last blank line strictly between the bounds, if there is one |
| `DocumentChunks.WindowEnd` | engine/src/document_processing.rs:69-74 | a window is never longer than asked, ends past its middle unless the text ends, and stops short only at its last blank line |
| `DocumentChunks.ChunkText` | engine/src/document_processing.rs:61-86 | the loop ends and pushes the trimmed windows that are not blank, or the whole text when the sizes make no sense |
| `DocumentChunks.WindowsTile` | engine/src/document_processing.rs:67-85 | the windows run from the start to the end of the text without a gap |
| `DocumentChunks.NothingIsLost` | engine/src/document_processing.rs:75-79 | every character that is not white space is in some chunk, where it stood in the text |
| `DocumentChunks.ChunksAreProper` | engine/src/document_processing.rs:75-79 | no chunk is empty, longer than asked, or has white space at an end |
| `DocumentChunks.RebuildsIff` | engine/src/document_processing.rs:57-85 | dropping the overlap from later windows rebuilds every text exactly when the overlap is at most half a window |
| `ContextMeter.CountTextStats` | frontend/src/services/tokenModel.ts:110-117 | every character is counted once, as ASCII or not |
| `ContextMeter.StatsAppend` | frontend/src/services/tokenModel.ts:119-127 | adding the counts of pieces is counting the whole |
| `ContextMeter.StatsCount` | frontend/src/services/tokenModel.ts:110-117 | the two counts are the numbers of places with a code below 128 and with another one |
| `ContextMeter.RowsAreNearest` | frontend/src/stores/contextManagementStore.ts:293-326 | each row is the nearest whole number to the weight of its own texts, the intercept with the system row and the message count with the messages |
| `ContextMeter.ActiveIsBehindSummary` | frontend/src/stores/contextManagementStore.ts:397-402 | with a summary, what is measured is the transcript behind the messages that the summary stands for |
| `ContextMeter.BuildUsageFeatures` | frontend/src/stores/contextManagementStore.ts:261-292 | the features are the counts of all contents and all tool calls, without the reasoning |
| `ContextMeter.CategoriesMatchPrediction` | frontend/src/stores/contextManagementStore.ts:293-326 | rounded one by one, the categories are within one token of the prediction for the whole request |
| `ContextMeter.SplitOutput` | frontend/src/services/tokenModel.ts:159-181 | visible and hidden parts are not negative and add up to the total |
| `ContextMeter.SplitIsProportional` | frontend/src/services/tokenModel.ts:170-180 | the visible part is the share of its text's weight, to the nearest token, so that the clamp never bites |
| `ContextMeter.ReconciledAddsUpIff` | frontend/src/stores/contextManagementStore.ts:328-347 | no row becomes negative or grows; estimates above the measured count are scaled, each to the whole part of its share; rows add up to that count exactly when nothing was in "other" or they were scaled |
| `ContextMeter.LatestContextSnapshotIndex` | frontend/src/stores/contextManagementStore.ts:349-365 | the newest reply with both counts, or none |
| `ContextMeter.MeasureFrom` | frontend/src/stores/contextManagementStore.ts:411-453 | a measured count corrects the rows it covers; visible output and later messages come on top in their own rows; all rows add up |
| `ContextMeter.EstimateContextUsage` | frontend/src/stores/contextManagementStore.ts:367-485 | in both branches the rows are not negative and sum to the occupied context, used tokens never exceed it, and the newest snapshot counts unless a compaction is newer |
| `ContextMeter.Occupancy` | frontend/src/stores/contextManagementStore.ts:462-474 | percentage and free tokens account for the window |
| `Compaction.LocalSummaries` | frontend/src/stores/contextManagementStore.ts:557-583 | when a local summary is made, what it leaves out and what it quotes |
| `Compaction.KeepRecent` | frontend/src/stores/contextManagementStore.ts:562 | a local summary leaves out a third of the messages, at least two and at most six |
| `Compaction.TokensAdd` | frontend/src/stores/contextManagementStore.ts:557-583 | the tokens of a transcript are the sum over its messages |
| `Compaction.CompactionStore.CompactConversation` | frontend/src/stores/contextManagementStore.ts:683-712 | the summary is kept with the ids of its first and last message, and sent with them when both exist |
| `Compaction.CompactionStore.SetSummarizedCompaction` | frontend/src/stores/contextManagementStore.ts:723-748 | a model's summary replaces the local one, its retained count within the transcript |
| `Compaction.CompactionStore.RestoreCompaction` | frontend/src/stores/contextManagementStore.ts:750-786 | a stored summary is restored unless it is empty or the session has one |
| `Compaction.RestoredPrefixIff` | frontend/src/stores/contextManagementStore.ts:759-768 | restored after more messages, a summary stands for the same messages exactly when its last message is the first with its id |
| `Compaction.LocalSummaryAgrees` | frontend/src/stores/contextManagementStore.ts:557-786 | with unique ids, browser and Engine cut a saved and restored summary at the same message, for the same tokens, and so does the Gateway exactly while the tail has at most 1000 messages; above, it refuses the request |
| `Compaction.LongTailIsRefused` | gateway/internal/handler/chat.go:1740-1742 | four messages summarized, 999 more, a restart: the next request is refused |
| `Compaction.CompactThenRestore` | frontend/src/stores/contextManagementStore.ts:683-786 | end to end on the store: a session compacts and saves, a new one loads the longer conversation and restores the same prefix, range and tokens |
| `Compaction.SummaryFitsIff` | gateway/internal/handler/chat.go:1740-1925 | for every summary, count and later transcript, however it came about: summary and tail make it up without repetition or loss exactly when the count is accepted, the summarized messages start it, and the count reaches back to their end, or nothing was summarized and the count covers it |
| `Compaction.RunningFitsIff` | gateway/internal/handler/chat.go:1740-1925 | a running session keeps its count, so a later transcript must start with the summarized messages and have its old length |
| `Compaction.RunningSummaryIff` | gateway/internal/handler/chat.go:1919-1925 | after additions, summary and tail are the transcript exactly when nothing was added, and otherwise miss as many messages as were added |
| `Compaction.DeletionRepeats` | gateway/internal/handler/chat.go:1919-1925 | after the newest messages were deleted, the tail repeats the end of what is left of the summarized ones: as many as were deleted, up to the whole tail |
| `Compaction.ReplacementFitsIff` | gateway/internal/handler/chat.go:272-284 | replacing a question cuts the transcript before it: it fits exactly when the question is the first one asked since the summary |
| `Compaction.EditingRepeats` | gateway/internal/handler/chat.go:272-284 | a run: twelve messages, eight summarized, the eleventh replaced, and the seventh and eighth are sent twice |
| `Compaction.EngineAgreesIff` | engine/src/api/conversations.rs:515-523 | for which retained counts the Engine names the browser's last summarized message |
| `Compaction.RestoredAgreesIff` | engine/src/api/conversations.rs:515-523 | for a restored summary they disagree exactly when it covers a whole transcript of more than six messages |
| `Compaction.DeletionsBreakBoundary` | engine/crates/storage/src/sqlite/mod.rs:546-574 | a run that gets there: twelve messages, eight summarized and saved, the last two turns deleted, the conversation restored |
| `Compaction.GatewayKeep` | gateway/internal/handler/summarize.go:79-100 | the Gateway keeps what is asked for, between 1 and 50, or 6, and refuses exactly when that leaves nothing to summarize or there are fewer than four messages |
| `Compaction.GatewaySummaryAgrees` | gateway/internal/handler/summarize.go:79-129 | a summary made by the Gateway is cut at the same message by all three |
| `Compaction.NothingSentTwiceIff` | gateway/internal/handler/chat.go:1740-1925 | on the transcript that was summarized, unchanged since, summary and retained tail make it up without repetition exactly when the count is accepted and not 0 |
| `LegacyMigration.NodeAtIsReached` | frontend/src-tauri/src/runtime_paths.rs:167-192 | what the old installation has at a path is what its directories lead to, name by name |
| `LegacyMigration.NodeAtHasWay` | frontend/src-tauri/src/runtime_paths.rs:167-192 | and nothing else is there |
| `LegacyMigration.FilesEqual` | frontend/src-tauri/src/runtime_paths.rs:223-242 | whatever the reads return, "equal" is right, and "different" is right unless one read came short of the other |
| `LegacyMigration.Migration.CopyFileVerified` | frontend/src-tauri/src/runtime_paths.rs:194-221 | a file that exists stays and is counted as verified only when equal; otherwise success leaves exactly the source's content, whatever the copy did; every outcome leaves at most a temporary file for a target still to come |
| `LegacyMigration.Migration.CopyTreeVerified` | frontend/src-tauri/src/runtime_paths.rs:167-192 | success means that everything below has arrived and each file was counted once |
| `LegacyMigration.Migration.WriteMarker` | frontend/src-tauri/src/runtime_paths.rs:147-163 | the marker appears only when everything has arrived |
| `LegacyMigration.Migration.MigrateLegacyRuntime` | frontend/src-tauri/src/runtime_paths.rs:128-166 | a run that fails or is cut off anywhere keeps the disk sound; a marker makes later runs do nothing; a completed run has counted every file |
| `LegacyMigration.CompletedMigration` | frontend/src-tauri/src/runtime_paths.rs:128-221 | after any history of runs with a marker at its end, the files are the earlier ones, unchanged, and the old installation's where there was nothing; no temporary file is left |
| `LegacyMigration.InterruptedMigrationsConverge` | frontend/src-tauri/src/runtime_paths.rs:128-221 | an interrupted migration that is completed later leaves the same files as one that was not interrupted |
| `ToolProtocol.FindBlock` | frontend/src/services/conversation.ts:115-131 | the pass over the markers finds the block that starts first, the earlier marker on a tie |
| `ToolProtocol.CleanToolProtocol` | frontend/src/services/conversation.ts:110-138 | the loop ends and computes the text with its blocks cut out |
| `ToolProtocol.Cleaned` | frontend/src/services/conversation.ts:113-135 | the result has no block and comes from the text by cutting blocks |
| `ToolProtocol.NoBlockIsLeft` | frontend/src/services/conversation.ts:110-138 | no start marker of the result is followed by its end marker, even where a cut has joined two texts |
| `ToolProtocol.CleanTextStays` | frontend/src/services/conversation.ts:111-137 | text without a block is at most trimmed |
| `ToolProtocol.CleaningTwiceIsCleaningOnce` | frontend/src/services/conversation.ts:110-138 | cleaning is idempotent |
| `ToolProtocol.CutKeepsTheRest` | frontend/src/services/conversation.ts:132-134 | a cut loses nothing visible outside the block |

## Left out

- Floating-point rounding, infinities and NaN: coefficients, prices, percentages and shares are exact reals. The clamps of
  non-finite coefficients to defaults are therefore not reached.
- HTTP, fetch, reverse proxying, the desktop shell's commands, process control and the user interface.
- Storage behind the components: SQLite, local storage, the daily log file and its rotation. Of the Engine's storage
  crate only the transition between plain and sealed secrets is modelled; any other storage call is one atomic step
  that succeeds.
- JSON: the payload of a stream event enters the model already parsed or marked malformed, pricing catalogs and rate
  overrides as data.
- UTF-8 decoding of stream chunks: chunks are text. JavaScript's UTF-16 units and Rust's byte positions are characters here.
- UsagePricing.ReadRates: folds the letters of currency names in ASCII only, as do the pricing units; the program folds
  all of Unicode.
- ConversationStore.HoldsIff: a callback does not say which turn it belongs to, so every last callback and every reload
  in a conversation counts as taking the controller.
- Error banners, drafts, scroll positions, loading flags, titles and the list of conversations.
- SecretVault.Vault.Serve: requests are atomic. Of requests that interleave inside a handler only those between the two
  halves of storing a key are modelled (SecretVault.Vault.PutAround).
  Key derivation and authenticated encryption are functions of which only the inverse law and the failure under another
  key are assumed. The status and list requests only read.
- EventStream.ChatDelivers: a call for an event means that its branch of the handler runs on its data. Which callback the
  branch makes of the JSON, or none when it has no use for it, is not modelled.
- EventStream.SendMessageStream: begins at the first read. A request that fails or is refused before it, and a callback
  that throws, are not modelled.
- EventStream.SendGroupMessageStream: which fields of an event can be read is a parameter. It models the sending client; the subscription to group events frames in the same way
  and has no terminal callback.
- LogRedaction.ValueIsMasked: is about the first separator of a line. Behind an earlier one a marker may itself be part
  of a value and be masked with it.
- LogRedaction.RedactAfterMarkers: the rest of the redaction of a line (bearer tokens, key prefixes, payload fields) is
  left out, as are terminal colours and level detection. Masking in another order can give another result, so the model
  keeps the order of the program.
- LogBuffers.LogBuffer.Append: takes the line as it is after redaction.
- LogBuffers.RowsAreNewest: the filters of the log panel and of the provider panel, which keeps other rows, are left out.
- CivilCalendar.CivilFromDaysIsRight: day numbers are unbounded; the program's 64-bit range is not checked.
- UsageReport.BuildReport: the order of the lists, bucket labels and formatted dates are left out, and so are the provider
  and model filters; sums are unbounded except where the program adds in 32 bits.
- UsagePricing.ResolveCurrency: a table without US dollars cannot arise from the program's defaults and is not modelled.
- DocumentChunks.ChunkText: reading of document formats is left out; sizes are unbounded.
- ContextMeter.EstimateContextUsage: the text of the system prompt and the fitted coefficients are parameters. The
  reserve and threshold of automatic compaction only compare numbers.
- Compaction.CompactionStore.CompactConversation: a preview is the list of messages that it quotes, not its wording.
- Compaction.SummaryFitsIff: is about the Gateway's selection by message count, which it uses when the client does not
  declare the context window or the Engine cannot select. With a declared window the Engine selects by token budget
  (gateway/internal/handler/chat.go:413-424), which is not modelled.
- LegacyMigration.FilesEqual: two equal files read in uneven pieces are taken for different, as in the program; a file
  that is already there then counts as a conflict, and a fresh copy fails the run.
- LegacyMigration.CompletedMigration: assumes that no file or directory of the old installation is named like a temporary
  file (a file that is would be removed as a stale temporary of its neighbour), and that the two installations do not
  overlap. The content of the marker depends on the run's counts and is not compared. A directory in the place of a file
  is counted as a conflict or fails.
- Sample storage of the token model: samples are kept and evicted by age in local storage.
