# NodeShell: verified models of its stateful cores

NodeShell is a desktop SSH client written in Go. This project models the seven parts of it that keep
state across failures and concurrent callers, and proves what each of them promises.

| core | files | form |
|---|---|---|
| chunked credential store | Prelude, Base64, Keyring, Credentials, CredentialStore | a class over a keyring whose every call may fail; each state of the keyring is remembered, so a crash can be examined at every point |
| terminal output batcher | Utf8, Utf8Scalars, BatcherModel, BatcherLaws, BatcherTheorems, Batcher | critical sections as steps of a state machine (waiting on the condition ends a section), and a class whose methods are those sections |
| agent transcript | Transcript, Compaction, Conversation | messages as values, the loops as methods, conversations and the agent as classes |
| MCP session runtime | McpModel, McpTheorems, McpShutdown, McpRuntime | interleaved critical sections with the calls in flight, and a class whose methods are those sections |
| transfer scheduler | TransferModel, TransferProofs, TransferTheorems, TransferManager | the same |
| Codex configuration merge | TomlStrings, TomlLaws, CodexConfig, CodexTheorems, CodexEntries, CodexLaws | texts as sequences of Unicode scalar values; scanners and parsers as loops against recursive readings |
| SFTP commit and recursive delete | RemotePath, RemoteNames, RemoteFiles, Commit, RemoteDelete | a class for a remote file system whose operations may fail, with its history |

A class beside a state machine keeps the calls in flight as ghost state and the machine's invariant
as its `Valid()`: each method is proved to be one step of the machine, so the theorems about all
runs of the machine hold of the object.

Assumed of the surroundings: generation, task and session ids are fresh and a session is closed at
most once; host and generation ids hold no '#'; JSON decoding undoes encoding; a failed backend or
file operation has no effect, except that a failed write may leave a first part of the data in the
file it writes. Failures are counted, so that what a working backend or server does is said apart
from what survives any failure. What a run of the agent produces is arbitrary; that its transcript stays acceptable
to the provider is proved exactly for runs that yield whole tool rounds with at most the last one
open.

Where the code and its own comments disagree the model follows the code:

- Close of the batcher is said to deliver everything before it returns; it does so exactly when the
  queue has room for the pending batches (`CloseDeliversExactlyWhenTheQueueHasRoom`). Every
  configuration whose batches hold more than three bytes has a run from a fresh batcher in which
  Close loses bytes (`CloseCanLoseBytes`).
- DisposeAll of the MCP runtime is said to leave no reap loop running; it does so exactly when no
  other call is still stopping one (`NoLoopIsLeftExactlyWhenOnlyTheCurrentOneRuns`).
- An indented `command` or `args` entry of a Codex block is not read and spoils the block, because
  the position of '=' is taken in the trimmed line and used in the untrimmed text
  (`ReadExactlyWhenNotIndented`, `IndentedEntryIsMalformed`).
- removePath is said to stay in the target subtree; the check it makes is against the session's
  directory, and a listed name that holds a backslash may lead to a sibling, back to the directory
  itself, so that the walk does not end, or deeper (`BackslashEscapes`, `BackslashLoops`,
  `BackslashGoesDeeper`; exactly when: `ChildStaysInside`, `ChildGoesBelow`). It never leaves the
  session's directory (`RemovePath`).

Two functions of the agent that look alike are not the same: trimStateMessages keeps an orphan
result at the front of a short transcript and trimHistory drops it
(`ReplayIsCappedLikeTheTranscript`); a stored transcript never starts with one.

`dafny verify dfyconfig.toml` checks everything.

## Model

| member | source | states |
|---|---|---|
| CredentialStore.Store.Save | internal/credentials/credentials.go:233-268 | on success each field Get returns is the one given, or the old one if none was given; under any failure pattern every state after every backend call shows the old value up to one commit point and the new one from there on, and an error means Get is unchanged; a small first value goes inline, any other under the new generation; each refusal occurs exactly when the code names it; with a working backend no chunk of a superseded generation is left; other hosts are untouched |
| CredentialStore.Store.SaveMerged | internal/credentials/credentials.go:253-268 | the same for the secrets already merged |
| Credentials.MergeFields | internal/credentials/credentials.go:247-252 | each field of the merged secrets is the patch's own field, or the old one |
| Credentials.FoundExactlyWhenComplete | internal/credentials/credentials.go:528-559 | a chunked host is readable as some secrets if and only if every chunk is there under its own index, within the chunk and the total limits, and the joined parts decode to them |
| Credentials.FoundInline | internal/credentials/credentials.go:501-521 | an inline host is readable as what its payload decodes to; without an entry it is missing |
| CredentialStore.Store.SaveChunked | internal/credentials/credentials.go:279-352 | the same for a payload stored as a fresh generation; with UUID generations the manifest guard never refuses |
| CredentialStore.Store.CommitAndDrain | internal/credentials/credentials.go:309-352 | the value switches exactly at the primary Set, from the old to the new one, and the entries stay sound before and after |
| CredentialStore.Store.CommitGeneration | internal/credentials/credentials.go:309-341 | a failed generation leaves the entries as they were or only its own chunks behind, the latter after at least three failures |
| CredentialStore.Store.WriteChunks | internal/credentials/credentials.go:309-325 | written counts exactly the chunks stored; every intermediate state only grows by chunks of the new generation |
| CredentialStore.Store.CleanupNewChunks | internal/credentials/credentials.go:359-371 | three passes over the written chunks; clean means the entries are what they were before the save |
| CredentialStore.Store.BuildPrevious | internal/credentials/credentials.go:380-394 | the refs are exactly the pending generations and the superseded one, without repeats and without empty ids |
| CredentialStore.Store.DrainPrevious | internal/credentials/credentials.go:400-419 | forgets a ref only when all its chunks are gone; deletes nothing but chunks of the given refs |
| CredentialStore.Store.DrainBacklog | internal/credentials/credentials.go:291-308 | draining before the commit never touches the live generation, and the new list still names everything that is left |
| CredentialStore.Store.DrainSuperseded | internal/credentials/credentials.go:341-350 | draining after the commit keeps the value and the soundness of the entries at every step; with a working backend the manifest names no superseded generation any more |
| CredentialStore.Store.RewritePrevious | internal/credentials/credentials.go:424-430 | the manifest is replaced by one that differs in its list only, or nothing changes; with a working backend and a text that fits it is replaced |
| CredentialStore.Store.DeleteChunks | internal/credentials/credentials.go:407-413 | success means every chunk of the ref is gone; a failure stops at once |
| CredentialStore.Store.DecodeChunks | internal/credentials/credentials.go:528-559 | the loop with its guards computes the value the entries hold |
| CredentialStore.Store.ReadLocked | internal/credentials/credentials.go:501-521 | with a working backend the answer is exactly the value the entries hold; an answer is never another value |
| CredentialStore.Store.Get | internal/credentials/credentials.go:218-222 | missing, corrupt or found exactly as the entries say |
| CredentialStore.Store.Clear | internal/credentials/credentials.go:442-484 | success leaves no account the old primary named; failure needs a backend failure and keeps the primary with all its refs; a failure in the pending phase leaves Get unchanged throughout, a later one shows the old value or a corrupt entry, never another value |
| CredentialStore.Store.ClearPending | internal/credentials/credentials.go:453-465 | stops at the first failed delete, and deletes only chunks of the pending refs |
| CredentialStore.Store.ClearChunks | internal/credentials/credentials.go:452-477 | the two phases in order, with what Get shows in each |
| CredentialStore.CommitIsSound | internal/credentials/credentials.go:326-341 | replacing the primary by a manifest that carries over the old refs orphans no chunk |
| CredentialStore.RewriteIsSound | internal/credentials/credentials.go:341-350 | forgetting drained refs orphans no chunk |
| CredentialStore.CommitReadsBack | internal/credentials/credentials.go:309-341 | after the commit Get returns the saved secrets |
| CredentialStore.InlineSetIsSafe | internal/credentials/credentials.go:257-266 | an inline save switches the value in one step |
| Credentials.ViewFrame | internal/credentials/credentials.go:501-559 | Get depends on the primary entry and the current generation's chunks only |
| Credentials.StoredPiecesAssemble | internal/credentials/credentials.go:528-559 | chunks stored in order pass every guard of decodeChunks and join to the payload |
| Credentials.StoredPayloadReadsBack | internal/credentials/credentials.go:279-334 | every payload of up to 65536 bytes stored piece by piece reads back exactly |
| Credentials.ChunksFitTheKeyring | internal/credentials/credentials.go:125-145 | at most 37 chunks for an accepted payload, and each chunk entry fits 2560 bytes |
| Credentials.ManifestFitsTheKeyring | internal/credentials/credentials.go:424-430 | a manifest with sixteen refs and 36-character generations always fits 2000 bytes |
| Credentials.FreshGenerationAbsent | internal/credentials/credentials.go:290-302 | a fresh generation id occurs in no stored account |
| Credentials.ShrinkingIsSafe | internal/credentials/credentials.go:400-419 | deleting superseded chunks changes no value and orphans nothing |
| Credentials.GrowingIsSafe | internal/credentials/credentials.go:309-325 | chunks of an uncommitted generation change no value |
| Credentials.LosingChunksNeverForgesAValue | internal/credentials/credentials.go:466-476 | losing live chunks yields the old value or a corrupt entry, never another value |
| Keyring.AccountNameInjective | internal/credentials/credentials.go:181-183 | chunkAccount is injective for ids without '#': hosts and generations never share an account |
| Keyring.Keyring.Set | internal/credentials/credentials.go:75-84 | a backend write stores the entry or fails with no effect, and refuses entries over the limit |
| Keyring.Keyring.Delete | internal/credentials/credentials.go:75-84 | a backend delete removes the entry, reports it missing, or fails with no effect |
| Base64.RoundTrip | internal/credentials/credentials.go:315-325 | section 4 of RFC 4648: decoding undoes encoding for every byte string |
| Base64.EncodedLength | internal/credentials/credentials.go:125-145 | the encoded length is four characters for every three bytes begun |
| Base64.StandardAlphabet | internal/credentials/credentials.go:315-325 | the alphabet is that of table 1 in section 4 of RFC 4648 |
| Base64.TestVectors | internal/credentials/credentials.go:315-325 | the order of the bits and the padding agree with the vectors of section 10 of RFC 4648 |
| BatcherTheorems.BytesAreConserved | internal/sessions/batcher.go:170-204 | over every interleaving, delivered ++ in delivery ++ queue ++ pending equals the accepted bytes; after Discard what was delivered is still a beginning of them; queue length and batch size stay bounded |
| BatcherTheorems.DiscardStopsTheOutput | internal/sessions/batcher.go:366-385 | after Discard at most the batch already handed over is delivered, and nothing else for ever |
| BatcherTheorems.WithoutWaitingAllIsDelivered | internal/sessions/batcher.go:329-359 | a Close that never waited for a slot: when the worker is gone, everything accepted was delivered |
| BatcherTheorems.CloseDeliversExactlyWhenTheQueueHasRoom | internal/sessions/batcher.go:329-359 | Close delivers everything in every interleaving if and only if the queue has room for all pending batches at the call |
| BatcherTheorems.WithoutRoomTheWorkerMayLeave | internal/sessions/batcher.go:184-187 | otherwise a concrete continuation lets the worker leave bytes behind |
| BatcherTheorems.OneAddFillsTheQueue | internal/sessions/batcher.go:242-270 | for every configuration with a batch cap above three bytes, one Add from a fresh batcher leaves more batches pending than the queue has room for |
| BatcherTheorems.CloseCanLoseBytes | internal/sessions/batcher.go:329-359 | for every such configuration there is a run from a fresh batcher, with a Close and without a Discard, after which the worker is gone and accepted bytes were never delivered |
| BatcherTheorems.LeftBehindIsLost | internal/sessions/batcher.go:341-345 | bytes left behind by the worker are never delivered, whatever follows |
| BatcherTheorems.NothingIsDeliveredAfterExit | internal/sessions/batcher.go:184-190 | the worker's exit is final |
| BatcherTheorems.StepKeepsRunesWhole | internal/sessions/batcher.go:259-270 | every step keeps every batch of a valid stream whole runes |
| BatcherTheorems.ValidStreamIsEmittedUnchanged | internal/sessions/batcher.go:209-238 | however a valid UTF-8 stream is cut into Adds, the sink receives exactly a beginning of it, and all of it after a Close that never waited |
| BatcherTheorems.FlushEndsBelowTheTrigger | internal/sessions/batcher.go:259-300 | an Add that did not wait leaves less than the adaptive threshold pending |
| BatcherLaws.TimerTakes | internal/sessions/batcher.go:415-441 | the timer, fired or woken, waits only for a full queue; otherwise what may be taken is queued, and what is left is nothing, an unfinished rune, or less than the cap and the threshold behind a batch it queued |
| BatcherLaws.ShortOutputIsShown | internal/sessions/batcher.go:415-441 | complete output within the cap and with a free slot is queued whole by the timer, which is not armed again |
| BatcherLaws.StuckMeansUnfinished | internal/sessions/batcher.go:448-478 | in a valid stream, nothing can be taken only if no whole rune fits the cap |
| BatcherLaws.AddTakes | internal/sessions/batcher.go:242-270 | an Add below the threshold only collects; at it, what may be taken is queued; it waits only for a full queue and above the threshold |
| BatcherLaws.AddResumeTakes | internal/sessions/batcher.go:390-405 | a woken Add leaves its wait exactly when there is a slot, and takes before it tests the threshold again |
| BatcherLaws.CloseFlushes | internal/sessions/batcher.go:329-359 | Close shuts the gate at once, waits only for a full queue with bytes left, and otherwise leaves nothing pending |
| BatcherLaws.TriggerRises | internal/sessions/batcher.go:272-312 | the threshold grows with the queue: plain below depth eight, twice that or the cap at the last free slot; a batch may be as large as configured, up to 96 KiB |
| BatcherLaws.AcceptedIsWhatWasAdded | internal/sessions/batcher.go:242-254 | in every run the accepted bytes are exactly those given to Add before the first Close or Discard |
| BatcherModel.StepKeepsInv | internal/sessions/batcher.go:170-441 | conservation, bounds, teardown order and an armed timer for a rest survive every critical section of every caller |
| BatcherModel.RunKeepsInv | internal/sessions/batcher.go:170-441 | the same for every run |
| BatcherModel.CloseMoves | internal/sessions/batcher.go:338-350 | the loop of Close only moves pending bytes into the queue, in order and within its bound, and goes through with nothing left pending |
| Utf8Scalars.ValidExactlyWhenEncoded | internal/sessions/batcher.go:209-238 | a byte string counts as valid if and only if it is the encoding of some sequence of Unicode scalar values, by the table of section 3 of RFC 3629 |
| Utf8Scalars.EncodedIsOneRune | internal/sessions/batcher.go:209-238 | the encoding of a scalar is one rune whatever follows, and its payload bits spell that scalar |
| Utf8Scalars.RuneIsEncoded | internal/sessions/batcher.go:209-238 | whatever counts as a rune is the encoding of one scalar: no overlong form, no surrogate, nothing above 0x10FFFF |
| Utf8Scalars.EncodingIsInjective | internal/sessions/batcher.go:209-238 | different texts have different encodings |
| Utf8.PrefixLen | internal/sessions/batcher.go:482-494 | the loop finds the last start byte at or below the limit |
| Utf8.TrailingPartial | internal/sessions/batcher.go:499-524 | the loop finds the unfinished rune at the end |
| Utf8.TrailingPartialIsTheRest | internal/sessions/batcher.go:499-536 | in a valid stream what is held back is exactly what follows the whole runes |
| Utf8.TakeBatch | internal/sessions/batcher.go:448-478 | a batch and its rest concatenate to what was pending; a final take always makes progress |
| Utf8.TakeKeepsRunesWhole | internal/sessions/batcher.go:448-478 | a non-final take is whole runes and at most three bytes short of the cap or of what is pending |
| Utf8.FinalTakeKeepsRunesWhole | internal/sessions/batcher.go:448-478 | so is a final take from a complete stream when a rune fits the cap |
| Utf8.TakeIsLongest | internal/sessions/batcher.go:448-478 | a take from a valid stream is the longest beginning of whole runes within the cap |
| Utf8.RepairOfValid | internal/sessions/batcher.go:209-238 | toValidUTF8 is the identity on valid UTF-8 |
| Utf8.RepairIsValid | internal/sessions/batcher.go:209-238 | toValidUTF8 always yields valid UTF-8 |
| Utf8.RepairKeepsRunes | internal/sessions/batcher.go:209-238 | whole runes in front are kept as they are |
| Utf8.RepairReplacesARun | internal/sessions/batcher.go:209-238 | a run of bytes at which no rune starts, up to the next rune or the end, becomes one U+FFFD |
| Utf8.ToValidUtf8 | internal/sessions/batcher.go:209-238 | the repairing loop replaces each maximal run of invalid bytes once |
| Batcher.OutputBatcher.Take | internal/sessions/batcher.go:448-478 | takes what the batch specification says and keeps the rest |
| Batcher.OutputBatcher.FlushReady | internal/sessions/batcher.go:259-270 | the flushing loop, up to the point where it has to wait |
| Batcher.OutputBatcher.Add | internal/sessions/batcher.go:242-254 | one step of the machine; an Add that does not wait leaves less than the threshold, or nothing that may be taken |
| Batcher.OutputBatcher.ResumeAdd | internal/sessions/batcher.go:390-405 | one step of the machine; it goes on waiting only for a full queue |
| Batcher.OutputBatcher.OnTimer | internal/sessions/batcher.go:415-441 | one step of the machine; unless the queue is full, what may be taken is queued and what is left is nothing, an unfinished rune or little behind a batch |
| Batcher.OutputBatcher.ResumeTimer | internal/sessions/batcher.go:415-441 | the same after its wait |
| Batcher.OutputBatcher.Close | internal/sessions/batcher.go:329-359 | one step of the machine; closed at once, with nothing pending unless the queue is full |
| Batcher.OutputBatcher.ResumeClose | internal/sessions/batcher.go:341-350 | one step of the machine; the same each time it resumes |
| Batcher.OutputBatcher.Discard | internal/sessions/batcher.go:366-385 | one step of the machine; nothing is left pending or queued |
| Batcher.OutputBatcher.NextBatch | internal/sessions/batcher.go:170-195 | the oldest batch is taken whenever there is one and nothing was discarded; the worker leaves exactly when discarded, or closed with an empty queue |
| Batcher.OutputBatcher.Emit | internal/sessions/batcher.go:196-204 | the sink receives the repaired batch, once |
| Transcript.AppendWellFormed | internal/agent/agent.go:449-456 | behind a well-formed transcript, the whole is well formed, or has at most its last round open, if and only if what was appended is or has |
| Transcript.PrefixIsResumable | internal/agent/agent.go:458-462 | wherever a well-formed transcript is cut, at most the last round is left open |
| Transcript.CutsCleanly | internal/agent/context.go:176-197 | a well-formed transcript may be cut before any message that is not a tool result |
| Transcript.TrimHistory | internal/agent/agent.go:497-505 | the result is the newest forty messages without the results they start with: nothing else is dropped |
| Transcript.TrimKeepsTheNewest | internal/agent/agent.go:497-505 | the same of the function; when the fortieth message from the end is no result, exactly forty are kept |
| Transcript.TrimKeepsShape | internal/agent/agent.go:497-505 | capping keeps the shape and the cap, and leaves a short transcript alone |
| Transcript.SuffixOfWellFormed | internal/agent/agent.go:497-505 | any suffix of a well-formed transcript is well formed once its leading results are dropped |
| Transcript.TrimStateMessages | internal/agent/eino_runner.go:191-209 | a leading system message stays, a body within the cap stays as it is, and of a longer one the newest forty messages, without the results they start with, are kept |
| Transcript.ReplayIsCappedLikeTheTranscript | internal/agent/eino_runner.go:191-209 | trimStateMessages(head + body) equals head + trimHistory(body) if and only if the body is over the cap or does not start with an orphan result; always for a well-formed body |
| Transcript.ModelSeesNoSystemMessage | internal/agent/eino_runner.go:140-148 | the model reads one system message, the instruction, and a well-formed conversation |
| Transcript.SummaryReachesTheModel | internal/agent/eino_runner.go:140-148 | the text of a leading system message ends the instruction, and every other message is passed on as it is |
| Transcript.FindLastCalling | internal/agent/agent.go:463-475 | the backward scan finds the last message with calls |
| Transcript.CollectAnswered | internal/agent/agent.go:476-481 | exactly the ids of the results behind it |
| Transcript.AnswerMissing | internal/agent/agent.go:482-490 | one answer for each unanswered call, in call order |
| Transcript.Reconcile | internal/agent/agent.go:463-492 | without a calling message nothing happens; otherwise the unanswered calls of the last one are answered at the end, in call order, and only the cap applies |
| Transcript.ClosesTheRound | internal/agent/agent.go:482-490 | with the added answers every call of the open round is answered exactly once |
| Transcript.AdditionsClose | internal/agent/agent.go:463-492 | a stopped run with the missing answers appended is well formed, wherever its rounds stand |
| Transcript.WellFormedNeedsNothing | internal/agent/agent.go:463-492 | a well-formed transcript needs no added answer |
| Transcript.ClosesExactlyWhenResumable | internal/agent/agent.go:463-492 | before the cap, the added answers make a transcript well formed if and only if at most its last round was open |
| Transcript.ReconcileIsIdempotent | internal/agent/agent.go:463-492 | for every transcript, well formed or not: afterwards no call of its last round is open, a second reconcile changes nothing, and the cap is kept |
| Transcript.ReconcileCloses | internal/agent/agent.go:463-492 | after reconcile no call is unanswered, no result is orphaned and the cap holds; a sound transcript is left alone |
| Transcript.TrimCaps | internal/agent/agent.go:497-505 | for every transcript: the result is within the cap without a leading orphan, and the input is left alone if and only if it was so before |
| Compaction.ToolRounds | internal/agent/context.go:150-167 | the jumping scan lists the complete rounds |
| Compaction.RoundsExact | internal/agent/context.go:150-167 | exactly the complete rounds, disjoint and increasing |
| Compaction.SplitForCompression | internal/agent/context.go:176-197 | prefix ++ keep is the input, and the prefix is the longest that leaves the newest messages and the newest rounds whole |
| Compaction.AdmissibleCutsCleanly | internal/agent/context.go:176-197 | both halves are well formed |
| Compaction.DropOldToolResults | internal/agent/context.go:408-420 | dropping rounds from the newest to the oldest equals noting the oldest from the front |
| Compaction.DropStep | internal/agent/context.go:415-418 | the indices of the rounds still to be dropped stay valid |
| Compaction.NoteReaches | internal/agent/context.go:423-441 | everything outside the replaced round keeps its place and order |
| Compaction.NoteNamesTheCalls | internal/agent/context.go:423-441 | the note names every tool the dropped round called |
| Compaction.NotingCounts | internal/agent/context.go:408-420 | noting n rounds leaves exactly the other rounds complete |
| Compaction.DroppingKeepsTheNewestRounds | internal/agent/context.go:408-420 | exactly min(keepRounds, all) complete rounds remain |
| Compaction.NotingKeepsShape | internal/agent/context.go:423-441 | dropping rounds keeps the protocol shape |
| Compaction.CompactionIsSound | internal/agent/context.go:364-393 | whatever the estimator and the summariser answer, the result is no longer than the history, keeps the cap and ends in the same prompt; if the history is well formed with system messages in front only, so is the result |
| Compaction.Compress | internal/agent/context.go:364-393 | for every history: one summary of the longest prefix that may go, a second and harder one, dropped rounds and the plain cap, each only when the stage before did not fit; the cap alone when nothing may be summarised |
| Compaction.SummariseOnce | internal/agent/context.go:366-383 | the longest prefix that may go is replaced by one system message that holds the summariser's answer for exactly that prefix |
| Conversations.PromptOpensARun | internal/agent/agent.go:293-298 | behind any transcript the prompt stays, at the end and within the cap; behind a well-formed one the whole is well formed |
| Conversations.AppendingStaysResumable | internal/agent/agent.go:449-456 | whatever a run produced, the cap is kept; if it produced whole rounds with at most the last one open, so is the transcript |
| Conversations.RunClosesExactlyWhen | internal/agent/agent.go:383-505 | a run within the cap ends with a well-formed transcript if and only if what it produced is whole rounds with at most the last one open |
| Conversations.Conversation.Ask | internal/agent/agent.go:293-298 | the prompt is the last message, and only the cap drops any of those before it |
| Conversations.Conversation.AppendAll | internal/agent/agent.go:449-456 | the transcript after any messages of a run; the cap always holds, the shape as long as every run was orderly |
| Conversations.Conversation.Reconcile | internal/agent/agent.go:463-492 | whatever the run left, no call of the last round stays open; a well-formed transcript is unchanged |
| Conversations.Agent.Prompt | internal/agent/agent.go:278-303 | accepted exactly when the agent is open and the conversation does not run; touches no other conversation |
| Conversations.Agent.PrepareContext | internal/agent/context.go:338-358 | a compaction is written back only to a conversation that is still attached, and keeps its prompt |
| Conversations.Agent.FinishRun | internal/agent/agent.go:383-423 | whatever a run produced, its transcript ends capped, without a leading orphan and without an open call in its last round, and well formed as long as every run was orderly; only an attached conversation is released |
| Conversations.Agent.Clear | internal/agent/agent.go:323-336 | the session continues with a fresh empty conversation; the old one is detached |
| Conversations.Agent.DisposeAll | internal/agent/agent.go:352-364 | no conversation is left and every later prompt is refused |
| McpModel.StepKeepsInv | internal/mcpcli/runtime.go:300-859 | slots, places, phantom-freedom, busy counts, generations and the gate survive every critical section of every caller |
| McpModel.RunKeepsInv | internal/mcpcli/runtime.go:300-859 | the same for every run |
| McpTheorems.ClosedSessionStaysGone | internal/mcpcli/runtime.go:300-319 | no phantom session: once its session:closed was handled an id is never registered or listed again, wherever the event falls |
| McpTheorems.LimitAndList | internal/mcpcli/runtime.go:434-454 | in every run registered sessions and pending connects stay within the limit, pending counts the connects in flight, and order lists the registered ids without repeats |
| McpTheorems.ReapingIsFinal | internal/mcpcli/runtime.go:718-770 | a session marked by the reaper has no operation in flight and never gets one |
| McpTheorems.BusyIsNeverReaped | internal/mcpcli/runtime.go:752-770 | a session with an operation in flight is never marked, and can start more |
| McpTheorems.RecentUseKeeps | internal/mcpcli/runtime.go:718-770 | in every run, a session used at some time is not marked by a Reap that comes less than the idle time later |
| McpTheorems.UseCounts | internal/mcpcli/runtime.go:403-744 | the registration, the start and the end of an operation are such uses |
| McpRuntime.ReapMarks | internal/mcpcli/runtime.go:752-766 | one Reap marks exactly the registered sessions without an operation in flight that were not used for the idle time, and changes nothing else |
| McpTheorems.ShutdownIsFinal | internal/mcpcli/runtime.go:841-859 | after a DisposeAll returned there is no session and no reaper for ever, and every connect is refused |
| McpTheorems.StopChannelsCloseOnce | internal/mcpcli/runtime.go:820-859 | no run closes the stop channel of a reaper generation twice |
| McpTheorems.OwnLoopHasEnded | internal/mcpcli/runtime.go:841-859 | in every run behind the return of a DisposeAll no reap loop starts, the one it detached has ended, and one that still runs is being stopped by another call that has not returned |
| McpTheorems.SecondDisposeAllDoesNotWait | internal/mcpcli/runtime.go:833-859 | a concrete run in which a second DisposeAll returns while the loop still runs, against the method's comment |
| McpShutdown.NoLoopIsLeftExactlyWhenOnlyTheCurrentOneRuns | internal/mcpcli/runtime.go:833-859 | DisposeAll returns with no loop running in every continuation if and only if, at its gate, no loop runs that another call already detached |
| McpShutdown.CurrentLoopIsJoined | internal/mcpcli/runtime.go:841-859 | the sufficient half: only the current loop runs |
| McpShutdown.OtherLoopIsLeft | internal/mcpcli/runtime.go:841-859 | the necessary half: a continuation in which the other loop outlives the call |
| McpRuntime.Runtime.Reserve | internal/mcpcli/runtime.go:434-445 | one step of the machine; a slot is booked exactly when the runtime is open and below its limit, and the limit still holds |
| McpRuntime.Runtime.ReleaseReserve | internal/mcpcli/runtime.go:448-454 | one step of the machine; the guard never hides a missing slot, exactly one is given back |
| McpRuntime.Runtime.Insert | internal/mcpcli/runtime.go:383-409 | one step of the machine; the session is registered exactly when the runtime is open and its close did not come first |
| McpRuntime.Runtime.DiscardLateConnect | internal/mcpcli/runtime.go:417-430 | without interference a refused session leaves no mark and gives its slot back |
| McpRuntime.Runtime.DropLocked | internal/mcpcli/runtime.go:487-495 | the scan removes the id from the map and from the list |
| McpRuntime.Runtime.OnClosed | internal/mcpcli/runtime.go:300-319 | one step of the machine; the session is gone, and leaves a tombstone exactly when it was neither known nor closed locally |
| McpRuntime.Runtime.BeginDisconnect | internal/mcpcli/runtime.go:466-477 | one step of the machine; exactly this session is dropped, and marked if it was known |
| McpRuntime.Runtime.DisconnectSession | internal/mcpcli/runtime.go:466-484 | without interference nothing of the session stays, not even its mark |
| McpRuntime.Runtime.Begin | internal/mcpcli/runtime.go:718-738 | one step of the machine; refused exactly for unknown and for reaped sessions, otherwise one more operation is counted and the session was used now |
| McpRuntime.Runtime.Done | internal/mcpcli/runtime.go:739-744 | one step of the machine; the busy count stays the number of operations in flight, and the session was used now |
| McpRuntime.Runtime.MarkIdle | internal/mcpcli/runtime.go:752-766 | one step of the machine; the ids are, in the order of the list, exactly the sessions not marked before, without an operation in flight and unused for the idle time, and they alone are marked |
| McpRuntime.Runtime.Reap | internal/mcpcli/runtime.go:752-770 | without interference exactly those sessions are torn down, and the others stay as they are |
| McpRuntime.Runtime.StartReaper | internal/mcpcli/runtime.go:779-800 | one step of the machine; at most one generation is current, and the stop channel of a new one was never closed |
| McpRuntime.Runtime.DetachReaper | internal/mcpcli/runtime.go:820-831 | one step of the machine; a generation taken away is to be closed by this call alone, and nobody has closed it |
| McpRuntime.Runtime.CloseAndJoin | internal/mcpcli/runtime.go:827-829 | the stop channel was open, is closed once, the loop ends and is waited for; nothing else changes |
| McpRuntime.Runtime.StopReaper | internal/mcpcli/runtime.go:820-830 | without interference the loop that was current has ended |
| McpRuntime.Runtime.CloseGate | internal/mcpcli/runtime.go:841-849 | one step of the machine; the snapshot holds exactly the registered sessions, each once, and no session joins them any more |
| McpRuntime.Runtime.DisposeAll | internal/mcpcli/runtime.go:841-859 | without interference no session is left, the loop it found was stopped once and has ended, and no loop runs unless another call is stopping one |
| McpRuntime.IdleIsFilter | internal/mcpcli/runtime.go:752-766 | Reap's picks are exactly the reapable sessions of the list, in its order and without repeats |
| TransferModel.Pick | internal/sftpservice/transfer_manager.go:470-483 | the least queue index whose session is below its cap, or none |
| TransferModel.Scheduled | internal/sftpservice/transfer_manager.go:464-504 | a call of schedule changes the state and logs the launches in the order it makes them |
| TransferProofs.StepKeepsInv | internal/sftpservice/transfer_manager.go:178-570 | accounting, session exclusion, order and owed schedules survive every critical section |
| TransferProofs.RunKeepsInv | internal/sftpservice/transfer_manager.go:178-570 | the same for every run |
| TransferProofs.ScheduledCore | internal/sftpservice/transfer_manager.go:464-504 | scheduling keeps the accounts and ends with nothing left to launch |
| TransferProofs.LaunchKeepsFifo | internal/sftpservice/transfer_manager.go:470-490 | the pick is the oldest queued task of its session |
| TransferTheorems.AccountsAgree | internal/sftpservice/transfer_manager.go:213-570 | in every run at most three tasks run, one for each busy session; runningSession holds exactly the busy sessions with value one; the queue has no repeats and is exactly the queued tasks |
| TransferTheorems.NothingIsForgotten | internal/sftpservice/transfer_manager.go:448-504 | with no schedule call owed and the manager open, three tasks run or every queued task's session is busy |
| TransferTheorems.SessionsAreFifo | internal/sftpservice/transfer_manager.go:464-504 | tasks of one session start in the order they were enqueued |
| TransferTheorems.OvertakingIsBounded | internal/sftpservice/transfer_manager.go:464-504 | while a task waits at index i with its session idle, at most i other tasks start before it |
| TransferTheorems.FewOvertake | internal/sftpservice/transfer_manager.go:464-504 | the same bound while it is still queued, over any run |
| TransferTheorems.LaunchPosition | internal/sftpservice/transfer_manager.go:464-504 | the same bound inside one call of schedule |
| TransferTheorems.NothingStartsAfterDispose | internal/sftpservice/transfer_manager.go:405-446 | nothing starts and nothing is queued after Dispose |
| TransferTheorems.TerminalIsFinal | internal/sftpservice/transfer_manager.go:297-402 | a finished task keeps its end until it is cleared, and is then gone for good |
| TransferTheorems.StepLives | internal/sftpservice/transfer_manager.go:297-570 | every task moves only along its life: queued, running, finalizing, an end |
| TransferManagers.TransferManager.Enqueue | internal/sftpservice/transfer_manager.go:214-244 | one step of the machine, or nothing when closed: the tasks join the queue in order, each with its own job, and nothing else changes |
| TransferManagers.TransferManager.Unqueue | internal/sftpservice/transfer_manager.go:305-310 | removes the first occurrence of the task |
| TransferManagers.TransferManager.Cancel | internal/sftpservice/transfer_manager.go:297-329 | one step of the machine: a queued task is cancelled and taken out, a running one is signalled, and no other task changes |
| TransferManagers.TransferManager.Retry | internal/sftpservice/transfer_manager.go:332-373 | one step of the machine: only a failed or cancelled task; the new one has its session and job, knows which it repeats, and is last in the queue |
| TransferManagers.TransferManager.Clear | internal/sftpservice/transfer_manager.go:376-389 | one step of the machine: a finished task goes, any other stays and the call is refused |
| TransferManagers.TransferManager.ClearCompleted | internal/sftpservice/transfer_manager.go:392-402 | one step of the machine, in whatever order the map is walked: exactly the finished tasks go |
| TransferManagers.TransferManager.CancelQueue | internal/sftpservice/transfer_manager.go:415-423 | everything queued is cancelled |
| TransferManagers.TransferManager.SignalRunning | internal/sftpservice/transfer_manager.go:425-431 | everything running is signalled |
| TransferManagers.TransferManager.Dispose | internal/sftpservice/transfer_manager.go:405-432 | one step of the machine: closes the gate, cancels every queued task and signals every running one, and no other task changes |
| TransferManagers.TransferManager.FindRunnable | internal/sftpservice/transfer_manager.go:470-481 | the scan returns the pick |
| TransferManagers.TransferManager.LaunchAt | internal/sftpservice/transfer_manager.go:486-496 | starts the picked task and counts it |
| TransferManagers.TransferManager.ScheduleLocked | internal/sftpservice/transfer_manager.go:464-504 | one step of the machine: the launched tasks run, unsignalled, the others are as they were, and nothing more can start |
| TransferManagers.TransferManager.Progress | internal/sftpservice/transfer_manager.go:510-519 | one step of the machine: a running task becomes finalizing, and what a task reports after its end changes nothing, so a late report cannot bring it back |
| TransferManagers.TransferManager.Finish | internal/sftpservice/transfer_manager.go:532-557 | one step of the machine: succeeded exactly without an error, failed exactly on another error of a task that was not signalled or was already finalizing, cancelled otherwise; its session is free, and the global count is the number of busy sessions |
| TomlStrings.TomlQuote | internal/mcpregistration/mcpregistration.go:403-432 | the loop prints the quoted form |
| TomlStrings.QuotedReadsBack | internal/mcpregistration/mcpregistration.go:302-432 | parseTOMLString of a printed string returns the string and the position just past the closing quote, whatever follows |
| TomlStrings.EscapeReads | internal/mcpregistration/mcpregistration.go:313-364 | every printed character reads back as itself |
| TomlStrings.QuoteInjective | internal/mcpregistration/mcpregistration.go:403-432 | strings that print alike are equal |
| TomlStrings.ParseTOMLString | internal/mcpregistration/mcpregistration.go:302-367 | basic and literal strings, with the position behind them |
| TomlStrings.ParseBasic | internal/mcpregistration/mcpregistration.go:313-364 | the escape loop computes the reading, from any position |
| TomlLaws.LiteralReads | internal/mcpregistration/mcpregistration.go:307-312 | a literal string reads as what stands between its quotes, backslashes and all |
| TomlLaws.NumericEscape | internal/mcpregistration/mcpregistration.go:345-358 | four digits behind a backslash and u, or eight behind U, name the character with that number; what is no scalar value becomes U+FFFD |
| TomlLaws.UnknownEscape | internal/mcpregistration/mcpregistration.go:359-360 | any other escape makes the string unreadable |
| TomlLaws.UnclosedReadsNothing | internal/mcpregistration/mcpregistration.go:302-367 | a string without its closing quote does not read, nor does a value without a quote |
| TomlLaws.SeparatorsSkip | internal/mcpregistration/mcpregistration.go:371-399 | blanks, line ends and commas separate items, in any number |
| TomlLaws.CommentSkips | internal/mcpregistration/mcpregistration.go:371-399 | a comment ends with its line, and one that does not end closes no array |
| TomlLaws.ItemTakes | internal/mcpregistration/mcpregistration.go:371-399 | an item is a string, and the rest goes on behind it |
| CodexConfig.ParseTOMLArray | internal/mcpregistration/mcpregistration.go:371-399 | the item loop computes the reading, comments and separators included |
| CodexConfig.FindCodexHeader | internal/mcpregistration/mcpregistration.go:229-250 | the line loop finds the first header line |
| CodexLaws.HeaderExactly | internal/mcpregistration/mcpregistration.go:236-243 | a line is the header if and only if it is blanks, the header, and behind it blanks and perhaps a comment |
| CodexLaws.FoundExactly | internal/mcpregistration/mcpregistration.go:229-250 | the header found is the first such line, and none is found only if there is none |
| CodexLaws.TableExactly | internal/mcpregistration/mcpregistration.go:217-219 | a line opens a table if and only if it is blanks and then an opening bracket |
| CodexLaws.BlockExactly | internal/mcpregistration/mcpregistration.go:199-223 | the block ends at the first line behind its own that opens a table, or at the end of the text |
| CodexConfig.CodexBlock | internal/mcpregistration/mcpregistration.go:199-223 | the span from the header to the next table or the end |
| CodexConfig.ParseEntry | internal/mcpregistration/mcpregistration.go:262-289 | one line of the block, with the offset of '=' taken in the trimmed line as the code does |
| CodexConfig.ParseCodexBlock | internal/mcpregistration/mcpregistration.go:255-298 | the line loop computes the block's command and arguments |
| CodexTheorems.FindReplaced | internal/mcpregistration/mcpregistration.go:229-250 | replacing everything from the header on leaves the header where it was |
| CodexTheorems.FindAppended | internal/mcpregistration/mcpregistration.go:510-521 | behind a document without the header, the appended one is found where it was put |
| CodexTheorems.BlockStops | internal/mcpregistration/mcpregistration.go:199-223 | where the block ends there is nothing, or the next table |
| CodexTheorems.RenderedLength | internal/mcpregistration/mcpregistration.go:199-223 | a printed block is found to end where it ends |
| CodexTheorems.RenderedReadsBack | internal/mcpregistration/mcpregistration.go:488-496 | a printed block reads back as its specification, or not at all for an empty command |
| CodexTheorems.QuotesReadBack | internal/mcpregistration/mcpregistration.go:371-399 | printed argument lists read back exactly |
| CodexTheorems.MergeKeepsTheRest | internal/mcpregistration/mcpregistration.go:510-521 | the text around the block is kept: all of it in front, all but trailing blanks behind |
| CodexLaws.NextTableSurvives | internal/mcpregistration/mcpregistration.go:510-521 | a table that follows the block, and all behind it, end the merged document as they were, up to trailing blanks |
| CodexTheorems.MergeIsDetected | internal/mcpregistration/mcpregistration.go:178-191 | after a merge the status is registered if and only if the command is non-empty and the arguments carry --mcp, otherwise stale |
| CodexLaws.OtherSpecIsDetected | internal/mcpregistration/mcpregistration.go:178-191 | a document merged for one command is registered for another specification if and only if the commands are the same under the path comparison, the command is not empty and the arguments carry --mcp |
| CodexLaws.DetectExactly | internal/mcpregistration/mcpregistration.go:178-191 | missing if and only if no line is the header; registered if and only if the block reads as a command that is the same under the path comparison, with --mcp |
| CodexTheorems.MergeIsIdempotent | internal/mcpregistration/mcpregistration.go:510-521 | merging twice is merging once |
| CodexTheorems.MergeEndsOnce | internal/mcpregistration/mcpregistration.go:507-521 | the document ends with exactly one line ending of its own kind |
| CodexTheorems.EolAround | internal/mcpregistration/mcpregistration.go:500-505 | the detected line ending is the same after the merge |
| CodexEntries.ReadExactlyWhenNotIndented | internal/mcpregistration/mcpregistration.go:262-289 | a complete command or args entry, of any value, with any blanks around '=' and anything behind it, is read as its value if and only if it is not indented; otherwise it counts as malformed |
| CodexEntries.IndentedEntryIsMalformed | internal/mcpregistration/mcpregistration.go:262-289 | any indented line whose key is command or args, whatever stands behind '=', counts as malformed |
| CodexEntries.MalformedSpoilsTheBlock | internal/mcpregistration/mcpregistration.go:262-298 | one malformed entry anywhere makes the whole block unreadable |
| CodexEntries.EntryReads | internal/mcpregistration/mcpregistration.go:262-289 | an entry at the start of its line reads as its value |
| CodexLaws.EntryLineApplies | internal/mcpregistration/mcpregistration.go:255-298 | a line with a key and its whole value sets that field, whatever was read before: the last one wins |
| CodexLaws.OtherLineSkips | internal/mcpregistration/mcpregistration.go:255-298 | blank lines, comments, table headers, lines without '=' and other keys say nothing |
| CodexEntries.ReadIsLocal | internal/mcpregistration/mcpregistration.go:302-367 | a string reads the same whatever follows its closing quote |
| CodexEntries.ArrayIsLocal | internal/mcpregistration/mcpregistration.go:371-399 | an array reads the same whatever follows its closing bracket |
| RemotePath.JoinRemote | internal/sftpservice/sftpservice.go:255-278 | the stack loop computes the joined path |
| RemotePath.JoinIsCanonical | internal/sftpservice/sftpservice.go:250-278 | the result is always absolute with plain segments only |
| RemotePath.JoinIsIdempotent | internal/sftpservice/sftpservice.go:255-278 | a canonical path is left alone, wherever it is joined |
| RemotePath.JoinComposes | internal/sftpservice/sftpservice.go:255-278 | for non-empty a and relative b, joining a then b is joining a + "/" + b |
| RemotePath.RenderInjective | internal/sftpservice/sftpservice.go:255-278 | a canonical path has one list of segments |
| RemotePath.WithinIsPrefix | internal/sftpservice/sftpservice.go:282-290 | withinRoot on canonical paths is exactly the prefix test on segments |
| RemotePath.JoinNamesTheEntry | internal/sftpservice/sftpservice.go:501-505 | the path removePath goes on with is the entry that was listed if and only if the name holds no backslash; where it leads otherwise is said by the rows of RemoteNames |
| RemoteNames.JoinLeads | internal/sftpservice/sftpservice.go:255-278 | joining a listed name climbs as many levels as its parts climb and then goes down the rest |
| RemoteNames.ChildStaysInside | internal/sftpservice/sftpservice.go:501-508 | the child stays in the directory being deleted if and only if the name goes back down what it climbed |
| RemoteNames.ChildGoesBelow | internal/sftpservice/sftpservice.go:501-510 | the child lies strictly below, so that the walk goes on, if and only if the name goes further down than it climbed |
| RemoteNames.PlainNameGoesBelow | internal/sftpservice/sftpservice.go:501-510 | a name without a backslash always does |
| RemoteNames.BackslashEscapes | internal/sftpservice/sftpservice.go:501-508 | a listed name `..\c` leads to the sibling c of the directory being deleted, which the guard lets through |
| RemoteNames.BackslashLoops | internal/sftpservice/sftpservice.go:501-510 | a listed name `a\..` leads to the directory that lists it; the guard lets it through and the walk starts over |
| RemoteNames.BackslashGoesDeeper | internal/sftpservice/sftpservice.go:501-508 | a listed name `a\b` leads two levels down: it stays inside, but is not the entry listed |
| RemoteDelete.DescendingByNames | internal/sftpservice/sftpservice.go:501-510 | every listed name goes strictly below exactly when each goes further down than it climbed |
| RemoteDelete.PlainTreesDescend | internal/sftpservice/sftpservice.go:501-510 | a tree whose names hold no backslash does |
| RemoteDelete.GuardIsQuiet | internal/sftpservice/sftpservice.go:506-508 | if the guard fires, some listed name did not go strictly below its directory |
| RemoteDelete.ChildKeepsRoot | internal/sftpservice/sftpservice.go:496-513 | a walk that comes back to the session's directory leaves in it an entry it cannot name, so the directory itself cannot be removed |
| RemoteDelete.EmptiedHadPlainNames | internal/sftpservice/sftpservice.go:496-513 | a directory that was emptied listed no name with a backslash |
| RemoteDelete.RemovePath | internal/sftpservice/sftpservice.go:488-514 | whatever names the tree holds: only entries inside the session's directory are deleted, that directory itself and every entry the join cannot name stay, and success means exactly the given subtree is gone; if every listed name goes strictly below its directory, nothing outside the given path is touched, the guard never fires and the walk ends; in a tree of plain names a working server deletes the whole subtree |
| RemoteDelete.NextIsDeletable | internal/sftpservice/sftpservice.go:496-513 | in a tree of plain names each entry is still there when its turn comes, in a tree that can be deleted |
| RemoteDelete.AllCleared | internal/sftpservice/sftpservice.go:496-514 | when every listed entry is gone, nothing lies below the directory |
| RemoteDelete.Remove | internal/sftpservice/sftpservice.go:438-483 | whatever names the tree holds: a refusal changes nothing, everything deleted lies inside one directory, which stays, and on success below one path strictly inside it; a link is unlinked and nothing else; the root, the current directory and paths outside it are always refused; in a tree of plain names a working server fails only when the target is not there |
| RemoteDelete.UnderShrinks | internal/sftpservice/sftpservice.go:488-514 | a recursive call for a name that goes strictly below has strictly less to delete |
| Commit.WriteTempAndCommit | internal/sftpservice/sftpservice.go:756-783 | at every step and under every failure the target is the old entry, or the old entry stands under the backup name, or the target is exactly the new file with the old mode; only target, temp and backup change; a working server writes every target but a directory and leaves neither temp nor backup behind; a write that failed through a single failure, or was refused for a directory, leaves all as it was |
| Commit.CommitUpload | internal/sftpservice/sftpservice.go:625-659 | the same for the commit alone; a directory is refused, an absent target takes a plain rename, and after one failure only the temp is left in addition |
| Commit.ReplaceAside | internal/sftpservice/sftpservice.go:648-658 | the fallback without the extension: aside, in, backup away, and back again on failure; a working server leaves no backup, and one failure is undone |
| Commit.CleanUp | internal/sftpservice/sftpservice.go:761-766 | removing the temp after a failure loses nothing of the old target; a working server removes it |
| RemoteFiles.RemoteFs.Rename | internal/sftpservice/sftpservice.go:648-653 | section 6.5 of draft-ietf-secsh-filexfer-02: a rename onto an existing name fails |
| RemoteFiles.RemoteFs.PosixRename | internal/sftpservice/sftpservice.go:642-647 | the extension replaces an existing file in one step |

## Left out

- The user interface, the application facade, native dialogs, fonts and window sizing, and the SSH test server.
- SSH dialling, command execution and port forwarding, the Eino and OpenAI libraries, the operating system's keyring and real clocks: they are nondeterministic steps or parameters.
- The JSON library: payloads go through an abstract codec with a round-trip law, and entries are stored as the documents they hold, with the length of their text.
- Credentials.DecodeChunks: base64 text with line breaks, which Go's decoder skips, is not modelled; the store never writes any.
- Backend and remote operations that fail after taking effect, and file systems changed by others during an operation.
- Keyring size limits below 2560 bytes, and reading a private key from a path.
- Batcher statistics, metrics logging and wall-clock durations; the timer is an event that may fire. Progress on runs of invalid bytes longer than the batch cap is not claimed.
- BatcherTheorems.ValidStreamIsEmittedUnchanged: claims complete delivery only for a Close that never waited for a slot; the exact condition is in CloseDeliversExactlyWhenTheQueueHasRoom.
- The agent's done channel: a prompt can replace it while the old run ends, so "closed once for each run" is not an invariant.
- Token estimates and the summariser are parameters of compaction; that compaction ends under budget is not claimed, since a note can be longer than the round it replaces.
- Conversations.Agent.Prompt: leaves out the checks made before the lock (empty or oversized prompts, configuration, a prompt that cannot fit the window).
- Conversations.AppendingStaysResumable: the shape of the transcript is claimed under a condition on what the run produced; RunClosesExactlyWhen shows the condition to be exact where the cap does not bite, and where it does, the cap may cut a broken round away.
- Conversations.Agent.PrepareContext: the summary is taken to leave a non-empty transcript, which the source checks and which always holds.
- TransferManagers.TransferManager.Progress: transferred and total bytes, which no modelled operation reads.
- Compaction.SplitForCompression: requires keepMessages above zero, as every caller passes; with zero the Go loop would index past the end.
- The reasoning text of a message, which no modelled operation reads.
- Boundedness of the MCP tombstones: a local disconnect can leave one behind. Guest sessions, whose operations are not counted, titles, host ids, permissions, SFTP handles and the tool calls themselves carry no state the proofs need.
- McpModel.StepKeepsInv: the sections of one call after its first are independent steps, so more interleavings are allowed than the code has; session metadata is a map of values instead of pointers.
- Transfer progress counters, timestamps, emitted events and the three-second wait of Dispose; a task's direction and paths are one opaque job.
- TomlStrings.ParseTOMLString: a numeric escape whose window of four or eight bytes ends inside a multi-byte character is read as malformed; Go would go on inside the character and produce invalid UTF-8.
- Reading and atomically writing the configuration file, the JSON clients, and path comparison, which is a parameter of detection.
- Commit.WriteTempAndCommit: the streamed upload with progress, which commits the same way, is not modelled, nor is the parent directory of the target.
- RemoteDelete.Remove: the server's resolution of links is an arbitrary canonical answer, so the claims hold for every answer. The walk is followed to any given depth, since it need not end; that it ends is claimed for trees whose listed names go strictly below their directory.
- Listing, reading, downloading and renaming over SFTP, settings normalisation, permission parsing, host and known-hosts stores and monitor parsing: single-branch or map facts.
