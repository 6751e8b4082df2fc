# Verification of the session, link and workbench core

This project models the parts of the repository where a mistake would be hard to
see, and proves what they are relied on for. It drives no process and opens no
socket: chunks, timers and failures of the original are steps or inputs here, and
so are the await points at which something else can come between, as named in
each file; the results hold for all of them. Awaits that are taken as one step are
listed under "Left out".

`dafny verify dfyconfig.toml` checks the whole project.

- **The encrypted collaboration link.** `RecordLayer` is the counter-numbered
  record layer over newline framing, `Handshake` the pairing of two devices and
  the hand-off of leftover bytes from one reader to the next. The link is shown
  to refine a plain, ordered stream of lines. `Primitives` states what is asked of
  AES-256-GCM, HKDF (RFC 5869), HMAC (RFC 2104), base64url and JSON;
  `IdealPrimitives` shows that these demands can be met together. `DaemonClient`
  is the client of the local daemon at the other end of the link.
- **The Codex app-server session.** `RpcSession` is a step system of writer,
  reader, driver and approval tasks over the shared response table, with results
  over every interleaving; `Approvals` is the mapping of a user's decision to the
  provider's words.
- **The two exec drivers.** `CodexDriver` and `ClaudeDriver` are `select!` loops
  that are shown to parse every consumed line and then close exactly once;
  `ClaudeDriver` also accounts for tokens. `Agents` and `Loops` hold what they share.
- **The transcript.** `Streaming` is the event batcher against naive merging,
  `Transcript` the building and ordering of items over the stable sort of
  `Sorting`, `ToolRuns` the grouping of tool calls.
- **The workbench controller.** `Detection` is the cache guarded by two revision
  counters, `RepoAssignments` the latest-wins writes, `RefreshLoop` the coalesced
  refresh (and, with a thread's diff in place of the snapshot, `loadDiff`).
- **Smaller cores.** `PatchParser` (unified diffs, against a printer),
  `RepositoryMap`, `WorkerSlots` and `InstructionSync` (the collaboration worker),
  `Attachments` (packing and base64 sizes) and `Markdown` (block structure and
  termination).

## How to read it

Each stateful part has a state datatype with a `Next` or step function that says
what the code does between two awaits, a class whose methods make the same
changes in place and are proved against that function, and lemmas over whole runs
(`After`). Code with loops is a method proved equal to a specification function;
the lemmas are about that function.

Where a result is about the past, the model carries a little history
that the code does not store: the stamps and `freshBy` in `Detection`, `requests`
in `RefreshLoop`, `last` and `persisted` in `RepoAssignments`, `reported`, `sent`
and `deleted` in `InstructionSync`, `settled` in `DaemonClient`. No decision
depends on it; what a whole run has done is otherwise a function of its steps, as
`ShownSince` in `Detection` or `DecisionOf` in `RpcSession`.

## Where the code falls short of its purpose

Each of these is proved, with the exact condition under which the code does what
it is for.

- The sender of the link does not bound complete lines, but the receiver rejects
  those longer than its limit: delivery is complete exactly for lines that fit.
- `token_usage_event` adds four figures without a check; in a build without
  overflow checks, usage is dropped exactly when the sum is a non-zero multiple of
  2^64.
- A probe that ends under its own revisions puts back the account list it has read,
  or fell back on, exactly when a refresh of the same revision wrote one meanwhile.
- A device that is revoked while its first credential is still being stored keeps a
  live session, and so does one whose revocation could not be stored: exactly then.
- A repository selection, or a refresh, that is asked for between the end of the
  shared loop and the clearing of its slot joins a promise that is already over.
- A patch row that ends in a carriage return loses it; a second file without a
  `diff --git` line is read as rows of the first.
- An instruction can be sent twice: exactly as long as another sync is on its way to
  send it, or it is not noted as delivered and a sync can still come to it. A report
  that the thread runs again is not heard while the run is finishing; the run is then
  held until the thread reports once more, and the worker's slot with it.
- A message is not read back exactly if the text before its attachments has an
  opening mark of its own, or the text behind them a closing one.
- An Allow, a Deny and an Abort get the same reply exactly for a permissions request
  that asks for none; Deny and Abort do for every permissions request.
- A Markdown line such as a fence or heading with a lone carriage return, U+2028
  or U+2029 keeps the block loop from ever moving on.
- Batched merging differs from merging one at a time exactly where a frame has an
  event without the `streaming` flag and the row would be kept against what the
  events since the last such one have come to.

## Model

| member | source | states |
|---|---|---|
| `RecordLayer.CounterNonceInjective` | src/node/collaborationTransport.ts:723-728 | two counters that the nonce can hold, those below 2^64, never give the same nonce |
| `RecordLayer.Channel.FrameRoundTrip` | src/node/collaborationTransport.ts:688-721 | a frame opens to the line it was sealed from, under the same key, counter and direction, exactly when the line is within the size limit |
| `RecordLayer.EncryptedDaemonSocket.WriteChunk` | src/node/collaborationTransport.ts:564-590 | a write seals every complete line of the buffered text under consecutive counters and keeps the rest; it fails exactly when a nonce or the size of the rest runs out |
| `RecordLayer.EncryptedDaemonSocket.OnWireData` | src/node/collaborationTransport.ts:597-626 | a chunk is opened frame by frame; a frame that does not open, or too large a buffer, closes the stream and pushes nothing more |
| `RecordLayer.WriteAllSendsFrames` | src/node/collaborationTransport.ts:564-590 | however the text is split into writes, the wire holds the frames of its complete lines, in order |
| `RecordLayer.FrameTextBound` | src/node/collaborationTransport.ts:597-602 | the text of any frame whose line fits, numbered below 2^64, stays under an explicit bound, so that chunks of at most `MAX_CHUNK` never fill the 2 * MAX buffer |
| `RecordLayer.LinkRefinesLineStream` | src/node/collaborationTransport.ts:537-626 | for every split of the writes and every chunking of any part of the wire, the reader has been given a prefix of the complete lines written |
| `RecordLayer.LinkDeliversEverything` | src/node/collaborationTransport.ts:537-626 | once all bytes have arrived in bounded chunks, all lines are delivered if and only if each fits the size limit; the counters then agree |
| `RecordLayer.ForeignFramesOnlyEndTheStream` | src/node/collaborationTransport.ts:597-626 | whatever text arrives, in any chunks, as long as no line of it opens to something the peer did not seal under that counter: the lines pushed are first lines of those sent, and a frame that does not belong only ends the stream |
| `RecordLayer.NoForgeryMeansNoSealing` | src/node/collaborationTransport.ts:688-721 | that demand holds if and only if nothing that arrives holds a text sealed for this key, counter and direction but the peer's line of that counter |
| `RecordLayer.AlteredFramesNeverOpen` | src/node/collaborationTransport.ts:688-721 | a line opens under no counter if and only if it holds no text sealed for this key and direction |
| `RecordLayer.OtherChannelsFramesNeverOpen` | src/node/collaborationTransport.ts:688-721 | a frame sealed for another key or direction, one sent back for instance, never opens if and only if it is too long or its sealing collides with none for this one |
| `RecordLayer.OwnFramesAreNoForgery` | src/node/collaborationTransport.ts:688-721 | the sender's own frames, in any order, left out or repeated, with anything between them that never opens, meet that demand |
| `RecordLayer.ReorderedFramesDeliverAPrefix` | src/node/collaborationTransport.ts:597-626 | so of such text the reader is given first lines of those sent, in order, and nothing else |
| `RecordLayer.NoncesNeverRepeat` | src/node/collaborationTransport.ts:688-728 | over a whole session, the credential frame included, no key and nonce are used together twice if and only if the two keys differ or the client wrote no frame |
| `Handshake.InboundSocket.ReadJsonLine` | src/node/collaborationTransport.ts:776-816 | reads exactly one line from any chunks and puts back what follows it; too much text or an end of input gives none |
| `Handshake.ReadTakesOneLine` | src/node/collaborationTransport.ts:776-816 | however a line and what follows are cut into chunks, a successful read takes exactly the line and leaves exactly what follows |
| `Handshake.ShortLineIsRead` | src/node/collaborationTransport.ts:776-816 | a line that leaves room for one more chunk within the limit is always read |
| `Handshake.CollaborationHost.AcceptHello` | src/node/collaborationTransport.ts:160-212 | the host's checks, credential and first message for a hello, up to the await on the store; a known device is welcomed at once |
| `Handshake.CollaborationHost.OnEnrolmentStored` | src/node/collaborationTransport.ts:206-241 | behind that await: the credential frame and the session, or nothing if the store failed |
| `Handshake.UndisturbedAccept` | src/node/collaborationTransport.ts:160-241 | with nothing between the two halves, table, messages and session are those of `Accept`, which the results below speak of |
| `Handshake.CollaborationHost.RevokeDevice` | src/node/collaborationTransport.ts:140-145 | drops the device's credential and every invite, up to the await on the store |
| `Handshake.CollaborationHost.OnRevocationStored` | src/node/collaborationTransport.ts:145-149 | behind that await: the loop disposes of every live session of the device and of no other |
| `Handshake.RevokedStaysOut` | src/node/collaborationTransport.ts:140-241 | from the begin of a revocation on, over every run without a new invite, no hello enrols the device or gives it a session |
| `Handshake.RevocationHoldsExactly` | src/node/collaborationTransport.ts:140-241 | whatever happens while a revocation waits: once it has ended, the device has a session, now or ever before a new invite, if and only if an enrolment of it that was under way when the revocation began still waits for its store, or the revocation's own store failed and a session was left |
| `Handshake.RevokedDeviceCanStay` | src/node/collaborationTransport.ts:140-241 | it happens for every valid invite: revoked while its credential is being stored, the device has a session and no credential |
| `Handshake.BothSidesAgree` | src/node/collaborationTransport.ts:160-241 | when the host accepts a client's hello, the client completes if and only if the stored credential is long enough; both then hold the same secret, keys and counters (1 and 0), and the client stores what the host recorded |
| `Handshake.SessionNoncesNeverRepeat` | src/node/collaborationTransport.ts:160-241 | in a session the host accepted no key and nonce are used together twice if and only if the halves of the key material differ or the client writes no frame |
| `Handshake.HostMessagesAreReadExactly` | src/node/collaborationTransport.ts:465-535 | server hello, credential frame and later bytes, coalesced in any way: reading the two messages leaves exactly the later bytes |
| `Handshake.HostLinesReachClient` | src/node/collaborationTransport.ts:160-535 | from host to client across the hand-off: a client that completed is given a prefix of the lines written |
| `Handshake.ClientLinesReachHost` | src/node/collaborationTransport.ts:160-535 | the same from client to host, behind the hello |
| `DaemonClients.ChunksJoin` | src/node/daemonClient.ts:698-708 | data in two chunks is handled as data in one |
| `DaemonClients.HandOffIsSeamless` | src/node/daemonClient.ts:37-77 | however acknowledgement and messages are cut into chunks, the client reads exactly what follows the acknowledgement's line |
| `DaemonClients.OutcomesAreFinal` | src/node/daemonClient.ts:84-95 | over every run a request gets an id never used before, and an outcome once told never changes |
| `DaemonClients.AnswersAreOwn` | src/node/daemonClient.ts:710-753 | data settles a waiting request only by an answer with its own id, and a closed connection settles every one |
| `DaemonClients.DaemonClient.HandleData` | src/node/daemonClient.ts:698-708 | the loop over the buffer handles exactly its complete lines and keeps the remainder |
| `DaemonClients.DaemonClient.HandleLine` | src/node/daemonClient.ts:710-745 | an event is passed on, an answer settles its pending request, any other is dropped |
| `RpcSession.ResponseTable.Allocate` | crates/am-agents/src/codex_app_server.rs:457-458 | takes the next id for a new request |
| `RpcSession.ResponseTable.Insert` | crates/am-agents/src/codex_app_server.rs:459-465 | registers the request unless the table is closed |
| `RpcSession.ResponseTable.Respond` | crates/am-agents/src/codex_app_server.rs:539-554 | takes the waiting sender with this id out and answers it, or changes nothing |
| `RpcSession.ResponseTable.Close` | crates/am-agents/src/codex_app_server.rs:570-582 | closes the table, fails every waiting request, and tells whether there was one |
| `RpcSession.ClosedForEver` | crates/am-agents/src/codex_app_server.rs:571-594 | in every interleaving, once closed the table stays closed and empty |
| `RpcSession.IdsAreNotReused` | crates/am-agents/src/codex_app_server.rs:456-475 | no two requests share a wire id if and only if at most 2^64 were made |
| `RpcSession.RepliesAreOwn` | crates/am-agents/src/codex_app_server.rs:456-560 | a request that resolved with a reply got the response with its own id, taken while it waited, and no response resolved two |
| `RpcSession.NobodyIsForgotten` | crates/am-agents/src/codex_app_server.rs:456-475 | while the counter has not gone round, nobody else drops a request's channel |
| `RpcSession.OutcomesAreFinal` | crates/am-agents/src/codex_app_server.rs:456-594 | a request resolves at most once |
| `RpcSession.ClosedRequestsResolve` | crates/am-agents/src/codex_app_server.rs:456-594 | after the end of output every request resolves in every continuation that holds its own remaining steps in order, unless it is abandoned |
| `RpcSession.ServerRequestsAnsweredOnce` | crates/am-agents/src/codex_app_server.rs:598-698 | every request of the server is in one place: with the user, with its approval task, in the reader (also an aborted one), or answered; so it has no reply exactly in the first three, never two, and the reply is the one that is due |
| `RpcSession.AbortedReplyIsLost` | crates/am-agents/src/codex_app_server.rs:640-697 | a reply that the reader had in hand when it was aborted is never sent |
| `RpcSession.RepliesCarryTheirOwnId` | crates/am-agents/src/codex_app_server.rs:598-698 | the writer's queue holds the replies in order, each with the id it answers |
| `RpcSession.TerminalStatus` | crates/am-agents/src/codex_app_server.rs:522-594 | the first terminal notification decides the status, which is then missing exactly while the reader rests, or was aborted, in passing its events on; without one the end of output gives Failed; the disconnect error is shown at most once, and stands without a status exactly where the reader rests or was aborted between the two |
| `RpcSession.AbortIsFinal` | crates/am-agents/src/codex_app_server.rs:522-594 | an aborted reader gives no status and shows no error any more |
| `RpcSession.TerminalIsFinal` | crates/am-agents/src/codex_app_server.rs:522-594 | what went through the terminal channel is never taken back |
| `Approvals.AnswersFollowTheUser` | crates/am-agents/src/codex_app_server.rs:708-736 | accept or decline questions are recognised exactly when all are; there is then an answer for exactly the ids asked about, and that of the last question with an id follows the user |
| `Approvals.DecisionsSurviveTheWire` | crates/am-agents/src/codex_app_server.rs:806-843 | a reply is consent if and only if the user allowed, or permissions are at stake and none was asked for; two decisions get the same reply if and only if they are one, or both are about permissions, neither is for the session, and both allow, both do not, or none was asked for |
| `CodexDriver.PushChanges` | crates/am-agents/src/codex.rs:731-748 | the loop over changes pushes one event for each that has a path |
| `CodexDriver.ParseFileChange` | crates/am-agents/src/codex.rs:727-757 | appends one event for each change with a path and one result with the number of changes |
| `CodexDriver.ParserOnlyHints` | crates/am-agents/src/codex.rs:609-655 | no line ends the session; only turn outcomes hint at a status, and only a completed turn reports tokens |
| `CodexDriver.ReadOutput` | crates/am-agents/src/codex.rs:480-535 | in every run of turns the loop sends the parse of the consumed lines, as far as the receiver takes it, and notes how it was left |
| `CodexDriver.Drive` | crates/am-agents/src/codex.rs:448-599 | what any receiver gets is the script of the run (parsed events, at most one closing event, the end) cut where it left |
| `CodexDriver.StopIsFirst` | crates/am-agents/src/codex.rs:480-535 | the loop is left at the first turn that leaves it |
| `CodexDriver.SessionEndsOnce` | crates/am-agents/src/codex.rs:536-599 | the end of the session is told at most once, is last, and reaches every receiver that stays |
| `CodexDriver.InterruptedIffCutShort` | crates/am-agents/src/codex.rs:546-560 | the status is Interrupted if and only if the run was cut short |
| `CodexDriver.OutcomeBeatsExitCode` | crates/am-agents/src/codex.rs:546-599 | the last outcome in the stream beats the exit code; exactly when a closing event is sent |
| `ClaudeDriver.PermissionDenials` | crates/am-agents/src/claude.rs:825-846 | the loop collects the names that the next row is about, behind the number of blocked actions |
| `ClaudeDriver.EveryDeniedToolIsNamedOnce` | crates/am-agents/src/claude.rs:832-840 | every blocked tool is named, no other is and none twice, in the order of first mention |
| `ClaudeDriver.ParserReportsUsageFirst` | crates/am-agents/src/claude.rs:663-785 | a line states usage at most once and first, with 64-bit figures, and never ends the session |
| `ClaudeDriver.UsageReportIsExact` | crates/am-agents/src/claude.rs:787-811 | a sum below 2^64 is reported exactly; the input figure is exact if and only if it fits in 64 bits and never too large; a report is missing only for all zeros and for sums of one, two or three times 2^64 |
| `ClaudeDriver.WrappedSumDropsUsage` | crates/am-agents/src/claude.rs:806-811 | figures whose tokens the unchecked sum loses |
| `ClaudeDriver.ReaderReads` | crates/am-agents/src/claude.rs:500-523 | the driver's own line reader meets what its results ask of one |
| `ClaudeDriver.FilterEvent` | crates/am-agents/src/claude.rs:505-523 | of a usage event, what is sent and noted: the first report of a message, or what a result adds |
| `ClaudeDriver.SendMessage` | crates/am-agents/src/claude.rs:505-530 | the events of one line go out in order, usage filtered, up to the first the receiver refuses |
| `ClaudeDriver.TakeTurn` | crates/am-agents/src/claude.rs:481-571 | each arm of the `select!`: whether it leaves the loop, and how |
| `ClaudeDriver.ReadOutput` | crates/am-agents/src/claude.rs:480-572 | the whole loop is the run of its turns |
| `ClaudeDriver.Drive` | crates/am-agents/src/claude.rs:416-639 | what any receiver gets is the script of the run (opening error, filtered events, at most one closing event, the end) cut where it left |
| `ClaudeDriver.SessionEndsOnce` | crates/am-agents/src/claude.rs:574-639 | the end of the session is told at most once, is last, and reaches every receiver that stays |
| `ClaudeDriver.UsageIsConserved` | crates/am-agents/src/claude.rs:503-523 | in every run the tokens sent are the first reports plus what each result states beyond them, although the totals saturate at 64 bits |
| `ClaudeDriver.ResultTopsUp` | crates/am-agents/src/claude.rs:641-659 | a stream closed by its one result sends, per component, the larger of the result's figure and the sum of first reports |
| `ClaudeDriver.SeenMeansStated` | crates/am-agents/src/claude.rs:514-519 | an id counts as seen if and only if an earlier line stated usage for it |
| `Loops.RunStops` | crates/am-agents/src/claude.rs:480-572 | a loop over turns ends at the first turn that leaves it, having sent and noted what the turns before amount to |
| `Loops.StopIsFirst` | crates/am-agents/src/claude.rs:480-572 | no turn before that one leaves the loop |
| `Streaming.ChooseAssociates` | webview/src/streaming.ts:33-48 | merging three snapshots of a row in either grouping differs exactly when the middle one lacks the flag and the first would be kept against the last |
| `Streaming.MergeThreadEvents` | webview/src/streaming.ts:25-50 | the loop over rows and pending updates is the merge of the two lists |
| `Streaming.MergeOneKnown` | webview/src/streaming.ts:25-50 | merging one event updates the first row with its id and no other |
| `Streaming.MergeOneNew` | webview/src/streaming.ts:25-50 | an event with a new id is appended |
| `Streaming.EventBatcher.Enqueue` | webview/src/streaming.ts:14-18 | the last event of an id waits in the place of its first, and a frame is scheduled |
| `Streaming.EventBatcher.Flush` | webview/src/streaming.ts:7-13 | delivers what waits, once, and nothing waits afterwards |
| `Streaming.EventBatcher.Dispose` | webview/src/streaming.ts:20-20 | nothing waits and no frame is scheduled |
| `Streaming.EnqueueThenMerge` | webview/src/streaming.ts:4-50 | putting an event in the batch is merging it after the batch |
| `Streaming.BatchingIsTransparent` | webview/src/streaming.ts:4-50 | for ids whose rows agree on having the flag, every interleaving of events, frames, history and resets gives the transcript of merging each event alone |
| `Streaming.BatchingShowsExactly` | webview/src/streaming.ts:4-50 | for any transcript and any list of live events of a frame, batching can be seen if and only if some row would be kept against what its own events have come to since the last of them without a flag |
| `Streaming.MixedFlagsShow` | webview/src/streaming.ts:33-48 | that happens |
| `Streaming.NoRewind` | webview/src/App.tsx:214-261 | over any run no row moves or disappears, a completed row never streams again and streamed text never gets shorter, between any two moments without a transcript reset between them |
| `Transcript.SupersededActivities` | webview/src/transcript.ts:216-234 | the nested loops hide exactly the openers that the definition hides |
| `Transcript.SupersededIsExact` | webview/src/transcript.ts:216-234 | an opener is hidden if and only if an outcome for its agent follows in time order with no repeat in between |
| `Transcript.HiddenOpenersAreAnnounced` | webview/src/transcript.ts:216-268 | a hidden opener has no notice, and a later outcome of the same episode has one |
| `Transcript.SendTimeAnchors` | webview/src/transcript.ts:286-313 | every send-time activity is anchored half a millisecond behind the first message at or after it, or trails |
| `Transcript.FindTrigger` | webview/src/transcript.ts:290-304 | the sorted search finds the least message time that is not before the activity |
| `Transcript.CollectEvents` | webview/src/transcript.ts:117-140 | events without routine ones, bubbles' twins and repeated messages |
| `Transcript.BuildTranscriptItems` | webview/src/transcript.ts:95-207 | the built and sorted items are the specified order of all of them |
| `Transcript.NoticeFollowsItsMessage` | webview/src/transcript.ts:274-313 | a send-time notice follows what is shown of its message; only items of that message's time, or other notices of it, come between |
| `Transcript.NoticeTrailsTheBubble` | webview/src/transcript.ts:488-512 | until its message is persisted the notice trails every bubble, queued turn and dated event |
| `Transcript.HandOverIsInvisible` | webview/src/transcript.ts:95-207 | with a time and a text of its own, a message that replaces its bubble takes its place and nothing else moves |
| `Sorting.SortSorts` | webview/src/transcript.ts:204-207 | the sort orders by key and keeps every item |
| `Sorting.SortIsStable` | webview/src/transcript.ts:204-207 | items with the same key keep their order |
| `Sorting.SortWithUnique` | webview/src/transcript.ts:204-207 | an item with a key of its own goes to its place wherever it came from |
| `ToolRuns.GroupToolRuns` | webview/src/transcript.ts:42-52 | the loop over items is the grouping |
| `ToolRuns.GroupingKeepsOrder` | webview/src/transcript.ts:42-52 | the blocks hold the items in their order, none lost or doubled |
| `ToolRuns.GroupsAreTurns` | webview/src/transcript.ts:42-52 | a block holds tool events of one turn, and neighbouring blocks are of different turns |
| `PatchParser.ParseLines` | webview/src/changeLog.tsx:6-34 | the loop over lines is the fold of one step per line |
| `PatchParser.ParsePatch` | webview/src/changeLog.tsx:6-34 | splits the text and folds its lines |
| `PatchParser.ReadHunkHeader` | webview/src/changeLog.tsx:22-24 | the header pattern reads back both line numbers, with or without counts |
| `PatchParser.ClassifyRow` | webview/src/changeLog.tsx:28-31 | inside a hunk a row is a row, also when it reads like a file header |
| `PatchParser.FeedFile` | webview/src/changeLog.tsx:14-31 | whatever was read before, a printed file adds its rows under its path and nothing else |
| `PatchParser.ParseUndoesPrint` | webview/src/changeLog.tsx:6-34 | parsing undoes printing for every structured patch, up to one carriage return at the end of a row |
| `PatchParser.ParseReturnsEveryFile` | webview/src/changeLog.tsx:6-34 | for distinct paths the result has exactly the printed files with their rows |
| `PatchParser.NumberingIsConsecutive` | webview/src/changeLog.tsx:28-31 | a row's numbers are those of its hunk plus the rows before it on that side |
| `PatchParser.ParseIsExact` | webview/src/changeLog.tsx:13-13 | a file reads back unchanged if and only if no row or heading of it ends in a carriage return |
| `PatchParser.HeadersBeginAFileOutsideHunksOnly` | webview/src/changeLog.tsx:14-31 | wherever the loop has got to, the two header lines of a file begin it if and only if the loop is not in a hunk; behind a hunk they are a deleted and an added row of the file before |
| `PatchParser.ClassifyReadsHeaders` | webview/src/changeLog.tsx:14-31 | the parser's own reading of lines meets what that result asks of one |
| `PatchParser.UnreadableNameIsKept` | webview/src/changeLog.tsx:9-13 | a quoted name that is no JSON text is kept with its quotes and escapes; one that is read loses its prefix |
| `Detection.WorkbenchController.InvalidateDetection` | src/node/workbenchController.ts:1518-1522 | counts the revision up and marks the cache stale, keeping its values |
| `Detection.WorkbenchController.Detect` | src/node/workbenchController.ts:1529-1541 | returns what is known and starts a probe when it is old and none is running |
| `Detection.WorkbenchController.StartDetection` | src/node/workbenchController.ts:1543-1547 | a probe remembers both revisions; none starts while one is in flight |
| `Detection.WorkbenchController.Publish` | src/node/workbenchController.ts:1548-1553 | a read is published only under the revisions its probe started with |
| `Detection.WorkbenchController.TakeRevision` | src/node/workbenchController.ts:1391-1393 | a refresh takes a new account revision |
| `Detection.WorkbenchController.ApplyAccounts` | src/node/workbenchController.ts:1397-1405 | only the refresh of the current revision writes the account fields |
| `Detection.WorkbenchController.ContinueProbe` | src/node/workbenchController.ts:1570-1612 | what each read of a probe publishes, and what a failed one falls back on |
| `Detection.WorkbenchController.FinishProbe` | src/node/workbenchController.ts:1627-1654 | the result of a probe, except for what is newer or was invalidated |
| `Detection.WorkbenchController.FinishDetection` | src/node/workbenchController.ts:1677-1680 | a stale cache is probed again |
| `Detection.OldProbesAreSilent` | src/node/workbenchController.ts:1543-1654 | after a refresh has taken a revision, no probe started before changes an account field, over any further run |
| `Detection.RevisionsOnlyGrow` | src/node/workbenchController.ts:1397-1654 | no step takes the limit policy or the account state back to an older revision, and the account list only where a probe with a failed read finishes under its own revisions |
| `Detection.ListsCameIn` | src/node/workbenchController.ts:1397-1654 | over every run the list shown, and that of the running probe, are the ones that came in with the step the history names |
| `Detection.ListGoesBackExactlyWhenOvertaken` | src/node/workbenchController.ts:1597-1654 | over every run the list shown goes back to one that came in earlier if and only if a probe finishes under both its revisions although a refresh of that revision wrote after the probe's account read had come in or failed |
| `Detection.RefreshedAccountsCanBeLost` | src/node/workbenchController.ts:1597-1654 | both happen from the very beginning on: the list a refresh has just read gives way to the fallback, or to the list the probe read before |
| `Detection.FreshOnlyThroughLaterProbe` | src/node/workbenchController.ts:1518-1654 | after an invalidation the cache is fresh again only once a probe started after it |
| `Detection.OvertakenProbeIsFollowed` | src/node/workbenchController.ts:1649-1680 | a probe that an invalidation overtook is followed by one of the current revisions |
| `RepoAssignments.AssignmentQueue.AssignRepos` | src/node/workbenchController.ts:690-703 | the newest selection waits; the caller joins the drain in flight or starts one |
| `RepoAssignments.AssignmentQueue.Drain` | src/node/workbenchController.ts:707-714 | a drain writes what waits, or goes on |
| `RepoAssignments.AssignmentQueue.OnFailed` | src/node/workbenchController.ts:723-726 | a failed drain drops what waits and rejects |
| `RepoAssignments.OneWriteAtATime` | src/node/workbenchController.ts:690-727 | over every run at most one write of a thread is in flight |
| `RepoAssignments.ResolvesWithLastRequest` | src/node/workbenchController.ts:705-727 | whenever the shared promise resolves, the daemon holds what was asked for last |
| `RepoAssignments.CallIsServed` | src/node/workbenchController.ts:690-727 | until the next call, the last selection is what its drain persists, unless it rejects |
| `RepoAssignments.CallInGapOnlyWaits` | src/node/workbenchController.ts:693-700 | a call between the end of a drain and the clearing of its slot is not written |
| `RepoAssignments.WrittenUnlessInGap` | src/node/workbenchController.ts:693-700 | a selection can get written before the next call if and only if it does not come in that gap |
| `RefreshLoop.Refresher.Refresh` | src/node/workbenchController.ts:729-734 | records the request, and starts the loop if none is running |
| `RefreshLoop.Refresher.OnSnapshot` | src/node/workbenchController.ts:738-741 | shows the snapshot and goes round again while a request waits |
| `RefreshLoop.LoopLeavesNoRequest` | src/node/workbenchController.ts:729-744 | what is shown never gets older, and a loop that ends has shown a snapshot begun after every request |
| `RefreshLoop.RequestIsFollowed` | src/node/workbenchController.ts:729-744 | a request is followed by a snapshot that begins after it and shows its error |
| `RefreshLoop.FollowedUnlessInGap` | src/node/workbenchController.ts:733-743 | that holds before the next request if and only if it does not come between the end of the loop and the clearing of its slot |
| `RepositoryMap.MapRepositories` | src/node/collaborationWorker.ts:513-561 | the loop gives every binding its outcome and fills the two maps and three lists accordingly |
| `RepositoryMap.OutcomeIsForced` | src/node/collaborationWorker.ts:530-548 | what a binding gets among the clones no earlier one was given: the only one with its remote; if none has it, the only one with its name; if there is none either, the only clone of the only binding; ambiguous exactly where the deciding test fits several |
| `RepositoryMap.ClonesAreListedInOrder` | src/node/collaborationWorker.ts:550-555 | the clones returned are those given out, each once, in the order of their bindings |
| `RepositoryMap.CloneIsUsedOnce` | src/node/collaborationWorker.ts:532-551 | no clone is given to two bindings |
| `RepositoryMap.MapsAreInverse` | src/node/collaborationWorker.ts:526-553 | the two maps undo each other if and only if no central repository was mapped twice |
| `RepositoryMap.MappedMeansMapped` | src/node/collaborationWorker.ts:526-553 | for distinct bindings a binding is in the map if and only if its outcome is a clone, and leads to it |
| `RepositoryMap.EveryBindingIsCounted` | src/node/collaborationWorker.ts:526-561 | mapped, missing and ambiguous add up to the bindings |
| `WorkerSlots.SlotsAreKept` | src/node/collaborationWorker.ts:83-188 | over all runs at most four assignments are active or on their way, and the thread map is the inverse of the active map |
| `WorkerSlots.SlotsAreHeld` | src/node/collaborationWorker.ts:138-187 | over every run an assignment keeps its slot and its thread until its own run finishes or the worker is disposed of, also if its local run could not be started |
| `WorkerSlots.FullWorkerClaimsNothing` | src/node/collaborationWorker.ts:83-137 | so four slots that are not given up block the worker: no poll claims anything and nothing else becomes active |
| `WorkerSlots.CollaborationWorker.OnListed` | src/node/collaborationWorker.ts:95-99 | claims start for as many queued assignments as there are slots |
| `WorkerSlots.CollaborationWorker.OnPrepared` | src/node/collaborationWorker.ts:143-163 | a prepared run enters both maps |
| `WorkerSlots.CollaborationWorker.OnFinished` | src/node/collaborationWorker.ts:445-449 | a finished run leaves both maps |
| `InstructionSync.DeletedOnlyWhenSent` | src/node/collaborationWorker.ts:452-482 | whatever syncs overlap and fail, and whatever the local thread reports, an instruction is deleted only after it was reported and sent |
| `InstructionSync.FlagMeansUnanswered` | src/node/collaborationWorker.ts:323-335 | in every run `continuationExpected` is set if and only if at some step a delivery was noted and at no later one a report that the thread runs was heard |
| `InstructionSync.RunEndsUnlessUnanswered` | src/node/collaborationWorker.ts:382-404 | `finishRun`, once its own sync is through, ends the run if and only if every delivery was followed by a report that was heard |
| `InstructionSync.HeldUntilHeard` | src/node/collaborationWorker.ts:323-404 | in every continuation an unanswered run does not end until such a report is heard |
| `InstructionSync.UnheardReportHoldsTheRun` | src/node/collaborationWorker.ts:323-404 | from the beginning on: a report that comes while the run is finishing is not heard, and the run is held in every continuation until the thread reports once more |
| `InstructionSync.CanBeSentExactly` | src/node/collaborationWorker.ts:445-482 | from any state an instruction can be sent, once more if it was before, if and only if a sync is on its way to send it, or it is not noted as delivered and a sync still comes to it or may be given a list; no list comes once the run was taken out and no poll waits for one |
| `InstructionSync.SerialSyncsSendOnce` | src/node/collaborationWorker.ts:452-482 | as long as syncs do not overlap and no answer to a sending is lost, no instruction is sent twice |
| `InstructionSync.RunInstructions.OnListed` | src/node/collaborationWorker.ts:452-456 | a poll's sync starts on the list it asked for |
| `InstructionSync.RunInstructions.Advance` | src/node/collaborationWorker.ts:457-481 | a sync goes from one await to the next: checking, reporting, sending, noting, deleting |
| `InstructionSync.RunInstructions.OnThreadUpdated` | src/node/collaborationWorker.ts:323-335 | what a report of the local thread does to the flag and to the run |
| `InstructionSync.RunInstructions.OnFinishSynced` | src/node/collaborationWorker.ts:397-401 | behind its own sync `finishRun` goes on or waits for the thread |
| `Attachments.DecodeUndoesEncode` | crates/am-agents/src/attachments.rs:40-42 | strict base64 decoding undoes encoding |
| `Attachments.BytesAreDecodedBytes` | webview/src/attachments.ts:23-25 | the view's size formula is the decoded size |
| `Attachments.AttachmentBytes` | webview/src/attachments.ts:23-25 | the reduction is the sum over all files |
| `Attachments.PreCheckNeverRejects` | crates/am-agents/src/attachments.rs:37-39 | the check of the encoded length never turns away a file of at most 20 MiB |
| `Attachments.FirstMark` | crates/am-agents/src/attachments.rs:20-23 | the mark behind a prefix is the first one if and only if the prefix has none |
| `Attachments.LastMark` | crates/am-agents/src/attachments.rs:24-27 | the mark before a suffix is the last one if and only if the suffix has none |
| `Attachments.Unpack` | crates/am-agents/src/attachments.rs:19-56 | the parse, its limits and its errors |
| `Attachments.UnpackUndoesPack` | crates/am-agents/src/attachments.rs:19-56 | prefix, packet and suffix come back as text and files if and only if the prefix has no opening mark and the suffix no closing one |
| `Attachments.DaemonReadsWhatTheViewPacks` | webview/src/attachments.ts:16-25 | what the view packs within its limits the daemon unpacks to the trimmed text and every file if and only if that text has no opening mark; the size the view computed is right in any case |
| `Attachments.MarkInTextIsTakenForThePacket` | crates/am-agents/src/attachments.rs:20-51 | a text with such a mark of its own loses what lies between it and the packet, or is not accepted at all |
| `Markdown.RenderBlocks` | webview/src/markdown.tsx:18-134 | the loop, with its inner loops and recursion, gives the blocks, or none where it would never end |
| `Markdown.RenderBlock` | webview/src/markdown.tsx:27-130 | one round of the loop |
| `Markdown.OnlyStuckLinesStop` | webview/src/markdown.tsx:27-130 | a round makes no progress if and only if it is at a line that ends a paragraph but starts no block |
| `Markdown.EndsUnlessStuck` | webview/src/markdown.tsx:18-134 | rendering ends if and only if no such line is met |
| `Markdown.CleanTextIsRendered` | webview/src/markdown.tsx:18-134 | a text without lone carriage returns and Unicode line separators is always rendered |
| `Markdown.LoneTerminatorStopsRendering` | webview/src/markdown.tsx:28-45 | behind blank lines a fence or heading with such a character behind its mark, under any number of quote marks, keeps the whole text from being rendered, whatever follows |
| `Markdown.LoneReturnIsStuck` | webview/src/markdown.tsx:28-45 | there is such a line: an opening fence with a carriage return behind it |
| `Markdown.EveryLineIsShown` | webview/src/markdown.tsx:18-134 | every line that is not blank is in exactly one block, in order, and the block shows it: headings and fences with their text and language, each list line as its item, runs of quote, list and plain lines whole |

## Left out

- The strength of the cryptography: the primitives are ideal functions, HMAC is taken to tell all keys apart, and what a forger can compute is not modelled. That sealings under different keys never collide cannot be demanded of all keys, as there are more of them than 16-byte tags: `RecordLayer.OtherChannelsFramesNeverOpen` names the collision instead.
- UTF-8: text on the encrypted link is ASCII, so that a chunk cannot split a character and lengths in bytes and characters agree; attachment and diagnostic lengths are counted in characters as well.
- JSON printing and parsing: inverse functions with the few facts the code relies on; a message that is valid JSON of an unexpected shape makes `onLine` throw in the daemon client, which is not part of this model.
- JavaScript numbers: line numbers and times are unbounded integers, without the loss of precision above 2^53.
- Awaits taken as one step: a wait for room in a channel together with what is then sent, the two requests of an account refresh and `getLocalClient` before them, and `loadCredentials`.
- The order in which two overlapping saves of the credentials reach the disk, and so what a restarted host knows; `dispose`, the limit on connections and the inner token of a host session.
- Octal escapes in quoted names: git prints them for bytes outside ASCII and `JSON.parse` rejects them, so `PatchParser.ParseUndoesPrint` asks for a faithful quoting; `PatchParser.UnreadableNameIsKept` says what the parser makes of such names.
- Timers and the clock: a timeout is a step that may come at any moment it is armed, `Date.now()` a parameter.
- Claude's permission requests: `handle_control_request` only answers on stdin and sends no event, so the driver merely skips such lines.
- Stderr and the 16 KiB window of kept diagnostics: the text that is kept is a function of the unparsed lines of the run.
- `detect_usage_limit`, `detect_network_error`, label wording, reset times, redaction and the expansion of slash commands: uninterpreted functions, or absent where only wording depends on them.
- Quota samples of the app-server session, and `SessionEnded` being last there: its reader can still emit events while the driver finishes.
- Detection fields that are read the same way share one field of the model: run defaults go with the agents, sandbox, cloud and local-model fields are `others`; what is published to the view is not modelled.
- The nested call of `drainRepoAssignments`: a drain that finds work after its refresh is the same loop again; the microtasks between the inner and the outer promise are one step.
- A snapshot that throws inside the refresh loop ends the loop without a snapshot; the results about followed requests speak of snapshots that succeed.
- Selecting another thread, which replaces the transcript by another one's; a transcript reset is the operation `Reset` of `Streaming`.
- The worker's lease renewal, event streaming, change-set upload and approval sync; a slot whose local run could not be started is kept, as `WorkerSlots.SlotsAreHeld` says.
- `prepare` and `display_text` of attachments: file writes and appended lines around the packet that `UnpackUndoesPack` covers.
- Inline Markdown (`renderInline`) and the elements the blocks are rendered to.
- `reconcilePendingMessages`: a filter without state, it would only add easy members.
- Wording, tone and icons of transition notices: only their identity, order and presence are modelled; ids with different prefixes are different constructors.
- React components, menus, focus handling and animation; sockets, processes, file writes, git and the VS Code API.
- The daemon's database, scheduler and limit switching are not part of this model.
