# Verified models of an LLM inference benchmark client

Dafny models of the parts of the repository where state, interleaving or arithmetic make
mistakes easy, with proofs of what those parts promise: the client's connection pool and
response stream, the framing of server-sent events, the conversion and loading of agentic
conversations, the multi-turn evaluation loop, the folds over event logs, the closed-loop
event generator, the inline scorer, the fusion of row transforms, the merging of streamed
tool calls, the partition of CPUs, the connection and port budget, and the recovery of YAML
paths from indentation. `dafny verify dfyconfig.toml` checks everything.

## How the models are built

Code that computes by expressions is a function; code that changes things step by step is a
method with its loops, or a class with the source's fields, proved against a specification
function or a declarative property. What the environment decides is an input of the model:
whether a socket is usable, how a handshake ends, what an endpoint answers, what a tokenizer
counts, what a function call returns, what the system reports about CPUs.

- **Connection pool.** `PoolModel` is a state machine over the stretches of code between two
  suspension points; a run is any sequence of enabled steps, so a theorem about runs holds for
  every order in which an event loop may resume the tasks. `PoolSafety` holds what every run
  keeps, `PoolReuse` which connection and which waiter come first, `PoolWakeups` the theorems
  about wake-ups, `LostWakeups` the runs that lose one or give one too many, `ConnectionPool` the
  mutable object whose methods are the steps.
- **Bytes to messages.** `ResponseStream` interleaves parser callbacks with the consumer,
  `SseScanner` is the regular expression for `data:` documents as a scanner, `SsePattern` what it
  finds byte by byte, `SseFraming` the
  cut at the last blank line, `SseMessages` the loops and the end-to-end theorem, `SseAgreement`
  and `SseReads` when the network's reads can show in the documents and in the messages. The
  source reads a subset of the event-stream format of section 9.2 of the WHATWG HTML Living
  Standard.
- **Conversations.** `FinalSnapshots`, `SnapshotConversion`, `ConversationChecks`,
  `AgenticDataset` and `SampleIndex` follow a snapshot through flat rows to indexed samples;
  `ConversationRoundTrip` compares both ends. `Sorting` is the stable sort they share with
  `CpuAffinity` and `EventOrder`, `Texts` the stripping of white space.
- **Evaluation.** `BfclExecution` is the bridge and `BfclRunner` the loop around it, with what it
  sends told from the entry and the answers alone; `CompletionJoin`,
  `ExpectedTurns` and `InlineScoring` are the parts of the agentic inline scorer, `LogScore` the
  whole.
- **Event logs.** `EventSeries` is the series rebuild with its trace definition, `ClosedLoop`
  what the generator's slots produce, `SlotTiling` how that fills time, `EventGenerator` the
  generator with `EventOrder` sorting its log, `LogReplay` both together.
- **Transformations and allocators.** `TransformFusion`, `ToolCallMerge`, `CpuAffinity`,
  `ClientBudget`, `IndentStack` and `CommentPaths`.

## What the proofs found

Each of these is a lemma below, with the condition under which the code does meet the promise;
the code is modelled as it is.

- A failed or cancelled connection attempt frees its slot without waking anyone, and cancelling
  a waiter that was already notified loses its wake-up. These are the only two ways to lose one,
  and over any run free capacity exceeds the notified waiters by at most the number of such
  steps.
- `release` is documented as idempotent. Releasing a dead connection leaves it marked in use, so
  a second release wakes a second waiter for the one slot. It is silent exactly when the first
  one was healthy or nobody is left to wake. A healthy release of a connection some other
  request holds would share it, which is why nothing may suspend between the worker's two
  releases.
- A parser error during streaming does not set the stream event, and a parser that has failed
  calls back no more: a consumer asleep then wakes exactly when the transport reports the end.
- The stream hands out its list and clears it when asked for the next one. A consumer that
  suspends in between loses what came meanwhile, and nothing is lost exactly when nothing came.
  The worker does not suspend there.
- The documents extracted from a stream are independent of how the network split it exactly
  when, up to the last blank line, no `data:` has its JSON beyond a blank line. They are those of
  one extraction over all bytes, which no read that sees a blank line performs, exactly when no
  `data:` anywhere has.
- A document that does not decode ends its extraction, so the cut into reads shows in the
  messages even where it does not show in the documents: there all reads agree exactly when, up
  to the last blank line, at every blank line everything before it decodes or nothing between
  the two yields a message.
- The validator accepts a tool row with a null content that the loader refuses; an accepted file
  loads exactly when every tool result in it is complete. Tool calls on a tool message and a
  call id on any other message have no place in the flat rows and are lost.
- In the evaluation loop the ids of dropped undeclared calls stay in the id list: results are
  sent back under the right ids exactly when each kept call has the id that stands at its
  position in the reply, which for distinct ids means that no declared call follows an undeclared
  one. An entry without turns raises unless turn 0 has a holdout. So does a response whose message
  or tool calls have the wrong shape: only a body without a message cuts the entry short.
- The score of a log does not depend on the order of its records, except for completions of one
  uuid, as long as no turn was issued under two uuids. With two, the same answers can score full
  marks or nothing.
- The generator's module comment says exactly C requests are in flight "at all times". They are
  exactly from the start of the window to the first instant at which some slot's last request
  has completed; in the drain there are fewer.
- Fusing row processors bypasses the harmonizer's guard against a token column that exists. That
  is harmless exactly when the whole group makes of every row what it makes without the
  harmonizers that would have stepped aside, or some row fails either way.
- A CPU whose core id is unknown counts as the core of its own number, which can be the known
  core id of another CPU of the node: the two are then never given out apart.
- The configuration check bounds the connection limit by the ports of all destinations together.
  A destination that appears more often than others among the endpoint URLs can be asked for
  more connections than the port range has; it fits exactly when its workers times the cap of a
  pool are within the range.

## Model

| member | source | states |
|---|---|---|
| PoolSafety.SearchOrder | src/inference_endpoint/endpoint_client/http.py:495-513 | The idle search answers with the topmost usable connection; exactly the unusable ones above it are discarded and everything below stays. |
| PoolSafety.StepKeepsInv | src/inference_endpoint/endpoint_client/http.py:521-624 | Every step keeps: tracked connections plus reservations within the maximum, idle stack duplicate-free, tracked and never in use, tasks in one phase, held connections distinct. |
| PoolSafety.RunsKeepInv | src/inference_endpoint/endpoint_client/http.py:521-624 | The same over every run from any state that satisfies it. |
| PoolSafety.PoolIsSafe | src/inference_endpoint/endpoint_client/http.py:458-674 | In every interleaving from an empty pool no two requests in flight hold one connection and no held connection is on the idle stack. |
| PoolSafety.ReleaseKeepsInv | src/inference_endpoint/endpoint_client/http.py:601-616 | A release, healthy or not, keeps the invariant once its holder has let go of the connection. |
| PoolSafety.FinishKeepsInv | src/inference_endpoint/endpoint_client/worker.py:388-459 | The worker's early release followed by its final one, without suspension between them, keeps the invariant. |
| PoolSafety.StaleReleaseSharesConnection | src/inference_endpoint/endpoint_client/http.py:601-616 | A healthy release of a connection another request holds puts it on the idle stack while it is held. |
| PoolSafety.SecondReleaseSilentExactlyWhen | src/inference_endpoint/endpoint_client/http.py:601-624 | A second release of a connection in use changes nothing but the queue, and wakes nobody if and only if the first was healthy or every waiter left is cancelled. |
| PoolSafety.FinishWakesTwoExactlyWhen | src/inference_endpoint/endpoint_client/worker.py:388-459 | A finishing request wakes two tasks if and only if it releases a dead connection twice while at least two tasks are pending. |
| PoolReuse.ReleasedIsFoundFirst | src/inference_endpoint/endpoint_client/http.py:601-616 | A connection given back healthy is the next one found by any search that may use it, with the stack below as it was and nothing discarded. |
| PoolReuse.IdleByLastRelease | src/inference_endpoint/endpoint_client/http.py:458-624 | In every run from an empty pool the idle stack is, from bottom to top, in the order in which its connections were last released. |
| PoolReuse.HottestFirst | src/inference_endpoint/endpoint_client/http.py:495-539 | So of the usable idle connections a request gets the one released last, and it gets one if there is any. |
| PoolReuse.GrantPrefersIdle | src/inference_endpoint/endpoint_client/http.py:567-580 | Past the limiter a usable idle connection is taken and the reservation given back without using a permit; otherwise the handshake begins. |
| PoolReuse.NoConnectionLeaks | src/inference_endpoint/endpoint_client/http.py:495-674 | In every run every connection ever opened is still tracked or has been closed. |
| PoolReuse.NoWaiterForgotten | src/inference_endpoint/endpoint_client/http.py:540-624 | Every step leaves a pending waiter pending or notified, unless it cancels that very waiter or shuts the pool down. |
| PoolReuse.FirstComeFirstServed | src/inference_endpoint/endpoint_client/http.py:540-624 | While a waiter goes on waiting no one behind it is notified, and those who wait keep their order. |
| PoolWakeups.StepBreaksPromiseExactlyWhen | src/inference_endpoint/endpoint_client/http.py:540-624 | A step leaves a waiter with an unpromised free slot exactly when it is a failed or cancelled attempt or a dropped notification, while somebody waits and every free slot was already promised. |
| PoolWakeups.RunsKeepPromise | src/inference_endpoint/endpoint_client/http.py:521-624 | Over a run the unpromised slots grow by at most one for each such step. |
| PoolWakeups.UnpromisedSlotsAreBounded | src/inference_endpoint/endpoint_client/http.py:521-624 | From an empty pool a pending waiter implies that free capacity is at most the notified waiters plus the number of such steps. |
| PoolWakeups.WaitingMeansFull | src/inference_endpoint/endpoint_client/http.py:521-624 | Without such steps and with nobody left to resume, a waiter implies that every slot is held by a request or a handshake. |
| LostWakeups.FailedConnectStrandsWaiter | src/inference_endpoint/endpoint_client/http.py:598-599 | A run in which a connect that fails in its handshake leaves a free slot, one waiter and no other task. |
| LostWakeups.DroppedNotificationStrandsWaiter | src/inference_endpoint/endpoint_client/http.py:540-559 | A run in which cancelling a notified waiter strands the next one beside an idle connection. |
| LostWakeups.SecondReleaseWakesSecondWaiter | src/inference_endpoint/endpoint_client/http.py:601-624 | A run in which one dead connection released twice notifies both waiters for the one free slot. |
| ConnectionPool.Connections.TryGetIdle | src/inference_endpoint/endpoint_client/http.py:495-513 | The loop pops until a usable connection: the topmost usable one is claimed, those above it are closed and untracked, those below are untouched. |
| ConnectionPool.Connections.NotifyWaiter | src/inference_endpoint/endpoint_client/http.py:618-624 | The first waiter not yet done is woken, those ahead of it are discarded, those behind it keep their order. |
| ConnectionPool.Connections.Release | src/inference_endpoint/endpoint_client/http.py:601-616 | The object's release is the step whose runs are proved safe, and keeps the cap and the idle stack in order. |
| ConnectionPool.Connections.Acquire | src/inference_endpoint/endpoint_client/http.py:521-566 | Up to its next suspension a request has an idle connection, or one more reservation, or the last place in the queue. |
| ConnectionPool.Connections.LimiterGranted | src/inference_endpoint/endpoint_client/http.py:567-580 | Past the limiter an idle connection released meanwhile is taken and the reservation given back. |
| ConnectionPool.Connections.ConnectionMade | src/inference_endpoint/endpoint_client/http.py:581-597 | Tracked connections plus reservations are as many as before, so the cap still holds, and the new connection is not on the idle stack; a valid pool stays valid. |
| ConnectionPool.Connections.Close | src/inference_endpoint/endpoint_client/http.py:661-674 | Every tracked connection is closed and every waiter cancelled: no search finds a connection afterwards, and no release wakes anyone. |
| ResponseStream.StepConservesExactlyWhen | src/inference_endpoint/endpoint_client/http.py:180-298 | Every callback and every stretch of the consumer keeps that the chunks yielded and then those pending are the chunks delivered, in order, except asking for more after the list in hand has grown. |
| ResponseStream.NothingLostExactlyWhen | src/inference_endpoint/endpoint_client/http.py:340-372 | In every interleaving the chunks delivered are those yielded and pending if and only if none came while the consumer was suspended with its list; the missing ones are as many as came then; a sleeping consumer has nothing left to deliver. |
| ResponseStream.ReturnsWithEverything | src/inference_endpoint/endpoint_client/http.py:340-372 | The consumer returns only at the end of the message or connection, and one that never suspends with a list has yielded everything delivered so far. |
| ResponseStream.ReturnsExactlyWhen | src/inference_endpoint/endpoint_client/http.py:340-372 | A resumed consumer returns if and only if the message is complete or the connection lost; otherwise it has taken everything and sleeps with its event cleared. No batch is empty, and a wake-up yields all pending chunks in one. |
| ResponseStream.EndReturns | src/inference_endpoint/endpoint_client/http.py:340-372 | A consumer waiting when the message completes or the connection ends returns at its next wake-up, whatever callbacks come first; if it never suspended with a list, with exactly the chunks delivered. |
| ResponseStream.FlagsExactlyWhen | src/inference_endpoint/endpoint_client/http.py:180-298 | Over any run the message is complete, the connection lost, or the connection unfit for reuse exactly after the callbacks that say so. |
| ResponseStream.WakesExactlyWhen | src/inference_endpoint/endpoint_client/http.py:211-298 | Through any callbacks, a waiting consumer can be woken if and only if its event was set or one of them is a chunk, the end of the message or the end of the connection. |
| ResponseStream.ParseErrorSleepsExactlyUntilLoss | src/inference_endpoint/endpoint_client/http.py:198-209 | After a parser failure a sleeping consumer sleeps through every further callback exactly until the connection is lost or ended, and then returns. |
| ResponseStream.HttpResponseProtocol.IterBodyBegin | src/inference_endpoint/endpoint_client/http.py:340-372 | The generator up to its first wait is the proved stretch: buffered chunks first, then the stream. |
| ResponseStream.HttpResponseProtocol.IterBodyResume | src/inference_endpoint/endpoint_client/http.py:357-372 | The generator from a wake-up to the next wait is the proved stretch. |
| ResponseStream.HttpResponseProtocol.Reset | src/inference_endpoint/endpoint_client/http.py:162-178 | A reset forgets everything except that the transport is lost. |
| SseScanner.ScanDrop | src/inference_endpoint/endpoint_client/adapter_protocol.py:47 | Scanning from a position finds what scanning the rest of the buffer alone finds. |
| SseScanner.MatchTake | src/inference_endpoint/endpoint_client/adapter_protocol.py:47 | A match that ends within a prefix is the match of the prefix alone, and conversely. |
| SsePattern.WrittenEventIsFound | src/inference_endpoint/endpoint_client/adapter_protocol.py:47 | For any white space after `data:` and any body of one line, the document is found whole, followed by the documents of the rest, unless the line goes on to another closing brace. |
| SsePattern.MatchExactlyWhen | src/inference_endpoint/endpoint_client/adapter_protocol.py:47 | The scanner matches at a position if and only if the five bytes of the label, white space, an opening brace, at least one byte and the last closing brace of that line stand there. |
| SsePattern.DocsFromFirstEvent | src/inference_endpoint/endpoint_client/adapter_protocol.py:114-128 | The documents are that of the leftmost such place and then those of the bytes behind it; without one there is none. |
| SsePattern.FoundStandsInEvent | src/inference_endpoint/endpoint_client/adapter_protocol.py:114-128 | Every document found stands behind a label and white space. |
| SseFraming.BatchesKeepDocs | src/inference_endpoint/endpoint_client/worker.py:496-537 | For every list of reads, without JSON beyond a blank line, the batches' documents are those of one extraction over all bytes. |
| SseFraming.ReadsKeepDocsExactlyWhen | src/inference_endpoint/endpoint_client/worker.py:496-537 | For every list of reads and what the previous one left, the documents are those of one extraction over all bytes if and only if no cut parts a match from its JSON. |
| SseFraming.ExtractedWholeExactlyWhen | src/inference_endpoint/endpoint_client/worker.py:496-537 | Every list of reads of a stream gives the one extraction over all its bytes if and only if no `data:` has its JSON beyond a blank line. |
| SseFraming.SpanParted | src/inference_endpoint/endpoint_client/worker.py:509-528 | Two reads that part such a match lose its document against that one extraction. |
| SseAgreement.FragmentationIndependentExactlyWhen | src/inference_endpoint/endpoint_client/worker.py:496-537 | Every way of splitting a stream gives the documents that one read of it gives, if and only if, up to its last blank line, no `data:` has its JSON beyond a blank line. |
| SseAgreement.SpanningEventDependsOnReads | src/inference_endpoint/endpoint_client/worker.py:509-528 | A stream of one event that one read finds and two reads lose. |
| SseAgreement.SpanningAloneIsNeverFound | src/inference_endpoint/endpoint_client/worker.py:509-537 | The same bytes without the blank line after them: no list of reads finds the document, a single read included. |
| SseMessages.ParseSseChunk | src/inference_endpoint/endpoint_client/adapter_protocol.py:114-138 | The loop returns the decoded messages in order up to the first document that does not decode. |
| SseMessages.IterSseLines | src/inference_endpoint/endpoint_client/worker.py:496-537 | The loop sends one batch per complete extraction with messages, and one for an incomplete rest. |
| SseMessages.CutKeepsMessagesExactlyWhen | src/inference_endpoint/endpoint_client/adapter_protocol.py:114-138 | Parsing in two parts gives what parsing at once gives if and only if the first part decodes or the second has no message. |
| SseMessages.GroupsParseWholeExactlyWhen | src/inference_endpoint/endpoint_client/adapter_protocol.py:114-138 | Extracting in groups begins with the messages of the one extraction, and has no others if and only if no message follows a group with an undecodable document. |
| SseMessages.StreamedMessages | src/inference_endpoint/endpoint_client/worker.py:424-442 | Socket to messages, every interleaving, stream and decoder: the documents are those of one extraction if and only if no cut parted a match; then the messages begin with its messages, and are exactly they if and only if none follows an extraction that failed. |
| SseReads.MessagesIndependentExactlyWhen | src/inference_endpoint/endpoint_client/worker.py:496-537 | Without spanning matches, every list of reads gives the messages of one extraction if and only if at every blank line everything before it decodes or nothing behind it yields a message. |
| SseReads.ReadsAgreeExactlyWhen | src/inference_endpoint/endpoint_client/worker.py:496-537 | Where no match up to the last blank line spans one, all lists of reads give the same messages if and only if, in that part, at every blank line everything before it decodes or nothing behind it yields a message. |
| SseReads.UndecodableEventDependsOnReads | src/inference_endpoint/endpoint_client/worker.py:496-537 | Two events of which one read sends nothing and two reads send the second. |
| FinalSnapshots.LoadFinalSnapshots | scripts/convert_agentic_snapshot.py:41-56 | Each conversation keeps its record with the highest index, the earliest of those. |
| SnapshotConversion.ApplyCollapses | scripts/convert_agentic_snapshot.py:59-107 | Both passes join consecutive user messages and merge consecutive tool messages into one row. |
| SnapshotConversion.SystemTakenOut | scripts/convert_agentic_snapshot.py:279-287 | The prompt is the content of the last system message; all messages of other roles stay, in order. |
| SnapshotConversion.JoinedByBlankLine | scripts/convert_agentic_snapshot.py:66-81 | A user message after another is joined to it by a blank line with the white space at both ends taken off; any other message is added unchanged. |
| SnapshotConversion.MergeToolsOk | scripts/convert_agentic_snapshot.py:83-105 | No two tool rows in a row remain. |
| SnapshotConversion.CollapseUsersOk | scripts/convert_agentic_snapshot.py:59-107 | No two user messages in a row remain, and all other messages keep their order. |
| SnapshotConversion.CollapseKeepsSpeech | scripts/convert_agentic_snapshot.py:59-107 | Nothing the user said is lost, white space aside. |
| SnapshotConversion.CollapsedStays | scripts/convert_agentic_snapshot.py:59-107 | Collapsing a collapsed list changes nothing. |
| SnapshotConversion.Convert | scripts/convert_agentic_snapshot.py:266-322 | The flat rows: numbered from 1, system prompt on the first user row only, results on tool rows. |
| SnapshotConversion.PromptOnFirstUserRow | scripts/convert_agentic_snapshot.py:293-304 | The prompt stands on the first user row and on no other row. |
| SnapshotConversion.RowExactly | scripts/convert_agentic_snapshot.py:293-322 | Every row has the next turn number and its role; tool rows have the results and no content, others the content and no results. |
| ConversationChecks.ValidateStructure | src/inference_endpoint/dataset_manager/agentic_inference_dataset.py:305-455 | The scan accepts exactly the conversations that start with the user, respect the adjacencies, and pair every tool row with a preceding call and every answered call with a tool row. |
| ConversationChecks.CheckRow | src/inference_endpoint/dataset_manager/agentic_inference_dataset.py:335-445 | The checks of one row: a tool row has results with ids and a content field, an assistant row a text or well-formed calls, a user row a text. |
| ConversationChecks.ValidateGrouping | src/inference_endpoint/dataset_manager/agentic_inference_dataset.py:272-303 | Accepted exactly when every id is present, not empty, not "nan" and printable ASCII, and all rows of a conversation stand together. |
| ConversationChecks.ValidateTurnNumbering | src/inference_endpoint/dataset_manager/agentic_inference_dataset.py:457-470 | Accepted exactly when the sorted turns are 1 to n. |
| AgenticDataset.BuildConversation | src/inference_endpoint/dataset_manager/agentic_inference_dataset.py:111-211 | The single pass with its running history gives every client turn the system prompt and all messages up to it, and fails exactly when some row does not format. |
| AgenticDataset.SnapshotsGrow | src/inference_endpoint/dataset_manager/agentic_inference_dataset.py:141-211 | Earlier message lists are prefixes of later ones. |
| AgenticDataset.FormatExactly | src/inference_endpoint/dataset_manager/agentic_inference_dataset.py:68-173 | A row gives one message per tool result with its id and content, or one message of its own fields; it fails if and only if a result lacks an id or a content. |
| AgenticDataset.HistoryHoldsRows | src/inference_endpoint/dataset_manager/agentic_inference_dataset.py:141-211 | The history holds every row's messages, right after those of the rows before it. |
| AgenticDataset.SnapshotExactly | src/inference_endpoint/dataset_manager/agentic_inference_dataset.py:126-190 | A client turn is sent the first prompt its conversation has, as a system message, and then the history. |
| AgenticDataset.ClientKeysExactly | src/inference_endpoint/dataset_manager/agentic_inference_dataset.py:118-124 | The client turns are exactly the user and tool rows, in order. |
| AgenticDataset.ConversationsInOrder | src/inference_endpoint/dataset_manager/agentic_inference_dataset.py:472-497 | The conversations are listed by first appearance, every one of them. |
| SampleIndex.KeysMatch | src/inference_endpoint/dataset_manager/agentic_inference_dataset.py:472-508 | Entries in turn order and samples in file order have the same keys, each once. |
| SampleIndex.Load | src/inference_endpoint/dataset_manager/agentic_inference_dataset.py:510-659 | The backfilled index is a bijection onto 0 to n-1, and each sample carries its own turn's messages even when file order is not turn order. |
| SampleIndex.IndexIsBijection | src/inference_endpoint/dataset_manager/agentic_inference_dataset.py:629-659 | Entries that lead to samples of equal key, with the same distinct keys, use every position once. |
| SampleIndex.AllFormatExactlyWhen | src/inference_endpoint/dataset_manager/agentic_inference_dataset.py:68-108 | All conversations of a file format if and only if every tool result in it has a call id and a content. |
| SampleIndex.OpenAndLoad | src/inference_endpoint/dataset_manager/agentic_inference_dataset.py:245-270 | A file loads if and only if the validators accept it, it is not empty and every tool result in it is complete; then with a bijective index and each client turn's own messages. |
| ConversationRoundTrip.MergeKeepsWires | scripts/convert_agentic_snapshot.py:115-136 | A merged tool row expands back to one message per original result. |
| ConversationRoundTrip.ConvertedInTurnOrder | scripts/convert_agentic_snapshot.py:246-324 | Converted rows are in turn order, sorting leaves them alone and the numbering check accepts them. |
| ConversationRoundTrip.SystemComesBack | src/inference_endpoint/dataset_manager/agentic_inference_dataset.py:126-140 | The loader finds again the system prompt that the converter put on the first user row. |
| ConversationRoundTrip.LoadsExactlyWhen | src/inference_endpoint/dataset_manager/agentic_inference_dataset.py:68-108 | Validated converted rows load if and only if every tool message has a content. |
| ConversationRoundTrip.ToolRowChecksExactlyWhen | src/inference_endpoint/dataset_manager/agentic_inference_dataset.py:335-369 | The row of converted tool messages passes the row check if and only if each names its call; a missing content is no hindrance. |
| ConversationRoundTrip.NullContentAcceptedAndRefused | src/inference_endpoint/dataset_manager/agentic_inference_dataset.py:68-108 | A file that passes every validator and has a tool result the loader refuses. |
| ConversationRoundTrip.RoundTripExactlyWhen | scripts/convert_agentic_snapshot.py:139-243 | The messages of each client turn are the prompt and the wire form of the collapsed source up to it, if and only if none of those messages has a field the flat form drops. |
| ConversationRoundTrip.WholeSnapshotComesBack | scripts/convert_agentic_snapshot.py:139-243 | A last client turn of a clean snapshot gets back the whole snapshot, one message per original result. |
| ConversationRoundTrip.CallIdIsLost | scripts/convert_agentic_snapshot.py:139-243 | A snapshot whose row passes validation and whose user message comes back without its call id. |
| BfclExecution.DropUndeclared | src/inference_endpoint/evaluation/bfcl_v4_execution.py:225-243 | Exactly the calls to declared tools stay, in order. |
| BfclRunner.KeptAreOffered | src/inference_endpoint/evaluation/bfcl_v4_execution.py:147-243 | The calls decoded are, in order, those whose name is the name of a tool sent with the request, or all if no tool has a name. |
| BfclExecution.Conversation.Process | src/inference_endpoint/evaluation/bfcl_v4_execution.py:161-315 | Every branch of a response: text, undecodable or empty calls end the turn, a decoded step adds results, too many steps end the entry. |
| BfclRunner.ReplyOk | src/inference_endpoint/evaluation/bfcl_v4_execution.py:161-332 | Every response extends the messages and either ends the entry or moves it a step or turn on, within the request bound. |
| BfclRunner.RunEntry | src/inference_endpoint/evaluation/bfcl_v4_multi_turn_runner.py:95-156 | The first request opens turn 0; each later one repeats the one before and adds the answer and the results under the ids at their positions, or the next turn's opening. It ends, is cut short or raises exactly when the answers say so, within turns times steps requests. |
| BfclExecution.ResultsAlignedExactlyWhen | src/inference_endpoint/evaluation/bfcl_v4_execution.py:234-310 | With one result per kept call, every result message carries the id of the call it answers if and only if each kept call has the id at its position in the reply; so it does when no declared call follows an undeclared one. |
| BfclExecution.DistinctIdsAlignedExactlyWhen | src/inference_endpoint/evaluation/bfcl_v4_execution.py:234-310 | When the ids of the reply are distinct, that is if and only if no declared call follows an undeclared one. |
| BfclExecution.DroppedCallTakesTheResult | src/inference_endpoint/evaluation/bfcl_v4_execution.py:229-310 | A reply whose one result goes back under the id of the call that was dropped. |
| EventSeries.OpenIssueExactly | scripts/early_stopping_estimate_from_events.py:137-176 | The open issue at a position is the latest in-window ISSUED of the uuid since its previous COMPLETE, both directions. |
| EventSeries.FirstChunkExactly | scripts/early_stopping_estimate_from_events.py:156-168 | The first-chunk time is that of the latest RECV_FIRST with an open issue since the previous COMPLETE; a repeated ISSUED keeps it. |
| EventSeries.RowsAgree | scripts/early_stopping_estimate_from_events.py:110-176 | The fold's open rows are, at every position, what the trace defines. |
| EventSeries.PerTokenConcat | scripts/early_stopping_estimate_from_events.py:117-123 | Measuring in parts and joining is measuring at once, so batches cannot show. |
| EventSeries.PerTokenExactly | scripts/early_stopping_estimate_from_events.py:117-123 | There is one rate for each measured text with tokens, in order, and no division is by zero. |
| EventSeries.ComputeSeries | scripts/early_stopping_estimate_from_events.py:102-199 | One pass gives the trace's latency, first-token and per-token series, the same for every batch limit, and counts malformed and skipped records. |
| SlotTiling.ChainResumes | scripts/synth_events.py:194-210 | A conversation is a piece of the back-to-back chain, so the number of turns changes no sample, and with service of at least a nanosecond it advances. |
| SlotTiling.ChainTiles | scripts/synth_events.py:212-228 | A slot's samples tile time from the start past the end of the window. |
| SlotTiling.SlotsServed | scripts/synth_events.py:140-170 | Every sample has the next number and the first-token time, the remaining time and the tokens planted for it. |
| SlotTiling.ConcurrencyHeld | scripts/synth_events.py:212-228 | Exactly C samples are in flight at every instant of the window, and none before it. |
| SlotTiling.AllInFlightExactlyWhen | scripts/synth_events.py:20-21 | Never more than C are in flight, and exactly C if and only if the instant is at or after the start and before every slot's last completion. |
| SlotTiling.DrainHasFewer | scripts/synth_events.py:194-210 | A generated load and an instant of its drain with fewer than C samples in flight. |
| EventOrder.SortSorts | scripts/synth_events.py:228 | The log is ordered by time, then priority, and has the same events. |
| EventOrder.CausalAtOneInstant | scripts/synth_events.py:67-73 | At one instant tracking starts before issues, those before first chunks, those before completions, and tracking stops last. |
| EventOrder.SortIsStable | scripts/synth_events.py:228 | Events of one instant and kind keep their order. |
| EventGenerator.Generator.Generate | scripts/synth_events.py:212-228 | The generator terminates and logs exactly the slots' chains, with matching counters. |
| LogReplay.RowInReplay | scripts/early_stopping_estimate_from_events.py:137-176 | In a sorted generated log each sample's row holds its own times when its later events arrive. |
| LogReplay.SortContributes | scripts/synth_events.py:228 | Sorting permutes whatever the events of a log contribute one by one. |
| LogReplay.ReplayRecoversPlanted | scripts/synth_events.py:150-228 | For any samples issued in the window, the rebuilt series are the planted latency, first-token time and time per token, one per sample. |
| LogReplay.GenerateAndReplay | scripts/early_stopping_estimate_from_events.py:102-199 | Generating a closed-loop log and rebuilding its series gives back every planted time. |
| CompletionJoin.IssuedAndCompleted | src/inference_endpoint/evaluation/scoring.py:804-886 | The reader of the log with its two dictionaries computes the join fold. |
| CompletionJoin.KeyOfExactly | src/inference_endpoint/evaluation/scoring.py:846-861 | A record counts for a key if and only if it is an issue or completion with a turn and a conversation that splits into the key and expects an answer there. |
| CompletionJoin.TurnsAreAnswers | src/inference_endpoint/evaluation/scoring.py:868-885 | When uuids and keys correspond one to one, each issued key holds the last non-null completion of its uuid, null if there is only null, nothing if there is none. |
| CompletionJoin.OnlyIssuedHeld | src/inference_endpoint/evaluation/scoring.py:868-885 | A key that was never issued holds nothing. |
| CompletionJoin.JoinIgnoresOrder | src/inference_endpoint/evaluation/scoring.py:868-885 | Logs with the same issues and per-uuid answers join alike, wherever the ISSUED records sit. |
| CompletionJoin.SharedKeyDependsOnOrder | src/inference_endpoint/evaluation/scoring.py:868-885 | With two uuids for one key the order across uuids decides. |
| ExpectedTurns.ExpectedAssistantTurns | src/inference_endpoint/evaluation/scoring.py:757-802 | A key is expected exactly when its client row is directly followed, in turn order, by an assistant row, which is the expected answer. |
| InlineScoring.OverlapExactly | src/inference_endpoint/evaluation/scoring.py:703-713 | The action score is 1 exactly for equal multisets, 0 exactly without a common action, and symmetric. |
| InlineScoring.TurnScoreInUnit | src/inference_endpoint/evaluation/scoring.py:694-713 | Every turn score is in [0,1], and a turn without model output scores 0. |
| InlineScoring.OverlapIsMinOverMax | src/inference_endpoint/evaluation/scoring.py:710-713 | The action score is the sum of the smaller counts of every action over the sum of the larger ones. |
| InlineScoring.TurnScoreExactly | src/inference_endpoint/evaluation/scoring.py:694-713 | A workflow turn scores 1 exactly for an expected intent and else 0, a coding turn that quotient; no output is no intent and no action. |
| InlineScoring.ScorableExactlyWhen | src/inference_endpoint/evaluation/scoring.py:638-668 | A turn is scored if and only if an answer is expected there and has an intent or, outside workflows, an action. |
| InlineScoring.RowsExactly | src/inference_endpoint/evaluation/scoring.py:675-717 | Each listed turn has the line of its domain, whether it was answered, and the score of its answer against the expected row. |
| InlineScoring.TotalsBounded | src/inference_endpoint/evaluation/scoring.py:715-729 | Domain totals lie within their counts, and together within the number of observed turns. |
| InlineScoring.ReportUnique | src/inference_endpoint/evaluation/scoring.py:675-755 | Join and listing determine the report: rows, domain totals, counts and mean. |
| InlineScoring.Score | src/inference_endpoint/evaluation/scoring.py:638-755 | No denominator is zero, the mean is missing exactly when nothing was scored, it is in [0,1] and at most the observed share; observed and missing add up. |
| LogScore.SortedUnique | src/inference_endpoint/evaluation/scoring.py:666-668 | Issued turns have one sorted listing, by conversation, repetition and turn. |
| LogScore.ScoreLog | src/inference_endpoint/evaluation/scoring.py:638-755 | From dataset and log to the report over the sorted issued turns that have a ground truth, with the numbers of issued turns and repetitions. |
| LogScore.EachTurnScoresItsAnswer | src/inference_endpoint/evaluation/scoring.py:675-886 | Each line of the report scores the log's answer for the turn's uuid, wherever its records stand, against the row the dataset expects. |
| LogScore.LessExactly | src/inference_endpoint/evaluation/scoring.py:666-668 | The first of conversation, repetition and turn in which two turns differ decides their order. |
| LogScore.ScoreIgnoresOrder | src/inference_endpoint/evaluation/scoring.py:638-886 | Two logs with the same ISSUED records anywhere, and per uuid the same completions in order, get the same report, if uuids and turns correspond one to one. |
| LogScore.SharedKeyScoreDependsOnOrder | src/inference_endpoint/evaluation/scoring.py:868-885 | Two such logs with two uuids for one turn, of which one scores full marks and the other nothing. |
| TransformFusion.MapRowsAdds | src/inference_endpoint/dataset_manager/transforms.py:59-68 | A pass leaves as many rows, all with the old columns and the ones written. |
| TransformFusion.HarmonizesExactly | src/inference_endpoint/dataset_manager/transforms.py:210-225 | The harmonizer puts the encoded prompt and, where asked, its decoded text into their columns and leaves every other cell; it fails exactly without a prompt or when one of the two fails. |
| TransformFusion.IdleGroupIsPass | src/inference_endpoint/dataset_manager/transforms.py:368-379 | A run of row processors whose guards stay idle is one pass of their composition, failures included. |
| TransformFusion.FusionPreservesMeaning | src/inference_endpoint/dataset_manager/transforms.py:397-435 | For every list and frame on which no harmonizer inside a group meets its token column, the fused pipeline gives the unfused result. |
| TransformFusion.GroupIsSurvivingPass | src/inference_endpoint/dataset_manager/transforms.py:204-225 | Called one by one, any row processors are one pass without the harmonizers whose token column is among the frame's or those written before; failures included. |
| TransformFusion.FusedGroupHarmlessExactlyWhen | src/inference_endpoint/dataset_manager/transforms.py:368-379 | Fusing a group changes nothing, whichever guards act, if and only if all its processors make of every row what the surviving ones make, or both fail on some row, or there is no column. |
| TransformFusion.BypassedGuardHarmlessExactlyWhen | src/inference_endpoint/dataset_manager/transforms.py:204-208 | One guard acting anywhere in a group is bypassed harmlessly if and only if the processors after it make the same of every row harmonized again as of the row, or some row fails either way. |
| TransformFusion.LastGuardHarmlessExactlyWhen | src/inference_endpoint/dataset_manager/transforms.py:204-208 | For the last of its group that is if and only if harmonizing again changes no row. |
| TransformFusion.FusionOverwritesTokens | src/inference_endpoint/dataset_manager/transforms.py:204-225 | A pre-tokenized frame on which fusing changes the result. |
| TransformFusion.FuseGroups | src/inference_endpoint/dataset_manager/transforms.py:413-431 | The loop fuses exactly the maximal runs of two or more row processors. |
| TransformFusion.FusesMaximalRuns | src/inference_endpoint/dataset_manager/transforms.py:397-431 | Between any two groups or processors of the result stands another transform, a group has at least two processors, and taking the groups apart gives the list back. |
| TransformFusion.ApplyTransforms | src/inference_endpoint/dataset_manager/transforms.py:397-435 | The pipeline gives the unfused meaning with fusing off, and with fusing on whenever no grouped guard would act. |
| ToolCallMerge.MergeToolCalls | src/inference_endpoint/core/types.py:87-110 | The nested loops over one dictionary give one call per index, each merged from that index's deltas alone. |
| ToolCallMerge.AscendingIncreases | src/inference_endpoint/core/types.py:110 | The merged calls stand in strictly ascending order of their indices. |
| ToolCallMerge.OwnExactly | src/inference_endpoint/core/types.py:97-100 | A call's deltas are, in order, those of its index; one without an index is of call 0. |
| ToolCallMerge.MergeIgnoresChunkingAndInterleaving | src/inference_endpoint/core/types.py:87-110 | Streams with the same deltas per index merge alike, however chunked or interleaved. |
| ToolCallMerge.MergedFields | src/inference_endpoint/core/types.py:98-109 | Arguments are joined in order; id, type and name are the last non-empty ones. |
| ToolCallMerge.WholeIsFirstPlusAfterExactlyWhen | src/inference_endpoint/core/types.py:152-216 | The full text is the first text chunk followed by the text after the first chunk, if and only if the output is no pure tool-call stream or nothing of its first chunk shows in the merged calls. |
| ToolCallMerge.AsString | src/inference_endpoint/core/types.py:152-173 | The string builder gives reasoning, content and encoded merged calls of the message parts. |
| ToolCallMerge.TextAfterFirstChunk | src/inference_endpoint/core/types.py:175-216 | The string builder agrees with the message parts after the first chunk. |
| CpuAffinity.CoresGivenOnce | src/inference_endpoint/endpoint_client/cpu_affinity.py:210-258 | Load generator and workers together get every physical core, each once; the load generator's are on the primary node. |
| CpuAffinity.PlanPartitionsCpus | src/inference_endpoint/endpoint_client/cpu_affinity.py:274-283 | The load generator's CPUs are those of its cores, and each worker set is all CPUs of one core. |
| CpuAffinity.CpuHasOnePlace | src/inference_endpoint/endpoint_client/cpu_affinity.py:133-283 | Every online CPU is in the load generator's set or in exactly one worker set, never both. |
| CpuAffinity.CoresStayWhole | src/inference_endpoint/endpoint_client/cpu_affinity.py:166-180 | CPUs of one node and core id are never split. |
| CpuAffinity.SameCoreExactlyWhen | src/inference_endpoint/endpoint_client/cpu_affinity.py:166-180 | Two CPUs are one core if and only if node and core id agree, where an unknown node is node 0 and a CPU's number stands in for an unknown id. |
| CpuAffinity.FastestInLoadgen | src/inference_endpoint/endpoint_client/cpu_affinity.py:199-219 | With at least one core asked for, the fastest CPU's core goes to the load generator. |
| CpuAffinity.LoadgenFasterOnPrimary | src/inference_endpoint/endpoint_client/cpu_affinity.py:206-219 | Every load generator core ranks before every worker core of the primary node. |
| CpuAffinity.LoadgenSize | src/inference_endpoint/endpoint_client/cpu_affinity.py:194-217 | The load generator gets as many cores as asked for up to those of the fastest CPU's node; a negative number leaves that many out. |
| CpuAffinity.WorkersInOrder | src/inference_endpoint/endpoint_client/cpu_affinity.py:221-258 | Workers get the rest of the primary node first, then the other nodes, the one with the fastest CPU first, and the faster cores of a node first. |
| CpuAffinity.PlanIsSorted | src/inference_endpoint/endpoint_client/cpu_affinity.py:274-290 | All CPU lists are ascending; the plan names the number of load generator cores and their node. |
| CpuAffinity.ComputeAffinityPlan | src/inference_endpoint/endpoint_client/cpu_affinity.py:133-283 | Grouping, cutting and spilling over compute that plan, for every ranking and every, even negative, core count. |
| ClientBudget.EndpointsInTurn | src/inference_endpoint/endpoint_client/worker.py:153-155 | With an even split query i reaches endpoint i mod n. |
| ClientBudget.EveryPrefixBalanced | src/inference_endpoint/endpoint_client/http_client.py:125-134 | After any number of queries each endpoint has its exact share, up to one. |
| ClientBudget.Client.Issue | src/inference_endpoint/endpoint_client/http_client.py:125-134 | A query goes to the next worker of the cycle; a query dropped at shutdown disturbs nothing. |
| ClientBudget.WarmupFits | src/inference_endpoint/endpoint_client/worker.py:235-248 | Automatic warm-up never asks a pool for more than its cap, nor does an explicit number within the limit. |
| ClientBudget.ResolvedExactlyWhen | src/inference_endpoint/endpoint_client/config.py:274-359 | Which configurations are refused and why, and the limit and warm-up of the others; the budget is the port range once per distinct destination. |
| ClientBudget.PerWorkerExactly | src/inference_endpoint/endpoint_client/worker.py:213-215 | A pool's cap is the workers' share of the limit rounded down, at least one. |
| ClientBudget.WarmupExactly | src/inference_endpoint/endpoint_client/worker.py:235-244 | Warm-up is off at zero, half of the cap when automatic, and else the share of the number given, at least one. |
| ClientBudget.PoolsWithinLimitExactlyWhen | src/inference_endpoint/endpoint_client/worker.py:213-223 | The pools' caps together stay within the limit if and only if it is at least the worker count. |
| ClientBudget.LoadFitsExactlyWhen | src/inference_endpoint/endpoint_client/config.py:324-359 | For every resolved configuration the connections a destination may be asked for are workers per URL, times its URLs, times the cap of a pool; it fits if and only if that is within the port range. |
| ClientBudget.DistinctDestinationsFitExactlyWhen | src/inference_endpoint/endpoint_client/config.py:324-359 | With distinct destinations one fits if and only if it is none of them, or the limit is at least the worker count, or its workers alone are within the range. |
| ClientBudget.EvenBudgetFitsExactlyWhen | src/inference_endpoint/endpoint_client/config.py:335-338 | Where the whole budget is the limit and divides evenly, a destination fits if and only if it holds no more than its share of the URLs. |
| ClientBudget.CrowdedOverflows | src/inference_endpoint/endpoint_client/config.py:324-359 | A configuration that passes the check with a destination that may be asked for half as many connections again as there are ports. |
| IndentStack.EveryKeyGetsItsPath | scripts/regenerate_templates.py:288-296 | For every nested mapping with deeper children, the indentation stack gives each key line exactly its root-to-key path. |
| IndentStack.PathsRecovered | scripts/regenerate_templates.py:288-302 | The same below any open keys, with any left-over entries above them. |
| CommentPaths.PrintedHeads | scripts/regenerate_templates.py:275-295 | The key-line pattern reads back the indentation and key of every printed line. |
| CommentPaths.HeadExactlyWhen | scripts/regenerate_templates.py:275-290 | A line is read as a key with an indentation if and only if it is that much white space, the key and a colon. |
| CommentPaths.AnnotatedExactly | scripts/regenerate_templates.py:287-302 | A key line gets the comment for its path with its very value, or else the one for its path, unless it has a number sign; every other line stays. |
| CommentPaths.PrintedKeysGetTheirComments | scripts/regenerate_templates.py:278-304 | A printed document is annotated key by key with the comment of the key's own path. |
| CommentPaths.UncommentRestoresExactlyWhen | scripts/regenerate_templates.py:297-301 | Removing comments after annotating restores a line without a number sign; a line with one of its own is left by annotating as it was, so removal takes what stands behind the sign. |
| CommentPaths.AnnotateIsIdempotent | scripts/regenerate_templates.py:278-304 | Annotating annotated lines changes nothing more. |
| CommentPaths.AddComments | scripts/regenerate_templates.py:278-304 | The loop with its stack computes the annotation. |

## Left out

- PoolModel: connections and tasks are identities, `in_use` and closing flags are sets, and
  liveness, staleness, idle time and handshake outcomes are inputs of the steps. The connect
  limiter may grant any queued task, which covers its FIFO order.
- ConnectionPool.Connections.Acquire: the suspended halves of a request are separate methods;
  the state machine says how they follow each other.
- ResponseStream: header futures, `read_headers` and `read_body` are not modelled. That httptools
  calls back no more once it has failed, until a new parser is made, is taken as given. A
  consumer may suspend with a list of the stream, not with the chunks buffered before it came.
- SseMessages.ParseSseChunk: decoding a document is a function of its bytes; the adapters and
  accumulators are not part of this model.
- SnapshotConversion.ApplyCollapses: trimming removes ASCII white space only, and `tools` are
  not carried along.
- ConversationChecks.ValidateGrouping: ids are texts or missing, not other JSON values, and the
  messages of errors are left out. The rows of a file carry their id as a text.
- ConversationChecks.ValidateStructure: the checks inside one tool call are one flag.
- SampleIndex.Load: sample dictionaries are reduced to key and messages; delays, sampling
  parameters and transforms are left out, and so is the branch for a client turn without a
  message list, which cannot be reached.
- BfclRunner.RunEntry: HTTP, timeouts and the function-calling library are functions of the
  request number and the calls; evicting its instances is left out.
- EventSeries.ComputeSeries: the time per token is kept as an exact quotient; progress output
  is left out.
- EventGenerator.Generator.Generate: the service model's random draws and factors are functions of
  uuid and issue time; conversation tags on events and the Poisson mode are left out, but the
  replay theorem covers the samples of any mode.
- InlineScoring.Score: rounding of reported scores, the extraction of intents and commands by
  regular expressions, and the list of turns excluded for want of a ground truth are left out.
- TransformFusion.ApplyTransforms: the order of columns, cells missing from some rows and
  dtypes are left out; other frame-wide transforms are any function of the frame, so
  `ColumnFilter` extending its own list across calls is not modelled.
- ToolCallMerge.MergeToolCalls: a tuple that mixes whole calls and chunks is not modelled.
- CpuAffinity.ComputeAffinityPlan: reading the system's files, pinning, and warnings.
- ClientBudget.EndpointsInTurn: choosing the number of workers automatically, and parsing URLs.
- CommentPaths.AddComments: splitting a text into lines and joining it again.
- Sockets, TLS, process management, transports, metrics aggregation, rulesets, reports and
  command-line code are not part of this model.
