# Event delivery and analytics: a verified model

This project models the parts of the repository that move events between an app server and
its clients, and the reducer that turns a stream of facts into analytics events.

- **In-process forwarding** (`InProcessForwarding`, `ForwardingTheorems`, `InProcessWorker`). The
  worker loop that pushes server events into a bounded queue is a step system: each channel
  operation is one step, so an arbitrary consumer runs between the lag marker and the event it
  precedes. History fields record inputs, their fates and everything enqueued. `EventForwarder`
  is the forwarding call as the program writes it; its methods are runs of the step system.
- **Remote connection** (`RemoteMultiplexer`, `RemoteClient`). Commands, decoded frames and write
  results are arbitrary inputs to the worker loop. Its state has a reply side (waiter map, reply
  channels) and an event side (handshake events, queue, what `next_event` returned). `Connection`
  is the loop over mutable fields, `Initialize` the handshake, and `Session` the two on one socket.
- **Analytics reducer** (`AnalyticsFacts`, `ReducerModel`, `ReducerGuarantees`, `ReducerHistory`,
  `ReducerTurns`, `ReducerRefinements`, `ReducerEvents`, `ReducerJoin`, `AnalyticsReducer`).
  `ReducerModel.Ingest` is the transition function over seven maps; the guarantees are about every
  list of facts. The history modules define each table entry and each event from the facts alone,
  without the reducer's functions, and prove the reducer equal to that. `AnalyticsReducer.Reducer`
  is the same machine over mutable maps, proved equal to the model method by method.
- **Companions** (`AcceptedLines`, `AnalyticsClient`, `AppServerPath`). The unified-diff scanner the
  reducer calls, bounded deduplication and batching, and the join/components pair for host paths.

Modelling decisions:

- A disabled step leaves a state unchanged, so every list of steps, inputs or facts is a run and the
  theorems quantify over all of them.
- `usize` is 64 bits wide; the skip counter saturates. `Slot.Marker` remembers both what a marker
  reports and what it stands for, and exact counting is proved to hold if and only if no marker was
  capped. Other counters are unbounded integers.
- A `Lagged` event that arrives from upstream is an ordinary best-effort input; only the worker's own
  markers are counted.
- Clocks are fact fields, hashes are left off (a fingerprint is the pair that is hashed), and whether
  a character is alphanumeric is a parameter of the scanner.
- Of a resolved config the turn event carries only the settings. Its thread and image count go through
  the turn's record, where a turn-start response overwrites them and is overwritten in turn.
- A diff is a list of sections; `diff --git` titles are optional, because the scanner accepts any text.
- Ids, thread names and copied payloads are strings. User reviews are identified by `RequestId`
  itself, because the printed review id does not tell a string id from an integer id.
- `ApprovalResolved` stands for a command or file-change response, an effective-permissions response or
  an abort: all four take the pending review and differ only in the status and resolution they carry.
- In the remote loop the replies sent after the loop belong to the step that ends it.
- The comment on `forward_in_process_event` says the marker is never lost before a lossless event; the
  code also gives up on it when the receiver is gone, and the model follows the code.

## Model

| member | source | states |
|---|---|---|
| InProcessForwarding.Reachable | codex-rs/app-server-client/src/lib.rs:196-262 | In every reachable state the log of enqueued slots accounts for every settled input, counters are the true drop counts capped at `usize::MAX`, and the queue and phase are well formed |
| InProcessForwarding.BalancedWork | codex-rs/app-server-client/src/lib.rs:205-262 | One channel operation keeps markers plus counter equal to the drops since the last delivery |
| InProcessForwarding.SettledWork | codex-rs/app-server-client/src/lib.rs:205-262 | One channel operation keeps every settled input either enqueued once, or dropped and, if it is a server request, rejected once |
| ForwardingTheorems.GapExactness | codex-rs/app-server-client/src/lib.rs:205-236 | Between consecutively delivered inputs everything was dropped and the markers there sum to exactly the drops, iff none of them was capped; otherwise to less |
| ForwardingTheorems.Conservation | codex-rs/app-server-client/src/lib.rs:205-262 | Settled inputs = delivered + reported + counter, iff no count was capped; always so within `usize::MAX` inputs |
| ForwardingTheorems.Losslessness | codex-rs/app-server-client/src/lib.rs:139-175 | Consumed followed by queued holds the must-deliver inputs in order, none missing or repeated, and the queue respects its capacity |
| ForwardingTheorems.ReaderMissesNothing | codex-rs/app-server-client/src/lib.rs:139-175 | A consumer that reads on until the queue is empty has read the must-deliver inputs, all of them and in order |
| ForwardingTheorems.CallAdvances | codex-rs/app-server-client/src/lib.rs:196-262 | A forwarding call takes at most two channel operations; each puts the marker before the event or ends the call with a fate, and only a must-deliver event on a full queue waits |
| ForwardingTheorems.ServerRequestFate | codex-rs/app-server-client/src/lib.rs:226-260 | A server request whose call returned Continue was enqueued once or rejected once, never both or neither; must-deliver events are enqueued once |
| ForwardingTheorems.ShutdownProgress | codex-rs/app-server-client/src/lib.rs:494-572 | With the receiver dropped and Shutdown queued the worker makes at most the commands up to it plus two more moves, and can always move until it exits |
| ForwardingTheorems.WorkerExit | codex-rs/app-server-client/src/lib.rs:494-572 | Over every run the commands taken followed by those queued are the commands sent, in order, nothing is taken after a Shutdown, and the worker has exited iff a Shutdown was taken, the queue was empty with no sender left, or the stream ended, never in the middle of a forwarding call |
| ForwardingTheorems.KeepsRunning | codex-rs/app-server-client/src/lib.rs:497-545 | Without a Shutdown, a loss of all senders or an end of stream the worker never exits, whatever other commands it takes and events it forwards or drops |
| ForwardingTheorems.RankStep | codex-rs/app-server-client/src/lib.rs:735-767 | Every worker move after the receiver is dropped brings the exit one move closer, and nothing else moves it away |
| InProcessWorker.EventForwarder.Forward | codex-rs/app-server-client/src/lib.rs:196-262 | The call is a run of the step system; Continue means the event settled, and was delivered if it must be; DisableStream means the receiver is gone and the event has no fate |
| InProcessWorker.ForwarderIsLossless | codex-rs/app-server-client/src/lib.rs:484-489 | The forwarder's own queue after what was consumed holds the must-deliver inputs in order, within the capacity of at least one |
| InProcessWorker.EventForwarder.Attempt | codex-rs/app-server-client/src/lib.rs:206-262 | One send or try_send: what each outcome does to the event's fate, and that only a must-deliver send waits |
| InProcessWorker.EventForwarder.Send | codex-rs/app-server-client/src/lib.rs:219-260 | The queue, counter and reject callback change exactly as one channel operation of the step system |
| RemoteMultiplexer.ExactlyOnceReplies | codex-rs/app-server-client/src/remote.rs:219-475 | In every run a command has no reply only while its request is pending, never more than one, and exactly one once the loop has ended |
| RemoteMultiplexer.RunAsRead | codex-rs/app-server-client/src/remote.rs:219-474 | In every run the loop has ended exactly as the first input that ends it says, with that input's error; the waiters are the open requests; the refused ids are those of the unknown requests whose refusal was written, in order |
| RemoteMultiplexer.EndKinds | codex-rs/app-server-client/src/remote.rs:236-474 | Each way of ending has its own error kind |
| RemoteMultiplexer.RequestReply | codex-rs/app-server-client/src/remote.rs:227-260 | The one reply of a request: duplicate error (first waiter kept), write error, the first answer with its id, or the error of the input that ends the loop, all read off the inputs |
| RemoteMultiplexer.OtherReply | codex-rs/app-server-client/src/remote.rs:261-317 | The one reply of a notify, resolve, reject or shutdown: what its write or the close gave |
| RemoteMultiplexer.PendingReply | codex-rs/app-server-client/src/remote.rs:323-332 | A pending request is told the first answer with its id, else the error of the first input that ends the loop, else keeps waiting |
| RemoteMultiplexer.RepliesStep | codex-rs/app-server-client/src/remote.rs:219-464 | Every loop step keeps one waiter per id and one reply per command |
| RemoteMultiplexer.EventStream | codex-rs/app-server-client/src/remote.rs:333-459 | What was returned is a prefix of handshake events, recognised frames read in order, and a Disconnected sent iff the first input that ends the loop is an error; a live receiver misses nothing |
| RemoteClient.Initialize | codex-rs/app-server-client/src/remote.rs:794-936 | Connects iff the initialize response is preceded only by frames it can wait past; keeps their recognised events in order, answers unknown requests, and otherwise reports the first frame that ended it or a timeout |
| RemoteClient.SocketStreams | codex-rs/app-server-client/src/remote.rs:593-598 | Over one socket, handshake and loop together: the client reads a prefix of the recognised events of the frames read, in arrival order, then at most one Disconnected and nothing after it; a live receiver misses none, and while the loop runs every arrived frame has been read |
| RemoteClient.Connect | codex-rs/app-server-client/src/remote.rs:195-218 | A connection exists iff the initialize response came after frames that can be waited past and both writes succeeded; its first events are the ones the handshake set aside |
| RemoteClient.Session | codex-rs/app-server-client/src/remote.rs:195-480 | Connecting and then serving any inputs is a run of the model from the handshake's events, so the stream of one socket holds of it |
| RemoteClient.Connection.Serve | codex-rs/app-server-client/src/remote.rs:219-475 | Handling commands, frames and client calls one after the other is the model's run |
| RemoteClient.Connection.HandleCommandsClosed | codex-rs/app-server-client/src/remote.rs:221-224 | When every command sender is gone the loop ends and each waiter is told |
| RemoteClient.Connection.DropEventReceiver | codex-rs/app-server-client/src/remote.rs:600-610 | Dropping the receiver loses what was not read |
| RemoteClient.TellWaiters | codex-rs/app-server-client/src/remote.rs:466-474 | Every waiter left at loop exit is told once, nobody else anything |
| RemoteClient.Connection.FailPending | codex-rs/app-server-client/src/remote.rs:466-474 | The waiter map is emptied and each waiter's channel gets the exit error |
| RemoteClient.Connection.HandleRequest | codex-rs/app-server-client/src/remote.rs:227-260 | Taking a request is the model's step: duplicate refused, waiter registered, or write failure reported and the loop ended |
| RemoteClient.Connection.HandleCast | codex-rs/app-server-client/src/remote.rs:261-303 | Notify, resolve and reject answer with the write's result |
| RemoteClient.Connection.HandleShutdown | codex-rs/app-server-client/src/remote.rs:304-317 | Shutdown answers with the close result and ends the loop |
| RemoteClient.Connection.HandleFrame | codex-rs/app-server-client/src/remote.rs:321-460 | Reading a frame is the model's step on replies, events, rejected ids and exit |
| RemoteClient.Connection.NextEventNow | codex-rs/app-server-client/src/remote.rs:593-598 | Handshake events come first, then the queue, one at a time |
| ReducerModel.Ingest | codex-rs/analytics/src/reducer.rs:423-556 | Each kind of fact touches only its own maps |
| ReducerGuarantees.OnlyTheConnectionCanBeMissing | codex-rs/analytics/src/reducer.rs:1666-1703 | In every reachable state a context is found iff the thread has a connection; the unknown-connection and missing-metadata warnings cannot be reached |
| ReducerGuarantees.ContextsReachable | codex-rs/analytics/src/reducer.rs:1351-1366 | In every reachable state every thread has metadata and every thread's connection, if set, is a known one |
| ReducerGuarantees.ContextsNeverShrink | codex-rs/analytics/src/reducer.rs:583-612 | No fact takes a connection, a thread or a thread's connection away |
| ReducerHistory.NoLateDrop | codex-rs/analytics/src/reducer.rs:1389-1471 | Once a thread has a connection, every later compaction, goal or guardian fact for it, and every answer to an approval its thread asked for, emits exactly one event |
| ReducerGuarantees.TurnEventBound | codex-rs/analytics/src/reducer.rs:668-704 | Turn events for an id plus one for a filled slot never outnumber the facts that fill that slot, for each of the three slots |
| ReducerGuarantees.SlotStep | codex-rs/analytics/src/reducer.rs:1606-1664 | One fact: an emission for a turn uses up its slots |
| ReducerGuarantees.TokenBound | codex-rs/analytics/src/reducer.rs:956-1168 | User reviews, steers and tool items: events emitted plus entries held never outnumber the requests or starts ingested |
| ReducerGuarantees.TokenStep | codex-rs/analytics/src/reducer.rs:1473-1496 | One fact spends at most an entry that was held, and removes it |
| ReducerHistory.ConnectionsAreHistory | codex-rs/analytics/src/reducer.rs:558-582 | The connections are the ones initialised, each as last described |
| ReducerHistory.ThreadsAreHistory | codex-rs/analytics/src/reducer.rs:1337-1387 | The threads are the ones opened over a known connection or started as sub-agents; connection, metadata and originator are what the facts say |
| ReducerHistory.SubAgentIsConnected | codex-rs/analytics/src/reducer.rs:583-612 | A sub-agent thread without a connection gets its parent's, and so has a context whenever its parent has |
| ReducerHistory.PendingReviewsAreTheOpenRequests | codex-rs/analytics/src/reducer.rs:956-1155 | The pending reviews are exactly the approval requests not yet answered or aborted, and each has its own request's thread, turn, item, subject, time and flags |
| ReducerHistory.ApprovalIff | codex-rs/analytics/src/reducer.rs:956-1155 | The open request of an id is its last one, with nothing that settles the id since |
| ReducerHistory.SecondAnswerIsSilent | codex-rs/analytics/src/reducer.rs:1072-1155 | A late or repeated answer or abort emits nothing and changes nothing, however much later it comes |
| ReducerRefinements.SummariesAreFolds | codex-rs/analytics/src/reducer.rs:1548-1604 | The summary of a key is that of exactly the command, file and MCP reviews recorded for it since it was last used up: counts, flags as disjunctions, last outcome |
| ReducerRefinements.LoggedIff | codex-rs/analytics/src/reducer.rs:1548-1604 | A review is in a key's log iff an answer to an approval request of that thread, turn and item, or a guardian verdict on it, recorded it and no reported completion used it up since |
| ReducerRefinements.StartsAreHistory | codex-rs/analytics/src/reducer.rs:1213-1255 | The started items are the tracked starts with a valid time not yet completed in a live turn |
| ReducerRefinements.ToolEventExact | codex-rs/analytics/src/reducer.rs:1230-1292 | A completion emits one tool event iff the item is tracked and over, its start waits, its turn is live, its time is valid and its thread has a context; the event has its own times and exactly its own reviews |
| ReducerRefinements.ToolEventAddsUp | codex-rs/analytics/src/reducer.rs:1256-1292 | The reviews a tool event reports are guardian plus user |
| ReducerRefinements.AnswerEventExact | codex-rs/analytics/src/reducer.rs:1072-1155 | An answer or abort emits one review event iff a request is open for its id and the thread named there has a connection; the event says what the request said, the answer's status and resolution, and the time between them |
| ReducerRefinements.VerdictEventExact | codex-rs/analytics/src/reducer.rs:1431-1471 | The same for guardian verdicts |
| ReducerRefinements.SteerEventExact | codex-rs/analytics/src/reducer.rs:1473-1537 | A steer response or error emits one steer event iff it answers an open steer request over a known connection for a known thread; the event says what the request said and what the answer was |
| ReducerTurns.CountsAreTallies | codex-rs/analytics/src/reducer.rs:395-420 | A live turn's counts are the numbers of tracked or sub-agent completions per kind since its state was created, and the total is their sum |
| ReducerTurns.TurnEventCarriesTallies | codex-rs/analytics/src/reducer.rs:2669-2676 | An emitted turn event carries those tallies |
| ReducerTurns.TurnsAreHistory | codex-rs/analytics/src/reducer.rs:668-715 | In every run the record of a turn is everything the facts have said about it since its last event, the last word on each point, with steers and completions counted while it was live |
| ReducerTurns.EmissionExact | codex-rs/analytics/src/reducer.rs:1606-1664 | In any run a fact emits a turn event iff it tries to, what is known of the turn is then complete and the context is known; every field comes from its own fact, and the accepted lines of the last diff follow |
| ReducerTurns.AcceptedLinesAreTrue | codex-rs/analytics/src/reducer.rs:2546-2574 | For a printed git diff the accepted-lines event has the true counts, and there is none iff both are zero |
| ReducerJoin.JoinExact | codex-rs/analytics/src/reducer.rs:1606-1664 | With one config, profile and completion for a turn, the event is emitted by the first fact that finds everything and by no other, with the three facts' values and the thread, connection and image count named last |
| ReducerJoin.JoinAtLastIff | codex-rs/analytics/src/reducer.rs:1623-1648 | The event comes at the last of the three facts iff the turn's thread is known and connected by then; otherwise at the first later token usage or turn-start response that finds it so, or never |
| ReducerJoin.JoinConfluence | codex-rs/analytics/src/reducer.rs:1606-1664 | In every such interleaving exactly one turn event is emitted, at the last of config, profile and completed, carrying their values, the thread and image count named last, and the connection of the last turn start or else of the thread |
| ReducerJoin.OneThreadJoins | codex-rs/analytics/src/reducer.rs:1618-1627 | The join's condition holds when all facts about the turn name one thread with a connection and its turn starts come over known connections |
| ReducerJoin.JoinImages | codex-rs/analytics/src/reducer.rs:2576-2662 | The event's image count is the one named last: it is the config's iff no turn start was answered between config and event, or the last such named the same count |
| ReducerJoin.JoinOrder | codex-rs/analytics/src/reducer.rs:668-704 | Two interleavings of the same three facts agree on settings, profile and completion, and on the image count iff the counts named last agree |
| ReducerHistory.RequestsAreTheOpenOnes | codex-rs/analytics/src/reducer.rs:930-945 | The request table holds exactly the turn requests not yet answered, whatever kind the answer was |
| ReducerJoin.ImagesDependOnOrder | codex-rs/analytics/src/reducer.rs:930-945 | Two orders of the same facts meet the join's condition; the event has the config's image count in one and, when the turn start is answered after the config, the turn start's in the other |
| ReducerEvents.EventsExact | codex-rs/analytics/src/reducer.rs:423-556 | After any facts the next one emits exactly the events the facts so far call for, each field read off the facts, and nothing else; this covers every kind of event in the model |
| AnalyticsReducer.Reducer.Ingest | codex-rs/analytics/src/reducer.rs:423-556 | Ingesting a fact is the model's transition, its events pushed in order |
| AnalyticsReducer.Reducer.IngestAll | codex-rs/analytics/src/client.rs:125-134 | Ingesting facts one after the other is the model's run |
| AnalyticsReducer.Reducer.MaybeEmitTurnEvent | codex-rs/analytics/src/reducer.rs:1606-1664 | Emits and forgets a complete turn with a context, otherwise does nothing |
| AnalyticsReducer.Reducer.EmitReviewEvent | codex-rs/analytics/src/reducer.rs:1539-1604 | Records the summary whether or not the event has a context |
| AnalyticsReducer.Reducer.EmitTurnSteerEvent | codex-rs/analytics/src/reducer.rs:1498-1537 | Emits a steer event iff the connection and the thread's metadata are known |
| AnalyticsReducer.Reducer.IngestTurnFact | codex-rs/analytics/src/reducer.rs:668-715 | Updates the turn's record and attempts emission for the facts that may complete it |
| AnalyticsReducer.Reducer.IngestRpcFact | codex-rs/analytics/src/reducer.rs:637-666 | Records turn requests and consumes an entry on any answer |
| AnalyticsReducer.Reducer.IngestReviewFact | codex-rs/analytics/src/reducer.rs:1431-1471 | Approval requests, their answers and aborts, and guardian reviews |
| AnalyticsReducer.Reducer.StartItem | codex-rs/analytics/src/reducer.rs:1213-1229 | Records the start of a tracked item with a valid time |
| AnalyticsReducer.Reducer.CompleteItem | codex-rs/analytics/src/reducer.rs:1230-1292 | Counts the item, takes its start, and reports it with its reviews when it has a context |
| AnalyticsReducer.Reducer.IngestThreadFact | codex-rs/analytics/src/reducer.rs:1337-1387 | Connections, threads and contextual facts |
| AnalyticsReducer.Reducer.FindContext | codex-rs/analytics/src/reducer.rs:1688-1703 | The context of a thread or what is missing |
| AcceptedLines.ScanFindsTruth | codex-rs/analytics/src/accepted_lines.rs:30-83 | For every git diff, and every diff whose untitled sections name their file without following a hunk, scanning the printed text gives the true added and deleted counts and the (path, normalised line) pairs of effective added lines, in order, even when body lines look like headers |
| AcceptedLines.ScanAnyText | codex-rs/analytics/src/accepted_lines.rs:30-83 | For any text: added are the `+` lines except `+++ ` lines outside a hunk, deleted likewise, and each effective added line is filed under the path named above it |
| AcceptedLines.CountsTrueIff | codex-rs/analytics/src/accepted_lines.rs:39-80 | For every diff, titled or not, the added and deleted counts are the true ones plus one for each untitled section with path lines that follows a hunk, so they are true iff there is none |
| AcceptedLines.UntitledDiffMiscounted | codex-rs/analytics/src/accepted_lines.rs:39-80 | Two new one-line files printed without `diff --git` lines are counted as three added and one deleted line |
| AcceptedLines.AcceptedLineFingerprints | codex-rs/analytics/src/accepted_lines.rs:30-83 | The loop computes the scan the theorem is about |
| AcceptedLines.LinesOfText | codex-rs/analytics/src/accepted_lines.rs:39-39 | Splitting printed lines gives them back, less one trailing carriage return each, and an unterminated last line as it is |
| AcceptedLines.NormalizeLineIdempotent | codex-rs/analytics/src/accepted_lines.rs:157-169 | Normalising a line twice is normalising it once |
| AcceptedLines.NormalizeLineKeepsWords | codex-rs/analytics/src/accepted_lines.rs:157-169 | A normalised line has the same words and non-blank characters, one space apart; a line is kept iff these characters and spaces are longer than three bytes and include a word character |
| AcceptedLines.NormalizePathNames | codex-rs/analytics/src/accepted_lines.rs:143-155 | Both sides of a file have one name, blanks around it do not matter, and the null device has none |
| AnalyticsClient.DedupeBound | codex-rs/analytics/src/client.rs:149-188 | After any calls the set holds at most 4096 keys, accepted keys form consecutive blocks of 4096 distinct keys, and no key is accepted more often than there are started blocks |
| AnalyticsClient.DedupeExact | codex-rs/analytics/src/client.rs:149-188 | After any calls the keys accepted are exactly those that were new since the last block of 4096 was full, in order, for apps and plugins alike |
| AnalyticsClient.Deduper.ShouldEnqueueAppUsed | codex-rs/analytics/src/client.rs:149-165 | The call is one step of the run the bound is about: true iff keyless or newly accepted; keyless calls touch nothing |
| AnalyticsClient.Deduper.ShouldEnqueuePluginUsed | codex-rs/analytics/src/client.rs:167-188 | The same for plugins; a keyless call may clear a full set and accepts nothing |
| AnalyticsClient.Batch | codex-rs/analytics/src/client.rs:569-590 | The batches hold the events in order, none is empty, isolated events are alone, no two neighbours could be merged |
| AnalyticsClient.BatchingUnique | codex-rs/analytics/src/client.rs:569-590 | Those properties determine the batches |
| AppServerPath.JoinAppendsComponent | codex-rs/app-server-client/src/path.rs:21-42 | Joining a segment appends exactly that component and keeps the path's class, iff the path is neither a Windows root of separators only nor a bare drive |
| AppServerPath.JoinAllAppends | codex-rs/app-server-client/src/path.rs:33-42 | Joining segments one after the other lists them all in order |
| AppServerPath.ComponentsKeepText | codex-rs/app-server-client/src/path.rs:21-31 | Listing components loses separators only; no component is empty or has one |
| AppServerPath.AbsoluteIff | codex-rs/app-server-client/src/path.rs:13-15 | A path is a Windows one iff it starts with a drive and a separator or two separators of one kind; the absolute paths are these and the ones starting with a slash |
| AppServerPath.SeparatorRootLosesClass | codex-rs/app-server-client/src/path.rs:33-58 | The root that loses its class: two backslashes joined with a segment |
| AppServerPath.BareDriveGainsClass | codex-rs/app-server-client/src/path.rs:33-58 | The path that gains one: a bare drive, not absolute, joined with a segment becomes a drive root |

## Left out

- Sockets, TLS, WebSocket framing, JSON decoding and timeouts: decoded frames and write results are inputs, and a handshake that runs out of frames has timed out.
- Request dispatch and typed decoding of the in-process client: each command's own work is delegated to a detached task or to the embedded server, which are not part of this model.
- `server_version` and `codex_home` from the initialize response: read once from the response and stored.
- Messages and codes of errors: an error is identified by its kind and cause; code -32601 stands for the ids in `rejected`, code -32001 for the ids passed to the reject callback.
- Hashing of fingerprints, git lookups and the repository hash of the accepted-lines event.
- HTTP delivery, capture files and the `track_*` wrappers of the analytics client.
- Skill, app, hook, plugin and import facts: each is copied into one event without touching the reducer's state.
- Mapping tables from protocol enums to analytics enums, review triggers and tool names: each is settled by reading one branch; facts carry the mapped status and resolution.
- Counting helpers for command actions, file changes, output items and input images: the counts reach the reducer inside the facts, and nothing it decides depends on how they were taken.
- Copied payload fields of configs, profiles, threads and items: one string per record.
- InProcessForwarding.Reachable: the in-process step system does not model the detached tasks that answer requests, so replies to in-process commands are not covered.
- AcceptedLines.NormalizeLineKeepsWords: holds for every classification of alphanumeric characters, so it says nothing about the Unicode tables themselves.
- `agent-graph-store`, `app-server-daemon`, `agent-identity`, packaging scripts and the GUI proxy.
