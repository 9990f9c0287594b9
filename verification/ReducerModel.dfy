/** The analytics reducer as a transition function: one fact in, a new state and a list of
    events out. `AnalyticsReducer` is the same machine written over mutable maps. */
module ReducerModel {
  import opened Protocol
  import opened AnalyticsFacts
  import AcceptedLines

  datatype State = State(
    requests: map<(ConnectionId, RequestId), RequestState>,
    turns: map<TurnId, TurnState>,
    connections: map<ConnectionId, ConnectionState>,
    threads: map<ThreadId, ThreadState>,
    started: map<ToolItemKey, nat>,
    reviews: map<RequestId, PendingReview>,
    summaries: map<ToolItemKey, ReviewSummary>)

  const EMPTY := State(map[], map[], map[], map[], map[], map[], map[])

  datatype Out = Out(state: State, events: seq<Event>)

  predicate SameContexts(s: State, t: State) {
    t.connections == s.connections && t.threads == s.threads
  }

  predicate SameItems(s: State, t: State) {
    t.started == s.started && t.summaries == s.summaries
  }

  // ---- Context ----

  datatype Missing = MissingThreadConnection | MissingConnection | MissingThreadMetadata
  datatype Lookup = Found(context: Context) | Lost(missing: Missing)

  function ContextOf(thread: ThreadState, metadata: ThreadMetadata, connection: ConnectionState): Context {
    var productClientId := if thread.originator.Some? then thread.originator.value else connection.productClientId;
    Context(productClientId, connection, metadata)
  }

  function ThreadContext(s: State, thread: ThreadId): Lookup {
    if thread !in s.threads || s.threads[thread].connection.None? then Lost(MissingThreadConnection)
    else
      var state := s.threads[thread];
      if state.connection.value !in s.connections then Lost(MissingConnection)
      else if state.metadata.None? then Lost(MissingThreadMetadata)
      else Found(ContextOf(state, state.metadata.value, s.connections[state.connection.value]))
  }

  /** Turn and steer events name their connection themselves. */
  function ContextOn(s: State, connection: Option<ConnectionId>, thread: ThreadId): Lookup {
    if connection.None? then Lost(MissingThreadConnection)
    else if connection.value !in s.connections then Lost(MissingConnection)
    else if thread !in s.threads || s.threads[thread].metadata.None? then Lost(MissingThreadMetadata)
    else Found(ContextOf(s.threads[thread], s.threads[thread].metadata.value, s.connections[connection.value]))
  }

  function ThreadConnection(s: State, thread: ThreadId): Option<ConnectionId> {
    if thread in s.threads then s.threads[thread].connection else None
  }

  // ---- Turns ----

  function TurnOf(s: State, turn: TurnId): TurnState {
    if turn in s.turns then s.turns[turn] else NEW_TURN
  }

  function WithConfig(t: TurnState, config: Config): TurnState {
    t.(thread := Some(config.thread), images := Some(config.images), config := Some(config))
  }

  /** A turn-start response names the connection; the request it settles, the thread and images. */
  function WithStart(t: TurnState, connection: ConnectionId, pending: RequestState): TurnState {
    t.(connection := Some(connection), thread := Some(pending.thread), images := Some(pending.images))
  }

  function WithSteer(t: TurnState): TurnState {
    t.(steerCount := t.steerCount + 1)
  }

  function PutTurn(s: State, turn: TurnId, state: TurnState): State {
    s.(turns := s.turns[turn := state])
  }

  predicate TurnReady(t: TurnState) {
    t.thread.Some? && t.images.Some? && t.config.Some? && t.profile.Some? && t.completed.Some?
  }

  function TurnLookup(s: State, t: TurnState): Lookup
    requires t.thread.Some?
  {
    ContextOn(s, Or(t.connection, ThreadConnection(s, t.thread.value)), t.thread.value)
  }

  function AcceptedLinesOf(turn: TurnId, t: TurnState): seq<Event>
    requires TurnReady(t)
  {
    if t.latestDiff.None? then []
    else
      var summary := AcceptedLines.ScanDiff(c => false, t.latestDiff.value);
      if summary.added == 0 && summary.deleted == 0 then []
      else [AcceptedLines(turn, t.thread.value, t.config.value.settings, summary.added, summary.deleted)]
  }

  /** Of the resolved config only the settings are emitted: its thread and image count are not. */
  function TurnEventOf(turn: TurnId, t: TurnState, context: Context): Event
    requires TurnReady(t)
  {
    TurnEvent(turn, t.thread.value, t.images.value, t.config.value.settings, t.profile.value, t.completed.value,
              t.startedAt, t.tokenUsage, t.codexError, t.steerCount, t.toolCounts, context)
  }

  predicate Emits(s: State, turn: TurnId) {
    turn in s.turns && TurnReady(s.turns[turn]) && TurnLookup(s, s.turns[turn]).Found?
  }

  function MaybeEmit(s: State, turn: TurnId): (out: Out)
    ensures out.state == s.(turns := out.state.turns)
  {
    if !Emits(s, turn) then Out(s, [])
    else
      var t := s.turns[turn];
      Out(s.(turns := s.turns - {turn}),
          [TurnEventOf(turn, t, TurnLookup(s, t).context)] + AcceptedLinesOf(turn, t))
  }

  // ---- Tool items ----

  function ItemKey(f: Fact): ToolItemKey
    requires f.ItemStarted? || f.ItemCompleted?
  {
    ToolItemKey(f.thread, f.turn, f.item.id)
  }

  predicate Tracked(item: Item) {
    !item.kind.SubAgentActivity? && !item.kind.UntrackedItem?
  }

  predicate Counted(item: Item) {
    !item.kind.UntrackedItem?
  }

  function Record(c: ToolCounts, item: Item): ToolCounts {
    match item.kind
    case CommandExecution => c.(shellCommand := c.shellCommand + 1, total := c.total + 1)
    case FileChange => c.(fileChange := c.fileChange + 1, total := c.total + 1)
    case McpToolCall => c.(mcpToolCall := c.mcpToolCall + 1, total := c.total + 1)
    case DynamicToolCall => c.(dynamicToolCall := c.dynamicToolCall + 1, total := c.total + 1)
    case CollabAgentToolCall => c.(subagentToolCall := c.subagentToolCall + 1, total := c.total + 1)
    case SubAgentActivity => c.(subagentToolCall := c.subagentToolCall + 1, total := c.total + 1)
    case WebSearch => c.(webSearch := c.webSearch + 1, total := c.total + 1)
    case ImageGeneration => c.(imageGeneration := c.imageGeneration + 1, total := c.total + 1)
    case UntrackedItem => c
  }

  /** `checked_sub`. */
  function ObservedDuration(startedAt: nat, completedAt: nat): Option<nat> {
    if completedAt < startedAt then None else Some(completedAt - startedAt)
  }

  /** A tool item that is still in progress has no event; web search and image generation always have one. */
  predicate HasToolEvent(item: Item) {
    Tracked(item) && (item.inProgress ==> item.kind.WebSearch? || item.kind.ImageGeneration?)
  }

  function SummaryOf(s: State, key: ToolItemKey): ReviewSummary {
    if key in s.summaries then s.summaries[key] else NO_REVIEWS
  }

  function ToolEventsOf(s: State, key: ToolItemKey, item: Item, startedAt: nat, completedAt: nat, context: Context)
    : seq<Event>
  {
    var summary := SummaryOf(s, key);
    if !HasToolEvent(item) then []
    else [ToolItemEvent(key, item, startedAt, completedAt, ObservedDuration(startedAt, completedAt), summary,
                        if summary.outcome.Some? then summary.outcome.value else UnknownOutcome, context)]
  }

  function CompleteItem(s: State, f: Fact): (out: Out)
    requires f.ItemCompleted?
    ensures SameContexts(s, out.state) && out.state.requests == s.requests && out.state.reviews == s.reviews
  {
    if !Counted(f.item) || f.turn !in s.turns then Out(s, [])
    else
      var t := s.turns[f.turn];
      var counted := PutTurn(s, f.turn, t.(toolCounts := Record(t.toolCounts, f.item)));
      var key := ItemKey(f);
      if !Tracked(f.item) || key !in s.started then Out(counted, [])
      else
        var taken := counted.(started := s.started - {key});
        var completedAt, lookup := ToU64(f.completedAtMs), ThreadContext(s, f.thread);
        if completedAt.None? || lookup.Lost? then Out(taken, [])
        else Out(taken.(summaries := s.summaries - {key}),
                 ToolEventsOf(s, key, f.item, s.started[key], completedAt.value, lookup.context))
  }

  // ---- Reviews ----

  function FinalOutcome(reviewer: Reviewer, status: ReviewStatus, resolution: Resolution): Outcome {
    match (reviewer, status)
    case (Guardian, Approved) => GuardianApproved
    case (Guardian, Denied) => GuardianDenied
    case (Guardian, _) => GuardianAborted
    case (User, Approved) => if resolution.SessionApproval? then UserApprovedForSession else UserApproved
    case (User, Denied) => UserDenied
    case (User, _) => UserAborted
  }

  /** Only command, file and MCP reviews of a named item are summarised. */
  function SummaryKey(review: PendingReview): Option<ToolItemKey> {
    if review.item.None? || review.subject.PermissionsSubject? || review.subject.NetworkSubject? then None
    else Some(ToolItemKey(review.thread, review.turn, review.item.value))
  }

  function AddReview(summary: ReviewSummary, review: PendingReview, reviewer: Reviewer, outcome: Outcome)
    : ReviewSummary
  {
    ReviewSummary(summary.reviews + 1,
                  summary.guardian + (if reviewer.Guardian? then 1 else 0),
                  summary.user + (if reviewer.User? then 1 else 0),
                  Some(outcome),
                  summary.additionalPermissions || review.additionalPermissions,
                  summary.networkAccess || review.networkAccess)
  }

  /** The summary is recorded whether or not the event has a context. */
  function EmitReview(s: State, review: PendingReview, reviewer: Reviewer, status: ReviewStatus,
                      resolution: Resolution, completedAt: nat): Out
  {
    var key := SummaryKey(review);
    var recorded :=
      if key.None? then s
      else s.(summaries := s.summaries[key.value :=
        AddReview(SummaryOf(s, key.value), review, reviewer, FinalOutcome(reviewer, status, resolution))]);
    var lookup := ThreadContext(s, review.thread);
    if lookup.Lost? then Out(recorded, [])
    else Out(recorded, [ReviewEvent(review, reviewer, status, resolution, completedAt,
                                    ObservedDuration(review.startedAt, completedAt), lookup.context)])
  }

  function ReviewOf(f: Fact, startedAt: nat): PendingReview
    requires f.ApprovalRequested?
  {
    var id := UserReview(f.request);
    match f.approval
    case CommandApproval(networkContext, amendments, additional) =>
      PendingReview(f.thread, f.turn, Some(f.itemId), id, if networkContext then NetworkSubject else CommandSubject,
                    startedAt, additional.Some?, networkContext || amendments || additional == Some(true))
    case FileApproval(grantRoot) =>
      PendingReview(f.thread, f.turn, Some(f.itemId), id, FileSubject, startedAt, grantRoot, false)
    case PermissionsApproval(network, fileSystem) =>
      PendingReview(f.thread, f.turn, Some(f.itemId), id, PermissionsSubject, startedAt, network || fileSystem, network)
  }

  function GuardianReviewOf(f: Fact, startedAt: nat): PendingReview
    requires f.GuardianCompleted?
  {
    var id := GuardianReview(f.name);
    match f.action
    case GuardCommand => PendingReview(f.thread, f.turn, f.target, id, CommandSubject, startedAt, false, false)
    case GuardExecve => PendingReview(f.thread, f.turn, f.target, id, CommandSubject, startedAt, false, false)
    case GuardPatch => PendingReview(f.thread, f.turn, f.target, id, FileSubject, startedAt, true, false)
    case GuardNetwork => PendingReview(f.thread, f.turn, f.target, id, NetworkSubject, startedAt, true, true)
    case GuardMcp => PendingReview(f.thread, f.turn, f.target, id, McpSubject, startedAt, false, false)
    case GuardPermissions(network, fileSystem) =>
      PendingReview(f.thread, f.turn, f.target, id, PermissionsSubject, startedAt, network || fileSystem, network)
  }

  function CompleteGuardian(s: State, f: Fact): Out
    requires f.GuardianCompleted?
  {
    var startedAt, completedAt := ToU64(f.startedAtMs), ToU64(f.completedAtMs);
    if f.verdict.None? || startedAt.None? || completedAt.None? then Out(s, [])
    else EmitReview(s, GuardianReviewOf(f, startedAt.value), Guardian, f.verdict.value, NoResolution, completedAt.value)
  }

  function ResolveApproval(s: State, f: Fact): Out
    requires f.ApprovalResolved?
  {
    if f.request !in s.reviews then Out(s, [])
    else
      var taken := s.(reviews := s.reviews - {f.request});
      EmitReview(taken, s.reviews[f.request], User, f.status, f.resolution, f.completedAt)
  }

  // ---- Requests ----

  function EmitSteer(s: State, connection: ConnectionId, request: RequestState, accepted: Option<TurnId>,
                     rejection: Option<string>): seq<Event>
    requires request.PendingTurnSteer?
  {
    var lookup := ContextOn(s, Some(connection), request.thread);
    if lookup.Lost? then []
    else [TurnSteerEvent(request.thread, request.expectedTurn, accepted, rejection, request.images, request.createdAt,
                         lookup.context)]
  }

  /** The entry is consumed even when it is of the wrong kind. */
  function TakeRequest(s: State, key: (ConnectionId, RequestId)): State {
    s.(requests := s.requests - {key})
  }

  function AnswerTurnStart(s: State, f: Fact): Out
    requires f.TurnStartResponse?
  {
    var key := (f.connection, f.request);
    var taken := TakeRequest(s, key);
    if key !in s.requests || !s.requests[key].PendingTurnStart? then Out(taken, [])
    else
      var pending := s.requests[key];
      MaybeEmit(PutTurn(taken, f.turn, WithStart(TurnOf(s, f.turn), f.connection, pending)), f.turn)
  }

  function AnswerTurnSteer(s: State, f: Fact): Out
    requires f.TurnSteerResponse?
  {
    var key := (f.connection, f.request);
    var taken := TakeRequest(s, key);
    if key !in s.requests || !s.requests[key].PendingTurnSteer? then Out(taken, [])
    else
      var counted :=
        if f.turn in s.turns then PutTurn(taken, f.turn, WithSteer(s.turns[f.turn])) else taken;
      Out(counted, EmitSteer(s, f.connection, s.requests[key], Some(f.turn), None))
  }

  function AnswerError(s: State, f: Fact): Out
    requires f.ErrorResponse?
  {
    var key := (f.connection, f.request);
    Out(TakeRequest(s, key),
        if key !in s.requests || !s.requests[key].PendingTurnSteer? then []
        else EmitSteer(s, f.connection, s.requests[key], None, f.reason))
  }

  // ---- Threads ----

  const NEW_THREAD := ThreadState(None, None, None)

  function InitializeThread(s: State, f: Fact): Out
    requires f.ThreadResponse?
  {
    if f.connection !in s.connections then Out(s, [])
    else
      var previous := if f.thread in s.threads then s.threads[f.thread] else NEW_THREAD;
      var state := ThreadState(Some(f.connection), Some(f.metadata), Or(f.originator, previous.originator));
      var context := ContextOf(state, f.metadata, s.connections[f.connection]);
      Out(s.(threads := s.threads[f.thread := state]),
          [ThreadInitialized(f.thread, context.productClientId, f.metadata)])
  }

  function StartSubAgent(s: State, f: Fact): Out
    requires f.SubAgentThreadStarted?
  {
    var inherited := if f.parent.Some? then ThreadConnection(s, f.parent.value) else None;
    var previous := if f.thread in s.threads then s.threads[f.thread] else NEW_THREAD;
    var metadata := ThreadMetadata(f.sessionId, f.parent, "subagent");
    var state := ThreadState(Or(previous.connection, inherited), Or(previous.metadata, Some(metadata)),
                             Or(previous.originator, Some(f.productClientId)));
    Out(s.(threads := s.threads[f.thread := state]), [ThreadInitialized(f.thread, f.productClientId, metadata)])
  }

  // ---- The reducer ----

  predicate TurnFact(f: Fact) {
    f.TurnStarted? || f.TurnDiffUpdated? || f.TurnCompleted? || f.TurnResolvedConfig? || f.TurnTokenUsage?
    || f.TurnProfile? || f.TurnCodexError?
  }

  predicate RpcFact(f: Fact) {
    f.TurnStartRequest? || f.TurnSteerRequest? || f.TurnStartResponse? || f.TurnSteerResponse? || f.ErrorResponse?
  }

  predicate ThreadFact(f: Fact) {
    f.Initialize? || f.ThreadResponse? || f.SubAgentThreadStarted? || f.ContextFact? || f.OtherFact?
  }

  predicate ReviewFact(f: Fact) {
    f.ApprovalRequested? || f.ApprovalResolved? || f.GuardianCompleted?
  }

  function CompletedOf(f: Fact): Completed
    requires f.TurnCompleted?
  {
    var completedAt := OptionToU64(f.completedAtS);
    Completed(f.turnStatus, if completedAt.Some? then completedAt.value else 0, OptionToU64(f.durationMs))
  }

  function IngestTurnFact(s: State, f: Fact): (out: Out)
    requires TurnFact(f)
    ensures SameContexts(s, out.state) && SameItems(s, out.state)
    ensures out.state.requests == s.requests && out.state.reviews == s.reviews
  {
    var t := TurnOf(s, f.turn);
    match f
    case TurnStarted(turn, startedAtS) => Out(PutTurn(s, turn, t.(startedAt := OptionToU64(startedAtS))), [])
    case TurnDiffUpdated(turn, thread, diff) =>
      Out(PutTurn(s, turn, t.(thread := Some(thread), latestDiff := Some(diff))), [])
    case TurnCompleted(turn, _, _, _) => MaybeEmit(PutTurn(s, turn, t.(completed := Some(CompletedOf(f)))), turn)
    case TurnResolvedConfig(turn, config) => MaybeEmit(PutTurn(s, turn, WithConfig(t, config)), turn)
    case TurnTokenUsage(turn, thread, usage) =>
      MaybeEmit(PutTurn(s, turn, t.(thread := Some(thread), tokenUsage := Some(usage))), turn)
    case TurnProfile(turn, profile) => MaybeEmit(PutTurn(s, turn, t.(profile := Some(profile))), turn)
    case TurnCodexError(turn, thread, error) =>
      Out(PutTurn(s, turn, t.(thread := Or(t.thread, Some(thread)), codexError := Some(error))), [])
  }

  function IngestRpcFact(s: State, f: Fact): (out: Out)
    requires RpcFact(f)
    ensures SameContexts(s, out.state) && SameItems(s, out.state) && out.state.reviews == s.reviews
  {
    match f
    case TurnStartRequest(connection, request, thread, images) =>
      Out(s.(requests := s.requests[(connection, request) := PendingTurnStart(thread, images)]), [])
    case TurnSteerRequest(connection, request, thread, expectedTurn, images, createdAt) =>
      var pending := PendingTurnSteer(thread, expectedTurn, images, createdAt);
      Out(s.(requests := s.requests[(connection, request) := pending]), [])
    case TurnStartResponse(_, _, _) => AnswerTurnStart(s, f)
    case TurnSteerResponse(_, _, _) => AnswerTurnSteer(s, f)
    case ErrorResponse(_, _, _) => AnswerError(s, f)
  }

  function IngestThreadFact(s: State, f: Fact): (out: Out)
    requires ThreadFact(f)
    ensures SameItems(s, out.state) && out.state.turns == s.turns
    ensures out.state.requests == s.requests && out.state.reviews == s.reviews
  {
    match f
    case Initialize(connection, state) => Out(s.(connections := s.connections[connection := state]), [])
    case ThreadResponse(_, _, _, _) => InitializeThread(s, f)
    case SubAgentThreadStarted(_, _, _, _) => StartSubAgent(s, f)
    case ContextFact(kind, thread, payload) =>
      var lookup := ThreadContext(s, thread);
      Out(s, if lookup.Lost? then [] else [ContextEvent(kind, thread, payload, lookup.context)])
    case OtherFact => Out(s, [])
  }

  function IngestReviewFact(s: State, f: Fact): (out: Out)
    requires ReviewFact(f)
    ensures SameContexts(s, out.state) && out.state.turns == s.turns
    ensures out.state.requests == s.requests && out.state.started == s.started
  {
    match f
    case ApprovalRequested(request, _, _, _, _, startedAtMs) =>
      var startedAt := ToU64(startedAtMs);
      Out(if startedAt.None? then s else s.(reviews := s.reviews[request := ReviewOf(f, startedAt.value)]), [])
    case ApprovalResolved(_, _, _, _) => ResolveApproval(s, f)
    case GuardianCompleted(_, _, _, _, _, _, _, _) => CompleteGuardian(s, f)
  }

  function StartItem(s: State, f: Fact): (out: Out)
    requires f.ItemStarted?
    ensures SameContexts(s, out.state) && out.state.turns == s.turns && out.state.summaries == s.summaries
    ensures out.state.requests == s.requests && out.state.reviews == s.reviews
  {
    var startedAt := ToU64(f.startedAtMs);
    Out(if !Tracked(f.item) || startedAt.None? then s
        else s.(started := s.started[ItemKey(f) := startedAt.value]), [])
  }

  /** Each kind of fact touches only its own maps. */
  function Ingest(s: State, f: Fact): (out: Out)
    ensures !ThreadFact(f) ==> SameContexts(s, out.state)
    ensures !RpcFact(f) ==> out.state.requests == s.requests
    ensures !ReviewFact(f) ==> out.state.reviews == s.reviews
    ensures !f.ItemStarted? && !f.ItemCompleted? ==> out.state.started == s.started
    ensures !f.ItemCompleted? && !ReviewFact(f) ==> out.state.summaries == s.summaries
    ensures !TurnFact(f) && !RpcFact(f) && !f.ItemCompleted? ==> out.state.turns == s.turns
  {
    if TurnFact(f) then IngestTurnFact(s, f)
    else if RpcFact(f) then IngestRpcFact(s, f)
    else if ReviewFact(f) then IngestReviewFact(s, f)
    else if f.ItemStarted? then StartItem(s, f)
    else if f.ItemCompleted? then CompleteItem(s, f)
    else IngestThreadFact(s, f)
  }

  // ---- Runs ----

  function Run(facts: seq<Fact>): State {
    if facts == [] then EMPTY else Ingest(Run(facts[..|facts| - 1]), facts[|facts| - 1]).state
  }

  /** Everything emitted along a run, in order. */
  function Emitted(facts: seq<Fact>): seq<Event> {
    if facts == [] then []
    else Emitted(facts[..|facts| - 1]) + Ingest(Run(facts[..|facts| - 1]), facts[|facts| - 1]).events
  }

  /** What the i-th fact of a run emits. */
  function EmittedAt(facts: seq<Fact>, i: nat): seq<Event>
    requires i < |facts|
  {
    Ingest(Run(facts[..i]), facts[i]).events
  }

  lemma RunSnoc(facts: seq<Fact>, f: Fact)
    ensures Run(facts + [f]) == Ingest(Run(facts), f).state
    ensures Emitted(facts + [f]) == Emitted(facts) + Ingest(Run(facts), f).events
  {
    assert (facts + [f])[..|facts|] == facts;
  }

  lemma RunNext(facts: seq<Fact>, i: nat)
    requires i < |facts|
    ensures Run(facts[..i + 1]) == Ingest(Run(facts[..i]), facts[i]).state
    ensures Emitted(facts[..i + 1]) == Emitted(facts[..i]) + EmittedAt(facts, i)
  {
    hide Ingest, Run, Emitted;
    RunSnoc(facts[..i], facts[i]);
    assert facts[..i + 1] == facts[..i] + [facts[i]];
  }

  lemma RunNone(facts: seq<Fact>)
    ensures Run(facts[..0]) == EMPTY && Emitted(facts[..0]) == []
  {
    assert facts[..0] == [];
  }
}
