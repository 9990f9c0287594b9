/** The facts the analytics reducer ingests, its state and the events it emits. Payload
    fields that are only copied are folded into one string per record. */
module AnalyticsFacts {
  import opened Protocol

  type ConnectionId = nat
  type ThreadId = string
  type TurnId = string
  type ItemId = string

  /** `u64::try_from(i64).ok()`. */
  function ToU64(value: int): Option<nat> {
    if value < 0 then None else Some(value)
  }

  function OptionToU64(value: Option<int>): Option<nat> {
    if value.Some? then ToU64(value.value) else None
  }

  // ---- Values held in the state ----

  datatype ConnectionState = ConnectionState(productClientId: string, client: string)

  datatype ThreadMetadata = ThreadMetadata(sessionId: string, parent: Option<ThreadId>, source: string)

  datatype ThreadState = ThreadState(
    connection: Option<ConnectionId>, metadata: Option<ThreadMetadata>, originator: Option<string>)

  datatype RequestState =
    | PendingTurnStart(thread: ThreadId, images: nat)
    | PendingTurnSteer(thread: ThreadId, expectedTurn: TurnId, images: nat, createdAt: nat)

  datatype Config = Config(thread: ThreadId, images: nat, settings: string)
  datatype Profile = Profile(timings: string)
  datatype Completed = Completed(status: string, completedAt: nat, durationMs: Option<nat>)

  datatype ItemKind =
    | CommandExecution | FileChange | McpToolCall | DynamicToolCall | CollabAgentToolCall
    | WebSearch | ImageGeneration | SubAgentActivity | UntrackedItem

  datatype Item = Item(kind: ItemKind, id: ItemId, inProgress: bool, details: string)

  datatype ToolCounts = ToolCounts(
    total: nat, shellCommand: nat, fileChange: nat, mcpToolCall: nat, dynamicToolCall: nat,
    subagentToolCall: nat, webSearch: nat, imageGeneration: nat)

  const NO_TOOLS := ToolCounts(0, 0, 0, 0, 0, 0, 0, 0)

  datatype TurnState = TurnState(
    connection: Option<ConnectionId>, thread: Option<ThreadId>, images: Option<nat>,
    config: Option<Config>, startedAt: Option<nat>, tokenUsage: Option<string>,
    profile: Option<Profile>, completed: Option<Completed>, codexError: Option<string>,
    latestDiff: Option<string>, steerCount: nat, toolCounts: ToolCounts)

  const NEW_TURN := TurnState(None, None, None, None, None, None, None, None, None, None, 0, NO_TOOLS)

  datatype ToolItemKey = ToolItemKey(thread: ThreadId, turn: TurnId, item: ItemId)

  datatype SubjectKind = CommandSubject | FileSubject | McpSubject | PermissionsSubject | NetworkSubject
  datatype Reviewer = Guardian | User
  datatype ReviewStatus = Approved | Denied | Aborted | ReviewTimedOut
  datatype Resolution = NoResolution | SessionApproval | ExecPolicyAmendment | NetworkPolicyAmendment

  /** User reviews are keyed by the request id itself, guardian reviews carry their own id. */
  datatype ReviewId = UserReview(request: RequestId) | GuardianReview(name: string)

  datatype PendingReview = PendingReview(
    thread: ThreadId, turn: TurnId, item: Option<ItemId>, id: ReviewId, subject: SubjectKind,
    startedAt: nat, additionalPermissions: bool, networkAccess: bool)

  datatype Outcome =
    | UnknownOutcome | GuardianApproved | GuardianDenied | GuardianAborted
    | UserApproved | UserApprovedForSession | UserDenied | UserAborted

  datatype ReviewSummary = ReviewSummary(
    reviews: nat, guardian: nat, user: nat, outcome: Option<Outcome>,
    additionalPermissions: bool, networkAccess: bool)

  const NO_REVIEWS := ReviewSummary(0, 0, 0, None, false, false)

  // ---- Facts ----

  /** `additional`: extra permissions were requested; its value says whether with network. */
  datatype Approval =
    | CommandApproval(networkContext: bool, amendments: bool, additional: Option<bool>)
    | FileApproval(grantRoot: bool)
    | PermissionsApproval(network: bool, fileSystem: bool)

  datatype GuardianAction =
    | GuardCommand | GuardExecve | GuardPatch | GuardNetwork | GuardMcp
    | GuardPermissions(network: bool, fileSystem: bool)

  datatype ContextKind = Compaction | Goal | GuardianReport

  datatype Fact =
    | Initialize(connection: ConnectionId, state: ConnectionState)
    | TurnStartRequest(connection: ConnectionId, request: RequestId, thread: ThreadId, images: nat)
    | TurnSteerRequest(connection: ConnectionId, request: RequestId, thread: ThreadId, expectedTurn: TurnId,
                       images: nat, createdAt: nat)
    | ThreadResponse(connection: ConnectionId, thread: ThreadId, metadata: ThreadMetadata, originator: Option<string>)
    | TurnStartResponse(connection: ConnectionId, request: RequestId, turn: TurnId)
    | TurnSteerResponse(connection: ConnectionId, request: RequestId, turn: TurnId)
    | ErrorResponse(connection: ConnectionId, request: RequestId, reason: Option<string>)
    | ApprovalRequested(request: RequestId, approval: Approval, thread: ThreadId, turn: TurnId, itemId: ItemId,
                        startedAtMs: int)
    | ApprovalResolved(request: RequestId, status: ReviewStatus, resolution: Resolution, completedAt: nat)
    | GuardianCompleted(action: GuardianAction, thread: ThreadId, turn: TurnId, target: Option<ItemId>, name: string,
                        verdict: Option<ReviewStatus>, startedAtMs: int, completedAtMs: int)
    | ItemStarted(thread: ThreadId, turn: TurnId, item: Item, startedAtMs: int)
    | ItemCompleted(thread: ThreadId, turn: TurnId, item: Item, completedAtMs: int)
    | TurnStarted(turn: TurnId, startedAtS: Option<int>)
    | TurnDiffUpdated(turn: TurnId, thread: ThreadId, diff: string)
    | TurnCompleted(turn: TurnId, turnStatus: string, completedAtS: Option<int>, durationMs: Option<int>)
    | SubAgentThreadStarted(thread: ThreadId, parent: Option<ThreadId>, productClientId: string, sessionId: string)
    | ContextFact(kind: ContextKind, thread: ThreadId, payload: string)
    | TurnResolvedConfig(turn: TurnId, config: Config)
    | TurnTokenUsage(turn: TurnId, thread: ThreadId, usage: string)
    | TurnProfile(turn: TurnId, profile: Profile)
    | TurnCodexError(turn: TurnId, thread: ThreadId, error: string)
    | OtherFact

  // ---- Events ----

  /** What every contextual event copies from the thread and its connection. */
  datatype Context = Context(productClientId: string, connection: ConnectionState, metadata: ThreadMetadata)

  datatype Event =
    | ThreadInitialized(thread: ThreadId, productClientId: string, metadata: ThreadMetadata)
    | ContextEvent(kind: ContextKind, thread: ThreadId, payload: string, context: Context)
    | ReviewEvent(review: PendingReview, reviewer: Reviewer, status: ReviewStatus, resolution: Resolution,
                  completedAt: nat, durationMs: Option<nat>, context: Context)
    | TurnSteerEvent(thread: ThreadId, expectedTurn: TurnId, accepted: Option<TurnId>, rejection: Option<string>,
                     images: nat, createdAt: nat, context: Context)
    | ToolItemEvent(key: ToolItemKey, item: Item, startedAt: nat, completedAt: nat, durationMs: Option<nat>,
                    reviews: ReviewSummary, outcome: Outcome, context: Context)
    | TurnEvent(turn: TurnId, thread: ThreadId, images: nat, settings: string, profile: Profile, completed: Completed,
                turnStartedAt: Option<nat>, tokenUsage: Option<string>, codexError: Option<string>, steerCount: nat,
                toolCounts: ToolCounts, context: Context)
    | AcceptedLines(turn: TurnId, thread: ThreadId, settings: string, added: nat, deleted: nat)
}
