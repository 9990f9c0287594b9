/** Everything the reducer emits, fact by fact, as a function of the facts alone. */
module ReducerEvents {
  import opened Protocol
  import opened AnalyticsFacts
  import opened ReducerModel
  import opened ReducerGuarantees
  import opened ReducerHistory
  import opened ReducerTurns
  import opened ReducerRefinements

  /** A response opens its thread if and only if its connection is known. The client is the
      originator it names, else the one the thread had, else the connection's. */
  function OpeningEventsFor(facts: seq<Fact>, f: Fact): seq<Event>
    requires f.ThreadResponse?
  {
    var connection, known := ConnectionFor(facts, f.connection), OriginatorFor(facts, f.thread);
    if connection.None? then []
    else
      var client := if f.originator.Some? then f.originator.value
                    else if known.Some? then known.value
                    else connection.value.productClientId;
      [ThreadInitialized(thread := f.thread, productClientId := client, metadata := f.metadata)]
  }

  function SubAgentEventsFor(f: Fact): seq<Event>
    requires f.SubAgentThreadStarted?
  {
    [ThreadInitialized(thread := f.thread, productClientId := f.productClientId,
                       metadata := ThreadMetadata(sessionId := f.sessionId, parent := f.parent, source := "subagent"))]
  }

  function ContextEventsFor(facts: seq<Fact>, f: Fact): seq<Event>
    requires f.ContextFact?
  {
    var context := HomeContext(facts, f.thread);
    if context.None? then []
    else [ContextEvent(kind := f.kind, thread := f.thread, payload := f.payload, context := context.value)]
  }

  /** `events` is what `f` must emit after `facts`. */
  ghost predicate Follow(facts: seq<Fact>, f: Fact, events: seq<Event>) {
    match f
    case ThreadResponse(_, _, _, _) => events == OpeningEventsFor(facts, f)
    case SubAgentThreadStarted(_, _, _, _) => events == SubAgentEventsFor(f)
    case ContextFact(_, _, _) => events == ContextEventsFor(facts, f)
    case TurnSteerResponse(_, _, _) => events == SteerEventsFor(facts, f)
    case ErrorResponse(_, _, _) => events == SteerEventsFor(facts, f)
    case ItemCompleted(_, _, _, _) => events == ToolEventsFor(facts, f)
    case ApprovalResolved(request, _, _, _) =>
      var asked := ApprovalFor(facts, request);
      if asked.Some? && HomeOf(facts, asked.value.thread).Some?
      then |events| == 1 && TellsAnswer(events[0], facts, asked.value, f) else events == []
    case GuardianCompleted(_, thread, _, _, _, verdict, startedAtMs, completedAtMs) =>
      if verdict.Some? && startedAtMs >= 0 && completedAtMs >= 0 && HomeOf(facts, thread).Some?
      then |events| == 1 && TellsVerdict(events[0], facts, f) else events == []
    case TurnStartResponse(_, _, turn) => events == TurnEventsFor(facts, f, turn)
    case TurnCompleted(turn, _, _, _) => events == TurnEventsFor(facts, f, turn)
    case TurnResolvedConfig(turn, _) => events == TurnEventsFor(facts, f, turn)
    case TurnTokenUsage(turn, _, _) => events == TurnEventsFor(facts, f, turn)
    case TurnProfile(turn, _) => events == TurnEventsFor(facts, f, turn)
    case _ => events == []
  }

  lemma {:induction false} OpeningExact(facts: seq<Fact>, f: Fact)
    requires f.ThreadResponse?
    ensures Ingest(Run(facts), f).events == OpeningEventsFor(facts, f)
  {
    hide Run, ConnectionFor, OriginatorFor, HomeOf, MetadataFor;
    ConnectionsAreHistory(facts, f.connection);
    ThreadsAreHistory(facts, f.thread);
  }

  lemma {:induction false} SubAgentExact(s: State, f: Fact)
    requires f.SubAgentThreadStarted?
    ensures Ingest(s, f).events == SubAgentEventsFor(f)
  {
  }

  lemma {:induction false} ContextExact(facts: seq<Fact>, f: Fact)
    requires f.ContextFact?
    ensures Ingest(Run(facts), f).events == ContextEventsFor(facts, f)
  {
    hide Run, HomeContext, ThreadContext;
    ThreadContextIsHistory(facts, f.thread);
  }

  /** A response to something other than an open turn start emits nothing. */
  lemma {:induction false} StrayStartIsSilent(facts: seq<Fact>, f: Fact)
    requires f.TurnStartResponse? && !Attempts(facts, f, f.turn)
    ensures Ingest(Run(facts), f).events == []
  {
    hide Run, RequestFor, MaybeEmit;
    AskedIsHistory(facts, f);
  }

  predicate Silent(f: Fact) {
    f.Initialize? || f.TurnStartRequest? || f.TurnSteerRequest? || f.ApprovalRequested? || f.ItemStarted?
    || f.TurnStarted? || f.TurnDiffUpdated? || f.TurnCodexError? || f.OtherFact?
  }

  lemma {:induction false} SilentFact(s: State, f: Fact)
    requires Silent(f)
    ensures Ingest(s, f).events == []
  {
    hide MaybeEmit, CompletedOf, ReviewOf;
  }

  predicate MayComplete(f: Fact) {
    f.TurnStartResponse? || f.TurnCompleted? || f.TurnResolvedConfig? || f.TurnTokenUsage? || f.TurnProfile?
  }

  lemma {:induction false} TurnEventsExact(facts: seq<Fact>, f: Fact)
    requires MayComplete(f)
    ensures Ingest(Run(facts), f).events == TurnEventsFor(facts, f, f.turn)
  {
    hide Run, Ingest, Told, Asked, Complete, JoinContext, TurnEventFor, AcceptedLinesFor;
    if Attempts(facts, f, f.turn) { AttemptEmits(facts, f, f.turn); } else { StrayStartIsSilent(facts, f); }
  }

  /** The whole reducer: after any facts, the next one emits exactly what the facts so far call for,
      and nothing else. */
  lemma {:induction false} EventsExact(facts: seq<Fact>, f: Fact)
    ensures Follow(facts, f, Ingest(Run(facts), f).events)
  {
    hide Run, Ingest, OpeningEventsFor, SubAgentEventsFor, ContextEventsFor, SteerEventsFor, ToolEventsFor;
    hide TurnEventsFor, ApprovalFor, HomeOf, TellsAnswer, TellsVerdict;
    if MayComplete(f) {
      TurnEventsExact(facts, f);
    } else if f.TurnSteerResponse? || f.ErrorResponse? {
      SteerEventExact(facts, f);
    } else if f.ItemCompleted? {
      ToolEventExact(facts, f);
    } else if f.ApprovalResolved? {
      AnswerEventExact(facts, f);
    } else if f.GuardianCompleted? {
      VerdictEventExact(facts, f);
    } else if f.ThreadResponse? {
      OpeningExact(facts, f);
    } else if f.SubAgentThreadStarted? {
      SubAgentExact(Run(facts), f);
    } else if f.ContextFact? {
      ContextExact(facts, f);
    } else {
      SilentFact(Run(facts), f);
    }
  }
}
