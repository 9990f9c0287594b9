/** The record of a turn as a function of the facts alone, and from it when a turn event is
    emitted and everything it says. */
module ReducerTurns {
  import opened Protocol
  import opened AnalyticsFacts
  import opened ReducerModel
  import opened ReducerGuarantees
  import opened ReducerHistory
  import AcceptedLines

  // ---- Tool counts ----

  function OfKind(kind: ItemKind): Item -> bool {
    (item: Item) => item.kind == kind
  }

  /** What a list of completed items amounts to. */
  function Tally(items: seq<Item>): ToolCounts {
    ToolCounts(|items|, Count(items, OfKind(CommandExecution)), Count(items, OfKind(FileChange)),
               Count(items, OfKind(McpToolCall)), Count(items, OfKind(DynamicToolCall)),
               Count(items, OfKind(CollabAgentToolCall)) + Count(items, OfKind(SubAgentActivity)),
               Count(items, OfKind(WebSearch)), Count(items, OfKind(ImageGeneration)))
  }

  function SumOfKinds(c: ToolCounts): nat {
    c.shellCommand + c.fileChange + c.mcpToolCall + c.dynamicToolCall + c.subagentToolCall + c.webSearch
    + c.imageGeneration
  }

  /** The items that have a tool event of their own. */
  predicate IsTool(kind: ItemKind) {
    kind.CommandExecution? || kind.FileChange? || kind.McpToolCall? || kind.DynamicToolCall?
    || kind.CollabAgentToolCall? || kind.WebSearch? || kind.ImageGeneration?
  }

  predicate IsCounted(kind: ItemKind) {
    IsTool(kind) || kind.SubAgentActivity?
  }

  lemma {:induction false} CountSnoc<T>(xs: seq<T>, x: T, p: T -> bool)
    ensures Count(xs + [x], p) == Count(xs, p) + One(p(x))
  {
    assert (xs + [x])[..|xs|] == xs;
  }

  lemma {:induction false} TallySnoc(items: seq<Item>, item: Item)
    requires IsCounted(item.kind)
    ensures Tally(items + [item]) == Record(Tally(items), item)
    ensures SumOfKinds(Tally(items + [item])) == SumOfKinds(Tally(items)) + 1
  {
    hide Count;
    forall kind ensures Count(items + [item], OfKind(kind)) == Count(items, OfKind(kind)) + One(item.kind == kind) {
      CountSnoc(items, item, OfKind(kind));
    }
  }

  lemma TallyNone()
    ensures Tally([]) == NO_TOOLS
  {
  }

  /** The total is the sum of the seven kinds. */
  lemma {:induction false} TallyAddsUp(items: seq<Item>)
    requires forall i :: 0 <= i < |items| ==> IsCounted(items[i].kind)
    ensures Tally(items).total == |items| == SumOfKinds(Tally(items))
  {
    hide SumOfKinds, IsCounted, Count;
    if items == [] {
      TallyNone();
      assert SumOfKinds(NO_TOOLS) == 0 by { NoToolsSum(); }
    } else {
      var rest, last := items[..|items| - 1], items[|items| - 1];
      TallyAddsUp(rest);
      TallySnoc(rest, last);
      assert items == rest + [last];
    }
  }

  lemma NoToolsSum()
    ensures SumOfKinds(NO_TOOLS) == 0
  {
  }

  // ---- What the facts say about one turn ----

  /** What is known of a turn; `live` once anything is, `steers` accepted and `items` completed since. */
  datatype Gist = Gist(
    live: bool, connection: Option<ConnectionId>, thread: Option<ThreadId>, images: Option<nat>,
    config: Option<Config>, startedAt: Option<nat>, usage: Option<string>, profile: Option<Profile>,
    completed: Option<Completed>, error: Option<string>, diff: Option<string>, steers: nat, items: seq<Item>)

  const NOTHING := Gist(false, None, None, None, None, None, None, None, None, None, None, 0, [])

  /** A time, unless it is negative. */
  function Valid(time: Option<int>): Option<nat> {
    if time.Some? && time.value >= 0 then Some(time.value) else None
  }

  function Completion(f: Fact): Completed
    requires f.TurnCompleted?
  {
    var at := Valid(f.completedAtS);
    Completed(f.turnStatus, if at.None? then 0 else at.value, Valid(f.durationMs))
  }

  /** What one fact says about `turn`; `asked` is the request it answers. */
  function Mention(g: Gist, asked: Option<RequestState>, f: Fact, turn: TurnId): Gist {
    match f
    case TurnStartResponse(connection, _, other) =>
      if other != turn || asked.None? || !asked.value.PendingTurnStart? then g
      else g.(live := true, connection := Some(connection), thread := Some(asked.value.thread),
              images := Some(asked.value.images))
    case TurnSteerResponse(_, _, other) =>
      if other != turn || !g.live || asked.None? || !asked.value.PendingTurnSteer? then g
      else g.(steers := g.steers + 1)
    case ItemCompleted(_, other, item, _) =>
      if other != turn || !g.live || !IsCounted(item.kind) then g else g.(items := g.items + [item])
    case TurnStarted(other, startedAtS) =>
      if other != turn then g else g.(live := true, startedAt := Valid(startedAtS))
    case TurnDiffUpdated(other, thread, diff) =>
      if other != turn then g else g.(live := true, thread := Some(thread), diff := Some(diff))
    case TurnCompleted(other, _, _, _) =>
      if other != turn then g else g.(live := true, completed := Some(Completion(f)))
    case TurnResolvedConfig(other, config) =>
      if other != turn then g
      else g.(live := true, thread := Some(config.thread), images := Some(config.images), config := Some(config))
    case TurnTokenUsage(other, thread, usage) =>
      if other != turn then g else g.(live := true, thread := Some(thread), usage := Some(usage))
    case TurnProfile(other, profile) => if other != turn then g else g.(live := true, profile := Some(profile))
    case TurnCodexError(other, thread, error) =>
      if other != turn then g
      else g.(live := true, thread := if g.thread.Some? then g.thread else Some(thread), error := Some(error))
    case _ => g
  }

  /** The facts that try to emit a turn event. */
  predicate Attempts(facts: seq<Fact>, f: Fact, turn: TurnId) {
    || ((f.TurnResolvedConfig? || f.TurnProfile? || f.TurnCompleted? || f.TurnTokenUsage?) && f.turn == turn)
    || (f.TurnStartResponse? && f.turn == turn && Asked(facts, f).Some? && Asked(facts, f).value.PendingTurnStart?)
  }

  predicate Complete(g: Gist) {
    g.thread.Some? && g.images.Some? && g.config.Some? && g.profile.Some? && g.completed.Some?
  }

  /** The context of the event: the connection of the last turn start, else the thread's. */
  function JoinContext(facts: seq<Fact>, g: Gist): Option<Context> {
    if g.thread.None? then None
    else ContextFor(facts, if g.connection.Some? then g.connection else HomeOf(facts, g.thread.value), g.thread.value)
  }

  /** What is known of the turn: everything said since its last event, the last word on each point. */
  function Current(facts: seq<Fact>, turn: TurnId): Gist {
    if facts == [] then NOTHING
    else
      var before, f := facts[..|facts| - 1], facts[|facts| - 1];
      var g := Mention(Current(before, turn), Asked(before, f), f, turn);
      if Attempts(before, f, turn) && Complete(g) && JoinContext(before, g).Some? then NOTHING else g
  }

  function Told(facts: seq<Fact>, f: Fact, turn: TurnId): Gist {
    Mention(Current(facts, turn), Asked(facts, f), f, turn)
  }

  /** With `f`, the turn has all it needs. */
  predicate Fires(facts: seq<Fact>, f: Fact, turn: TurnId) {
    var g := Told(facts, f, turn);
    Attempts(facts, f, turn) && Complete(g) && JoinContext(facts, g).Some?
  }

  lemma {:induction false} CurrentSnoc(facts: seq<Fact>, f: Fact, turn: TurnId)
    ensures Current(facts + [f], turn) == if Fires(facts, f, turn) then NOTHING else Told(facts, f, turn)
  {
    hide Mention, Attempts, JoinContext, Asked;
    assert (facts + [f])[..|facts|] == facts;
  }

  // ---- The reducer's record is that ----

  function RecordOf(g: Gist): TurnState {
    TurnState(g.connection, g.thread, g.images, g.config, g.startedAt, g.usage, g.profile, g.completed, g.error,
              g.diff, g.steers, Tally(g.items))
  }

  ghost predicate TurnIs(turns: map<TurnId, TurnState>, turn: TurnId, g: Gist) {
    if g.live then turn in turns && turns[turn] == RecordOf(g) else turn !in turns && g == NOTHING
  }

  lemma {:induction false} TurnOfGist(s: State, turn: TurnId, g: Gist)
    requires TurnIs(s.turns, turn, g)
    ensures TurnOf(s, turn) == RecordOf(g)
  {
    TallyNone();
  }

  lemma {:induction false} AttemptPrepares(s: State, f: Fact, turn: TurnId, g: Gist)
    requires TurnIs(s.turns, turn, g) && AttemptedTurn(s, f) == Some(turn)
    ensures var m := Mention(g, AskedIn(s, f), f, turn); m.live && TurnIs(Prepared(s, f).turns, turn, m)
    ensures SameContexts(s, Prepared(s, f))
  {
    hide Tally;
    TurnOfGist(s, turn, g);
  }

  lemma {:induction false} AttemptLeavesOthers(s: State, f: Fact, turn: TurnId, g: Gist)
    requires AttemptedTurn(s, f).Some? && AttemptedTurn(s, f).value != turn
    ensures Mention(g, AskedIn(s, f), f, turn) == g
    ensures Entry(Prepared(s, f).turns, turn) == Entry(s.turns, turn)
    ensures Entry(Ingest(s, f).state.turns, turn) == Entry(s.turns, turn)
  {
    hide Ingest, Emits, Mention, AcceptedLinesOf, CompletedOf;
    AttemptIsMaybeEmit(s, f);
    MentionOfOther(g, AskedIn(s, f), f, turn);
  }

  lemma {:induction false} MentionOfOther(g: Gist, asked: Option<RequestState>, f: Fact, turn: TurnId)
    requires f.TurnStartResponse? || f.TurnCompleted? || f.TurnResolvedConfig? || f.TurnTokenUsage? || f.TurnProfile?
    requires f.turn != turn
    ensures Mention(g, asked, f, turn) == g
  {
  }

  lemma {:induction false} AnnotationIs(s: State, f: Fact, turn: TurnId, g: Gist)
    requires TurnFact(f) && AttemptedTurn(s, f).None? && TurnIs(s.turns, turn, g)
    ensures TurnIs(IngestTurnFact(s, f).state.turns, turn, Mention(g, None, f, turn))
  {
    hide MaybeEmit, Tally;
    TurnOfGist(s, turn, g);
  }

  lemma {:induction false} SteerIs(s: State, f: Fact, turn: TurnId, g: Gist)
    requires f.TurnSteerResponse? && TurnIs(s.turns, turn, g)
    ensures TurnIs(AnswerTurnSteer(s, f).state.turns, turn, Mention(g, AskedIn(s, f), f, turn))
  {
    hide EmitSteer, Tally;
  }

  lemma {:induction false} CompletionIs(s: State, f: Fact, turn: TurnId, g: Gist)
    requires f.ItemCompleted? && TurnIs(s.turns, turn, g)
    ensures TurnIs(CompleteItem(s, f).state.turns, turn, Mention(g, None, f, turn))
  {
    hide Record, ToolEventsOf, ThreadContext, Tally;
    if f.turn == turn && g.live && IsCounted(f.item.kind) { TallySnoc(g.items, f.item); }
  }

  lemma {:induction false} NoMention(s: State, f: Fact, turn: TurnId, g: Gist)
    requires AttemptedTurn(s, f).None? && !AnnotatesTurn(f)
    ensures Mention(g, AskedIn(s, f), f, turn) == g
  {
  }

  lemma {:induction false} OtherFactIs(s: State, f: Fact, turn: TurnId, g: Gist)
    requires AttemptedTurn(s, f).None? && TurnIs(s.turns, turn, g)
    ensures TurnIs(Ingest(s, f).state.turns, turn, Mention(g, AskedIn(s, f), f, turn))
  {
    hide IngestTurnFact, IngestReviewFact, IngestThreadFact, StartItem, CompleteItem;
    hide AnswerTurnStart, AnswerTurnSteer, AnswerError, Mention, AttemptedTurn, TurnIs;
    if !AnnotatesTurn(f) {
      NoMention(s, f, turn, g);
      TurnsFrame(s, f);
      SameTurns(s.turns, Ingest(s, f).state.turns, turn, g);
    } else if f.TurnSteerResponse? {
      SteerIs(s, f, turn, g);
    } else if f.ItemCompleted? {
      CompletionIs(s, f, turn, g);
    } else {
      AnnotationIs(s, f, turn, g);
    }
  }

  lemma SameTurns(turns: map<TurnId, TurnState>, same: map<TurnId, TurnState>, turn: TurnId, g: Gist)
    requires TurnIs(turns, turn, g) && Entry(same, turn) == Entry(turns, turn)
    ensures TurnIs(same, turn, g)
  {
  }

  lemma {:induction false} EmitsIff(facts: seq<Fact>, p: State, turn: TurnId, g: Gist)
    requires g.live && TurnIs(p.turns, turn, g) && SameContexts(Run(facts), p)
    ensures Emits(p, turn) <==> Complete(g) && JoinContext(facts, g).Some?
    ensures Emits(p, turn) ==> TurnLookup(p, p.turns[turn]) == Found(JoinContext(facts, g).value)
  {
    hide Run, HomeOf, ContextFor, Tally;
    if g.thread.Some? {
      var thread := g.thread.value;
      ThreadContextIsHistory(facts, thread);
      ContextOnIsHistory(facts, if g.connection.Some? then g.connection else HomeOf(facts, thread), thread);
    }
  }

  lemma {:induction false} AttemptsMatch(facts: seq<Fact>, f: Fact, turn: TurnId)
    ensures Attempts(facts, f, turn) <==> AttemptedTurn(Run(facts), f) == Some(turn)
  {
    hide Run, RequestFor;
    AskedIsHistory(facts, f);
  }

  lemma {:induction false} EmissionForgets(p: State, turn: TurnId)
    ensures MaybeEmit(p, turn).state.turns == if Emits(p, turn) then p.turns - {turn} else p.turns
  {
    hide Emits, AcceptedLinesOf;
  }

  lemma {:induction false} TurnStep(facts: seq<Fact>, f: Fact, turn: TurnId)
    requires TurnIs(Run(facts).turns, turn, Current(facts, turn))
    ensures TurnIs(Ingest(Run(facts), f).state.turns, turn,
                   if Fires(facts, f, turn) then NOTHING else Told(facts, f, turn))
  {
    hide Run, Ingest, Current, Mention, Asked, AskedIn, Attempts, AttemptedTurn, Prepared, MaybeEmit, Emits;
    hide JoinContext, Complete, SameContexts;
    var s, g := Run(facts), Current(facts, turn);
    AttemptsMatch(facts, f, turn);
    AskedIsHistory(facts, f);
    if AttemptedTurn(s, f).None? {
      OtherFactIs(s, f, turn, g);
    } else if AttemptedTurn(s, f).value != turn {
      AttemptLeavesOthers(s, f, turn, g);
      SameTurns(s.turns, Ingest(s, f).state.turns, turn, g);
    } else {
      AttemptIsMaybeEmit(s, f);
      AttemptPrepares(s, f, turn, g);
      EmitsIff(facts, Prepared(s, f), turn, Told(facts, f, turn));
      EmissionForgets(Prepared(s, f), turn);
    }
  }

  /** In every run the record of a turn is what the facts have said about it since its last event. */
  lemma {:induction false} TurnsAreHistory(facts: seq<Fact>, turn: TurnId)
    ensures TurnIs(Run(facts).turns, turn, Current(facts, turn))
  {
    hide Ingest, Mention, Fires, Told, TurnIs;
    if facts == [] {
      assert TurnIs(Run(facts).turns, turn, NOTHING) by { NoTurnYet(turn); }
    } else {
      var before, f := facts[..|facts| - 1], facts[|facts| - 1];
      TurnsAreHistory(before, turn);
      TurnStep(before, f, turn);
      assert facts == before + [f];
      CurrentSnoc(before, f, turn);
    }
  }

  lemma NoTurnYet(turn: TurnId)
    ensures TurnIs(map[], turn, NOTHING)
  {
  }

  // ---- The events ----

  /** The turn event that says what `g` says. */
  function TurnEventFor(turn: TurnId, g: Gist, context: Context): Event
    requires Complete(g)
  {
    TurnEvent(
      turn := turn, thread := g.thread.value, images := g.images.value, settings := g.config.value.settings,
      profile := g.profile.value, completed := g.completed.value, turnStartedAt := g.startedAt,
      tokenUsage := g.usage, codexError := g.error, steerCount := g.steers, toolCounts := Tally(g.items),
      context := context)
  }

  /** The accepted lines of the last diff, if it has any added or deleted line. */
  function AcceptedLinesFor(turn: TurnId, g: Gist): seq<Event>
    requires Complete(g)
  {
    if g.diff.None? then []
    else
      var lines := AcceptedLines.ScanDiff(c => false, g.diff.value);
      if lines.added + lines.deleted == 0 then []
      else [AcceptedLines(turn := turn, thread := g.thread.value, settings := g.config.value.settings,
                          added := lines.added, deleted := lines.deleted)]
  }

  function TurnEventsFor(facts: seq<Fact>, f: Fact, turn: TurnId): seq<Event> {
    if !Fires(facts, f, turn) then []
    else
      var g := Told(facts, f, turn);
      [TurnEventFor(turn, g, JoinContext(facts, g).value)] + AcceptedLinesFor(turn, g)
  }

  lemma {:induction false} AttemptEvents(p: State, turn: TurnId, g: Gist)
    requires TurnIs(p.turns, turn, g) && Emits(p, turn)
    ensures Complete(g) && TurnLookup(p, p.turns[turn]).Found?
    ensures MaybeEmit(p, turn).events ==
            [TurnEventFor(turn, g, TurnLookup(p, p.turns[turn]).context)] + AcceptedLinesFor(turn, g)
  {
    hide Tally, TurnLookup, AcceptedLines.ScanDiff;
  }

  /** A fact that tries to emit for a turn emits this and nothing else. */
  lemma {:induction false} AttemptEmits(facts: seq<Fact>, f: Fact, turn: TurnId)
    requires Attempts(facts, f, turn)
    ensures Ingest(Run(facts), f).events == TurnEventsFor(facts, f, turn)
  {
    hide Run, Ingest, Current, Mention, Asked, AskedIn, Attempts, AttemptedTurn, Prepared, Emits;
    hide JoinContext, Complete, SameContexts, TurnIs, TurnLookup, TurnEventFor, AcceptedLinesFor, AcceptedLinesOf;
    var s, g := Run(facts), Current(facts, turn);
    AttemptsMatch(facts, f, turn);
    AskedIsHistory(facts, f);
    TurnsAreHistory(facts, turn);
    AttemptIsMaybeEmit(s, f);
    AttemptPrepares(s, f, turn, g);
    EmitsIff(facts, Prepared(s, f), turn, Told(facts, f, turn));
    if Emits(Prepared(s, f), turn) { AttemptEvents(Prepared(s, f), turn, Told(facts, f, turn)); }
  }

  lemma {:induction false} NoAttemptNoCount(s: State, f: Fact, turn: TurnId)
    requires AttemptedTurn(s, f) != Some(turn)
    ensures Count(Ingest(s, f).events, IsTurnEvent(turn)) == 0
  {
    hide Ingest, AttemptedTurn, Prepared, MaybeEmit, Emits;
    if AttemptedTurn(s, f).Some? {
      AttemptIsMaybeEmit(s, f);
      TurnEventsOfAttempt(Prepared(s, f), AttemptedTurn(s, f).value, turn);
    } else {
      NoAttemptNoTurnEvent(s, f);
      CountNone(Ingest(s, f).events, IsTurnEvent(turn));
    }
  }

  lemma {:induction false} OneTurnEvent(turn: TurnId, g: Gist, context: Context)
    requires Complete(g)
    ensures Count([TurnEventFor(turn, g, context)] + AcceptedLinesFor(turn, g), IsTurnEvent(turn)) == 1
  {
    hide Tally, AcceptedLines.ScanDiff;
    var event, accepted := TurnEventFor(turn, g, context), AcceptedLinesFor(turn, g);
    CountConcat([event], accepted, IsTurnEvent(turn));
    CountOne(event, IsTurnEvent(turn));
    CountNone(accepted, IsTurnEvent(turn));
  }

  /** Emission, exactly: in any run, with no assumption, a fact emits a turn event for a turn if and
      only if it attempts to, what the facts have said about the turn since its last event is then
      complete, and the context is known. The event says all of that, each point from its own fact,
      and is followed by the accepted lines of the last diff. */
  lemma {:induction false} EmissionExact(facts: seq<Fact>, f: Fact, turn: TurnId)
    ensures var events := Ingest(Run(facts), f).events;
            && Count(events, IsTurnEvent(turn)) == One(Fires(facts, f, turn))
            && (Fires(facts, f, turn) ==> events == TurnEventsFor(facts, f, turn))
  {
    hide Run, Ingest, Told, Attempts, Complete, JoinContext, Count, TurnEventFor, AcceptedLinesFor, AttemptedTurn;
    AttemptsMatch(facts, f, turn);
    if Attempts(facts, f, turn) {
      AttemptEmits(facts, f, turn);
      if Fires(facts, f, turn) {
        var g := Told(facts, f, turn);
        OneTurnEvent(turn, g, JoinContext(facts, g).value);
      } else {
        assert Count<Event>([], IsTurnEvent(turn)) == 0 by { CountNone([], IsTurnEvent(turn)); }
      }
    } else {
      NoAttemptNoCount(Run(facts), f, turn);
    }
  }

  lemma {:induction false} ItemsCounted(facts: seq<Fact>, turn: TurnId)
    ensures forall i :: 0 <= i < |Current(facts, turn).items| ==> IsCounted(Current(facts, turn).items[i].kind)
  {
    hide IsCounted, Attempts, JoinContext, Asked;
    if facts != [] { ItemsCounted(facts[..|facts| - 1], turn); }
  }

  /** Tool count refinement: in every reachable state a live turn's counts tally exactly the
      tracked or sub-agent completions ingested since that turn's record was created, and
      its total is the sum of the seven kinds. */
  lemma {:induction false} CountsAreTallies(facts: seq<Fact>, turn: TurnId)
    requires turn in Run(facts).turns
    ensures var counts := Run(facts).turns[turn].toolCounts;
            counts == Tally(Current(facts, turn).items) && counts.total == SumOfKinds(counts)
  {
    hide Run, Tally, Current;
    TurnsAreHistory(facts, turn);
    ItemsCounted(facts, turn);
    TallyAddsUp(Current(facts, turn).items);
  }

  lemma {:induction false} AttemptAddsNoItem(g: Gist, asked: Option<RequestState>, f: Fact, turn: TurnId)
    requires f.TurnStartResponse? || f.TurnCompleted? || f.TurnResolvedConfig? || f.TurnTokenUsage? || f.TurnProfile?
    ensures Mention(g, asked, f, turn).items == g.items
  {
  }

  /** An emitted turn event reports the tally of the items completed before it, and its total adds up. */
  lemma {:induction false} TurnEventCarriesTallies(facts: seq<Fact>, f: Fact, turn: TurnId)
    requires Fires(facts, f, turn)
    ensures var events := Ingest(Run(facts), f).events;
            && events != [] && events[0].TurnEvent? && events[0].turn == turn
            && events[0].toolCounts == Tally(Current(facts, turn).items)
            && events[0].toolCounts.total == SumOfKinds(events[0].toolCounts)
  {
    hide Run, Ingest, Current, Mention, JoinContext, Asked, Tally, AcceptedLinesFor, SumOfKinds;
    EmissionExact(facts, f, turn);
    AttemptAddsNoItem(Current(facts, turn), Asked(facts, f), f, turn);
    ItemsCounted(facts, turn);
    TallyAddsUp(Current(facts, turn).items);
  }

  /** When the last diff is the printed text of a git diff, the accepted-lines event has its true
      counts, and there is none if and only if the diff adds and deletes nothing. */
  lemma AcceptedLinesAreTrue(turn: TurnId, g: Gist, diff: seq<AcceptedLines.Section>)
    requires Complete(g) && g.diff == Some(AcceptedLines.Print(AcceptedLines.DiffLines(diff)))
    requires AcceptedLines.DiffOk(diff) && forall i :: 0 <= i < |diff| ==> !AcceptedLines.Misplaced(diff, i)
    ensures var events, truth := AcceptedLinesFor(turn, g), AcceptedLines.DiffTruth(c => false, diff);
            && (events == [] <==> truth.added == 0 && truth.deleted == 0)
            && (events != [] ==> |events| == 1 && events[0].AcceptedLines?
                                 && events[0].added == truth.added && events[0].deleted == truth.deleted)
  {
    hide AcceptedLines.ScanDiff, AcceptedLines.DiffTruth, AcceptedLines.DiffLines, AcceptedLines.Print;
    AcceptedLines.CountsTrueIff(c => false, diff);
  }
}
