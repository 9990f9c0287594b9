/** Guarantees of every run of the reducer, with no assumption on the order or repetition
    of facts: contexts are never lost, and one-shot events are never emitted twice. */
module ReducerGuarantees {
  import opened Protocol
  import opened AnalyticsFacts
  import opened ReducerModel

  // ---- The hidden context invariant ----

  /** Every thread has metadata, and its connection, once set, is a known one. */
  ghost predicate ContextsKnown(s: State) {
    forall thread :: thread in s.threads ==>
      && s.threads[thread].metadata.Some?
      && (s.threads[thread].connection.Some? ==> s.threads[thread].connection.value in s.connections)
  }

  /** Nothing a context needs is taken away. */
  ghost predicate ContextsGrow(s: State, t: State) {
    && s.connections.Keys <= t.connections.Keys
    && forall thread :: thread in s.threads ==>
         thread in t.threads && (s.threads[thread].connection.Some? ==> t.threads[thread].connection.Some?)
  }

  lemma {:induction false} ContextsOfThreadFact(s: State, f: Fact)
    requires ContextsKnown(s) && ThreadFact(f)
    ensures var t := IngestThreadFact(s, f).state; ContextsKnown(t) && ContextsGrow(s, t)
  {
  }

  lemma {:induction false} ContextsStep(s: State, f: Fact)
    requires ContextsKnown(s)
    ensures var t := Ingest(s, f).state; ContextsKnown(t) && ContextsGrow(s, t)
  {
    hide IngestTurnFact, IngestRpcFact, IngestReviewFact, IngestThreadFact, StartItem, CompleteItem;
    if ThreadFact(f) { ContextsOfThreadFact(s, f); }
  }

  lemma {:induction false} ContextsReachable(facts: seq<Fact>)
    ensures ContextsKnown(Run(facts))
  {
    hide Ingest;
    if facts != [] {
      ContextsReachable(facts[..|facts| - 1]);
      ContextsStep(Run(facts[..|facts| - 1]), facts[|facts| - 1]);
    }
  }

  lemma {:induction false} ContextsNeverShrink(facts: seq<Fact>, more: seq<Fact>)
    ensures ContextsGrow(Run(facts), Run(facts + more))
  {
    hide Ingest, Run, ContextsKnown;
    if more == [] {
      assert facts + more == facts;
    } else {
      var rest, last := more[..|more| - 1], more[|more| - 1];
      ContextsNeverShrink(facts, rest);
      var known := facts + rest;
      assert facts + more == known + [last];
      RunSnoc(known, last);
      ContextsReachable(known);
      ContextsStep(Run(known), last);
    }
  }

  /** In every reachable state a context is missing only because the thread has no connection:
      the warnings for an unknown connection and for missing metadata cannot be reached. */
  lemma OnlyTheConnectionCanBeMissing(facts: seq<Fact>, thread: ThreadId)
    ensures var s := Run(facts);
            && (ThreadContext(s, thread).Found? <==> ThreadConnection(s, thread).Some?)
            && (ThreadContext(s, thread).Lost? ==> ThreadContext(s, thread).missing == MissingThreadConnection)
            && (thread in s.threads ==> s.threads[thread].metadata.Some?)
  {
    ContextsReachable(facts);
  }

  // ---- Counting ----

  function Count<T>(xs: seq<T>, p: T -> bool): nat {
    if xs == [] then 0 else Count(xs[..|xs| - 1], p) + (if p(xs[|xs| - 1]) then 1 else 0)
  }

  lemma {:induction false} CountConcat<T>(xs: seq<T>, ys: seq<T>, p: T -> bool)
    ensures Count(xs + ys, p) == Count(xs, p) + Count(ys, p)
  {
    if ys == [] {
      assert xs + ys == xs;
    } else {
      assert (xs + ys)[..|xs + ys| - 1] == xs + ys[..|ys| - 1];
      CountConcat(xs, ys[..|ys| - 1], p);
    }
  }

  lemma CountOne<T>(x: T, p: T -> bool)
    ensures Count([x], p) == if p(x) then 1 else 0
  {
    assert [x][..0] == [];
  }

  lemma {:induction false} CountNone<T>(xs: seq<T>, p: T -> bool)
    requires forall i :: 0 <= i < |xs| ==> !p(xs[i])
    ensures Count(xs, p) == 0
  {
    if xs != [] { CountNone(xs[..|xs| - 1], p); }
  }

  // ---- Turn events ----

  function IsTurnEvent(turn: TurnId): Event -> bool {
    (e: Event) => e.TurnEvent? && e.turn == turn
  }

  /** The facts that can fill a slot a turn event needs. */
  datatype Slot = ConfigSlot | ProfileSlot | CompletedSlot

  function FillsSlot(turn: TurnId, slot: Slot): Fact -> bool {
    (f: Fact) =>
      match slot
      case ConfigSlot => f.TurnResolvedConfig? && f.turn == turn
      case ProfileSlot => f.TurnProfile? && f.turn == turn
      case CompletedSlot => f.TurnCompleted? && f.turn == turn
  }

  predicate Filled(s: State, turn: TurnId, slot: Slot) {
    turn in s.turns &&
    match slot
    case ConfigSlot => s.turns[turn].config.Some?
    case ProfileSlot => s.turns[turn].profile.Some?
    case CompletedSlot => s.turns[turn].completed.Some?
  }

  function One(b: bool): nat { if b then 1 else 0 }

  /** The turn a fact may complete; emission is attempted only for it. */
  function AttemptedTurn(s: State, f: Fact): Option<TurnId> {
    match f
    case TurnStartResponse(connection, request, turn) =>
      var key := (connection, request);
      if key in s.requests && s.requests[key].PendingTurnStart? then Some(turn) else None
    case TurnCompleted(turn, _, _, _) => Some(turn)
    case TurnResolvedConfig(turn, _) => Some(turn)
    case TurnTokenUsage(turn, _, _) => Some(turn)
    case TurnProfile(turn, _) => Some(turn)
    case _ => None
  }

  /** The state in which the emission is attempted. */
  function Prepared(s: State, f: Fact): State {
    match f
    case TurnStartResponse(connection, request, turn) =>
      if AttemptedTurn(s, f).None? then s else
        var key := (connection, request);
        PutTurn(TakeRequest(s, key), turn, WithStart(TurnOf(s, turn), connection, s.requests[key]))
    case TurnCompleted(turn, _, _, _) => PutTurn(s, turn, TurnOf(s, turn).(completed := Some(CompletedOf(f))))
    case TurnResolvedConfig(turn, config) => PutTurn(s, turn, WithConfig(TurnOf(s, turn), config))
    case TurnTokenUsage(turn, thread, usage) =>
      PutTurn(s, turn, TurnOf(s, turn).(thread := Some(thread), tokenUsage := Some(usage)))
    case TurnProfile(turn, profile) => PutTurn(s, turn, TurnOf(s, turn).(profile := Some(profile)))
    case _ => s
  }

  /** A fact that attempts no emission leaves `turns` alone unless it is one of these five. */
  predicate AnnotatesTurn(f: Fact) {
    f.TurnSteerResponse? || f.ItemCompleted? || f.TurnStarted? || f.TurnDiffUpdated? || f.TurnCodexError?
  }

  lemma {:induction false} TurnsFrame(s: State, f: Fact)
    requires AttemptedTurn(s, f).None? && !AnnotatesTurn(f)
    ensures Ingest(s, f).state.turns == s.turns
  {
    hide IngestReviewFact, IngestThreadFact, StartItem, CompleteItem;
  }

  /** An answer takes the entry of its key, a turn request replaces it. */
  lemma {:induction false} RequestsOfRpc(s: State, f: Fact)
    requires RpcFact(f)
    ensures var requests, key := IngestRpcFact(s, f).state.requests, (f.connection, f.request);
            match f
            case TurnStartRequest(_, _, thread, images) =>
              requests == s.requests[key := PendingTurnStart(thread, images)]
            case TurnSteerRequest(_, _, thread, expectedTurn, images, createdAt) =>
              requests == s.requests[key := PendingTurnSteer(thread, expectedTurn, images, createdAt)]
            case _ => requests == s.requests - {key}
  {
    hide EmitSteer, MaybeEmit;
  }

  lemma {:induction false} RequestsFrame(s: State, f: Fact)
    ensures var t := Ingest(s, f).state;
            && (f.TurnStartResponse? || f.TurnSteerResponse? || f.ErrorResponse? ==>
                  t.requests == s.requests - {(f.connection, f.request)})
            && (!RpcFact(f) ==> t.requests == s.requests)
  {
    hide IngestTurnFact, IngestRpcFact, IngestReviewFact, IngestThreadFact, StartItem, CompleteItem;
    if RpcFact(f) { RequestsOfRpc(s, f); }
  }

  lemma {:induction false} AttemptIsMaybeEmit(s: State, f: Fact)
    requires AttemptedTurn(s, f).Some?
    ensures Ingest(s, f) == MaybeEmit(Prepared(s, f), AttemptedTurn(s, f).value)
  {
  }

  lemma {:induction false} EventsOfThreadFact(s: State, f: Fact)
    requires ThreadFact(f)
    ensures var events := IngestThreadFact(s, f).events;
            |events| <= 1 && (events == [] || events[0].ThreadInitialized? || events[0].ContextEvent?)
  {
  }

  lemma {:induction false} EventsOfReviewFact(s: State, f: Fact)
    requires ReviewFact(f)
    ensures var events := IngestReviewFact(s, f).events;
            && |events| <= 1
            && (events == [] || (events[0].ReviewEvent?
                                 && (events[0].reviewer.User? ==> f.ApprovalResolved? && f.request in s.reviews)))
  {
  }

  lemma {:induction false} EventsOfCompletion(s: State, f: Fact)
    requires f.ItemCompleted?
    ensures var out, key := CompleteItem(s, f), ItemKey(f);
            && |out.events| <= 1
            && (out.events == []
                || (out.events[0].ToolItemEvent? && key in s.started && out.state.started == s.started - {key}))
  {
  }

  /** An RPC fact that attempts no turn emission emits at most a steer event, for an entry it removes. */
  lemma {:induction false} EventsOfRpcFact(s: State, f: Fact)
    requires RpcFact(f) && AttemptedTurn(s, f).None?
    ensures var events, key := IngestRpcFact(s, f).events, (f.connection, f.request);
            && |events| <= 1
            && (events == [] || (events[0].TurnSteerEvent? && (f.TurnSteerResponse? || f.ErrorResponse?)
                                 && key in s.requests && s.requests[key].PendingTurnSteer?))
  {
  }

  lemma {:induction false} EventsOfTurnAnnotation(s: State, f: Fact)
    requires TurnFact(f) && AttemptedTurn(s, f).None?
    ensures IngestTurnFact(s, f).events == []
  {
    hide MaybeEmit, CompletedOf;
  }

  lemma {:induction false} EventsOfAttempt(s: State, turn: TurnId)
    ensures forall i :: 0 <= i < |MaybeEmit(s, turn).events| ==>
              MaybeEmit(s, turn).events[i].TurnEvent? || MaybeEmit(s, turn).events[i].AcceptedLines?
  {
    hide AcceptedLines.ScanDiff;
  }

  /** Where an event that is not about a whole turn comes from, and that its token was held. */
  ghost predicate Earned(s: State, f: Fact, e: Event) {
    && (e.ReviewEvent? && e.reviewer.User? ==> f.ApprovalResolved? && f.request in s.reviews)
    && (e.TurnSteerEvent? ==> (f.TurnSteerResponse? || f.ErrorResponse?) && (f.connection, f.request) in s.requests
                              && s.requests[(f.connection, f.request)].PendingTurnSteer?)
    && (e.ToolItemEvent? ==> f.ItemCompleted? && ItemKey(f) in s.started
                             && Ingest(s, f).state.started == s.started - {ItemKey(f)})
  }

  /** A fact that attempts no turn emission emits no turn event and at most one event in all. */
  lemma {:induction false} NoAttemptNoTurnEvent(s: State, f: Fact)
    requires AttemptedTurn(s, f).None?
    ensures var events := Ingest(s, f).events;
            |events| == 0 || (|events| == 1 && !events[0].TurnEvent? && Earned(s, f, events[0]))
  {
    hide IngestTurnFact, IngestRpcFact, IngestReviewFact, IngestThreadFact, CompleteItem, AttemptedTurn;
    if TurnFact(f) {
      EventsOfTurnAnnotation(s, f);
    } else if RpcFact(f) {
      EventsOfRpcFact(s, f);
    } else if ReviewFact(f) {
      EventsOfReviewFact(s, f);
    } else if f.ItemCompleted? {
      EventsOfCompletion(s, f);
    } else if ThreadFact(f) {
      EventsOfThreadFact(s, f);
    }
  }

  lemma {:induction false} CompleteItemKeepsSlots(s: State, f: Fact, turn: TurnId, slot: Slot)
    requires f.ItemCompleted?
    ensures Filled(CompleteItem(s, f).state, turn, slot) == Filled(s, turn, slot)
  {
    hide Record, ToolEventsOf, ThreadContext;
  }

  lemma {:induction false} SteerKeepsSlots(s: State, f: Fact, turn: TurnId, slot: Slot)
    requires f.TurnSteerResponse?
    ensures Filled(AnswerTurnSteer(s, f).state, turn, slot) == Filled(s, turn, slot)
  {
  }

  lemma {:induction false} AnnotationKeepsSlots(s: State, f: Fact, turn: TurnId, slot: Slot)
    requires f.TurnStarted? || f.TurnDiffUpdated? || f.TurnCodexError?
    ensures Filled(IngestTurnFact(s, f).state, turn, slot) == Filled(s, turn, slot)
  {
  }

  lemma {:induction false} NoAttemptKeepsSlots(s: State, f: Fact, turn: TurnId, slot: Slot)
    requires AttemptedTurn(s, f).None?
    ensures Filled(Ingest(s, f).state, turn, slot) == Filled(s, turn, slot)
  {
    hide IngestTurnFact, IngestReviewFact, IngestThreadFact, StartItem, CompleteItem;
    hide AnswerTurnStart, AnswerTurnSteer, AnswerError;
    if f.ItemCompleted? {
      CompleteItemKeepsSlots(s, f, turn, slot);
    } else if f.TurnSteerResponse? {
      SteerKeepsSlots(s, f, turn, slot);
    } else if AnnotatesTurn(f) {
      AnnotationKeepsSlots(s, f, turn, slot);
    } else {
      TurnsFrame(s, f);
    }
  }

  lemma {:induction false} PreparedSlots(s: State, f: Fact, turn: TurnId, slot: Slot)
    requires AttemptedTurn(s, f).Some?
    ensures Filled(Prepared(s, f), turn, slot) == (Filled(s, turn, slot) || FillsSlot(turn, slot)(f))
  {
  }

  lemma TurnEventsOfAttempt(s: State, turn: TurnId, other: TurnId)
    ensures Count(MaybeEmit(s, turn).events, IsTurnEvent(other)) == One(Emits(s, turn) && turn == other)
  {
    if Emits(s, turn) {
      var t := s.turns[turn];
      var event, accepted := TurnEventOf(turn, t, TurnLookup(s, t).context), AcceptedLinesOf(turn, t);
      CountConcat([event], accepted, IsTurnEvent(other));
      CountOne(event, IsTurnEvent(other));
      CountNone(accepted, IsTurnEvent(other));
    }
  }

  lemma {:induction false} AttemptSlots(s: State, turn: TurnId, other: TurnId, slot: Slot)
    ensures One(Filled(MaybeEmit(s, turn).state, other, slot)) + One(Emits(s, turn) && turn == other) ==
            One(Filled(s, other, slot))
  {
  }

  /** One fact: what it emits for a turn was in the slot before, or is this fact. */
  lemma {:induction false} SlotStep(s: State, f: Fact, turn: TurnId, slot: Slot)
    ensures var out := Ingest(s, f);
            Count(out.events, IsTurnEvent(turn)) + One(Filled(out.state, turn, slot)) <=
            One(Filled(s, turn, slot)) + One(FillsSlot(turn, slot)(f))
  {
    hide Ingest, MaybeEmit, Prepared, AttemptedTurn;
    var attempted := AttemptedTurn(s, f);
    if attempted.Some? {
      AttemptIsMaybeEmit(s, f);
      PreparedSlots(s, f, turn, slot);
      TurnEventsOfAttempt(Prepared(s, f), attempted.value, turn);
      AttemptSlots(Prepared(s, f), attempted.value, turn, slot);
    } else {
      NoAttemptNoTurnEvent(s, f);
      NoAttemptKeepsSlots(s, f, turn, slot);
      CountNone(Ingest(s, f).events, IsTurnEvent(turn));
    }
  }

  /** Turn event bound: over any run, the turn events for an id plus one for a slot that is
      filled right now never outnumber the facts that can fill that slot. */
  lemma {:induction false} TurnEventBound(facts: seq<Fact>, turn: TurnId, slot: Slot)
    ensures Count(Emitted(facts), IsTurnEvent(turn)) + One(Filled(Run(facts), turn, slot)) <=
            Count(facts, FillsSlot(turn, slot))
  {
    hide Ingest;
    if facts != [] {
      var before, f := facts[..|facts| - 1], facts[|facts| - 1];
      TurnEventBound(before, turn, slot);
      SlotStep(Run(before), f, turn, slot);
      CountConcat(Emitted(before), Ingest(Run(before), f).events, IsTurnEvent(turn));
    }
  }

  // ---- One-shot tokens ----

  datatype Token = UserReviewToken | SteerToken | ToolItemToken

  function Spends(token: Token): Event -> bool {
    (e: Event) =>
      match token
      case UserReviewToken => e.ReviewEvent? && e.reviewer.User?
      case SteerToken => e.TurnSteerEvent?
      case ToolItemToken => e.ToolItemEvent?
  }

  function Grants(token: Token): Fact -> bool {
    (f: Fact) =>
      match token
      case UserReviewToken => f.ApprovalRequested?
      case SteerToken => f.TurnSteerRequest?
      case ToolItemToken => f.ItemStarted? && Tracked(f.item)
  }

  function SteerKeys(requests: map<(ConnectionId, RequestId), RequestState>): set<(ConnectionId, RequestId)> {
    set key | key in requests && requests[key].PendingTurnSteer?
  }

  /** Tokens held in the state: entries that can still be spent, once each. */
  function Held(s: State, token: Token): nat {
    match token
    case UserReviewToken => |s.reviews.Keys|
    case SteerToken => |SteerKeys(s.requests)|
    case ToolItemToken => |s.started.Keys|
  }

  lemma SmallerSet<T>(a: set<T>, b: set<T>)
    requires a <= b
    ensures |a| <= |b|
  {
    assert b == a + (b - a);
  }

  lemma {:induction false} EventsOfStep(s: State, f: Fact, token: Token)
    ensures var events := Ingest(s, f).events;
            Count(events, Spends(token)) == One(events != [] && Spends(token)(events[0]))
  {
    hide Ingest, AttemptedTurn, Prepared, MaybeEmit;
    var events := Ingest(s, f).events;
    if AttemptedTurn(s, f).Some? {
      AttemptIsMaybeEmit(s, f);
      EventsOfAttempt(Prepared(s, f), AttemptedTurn(s, f).value);
      CountNone(events, Spends(token));
    } else {
      NoAttemptNoTurnEvent(s, f);
      if events != [] {
        CountOne(events[0], Spends(token));
        assert events == [events[0]];
      }
    }
  }

  /** Which facts spend a token, and that the token was held. */
  lemma {:induction false} SpendingFact(s: State, f: Fact, token: Token)
    ensures var events := Ingest(s, f).events;
            events != [] && Spends(token)(events[0]) ==>
              match token
              case UserReviewToken => f.ApprovalResolved? && f.request in s.reviews
              case SteerToken =>
                (f.TurnSteerResponse? || f.ErrorResponse?) && (f.connection, f.request) in SteerKeys(s.requests)
              case ToolItemToken =>
                && f.ItemCompleted? && ItemKey(f) in s.started
                && Ingest(s, f).state.started == s.started - {ItemKey(f)}
  {
    hide Ingest, AttemptedTurn, Prepared, MaybeEmit;
    if AttemptedTurn(s, f).Some? {
      AttemptIsMaybeEmit(s, f);
      EventsOfAttempt(Prepared(s, f), AttemptedTurn(s, f).value);
    } else {
      NoAttemptNoTurnEvent(s, f);
    }
  }

  lemma {:induction false} SteerStep(s: State, f: Fact)
    ensures var keys := SteerKeys(Ingest(s, f).state.requests);
            && (f.TurnSteerRequest? ==> keys <= SteerKeys(s.requests) + {(f.connection, f.request)})
            && (!f.TurnSteerRequest? ==> keys <= SteerKeys(s.requests))
            && (f.TurnSteerResponse? || f.ErrorResponse? ==>
                  keys == SteerKeys(s.requests) - {(f.connection, f.request)})
  {
    hide IngestTurnFact, IngestReviewFact, IngestThreadFact, StartItem, CompleteItem;
    hide AnswerTurnStart, AnswerTurnSteer, AnswerError;
    RequestsFrame(s, f);
  }

  lemma {:induction false} StartedStep(s: State, f: Fact)
    ensures var keys := Ingest(s, f).state.started.Keys;
            && (f.ItemStarted? && Tracked(f.item) ==> keys <= s.started.Keys + {ItemKey(f)})
            && (!(f.ItemStarted? && Tracked(f.item)) ==> keys <= s.started.Keys)
  {
    hide IngestTurnFact, IngestRpcFact, IngestReviewFact, IngestThreadFact;
  }

  lemma {:induction false} ReviewsStep(s: State, f: Fact)
    ensures var keys := Ingest(s, f).state.reviews.Keys;
            && (f.ApprovalRequested? ==> keys <= s.reviews.Keys + {f.request})
            && (!f.ApprovalRequested? ==> keys <= s.reviews.Keys)
            && (f.ApprovalResolved? ==> keys == s.reviews.Keys - {f.request})
  {
    hide IngestTurnFact, IngestRpcFact, IngestThreadFact, StartItem, CompleteItem;
  }

  lemma {:induction false} TokenStep(s: State, f: Fact, token: Token)
    ensures Count(Ingest(s, f).events, Spends(token)) + Held(Ingest(s, f).state, token) <=
            Held(s, token) + One(Grants(token)(f))
  {
    hide Ingest;
    EventsOfStep(s, f, token);
    SpendingFact(s, f, token);
    var t := Ingest(s, f).state;
    match token
    case SteerToken =>
      SteerStep(s, f);
      var granted := if f.TurnSteerRequest? then {(f.connection, f.request)} else {};
      SmallerSet(SteerKeys(t.requests), SteerKeys(s.requests) + granted);
    case UserReviewToken =>
      ReviewsStep(s, f);
      SmallerSet(t.reviews.Keys, s.reviews.Keys + if f.ApprovalRequested? then {f.request} else {});
    case ToolItemToken =>
      StartedStep(s, f);
      var granted := if f.ItemStarted? && Tracked(f.item) then {ItemKey(f)} else {};
      SmallerSet(t.started.Keys, s.started.Keys + granted);
  }

  /** One-shot tokens: over any run, user review events plus pending reviews never outnumber
      the approval requests, steer events plus pending steers the steer requests, and tool
      item events plus started items the tracked starts. */
  lemma {:induction false} TokenBound(facts: seq<Fact>, token: Token)
    ensures Count(Emitted(facts), Spends(token)) + Held(Run(facts), token) <= Count(facts, Grants(token))
  {
    hide Ingest;
    if facts != [] {
      var before, f := facts[..|facts| - 1], facts[|facts| - 1];
      TokenBound(before, token);
      TokenStep(Run(before), f, token);
      CountConcat(Emitted(before), Ingest(Run(before), f).events, Spends(token));
    }
  }
}
