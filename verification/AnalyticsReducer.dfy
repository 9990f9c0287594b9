/** The reducer as the program writes it: an object whose methods insert into, update and
    remove from seven maps and push to `out`. Every method is proved to be the transition of
    `ReducerModel` that the guarantees are about. */
module AnalyticsReducer {
  import opened Protocol
  import opened AnalyticsFacts
  import M = ReducerModel
  import AcceptedLines

  class Reducer {
    var requests: map<(ConnectionId, RequestId), RequestState>
    var turns: map<TurnId, TurnState>
    var connections: map<ConnectionId, ConnectionState>
    var threads: map<ThreadId, ThreadState>
    var started: map<ToolItemKey, nat>
    var reviews: map<RequestId, PendingReview>
    var summaries: map<ToolItemKey, ReviewSummary>
    var out: seq<Event>

    ghost function View(): M.State
      reads this
    {
      M.State(requests, turns, connections, threads, started, reviews, summaries)
    }

    /** The state is `t` and the events of `o` were pushed. */
    twostate predicate Became(o: M.Out)
      reads this
    {
      View() == o.state && out == old(out) + o.events
    }

    constructor ()
      ensures View() == M.EMPTY && out == []
    {
      requests, turns, connections, threads := map[], map[], map[], map[];
      started, reviews, summaries, out := map[], map[], map[], [];
    }

    /** `thread_context_or_warn`. */
    method FindContext(thread: ThreadId) returns (lookup: M.Lookup)
      ensures lookup == M.ThreadContext(View(), thread)
    {
      if thread !in threads { return M.Lost(M.MissingThreadConnection); }
      var state := threads[thread];
      if state.connection.None? { return M.Lost(M.MissingThreadConnection); }
      if state.connection.value !in connections { return M.Lost(M.MissingConnection); }
      if state.metadata.None? { return M.Lost(M.MissingThreadMetadata); }
      lookup := M.Found(M.ContextOf(state, state.metadata.value, connections[state.connection.value]));
    }

    /** `maybe_emit_turn_event`. */
    method MaybeEmitTurnEvent(turn: TurnId)
      modifies this`turns, this`out
      ensures Became(M.MaybeEmit(old(View()), turn))
    {
      if turn !in turns { return; }
      var t := turns[turn];
      if t.thread.None? || t.images.None? || t.config.None? || t.profile.None? || t.completed.None? { return; }
      var thread := t.thread.value;
      var connection := t.connection;
      if connection.None? && thread in threads { connection := threads[thread].connection; }
      if connection.None? { return; }
      if connection.value !in connections { return; }
      if thread !in threads { return; }
      if threads[thread].metadata.None? { return; }
      var context := M.ContextOf(threads[thread], threads[thread].metadata.value, connections[connection.value]);
      var pushed := [M.TurnEventOf(turn, t, context)];
      if t.latestDiff.Some? {
        var summary := AcceptedLines.AcceptedLineFingerprints(c => false, t.latestDiff.value);
        if summary.added != 0 || summary.deleted != 0 {
          pushed := pushed +
            [Event.AcceptedLines(turn, thread, t.config.value.settings, summary.added, summary.deleted)];
        }
      }
      out := out + pushed;
      turns := turns - {turn};
    }

    /** `emit_review_event`, with `record_item_review_summary` inside. */
    method EmitReviewEvent(review: PendingReview, reviewer: Reviewer, status: ReviewStatus, resolution: Resolution,
                           completedAt: nat)
      modifies this`summaries, this`out
      ensures Became(M.EmitReview(old(View()), review, reviewer, status, resolution, completedAt))
    {
      var lookup := FindContext(review.thread);
      var key := M.SummaryKey(review);
      if key.Some? {
        var summary := if key.value in summaries then summaries[key.value] else NO_REVIEWS;
        summary := summary.(reviews := summary.reviews + 1);
        match reviewer {
          case Guardian => summary := summary.(guardian := summary.guardian + 1);
          case User => summary := summary.(user := summary.user + 1);
        }
        summary := summary.(outcome := Some(M.FinalOutcome(reviewer, status, resolution)),
                            additionalPermissions := summary.additionalPermissions || review.additionalPermissions,
                            networkAccess := summary.networkAccess || review.networkAccess);
        summaries := summaries[key.value := summary];
      }
      if lookup.Found? {
        out := out + [ReviewEvent(review, reviewer, status, resolution, completedAt,
                                  M.ObservedDuration(review.startedAt, completedAt), lookup.context)];
      }
    }

    /** `emit_turn_steer_event`. */
    method EmitTurnSteerEvent(connection: ConnectionId, request: RequestState, accepted: Option<TurnId>,
                              rejection: Option<string>)
      requires request.PendingTurnSteer?
      modifies this`out
      ensures out == old(out) + M.EmitSteer(View(), connection, request, accepted, rejection)
    {
      if connection !in connections { return; }
      if request.thread !in threads { return; }
      var state := threads[request.thread];
      if state.metadata.None? { return; }
      out := out + [TurnSteerEvent(request.thread, request.expectedTurn, accepted, rejection, request.images,
                                   request.createdAt,
                                   M.ContextOf(state, state.metadata.value, connections[connection]))];
    }

    method IngestTurnFact(f: Fact)
      requires M.TurnFact(f)
      modifies this`turns, this`out
      ensures Became(M.IngestTurnFact(old(View()), f))
    {
      var t := if f.turn in turns then turns[f.turn] else NEW_TURN;
      match f {
        case TurnStarted(turn, startedAtS) =>
          turns := turns[turn := t.(startedAt := OptionToU64(startedAtS))];
        case TurnDiffUpdated(turn, thread, diff) =>
          turns := turns[turn := t.(thread := Some(thread), latestDiff := Some(diff))];
        case TurnCompleted(turn, _, _, _) =>
          turns := turns[turn := t.(completed := Some(M.CompletedOf(f)))];
          MaybeEmitTurnEvent(turn);
        case TurnResolvedConfig(turn, config) =>
          turns := turns[turn := M.WithConfig(t, config)];
          MaybeEmitTurnEvent(turn);
        case TurnTokenUsage(turn, thread, usage) =>
          turns := turns[turn := t.(thread := Some(thread), tokenUsage := Some(usage))];
          MaybeEmitTurnEvent(turn);
        case TurnProfile(turn, profile) =>
          turns := turns[turn := t.(profile := Some(profile))];
          MaybeEmitTurnEvent(turn);
        case TurnCodexError(turn, thread, error) =>
          if t.thread.None? { t := t.(thread := Some(thread)); }
          turns := turns[turn := t.(codexError := Some(error))];
      }
    }

    /** Client requests and the responses and errors that settle them. */
    method IngestRpcFact(f: Fact)
      requires M.RpcFact(f)
      modifies this`requests, this`turns, this`out
      ensures Became(M.IngestRpcFact(old(View()), f))
    {
      var key := (f.connection, f.request);
      if f.TurnStartRequest? {
        requests := requests[key := PendingTurnStart(f.thread, f.images)];
      } else if f.TurnSteerRequest? {
        requests := requests[key := PendingTurnSteer(f.thread, f.expectedTurn, f.images, f.createdAt)];
      } else if key in requests {
        var request := requests[key];
        ghost var before := View();
        requests := requests - {key};
        match f {
          case TurnStartResponse(_, _, _) => SettleTurnStart(f, request, before);
          case TurnSteerResponse(_, _, _) => SettleTurnSteer(f, request, before);
          case ErrorResponse(_, _, _) => SettleError(f, request, before);
        }
      } else {
        assert requests - {key} == requests;
      }
    }

    /** The entry of the request that `f` answers has just been removed from `before`. */
    ghost predicate Taken(before: M.State, f: Fact, request: RequestState)
      requires M.RpcFact(f)
      reads this
    {
      var key := (f.connection, f.request);
      key in before.requests && before.requests[key] == request && View() == M.TakeRequest(before, key)
    }

    method SettleTurnStart(f: Fact, request: RequestState, ghost before: M.State)
      requires f.TurnStartResponse? && Taken(before, f, request)
      modifies this`turns, this`out
      ensures Became(M.AnswerTurnStart(before, f))
    {
      hide M.MaybeEmit;
      if request.PendingTurnStart? {
        var t := if f.turn in turns then turns[f.turn] else NEW_TURN;
        turns := turns[f.turn := M.WithStart(t, f.connection, request)];
        MaybeEmitTurnEvent(f.turn);
      }
    }

    method SettleTurnSteer(f: Fact, request: RequestState, ghost before: M.State)
      requires f.TurnSteerResponse? && Taken(before, f, request)
      modifies this`turns, this`out
      ensures Became(M.AnswerTurnSteer(before, f))
    {
      if request.PendingTurnSteer? {
        if f.turn in turns { turns := turns[f.turn := M.WithSteer(turns[f.turn])]; }
        EmitTurnSteerEvent(f.connection, request, Some(f.turn), None);
      }
    }

    method SettleError(f: Fact, request: RequestState, ghost before: M.State)
      requires f.ErrorResponse? && Taken(before, f, request)
      modifies this`out
      ensures Became(M.AnswerError(before, f))
    {
      if request.PendingTurnSteer? { EmitTurnSteerEvent(f.connection, request, None, f.reason); }
    }

    method IngestReviewFact(f: Fact)
      requires M.ReviewFact(f)
      modifies this`reviews, this`summaries, this`out
      ensures Became(M.IngestReviewFact(old(View()), f))
    {
      match f {
        case ApprovalRequested(request, _, _, _, _, startedAtMs) =>
          if startedAtMs >= 0 { reviews := reviews[request := M.ReviewOf(f, startedAtMs)]; }
        case ApprovalResolved(request, status, resolution, completedAt) =>
          if request in reviews {
            var review := reviews[request];
            reviews := reviews - {request};
            EmitReviewEvent(review, User, status, resolution, completedAt);
          }
        case GuardianCompleted(_, _, _, _, _, verdict, startedAtMs, completedAtMs) =>
          if verdict.Some? && startedAtMs >= 0 && completedAtMs >= 0 {
            EmitReviewEvent(M.GuardianReviewOf(f, startedAtMs), Guardian, verdict.value, NoResolution, completedAtMs);
          }
      }
    }

    method StartItem(f: Fact)
      requires f.ItemStarted?
      modifies this`started
      ensures Became(M.StartItem(old(View()), f))
    {
      if M.Tracked(f.item) && f.startedAtMs >= 0 {
        started := started[M.ItemKey(f) := f.startedAtMs];
      }
    }

    method CompleteItem(f: Fact)
      requires f.ItemCompleted?
      modifies this`turns, this`started, this`summaries, this`out
      ensures Became(M.CompleteItem(old(View()), f))
    {
      if !M.Counted(f.item) || f.turn !in turns { return; }
      var lookup := FindContext(f.thread);
      var t := turns[f.turn];
      turns := turns[f.turn := t.(toolCounts := M.Record(t.toolCounts, f.item))];
      if !M.Tracked(f.item) { return; }
      var key := M.ItemKey(f);
      if key !in started { return; }
      var startedAt := started[key];
      started := started - {key};
      if f.completedAtMs < 0 { return; }
      if lookup.Lost? { return; }
      var summary := if key in summaries then summaries[key] else NO_REVIEWS;
      if M.HasToolEvent(f.item) {
        out := out + [ToolItemEvent(key, f.item, startedAt, f.completedAtMs,
                                    M.ObservedDuration(startedAt, f.completedAtMs), summary,
                                    if summary.outcome.Some? then summary.outcome.value else UnknownOutcome,
                                    lookup.context)];
      }
      summaries := summaries - {key};
    }

    method IngestThreadFact(f: Fact)
      requires M.ThreadFact(f)
      modifies this`connections, this`threads, this`out
      ensures Became(M.IngestThreadFact(old(View()), f))
    {
      match f {
        case Initialize(connection, state) => connections := connections[connection := state];
        case ThreadResponse(connection, thread, metadata, originator) =>
          if connection !in connections { return; }
          var state := if thread in threads then threads[thread] else M.NEW_THREAD;
          if originator.Some? { state := state.(originator := originator); }
          state := state.(connection := Some(connection), metadata := Some(metadata));
          threads := threads[thread := state];
          var context := M.ContextOf(state, metadata, connections[connection]);
          out := out + [ThreadInitialized(thread, context.productClientId, metadata)];
        case SubAgentThreadStarted(thread, parent, productClientId, sessionId) =>
          var inherited: Option<ConnectionId> := None;
          if parent.Some? && parent.value in threads { inherited := threads[parent.value].connection; }
          var state := if thread in threads then threads[thread] else M.NEW_THREAD;
          var metadata := ThreadMetadata(sessionId, parent, "subagent");
          if state.originator.None? { state := state.(originator := Some(productClientId)); }
          if state.metadata.None? { state := state.(metadata := Some(metadata)); }
          if state.connection.None? { state := state.(connection := inherited); }
          threads := threads[thread := state];
          out := out + [ThreadInitialized(thread, productClientId, metadata)];
        case ContextFact(kind, thread, payload) =>
          var lookup := FindContext(thread);
          if lookup.Found? { out := out + [ContextEvent(kind, thread, payload, lookup.context)]; }
        case OtherFact =>
      }
    }

    /** `ingest`: one transition of the model, its events pushed to `out`. */
    method Ingest(f: Fact)
      modifies this
      ensures Became(M.Ingest(old(View()), f))
    {
      hide M.IngestTurnFact, M.IngestRpcFact, M.IngestReviewFact, M.IngestThreadFact, M.StartItem, M.CompleteItem;
      if M.TurnFact(f) {
        IngestTurnFact(f);
      } else if M.RpcFact(f) {
        IngestRpcFact(f);
      } else if M.ReviewFact(f) {
        IngestReviewFact(f);
      } else if f.ItemStarted? {
        StartItem(f);
      } else if f.ItemCompleted? {
        CompleteItem(f);
      } else {
        IngestThreadFact(f);
      }
    }

    /** The analytics task: facts are ingested one after the other. */
    method IngestAll(facts: seq<Fact>)
      requires View() == M.EMPTY && out == []
      modifies this
      ensures View() == M.Run(facts) && out == M.Emitted(facts)
    {
      hide M.Ingest, M.Run, M.Emitted;
      M.RunNone(facts);
      var i := 0;
      while i < |facts|
        invariant 0 <= i <= |facts|
        invariant View() == M.Run(facts[..i]) && out == M.Emitted(facts[..i])
      {
        IngestNext(facts, i);
        i := i + 1;
      }
      assert facts[..i] == facts;
    }

    method IngestNext(facts: seq<Fact>, i: nat)
      requires i < |facts| && View() == M.Run(facts[..i]) && out == M.Emitted(facts[..i])
      modifies this
      ensures View() == M.Run(facts[..i + 1]) && out == M.Emitted(facts[..i + 1])
    {
      hide M.Ingest, M.Run, M.Emitted;
      M.RunNext(facts, i);
      Ingest(facts[i]);
    }
  }
}
