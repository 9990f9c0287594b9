/** Started items, review summaries and the events of items, reviews and steers, each as a
    function of the facts alone. */
module ReducerRefinements {
  import opened Protocol
  import opened AnalyticsFacts
  import opened ReducerModel
  import opened ReducerGuarantees
  import opened ReducerHistory
  import opened ReducerTurns

  // ---- Started items ----

  predicate IsItem(f: Fact, key: ToolItemKey) {
    && (f.ItemStarted? || f.ItemCompleted?)
    && f.thread == key.thread && f.turn == key.turn && f.item.id == key.item
  }

  /** When the item was started, if a tracked start is still waiting for its completion. */
  function StartFor(facts: seq<Fact>, key: ToolItemKey): Option<nat> {
    if facts == [] then None
    else
      var before, f := facts[..|facts| - 1], facts[|facts| - 1];
      if !IsItem(f, key) || !IsTool(f.item.kind) then StartFor(before, key)
      else if f.ItemStarted? then (if f.startedAtMs >= 0 then Some(f.startedAtMs) else StartFor(before, key))
      else if Current(before, key.turn).live then None
      else StartFor(before, key)
  }

  lemma {:induction false} StartedByItem(s: State, f: Fact, key: ToolItemKey)
    requires f.ItemStarted? || f.ItemCompleted?
    ensures Entry(Ingest(s, f).state.started, key) ==
            if !IsItem(f, key) || !IsTool(f.item.kind) then Entry(s.started, key)
            else if f.ItemStarted? then (if f.startedAtMs >= 0 then Some(f.startedAtMs) else Entry(s.started, key))
            else if key.turn in s.turns then None
            else Entry(s.started, key)
  {
    hide IngestTurnFact, IngestRpcFact, IngestReviewFact, IngestThreadFact, CompleteItem;
    if f.ItemCompleted? { StartedByCompletion(s, f, key); }
  }

  lemma {:induction false} StartedByCompletion(s: State, f: Fact, key: ToolItemKey)
    requires f.ItemCompleted?
    ensures Entry(CompleteItem(s, f).state.started, key) ==
            if IsItem(f, key) && IsTool(f.item.kind) && key.turn in s.turns then None else Entry(s.started, key)
  {
    hide Record, ToolEventsOf, ThreadContext;
  }

  /** The started items are the tracked starts not yet completed in a live turn. */
  lemma {:induction false} StartsAreHistory(facts: seq<Fact>, key: ToolItemKey)
    ensures Entry(Run(facts).started, key) == StartFor(facts, key)
  {
    hide Ingest, Current, IsTool;
    if facts != [] {
      var before, f := facts[..|facts| - 1], facts[|facts| - 1];
      StartsAreHistory(before, key);
      TurnsAreHistory(before, key.turn);
      if f.ItemStarted? || f.ItemCompleted? { StartedByItem(Run(before), f, key); }
    }
  }

  // ---- Review summaries ----

  datatype Review = Review(reviewer: Reviewer, outcome: Outcome, additionalPermissions: bool, networkAccess: bool)

  function UserOutcome(status: ReviewStatus, resolution: Resolution): Outcome {
    match status
    case Approved => if resolution == SessionApproval then UserApprovedForSession else UserApproved
    case Denied => UserDenied
    case Aborted => UserAborted
    case ReviewTimedOut => UserAborted
  }

  function GuardianOutcome(status: ReviewStatus): Outcome {
    match status
    case Approved => GuardianApproved
    case Denied => GuardianDenied
    case Aborted => GuardianAborted
    case ReviewTimedOut => GuardianAborted
  }

  /** The review of a file change or of a command without network context counts for its item. */
  function UserReviewFor(asked: Fact, answer: Fact, key: ToolItemKey): seq<Review>
    requires asked.ApprovalRequested? && answer.ApprovalResolved?
  {
    if asked.thread != key.thread || asked.turn != key.turn || asked.itemId != key.item then []
    else
      var outcome := UserOutcome(answer.status, answer.resolution);
      match asked.approval
      case CommandApproval(networkContext, amendments, additional) =>
        if networkContext then []
        else [Review(User, outcome, additional != None, amendments || additional == Some(true))]
      case FileApproval(grantRoot) => [Review(User, outcome, grantRoot, false)]
      case PermissionsApproval(_, _) => []
  }

  /** A guardian's verdict on a command, patch or MCP call counts for the item it names. */
  function GuardianReviewFor(f: Fact, key: ToolItemKey): seq<Review>
    requires f.GuardianCompleted?
  {
    if f.verdict.None? || f.startedAtMs < 0 || f.completedAtMs < 0 then []
    else if f.thread != key.thread || f.turn != key.turn || f.target != Some(key.item) then []
    else
      var outcome := GuardianOutcome(f.verdict.value);
      match f.action
      case GuardCommand => [Review(Guardian, outcome, false, false)]
      case GuardExecve => [Review(Guardian, outcome, false, false)]
      case GuardPatch => [Review(Guardian, outcome, true, false)]
      case GuardMcp => [Review(Guardian, outcome, false, false)]
      case GuardNetwork => []
      case GuardPermissions(_, _) => []
  }

  /** The review a fact records for `key`, if any. */
  function RecordedFor(facts: seq<Fact>, f: Fact, key: ToolItemKey): seq<Review> {
    if f.GuardianCompleted? then GuardianReviewFor(f, key)
    else if f.ApprovalResolved? && ApprovalFor(facts, f.request).Some?
    then UserReviewFor(ApprovalFor(facts, f.request).value, f, key)
    else []
  }

  /** The completion of an item that was started, of a live turn, in a thread with a context, uses
      up its summary. */
  predicate Reports(facts: seq<Fact>, f: Fact, key: ToolItemKey) {
    && f.ItemCompleted? && IsItem(f, key) && IsTool(f.item.kind) && f.completedAtMs >= 0
    && Current(facts, key.turn).live && StartFor(facts, key).Some? && HomeContext(facts, key.thread).Some?
  }

  /** The reviews recorded for `key` since its summary was last used up. */
  function ReviewLog(facts: seq<Fact>, key: ToolItemKey): seq<Review> {
    if facts == [] then []
    else
      var before, f := facts[..|facts| - 1], facts[|facts| - 1];
      if Reports(before, f, key) then [] else ReviewLog(before, key) + RecordedFor(before, f, key)
  }

  /** Fact `q` recorded the review and no completion has used it up since. */
  ghost predicate LoggedAt(facts: seq<Fact>, key: ToolItemKey, review: Review, q: nat) {
    && q < |facts| && !Reports(facts[..q], facts[q], key) && review in RecordedFor(facts[..q], facts[q], key)
    && forall k :: q < k < |facts| ==> !Reports(facts[..k], facts[k], key)
  }

  lemma {:induction false} LoggedEarlier(facts: seq<Fact>, key: ToolItemKey, review: Review, q: nat)
    requires facts != [] && q < |facts| - 1
    ensures LoggedAt(facts, key, review, q) <==>
            LoggedAt(facts[..|facts| - 1], key, review, q) && !Reports(facts[..|facts| - 1], facts[|facts| - 1], key)
  {
    hide Reports, RecordedFor;
    var before, n := facts[..|facts| - 1], |facts| - 1;
    assert forall k :: 0 <= k < n ==> before[..k] == facts[..k] && before[k] == facts[k];
    if LoggedAt(before, key, review, q) && !Reports(before, facts[n], key) {
      forall k | q < k < |facts| ensures !Reports(facts[..k], facts[k], key) {
        if k < n { assert !Reports(before[..k], before[k], key); }
      }
    }
  }

  /** A review is in the log of a key if and only if some fact recorded it for that key and no
      completion has used it up since. */
  lemma {:induction false} LoggedIff(facts: seq<Fact>, key: ToolItemKey, review: Review)
    ensures review in ReviewLog(facts, key) <==> exists q: nat :: LoggedAt(facts, key, review, q)
  {
    hide Reports, RecordedFor, LoggedAt;
    if facts == [] {
      if q: nat :| LoggedAt(facts, key, review, q) { assert false by { LoggedBounds(facts, key, review, q); } }
    } else {
      var before, f := facts[..|facts| - 1], facts[|facts| - 1];
      LoggedIff(before, key, review);
      LoggedLast(facts, key, review);
      if q: nat :| LoggedAt(before, key, review, q) {
        LoggedBounds(before, key, review, q);
        LoggedEarlier(facts, key, review, q);
      }
      if q: nat :| LoggedAt(facts, key, review, q) {
        LoggedBounds(facts, key, review, q);
        if q < |facts| - 1 { LoggedEarlier(facts, key, review, q); }
      }
    }
  }

  lemma LoggedBounds(facts: seq<Fact>, key: ToolItemKey, review: Review, q: nat)
    requires LoggedAt(facts, key, review, q)
    ensures q < |facts|
  {
  }

  lemma LoggedLast(facts: seq<Fact>, key: ToolItemKey, review: Review)
    requires facts != []
    ensures var before, f := facts[..|facts| - 1], facts[|facts| - 1];
            LoggedAt(facts, key, review, |facts| - 1) <==>
            !Reports(before, f, key) && review in RecordedFor(before, f, key)
  {
    hide Reports, RecordedFor;
  }

  /** What a list of reviews amounts to. */
  function Summarize(log: seq<Review>): ReviewSummary {
    ReviewSummary(|log|, Count(log, (r: Review) => r.reviewer.Guardian?), Count(log, (r: Review) => r.reviewer.User?),
                  if log == [] then None else Some(log[|log| - 1].outcome),
                  exists i :: 0 <= i < |log| && log[i].additionalPermissions,
                  exists i :: 0 <= i < |log| && log[i].networkAccess)
  }

  lemma {:induction false} SummarizeSnoc(log: seq<Review>, pending: PendingReview, review: Review)
    requires pending.additionalPermissions == review.additionalPermissions
    requires pending.networkAccess == review.networkAccess
    ensures Summarize(log + [review]) == AddReview(Summarize(log), pending, review.reviewer, review.outcome)
  {
    var longer := log + [review];
    assert longer[..|log|] == log;
    assert longer[|log|] == review;
    assert forall i :: 0 <= i < |log| ==> longer[i] == log[i];
  }

  /** What `EmitReview` adds to a key's summary. */
  ghost predicate Adds(s: State, t: State, key: ToolItemKey, review: PendingReview, recorded: seq<Review>) {
    || (recorded == [] && Entry(t.summaries, key) == Entry(s.summaries, key))
    || (|recorded| == 1
        && recorded[0].additionalPermissions == review.additionalPermissions
        && recorded[0].networkAccess == review.networkAccess
        && Entry(t.summaries, key) ==
           Some(AddReview(SummaryOf(s, key), review, recorded[0].reviewer, recorded[0].outcome)))
  }

  lemma {:induction false} EmitReviewAdds(s: State, review: PendingReview, reviewer: Reviewer, status: ReviewStatus,
                                          resolution: Resolution, completedAt: nat, key: ToolItemKey)
    ensures var t := EmitReview(s, review, reviewer, status, resolution, completedAt).state;
            var outcome := FinalOutcome(reviewer, status, resolution);
            Adds(s, t, key, review,
                 if SummaryKey(review) != Some(key) then []
                 else [Review(reviewer, outcome, review.additionalPermissions, review.networkAccess)])
  {
    hide AddReview, ThreadContext, SummaryKey, FinalOutcome;
  }

  lemma {:induction false} UserReviewMatches(asked: Fact, f: Fact, review: PendingReview, key: ToolItemKey)
    requires asked.ApprovalRequested? && f.ApprovalResolved? && Describes(review, asked)
    ensures UserReviewFor(asked, f, key) ==
            if SummaryKey(review) != Some(key) then []
            else [Review(User, FinalOutcome(User, f.status, f.resolution), review.additionalPermissions,
                         review.networkAccess)]
  {
  }

  lemma {:induction false} GuardianReviewMatches(f: Fact, key: ToolItemKey)
    requires f.GuardianCompleted? && f.verdict.Some? && f.startedAtMs >= 0 && f.completedAtMs >= 0
    ensures var review := GuardianReviewOf(f, f.startedAtMs);
            GuardianReviewFor(f, key) ==
            if SummaryKey(review) != Some(key) then []
            else [Review(Guardian, FinalOutcome(Guardian, f.verdict.value, NoResolution),
                         review.additionalPermissions, review.networkAccess)]
  {
  }

  ghost predicate SummaryIs(summaries: map<ToolItemKey, ReviewSummary>, key: ToolItemKey, log: seq<Review>) {
    Entry(summaries, key) == if log == [] then None else Some(Summarize(log))
  }

  lemma SummarizeNone()
    ensures Summarize([]) == NO_REVIEWS
  {
  }

  lemma {:induction false} AddedSummary(s: State, t: State, key: ToolItemKey, review: PendingReview, log: seq<Review>,
                                        recorded: seq<Review>)
    requires SummaryIs(s.summaries, key, log) && Adds(s, t, key, review, recorded)
    ensures SummaryIs(t.summaries, key, log + recorded)
  {
    hide Summarize, AddReview;
    SummarizeNone();
    if recorded == [] {
      assert log + recorded == log;
    } else {
      SummarizeSnoc(log, review, recorded[0]);
      assert recorded == [recorded[0]];
    }
  }

  lemma {:induction false} SummaryOfCompletion(s: State, f: Fact, key: ToolItemKey)
    requires f.ItemCompleted?
    ensures Entry(CompleteItem(s, f).state.summaries, key) ==
            if IsItem(f, key) && IsTool(f.item.kind) && f.completedAtMs >= 0 && f.turn in s.turns
               && key in s.started && ThreadContext(s, f.thread).Found?
            then None else Entry(s.summaries, key)
  {
    hide Record, ToolEventsOf, ThreadContext;
  }

  lemma {:induction false} ReportsMatch(facts: seq<Fact>, f: Fact, key: ToolItemKey)
    requires f.ItemCompleted?
    ensures var s := Run(facts);
            Reports(facts, f, key) <==>
            && IsItem(f, key) && IsTool(f.item.kind) && f.completedAtMs >= 0 && f.turn in s.turns
            && key in s.started && ThreadContext(s, f.thread).Found?
  {
    hide Run, Current, StartFor, HomeContext, ThreadContext, IsTool;
    TurnsAreHistory(facts, key.turn);
    StartsAreHistory(facts, key);
    ThreadContextIsHistory(facts, key.thread);
  }

  lemma {:induction false} SummaryOfReviewFact(facts: seq<Fact>, f: Fact, key: ToolItemKey)
    requires ReviewFact(f) && SummaryIs(Run(facts).summaries, key, ReviewLog(facts, key))
    ensures SummaryIs(Ingest(Run(facts), f).state.summaries, key, ReviewLog(facts, key) + RecordedFor(facts, f, key))
  {
    hide Run, IngestTurnFact, IngestRpcFact, IngestThreadFact, StartItem, CompleteItem, EmitReview, ReviewLog;
    hide SummaryIs, Adds, Describes, UserReviewFor, GuardianReviewFor, ReviewOf, GuardianReviewOf, Ingest;
    var s, log := Run(facts), ReviewLog(facts, key);
    var t := Ingest(s, f).state;
    assert log + [] == log;
    ReviewFactIsIngested(s, f);
    if f.ApprovalResolved? {
      PendingReviewsAreTheOpenRequests(facts, f.request);
      if f.request in s.reviews {
        var review, taken := s.reviews[f.request], s.(reviews := s.reviews - {f.request});
        EmitReviewAdds(taken, review, User, f.status, f.resolution, f.completedAt, key);
        UserReviewMatches(ApprovalFor(facts, f.request).value, f, review, key);
        AddedSummary(taken, t, key, review, log, RecordedFor(facts, f, key));
      }
    } else if f.GuardianCompleted? {
      if f.verdict.Some? && f.startedAtMs >= 0 && f.completedAtMs >= 0 {
        EmitReviewAdds(s, GuardianReviewOf(f, f.startedAtMs), Guardian, f.verdict.value, NoResolution,
                       f.completedAtMs, key);
        GuardianReviewMatches(f, key);
        AddedSummary(s, t, key, GuardianReviewOf(f, f.startedAtMs), log, RecordedFor(facts, f, key));
      } else {
        assert GuardianReviewFor(f, key) == [] by { NoVerdictNoReview(f, key); }
      }
    }
  }

  lemma ReviewFactIsIngested(s: State, f: Fact)
    requires ReviewFact(f)
    ensures Ingest(s, f) == IngestReviewFact(s, f)
  {
  }

  lemma NoVerdictNoReview(f: Fact, key: ToolItemKey)
    requires f.GuardianCompleted? && (f.verdict.None? || f.startedAtMs < 0 || f.completedAtMs < 0)
    ensures GuardianReviewFor(f, key) == []
  {
  }

  lemma {:induction false} SummaryStep(facts: seq<Fact>, f: Fact, key: ToolItemKey)
    requires SummaryIs(Run(facts).summaries, key, ReviewLog(facts, key))
    ensures SummaryIs(Ingest(Run(facts), f).state.summaries, key,
                      if Reports(facts, f, key) then [] else ReviewLog(facts, key) + RecordedFor(facts, f, key))
  {
    hide Run, IngestTurnFact, IngestRpcFact, IngestThreadFact, IngestReviewFact, StartItem, CompleteItem, ReviewLog;
    hide Summarize, Current, StartFor, HomeContext, IsTool, GuardianReviewFor, UserReviewFor;
    assert ReviewLog(facts, key) + [] == ReviewLog(facts, key);
    if ReviewFact(f) {
      SummaryOfReviewFact(facts, f, key);
    } else if f.ItemCompleted? {
      SummaryOfCompletion(Run(facts), f, key);
      ReportsMatch(facts, f, key);
    }
  }

  /** Review summary refinement: in every reachable state the summary of a (thread, turn, item)
      key exists exactly when reviews were recorded for it since it was last used up, and is
      the summary of exactly those. */
  lemma {:induction false} SummariesAreFolds(facts: seq<Fact>, key: ToolItemKey)
    ensures SummaryIs(Run(facts).summaries, key, ReviewLog(facts, key))
    ensures SummaryOf(Run(facts), key) == Summarize(ReviewLog(facts, key))
  {
    hide Ingest, SummaryIs, Summarize, Reports, RecordedFor;
    if facts == [] {
      assert SummaryIs(Run(facts).summaries, key, []) by { NoSummaryYet(key); }
    } else {
      SummariesAreFolds(facts[..|facts| - 1], key);
      SummaryStep(facts[..|facts| - 1], facts[|facts| - 1], key);
    }
    SummaryLookup(Run(facts), key, ReviewLog(facts, key));
  }

  lemma NoSummaryYet(key: ToolItemKey)
    ensures SummaryIs(map[], key, [])
  {
  }

  lemma SummaryLookup(s: State, key: ToolItemKey, log: seq<Review>)
    requires SummaryIs(s.summaries, key, log)
    ensures SummaryOf(s, key) == Summarize(log)
  {
    SummarizeNone();
  }

  lemma {:induction false} TotalIsGuardianPlusUser(log: seq<Review>)
    ensures Summarize(log).reviews == Summarize(log).guardian + Summarize(log).user
  {
    if log != [] { TotalIsGuardianPlusUser(log[..|log| - 1]); }
  }

  // ---- Tool item events ----

  function Duration(startedAt: nat, completedAt: nat): Option<nat> {
    if startedAt <= completedAt then Some(completedAt - startedAt) else None
  }

  /** An item that is still in progress has no event, unless it is a search or an image. */
  predicate IsOver(item: Item) {
    !item.inProgress || item.kind.WebSearch? || item.kind.ImageGeneration?
  }

  function ToolEventsFor(facts: seq<Fact>, f: Fact): seq<Event>
    requires f.ItemCompleted?
  {
    var key := ToolItemKey(f.thread, f.turn, f.item.id);
    if !Reports(facts, f, key) || !IsOver(f.item) then []
    else
      var startedAt, log := StartFor(facts, key).value, ReviewLog(facts, key);
      [ToolItemEvent(
        key := key, item := f.item, startedAt := startedAt, completedAt := f.completedAtMs,
        durationMs := Duration(startedAt, f.completedAtMs), reviews := Summarize(log),
        outcome := if log == [] then UnknownOutcome else log[|log| - 1].outcome,
        context := HomeContext(facts, f.thread).value)]
  }

  lemma {:induction false} CompletionEvents(s: State, f: Fact)
    requires f.ItemCompleted?
    ensures var key := ToolItemKey(f.thread, f.turn, f.item.id);
            var reported := && IsTool(f.item.kind) && f.completedAtMs >= 0 && f.turn in s.turns
                            && key in s.started && ThreadContext(s, f.thread).Found?;
            if !reported || !IsOver(f.item) then CompleteItem(s, f).events == []
            else
              var summary := SummaryOf(s, key);
              CompleteItem(s, f).events ==
              [ToolItemEvent(key, f.item, s.started[key], f.completedAtMs, Duration(s.started[key], f.completedAtMs),
                             summary, if summary.outcome.Some? then summary.outcome.value else UnknownOutcome,
                             ThreadContext(s, f.thread).context)]
  {
    hide Record, ThreadContext, SummaryOf;
  }

  /** Tool item events, exactly: a completion emits one if and only if the item is tracked and over,
      its start is waiting, its turn is live, its time is valid and its thread has a context. It
      carries its own times, and the reviews of its own thread, turn and item and no others. */
  lemma {:induction false} ToolEventExact(facts: seq<Fact>, f: Fact)
    requires f.ItemCompleted?
    ensures Ingest(Run(facts), f).events == ToolEventsFor(facts, f)
  {
    hide Run, CompleteItem, Current, StartFor, HomeContext, ThreadContext, ReviewLog, Summarize, SummaryOf, IsTool;
    hide SummaryIs;
    var s, key := Run(facts), ToolItemKey(f.thread, f.turn, f.item.id);
    CompletionEvents(s, f);
    ReportsMatch(facts, f, key);
    StartsAreHistory(facts, key);
    SummariesAreFolds(facts, key);
    OutcomeOfLog(ReviewLog(facts, key));
    ThreadContextIsHistory(facts, f.thread);
  }

  lemma OutcomeOfLog(log: seq<Review>)
    ensures Summarize(log).outcome == if log == [] then None else Some(log[|log| - 1].outcome)
  {
  }

  /** The counts an emitted tool item event carries add up. */
  lemma {:induction false} ToolEventAddsUp(facts: seq<Fact>, f: Fact)
    requires f.ItemCompleted? && Ingest(Run(facts), f).events != []
    ensures var e := Ingest(Run(facts), f).events[0];
            e.ToolItemEvent? && e.reviews.reviews == e.reviews.guardian + e.reviews.user
  {
    hide Run, Ingest, ReviewLog, Summarize, Reports, StartFor, HomeContext;
    ToolEventExact(facts, f);
    TotalIsGuardianPlusUser(ReviewLog(facts, ToolItemKey(f.thread, f.turn, f.item.id)));
  }

  // ---- Review events ----

  /** What a guardian's review must say about the fact it was made from. */
  predicate DescribesVerdict(review: PendingReview, f: Fact)
    requires f.GuardianCompleted?
  {
    && review.thread == f.thread && review.turn == f.turn && review.item == f.target
    && review.id == GuardianReview(f.name) && review.startedAt == f.startedAtMs
    && match f.action
       case GuardCommand => review.subject == CommandSubject && !review.additionalPermissions && !review.networkAccess
       case GuardExecve => review.subject == CommandSubject && !review.additionalPermissions && !review.networkAccess
       case GuardPatch => review.subject == FileSubject && review.additionalPermissions && !review.networkAccess
       case GuardNetwork => review.subject == NetworkSubject && review.additionalPermissions && review.networkAccess
       case GuardMcp => review.subject == McpSubject && !review.additionalPermissions && !review.networkAccess
       case GuardPermissions(network, fileSystem) =>
         && review.subject == PermissionsSubject && (review.networkAccess <==> network)
         && (review.additionalPermissions <==> network || fileSystem)
  }

  /** The review event of an answered approval. */
  ghost predicate TellsAnswer(e: Event, facts: seq<Fact>, asked: Fact, f: Fact)
    requires asked.ApprovalRequested? && asked.startedAtMs >= 0 && f.ApprovalResolved?
  {
    && e.ReviewEvent? && e.reviewer.User? && Describes(e.review, asked)
    && e.status == f.status && e.resolution == f.resolution && e.completedAt == f.completedAt
    && e.durationMs == Duration(asked.startedAtMs, f.completedAt)
    && HomeContext(facts, asked.thread) == Some(e.context)
  }

  /** The review event of a guardian's verdict. */
  ghost predicate TellsVerdict(e: Event, facts: seq<Fact>, f: Fact)
    requires f.GuardianCompleted? && f.verdict.Some? && f.startedAtMs >= 0 && f.completedAtMs >= 0
  {
    && e.ReviewEvent? && e.reviewer.Guardian? && DescribesVerdict(e.review, f)
    && e.status == f.verdict.value && e.resolution == NoResolution && e.completedAt == f.completedAtMs
    && e.durationMs == Duration(f.startedAtMs, f.completedAtMs)
    && HomeContext(facts, f.thread) == Some(e.context)
  }

  lemma {:induction false} ReviewEvents(s: State, review: PendingReview, reviewer: Reviewer, status: ReviewStatus,
                                        resolution: Resolution, completedAt: nat)
    ensures EmitReview(s, review, reviewer, status, resolution, completedAt).events ==
            if ThreadContext(s, review.thread).Lost? then []
            else [ReviewEvent(review, reviewer, status, resolution, completedAt,
                              Duration(review.startedAt, completedAt), ThreadContext(s, review.thread).context)]
  {
    hide AddReview;
  }

  lemma {:induction false} SameThreadContext(s: State, t: State, thread: ThreadId)
    requires SameContexts(s, t)
    ensures ThreadContext(t, thread) == ThreadContext(s, thread)
  {
  }

  /** Review events of answers, exactly: an answer or abort emits one if and only if an approval
      request is open for its id and the thread that request named has a connection. It says what
      the request said, the answer's status and resolution, and how long it took. */
  lemma {:induction false} AnswerEventExact(facts: seq<Fact>, f: Fact)
    requires f.ApprovalResolved?
    ensures var events, asked := Ingest(Run(facts), f).events, ApprovalFor(facts, f.request);
            if asked.Some? && HomeOf(facts, asked.value.thread).Some?
            then |events| == 1 && TellsAnswer(events[0], facts, asked.value, f)
            else events == []
  {
    hide Run, EmitReview, Describes, ThreadContext, HomeContext, HomeOf;
    var s, asked := Run(facts), ApprovalFor(facts, f.request);
    PendingReviewsAreTheOpenRequests(facts, f.request);
    if asked.Some? {
      var review, taken := s.reviews[f.request], s.(reviews := s.reviews - {f.request});
      ReviewEvents(taken, review, User, f.status, f.resolution, f.completedAt);
      SameThreadContext(s, taken, review.thread);
      DescribesThread(review, asked.value);
      ThreadContextIsHistory(facts, review.thread);
      HomeIsKnown(facts, review.thread);
    }
  }

  lemma DescribesThread(review: PendingReview, asked: Fact)
    requires asked.ApprovalRequested? && Describes(review, asked)
    ensures review.thread == asked.thread && review.startedAt == asked.startedAtMs
  {
  }

  lemma {:induction false} VerdictDescribes(f: Fact, startedAt: nat)
    requires f.GuardianCompleted? && startedAt == f.startedAtMs
    ensures DescribesVerdict(GuardianReviewOf(f, startedAt), f)
    ensures GuardianReviewOf(f, startedAt).thread == f.thread && GuardianReviewOf(f, startedAt).startedAt == startedAt
  {
  }

  /** The same for guardian verdicts: one event if and only if there is a verdict with valid times
      on a thread with a connection. */
  lemma {:induction false} VerdictEventExact(facts: seq<Fact>, f: Fact)
    requires f.GuardianCompleted?
    ensures var events := Ingest(Run(facts), f).events;
            if f.verdict.Some? && f.startedAtMs >= 0 && f.completedAtMs >= 0 && HomeOf(facts, f.thread).Some?
            then |events| == 1 && TellsVerdict(events[0], facts, f)
            else events == []
  {
    hide Run, EmitReview, DescribesVerdict, ThreadContext, HomeContext, HomeOf, GuardianReviewOf;
    if f.verdict.Some? && f.startedAtMs >= 0 && f.completedAtMs >= 0 {
      VerdictDescribes(f, f.startedAtMs);
      ReviewEvents(Run(facts), GuardianReviewOf(f, f.startedAtMs), Guardian, f.verdict.value, NoResolution,
                   f.completedAtMs);
      ThreadContextIsHistory(facts, f.thread);
      HomeIsKnown(facts, f.thread);
    }
  }

  // ---- Steer events ----

  function SteerEventsFor(facts: seq<Fact>, f: Fact): seq<Event>
    requires f.TurnSteerResponse? || f.ErrorResponse?
  {
    var asked := RequestFor(facts, f.connection, f.request);
    if asked.None? || !asked.value.PendingTurnSteer? then []
    else
      var context := ContextFor(facts, Some(f.connection), asked.value.thread);
      if context.None? then []
      else [TurnSteerEvent(
              thread := asked.value.thread, expectedTurn := asked.value.expectedTurn,
              accepted := if f.TurnSteerResponse? then Some(f.turn) else None,
              rejection := if f.ErrorResponse? then f.reason else None,
              images := asked.value.images, createdAt := asked.value.createdAt, context := context.value)]
  }

  lemma {:induction false} SteerEvents(s: State, f: Fact)
    requires f.TurnSteerResponse? || f.ErrorResponse?
    ensures var key := (f.connection, f.request);
            if key !in s.requests || !s.requests[key].PendingTurnSteer?
               || ContextOn(s, Some(f.connection), s.requests[key].thread).Lost?
            then Ingest(s, f).events == []
            else
              var asked := s.requests[key];
              Ingest(s, f).events ==
              [TurnSteerEvent(asked.thread, asked.expectedTurn, if f.TurnSteerResponse? then Some(f.turn) else None,
                              if f.ErrorResponse? then f.reason else None, asked.images, asked.createdAt,
                              ContextOn(s, Some(f.connection), asked.thread).context)]
  {
    hide ContextOn;
  }

  /** Steer events, exactly: a steer response or an error emits one if and only if it answers an open
      steer request, its connection is known and the request's thread is. The event says what the
      request said, and the accepted turn or the rejection of the answer. */
  lemma {:induction false} SteerEventExact(facts: seq<Fact>, f: Fact)
    requires f.TurnSteerResponse? || f.ErrorResponse?
    ensures Ingest(Run(facts), f).events == SteerEventsFor(facts, f)
  {
    hide Run, Ingest, RequestFor, ContextFor, ContextOn;
    SteerEvents(Run(facts), f);
    RequestsAreTheOpenOnes(facts, f.connection, f.request);
    var asked := RequestFor(facts, f.connection, f.request);
    if asked.Some? { ContextOnIsHistory(facts, Some(f.connection), asked.value.thread); }
  }
}
