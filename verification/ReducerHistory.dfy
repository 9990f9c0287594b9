/** Connections, threads and open requests as functions of the facts alone. Nothing here is
    computed by the reducer; the lemmas say that its tables hold exactly this. */
module ReducerHistory {
  import opened Protocol
  import opened AnalyticsFacts
  import opened ReducerModel
  import opened ReducerGuarantees

  function Entry<K, V>(m: map<K, V>, key: K): Option<V> {
    if key in m then Some(m[key]) else None
  }

  // ---- Connections and threads ----

  /** What the last `Initialize` said about a connection. */
  function ConnectionFor(facts: seq<Fact>, connection: ConnectionId): Option<ConnectionState> {
    if facts == [] then None
    else
      var f := facts[|facts| - 1];
      if f.Initialize? && f.connection == connection then Some(f.state)
      else ConnectionFor(facts[..|facts| - 1], connection)
  }

  /** A start, resume or fork response for the thread that came over a known connection. */
  predicate Opens(facts: seq<Fact>, f: Fact, thread: ThreadId) {
    f.ThreadResponse? && f.thread == thread && ConnectionFor(facts, f.connection).Some?
  }

  /** The connection of a thread: of its last response, else the one its parent had when the
      sub-agent started. */
  function HomeOf(facts: seq<Fact>, thread: ThreadId): Option<ConnectionId> {
    if facts == [] then None
    else
      var before, f := facts[..|facts| - 1], facts[|facts| - 1];
      if Opens(before, f, thread) then Some(f.connection)
      else if f.SubAgentThreadStarted? && f.thread == thread && f.parent.Some? && HomeOf(before, thread).None?
      then HomeOf(before, f.parent.value)
      else HomeOf(before, thread)
  }

  /** The last response's metadata; a sub-agent's own only while there is none. */
  function MetadataFor(facts: seq<Fact>, thread: ThreadId): Option<ThreadMetadata> {
    if facts == [] then None
    else
      var before, f := facts[..|facts| - 1], facts[|facts| - 1];
      var known := MetadataFor(before, thread);
      if Opens(before, f, thread) then Some(f.metadata)
      else if f.SubAgentThreadStarted? && f.thread == thread && known.None?
      then Some(ThreadMetadata(f.sessionId, f.parent, "subagent"))
      else known
  }

  /** The last originator a response named; a sub-agent's client only while there is none. */
  function OriginatorFor(facts: seq<Fact>, thread: ThreadId): Option<string> {
    if facts == [] then None
    else
      var before, f := facts[..|facts| - 1], facts[|facts| - 1];
      var known := OriginatorFor(before, thread);
      if Opens(before, f, thread) && f.originator.Some? then f.originator
      else if f.SubAgentThreadStarted? && f.thread == thread && known.None? then Some(f.productClientId)
      else known
  }

  /** What a table of threads says about one. */
  ghost predicate ThreadIs(threads: map<ThreadId, ThreadState>, thread: ThreadId, home: Option<ConnectionId>,
                           metadata: Option<ThreadMetadata>, originator: Option<string>) {
    if thread in threads then metadata.Some? && threads[thread] == ThreadState(home, metadata, originator)
    else home.None? && metadata.None? && originator.None?
  }

  lemma {:induction false} ConnectionsStep(s: State, f: Fact, connection: ConnectionId)
    ensures Entry(Ingest(s, f).state.connections, connection) ==
            if f.Initialize? && f.connection == connection then Some(f.state) else Entry(s.connections, connection)
  {
    hide IngestTurnFact, IngestRpcFact, IngestReviewFact, StartItem, CompleteItem;
  }

  /** The connections are the ones initialised, each as it was last described. */
  lemma {:induction false} ConnectionsAreHistory(facts: seq<Fact>, connection: ConnectionId)
    ensures Entry(Run(facts).connections, connection) == ConnectionFor(facts, connection)
  {
    hide Ingest;
    if facts != [] {
      ConnectionsAreHistory(facts[..|facts| - 1], connection);
      ConnectionsStep(Run(facts[..|facts| - 1]), facts[|facts| - 1], connection);
    }
  }

  /** One thread's entry after a fact, given the entries before it. */
  lemma {:induction false} ThreadStep(s: State, f: Fact, thread: ThreadId, home: Option<ConnectionId>,
                                      metadata: Option<ThreadMetadata>, originator: Option<string>)
    requires ThreadIs(s.threads, thread, home, metadata, originator)
    ensures var threads := Ingest(s, f).state.threads;
            if f.ThreadResponse? && f.thread == thread && f.connection in s.connections then
              ThreadIs(threads, thread, Some(f.connection), Some(f.metadata),
                       if f.originator.Some? then f.originator else originator)
            else if f.SubAgentThreadStarted? && f.thread == thread then
              ThreadIs(threads, thread,
                       if home.None? && f.parent.Some? then ThreadConnection(s, f.parent.value) else home,
                       if metadata.None? then Some(ThreadMetadata(f.sessionId, f.parent, "subagent")) else metadata,
                       if originator.None? then Some(f.productClientId) else originator)
            else ThreadIs(threads, thread, home, metadata, originator)
  {
    hide IngestTurnFact, IngestRpcFact, IngestReviewFact, StartItem, CompleteItem;
  }

  /** The threads are the ones opened or started as sub-agents, with the connection, metadata and
      originator the facts say. */
  lemma {:induction false} ThreadsAreHistory(facts: seq<Fact>, thread: ThreadId)
    ensures ThreadIs(Run(facts).threads, thread, HomeOf(facts, thread), MetadataFor(facts, thread),
                     OriginatorFor(facts, thread))
  {
    hide Ingest;
    if facts != [] {
      var before, f := facts[..|facts| - 1], facts[|facts| - 1];
      ThreadsAreHistory(before, thread);
      if f.ThreadResponse? { ConnectionsAreHistory(before, f.connection); }
      if f.SubAgentThreadStarted? && f.parent.Some? { ThreadsAreHistory(before, f.parent.value); }
      ThreadStep(Run(before), f, thread, HomeOf(before, thread), MetadataFor(before, thread),
                 OriginatorFor(before, thread));
    }
  }

  /** A sub-agent thread that has no connection gets its parent's, and so has a context whenever
      its parent has one; a connection it already has is kept. */
  lemma {:induction false} SubAgentIsConnected(facts: seq<Fact>, f: Fact)
    requires f.SubAgentThreadStarted? && f.parent.Some?
    ensures var s, t := Run(facts), Run(facts + [f]);
            var own, parent := ThreadConnection(s, f.thread), ThreadConnection(s, f.parent.value);
            && ThreadConnection(t, f.thread) == (if own.Some? then own else parent)
            && (ThreadContext(s, f.parent.value).Found? ==> ThreadContext(t, f.thread).Found?)
  {
    hide Ingest, Run;
    RunSnoc(facts, f);
    ThreadsAreHistory(facts, f.thread);
    ThreadsAreHistory(facts + [f], f.thread);
    assert (facts + [f])[..|facts|] == facts;
    ThreadsAreHistory(facts, f.parent.value);
    OnlyTheConnectionCanBeMissing(facts, f.parent.value);
    OnlyTheConnectionCanBeMissing(facts + [f], f.thread);
  }

  // ---- Contexts ----

  /** What an event about `thread` over `connection` copies: the thread's originator or else the
      connection's client, the connection and the thread's metadata. */
  function ContextFor(facts: seq<Fact>, connection: Option<ConnectionId>, thread: ThreadId): Option<Context> {
    if connection.None? then None
    else
      var c, metadata, originator :=
        ConnectionFor(facts, connection.value), MetadataFor(facts, thread), OriginatorFor(facts, thread);
      if c.None? || metadata.None? then None
      else Some(Context(if originator.Some? then originator.value else c.value.productClientId, c.value,
                        metadata.value))
  }

  function HomeContext(facts: seq<Fact>, thread: ThreadId): Option<Context> {
    ContextFor(facts, HomeOf(facts, thread), thread)
  }

  function ContextIn(lookup: Lookup): Option<Context> {
    if lookup.Found? then Some(lookup.context) else None
  }

  lemma {:induction false} ContextOnIsHistory(facts: seq<Fact>, connection: Option<ConnectionId>, thread: ThreadId)
    ensures ContextIn(ContextOn(Run(facts), connection, thread)) == ContextFor(facts, connection, thread)
  {
    hide Run, HomeOf, MetadataFor, OriginatorFor, ConnectionFor;
    ThreadsAreHistory(facts, thread);
    if connection.Some? { ConnectionsAreHistory(facts, connection.value); }
  }

  lemma {:induction false} ThreadContextIsHistory(facts: seq<Fact>, thread: ThreadId)
    ensures ContextIn(ThreadContext(Run(facts), thread)) == HomeContext(facts, thread)
    ensures ThreadConnection(Run(facts), thread) == HomeOf(facts, thread)
  {
    hide Run, HomeOf, MetadataFor, OriginatorFor, ConnectionFor;
    ThreadsAreHistory(facts, thread);
    if HomeOf(facts, thread).Some? { ConnectionsAreHistory(facts, HomeOf(facts, thread).value); }
  }

  /** A thread with a connection has a context. */
  lemma {:induction false} HomeIsKnown(facts: seq<Fact>, thread: ThreadId)
    ensures HomeContext(facts, thread).Some? <==> HomeOf(facts, thread).Some?
    ensures HomeOf(facts, thread).Some? ==>
              MetadataFor(facts, thread).Some? && ConnectionFor(facts, HomeOf(facts, thread).value).Some?
  {
    hide Run, HomeOf, MetadataFor, OriginatorFor, ConnectionFor;
    OnlyTheConnectionCanBeMissing(facts, thread);
    ThreadContextIsHistory(facts, thread);
  }

  // ---- Turn requests ----

  /** The client request a response on this connection with this id would settle now. */
  function RequestFor(facts: seq<Fact>, connection: ConnectionId, request: RequestId): Option<RequestState> {
    if facts == [] then None
    else
      var before := RequestFor(facts[..|facts| - 1], connection, request);
      match facts[|facts| - 1]
      case TurnStartRequest(c, r, thread, images) =>
        if c == connection && r == request then Some(PendingTurnStart(thread, images)) else before
      case TurnSteerRequest(c, r, thread, expectedTurn, images, createdAt) =>
        if c == connection && r == request then Some(PendingTurnSteer(thread, expectedTurn, images, createdAt))
        else before
      case TurnStartResponse(c, r, _) => if c == connection && r == request then None else before
      case TurnSteerResponse(c, r, _) => if c == connection && r == request then None else before
      case ErrorResponse(c, r, _) => if c == connection && r == request then None else before
      case _ => before
  }

  lemma {:induction false} RequestsAreTheOpenOnes(facts: seq<Fact>, connection: ConnectionId, request: RequestId)
    ensures Entry(Run(facts).requests, (connection, request)) == RequestFor(facts, connection, request)
  {
    hide IngestTurnFact, IngestRpcFact, IngestReviewFact, IngestThreadFact, StartItem, CompleteItem;
    if facts != [] {
      var before, f := facts[..|facts| - 1], facts[|facts| - 1];
      RequestsAreTheOpenOnes(before, connection, request);
      if RpcFact(f) { RequestsOfRpc(Run(before), f); } else { RequestsFrame(Run(before), f); }
    }
  }

  /** The request an answer settles. */
  function Asked(facts: seq<Fact>, f: Fact): Option<RequestState> {
    if f.TurnStartResponse? || f.TurnSteerResponse? || f.ErrorResponse?
    then RequestFor(facts, f.connection, f.request) else None
  }

  function AskedIn(s: State, f: Fact): Option<RequestState> {
    if f.TurnStartResponse? || f.TurnSteerResponse? || f.ErrorResponse?
    then Entry(s.requests, (f.connection, f.request)) else None
  }

  lemma {:induction false} AskedIsHistory(facts: seq<Fact>, f: Fact)
    ensures AskedIn(Run(facts), f) == Asked(facts, f)
  {
    hide Run, RequestFor;
    if f.TurnStartResponse? || f.TurnSteerResponse? || f.ErrorResponse? {
      RequestsAreTheOpenOnes(facts, f.connection, f.request);
    }
  }

  // ---- Approvals ----

  /** A request for approval that is tracked. */
  predicate Asks(f: Fact, request: RequestId) {
    f.ApprovalRequested? && f.request == request && f.startedAtMs >= 0
  }

  predicate Settles(f: Fact, request: RequestId) {
    f.ApprovalResolved? && f.request == request
  }

  /** The approval request an answer or abort of `request` would settle now: the fact itself. */
  function ApprovalFor(facts: seq<Fact>, request: RequestId): (asked: Option<Fact>)
    ensures asked.Some? ==> Asks(asked.value, request)
  {
    if facts == [] then None
    else
      var f := facts[|facts| - 1];
      if Asks(f, request) then Some(f)
      else if Settles(f, request) then None
      else ApprovalFor(facts[..|facts| - 1], request)
  }

  /** Fact `p` asks for approval under this id, and no later fact asks again or settles it. */
  ghost predicate LastAsk(facts: seq<Fact>, request: RequestId, p: nat) {
    && p < |facts| && Asks(facts[p], request)
    && forall k :: p < k < |facts| ==> !Asks(facts[k], request) && !Settles(facts[k], request)
  }

  lemma {:induction false} LastAskEarlier(facts: seq<Fact>, request: RequestId, p: nat)
    requires facts != [] && p < |facts| - 1
    ensures var f := facts[|facts| - 1];
            LastAsk(facts, request, p) <==>
            LastAsk(facts[..|facts| - 1], request, p) && !Asks(f, request) && !Settles(f, request)
  {
    hide Asks, Settles;
    var before, n := facts[..|facts| - 1], |facts| - 1;
    assert forall k :: 0 <= k < n ==> facts[k] == before[k];
    if LastAsk(before, request, p) && !Asks(facts[n], request) && !Settles(facts[n], request) {
      forall k | p < k < |facts| ensures !Asks(facts[k], request) && !Settles(facts[k], request) {
        if k < n { assert !Asks(before[k], request) && !Settles(before[k], request); }
      }
    }
  }

  /** The open request of an id is its last one, if nothing has settled the id since. */
  lemma {:induction false} ApprovalIff(facts: seq<Fact>, request: RequestId)
    ensures forall p: nat :: LastAsk(facts, request, p) ==> ApprovalFor(facts, request) == Some(facts[p])
    ensures ApprovalFor(facts, request).Some? ==> exists p: nat :: LastAsk(facts, request, p)
  {
    hide Asks, Settles;
    if facts != [] {
      var before, n := facts[..|facts| - 1], |facts| - 1;
      ApprovalIff(before, request);
      forall p: nat | LastAsk(facts, request, p) ensures ApprovalFor(facts, request) == Some(facts[p]) {
        if p < n { LastAskEarlier(facts, request, p); }
      }
      if Asks(facts[n], request) {
        assert LastAsk(facts, request, n);
      } else if ApprovalFor(facts, request).Some? {
        var p: nat :| LastAsk(before, request, p);
        LastAskEarlier(facts, request, p);
      }
    }
  }

  /** What a pending review must say about the request it was made from. */
  predicate Describes(review: PendingReview, asked: Fact)
    requires asked.ApprovalRequested?
  {
    && review.thread == asked.thread && review.turn == asked.turn && review.item == Some(asked.itemId)
    && review.id == UserReview(asked.request) && review.startedAt == asked.startedAtMs
    && match asked.approval
       case CommandApproval(networkContext, amendments, additional) =>
         && review.subject == (if networkContext then NetworkSubject else CommandSubject)
         && (review.additionalPermissions <==> additional != None)
         && (review.networkAccess <==> networkContext || amendments || additional == Some(true))
       case FileApproval(grantRoot) =>
         && review.subject == FileSubject && !review.networkAccess && (review.additionalPermissions <==> grantRoot)
       case PermissionsApproval(network, fileSystem) =>
         && review.subject == PermissionsSubject && (review.networkAccess <==> network)
         && (review.additionalPermissions <==> network || fileSystem)
  }

  lemma {:induction false} ReviewDescribes(f: Fact, startedAt: nat)
    requires f.ApprovalRequested? && startedAt == f.startedAtMs
    ensures Describes(ReviewOf(f, startedAt), f)
  {
  }

  ghost predicate PendingIs(reviews: map<RequestId, PendingReview>, request: RequestId, asked: Option<Fact>)
    requires asked.Some? ==> asked.value.ApprovalRequested?
  {
    if asked.None? then request !in reviews
    else request in reviews && Describes(reviews[request], asked.value)
  }

  lemma {:induction false} PendingOfReviewFact(s: State, f: Fact, request: RequestId)
    requires ReviewFact(f)
    ensures Entry(IngestReviewFact(s, f).state.reviews, request) ==
            if Asks(f, request) then Some(ReviewOf(f, f.startedAtMs))
            else if Settles(f, request) then None
            else Entry(s.reviews, request)
  {
    hide ReviewOf, AddReview, ThreadContext;
  }

  lemma {:induction false} PendingStep(s: State, f: Fact, request: RequestId)
    ensures var reviews := Ingest(s, f).state.reviews;
            if Asks(f, request) then PendingIs(reviews, request, Some(f))
            else if Settles(f, request) then PendingIs(reviews, request, None)
            else Entry(reviews, request) == Entry(s.reviews, request)
  {
    hide IngestTurnFact, IngestRpcFact, IngestReviewFact, IngestThreadFact, StartItem, CompleteItem;
    hide Describes, ReviewOf;
    if ReviewFact(f) { PendingOfReviewFact(s, f, request); }
    if Asks(f, request) { ReviewDescribes(f, f.startedAtMs); }
  }

  /** The pending reviews are the approval requests not yet answered or aborted, and each says
      what its own request says. */
  lemma {:induction false} PendingReviewsAreTheOpenRequests(facts: seq<Fact>, request: RequestId)
    ensures PendingIs(Run(facts).reviews, request, ApprovalFor(facts, request))
  {
    hide Ingest, Describes, Asks, Settles;
    if facts != [] {
      PendingReviewsAreTheOpenRequests(facts[..|facts| - 1], request);
      PendingStep(Run(facts[..|facts| - 1]), facts[|facts| - 1], request);
    }
  }

  lemma {:induction false} StaysResolved(facts: seq<Fact>, more: seq<Fact>, request: RequestId)
    requires ApprovalFor(facts, request).None?
    requires forall i :: 0 <= i < |more| ==> !(more[i].ApprovalRequested? && more[i].request == request)
    ensures ApprovalFor(facts + more, request).None?
  {
    if more == [] {
      assert facts + more == facts;
    } else {
      StaysResolved(facts, more[..|more| - 1], request);
      assert (facts + more)[..|facts + more| - 1] == facts + more[..|more| - 1];
    }
  }

  /** A late or repeated answer or abort emits nothing and changes nothing, however many facts
      came in between, unless the id was requested again. */
  lemma {:induction false} SecondAnswerIsSilent(facts: seq<Fact>, first: Fact, more: seq<Fact>, second: Fact)
    requires first.ApprovalResolved? && second.ApprovalResolved? && first.request == second.request
    requires forall i :: 0 <= i < |more| ==> !(more[i].ApprovalRequested? && more[i].request == first.request)
    ensures Ingest(Run(facts + [first] + more), second) == Out(Run(facts + [first] + more), [])
  {
    hide Run, IngestTurnFact, IngestRpcFact, IngestThreadFact, StartItem, CompleteItem, EmitReview, Describes;
    assert (facts + [first])[..|facts|] == facts;
    StaysResolved(facts + [first], more, first.request);
    PendingReviewsAreTheOpenRequests(facts + [first] + more, first.request);
  }

  // ---- Contextual facts ----

  /** Whether a fact is an occasion for a compaction, goal, guardian or review event, and for
      which thread: an answer's is the thread its approval request named. */
  function ContextualThread(facts: seq<Fact>, f: Fact): Option<ThreadId> {
    match f
    case ContextFact(_, thread, _) => Some(thread)
    case ApprovalResolved(request, _, _, _) =>
      var asked := ApprovalFor(facts, request);
      if asked.Some? then Some(asked.value.thread) else None
    case GuardianCompleted(_, thread, _, _, _, verdict, startedAtMs, completedAtMs) =>
      if verdict.Some? && startedAtMs >= 0 && completedAtMs >= 0 then Some(thread) else None
    case _ => None
  }

  lemma {:induction false} HomeKept(facts: seq<Fact>, more: seq<Fact>, thread: ThreadId)
    requires HomeOf(facts, thread).Some?
    ensures HomeContext(facts + more, thread).Some?
  {
    hide Run, HomeOf, HomeContext;
    ContextsNeverShrink(facts, more);
    ThreadContextIsHistory(facts, thread);
    ThreadContextIsHistory(facts + more, thread);
    HomeIsKnown(facts + more, thread);
  }

  lemma {:induction false} ContextualFactEmits(facts: seq<Fact>, f: Fact)
    requires ContextualThread(facts, f).Some?
    requires ThreadContext(Run(facts), ContextualThread(facts, f).value).Found?
    ensures var events := Ingest(Run(facts), f).events;
            |events| == 1 && (events[0].ContextEvent? || events[0].ReviewEvent?)
  {
    hide Run, IngestTurnFact, IngestRpcFact, StartItem, CompleteItem;
    if f.ApprovalResolved? { PendingReviewsAreTheOpenRequests(facts, f.request); }
  }

  /** Once a thread has a connection, no later compaction, goal, guardian or review event for it
      is dropped, whatever is ingested in between: the fact emits exactly one event. */
  lemma {:induction false} NoLateDrop(facts: seq<Fact>, more: seq<Fact>, f: Fact)
    requires var thread := ContextualThread(facts + more, f);
             thread.Some? && HomeOf(facts, thread.value).Some?
    ensures var events := Ingest(Run(facts + more), f).events;
            |events| == 1 && (events[0].ContextEvent? || events[0].ReviewEvent?)
  {
    hide Run, Ingest, ThreadContext, ContextualThread, HomeOf, HomeContext;
    var thread := ContextualThread(facts + more, f).value;
    HomeKept(facts, more, thread);
    ThreadContextIsHistory(facts + more, thread);
    ContextualFactEmits(facts + more, f);
  }
}
