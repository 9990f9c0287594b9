/** The turn join: config, profile and completion, in any order and among any other facts,
    make one turn event. When it is emitted and what it says is read off the facts. */
module ReducerJoin {
  import opened Protocol
  import opened AnalyticsFacts
  import opened ReducerModel
  import opened ReducerGuarantees
  import opened ReducerHistory
  import opened ReducerTurns

  /** Everything the facts ever said about `turn`, the last word on each point. */
  function Gather(facts: seq<Fact>, turn: TurnId): Gist {
    if facts == [] then NOTHING
    else
      var before, f := facts[..|facts| - 1], facts[|facts| - 1];
      Mention(Gather(before, turn), Asked(before, f), f, turn)
  }

  lemma {:induction false} GatherPrefix(facts: seq<Fact>, n: nat, turn: TurnId)
    requires n < |facts|
    ensures Gather(facts[..n + 1], turn) ==
            Mention(Gather(facts[..n], turn), Asked(facts[..n], facts[n]), facts[n], turn)
  {
    hide Mention, Asked;
    assert facts[..n + 1][..n] == facts[..n];
  }

  predicate FiresAt(facts: seq<Fact>, i: nat, turn: TurnId)
    requires i < |facts|
  {
    Fires(facts[..i], facts[i], turn)
  }

  /** None of the first `n` facts fires for the turn. */
  predicate Quiet(facts: seq<Fact>, n: nat, turn: TurnId)
    requires n <= |facts|
  {
    forall j :: 0 <= j < n ==> !FiresAt(facts, j, turn)
  }

  /** Until a turn event is emitted, what is known of the turn is everything that was said. */
  lemma {:induction false} QuietGathers(facts: seq<Fact>, n: nat, turn: TurnId)
    requires n <= |facts| && Quiet(facts, n, turn)
    ensures Current(facts[..n], turn) == Gather(facts[..n], turn)
  {
    hide Fires, Mention, Asked, Gather, Current;
    if n == 0 {
      assert facts[..0] == [] && Current([], turn) == Gather([], turn) by { GatherNone(turn); }
    } else {
      QuietGathers(facts, n - 1, turn);
      GatherPrefix(facts, n - 1, turn);
      assert !FiresAt(facts, n - 1, turn);
      assert facts[..n] == facts[..n - 1] + [facts[n - 1]];
      CurrentSnoc(facts[..n - 1], facts[n - 1], turn);
    }
  }

  lemma GatherNone(turn: TurnId)
    ensures Gather([], turn) == NOTHING == Current([], turn)
  {
  }

  /** What the facts up to and including the i-th say about the turn. */
  function GistAt(facts: seq<Fact>, i: nat, turn: TurnId): Gist
    requires i < |facts|
  {
    Gather(facts[..i + 1], turn)
  }

  lemma {:induction false} QuietTold(facts: seq<Fact>, i: nat, turn: TurnId)
    requires i < |facts| && Quiet(facts, i, turn)
    ensures Told(facts[..i], facts[i], turn) == GistAt(facts, i, turn)
  {
    hide Gather, Current, Mention, Asked, Fires;
    QuietGathers(facts, i, turn);
    GatherPrefix(facts, i, turn);
  }

  // ---- One config, one profile, one completion ----

  /** Fact `i` is the only one in the run that fills this slot of the turn. */
  ghost predicate OnlyFiller(facts: seq<Fact>, turn: TurnId, slot: Slot, i: nat) {
    i < |facts| && FillsSlot(turn, slot)(facts[i])
    && forall j :: 0 <= j < |facts| && FillsSlot(turn, slot)(facts[j]) ==> j == i
  }

  lemma {:induction false} CountBefore(facts: seq<Fact>, turn: TurnId, slot: Slot, i: nat, n: nat)
    requires OnlyFiller(facts, turn, slot, i) && n <= |facts|
    ensures Count(facts[..n], FillsSlot(turn, slot)) == One(i < n)
  {
    if n > 0 {
      CountBefore(facts, turn, slot, i, n - 1);
      assert facts[..n][..n - 1] == facts[..n - 1];
    }
  }

  /** Positions in a run of the three facts a turn event needs. */
  datatype Trio = Trio(config: nat, profile: nat, completed: nat)

  function Last(trio: Trio): nat {
    if trio.config >= trio.profile && trio.config >= trio.completed then trio.config
    else if trio.profile >= trio.completed then trio.profile
    else trio.completed
  }

  ghost predicate OneOfEach(facts: seq<Fact>, turn: TurnId, trio: Trio) {
    && OnlyFiller(facts, turn, ConfigSlot, trio.config)
    && OnlyFiller(facts, turn, ProfileSlot, trio.profile)
    && OnlyFiller(facts, turn, CompletedSlot, trio.completed)
  }

  /** Among the first `n` facts, the slots hold the three facts' values once they have come. */
  ghost predicate SlotsHold(facts: seq<Fact>, turn: TurnId, trio: Trio, n: nat, g: Gist)
    requires OneOfEach(facts, turn, trio)
  {
    && g.config == (if trio.config < n then Some(facts[trio.config].config) else None)
    && g.profile == (if trio.profile < n then Some(facts[trio.profile].profile) else None)
    && g.completed == (if trio.completed < n then Some(Completion(facts[trio.completed])) else None)
    && (g.config.Some? ==> g.thread.Some? && g.images.Some?)
  }

  lemma {:induction false} MentionSlots(g: Gist, asked: Option<RequestState>, f: Fact, turn: TurnId)
    ensures var m := Mention(g, asked, f, turn);
            && m.config == (if f.TurnResolvedConfig? && f.turn == turn then Some(f.config) else g.config)
            && m.profile == (if f.TurnProfile? && f.turn == turn then Some(f.profile) else g.profile)
            && m.completed == (if f.TurnCompleted? && f.turn == turn then Some(Completion(f)) else g.completed)
            && (g.thread.Some? || (f.TurnResolvedConfig? && f.turn == turn) ==> m.thread.Some?)
            && (g.images.Some? || (f.TurnResolvedConfig? && f.turn == turn) ==> m.images.Some?)
  {
    hide Completion, IsCounted;
  }

  lemma {:induction false} SlotsHoldStep(facts: seq<Fact>, turn: TurnId, trio: Trio, n: nat, g: Gist,
                                         start: Option<RequestState>)
    requires OneOfEach(facts, turn, trio) && n < |facts| && SlotsHold(facts, turn, trio, n, g)
    ensures SlotsHold(facts, turn, trio, n + 1, Mention(g, start, facts[n], turn))
  {
    hide Mention, Completion;
    MentionSlots(g, start, facts[n], turn);
    assert FillsSlot(turn, ConfigSlot)(facts[n]) <==> n == trio.config;
    assert FillsSlot(turn, ProfileSlot)(facts[n]) <==> n == trio.profile;
    assert FillsSlot(turn, CompletedSlot)(facts[n]) <==> n == trio.completed;
  }

  lemma {:induction false} SlotsGathered(facts: seq<Fact>, turn: TurnId, trio: Trio, n: nat)
    requires OneOfEach(facts, turn, trio) && n <= |facts|
    ensures SlotsHold(facts, turn, trio, n, Gather(facts[..n], turn))
  {
    hide Mention, Asked;
    if n == 0 {
      assert facts[..0] == [];
    } else {
      SlotsGathered(facts, turn, trio, n - 1);
      GatherPrefix(facts, n - 1, turn);
      SlotsHoldStep(facts, turn, trio, n - 1, Gather(facts[..n - 1], turn), Asked(facts[..n - 1], facts[n - 1]));
    }
  }

  /** The turn start a fact settles, if it is a response to one. */
  function StartSettled(facts: seq<Fact>, f: Fact): Option<RequestState> {
    var asked := Asked(facts, f);
    if f.TurnStartResponse? && asked.Some? && asked.value.PendingTurnStart? then asked else None
  }

  /** Where the first fact fires: not before the last of the three, and after it only at a token
      usage or a turn-start response; it must find a context. */
  lemma {:induction false} FiresIff(facts: seq<Fact>, turn: TurnId, trio: Trio, i: nat)
    requires OneOfEach(facts, turn, trio) && i < |facts| && Quiet(facts, i, turn)
    ensures FiresAt(facts, i, turn) <==>
            && i >= Last(trio)
            && (i == Last(trio) || (facts[i].TurnTokenUsage? && facts[i].turn == turn)
                || (StartSettled(facts[..i], facts[i]).Some? && facts[i].turn == turn))
            && JoinContext(facts[..i], GistAt(facts, i, turn)).Some?
  {
    hide Gather, Told, Asked, JoinContext;
    SlotsGathered(facts, turn, trio, i + 1);
    QuietTold(facts, i, turn);
    assert FillsSlot(turn, ConfigSlot)(facts[i]) <==> i == trio.config;
    assert FillsSlot(turn, ProfileSlot)(facts[i]) <==> i == trio.profile;
    assert FillsSlot(turn, CompletedSlot)(facts[i]) <==> i == trio.completed;
  }

  lemma {:induction false} QuietUntilLast(facts: seq<Fact>, turn: TurnId, trio: Trio, n: nat)
    requires OneOfEach(facts, turn, trio) && n <= Last(trio) && Last(trio) < |facts|
    ensures Quiet(facts, n, turn)
  {
    hide FiresAt, OneOfEach, JoinContext, Gather, StartSettled;
    if n > 0 {
      QuietUntilLast(facts, turn, trio, n - 1);
      FiresIff(facts, turn, trio, n - 1);
    }
  }

  lemma {:induction false} EmittedSnoc(facts: seq<Fact>, n: nat, turn: TurnId)
    requires n < |facts|
    ensures Run(facts[..n + 1]) == Ingest(Run(facts[..n]), facts[n]).state
    ensures Count(Emitted(facts[..n + 1]), IsTurnEvent(turn)) ==
            Count(Emitted(facts[..n]), IsTurnEvent(turn)) + Count(EmittedAt(facts, n), IsTurnEvent(turn))
  {
    hide Ingest, Count, Run, Emitted;
    RunSnoc(facts[..n], facts[n]);
    assert facts[..n + 1] == facts[..n] + [facts[n]];
    CountConcat(Emitted(facts[..n]), Ingest(Run(facts[..n]), facts[n]).events, IsTurnEvent(turn));
  }

  lemma {:induction false} EmittedGrows(facts: seq<Fact>, m: nat, n: nat, turn: TurnId)
    requires m <= n <= |facts|
    ensures Count(Emitted(facts[..m]), IsTurnEvent(turn)) <= Count(Emitted(facts[..n]), IsTurnEvent(turn))
    decreases n
  {
    hide Emitted, Count, Ingest, Run;
    if m < n {
      EmittedGrows(facts, m, n - 1, turn);
      EmittedSnoc(facts, n - 1, turn);
    }
  }

  /** Nothing was emitted for the turn among the first `n` facts iff none of them fires. */
  lemma {:induction false} SilentIff(facts: seq<Fact>, turn: TurnId, n: nat)
    requires n <= |facts|
    ensures Count(Emitted(facts[..n]), IsTurnEvent(turn)) == 0 <==> Quiet(facts, n, turn)
  {
    hide Run, Ingest, Fires, Gather, Count, Emitted, TurnEventsFor;
    if n == 0 {
      assert facts[..0] == [] && Count(Emitted([]), IsTurnEvent(turn)) == 0 by { NothingEmitted(turn); }
    } else {
      SilentIff(facts, turn, n - 1);
      EmittedSnoc(facts, n - 1, turn);
      if Count(Emitted(facts[..n - 1]), IsTurnEvent(turn)) == 0 {
        EmissionExact(facts[..n - 1], facts[n - 1], turn);
        assert Count(EmittedAt(facts, n - 1), IsTurnEvent(turn)) == One(FiresAt(facts, n - 1, turn));
      } else {
        var j :| 0 <= j < n - 1 && FiresAt(facts, j, turn);
      }
    }
  }

  lemma NothingEmitted(turn: TurnId)
    ensures Count(Emitted([]), IsTurnEvent(turn)) == 0
  {
  }

  lemma {:induction false} AtMostOnce(facts: seq<Fact>, turn: TurnId, trio: Trio, n: nat)
    requires OneOfEach(facts, turn, trio) && n <= |facts|
    ensures Last(trio) < |facts| && Count(Emitted(facts[..n]), IsTurnEvent(turn)) <= 1
  {
    hide Run, Emitted, Count;
    CountBefore(facts, turn, ConfigSlot, trio.config, n);
    TurnEventBound(facts[..n], turn, ConfigSlot);
  }

  /** Fact `i` is the first of the run that fires for the turn. */
  ghost predicate FirstToFire(facts: seq<Fact>, i: nat, turn: TurnId) {
    i < |facts| && FiresAt(facts, i, turn) && Quiet(facts, i, turn)
  }

  /** The join, exactly: with one config, one profile and one completion for a turn, the turn event
      is emitted by the first fact that fires and by no other, and says everything the facts up to
      it say, with the three facts' values in their places. */
  lemma {:induction false} JoinExact(facts: seq<Fact>, turn: TurnId, trio: Trio, i: nat)
    requires OneOfEach(facts, turn, trio) && i < |facts|
    ensures var events, g := EmittedAt(facts, i), GistAt(facts, i, turn);
            && Count(events, IsTurnEvent(turn)) == One(FirstToFire(facts, i, turn))
            && (FirstToFire(facts, i, turn) ==>
                  && Complete(g) && JoinContext(facts[..i], g).Some?
                  && events == [TurnEventFor(turn, g, JoinContext(facts[..i], g).value)] + AcceptedLinesFor(turn, g)
                  && SlotsHold(facts, turn, trio, i + 1, g))
  {
    hide Run, Ingest, Emitted, Count, OneOfEach, SlotsHold, Gather, Told, Attempts, Complete, JoinContext;
    hide TurnEventFor, AcceptedLinesFor;
    SilentIff(facts, turn, i);
    SlotsGathered(facts, turn, trio, i + 1);
    EmissionExact(facts[..i], facts[i], turn);
    if Count(Emitted(facts[..i]), IsTurnEvent(turn)) == 0 {
      QuietTold(facts, i, turn);
    } else {
      AtMostOnce(facts, turn, trio, i + 1);
      EmittedSnoc(facts, i, turn);
    }
  }

  // ---- The event at the last of the three ----

  /** What the context needs: a known thread, and a known connection named by a turn start, or one
      held by the thread. */
  predicate Connected(facts: seq<Fact>, g: Gist) {
    && g.thread.Some? && MetadataFor(facts, g.thread.value).Some?
    && (if g.connection.Some? then ConnectionFor(facts, g.connection.value).Some?
        else HomeOf(facts, g.thread.value).Some?)
  }

  lemma {:induction false} ContextIffConnected(facts: seq<Fact>, g: Gist)
    ensures JoinContext(facts, g).Some? <==> Connected(facts, g)
  {
    hide HomeOf, MetadataFor, ConnectionFor, OriginatorFor;
    if g.thread.Some? { HomeIsKnown(facts, g.thread.value); }
  }

  /** The turn is connected at the last of the three facts. */
  ghost predicate Joinable(facts: seq<Fact>, turn: TurnId, trio: Trio) {
    OneOfEach(facts, turn, trio) && Connected(facts[..Last(trio)], GistAt(facts, Last(trio), turn))
  }

  /** The event comes at the last of the three facts if and only if the turn is connected by then.
      Otherwise it comes at the first later token usage or turn-start response for the turn that
      finds it connected, or never. */
  lemma {:induction false} JoinAtLastIff(facts: seq<Fact>, turn: TurnId, trio: Trio, i: nat)
    requires OneOfEach(facts, turn, trio) && i < |facts|
    ensures FirstToFire(facts, Last(trio), turn) <==> Joinable(facts, turn, trio)
    ensures FirstToFire(facts, i, turn) && !Joinable(facts, turn, trio) ==>
              && i > Last(trio) && (facts[i].TurnTokenUsage? || facts[i].TurnStartResponse?) && facts[i].turn == turn
              && Connected(facts[..i], GistAt(facts, i, turn))
  {
    hide Gather, FiresAt, JoinContext, Connected, Asked, Quiet;
    QuietUntilLast(facts, turn, trio, Last(trio));
    FiresIff(facts, turn, trio, Last(trio));
    ContextIffConnected(facts[..Last(trio)], GistAt(facts, Last(trio), turn));
    if FirstToFire(facts, i, turn) {
      FiresIff(facts, turn, trio, i);
      ContextIffConnected(facts[..i], GistAt(facts, i, turn));
    }
  }

  /** The event of the join: everything said up to the last of the three, with their values, the
      thread and image count named last, and the connection of the last turn start, or else of
      the thread. */
  ghost predicate JoinEvent(e: Event, facts: seq<Fact>, turn: TurnId, trio: Trio)
    requires Joinable(facts, turn, trio)
  {
    var before, g := facts[..Last(trio)], GistAt(facts, Last(trio), turn);
    && Complete(g) && JoinContext(before, g).Some? && e == TurnEventFor(turn, g, JoinContext(before, g).value)
    && e.settings == facts[trio.config].config.settings && e.profile == facts[trio.profile].profile
    && e.completed == Completion(facts[trio.completed])
    && var id := if g.connection.Some? then g.connection else HomeOf(before, e.thread);
    && id.Some? && ConnectionFor(before, id.value) == Some(e.context.connection)
  }

  lemma {:induction false} ContextConnection(facts: seq<Fact>, g: Gist)
    requires g.thread.Some? && JoinContext(facts, g).Some?
    ensures var id := if g.connection.Some? then g.connection else HomeOf(facts, g.thread.value);
            id.Some? && ConnectionFor(facts, id.value) == Some(JoinContext(facts, g).value.connection)
  {
    hide HomeOf, MetadataFor, ConnectionFor, OriginatorFor;
  }

  lemma {:induction false} JoinEvents(facts: seq<Fact>, turn: TurnId, trio: Trio)
    requires Joinable(facts, turn, trio)
    ensures EmittedAt(facts, Last(trio)) != [] && JoinEvent(EmittedAt(facts, Last(trio))[0], facts, turn, trio)
  {
    hide Run, Gather, FiresAt, EmittedAt, Count, JoinContext, Tally, AcceptedLinesFor, HomeOf, ConnectionFor;
    var m := Last(trio);
    JoinAtLastIff(facts, turn, trio, m);
    JoinExact(facts, turn, trio, m);
    ContextConnection(facts[..m], GistAt(facts, m, turn));
  }

  /** Join confluence: in every interleaving of the three facts with any others, exactly one turn
      event is emitted for the turn, by the last of the three, and it carries their values. */
  lemma {:induction false} JoinConfluence(facts: seq<Fact>, turn: TurnId, trio: Trio, i: nat)
    requires Joinable(facts, turn, trio) && i < |facts|
    ensures Count(Emitted(facts), IsTurnEvent(turn)) == 1
    ensures Count(EmittedAt(facts, i), IsTurnEvent(turn)) == One(i == Last(trio))
    ensures EmittedAt(facts, Last(trio)) != [] && JoinEvent(EmittedAt(facts, Last(trio))[0], facts, turn, trio)
  {
    hide Run, Gather, FiresAt, Emitted, EmittedAt, Count, JoinEvent, Connected, SlotsHold, JoinContext, Complete;
    hide TurnEventFor, AcceptedLinesFor;
    var m, n := Last(trio), |facts|;
    JoinEvents(facts, turn, trio);
    JoinAtLastIff(facts, turn, trio, m);
    JoinExact(facts, turn, trio, m);
    JoinExact(facts, turn, trio, i);
    AtMostOnce(facts, turn, trio, n);
    EmittedSnoc(facts, m, turn);
    EmittedGrows(facts, m + 1, n, turn);
    assert facts[..n] == facts;
  }

  // ---- When every fact names one thread ----

  /** What a fact says of the turn names `thread`, and a turn start it settles is on a known connection. */
  ghost predicate NamesThread(start: Option<RequestState>, f: Fact, turn: TurnId, thread: ThreadId,
                              history: seq<Fact>) {
    && (f.TurnResolvedConfig? && f.turn == turn ==> f.config.thread == thread)
    && ((f.TurnTokenUsage? || f.TurnDiffUpdated? || f.TurnCodexError?) && f.turn == turn ==> f.thread == thread)
    && (start.Some? && f.TurnStartResponse? && f.turn == turn ==>
          start.value.thread == thread && ConnectionFor(history, f.connection).Some?)
  }

  lemma {:induction false} OneThreadGathered(facts: seq<Fact>, n: nat, turn: TurnId, thread: ThreadId,
                                             history: seq<Fact>)
    requires n <= |facts|
    requires forall i :: 0 <= i < n ==> NamesThread(StartSettled(facts[..i], facts[i]), facts[i], turn, thread, history)
    ensures var g := Gather(facts[..n], turn);
            && (g.thread.Some? ==> g.thread.value == thread)
            && (g.connection.Some? ==> ConnectionFor(history, g.connection.value).Some?)
  {
    hide Gather, RequestFor, ConnectionFor;
    if n == 0 {
      assert facts[..0] == [] && Gather([], turn) == NOTHING by { GatherNone(turn); }
    } else {
      OneThreadGathered(facts, n - 1, turn, thread, history);
      GatherPrefix(facts, n - 1, turn);
      assert NamesThread(StartSettled(facts[..n - 1], facts[n - 1]), facts[n - 1], turn, thread, history);
    }
  }

  /** The join's condition holds when all facts up to the last of the three name one thread that has
      a connection by then, and every turn start is settled on a connection initialised by then. */
  lemma {:induction false} OneThreadJoins(facts: seq<Fact>, turn: TurnId, thread: ThreadId, trio: Trio)
    requires OneOfEach(facts, turn, trio)
    requires HomeOf(facts[..Last(trio)], thread).Some?
    requires forall i :: 0 <= i <= Last(trio) ==>
               NamesThread(StartSettled(facts[..i], facts[i]), facts[i], turn, thread,
                           facts[..Last(trio)])
    ensures Joinable(facts, turn, trio) && GistAt(facts, Last(trio), turn).thread == Some(thread)
  {
    hide Gather, StartSettled, NamesThread, HomeOf, HomeContext, MetadataFor, ConnectionFor;
    var m := Last(trio);
    OneThreadGathered(facts, m + 1, turn, thread, facts[..m]);
    HomeIsKnown(facts[..m], thread);
    SlotsGathered(facts, turn, trio, m + 1);
  }

  // ---- The image count ----

  /** The image count of the last turn start settled for the turn after position `c` and before `n`. */
  function StartImages(facts: seq<Fact>, turn: TurnId, c: nat, n: nat): Option<nat>
    requires n <= |facts|
  {
    if n <= c + 1 then None
    else
      var f, start := facts[n - 1], StartSettled(facts[..n - 1], facts[n - 1]);
      if start.Some? && f.turn == turn then Some(start.value.images) else StartImages(facts, turn, c, n - 1)
  }

  lemma {:induction false} ImagesGathered(facts: seq<Fact>, turn: TurnId, trio: Trio, n: nat)
    requires OneOfEach(facts, turn, trio) && trio.config < n <= |facts|
    ensures Gather(facts[..n], turn).images ==
            Or(StartImages(facts, turn, trio.config, n), Some(facts[trio.config].config.images))
  {
    hide Gather, RequestFor;
    GatherPrefix(facts, n - 1, turn);
    assert FillsSlot(turn, ConfigSlot)(facts[n - 1]) <==> n - 1 == trio.config;
    if trio.config < n - 1 { ImagesGathered(facts, turn, trio, n - 1); }
  }

  /** The event's image count is the one named last, so it is the config's if and only if no turn
      start was settled between the config and the event, or the last such named the same count. */
  lemma {:induction false} JoinImages(facts: seq<Fact>, turn: TurnId, trio: Trio)
    requires Joinable(facts, turn, trio)
    ensures var events, own := EmittedAt(facts, Last(trio)), facts[trio.config].config.images;
            var later := StartImages(facts, turn, trio.config, Last(trio) + 1);
            && events != [] && events[0].TurnEvent? && Some(events[0].images) == Or(later, Some(own))
            && (events[0].images == own <==> later.None? || later.value == own)
  {
    hide Run, Gather, StartImages, EmittedAt;
    JoinEvents(facts, turn, trio);
    ImagesGathered(facts, turn, trio, Last(trio) + 1);
  }

  /** Two interleavings of the same three facts agree on what the event says of them, except for the
      image count: there they agree if and only if the counts named last are the same. */
  lemma {:induction false} JoinOrder(a: seq<Fact>, b: seq<Fact>, turn: TurnId, p: Trio, q: Trio)
    requires Joinable(a, turn, p) && Joinable(b, turn, q)
    requires a[p.config] == b[q.config] && a[p.profile] == b[q.profile] && a[p.completed] == b[q.completed]
    ensures EmittedAt(a, Last(p)) != [] && EmittedAt(b, Last(q)) != []
    ensures var e, g := EmittedAt(a, Last(p))[0], EmittedAt(b, Last(q))[0];
            var own := Some(a[p.config].config.images);
            && e.TurnEvent? && g.TurnEvent? && e.turn == g.turn
            && e.settings == g.settings && e.profile == g.profile && e.completed == g.completed
            && (e.images == g.images <==> Or(StartImages(a, turn, p.config, Last(p) + 1), own)
                                          == Or(StartImages(b, turn, q.config, Last(q) + 1), own))
  {
    hide EmittedAt, Run, Gather, StartImages, Connected, Tally;
    JoinEvents(a, turn, p);
    JoinEvents(b, turn, q);
    JoinImages(a, turn, p);
    JoinImages(b, turn, q);
  }

  // ---- Examples ----

  function Opening(connection: ConnectionState, metadata: ThreadMetadata): seq<Fact> {
    [Initialize(0, connection), ThreadResponse(0, "thread", metadata, None)]
  }

  lemma {:induction false} OpeningConnects(connection: ConnectionState, metadata: ThreadMetadata, more: seq<Fact>)
    ensures var facts := Opening(connection, metadata) + more;
            ConnectionFor(facts, 0).Some? && HomeOf(facts, "thread").Some?
  {
    hide Run, HomeContext;
    var facts := Opening(connection, metadata);
    assert facts[..1] == [facts[0]] && [facts[0]][..0] == [];
    assert ConnectionFor(facts[..1], 0).Some? && ConnectionFor(facts, 0).Some?;
    assert HomeOf(facts, "thread") == Some(0);
    HomeKept(facts, more, "thread");
    HomeIsKnown(facts + more, "thread");
    ConnectionsAreHistory(facts, 0);
    ConnectionsAreHistory(facts + more, 0);
    ContextsNeverShrink(facts, more);
  }

  /** One config, profile and completion for "turn" in "thread", and a turn start for it. */
  ghost predicate ExampleFacts(request: Fact, response: Fact, config: Fact, profile: Fact, completed: Fact) {
    && request.TurnStartRequest? && request.thread == "thread"
    && response.TurnStartResponse? && response.turn == "turn"
    && request.connection == response.connection == 0 && request.request == response.request
    && config.TurnResolvedConfig? && config.turn == "turn" && config.config.thread == "thread"
    && profile.TurnProfile? && profile.turn == "turn" && completed.TurnCompleted? && completed.turn == "turn"
  }

  /** The turn start answered before the config, or after it. */
  function Ordered(start: seq<Fact>, request: Fact, first: Fact, second: Fact, profile: Fact, completed: Fact)
    : seq<Fact>
  {
    start + [request, first, second, profile, completed]
  }

  lemma {:induction false} ExampleRequest(start: seq<Fact>, request: Fact, between: seq<Fact>)
    requires request.TurnStartRequest? && forall i :: 0 <= i < |between| ==> !RpcFact(between[i])
    ensures RequestFor(start + [request] + between, request.connection, request.request) ==
            Some(PendingTurnStart(request.thread, request.images))
  {
    var facts := start + [request] + between;
    if between == [] {
      assert facts == start + [request] && facts[|facts| - 1] == request;
    } else {
      assert facts[..|facts| - 1] == start + [request] + between[..|between| - 1];
      assert facts[|facts| - 1] == between[|between| - 1];
      ExampleRequest(start, request, between[..|between| - 1]);
    }
  }

  lemma {:induction false} ExampleJoins(connection: ConnectionState, metadata: ThreadMetadata, request: Fact,
                                        response: Fact, config: Fact, profile: Fact, completed: Fact,
                                        answeredFirst: bool)
    requires ExampleFacts(request, response, config, profile, completed)
    ensures var start := Opening(connection, metadata);
            if answeredFirst
            then Joinable(Ordered(start, request, response, config, profile, completed), "turn", Trio(4, 5, 6))
            else Joinable(Ordered(start, request, config, response, profile, completed), "turn", Trio(3, 5, 6))
  {
    hide Run, Gather, RequestFor;
    var start := Opening(connection, metadata);
    var first, second := if answeredFirst then response else config, if answeredFirst then config else response;
    var facts := Ordered(start, request, first, second, profile, completed);
    var trio := if answeredFirst then Trio(4, 5, 6) else Trio(3, 5, 6);
    assert facts[..6] == start + [request, first, second, profile];
    OpeningConnects(connection, metadata, [request, first, second, profile]);
    assert OneOfEach(facts, "turn", trio);
    if answeredFirst {
      assert facts[..3] == start + [request] + [];
      ExampleRequest(start, request, []);
    } else {
      assert facts[..4] == start + [request] + [config];
      ExampleRequest(start, request, [config]);
    }
    OneThreadJoins(facts, "turn", "thread", trio);
  }

  /** The join's condition can be met, and the order matters for the image count: a turn start
      answered before the config leaves the config's count, one answered after it its own. */
  lemma {:induction false} ImagesDependOnOrder(connection: ConnectionState, metadata: ThreadMetadata, request: Fact,
                                               response: Fact, config: Fact, profile: Fact, completed: Fact)
    requires ExampleFacts(request, response, config, profile, completed)
    ensures var start := Opening(connection, metadata);
            var a := Ordered(start, request, response, config, profile, completed);
            var b := Ordered(start, request, config, response, profile, completed);
            && Joinable(a, "turn", Trio(4, 5, 6)) && Joinable(b, "turn", Trio(3, 5, 6))
            && EmittedAt(a, 6) != [] && EmittedAt(b, 6) != []
            && EmittedAt(a, 6)[0].TurnEvent? && EmittedAt(a, 6)[0].images == config.config.images
            && EmittedAt(b, 6)[0].TurnEvent? && EmittedAt(b, 6)[0].images == request.images
  {
    hide Run, Gather, RequestFor, EmittedAt, Connected;
    var start := Opening(connection, metadata);
    var a := Ordered(start, request, response, config, profile, completed);
    var b := Ordered(start, request, config, response, profile, completed);
    ExampleJoins(connection, metadata, request, response, config, profile, completed, true);
    ExampleJoins(connection, metadata, request, response, config, profile, completed, false);
    JoinImages(a, "turn", Trio(4, 5, 6));
    JoinImages(b, "turn", Trio(3, 5, 6));
    assert StartImages(a, "turn", 4, 7) == StartImages(a, "turn", 4, 6) == StartImages(a, "turn", 4, 5);
    assert b[..4] == start + [request] + [config];
    ExampleRequest(start, request, [config]);
    assert StartImages(b, "turn", 3, 7) == StartImages(b, "turn", 3, 6) == StartImages(b, "turn", 3, 5);
  }
}
