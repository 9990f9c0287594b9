/** What every run of the in-process worker guarantees, for every capacity, input
    sequence, consumer schedule and command sequence. */
module ForwardingTheorems {
  import opened Protocol
  import opened InProcessForwarding

  // ---- Gaps ----

  function OwedSum(slots: seq<Slot>): nat {
    if slots == [] then 0
    else OwedSum(slots[..|slots| - 1]) + (var last := slots[|slots| - 1]; if last.Marker? then last.owed else 0)
  }

  function ReportedSum(slots: seq<Slot>): nat {
    if slots == [] then 0
    else ReportedSum(slots[..|slots| - 1]) + (var last := slots[|slots| - 1]; if last.Marker? then last.skipped else 0)
  }

  predicate OnlyMarkers(slots: seq<Slot>) {
    forall k :: 0 <= k < |slots| ==> slots[k].Marker?
  }

  predicate CappedMarkers(slots: seq<Slot>) {
    forall k :: 0 <= k < |slots| && slots[k].Marker? ==> slots[k].skipped == Capped(slots[k].owed)
  }

  predicate NoMarkerSaturated(slots: seq<Slot>) {
    forall k :: 0 <= k < |slots| && slots[k].Marker? ==> slots[k].owed <= USIZE_MAX
  }

  /** Cutting the log just before a forwarded event leaves a log that accounts for
      exactly the inputs before that event, with nothing unreported. */
  lemma {:induction false} ExplainsUpTo(log: seq<Slot>, fates: seq<Fate>, tail: nat, q: nat)
    requires Explains(log, fates, tail) && q < |log| && log[q].Forwarded?
    ensures log[q].index < |fates| && fates[log[q].index] == Delivered
    ensures Explains(log[..q], fates[..log[q].index], 0)
    decreases |log|
  {
    var rest, last := log[..|log| - 1], log[|log| - 1];
    assert q < |rest| ==> rest[..q] == log[..q];
    match last
    case Forwarded(i, _) =>
      if q < |rest| {
        ExplainsUpTo(rest, fates[..i], 0, q);
        assert fates[..i][..log[q].index] == fates[..log[q].index];
      }
    case Marker(_, owed) => ExplainsUpTo(rest, fates, tail + owed, q);
  }

  /** The first input index after the one forwarded just before log position `k`. */
  function IndexAfter(log: seq<Slot>, k: nat): nat
    requires k <= |log| && (k > 0 ==> log[k - 1].Forwarded?)
  {
    if k == 0 then 0 else log[k - 1].index + 1
  }

  /** The markers from position `k` on stand for the drops since the event just before it. */
  lemma {:induction false} ExplainsLastGap(log: seq<Slot>, fates: seq<Fate>, tail: nat, k: nat)
    requires Explains(log, fates, tail) && k <= |log| && (k > 0 ==> log[k - 1].Forwarded?)
    requires OnlyMarkers(log[k..])
    ensures IndexAfter(log, k) <= |fates| && AllDropped(fates, IndexAfter(log, k), |fates|)
    ensures OwedSum(log[k..]) + tail == |fates| - IndexAfter(log, k)
    decreases |log|
  {
    if k < |log| {
      var rest, last := log[..|log| - 1], log[|log| - 1];
      assert last == log[k..][|log| - k - 1];
      assert log[k..][..|log| - k - 1] == rest[k..];
      ExplainsLastGap(rest, fates, tail + last.owed, k);
    }
  }

  lemma {:induction false} ReportedAtMostOwed(slots: seq<Slot>)
    requires CappedMarkers(slots)
    ensures ReportedSum(slots) <= OwedSum(slots)
    ensures ReportedSum(slots) == OwedSum(slots) <==> NoMarkerSaturated(slots)
  {
    if slots != [] {
      var rest, last := slots[..|slots| - 1], slots[|slots| - 1];
      ReportedAtMostOwed(rest);
      assert slots == rest + [last];
    }
  }

  /** Positions `k` up to `q` hold only markers, between two forwarded events or after the start. */
  ghost predicate IsGap(log: seq<Slot>, k: nat, q: nat) {
    && k <= q < |log| && log[q].Forwarded? && (k > 0 ==> log[k - 1].Forwarded?)
    && OnlyMarkers(log[k..q])
  }

  lemma DroppedInPrefix(fates: seq<Fate>, n: nat, from: nat)
    requires n <= |fates| && AllDropped(fates[..n], from, n)
    ensures AllDropped(fates, from, n)
  {
    forall i | from <= i < n ensures fates[i] == Dropped { assert fates[..n][i] == Dropped; }
  }

  lemma {:induction false} GapOwed(log: seq<Slot>, fates: seq<Fate>, tail: nat, k: nat, q: nat)
    requires Explains(log, fates, tail) && IsGap(log, k, q)
    ensures var first, last := IndexAfter(log, k), log[q].index;
            && first <= last < |fates| && fates[last] == Delivered
            && AllDropped(fates, first, last) && OwedSum(log[k..q]) == last - first
  {
    hide Explains, OwedSum, OnlyMarkers, AllDropped;
    ExplainsUpTo(log, fates, tail, q);
    var before := log[..q];
    assert before[k..] == log[k..q];
    assert IndexAfter(before, k) == IndexAfter(log, k);
    ExplainsLastGap(before, fates[..log[q].index], 0, k);
    DroppedInPrefix(fates, log[q].index, IndexAfter(log, k));
  }

  /** Gap exactness. Between two consecutively delivered inputs (or between the start,
      `k == 0`, and the first one) every input was dropped, and the worker-made markers
      there sum to exactly the number of those drops, if and only if none of them hit the
      counter's ceiling; otherwise they sum to less. */
  lemma {:induction false} GapExactness(capacity: nat, steps: seq<Step>, k: nat, q: nat)
    requires IsGap(Run(capacity, steps).log, k, q)
    ensures var s := Run(capacity, steps);
            var first, last, reported := IndexAfter(s.log, k), s.log[q].index, ReportedSum(s.log[k..q]);
            && first <= last < |s.fates| && s.fates[last] == Delivered && AllDropped(s.fates, first, last)
            && reported <= last - first
            && (reported == last - first <==> NoMarkerSaturated(s.log[k..q]))
  {
    hide Explains, OwedSum, ReportedSum, Settled, Run;
    Reachable(capacity, steps);
    var s := Run(capacity, steps);
    GapOwed(s.log, s.fates, s.owed, k, q);
    assert CappedMarkers(s.log);
    ReportedAtMostOwed(s.log[k..q]);
  }

  lemma {:induction false} ExplainsTotal(log: seq<Slot>, fates: seq<Fate>, tail: nat)
    requires Explains(log, fates, tail)
    ensures |fates| == |Indices(log)| + OwedSum(log) + tail
    ensures forall k :: 0 <= k < |log| && log[k].Marker? ==> log[k].owed <= |fates|
  {
    if log != [] {
      var rest, last := log[..|log| - 1], log[|log| - 1];
      match last
      case Forwarded(i, _) => ExplainsTotal(rest, fates[..i], 0);
      case Marker(_, owed) => ExplainsTotal(rest, fates, tail + owed);
      assert log == rest + [last];
    }
  }

  /** Conservation: delivered inputs, reported drops and the live counter add up to the
      settled inputs exactly while no count has been capped, which fewer than
      `usize::MAX` inputs guarantee. */
  lemma Conservation(capacity: nat, steps: seq<Step>)
    ensures var s := Run(capacity, steps);
            var accounted := |Indices(s.log)| + ReportedSum(s.log) + s.skipped;
            && accounted <= |s.fates| <= |s.inputs| <= |s.fates| + 1
            && (accounted == |s.fates| <==> NoMarkerSaturated(s.log) && s.owed <= USIZE_MAX)
            && (|s.inputs| <= USIZE_MAX ==> accounted == |s.fates|)
  {
    Reachable(capacity, steps);
    var s := Run(capacity, steps);
    ExplainsTotal(s.log, s.fates, s.owed);
    ReportedAtMostOwed(s.log);
  }

  // ---- Losslessness ----

  lemma {:induction false} MarkersAreNotLossless(log: seq<Slot>)
    ensures Lossless(WireAll(log)) == Lossless(ForwardedEvents(log))
  {
    if log != [] {
      var rest, last := log[..|log| - 1], log[|log| - 1];
      MarkersAreNotLossless(rest);
      assert log == rest + [last];
      WireAllSnoc(rest, last);
      LosslessSnoc(WireAll(rest), Wire(last));
      ForwardedEventsSnoc(rest, last);
      if last.Forwarded? { LosslessSnoc(ForwardedEvents(rest), last.event); }
    }
  }

  /** The inputs so far, without the one being forwarded right now. */
  function Arrived(s: State): seq<Event> {
    if InFlight(s) && s.inputs != [] then s.inputs[..|s.inputs| - 1] else s.inputs
  }

  /** While the receiver lives, what the consumer has read followed by what it can
      still read holds the must-deliver inputs in arrival order, none missing, none
      twice; only the event being forwarded right now may be outstanding. */
  lemma Losslessness(capacity: nat, steps: seq<Step>)
    ensures var s := Run(capacity, steps);
            && |s.queue| <= s.capacity
            && (!s.closed ==>
                  Lossless(WireAll(s.consumed + s.queue)) ==
                  Lossless(Arrived(s)))
  {
    hide Run, Explains, Lossless, WireAll, ForwardedEvents;
    Reachable(capacity, steps);
    var s := Run(capacity, steps);
    MarkersAreNotLossless(s.log);
    assert s.inputs[..|s.inputs|] == s.inputs;
  }

  /** A server request whose forwarding call returned Continue was enqueued once or
      rejected once, never both and never neither; nothing else is ever rejected. */
  lemma ServerRequestFate(capacity: nat, steps: seq<Step>, i: nat)
    requires i < |Run(capacity, steps).fates|
    ensures var s := Run(capacity, steps);
            var enqueued, rejected := multiset(Indices(s.log))[i], multiset(s.rejected)[i];
            && i < |s.inputs|
            && (s.inputs[i].ServerRequest? ==> enqueued + rejected == 1)
            && (!s.inputs[i].ServerRequest? ==> rejected == 0)
            && (Essential(s.inputs[i]) ==> enqueued == 1)
  {
    Reachable(capacity, steps);
    var s := Run(capacity, steps);
    if MustDeliver(s.inputs[i]) && s.fates[i] == Dropped {
      MustDeliverIsDelivered(capacity, steps, i);
    }
  }

  lemma {:induction false} MustDeliverStep(s: State, step: Step, i: nat)
    requires Shape(s)
    requires i < |s.fates| && MustDeliver(s.inputs[i]) ==> s.fates[i] == Delivered
    ensures var t := Next(s, step);
            i < |t.fates| && i < |t.inputs| && MustDeliver(t.inputs[i]) ==> t.fates[i] == Delivered
  {
  }

  lemma {:induction false} MustDeliverIsDelivered(capacity: nat, steps: seq<Step>, i: nat)
    ensures var s := Run(capacity, steps);
            i < |s.fates| && i < |s.inputs| && MustDeliver(s.inputs[i]) ==> s.fates[i] == Delivered
  {
    hide Next, Balanced, Settled;
    if steps != [] {
      var before := steps[..|steps| - 1];
      MustDeliverIsDelivered(capacity, before, i);
      Reachable(capacity, before);
      MustDeliverStep(Run(capacity, before), steps[|steps| - 1], i);
    }
  }

  function Receives(n: nat): seq<Step> {
    if n == 0 then [] else Receives(n - 1) + [Receive]
  }

  lemma {:induction false} Drain(capacity: nat, steps: seq<Step>, n: nat)
    requires var s := Run(capacity, steps); !s.closed && n <= |s.queue|
    ensures var s, t := Run(capacity, steps), Run(capacity, steps + Receives(n));
            t == s.(queue := s.queue[n..], consumed := s.consumed + s.queue[..n])
  {
    hide Run;
    var s := Run(capacity, steps);
    if n == 0 {
      assert steps + Receives(0) == steps && s.consumed + s.queue[..0] == s.consumed;
    } else {
      Drain(capacity, steps, n - 1);
      RunSnoc(capacity, steps + Receives(n - 1), Receive);
      assert steps + Receives(n) == steps + Receives(n - 1) + [Receive];
      assert s.queue[..n] == s.queue[..n - 1] + [s.queue[n - 1]];
    }
  }

  /** A consumer that reads on until the queue is empty has read the must-deliver inputs, all of
      them and in order. */
  lemma {:induction false} ReaderMissesNothing(capacity: nat, steps: seq<Step>)
    requires !Run(capacity, steps).closed
    ensures var s := Run(capacity, steps);
            var t := Run(capacity, steps + Receives(|s.queue|));
            t.queue == [] && Lossless(WireAll(t.consumed)) == Lossless(Arrived(s))
  {
    hide Run, Lossless, WireAll;
    var s := Run(capacity, steps);
    Drain(capacity, steps, |s.queue|);
    Losslessness(capacity, steps);
    assert s.queue[..|s.queue|] == s.queue;
  }

  /** A forwarding call takes at most two channel operations: every one that can happen either puts
      the marker before the event, or ends the call, with a fate for the event unless the receiver
      is gone; and only a must-deliver event on a full queue waits. */
  lemma {:induction false} CallAdvances(s: State)
    requires InFlight(s) && !s.exited
    ensures Enabled(s, Work) <==> s.closed || !Full(s) || !Essential(s.phase.event)
    ensures Enabled(s, Work) ==>
              var t, event := Next(s, Work), s.phase.event;
              if s.closed then t == s.(phase := Disabled)
              else if Full(s) then t.phase.Idle? && t.fates == s.fates + [Dropped] && t.queue == s.queue
              else if s.phase.Flushing? then
                t.phase == Pushing(event) && t.fates == s.fates && t.skipped == 0
                && WireAll(t.queue) == WireAll(s.queue) + [Lagged(s.skipped)]
              else
                t.phase.Idle? && t.fates == s.fates + [Delivered] && WireAll(t.queue) == WireAll(s.queue) + [event]
  {
    if Enabled(s, Work) && !s.closed && !Full(s) {
      var slot := if s.phase.Flushing? then Marker(s.skipped, s.owed) else Forwarded(|s.fates|, s.phase.event);
      WireAllSnoc(s.queue, slot);
    }
  }

  // ---- Shutdown ----

  /** Commands up to and including the first `Shutdown`. */
  function UntilShutdown(commands: seq<Command>): nat
    requires Shutdown in commands
  {
    if commands[0].Shutdown? then 1 else 1 + UntilShutdown(commands[1..])
  }

  predicate ShuttingDown(s: State) {
    s.closed && !s.exited && Shutdown in s.commands
  }

  /** How many more moves the worker can make once the receiver is gone and `Shutdown` is queued. */
  function Rank(s: State): nat
    requires ShuttingDown(s)
  {
    UntilShutdown(s.commands) + (if s.phase.Idle? then 2 else if InFlight(s) then 1 else 0)
  }

  lemma {:induction false} UntilShutdownSnoc(commands: seq<Command>, command: Command)
    requires Shutdown in commands
    ensures UntilShutdown(commands + [command]) == UntilShutdown(commands)
  {
    if !commands[0].Shutdown? {
      assert (commands + [command])[1..] == commands[1..] + [command];
      UntilShutdownSnoc(commands[1..], command);
    }
  }

  lemma RankStep(s: State, step: Step)
    requires ShuttingDown(s)
    ensures var t := Next(s, step);
            && (t.exited || ShuttingDown(t))
            && (ShuttingDown(t) ==> Rank(t) + (if WorkerStep(step) && Enabled(s, step) then 1 else 0) <= Rank(s))
  {
    if step.Submit? { UntilShutdownSnoc(s.commands, step.command); }
  }

  function After(s: State, steps: seq<Step>): State
    decreases steps
  {
    if steps == [] then s else After(Next(s, steps[0]), steps[1..])
  }

  /** Worker moves that actually happen along `steps`. */
  function Moves(s: State, steps: seq<Step>): nat
    decreases steps
  {
    if steps == [] then 0
    else (if WorkerStep(steps[0]) && Enabled(s, steps[0]) then 1 else 0) + Moves(Next(s, steps[0]), steps[1..])
  }

  lemma {:induction false} ExitedStays(s: State, steps: seq<Step>)
    requires s.exited
    ensures After(s, steps).exited && Moves(s, steps) == 0
    decreases steps
  {
    if steps != [] { ExitedStays(Next(s, steps[0]), steps[1..]); }
  }

  /** Shutdown progress: with the receiver dropped and `Shutdown` queued, the worker makes
      at most (commands up to it) + 2 more moves whatever else happens, and until it has
      exited it can always move, even if it was blocked on a must-deliver send. */
  lemma {:induction false} ShutdownProgress(s: State, steps: seq<Step>)
    requires ShuttingDown(s)
    ensures var t := After(s, steps);
            && Moves(s, steps) <= Rank(s) <= UntilShutdown(s.commands) + 2
            && (t.exited || (ShuttingDown(t) && Moves(s, steps) + Rank(t) <= Rank(s)
                             && (Enabled(t, TakeCommand) || Enabled(t, Work))))
    decreases steps
  {
    if steps != [] {
      var t := Next(s, steps[0]);
      RankStep(s, steps[0]);
      if t.exited { ExitedStays(t, steps[1..]); } else { ShutdownProgress(t, steps[1..]); }
    }
  }

  // ---- Commands and the end of the loop ----

  predicate HungUp(steps: seq<Step>) {
    steps != [] && (steps[|steps| - 1].HangUp? || HungUp(steps[..|steps| - 1]))
  }

  /** The commands sent while there were senders and a worker, in order. */
  function Submitted(capacity: nat, steps: seq<Step>): seq<Command> {
    if steps == [] then []
    else
      var before, last := steps[..|steps| - 1], steps[|steps| - 1];
      if last.Submit? && !HungUp(before) && !Run(capacity, before).exited
      then Submitted(capacity, before) + [last.command] else Submitted(capacity, before)
  }

  /** The command branch of the loop fires: between two forwarding calls of a running worker. */
  predicate Selects(s: State, step: Step) {
    step.TakeCommand? && !s.exited && !InFlight(s)
  }

  /** The commands the worker took, in order. */
  function Handled(capacity: nat, steps: seq<Step>): seq<Command> {
    if steps == [] then []
    else
      var before, last := steps[..|steps| - 1], steps[|steps| - 1];
      var s := Run(capacity, before);
      if Selects(s, last) && s.commands != [] then Handled(capacity, before) + [s.commands[0]]
      else Handled(capacity, before)
  }

  /** The three ways out of the loop: a `Shutdown` taken, no command left and no sender, and the end
      of the event stream. */
  predicate Breaks(s: State, step: Step) {
    || (Selects(s, step) && s.commands != [] && s.commands[0] == Shutdown)
    || (Selects(s, step) && s.commands == [] && s.sendersGone)
    || (step.StreamEnds? && !s.exited && s.phase.Idle?)
  }

  /** One of the steps broke out of the loop. */
  predicate Broken(capacity: nat, steps: seq<Step>) {
    steps != [] &&
    var before := steps[..|steps| - 1];
    Broken(capacity, before) || Breaks(Run(capacity, before), steps[|steps| - 1])
  }

  lemma {:induction false} CommandStep(s: State, step: Step)
    ensures var t := Next(s, step);
            && (t.exited <==> s.exited || Breaks(s, step))
            && (t.sendersGone <==> s.sendersGone || step.HangUp?)
            && (s.exited && !InFlight(s) ==> !InFlight(t))
            && (Breaks(s, step) ==> !InFlight(t))
            && t.commands == (if step.Submit? && !s.sendersGone && !s.exited then s.commands + [step.command]
                              else if Selects(s, step) && s.commands != [] then s.commands[1..]
                              else s.commands)
  {
  }

  /** Over every run: the commands taken followed by those still queued are the commands sent, in
      order; nothing is taken after a `Shutdown`; and the worker has exited if and only if a step
      broke out of the loop, which is never in the middle of a forwarding call. */
  ghost predicate CommandsInOrder(capacity: nat, steps: seq<Step>) {
    var s, handled := Run(capacity, steps), Handled(capacity, steps);
    && handled + s.commands == Submitted(capacity, steps)
    && s.sendersGone == HungUp(steps)
    && (s.exited <==> Broken(capacity, steps))
    && (s.exited ==> !InFlight(s))
    && (s.exited ==> (handled != [] && handled[|handled| - 1] == Shutdown)
                     || (HungUp(steps) && handled == Submitted(capacity, steps)) || StreamEnds in steps)
    && (forall i :: 0 <= i < |handled| && handled[i] == Shutdown ==> s.exited && i == |handled| - 1)
  }

  lemma {:induction false} WorkerExit(capacity: nat, steps: seq<Step>)
    ensures CommandsInOrder(capacity, steps)
  {
    hide Next;
    if steps != [] {
      var before, last := steps[..|steps| - 1], steps[|steps| - 1];
      WorkerExit(capacity, before);
      CommandStep(Run(capacity, before), last);
      assert forall step :: step in before ==> step in steps;
    }
  }

  lemma {:induction false} SubmittedBySteps(capacity: nat, steps: seq<Step>)
    requires Shutdown in Submitted(capacity, steps)
    ensures Submit(Shutdown) in steps
  {
    hide Run;
    if steps != [] {
      var before := steps[..|steps| - 1];
      if Shutdown in Submitted(capacity, before) { SubmittedBySteps(capacity, before); }
      assert forall step :: step in before ==> step in steps;
    }
  }

  lemma {:induction false} HungUpBySteps(steps: seq<Step>)
    requires HungUp(steps)
    ensures HangUp in steps
  {
    if !steps[|steps| - 1].HangUp? {
      HungUpBySteps(steps[..|steps| - 1]);
      assert forall step :: step in steps[..|steps| - 1] ==> step in steps;
    }
  }

  /** The worker keeps running, whatever other commands it takes and events it forwards or drops,
      until it is told to shut down, loses every sender, or the stream ends. */
  lemma {:induction false} KeepsRunning(capacity: nat, steps: seq<Step>)
    requires Submit(Shutdown) !in steps && HangUp !in steps && StreamEnds !in steps
    ensures !Run(capacity, steps).exited
  {
    hide Run;
    WorkerExit(capacity, steps);
    if HungUp(steps) { HungUpBySteps(steps); }
    var handled := Handled(capacity, steps);
    if handled != [] && handled[|handled| - 1] == Shutdown {
      assert Submitted(capacity, steps)[|handled| - 1] == Shutdown;
      SubmittedBySteps(capacity, steps);
    }
  }
}
