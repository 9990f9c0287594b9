/** Forwarding of server events to a bounded consumer queue, as one worker loop
    interleaved with an arbitrary consumer and arbitrary command senders.

    The worker is a step system. A forwarding call is split at each channel
    operation, so that the consumer may run between the lag marker and the event.
    Fields below the line in `State` are history: the code does not have them. */
module InProcessForwarding {
  import opened Protocol

  datatype NotificationKind =
    | TurnCompleted | ThreadSettingsUpdated | ItemCompleted | ExternalAgentConfigImportCompleted
    | AgentMessageDelta | PlanDelta | ReasoningSummaryTextDelta | ReasoningTextDelta
    | BestEffort(tag: string)

  datatype Event =
    | Lagged(skipped: nat)
    | ServerNotification(kind: NotificationKind, body: string)
    | ServerRequest(id: RequestId)

  predicate MustDeliver(event: Event) {
    event.ServerNotification? && !event.kind.BestEffort?
  }

  /** A queue entry. The consumer cannot tell a worker-made marker from a `Lagged`
      input; the history can. `owed` is the true number of drops a marker stands for. */
  datatype Slot = Forwarded(index: nat, event: Event) | Marker(skipped: nat, owed: nat)

  function Wire(slot: Slot): Event {
    match slot
    case Forwarded(_, event) => event
    case Marker(skipped, _) => Lagged(skipped)
  }

  datatype Phase = Idle | Flushing(event: Event) | Pushing(event: Event) | Disabled
  datatype Command = Shutdown | OtherCommand
  datatype Fate = Delivered | Dropped

  datatype State = State(
    capacity: nat,
    queue: seq<Slot>,
    closed: bool,
    skipped: nat,
    phase: Phase,
    commands: seq<Command>,
    sendersGone: bool,
    exited: bool,
    // ---- history ----
    inputs: seq<Event>,
    fates: seq<Fate>,       // one per forwarding call that returned Continue
    log: seq<Slot>,         // everything ever enqueued
    consumed: seq<Slot>,
    rejected: seq<nat>,     // input indices of rejected server requests
    owed: nat)              // drops since the last marker

  datatype Step =
    | Arrive(event: Event)      // the event branch of select! fires
    | Work                      // the next channel operation of the forwarding call
    | Receive | DropReceiver    // the consumer
    | Submit(command: Command) | HangUp
    | TakeCommand               // the command branch of select! fires
    | StreamEnds

  /** The channel is created with capacity at least one. */
  function Init(capacity: nat): State {
    State(if capacity == 0 then 1 else capacity, [], false, 0, Idle, [], false, false, [], [], [], [], [], 0)
  }

  predicate InFlight(s: State) {
    s.phase.Flushing? || s.phase.Pushing?
  }

  predicate Full(s: State) {
    |s.queue| >= s.capacity
  }

  predicate Enabled(s: State, step: Step) {
    match step
    case Arrive(_) => !s.exited && s.phase.Idle?
    case Work => !s.exited && InFlight(s) && (MustDeliver(s.phase.event) ==> s.closed || !Full(s))
    case Receive => !s.closed && s.queue != []
    case DropReceiver => !s.closed
    case Submit(_) => !s.exited && !s.sendersGone
    case HangUp => !s.sendersGone
    case TakeCommand => !s.exited && !InFlight(s) && (s.commands != [] || s.sendersGone)
    case StreamEnds => !s.exited && s.phase.Idle?
  }

  predicate WorkerStep(step: Step) {
    step.Arrive? || step.Work? || step.TakeCommand? || step.StreamEnds?
  }

  function SaturatingIncrement(n: nat): nat {
    if n < USIZE_MAX then n + 1 else n
  }

  function Enqueue(s: State, slot: Slot): State {
    s.(queue := s.queue + [slot], log := s.log + [slot])
  }

  function Drop(s: State, event: Event): State {
    s.(skipped := SaturatingIncrement(s.skipped),
       owed := s.owed + 1,
       rejected := if event.ServerRequest? then s.rejected + [|s.fates|] else s.rejected,
       fates := s.fates + [Dropped],
       phase := Idle)
  }

  function ChannelOperation(s: State): State
    requires InFlight(s)
  {
    var event := s.phase.event;
    if s.closed then s.(phase := Disabled)
    else if Full(s) then Drop(s, event)
    else if s.phase.Flushing? then
      Enqueue(s, Marker(s.skipped, s.owed)).(skipped := 0, owed := 0, phase := Pushing(event))
    else
      Enqueue(s, Forwarded(|s.fates|, event)).(fates := s.fates + [Delivered], phase := Idle)
  }

  /** A step that is not enabled leaves the state alone, so every step list is a run. */
  function Next(s: State, step: Step): State {
    if !Enabled(s, step) then s else
      match step
      case Arrive(event) =>
        s.(inputs := s.inputs + [event], phase := if s.skipped > 0 then Flushing(event) else Pushing(event))
      case Work => ChannelOperation(s)
      case Receive => s.(queue := s.queue[1..], consumed := s.consumed + [s.queue[0]])
      case DropReceiver => s.(closed := true, queue := [])
      case Submit(command) => s.(commands := s.commands + [command])
      case HangUp => s.(sendersGone := true)
      case TakeCommand =>
        if s.commands == [] then s.(exited := true)
        else s.(exited := s.commands[0].Shutdown?, commands := s.commands[1..])
      case StreamEnds => s.(exited := true)
  }

  function Run(capacity: nat, steps: seq<Step>): State {
    if steps == [] then Init(capacity)
    else Next(Run(capacity, steps[..|steps| - 1]), steps[|steps| - 1])
  }

  lemma RunSnoc(capacity: nat, steps: seq<Step>, step: Step)
    ensures Run(capacity, steps + [step]) == Next(Run(capacity, steps), step)
  {
    assert (steps + [step])[..|steps|] == steps;
  }

  // ---- What the history must say ----

  /** Inputs `from` up to `to` were all dropped. */
  predicate AllDropped(fates: seq<Fate>, from: nat, to: nat) {
    to <= |fates| && forall i :: from <= i < to ==> fates[i] == Dropped
  }

  /** `log` accounts for `fates`: read from the end, each forwarded event is a
      delivery, and the markers around it (plus `tail` drops not yet reported)
      stand for exactly the drops on either side of it. */
  predicate Explains(log: seq<Slot>, fates: seq<Fate>, tail: nat) {
    if log == [] then |fates| == tail && AllDropped(fates, 0, |fates|)
    else
      var rest, last := log[..|log| - 1], log[|log| - 1];
      match last
      case Forwarded(i, _) =>
        && i + 1 + tail == |fates|
        && fates[i] == Delivered && AllDropped(fates, i + 1, |fates|)
        && Explains(rest, fates[..i], 0)
      case Marker(_, owed) => Explains(rest, fates, tail + owed)
  }

  lemma {:induction false} ExplainsDrop(log: seq<Slot>, fates: seq<Fate>, tail: nat)
    requires Explains(log, fates, tail)
    ensures Explains(log, fates + [Dropped], tail + 1)
  {
    if log != [] {
      var last := log[|log| - 1];
      var more := fates + [Dropped];
      match last
      case Forwarded(i, _) =>
        assert more[..i] == fates[..i];
      case Marker(_, owed) => ExplainsDrop(log[..|log| - 1], fates, tail + owed);
    }
  }

  lemma ExplainsDelivery(log: seq<Slot>, fates: seq<Fate>, event: Event)
    requires Explains(log, fates, 0)
    ensures Explains(log + [Forwarded(|fates|, event)], fates + [Delivered], 0)
  {
    var more := log + [Forwarded(|fates|, event)];
    assert more[..|more| - 1] == log;
    assert (fates + [Delivered])[..|fates|] == fates;
  }

  lemma ExplainsMarker(log: seq<Slot>, fates: seq<Fate>, skipped: nat, owed: nat)
    requires Explains(log, fates, owed)
    ensures Explains(log + [Marker(skipped, owed)], fates, 0)
  {
    var more := log + [Marker(skipped, owed)];
    assert more[..|more| - 1] == log;
  }

  /** Completions, changed settings and text deltas are the events that must not be lost. */
  predicate Essential(event: Event) {
    event.ServerNotification? &&
    match event.kind
    case TurnCompleted => true
    case ThreadSettingsUpdated => true
    case ItemCompleted => true
    case ExternalAgentConfigImportCompleted => true
    case AgentMessageDelta => true
    case PlanDelta => true
    case ReasoningSummaryTextDelta => true
    case ReasoningTextDelta => true
    case BestEffort(_) => false
  }

  /** The essential events of a list of events, in order. */
  function Lossless(events: seq<Event>): seq<Event> {
    if events == [] then []
    else
      var rest, last := Lossless(events[..|events| - 1]), events[|events| - 1];
      if Essential(last) then rest + [last] else rest
  }

  lemma LosslessSnoc(events: seq<Event>, event: Event)
    ensures Lossless(events + [event]) == Lossless(events) + (if Essential(event) then [event] else [])
  {
    assert (events + [event])[..|events|] == events;
  }

  /** What the consumer sees. */
  function WireAll(slots: seq<Slot>): (events: seq<Event>)
    ensures |events| == |slots|
    ensures forall i :: 0 <= i < |slots| ==> events[i] == Wire(slots[i])
  {
    seq(|slots|, i requires 0 <= i < |slots| => Wire(slots[i]))
  }

  lemma WireAllSnoc(slots: seq<Slot>, slot: Slot)
    ensures WireAll(slots + [slot]) == WireAll(slots) + [Wire(slot)]
  {
  }

  function Indices(log: seq<Slot>): seq<nat> {
    if log == [] then []
    else
      var rest, last := Indices(log[..|log| - 1]), log[|log| - 1];
      if last.Forwarded? then rest + [last.index] else rest
  }

  lemma IndicesSnoc(log: seq<Slot>, slot: Slot)
    ensures Indices(log + [slot]) == Indices(log) + (if slot.Forwarded? then [slot.index] else [])
  {
    assert (log + [slot])[..|log|] == log;
  }

  function Capped(n: nat): nat {
    if n <= USIZE_MAX then n else USIZE_MAX
  }

  /** Markers and the counter report the true number of drops, capped at `usize::MAX`. */
  predicate Balanced(log: seq<Slot>, fates: seq<Fate>, skipped: nat, owed: nat) {
    && Explains(log, fates, owed)
    && skipped == Capped(owed)
    && forall p :: 0 <= p < |log| && log[p].Marker? ==> 0 < log[p].skipped == Capped(log[p].owed)
  }

  predicate Shape(s: State) {
    && |s.queue| <= s.capacity
    && (!s.closed ==> s.consumed + s.queue == s.log)
    && (s.closed ==> s.queue == [])
    && |s.inputs| == |s.fates| + (if s.phase.Idle? then 0 else 1)
    && (InFlight(s) ==> s.inputs[|s.fates|] == s.phase.event)
    && (s.phase.Pushing? ==> s.skipped == 0)
    && (s.phase.Flushing? ==> s.skipped > 0)
    && (s.phase.Disabled? ==> s.closed)
  }

  predicate WasDelivered(fates: seq<Fate>, i: nat) { i < |fates| && fates[i] == Delivered }
  predicate WasRejected(settled: seq<Event>, fates: seq<Fate>, i: nat) {
    i < |fates| && i < |settled| && fates[i] == Dropped && settled[i].ServerRequest?
  }

  /** Where each settled input went: into the log once, to a rejection once, or neither. */
  ghost predicate Settled(settled: seq<Event>, fates: seq<Fate>, log: seq<Slot>, rejected: seq<nat>) {
    && |settled| == |fates|
    && (forall p :: 0 <= p < |log| && log[p].Forwarded? ==>
          log[p].index < |settled| && log[p].event == settled[log[p].index])
    && Lossless(ForwardedEvents(log)) == Lossless(settled)
    && (forall i: nat :: multiset(Indices(log))[i] == if WasDelivered(fates, i) then 1 else 0)
    && (forall i: nat :: multiset(rejected)[i] == if WasRejected(settled, fates, i) then 1 else 0)
  }

  /** The inputs in `log`, markers left out. */
  function ForwardedEvents(log: seq<Slot>): seq<Event> {
    if log == [] then []
    else
      var rest, last := ForwardedEvents(log[..|log| - 1]), log[|log| - 1];
      if last.Forwarded? then rest + [last.event] else rest
  }

  lemma ForwardedEventsSnoc(log: seq<Slot>, slot: Slot)
    ensures ForwardedEvents(log + [slot]) == ForwardedEvents(log) + (if slot.Forwarded? then [slot.event] else [])
  {
    assert (log + [slot])[..|log|] == log;
  }

  lemma ShapeStep(s: State, step: Step)
    requires Shape(s)
    ensures Shape(Next(s, step))
  {
  }

  lemma {:induction false} BalancedWork(s: State)
    requires Shape(s) && InFlight(s) && Balanced(s.log, s.fates, s.skipped, s.owed)
    ensures var t := ChannelOperation(s); Balanced(t.log, t.fates, t.skipped, t.owed)
  {
    hide Explains;
    var t := ChannelOperation(s);
    assert Explains(t.log, t.fates, t.owed) by {
      if s.closed {
      } else if Full(s) {
        ExplainsDrop(s.log, s.fates, s.owed);
      } else if s.phase.Flushing? {
        ExplainsMarker(s.log, s.fates, s.skipped, s.owed);
      } else {
        ExplainsDelivery(s.log, s.fates, s.phase.event);
      }
    }
  }

  lemma {:induction false} SettledDrop(settled: seq<Event>, fates: seq<Fate>, log: seq<Slot>, rejected: seq<nat>,
                                       event: Event)
    requires Settled(settled, fates, log, rejected) && !MustDeliver(event)
    ensures Settled(settled + [event], fates + [Dropped], log,
                    if event.ServerRequest? then rejected + [|fates|] else rejected)
  {
    hide Lossless, ForwardedEvents, Indices;
    LosslessSnoc(settled, event);
    assert multiset(rejected)[|fates|] == 0;
  }

  lemma {:induction false} SettledDelivery(settled: seq<Event>, fates: seq<Fate>, log: seq<Slot>, rejected: seq<nat>,
                                           event: Event)
    requires Settled(settled, fates, log, rejected)
    ensures Settled(settled + [event], fates + [Delivered], log + [Forwarded(|fates|, event)], rejected)
  {
    hide Lossless, ForwardedEvents, Indices;
    var slot := Forwarded(|fates|, event);
    LosslessSnoc(settled, event);
    IndicesSnoc(log, slot);
    ForwardedEventsSnoc(log, slot);
    LosslessSnoc(ForwardedEvents(log), event);
    assert multiset(Indices(log))[|fates|] == 0;
  }

  lemma {:induction false} SettledWork(s: State)
    requires Shape(s) && Enabled(s, Work) && Settled(s.inputs[..|s.fates|], s.fates, s.log, s.rejected)
    ensures var t := ChannelOperation(s);
            |t.fates| <= |t.inputs| && Settled(t.inputs[..|t.fates|], t.fates, t.log, t.rejected)
  {
    var n := |s.fates|;
    var settled, event := s.inputs[..n], s.phase.event;
    assert s.inputs[..n + 1] == settled + [event];
    if s.closed {
    } else if Full(s) {
      SettledDrop(settled, s.fates, s.log, s.rejected, event);
    } else if s.phase.Flushing? {
      IndicesSnoc(s.log, Marker(s.skipped, s.owed));
      ForwardedEventsSnoc(s.log, Marker(s.skipped, s.owed));
    } else {
      SettledDelivery(settled, s.fates, s.log, s.rejected, event);
    }
  }

  ghost predicate Invariant(s: State) {
    && Shape(s)
    && Balanced(s.log, s.fates, s.skipped, s.owed)
    && Settled(s.inputs[..|s.fates|], s.fates, s.log, s.rejected)
  }

  lemma {:induction false} InvariantStep(s: State, step: Step)
    requires Invariant(s)
    ensures Invariant(Next(s, step))
  {
    hide Balanced, Settled, ChannelOperation;
    ShapeStep(s, step);
    var t := Next(s, step);
    if Enabled(s, step) && step.Work? {
      BalancedWork(s);
      SettledWork(s);
    } else {
      assert t.log == s.log && t.fates == s.fates && t.rejected == s.rejected;
      assert t.inputs[..|t.fates|] == s.inputs[..|s.fates|];
    }
  }

  lemma {:induction false} Reachable(capacity: nat, steps: seq<Step>)
    ensures Invariant(Run(capacity, steps))
  {
    if steps != [] {
      Reachable(capacity, steps[..|steps| - 1]);
      InvariantStep(Run(capacity, steps[..|steps| - 1]), steps[|steps| - 1]);
    }
  }
}
