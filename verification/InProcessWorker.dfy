/** The forwarding call as the program writes it: a counter updated through a mutable
    reference and sends on a bounded channel. The consumer's future is an explicit
    schedule, any part of which may run before each channel operation. Every method
    is a run of the step system, so the theorems about runs hold of it. */
module InProcessWorker {
  import opened Protocol
  import opened InProcessForwarding
  import opened ForwardingTheorems

  datatype ConsumerAction = Take | Leave

  /** `StillBlocked`: the schedule ended while a must-deliver send was waiting for room. */
  datatype ForwardEventResult = Continue | DisableStream | StillBlocked

  datatype SendOutcome = Sent | QueueFull | ReceiverGone | Waiting

  function RequestOf(inputs: seq<Event>, i: nat): seq<RequestId> {
    if i < |inputs| && inputs[i].ServerRequest? then [inputs[i].id] else []
  }

  /** The ids passed to the reject callback, in order. */
  function RejectedIds(inputs: seq<Event>, rejected: seq<nat>): seq<RequestId> {
    if rejected == [] then []
    else RejectedIds(inputs, rejected[..|rejected| - 1]) + RequestOf(inputs, rejected[|rejected| - 1])
  }

  lemma {:induction false} RejectedIdsGrow(inputs: seq<Event>, event: Event, rejected: seq<nat>)
    requires forall k :: 0 <= k < |rejected| ==> rejected[k] < |inputs|
    ensures RejectedIds(inputs + [event], rejected) == RejectedIds(inputs, rejected)
  {
    if rejected != [] { RejectedIdsGrow(inputs, event, rejected[..|rejected| - 1]); }
  }

  /** The worker's own variables are what the step system says they are. */
  ghost predicate Agrees(queue: seq<Event>, closed: bool, skipped: nat, rejected: seq<RequestId>, s: State) {
    && queue == WireAll(s.queue) && closed == s.closed && skipped == s.skipped && !s.exited
    && rejected == RejectedIds(s.inputs, s.rejected)
  }

  lemma SameVariables(queue: seq<Event>, closed: bool, skipped: nat, rejected: seq<RequestId>, s: State)
    requires Agrees(queue, closed, skipped, rejected, s)
    ensures |queue| == |s.queue| && closed == s.closed && skipped == s.skipped
  {
  }

  /** Sent: the marker empties the counter, the event leaves it alone. */
  lemma {:induction false} AgreesSent(queue: seq<Event>, skipped: nat, rejected: seq<RequestId>, s: State)
    requires Agrees(queue, false, skipped, rejected, s) && InFlight(s) && !Full(s)
    ensures var marker := s.phase.Flushing?;
            Agrees(queue + [if marker then Lagged(skipped) else s.phase.event], false,
                   if marker then 0 else skipped, rejected, ChannelOperation(s))
  {
    hide RejectedIds;
    WireAllSnoc(s.queue, if s.phase.Flushing? then Marker(s.skipped, s.owed) else Forwarded(|s.fates|, s.phase.event));
  }

  /** Full: the counter saturates, and a server request is rejected. */
  lemma {:induction false} AgreesFull(queue: seq<Event>, skipped: nat, rejected: seq<RequestId>, s: State)
    requires Agrees(queue, false, skipped, rejected, s) && InFlight(s) && Full(s)
    requires |s.fates| < |s.inputs| && s.inputs[|s.fates|] == s.phase.event
    ensures var event := s.phase.event;
            Agrees(queue, false, SaturatingIncrement(skipped),
                   if event.ServerRequest? then rejected + [event.id] else rejected, ChannelOperation(s))
  {
    hide WireAll;
    assert (s.rejected + [|s.fates|])[..|s.rejected|] == s.rejected;
  }

  lemma {:induction false} AgreesClosed(queue: seq<Event>, skipped: nat, rejected: seq<RequestId>, s: State)
    requires Agrees(queue, true, skipped, rejected, s) && InFlight(s)
    ensures Agrees(queue, true, skipped, rejected, ChannelOperation(s))
  {
    hide WireAll, RejectedIds;
  }

  class EventForwarder {
    const capacity: nat
    var queue: seq<Event>
    var closed: bool
    var skippedEvents: nat
    var rejectedRequests: seq<RequestId>
    var schedule: seq<ConsumerAction>
    ghost var trace: seq<Step>

    ghost var model: State

    ghost predicate Valid()
      reads this
    {
      && model == Run(capacity, trace)
      && Agrees(queue, closed, skippedEvents, rejectedRequests, model)
    }

    constructor (channelCapacity: nat, consumer: seq<ConsumerAction>)
      ensures Valid() && trace == [] && schedule == consumer
    {
      capacity := channelCapacity;
      queue, closed, skippedEvents, rejectedRequests, schedule, trace := [], false, 0, [], consumer, [];
      model := Init(channelCapacity);
    }

    /** One consumer action; an action that cannot happen now is skipped. */
    method RunConsumer()
      requires Valid() && schedule != []
      modifies this`queue, this`closed, this`schedule, this`trace, this`model
      ensures Valid() && schedule == old(schedule)[1..]
      ensures trace == old(trace) + [if old(schedule)[0].Take? then Receive else DropReceiver]
      ensures model == Next(old(model), trace[|trace| - 1])
      ensures model.phase == old(model.phase)
    {
      ghost var step := if schedule[0].Take? then Receive else DropReceiver;
      RunSnoc(capacity, trace, step);
      if schedule[0].Take? {
        if !closed && queue != [] { queue := queue[1..]; }
      } else if !closed {
        closed, queue := true, [];
      }
      schedule, trace, model := schedule[1..], trace + [step], Next(model, step);
    }

    /** Some consumer actions happen before the next channel operation. */
    method Interleave()
      requires Valid()
      modifies this`queue, this`closed, this`schedule, this`trace, this`model
      ensures Valid() && old(trace) <= trace && model.phase == old(model.phase)
      ensures model.inputs == old(model.inputs) && model.fates == old(model.fates)
    {
      var burst :| 0 <= burst <= |schedule|;
      while burst > 0
        invariant Valid() && burst <= |schedule| && old(trace) <= trace && model.phase == old(model.phase)
        invariant model.inputs == old(model.inputs) && model.fates == old(model.fates)
      {
        RunConsumer();
        burst := burst - 1;
      }
    }

    /** The wait inside `send(..).await`: until there is room or the receiver is gone. */
    method AwaitRoom() returns (ready: bool)
      requires Valid()
      modifies this`queue, this`closed, this`schedule, this`trace, this`model
      ensures Valid() && old(trace) <= trace && model.phase == old(model.phase)
      ensures model.inputs == old(model.inputs) && model.fates == old(model.fates)
      ensures ready == (closed || |queue| < model.capacity)
      ensures !ready ==> schedule == []
    {
      var slots := if capacity == 0 then 1 else capacity;
      CapacityFixed(capacity, trace);
      while !closed && |queue| >= slots && schedule != []
        invariant Valid() && old(trace) <= trace && model.phase == old(model.phase)
        invariant model.inputs == old(model.inputs) && model.fates == old(model.fates)
        invariant slots == model.capacity
        decreases |schedule|
      {
        RunConsumer();
      }
      ready := closed || |queue| < slots;
    }

    /** Put `item` (the lag marker or the event itself) on the channel, and do what the code
        does with the outcome. */
    method Send(item: Event, event: Event, marker: bool) returns (sent: bool)
      requires Valid() && Enabled(model, Work) && model.phase == (if marker then Flushing(event) else Pushing(event))
      requires item == if marker then Lagged(skippedEvents) else event
      modifies this`queue, this`skippedEvents, this`rejectedRequests, this`trace, this`model
      ensures Valid() && trace == old(trace) + [Work] && model == ChannelOperation(old(model))
      ensures sent == (!closed && !Full(old(model)))
      ensures sent ==> queue == old(queue) + [item]
    {
      hide Run, Agrees, ChannelOperation;
      ghost var s := model;
      RunSnoc(capacity, trace, Work);
      CapacityFixed(capacity, trace);
      InFlightShape(capacity, trace);
      SameVariables(queue, closed, skippedEvents, rejectedRequests, s);
      var slots := if capacity == 0 then 1 else capacity;
      sent := !closed && |queue| < slots;
      if sent {
        AgreesSent(queue, skippedEvents, rejectedRequests, s);
        queue := queue + [item];
        if marker { skippedEvents := 0; }
      } else if closed {
        AgreesClosed(queue, skippedEvents, rejectedRequests, s);
      } else {
        AgreesFull(queue, skippedEvents, rejectedRequests, s);
        skippedEvents := if skippedEvents < USIZE_MAX then skippedEvents + 1 else skippedEvents;
        if event.ServerRequest? { rejectedRequests := rejectedRequests + [event.id]; }
      }
      trace, model := trace + [Work], Next(model, Work);
    }

    /** One `send` (for a must-deliver event) or `try_send`, with the consumer running first. */
    method Attempt(item: Event, event: Event, marker: bool) returns (outcome: SendOutcome)
      requires Valid() && model.phase == (if marker then Flushing(event) else Pushing(event))
      requires item == if marker then Lagged(skippedEvents) else event
      modifies this
      ensures Valid() && old(trace) <= trace && model.inputs == old(model.inputs)
      ensures outcome.Sent? && marker ==> model.phase == Pushing(event) && model.fates == old(model.fates)
      ensures outcome.Sent? && !marker ==> model.phase.Idle? && model.fates == old(model.fates) + [Delivered]
      ensures outcome.QueueFull? ==>
                !MustDeliver(event) && model.phase.Idle? && model.fates == old(model.fates) + [Dropped]
      ensures outcome.ReceiverGone? ==> closed && model.phase.Disabled? && model.fates == old(model.fates)
      ensures outcome.Waiting? ==>
                MustDeliver(event) && InFlight(model) && !Enabled(model, Work) && schedule == []
    {
      var ready := true;
      if MustDeliver(event) {
        ready := AwaitRoom();
      } else {
        Interleave();
      }
      if !ready { return Waiting; }
      var sent := Send(item, event, marker);
      outcome := if sent then Sent else if closed then ReceiverGone else QueueFull;
    }

    /** The event branch of the loop takes the next event. */
    ghost method Begin(event: Event)
      requires Valid() && model.phase.Idle?
      modifies this`trace, this`model
      ensures Valid() && trace == old(trace) + [Arrive(event)]
      ensures model == Next(old(model), Arrive(event))
    {
      RunSnoc(capacity, trace, Arrive(event));
      Reachable(capacity, trace);
      RejectedBounded(model);
      RejectedIdsGrow(model.inputs, event, model.rejected);
      trace, model := trace + [Arrive(event)], Next(model, Arrive(event));
    }

    /** `forward_in_process_event`. Continue means the event settled, delivered if it must
        be; DisableStream means the receiver is gone and the event has no fate. */
    method Forward(event: Event) returns (result: ForwardEventResult)
      requires Valid() && model.phase.Idle?
      modifies this
      ensures Valid() && old(trace) <= trace && model.inputs == old(model.inputs) + [event]
      ensures result.Continue? ==>
                && model.phase.Idle?
                && (model.fates == old(model.fates) + [Delivered]
                    || (!MustDeliver(event) && model.fates == old(model.fates) + [Dropped]))
      ensures result.DisableStream? ==> closed && model.phase.Disabled? && model.fates == old(model.fates)
      ensures result.StillBlocked? ==>
                MustDeliver(event) && InFlight(model) && !Enabled(model, Work) && schedule == []
    {
      Begin(event);
      var outcome := Sent;
      if skippedEvents > 0 {
        outcome := Attempt(Lagged(skippedEvents), event, true);
      }
      if outcome.Sent? {
        outcome := Attempt(event, event, false);
      }
      match outcome
      case Sent => result := Continue;
      case QueueFull => result := Continue;
      case ReceiverGone => result := DisableStream;
      case Waiting => result := StillBlocked;
    }
  }

  lemma {:induction false} InFlightShape(capacity: nat, steps: seq<Step>)
    ensures var s := Run(capacity, steps);
            InFlight(s) ==> |s.inputs| == |s.fates| + 1 && s.inputs[|s.fates|] == s.phase.event
                            && (s.phase.Flushing? <==> s.skipped > 0)
  {
    hide Run, Balanced, Settled;
    Reachable(capacity, steps);
  }

  lemma CapacityStep(s: State, step: Step)
    ensures Next(s, step).capacity == s.capacity
  {
  }

  lemma {:induction false} CapacityFixed(capacity: nat, steps: seq<Step>)
    ensures Run(capacity, steps).capacity == if capacity == 0 then 1 else capacity
  {
    hide Next;
    if steps != [] {
      CapacityFixed(capacity, steps[..|steps| - 1]);
      CapacityStep(Run(capacity, steps[..|steps| - 1]), steps[|steps| - 1]);
    }
  }

  /** The forwarder's own queue: while the receiver lives, what was consumed and what is queued
      hold the must-deliver inputs in order, and the queue is within its capacity. */
  lemma {:induction false} ForwarderIsLossless(f: EventForwarder)
    requires f.Valid() && !f.closed
    ensures Lossless(WireAll(f.model.consumed) + f.queue) == Lossless(Arrived(f.model))
    ensures |f.queue| <= if f.capacity == 0 then 1 else f.capacity
  {
    hide Run, Lossless;
    Losslessness(f.capacity, f.trace);
    CapacityFixed(f.capacity, f.trace);
    assert WireAll(f.model.consumed + f.model.queue) == WireAll(f.model.consumed) + f.queue;
  }

  lemma RejectedBounded(s: State)
    requires Invariant(s)
    ensures forall k :: 0 <= k < |s.rejected| ==> s.rejected[k] < |s.inputs|
  {
    forall k | 0 <= k < |s.rejected| ensures s.rejected[k] < |s.inputs| {
      assert multiset(s.rejected)[s.rejected[k]] > 0;
    }
  }
}
