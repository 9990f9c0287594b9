/** The remote connection as the program writes it: the initialize handshake over the
    socket, then an object whose methods update the waiter map, the event queue and the
    reply channels in place. Each method is one step of `RemoteMultiplexer`. */
module RemoteClient {
  import opened Protocol
  import opened RemoteMultiplexer

  const INITIALIZE_ID := StringId("initialize")

  datatype HandshakeError =
    | CannotWrite(error: string) | InvalidResponse | RejectedByServer(error: string)
    | ClosedEarly(reason: string) | TransportBroken(error: string) | EndedEarly | TimedOut

  /** `used` frames were read; the worker loop reads the rest. */
  datatype Handshake =
    | Connected(events: seq<AppEvent>, used: nat, rejected: seq<RequestId>)
    | Refused(error: HandshakeError)

  predicate Accepts(frame: Frame) {
    frame.Text? && frame.message.Response? && frame.message.id == INITIALIZE_ID
  }

  /** A frame after which the handshake keeps waiting. */
  predicate Benign(frame: Frame, write: WriteResult) {
    match frame
    case OtherFrame => true
    case Text(Response(id, _)) => id != INITIALIZE_ID
    case Text(ErrorMessage(id, _)) => id != INITIALIZE_ID
    case Text(NotificationMessage(_, _)) => true
    case Text(RequestMessage(_, known, _)) => known || write.WriteOk?
    case _ => false
  }

  function FailureOf(frame: Frame, write: WriteResult): HandshakeError {
    match frame
    case Text(ErrorMessage(_, error)) => RejectedByServer(error)
    case Text(_) => CannotWrite(if write.WriteErr? then write.error else "")
    case InvalidText => InvalidResponse
    case CloseFrame(reason) => ClosedEarly(if reason == "" then "connection closed during initialize" else reason)
    case TransportError(error) => TransportBroken(error)
    case EndOfStream => EndedEarly
    case OtherFrame => TimedOut
  }

  function UnknownIds(frames: seq<Frame>): seq<RequestId> {
    if frames == [] then []
    else
      var rest, last := UnknownIds(frames[..|frames| - 1]), frames[|frames| - 1];
      if UnknownRequest(last) then rest + [last.message.id] else rest
  }

  predicate BenignUntil(frames: seq<Frame>, writes: seq<WriteResult>, n: nat)
    requires |writes| == |frames| && n <= |frames|
  {
    forall i :: 0 <= i < n ==> Benign(frames[i], writes[i])
  }

  /** `initialize_remote_connection`: it connects exactly when the response to `initialize`
      is preceded only by frames it can wait past, keeps every recognised event among
      those in order, answers every unknown request among them, and otherwise reports the
      first frame that ended it, or a timeout. */
  method Initialize(hello: WriteResult, frames: seq<Frame>, writes: seq<WriteResult>, finish: WriteResult)
    returns (result: Handshake)
    requires |writes| == |frames|
    ensures result.Connected? ==>
              && hello.WriteOk? && finish.WriteOk?
              && 0 < result.used <= |frames| && Accepts(frames[result.used - 1])
              && BenignUntil(frames, writes, result.used - 1)
              && result.events == RecognisedAll(frames[..result.used - 1])
              && result.rejected == UnknownIds(frames[..result.used - 1])
    ensures hello.WriteErr? ==> result == Refused(CannotWrite(hello.error))
    ensures forall n | hello.WriteOk? && 0 <= n < |frames| && BenignUntil(frames, writes, n) ::
              && (Accepts(frames[n]) && finish.WriteOk? ==> result.Connected? && result.used == n + 1)
              && (Accepts(frames[n]) && finish.WriteErr? ==> result == Refused(CannotWrite(finish.error)))
              && (!Accepts(frames[n]) && !Benign(frames[n], writes[n]) ==>
                    result == Refused(FailureOf(frames[n], writes[n])))
    ensures hello.WriteOk? && BenignUntil(frames, writes, |frames|) ==> result == Refused(TimedOut)
  {
    if hello.WriteErr? { return Refused(CannotWrite(hello.error)); }
    var events: seq<AppEvent>, rejected: seq<RequestId> := [], [];
    var i := 0;
    while i < |frames|
      invariant 0 <= i <= |frames| && BenignUntil(frames, writes, i)
      invariant events == RecognisedAll(frames[..i]) && rejected == UnknownIds(frames[..i])
    {
      var frame, write := frames[i], writes[i];
      assert frames[..i + 1][..i] == frames[..i];
      match frame {
      case Text(Response(id, _)) =>
        if id == INITIALIZE_ID {
          if finish.WriteErr? { return Refused(CannotWrite(finish.error)); }
          return Connected(events, i + 1, rejected);
        }
      case Text(ErrorMessage(id, error)) =>
        if id == INITIALIZE_ID { return Refused(RejectedByServer(error)); }
      case Text(NotificationMessage(known, body)) =>
        if known { events := events + [ServerNotification(body)]; }
      case Text(RequestMessage(id, known, body)) =>
        if known {
          events := events + [ServerRequest(id, body)];
        } else if write.WriteErr? {
          return Refused(CannotWrite(write.error));
        } else {
          rejected := rejected + [id];
        }
      case OtherFrame =>
      case InvalidText => return Refused(InvalidResponse);
      case CloseFrame(reason) =>
        return Refused(ClosedEarly(if reason == "" then "connection closed during initialize" else reason));
      case TransportError(error) => return Refused(TransportBroken(error));
      case EndOfStream => return Refused(EndedEarly);
      }
      i := i + 1;
    }
    assert frames[..|frames|] == frames;
    return Refused(TimedOut);
  }

  /** Every waiter of `all` that is no longer in `rest` has been sent `error`, nobody else anything. */
  ghost predicate Told(all: map<RequestId, nat>, rest: map<RequestId, nat>, was: seq<seq<Reply>>,
                       mail: seq<seq<Reply>>, error: Reply) {
    && |mail| == |was| && OneWaiterPerId(all, |mail|)
    && (forall id :: id in rest ==> id in all && rest[id] == all[id])
    && (forall w :: 0 <= w < |was| ==>
          mail[w] == if Waiting(all, w) && !Waiting(rest, w) then was[w] + [error] else was[w])
  }

  lemma ToldOneMore(all: map<RequestId, nat>, rest: map<RequestId, nat>, was: seq<seq<Reply>>, mail: seq<seq<Reply>>,
                    error: Reply, id: RequestId)
    requires Told(all, rest, was, mail, error) && id in rest
    ensures rest[id] < |mail| && Told(all, rest - {id}, was, mail[rest[id] := mail[rest[id]] + [error]], error)
  {
    var told, fewer := rest[id], rest - {id};
    assert Waiting(all, told) && Waiting(rest, told);
    assert !Waiting(fewer, told);
    forall w | 0 <= w < |was| && w != told ensures Waiting(fewer, w) == Waiting(rest, w) {
      if other :| other in rest && rest[other] == w { assert fewer[other] == w; }
    }
  }

  lemma {:induction false} ToldAll(l: Ledger, reason: ExitReason, mail: seq<seq<Reply>>)
    requires Told(l.pending, map[], l.mail, mail, ExitError(KindOf(reason), reason))
    ensures mail == Exit(l, reason).mail
  {
    assert forall w :: 0 <= w < |mail| ==> !Waiting(map[], w);
  }

  /** The loop after the loop: tell every waiter why the connection ended. */
  method TellWaiters(pending: map<RequestId, nat>, was: seq<seq<Reply>>, error: Reply) returns (mail: seq<seq<Reply>>)
    requires OneWaiterPerId(pending, |was|)
    ensures Told(pending, map[], was, mail, error)
  {
    mail := was;
    var rest := pending;
    while rest != map[]
      invariant Told(pending, rest, was, mail, error)
      decreases |rest|
    {
      var id :| id in rest;
      ToldOneMore(pending, rest, was, mail, error, id);
      mail := mail[rest[id] := mail[rest[id]] + [error]];
      rest := rest - {id};
    }
  }

  class Connection {
    var pendingRequests: map<RequestId, nat>
    var workerExit: Option<ExitReason>
    var pendingEvents: seq<AppEvent>
    var eventQueue: seq<AppEvent>
    var receiverDropped: bool
    var mail: seq<seq<Reply>>
    var rejected: seq<RequestId>
    ghost var returned: seq<AppEvent>

    ghost function View(): State
      reads this
    {
      State(Ledger(pendingRequests, mail, workerExit), Feed(pendingEvents, eventQueue, receiverDropped, returned),
            rejected)
    }

    constructor (early: seq<AppEvent>)
      ensures View() == Init(early)
    {
      pendingRequests, workerExit, pendingEvents, eventQueue := map[], None, early, [];
      receiverDropped, mail, rejected, returned := false, [], [], [];
    }

    method FailPending(reason: ExitReason)
      requires OneWaiterPerId(pendingRequests, |mail|)
      modifies this`mail, this`pendingRequests, this`workerExit
      ensures View() == old(View()).(ledger := Exit(old(View().ledger), reason))
    {
      mail := TellWaiters(pendingRequests, mail, ExitError(KindOf(reason), reason));
      ToldAll(old(View().ledger), reason, mail);
      pendingRequests, workerExit := map[], Some(reason);
    }

    /** `deliver_event`, and whether the receiver was still there. */
    method DeliverEvent(event: AppEvent) returns (delivered: bool)
      modifies this`eventQueue
      ensures View() == old(View()).(feed := Deliver(old(View().feed), event))
      ensures delivered == !receiverDropped
    {
      delivered := !receiverDropped;
      if delivered { eventQueue := eventQueue + [event]; }
    }

    method HandleRequest(id: RequestId, write: WriteResult)
      requires Replies(View().ledger) && workerExit.None?
      modifies this
      ensures View() == Next(old(View()), TakeRequest(id, write)) && Replies(View().ledger)
    {
      hide ExitMail;
      RepliesStep(View(), TakeRequest(id, write));
      if id in pendingRequests {
        mail := mail + [[DuplicateId]];
        return;
      }
      ghost var before := pendingRequests;
      var waiter := |mail|;
      mail := mail + [[]];
      pendingRequests := pendingRequests[id := waiter];
      if write.WriteErr? {
        mail := mail[waiter := mail[waiter] + [WriteError(write.error)]];
        pendingRequests := pendingRequests - {id};
        assert mail[waiter] == [WriteError(write.error)];
        assert pendingRequests == before && mail == old(mail) + [[WriteError(write.error)]];
        var _ := DeliverEvent(Disconnected(WriteFailed(write.error)));
        FailPending(WriteFailed(write.error));
      }
    }

    method HandleAnswer(id: RequestId, reply: Reply)
      requires OneWaiterPerId(pendingRequests, |mail|)
      modifies this`pendingRequests, this`mail
      ensures View() == old(View()).(ledger := Settle(old(View().ledger), id, reply))
    {
      if id in pendingRequests {
        var waiter := pendingRequests[id];
        pendingRequests := pendingRequests - {id};
        mail := mail[waiter := mail[waiter] + [reply]];
      }
    }

    method HandleFrame(frame: Frame, write: WriteResult)
      requires Replies(View().ledger) && workerExit.None?
      modifies this
      ensures View() == Next(old(View()), Incoming(frame, write)) && Replies(View().ledger)
    {
      hide ExitMail;
      RepliesStep(View(), Incoming(frame, write));
      var exit: Option<ExitReason> := None;
      match frame {
      case Text(Response(id, result)) => HandleAnswer(id, Answer(result));
      case Text(ErrorMessage(id, error)) => HandleAnswer(id, ServerError(error));
      case Text(NotificationMessage(known, body)) =>
        if known {
          var delivered := DeliverEvent(ServerNotification(body));
          if !delivered { FailPending(WorkerClosed); }
        }
      case Text(RequestMessage(id, known, body)) =>
        if known {
          var delivered := DeliverEvent(ServerRequest(id, body));
          if !delivered { FailPending(WorkerClosed); }
        } else if write.WriteErr? {
          exit := Some(WriteFailed(write.error));
        } else {
          rejected := rejected + [id];
        }
      case InvalidText => exit := Some(InvalidJson);
      case CloseFrame(reason) => exit := Some(PeerClosed(if reason == "" then "connection closed" else reason));
      case OtherFrame =>
      case TransportError(error) => exit := Some(TransportFailed(error));
      case EndOfStream => exit := Some(StreamEnded);
      }
      if exit.Some? {
        var _ := DeliverEvent(Disconnected(exit.value));
        FailPending(exit.value);
      }
    }

    /** Notify, ResolveServerRequest and RejectServerRequest: the caller gets the write's result. */
    method HandleCast(write: WriteResult)
      requires Replies(View().ledger) && workerExit.None?
      modifies this`mail
      ensures View() == Next(old(View()), TakeCast(write)) && Replies(View().ledger)
    {
      hide ExitMail;
      RepliesStep(View(), TakeCast(write));
      mail := mail + [[WriteReply(write)]];
    }

    method HandleShutdown(closed: bool)
      requires Replies(View().ledger) && workerExit.None?
      modifies this
      ensures View() == Next(old(View()), TakeShutdown(closed)) && Replies(View().ledger)
    {
      hide ExitMail;
      RepliesStep(View(), TakeShutdown(closed));
      mail := mail + [[if closed then Done else CloseError]];
      FailPending(WorkerClosed);
    }

    /** `next_event`, when it does not have to wait. */
    method NextEventNow() returns (event: Option<AppEvent>)
      requires !receiverDropped
      modifies this`pendingEvents, this`eventQueue, this`returned
      ensures View() == Next(old(View()), NextEvent)
      ensures event.None? <==> old(pendingEvents) == [] && old(eventQueue) == []
      ensures event.Some? ==> returned == old(returned) + [event.value]
    {
      event := None;
      if pendingEvents != [] {
        event := Some(pendingEvents[0]);
        pendingEvents := pendingEvents[1..];
      } else if eventQueue != [] {
        event := Some(eventQueue[0]);
        eventQueue := eventQueue[1..];
      }
      if event.Some? { returned := returned + [event.value]; }
    }

    /** Every command sender is gone: the loop ends and the waiters are told. */
    method HandleCommandsClosed()
      requires Replies(View().ledger) && workerExit.None?
      modifies this`mail, this`pendingRequests, this`workerExit
      ensures View() == Next(old(View()), CommandsClosed) && Replies(View().ledger)
    {
      hide ExitMail;
      RepliesStep(View(), CommandsClosed);
      FailPending(WorkerClosed);
    }

    /** The client lets go of its event receiver; what it had not read is lost. */
    method DropEventReceiver()
      modifies this`pendingEvents, this`eventQueue, this`receiverDropped
      ensures View() == Next(old(View()), DropReceiver)
    {
      pendingEvents, eventQueue, receiverDropped := [], [], true;
    }

    /** One thing that can happen; a command or frame finds no loop once it has ended. */
    method Handle(input: Input)
      requires Replies(View().ledger)
      modifies this
      ensures View() == Next(old(View()), input) && Replies(View().ledger)
    {
      hide Replies, Act;
      match input {
        case NextEvent => if !receiverDropped { var _ := NextEventNow(); }
        case DropReceiver => DropEventReceiver();
        case TakeRequest(id, write) => if workerExit.None? { HandleRequest(id, write); }
        case TakeCast(write) => if workerExit.None? { HandleCast(write); }
        case TakeShutdown(closed) => if workerExit.None? { HandleShutdown(closed); }
        case CommandsClosed => if workerExit.None? { HandleCommandsClosed(); }
        case Incoming(frame, write) => if workerExit.None? { HandleFrame(frame, write); }
      }
    }

    /** The worker loop and the client's calls: the model's run. */
    method Serve(inputs: seq<Input>, ghost early: seq<AppEvent>)
      requires View() == Init(early)
      modifies this
      ensures View() == Run(early, inputs) && Replies(View().ledger)
    {
      hide Next, Replies;
      RunNone(early, inputs);
      var i := 0;
      while i < |inputs|
        invariant 0 <= i <= |inputs| && View() == Run(early, inputs[..i]) && Replies(View().ledger)
      {
        RunNext(early, inputs, i);
        Handle(inputs[i]);
        i := i + 1;
      }
      assert inputs[..i] == inputs;
    }
  }

  lemma RunNone(early: seq<AppEvent>, inputs: seq<Input>)
    ensures Run(early, inputs[..0]) == Init(early) && Replies(Init(early).ledger)
  {
    assert inputs[..0] == [];
  }

  lemma RunNext(early: seq<AppEvent>, inputs: seq<Input>, i: nat)
    requires i < |inputs|
    ensures Run(early, inputs[..i + 1]) == Next(Run(early, inputs[..i]), inputs[i])
  {
    hide Next;
    assert inputs[..i + 1][..i] == inputs[..i];
  }

  // ---- The whole connection ----

  lemma Associative<T>(a: seq<T>, b: seq<T>, c: seq<T>)
    ensures (a + b) + c == a + (b + c)
  {
  }

  lemma {:induction false} RecognisedConcat(a: seq<Frame>, b: seq<Frame>)
    ensures RecognisedAll(a + b) == RecognisedAll(a) + RecognisedAll(b)
  {
    if b == [] {
      assert a + b == a;
    } else {
      var rest, last := b[..|b| - 1], b[|b| - 1];
      RecognisedConcat(a, rest);
      assert (a + b)[..|a + b| - 1] == a + rest;
      Associative(RecognisedAll(a), RecognisedAll(rest), Recognised(last));
    }
  }

  /** From handshake to exit: the client reads a prefix of the recognised frames in arrival
      order, handshake first, then at most one `Disconnected`, and nothing after that. */
  lemma ConnectionStream(handshake: seq<Frame>, inputs: seq<Input>, i: nat)
    ensures var early := RecognisedAll(handshake);
            var recognised := RecognisedAll(handshake + FramesRead(inputs));
            var feed, exit := Run(early, inputs).feed, ReasonOf(EndOf(inputs));
            && feed.returned <= recognised + Farewell(exit)
            && (!feed.consumerGone ==> feed.returned + feed.early + feed.queue == recognised + Farewell(exit))
            && (i < |feed.returned| && feed.returned[i].Disconnected? ==>
                  && i == |recognised| && feed.returned == recognised + [feed.returned[i]] && exit.Some?
                  && feed.early == [] && feed.queue == [])
  {
    hide Run, FramesRead, RecognisedAll, EndOf;
    var early := RecognisedAll(handshake);
    var s := Run(early, inputs);
    var frames := FramesRead(inputs);
    EventStream(early, inputs);
    RecognisedConcat(handshake, frames);
    var recognised := RecognisedAll(handshake + frames);
    if i < |s.feed.returned| && s.feed.returned[i].Disconnected? {
      if i < |recognised| { NoDisconnectedFromFrames(handshake + frames, i); }
      assert i == |recognised| && |s.feed.returned| == i + 1;
      GoneIsEmpty(early, inputs);
    }
  }

  lemma {:induction false} GoneIsEmpty(early: seq<AppEvent>, inputs: seq<Input>)
    ensures var feed := Run(early, inputs).feed; feed.consumerGone ==> feed.early == [] && feed.queue == []
  {
    hide Next;
    if inputs != [] {
      GoneIsEmpty(early, inputs[..|inputs| - 1]);
      FeedSteps(Run(early, inputs[..|inputs| - 1]), inputs[|inputs| - 1]);
    }
  }

  /** The frames that arrive among other inputs, in order. */
  function Arriving(inputs: seq<Input>): seq<Frame> {
    if inputs == [] then []
    else
      var last := inputs[|inputs| - 1];
      Arriving(inputs[..|inputs| - 1]) + if last.Incoming? then [last.frame] else []
  }

  /** The loop reads the arriving frames in order until it ends. */
  lemma {:induction false} ReadsInOrder(inputs: seq<Input>)
    ensures FramesRead(inputs) <= Arriving(inputs)
    ensures EndOf(inputs).None? ==> FramesRead(inputs) == Arriving(inputs)
  {
    hide Ends, Open, ReceiverGone;
    if inputs != [] { ReadsInOrder(inputs[..|inputs| - 1]); }
  }

  /** The handshake's last frame is the initialize response, which is no event. */
  lemma {:induction false} AcceptedFrameIsNoEvent(frames: seq<Frame>, used: nat, more: seq<Frame>)
    requires 0 < used <= |frames| && Accepts(frames[used - 1]) && more <= frames[used..]
    ensures RecognisedAll(frames[..used - 1] + more) == RecognisedAll(frames[..used + |more|])
  {
    hide RecognisedAll;
    var before, response := frames[..used - 1], frames[used - 1];
    RecognisedConcat(before + [response], more);
    RecognisedConcat(before, more);
    RecognisedSnoc(before, response);
    assert frames[..used + |more|] == before + [response] + more;
  }

  ghost predicate DisconnectedIsLast(feed: Feed, end: Option<Ending>) {
    forall i :: 0 <= i < |feed.returned| && feed.returned[i].Disconnected? ==>
      i == |feed.returned| - 1 && end.Some? && feed.early == [] && feed.queue == []
  }

  lemma {:induction false} NothingAfterDisconnected(handshake: seq<Frame>, inputs: seq<Input>)
    ensures DisconnectedIsLast(Run(RecognisedAll(handshake), inputs).feed, EndOf(inputs))
  {
    hide Run, FramesRead, RecognisedAll, Farewell, EndOf;
    var feed := Run(RecognisedAll(handshake), inputs).feed;
    forall i | 0 <= i < |feed.returned| && feed.returned[i].Disconnected?
      ensures i == |feed.returned| - 1 && EndOf(inputs).Some? && feed.early == [] && feed.queue == []
    {
      ConnectionStream(handshake, inputs, i);
    }
  }

  /** One socket, handshake and loop together: when the loop's frames are the ones that follow the
      handshake's, the client reads a prefix of the recognised events of the frames read, in
      arrival order, then at most one `Disconnected` and nothing after it; a live receiver misses
      none, and while the loop runs every frame that arrived has been read. */
  ghost predicate SocketStream(frames: seq<Frame>, used: nat, inputs: seq<Input>)
    requires 0 < used <= |frames|
  {
    var early := RecognisedAll(frames[..used - 1]);
    var feed, end, n := Run(early, inputs).feed, EndOf(inputs), used + |FramesRead(inputs)|;
    && n <= |frames| && feed.returned <= RecognisedAll(frames[..n]) + Farewell(ReasonOf(end))
    && (!ReceiverGone(inputs) ==> Backlog(feed) == RecognisedAll(frames[..n]) + Farewell(ReasonOf(end)))
    && (end.None? ==> n == used + |Arriving(inputs)|)
    && DisconnectedIsLast(feed, end)
  }

  lemma {:induction false} SocketStreams(frames: seq<Frame>, used: nat, inputs: seq<Input>)
    requires 0 < used <= |frames| && Accepts(frames[used - 1]) && Arriving(inputs) <= frames[used..]
    ensures SocketStream(frames, used, inputs)
  {
    hide Run, FramesRead, RecognisedAll, Arriving, Accepts, Farewell, DisconnectedIsLast, EndOf, ReceiverGone;
    var early := RecognisedAll(frames[..used - 1]);
    ConnectionStream(frames[..used - 1], inputs, 0);
    NothingAfterDisconnected(frames[..used - 1], inputs);
    RunAsRead(early, inputs);
    ReadsInOrder(inputs);
    AcceptedFrameIsNoEvent(frames, used, FramesRead(inputs));
  }

  /** `connect_with_stream`: the handshake's events wait ahead of the queue. */
  method Connect(hello: WriteResult, frames: seq<Frame>, writes: seq<WriteResult>, finish: WriteResult)
    returns (connection: Option<Connection>, used: nat)
    requires |writes| == |frames|
    ensures connection.Some? <==>
            && hello.WriteOk? && finish.WriteOk?
            && exists n :: 0 <= n < |frames| && BenignUntil(frames, writes, n) && Accepts(frames[n])
    ensures connection.Some? ==>
              && fresh(connection.value) && 0 < used <= |frames|
              && BenignUntil(frames, writes, used - 1) && Accepts(frames[used - 1])
              && connection.value.View() == Init(RecognisedAll(frames[..used - 1]))
  {
    var handshake := Initialize(hello, frames, writes, finish);
    match handshake {
      case Connected(events, n, _) =>
        var c := new Connection(events);
        connection, used := Some(c), n;
      case Refused(_) => connection, used := None, 0;
    }
  }

  /** A whole session: connect, then serve whatever happens next. */
  method Session(hello: WriteResult, frames: seq<Frame>, writes: seq<WriteResult>, finish: WriteResult,
                 inputs: seq<Input>)
    returns (connection: Option<Connection>, used: nat)
    requires |writes| == |frames|
    ensures connection.Some? ==>
              && 0 < used <= |frames| && Accepts(frames[used - 1])
              && connection.value.View() == Run(RecognisedAll(frames[..used - 1]), inputs)
              && (Arriving(inputs) <= frames[used..] ==> SocketStream(frames, used, inputs))
  {
    hide Run, RecognisedAll, Arriving, SocketStream;
    connection, used := Connect(hello, frames, writes, finish);
    if connection.Some? {
      connection.value.Serve(inputs, RecognisedAll(frames[..used - 1]));
      if Arriving(inputs) <= frames[used..] { SocketStreams(frames, used, inputs); }
    }
  }
}
