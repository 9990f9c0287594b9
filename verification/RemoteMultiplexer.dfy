/** The remote client's worker loop: requests multiplexed over one socket, server events
    on one unbounded queue. Decoded frames, write results and the client's calls are
    arbitrary inputs; every list of them is a run. */
module RemoteMultiplexer {
  import opened Protocol

  // ---- What travels over the socket ----

  /** `known`: the typed conversion of a notification or request succeeded. */
  datatype Message =
    | Response(id: RequestId, result: string)
    | ErrorMessage(id: RequestId, error: string)
    | NotificationMessage(known: bool, body: string)
    | RequestMessage(id: RequestId, known: bool, body: string)

  datatype Frame =
    | Text(message: Message) | InvalidText | CloseFrame(reason: string) | OtherFrame
    | TransportError(error: string) | EndOfStream

  datatype WriteResult = WriteOk | WriteErr(error: string)

  datatype AppEvent =
    | ServerNotification(body: string)
    | ServerRequest(id: RequestId, body: string)
    | Disconnected(reason: ExitReason)

  /** Why the loop ended. `WorkerClosed` is the default when no error was recorded. */
  datatype ExitReason =
    | WriteFailed(error: string) | InvalidJson | PeerClosed(text: string)
    | TransportFailed(error: string) | StreamEnded | WorkerClosed

  datatype ErrorKind = InvalidInput | BrokenPipe | InvalidData | ConnectionAborted | UnexpectedEof | Other

  function KindOf(reason: ExitReason): ErrorKind {
    match reason
    case WriteFailed(_) => BrokenPipe
    case InvalidJson => InvalidData
    case PeerClosed(_) => ConnectionAborted
    case TransportFailed(_) => InvalidData
    case StreamEnded => UnexpectedEof
    case WorkerClosed => BrokenPipe
  }

  datatype Reply =
    | Answer(result: string) | ServerError(error: string)
    | Done
    | DuplicateId | WriteError(error: string) | CloseError
    | ExitError(kind: ErrorKind, reason: ExitReason)

  /** The event a text frame gives rise to, if any. */
  function Recognised(frame: Frame): seq<AppEvent> {
    match frame
    case Text(NotificationMessage(known, body)) => if known then [ServerNotification(body)] else []
    case Text(RequestMessage(id, known, body)) => if known then [ServerRequest(id, body)] else []
    case _ => []
  }

  function RecognisedAll(frames: seq<Frame>): seq<AppEvent> {
    if frames == [] then [] else RecognisedAll(frames[..|frames| - 1]) + Recognised(frames[|frames| - 1])
  }

  predicate UnknownRequest(frame: Frame) {
    frame.Text? && frame.message.RequestMessage? && !frame.message.known
  }

  // ---- The worker ----

  datatype Input =
    | TakeRequest(id: RequestId, write: WriteResult)
    | TakeCast(write: WriteResult)          // Notify, ResolveServerRequest, RejectServerRequest
    | TakeShutdown(closed: bool)
    | CommandsClosed
    | Incoming(frame: Frame, write: WriteResult)
    | NextEvent
    | DropReceiver

  /** The reply side. `mail[w]` is what was sent on the reply channel of the w-th command taken. */
  datatype Ledger = Ledger(pending: map<RequestId, nat>, mail: seq<seq<Reply>>, exit: Option<ExitReason>)

  /** The event side, from the worker's queue to what `next_event` has returned. */
  datatype Feed = Feed(early: seq<AppEvent>, queue: seq<AppEvent>, consumerGone: bool, returned: seq<AppEvent>)

  /** `rejected` holds the ids answered with code -32601. */
  datatype State = State(ledger: Ledger, feed: Feed, rejected: seq<RequestId>)

  function Init(early: seq<AppEvent>): State {
    State(Ledger(map[], [], None), Feed(early, [], false, []), [])
  }

  // Replies.

  predicate Waiting(pending: map<RequestId, nat>, w: nat) {
    exists id :: id in pending && pending[id] == w
  }

  /** Every waiter still pending is told why the loop ended. */
  function ExitMail(pending: map<RequestId, nat>, mail: seq<seq<Reply>>, error: Reply): (told: seq<seq<Reply>>)
    ensures |told| == |mail|
    ensures forall w :: 0 <= w < |mail| ==> told[w] == if Waiting(pending, w) then mail[w] + [error] else mail[w]
  {
    seq(|mail|, w requires 0 <= w < |mail| => if Waiting(pending, w) then mail[w] + [error] else mail[w])
  }

  function Exit(l: Ledger, reason: ExitReason): Ledger {
    Ledger(map[], ExitMail(l.pending, l.mail, ExitError(KindOf(reason), reason)), Some(reason))
  }

  function Append(l: Ledger, reply: Reply): Ledger {
    l.(mail := l.mail + [[reply]])
  }

  function Register(l: Ledger, id: RequestId): Ledger {
    l.(pending := l.pending[id := |l.mail|], mail := l.mail + [[]])
  }

  function Settle(l: Ledger, id: RequestId, reply: Reply): Ledger {
    if id in l.pending && l.pending[id] < |l.mail|
    then l.(pending := l.pending - {id}, mail := l.mail[l.pending[id] := l.mail[l.pending[id]] + [reply]])
    else l
  }

  // Events.

  /** An event for a receiver that is gone is lost. */
  function Deliver(feed: Feed, event: AppEvent): Feed {
    if feed.consumerGone then feed else feed.(queue := feed.queue + [event])
  }

  /** `next_event`: events from the handshake first, then the queue; waiting is no step. */
  function Pop(feed: Feed): Feed {
    if feed.consumerGone then feed
    else if feed.early != [] then feed.(early := feed.early[1..], returned := feed.returned + [feed.early[0]])
    else if feed.queue != [] then feed.(queue := feed.queue[1..], returned := feed.returned + [feed.queue[0]])
    else feed
  }

  // The loop.

  function Disconnect(s: State, reason: ExitReason): State {
    s.(ledger := Exit(s.ledger, reason), feed := Deliver(s.feed, Disconnected(reason)))
  }

  function Request(s: State, id: RequestId, write: WriteResult): State {
    if id in s.ledger.pending then s.(ledger := Append(s.ledger, DuplicateId))
    else
      match write
      case WriteOk => s.(ledger := Register(s.ledger, id))
      case WriteErr(error) => Disconnect(s.(ledger := Append(s.ledger, WriteError(error))), WriteFailed(error))
  }

  function Surface(s: State, event: AppEvent): State {
    if s.feed.consumerGone then s.(ledger := Exit(s.ledger, WorkerClosed)) else s.(feed := Deliver(s.feed, event))
  }

  function ReceiveMessage(s: State, message: Message, write: WriteResult): State {
    match message
    case Response(id, result) => s.(ledger := Settle(s.ledger, id, Answer(result)))
    case ErrorMessage(id, error) => s.(ledger := Settle(s.ledger, id, ServerError(error)))
    case NotificationMessage(known, body) => if known then Surface(s, ServerNotification(body)) else s
    case RequestMessage(id, known, body) =>
      if known then Surface(s, ServerRequest(id, body))
      else if write.WriteErr? then Disconnect(s, WriteFailed(write.error))
      else s.(rejected := s.rejected + [id])
  }

  function Receive(s: State, frame: Frame, write: WriteResult): State {
    match frame
    case Text(message) => ReceiveMessage(s, message, write)
    case InvalidText => Disconnect(s, InvalidJson)
    case CloseFrame(reason) => Disconnect(s, PeerClosed(if reason == "" then "connection closed" else reason))
    case OtherFrame => s
    case TransportError(error) => Disconnect(s, TransportFailed(error))
    case EndOfStream => Disconnect(s, StreamEnded)
  }

  function WriteReply(write: WriteResult): Reply {
    match write
    case WriteOk => Done
    case WriteErr(error) => WriteError(error)
  }

  /** One turn of the loop. */
  function Act(s: State, input: Input): State {
    match input
    case TakeRequest(id, write) => Request(s, id, write)
    case TakeCast(write) => s.(ledger := Append(s.ledger, WriteReply(write)))
    case TakeShutdown(closed) => s.(ledger := Exit(Append(s.ledger, if closed then Done else CloseError), WorkerClosed))
    case CommandsClosed => s.(ledger := Exit(s.ledger, WorkerClosed))
    case Incoming(frame, write) => Receive(s, frame, write)
    case NextEvent => s
    case DropReceiver => s
  }

  function Next(s: State, input: Input): State {
    if input.NextEvent? then s.(feed := Pop(s.feed))
    else if input.DropReceiver? then s.(feed := Feed([], [], true, s.feed.returned))
    else if s.ledger.exit.Some? then s
    else Act(s, input)
  }

  function Run(early: seq<AppEvent>, inputs: seq<Input>): State {
    if inputs == [] then Init(early)
    else Next(Run(early, inputs[..|inputs| - 1]), inputs[|inputs| - 1])
  }

  // ---- The end of the loop, from the inputs alone ----

  /** `id`'s own answer, when `input` carries it. */
  function AnswerTo(input: Input, id: RequestId): Option<Reply> {
    match input
    case Incoming(Text(Response(other, result)), _) => if other == id then Some(Answer(result)) else None
    case Incoming(Text(ErrorMessage(other, error)), _) => if other == id then Some(ServerError(error)) else None
    case _ => None
  }

  /** A request with this id was taken and written, and no answer to it has come since. */
  predicate Open(inputs: seq<Input>, id: RequestId) {
    inputs != [] &&
    var before, last := inputs[..|inputs| - 1], inputs[|inputs| - 1];
    if last.TakeRequest? && last.id == id then Open(before, id) || last.write.WriteOk?
    else AnswerTo(last, id).None? && Open(before, id)
  }

  predicate ReceiverGone(inputs: seq<Input>) {
    inputs != [] && (inputs[|inputs| - 1].DropReceiver? || ReceiverGone(inputs[..|inputs| - 1]))
  }

  /** What is reported when the loop ends. */
  datatype Ending = Ending(kind: ErrorKind, reason: ExitReason)

  /** Why an input ends the loop, if it does, given whether its id is already taken and whether the
      event receiver is gone. */
  function Ends(input: Input, duplicate: bool, gone: bool): Option<Ending> {
    match input
    case TakeRequest(_, WriteErr(error)) => if duplicate then None else Some(Ending(BrokenPipe, WriteFailed(error)))
    case TakeShutdown(_) => Some(Ending(BrokenPipe, WorkerClosed))
    case CommandsClosed => Some(Ending(BrokenPipe, WorkerClosed))
    case Incoming(InvalidText, _) => Some(Ending(InvalidData, InvalidJson))
    case Incoming(CloseFrame(reason), _) =>
      Some(Ending(ConnectionAborted, PeerClosed(if reason != "" then reason else "connection closed")))
    case Incoming(TransportError(error), _) => Some(Ending(InvalidData, TransportFailed(error)))
    case Incoming(EndOfStream, _) => Some(Ending(UnexpectedEof, StreamEnded))
    case Incoming(Text(RequestMessage(_, false, _)), WriteErr(error)) =>
      Some(Ending(BrokenPipe, WriteFailed(error)))
    case Incoming(Text(RequestMessage(_, true, _)), _) =>
      if gone then Some(Ending(BrokenPipe, WorkerClosed)) else None
    case Incoming(Text(NotificationMessage(true, _)), _) =>
      if gone then Some(Ending(BrokenPipe, WorkerClosed)) else None
    case _ => None
  }

  /** How the loop ended: by the first input that ends it. */
  function EndOf(inputs: seq<Input>): Option<Ending> {
    if inputs == [] then None
    else
      var before, last := inputs[..|inputs| - 1], inputs[|inputs| - 1];
      if EndOf(before).Some? then EndOf(before)
      else Ends(last, last.TakeRequest? && Open(before, last.id), ReceiverGone(before))
  }

  function ReasonOf(end: Option<Ending>): Option<ExitReason> {
    if end.Some? then Some(end.value.reason) else None
  }

  /** The commands the loop took. */
  function Taken(inputs: seq<Input>): nat {
    if inputs == [] then 0
    else
      var before, last := inputs[..|inputs| - 1], inputs[|inputs| - 1];
      var taken := EndOf(before).None? && (last.TakeRequest? || last.TakeCast? || last.TakeShutdown?);
      Taken(before) + if taken then 1 else 0
  }

  /** The unknown requests the loop read and could answer. */
  function Unknown(inputs: seq<Input>): seq<RequestId> {
    if inputs == [] then []
    else
      var before, last := inputs[..|inputs| - 1], inputs[|inputs| - 1];
      if EndOf(before).None? && last.Incoming? && UnknownRequest(last.frame) && last.write == WriteOk
      then Unknown(before) + [last.frame.message.id] else Unknown(before)
  }

  /** The frames the loop read: those that arrived before it ended. */
  function FramesRead(inputs: seq<Input>): seq<Frame> {
    if inputs == [] then []
    else
      var before, last := inputs[..|inputs| - 1], inputs[|inputs| - 1];
      if EndOf(before).None? && last.Incoming? then FramesRead(before) + [last.frame] else FramesRead(before)
  }

  /** What the inputs say about the state, as far as replies do not come into it. */
  ghost predicate AsRead(s: State, inputs: seq<Input>) {
    && s.ledger.exit == ReasonOf(EndOf(inputs))
    && s.feed.consumerGone == ReceiverGone(inputs)
    && s.rejected == Unknown(inputs)
    && |s.ledger.mail| == Taken(inputs)
    && (s.ledger.exit.None? ==> forall id :: id in s.ledger.pending <==> Open(inputs, id))
  }

  lemma {:induction false} EndStep(s: State, input: Input)
    ensures var t := Next(s, input);
            var duplicate := input.TakeRequest? && input.id in s.ledger.pending;
            && t.ledger.exit == (if s.ledger.exit.Some? then s.ledger.exit
                                 else ReasonOf(Ends(input, duplicate, s.feed.consumerGone)))
            && t.feed.consumerGone == (s.feed.consumerGone || input.DropReceiver?)
            && t.rejected == (if s.ledger.exit.None? && input.Incoming? && UnknownRequest(input.frame)
                                 && input.write == WriteOk
                              then s.rejected + [input.frame.message.id] else s.rejected)
  {
    hide ExitMail;
  }

  lemma {:induction false} PendingIdStep(s: State, input: Input, id: RequestId)
    requires OneWaiterPerId(s.ledger.pending, |s.ledger.mail|) && Next(s, input).ledger.exit.None?
    ensures id in Next(s, input).ledger.pending <==>
            if input.TakeRequest? && input.id == id then id in s.ledger.pending || input.write.WriteOk?
            else AnswerTo(input, id).None? && id in s.ledger.pending
  {
  }

  lemma {:induction false} TakenStep(s: State, input: Input)
    ensures |Next(s, input).ledger.mail| == |s.ledger.mail| +
            if s.ledger.exit.None? && (input.TakeRequest? || input.TakeCast? || input.TakeShutdown?) then 1 else 0
  {
  }

  /** In every run the loop has ended exactly as the first input that ends it says, the waiters are
      the open requests, the ids refused are those of the unknown requests, in order, and there is
      one reply channel per command taken. */
  lemma {:induction false} RunAsRead(early: seq<AppEvent>, inputs: seq<Input>)
    ensures AsRead(Run(early, inputs), inputs)
  {
    hide Next, Ends, Replies, AnswerTo;
    if inputs != [] {
      var before, last := inputs[..|inputs| - 1], inputs[|inputs| - 1];
      var s := Run(early, before);
      RunAsRead(early, before);
      ExactlyOnceReplies(early, before);
      RepliesParts(s.ledger);
      EndStep(s, last);
      TakenStep(s, last);
      if Next(s, last).ledger.exit.None? {
        forall id ensures id in Next(s, last).ledger.pending <==> Open(inputs, id) {
          PendingIdStep(s, last, id);
        }
      }
    }
  }

  lemma RepliesParts(l: Ledger)
    requires Replies(l)
    ensures OneWaiterPerId(l.pending, |l.mail|)
  {
  }

  lemma {:induction false} EndKinds(inputs: seq<Input>)
    ensures var end := EndOf(inputs); end.Some? ==> KindOf(end.value.reason) == end.value.kind
  {
    hide Open, ReceiverGone;
    if inputs != [] { EndKinds(inputs[..|inputs| - 1]); }
  }

  // ---- Replies ----

  /** No waiter is registered under two ids, and every registered waiter exists. */
  ghost predicate OneWaiterPerId(pending: map<RequestId, nat>, commands: nat) {
    && (forall id :: id in pending ==> pending[id] < commands)
    && (forall a, b :: a in pending && b in pending && pending[a] == pending[b] ==> a == b)
  }

  /** A command is waiting and has no reply, or is not waiting and has exactly one. */
  ghost predicate ExactlyOne(pending: map<RequestId, nat>, mail: seq<seq<Reply>>) {
    forall w :: 0 <= w < |mail| ==> |mail[w]| == if Waiting(pending, w) then 0 else 1
  }

  ghost predicate Replies(l: Ledger) {
    && OneWaiterPerId(l.pending, |l.mail|)
    && ExactlyOne(l.pending, l.mail)
    && (l.exit.Some? ==> l.pending == map[])
  }

  /** A ledger changes by exactly one of these. */
  ghost predicate LedgerStep(l: Ledger, t: Ledger) {
    || t == l
    || (exists reply :: t == Append(l, reply))
    || (exists id :: id !in l.pending && t == Register(l, id))
    || (exists id, reply :: t == Settle(l, id, reply))
    || (exists reason :: t == Exit(l, reason))
    || (exists reply, reason :: t == Exit(Append(l, reply), reason))
  }

  lemma {:induction false} LedgerSteps(s: State, input: Input)
    ensures s.ledger.exit.Some? ==> Next(s, input).ledger == s.ledger
    ensures LedgerStep(s.ledger, Next(s, input).ledger)
  {
    hide Append, Register, Settle, Exit;
  }

  lemma {:induction false} RepliesExit(l: Ledger, reason: ExitReason)
    requires Replies(l)
    ensures Replies(Exit(l, reason))
  {
    hide ExitMail;
    assert forall w :: 0 <= w < |l.mail| ==> !Waiting(map[], w);
  }

  lemma {:induction false} RepliesAppend(l: Ledger, reply: Reply)
    requires Replies(l)
    ensures Replies(Append(l, reply))
  {
  }

  lemma {:induction false} RepliesRegister(l: Ledger, id: RequestId)
    requires Replies(l) && l.exit.None? && id !in l.pending
    ensures Replies(Register(l, id))
  {
    var t := Register(l, id);
    assert t.pending[id] == |l.mail|;
    forall w | 0 <= w < |t.mail| ensures Waiting(t.pending, w) == (Waiting(l.pending, w) || w == |l.mail|) {
      if other :| other in l.pending && l.pending[other] == w { assert t.pending[other] == w; }
    }
  }

  lemma {:induction false} RepliesSettle(l: Ledger, id: RequestId, reply: Reply)
    requires Replies(l)
    ensures Replies(Settle(l, id, reply))
  {
    if id in l.pending {
      var t, settled := Settle(l, id, reply), l.pending[id];
      forall w | 0 <= w < |t.mail| ensures Waiting(t.pending, w) == (Waiting(l.pending, w) && w != settled) {
        if other :| other in l.pending && l.pending[other] == w && w != settled { assert t.pending[other] == w; }
      }
    }
  }

  lemma {:induction false} RepliesStep(s: State, input: Input)
    requires Replies(s.ledger)
    ensures Replies(Next(s, input).ledger)
  {
    hide Replies, Append, Register, Settle, Exit, Next;
    LedgerSteps(s, input);
    var l, t := s.ledger, Next(s, input).ledger;
    if t == l {
    } else if reply :| t == Append(l, reply) {
      RepliesAppend(l, reply);
    } else if id :| id !in l.pending && t == Register(l, id) {
      RepliesRegister(l, id);
    } else if id, reply :| t == Settle(l, id, reply) {
      RepliesSettle(l, id, reply);
    } else if reason :| t == Exit(l, reason) {
      RepliesExit(l, reason);
    } else {
      var reply, reason :| t == Exit(Append(l, reply), reason);
      RepliesAppend(l, reply);
      RepliesExit(Append(l, reply), reason);
    }
  }

  /** Exactly-once replies: in every run each command taken has at most one reply, has none
      only while its request is pending, and none is left waiting once the loop has ended. */
  lemma {:induction false} ExactlyOnceReplies(early: seq<AppEvent>, inputs: seq<Input>)
    ensures var l := Run(early, inputs).ledger;
            && Replies(l)
            && (l.exit.Some? ==> forall w :: 0 <= w < |l.mail| ==> |l.mail[w]| == 1)
  {
    hide Next;
    if inputs != [] {
      ExactlyOnceReplies(early, inputs[..|inputs| - 1]);
      RepliesStep(Run(early, inputs[..|inputs| - 1]), inputs[|inputs| - 1]);
    }
  }

  /** What a pending request is told, read off the inputs that follow it: the first response or
      error with its id, else the error of the input that ends the loop. */
  function Verdict(past: seq<Input>, rest: seq<Input>, id: RequestId): Option<Reply>
    decreases |rest|
  {
    if rest == [] then None
    else
      var now := ReplyNow(past, rest[0], id);
      if now.Some? then now else Verdict(past + [rest[0]], rest[1..], id)
  }

  /** The reply `id`'s waiter gets at this very input, if any. */
  function ReplyNow(past: seq<Input>, input: Input, id: RequestId): Option<Reply> {
    var answer, end := AnswerTo(input, id), EndOf(past + [input]);
    if answer.Some? then answer
    else if end.Some? then Some(ExitError(end.value.kind, end.value.reason))
    else None
  }

  function Letters(reply: Option<Reply>): seq<Reply> {
    if reply.Some? then [reply.value] else []
  }

  lemma RunSnoc(early: seq<AppEvent>, inputs: seq<Input>, input: Input)
    ensures Run(early, inputs + [input]) == Next(Run(early, inputs), input)
  {
    hide Next;
    assert (inputs + [input])[..|inputs|] == inputs;
  }

  lemma {:induction false} ReplyKept(s: State, input: Input, w: nat)
    requires Replies(s.ledger) && w < |s.ledger.mail| && !Waiting(s.ledger.pending, w)
    ensures var t := Next(s, input).ledger; w < |t.mail| && t.mail[w] == s.ledger.mail[w] && !Waiting(t.pending, w)
  {
    hide Next, ExitMail;
    LedgerSteps(s, input);
  }

  /** A reply, once sent, is the only one. */
  lemma {:induction false} ReplyIsFinal(early: seq<AppEvent>, past: seq<Input>, rest: seq<Input>, w: nat)
    requires var l := Run(early, past).ledger; w < |l.mail| && !Waiting(l.pending, w)
    ensures var l, t := Run(early, past).ledger, Run(early, past + rest).ledger;
            w < |t.mail| && t.mail[w] == l.mail[w]
    decreases |rest|
  {
    hide Next, Replies, Run, Waiting;
    if rest == [] {
      assert past + rest == past;
    } else {
      ExactlyOnceReplies(early, past);
      RunSnoc(early, past, rest[0]);
      ReplyKept(Run(early, past), rest[0], w);
      ReplyIsFinal(early, past + [rest[0]], rest[1..], w);
      assert past + [rest[0]] + rest[1..] == past + rest;
    }
  }

  /** For one pending id: its answer settles it; otherwise the step keeps it or ends the loop. */
  lemma {:induction false} PendingLedger(s: State, input: Input, id: RequestId)
    requires s.ledger.exit.None? && id in s.ledger.pending
    ensures var l, t := s.ledger, Next(s, input).ledger;
            if AnswerTo(input, id).Some? then t == Settle(l, id, AnswerTo(input, id).value)
            else
              || (t.exit.None? && (t == l || (exists reply :: t == Append(l, reply))
                                   || (exists other :: other !in l.pending && t == Register(l, other))
                                   || (exists other, reply :: other != id && t == Settle(l, other, reply))))
              || (exists reason :: t == Exit(l, reason))
              || (exists reply, reason :: t == Exit(Append(l, reply), reason))
  {
  }

  lemma {:induction false} PendingStep(s: State, input: Input, id: RequestId)
    requires Replies(s.ledger) && s.ledger.exit.None? && id in s.ledger.pending
    ensures var w, t, answer := s.ledger.pending[id], Next(s, input).ledger, AnswerTo(input, id);
            && w < |t.mail|
            && (answer.Some? || t.exit.Some? ==> !Waiting(t.pending, w))
            && (answer.Some? ==> t.mail[w] == [answer.value])
            && (answer.None? && t.exit.Some? ==> t.mail[w] == [ExitError(KindOf(t.exit.value), t.exit.value)])
            && (answer.None? && t.exit.None? ==> t.mail[w] == [] && id in t.pending && t.pending[id] == w)
  {
    hide Next, ExitMail, AnswerTo;
    PendingLedger(s, input, id);
    var l := s.ledger;
    assert Waiting(l.pending, l.pending[id]) && l.mail[l.pending[id]] == [];
    assert forall w :: !Waiting(map[], w);
  }

  lemma {:induction false} PendingReply(early: seq<AppEvent>, past: seq<Input>, rest: seq<Input>, id: RequestId)
    requires EndOf(past).None? && id in Run(early, past).ledger.pending
    ensures var w, t := Run(early, past).ledger.pending[id], Run(early, past + rest).ledger;
            && w < |t.mail| && t.mail[w] == Letters(Verdict(past, rest, id))
            && (Verdict(past, rest, id).None? ==> t.exit.None? && id in t.pending && t.pending[id] == w)
    decreases |rest|
  {
    hide Next, Run, Waiting, EndOf, AnswerTo, KindOf;
    var s := Run(early, past);
    ExactlyOnceReplies(early, past);
    RunAsRead(early, past);
    if rest == [] {
      assert past + rest == past;
      assert Waiting(s.ledger.pending, s.ledger.pending[id]) by { WaitingFor(s.ledger.pending, id); }
    } else {
      var w, input, more := s.ledger.pending[id], rest[0], past + [rest[0]];
      assert past + rest == more + rest[1..];
      RunSnoc(early, past, input);
      RunAsRead(early, more);
      EndKinds(more);
      PendingStep(s, input, id);
      if ReplyNow(past, input, id).Some? {
        ReplyIsFinal(early, more, rest[1..], w);
      } else {
        PendingReply(early, more, rest[1..], id);
      }
    }
  }

  lemma WaitingFor(pending: map<RequestId, nat>, id: RequestId)
    requires id in pending
    ensures Waiting(pending, pending[id])
  {
  }

  lemma {:induction false} RequestTaken(s: State, id: RequestId, write: WriteResult)
    requires Replies(s.ledger) && s.ledger.exit.None?
    ensures var w, t := |s.ledger.mail|, Next(s, TakeRequest(id, write)).ledger;
            && w < |t.mail|
            && (id in s.ledger.pending ==> t.mail[w] == [DuplicateId] && t.pending == s.ledger.pending)
            && (id !in s.ledger.pending && write.WriteErr? ==> t.mail[w] == [WriteError(write.error)])
            && (id !in s.ledger.pending && write.WriteOk? ==> id in t.pending && t.pending[id] == w)
            && (id in s.ledger.pending || write.WriteErr? ==> !Waiting(t.pending, w))
  {
  }

  /** The one reply a request command gets, whatever happens before and after it: a
      duplicate id is refused and leaves the first waiter in place, a failed write is
      reported, and otherwise the verdict of the following inputs is delivered. */
  lemma {:induction false} RequestReply(early: seq<AppEvent>, before: seq<Input>, id: RequestId, write: WriteResult,
                                        rest: seq<Input>)
    requires EndOf(before).None?
    ensures var now := before + [TakeRequest(id, write)];
            var w, end := Taken(before), Run(early, now + rest).ledger;
            && w < |end.mail|
            && end.mail[w] == (if Open(before, id) then [DuplicateId]
                               else match write
                                    case WriteErr(error) => [WriteError(error)]
                                    case WriteOk => Letters(Verdict(now, rest, id)))
            && (Open(before, id) ==> Run(early, now).ledger.pending == Run(early, before).ledger.pending)
  {
    hide Run, Verdict, Next, Waiting, Replies, Ends;
    var s, now := Run(early, before), before + [TakeRequest(id, write)];
    ExactlyOnceReplies(early, before);
    RunAsRead(early, before);
    RunSnoc(early, before, TakeRequest(id, write));
    RequestTaken(s, id, write);
    if id in s.ledger.pending || write.WriteErr? {
      ReplyIsFinal(early, now, rest, |s.ledger.mail|);
    } else {
      assert now[..|before|] == before;
      assert EndOf(now).None? by { WrittenGoesOn(id, ReceiverGone(before)); }
      PendingReply(early, now, rest, id);
    }
  }

  lemma WrittenGoesOn(id: RequestId, gone: bool)
    ensures Ends(TakeRequest(id, WriteOk), false, gone).None?
  {
  }

  lemma {:induction false} OtherTaken(s: State, command: Input)
    requires Replies(s.ledger) && s.ledger.exit.None? && (command.TakeCast? || command.TakeShutdown?)
    ensures var w, t := |s.ledger.mail|, Next(s, command).ledger;
            && w < |t.mail| && !Waiting(t.pending, w)
            && t.mail[w] == (match command
                             case TakeCast(WriteOk) => [Done]
                             case TakeCast(WriteErr(error)) => [WriteError(error)]
                             case TakeShutdown(closed) => if closed then [Done] else [CloseError]
                             case _ => [])
  {
    hide OneWaiterPerId;
    assert !Waiting(s.ledger.pending, |s.ledger.mail|) by { FreshWaiter(s.ledger); }
  }

  lemma FreshWaiter(l: Ledger)
    requires Replies(l)
    ensures !Waiting(l.pending, |l.mail|)
  {
  }

  /** The one reply of a notify, resolve, reject or shutdown: what its write or the close gave. */
  lemma {:induction false} OtherReply(early: seq<AppEvent>, before: seq<Input>, command: Input, rest: seq<Input>)
    requires EndOf(before).None? && (command.TakeCast? || command.TakeShutdown?)
    ensures var w, end := Taken(before), Run(early, before + [command] + rest).ledger;
            && w < |end.mail|
            && end.mail[w] == (match command
                               case TakeCast(WriteOk) => [Done]
                               case TakeCast(WriteErr(error)) => [WriteError(error)]
                               case TakeShutdown(closed) => if closed then [Done] else [CloseError]
                               case _ => [])
  {
    hide Run, Next, Waiting, Replies, EndOf;
    ExactlyOnceReplies(early, before);
    RunAsRead(early, before);
    RunSnoc(early, before, command);
    OtherTaken(Run(early, before), command);
    ReplyIsFinal(early, before + [command], rest, Taken(before));
  }

  // ---- Events ----

  function ReadNow(s: State, input: Input): seq<Frame> {
    if input.Incoming? && s.ledger.exit.None? then [input.frame] else []
  }

  function Farewell(exit: Option<ExitReason>): seq<AppEvent> {
    if exit.Some? && !exit.value.WorkerClosed? then [Disconnected(exit.value)] else []
  }

  /** What the client may ever see, in order. */
  function Stream(early: seq<AppEvent>, frames: seq<Frame>, exit: Option<ExitReason>): seq<AppEvent> {
    early + RecognisedAll(frames) + Farewell(exit)
  }

  lemma {:induction false} RecognisedSnoc(frames: seq<Frame>, frame: Frame)
    ensures RecognisedAll(frames + [frame]) == RecognisedAll(frames) + Recognised(frame)
  {
    assert (frames + [frame])[..|frames|] == frames;
  }

  function Backlog(feed: Feed): seq<AppEvent> {
    feed.returned + feed.early + feed.queue
  }

  /** The events a live receiver is handed in this step. */
  function NewEvents(s: State, input: Input): seq<AppEvent> {
    (if input.Incoming? && s.ledger.exit.None? then Recognised(input.frame) else [])
    + (if s.ledger.exit.None? then Farewell(Next(s, input).ledger.exit) else [])
  }

  ghost predicate FeedStep(feed: Feed, t: Feed, more: seq<AppEvent>) {
    || (|more| == 0 && (t == feed || t == Pop(feed)))
    || t == Feed([], [], true, feed.returned)
    || (|more| == 1 && t == Deliver(feed, more[0]))
    || (feed.consumerGone && t == feed)
  }

  lemma {:induction false} FeedSteps(s: State, input: Input)
    ensures FeedStep(s.feed, Next(s, input).feed, NewEvents(s, input))
    ensures s.ledger.exit.Some? ==> Next(s, input).ledger.exit == s.ledger.exit
  {
    hide Pop, ExitMail;
  }

  /** One step's effect on the events: nothing is reordered, and a live receiver misses nothing. */
  lemma {:induction false} BacklogStep(feed: Feed, t: Feed, more: seq<AppEvent>)
    requires FeedStep(feed, t, more)
    ensures feed.consumerGone ==> t.consumerGone
    ensures t.consumerGone ==> t.returned == feed.returned
    ensures !t.consumerGone ==> Backlog(t) == Backlog(feed) + more
  {
  }

  lemma {:induction false} StreamGrows(early: seq<AppEvent>, frames: seq<Frame>, exit: Option<ExitReason>,
                                       now: seq<Frame>, next: Option<ExitReason>)
    requires |now| <= 1 && (exit.Some? ==> now == [] && next == exit)
    ensures Stream(early, frames + now, next) ==
            Stream(early, frames, exit) +
            ((if now == [] then [] else Recognised(now[0])) + (if exit.None? then Farewell(next) else []))
  {
    hide Recognised;
    if |now| == 1 {
      RecognisedSnoc(frames, now[0]);
      assert now == [now[0]];
      assert early + (RecognisedAll(frames) + Recognised(now[0])) == early + RecognisedAll(frames) + Recognised(now[0]);
    } else {
      assert frames + now == frames;
    }
  }

  /** Event stream: what `next_event` has returned is a prefix of the handshake's events,
      then the recognised frames read, in arrival order, then at most one `Disconnected`, sent
      exactly when the input that ended the loop was an error. While the receiver lives nothing
      of it is lost: the rest is still waiting to be read. */
  lemma {:induction false} EventStream(early: seq<AppEvent>, inputs: seq<Input>)
    ensures var feed := Run(early, inputs).feed;
            var stream := Stream(early, FramesRead(inputs), ReasonOf(EndOf(inputs)));
            feed.returned <= stream && (!feed.consumerGone ==> Backlog(feed) == stream)
  {
    hide Next, FeedStep, Recognised, RecognisedAll, Farewell, Ends, Open;
    if inputs == [] {
      assert Stream(early, [], None) == early by { StreamStart(early); }
    } else {
      var before, last := inputs[..|inputs| - 1], inputs[|inputs| - 1];
      var s := Run(early, before);
      EventStream(early, before);
      RunAsRead(early, before);
      RunAsRead(early, inputs);
      FeedSteps(s, last);
      BacklogStep(s.feed, Next(s, last).feed, NewEvents(s, last));
      StreamGrows(early, FramesRead(before), s.ledger.exit, ReadNow(s, last), Next(s, last).ledger.exit);
      assert FramesRead(before) + [] == FramesRead(before);
    }
  }

  lemma StreamStart(early: seq<AppEvent>)
    ensures Stream(early, [], None) == early
  {
  }

  /** `Disconnected` never comes from a frame, so it can only be the last event. */
  lemma {:induction false} NoDisconnectedFromFrames(frames: seq<Frame>, i: nat)
    requires i < |RecognisedAll(frames)|
    ensures !RecognisedAll(frames)[i].Disconnected?
  {
    var rest := frames[..|frames| - 1];
    if i < |RecognisedAll(rest)| { NoDisconnectedFromFrames(rest, i); }
  }
}
