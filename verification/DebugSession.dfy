/**
  The debug server as one object: notifications, framing and the command handler together.  Over
  every session each verified packet other than vStopped gets exactly one response, except a vRun
  that starts a program, and a vStopped gets one frame if a notification is pending and else none.
*/
module DebugSession {
  import opened Options
  import opened RspFraming
  import opened CommandReplies
  import opened CommandHandlers
  import opened RspServer

  // ----- Sessions -----

  /** The state of the notification protocol, and what the command handler remembers. */
  datatype Session = Session(server: State, memory: Memory)

  /** What happens in a session; `w` is the state of the debugged process when bytes are read. */
  datatype Input =
    | QueueEvent(event: string)
    | ReadBytes(bytes: string, w: World)
    | TimerFires(id: nat)

  const START := Session(INIT, NO_MEMORY)

  /** The command that the bytes carry, if they are verified and not an acknowledgement. */
  ghost function Command(bytes: string): Option<string> {
    if bytes == "+" || Payload(bytes).None? || Payload(bytes).value == STOP_ACK then None else Payload(bytes)
  }

  /** What the command handler does with a packet. */
  function ResultOf(packet: string, m: Memory, w: World): CommandResult {
    CommandResult(Supported(packet, w.stale), if Replies(packet, m.argv, w) == 1 then [ReplyTo(packet, m, w)] else [])
  }

  ghost function EventOf(s: Session, i: Input): Event {
    match i
    case QueueEvent(event) => Queue(event)
    case ReadBytes(bytes, w) =>
      var packet := Command(bytes);
      Bytes(bytes, if packet.Some? then ResultOf(packet.value, s.memory, w) else CommandResult(true, []))
    case TimerFires(id) => Timeout(id)
  }

  ghost predicate CanHappen(s: Session, i: Input) {
    Enabled(s.server, EventOf(s, i))
  }

  ghost function AfterInput(s: Session, i: Input): Session
    requires CanHappen(s, i)
  {
    Session(Next(s.server, EventOf(s, i)),
            if IsCommand(i) then MemoryAfter(Command(i.bytes).value, s.memory, i.w) else s.memory)
  }

  ghost predicate IsSession(s: Session, inputs: seq<Input>)
    decreases |inputs|
  {
    inputs == [] || (CanHappen(s, inputs[0]) && IsSession(AfterInput(s, inputs[0]), inputs[1..]))
  }

  ghost function EndOf(s: Session, inputs: seq<Input>): Session
    requires IsSession(s, inputs)
    decreases |inputs|
  {
    if inputs == [] then s else EndOf(AfterInput(s, inputs[0]), inputs[1..])
  }

  // ----- What is sent in answer to the inputs -----

  /** What the server sends: answers to commands, answers to vStopped, and acknowledgements. */
  datatype Kind = ToCommand | ToStopAck | Receipt

  function TextOf(p: Packet, kind: Kind): seq<string> {
    match p
    case Response(data) => if kind.ToCommand? then [data] else []
    case StopReply(n) => if kind.ToStopAck? then [n.event] else []
    case DrainDone => if kind.ToStopAck? then ["OK"] else []
    case Ack(ok) => if kind.Receipt? then [if ok then "+" else "-"] else []
    case Notify(_) => []
  }

  function Texts(wire: seq<Packet>, text: Packet -> seq<string>): seq<string> {
    if wire == [] then [] else Texts(wire[..|wire| - 1], text) + text(wire[|wire| - 1])
  }

  /** The texts of one kind on the wire, in order. */
  function TextsOn(wire: seq<Packet>, kind: Kind): seq<string> {
    Texts(wire, p => TextOf(p, kind))
  }

  ghost predicate IsCommand(i: Input) {
    i.ReadBytes? && Command(i.bytes).Some?
  }

  ghost predicate StartsProgram(s: Session, i: Input) {
    IsCommand(i) && RunsProgram(Command(i.bytes).value, s.memory.argv, i.w)
  }

  /** A verified vStopped arrives while a notification is pending. */
  ghost predicate AcksPending(s: Session, i: Input) {
    i.ReadBytes? && i.bytes != "+" && Payload(i.bytes) == Some(STOP_ACK) && s.server.pending.Some?
  }

  /** What should be sent in answer to an input: to a command its reply, or one empty text if it is not
      supported, or nothing if it starts a program; to a vStopped the next event that waits, or "OK";
      and '+' or '-' for every packet. */
  ghost function AnswerTo(s: Session, i: Input, kind: Kind): seq<string> {
    match kind
    case ToCommand =>
      if !IsCommand(i) || StartsProgram(s, i) then []
      else [if Supported(Command(i.bytes).value, i.w.stale) then ReplyTo(Command(i.bytes).value, s.memory, i.w) else ""]
    case ToStopAck =>
      if !AcksPending(s, i) then [] else [if s.server.queue == [] then "OK" else s.server.queue[0].event]
    case Receipt =>
      if !i.ReadBytes? || i.bytes == "+" then [] else [if Payload(i.bytes).Some? then "+" else "-"]
  }

  ghost function AnswersTo(s: Session, inputs: seq<Input>, kind: Kind): seq<string>
    requires IsSession(s, inputs)
    decreases |inputs|
  {
    if inputs == [] then []
    else AnswerTo(s, inputs[0], kind) + AnswersTo(AfterInput(s, inputs[0]), inputs[1..], kind)
  }

  lemma {:induction false} TextsAppend(a: seq<Packet>, b: seq<Packet>, text: Packet -> seq<string>)
    ensures Texts(a + b, text) == Texts(a, text) + Texts(b, text)
  {
    if b == [] {
      assert a + b == a;
    } else {
      var n := |b| - 1;
      TextsAppend(a, b[..n], text);
      assert (a + b)[..|a| + n] == a + b[..n];
    }
  }

  lemma OneText(wire: seq<Packet>, p: Packet, kind: Kind)
    ensures TextsOn(wire + [p], kind) == TextsOn(wire, kind) + TextOf(p, kind)
  {
    assert (wire + [p])[..|wire|] == wire;
  }

  lemma {:induction false} ResponseTexts(ps: seq<Packet>, texts: seq<string>, text: Packet -> seq<string>, on: bool)
    requires |ps| == |texts| && forall i | 0 <= i < |ps| :: text(ps[i]) == if on then [texts[i]] else []
    ensures Texts(ps, text) == if on then texts else []
  {
    if ps != [] {
      var n := |ps| - 1;
      ResponseTexts(ps[..n], texts[..n], text, on);
      assert texts == texts[..n] + [texts[n]];
    }
  }

  lemma ResultTexts(wire: seq<Packet>, result: CommandResult, kind: Kind)
    ensures TextsOn(wire + Responses(result), kind) ==
      TextsOn(wire, kind) + if kind.ToCommand? then result.replies + (if result.handled then [] else [""]) else []
  {
    var text := (p: Packet) => TextOf(p, kind);
    TextsAppend(wire, Responses(result), text);
    ResponseTexts(Responses(result), result.replies + if result.handled then [] else [""], text, kind.ToCommand?);
  }

  lemma StopAckTexts(s: State, kind: Kind)
    ensures TextsOn(AfterStopAck(s).wire, kind) == TextsOn(s.wire, kind) +
      if kind.ToStopAck? && s.pending.Some? then [if s.queue == [] then "OK" else s.queue[0].event] else []
  {
    if s.pending.Some? { OneText(s.wire, if s.queue != [] then StopReply(s.queue[0]) else DrainDone, kind); }
  }

  lemma CommandTexts(s: Session, i: Input, kind: Kind)
    requires IsCommand(i)
    ensures TextsOn(Next(s.server, EventOf(s, i)).wire, kind) == TextsOn(s.server.wire, kind) + AnswerTo(s, i, kind)
  {
    var result := ResultOf(Command(i.bytes).value, s.memory, i.w);
    CommandWire(s, i, result);
    OneText(s.server.wire, Ack(true), kind);
    ResultTexts(s.server.wire + [Ack(true)], result, kind);
  }

  lemma CommandWire(s: Session, i: Input, result: CommandResult)
    requires IsCommand(i) && result == ResultOf(Command(i.bytes).value, s.memory, i.w)
    ensures Next(s.server, EventOf(s, i)).wire == s.server.wire + [Ack(true)] + Responses(result)
    ensures AnswerTo(s, i, ToCommand) == result.replies + (if result.handled then [] else [""])
    ensures AnswerTo(s, i, ToStopAck) == [] && AnswerTo(s, i, Receipt) == ["+"]
  {
  }

  lemma BytesTexts(s: Session, i: Input, kind: Kind)
    requires i.ReadBytes?
    ensures TextsOn(Next(s.server, EventOf(s, i)).wire, kind) == TextsOn(s.server.wire, kind) + AnswerTo(s, i, kind)
  {
    if IsCommand(i) {
      CommandTexts(s, i, kind);
    } else if i.bytes != "+" {
      var ack := Ack(Payload(i.bytes).Some?);
      OneText(s.server.wire, ack, kind);
      if Payload(i.bytes).Some? { StopAckTexts(s.server.(wire := s.server.wire + [ack]), kind); }
    }
  }

  lemma NotificationTexts(s: State, event: string, id: nat, kind: Kind)
    ensures TextsOn(AfterQueue(s, event).wire, kind) == TextsOn(s.wire, kind)
    ensures TextsOn(AfterTimeout(s, id).wire, kind) == TextsOn(s.wire, kind)
  {
    var n := Notification(|s.queued|, event);
    OneText(s.wire, Notify(if s.queue == [] then n else s.queue[0]), kind);
    if s.pending.Some? { OneText(s.wire, Notify(s.pending.value), kind); }
  }

  lemma InputTexts(s: Session, i: Input, kind: Kind)
    requires CanHappen(s, i)
    ensures TextsOn(AfterInput(s, i).server.wire, kind) == TextsOn(s.server.wire, kind) + AnswerTo(s, i, kind)
  {
    match i
    case QueueEvent(event) => NotificationTexts(s.server, event, 0, kind);
    case TimerFires(id) => NotificationTexts(s.server, "", id, kind);
    case ReadBytes(_, _) => BytesTexts(s, i, kind);
  }

  lemma {:induction false} SessionTexts(s: Session, inputs: seq<Input>, kind: Kind)
    requires IsSession(s, inputs)
    ensures TextsOn(EndOf(s, inputs).server.wire, kind) == TextsOn(s.server.wire, kind) + AnswersTo(s, inputs, kind)
    decreases |inputs|
  {
    if inputs != [] {
      var next := AfterInput(s, inputs[0]);
      InputTexts(s, inputs[0], kind);
      SessionTexts(next, inputs[1..], kind);
      Joined(TextsOn(s.server.wire, kind), AnswerTo(s, inputs[0], kind), AnswersTo(next, inputs[1..], kind));
    }
  }

  lemma Joined(a: seq<string>, b: seq<string>, c: seq<string>)
    ensures a + b + c == a + (b + c)
  {
  }

  /** Over every session, what is on the wire of each kind is what the inputs call for, in their order. */
  lemma AnswersAreOnTheWire(inputs: seq<Input>, kind: Kind)
    requires IsSession(START, inputs)
    ensures TextsOn(EndOf(START, inputs).server.wire, kind) == AnswersTo(START, inputs, kind)
  {
    SessionTexts(START, inputs, kind);
  }

  // ----- One response per command, one frame per vStopped -----

  /** The commands of a session. */
  ghost function Commands(inputs: seq<Input>): nat {
    if inputs == [] then 0 else (if IsCommand(inputs[0]) then 1 else 0) + Commands(inputs[1..])
  }

  /** The commands that start a program. */
  ghost function Programs(s: Session, inputs: seq<Input>): nat
    requires IsSession(s, inputs)
    decreases |inputs|
  {
    if inputs == [] then 0
    else (if StartsProgram(s, inputs[0]) then 1 else 0) + Programs(AfterInput(s, inputs[0]), inputs[1..])
  }

  /** The vStopped packets that found a notification pending. */
  ghost function StopAcks(s: Session, inputs: seq<Input>): nat
    requires IsSession(s, inputs)
    decreases |inputs|
  {
    if inputs == [] then 0
    else (if AcksPending(s, inputs[0]) then 1 else 0) + StopAcks(AfterInput(s, inputs[0]), inputs[1..])
  }

  lemma {:induction false} AnswerCounts(s: Session, inputs: seq<Input>)
    requires IsSession(s, inputs)
    ensures |AnswersTo(s, inputs, ToCommand)| + Programs(s, inputs) == Commands(inputs)
    ensures |AnswersTo(s, inputs, ToStopAck)| == StopAcks(s, inputs)
    decreases |inputs|
  {
    if inputs != [] { AnswerCounts(AfterInput(s, inputs[0]), inputs[1..]); }
  }

  /** Over every session, the responses on the wire are as many as the verified packets other than
      vStopped, less the vRuns that started a program. */
  lemma OneResponsePerCommand(inputs: seq<Input>)
    requires IsSession(START, inputs)
    ensures |TextsOn(EndOf(START, inputs).server.wire, ToCommand)| == Commands(inputs) - Programs(START, inputs)
  {
    AnswersAreOnTheWire(inputs, ToCommand);
    AnswerCounts(START, inputs);
  }

  /** Over every session, the stop replies and ends of drains on the wire are as many as the verified
      vStopped packets that found a notification pending. */
  lemma OneFramePerStopAck(inputs: seq<Input>)
    requires IsSession(START, inputs)
    ensures |TextsOn(EndOf(START, inputs).server.wire, ToStopAck)| == StopAcks(START, inputs)
  {
    AnswersAreOnTheWire(inputs, ToStopAck);
    AnswerCounts(START, inputs);
  }

  // ----- What the peer reads -----

  /** No response on the wire needs escapes. */
  predicate ResponsesPlain(wire: seq<Packet>) {
    forall i | 0 <= i < |wire| && wire[i].Response? :: Plain(wire[i].data)
  }

  ghost predicate NoAuxv(inputs: seq<Input>) {
    forall i | 0 <= i < |inputs| && IsCommand(inputs[i]) :: !ReadsAuxv(Command(inputs[i].bytes).value)
  }

  lemma PlainResponses(packet: string, m: Memory, w: World)
    requires !ReadsAuxv(packet)
    ensures ResponsesPlain(Responses(ResultOf(packet, m, w)))
  {
    PlainUnlessAuxv(packet, m, w);
  }

  lemma InputKeepsPlain(s: Session, i: Input)
    requires CanHappen(s, i) && ResponsesPlain(s.server.wire)
    requires IsCommand(i) ==> !ReadsAuxv(Command(i.bytes).value)
    ensures ResponsesPlain(AfterInput(s, i).server.wire)
  {
    if IsCommand(i) { PlainResponses(Command(i.bytes).value, s.memory, i.w); }
  }

  lemma {:induction false} SessionKeepsPlain(s: Session, inputs: seq<Input>)
    requires IsSession(s, inputs) && NoAuxv(inputs) && ResponsesPlain(s.server.wire)
    ensures ResponsesPlain(EndOf(s, inputs).server.wire)
    decreases |inputs|
  {
    if inputs != [] {
      InputKeepsPlain(s, inputs[0]);
      forall i | 0 <= i < |inputs[1..]| && IsCommand(inputs[1..][i])
        ensures !ReadsAuxv(Command(inputs[1..][i].bytes).value)
      {
        assert inputs[1..][i] == inputs[i + 1];
      }
      SessionKeepsPlain(AfterInput(s, inputs[0]), inputs[1..]);
    }
  }

  /** In a session without reads of the auxiliary vector, whose replies are binary, a peer that checks
      the frame of a response finds the very response in it. */
  lemma PeerReadsResponses(inputs: seq<Input>, i: nat)
    requires IsSession(START, inputs) && NoAuxv(inputs)
    requires i < |EndOf(START, inputs).server.wire| && EndOf(START, inputs).server.wire[i].Response?
    ensures var data := EndOf(START, inputs).server.wire[i].data; Payload(Frame(false, data)) == Some(data)
  {
    SessionKeepsPlain(START, inputs);
    var data := EndOf(START, inputs).server.wire[i].data;
    PlainIsClean(data);
    FrameRoundTrip("", data);
    assert "" + Frame(false, data) == Frame(false, data);
  }

  /** A session is a run of the notification protocol, so everything proved of those holds. */
  lemma {:induction false} SessionIsRun(s: Session, inputs: seq<Input>) returns (es: seq<Event>)
    requires IsSession(s, inputs)
    ensures IsRun(s.server, es) && End(s.server, es) == EndOf(s, inputs).server
    decreases |inputs|
  {
    if inputs == [] {
      es := [];
    } else {
      var rest := SessionIsRun(AfterInput(s, inputs[0]), inputs[1..]);
      es := [EventOf(s, inputs[0])] + rest;
      assert es[1..] == rest;
    }
  }

  lemma TimerStep(s: Session, id: nat)
    requires id in s.server.timers
    ensures AfterInput(s, TimerFires(id)) == s.(server := AfterTimeout(s.server, id))
  {
  }

  // ----- The server object -----

  class Server {
    var notifyQueue: seq<Notification>
    var pending: Option<Notification>
    var timers: multiset<nat>
    var wire: seq<Packet>
    var nextId: nat
    const handler: CommandHandler
    ghost var queued: seq<Notification>

    ghost predicate Valid()
      reads this
    {
      nextId == |queued|
    }

    ghost function View(): Session
      reads this, handler
    {
      Session(State(notifyQueue, pending, timers, wire, queued), handler.View())
    }

    constructor ()
      ensures Valid() && View() == START && fresh(handler)
    {
      notifyQueue, pending, timers, wire, nextId, queued := [], None, multiset{}, [], 0, [];
      handler := new CommandHandler();
    }

    method QueueNotification(event: string)
      requires Valid()
      modifies this
      ensures Valid() && View() == AfterInput(old(View()), QueueEvent(event))
    {
      var n := Notification(nextId, event);
      nextId, queued := nextId + 1, queued + [n];
      notifyQueue := notifyQueue + [n];
      var _ := TryPostNextNotification();
    }

    method TryPostNextNotification() returns (posted: bool)
      modifies this`notifyQueue, this`pending, this`wire, this`timers
      ensures View() == old(View()).(server := AfterTryPost(old(View()).server))
      ensures posted <==> old(pending).None? && old(notifyQueue) != []
    {
      if pending.Some? || notifyQueue == [] { return false; }
      pending := Some(notifyQueue[0]);
      notifyQueue := notifyQueue[1..];
      PostPendingNotification();
      return true;
    }

    /** Sends the pending notification and arms a timer for it. */
    method PostPendingNotification()
      requires pending.Some?
      modifies this`wire, this`timers
      ensures wire == old(wire) + [Notify(pending.value)]
      ensures timers == old(timers) + multiset{pending.value.id}
    {
      wire := wire + [Notify(pending.value)];
      timers := timers + multiset{pending.value.id};
    }

    /** The timer armed for notification `id` fires. */
    method OnTimeout(id: nat)
      requires id in timers
      modifies this`wire, this`timers
      ensures View() == AfterInput(old(View()), TimerFires(id))
    {
      TimerStep(View(), id);
      timers := timers - multiset{id};
      if pending.None? || pending.value.id != id { return; }
      PostPendingNotification();
    }

    /** Acknowledges what was read, then hands over a notification or routes the command. */
    method OnBytesRead(bytes: string, w: World)
      requires Valid()
      modifies this`notifyQueue, this`pending, this`wire, handler
      ensures Valid() && View() == AfterInput(old(View()), ReadBytes(bytes, w))
      ensures bytes != "+" ==>
        |wire| > |old(wire)| && wire[..|old(wire)| + 1] == old(wire) + [Ack(Payload(bytes).Some?)]
    {
      if bytes == "+" { return; }
      var packet := VerifyPacket(bytes);
      wire := wire + [Ack(packet.Some?)];
      if packet.None? { return; }
      if packet.value == STOP_ACK {
        OnStopAck();
      } else {
        Route(packet.value, w);
      }
    }

    method OnStopAck()
      modifies this`notifyQueue, this`pending, this`wire
      ensures View() == old(View()).(server := AfterStopAck(old(View()).server))
    {
      if pending.None? { return; }
      if notifyQueue != [] {
        var n := notifyQueue[0];
        notifyQueue := notifyQueue[1..];
        wire := wire + [StopReply(n)];
      } else {
        pending := None;
        wire := wire + [DrainDone];
      }
    }

    /** Routes a command to the handler and posts its replies, or an empty one if it is not supported. */
    method Route(packet: string, w: World)
      modifies this`wire, handler
      ensures wire == old(wire) + Responses(ResultOf(packet, old(handler.View()), w))
      ensures handler.View() == MemoryAfter(packet, old(handler.View()), w)
      ensures old(wire) <= wire && old(handler.replies) <= handler.replies
      ensures var replied := |handler.replies| - |old(handler.replies)|;
        && |wire| == |old(wire)| + replied + (if Supported(packet, w.stale) then 0 else 1)
        && (forall i | |old(wire)| <= i < |old(wire)| + replied ::
             wire[i] == Response(handler.replies[|old(handler.replies)| + (i - |old(wire)|)]))
        && (!Supported(packet, w.stale) ==> wire[|wire| - 1] == Response(""))
    {
      var before := |handler.replies|;
      var handled := handler.HandleCommand(packet, w);
      var replies := handler.replies[before..];
      assert CommandResult(handled, replies) == ResultOf(packet, old(handler.View()), w);
      wire := wire + Responses(CommandResult(handled, replies));
    }
  }
}
