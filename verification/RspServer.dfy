/** The Stop-notification protocol of the debug server: a queue of notifications, at most one
    pending, acknowledged by vStopped packets and resent by timers.

    A notification has a unique identity, its position among the notifications queued.  Frames
    are written in the order in which they are posted.  Acknowledgements take a shorter way and
    may overtake frames posted before them: `wire` has them where they are sent, and nothing
    proved here depends on their place among the frames. */
module RspServer {
  import opened Options
  import opened RspFraming

  datatype Notification = Notification(id: nat, event: string)

  datatype Packet =
    | Ack(ok: bool)                   // '+' or '-'
    | Notify(n: Notification)         // "%Stop:<event>"
    | StopReply(n: Notification)      // "$<event>" in answer to vStopped
    | DrainDone                       // "$OK" in answer to vStopped
    | Response(data: string)          // the answer to a command

  /** What the command handler does with a packet: its verdict and its calls of the
      response callback. */
  datatype CommandResult = CommandResult(handled: bool, replies: seq<string>)

  datatype State = State(
    queue: seq<Notification>,
    pending: Option<Notification>,
    timers: multiset<nat>,
    wire: seq<Packet>,
    queued: seq<Notification>)

  datatype Event =
    | Queue(event: string)
    | Bytes(bytes: string, result: CommandResult)
    | Timeout(id: nat)

  const INIT := State([], None, multiset{}, [], [])
  const STOP_ACK := "vStopped"

  // ----- The steps as functions of the state -----

  function AfterTryPost(s: State): State {
    if s.pending.Some? || s.queue == [] then s
    else
      var n := s.queue[0];
      s.(pending := Some(n), queue := s.queue[1..], wire := s.wire + [Notify(n)],
         timers := s.timers + multiset{n.id})
  }

  function AfterQueue(s: State, event: string): State {
    var n := Notification(|s.queued|, event);
    AfterTryPost(s.(queue := s.queue + [n], queued := s.queued + [n]))
  }

  function AfterTimeout(s: State, id: nat): State {
    if s.pending.Some? && s.pending.value.id == id then s.(wire := s.wire + [Notify(s.pending.value)])
    else s.(timers := s.timers - multiset{id})
  }

  function AfterStopAck(s: State): State {
    if s.pending.None? then s
    else if s.queue != [] then s.(queue := s.queue[1..], wire := s.wire + [StopReply(s.queue[0])])
    else s.(pending := None, wire := s.wire + [DrainDone])
  }

  function Responses(result: CommandResult): (r: seq<Packet>)
    ensures |r| == |result.replies| + (if result.handled then 0 else 1)
    ensures forall i | 0 <= i < |r| :: r[i].Response?
  {
    seq(|result.replies|, i requires 0 <= i < |result.replies| => Response(result.replies[i]))
    + if result.handled then [] else [Response("")]
  }

  ghost function AfterBytes(s: State, bytes: string, result: CommandResult): State {
    if bytes == "+" then s
    else
      var payload := Payload(bytes);
      var s := s.(wire := s.wire + [Ack(payload.Some?)]);
      if payload.None? then s
      else if payload.value == STOP_ACK then AfterStopAck(s)
      else s.(wire := s.wire + Responses(result))
  }

  predicate Enabled(s: State, e: Event) { e.Timeout? ==> e.id in s.timers }

  ghost function Next(s: State, e: Event): State
    requires Enabled(s, e)
  {
    match e
    case Queue(event) => AfterQueue(s, event)
    case Bytes(bytes, result) => AfterBytes(s, bytes, result)
    case Timeout(id) => AfterTimeout(s, id)
  }

  ghost predicate IsRun(s: State, es: seq<Event>)
    decreases |es|
  {
    es == [] || (Enabled(s, es[0]) && IsRun(Next(s, es[0]), es[1..]))
  }

  ghost function End(s: State, es: seq<Event>): State
    requires IsRun(s, es)
    decreases |es|
  {
    if es == [] then s else End(Next(s, es[0]), es[1..])
  }

  // ----- What the peer sees -----

  /** The notifications transmitted for the first time, in the order on the wire. */
  function Transmitted(wire: seq<Packet>): seq<Notification> {
    if wire == [] then []
    else
      var before, p := wire[..|wire| - 1], wire[|wire| - 1];
      Transmitted(before) +
      if p.StopReply? || (p.Notify? && p !in before) then [p.n] else []
  }

  /** The order in which notifications open and close: a notification, which may be repeated as
      long as it is open, stop replies while it is open, then the end of the drain, and only then
      the next notification. */
  datatype Phase = Idle | Open(n: Notification) | Broken

  function PhaseOf(wire: seq<Packet>): Phase {
    if wire == [] then Idle
    else
      var before := PhaseOf(wire[..|wire| - 1]);
      match wire[|wire| - 1]
      case Ack(_) => before
      case Response(_) => before
      case Notify(n) => if before.Idle? || before == Open(n) then Open(n) else Broken
      case StopReply(_) => if before.Open? then before else Broken
      case DrainDone => if before.Open? then Idle else Broken
  }

  /** Packet `p` may follow `wire`: a notification is new, or is the one that is open. */
  predicate Fresh(wire: seq<Packet>, p: Packet) {
    && (p.StopReply? ==> p.n.id == |Transmitted(wire)|)
    && (p.Notify? ==> p.n.id == |Transmitted(wire)| || PhaseOf(wire) == Open(p.n))
  }

  predicate FreshAt(wire: seq<Packet>, j: nat)
    requires j < |wire|
  {
    Fresh(wire[..j], wire[j])
  }

  predicate WireInv(wire: seq<Packet>) {
    forall j: nat {:trigger FreshAt(wire, j)} | j < |wire| :: FreshAt(wire, j)
  }

  /** What was sent and what waits is what was queued. */
  predicate OrderInv(sent: seq<Notification>, queue: seq<Notification>, queued: seq<Notification>) {
    sent + queue == queued && forall i | 0 <= i < |queued| :: queued[i].id == i
  }

  predicate PendingInv(wire: seq<Packet>, pending: Option<Notification>) {
    && PhaseOf(wire) == (if pending.Some? then Open(pending.value) else Idle)
    && (pending.Some? ==> Notify(pending.value) in wire)
  }

  /** Each notification sent has at most one timer, and the pending one has one. */
  ghost predicate TimerInv(timers: multiset<nat>, pending: Option<Notification>, sent: nat) {
    && (forall id :: timers[id] <= 1)
    && (pending.Some? ==> pending.value.id in timers)
    && (forall id :: id in timers ==> id < sent)
  }

  ghost predicate Inv(s: State) {
    && OrderInv(Transmitted(s.wire), s.queue, s.queued)
    && (s.queue != [] ==> s.pending.Some?)
    && PendingInv(s.wire, s.pending)
    && WireInv(s.wire)
    && TimerInv(s.timers, s.pending, |Transmitted(s.wire)|)
  }

  // ----- Every step keeps the invariant -----

  lemma Grow(wire: seq<Packet>, p: Packet)
    ensures (wire + [p])[..|wire|] == wire
    ensures Transmitted(wire + [p])
         == Transmitted(wire) + if p.StopReply? || (p.Notify? && p !in wire) then [p.n] else []
  {
    assert (wire + [p])[..|wire + [p]| - 1] == wire;
  }

  /** Every notification on the wire counts among those transmitted. */
  lemma {:induction false} IdsBelow(wire: seq<Packet>)
    requires WireInv(wire)
    ensures forall j | 0 <= j < |wire| && (wire[j].Notify? || wire[j].StopReply?) :: wire[j].n.id < |Transmitted(wire)|
  {
    if wire != [] {
      var before, p := wire[..|wire| - 1], wire[|wire| - 1];
      PrefixInv(wire, |wire| - 1);
      assert FreshAt(wire, |wire| - 1);
      IdsBelow(before);
      OpenWasSent(before);
    }
  }

  lemma PrefixInv(wire: seq<Packet>, k: nat)
    requires WireInv(wire) && k <= |wire|
    ensures WireInv(wire[..k])
  {
    forall j: nat | j < k ensures FreshAt(wire[..k], j) {
      assert wire[..k][..j] == wire[..j];
      assert FreshAt(wire, j);
    }
  }

  lemma WireGrows(wire: seq<Packet>, p: Packet)
    requires WireInv(wire) && Fresh(wire, p)
    ensures WireInv(wire + [p])
    ensures p.Notify? ==> (p !in wire <==> p.n.id == |Transmitted(wire)|)
  {
    var w := wire + [p];
    IdsBelow(wire);
    OpenWasSent(wire);
    forall j: nat | j < |w| ensures FreshAt(w, j) {
      assert w[..j] == wire[..j];
      if j < |wire| { assert FreshAt(wire, j); }
    }
    assert wire[..|wire|] == wire;
  }

  /** The open notification is on the wire. */
  lemma {:induction false} OpenWasSent(wire: seq<Packet>)
    ensures PhaseOf(wire).Open? ==> Notify(PhaseOf(wire).n) in wire
  {
    if wire != [] {
      OpenWasSent(wire[..|wire| - 1]);
      assert wire == wire[..|wire| - 1] + [wire[|wire| - 1]];
    }
  }

  /** Acknowledgements and responses carry no notification. */
  lemma {:induction false} QuietPackets(wire: seq<Packet>, ps: seq<Packet>)
    requires WireInv(wire) && forall i | 0 <= i < |ps| :: ps[i].Ack? || ps[i].Response?
    ensures WireInv(wire + ps) && PhaseOf(wire + ps) == PhaseOf(wire) && Transmitted(wire + ps) == Transmitted(wire)
    decreases |ps|
  {
    if ps == [] {
      assert wire + ps == wire;
    } else {
      WireGrows(wire, ps[0]);
      Grow(wire, ps[0]);
      QuietPackets(wire + [ps[0]], ps[1..]);
      assert wire + ps == wire + [ps[0]] + ps[1..];
    }
  }

  lemma QuietPacketsKeepInv(s: State, ps: seq<Packet>)
    requires Inv(s) && forall i | 0 <= i < |ps| :: ps[i].Ack? || ps[i].Response?
    ensures Inv(s.(wire := s.wire + ps))
  {
    QuietPackets(s.wire, ps);
  }

  lemma StopAckKeepsInv(s: State)
    requires Inv(s)
    ensures Inv(AfterStopAck(s))
  {
    if s.pending.Some? {
      var p := if s.queue != [] then StopReply(s.queue[0]) else DrainDone;
      if s.queue != [] {
        assert s.queued[|Transmitted(s.wire)|] == s.queue[0];
      }
      WireGrows(s.wire, p);
      Grow(s.wire, p);
    }
  }

  lemma ResendKeepsInv(s: State)
    requires Inv(s) && s.pending.Some?
    ensures Inv(s.(wire := s.wire + [Notify(s.pending.value)]))
  {
    WireGrows(s.wire, Notify(s.pending.value));
    Grow(s.wire, Notify(s.pending.value));
  }

  lemma TimeoutKeepsInv(s: State, id: nat)
    requires Inv(s) && id in s.timers
    ensures Inv(AfterTimeout(s, id))
  {
    if s.pending.Some? && s.pending.value.id == id { ResendKeepsInv(s); }
  }

  lemma QueueKeepsInv(s: State, event: string)
    requires Inv(s)
    ensures Inv(AfterQueue(s, event))
  {
    var n := Notification(|s.queued|, event);
    QueueGrows(Transmitted(s.wire), s.queue, s.queued, n);
    if s.pending.None? { PostKeepsInv(s.(queue := [n], queued := s.queued + [n]), n); }
  }

  lemma QueueGrows(sent: seq<Notification>, queue: seq<Notification>, queued: seq<Notification>, n: Notification)
    requires OrderInv(sent, queue, queued) && n.id == |queued|
    ensures OrderInv(sent, queue + [n], queued + [n])
  {
    assert sent + (queue + [n]) == sent + queue + [n];
  }

  /** Posting the only notification that waits. */
  lemma PostKeepsInv(s: State, n: Notification)
    requires OrderInv(Transmitted(s.wire), [n], s.queued) && s.queue == [n] && s.pending.None?
    requires PendingInv(s.wire, None) && WireInv(s.wire)
    requires TimerInv(s.timers, None, |Transmitted(s.wire)|)
    ensures Inv(AfterTryPost(s))
  {
    assert s.queued[|Transmitted(s.wire)|] == n;
    WireGrows(s.wire, Notify(n));
    Grow(s.wire, Notify(n));
  }

  lemma NextKeepsInv(s: State, e: Event)
    requires Inv(s) && Enabled(s, e)
    ensures Inv(Next(s, e))
  {
    match e
    case Queue(event) => QueueKeepsInv(s, event);
    case Timeout(id) => TimeoutKeepsInv(s, id);
    case Bytes(bytes, result) =>
      if bytes != "+" {
        var payload := Payload(bytes);
        QuietPacketsKeepInv(s, [Ack(payload.Some?)]);
        var s1 := s.(wire := s.wire + [Ack(payload.Some?)]);
        if payload.Some? {
          StopAckKeepsInv(s1);
          QuietPacketsKeepInv(s1, Responses(result));
        }
      }
  }

  lemma {:induction false} RunKeepsInv(s: State, es: seq<Event>)
    requires Inv(s) && IsRun(s, es)
    ensures Inv(End(s, es))
    decreases |es|
  {
    if es != [] {
      NextKeepsInv(s, es[0]);
      RunKeepsInv(Next(s, es[0]), es[1..]);
    }
  }

  // ----- What holds after every run -----

  /** Events reach the peer in the order in which they were queued, and none is held back
      unless a notification is pending. */
  lemma {:induction false} TransmittedInOrder(es: seq<Event>)
    requires IsRun(INIT, es)
    ensures var s := End(INIT, es);
      Transmitted(s.wire) + s.queue == s.queued && (s.queue != [] ==> s.pending.Some?)
  {
    RunKeepsInv(INIT, es);
  }

  /** Notifications open and close in order, and the phase of the wire says whether one is pending:
      the drain is reported done exactly when the pending notification is retired. */
  lemma {:induction false} WireFollowsProtocol(es: seq<Event>)
    requires IsRun(INIT, es)
    ensures var s := End(INIT, es);
      PhaseOf(s.wire) == if s.pending.Some? then Open(s.pending.value) else Idle
  {
    RunKeepsInv(INIT, es);
  }

  /** As long as a notification is pending a timer for it is armed, and only one. */
  lemma {:induction false} PendingIsTimed(es: seq<Event>)
    requires IsRun(INIT, es)
    ensures var s := End(INIT, es); s.pending.Some? ==> s.timers[s.pending.value.id] == 1
  {
    RunKeepsInv(INIT, es);
  }

  /** Once a notification has been handed over in a drain, or its drain has ended, it is never
      sent again. */
  lemma {:induction false} RetiredIsNeverResent(es: seq<Event>, k: nat, j: nat, n: Notification)
    requires IsRun(INIT, es)
    requires k <= j < |End(INIT, es).wire|
    requires var before := End(INIT, es).wire[..k];
      StopReply(n) in before || (Notify(n) in before && PhaseOf(before) != Open(n))
    ensures End(INIT, es).wire[j] != Notify(n) && End(INIT, es).wire[j] != StopReply(n)
  {
    RunKeepsInv(INIT, es);
    PrefixInv(End(INIT, es).wire, k);
    if StopReply(n) in End(INIT, es).wire[..k] { HandedOverIsNotOpen(End(INIT, es).wire[..k], n); }
    RetiredStays(End(INIT, es).wire, k, j, n);
  }

  predicate Retired(wire: seq<Packet>, n: Notification) {
    (StopReply(n) in wire || Notify(n) in wire) && PhaseOf(wire) != Open(n)
  }

  lemma {:induction false} RetiredStays(wire: seq<Packet>, k: nat, j: nat, n: Notification)
    requires WireInv(wire) && k <= j < |wire| && Retired(wire[..k], n)
    ensures wire[j] != Notify(n) && wire[j] != StopReply(n)
    decreases j - k
  {
    PrefixInv(wire, k);
    IdsBelow(wire[..k]);
    assert FreshAt(wire, k);
    if k < j {
      assert wire[..k + 1] == wire[..k] + [wire[k]];
      assert wire[..k + 1][..k] == wire[..k];
      RetiredStays(wire, k + 1, j, n);
    }
  }

  /** A notification handed over in a drain is never the open one. */
  lemma {:induction false} HandedOverIsNotOpen(wire: seq<Packet>, n: Notification)
    requires WireInv(wire) && StopReply(n) in wire
    ensures Notify(n) !in wire && PhaseOf(wire) != Open(n)
  {
    var before, p := wire[..|wire| - 1], wire[|wire| - 1];
    assert wire == before + [p];
    PrefixInv(wire, |wire| - 1);
    assert FreshAt(wire, |wire| - 1);
    IdsBelow(before);
    OpenWasSent(before);
    if StopReply(n) in before { HandedOverIsNotOpen(before, n); }
    OpenWasSent(wire);
  }

  // ----- When nothing interrupts a drain -----

  /** The order that the source describes: once a drain has begun, only stop replies until it ends. */
  datatype Strict = Quiet | Told(n: Notification) | Draining(n: Notification) | Disordered

  function StrictOf(wire: seq<Packet>): Strict {
    if wire == [] then Quiet
    else
      var before := StrictOf(wire[..|wire| - 1]);
      match wire[|wire| - 1]
      case Ack(_) => before
      case Response(_) => before
      case Notify(n) => if before.Quiet? || before == Told(n) then Told(n) else Disordered
      case StopReply(_) => if before.Told? || before.Draining? then Draining(before.n) else Disordered
      case DrainDone => if before.Told? || before.Draining? then Quiet else Disordered
  }

  predicate Ordered(wire: seq<Packet>) { StrictOf(wire) != Disordered }

  /** A stop reply was sent and its drain has not ended. */
  predicate InDrain(wire: seq<Packet>) {
    exists j | 0 <= j < |wire| :: wire[j].StopReply? && forall k | j < k < |wire| :: wire[k] != DrainDone
  }

  /** The timer of the pending notification fires after the peer has begun to drain. */
  predicate IsLateResend(s: State, e: Event) {
    e.Timeout? && s.pending.Some? && s.pending.value.id == e.id && InDrain(s.wire)
  }

  lemma InDrainStep(wire: seq<Packet>, p: Packet)
    ensures InDrain(wire + [p]) <==> p.StopReply? || (InDrain(wire) && p != DrainDone)
  {
    var w := wire + [p];
    if p.StopReply? { assert w[|wire|].StopReply?; }
    if InDrain(wire) && p != DrainDone {
      var j :| 0 <= j < |wire| && wire[j].StopReply? && forall k | j < k < |wire| :: wire[k] != DrainDone;
      assert w[j].StopReply?;
    }
    if InDrain(w) && !p.StopReply? {
      var j :| 0 <= j < |w| && w[j].StopReply? && forall k | j < k < |w| :: w[k] != DrainDone;
      assert wire[j].StopReply? && w[|wire|] == p;
      forall k | j < k < |wire| ensures wire[k] != DrainDone { assert w[k] == wire[k]; }
    }
  }

  /** An ordered wire is draining exactly after a stop reply of the open notification. */
  lemma {:induction false} StrictPhase(wire: seq<Packet>)
    requires Ordered(wire)
    ensures var strict := StrictOf(wire);
      && PhaseOf(wire) == (if strict.Quiet? then Idle else Open(strict.n))
      && (strict.Draining? <==> InDrain(wire))
  {
    if wire != [] {
      var before, p := wire[..|wire| - 1], wire[|wire| - 1];
      StrictPhase(before);
      InDrainStep(before, p);
      assert wire == before + [p];
    }
  }

  lemma StrictStep(wire: seq<Packet>, p: Packet)
    requires Ordered(wire)
    ensures Ordered(wire + [p]) <==>
      match p
      case Ack(_) => true
      case Response(_) => true
      case Notify(n) => PhaseOf(wire).Idle? || (PhaseOf(wire) == Open(n) && !InDrain(wire))
      case StopReply(_) => PhaseOf(wire).Open?
      case DrainDone => PhaseOf(wire).Open?
  {
    StrictPhase(wire);
    assert (wire + [p])[..|wire|] == wire;
  }

  lemma {:induction false} DisorderStays(wire: seq<Packet>, more: seq<Packet>)
    requires Ordered(wire + more)
    ensures Ordered(wire)
    decreases |more|
  {
    if more == [] {
      assert wire + more == wire;
    } else {
      var all := wire + more;
      assert all[..|all| - 1] == wire + more[..|more| - 1];
      DisorderStays(wire, more[..|more| - 1]);
    }
  }

  lemma {:induction false} QuietPacketsKeepOrder(wire: seq<Packet>, ps: seq<Packet>)
    requires Ordered(wire) && forall i | 0 <= i < |ps| :: ps[i].Ack? || ps[i].Response?
    ensures Ordered(wire + ps)
    decreases |ps|
  {
    if ps == [] {
      assert wire + ps == wire;
    } else {
      StrictStep(wire, ps[0]);
      QuietPacketsKeepOrder(wire + [ps[0]], ps[1..]);
      assert wire + ps == wire + [ps[0]] + ps[1..];
    }
  }

  lemma StopAckKeepsOrder(s: State)
    requires PendingInv(s.wire, s.pending) && Ordered(s.wire)
    ensures Ordered(AfterStopAck(s).wire)
  {
    if s.pending.Some? { StrictStep(s.wire, if s.queue != [] then StopReply(s.queue[0]) else DrainDone); }
  }

  lemma BytesKeepOrder(s: State, bytes: string, result: CommandResult)
    requires Inv(s) && Ordered(s.wire)
    ensures Ordered(AfterBytes(s, bytes, result).wire)
  {
    if bytes != "+" {
      var ack := [Ack(Payload(bytes).Some?)];
      var s1 := s.(wire := s.wire + ack);
      QuietPacketsKeepInv(s, ack);
      QuietPacketsKeepOrder(s.wire, ack);
      StopAckKeepsOrder(s1);
      QuietPacketsKeepOrder(s1.wire, Responses(result));
    }
  }

  /** An event keeps the order if and only if it is not a late resend. */
  lemma KeepsOrderIff(s: State, e: Event)
    requires Inv(s) && Enabled(s, e) && Ordered(s.wire)
    ensures Ordered(Next(s, e).wire) <==> !IsLateResend(s, e)
  {
    match e
    case Queue(event) =>
      if s.pending.None? { StrictStep(s.wire, Notify(Notification(|s.queued|, event))); }
    case Timeout(id) =>
      if s.pending.Some? { StrictStep(s.wire, Notify(s.pending.value)); }
    case Bytes(bytes, result) => BytesKeepOrder(s, bytes, result);
  }

  /** So it is in every state that a run reaches. */
  lemma ReachedKeepsOrderIff(es: seq<Event>, e: Event)
    requires IsRun(INIT, es) && Enabled(End(INIT, es), e) && Ordered(End(INIT, es).wire)
    ensures Ordered(Next(End(INIT, es), e).wire) <==> !IsLateResend(End(INIT, es), e)
  {
    RunKeepsInv(INIT, es);
    KeepsOrderIff(End(INIT, es), e);
  }

  ghost predicate NoLateResend(s: State, es: seq<Event>)
    requires IsRun(s, es)
    decreases |es|
  {
    es == [] || (!IsLateResend(s, es[0]) && NoLateResend(Next(s, es[0]), es[1..]))
  }

  lemma {:induction false} WireExtends(s: State, es: seq<Event>)
    requires IsRun(s, es)
    ensures s.wire <= End(s, es).wire
    decreases |es|
  {
    if es != [] {
      WireExtends(Next(s, es[0]), es[1..]);
      assert s.wire <= Next(s, es[0]).wire;
    }
  }

  lemma {:induction false} RunOrderedIff(s: State, es: seq<Event>)
    requires Inv(s) && IsRun(s, es) && Ordered(s.wire)
    ensures Ordered(End(s, es).wire) <==> NoLateResend(s, es)
    decreases |es|
  {
    if es != [] {
      var next := Next(s, es[0]);
      KeepsOrderIff(s, es[0]);
      NextKeepsInv(s, es[0]);
      if Ordered(next.wire) {
        RunOrderedIff(next, es[1..]);
      } else {
        WireExtends(next, es[1..]);
        var end := End(s, es).wire;
        assert end == next.wire + end[|next.wire|..];
        if Ordered(end) { DisorderStays(next.wire, end[|next.wire|..]); }
      }
    }
  }

  /** Over every run: nothing interrupts a drain if and only if no timer of the pending
      notification fires after a stop reply of its drain. */
  lemma OrderedIff(es: seq<Event>)
    requires IsRun(INIT, es)
    ensures Ordered(End(INIT, es).wire) <==> NoLateResend(INIT, es)
  {
    RunOrderedIff(INIT, es);
  }

  /** In every drain that is under way, the timer of the pending notification is still armed, and
      interrupts the drain if it fires. */
  lemma DrainCanBeInterrupted(s: State)
    requires Inv(s) && Ordered(s.wire) && InDrain(s.wire)
    ensures s.pending.Some? && Enabled(s, Timeout(s.pending.value.id))
    ensures !Ordered(Next(s, Timeout(s.pending.value.id)).wire)
  {
    StrictPhase(s.wire);
    KeepsOrderIff(s, Timeout(s.pending.value.id));
  }

  ghost predicate Steps(s: State, e: Event, next: State) { Enabled(s, e) && Next(s, e) == next }

  ghost predicate Leads(s: State, es: seq<Event>, end: State) { IsRun(s, es) && End(s, es) == end }

  lemma StepThenRun(s: State, e: Event, next: State, rest: seq<Event>, end: State)
    requires Steps(s, e, next) && Leads(next, rest, end)
    ensures Leads(s, [e] + rest, end)
  {
    assert ([e] + rest)[1..] == rest;
  }

  lemma FourSteps(s0: State, e1: Event, s1: State, e2: Event, s2: State, e3: Event, s3: State, e4: Event, s4: State)
    requires Steps(s0, e1, s1) && Steps(s1, e2, s2) && Steps(s2, e3, s3) && Steps(s3, e4, s4)
    ensures Leads(s0, [e1] + ([e2] + ([e3] + ([e4] + []))), s4)
  {
    StepThenRun(s3, e4, s4, [], s4);
    StepThenRun(s2, e3, s3, [e4] + [], s4);
    StepThenRun(s1, e2, s2, [e3] + ([e4] + []), s4);
    StepThenRun(s0, e1, s1, [e2] + ([e3] + ([e4] + [])), s4);
  }

  /** A run in which it happens: the notification is repeated after the peer acknowledged it. */
  lemma DrainIsInterrupted(a: string, b: string, result: CommandResult) returns (es: seq<Event>)
    ensures IsRun(INIT, es) && !Ordered(End(INIT, es).wire)
    ensures var first, second := Notification(0, a), Notification(1, b);
      End(INIT, es).wire == [Notify(first), Ack(true), StopReply(second), Notify(first)]
  {
    var first, second := Notification(0, a), Notification(1, b);
    var s1, s2 := FirstTold(first), SecondWaits(first, second);
    var s3 := SecondHanded(first, second, []);
    var s4 := SecondHanded(first, second, [Notify(first)]);
    var ack := Bytes(Frame(false, STOP_ACK), result);
    es := [Queue(a)] + ([Queue(b)] + ([ack] + ([Timeout(0)] + [])));
    QueueSteps(a, b);
    DrainSteps(first, second, result);
    FourSteps(INIT, Queue(a), s1, Queue(b), s2, ack, s3, Timeout(0), s4);
    assert s4.wire == [Notify(first), Ack(true), StopReply(second), Notify(first)];
    InterruptedIsDisordered(first, second);
  }

  function FirstTold(first: Notification): State {
    State([], Some(first), multiset{0}, [Notify(first)], [first])
  }

  function SecondWaits(first: Notification, second: Notification): State {
    State([second], Some(first), multiset{0}, [Notify(first)], [first, second])
  }

  function SecondHanded(first: Notification, second: Notification, more: seq<Packet>): State {
    State([], Some(first), multiset{0}, [Notify(first), Ack(true), StopReply(second)] + more, [first, second])
  }

  lemma QueueSteps(a: string, b: string)
    ensures var first, second := Notification(0, a), Notification(1, b);
      && Steps(INIT, Queue(a), FirstTold(first))
      && Steps(FirstTold(first), Queue(b), SecondWaits(first, second))
  {
  }

  lemma DrainSteps(first: Notification, second: Notification, result: CommandResult)
    requires first.id == 0
    ensures Steps(SecondWaits(first, second), Bytes(Frame(false, STOP_ACK), result), SecondHanded(first, second, []))
    ensures Steps(SecondHanded(first, second, []), Timeout(0), SecondHanded(first, second, [Notify(first)]))
  {
    StopAckStep(SecondWaits(first, second), result);
  }

  lemma StopAckStep(s: State, result: CommandResult)
    ensures Next(s, Bytes(Frame(false, STOP_ACK), result)) == AfterStopAck(s.(wire := s.wire + [Ack(true)]))
  {
    var bytes := Frame(false, STOP_ACK);
    PlainIsClean(STOP_ACK);
    FrameRoundTrip("", STOP_ACK);
    assert "" + bytes == bytes && bytes[0] == '$';
  }

  lemma InterruptedIsDisordered(first: Notification, second: Notification)
    ensures !Ordered([Notify(first), Ack(true), StopReply(second), Notify(first)])
  {
    var wire := [Notify(first), Ack(true), StopReply(second), Notify(first)];
    assert wire[..3][..2][..1][..0] == [];
    assert StrictOf(wire[..3][..2][..1]) == Told(first);
    assert StrictOf(wire[..3][..2]) == Told(first);
    assert StrictOf(wire[..3]) == Draining(first);
  }
}
