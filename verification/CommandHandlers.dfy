/** The command handler of the debug server as an object: every method answers as specified, and makes
    exactly the specified calls on the debugged process. */
module CommandHandlers {
  import opened Options
  import opened Numerals
  import opened ThreadIds
  import opened ThreadActions
  import opened ContinueThreads
  import opened RspFraming
  import opened ThreadList
  import opened MonitorCommands
  import opened CommandReplies
  import AuxvReply
  import RunArgs

  class CommandHandler {
    var inThreadInfoSequence: bool
    var inferiorArgv: seq<string>
    /** What the callback was called with, in order. */
    var replies: seq<string>
    /** The threads set in motion by vCont. */
    var moves: seq<Move>
    /** The other calls that changed the debugged process. */
    var effects: seq<Op>
    var verbosity: Int32
    var quitting: bool

    ghost function View(): Memory
      reads this
    {
      Memory(inThreadInfoSequence, inferiorArgv, verbosity, quitting)
    }

    constructor ()
      ensures View() == NO_MEMORY && replies == [] && moves == [] && effects == []
    {
      inThreadInfoSequence, inferiorArgv, replies, moves, effects := false, [], [], [], [];
      verbosity, quitting := 0, false;
    }

    /** The callback was called `n` times. */
    twostate predicate Called(n: nat)
      reads this
    {
      |replies| == |old(replies)| + n && old(replies) <= replies
    }

    function Last(): string
      reads this
    {
      if replies == [] then "" else replies[|replies| - 1]
    }

    /** The callback was called once, with this text. */
    twostate predicate Replied(text: string)
      reads this
    {
      replies == old(replies) + [text]
    }

    /** The given calls succeeded, and the callback was called once, with this text. */
    twostate predicate Did(ops: seq<Op>, text: string)
      reads this
    {
      Replied(text) && effects == old(effects) + ops
    }

    method Do(op: Op, w: World) returns (ok: bool)
      modifies this`effects
      ensures ok == w.ok(op) && effects == old(effects) + WhenDone(ok, op)
    {
      ok := w.ok(op);
      if ok { effects := effects + [op]; }
    }

    method Reply(text: string) returns (handled: bool)
      modifies this`replies
      ensures handled && replies == old(replies) + [text]
    {
      replies := replies + [text];
      handled := true;
    }

    method ReplyOK() returns (handled: bool)
      modifies this`replies
      ensures handled && replies == old(replies) + ["OK"]
    {
      handled := Reply("OK");
    }

    method ReplyWithError(e: ErrorCode) returns (handled: bool)
      modifies this`replies
      ensures handled && replies == old(replies) + [ErrorPacket(e)]
    {
      handled := Reply(ErrorPacket(e));
    }

    /** Handles one packet, and remembers what the next one needs. */
    method HandleCommand(packet: string, w: World) returns (handled: bool)
      modifies this
      ensures handled <==> Supported(packet, w.stale)
      ensures Called(Replies(packet, old(inferiorArgv), w))
      ensures View() == MemoryAfter(packet, old(View()), w)
      ensures effects == old(effects) + Effects(packet, old(inferiorArgv), w)
      ensures moves == old(moves) + MovesOn(packet, w)
      ensures Replies(packet, old(inferiorArgv), w) == 1 ==>
        && Last() == ReplyTo(packet, old(View()), w)
        && (Fits(Last()) <==> !ReplyIsTooLong(packet, old(inThreadInfoSequence), w))
        && (!ReadsAuxv(packet) ==> Plain(Last()))
        && (IsAction(packet) ==> (Last() == "OK" <==> Acted(Effects(packet, old(inferiorArgv), w))))
    {
      handled := Dispatch(packet, w);
      if handled { FitsIff(packet, old(View()), w); }
      if !ReadsAuxv(packet) { PlainUnlessAuxv(packet, old(View()), w); }
      if IsAction(packet) { OkIffActed(packet, old(View()), w); }
    }

    method Dispatch(packet: string, w: World) returns (handled: bool)
      modifies this
      ensures handled <==> Supported(packet, w.stale)
      ensures if Replies(packet, old(inferiorArgv), w) == 1 then Replied(ReplyTo(packet, old(View()), w)) else Called(0)
      ensures View() == MemoryAfter(packet, old(View()), w)
      ensures effects == old(effects) + Effects(packet, old(inferiorArgv), w)
      ensures moves == old(moves) + MovesOn(packet, w)
    {
      if packet == "" { return false; }
      var c, rest := packet[0], packet[1..];
      if IsControl(c) {
        handled := HandleControl(packet, w);
      } else if c == '?' {
        if rest != "" { return false; }
        handled := ReplyOK();
      } else if c == 'g' {
        if rest != "" { return false; }
        handled := HandleReadRegisters(w);
      } else if c == 'H' {
        handled := HandleSelectThread(rest, w);
      } else if c == 'm' {
        handled := HandleReadMemory(rest, w);
      } else if c == 'q' {
        QuerySupported(rest);
        handled := HandleQuery(QueryVerbOf(Prefix(rest)), Params(rest), w);
      } else if c == 'Q' {
        if Prefix(rest) != "NonStop" { return false; }
        handled := HandleSetNonStop(Params(rest));
      } else if c == 'T' {
        handled := HandleThreadAlive(rest, w);
      } else {
        handled := false;
      }
    }

    /** The packets that can change the debugged process. */
    method HandleControl(packet: string, w: World) returns (handled: bool)
      requires packet != "" && IsControl(packet[0])
      modifies this`replies, this`inferiorArgv, this`moves, this`effects
      ensures handled <==> Supported(packet, w.stale)
      ensures if Replies(packet, old(inferiorArgv), w) == 1 then Replied(ControlReply(packet, w)) else Called(0)
      ensures inferiorArgv == ArgvAfter(packet, old(inferiorArgv), w)
      ensures effects == old(effects) + Effects(packet, old(inferiorArgv), w)
      ensures moves == old(moves) + MovesOn(packet, w)
    {
      var rest := packet[1..];
      if packet[0] == 'c' {
        handled := HandleContinue(rest, w);
      } else if packet[0] == 'C' {
        handled := HandleContinueWithSignal(rest, w);
      } else if packet[0] == 'D' {
        handled := HandleDetach(rest, w);
      } else if packet[0] == 'G' {
        handled := HandleWriteRegisters(w);
      } else if packet[0] == 'M' {
        handled := HandleWriteMemory(rest, w);
      } else {
        handled := HandleV(rest, w);
      }
    }

    /** The program counter is set from an address. */
    method SetPc(w: World) returns (ok: bool)
      modifies this`effects
      ensures ok <==> w.ok(RefreshRegisters) && w.ok(SetRegister) && w.ok(WriteRegisters)
      ensures effects == old(effects) + WhenDone(ok, WriteRegisters)
    {
      if !w.ok(RefreshRegisters) || !w.ok(SetRegister) { return false; }
      ok := Do(WriteRegisters, w);
    }

    /** The program counter stays set when the thread then cannot be resumed. */
    method HandleContinue(packet: string, w: World) returns (handled: bool)
      modifies this`replies, this`effects
      ensures handled && Did(ContinueEffects(packet, w), ContinueReply(packet, w))
    {
      if !Attached(w) { handled := ReplyWithError(PERM); return; }
      if packet != "" {
        if ParseUint64(packet).None? { handled := ReplyWithError(INVAL); return; }
        if w.thread.None? { handled := ReplyWithError(PERM); return; }
        var set_ := SetPc(w);
        if !set_ { handled := ReplyWithError(PERM); return; }
      }
      var ok := Do(if w.thread.Some? then Resume else Start, w);
      if !ok { handled := ReplyWithError(PERM); return; }
      handled := ReplyOK();
    }

    /** The address is cut with its semicolon, so that a packet with one is always refused. */
    method HandleContinueWithSignal(packet: string, w: World) returns (handled: bool)
      modifies this`replies, this`effects
      ensures handled && Did(WhenDone(ContinuesWithSignal(packet, w), Resume), SignalReply(packet, w))
    {
      if !Attached(w) { handled := ReplyWithError(PERM); return; }
      if w.thread.None? { handled := ReplyWithError(PERM); return; }
      var semicolon := Find(packet, ';', 0);
      if semicolon == |packet| { assert packet[0..semicolon] == packet == packet[..semicolon]; }
      if semicolon < |packet| { assert packet[semicolon] in packet; }
      var signo := ParseInt32(packet[..semicolon]);
      if signo.None? { handled := ReplyWithError(INVAL); return; }
      if w.signal.None? || w.signal.value != signo.value { handled := ReplyWithError(PERM); return; }
      var address := packet[semicolon..];
      if address != "" {
        AddressNeverParses(address[1..]);
        assert address == ";" + address[1..];
        if ParseUint64(address).None? { handled := ReplyWithError(INVAL); return; }
        assert false;  // the program counter is never set
      }
      var ok := Do(Resume, w);
      if !ok { handled := ReplyWithError(PERM); return; }
      handled := ReplyOK();
    }

    method HandleDetach(packet: string, w: World) returns (handled: bool)
      modifies this`replies, this`effects
      ensures handled && Did(WhenDone(Detaches(packet, w), Detach), DetachReply(packet, w))
    {
      if w.inferior.None? { handled := ReplyWithError(PERM); return; }
      if packet != "" && packet[0] == ';' {
        var pid := ParseUint64(packet[1..]);
        if pid.None? || pid.value != w.inferior.value.id { handled := ReplyWithError(INVAL); return; }
      } else if packet != "" {
        handled := ReplyWithError(INVAL);
        return;
      }
      if !w.inferior.value.attached { handled := ReplyWithError(NOENT); return; }
      var ok := Do(Detach, w);
      if !ok { handled := ReplyWithError(PERM); return; }
      handled := ReplyOK();
    }

    /** Zeros stand for registers that cannot be read. */
    method HandleReadRegisters(w: World) returns (handled: bool)
      modifies this`replies
      ensures handled && Replied(RegistersReply(w))
    {
      if !Attached(w) { handled := ReplyWithError(NOENT); return; }
      var result;
      if w.thread.None? || !w.ok(RefreshRegisters) {
        result := Zeros(2 * |w.registers|);
      } else {
        result := EncodeString(Text(w.registers));
      }
      if result == "" { handled := ReplyWithError(PERM); return; }
      handled := Reply(result);
    }

    method HandleWriteRegisters(w: World) returns (handled: bool)
      modifies this`replies, this`effects
      ensures handled && Did(WhenDone(WritesRegisters(w), WriteRegisters), WriteRegistersReply(w))
    {
      if !Attached(w) { handled := ReplyWithError(NOENT); return; }
      if w.thread.None? { handled := ReplyWithError(NOENT); return; }
      if w.ok(SetRegistersFromString) { handled := ReplyWithError(PERM); return; }
      var ok := Do(WriteRegisters, w);
      if !ok { handled := ReplyWithError(PERM); return; }
      handled := ReplyOK();
    }

    method HandleSelectThread(packet: string, w: World) returns (handled: bool)
      modifies this`replies
      ensures handled <==> SupportsSelect(packet, w.stale)
      ensures if handled then Replied(SelectReply(packet, w)) else Called(0)
    {
      if |packet| < 2 { handled := ReplyWithError(INVAL); return; }
      if packet[0] != 'c' && packet[0] != 'g' { return false; }
      var id := ParseThreadId(packet[1..], w.stale(packet[1..]));
      if id.None? { handled := ReplyWithError(INVAL); return; }
      if id.value.hasPid { return false; }
      if id.value.tid < 0 { handled := ReplyWithError(INVAL); return; }
      if w.inferior.None? {
        if id.value.tid == 0 { handled := ReplyWithError(PERM); return; }
        handled := ReplyOK();
        return;
      }
      if !w.inferior.value.live { handled := ReplyOK(); return; }
      var found := if id.value.tid == 0 then w.picks.Some? else w.ok(FindThread);
      if !found { handled := ReplyWithError(PERM); return; }
      handled := ReplyOK();
    }

    method HandleReadMemory(packet: string, w: World) returns (handled: bool)
      modifies this`replies
      ensures handled && Replied(MemoryReply(packet, w))
    {
      if !Attached(w) { handled := ReplyWithError(NOENT); return; }
      var params := NonEmpty(SplitAll(packet, ','));
      if |params| != 2 { handled := ReplyWithError(INVAL); return; }
      var address, length := ParseUint64(params[0]), ParseUint64(params[1]);
      if address.None? || length.None? { handled := ReplyWithError(NOENT); return; }
      if !w.ok(ReadMemory) { handled := ReplyWithError(PERM); return; }
      handled := Reply(EncodeString(MemoryOf(w, address.value, length.value)));
    }

    /** Nothing is written, and "OK" is sent, for a request of no bytes. */
    method HandleWriteMemory(packet: string, w: World) returns (handled: bool)
      modifies this`replies, this`effects
      ensures handled && Did(WhenDone(WritesMemory(packet, w), WriteMemory), WriteMemoryReply(packet, w))
    {
      if !Attached(w) { handled := ReplyWithError(NOENT); return; }
      var parts := SplitAll(packet, ':');
      if |parts| != 2 { handled := ReplyWithError(INVAL); return; }
      var params := NonEmpty(SplitAll(parts[0], ','));
      if |params| != 2 { handled := ReplyWithError(INVAL); return; }
      var length := ParseUint64(params[1]);
      if ParseUint64(params[0]).None? || length.None? { handled := ReplyWithError(INVAL); return; }
      if |DecodeString(parts[1])| != length.value { handled := ReplyWithError(INVAL); return; }
      if length.value != 0 {
        var ok := Do(WriteMemory, w);
        if !ok { handled := ReplyWithError(PERM); return; }
      }
      handled := ReplyOK();
    }

    method HandleThreadAlive(packet: string, w: World) returns (handled: bool)
      modifies this`replies
      ensures handled && Replied(AliveReply(packet, w))
    {
      if !Attached(w) { handled := ReplyWithError(NOENT); return; }
      var tid := ParseUint64(packet);
      if tid.None? { handled := ReplyWithError(INVAL); return; }
      if !IsLive(w.inferior.value, tid.value) { handled := ReplyWithError(NOENT); return; }
      handled := ReplyOK();
    }

    method HandleQuery(verb: QueryVerb, params: string, w: World) returns (handled: bool)
      modifies this`replies, this`inThreadInfoSequence, this`verbosity, this`quitting
      ensures handled <==> !verb.Unknown? && (verb.Transfer? ==> StartsWith(params, AUXV_READ))
      ensures if handled then Replied(QueryReply(verb, params, old(View()), w)) else Called(0)
      ensures View() == QueryMemory(verb, old(View()), w)
    {
      match verb
      case IsAttached =>
        if params != "" { handled := ReplyWithError(INVAL); return; }
        handled := Reply("0");
      case CurrentThread => handled := HandleQueryCurrentThread(params, w);
      case FirstThreads => handled := HandleQueryThreadInfo(true, w);
      case Monitor(command) => handled := HandleQueryRcmd(w.words(DecodeString(command)));
      case NextThreads => handled := HandleQueryThreadInfo(false, w);
      case Features => handled := Reply(SUPPORTED_FEATURES);
      case Transfer => handled := HandleQueryXfer(params, w);
      case Unknown => handled := false;
    }

    method HandleQueryCurrentThread(params: string, w: World) returns (handled: bool)
      modifies this`replies
      ensures handled && Replied(CurrentThreadReply(params, w))
    {
      if params != "" { handled := ReplyWithError(INVAL); return; }
      var thread := w.thread;
      if thread.None? {
        if w.inferior.None? || !w.inferior.value.live { handled := ReplyWithError(PERM); return; }
        thread := w.picks;
        if thread.None? { handled := ReplyWithError(PERM); return; }
      }
      handled := Reply("QC" + Print(thread.value, Sixteen));
    }

    /** Monitor commands; an invalid one is still answered, with a message. */
    method HandleQueryRcmd(argv: seq<string>) returns (handled: bool)
      modifies this`replies, this`verbosity, this`quitting
      ensures handled && Replied(MonitorReply(argv, old(View())))
      ensures verbosity == LevelAfter(argv, old(verbosity)) && quitting == (old(quitting) || Quits(argv))
    {
      var answer := ObeyMonitor(argv);
      handled := Reply(AnswerText(answer));
    }

    /** Carries out a monitor command and says how it is answered. */
    method ObeyMonitor(argv: seq<string>) returns (answer: Answer)
      modifies this`verbosity, this`quitting
      ensures answer == AnswerFor(argv, old(verbosity))
      ensures verbosity == LevelAfter(argv, old(verbosity)) && quitting == (old(quitting) || Quits(argv))
    {
      if argv == [] { return Okay; }
      answer := InvalidCommand;
      match VerbOf(argv[0])
      case Quit =>
        if |argv| == 1 {
          quitting := true;
          answer := Okay;
        }
      case Help =>
        if |argv| == 1 { answer := HelpText; }
      case Set =>
        if |argv| == 3 {
          var ok := SetParameter(argv[1], argv[2]);
          if ok { answer := Okay; }
        }
      case Show =>
        if |argv| == 2 && argv[1] == "verbosity" { answer := Level(verbosity); }
      case Other =>
        answer := InvalidMonitorCommand;
    }

    method SetParameter(parameter: string, value: string) returns (ok: bool)
      modifies this`verbosity
      ensures ok <==> IsLevel(parameter, value)
      ensures verbosity == if ok then ParseDecimal(value).value else old(verbosity)
    {
      if parameter != "verbosity" { return false; }
      var level := ParseDecimal(value);
      if level.None? || level.value >= NUM_SEVERITIES { return false; }
      verbosity := level.value;
      ok := true;
    }

    method HandleSetNonStop(params: string) returns (handled: bool)
      modifies this`replies
      ensures handled && Replied(NonStopReply(params))
    {
      if |params| != 1 { handled := ReplyWithError(INVAL); return; }
      if params[0] == '1' { handled := ReplyOK(); return; }
      if params[0] == '0' { handled := ReplyWithError(PERM); return; }
      handled := ReplyWithError(INVAL);
    }

    method HandleQueryXfer(params: string, w: World) returns (handled: bool)
      modifies this`replies
      ensures handled <==> StartsWith(params, AUXV_READ)
      ensures if handled then Replied(XferReply(params[|AUXV_READ|..], w)) else Called(0)
    {
      if !StartsWith(params, AUXV_READ) { return false; }
      var args := NonEmpty(SplitAll(params[|AUXV_READ|..], ','));
      if |args| != 2 { handled := ReplyWithError(INVAL); return; }
      var offset, length := ParseUint64(args[0]), ParseUint64(args[1]);
      if offset.None? || length.None? { handled := ReplyWithError(INVAL); return; }
      if w.inferior.None? { handled := ReplyWithError(PERM); return; }
      if offset.value > AUXV_SIZE { handled := ReplyWithError(INVAL); return; }
      var n := AuxvReply.Length(AuxvReply.End(w.inferior.value.hasExec), offset.value, length.value);
      handled := Reply("l" + AuxvReply.Copied(w.auxvAt, offset.value, n));
    }

    /** Lists every live thread in one packet, then ends the list on the next query. */
    method HandleQueryThreadInfo(isFirst: bool, w: World) returns (handled: bool)
      modifies this`replies, this`inThreadInfoSequence
      ensures handled && Replied(ThreadInfoReply(isFirst, old(View()), w))
      ensures var reply := Last();
        if w.inferior.None? || isFirst == old(inThreadInfoSequence) then
          reply == ErrorPacket(PERM) && inThreadInfoSequence == old(inThreadInfoSequence)
        else
          && inThreadInfoSequence == (isFirst && w.inferior.value.threads != [])
          && reply == if inThreadInfoSequence then "m" + Join(ThreadNames(w.inferior.value.threads), ',') else "l"
    {
      if w.inferior.None? { handled := ReplyWithError(PERM); return; }
      if !isFirst {
        if !inThreadInfoSequence { handled := ReplyWithError(PERM); return; }
        inThreadInfoSequence := false;
        handled := Reply("l");
        return;
      }
      if inThreadInfoSequence { handled := ReplyWithError(PERM); return; }
      var threads := w.inferior.value.threads;
      if threads == [] { handled := Reply("l"); return; }
      inThreadInfoSequence := true;
      var reply := ThreadInfo(threads);
      handled := Reply(reply);
    }

    method HandleV(packet: string, w: World) returns (handled: bool)
      modifies this`replies, this`inferiorArgv, this`moves, this`effects
      ensures handled <==> SupportsV(packet)
      ensures if handled && !VRuns(packet, old(inferiorArgv), w) then Replied(VReply(packet, w)) else Called(0)
      ensures effects == old(effects) + VEffects(packet, old(inferiorArgv), w)
      ensures moves == old(moves) + if StartsWith(packet, "Cont;") then MovesFor(packet[5..], w) else []
      ensures inferiorArgv == VArgvAfter(packet, old(inferiorArgv), w)
    {
      VerbsDiffer(packet);
      if StartsWith(packet, "Attach;") {
        handled := HandleAttach(packet[7..], w);
      } else if StartsWith(packet, "Cont;") {
        handled := HandleVCont(packet[5..], w);
      } else if StartsWith(packet, "Kill;") {
        handled := HandleKill(packet[5..], w);
      } else if StartsWith(packet, "Run;") {
        handled := HandleRun(packet[4..], w);
      } else {
        handled := false;
      }
    }

    method HandleAttach(packet: string, w: World) returns (handled: bool)
      modifies this`replies, this`effects
      ensures handled && Did(WhenDone(Attaches(packet, w), Attach), AttachReply(packet, w))
    {
      if w.inferior.None? { handled := ReplyWithError(PERM); return; }
      if ParseUint64(packet).None? { handled := ReplyWithError(INVAL); return; }
      if w.inferior.value.status.RUNNING? { handled := ReplyWithError(PERM); return; }
      if !w.ok(FindProcess) { handled := ReplyWithError(PERM); return; }
      var ok := Do(Attach, w);
      if !ok { handled := ReplyWithError(PERM); return; }
      handled := ReplyOK();
    }

    /** All threads are checked before any is resumed, so one error stops the whole command. */
    method HandleVCont(packet: string, w: World) returns (handled: bool)
      modifies this`replies, this`moves
      ensures handled && Replied(VContReply(packet, w))
      ensures moves == old(moves) + MovesFor(packet, w)
    {
      if w.inferior.None? { handled := ReplyWithError(PERM); return; }
      var inferior := w.inferior.value;
      var actions := new ThreadActionList(packet, inferior.id, w.stale);
      if !actions.valid { handled := ReplyWithError(INVAL); return; }
      var ok := CanContinue(inferior, actions);
      if !ok { handled := ReplyWithError(INVAL); return; }
      var continued := ResumeAll(inferior.threads, actions, inferior.id, w.kernel);
      moves := moves + continued;
      handled := ReplyOK();
    }

    method HandleKill(packet: string, w: World) returns (handled: bool)
      modifies this`replies, this`effects
      ensures handled && Did(WhenDone(Kills(packet, w), Kill), KillReply(packet, w))
    {
      if w.inferior.None? { handled := ReplyWithError(PERM); return; }
      var pid := ParseUint64(packet);
      if pid.None? || pid.value != w.inferior.value.id { handled := ReplyWithError(INVAL); return; }
      if !w.inferior.value.status.RUNNING? { handled := ReplyWithError(PERM); return; }
      var ok := Do(Kill, w);
      if !ok { handled := ReplyWithError(PERM); return; }
      handled := ReplyOK();
    }

    method HandleRun(packet: string, w: World) returns (handled: bool)
      modifies this`replies, this`inferiorArgv, this`effects
      ensures handled
      ensures if Runs(packet, old(inferiorArgv), w) then Called(0) else Replied(ErrorPacket(PERM))
      ensures effects == old(effects) + WhenDone(Runs(packet, old(inferiorArgv), w), Start)
      ensures inferiorArgv == ArgvFrom(packet, old(inferiorArgv), w)
    {
      if w.inferior.None? { handled := ReplyWithError(PERM); return; }
      if packet != "" { inferiorArgv := RunArgs.BuildArgvFor_vRun(packet); }
      if inferiorArgv == [] { handled := ReplyWithError(PERM); return; }
      if w.inferior.value.status.RUNNING? { handled := ReplyWithError(PERM); return; }
      if !w.ok(CreateBuilder) { handled := ReplyWithError(PERM); return; }
      if !w.ok(Initialize) { handled := ReplyWithError(PERM); return; }
      var ok := Do(Start, w);
      if !ok { handled := ReplyWithError(PERM); return; }
      handled := true;
    }
  }

  /** The first pass of vCont: no new thread is to be stepped. */
  method CanContinue(inferior: Inferior, actions: ThreadActionList) returns (ok: bool)
    ensures var parsed := Parsed(actions.valid, actions.default, actions.actions);
      ok <==> forall i | 0 <= i < |inferior.threads| :: !StepsNew(parsed, inferior, i)
  {
    ok := true;
    ghost var parsed := Parsed(actions.valid, actions.default, actions.actions);
    for i := 0 to |inferior.threads|
      invariant ok <==> forall j | 0 <= j < i :: !StepsNew(parsed, inferior, j)
    {
      var action := actions.GetAction(inferior.id, inferior.threads[i].id);
      if action == Some(Step) && inferior.threads[i].state.New? {
        ok := false;
        assert StepsNew(parsed, inferior, i);
      }
    }
  }

  lemma VerbsDiffer(packet: string)
    ensures StartsWith(packet, "Run;") ==>
      !StartsWith(packet, "Attach;") && !StartsWith(packet, "Cont;") && !StartsWith(packet, "Kill;")
  {
    if StartsWith(packet, "Run;") { assert packet[0] == 'R'; }
  }
}
