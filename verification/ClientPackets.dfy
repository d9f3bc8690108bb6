/**
  What a client gets for the packets it prints: numbers in hexadecimal, addresses and lengths with a
  comma, and data in pairs of digits.
*/
module ClientPackets {
  import opened Options
  import opened Numerals
  import opened ThreadIds
  import opened ThreadActions
  import opened ContinueThreads
  import opened RspFraming
  import opened ThreadList
  import opened MonitorCommands
  import opened CommandReplies
  import RunArgs

  lemma PrintParses(n: nat)
    requires n < UINT64_LIMIT
    ensures ParseUint64(Print(n, Sixteen)) == Some(n)
  {
    PrintDigits(n, Sixteen);
  }

  /** A printed number holds none of the characters that separate parameters. */
  lemma PrintHasNo(n: nat, c: char)
    requires c == ',' || c == ':' || c == ';' || c == 'p' || c == '-'
    ensures c !in Print(n, Sixteen)
  {
    assert !IsUpper(c);
  }

  lemma {:induction false} FindAfter(a: string, c: char, b: string, from: nat)
    requires c !in a && from <= |a|
    ensures Find(a + [c] + b, c, from) == |a|
    decreases |a| - from
  {
    var s := a + [c] + b;
    if from < |a| {
      assert s[from] == a[from] && a[from] in a;
      FindAfter(a, c, b, from + 1);
    } else {
      assert s[from] == c;
    }
  }

  lemma {:induction false} FindNothing(a: string, c: char, from: nat)
    requires c !in a && from <= |a|
    ensures Find(a, c, from) == |a|
    decreases |a| - from
  {
    if from < |a| {
      assert a[from] in a;
      FindNothing(a, c, from + 1);
    }
  }

  lemma SplitOnce(a: string, c: char, b: string)
    requires c !in a && c !in b
    ensures SplitAll(a + [c] + b, c) == [a, b]
  {
    SplitFirst(a, c, b);
    FindNothing(b, c, 0);
  }

  lemma NonEmptyTwo(a: string, b: string)
    requires a != "" && b != ""
    ensures NonEmpty([a, b]) == [a, b]
  {
    assert [a, b][1..] == [b] && [b][1..] == [];
    assert NonEmpty([b]) == [b];
  }

  function Range(address: nat, length: nat): string {
    Print(address, Sixteen) + [','] + Print(length, Sixteen)
  }

  lemma RangeParses(address: nat, length: nat)
    requires address < UINT64_LIMIT && length < UINT64_LIMIT
    ensures ReadRequest(Range(address, length)) == Some((address, length))
  {
    var a, b := Print(address, Sixteen), Print(length, Sixteen);
    PrintHasNo(address, ',');
    PrintHasNo(length, ',');
    SplitOnce(a, ',', b);
    NonEmptyTwo(a, b);
    PrintParses(address);
    PrintParses(length);
  }

  // ----- Memory -----

  /** The reply to "m" with an address and a length decodes to the bytes from that address on, in order. */
  lemma MemoryIsRead(packet: string, address: nat, length: nat, m: Memory, w: World)
    requires packet == "m" + Range(address, length) && address < UINT64_LIMIT && length < UINT64_LIMIT
    requires w.inferior.Some? && w.inferior.value.attached && w.ok(ReadMemory)
    ensures var data := DecodeString(ReplyTo(packet, m, w));
      |data| == length && forall i | 0 <= i < length :: data[i] == w.byteAt(address + i) as char
  {
    RangeParses(address, length);
    ReadsMemory(packet, Range(address, length), m, w);
    MemoryDecodes(Range(address, length), address, length, w);
  }

  lemma ReadsMemory(packet: string, p: string, m: Memory, w: World)
    requires packet == "m" + p
    ensures ReplyTo(packet, m, w) == MemoryReply(p, w)
  {
    assert packet[0] == 'm' && packet[1..] == p;
  }

  lemma MemoryDecodes(p: string, address: nat, length: nat, w: World)
    requires ReadRequest(p) == Some((address, length))
    requires w.inferior.Some? && w.inferior.value.attached && w.ok(ReadMemory)
    ensures var data := DecodeString(MemoryReply(p, w));
      |data| == length && forall i | 0 <= i < length :: data[i] == w.byteAt(address + i) as char
  {
    StringRoundTrip(MemoryOf(w, address, length));
  }

  /** The reply to "g" decodes to the registers of the current thread, or is as many zeros. */
  lemma RegistersAreRead(m: Memory, w: World)
    requires w.inferior.Some? && w.inferior.value.attached && w.registers != []
    ensures var reply := ReplyTo("g", m, w);
      if w.thread.Some? && w.ok(RefreshRegisters) then
        |DecodeString(reply)| == |w.registers|
        && forall i | 0 <= i < |w.registers| :: DecodeString(reply)[i] == w.registers[i] as char
      else |reply| == 2 * |w.registers| && forall i | 0 <= i < |reply| :: reply[i] == '0'
  {
    StringRoundTrip(Text(w.registers));
  }

  /** "M" with an address, a length and data writes exactly if there are data, as many as announced. */
  lemma MemoryIsWritten(address: nat, length: nat, data: string, w: World, argv: seq<string>)
    requires address < UINT64_LIMIT && length < UINT64_LIMIT && (forall c | c in data :: IsByte(c))
    ensures Effects("M" + (Range(address, length) + [':'] + EncodeString(data)), argv, w) ==
      if w.inferior.Some? && w.inferior.value.attached && |data| == length > 0 && w.ok(WriteMemory) then [WriteMemory]
      else []
  {
    var packet := Range(address, length) + [':'] + EncodeString(data);
    assert ("M" + packet)[1..] == packet;
    WriteParses(address, length, data);
    WriteEffects(packet, length, data, w, argv);
  }

  lemma WriteEffects(packet: string, length: nat, data: string, w: World, argv: seq<string>)
    requires WriteRequest(packet) == (if |data| == length then Some(data) else None)
    requires ("M" + packet)[1..] == packet
    ensures Effects("M" + packet, argv, w) ==
      if w.inferior.Some? && w.inferior.value.attached && |data| == length > 0 && w.ok(WriteMemory) then [WriteMemory]
      else []
  {
  }

  lemma WriteParses(address: nat, length: nat, data: string)
    requires address < UINT64_LIMIT && length < UINT64_LIMIT && (forall c | c in data :: IsByte(c))
    ensures WriteRequest(Range(address, length) + [':'] + EncodeString(data)) ==
      if |data| == length then Some(data) else None
  {
    PrintHasNo(address, ':');
    PrintHasNo(length, ':');
    RangeParses(address, length);
    StringRoundTrip(data);
    WriteSplits(Range(address, length), EncodeString(data), address, length, data);
  }

  lemma WriteSplits(range: string, hex: string, address: nat, length: nat, data: string)
    requires ':' !in range && (forall i | 0 <= i < |hex| :: IsLower(hex[i]))
    requires ReadRequest(range) == Some((address, length)) && DecodeString(hex) == data
    ensures WriteRequest(range + [':'] + hex) == if |data| == length then Some(data) else None
  {
    assert ':' !in hex;
    SplitOnce(range, ':', hex);
  }

  // ----- Processes -----

  /** "D" detaches the attached process, and "D;" with a pid only if it is that of the process. */
  lemma DetachNamesTheProcess(pid: nat, w: World, argv: seq<string>)
    requires pid < UINT64_LIMIT
    ensures Effects("D", argv, w) ==
      if w.inferior.Some? && w.inferior.value.attached && w.ok(Detach) then [Detach] else []
    ensures Effects("D" + (";" + Print(pid, Sixteen)), argv, w) ==
      if w.inferior.Some? && w.inferior.value.attached && w.inferior.value.id == pid && w.ok(Detach) then [Detach]
      else []
  {
    var packet := ";" + Print(pid, Sixteen);
    assert ("D" + packet)[1..] == packet && packet[1..] == Print(pid, Sixteen);
    assert "D"[1..] == "";
    PrintParses(pid);
  }

  /** A pid that is not that of the process is refused as invalid, by "D;" and by "vKill;". */
  lemma OtherPidIsInvalid(packet: string, pid: nat, m: Memory, w: World)
    requires packet == "D;" + Print(pid, Sixteen) || packet == "vKill;" + Print(pid, Sixteen)
    requires pid < UINT64_LIMIT && w.inferior.Some? && w.inferior.value.id != pid
    ensures ReplyTo(packet, m, w) == "E22"
  {
    PrintParses(pid);
    if packet[0] == 'D' {
      assert packet[1..][0] == ';' && packet[1..][1..] == Print(pid, Sixteen);
    } else {
      Killing(packet, Print(pid, Sixteen), m, w);
    }
  }

  lemma Killing(packet: string, pid: string, m: Memory, w: World)
    requires packet == "vKill;" + pid
    ensures ReplyTo(packet, m, w) == KillReply(pid, w) && Effects(packet, m.argv, w) == WhenDone(Kills(pid, w), Kill)
  {
    assert packet[0] == 'v' && packet[1..] == "Kill;" + pid && packet[1..][5..] == pid && packet[1..][0] == 'K';
  }

  /** "vKill;" kills the process only if it is running and the pid is its own. */
  lemma KillNamesTheProcess(packet: string, pid: nat, m: Memory, w: World)
    requires packet == "vKill;" + Print(pid, Sixteen) && pid < UINT64_LIMIT
    ensures Effects(packet, m.argv, w) ==
      if w.inferior.Some? && w.inferior.value.status == RUNNING && w.inferior.value.id == pid && w.ok(Kill) then [Kill]
      else []
  {
    PrintParses(pid);
    Killing(packet, Print(pid, Sixteen), m, w);
  }

  /** "vAttach;" attaches an inferior that is not running to a process that is found. */
  lemma AttachNeedsIdle(pid: nat, w: World, argv: seq<string>)
    requires pid < UINT64_LIMIT
    ensures Effects("v" + ("Attach;" + Print(pid, Sixteen)), argv, w) ==
      if w.inferior.Some? && w.inferior.value.status == IDLE && w.ok(FindProcess) && w.ok(Attach) then [Attach] else []
  {
    var packet := "Attach;" + Print(pid, Sixteen);
    assert ("v" + packet)[1..] == packet && packet[7..] == Print(pid, Sixteen);
    PrintParses(pid);
  }

  // ----- Threads -----

  /** "T" is answered "OK" exactly for the id of a live thread of the attached process. */
  lemma AliveIffListed(packet: string, tid: nat, m: Memory, w: World)
    requires packet == "T" + Print(tid, Sixteen) && tid < UINT64_LIMIT
    ensures ReplyTo(packet, m, w) ==
      if w.inferior.Some? && w.inferior.value.attached
         && exists i | 0 <= i < |w.inferior.value.threads| :: w.inferior.value.threads[i].id == tid
      then "OK" else "E02"
  {
    assert packet[0] == 'T' && packet[1..] == Print(tid, Sixteen);
    PrintParses(tid);
  }

  lemma {:induction false} JoinSplits(strings: seq<string>, c: char)
    requires strings != [] && forall i | 0 <= i < |strings| :: c !in strings[i]
    ensures SplitAll(Join(strings, c), c) == strings
  {
    var first, rest := strings[0], strings[1..];
    if rest == [] {
      FindNothing(first, c, 0);
    } else {
      JoinSplits(rest, c);
      SplitFirst(first, c, Join(rest, c));
      assert strings == [first] + rest;
    }
  }

  lemma SplitFirst(a: string, c: char, b: string)
    requires c !in a
    ensures SplitAll(a + [c] + b, c) == [a] + SplitAll(b, c)
  {
    var s := a + [c] + b;
    FindAfter(a, c, b, 0);
    assert s[..|a|] == a && s[|a| + 1..] == b;
  }

  /** The first thread query is answered by the ids of all live threads, in order, and the next one ends
      the list. */
  lemma ThreadListReadsBack(m: Memory, w: World)
    requires w.inferior.Some? && w.inferior.value.threads != [] && !m.inSequence
    ensures var reply := QueryReply(FirstThreads, "", m, w);
      && reply[0] == 'm'
      && var names := SplitAll(reply[1..], ',');
         && |names| == |w.inferior.value.threads|
         && forall i | 0 <= i < |names| :: ParseUint64(names[i]) == Some(w.inferior.value.threads[i].id)
    ensures QueryReply(NextThreads, "", QueryMemory(FirstThreads, m, w), w) == "l"
  {
    var threads := w.inferior.value.threads;
    var names := ThreadNames(threads);
    forall i | 0 <= i < |names| ensures ',' !in names[i] && ParseUint64(names[i]) == Some(threads[i].id) {
      PrintHasNo(threads[i].id, ',');
      PrintParses(threads[i].id);
    }
    JoinSplits(names, ',');
    assert ("m" + Join(names, ','))[1..] == Join(names, ',');
  }

  /** "Hg" selects any thread for 0 and the named one else; before the process lives it is a pretence,
      and without a process it fails exactly for 0. */
  lemma SelectIff(packet: string, tid: nat, m: Memory, w: World)
    requires packet == "Hg" + Print(tid, Sixteen) && tid < INT64_LIMIT
    ensures ReplyTo(packet, m, w) ==
      if (if w.inferior.None? then tid != 0
          else w.inferior.value.live ==> if tid == 0 then w.picks.Some? else w.ok(FindThread))
      then "OK" else "E01"
  {
    var p := packet[1..];
    assert packet[0] == 'H' && p[0] == 'g' && p[1..] == Print(tid, Sixteen);
    SelectsPrinted(p, tid, w);
  }

  lemma SelectsPrinted(p: string, tid: nat, w: World)
    requires |p| >= 2 && p[0] == 'g' && p[1..] == Print(tid, Sixteen) && tid < INT64_LIMIT
    ensures SelectReply(p, w) ==
      if (if w.inferior.None? then tid != 0
          else w.inferior.value.live ==> if tid == 0 then w.picks.Some? else w.ok(FindThread))
      then "OK" else "E01"
  {
    PrintHasNo(tid, 'p');
    assert Print(tid, Sixteen)[0] in Print(tid, Sixteen);
    PrintParse(tid);
  }

  /** "vCont;c" resumes every thread that is new or in an exception and that the kernel lets resume. */
  lemma ContinueAll(packet: string, m: Memory, w: World, i: nat)
    requires packet == "vCont;c"
    requires w.inferior.Some? && DistinctIds(w.inferior.value.threads) && i < |w.inferior.value.threads|
    ensures ReplyTo(packet, m, w) == "OK"
    ensures var t := w.inferior.value.threads[i];
      Resumed(t.id) in MovesOn(packet, w) <==> (t.state == New || t.state == InException) && w.kernel.resumes(t.id)
  {
    var inferior := w.inferior.value;
    DefaultActions(inferior.threads, inferior.id, w.stale, w.kernel, i);
    OneLetter('c', Continue, inferior.id, w.stale);
    Moving(packet, "c", m, w);
  }

  lemma Moving(packet: string, list: string, m: Memory, w: World)
    requires packet == "vCont;" + list
    ensures ReplyTo(packet, m, w) == VContReply(list, w) && MovesOn(packet, w) == MovesFor(list, w)
  {
    assert packet[0] == 'v' && packet[1..] == "Cont;" + list && packet[1..][5..] == list && packet[1..][0] == 'C';
  }

  /** "C" with a signal resumes the current thread exactly if that signal stopped it. */
  lemma SignalMustMatch(packet: string, signal: nat, w: World, argv: seq<string>)
    requires packet == "C" + Print(signal, Sixteen) && signal < 0x8000_0000
    ensures Effects(packet, argv, w) ==
      if w.inferior.Some? && w.inferior.value.attached && w.thread.Some? && w.signal == Some(signal) && w.ok(Resume)
      then [Resume] else []
  {
    SignalParses(signal);
    PrintHasNo(signal, ';');
    SignalResumes(packet, Print(signal, Sixteen), signal, w, argv);
  }

  lemma SignalParses(signal: nat)
    requires signal < 0x8000_0000
    ensures ParseInt32(Print(signal, Sixteen)) == Some(signal)
  {
    PrintParse(signal);
  }

  lemma SignalResumes(packet: string, text: string, signal: nat, w: World, argv: seq<string>)
    requires packet == "C" + text && ';' !in text && ParseInt32(text) == Some(signal)
    ensures Effects(packet, argv, w) ==
      if w.inferior.Some? && w.inferior.value.attached && w.thread.Some? && w.signal == Some(signal) && w.ok(Resume)
      then [Resume] else []
  {
    assert packet[0] == 'C' && packet[1..] == text;
  }

  /** "c" resumes the current thread of the attached process, or starts a process without one. */
  lemma ContinueResumesOrStarts(w: World, argv: seq<string>)
    ensures Effects("c", argv, w) ==
      if w.inferior.None? || !w.inferior.value.attached then []
      else if w.thread.Some? then (if w.ok(Resume) then [Resume] else [])
      else (if w.ok(Start) then [Start] else [])
  {
    assert "c"[1..] == "";
  }

  /** "c" with an address first moves the program counter of the current thread. */
  lemma ContinueAtAddress(address: nat, w: World, argv: seq<string>)
    requires address < UINT64_LIMIT
    ensures Effects("c" + Print(address, Sixteen), argv, w) ==
      if w.inferior.None? || !w.inferior.value.attached || w.thread.None?
         || !w.ok(RefreshRegisters) || !w.ok(SetRegister) || !w.ok(WriteRegisters) then []
      else if w.ok(Resume) then [WriteRegisters, Resume] else [WriteRegisters]
  {
    assert ("c" + Print(address, Sixteen))[1..] == Print(address, Sixteen);
    PrintParses(address);
  }

  // ----- Programs and monitor commands -----

  /** "vRun;" with printed arguments starts the program with exactly those, unless one is running; an
      empty last argument is lost. */
  lemma RunStartsProgram(packet: string, args: seq<string>, m: Memory, w: World)
    requires RunArgs.AllBytes(args) && args != [] && args[|args| - 1] != "" && w.inferior.Some?
    requires packet == "vRun;" + RunArgs.PrintArgs(args)
    ensures MemoryAfter(packet, m, w) == m.(argv := args)
    ensures Effects(packet, m.argv, w) ==
      if w.inferior.value.status == IDLE && w.ok(CreateBuilder) && w.ok(Initialize) && w.ok(Start) then [Start] else []
  {
    RunArgs.ArgsRoundTrip(args);
    assert RunArgs.ArgsIn("") == [];
    RunsWith(packet, RunArgs.PrintArgs(args), args, m, w);
  }

  lemma RunsWith(packet: string, text: string, args: seq<string>, m: Memory, w: World)
    requires packet == "vRun;" + text && text != "" && RunArgs.ArgsIn(text) == args && args != [] && w.inferior.Some?
    ensures MemoryAfter(packet, m, w) == m.(argv := args)
    ensures Effects(packet, m.argv, w) ==
      if w.inferior.value.status == IDLE && w.ok(CreateBuilder) && w.ok(Initialize) && w.ok(Start) then [Start] else []
  {
    var p := packet[1..];
    assert packet[0] == 'v' && p == "Run;" + text && p[0] == 'R' && p[4..] == text;
    RunsAfterV(p, text, args, m.argv, w);
  }

  lemma RunsAfterV(p: string, text: string, args: seq<string>, argv: seq<string>, w: World)
    requires p == "Run;" + text && p[4..] == text && text != "" && RunArgs.ArgsIn(text) == args && args != []
    requires w.inferior.Some?
    ensures VArgvAfter(p, argv, w) == args
    ensures VEffects(p, argv, w) ==
      if w.inferior.value.status == IDLE && w.ok(CreateBuilder) && w.ok(Initialize) && w.ok(Start) then [Start] else []
  {
    assert p[0] == 'R';
  }

  /** Without arguments the last ones are used again. */
  lemma RunAgain(m: Memory, w: World)
    requires w.inferior.Some?
    ensures MemoryAfter("vRun;", m, w) == m
    ensures Effects("vRun;", m.argv, w) ==
      if w.inferior.value.status == IDLE && m.argv != [] && w.ok(CreateBuilder) && w.ok(Initialize) && w.ok(Start)
      then [Start] else []
  {
    assert "vRun;"[1..] == "Run;" && "Run;"[4..] == "" && "Run;"[0] == 'R';
  }

  /** The reply to a monitor command that is not simply obeyed decodes to its text. */
  lemma MonitorDecodes(argv: seq<string>, m: Memory)
    requires AnswerFor(argv, m.verbosity) != Okay
    ensures DecodeString(MonitorReply(argv, m)) == TextOf(AnswerFor(argv, m.verbosity))
  {
    StringRoundTrip(TextOf(AnswerFor(argv, m.verbosity)));
  }
}
