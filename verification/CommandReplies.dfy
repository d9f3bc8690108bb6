/**
  The command handler of the debug server and its reply discipline: an unsupported packet calls the
  reply callback never, a supported one exactly once, except a successful vRun, whose reply comes
  later as a stop notification.  A command that acts on the debugged process is answered "OK" exactly
  when it acted.
*/
module CommandReplies {
  import opened Options
  import opened Numerals
  import opened ThreadIds
  import opened ThreadActions
  import opened ContinueThreads
  import opened RspFraming
  import opened ThreadList
  import opened MonitorCommands
  import AuxvReply
  import RunArgs

  // ----- The debugged process and the foreign calls -----

  datatype Status = IDLE | RUNNING

  /** `threads` are the live threads, `hasExec` tells whether its executable is known. */
  datatype Inferior =
    Inferior(id: Koid, attached: bool, live: bool, hasExec: bool, status: Status, threads: seq<Thread>)

  /** Calls whose success the server does not control. */
  datatype Op =
    | RefreshRegisters | SetRegister | WriteRegisters | SetRegistersFromString
    | Resume | Start | Detach | Kill | Attach | FindProcess | CreateBuilder | Initialize
    | ReadMemory | WriteMemory | FindThread

  /** `thread` is the current thread and `signal` what stopped it, `picks` is the thread picked when
      any will do, `auxvAt` gives the bytes from the auxiliary vector on, `words` cuts a monitor
      command, `stale` is an uninitialised index. */
  datatype World = World(inferior: Option<Inferior>, thread: Option<Koid>, signal: Option<int>, picks: Option<Koid>,
                         ok: Op -> bool, kernel: Kernel, registers: seq<bv8>, byteAt: nat -> bv8,
                         auxvAt: nat -> bv8, words: string -> seq<string>, stale: string -> nat)

  predicate Attached(w: World) {
    w.inferior.Some? && w.inferior.value.attached
  }

  /** The list asks for a step of the `i`-th thread, which is new. */
  predicate StepsNew(actions: Parsed, inferior: Inferior, i: nat)
    requires i < |inferior.threads|
  {
    inferior.threads[i].state.New? && ActionFor(actions, inferior.id, inferior.threads[i].id) == Some(Step)
  }

  // ----- Which packets are supported -----

  predicate StartsWith(s: string, prefix: string) {
    prefix <= s
  }

  function Prefix(s: string): string { s[..Find(s, ':', 0)] }

  function Params(s: string): string {
    var colon := Find(s, ':', 0);
    if colon == |s| then "" else s[colon + 1..]
  }

  /** A thread cannot be selected by process. */
  predicate SupportsSelect(p: string, stale: string -> nat) {
    |p| < 2 || (p[0] in "cg" && var id := ThreadIdOf(p[1..], stale(p[1..])); id.None? || !id.value.hasPid)
  }

  predicate SupportsQuery(p: string) {
    || Prefix(p) in {"Attached", "C", "fThreadInfo", "sThreadInfo", "Supported"}
    || StartsWith(Prefix(p), "Rcmd,")
    || (Prefix(p) == "Xfer" && StartsWith(Params(p), AUXV_READ))
  }

  predicate SupportsV(p: string) {
    StartsWith(p, "Attach;") || StartsWith(p, "Cont;") || StartsWith(p, "Kill;") || StartsWith(p, "Run;")
  }

  /** The packets that can change the debugged process. */
  predicate IsControl(c: char) {
    c == 'c' || c == 'C' || c == 'D' || c == 'G' || c == 'M' || c == 'v'
  }

  predicate Supported(packet: string, stale: string -> nat) {
    && packet != ""
    && var c, p := packet[0], packet[1..];
       if c == 'v' then SupportsV(p)
       else if c == '?' || c == 'g' then p == ""
       else if c == 'H' then SupportsSelect(p, stale)
       else if c == 'q' then SupportsQuery(p)
       else if c == 'Q' then Prefix(p) == "NonStop"
       else IsControl(c) || c == 'm' || c == 'T'
  }

  /** The arguments for the next program, given by the text after "vRun;" or else kept from before. */
  function ArgvFrom(text: string, argv: seq<string>, w: World): seq<string> {
    if text != "" && w.inferior.Some? then RunArgs.ArgsIn(text) else argv
  }

  /** Nothing stands in the way of starting the program. */
  predicate Runs(text: string, argv: seq<string>, w: World) {
    && w.inferior.Some? && !w.inferior.value.status.RUNNING? && ArgvFrom(text, argv, w) != []
    && w.ok(CreateBuilder) && w.ok(Initialize) && w.ok(Start)
  }

  function VArgvAfter(p: string, argv: seq<string>, w: World): seq<string> {
    if StartsWith(p, "Run;") then ArgvFrom(p[4..], argv, w) else argv
  }

  predicate VRuns(p: string, argv: seq<string>, w: World) {
    StartsWith(p, "Run;") && Runs(p[4..], argv, w)
  }

  /** The arguments the next program will run with. */
  function ArgvAfter(packet: string, argv: seq<string>, w: World): seq<string> {
    if packet != "" && packet[0] == 'v' then VArgvAfter(packet[1..], argv, w) else argv
  }

  /** The packet starts a program. */
  predicate RunsProgram(packet: string, argv: seq<string>, w: World) {
    packet != "" && packet[0] == 'v' && VRuns(packet[1..], argv, w)
  }

  /** How often the callback is called at once. */
  function Replies(packet: string, argv: seq<string>, w: World): nat {
    if Supported(packet, w.stale) && !RunsProgram(packet, argv, w) then 1 else 0
  }

  // ----- Parameters of packets -----

  function SplitAll(s: string, c: char): seq<string>
    decreases |s|
  {
    var i := Find(s, c, 0);
    if i == |s| then [s] else [s[..i]] + SplitAll(s[i + 1..], c)
  }

  function NonEmpty(ss: seq<string>): seq<string> {
    if ss == [] then [] else (if ss[0] == "" then [] else [ss[0]]) + NonEmpty(ss[1..])
  }

  /** The address or offset, and the length, of a request to read. */
  function ReadRequest(p: string): Option<(nat, nat)> {
    var params := NonEmpty(SplitAll(p, ','));
    if |params| != 2 then None
    else
      var address, length := ParseUint64(params[0]), ParseUint64(params[1]);
      if address.None? || length.None? then None else Some((address.value, length.value))
  }

  /** An address that still has its semicolon is not a number. */
  lemma AddressNeverParses(rest: string)
    ensures ParseUint64(";" + rest) == None
  {
    if Digits(";" + rest, Sixteen).Some? { DigitsStart(";" + rest); }
  }

  /** The thread continues with the signal that stopped it; the form with an address is refused. */
  predicate ContinuesWithSignal(p: string, w: World) {
    Attached(w) && w.thread.Some? && ';' !in p && w.signal.Some? && ParseInt32(p) == w.signal && w.ok(Resume)
  }

  /** "C5;1000" is refused in every state, although 5 is a signal number: its address text is ";1000". */
  lemma SignalAtAddressIsRefused(w: World)
    ensures var p := "5;1000"; var semicolon := Find(p, ';', 0);
      && ParseInt32(p[..semicolon]) == Some(5) && ParseUint64(p[semicolon..]) == None
      && ParseUint64(p[semicolon + 1..]) == Some(0x1000)
    ensures !ContinuesWithSignal("5;1000", w)
  {
    var p := "5;1000";
    assert p[1] == ';' && p[..1] == "5" && p[1..] == ";" + "1000" && p[2..] == "1000";
    AddressNeverParses("1000");
    HexLiterals();
  }

  // ----- What commands do to the debugged process -----

  /** A given address becomes the program counter. */
  predicate SetsPc(p: string, w: World) {
    && ParseUint64(p).Some? && w.thread.Some?
    && w.ok(RefreshRegisters) && w.ok(SetRegister) && w.ok(WriteRegisters)
  }

  predicate Detaches(p: string, w: World) {
    Attached(w) && (p == "" || (p[0] == ';' && ParseUint64(p[1..]) == Some(w.inferior.value.id))) && w.ok(Detach)
  }

  predicate Attaches(p: string, w: World) {
    w.inferior.Some? && w.inferior.value.status.IDLE? && ParseUint64(p).Some? && w.ok(FindProcess) && w.ok(Attach)
  }

  predicate Kills(p: string, w: World) {
    && w.inferior.Some? && w.inferior.value.status.RUNNING? && ParseUint64(p) == Some(w.inferior.value.id)
    && w.ok(Kill)
  }

  /** A process without a current thread is started. */
  function ContinueEffects(p: string, w: World): seq<Op> {
    var go := if w.thread.Some? then Resume else Start;
    if !Attached(w) || (p != "" && !SetsPc(p, w)) then []
    else (if p == "" then [] else [WriteRegisters]) + if w.ok(go) then [go] else []
  }

  function WhenDone(done: bool, op: Op): seq<Op> { if done then [op] else [] }

  /** The calls that change the debugged process and succeed. */
  function Effects(packet: string, argv: seq<string>, w: World): seq<Op> {
    if packet == "" then []
    else if packet[0] == 'c' then ContinueEffects(packet[1..], w)
    else if packet[0] == 'C' then WhenDone(ContinuesWithSignal(packet[1..], w), Resume)
    else if packet[0] == 'D' then WhenDone(Detaches(packet[1..], w), Detach)
    else if packet[0] == 'G' then WhenDone(WritesRegisters(w), WriteRegisters)
    else if packet[0] == 'M' then WhenDone(WritesMemory(packet[1..], w), WriteMemory)
    else if packet[0] == 'v' then VEffects(packet[1..], argv, w)
    else []
  }

  function VEffects(p: string, argv: seq<string>, w: World): seq<Op> {
    if StartsWith(p, "Attach;") then WhenDone(Attaches(p[7..], w), Attach)
    else if StartsWith(p, "Kill;") then WhenDone(Kills(p[5..], w), Kill)
    else WhenDone(VRuns(p, argv, w), Start)
  }

  /** The effect the command is for: setting the program counter on the way does not count. */
  predicate Acted(effects: seq<Op>) {
    effects != [] && effects[|effects| - 1] in {Resume, Start, Detach, Attach, Kill}
  }

  /** The commands that act on the debugged process and say so. */
  predicate IsAction(packet: string) {
    && packet != ""
    && (packet[0] == 'c' || packet[0] == 'C' || packet[0] == 'D' ||
        (packet[0] == 'v' && (StartsWith(packet[1..], "Attach;") || StartsWith(packet[1..], "Kill;"))))
  }

  /** Nothing is done where there is no process. */
  lemma NoProcessNoEffect(packet: string, argv: seq<string>, w: World)
    requires w.inferior.None?
    ensures Effects(packet, argv, w) == []
  {
  }

  /** A "c" with an address that cannot resume the thread has moved its program counter all the same. */
  lemma FailedContinueMovesPc(p: string, w: World)
    requires Attached(w) && p != "" && SetsPc(p, w) && !w.ok(Resume)
    ensures ContinueEffects(p, w) == [WriteRegisters] && !Acted(ContinueEffects(p, w))
  {
  }

  /** The registers are written when the given ones could not be set: the test is the wrong way round. */
  predicate WritesRegisters(w: World) {
    Attached(w) && w.thread.Some? && !w.ok(SetRegistersFromString) && w.ok(WriteRegisters)
  }

  /** The bytes that a packet asks to write, if it is well formed. */
  function WriteRequest(p: string): Option<string> {
    var parts := SplitAll(p, ':');
    if |parts| != 2 then None
    else
      var request, data := ReadRequest(parts[0]), DecodeString(parts[1]);
      if request.None? || |data| != request.value.1 then None else Some(data)
  }

  predicate WritesMemory(p: string, w: World) {
    Attached(w) && WriteRequest(p).Some? && WriteRequest(p).value != "" && w.ok(WriteMemory)
  }

  predicate IsLive(inferior: Inferior, tid: nat) {
    exists i | 0 <= i < |inferior.threads| :: inferior.threads[i].id == tid
  }

  /** The packet names a live thread. */
  predicate NamesLiveThread(p: string, w: World) {
    Attached(w) && ParseUint64(p).Some? && IsLive(w.inferior.value, ParseUint64(p).value)
  }

  /** Every thread that is listed is alive, by the name under which it is listed. */
  lemma ListedIsAlive(w: World, i: nat)
    requires Attached(w) && i < |w.inferior.value.threads|
    ensures NamesLiveThread(ThreadNames(w.inferior.value.threads)[i], w)
  {
    PrintDigits(w.inferior.value.threads[i].id, Sixteen);
  }

  /** The thread becomes the current one; without live threads any id but 0 with no process will do. */
  predicate Selects(p: string, w: World) {
    && |p| >= 2 && p[0] in "cg"
    && var id := ThreadIdOf(p[1..], w.stale(p[1..]));
       && id.Some? && !id.value.hasPid && id.value.tid >= 0
       && if w.inferior.None? then id.value.tid != 0
          else !w.inferior.value.live || (if id.value.tid == 0 then w.picks.Some? else w.ok(FindThread))
  }

  // ----- Replies -----

  datatype ErrorCode = PERM | NOENT | INVAL

  function ErrorPacket(e: ErrorCode): (s: string)
    ensures |s| == 3 && s[0] == 'E' && Plain(s)
  {
    match e
    case PERM => "E01"
    case NOENT => "E02"
    case INVAL => "E22"
  }

  /** The text of bytes. */
  function Text(bytes: seq<bv8>): (s: string)
    ensures |s| == |bytes| && AllBytes(s)
  {
    seq(|bytes|, i requires 0 <= i < |bytes| => bytes[i] as char)
  }

  function MemoryOf(w: World, address: nat, length: nat): (s: string)
    ensures |s| == length && AllBytes(s)
  {
    seq(length, i requires 0 <= i < length => w.byteAt(address + i) as char)
  }

  /** The most bytes that one reply can carry in hexadecimal. */
  const MAX_READ := 2045

  /** The most bytes that one reply can carry as they are, after its first character. */
  const MAX_AUXV := 4090

  predicate LongMemory(p: string, w: World) {
    Attached(w) && ReadRequest(p).Some? && ReadRequest(p).value.1 > MAX_READ && w.ok(ReadMemory)
  }

  predicate LongThreadList(inSequence: bool, w: World) {
    && !inSequence && w.inferior.Some? && w.inferior.value.threads != []
    && !Fits("m" + Join(ThreadNames(w.inferior.value.threads), ','))
  }

  const AUXV_READ := "auxv:read::"

  /** More is asked for than fits, at an offset between the end of the vector and that of its array. */
  predicate LongAuxv(params: string, w: World) {
    StartsWith(params, AUXV_READ) && w.inferior.Some? && LongRequest(params[|AUXV_READ|..], w)
  }

  predicate LongRequest(request: string, w: World)
    requires w.inferior.Some?
  {
    var r := ReadRequest(request);
    r.Some? && AuxvReply.End(w.inferior.value.hasExec) < r.value.0 <= AUXV_SIZE && r.value.1 > MAX_AUXV
  }

  const AUXV_SIZE := AuxvReply.ENTRY_SIZE * AuxvReply.MAX_ENTRIES

  /** The packets whose reply does not fit in the outgoing buffer. */
  predicate ReplyIsTooLong(packet: string, inSequence: bool, w: World) {
    && packet != ""
    && var p := packet[1..];
       || (packet[0] == 'm' && LongMemory(p, w))
       || (packet[0] == 'g' && p == "" && Attached(w) && |w.registers| > MAX_READ)
       || (packet[0] == 'q' && Prefix(p) == "fThreadInfo" && LongThreadList(inSequence, w))
       || (packet[0] == 'q' && Prefix(p) == "Xfer" && LongAuxv(Params(p), w))
  }

  /** "qXfer:auxv:read::64,1000" for example: 4096 bytes at offset 100, behind the end of every vector. */
  lemma AuxvBehindTheEnd(inSequence: bool, w: World)
    requires w.inferior.Some?
    ensures ReplyIsTooLong("qXfer:" + (AUXV_READ + "64,1000"), inSequence, w)
  {
    XferParts(AUXV_READ + "64,1000");
    assert (AUXV_READ + "64,1000")[|AUXV_READ|..] == "64,1000";
    OneComma();
    HexLiterals();
  }

  lemma XferParts(params: string)
    ensures var p := ("qXfer:" + params)[1..]; Prefix(p) == "Xfer" && Params(p) == params
  {
    var p := ("qXfer:" + params)[1..];
    assert p[..4] == "Xfer" && p[4] == ':' && p[5..] == params;
    assert p[0..4] == "Xfer";
    assert Find(p, ':', 0) == 4;
  }

  lemma OneComma()
    ensures NonEmpty(SplitAll("64,1000", ',')) == ["64", "1000"]
  {
    var s := "64,1000";
    assert s[0..2] == "64" && s[..2] == "64" && s[3..] == "1000";
    FindIn(s, ',', 0, 2);
    assert s[3..][0..] == "1000";
    FindNone("1000", ',', 0);
    assert SplitAll(s, ',') == ["64"] + SplitAll("1000", ',') == ["64", "1000"];
  }

  lemma HexLiterals()
    ensures ParseInt32("5") == Some(5) && ParseUint64("64") == Some(0x64) && ParseUint64("1000") == Some(0x1000)
  {
    assert Digits("5", Sixteen) == Some(5) by { assert "5"[..0] == ""; }
    assert Digits("6", Sixteen) == Some(6) by { assert "6"[..0] == ""; }
    assert Digits("1", Sixteen) == Some(1) by { assert "1"[..0] == ""; }
    assert "64"[..1] == "6" && "10"[..1] == "1" && "100"[..2] == "10" && "1000"[..3] == "100";
    assert Digits("64", Sixteen) == Some(0x64);
    assert Digits("100", Sixteen) == Some(0x100) by { assert Digits("10", Sixteen) == Some(0x10); }
  }

  /** The packets whose reply is binary. */
  predicate ReadsAuxv(packet: string) {
    packet != "" && packet[0] == 'q' && Prefix(packet[1..]) == "Xfer"
  }

  // ----- The text of every reply -----

  /** What the command handler remembers between packets. */
  datatype Memory = Memory(inSequence: bool, argv: seq<string>, verbosity: Int32, quitting: bool)

  const NO_MEMORY := Memory(false, [], 0, false)

  function OkOr(ok: bool, e: ErrorCode): (reply: string)
    ensures Fits(reply) && Plain(reply) && (reply == "OK" <==> ok)
  {
    if ok then "OK" else ErrorPacket(e)
  }

  function ContinueReply(p: string, w: World): string {
    OkOr(Acted(ContinueEffects(p, w)), if Attached(w) && p != "" && ParseUint64(p).None? then INVAL else PERM)
  }

  function SignalReply(p: string, w: World): string {
    var signo := ParseInt32(p[..Find(p, ';', 0)]);
    OkOr(ContinuesWithSignal(p, w),
         if Attached(w) && w.thread.Some? && (signo.None? || (signo == w.signal && ';' in p)) then INVAL else PERM)
  }

  function DetachReply(p: string, w: World): string {
    OkOr(Detaches(p, w),
         if w.inferior.None? then PERM
         else if p != "" && !(p[0] == ';' && ParseUint64(p[1..]) == Some(w.inferior.value.id)) then INVAL
         else if !w.inferior.value.attached then NOENT
         else PERM)
  }

  function RegistersReply(w: World): string {
    if !Attached(w) then ErrorPacket(NOENT)
    else if w.registers == [] then ErrorPacket(PERM)
    else if w.thread.None? || !w.ok(RefreshRegisters) then Zeros(2 * |w.registers|)
    else EncodeString(Text(w.registers))
  }

  function Zeros(n: nat): (s: string)
    ensures |s| == n && Plain(s)
  {
    seq(n, _ => '0')
  }

  function WriteRegistersReply(w: World): string {
    OkOr(WritesRegisters(w), if !Attached(w) || w.thread.None? then NOENT else PERM)
  }

  function SelectReply(p: string, w: World): string {
    var id := if |p| < 2 then None else ThreadIdOf(p[1..], w.stale(p[1..]));
    OkOr(Selects(p, w), if id.None? || id.value.tid < 0 then INVAL else PERM)
  }

  function MemoryReply(p: string, w: World): string {
    var r := ReadRequest(p);
    if !Attached(w) then ErrorPacket(NOENT)
    else if |NonEmpty(SplitAll(p, ','))| != 2 then ErrorPacket(INVAL)
    else if r.None? then ErrorPacket(NOENT)
    else if !w.ok(ReadMemory) then ErrorPacket(PERM)
    else EncodeString(MemoryOf(w, r.value.0, r.value.1))
  }

  function WriteMemoryReply(p: string, w: World): string {
    OkOr(WritesMemory(p, w) || (Attached(w) && WriteRequest(p) == Some("")),
         if !Attached(w) then NOENT else if WriteRequest(p).None? then INVAL else PERM)
  }

  function AliveReply(p: string, w: World): string {
    OkOr(NamesLiveThread(p, w), if Attached(w) && ParseUint64(p).None? then INVAL else NOENT)
  }

  function AttachReply(p: string, w: World): string {
    OkOr(Attaches(p, w), if w.inferior.Some? && ParseUint64(p).None? then INVAL else PERM)
  }

  function KillReply(p: string, w: World): string {
    OkOr(Kills(p, w), if w.inferior.Some? && ParseUint64(p) != Some(w.inferior.value.id) then INVAL else PERM)
  }

  /** The action list of vCont is valid and steps no new thread. */
  predicate CanMove(p: string, w: World) {
    && w.inferior.Some?
    && var actions := Parse(p, w.inferior.value.id, w.stale);
       actions.valid && forall i | 0 <= i < |w.inferior.value.threads| :: !StepsNew(actions, w.inferior.value, i)
  }

  /** The threads that vCont sets in motion: all that the list says, or none. */
  function MovesFor(p: string, w: World): seq<Move> {
    if !CanMove(p, w) then []
    else Moves(w.inferior.value.threads, Parse(p, w.inferior.value.id, w.stale), w.inferior.value.id, w.kernel)
  }

  function VContReply(p: string, w: World): string {
    OkOr(CanMove(p, w), if w.inferior.None? then PERM else INVAL)
  }

  function VReply(p: string, w: World): string {
    if StartsWith(p, "Attach;") then AttachReply(p[7..], w)
    else if StartsWith(p, "Cont;") then VContReply(p[5..], w)
    else if StartsWith(p, "Kill;") then KillReply(p[5..], w)
    else ErrorPacket(PERM)
  }

  function CurrentThreadReply(params: string, w: World): string {
    if params != "" then ErrorPacket(INVAL)
    else if w.thread.Some? then "QC" + Print(w.thread.value, Sixteen)
    else if w.inferior.Some? && w.inferior.value.live && w.picks.Some? then "QC" + Print(w.picks.value, Sixteen)
    else ErrorPacket(PERM)
  }

  predicate StartsList(m: Memory, w: World) {
    !m.inSequence && w.inferior.Some? && w.inferior.value.threads != []
  }

  /** The first query lists all live threads, the next one ends the list. */
  function ThreadInfoReply(isFirst: bool, m: Memory, w: World): string {
    if w.inferior.None? || isFirst == m.inSequence then ErrorPacket(PERM)
    else if isFirst && StartsList(m, w) then "m" + Join(ThreadNames(w.inferior.value.threads), ',')
    else "l"
  }

  function MonitorReply(argv: seq<string>, m: Memory): string {
    AnswerText(AnswerFor(argv, m.verbosity))
  }

  function InHex(text: string): (s: string)
    requires AllBytes(text) && |text| <= 32
    ensures Fits(s) && Plain(s)
  {
    EncodeString(text)
  }

  function AnswerText(a: Answer): (s: string)
    ensures Fits(s) && Plain(s)
  {
    if a == Okay then "OK" else InHex(TextOf(a))
  }

  function NonStopReply(params: string): string {
    OkOr(params == "1", if params == "0" then PERM else INVAL)
  }

  /** The bytes of the auxiliary vector that a reply carries. */
  function AuxvBytes(r: (nat, nat), w: World): string
    requires w.inferior.Some?
  {
    AuxvReply.Copied(w.auxvAt, r.0, AuxvReply.Length(AuxvReply.End(w.inferior.value.hasExec), r.0, r.1))
  }

  function XferReply(request: string, w: World): string {
    var r := ReadRequest(request);
    if r.None? then ErrorPacket(INVAL)
    else if w.inferior.None? then ErrorPacket(PERM)
    else if r.value.0 > AUXV_SIZE then ErrorPacket(INVAL)
    else "l" + AuxvBytes(r.value, w)
  }

  const SUPPORTED_FEATURES := "QNonStop+;qXfer:auxv:read+"

  datatype QueryVerb =
    | IsAttached | CurrentThread | FirstThreads | NextThreads | Features | Monitor(command: string) | Transfer | Unknown

  function QueryVerbOf(prefix: string): QueryVerb {
    if prefix == "Attached" then IsAttached
    else if prefix == "C" then CurrentThread
    else if prefix == "fThreadInfo" then FirstThreads
    else if StartsWith(prefix, "Rcmd,") then Monitor(prefix[5..])
    else if prefix == "sThreadInfo" then NextThreads
    else if prefix == "Supported" then Features
    else if prefix == "Xfer" then Transfer
    else Unknown
  }

  lemma QuerySupported(p: string)
    ensures SupportsQuery(p) <==>
      var verb := QueryVerbOf(Prefix(p)); !verb.Unknown? && (verb.Transfer? ==> StartsWith(Params(p), AUXV_READ))
  {
    var prefix := Prefix(p);
    if StartsWith(prefix, "Rcmd,") { assert prefix[0] == 'R'; }
  }

  function QueryReply(verb: QueryVerb, params: string, m: Memory, w: World): string {
    match verb
    case IsAttached => if params == "" then "0" else ErrorPacket(INVAL)
    case CurrentThread => CurrentThreadReply(params, w)
    case FirstThreads => ThreadInfoReply(true, m, w)
    case Monitor(command) => MonitorReply(w.words(DecodeString(command)), m)
    case NextThreads => ThreadInfoReply(false, m, w)
    case Features => SUPPORTED_FEATURES
    case Transfer => if StartsWith(params, AUXV_READ) then XferReply(params[|AUXV_READ|..], w) else ""
    case Unknown => ""
  }

  function ControlReply(packet: string, w: World): string
    requires packet != ""
  {
    var c, p := packet[0], packet[1..];
    if c == 'c' then ContinueReply(p, w)
    else if c == 'C' then SignalReply(p, w)
    else if c == 'D' then DetachReply(p, w)
    else if c == 'G' then WriteRegistersReply(w)
    else if c == 'M' then WriteMemoryReply(p, w)
    else VReply(p, w)
  }

  /** The reply to a supported packet that starts no program. */
  function ReplyTo(packet: string, m: Memory, w: World): string {
    if packet == "" then ""
    else
      var c, p := packet[0], packet[1..];
      if IsControl(c) then ControlReply(packet, w)
      else if c == '?' then "OK"
      else if c == 'g' then RegistersReply(w)
      else if c == 'H' then SelectReply(p, w)
      else if c == 'm' then MemoryReply(p, w)
      else if c == 'q' then QueryReply(QueryVerbOf(Prefix(p)), Params(p), m, w)
      else if c == 'Q' then NonStopReply(Params(p))
      else if c == 'T' then AliveReply(p, w)
      else ""
  }

  /** The threads that a packet sets in motion. */
  function MovesOn(packet: string, w: World): seq<Move> {
    if packet != "" && packet[0] == 'v' && StartsWith(packet[1..], "Cont;") then MovesFor(packet[1..][5..], w) else []
  }

  function QueryMemory(verb: QueryVerb, m: Memory, w: World): Memory {
    match verb
    case FirstThreads => m.(inSequence := m.inSequence || StartsList(m, w))
    case NextThreads => m.(inSequence := m.inSequence && w.inferior.None?)
    case Monitor(command) =>
      var argv := w.words(DecodeString(command));
      m.(verbosity := LevelAfter(argv, m.verbosity), quitting := m.quitting || Quits(argv))
    case _ => m
  }

  function MemoryAfter(packet: string, m: Memory, w: World): Memory {
    if packet == "" then m
    else if packet[0] == 'v' then m.(argv := VArgvAfter(packet[1..], m.argv, w))
    else if packet[0] == 'q' then QueryMemory(QueryVerbOf(Prefix(packet[1..])), m, w)
    else m
  }

  // ----- What holds of every reply -----

  /** A command that acts on the debugged process is answered "OK" exactly when it acted. */
  lemma OkIffActed(packet: string, m: Memory, w: World)
    requires IsAction(packet)
    ensures ReplyTo(packet, m, w) == "OK" <==> Acted(Effects(packet, m.argv, w))
  {
    if packet[0] == 'v' { assert packet[1..][0] == 'A' || packet[1..][0] == 'K'; }
  }

  /** Which replies fit in the outgoing buffer. */
  lemma FitsIff(packet: string, m: Memory, w: World)
    requires Supported(packet, w.stale)
    ensures Fits(ReplyTo(packet, m, w)) <==> !ReplyIsTooLong(packet, m.inSequence, w)
  {
    if IsControl(packet[0]) {
      ControlIsShort(packet, w);
    } else if packet[0] == 'q' {
      QueryFits(QueryVerbOf(Prefix(packet[1..])), Params(packet[1..]), m, w);
      VerbOfLong(Prefix(packet[1..]));
    }
  }

  lemma ControlIsShort(packet: string, w: World)
    requires packet != ""
    ensures Fits(ControlReply(packet, w)) && Plain(ControlReply(packet, w))
  {
  }

  lemma VerbOfLong(prefix: string)
    ensures QueryVerbOf(prefix).FirstThreads? <==> prefix == "fThreadInfo"
    ensures QueryVerbOf(prefix).Transfer? <==> prefix == "Xfer"
  {
    if StartsWith(prefix, "Rcmd,") { assert prefix[0] == 'R'; }
  }

  lemma QueryFits(verb: QueryVerb, params: string, m: Memory, w: World)
    ensures Fits(QueryReply(verb, params, m, w)) <==>
      !(verb.FirstThreads? && LongThreadList(m.inSequence, w)) && !(verb.Transfer? && LongAuxv(params, w))
    ensures !verb.Transfer? ==> Plain(QueryReply(verb, params, m, w))
  {
    match verb
    case CurrentThread => CurrentThreadIsShort(params, w);
    case FirstThreads => if w.inferior.Some? { ThreadListIsPlain(w.inferior.value.threads); }
    case Transfer => if StartsWith(params, AUXV_READ) { XferFits(params[|AUXV_READ|..], w); }
    case _ =>
  }

  lemma CurrentThreadIsShort(params: string, w: World)
    ensures Fits(CurrentThreadReply(params, w)) && Plain(CurrentThreadReply(params, w))
  {
    if w.thread.Some? { Print64Length(w.thread.value); }
    if w.picks.Some? { Print64Length(w.picks.value); }
  }

  lemma XferFits(request: string, w: World)
    ensures Fits(XferReply(request, w)) <==> !(w.inferior.Some? && LongRequest(request, w))
  {
    var r := ReadRequest(request);
    if w.inferior.Some? && r.Some? && r.value.0 <= AUXV_SIZE {
      AuxvReply.LongIff(w.inferior.value.hasExec, r.value.0, r.value.1, MAX_AUXV);
    }
  }

  /** Every reply but a binary one may be framed as it is. */
  lemma PlainUnlessAuxv(packet: string, m: Memory, w: World)
    requires !ReadsAuxv(packet)
    ensures Plain(ReplyTo(packet, m, w))
  {
    if packet != "" {
      if IsControl(packet[0]) {
        ControlIsShort(packet, w);
      } else if packet[0] == 'q' {
        QueryFits(QueryVerbOf(Prefix(packet[1..])), Params(packet[1..]), m, w);
        VerbOfLong(Prefix(packet[1..]));
      }
    }
  }
}
