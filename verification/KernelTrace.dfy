/**
  The kernel-trace importer's incremental state: a table of the thread each CPU runs and, per
  thread, the system call it last entered.  Both refine definitions over the whole list of records.
*/
module KernelTrace {
  import opened Options

  /** A thread id of 0 stands for no user thread; a switch then names a kernel thread. */
  datatype Record =
    | ContextSwitch(time: nat, cpu: nat, incoming: nat, incomingKernel: nat)
    | SyscallEnter(time: nat, cpu: nat, syscall: nat)
    | SyscallExit(time: nat, cpu: nat, syscall: nat)

  /** How the trace names a thread. */
  datatype ThreadRef = Unknown | User(thread: nat) | Kernel(thread: nat)

  datatype CpuInfo = CpuInfo(thread: nat, ref: ThreadRef)

  const NO_CPU_INFO := CpuInfo(0, Unknown)

  function GetThreadRef(thread: nat): ThreadRef { if thread == 0 then Unknown else User(thread) }

  function Incoming(r: Record): (info: CpuInfo)
    requires r.ContextSwitch?
    ensures !info.ref.Unknown?
  {
    if r.incoming != 0 then CpuInfo(r.incoming, User(r.incoming))
    else CpuInfo(r.incomingKernel, Kernel(r.incomingKernel))
  }

  // ----- Definitions over the whole record list -----

  /** The `j`-th record is the latest switch of `cpu` among the first `n`. */
  predicate LatestSwitch(rs: seq<Record>, n: nat, cpu: nat, j: nat)
    requires n <= |rs|
  {
    && j < n && rs[j].ContextSwitch? && rs[j].cpu == cpu
    && forall k | j < k < n :: !(rs[k].ContextSwitch? && rs[k].cpu == cpu)
  }

  /** What `cpu` runs after the first `n` records. */
  function Current(rs: seq<Record>, n: nat, cpu: nat): CpuInfo
    requires n <= |rs|
  {
    if n == 0 then NO_CPU_INFO
    else if rs[n - 1].ContextSwitch? && rs[n - 1].cpu == cpu then Incoming(rs[n - 1])
    else Current(rs, n - 1, cpu)
  }

  function CurrentThread(rs: seq<Record>, n: nat, cpu: nat): nat
    requires n <= |rs|
  {
    Current(rs, n, cpu).thread
  }

  /** A CPU runs the user thread of its latest switch, or the kernel thread of one that names no user
      thread, or nothing. */
  lemma {:induction false} CurrentIsLatest(rs: seq<Record>, n: nat, cpu: nat)
    requires n <= |rs|
    ensures forall j: nat | j < n && LatestSwitch(rs, n, cpu, j) ::
      Current(rs, n, cpu) ==
        if rs[j].incoming != 0 then CpuInfo(rs[j].incoming, User(rs[j].incoming))
        else CpuInfo(rs[j].incomingKernel, Kernel(rs[j].incomingKernel))
    ensures (forall j: nat | j < n :: !(rs[j].ContextSwitch? && rs[j].cpu == cpu)) ==>
      Current(rs, n, cpu) == CpuInfo(0, Unknown)
  {
    if n > 0 {
      CurrentIsLatest(rs, n - 1, cpu);
      forall j: nat | j < n && LatestSwitch(rs, n, cpu, j)
        ensures Current(rs, n, cpu) == Incoming(rs[j])
      {
        if j < n - 1 { assert LatestSwitch(rs, n - 1, cpu, j); }
      }
    }
  }

  // ----- The switches written -----

  datatype Switch = Switch(time: nat, cpu: nat, outgoing: ThreadRef, incoming: ThreadRef)

  /** The context-switch records written for the first `n` records. */
  function Switches(rs: seq<Record>, n: nat): seq<Switch>
    requires n <= |rs|
  {
    if n == 0 then []
    else
      var r := rs[n - 1];
      Switches(rs, n - 1) +
      if r.ContextSwitch? then [Switch(r.time, r.cpu, Current(rs, n - 1, r.cpu).ref, Incoming(r).ref)] else []
  }

  /** What was last switched in on `cpu`. */
  function LastIncoming(ss: seq<Switch>, cpu: nat): ThreadRef {
    if ss == [] then Unknown
    else if ss[|ss| - 1].cpu == cpu then ss[|ss| - 1].incoming
    else LastIncoming(ss[..|ss| - 1], cpu)
  }

  lemma {:induction false} CurrentWasSwitchedIn(rs: seq<Record>, n: nat, cpu: nat)
    requires n <= |rs|
    ensures Current(rs, n, cpu).ref == LastIncoming(Switches(rs, n), cpu)
  {
    if n > 0 {
      CurrentWasSwitchedIn(rs, n - 1, cpu);
      var ss := Switches(rs, n);
      if rs[n - 1].ContextSwitch? { assert ss[..|ss| - 1] == Switches(rs, n - 1); }
      else { assert ss == Switches(rs, n - 1); }
    }
  }

  /** The written switches are linked: what a CPU switches out is what it switched in before,
      and unknown the first time. */
  lemma {:induction false} SwitchesAreLinked(rs: seq<Record>, n: nat, k: nat)
    requires n <= |rs| && k < |Switches(rs, n)|
    ensures var ss := Switches(rs, n); ss[k].outgoing == LastIncoming(ss[..k], ss[k].cpu)
  {
    var before := Switches(rs, n - 1);
    var ss := Switches(rs, n);
    if k < |before| {
      SwitchesAreLinked(rs, n - 1, k);
      assert ss[..k] == before[..k];
    } else {
      CurrentWasSwitchedIn(rs, n - 1, rs[n - 1].cpu);
      assert ss[..k] == before;
    }
  }

  function SwitchesIn(rs: seq<Record>): seq<Record> {
    if rs == [] then []
    else SwitchesIn(rs[..|rs| - 1]) + if rs[|rs| - 1].ContextSwitch? then [rs[|rs| - 1]] else []
  }

  /** Every switch is written, once and in order, and its incoming thread is always known. */
  lemma {:induction false} EverySwitchIsWritten(rs: seq<Record>, n: nat)
    requires n <= |rs|
    ensures var ss, cs := Switches(rs, n), SwitchesIn(rs[..n]);
      && |ss| == |cs|
      && forall k | 0 <= k < |ss| ::
        && cs[k].ContextSwitch? && ss[k].time == cs[k].time && ss[k].cpu == cs[k].cpu
        && ss[k].incoming == if cs[k].incoming != 0 then User(cs[k].incoming) else Kernel(cs[k].incomingKernel)
  {
    if n > 0 {
      EverySwitchIsWritten(rs, n - 1);
      assert rs[..n][..n - 1] == rs[..n - 1];
    }
  }

  // ----- The system calls written -----

  /** Record `k` is an event of system call entry on `thread`. */
  predicate EnterOn(rs: seq<Record>, k: nat, thread: nat)
    requires k < |rs|
  {
    rs[k].SyscallEnter? && CurrentThread(rs, k, rs[k].cpu) == thread
  }

  predicate ExitOn(rs: seq<Record>, k: nat, thread: nat)
    requires k < |rs|
  {
    rs[k].SyscallExit? && CurrentThread(rs, k, rs[k].cpu) == thread
  }

  /** Record `k` replaces or uses up an entry of `syscall` on `thread`. */
  predicate Closes(rs: seq<Record>, k: nat, thread: nat, syscall: nat)
    requires k < |rs|
  {
    EnterOn(rs, k, thread) || (ExitOn(rs, k, thread) && rs[k].syscall == syscall)
  }

  /** The entry at `i` is `thread`'s latest one before `n`, and is not used up. */
  predicate IsOpen(rs: seq<Record>, n: nat, thread: nat, i: nat)
    requires n <= |rs|
  {
    && i < n && EnterOn(rs, i, thread)
    && forall k | i < k < n :: !Closes(rs, k, thread, rs[i].syscall)
  }

  /** Entry `i` and exit `j` bound one system call. */
  predicate Matches(rs: seq<Record>, i: nat, j: nat)
    requires j < |rs|
  {
    && rs[j].SyscallExit?
    && var thread := CurrentThread(rs, j, rs[j].cpu);
       thread != 0 && IsOpen(rs, j, thread, i) && rs[i].syscall == rs[j].syscall
  }

  // ----- The same, computed record by record -----

  function OpenEnter(rs: seq<Record>, n: nat, thread: nat): (o: Option<nat>)
    requires n <= |rs|
    ensures o.Some? ==> o.value < n && rs[o.value].SyscallEnter?
  {
    if n == 0 then None
    else
      var before := OpenEnter(rs, n - 1, thread);
      if EnterOn(rs, n - 1, thread) then Some(n - 1)
      else if before.Some? && ExitOn(rs, n - 1, thread) && rs[n - 1].syscall == rs[before.value].syscall then None
      else before
  }

  lemma {:induction false} OpenEnterIsOpen(rs: seq<Record>, n: nat, thread: nat, i: nat)
    requires n <= |rs|
    ensures OpenEnter(rs, n, thread) == Some(i) <==> IsOpen(rs, n, thread, i)
  {
    if n > 0 {
      OpenEnterIsOpen(rs, n - 1, thread, i);
      if IsOpen(rs, n, thread, i) && i < n - 1 {
        assert !Closes(rs, n - 1, thread, rs[i].syscall);
        assert IsOpen(rs, n - 1, thread, i);
      }
      if OpenEnter(rs, n, thread) == Some(i) && i < n - 1 {
        assert IsOpen(rs, n - 1, thread, i);
        assert !Closes(rs, n - 1, thread, rs[i].syscall);
      }
    }
  }

  /** The entry that the exit at `j` completes, if any. */
  function Completed(rs: seq<Record>, j: nat): (o: Option<nat>)
    requires j < |rs|
    ensures o.Some? ==> o.value < j && rs[j].SyscallExit? && rs[o.value].SyscallEnter?
  {
    if !rs[j].SyscallExit? then None
    else
      var thread := CurrentThread(rs, j, rs[j].cpu);
      var open := if thread == 0 then None else OpenEnter(rs, j, thread);
      if open.Some? && rs[open.value].syscall == rs[j].syscall then open else None
  }

  lemma CompletedMatches(rs: seq<Record>, i: nat, j: nat)
    requires j < |rs|
    ensures Completed(rs, j) == Some(i) <==> Matches(rs, i, j)
  {
    if rs[j].SyscallExit? { OpenEnterIsOpen(rs, j, CurrentThread(rs, j, rs[j].cpu), i); }
  }

  datatype Duration = Duration(thread: nat, begin: nat, end: nat, syscall: nat)

  function DurationOf(rs: seq<Record>, i: nat, j: nat): Duration
    requires i < |rs| && j < |rs| && rs[i].SyscallEnter? && rs[j].SyscallExit?
  {
    Duration(CurrentThread(rs, j, rs[j].cpu), rs[i].time, rs[j].time, rs[j].syscall)
  }

  /** The durations written for the first `n` records. */
  function Durations(rs: seq<Record>, n: nat): seq<Duration>
    requires n <= |rs|
  {
    if n == 0 then []
    else
      var c := Completed(rs, n - 1);
      Durations(rs, n - 1) + if c.Some? then [DurationOf(rs, c.value, n - 1)] else []
  }

  /** The pairs of records the durations were written for. */
  function Pairs(rs: seq<Record>, n: nat): (ps: seq<(nat, nat)>)
    requires n <= |rs|
    ensures forall p | p in ps :: p.0 < p.1 < n && rs[p.0].SyscallEnter? && rs[p.1].SyscallExit?
  {
    if n == 0 then []
    else
      var c := Completed(rs, n - 1);
      Pairs(rs, n - 1) + if c.Some? then [(c.value, n - 1)] else []
  }

  /** The duration runs from the entry to the exit, on the thread that the CPU of the exit runs then. */
  predicate IsDuration(rs: seq<Record>, i: nat, j: nat, d: Duration)
    requires i < |rs| && j < |rs| && rs[i].SyscallEnter? && rs[j].SyscallExit?
  {
    && d.begin == rs[i].time && d.end == rs[j].time && d.syscall == rs[j].syscall
    && d.thread == CurrentThread(rs, j, rs[j].cpu)
  }

  /** One duration per pair, in the order of the exits. */
  lemma {:induction false} DurationsOfPairs(rs: seq<Record>, n: nat)
    requires n <= |rs|
    ensures var ps := Pairs(rs, n);
      && |Durations(rs, n)| == |ps|
      && (forall k | 0 <= k < |ps| :: IsDuration(rs, ps[k].0, ps[k].1, Durations(rs, n)[k]))
      && (forall j, k | 0 <= j < k < |ps| :: ps[j].1 < ps[k].1)
  {
    if n > 0 { DurationsOfPairs(rs, n - 1); }
  }

  /** A duration is written for an entry and an exit exactly when they bound one system call. */
  lemma {:induction false} PairsAreMatches(rs: seq<Record>, n: nat, i: nat, j: nat)
    requires n <= |rs|
    ensures (i, j) in Pairs(rs, n) <==> j < n && Matches(rs, i, j)
  {
    if n > 0 {
      PairsAreMatches(rs, n - 1, i, j);
      CompletedMatches(rs, i, n - 1);
    }
  }

  /** Each entry is used at most once, and one thread's system calls do not interleave. */
  lemma MatchesDoNotInterleave(rs: seq<Record>, i: nat, j: nat, i': nat, j': nat)
    requires j < j' < |rs| && Matches(rs, i, j) && Matches(rs, i', j')
    ensures i != i'
    ensures CurrentThread(rs, j, rs[j].cpu) == CurrentThread(rs, j', rs[j'].cpu) ==> j < i'
  {
    var thread, thread' := CurrentThread(rs, j, rs[j].cpu), CurrentThread(rs, j', rs[j'].cpu);
    if i == i' { assert Closes(rs, j, thread, rs[i].syscall); }
    if thread == thread' {
      if i < i' < j { assert Closes(rs, i', thread, rs[i].syscall); }
      if i' < i < j' { assert Closes(rs, i, thread, rs[i'].syscall); }
    }
  }

  function Timed(r: Record): Option<nat> {
    if r.ContextSwitch? then None else Some(r.time)
  }

  predicate NonDecreasing(rs: seq<Record>) {
    forall i, j | 0 <= i < j < |rs| && Timed(rs[i]).Some? && Timed(rs[j]).Some? ::
      Timed(rs[i]).value <= Timed(rs[j]).value
  }

  /** With non-decreasing times, the intervals written for one thread never overlap. */
  lemma IntervalsDoNotOverlap(rs: seq<Record>, j: nat, k: nat)
    requires NonDecreasing(rs) && j < k < |Durations(rs, |rs|)|
    requires Durations(rs, |rs|)[j].thread == Durations(rs, |rs|)[k].thread
    ensures var ds := Durations(rs, |rs|);
      ds[j].begin <= ds[j].end <= ds[k].begin <= ds[k].end
  {
    DurationsOfPairs(rs, |rs|);
    var p, q := Pairs(rs, |rs|)[j], Pairs(rs, |rs|)[k];
    PairsAreMatches(rs, |rs|, p.0, p.1);
    PairsAreMatches(rs, |rs|, q.0, q.1);
    MatchesDoNotInterleave(rs, p.0, p.1, q.0, q.1);
    assert Timed(rs[p.0]).Some? && Timed(rs[p.1]).Some? && Timed(rs[q.0]).Some? && Timed(rs[q.1]).Some?;
  }

  // ----- Records still to come do not matter -----

  lemma {:induction false} CurrentOfPrefix(rs: seq<Record>, more: seq<Record>, n: nat, cpu: nat)
    requires n <= |rs|
    ensures Current(rs + more, n, cpu) == Current(rs, n, cpu)
  {
    if n > 0 { CurrentOfPrefix(rs, more, n - 1, cpu); }
  }

  lemma {:induction false} SwitchesOfPrefix(rs: seq<Record>, more: seq<Record>, n: nat)
    requires n <= |rs|
    ensures Switches(rs + more, n) == Switches(rs, n)
  {
    if n > 0 {
      SwitchesOfPrefix(rs, more, n - 1);
      CurrentOfPrefix(rs, more, n - 1, rs[n - 1].cpu);
    }
  }

  lemma {:induction false} OpenEnterOfPrefix(rs: seq<Record>, more: seq<Record>, n: nat, thread: nat)
    requires n <= |rs|
    ensures OpenEnter(rs + more, n, thread) == OpenEnter(rs, n, thread)
  {
    if n > 0 {
      OpenEnterOfPrefix(rs, more, n - 1, thread);
      CurrentOfPrefix(rs, more, n - 1, rs[n - 1].cpu);
    }
  }

  lemma {:induction false} DurationsOfPrefix(rs: seq<Record>, more: seq<Record>, n: nat)
    requires n <= |rs|
    ensures Durations(rs + more, n) == Durations(rs, n)
  {
    if n > 0 {
      DurationsOfPrefix(rs, more, n - 1);
      if rs[n - 1].SyscallExit? {
        CurrentOfPrefix(rs, more, n - 1, rs[n - 1].cpu);
        OpenEnterOfPrefix(rs, more, n - 1, CurrentThread(rs, n - 1, rs[n - 1].cpu));
      }
    }
  }

  /** The current threads after one more record. */
  lemma CurrentStep(rs: seq<Record>, r: Record, cpu: nat)
    ensures Current(rs + [r], |rs| + 1, cpu) ==
      if r.ContextSwitch? && r.cpu == cpu then Incoming(r) else Current(rs, |rs|, cpu)
  {
    CurrentOfPrefix(rs, [r], |rs|, cpu);
  }

  /** The switches written after one more record. */
  lemma SwitchesStep(rs: seq<Record>, r: Record)
    ensures Switches(rs + [r], |rs| + 1) == Switches(rs, |rs|) +
      if r.ContextSwitch? then [Switch(r.time, r.cpu, Current(rs, |rs|, r.cpu).ref, Incoming(r).ref)] else []
  {
    SwitchesOfPrefix(rs, [r], |rs|);
    CurrentOfPrefix(rs, [r], |rs|, r.cpu);
  }

  /** The open entry of a thread after one more record. */
  lemma OpenEnterStep(rs: seq<Record>, r: Record, thread: nat)
    ensures var open := OpenEnter(rs, |rs|, thread);
      OpenEnter(rs + [r], |rs| + 1, thread) ==
        if r.ContextSwitch? || CurrentThread(rs, |rs|, r.cpu) != thread then open
        else if r.SyscallEnter? then Some(|rs|)
        else if open.Some? && rs[open.value].syscall == r.syscall then None
        else open
  {
    OpenEnterOfPrefix(rs, [r], |rs|, thread);
    CurrentOfPrefix(rs, [r], |rs|, r.cpu);
  }

  /** The durations written after one more record. */
  lemma DurationsStep(rs: seq<Record>, r: Record)
    ensures Durations(rs + [r], |rs| + 1) == Durations(rs, |rs|) +
      if !r.SyscallExit? then []
      else
        var thread := CurrentThread(rs, |rs|, r.cpu);
        var open := if thread == 0 then None else OpenEnter(rs, |rs|, thread);
        if open.Some? && rs[open.value].syscall == r.syscall
        then [Duration(thread, rs[open.value].time, r.time, r.syscall)] else []
  {
    DurationsOfPrefix(rs, [r], |rs|);
    CurrentOfPrefix(rs, [r], |rs|, r.cpu);
    OpenEnterOfPrefix(rs, [r], |rs|, CurrentThread(rs, |rs|, r.cpu));
  }

  // ----- The importer -----

  datatype SyscallDuration = SyscallDuration(begin: nat, syscall: nat, valid: bool)

  const NO_DURATION := SyscallDuration(0, 0, false)

  /** What the per-thread table should hold for `thread`. */
  predicate EntryFor(rs: seq<Record>, thread: nat, d: SyscallDuration) {
    var open := OpenEnter(rs, |rs|, thread);
    if open.Some? then d == SyscallDuration(rs[open.value].time, rs[open.value].syscall, true) else !d.valid
  }

  /** Records of other threads, and switches, leave an entry as it was. */
  lemma OtherEntry(rs: seq<Record>, r: Record, thread: nat, d: SyscallDuration)
    requires EntryFor(rs, thread, d) && (r.ContextSwitch? || CurrentThread(rs, |rs|, r.cpu) != thread)
    ensures EntryFor(rs + [r], thread, d)
  {
    OpenEnterStep(rs, r, thread);
  }

  lemma EnteredEntry(rs: seq<Record>, r: Record)
    requires r.SyscallEnter?
    ensures EntryFor(rs + [r], CurrentThread(rs, |rs|, r.cpu), SyscallDuration(r.time, r.syscall, true))
  {
    OpenEnterStep(rs, r, CurrentThread(rs, |rs|, r.cpu));
  }

  lemma ExitedEntry(rs: seq<Record>, r: Record, d: SyscallDuration)
    requires r.SyscallExit? && EntryFor(rs, CurrentThread(rs, |rs|, r.cpu), d)
    ensures EntryFor(rs + [r], CurrentThread(rs, |rs|, r.cpu), if d.syscall == r.syscall then d.(valid := false) else d)
  {
    OpenEnterStep(rs, r, CurrentThread(rs, |rs|, r.cpu));
  }

  /** What an exit writes, in terms of the entry of its thread. */
  lemma ExitWrites(rs: seq<Record>, r: Record, thread: nat, d: SyscallDuration)
    requires r.SyscallExit? && thread == CurrentThread(rs, |rs|, r.cpu) && (thread != 0 ==> EntryFor(rs, thread, d))
    ensures Durations(rs + [r], |rs| + 1) == Durations(rs, |rs|) +
      if thread != 0 && d.valid && d.syscall == r.syscall then [Duration(thread, d.begin, r.time, r.syscall)] else []
  {
    DurationsStep(rs, r);
  }

  class Importer {
    var cpuInfos: seq<CpuInfo>
    var syscallDurations: map<nat, SyscallDuration>
    var written: seq<Duration>
    var switches: seq<Switch>
    ghost var records: seq<Record>

    function GetCpuInfo(cpu: nat): CpuInfo
      reads this
    {
      if cpu >= |cpuInfos| then NO_CPU_INFO else cpuInfos[cpu]
    }

    /** The CPU table is right for the records seen so far. */
    ghost predicate CpusValid()
      reads this
    {
      forall cpu: nat :: GetCpuInfo(cpu) == Current(records, |records|, cpu)
    }

    function Entry(thread: nat): SyscallDuration
      reads this
    {
      if thread in syscallDurations then syscallDurations[thread] else NO_DURATION
    }

    ghost predicate Valid()
      reads this
    {
      && CpusValid()
      && (forall thread: nat | thread != 0 :: EntryFor(records, thread, Entry(thread)))
      && written == Durations(records, |records|)
      && switches == Switches(records, |records|)
    }

    constructor ()
      ensures Valid() && records == []
    {
      cpuInfos, syscallDurations, written, switches, records := [], map[], [], [], [];
    }

    method SwitchCpuToThread(cpu: nat, thread: nat) returns (ref: ThreadRef)
      modifies this`cpuInfos
      ensures ref == GetThreadRef(thread)
      ensures forall c: nat :: GetCpuInfo(c) == if c == cpu then CpuInfo(thread, ref) else old(GetCpuInfo(c))
    {
      if cpu >= |cpuInfos| { cpuInfos := cpuInfos + seq(cpu + 1 - |cpuInfos|, _ => NO_CPU_INFO); }
      ref := GetThreadRef(thread);
      cpuInfos := cpuInfos[cpu := CpuInfo(thread, ref)];
    }

    method SwitchCpuToKernelThread(cpu: nat, thread: nat) returns (ref: ThreadRef)
      modifies this`cpuInfos
      ensures ref == Kernel(thread)
      ensures forall c: nat :: GetCpuInfo(c) == if c == cpu then CpuInfo(thread, ref) else old(GetCpuInfo(c))
    {
      if cpu >= |cpuInfos| { cpuInfos := cpuInfos + seq(cpu + 1 - |cpuInfos|, _ => NO_CPU_INFO); }
      ref := Kernel(thread);
      cpuInfos := cpuInfos[cpu := CpuInfo(thread, ref)];
    }

    method HandleContextSwitch(time: nat, cpu: nat, incoming: nat, incomingKernel: nat)
      requires Valid()
      modifies this
      ensures Valid() && records == old(records) + [ContextSwitch(time, cpu, incoming, incomingKernel)]
    {
      var outgoingRef := GetCpuInfo(cpu).ref;
      var incomingRef;
      if incoming != 0 {
        incomingRef := SwitchCpuToThread(cpu, incoming);
      } else {
        incomingRef := SwitchCpuToKernelThread(cpu, incomingKernel);
      }
      if !outgoingRef.Unknown? || !incomingRef.Unknown? {
        switches := switches + [Switch(time, cpu, outgoingRef, incomingRef)];
      }
      ghost var rs, r := records, ContextSwitch(time, cpu, incoming, incomingKernel);
      records := rs + [r];
      forall c: nat ensures GetCpuInfo(c) == Current(records, |records|, c) { CurrentStep(rs, r, c); }
      forall t: nat | t != 0 ensures EntryFor(records, t, Entry(t)) { OtherEntry(rs, r, t, old(Entry(t))); }
      DurationsStep(rs, r);
      SwitchesStep(rs, r);
    }

    method HandleSyscallEnter(time: nat, cpu: nat, syscall: nat)
      requires Valid()
      modifies this
      ensures Valid() && records == old(records) + [SyscallEnter(time, cpu, syscall)]
    {
      var thread := GetCpuInfo(cpu).thread;
      if thread != 0 {
        syscallDurations := syscallDurations[thread := SyscallDuration(time, syscall, true)];
      }
      ghost var rs, r := records, SyscallEnter(time, cpu, syscall);
      records := rs + [r];
      forall c: nat ensures GetCpuInfo(c) == Current(records, |records|, c) { CurrentStep(rs, r, c); }
      forall t: nat | t != 0 ensures EntryFor(records, t, Entry(t)) {
        if t == thread { EnteredEntry(rs, r); } else { OtherEntry(rs, r, t, old(Entry(t))); }
      }
      DurationsStep(rs, r);
      SwitchesStep(rs, r);
    }

    method HandleSyscallExit(time: nat, cpu: nat, syscall: nat) returns (ok: bool)
      requires Valid()
      modifies this
      ensures Valid() && records == old(records) + [SyscallExit(time, cpu, syscall)]
      ensures ok <==> old(GetCpuInfo(cpu)).thread == 0 || |written| == |old(written)| + 1
    {
      var thread := GetCpuInfo(cpu).thread;
      ok := true;
      if thread != 0 {
        var duration := Entry(thread);
        if duration.valid && duration.syscall == syscall {
          written := written + [Duration(thread, duration.begin, time, syscall)];
          duration := duration.(valid := false);
        } else {
          ok := false;
        }
        syscallDurations := syscallDurations[thread := duration];
      }
      ghost var rs, r := records, SyscallExit(time, cpu, syscall);
      records := rs + [r];
      ExitWrites(rs, r, thread, old(Entry(thread)));
      forall c: nat ensures GetCpuInfo(c) == Current(records, |records|, c) { CurrentStep(rs, r, c); }
      forall t: nat | t != 0 ensures EntryFor(records, t, Entry(t)) {
        if t == thread { ExitedEntry(rs, r, old(Entry(t))); } else { OtherEntry(rs, r, t, old(Entry(t))); }
      }
      SwitchesStep(rs, r);
    }
  }
}
