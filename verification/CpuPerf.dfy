/**
  The cpuperf importer in tally mode: one pass over the records keeps, per (cpu, event), the last
  time and a running count.  The counts refine a sum over the whole list of records.
*/
module CpuPerf {
  import opened Options

  datatype Kind = Time | Tick | Count | Value | Pc | LastBranch

  /** `time` is the reader's clock, which a time record sets; `amount` is a count or a value. */
  datatype Record = Record(kind: Kind, cpu: nat, event: nat, time: nat, amount: nat)

  /** Trace start and stop, and the reader's clock before the first record. */
  datatype Params = Params(start: nat, stop: nat, clock: nat)

  datatype Verdict = PureTime | Backward | EmptyInterval | Late | Accepted

  const MAX_NUM_CPUS := 32
  const MAX_EVENTS := 0x1_0000
  const EVENT_ID_NONE := 0
  const TWO_32 := 0x1_0000_0000
  const TWO_64 := 0x1_0000_0000_0000_0000

  predicate InRange(cpu: nat, event: nat) {
    cpu < MAX_NUM_CPUS && event < MAX_EVENTS
  }

  predicate AllInRange(rs: seq<Record>) {
    forall i | 0 <= i < |rs| :: InRange(rs[i].cpu, rs[i].event)
  }

  // ----- Packed keys -----

  function GenKey(cpu: nat, event: nat): nat
    requires InRange(cpu, event)
  {
    cpu * 0x1_0000 + event
  }

  /** The sum above is what shifting and or-ing 32-bit words computes. */
  lemma PackedKeyIsSum(cpu: bv32, event: bv32)
    requires cpu < 32 && event < 0x1_0000
    ensures (cpu << 16) | event == cpu * 0x1_0000 + event
  {
  }

  lemma KeyInjective(cpu: nat, event: nat, cpu': nat, event': nat)
    requires InRange(cpu, event) && InRange(cpu', event')
    requires GenKey(cpu, event) == GenKey(cpu', event')
    ensures cpu == cpu' && event == event'
  {
  }

  // ----- Definitions over the whole record list -----

  /** A time record that carries no event. */
  predicate IsPureTime(r: Record) {
    r.kind == Time && r.event == EVENT_ID_NONE
  }

  /** Record `r` is about this cpu and event. */
  predicate Of(r: Record, cpu: nat, event: nat) {
    r.cpu == cpu && r.event == event && !IsPureTime(r)
  }

  /** The clock after the first `n` records. */
  function Clock(p: Params, rs: seq<Record>, n: nat): nat
    requires n <= |rs|
  {
    if n == 0 then p.clock
    else if rs[n - 1].kind == Time then rs[n - 1].time
    else Clock(p, rs, n - 1)
  }

  /** Record `j` is the latest time record among the first `n`. */
  predicate LatestTime(rs: seq<Record>, n: nat, j: nat)
    requires n <= |rs|
  {
    j < n && rs[j].kind == Time && forall k | j < k < n :: rs[k].kind != Time
  }

  /** The clock is the time of the latest time record, whether or not that carries an event. */
  lemma {:induction false} ClockIsLatest(p: Params, rs: seq<Record>, n: nat, j: nat)
    requires n <= |rs| && LatestTime(rs, n, j)
    ensures Clock(p, rs, n) == rs[j].time
  {
    if j < n - 1 {
      assert rs[n - 1].kind != Time;
      ClockIsLatest(p, rs, n - 1, j);
    }
  }

  lemma {:induction false} ClockAtFirst(p: Params, rs: seq<Record>, n: nat)
    requires n <= |rs| && forall j | 0 <= j < n :: rs[j].kind != Time
    ensures Clock(p, rs, n) == p.clock
  {
    if n > 0 {
      assert rs[n - 1].kind != Time;
      ClockAtFirst(p, rs, n - 1);
    }
  }

  /** The time of record `i`. */
  function TimeOf(p: Params, rs: seq<Record>, i: nat): nat
    requires i < |rs|
  {
    Clock(p, rs, i + 1)
  }

  /** Record `j` is the latest one of this cpu and event among the first `n`. */
  predicate Latest(rs: seq<Record>, n: nat, cpu: nat, event: nat, j: nat)
    requires n <= |rs|
  {
    j < n && Of(rs[j], cpu, event) && forall k | j < k < n :: !Of(rs[k], cpu, event)
  }

  predicate Seen(rs: seq<Record>, n: nat, cpu: nat, event: nat)
    requires n <= |rs|
  {
    exists j | 0 <= j < n :: Of(rs[j], cpu, event)
  }

  /** The time of the pair's previous record, or the trace start. */
  function PrevTime(p: Params, rs: seq<Record>, n: nat, cpu: nat, event: nat): nat
    requires n <= |rs|
  {
    if n == 0 then p.start
    else if Of(rs[n - 1], cpu, event) then TimeOf(p, rs, n - 1)
    else PrevTime(p, rs, n - 1, cpu, event)
  }

  lemma {:induction false} PrevTimeIsLatest(p: Params, rs: seq<Record>, n: nat, cpu: nat, event: nat)
    requires n <= |rs|
    ensures forall j: nat | j < n && Latest(rs, n, cpu, event, j) :: PrevTime(p, rs, n, cpu, event) == TimeOf(p, rs, j)
    ensures !Seen(rs, n, cpu, event) ==> PrevTime(p, rs, n, cpu, event) == p.start
  {
    if n > 0 {
      PrevTimeIsLatest(p, rs, n - 1, cpu, event);
      forall j: nat | j < n && Latest(rs, n, cpu, event, j)
        ensures PrevTime(p, rs, n, cpu, event) == TimeOf(p, rs, j)
      {
        if j < n - 1 { assert Latest(rs, n - 1, cpu, event, j); }
      }
      if !Seen(rs, n, cpu, event) { assert !Of(rs[n - 1], cpu, event); }
    }
  }

  function VerdictOf(p: Params, rs: seq<Record>, i: nat): Verdict
    requires i < |rs|
  {
    var now, prev := TimeOf(p, rs, i), PrevTime(p, rs, i, rs[i].cpu, rs[i].event);
    if IsPureTime(rs[i]) then PureTime
    else if now < prev then Backward
    else if now == prev then EmptyInterval
    else if now > p.stop then Late
    else Accepted
  }

  /** The record is later than its pair's previous record (or the trace start) and not after the stop. */
  predicate InTime(p: Params, rs: seq<Record>, i: nat)
    requires i < |rs|
  {
    && !IsPureTime(rs[i])
    && TimeOf(p, rs, i) <= p.stop
    && (forall j: nat | j < i && Latest(rs, i, rs[i].cpu, rs[i].event, j) :: TimeOf(p, rs, j) < TimeOf(p, rs, i))
    && (!Seen(rs, i, rs[i].cpu, rs[i].event) ==> p.start < TimeOf(p, rs, i))
  }

  lemma {:induction false} SeenHasLatest(rs: seq<Record>, n: nat, cpu: nat, event: nat) returns (j: nat)
    requires n <= |rs| && Seen(rs, n, cpu, event)
    ensures j < n && Latest(rs, n, cpu, event, j)
  {
    if Of(rs[n - 1], cpu, event) {
      j := n - 1;
    } else {
      j := SeenHasLatest(rs, n - 1, cpu, event);
    }
  }

  lemma AcceptedIsInTime(p: Params, rs: seq<Record>, i: nat)
    requires i < |rs|
    ensures VerdictOf(p, rs, i) == Accepted <==> InTime(p, rs, i)
  {
    PrevTimeIsLatest(p, rs, i, rs[i].cpu, rs[i].event);
    if Seen(rs, i, rs[i].cpu, rs[i].event) { var j := SeenHasLatest(rs, i, rs[i].cpu, rs[i].event); }
  }

  /** The time that record `i` has to be later than. */
  ghost predicate IsPrevious(p: Params, rs: seq<Record>, i: nat, time: nat)
    requires i < |rs|
  {
    if !Seen(rs, i, rs[i].cpu, rs[i].event) then time == p.start
    else exists j: nat | j < i && Latest(rs, i, rs[i].cpu, rs[i].event, j) :: time == TimeOf(p, rs, j)
  }

  /** A record that is not counted is earlier than its pair's previous record (or the start), at the same
      time, or after the stop. */
  lemma FaultIs(p: Params, rs: seq<Record>, i: nat, previous: nat)
    requires i < |rs| && IsPrevious(p, rs, i, previous)
    ensures VerdictOf(p, rs, i) == PureTime <==> rs[i].kind == Time && rs[i].event == 0
    ensures VerdictOf(p, rs, i) != PureTime ==>
      && (VerdictOf(p, rs, i) == Backward <==> TimeOf(p, rs, i) < previous)
      && (VerdictOf(p, rs, i) == EmptyInterval <==> TimeOf(p, rs, i) == previous)
      && (VerdictOf(p, rs, i) == Late <==> previous < TimeOf(p, rs, i) && p.stop < TimeOf(p, rs, i))
  {
    PrevTimeIsLatest(p, rs, i, rs[i].cpu, rs[i].event);
  }

  /** The pair's counts over exactly the records that are in time, from its last such value record on. */
  ghost function Total(p: Params, rs: seq<Record>, n: nat, cpu: nat, event: nat): nat
    requires n <= |rs|
  {
    if n == 0 then 0
    else
      var before, r := Total(p, rs, n - 1, cpu, event), rs[n - 1];
      if !Of(r, cpu, event) || !InTime(p, rs, n - 1) then before
      else if r.kind == Value then r.amount
      else if r.kind == Count then before + r.amount
      else before
  }

  /** The last in-time record of the pair that carries an amount is a value record. */
  ghost predicate EndsInValue(p: Params, rs: seq<Record>, n: nat, cpu: nat, event: nat)
    requires n <= |rs|
  {
    n > 0 &&
    var r := rs[n - 1];
    if !Of(r, cpu, event) || !InTime(p, rs, n - 1) || r.kind in {Pc, LastBranch} then
      EndsInValue(p, rs, n - 1, cpu, event)
    else r.kind == Value
  }

  /** The sum of the pair's counts over exactly the records that are in time. */
  ghost function Sum(p: Params, rs: seq<Record>, n: nat, cpu: nat, event: nat): nat
    requires n <= |rs|
  {
    if n == 0 then 0
    else
      var counted := Of(rs[n - 1], cpu, event) && rs[n - 1].kind == Count && InTime(p, rs, n - 1);
      Sum(p, rs, n - 1, cpu, event) + if counted then rs[n - 1].amount else 0
  }

  /** Without value records, what is counted is the whole sum. */
  lemma {:induction false} TotalIsSum(p: Params, rs: seq<Record>, n: nat, cpu: nat, event: nat)
    requires n <= |rs|
    requires forall i | 0 <= i < n && Of(rs[i], cpu, event) :: rs[i].kind != Value
    ensures Total(p, rs, n, cpu, event) == Sum(p, rs, n, cpu, event) && !EndsInValue(p, rs, n, cpu, event)
  {
    if n > 0 { TotalIsSum(p, rs, n - 1, cpu, event); }
  }

  function Tally(p: Params, rs: seq<Record>, n: nat, v: Verdict): nat
    requires n <= |rs|
  {
    if n == 0 then 0 else Tally(p, rs, n - 1, v) + if VerdictOf(p, rs, n - 1) == v then 1 else 0
  }

  /** The records that are in time. */
  ghost function InTimes(p: Params, rs: seq<Record>, n: nat): nat
    requires n <= |rs|
  {
    if n == 0 then 0 else InTimes(p, rs, n - 1) + if InTime(p, rs, n - 1) then 1 else 0
  }

  /** The records that only set the clock. */
  function PureTimes(rs: seq<Record>, n: nat): nat
    requires n <= |rs|
  {
    if n == 0 then 0 else PureTimes(rs, n - 1) + if IsPureTime(rs[n - 1]) then 1 else 0
  }

  /** Each record is in time, only sets the clock, or has exactly one of the faults that are counted. */
  lemma {:induction false} RecordsSplit(p: Params, rs: seq<Record>, n: nat)
    requires n <= |rs|
    ensures n == InTimes(p, rs, n) + PureTimes(rs, n)
                 + Tally(p, rs, n, Backward) + Tally(p, rs, n, EmptyInterval) + Tally(p, rs, n, Late)
  {
    if n > 0 {
      RecordsSplit(p, rs, n - 1);
      AcceptedIsInTime(p, rs, n - 1);
    }
  }

  // ----- What is tracked per pair -----

  datatype Data = Data(time: nat, isValue: bool, amount: nat)

  const NO_DATA := Data(0, false, 0)

  function Accumulated(d: Data, count: nat): Data {
    d.(isValue := false, amount := (d.amount + count) % TWO_64)
  }

  /** In tally mode the sample rate, which a tick adds, is 0. */
  function Applied(d: Data, r: Record): Data {
    match r.kind
    case Time | Tick => Accumulated(d, 0)
    case Count => Accumulated(d, r.amount)
    case Value => d.(isValue := true, amount := r.amount % TWO_64)
    case Pc | LastBranch => d
  }

  function DataAfter(p: Params, rs: seq<Record>, n: nat, cpu: nat, event: nat): Option<Data>
    requires n <= |rs|
  {
    if n == 0 then None
    else
      var before := DataAfter(p, rs, n - 1, cpu, event);
      if !Of(rs[n - 1], cpu, event) then before
      else
        var d := if before.Some? then before.value else NO_DATA;
        var e := if VerdictOf(p, rs, n - 1) == Accepted then Applied(d, rs[n - 1]) else d;
        Some(e.(time := TimeOf(p, rs, n - 1)))
  }

  lemma {:induction false} DataTime(p: Params, rs: seq<Record>, n: nat, cpu: nat, event: nat)
    requires n <= |rs|
    ensures DataAfter(p, rs, n, cpu, event).Some? <==> Seen(rs, n, cpu, event)
    ensures PrevTime(p, rs, n, cpu, event) ==
      var d := DataAfter(p, rs, n, cpu, event); if d.Some? then d.value.time else p.start
  {
    if n > 0 {
      DataTime(p, rs, n - 1, cpu, event);
      if Of(rs[n - 1], cpu, event) { assert Seen(rs, n, cpu, event); }
    }
  }

  /** What is tracked for a pair is its total, modulo 2^64, and whether that ends in a value. */
  lemma {:induction false} DataIsTotal(p: Params, rs: seq<Record>, n: nat, cpu: nat, event: nat)
    requires n <= |rs|
    ensures var d := DataAfter(p, rs, n, cpu, event);
      if d.Some? then
        && d.value.amount == Total(p, rs, n, cpu, event) % TWO_64
        && (d.value.isValue <==> EndsInValue(p, rs, n, cpu, event))
      else Total(p, rs, n, cpu, event) == 0 && !EndsInValue(p, rs, n, cpu, event)
  {
    if n > 0 {
      DataIsTotal(p, rs, n - 1, cpu, event);
      if Of(rs[n - 1], cpu, event) {
        AcceptedIsInTime(p, rs, n - 1);
        ModAdd(Total(p, rs, n - 1, cpu, event), rs[n - 1].amount);
      }
    }
  }

  lemma ModAdd(a: nat, b: nat)
    ensures (a % TWO_64 + b) % TWO_64 == (a + b) % TWO_64
    ensures a % TWO_64 % TWO_64 == a % TWO_64
  {
  }

  // ----- The event tracker -----

  class EventTracker {
    const startTime: nat
    var data: map<nat, Data>

    constructor (startTime: nat)
      ensures this.startTime == startTime && data == map[]
    {
      this.startTime, data := startTime, map[];
    }

    function Get(cpu: nat, event: nat): Option<Data>
      requires InRange(cpu, event)
      reads this
    {
      var key := GenKey(cpu, event);
      if key in data then Some(data[key]) else None
    }

    /** Only this pair's entry changes. */
    twostate predicate ChangedOnly(cpu: nat, event: nat, d: Data)
      requires InRange(cpu, event)
      reads this
    {
      forall c: nat, e: nat | InRange(c, e) ::
        Get(c, e) == if c == cpu && e == event then Some(d) else old(Get(c, e))
    }

    function OrDefault(cpu: nat, event: nat): Data
      requires InRange(cpu, event)
      reads this
    {
      if Get(cpu, event).Some? then Get(cpu, event).value else NO_DATA
    }

    method Put(cpu: nat, event: nat, d: Data)
      requires InRange(cpu, event)
      modifies this
      ensures ChangedOnly(cpu, event, d)
    {
      data := data[GenKey(cpu, event) := d];
      forall c: nat, e: nat | InRange(c, e)
        ensures Get(c, e) == if c == cpu && e == event then Some(d) else old(Get(c, e))
      {
        if GenKey(c, e) == GenKey(cpu, event) { KeyInjective(c, e, cpu, event); }
      }
    }

    method UpdateTime(cpu: nat, event: nat, time: nat)
      requires InRange(cpu, event)
      modifies this
      ensures ChangedOnly(cpu, event, old(OrDefault(cpu, event)).(time := time))
    {
      Put(cpu, event, OrDefault(cpu, event).(time := time));
    }

    method GetTime(cpu: nat, event: nat) returns (time: nat)
      requires InRange(cpu, event)
      ensures time == if Get(cpu, event).Some? then Get(cpu, event).value.time else startTime
    {
      var d := Get(cpu, event);
      time := if d.None? then startTime else d.value.time;
    }

    method UpdateValue(cpu: nat, event: nat, value: nat)
      requires InRange(cpu, event)
      modifies this
      ensures ChangedOnly(cpu, event, old(OrDefault(cpu, event)).(isValue := true, amount := value % TWO_64))
    {
      Put(cpu, event, OrDefault(cpu, event).(isValue := true, amount := value % TWO_64));
    }

    method AccumulateCount(cpu: nat, event: nat, count: nat)
      requires InRange(cpu, event)
      modifies this
      ensures ChangedOnly(cpu, event, Accumulated(old(OrDefault(cpu, event)), count))
    {
      Put(cpu, event, Accumulated(OrDefault(cpu, event), count));
    }

    ghost predicate Holds(tracked: Tracked)
      reads this
    {
      forall c: nat, e: nat | InRange(c, e) :: Get(c, e) == tracked(c, e)
    }

    ghost predicate Tracks(p: Params, rs: seq<Record>, n: nat)
      requires n <= |rs|
      reads this
    {
      && startTime == p.start
      && forall c: nat, e: nat | InRange(c, e) :: Get(c, e) == DataAfter(p, rs, n, c, e)
    }
  }

  // ----- The import loop -----

  /** The importer's counters; all are 32 bits wide. */
  datatype Counters = Counters(records: nat, backward: nat, empty: nat, late: nat)

  function CountersAfter(p: Params, rs: seq<Record>, n: nat): Counters
    requires n <= |rs|
  {
    Counters(n % TWO_32, Tally(p, rs, n, Backward) % TWO_32,
             Tally(p, rs, n, EmptyInterval) % TWO_32, Tally(p, rs, n, Late) % TWO_32)
  }

  function Incremented(n: nat): nat {
    (n + 1) % TWO_32
  }

  lemma IncrementedMod(n: nat)
    ensures Incremented(n % TWO_32) == (n + 1) % TWO_32
  {
  }

  lemma CountersStep(p: Params, rs: seq<Record>, i: nat)
    requires i < |rs|
    ensures var c, v := CountersAfter(p, rs, i), VerdictOf(p, rs, i);
      CountersAfter(p, rs, i + 1) == Counters(Incremented(c.records),
        if v == Backward then Incremented(c.backward) else c.backward,
        if v == EmptyInterval then Incremented(c.empty) else c.empty,
        if v == Late then Incremented(c.late) else c.late)
  {
    IncrementedMod(i);
    IncrementedMod(Tally(p, rs, i, Backward));
    IncrementedMod(Tally(p, rs, i, EmptyInterval));
    IncrementedMod(Tally(p, rs, i, Late));
  }

  lemma CountersSplit(p: Params, rs: seq<Record>)
    ensures var c := CountersAfter(p, rs, |rs|);
      c.records == (InTimes(p, rs, |rs|) + PureTimes(rs, |rs|) + c.backward + c.empty + c.late) % TWO_32
  {
    RecordsSplit(p, rs, |rs|);
    var faults := [Tally(p, rs, |rs|, Backward), Tally(p, rs, |rs|, EmptyInterval), Tally(p, rs, |rs|, Late)];
    SumOfMods(InTimes(p, rs, |rs|) + PureTimes(rs, |rs|), faults[0], faults[1], faults[2]);
  }

  lemma SumOfMods(n: nat, a: nat, b: nat, c: nat)
    ensures (n + a % TWO_32 + b % TWO_32 + c % TWO_32) % TWO_32 == (n + a + b + c) % TWO_32
  {
  }

  /** The whole import in tally mode. */
  method ImportTally(p: Params, rs: seq<Record>, numCpus: nat, events: seq<nat>)
    returns (out: seq<TallyRecord>, recordCount: nat)
    requires AllInRange(rs)
    requires numCpus <= MAX_NUM_CPUS && forall k | 0 <= k < |events| :: events[k] < MAX_EVENTS
    ensures out == ReportedCpus(p, Final(p, rs), numCpus, events)
    ensures recordCount == |rs| % TWO_32
  {
    var tracker, counters := ImportRecords(p, rs);
    out := EmitTallyCounts(p, Final(p, rs), tracker, numCpus, events);
    recordCount := counters.records;
  }

  method ImportRecords(p: Params, rs: seq<Record>) returns (tracker: EventTracker, counters: Counters)
    requires AllInRange(rs)
    ensures fresh(tracker) && tracker.Tracks(p, rs, |rs|)
    ensures counters == CountersAfter(p, rs, |rs|)
    ensures counters.records == (InTimes(p, rs, |rs|) + PureTimes(rs, |rs|)
                                 + counters.backward + counters.empty + counters.late) % TWO_32
  {
    tracker := new EventTracker(p.start);
    var recordCount, backward, empty, late := 0, 0, 0, 0;
    var currentTime := p.clock;
    for i := 0 to |rs|
      invariant fresh(tracker) && tracker.Tracks(p, rs, i)
      invariant currentTime == Clock(p, rs, i)
      invariant Counters(recordCount, backward, empty, late) == CountersAfter(p, rs, i)
    {
      var r := rs[i];
      CountersStep(p, rs, i);
      if r.kind == Time {
        currentTime := r.time;
        if r.event == EVENT_ID_NONE {
          recordCount := Incremented(recordCount);
          continue;
        }
      }
      DataTime(p, rs, i, r.cpu, r.event);
      var prevTime := tracker.GetTime(r.cpu, r.event);
      if currentTime < prevTime {
        backward := Incremented(backward);
      } else if currentTime == prevTime {
        empty := Incremented(empty);
      } else if currentTime > p.stop {
        late := Incremented(late);
      }
      ImportRecord(tracker, p, rs, i, prevTime < currentTime <= p.stop, currentTime);
      recordCount := Incremented(recordCount);
    }
    counters := Counters(recordCount, backward, empty, late);
    CountersSplit(p, rs);
  }

  /** What one record that carries an event does to the tracker. */
  method ImportRecord(tracker: EventTracker, ghost p: Params, rs: seq<Record>, i: nat, accepted: bool, now: nat)
    requires i < |rs| && InRange(rs[i].cpu, rs[i].event) && !IsPureTime(rs[i])
    requires accepted <==> VerdictOf(p, rs, i) == Accepted
    requires now == TimeOf(p, rs, i) && tracker.Tracks(p, rs, i)
    modifies tracker
    ensures tracker.Tracks(p, rs, i + 1)
  {
    var r := rs[i];
    ghost var before := tracker.OrDefault(r.cpu, r.event);
    if accepted {
      match r.kind
      case Time | Tick => tracker.AccumulateCount(r.cpu, r.event, 0);
      case Count => tracker.AccumulateCount(r.cpu, r.event, r.amount);
      case Value => tracker.UpdateValue(r.cpu, r.event, r.amount);
      case Pc | LastBranch =>
    }
    assert tracker.OrDefault(r.cpu, r.event) == if accepted then Applied(before, r) else before;
    tracker.UpdateTime(r.cpu, r.event, now);
  }

  // ----- The report -----

  datatype TallyRecord = TallyRecord(cpu: nat, event: nat, time: nat, isValue: bool, value: nat)

  /** What is reported for one cpu and event. */
  function Reported(p: Params, d: Option<Data>, cpu: nat, event: nat): seq<TallyRecord> {
    if d.None? then []
    else if d.value.isValue then [TallyRecord(cpu, event, p.stop, true, d.value.amount)]
    else [TallyRecord(cpu, event, p.start, false, 0), TallyRecord(cpu, event, p.stop, false, d.value.amount)]
  }

  /** What is tracked for a cpu and event. */
  type Tracked = (nat, nat) -> Option<Data>

  /** What is tracked after the whole list. */
  function Final(p: Params, rs: seq<Record>): Tracked {
    (cpu: nat, event: nat) => DataAfter(p, rs, |rs|, cpu, event)
  }

  function ReportedEvents(p: Params, data: Tracked, cpu: nat, events: seq<nat>): seq<TallyRecord> {
    if events == [] then []
    else
      var n := |events| - 1;
      ReportedEvents(p, data, cpu, events[..n]) + Reported(p, data(cpu, events[n]), cpu, events[n])
  }

  function ReportedCpus(p: Params, data: Tracked, cpus: nat, events: seq<nat>): seq<TallyRecord> {
    if cpus == 0 then []
    else ReportedCpus(p, data, cpus - 1, events) + ReportedEvents(p, data, cpus - 1, events)
  }

  method EmitTally(p: Params, ghost data: Tracked, tracker: EventTracker, cpu: nat, event: nat)
    returns (out: seq<TallyRecord>)
    requires InRange(cpu, event) && tracker.Holds(data)
    ensures out == Reported(p, data(cpu, event), cpu, event)
  {
    out := [];
    var d := tracker.Get(cpu, event);
    if d.Some? {
      if d.value.isValue {
        out := [TallyRecord(cpu, event, p.stop, true, d.value.amount)];
      } else {
        out := [TallyRecord(cpu, event, p.start, false, 0)];
        out := out + [TallyRecord(cpu, event, p.stop, false, d.value.amount)];
      }
    }
  }

  method EmitTallyOfCpu(p: Params, ghost data: Tracked, tracker: EventTracker, cpu: nat, events: seq<nat>)
    returns (out: seq<TallyRecord>)
    requires cpu < MAX_NUM_CPUS && forall k | 0 <= k < |events| :: events[k] < MAX_EVENTS
    requires tracker.Holds(data)
    ensures out == ReportedEvents(p, data, cpu, events)
  {
    out := [];
    for k := 0 to |events|
      invariant out == ReportedEvents(p, data, cpu, events[..k])
    {
      assert events[..k + 1][..k] == events[..k];
      var one := EmitTally(p, data, tracker, cpu, events[k]);
      out := out + one;
    }
    assert events[..|events|] == events;
  }

  method EmitTallyCounts(p: Params, ghost data: Tracked, tracker: EventTracker, numCpus: nat, events: seq<nat>)
    returns (out: seq<TallyRecord>)
    requires numCpus <= MAX_NUM_CPUS && forall k | 0 <= k < |events| :: events[k] < MAX_EVENTS
    requires tracker.Holds(data)
    ensures out == ReportedCpus(p, data, numCpus, events)
  {
    out := [];
    for cpu := 0 to numCpus
      invariant out == ReportedCpus(p, data, cpu, events)
    {
      var ofCpu := EmitTallyOfCpu(p, data, tracker, cpu, events);
      out := out + ofCpu;
    }
  }

  /** Record `t` is one of those reported for its own cpu and event. */
  predicate ReportsFor(p: Params, data: Tracked, events: seq<nat>, t: TallyRecord) {
    t.event in events && t in Reported(p, data(t.cpu, t.event), t.cpu, t.event)
  }

  lemma {:induction false} EventsReportFor(p: Params, data: Tracked, c: nat, events: seq<nat>, t: TallyRecord)
    ensures t in ReportedEvents(p, data, c, events) <==> t.cpu == c && ReportsFor(p, data, events, t)
  {
    if events != [] {
      var n := |events| - 1;
      EventsReportFor(p, data, c, events[..n], t);
      assert events == events[..n] + [events[n]];
    }
  }

  lemma {:induction false} ReportFor(p: Params, data: Tracked, cpus: nat, events: seq<nat>, t: TallyRecord)
    ensures t in ReportedCpus(p, data, cpus, events) <==> t.cpu < cpus && ReportsFor(p, data, events, t)
  {
    if cpus > 0 {
      var before, last := ReportedCpus(p, data, cpus - 1, events), ReportedEvents(p, data, cpus - 1, events);
      ReportFor(p, data, cpus - 1, events, t);
      EventsReportFor(p, data, cpus - 1, events, t);
      OneCpuMore(before, last, ReportedCpus(p, data, cpus, events), t, cpus, ReportsFor(p, data, events, t));
    }
  }

  /** Membership in a list that grew by one cpu's records, on plain arguments. */
  lemma OneCpuMore(before: seq<TallyRecord>, last: seq<TallyRecord>, all: seq<TallyRecord>, t: TallyRecord,
                   cpus: nat, reported: bool)
    requires cpus > 0 && all == before + last
    requires (t in before <==> t.cpu < cpus - 1 && reported) && (t in last <==> t.cpu == cpus - 1 && reported)
    ensures t in all <==> t.cpu < cpus && reported
  {
  }

  /**
    The report of an event on a cpu: absent if the pair was never seen; one value at the stop if its
    in-time records end in a value; else zero at the start and the total, modulo 2^64, at the stop.
  */
  lemma ReportIsTotal(p: Params, rs: seq<Record>, cpus: nat, events: seq<nat>, t: TallyRecord)
    requires t.cpu < cpus && t.event in events
    ensures t in ReportedCpus(p, Final(p, rs), cpus, events) <==>
      && Seen(rs, |rs|, t.cpu, t.event)
      && var total := Total(p, rs, |rs|, t.cpu, t.event) % TWO_64;
         if EndsInValue(p, rs, |rs|, t.cpu, t.event) then t.isValue && t.time == p.stop && t.value == total
         else !t.isValue && ((t.time == p.start && t.value == 0) || (t.time == p.stop && t.value == total))
  {
    ReportFor(p, Final(p, rs), cpus, events, t);
    DataIsTotal(p, rs, |rs|, t.cpu, t.event);
    DataTime(p, rs, |rs|, t.cpu, t.event);
  }

  /** For an event with no value records on a cpu, the report is the sum of exactly its in-time counts. */
  lemma ReportIsSum(p: Params, rs: seq<Record>, cpus: nat, events: seq<nat>, t: TallyRecord)
    requires t.cpu < cpus && t.event in events
    requires forall i | 0 <= i < |rs| && Of(rs[i], t.cpu, t.event) :: rs[i].kind != Value
    ensures t in ReportedCpus(p, Final(p, rs), cpus, events) <==>
      && Seen(rs, |rs|, t.cpu, t.event) && !t.isValue
      && ((t.time == p.start && t.value == 0) ||
          (t.time == p.stop && t.value == Sum(p, rs, |rs|, t.cpu, t.event) % TWO_64))
  {
    ReportIsTotal(p, rs, cpus, events, t);
    TotalIsSum(p, rs, |rs|, t.cpu, t.event);
  }

  // ----- How often a pair is reported -----

  /** The records of one cpu and event, in order. */
  function ForPair(out: seq<TallyRecord>, cpu: nat, event: nat): seq<TallyRecord> {
    if out == [] then []
    else
      var n := |out| - 1;
      ForPair(out[..n], cpu, event) + if out[n].cpu == cpu && out[n].event == event then [out[n]] else []
  }

  function Occurrences(events: seq<nat>, event: nat): nat {
    if events == [] then 0
    else Occurrences(events[..|events| - 1], event) + if events[|events| - 1] == event then 1 else 0
  }

  function Times(s: seq<TallyRecord>, k: nat): seq<TallyRecord> {
    if k == 0 then [] else Times(s, k - 1) + s
  }

  lemma {:induction false} ForPairAppend(a: seq<TallyRecord>, b: seq<TallyRecord>, cpu: nat, event: nat)
    ensures ForPair(a + b, cpu, event) == ForPair(a, cpu, event) + ForPair(b, cpu, event)
  {
    if b == [] {
      assert a + b == a;
    } else {
      var n := |b| - 1;
      ForPairAppend(a, b[..n], cpu, event);
      assert (a + b)[..|a| + n] == a + b[..n];
    }
  }

  lemma ForPairReported(p: Params, d: Option<Data>, c: nat, e: nat, cpu: nat, event: nat)
    ensures ForPair(Reported(p, d, c, e), cpu, event) == if c == cpu && e == event then Reported(p, d, c, e) else []
  {
    var out := Reported(p, d, c, e);
    if |out| == 1 { ForPairOne(out[0], cpu, event); }
    if |out| == 2 {
      ForPairOne(out[0], cpu, event);
      ForPairOne(out[1], cpu, event);
      ForPairAppend([out[0]], [out[1]], cpu, event);
      assert out == [out[0]] + [out[1]];
    }
  }

  lemma ForPairOne(t: TallyRecord, cpu: nat, event: nat)
    ensures ForPair([t], cpu, event) == if t.cpu == cpu && t.event == event then [t] else []
  {
    assert [t][..0] == [];
  }

  /** The parts of the cpus below `cpus`, one after the other. */
  function Concat(part: nat -> seq<TallyRecord>, cpus: nat): seq<TallyRecord> {
    if cpus == 0 then [] else Concat(part, cpus - 1) + part(cpus - 1)
  }

  function PartOf(p: Params, data: Tracked, events: seq<nat>): nat -> seq<TallyRecord> {
    (c: nat) => ReportedEvents(p, data, c, events)
  }

  lemma {:induction false} CpusAreParts(p: Params, data: Tracked, cpus: nat, events: seq<nat>)
    ensures ReportedCpus(p, data, cpus, events) == Concat(PartOf(p, data, events), cpus)
  {
    if cpus > 0 { CpusAreParts(p, data, cpus - 1, events); }
  }

  type Pick = seq<TallyRecord> -> seq<TallyRecord>

  /** Picking from two lists one after the other picks from each. */
  ghost predicate Additive(pick: Pick) {
    pick([]) == [] && forall a, b {:trigger pick(a + b)} :: pick(a + b) == pick(a) + pick(b)
  }

  lemma {:induction false} EventsPick(p: Params, data: Tracked, c: nat, events: seq<nat>, pick: Pick, cpu: nat,
                                      event: nat, one: seq<TallyRecord>)
    requires Additive(pick)
    requires forall e: nat {:trigger Reported(p, data(c, e), c, e)} ::
      pick(Reported(p, data(c, e), c, e)) == if c == cpu && e == event then one else []
    ensures pick(ReportedEvents(p, data, c, events)) == if c == cpu then Times(one, Occurrences(events, event)) else []
  {
    if events != [] {
      var n := |events| - 1;
      var before, last := ReportedEvents(p, data, c, events[..n]), Reported(p, data(c, events[n]), c, events[n]);
      EventsPick(p, data, c, events[..n], pick, cpu, event, one);
      assert pick(before + last) == pick(before) + pick(last);
    }
  }

  lemma {:induction false} ConcatPick(part: nat -> seq<TallyRecord>, cpus: nat, pick: Pick, cpu: nat,
                                      copies: seq<TallyRecord>)
    requires Additive(pick)
    requires forall c: nat :: pick(part(c)) == if c == cpu then copies else []
    ensures pick(Concat(part, cpus)) == if cpu < cpus then copies else []
  {
    if cpus > 0 {
      ConcatPick(part, cpus - 1, pick, cpu, copies);
      assert pick(Concat(part, cpus - 1) + part(cpus - 1)) == pick(Concat(part, cpus - 1)) + pick(part(cpus - 1));
    }
  }

  function Picker(cpu: nat, event: nat): Pick {
    out => ForPair(out, cpu, event)
  }

  lemma PickerIsAdditive(cpu: nat, event: nat)
    ensures Additive(Picker(cpu, event))
  {
    forall a: seq<TallyRecord>, b: seq<TallyRecord>
      ensures ForPair(a + b, cpu, event) == ForPair(a, cpu, event) + ForPair(b, cpu, event)
    {
      ForPairAppend(a, b, cpu, event);
    }
  }

  lemma CpusForPair(p: Params, data: Tracked, cpus: nat, events: seq<nat>, cpu: nat, event: nat)
    ensures ForPair(ReportedCpus(p, data, cpus, events), cpu, event) ==
      if cpu < cpus then Times(Reported(p, data(cpu, event), cpu, event), Occurrences(events, event)) else []
  {
    var one := Reported(p, data(cpu, event), cpu, event);
    var copies := Times(one, Occurrences(events, event));
    var pick := Picker(cpu, event);
    PickerIsAdditive(cpu, event);
    forall c: nat ensures pick(PartOf(p, data, events)(c)) == if c == cpu then copies else [] {
      forall e: nat ensures pick(Reported(p, data(c, e), c, e)) == if c == cpu && e == event then one else [] {
        ForPairReported(p, data(c, e), c, e, cpu, event);
      }
      EventsPick(p, data, c, events, pick, cpu, event, one);
    }
    CpusAreParts(p, data, cpus, events);
    ConcatPick(PartOf(p, data, events), cpus, pick, cpu, copies);
  }

  /** What should be reported for a cpu and event. */
  ghost function Expected(p: Params, rs: seq<Record>, cpu: nat, event: nat): seq<TallyRecord> {
    var total := Total(p, rs, |rs|, cpu, event) % TWO_64;
    if !Seen(rs, |rs|, cpu, event) then []
    else if EndsInValue(p, rs, |rs|, cpu, event) then [TallyRecord(cpu, event, p.stop, true, total)]
    else [TallyRecord(cpu, event, p.start, false, 0), TallyRecord(cpu, event, p.stop, false, total)]
  }

  /** The report of each cpu and event is exactly that, once for each time the event is listed. */
  lemma PairIsReportedOnce(p: Params, rs: seq<Record>, cpus: nat, events: seq<nat>, cpu: nat, event: nat)
    ensures ForPair(ReportedCpus(p, Final(p, rs), cpus, events), cpu, event) ==
      if cpu < cpus then Times(Expected(p, rs, cpu, event), Occurrences(events, event)) else []
  {
    CpusForPair(p, Final(p, rs), cpus, events, cpu, event);
    DataIsTotal(p, rs, |rs|, cpu, event);
    DataTime(p, rs, |rs|, cpu, event);
  }

  /** With distinct events, that is at most once. */
  lemma {:induction false} DistinctOccurOnce(events: seq<nat>, event: nat)
    requires forall i, j | 0 <= i < j < |events| :: events[i] != events[j]
    ensures Occurrences(events, event) == if event in events then 1 else 0
  {
    if events != [] {
      var n := |events| - 1;
      DistinctOccurOnce(events[..n], event);
      assert events == events[..n] + [events[n]];
    }
  }
}
