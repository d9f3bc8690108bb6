/**
  Progress of the HTTP scheduler: left alone by its clients, the service gets every slot back and has
  served every request.
*/
module HttpProgress {
  import opened Options
  import opened HttpRuns
  import opened HttpScheduler

  /** No task is left to run, on the main thread or on an IO thread that still runs. */
  predicate Quiescent(s: State) {
    && s.tasks == []
    && forall l | l in s.loaders :: s.loaders[l].quit || s.loaders[l].io == []
  }

  lemma QuiescentPoolIsFull(s: State)
    requires Inv(s) && Quiescent(s) && s.max > 0
    ensures s.available == s.max && s.waiting == [] && s.served == s.arrivals
  {
    forall l | l in s.loaders ensures s.loaders[l].onInactive.None? {
      assert LoaderInv(l, s.loaders[l], s.tasks, s.waiting, None);
    }
    assert Holders(s.loaders) == {};
  }

  function TaskWork(t: MainTask): nat { if t.SlotRequest? then 4 else 1 }

  function TasksWork(ts: seq<MainTask>): nat {
    if ts == [] then 0 else TaskWork(ts[0]) + TasksWork(ts[1..])
  }

  function IoWork(io: seq<IoTask>): nat {
    if io == [] then 0 else (if io[0].StartOnIO? then 1 else 2) + IoWork(io[1..])
  }

  ghost function LoadersWork(m: Loaders): nat
    decreases |m|
  {
    if m == map[] then 0
    else
      var l :| l in m;
      IoWork(m[l].io) + LoadersWork(m - {l})
  }

  /** A bound on the number of steps the service can take without its clients. */
  ghost function Work(s: State): nat {
    TasksWork(s.tasks) + 3 * |s.waiting| + LoadersWork(s.loaders)
  }

  lemma {:induction false} LoadersWorkRemove(m: Loaders, l: LoaderId)
    requires l in m
    ensures LoadersWork(m) == IoWork(m[l].io) + LoadersWork(m - {l})
    decreases |m|
  {
    var k :| k in m && LoadersWork(m) == IoWork(m[k].io) + LoadersWork(m - {k});
    if k != l {
      LoadersWorkRemove(m - {k}, l);
      LoadersWorkRemove(m - {l}, k);
      assert m - {k} - {l} == m - {l} - {k};
    }
  }

  lemma LoadersWorkUpdate(m: Loaders, l: LoaderId, ld: Loader)
    requires l in m
    ensures LoadersWork(m[l := ld]) == LoadersWork(m) - IoWork(m[l].io) + IoWork(ld.io)
  {
    LoadersWorkRemove(m, l);
    LoadersWorkRemove(m[l := ld], l);
    assert m[l := ld] - {l} == m - {l};
  }

  lemma {:induction false} TasksWorkPost(ts: seq<MainTask>, t: MainTask)
    ensures TasksWork(ts + [t]) == TasksWork(ts) + TaskWork(t)
  {
    if ts != [] {
      assert (ts + [t])[1..] == ts[1..] + [t];
      TasksWorkPost(ts[1..], t);
    }
  }

  lemma {:induction false} IoWorkPost(io: seq<IoTask>)
    ensures IoWork(io + [RunSlotRequest]) == IoWork(io) + 2
  {
    if io != [] {
      assert (io + [RunSlotRequest])[1..] == io[1..] + [RunSlotRequest];
      IoWorkPost(io[1..]);
    }
  }

  lemma {:induction false} ReturnWork(s: State, ticket: nat)
    ensures Work(AfterReturn(s, ticket)) <= Work(s)
    decreases |s.waiting|, 0
  {
    if s.available < s.max && s.waiting != [] {
      ServeWork(s.(returned := s.returned + [ticket], waiting := s.waiting[1..]), s.waiting[0]);
    }
  }

  lemma {:induction false} ServeWork(s: State, l: LoaderId)
    ensures Work(AfterServe(s, l)) <= Work(s) + 2
    decreases |s.waiting|, 1
  {
    if l !in s.loaders {
      ReturnWork(s.(served := s.served + [l]), |s.served|);
    } else {
      IoWorkPost(s.loaders[l].io);
      LoadersWorkUpdate(s.loaders, l, Granted(s.loaders[l], |s.served|));
    }
  }

  predicate Internal(e: Event) { e.IoStep? || e.MainStep? }

  /** Every step of the service itself uses up work. */
  lemma InternalStepsUseWork(s: State, e: Event)
    requires Enabled(s, e) && Internal(e)
    ensures Work(Next(s, e)) < Work(s)
  {
    match e
    case IoStep(l) =>
      var ld := s.loaders[l].(io := s.loaders[l].io[1..]);
      LoadersWorkUpdate(s.loaders, l, ld);
      LoadersWorkUpdate(s.loaders, l, Next(s, e).loaders[l]);
      TasksWorkPost(s.tasks, Inactive(l));
    case MainStep =>
      var s1 := s.(tasks := s.tasks[1..]);
      match s.tasks[0]
      case SlotRequest(l) =>
        if l in s.loaders && s.available > 0 {
          ServeWork(s1.(arrivals := s.arrivals + [l], available := s.available - 1), l);
        }
      case Inactive(l) =>
        if l in s.loaders && s.loaders[l].onInactive.Some? {
          var ld := s.loaders[l].(onInactive := None);
          LoadersWorkUpdate(s.loaders, l, ld);
          ReturnWork(s1.(loaders := s.loaders[l := ld]), s.loaders[l].onInactive.value);
        }
      case Join(l) =>
        if l in s.loaders {
          var s2 := if s.loaders[l].onInactive.Some? then AfterReturn(s1, s.loaders[l].onInactive.value) else s1;
          ReturnWork(s1, if s.loaders[l].onInactive.Some? then s.loaders[l].onInactive.value else 0);
          if l in s2.loaders { LoadersWorkRemove(s2.loaders, l); } else { assert s2.loaders - {l} == s2.loaders; }
        }
  }

  predicate AllInternal(es: seq<Event>) {
    forall i | 0 <= i < |es| :: Internal(es[i])
  }

  /** No step of the service itself is left. */
  ghost predicate Stuck(s: State) {
    forall e | Internal(e) :: !Enabled(s, e)
  }

  lemma StuckIsQuiescent(s: State)
    requires !s.aborted
    ensures Stuck(s) <==> Quiescent(s)
  {
    if Stuck(s) {
      assert !Enabled(s, MainStep);
      forall l | l in s.loaders ensures s.loaders[l].quit || s.loaders[l].io == [] { assert !Enabled(s, IoStep(l)); }
    }
  }

  predicate PoolIsFull(s: State) {
    s.available == s.max && s.waiting == [] && s.served == s.arrivals
  }

  lemma {:induction false} InternalRunIsShort(s: State, es: seq<Event>)
    requires IsRun(s, es, true) && AllInternal(es)
    ensures |es| + Work(End(s, es, true)) <= Work(s)
    decreases |es|
  {
    if es != [] {
      InternalStepsUseWork(s, es[0]);
      InternalRunIsShort(Next(s, es[0]), es[1..]);
    }
  }

  lemma StuckPoolIsFull(s: State)
    requires Inv(s) && s.max > 0 && Stuck(s)
    ensures PoolIsFull(s)
  {
    StuckIsQuiescent(s);
    QuiescentPoolIsFull(s);
  }

  lemma InternalRunDrains(s: State, es: seq<Event>)
    requires Inv(s) && s.max > 0 && IsRun(s, es, true)
    ensures Stuck(End(s, es, true)) ==> PoolIsFull(End(s, es, true))
  {
    RunKeepsInv(s, es);
    if Stuck(End(s, es, true)) { StuckPoolIsFull(End(s, es, true)); }
  }

  /** A disciplined run leads from the initial state to `s`. */
  ghost predicate Reaches(max: nat, es: seq<Event>, s: State) {
    IsRun(Init(max), es, true) && End(Init(max), es, true) == s
  }

  lemma ReachedInv(max: nat, es: seq<Event>, s: State)
    requires Reaches(max, es, s)
    ensures Inv(s) && s.max == max
  {
    InitInv(max);
    RunKeepsInv(Init(max), es);
  }

  /** From every reachable state, every run of the service alone is bounded by the work left, and
      one that cannot go on has got all slots back and served every request. */
  lemma {:induction false} EveryMaximalRunDrains(max: nat, es: seq<Event>, s: State, more: seq<Event>)
    requires max > 0 && Reaches(max, es, s) && IsRun(s, more, true) && AllInternal(more)
    ensures |more| <= Work(s)
    ensures Stuck(End(s, more, true)) ==> PoolIsFull(End(s, more, true))
  {
    ReachedInv(max, es, s);
    InternalRunIsShort(s, more);
    InternalRunDrains(s, more);
  }

  lemma {:induction false} MaximalRun(s: State) returns (es: seq<Event>)
    requires Inv(s)
    ensures IsRun(s, es, true) && AllInternal(es) && Stuck(End(s, es, true))
    decreases Work(s)
  {
    if Stuck(s) {
      es := [];
    } else {
      var e :| Internal(e) && Enabled(s, e);
      NextKeepsInv(s, e);
      InternalStepsUseWork(s, e);
      var rest := MaximalRun(Next(s, e));
      InternalRunCons(s, e, rest);
      es := [e] + rest;
    }
  }

  lemma InternalRunCons(s: State, e: Event, rest: seq<Event>)
    requires Enabled(s, e) && Internal(e) && IsRun(Next(s, e), rest, true) && AllInternal(rest)
    ensures IsRun(s, [e] + rest, true) && AllInternal([e] + rest)
    ensures End(s, [e] + rest, true) == End(Next(s, e), rest, true)
  {
    assert ([e] + rest)[1..] == rest;
  }

  /** Such a run exists. */
  lemma {:induction false} DrainsToFullPool(max: nat, es: seq<Event>, s: State) returns (more: seq<Event>)
    requires max > 0 && Reaches(max, es, s)
    ensures IsRun(s, more, true) && AllInternal(more) && |more| <= Work(s) && PoolIsFull(End(s, more, true))
  {
    ReachedInv(max, es, s);
    more := MaximalRun(s);
    EveryMaximalRunDrains(max, es, s, more);
  }
}
