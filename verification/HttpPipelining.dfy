/**
  When a Start call on a URL loader is safe.  `HttpScheduler` proves that slots are conserved as long
  as a client calls Start only when its previous request has run.  Here is the other half: a Start
  call made earlier than that can always be followed by a run that loses a slot.
*/
module HttpPipelining {
  import opened Options
  import opened HttpProgress
  import opened HttpRuns
  import opened HttpScheduler

  predicate Conserves(s: State) {
    !s.aborted && s.available + |Holders(s.loaders)| == s.max
  }

  ghost predicate Leads(s: State, es: seq<Event>, r: State) {
    IsRun(s, es, true) && End(s, es, true) == r
  }

  lemma LeadsStep(s: State, e: Event, es: seq<Event>, r: State)
    requires Enabled(s, e) && Disciplined(s, e) && Leads(Next(s, e), es, r)
    ensures Leads(s, [e] + es, r)
  {
    assert ([e] + es)[1..] == es;
  }

  lemma {:induction false} LeadsAppend(s: State, a: seq<Event>, mid: State, b: seq<Event>, r: State)
    requires Leads(s, a, mid) && Leads(mid, b, r)
    ensures Leads(s, a + b, r)
    decreases |a|
  {
    if a == [] {
      assert a + b == b;
    } else {
      LeadsAppend(Next(s, a[0]), a[1..], mid, b, r);
      LeadsStep(s, a[0], a[1..] + b, r);
      assert a + b == [a[0]] + (a[1..] + b);
    }
  }

  // ----- What a cascade of returns changes -----

  /** Loaders of `b` are those of `a`, except that requests may have been granted. */
  predicate Grants(a: Loaders, b: Loaders) {
    && a.Keys == b.Keys
    && forall k | k in a :: GrantedOrSame(a[k], b[k])
  }

  predicate GrantedOrSame(a: Loader, b: Loader) {
    && b.bound == a.bound && b.quit == a.quit && b.unrun == a.unrun
    && (b.io == a.io || b.io == a.io + [RunSlotRequest])
  }

  lemma {:induction false} ReturnGrants(s: State, ticket: nat)
    ensures var r := AfterReturn(s, ticket); r.tasks == s.tasks && Grants(s.loaders, r.loaders)
    decreases |s.waiting|
  {
    if s.available < s.max && s.waiting != [] && s.waiting[0] !in s.loaders {
      var t := s.(returned := s.returned + [ticket], waiting := s.waiting[1..], served := s.served + [s.waiting[0]]);
      ReturnGrants(t, |s.served|);
    }
  }

  lemma ServeGrants(s: State, l: LoaderId)
    ensures var r := AfterServe(s, l); r.tasks == s.tasks && Grants(s.loaders, r.loaders)
  {
    if l !in s.loaders { ReturnGrants(s.(served := s.served + [l]), |s.served|); }
  }

  // ----- Every loader can be disconnected -----

  /** A loader that is neither bound nor stopped is about to start. */
  predicate Starts(ld: Loader) {
    !ld.bound && !ld.quit ==> ld.io != [] && ld.io[0].StartOnIO?
  }

  predicate AllStart(loaders: Loaders) {
    forall k | k in loaders :: Starts(loaders[k])
  }

  lemma GrantsStart(a: Loaders, b: Loaders)
    requires AllStart(a) && Grants(a, b)
    ensures AllStart(b)
  {
    forall k | k in b ensures Starts(b[k]) { assert Starts(a[k]) && GrantedOrSame(a[k], b[k]); }
  }

  lemma TaskStarts(s: State, t: MainTask)
    requires AllStart(s.loaders)
    ensures AllStart(AfterTask(s, t).loaders)
  {
    if t.loader in s.loaders {
      var l := t.loader;
      match t
      case SlotRequest(_) =>
        if s.available > 0 {
          var s1 := s.(arrivals := s.arrivals + [l], available := s.available - 1);
          ServeGrants(s1, l);
          GrantsStart(s1.loaders, AfterServe(s1, l).loaders);
        }
      case Inactive(_) =>
        if s.loaders[l].onInactive.Some? {
          var s1 := s.(loaders := s.loaders[l := s.loaders[l].(onInactive := None)]);
          ReturnGrants(s1, s.loaders[l].onInactive.value);
          GrantsStart(s1.loaders, AfterReturn(s1, s.loaders[l].onInactive.value).loaders);
        }
      case Join(_) =>
        if s.loaders[l].onInactive.Some? {
          ReturnGrants(s, s.loaders[l].onInactive.value);
          GrantsStart(s.loaders, AfterReturn(s, s.loaders[l].onInactive.value).loaders);
        }
    }
  }

  lemma {:induction false} RunStarts(s: State, es: seq<Event>)
    requires IsRun(s, es, true) && AllStart(s.loaders)
    ensures AllStart(End(s, es, true).loaders)
    decreases |es|
  {
    if es != [] {
      if es[0].MainStep? { TaskStarts(s.(tasks := s.tasks[1..]), s.tasks[0]); }
      RunStarts(Next(s, es[0]), es[1..]);
    }
  }

  // ----- An early Start call, until its request reaches the main thread -----

  /** The state with one more Start call of `l` behind everything posted. */
  function Bump(s: State, l: LoaderId): State
    requires l in s.loaders
  {
    s.(tasks := s.tasks + [SlotRequest(l)],
       loaders := s.loaders[l := s.loaders[l].(unrun := s.loaders[l].unrun + 1)])
  }

  lemma {:induction false} BumpReturn(s: State, ticket: nat, l: LoaderId)
    requires l in s.loaders
    ensures l in AfterReturn(s, ticket).loaders
    ensures AfterReturn(Bump(s, l), ticket) == Bump(AfterReturn(s, ticket), l)
    decreases |s.waiting|
  {
    if s.available < s.max && s.waiting != [] {
      var w := s.waiting[0];
      var t := s.(returned := s.returned + [ticket], waiting := s.waiting[1..], served := s.served + [w]);
      if w !in s.loaders {
        BumpReturn(t, |s.served|, l);
      } else if w != l {
        var g := Granted(s.loaders[w], |s.served|);
        assert Bump(t, l).loaders[w := g] == Bump(t.(loaders := t.loaders[w := g]), l).loaders;
      }
    }
  }

  lemma BumpRequest(s: State, k: LoaderId, l: LoaderId)
    requires l in s.loaders && k in s.loaders
    ensures l in AfterRequest(s, k).loaders
    ensures AfterRequest(Bump(s, l), k) == Bump(AfterRequest(s, k), l)
  {
    if s.available > 0 {
      var g := Granted(s.loaders[k], |s.served|);
      var ld := s.loaders[l].(unrun := s.loaders[l].unrun + 1);
      if k != l { assert s.loaders[l := ld][k := g] == s.loaders[k := g][l := ld]; }
    }
  }

  lemma BumpInactive(s: State, k: LoaderId, l: LoaderId)
    requires l in s.loaders && k in s.loaders
    ensures l in AfterTask(s, Inactive(k)).loaders
    ensures AfterTask(Bump(s, l), Inactive(k)) == Bump(AfterTask(s, Inactive(k)), l)
  {
    if s.loaders[k].onInactive.Some? {
      var s1 := s.(loaders := s.loaders[k := s.loaders[k].(onInactive := None)]);
      var b := Bump(s, l);
      assert b.(loaders := b.loaders[k := b.loaders[k].(onInactive := None)]) == Bump(s1, l);
      BumpReturn(s1, s.loaders[k].onInactive.value, l);
    }
  }

  /** The tasks posted before the call run as they would have without it. */
  lemma BumpTask(s: State, t: MainTask, l: LoaderId)
    requires l in s.loaders && t != Join(l)
    ensures l in AfterTask(s, t).loaders
    ensures AfterTask(Bump(s, l), t) == Bump(AfterTask(s, t), l)
  {
    var k := t.loader;
    if k in s.loaders {
      match t
      case SlotRequest(_) => BumpRequest(s, k, l);
      case Inactive(_) => BumpInactive(s, k, l);
      case Join(_) =>
        if s.loaders[k].onInactive.Some? { BumpReturn(s, s.loaders[k].onInactive.value, l); }
        assert k != l;
    }
  }

  /** A task other than its join leaves a loader bound as it was, with the same requests outstanding. */
  lemma TaskKeeps(s: State, t: MainTask, l: LoaderId)
    requires l in s.loaders && t != Join(l)
    ensures var r := AfterTask(s, t);
      && r.tasks == s.tasks && l in r.loaders
      && r.loaders[l].bound == s.loaders[l].bound && r.loaders[l].unrun == s.loaders[l].unrun
  {
    var k := t.loader;
    if k in s.loaders {
      match t
      case SlotRequest(_) =>
        if s.available > 0 { ServeGrants(s.(arrivals := s.arrivals + [k], available := s.available - 1), k); }
      case Inactive(_) =>
        if s.loaders[k].onInactive.Some? {
          ReturnGrants(s.(loaders := s.loaders[k := s.loaders[k].(onInactive := None)]), s.loaders[k].onInactive.value);
        }
      case Join(_) =>
        if s.loaders[k].onInactive.Some? { ReturnGrants(s, s.loaders[k].onInactive.value); }
    }
  }

  /** Loader `l` is bound and has one request outstanding. */
  ghost predicate Busy(s: State, l: LoaderId) {
    Inv(s) && AllStart(s.loaders) && l in s.loaders && s.loaders[l].bound && s.loaders[l].unrun == 1
  }

  lemma NotJoined(s: State, l: LoaderId)
    requires Busy(s, l)
    ensures Join(l) !in s.tasks
  {
    assert LoaderInv(l, s.loaders[l], s.tasks, s.waiting, None);
    assert Join(l) in s.tasks <==> Join(l) in multiset(s.tasks);
  }

  lemma BumpNext(s: State, l: LoaderId)
    requires !s.aborted && s.tasks != [] && s.tasks[0] != Join(l) && l in s.loaders
    ensures var next := Next(s, MainStep);
      && next.tasks == s.tasks[1..] && l in next.loaders && Next(Bump(s, l), MainStep) == Bump(next, l)
      && next.loaders[l].bound == s.loaders[l].bound && next.loaders[l].unrun == s.loaders[l].unrun
  {
    var t, s1 := s.tasks[0], s.(tasks := s.tasks[1..]);
    TaskKeeps(s1, t, l);
    BumpTask(s1, t, l);
    assert Bump(s, l).tasks[1..] == s.tasks[1..] + [SlotRequest(l)];
    assert Bump(s, l).(tasks := Bump(s, l).tasks[1..]) == Bump(s1, l);
  }

  lemma RunTask(s: State, l: LoaderId)
    requires Busy(s, l) && s.tasks != []
    ensures var next := Next(s, MainStep);
      && l in next.loaders && Busy(next, l) && next.max == s.max && next.tasks == s.tasks[1..]
      && Next(Bump(s, l), MainStep) == Bump(next, l)
  {
    NotJoined(s, l);
    assert s.tasks[0] in s.tasks;
    BumpNext(s, l);
    NextKeepsInv(s, MainStep);
    TaskStarts(s.(tasks := s.tasks[1..]), s.tasks[0]);
  }

  /** All tasks posted before the call run. */
  lemma {:induction false} RunTasks(s: State, l: LoaderId) returns (es: seq<Event>, r: State)
    requires Busy(s, l)
    ensures Busy(r, l) && r.tasks == [] && r.max == s.max
    ensures Leads(Bump(s, l), es, Bump(r, l))
    decreases |s.tasks|
  {
    if s.tasks == [] {
      es, r := [], s;
    } else {
      RunTask(s, l);
      var rest: seq<Event>;
      rest, r := RunTasks(Next(s, MainStep), l);
      LeadsStep(Bump(s, l), MainStep, rest, Bump(r, l));
      es := [MainStep] + rest;
    }
  }

  // ----- From there to a lost slot -----

  /** A loader that behaves: it asks once at a time, and can be disconnected. */
  predicate Behaves(k: LoaderId, ld: Loader, waiting: seq<LoaderId>) {
    !ld.quit && Starts(ld) && multiset(waiting)[k] <= 1 && (k in waiting ==> ld.onInactive.None?)
  }

  /** All slots are in cells, but for `hand` that are on their way; `l` has a slot and a request
      waiting, or two requests waiting; and every other loader behaves. */
  ghost predicate Doubled(s: State, l: LoaderId, hand: nat) {
    && !s.aborted && s.tasks == [] && s.available == 0 && |Holders(s.loaders)| + hand == s.max
    && l in s.loaders && s.loaders[l].bound && !s.loaders[l].quit
    && Bit(s.loaders[l].onInactive.Some?) + multiset(s.waiting)[l] == 2
    && forall k | k in s.loaders && k != l :: Behaves(k, s.loaders[k], s.waiting)
  }

  predicate Lost(s: State) {
    !s.aborted && s.available + |Holders(s.loaders)| < s.max
  }

  lemma ServeDoubled(s: State, l: LoaderId, w: LoaderId, rest: seq<LoaderId>)
    requires Doubled(s, l, 1) && s.waiting == [w] + rest && w in s.loaders
    ensures var r := AfterServe(s.(waiting := rest), w); Doubled(r, l, 0) || Lost(r)
  {
    var m, g := s.loaders, Granted(s.loaders[w], |s.served|);
    assert s.waiting[0] == w && w in s.waiting;
    if w == l && m[l].onInactive.Some? {
      assert Holders(m[l := g]) == Holders(m);
    } else {
      HoldersAdd(m, w, g);
      forall k | k in m && k != l ensures Behaves(k, m[w := g][k], rest) { assert Behaves(k, m[k], s.waiting); }
    }
  }

  /** A returned slot reaches a loader, and is lost if that is `l` with its cell full. */
  lemma {:induction false} ReturnDoubled(s: State, ticket: nat, l: LoaderId)
    requires Doubled(s, l, 1)
    ensures var r := AfterReturn(s, ticket);
      (Doubled(r, l, 0) || Lost(r)) && r.loaders.Keys == s.loaders.Keys && r.max == s.max
    decreases |s.waiting|
  {
    assert s.waiting != [] by { assert multiset(s.waiting)[l] > 0; }
    var w, rest := s.waiting[0], s.waiting[1..];
    assert s.waiting == [w] + rest;
    var t := s.(returned := s.returned + [ticket]);
    if w in s.loaders {
      ServeDoubled(t, l, w, rest);
    } else {
      var u := t.(waiting := rest, served := s.served + [w]);
      forall k | k in s.loaders && k != l ensures Behaves(k, s.loaders[k], rest) {
        assert Behaves(k, s.loaders[k], s.waiting);
      }
      ReturnDoubled(u, |s.served|, l);
    }
  }

  lemma HoldersRemove(m: Loaders, k: LoaderId)
    requires k in m
    ensures |Holders(m - {k})| == |Holders(m)| - Bit(m[k].onInactive.Some?)
  {
    assert Holders(m - {k}) == Holders(m) - {k};
  }

  /** Joining a loader that behaves. */
  lemma JoinOther(s: State, l: LoaderId, k: LoaderId, ld: Loader)
    requires Doubled(s, l, 0) && k in s.loaders && k != l && ld.onInactive == s.loaders[k].onInactive
    ensures var r := AfterTask(s.(loaders := s.loaders[k := ld]), Join(k));
      (Doubled(r, l, 0) || Lost(r)) && r.loaders.Keys == s.loaders.Keys - {k} && r.max == s.max
  {
    var s1, e := s.(loaders := s.loaders[k := ld]), Erase(s, k);
    assert Erase(s1, k) == e;
    HoldersRemove(s.loaders, k);
    forall j | j in e.loaders && j != l ensures Behaves(j, e.loaders[j], s.waiting) {
      assert Behaves(j, s.loaders[j], s.waiting);
    }
    if ld.onInactive.Some? {
      assert Behaves(k, s.loaders[k], s.waiting);
      EraseCommutes(s1, ld.onInactive.value, k);
      ReturnDoubled(e, ld.onInactive.value, l);
    }
  }

  /** Disconnecting a bound loader and running its join. */
  lemma LeadsToJoin(s: State, k: LoaderId)
    requires !s.aborted && s.tasks == [] && k in s.loaders && s.loaders[k].bound
    ensures var ld := s.loaders[k].(bound := false, quit := true);
      Leads(s, [ClientDisconnect(k), MainStep], AfterTask(s.(loaders := s.loaders[k := ld]), Join(k)))
  {
    var s1 := Next(s, ClientDisconnect(k));
    assert s1.tasks == [Join(k)] && s1.tasks[1..] == [];
    assert s1.(tasks := []) == s.(loaders := s.loaders[k := s.loaders[k].(bound := false, quit := true)]);
    var r := Next(s1, MainStep);
    assert Leads(r, [], r);
    LeadsStep(s1, MainStep, [], r);
    LeadsStep(s, ClientDisconnect(k), [MainStep], r);
    assert [ClientDisconnect(k)] + [MainStep] == [ClientDisconnect(k), MainStep];
  }

  /** One of the other loaders goes away. */
  lemma RemoveOther(s: State, l: LoaderId, k: LoaderId) returns (es: seq<Event>, r: State)
    requires Doubled(s, l, 0) && k in s.loaders && k != l
    ensures Leads(s, es, r) && r.max == s.max
    ensures (Doubled(r, l, 0) || Lost(r)) && r.loaders.Keys == s.loaders.Keys - {k}
  {
    assert Behaves(k, s.loaders[k], s.waiting);
    var ld := s.loaders[k];
    if ld.bound {
      LeadsToJoin(s, k);
      es := [ClientDisconnect(k), MainStep];
    } else {
      var s1 := Next(s, IoStep(k));
      ld := s1.loaders[k];
      LeadsToJoin(s1, k);
      es := [IoStep(k)] + [ClientDisconnect(k), MainStep];
    }
    var stopped := ld.(bound := false, quit := true);
    r := AfterTask(s.(loaders := s.loaders[k := stopped]), Join(k));
    JoinOther(s, l, k, stopped);
    if !s.loaders[k].bound {
      var s1 := Next(s, IoStep(k));
      assert s1.(loaders := s1.loaders[k := stopped]) == s.(loaders := s.loaders[k := stopped]);
      LeadsStep(s, IoStep(k), [ClientDisconnect(k), MainStep], r);
    }
  }

  /** With `l` alone, its slot comes back to its own waiting request. */
  lemma {:induction false} ReturnToSelf(s: State, ticket: nat, l: LoaderId)
    requires !s.aborted && s.available == 0 < s.max && s.loaders.Keys == {l} && l in s.waiting
    ensures var r := AfterReturn(s, ticket);
      !r.aborted && r.available == 0 && r.loaders.Keys == {l} && r.tasks == s.tasks && r.max == s.max
    decreases |s.waiting|
  {
    var w := s.waiting[0];
    if w != l {
      var t := s.(returned := s.returned + [ticket], waiting := s.waiting[1..], served := s.served + [w]);
      assert l in t.waiting;
      ReturnToSelf(t, |s.served|, l);
    }
  }

  /** A loader that alone holds the only slot, and waits for another, takes the slot with it. */
  lemma LastLoaderLeaks(s: State, l: LoaderId) returns (es: seq<Event>, r: State)
    requires Doubled(s, l, 0) && s.loaders.Keys == {l} && s.max > 0
    ensures Leads(s, es, r) && r.max == s.max && Lost(r)
    ensures s.max == 1 && r.loaders == map[] && r.tasks == [] && r.available == 0
  {
    assert Holders(s.loaders) <= {l};
    var h :| h in Holders(s.loaders);
    assert Holders(s.loaders) == {l};
    LeadsToJoin(s, l);
    es := [ClientDisconnect(l), MainStep];
    var ld := s.loaders[l].(bound := false, quit := true);
    var s1 := s.(loaders := s.loaders[l := ld]);
    r := AfterTask(s1, Join(l));
    assert l in s.waiting by { assert multiset(s.waiting)[l] > 0; }
    ReturnToSelf(s1, ld.onInactive.value, l);
    assert r.loaders.Keys == {};
    assert Holders(r.loaders) == {};
  }

  lemma {:induction false} DoubledLeaks(s: State, l: LoaderId) returns (es: seq<Event>, r: State)
    requires Doubled(s, l, 0) && s.max > 0
    ensures Leads(s, es, r) && r.max == s.max && Lost(r)
    decreases |s.loaders.Keys|
  {
    if s.loaders.Keys - {l} == {} {
      assert s.loaders.Keys == {l};
      es, r := LastLoaderLeaks(s, l);
    } else {
      var k :| k in s.loaders.Keys - {l};
      es, r := RemoveOther(s, l, k);
      if !Lost(r) {
        var more, last := DoubledLeaks(r, l);
        LeadsAppend(s, es, r, more, last);
        es, r := es + more, last;
      }
    }
  }

  // ----- The exact condition -----

  lemma EarlyGrant(s: State, l: LoaderId)
    requires Busy(s, l) && s.tasks == [] && s.available > 0
    ensures Lost(AfterRequest(Bump(s, l).(tasks := []), l))
  {
    var b := Bump(s, l);
    assert LoaderInv(l, s.loaders[l], [], s.waiting, None);
    assert Holders(b.loaders) == Holders(s.loaders);
    assert Holders(b.loaders[l := Granted(b.loaders[l], |s.served|)]) == Holders(s.loaders);
  }

  lemma EarlyWait(s: State, l: LoaderId)
    requires Busy(s, l) && s.tasks == [] && s.available == 0
    ensures Doubled(AfterRequest(Bump(s, l).(tasks := []), l), l, 0)
  {
    var r := AfterRequest(Bump(s, l).(tasks := []), l);
    assert LoaderInv(l, s.loaders[l], [], s.waiting, None);
    assert Holders(r.loaders) == Holders(s.loaders);
    assert r.waiting == s.waiting + [l];
    forall k | k in r.loaders && k != l ensures Behaves(k, r.loaders[k], r.waiting) {
      assert LoaderInv(k, s.loaders[k], [], s.waiting, None) && Starts(s.loaders[k]);
    }
  }

  /** The early request reaches the main thread: it overwrites the cell or waits. */
  lemma EarlyRequest(s: State, l: LoaderId)
    requires Busy(s, l) && s.tasks == []
    ensures var r := Next(Bump(s, l), MainStep); (Doubled(r, l, 0) || Lost(r)) && r.max == s.max
  {
    var b := Bump(s, l);
    assert b.tasks == [SlotRequest(l)] && b.tasks[1..] == [];
    if s.available > 0 { EarlyGrant(s, l); } else { EarlyWait(s, l); }
  }

  /** An early Start call can be followed by a run that loses a slot. */
  lemma EarlyStartLeaks(s: State, l: LoaderId) returns (es: seq<Event>, r: State)
    requires Busy(s, l) && s.max > 0
    ensures Enabled(s, ClientStart(l)) && Leads(Next(s, ClientStart(l)), es, r)
    ensures r.max == s.max && Lost(r)
  {
    assert Next(s, ClientStart(l)) == Bump(s, l);
    var s1: State, more: seq<Event>;
    es, s1 := RunTasks(s, l);
    EarlyRequest(s1, l);
    r := Next(Bump(s1, l), MainStep);
    assert Leads(r, [], r);
    LeadsStep(Bump(s1, l), MainStep, [], r);
    LeadsAppend(Bump(s, l), es, Bump(s1, l), [MainStep], r);
    es := es + [MainStep];
    if !Lost(r) {
      var last: State;
      more, last := DoubledLeaks(r, l);
      LeadsAppend(Bump(s, l), es, r, more, last);
      es, r := es + more, last;
    }
  }

  /**
    In every state that a disciplined run reaches, a Start call keeps slots conserved in every run
    that follows if and only if the loader's previous request has run.
  */
  lemma StartIsSafeIffDisciplined(max: nat, es: seq<Event>, s: State, l: LoaderId)
    requires max > 0 && Reaches(max, es, s) && Enabled(s, ClientStart(l))
    ensures s.loaders[l].unrun == 0 <==>
      forall more | IsRun(Next(s, ClientStart(l)), more, true) :: Conserves(End(Next(s, ClientStart(l)), more, true))
  {
    ReachedInv(max, es, s);
    RunStarts(Init(max), es);
    assert LoaderInv(l, s.loaders[l], s.tasks, s.waiting, None);
    var next := Next(s, ClientStart(l));
    if s.loaders[l].unrun == 0 {
      NextKeepsInv(s, ClientStart(l));
      forall more | IsRun(next, more, true) ensures Conserves(End(next, more, true)) { RunKeepsInv(next, more); }
    } else {
      var more, r := EarlyStartLeaks(s, l);
      assert !Conserves(End(next, more, true));
    }
  }

  // ----- Two ways to fail -----

  lemma {:induction false} RunCons(s: State, e: Event, es: seq<Event>, r: State)
    requires Enabled(s, e) && IsRun(Next(s, e), es, false) && End(Next(s, e), es, false) == r
    ensures IsRun(s, [e] + es, false) && End(s, [e] + es, false) == r
  {
    assert ([e] + es)[1..] == es;
  }

  /** A loader with two granted requests to run has one closure in its cell: the second
      signal of inactivity calls an empty one. */
  lemma TwoRunsAbort(s: State, l: LoaderId) returns (es: seq<Event>)
    requires !s.aborted && s.tasks == [] && s.waiting == [] && s.available < s.max && l in s.loaders
    requires !s.loaders[l].quit && s.loaders[l].io == [RunSlotRequest, RunSlotRequest] && s.loaders[l].onInactive.Some?
    ensures IsRun(s, es, false) && End(s, es, false).aborted
  {
    var s1 := Next(s, IoStep(l));
    var s2 := Next(s1, IoStep(l));
    assert s2.tasks == [Inactive(l), Inactive(l)];
    var s3 := Next(s2, MainStep);
    assert s3.tasks == [Inactive(l)] && s3.loaders[l].onInactive.None?;
    var s4 := Next(s3, MainStep);
    RunCons(s3, MainStep, [], s4);
    RunCons(s2, MainStep, [MainStep], s4);
    var e1 := [MainStep] + [MainStep];
    RunCons(s1, IoStep(l), e1, s4);
    RunCons(s, IoStep(l), [IoStep(l)] + e1, s4);
    es := [IoStep(l)] + ([IoStep(l)] + e1);
  }

  lemma {:induction false} RelaxRun(s: State, es: seq<Event>)
    requires IsRun(s, es, true)
    ensures IsRun(s, es, false) && End(s, es, false) == End(s, es, true)
    decreases |es|
  {
    if es != [] { RelaxRun(Next(s, es[0]), es[1..]); }
  }

  /** A client creates a loader and pipelines two Start calls. */
  const PIPELINE := [CreateLoader, IoStep(0), ClientStart(0), ClientStart(0), MainStep, MainStep]

  lemma {:induction false} RunTwo(s: State, e: Event, f: Event, es: seq<Event>, r: State)
    requires Enabled(s, e) && Enabled(Next(s, e), f)
    requires IsRun(Next(Next(s, e), f), es, false) && End(Next(Next(s, e), f), es, false) == r
    ensures IsRun(s, [e, f] + es, false) && End(s, [e, f] + es, false) == r
  {
    RunCons(Next(s, e), f, es, r);
    RunCons(s, e, [f] + es, r);
    assert [e] + ([f] + es) == [e, f] + es;
  }

  /** Where two pipelined calls lead with `max` slots. */
  lemma Pipelined(max: nat) returns (s2: State, s4: State, s6: State)
    requires 1 <= max <= 2
    ensures Enabled(Init(max), CreateLoader) && Enabled(Next(Init(max), CreateLoader), IoStep(0))
    ensures s2 == Next(Next(Init(max), CreateLoader), IoStep(0))
    ensures Enabled(s2, ClientStart(0)) && Enabled(Next(s2, ClientStart(0)), ClientStart(0))
    ensures s4 == Next(Next(s2, ClientStart(0)), ClientStart(0))
    ensures Enabled(s4, MainStep) && Enabled(Next(s4, MainStep), MainStep)
    ensures s6 == Next(Next(s4, MainStep), MainStep)
    ensures !s6.aborted && s6.tasks == [] && s6.loaders.Keys == {0} && s6.max == max && s6.available == 0
    ensures s6.loaders[0].bound && !s6.loaders[0].quit && s6.loaders[0].onInactive.Some?
    ensures s6.waiting == (if max == 1 then [0] else [])
    ensures max == 2 ==> s6.loaders[0].io == [RunSlotRequest, RunSlotRequest]
  {
    s2 := Next(Next(Init(max), CreateLoader), IoStep(0));
    s4 := Next(Next(s2, ClientStart(0)), ClientStart(0));
    s6 := Next(Next(s4, MainStep), MainStep);
  }

  lemma RunFour(s: State, a: Event, b: Event, s2: State, c: Event, d: Event, s4: State, es: seq<Event>, r: State)
    requires Enabled(s, a) && Enabled(Next(s, a), b) && s2 == Next(Next(s, a), b)
    requires Enabled(s2, c) && Enabled(Next(s2, c), d) && s4 == Next(Next(s2, c), d)
    requires IsRun(s4, es, false) && End(s4, es, false) == r
    ensures IsRun(s, [a, b, c, d] + es, false) && End(s, [a, b, c, d] + es, false) == r
  {
    RunTwo(s2, c, d, es, r);
    RunTwo(s, a, b, [c, d] + es, r);
    assert [a, b] + ([c, d] + es) == [a, b, c, d] + es;
  }

  lemma PipelineThen(s: State, es: seq<Event>, s2: State, s4: State, s6: State, r: State)
    requires Enabled(s, CreateLoader) && Enabled(Next(s, CreateLoader), IoStep(0))
    requires s2 == Next(Next(s, CreateLoader), IoStep(0))
    requires Enabled(s2, ClientStart(0)) && Enabled(Next(s2, ClientStart(0)), ClientStart(0))
    requires s4 == Next(Next(s2, ClientStart(0)), ClientStart(0))
    requires Enabled(s4, MainStep) && Enabled(Next(s4, MainStep), MainStep)
    requires s6 == Next(Next(s4, MainStep), MainStep)
    requires IsRun(s6, es, false) && End(s6, es, false) == r
    ensures IsRun(s, PIPELINE + es, false) && End(s, PIPELINE + es, false) == r
  {
    RunTwo(s4, MainStep, MainStep, es, r);
    var e4 := [MainStep, MainStep] + es;
    RunFour(s, CreateLoader, IoStep(0), s2, ClientStart(0), ClientStart(0), s4, e4, r);
    assert [CreateLoader, IoStep(0), ClientStart(0), ClientStart(0)] + e4 == PIPELINE + es;
  }

  /** With two slots, pipelining overwrites the closure in the cell and makes the service call an
      empty one. */
  lemma PipelinedStartsAbort() returns (es: seq<Event>)
    ensures IsRun(Init(2), es, false) && End(Init(2), es, false).aborted
  {
    var s2, s4, s6 := Pipelined(2);
    var more := TwoRunsAbort(s6, 0);
    PipelineThen(Init(2), more, s2, s4, s6, End(s6, more, false));
    es := PIPELINE + more;
  }

  /** With one slot, a client that pipelines two Start calls and then disconnects makes the
      service hand the slot to the dying loader's own second request, and loses it. */
  lemma OneSlotLeak() returns (es: seq<Event>)
    ensures IsRun(Init(1), es, false)
    ensures var r := End(Init(1), es, false);
      !r.aborted && r.loaders == map[] && r.tasks == [] && r.available == 0 && r.max == 1
  {
    var s2, s4, s6 := Pipelined(1);
    assert Holders(s6.loaders) == {0};
    var more, r := LastLoaderLeaks(s6, 0);
    RelaxRun(s6, more);
    PipelineThen(Init(1), more, s2, s4, s6, r);
    es := PIPELINE + more;
  }

  // ----- A lost pool stays lost -----

  /** No slot is free, held, or about to be returned. */
  predicate NoSlotLeft(s: State) {
    && s.available == 0
    && (forall l | l in s.loaders :: s.loaders[l].onInactive.None? && RunSlotRequest !in s.loaders[l].io)
    && forall i | 0 <= i < |s.tasks| :: !s.tasks[i].Inactive?
  }

  /** Once every slot is lost, no run serves another request, whatever the clients do. */
  lemma {:induction false} LostForEver(s: State, es: seq<Event>)
    requires NoSlotLeft(s) && IsRun(s, es, false)
    ensures NoSlotLeft(End(s, es, false)) && End(s, es, false).served == s.served
    decreases |es|
  {
    if es != [] {
      var next := Next(s, es[0]);
      if es[0].IoStep? { assert s.loaders[es[0].loader].io[0] in s.loaders[es[0].loader].io; }
      LostForEver(next, es[1..]);
    }
  }
}
