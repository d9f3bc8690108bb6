/** Every step of the HTTP scheduler keeps the invariant, so that what follows from it holds after every
    disciplined run. */
module HttpRuns {
  import opened Options
  import opened HttpScheduler

  // Steps of the clients and of the IO threads.

  lemma PostKeepsLoaders(loaders: Loaders, nextLoader: LoaderId, tasks: seq<MainTask>, waiting: seq<LoaderId>,
                         t: MainTask, ld: Loader)
    requires LoadersInv(loaders, nextLoader, tasks, waiting, None)
    requires t.loader in loaders && LoaderInv(t.loader, ld, tasks + [t], waiting, None)
    ensures LoadersInv(loaders[t.loader := ld], nextLoader, tasks + [t], waiting, None)
  {
    var loaders1 := loaders[t.loader := ld];
    forall k | k in loaders1 ensures LoaderInv(k, loaders1[k], tasks + [t], waiting, None) {
      if k != t.loader { OtherTask(k, loaders[k], t, tasks, waiting); }
    }
  }

  lemma SameCell(loaders: Loaders, served: seq<LoaderId>, returned: seq<nat>, l: LoaderId, ld: Loader)
    requires Tickets(loaders, served, returned, None)
    requires if l in loaders then ld.onInactive == loaders[l].onInactive else ld.onInactive.None?
    ensures Tickets(loaders[l := ld], served, returned, None)
    ensures Holders(loaders[l := ld]) == Holders(loaders)
  {
    forall t | 0 <= t < |served| ensures Held(loaders[l := ld], served, t) == Held(loaders, served, t) {}
  }

  /** Posting a task to the main thread while keeping the closure cell. */
  lemma PostKeepsInv(s: State, t: MainTask, ld: Loader)
    requires Inv(s) && t.loader in s.loaders && ld.onInactive == s.loaders[t.loader].onInactive
    requires LoaderInv(t.loader, ld, s.tasks + [t], s.waiting, None)
    requires Join(t.loader) !in s.tasks && (t.Inactive? ==> SlotRequest(t.loader) !in s.tasks)
    ensures Inv(s.(loaders := s.loaders[t.loader := ld], tasks := s.tasks + [t]))
  {
    SameCell(s.loaders, s.served, s.returned, t.loader, ld);
    PostKeepsLoaders(s.loaders, s.nextLoader, s.tasks, s.waiting, t, ld);
    TaskOrderPost(s.tasks, t);
  }

  lemma CreateKeepsInv(s: State)
    requires Inv(s)
    ensures Inv(Next(s, CreateLoader))
  {
    var l, ld := s.nextLoader, Loader(None, [StartOnIO], false, false, 0);
    SameCell(s.loaders, s.served, s.returned, l, ld);
    assert forall i | 0 <= i < |s.tasks| :: s.tasks[i].loader != l;
    assert l !in s.waiting;
    var loaders1 := s.loaders[l := ld];
    forall k | k in loaders1 ensures k < l + 1 && LoaderInv(k, loaders1[k], s.tasks, s.waiting, None) {
      if k != l { assert LoaderInv(k, s.loaders[k], s.tasks, s.waiting, None); }
    }
    assert LoadersInv(loaders1, l + 1, s.tasks, s.waiting, None);
  }

  lemma StartedLoader(l: LoaderId, ld: Loader, tasks: seq<MainTask>, waiting: seq<LoaderId>)
    requires LoaderInv(l, ld, tasks, waiting, None) && ld.bound && ld.unrun == 0
    ensures LoaderInv(l, ld.(unrun := ld.unrun + 1), tasks + [SlotRequest(l)], waiting, None)
    ensures Join(l) !in tasks
  {
  }

  lemma StartKeepsInv(s: State, l: LoaderId)
    requires Inv(s) && Enabled(s, ClientStart(l)) && s.loaders[l].unrun == 0
    ensures Inv(Next(s, ClientStart(l)))
  {
    var ld := s.loaders[l].(unrun := s.loaders[l].unrun + 1);
    StartedLoader(l, s.loaders[l], s.tasks, s.waiting);
    PostKeepsInv(s, SlotRequest(l), ld);
  }

  lemma DisconnectedLoader(l: LoaderId, ld: Loader, tasks: seq<MainTask>, waiting: seq<LoaderId>)
    requires LoaderInv(l, ld, tasks, waiting, None) && ld.bound
    ensures LoaderInv(l, ld.(bound := false, quit := true), tasks + [Join(l)], waiting, None)
    ensures Join(l) !in tasks
  {
  }

  lemma DisconnectKeepsInv(s: State, l: LoaderId)
    requires Inv(s) && Enabled(s, ClientDisconnect(l))
    ensures Inv(Next(s, ClientDisconnect(l)))
  {
    var ld := s.loaders[l].(bound := false, quit := true);
    DisconnectedLoader(l, s.loaders[l], s.tasks, s.waiting);
    PostKeepsInv(s, Join(l), ld);
  }

  lemma BoundLoader(l: LoaderId, ld: Loader, tasks: seq<MainTask>, waiting: seq<LoaderId>)
    requires LoaderInv(l, ld, tasks, waiting, None) && !ld.quit && ld.io != [] && ld.io[0].StartOnIO?
    ensures LoaderInv(l, ld.(io := ld.io[1..], bound := true), tasks, waiting, None)
  {
    assert ld.io == [ld.io[0]] + ld.io[1..];
  }

  lemma RanLoader(l: LoaderId, ld: Loader, tasks: seq<MainTask>, waiting: seq<LoaderId>)
    requires LoaderInv(l, ld, tasks, waiting, None) && !ld.quit && ld.io != [] && ld.io[0].RunSlotRequest?
    ensures ld.unrun == 1 && Join(l) !in tasks && SlotRequest(l) !in tasks
    ensures LoaderInv(l, ld.(io := ld.io[1..], unrun := 0), tasks + [Inactive(l)], waiting, None)
  {
    assert ld.io == [ld.io[0]] + ld.io[1..];
  }

  lemma StartOnIoKeepsInv(s: State, l: LoaderId)
    requires Inv(s) && Enabled(s, IoStep(l)) && s.loaders[l].io[0].StartOnIO?
    ensures Inv(Next(s, IoStep(l)))
  {
    var ld := s.loaders[l].(io := s.loaders[l].io[1..], bound := true);
    BoundLoader(l, s.loaders[l], s.tasks, s.waiting);
    SameCell(s.loaders, s.served, s.returned, l, ld);
    assert LoadersInv(s.loaders[l := ld], s.nextLoader, s.tasks, s.waiting, None);
  }

  lemma RunStep(s: State, l: LoaderId, ld: Loader)
    requires Enabled(s, IoStep(l)) && s.loaders[l].io[0].RunSlotRequest? && s.loaders[l].unrun == 1
    requires ld == s.loaders[l].(io := s.loaders[l].io[1..], unrun := 0)
    ensures Next(s, IoStep(l)) == s.(loaders := s.loaders[l := ld], tasks := s.tasks + [Inactive(l)])
  {
  }

  lemma RunOnIoKeepsInv(s: State, l: LoaderId)
    requires Inv(s) && Enabled(s, IoStep(l)) && s.loaders[l].io[0].RunSlotRequest?
    ensures Inv(Next(s, IoStep(l)))
  {
    var ld := s.loaders[l].(io := s.loaders[l].io[1..], unrun := 0);
    RanLoader(l, s.loaders[l], s.tasks, s.waiting);
    RunStep(s, l, ld);
    PostKeepsInv(s, Inactive(l), ld);
  }

  lemma NextKeepsInv(s: State, e: Event)
    requires Inv(s) && Enabled(s, e) && Disciplined(s, e)
    ensures Inv(Next(s, e))
  {
    match e
    case CreateLoader => CreateKeepsInv(s);
    case ClientStart(l) => StartKeepsInv(s, l);
    case ClientDisconnect(l) => DisconnectKeepsInv(s, l);
    case IoStep(l) =>
      if s.loaders[l].io[0].StartOnIO? { StartOnIoKeepsInv(s, l); } else { RunOnIoKeepsInv(s, l); }
    case MainStep =>
      match s.tasks[0]
      case SlotRequest(_) => SlotRequestKeepsInv(s);
      case Inactive(_) => InactiveKeepsInv(s);
      case Join(_) => JoinKeepsInv(s);
  }

  lemma {:induction false} RunKeepsInv(s: State, es: seq<Event>)
    requires Inv(s) && IsRun(s, es, true)
    ensures Inv(End(s, es, true)) && End(s, es, true).max == s.max
    decreases |es|
  {
    if es != [] {
      NextKeepsInv(s, es[0]);
      RunKeepsInv(Next(s, es[0]), es[1..]);
    }
  }

  // ----- What holds after every run -----

  lemma InitInv(max: nat)
    ensures Inv(Init(max))
  {
    assert Holders(map[]) == {};
  }

  /** Slots are conserved, no assertion or empty closure is hit, no destroyed container is
      used, and nobody waits while a slot is free. */
  lemma {:induction false} SlotsConserved(max: nat, es: seq<Event>)
    requires IsRun(Init(max), es, true)
    ensures var s := End(Init(max), es, true);
      && !s.aborted
      && s.available + |Holders(s.loaders)| == max
      && (s.waiting != [] ==> s.available == 0)
  {
    InitInv(max);
    RunKeepsInv(Init(max), es);
  }

  /** Requests are served in the order in which they arrived. */
  lemma {:induction false} ServedInOrder(max: nat, es: seq<Event>)
    requires IsRun(Init(max), es, true)
    ensures var s := End(Init(max), es, true); s.arrivals == s.served + s.waiting
  {
    InitInv(max);
    RunKeepsInv(Init(max), es);
  }

  /** Each slot handed out is in the cell of the loader it was handed to, or has been
      returned exactly once. */
  lemma {:induction false} ReturnedExactlyOnce(max: nat, es: seq<Event>, t: nat)
    requires IsRun(Init(max), es, true)
    requires t < |End(Init(max), es, true).served|
    ensures var s := End(Init(max), es, true);
      multiset(s.returned)[t] == (if Held(s.loaders, s.served, t) then 0 else 1)
  {
    InitInv(max);
    RunKeepsInv(Init(max), es);
  }
}
