/** The network-slot scheduler of the HTTP service: a pool of slots owned by the
    main thread, a FIFO of slot requests, and one IO thread per URL loader.

    Tasks posted to the main dispatcher form one FIFO queue; tasks posted to a
    loader's IO loop form a FIFO queue of that loader.  A weak reference to a
    loader is its id, which is never reused; it is alive while the id is in
    `loaders`.  An `on_inactive` closure is a ticket: the position, in the order of
    service, of the request it was handed to. */
module HttpScheduler {
  import opened Options

  type LoaderId = nat

  /** The closures that reach the main thread. */
  datatype MainTask =
    | SlotRequest(loader: LoaderId)  // posted by the container's RequestNetworkSlot
    | Inactive(loader: LoaderId)     // posted when the IO side finished the request
    | Join(loader: LoaderId)         // posted by StopOnIOThread

  datatype IoTask = StartOnIO | RunSlotRequest

  /** `onInactive` is the container's cell of that name; `bound` says that the binding
      exists, `quit` that the IO loop was told to quit; `unrun` counts the slot
      requests issued by this loader that its IO thread has not run yet. */
  datatype Loader = Loader(onInactive: Option<nat>, io: seq<IoTask>, bound: bool, quit: bool, unrun: nat)

  /** `arrivals`, `served` and `returned` are history: the requests that reached
      HttpServiceImpl::RequestNetworkSlot, the requests handed a slot, and the tickets
      given back, each in order.  `aborted` marks a failed assertion, a call of an empty
      closure or a use of a destroyed container. */
  datatype State = State(
    max: nat,
    available: nat,
    waiting: seq<LoaderId>,
    tasks: seq<MainTask>,
    loaders: map<LoaderId, Loader>,
    nextLoader: LoaderId,
    arrivals: seq<LoaderId>,
    served: seq<LoaderId>,
    returned: seq<nat>,
    aborted: bool)

  datatype Event =
    | CreateLoader
    | ClientStart(loader: LoaderId)
    | ClientDisconnect(loader: LoaderId)
    | IoStep(loader: LoaderId)
    | MainStep

  // ----- The steps as functions of the state -----

  function Init(max: nat): State {
    State(max, max, [], [], map[], 0, [], [], [], false)
  }

  /** HttpServiceImpl::OnSlotReturned, called through the closure `ticket`. */
  function AfterReturn(s: State, ticket: nat): (r: State)
    ensures r.max == s.max
    decreases |s.waiting|, 0
  {
    var s := s.(returned := s.returned + [ticket]);
    if s.available >= s.max then s.(aborted := true)
    else if s.waiting == [] then s.(available := s.available + 1)
    else AfterServe(s.(waiting := s.waiting[1..]), s.waiting[0])
  }

  /** The closure a container hands to HttpServiceImpl::RequestNetworkSlot, called with
      a new on_inactive closure. */
  function AfterServe(s: State, l: LoaderId): (r: State)
    ensures r.max == s.max
    decreases |s.waiting|, 1
  {
    var ticket := |s.served|;
    var s := s.(served := s.served + [l]);
    if l !in s.loaders then AfterReturn(s, ticket)
    else s.(loaders := s.loaders[l := Granted(s.loaders[l], ticket)])
  }

  /** The container keeps the closure and posts the request to its IO loop. */
  function Granted(ld: Loader, ticket: nat): Loader {
    ld.(onInactive := Some(ticket), io := ld.io + [RunSlotRequest])
  }

  /** HttpServiceImpl::RequestNetworkSlot. */
  function AfterRequest(s: State, l: LoaderId): State {
    var s := s.(arrivals := s.arrivals + [l]);
    if s.available == 0 then s.(waiting := s.waiting + [l])
    else AfterServe(s.(available := s.available - 1), l)
  }

  function Erase(s: State, l: LoaderId): State {
    s.(loaders := s.loaders - {l})
  }

  /** One task of the main thread. */
  function AfterTask(s: State, t: MainTask): State {
    match t
    case SlotRequest(l) =>
      if l !in s.loaders then s else AfterRequest(s, l)
    case Inactive(l) =>
      if l !in s.loaders then s
      else
        var ld := s.loaders[l];
        if ld.onInactive.None? then s.(aborted := true)
        else AfterReturn(s.(loaders := s.loaders[l := ld.(onInactive := None)]), ld.onInactive.value)
    case Join(l) =>
      if l !in s.loaders then s.(aborted := true)
      else
        var ld := s.loaders[l];
        Erase(if ld.onInactive.Some? then AfterReturn(s, ld.onInactive.value) else s, l)
  }

  predicate Enabled(s: State, e: Event) {
    && !s.aborted
    && match e
       case CreateLoader => true
       case ClientStart(l) => l in s.loaders && s.loaders[l].bound
       case ClientDisconnect(l) => l in s.loaders && s.loaders[l].bound
       case IoStep(l) => l in s.loaders && !s.loaders[l].quit && s.loaders[l].io != []
       case MainStep => s.tasks != []
  }

  function Next(s: State, e: Event): State
    requires Enabled(s, e)
  {
    match e
    case CreateLoader =>
      s.(loaders := s.loaders[s.nextLoader := Loader(None, [StartOnIO], false, false, 0)],
         nextLoader := s.nextLoader + 1)
    case ClientStart(l) =>
      var ld := s.loaders[l];
      s.(loaders := s.loaders[l := ld.(unrun := ld.unrun + 1)], tasks := s.tasks + [SlotRequest(l)])
    case ClientDisconnect(l) =>
      var ld := s.loaders[l];
      s.(loaders := s.loaders[l := ld.(bound := false, quit := true)], tasks := s.tasks + [Join(l)])
    case IoStep(l) =>
      var ld := s.loaders[l];
      var ld1 := ld.(io := ld.io[1..]);
      if ld.io[0].StartOnIO? then s.(loaders := s.loaders[l := ld1.(bound := true)])
      else
        s.(loaders := s.loaders[l := ld1.(unrun := if ld.unrun > 0 then ld.unrun - 1 else 0)],
           tasks := s.tasks + [Inactive(l)])
    case MainStep => AfterTask(s.(tasks := s.tasks[1..]), s.tasks[0])
  }

  // ----- Runs -----

  /** A client that calls Start only when its previous request has run on the IO thread. */
  predicate Disciplined(s: State, e: Event)
    requires Enabled(s, e)
  {
    e.ClientStart? ==> s.loaders[e.loader].unrun == 0
  }

  /** The events `es` can happen one after the other from `s`. */
  predicate IsRun(s: State, es: seq<Event>, disciplined: bool)
    decreases |es|
  {
    es == [] ||
    (Enabled(s, es[0]) && (disciplined ==> Disciplined(s, es[0])) && IsRun(Next(s, es[0]), es[1..], disciplined))
  }

  /** The state after the events `es`. */
  function End(s: State, es: seq<Event>, disciplined: bool): State
    requires IsRun(s, es, disciplined)
    decreases |es|
  {
    if es == [] then s else End(Next(s, es[0]), es[1..], disciplined)
  }

  // ----- The invariant -----

  function Holders(loaders: Loaders): set<LoaderId> {
    set l | l in loaders && loaders[l].onInactive.Some?
  }

  function Bit(b: bool): nat { if b then 1 else 0 }

  /** The bookkeeping of one live loader: where its single outstanding request is, and
      where the closure in its cell will be called from. */
  ghost predicate LoaderInv(l: LoaderId, ld: Loader, tasks: seq<MainTask>, waiting: seq<LoaderId>,
                            serving: Option<LoaderId>)
  {
    && ld.unrun <= 1
    && multiset(tasks)[SlotRequest(l)] + multiset(waiting)[l] + multiset(ld.io)[RunSlotRequest]
       + Bit(serving == Some(l)) == ld.unrun
    && Bit(ld.onInactive.Some?) == multiset(ld.io)[RunSlotRequest] + multiset(tasks)[Inactive(l)]
    && multiset(tasks)[Join(l)] == Bit(ld.quit)
    && (ld.bound ==> !ld.quit)
    && (l in waiting || serving == Some(l) ==> ld.onInactive.None?)
  }

  type Loaders = map<LoaderId, Loader>

  ghost predicate LoadersInv(
    loaders: Loaders, nextLoader: LoaderId, tasks: seq<MainTask>, waiting: seq<LoaderId>, serving: Option<LoaderId>)
  {
    && (forall l | l in loaders :: l < nextLoader)
    && (forall l {:trigger LoaderInv(l, loaders[l], tasks, waiting, serving)} | l in loaders ::
          LoaderInv(l, loaders[l], tasks, waiting, serving))
    && (forall i | 0 <= i < |tasks| :: tasks[i].loader in loaders)
    && (forall i | 0 <= i < |waiting| :: waiting[i] < nextLoader)
    && (serving.Some? ==> serving.value < nextLoader)
  }

  /** A loader signals inactivity before it asks again, and asks nothing after Join. */
  ghost predicate TaskOrder(tasks: seq<MainTask>) {
    forall i, j | 0 <= i < j < |tasks| && tasks[i].loader == tasks[j].loader ::
      !tasks[i].Join? && (tasks[i].SlotRequest? ==> !tasks[j].Inactive?)
  }

  /** Ticket `t` is in the cell of the loader it was issued to. */
  predicate Held(loaders: Loaders, served: seq<LoaderId>, t: nat)
    requires t < |served|
  {
    served[t] in loaders && loaders[served[t]].onInactive == Some(t)
  }

  /** Every ticket is in a cell, in hand, or returned once. */
  ghost predicate Tickets(loaders: Loaders, served: seq<LoaderId>, returned: seq<nat>, hand: Option<nat>) {
    && (hand.Some? ==> hand.value < |served| && !Held(loaders, served, hand.value))
    && (forall i | 0 <= i < |returned| :: returned[i] < |served|)
    && (forall t | 0 <= t < |served| ::
          multiset(returned)[t] == Bit(!Held(loaders, served, t) && hand != Some(t)))
    && (forall l | l in loaders && loaders[l].onInactive.Some? ::
          loaders[l].onInactive.value < |served| && served[loaders[l].onInactive.value] == l)
  }

  /** The invariant while a returned slot is on its way: `hand` is the ticket being
      returned, `serving` the request that is about to be handed the slot. */
  ghost predicate Core(s: State, hand: Option<nat>, serving: Option<LoaderId>) {
    && !s.aborted
    && !(hand.Some? && serving.Some?)
    && s.available + |Holders(s.loaders)| + Bit(hand.Some? || serving.Some?) == s.max
    && (s.waiting != [] ==> s.available == 0)
    && s.arrivals == s.served + (if serving.Some? then [serving.value] else []) + s.waiting
    && LoadersInv(s.loaders, s.nextLoader, s.tasks, s.waiting, serving)
    && TaskOrder(s.tasks)
    && Tickets(s.loaders, s.served, s.returned, hand)
  }

  ghost predicate Inv(s: State) { Core(s, None, None) }

  // ----- Every step keeps the invariant -----

  lemma HoldersAdd(m: Loaders, l: LoaderId, ld: Loader)
    requires l in m ==> m[l].onInactive.None?
    requires ld.onInactive.Some?
    ensures |Holders(m[l := ld])| == |Holders(m)| + 1
  {
    assert Holders(m[l := ld]) == Holders(m) + {l};
  }

  /** A request popped from the wait queue is the one being served. */
  lemma PopWaiting(loaders: Loaders, nextLoader: LoaderId, tasks: seq<MainTask>, waiting: seq<LoaderId>)
    requires LoadersInv(loaders, nextLoader, tasks, waiting, None) && waiting != []
    ensures LoadersInv(loaders, nextLoader, tasks, waiting[1..], Some(waiting[0]))
  {
    assert waiting == [waiting[0]] + waiting[1..];
    forall l | l in loaders ensures LoaderInv(l, loaders[l], tasks, waiting[1..], Some(waiting[0])) {
      assert LoaderInv(l, loaders[l], tasks, waiting, None);
    }
  }

  lemma TicketReturned(loaders: Loaders, served: seq<LoaderId>, returned: seq<nat>, ticket: nat)
    requires Tickets(loaders, served, returned, Some(ticket))
    ensures Tickets(loaders, served, returned + [ticket], None)
  {
  }

  /** A ticket issued to a dead requester is in hand. */
  lemma TicketToDead(loaders: Loaders, served: seq<LoaderId>, returned: seq<nat>, l: LoaderId)
    requires Tickets(loaders, served, returned, None) && l !in loaders
    ensures Tickets(loaders, served + [l], returned, Some(|served|))
  {
    assert |served| !in returned;
    forall t | 0 <= t < |served| ensures Held(loaders, served + [l], t) == Held(loaders, served, t) {}
  }

  lemma TicketToLive(loaders: Loaders, served: seq<LoaderId>, returned: seq<nat>, l: LoaderId)
    requires Tickets(loaders, served, returned, None) && l in loaders && loaders[l].onInactive.None?
    ensures Tickets(loaders[l := Granted(loaders[l], |served|)], served + [l], returned, None)
  {
    assert |served| !in returned;
    var loaders1 := loaders[l := Granted(loaders[l], |served|)];
    forall t | 0 <= t < |served| ensures Held(loaders1, served + [l], t) == Held(loaders, served, t) {}
  }

  lemma GrantKeepsLoaders(loaders: Loaders, nextLoader: LoaderId, tasks: seq<MainTask>, waiting: seq<LoaderId>,
                          l: LoaderId, ticket: nat)
    requires LoadersInv(loaders, nextLoader, tasks, waiting, Some(l)) && l in loaders
    ensures LoadersInv(loaders[l := Granted(loaders[l], ticket)], nextLoader, tasks, waiting, None)
  {
    var loaders1 := loaders[l := Granted(loaders[l], ticket)];
    forall k | k in loaders1 ensures LoaderInv(k, loaders1[k], tasks, waiting, None) {
      assert LoaderInv(k, loaders[k], tasks, waiting, Some(l));
    }
  }

  lemma ServingDead(loaders: Loaders, nextLoader: LoaderId, tasks: seq<MainTask>, waiting: seq<LoaderId>, l: LoaderId)
    requires LoadersInv(loaders, nextLoader, tasks, waiting, Some(l)) && l !in loaders
    ensures LoadersInv(loaders, nextLoader, tasks, waiting, None)
  {
    forall k | k in loaders ensures LoaderInv(k, loaders[k], tasks, waiting, None) {
      assert LoaderInv(k, loaders[k], tasks, waiting, Some(l));
    }
  }

  /** Handing over the slot in hand restores the invariant, however many dead requesters
      the cascade passes through. */
  lemma {:induction false} ReturnKeepsInv(s: State, ticket: nat)
    requires Core(s, Some(ticket), None)
    ensures Inv(AfterReturn(s, ticket))
    decreases |s.waiting|, 0
  {
    TicketReturned(s.loaders, s.served, s.returned, ticket);
    if s.waiting != [] {
      PopWaiting(s.loaders, s.nextLoader, s.tasks, s.waiting);
      ServeKeepsInv(s.(returned := s.returned + [ticket], waiting := s.waiting[1..]), s.waiting[0]);
    }
  }

  lemma {:induction false} ServeKeepsInv(s: State, l: LoaderId)
    requires Core(s, None, Some(l))
    ensures Inv(AfterServe(s, l))
    decreases |s.waiting|, 1
  {
    if l !in s.loaders {
      TicketToDead(s.loaders, s.served, s.returned, l);
      ServingDead(s.loaders, s.nextLoader, s.tasks, s.waiting, l);
      ReturnKeepsInv(s.(served := s.served + [l]), |s.served|);
    } else {
      assert LoaderInv(l, s.loaders[l], s.tasks, s.waiting, Some(l));
      HoldersAdd(s.loaders, l, Granted(s.loaders[l], |s.served|));
      TicketToLive(s.loaders, s.served, s.returned, l);
      GrantKeepsLoaders(s.loaders, s.nextLoader, s.tasks, s.waiting, l, |s.served|);
    }
  }

  lemma TaskOrderTail(tasks: seq<MainTask>)
    requires TaskOrder(tasks) && tasks != []
    ensures TaskOrder(tasks[1..])
  {
    forall i, j | 0 <= i < j < |tasks[1..]| && tasks[1..][i].loader == tasks[1..][j].loader
      ensures !tasks[1..][i].Join? && (tasks[1..][i].SlotRequest? ==> !tasks[1..][j].Inactive?)
    {
      assert tasks[i + 1] == tasks[1..][i] && tasks[j + 1] == tasks[1..][j];
    }
  }

  lemma TaskOrderHead(tasks: seq<MainTask>)
    requires TaskOrder(tasks) && tasks != []
    ensures tasks[0].Join? ==> forall i | 0 <= i < |tasks[1..]| :: tasks[1..][i].loader != tasks[0].loader
    ensures tasks[0].SlotRequest? ==> Inactive(tasks[0].loader) !in tasks[1..]
  {
    forall i | 0 <= i < |tasks[1..]| && tasks[1..][i].loader == tasks[0].loader
      ensures !tasks[0].Join? && (tasks[0].SlotRequest? ==> !tasks[1..][i].Inactive?)
    {
      assert tasks[i + 1] == tasks[1..][i];
    }
  }

  lemma TaskOrderPost(tasks: seq<MainTask>, t: MainTask)
    requires TaskOrder(tasks)
    requires Join(t.loader) !in tasks
    requires t.Inactive? ==> SlotRequest(t.loader) !in tasks
    ensures TaskOrder(tasks + [t])
  {
  }

  /** A task of another loader does not matter to a loader. */
  lemma OtherTask(l: LoaderId, ld: Loader, t: MainTask, rest: seq<MainTask>, waiting: seq<LoaderId>)
    requires t.loader != l
    ensures LoaderInv(l, ld, [t] + rest, waiting, None) == LoaderInv(l, ld, rest, waiting, None)
    ensures LoaderInv(l, ld, rest + [t], waiting, None) == LoaderInv(l, ld, rest, waiting, None)
  {
  }

  /** The head task is a request: its loader is the one being served. */
  lemma TakeRequest(loaders: Loaders, nextLoader: LoaderId, tasks: seq<MainTask>, waiting: seq<LoaderId>)
    requires LoadersInv(loaders, nextLoader, tasks, waiting, None) && TaskOrder(tasks)
    requires tasks != [] && tasks[0].SlotRequest?
    ensures LoadersInv(loaders, nextLoader, tasks[1..], waiting, Some(tasks[0].loader))
  {
    TaskOrderHead(tasks);
    assert tasks == [tasks[0]] + tasks[1..];
    forall l | l in loaders ensures LoaderInv(l, loaders[l], tasks[1..], waiting, Some(tasks[0].loader)) {
      assert LoaderInv(l, loaders[l], tasks, waiting, None);
    }
  }

  /** The request being served joins the wait queue. */
  lemma PushWaiting(loaders: Loaders, nextLoader: LoaderId, tasks: seq<MainTask>, waiting: seq<LoaderId>, l: LoaderId)
    requires LoadersInv(loaders, nextLoader, tasks, waiting, Some(l))
    ensures LoadersInv(loaders, nextLoader, tasks, waiting + [l], None)
  {
    forall k | k in loaders ensures LoaderInv(k, loaders[k], tasks, waiting + [l], None) {
      assert LoaderInv(k, loaders[k], tasks, waiting, Some(l));
    }
  }

  lemma RequestQueued(s: State)
    requires Inv(s) && s.tasks != [] && s.tasks[0].SlotRequest? && s.available == 0
    ensures var l := s.tasks[0].loader;
      Inv(s.(tasks := s.tasks[1..], arrivals := s.arrivals + [l], waiting := s.waiting + [l]))
  {
    TaskOrderTail(s.tasks);
    TakeRequest(s.loaders, s.nextLoader, s.tasks, s.waiting);
    PushWaiting(s.loaders, s.nextLoader, s.tasks[1..], s.waiting, s.tasks[0].loader);
  }

  lemma RequestGranted(s: State)
    requires Inv(s) && s.tasks != [] && s.tasks[0].SlotRequest? && s.available > 0
    ensures var l := s.tasks[0].loader;
      Core(s.(tasks := s.tasks[1..], arrivals := s.arrivals + [l], available := s.available - 1), None, Some(l))
  {
    TaskOrderTail(s.tasks);
    TakeRequest(s.loaders, s.nextLoader, s.tasks, s.waiting);
  }

  lemma SlotRequestKeepsInv(s: State)
    requires Inv(s) && s.tasks != [] && s.tasks[0].SlotRequest?
    ensures Inv(AfterRequest(s.(tasks := s.tasks[1..]), s.tasks[0].loader))
  {
    if s.available == 0 {
      RequestQueued(s);
    } else {
      RequestGranted(s);
      var l := s.tasks[0].loader;
      ServeKeepsInv(s.(tasks := s.tasks[1..], arrivals := s.arrivals + [l], available := s.available - 1), l);
    }
  }

  /** Taking the closure out of a cell puts its ticket in hand. */
  lemma EmptyCell(loaders: Loaders, served: seq<LoaderId>, returned: seq<nat>, l: LoaderId)
    requires Tickets(loaders, served, returned, None) && l in loaders && loaders[l].onInactive.Some?
    ensures Tickets(loaders[l := loaders[l].(onInactive := None)], served, returned, loaders[l].onInactive)
    ensures |Holders(loaders[l := loaders[l].(onInactive := None)])| == |Holders(loaders)| - 1
  {
    var loaders1 := loaders[l := loaders[l].(onInactive := None)];
    assert Holders(loaders1) == Holders(loaders) - {l};
    forall t | 0 <= t < |served|
      ensures Held(loaders1, served, t) == (Held(loaders, served, t) && t != loaders[l].onInactive.value)
    {
      assert served[loaders[l].onInactive.value] == l;
    }
  }

  lemma InactiveLoader(l: LoaderId, ld: Loader, rest: seq<MainTask>, waiting: seq<LoaderId>)
    requires LoaderInv(l, ld, [Inactive(l)] + rest, waiting, None)
    ensures ld.onInactive.Some?
    ensures LoaderInv(l, ld.(onInactive := None), rest, waiting, None)
  {
  }

  lemma TakeInactive(loaders: Loaders, nextLoader: LoaderId, tasks: seq<MainTask>, waiting: seq<LoaderId>)
    requires LoadersInv(loaders, nextLoader, tasks, waiting, None)
    requires tasks != [] && tasks[0].Inactive?
    ensures var l := tasks[0].loader;
      && loaders[l].onInactive.Some?
      && LoadersInv(loaders[l := loaders[l].(onInactive := None)], nextLoader, tasks[1..], waiting, None)
  {
    var l := tasks[0].loader;
    assert tasks == [tasks[0]] + tasks[1..];
    InactiveLoader(l, loaders[l], tasks[1..], waiting);
    forall k | k in loaders && k != l ensures LoaderInv(k, loaders[k], tasks[1..], waiting, None) {
      OtherTask(k, loaders[k], tasks[0], tasks[1..], waiting);
    }
  }

  lemma InactiveKeepsInv(s: State)
    requires Inv(s) && s.tasks != [] && s.tasks[0].Inactive?
    ensures s.loaders[s.tasks[0].loader].onInactive.Some?
    ensures var l := s.tasks[0].loader;
      Inv(AfterReturn(s.(tasks := s.tasks[1..], loaders := s.loaders[l := s.loaders[l].(onInactive := None)]),
                         s.loaders[l].onInactive.value))
  {
    var l := s.tasks[0].loader;
    assert TaskOrder(s.tasks[1..]) by { TaskOrderTail(s.tasks); }
    TakeInactive(s.loaders, s.nextLoader, s.tasks, s.waiting);
    EmptyCell(s.loaders, s.served, s.returned, l);
    ReturnKeepsInv(s.(tasks := s.tasks[1..], loaders := s.loaders[l := s.loaders[l].(onInactive := None)]),
                   s.loaders[l].onInactive.value);
  }

  /** Destroying a loader and returning its slot can be done in either order. */
  lemma {:induction false} EraseCommutes(s: State, ticket: nat, l: LoaderId)
    requires l !in s.waiting
    ensures Erase(AfterReturn(s, ticket), l) == AfterReturn(Erase(s, l), ticket)
    decreases |s.waiting|
  {
    if s.available < s.max && s.waiting != [] {
      var w := s.waiting[0];
      assert w != l;
      var s1 := s.(returned := s.returned + [ticket], waiting := s.waiting[1..], served := s.served + [w]);
      if w !in s.loaders {
        EraseCommutes(s1, |s.served|, l);
      } else {
        var ld := Granted(s.loaders[w], |s.served|);
        assert s.loaders[w := ld] - {l} == (s.loaders - {l})[w := ld];
      }
    }
  }

  lemma EraseTicket(loaders: Loaders, served: seq<LoaderId>, returned: seq<nat>, l: LoaderId)
    requires Tickets(loaders, served, returned, None) && l in loaders
    ensures Tickets(loaders - {l}, served, returned, loaders[l].onInactive)
    ensures |Holders(loaders - {l})| == |Holders(loaders)| - Bit(loaders[l].onInactive.Some?)
  {
    assert Holders(loaders - {l}) == Holders(loaders) - {l};
    forall t | 0 <= t < |served|
      ensures Held(loaders - {l}, served, t) == (Held(loaders, served, t) && loaders[l].onInactive != Some(t))
    {
      if loaders[l].onInactive == Some(t) { assert served[t] == l; }
    }
  }

  lemma JoinedLoader(l: LoaderId, ld: Loader, tasks: seq<MainTask>, waiting: seq<LoaderId>)
    requires LoaderInv(l, ld, tasks, waiting, None) && Inactive(l) !in tasks && ld.onInactive.Some?
    ensures l !in waiting
  {
  }

  lemma TakeJoin(loaders: Loaders, nextLoader: LoaderId, tasks: seq<MainTask>, waiting: seq<LoaderId>)
    requires LoadersInv(loaders, nextLoader, tasks, waiting, None) && TaskOrder(tasks)
    requires tasks != [] && tasks[0].Join?
    ensures LoadersInv(loaders - {tasks[0].loader}, nextLoader, tasks[1..], waiting, None)
    ensures loaders[tasks[0].loader].onInactive.Some? ==> tasks[0].loader !in waiting
  {
    var l := tasks[0].loader;
    TaskOrderHead(tasks);
    assert tasks == [tasks[0]] + tasks[1..];
    forall k | k in loaders && k != l ensures LoaderInv(k, loaders[k], tasks[1..], waiting, None) {
      OtherTask(k, loaders[k], tasks[0], tasks[1..], waiting);
    }
    if loaders[l].onInactive.Some? {
      JoinedLoader(l, loaders[l], tasks, waiting);
    }
  }

  lemma JoinCore(s: State)
    requires Inv(s) && s.tasks != [] && s.tasks[0].Join?
    ensures var l := s.tasks[0].loader;
      && Core(Erase(s.(tasks := s.tasks[1..]), l), s.loaders[l].onInactive, None)
      && (s.loaders[l].onInactive.Some? ==> l !in s.waiting)
  {
    TaskOrderTail(s.tasks);
    TakeJoin(s.loaders, s.nextLoader, s.tasks, s.waiting);
    EraseTicket(s.loaders, s.served, s.returned, s.tasks[0].loader);
  }

  lemma JoinKeepsInv(s: State)
    requires Inv(s) && s.tasks != [] && s.tasks[0].Join?
    ensures Inv(AfterTask(s.(tasks := s.tasks[1..]), s.tasks[0]))
  {
    var l := s.tasks[0].loader;
    var s1 := s.(tasks := s.tasks[1..]);
    JoinCore(s);
    if s.loaders[l].onInactive.Some? {
      EraseCommutes(s1, s.loaders[l].onInactive.value, l);
      ReturnKeepsInv(Erase(s1, l), s.loaders[l].onInactive.value);
    }
  }
}
