/** The HTTP service as an object: each method takes the step of the scheduler that it is named for. */
module HttpService {
  import opened Options
  import opened HttpScheduler

  /** The main-thread object and its containers, updated step by step; every method does
      what the function named in its contract says. */
  class HttpServiceImpl {
    const max: nat
    var available: nat
    var waiting: seq<LoaderId>
    var tasks: seq<MainTask>
    var loaders: Loaders
    var nextLoader: LoaderId
    var issued: nat
    var aborted: bool
    ghost var arrivals: seq<LoaderId>
    ghost var served: seq<LoaderId>
    ghost var returned: seq<nat>

    ghost predicate Valid()
      reads this
    {
      issued == |served|
    }

    ghost function View(): State
      reads this
    {
      State(max, available, waiting, tasks, loaders, nextLoader, arrivals, served, returned, aborted)
    }

    constructor (max: nat)
      ensures Valid() && View() == Init(max)
    {
      this.max, available, waiting, tasks, loaders, nextLoader, issued, aborted := max, max, [], [], map[], 0, 0, false;
      arrivals, served, returned := [], [], [];
    }

    method OnSlotReturned(ticket: nat)
      requires Valid()
      modifies this
      ensures Valid() && View() == AfterReturn(old(View()), ticket)
      decreases |waiting|, 0
    {
      returned := returned + [ticket];
      if available >= max {
        aborted := true;
      } else if waiting == [] {
        available := available + 1;
      } else {
        var request := waiting[0];
        waiting := waiting[1..];
        Serve(request);
      }
    }

    method Serve(l: LoaderId)
      requires Valid()
      modifies this
      ensures Valid() && View() == AfterServe(old(View()), l)
      decreases |waiting|, 1
    {
      var ticket := issued;
      issued, served := issued + 1, served + [l];
      if l !in loaders {
        OnSlotReturned(ticket);
      } else {
        loaders := loaders[l := loaders[l].(onInactive := Some(ticket))];
        loaders := loaders[l := loaders[l].(io := loaders[l].io + [RunSlotRequest])];
      }
    }

    method RequestNetworkSlot(l: LoaderId)
      requires Valid()
      modifies this
      ensures Valid() && View() == AfterRequest(old(View()), l)
    {
      arrivals := arrivals + [l];
      if available == 0 {
        waiting := waiting + [l];
      } else {
        available := available - 1;
        Serve(l);
      }
    }

    method JoinAndNotify(l: LoaderId)
      requires Valid()
      modifies this
      ensures Valid() && View() == AfterTask(old(View()), Join(l))
    {
      if l !in loaders {
        aborted := true;
        return;
      }
      var onInactive := loaders[l].onInactive;
      if onInactive.Some? {
        OnSlotReturned(onInactive.value);
      }
      loaders := loaders - {l};
    }

    method RunMainTask()
      requires Valid() && Enabled(View(), MainStep)
      modifies this
      ensures Valid() && View() == Next(old(View()), MainStep)
    {
      var task := tasks[0];
      tasks := tasks[1..];
      match task
      case SlotRequest(l) =>
        if l in loaders {
          RequestNetworkSlot(l);
        }
      case Inactive(l) =>
        if l in loaders {
          var onInactive := loaders[l].onInactive;
          if onInactive.None? {
            aborted := true;
          } else {
            loaders := loaders[l := loaders[l].(onInactive := None)];
            OnSlotReturned(onInactive.value);
          }
        }
      case Join(l) =>
        JoinAndNotify(l);
    }

    method RunIoTask(l: LoaderId)
      requires Valid() && Enabled(View(), IoStep(l))
      modifies this
      ensures Valid() && View() == Next(old(View()), IoStep(l))
    {
      var task := loaders[l].io[0];
      var ld := loaders[l].(io := loaders[l].io[1..]);
      if task.StartOnIO? {
        loaders := loaders[l := ld.(bound := true)];
      } else {
        loaders := loaders[l := ld.(unrun := if ld.unrun > 0 then ld.unrun - 1 else 0)];
        tasks := tasks + [Inactive(l)];
      }
    }

    method CreateURLLoader()
      requires Valid() && Enabled(View(), CreateLoader)
      modifies this
      ensures Valid() && View() == Next(old(View()), CreateLoader)
    {
      loaders := loaders[nextLoader := Loader(None, [StartOnIO], false, false, 0)];
      nextLoader := nextLoader + 1;
    }

    /** URLLoaderImpl::Start on the IO thread. */
    method Start(l: LoaderId)
      requires Valid() && Enabled(View(), ClientStart(l))
      modifies this
      ensures Valid() && View() == Next(old(View()), ClientStart(l))
    {
      loaders := loaders[l := loaders[l].(unrun := loaders[l].unrun + 1)];
      tasks := tasks + [SlotRequest(l)];
    }

    /** The binding's error handler on the IO thread. */
    method StopOnIOThread(l: LoaderId)
      requires Valid() && Enabled(View(), ClientDisconnect(l))
      modifies this
      ensures Valid() && View() == Next(old(View()), ClientDisconnect(l))
    {
      loaders := loaders[l := loaders[l].(bound := false, quit := true)];
      tasks := tasks + [Join(l)];
    }
  }
}
