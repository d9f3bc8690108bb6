/**
  The life of one component-controller request in appmgr: it is moved as a linear token through the
  branches of component creation and ends as a failure event, a process controller or a bridge to a
  runner.  What the client observes is the list of its OnTerminated events.
*/
module ComponentLifecycle {
  datatype Reason =
    | UNKNOWN | URL_INVALID | PACKAGE_NOT_FOUND | INTERNAL_ERROR | EXITED | RUNNER_FAILED | RUNNER_TERMINATED

  datatype Terminated = Terminated(code: int, reason: Reason)

  // ----- Outcomes of the foreign calls made during creation -----

  datatype Launcher = NoLauncher | PackageLauncher | RunnerLauncher(runnerAvailable: bool)

  datatype Launch = Launch(urlEmpty: bool, canonicalEmpty: bool, launcher: Launcher)

  datatype Runtime = Elf(binaryFound: bool, jobCreated: bool, processCreated: bool) | Other(runnerAvailable: bool)

  datatype Package = Package(found: bool, hasDirectory: bool, urlParses: bool, hasResource: bool,
                             hasManifest: bool, manifestParses: bool, runtime: Runtime,
                             loaderStarted: bool, servicesOpened: bool)

  datatype Result = Fails(reason: Reason) | NeedsPackage | StartsProcess | StartsBridge

  function LaunchResult(l: Launch): Result {
    if l.urlEmpty || l.canonicalEmpty then Fails(URL_INVALID)
    else match l.launcher
      case NoLauncher => Fails(URL_INVALID)
      case PackageLauncher => NeedsPackage
      case RunnerLauncher(ok) => if ok then StartsBridge else Fails(RUNNER_FAILED)
  }

  function PackageResult(p: Package): Result {
    if !p.found || !p.hasDirectory then Fails(PACKAGE_NOT_FOUND)
    else if !p.urlParses || !p.hasManifest || !p.manifestParses || !p.hasResource then Fails(INTERNAL_ERROR)
    else if p.runtime.Elf? && !p.runtime.binaryFound then Fails(INTERNAL_ERROR)
    else if !p.loaderStarted || !p.servicesOpened then Fails(INTERNAL_ERROR)
    else match p.runtime
      case Elf(_, job, process) => if job && process then StartsProcess else Fails(UNKNOWN)
      case Other(ok) => if ok then StartsBridge else Fails(INTERNAL_ERROR)
  }

  // ----- The life of a request as a state machine -----

  datatype Life =
    | Requested
    | Loading
    | Process(job: bool, armed: bool)
    | Bridge(handler: bool, reason: Reason)
    | Gone

  datatype State = State(life: Life, events: seq<Terminated>)

  datatype Step =
    | Launched(launch: Launch)
    | Loaded(package: Package)
    | LoadDropped
    | Kill
    | Exit(code: int)
    | RemoteTerminated(code: int, reason: Reason)
    | RemoteClosed
    | SetReason(reason: Reason)
    | Destroy

  const START := State(Requested, [])

  function Created(s: State, r: Result): State {
    match r
    case Fails(reason) => State(Gone, s.events + [Terminated(-1, reason)])
    case NeedsPackage => s.(life := Loading)
    case StartsProcess => s.(life := Process(true, true))
    case StartsBridge => s.(life := Bridge(true, UNKNOWN))
  }

  /** Ends the life; the event is sent only if the callback may still be called. */
  function Ended(s: State, armed: bool, e: Terminated): State {
    State(Gone, if armed then s.events + [e] else s.events)
  }

  predicate Enabled(life: Life, step: Step) {
    match step
    case Launched(_) => life.Requested?
    case Loaded(_) => life.Loading?
    case LoadDropped => life.Loading?
    case Kill => life.Process? || life.Bridge?
    case Exit(_) => life.Process?
    case RemoteTerminated(_, _) => life.Bridge? && life.handler
    case RemoteClosed => life.Bridge?
    case SetReason(_) => life.Bridge?
    case Destroy => life.Process? || life.Bridge?
  }

  function Next(s: State, step: Step): State
    requires Enabled(s.life, step)
  {
    match step
    case Launched(l) => Created(s, LaunchResult(l))
    case Loaded(p) => Created(s, PackageResult(p))
    case LoadDropped => Created(s, Fails(UNKNOWN))
    case Kill => if s.life.Process? then s.(life := s.life.(job := false)) else s
    case Exit(code) => Ended(s, s.life.armed, Terminated(code, EXITED))
    case RemoteTerminated(code, reason) => Ended(s, true, Terminated(code, reason))
    case RemoteClosed => if s.life.handler then Ended(s, true, Terminated(-1, UNKNOWN)) else s
    case SetReason(reason) => s.(life := s.life.(reason := reason))
    case Destroy =>
      if s.life.Process? then Ended(s, s.life.job && s.life.armed, Terminated(-1, UNKNOWN))
      else Ended(s, s.life.handler, Terminated(-1, s.life.reason))
  }

  // ----- Runs -----

  predicate IsRun(s: State, run: seq<Step>)
    decreases |run|, 0
  {
    run == [] || (IsRun(s, run[..|run| - 1]) && Enabled(End(s, run[..|run| - 1]).life, run[|run| - 1]))
  }

  function End(s: State, run: seq<Step>): State
    requires IsRun(s, run)
    decreases |run|, 1
  {
    if run == [] then s else Next(End(s, run[..|run| - 1]), run[|run| - 1])
  }

  /** The reason the runner gave last, if any. */
  function LastReason(run: seq<Step>): Reason {
    if run == [] then UNKNOWN
    else if run[|run| - 1].SetReason? then run[|run| - 1].reason
    else LastReason(run[..|run| - 1])
  }

  predicate StartedProcess(run: seq<Step>) {
    exists i | 0 <= i < |run| :: run[i].Loaded? && PackageResult(run[i].package).StartsProcess?
  }

  /** The owner destroyed a process controller whose job a kill had cleared, before the process was seen to end. */
  predicate KilledThenDestroyed(run: seq<Step>) {
    run != [] && run[|run| - 1].Destroy? && Kill in run && StartedProcess(run)
  }

  /** What a run says about the life it led to. */
  predicate Inv(run: seq<Step>, life: Life) {
    match life
    case Requested => run == []
    case Loading => Kill !in run && !StartedProcess(run) && LastReason(run) == UNKNOWN
    case Process(job, armed) => armed && (job <==> Kill !in run) && StartedProcess(run)
    case Bridge(handler, reason) => handler && reason == LastReason(run) && !StartedProcess(run)
    case Gone => run != []
  }

  lemma StartedProcessGrows(run: seq<Step>, step: Step)
    ensures StartedProcess(run + [step]) <==>
      StartedProcess(run) || (step.Loaded? && PackageResult(step.package).StartsProcess?)
  {
    var longer := run + [step];
    if StartedProcess(run) {
      var i :| 0 <= i < |run| && run[i].Loaded? && PackageResult(run[i].package).StartsProcess?;
      assert longer[i] == run[i];
    }
    if step.Loaded? && PackageResult(step.package).StartsProcess? { assert longer[|run|] == step; }
  }

  lemma NextKeepsInv(run: seq<Step>, s: State, step: Step)
    requires Inv(run, s.life) && Enabled(s.life, step)
    ensures Inv(run + [step], Next(s, step).life)
  {
    StartedProcessGrows(run, step);
    var longer := run + [step];
    assert longer[..|longer| - 1] == run;
    assert LastReason(longer) == if step.SetReason? then step.reason else LastReason(run);
    assert Kill in longer <==> Kill in run || step == Kill;
  }

  lemma {:induction false} RunKeepsInv(run: seq<Step>)
    requires IsRun(START, run)
    ensures Inv(run, End(START, run).life)
  {
    if run != [] {
      var before := run[..|run| - 1];
      RunKeepsInv(before);
      assert run == before + [run[|run| - 1]];
      NextKeepsInv(before, End(START, before), run[|run| - 1]);
    }
  }

  lemma {:induction false} SilentUntilGone(run: seq<Step>)
    requires IsRun(START, run)
    ensures !End(START, run).life.Gone? ==> End(START, run).events == []
  {
    if run != [] { SilentUntilGone(run[..|run| - 1]); }
  }

  /** Nothing follows the end of a life, so an ended run ended in its last step. */
  lemma {:induction false} EndsInLastStep(run: seq<Step>)
    requires IsRun(START, run) && End(START, run).life.Gone?
    ensures run != [] && IsRun(START, run[..|run| - 1])
    ensures var before := End(START, run[..|run| - 1]);
      && before.events == [] && !before.life.Gone? && Enabled(before.life, run[|run| - 1])
      && End(START, run) == Next(before, run[|run| - 1])
      && Inv(run[..|run| - 1], before.life)
  {
    SilentUntilGone(run[..|run| - 1]);
    RunKeepsInv(run[..|run| - 1]);
  }

  /** A request gets at most one termination event, and none while it is alive. */
  lemma {:induction false} AtMostOneEvent(run: seq<Step>)
    requires IsRun(START, run)
    ensures |End(START, run).events| <= 1
    ensures |End(START, run).events| == 1 ==> End(START, run).life.Gone?
  {
    SilentUntilGone(run);
    if End(START, run).life.Gone? { EndsInLastStep(run); }
  }

  /** A life that is over was announced exactly once, unless its process was killed and then abandoned. */
  lemma {:induction false} ExactlyOneEvent(run: seq<Step>)
    requires IsRun(START, run) && End(START, run).life.Gone?
    ensures End(START, run).events == [] <==> KilledThenDestroyed(run)
    ensures !KilledThenDestroyed(run) ==> |End(START, run).events| == 1
  {
    EndsInLastStep(run);
    var before, last := run[..|run| - 1], run[|run| - 1];
    assert run == before + [last];
    StartedProcessGrows(before, last);
    assert Kill in run <==> Kill in before || last == Kill;
  }

  lemma RunThen(run: seq<Step>, step: Step)
    requires IsRun(START, run) && Enabled(End(START, run).life, step)
    ensures IsRun(START, run + [step]) && End(START, run + [step]) == Next(End(START, run), step)
  {
    assert (run + [step])[..|run|] == run;
  }

  /** A process killed and then abandoned, of which the client hears nothing. */
  lemma KilledThenDestroyedHappens() returns (run: seq<Step>)
    ensures IsRun(START, run) && End(START, run) == State(Gone, []) && KilledThenDestroyed(run)
  {
    var launch := Launched(Launch(false, false, PackageLauncher));
    var load := Loaded(Package(true, true, true, true, true, true, Elf(true, true, true), true, true));
    RunThen([], launch);
    RunThen([] + [launch], load);
    RunThen([] + [launch] + [load], Kill);
    RunThen([] + [launch] + [load] + [Kill], Destroy);
    run := [] + [launch] + [load] + [Kill] + [Destroy];
    assert run[1] == load && run[2] == Kill;
  }

  /** The event a step announces when it ends a life. */
  function Cause(run: seq<Step>): Terminated
    requires run != []
  {
    match run[|run| - 1]
    case Launched(l) => Terminated(-1, if LaunchResult(l).Fails? then LaunchResult(l).reason else UNKNOWN)
    case Loaded(p) => Terminated(-1, if PackageResult(p).Fails? then PackageResult(p).reason else UNKNOWN)
    case Exit(code) => Terminated(code, EXITED)
    case RemoteTerminated(code, reason) => Terminated(code, reason)
    case Destroy => Terminated(-1, if StartedProcess(run) then UNKNOWN else LastReason(run))
    case _ => Terminated(-1, UNKNOWN)
  }

  /** The one event tells how the life ended. */
  lemma {:induction false} EventTellsCause(run: seq<Step>)
    requires IsRun(START, run) && End(START, run).events != []
    ensures End(START, run).events == [Cause(run)]
  {
    SilentUntilGone(run);
    EndsInLastStep(run);
    var before, last := run[..|run| - 1], run[|run| - 1];
    assert run == before + [last];
    StartedProcessGrows(before, last);
  }

  // ----- What each branch of creation leads to -----

  /** The URL names a launcher. */
  predicate UrlIsRouted(l: Launch) { !l.urlEmpty && !l.canonicalEmpty && !l.launcher.NoLauncher? }

  /** After the launch: an invalid URL and a missing runner are reported with their reasons, a package
      is being loaded, or a bridge leads to the runner. */
  lemma LaunchTells(run: seq<Step>, l: Launch)
    requires IsRun(START, run) && run != [] && run[|run| - 1] == Launched(l)
    ensures var s := End(START, run);
      && (s == State(Gone, [Terminated(-1, URL_INVALID)]) <==> l.urlEmpty || l.canonicalEmpty || l.launcher.NoLauncher?)
      && (s == State(Gone, [Terminated(-1, RUNNER_FAILED)]) <==> UrlIsRouted(l) && l.launcher == RunnerLauncher(false))
      && (s == State(Loading, []) <==> UrlIsRouted(l) && l.launcher == PackageLauncher)
      && (s == State(Life.Bridge(true, UNKNOWN), []) <==> UrlIsRouted(l) && l.launcher == RunnerLauncher(true))
  {
    RunKeepsInv(run[..|run| - 1]);
    SilentUntilGone(run[..|run| - 1]);
  }

  /** Everything a package needs before its runtime matters. */
  predicate IsSound(p: Package) {
    && p.found && p.hasDirectory && p.urlParses && p.hasManifest && p.manifestParses && p.hasResource
    && p.loaderStarted && p.servicesOpened && (p.runtime.Elf? ==> p.runtime.binaryFound)
  }

  /** After the package was loaded: a package that is not there, one that is unsound or lacks its
      runner, and a process that cannot be created are reported with their reasons, or a process or a
      bridge lives. */
  lemma PackageTells(run: seq<Step>, p: Package)
    requires IsRun(START, run) && run != [] && run[|run| - 1] == Loaded(p)
    ensures var s := End(START, run);
      && (s == State(Gone, [Terminated(-1, PACKAGE_NOT_FOUND)]) <==> !p.found || !p.hasDirectory)
      && (s == State(Gone, [Terminated(-1, INTERNAL_ERROR)]) <==>
           p.found && p.hasDirectory && (!IsSound(p) || p.runtime == Other(false)))
      && (s == State(Gone, [Terminated(-1, UNKNOWN)]) <==>
           IsSound(p) && p.runtime.Elf? && !(p.runtime.jobCreated && p.runtime.processCreated))
      && (s == State(Life.Process(true, true), []) <==> IsSound(p) && p.runtime == Elf(true, true, true))
      && (s == State(Life.Bridge(true, UNKNOWN), []) <==> IsSound(p) && p.runtime == Other(true))
  {
    SilentUntilGone(run[..|run| - 1]);
    PackageCases(p);
    assert End(START, run) == Created(State(Loading, []), PackageResult(p));
  }

  lemma PackageCases(p: Package)
    ensures PackageResult(p) ==
      if !p.found || !p.hasDirectory then Fails(PACKAGE_NOT_FOUND)
      else if !IsSound(p) || p.runtime == Other(false) then Fails(INTERNAL_ERROR)
      else if p.runtime == Other(true) then StartsBridge
      else if p.runtime == Elf(true, true, true) then StartsProcess
      else Fails(UNKNOWN)
  {
  }

  // ----- The objects -----

  /** A controller request as its client sees it. */
  class Request {
    var events: seq<Terminated>

    constructor ()
      ensures events == []
    {
      events := [];
    }

    /** The forwarding termination callback. */
    method OnTerminated(code: int, reason: Reason)
      modifies this
      ensures events == old(events) + [Terminated(code, reason)]
    {
      events := events + [Terminated(code, reason)];
    }
  }

  /** Carries a request through creation; whoever destroys the active wrapper reports the failure. */
  class ComponentRequestWrapper {
    var request: Request?
    var returnCode: int
    var reason: Reason
    var active: bool

    ghost predicate Holds(r: Request)
      reads this
    {
      active && request == r
    }

    constructor (request: Request)
      ensures Holds(request) && returnCode == -1 && reason == UNKNOWN
    {
      this.request, returnCode, reason, active := request, -1, UNKNOWN, true;
    }

    /** Moving leaves the target's own `active` as it is and clears the source's. */
    method MoveFrom(other: ComponentRequestWrapper)
      requires other != this
      modifies this, other
      ensures request == old(other.request) && returnCode == old(other.returnCode) && reason == old(other.reason)
      ensures active == old(active) && !other.active && other.request == null
    {
      request, returnCode, reason := other.request, other.returnCode, other.reason;
      other.request, other.active := null, false;
    }

    constructor Move(other: ComponentRequestWrapper)
      modifies other
      ensures request == old(other.request) && returnCode == old(other.returnCode) && reason == old(other.reason)
      ensures active && !other.active && other.request == null
    {
      request, returnCode, reason, active := null, -1, UNKNOWN, true;
      new;
      MoveFrom(other);
    }

    method SetReturnValues(returnCode: int, reason: Reason)
      modifies this`returnCode, this`reason
      ensures this.returnCode == returnCode && this.reason == reason
    {
      this.returnCode, this.reason := returnCode, reason;
    }

    method Extract() returns (r: Request?)
      modifies this
      ensures r == if old(active) then old(request) else null
      ensures !active && request == if old(active) then null else old(request)
    {
      if !active { return null; }
      r, request, active := request, null, false;
    }

    method Destroy()
      requires active ==> request != null
      modifies request
      ensures active ==> request.events == old(request.events) + [Terminated(returnCode, reason)]
      ensures !active && request != null ==> request.events == old(request.events)
    {
      if active { request.OnTerminated(returnCode, reason); }
    }
  }

  class ComponentControllerImpl {
    const request: Request
    var job: bool
    var armed: bool
    var destroyed: bool

    ghost function View(): State
      reads this, request
    {
      State(if destroyed then Gone else Life.Process(job, armed), request.events)
    }

    constructor (request: Request)
      ensures this.request == request && View() == State(Life.Process(true, true), request.events)
    {
      this.request, job, armed, destroyed := request, true, true, false;
    }

    method Kill()
      requires !destroyed
      modifies this`job
      ensures View() == Next(old(View()), Step.Kill)
    {
      if job { job := false; }
    }

    /** Called when the process ends; the container then drops the last reference. */
    method Handler(code: int)
      requires !destroyed
      modifies this, request
      ensures View() == Next(old(View()), Exit(code))
    {
      if armed {
        request.OnTerminated(code, EXITED);
        armed := false;
      }
      Destroy();
    }

    method Destroy()
      requires !destroyed
      modifies this, request
      ensures View() == Next(old(View()), Step.Destroy)
    {
      if job {
        if armed {
          request.OnTerminated(-1, UNKNOWN);
          armed := false;
        }
      }
      destroyed := true;
    }
  }

  class ComponentBridge {
    const request: Request
    var handler: bool
    var terminationReason: Reason
    var destroyed: bool

    ghost function View(): State
      reads this, request
    {
      State(if destroyed then Gone else Life.Bridge(handler, terminationReason), request.events)
    }

    constructor (request: Request)
      ensures this.request == request && View() == State(Life.Bridge(true, UNKNOWN), request.events)
    {
      this.request, handler, terminationReason, destroyed := request, true, UNKNOWN, false;
    }

    method OnRemoteTerminated(code: int, reason: Reason)
      requires !destroyed && handler
      modifies this, request
      ensures View() == Next(old(View()), RemoteTerminated(code, reason))
    {
      request.OnTerminated(code, reason);
      handler := false;
      Destroy();
    }

    method OnRemoteError()
      requires !destroyed
      modifies this, request
      ensures View() == Next(old(View()), RemoteClosed)
    {
      if handler { OnRemoteTerminated(-1, UNKNOWN); }
    }

    method SetTerminationReason(reason: Reason)
      requires !destroyed
      modifies this`terminationReason
      ensures View() == Next(old(View()), SetReason(reason))
    {
      terminationReason := reason;
    }

    method Destroy()
      requires !destroyed
      modifies this, request
      ensures View() == Next(old(View()), Step.Destroy)
    {
      if handler { request.OnTerminated(-1, terminationReason); }
      destroyed := true;
    }
  }

  // ----- Creation: the token through every branch -----

  datatype Outcome =
    | Failed
    | Waiting(wrapper: ComponentRequestWrapper)
    | Controller(controller: ComponentControllerImpl)
    | Bridged(bridge: ComponentBridge)

  /** What the request has become, as a state of its life. */
  ghost predicate Became(o: Outcome, request: Request, s: State)
    reads request, if o.Waiting? then {o.wrapper} else {},
      if o.Controller? then {o.controller} else {}, if o.Bridged? then {o.bridge} else {}
  {
    match o
    case Failed => s == State(Gone, request.events)
    case Waiting(w) =>
      w.Holds(request) && w.returnCode == -1 && w.reason == UNKNOWN && s == State(Loading, request.events)
    case Controller(c) => c.request == request && c.View() == s && s.life.Process?
    case Bridged(b) => b.request == request && b.View() == s && s.life.Bridge?
  }

  method CreateComponent(l: Launch, request: Request) returns (o: Outcome)
    requires request.events == []
    modifies request
    ensures Became(o, request, Next(START, Launched(l)))
    ensures o.Waiting? ==> fresh(o.wrapper)
    ensures o.Failed? <==>
      l.urlEmpty || l.canonicalEmpty || l.launcher == NoLauncher || l.launcher == RunnerLauncher(false)
    ensures o.Failed? ==>
      request.events == [Terminated(-1, if UrlIsRouted(l) then RUNNER_FAILED else URL_INVALID)]
  {
    var wrapper := new ComponentRequestWrapper(request);
    if l.urlEmpty {
      wrapper.SetReturnValues(-1, URL_INVALID);
      wrapper.Destroy();
      return Failed;
    }
    if l.canonicalEmpty {
      wrapper.SetReturnValues(-1, URL_INVALID);
      wrapper.Destroy();
      return Failed;
    }
    if l.launcher.NoLauncher? {
      wrapper.SetReturnValues(-1, URL_INVALID);
      o := Failed;
    } else if l.launcher.PackageLauncher? {
      var captured := new ComponentRequestWrapper.Move(wrapper);
      o := Waiting(captured);
    } else {
      var passed := new ComponentRequestWrapper.Move(wrapper);
      o := CreateComponentWithRunner(l.launcher.runnerAvailable, RUNNER_FAILED, passed, request);
    }
    wrapper.Destroy();
  }

  /** Shared by both ways to a runner; `reason` is what a missing runner is reported as. */
  method CreateComponentWithRunner(available: bool, reason: Reason, wrapper: ComponentRequestWrapper,
                                   ghost request: Request) returns (o: Outcome)
    requires wrapper.Holds(request) && request.events == []
    modifies wrapper, request
    ensures Became(o, request, Created(START, if available then StartsBridge else Fails(reason)))
  {
    if !available {
      wrapper.SetReturnValues(-1, reason);
      wrapper.Destroy();
      return Failed;
    }
    var extracted := wrapper.Extract();
    var bridge := new ComponentBridge(extracted);
    wrapper.Destroy();
    o := Bridged(bridge);
  }

  /** The loader's answer; the closure's wrapper dies with the closure. */
  method OnPackageLoaded(p: Package, wrapper: ComponentRequestWrapper, ghost request: Request) returns (o: Outcome)
    requires wrapper.Holds(request) && wrapper.returnCode == -1 && wrapper.reason == UNKNOWN && request.events == []
    modifies wrapper, request
    ensures Became(o, request, Next(State(Loading, []), Loaded(p)))
    ensures o.Controller? <==> IsSound(p) && p.runtime == Elf(true, true, true)
    ensures o.Bridged? <==> IsSound(p) && p.runtime == Other(true)
    ensures !p.found || !p.hasDirectory ==> o.Failed? && request.events == [Terminated(-1, PACKAGE_NOT_FOUND)]
  {
    if p.found && p.hasDirectory {
      var passed := new ComponentRequestWrapper.Move(wrapper);
      o := CreateComponentFromPackage(p, passed, request);
    } else {
      wrapper.SetReturnValues(-1, PACKAGE_NOT_FOUND);
      o := Failed;
    }
    wrapper.Destroy();
  }

  /** The loader went away and dropped the closure. */
  method OnLoadDropped(wrapper: ComponentRequestWrapper, ghost request: Request) returns (o: Outcome)
    requires wrapper.Holds(request) && wrapper.returnCode == -1 && wrapper.reason == UNKNOWN && request.events == []
    modifies request
    ensures Became(o, request, Next(State(Loading, []), LoadDropped))
  {
    wrapper.Destroy();
    o := Failed;
  }

  method CreateComponentFromPackage(p: Package, wrapper: ComponentRequestWrapper, ghost request: Request)
    returns (o: Outcome)
    requires p.found && p.hasDirectory
    requires wrapper.Holds(request) && wrapper.returnCode == -1 && wrapper.reason == UNKNOWN && request.events == []
    modifies wrapper, request
    ensures Became(o, request, Created(START, PackageResult(p)))
  {
    var failed := true;
    if !p.urlParses {
      wrapper.SetReturnValues(-1, INTERNAL_ERROR);
    } else if p.hasManifest && !p.manifestParses {
      wrapper.SetReturnValues(-1, INTERNAL_ERROR);
    } else if !p.hasManifest {
      wrapper.SetReturnValues(-1, INTERNAL_ERROR);
    } else if !p.hasResource {
      wrapper.SetReturnValues(-1, INTERNAL_ERROR);
    } else if p.runtime.Elf? && !p.runtime.binaryFound {
      wrapper.SetReturnValues(-1, INTERNAL_ERROR);
    } else if !p.loaderStarted {
      wrapper.SetReturnValues(-1, INTERNAL_ERROR);
    } else if !p.servicesOpened {
      wrapper.SetReturnValues(-1, INTERNAL_ERROR);
    } else {
      failed := false;
    }
    if failed {
      wrapper.Destroy();
      return Failed;
    }
    var passed := new ComponentRequestWrapper.Move(wrapper);
    if p.runtime.Elf? {
      o := CreateElfBinaryComponent(p.runtime.jobCreated, p.runtime.processCreated, passed, request);
    } else {
      o := CreateComponentWithRunner(p.runtime.runnerAvailable, INTERNAL_ERROR, passed, request);
    }
    wrapper.Destroy();
  }

  /** Failures here set no return values: the wrapper's defaults are reported. */
  method CreateElfBinaryComponent(jobCreated: bool, processCreated: bool, wrapper: ComponentRequestWrapper,
                                  ghost request: Request) returns (o: Outcome)
    requires wrapper.Holds(request) && wrapper.returnCode == -1 && wrapper.reason == UNKNOWN && request.events == []
    modifies wrapper, request
    ensures Became(o, request, Created(START, if jobCreated && processCreated then StartsProcess else Fails(UNKNOWN)))
  {
    if !jobCreated {
      wrapper.Destroy();
      return Failed;
    }
    o := Failed;
    if processCreated {
      var extracted := wrapper.Extract();
      var controller := new ComponentControllerImpl(extracted);
      o := Controller(controller);
    }
    wrapper.Destroy();
  }
}
