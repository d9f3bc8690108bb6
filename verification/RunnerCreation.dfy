/**
  Runner creation in an appmgr realm.  Creating a runner launches the runner's own URL, which may
  itself need a runner, so the creation is recursive; a null entry in `runners` marks a runner whose
  construction has not returned yet.
*/
module RunnerCreation {
  import opened Options

  /** URL canonicalisation and scheme extraction are foreign; the scheme map names the launchers. */
  datatype Config = Config(canonicalize: string -> string, schemeOf: string -> string, schemeMap: map<string, string>)

  datatype Route = Invalid | Package | Runner(name: string)

  datatype Outcome = UrlInvalid | Loading | RunnerFailed | Started

  function LookUp(schemeMap: map<string, string>, scheme: string): string {
    if scheme in schemeMap then schemeMap[scheme] else ""
  }

  function RouteOf(c: Config, url: string): Route {
    if url == "" || c.canonicalize(url) == "" then Invalid
    else
      var launcher := LookUp(c.schemeMap, c.schemeOf(c.canonicalize(url)));
      if launcher == "" then Invalid else if launcher == "package" then Package else Runner(launcher)
  }

  lemma RunnerIsMapped(c: Config, url: string)
    requires RouteOf(c, url).Runner?
    ensures RouteOf(c, url).name in c.schemeMap.Values
  {
    var scheme := c.schemeOf(c.canonicalize(url));
    assert scheme in c.schemeMap.Keys;
  }

  function Members(names: seq<string>): set<string> {
    set n | n in names
  }

  /** How the launch of `url` ends while the runners in `busy` are under construction. */
  function LaunchOf(c: Config, busy: set<string>, url: string): Outcome {
    match RouteOf(c, url)
    case Invalid => UrlInvalid
    case Package => Loading
    case Runner(r) => if r in busy then RunnerFailed else Started
  }

  /** The launcher that the scheme map names for a URL, if there is one. */
  function LauncherOf(c: Config, url: string): Option<string> {
    var canonical := c.canonicalize(url);
    if url == "" || canonical == "" || c.schemeOf(canonical) !in c.schemeMap then None
    else if c.schemeMap[c.schemeOf(canonical)] == "" then None
    else Some(c.schemeMap[c.schemeOf(canonical)])
  }

  /** A URL without a launcher is invalid, the launcher "package" loads a package, and any other is the
      runner that the component needs. */
  lemma LaunchIs(c: Config, busy: set<string>, url: string)
    ensures LaunchOf(c, busy, url) == UrlInvalid <==> LauncherOf(c, url).None?
    ensures LaunchOf(c, busy, url) == Loading <==> LauncherOf(c, url) == Some("package")
    ensures LaunchOf(c, busy, url) == RunnerFailed <==>
      LauncherOf(c, url).Some? && LauncherOf(c, url).value != "package" && LauncherOf(c, url).value in busy
  {
  }

  // ----- Which runners one request creates -----

  /** The runners created for `name`, outermost first, when `keys` and `inherited` exist already. */
  ghost function Created(c: Config, keys: set<string>, inherited: iset<string>, name: string): seq<string>
    decreases c.schemeMap.Values + {name} - keys
  {
    if name in keys || name in inherited then []
    else if RouteOf(c, name).Runner? then
      RunnerIsMapped(c, name);
      [name] + Created(c, keys + {name}, inherited, RouteOf(c, name).name)
    else [name]
  }

  /** The runners created when the component `url` is launched. */
  ghost function CreatedNext(c: Config, keys: set<string>, inherited: iset<string>, url: string): seq<string> {
    if RouteOf(c, url).Runner? then Created(c, keys, inherited, RouteOf(c, url).name) else []
  }

  lemma CreatedUnfolds(c: Config, keys: set<string>, reserved: set<string>, inherited: iset<string>, name: string)
    requires name !in keys && name !in inherited && reserved == keys + {name}
    ensures Created(c, keys, inherited, name) == [name] + CreatedNext(c, reserved, inherited, name)
    ensures c.schemeMap.Values - reserved < c.schemeMap.Values + {name} - keys
  {
    assert name in c.schemeMap.Values + {name} - keys;
    assert name !in c.schemeMap.Values - reserved;
  }

  /** How the launches of `names`, each nested in the one before, end. */
  ghost function Outcomes(c: Config, busy: set<string>, names: seq<string>): seq<Outcome>
    decreases |names|
  {
    if names == [] then []
    else [LaunchOf(c, busy + {names[0]}, names[0])] + Outcomes(c, busy + {names[0]}, names[1..])
  }

  /** The `i`-th runner reached from `name` by asking again and again who runs it. */
  ghost function Orbit(c: Config, name: string, i: nat): Option<string> {
    if i == 0 then Some(name)
    else
      var last := Orbit(c, name, i - 1);
      if last.Some? && RouteOf(c, last.value).Runner? then Some(RouteOf(c, last.value).name) else None
  }

  lemma {:induction false} OrbitShift(c: Config, name: string, i: nat)
    requires RouteOf(c, name).Runner?
    ensures Orbit(c, name, i + 1) == Orbit(c, RouteOf(c, name).name, i)
  {
    if i > 0 { OrbitShift(c, name, i - 1); }
  }

  predicate Distinct(names: seq<string>) {
    forall i, j | 0 <= i < j < |names| :: names[i] != names[j]
  }

  lemma {:induction false} CreatedIsNew(c: Config, keys: set<string>, inherited: iset<string>, name: string)
    ensures var cr := Created(c, keys, inherited, name);
      Distinct(cr) && forall i | 0 <= i < |cr| :: cr[i] !in keys && cr[i] !in inherited
    decreases c.schemeMap.Values + {name} - keys
  {
    if name !in keys && name !in inherited && RouteOf(c, name).Runner? {
      RunnerIsMapped(c, name);
      CreatedIsNew(c, keys + {name}, inherited, RouteOf(c, name).name);
    }
  }

  lemma {:induction false} CreatedOnOrbit(c: Config, keys: set<string>, inherited: iset<string>, name: string, i: nat)
    requires i < |Created(c, keys, inherited, name)|
    ensures Orbit(c, name, i) == Some(Created(c, keys, inherited, name)[i])
    decreases c.schemeMap.Values + {name} - keys
  {
    if i > 0 {
      RunnerIsMapped(c, name);
      CreatedOnOrbit(c, keys + {name}, inherited, RouteOf(c, name).name, i - 1);
      OrbitShift(c, name, i - 1);
    }
  }

  lemma {:induction false} CreatedStops(c: Config, keys: set<string>, inherited: iset<string>, name: string)
    ensures var cr := Created(c, keys, inherited, name);
      var next := Orbit(c, name, |cr|);
      next.None? || next.value in keys || next.value in inherited || next.value in cr
    decreases c.schemeMap.Values + {name} - keys
  {
    if name !in keys && name !in inherited {
      if RouteOf(c, name).Runner? {
        RunnerIsMapped(c, name);
        var next := RouteOf(c, name).name;
        CreatedStops(c, keys + {name}, inherited, next);
        OrbitShift(c, name, |Created(c, keys + {name}, inherited, next)|);
      } else {
        assert Orbit(c, name, 0) == Some(name);
        assert Orbit(c, name, 1) == None;
      }
    }
  }

  /** What is created is the orbit of `name` up to the first runner that exists, repeats or needs no runner. */
  lemma CreatedIsOrbit(c: Config, keys: set<string>, inherited: iset<string>, name: string)
    ensures var cr := Created(c, keys, inherited, name);
      && Distinct(cr)
      && (forall i | 0 <= i < |cr| :: Orbit(c, name, i) == Some(cr[i]) && cr[i] !in keys && cr[i] !in inherited)
      && var next := Orbit(c, name, |cr|);
         next.None? || next.value in keys || next.value in inherited || next.value in cr
  {
    CreatedIsNew(c, keys, inherited, name);
    CreatedStops(c, keys, inherited, name);
    var cr := Created(c, keys, inherited, name);
    forall i | 0 <= i < |cr| ensures Orbit(c, name, i) == Some(cr[i]) { CreatedOnOrbit(c, keys, inherited, name, i); }
  }

  lemma OutcomesCons(c: Config, stack: seq<string>, name: string, rest: seq<string>)
    ensures Outcomes(c, Members(stack), [name] + rest) ==
      [LaunchOf(c, Members(stack + [name]), name)] + Outcomes(c, Members(stack + [name]), rest)
  {
    assert Members(stack + [name]) == Members(stack) + {name};
    assert ([name] + rest)[1..] == rest;
  }

  /** A launch ends as the runners under construction at that moment make it end. */
  lemma {:induction false} OutcomeAt(c: Config, busy: set<string>, names: seq<string>, i: nat)
    requires i < |names|
    ensures |Outcomes(c, busy, names)| == |names|
    ensures Outcomes(c, busy, names)[i] == LaunchOf(c, busy + Members(names[..i + 1]), names[i])
    decreases |names|
  {
    if i == 0 {
      assert Members(names[..1]) == {names[0]};
      if |names| > 1 { OutcomeAt(c, busy + {names[0]}, names[1..], 0); }
    } else {
      OutcomeAt(c, busy + {names[0]}, names[1..], i - 1);
      assert names[..i + 1] == [names[0]] + names[1..][..i];
      assert busy + Members(names[..i + 1]) == busy + {names[0]} + Members(names[1..][..i]);
    }
  }

  /** Only the launch of the innermost created runner can fail for want of a runner. */
  lemma OnlyInnermostFails(c: Config, keys: set<string>, inherited: iset<string>,
                           name: string, busy: set<string>, i: nat)
    requires busy <= keys && i < |Created(c, keys, inherited, name)| - 1
    ensures |Outcomes(c, busy, Created(c, keys, inherited, name))| == |Created(c, keys, inherited, name)|
    ensures Outcomes(c, busy, Created(c, keys, inherited, name))[i] == Started
  {
    var cr := Created(c, keys, inherited, name);
    CreatedIsOrbit(c, keys, inherited, name);
    OutcomeAt(c, busy, cr, i);
    assert Orbit(c, name, i) == Some(cr[i]) && Orbit(c, name, i + 1) == Some(cr[i + 1]);
    assert cr[i + 1] !in cr[..i + 1];
  }

  /**
    The innermost launch fails exactly when the orbit runs into a runner under construction: one in
    `busy` or created just now.
  */
  lemma CycleFailsInnermost(c: Config, keys: set<string>, inherited: iset<string>, name: string, busy: set<string>)
    requires busy <= keys && Created(c, keys, inherited, name) != []
    ensures var cr := Created(c, keys, inherited, name);
      var os, next := Outcomes(c, busy, cr), Orbit(c, name, |cr|);
      && |os| == |cr|
      && (os[|cr| - 1] == RunnerFailed <==> next.Some? && next.value in busy + Members(cr))
  {
    var cr := Created(c, keys, inherited, name);
    CreatedOnOrbit(c, keys, inherited, name, |cr| - 1);
    LastOutcome(c, busy, cr, name);
  }

  lemma LastOutcome(c: Config, busy: set<string>, names: seq<string>, name: string)
    requires names != [] && Orbit(c, name, |names| - 1) == Some(names[|names| - 1])
    ensures var os, next := Outcomes(c, busy, names), Orbit(c, name, |names|);
      && |os| == |names|
      && (os[|names| - 1] == RunnerFailed <==> next.Some? && next.value in busy + Members(names))
  {
    OutcomeAt(c, busy, names, |names| - 1);
    assert names[..|names|] == names;
  }

  /** A runner found on the stack of runners under construction is reached from itself. */
  lemma {:induction false} CycleOnStack(c: Config, stack: seq<string>, i: nat, name: string)
    requires i < |stack| && Linked(c, stack + [name])
    ensures Orbit(c, stack[i], |stack| - i) == Some(name)
    decreases |stack| - i
  {
    var path := stack + [name];
    assert RouteOf(c, path[i]) == Runner(path[i + 1]);
    OrbitShift(c, stack[i], |stack| - i - 1);
    if i + 1 < |stack| { CycleOnStack(c, stack, i + 1, name); }
  }

  /** Each name is launched by the next. */
  predicate Linked(c: Config, names: seq<string>) {
    forall i | 0 <= i < |names| - 1 :: RouteOf(c, names[i]) == Runner(names[i + 1])
  }

  // ----- Realms and runner holders -----

  class RunnerHolder {
    const url: string
    /** How the launch of the runner's own component began. */
    var launch: Outcome

    constructor (url: string, realm: Realm, ghost inherited: iset<string>)
      requires realm.Valid() && inherited == realm.Inherited()
      requires realm.stack != [] && realm.stack[|realm.stack| - 1] == url
      modifies realm`runners, realm`stack
      ensures realm.Valid() && realm.stack == old(realm.stack) && realm.Inherited() == inherited
      ensures this.url == url
      ensures launch == LaunchOf(realm.config, Members(realm.stack), url)
      ensures realm.Grew(CreatedNext(realm.config, old(realm.runners.Keys), inherited, url))
      ensures var names := CreatedNext(realm.config, old(realm.runners.Keys), inherited, url);
        realm.Launched(names, Outcomes(realm.config, Members(realm.stack), names))
      ensures forall n | n in realm.runners :: realm.runners[n] != this
      decreases realm.config.schemeMap.Values - realm.runners.Keys, 3
    {
      this.url := url;
      launch := UrlInvalid;
      new;
      assert unchanged(realm.Above());
      var outcome := realm.CreateComponent(url, inherited);
      launch := outcome;
    }
  }

  class Realm {
    const config: Config
    const parent: Realm?
    const allowParentRunners: bool
    var runners: map<string, RunnerHolder?>
    /** The runners whose construction has started and not returned, outermost first. */
    ghost var stack: seq<string>
    ghost const ancestors: seq<Realm>

    ghost predicate Rooted()
      decreases |ancestors|
    {
      && this !in ancestors
      && (if parent == null then ancestors == [] else ancestors == [parent] + parent.ancestors && parent.Rooted())
    }

    ghost predicate Valid()
      reads this
    {
      && Rooted()
      && (forall n :: n in runners && runners[n] == null <==> n in stack)
      && Distinct(stack)
      && Linked(config, stack)
    }

    constructor (config: Config, parent: Realm?, allowParentRunners: bool)
      requires parent != null ==> parent.Rooted()
      ensures Valid() && stack == [] && runners == map[]
      ensures this.config == config && this.parent == parent && this.allowParentRunners == allowParentRunners
    {
      this.config, this.parent, this.allowParentRunners := config, parent, allowParentRunners;
      runners, stack := map[], [];
      ancestors := if parent == null then [] else [parent] + parent.ancestors;
    }

    ghost function Above(): set<Realm> {
      set a | a in ancestors
    }

    lemma AncestorsOfParent()
      requires Rooted() && parent != null
      ensures parent.Above() + {parent} == Above()
    {
      assert ancestors[0] == parent && ancestors[1..] == parent.ancestors;
    }

    function GetRunnerRecursive(runner: string): RunnerHolder?
      requires Rooted()
      reads this, Above()
      decreases |ancestors|
    {
      if runner in runners then runners[runner]
      else if parent != null && allowParentRunners then
        AncestorsOfParent();
        parent.GetRunnerRecursive(runner)
      else null
    }

    /** Realm `k` steps up is the nearest permitted one with an entry for `runner`. */
    ghost predicate NearestAt(k: nat, runner: string)
      requires k <= |ancestors|
      reads this, Above()
    {
      var chain := [this] + ancestors;
      && runner in chain[k].runners
      && forall j | 0 <= j < k :: runner !in chain[j].runners && chain[j].allowParentRunners
    }

    lemma {:induction false} RecursiveLookupIsNearest(runner: string) returns (k: nat)
      requires Rooted()
      ensures if k <= |ancestors| then
          NearestAt(k, runner) && GetRunnerRecursive(runner) == ([this] + ancestors)[k].runners[runner]
        else
          GetRunnerRecursive(runner) == null && forall j | 0 <= j <= |ancestors| :: !NearestAt(j, runner)
      decreases |ancestors|
    {
      k := 0;
      var chain := [this] + ancestors;
      if runner in runners {
      } else if parent != null && allowParentRunners {
        var up := parent.RecursiveLookupIsNearest(runner);
        k := up + 1;
        assert ancestors == [parent] + parent.ancestors;
        forall j | 0 <= j <= |parent.ancestors|
          ensures NearestAt(j + 1, runner) <==> parent.NearestAt(j, runner)
        {
          assert chain[j + 1] == ([parent] + parent.ancestors)[j];
          if parent.NearestAt(j, runner) {
            forall i | 0 <= i < j + 1 ensures runner !in chain[i].runners && chain[i].allowParentRunners {
              if i > 0 { assert chain[i] == ([parent] + parent.ancestors)[i - 1]; }
            }
          }
          if NearestAt(j + 1, runner) {
            forall i | 0 <= i < j
              ensures var p := ([parent] + parent.ancestors)[i]; runner !in p.runners && p.allowParentRunners
            {
              assert chain[i + 1] == ([parent] + parent.ancestors)[i];
            }
          }
        }
        forall j | 0 <= j <= |ancestors| && NearestAt(j, runner) ensures j > 0 && parent.NearestAt(j - 1, runner) {
          if j > 0 { assert NearestAt(j - 1 + 1, runner) <==> parent.NearestAt(j - 1, runner); }
        }
      } else {
        k := |ancestors| + 1;
        forall j | 0 <= j <= |ancestors| ensures !NearestAt(j, runner) {
          if j > 0 { assert chain[0] == this; }
        }
      }
    }

    /** The runners this realm may take from its ancestors. */
    ghost function Inherited(): iset<string>
      requires Rooted()
      reads Above()
    {
      if parent == null || !allowParentRunners then iset{}
      else
        AncestorsOfParent();
        iset n | parent.GetRunnerRecursive(n) != null
    }

    /** The entries of `names`, and no others, were added. */
    static predicate Added(before: map<string, RunnerHolder?>, after: map<string, RunnerHolder?>, names: seq<string>) {
      && after.Keys == before.Keys + Members(names)
      && forall n | n in before :: after[n] == before[n]
    }

    static lemma AddedCons(before: map<string, RunnerHolder?>, after: map<string, RunnerHolder?>,
                           name: string, names: seq<string>, holder: RunnerHolder)
      requires name !in before && Added(before[name := null], after, names)
      ensures Added(before, after[name := holder], [name] + names)
    {
      assert Members([name] + names) == {name} + Members(names);
    }

    /** Exactly the runners `names` were added, each with a new holder. */
    twostate predicate Grew(names: seq<string>)
      reads this
    {
      && Added(old(runners), runners, names)
      && forall n | n in names :: runners[n] != null && fresh(runners[n])
    }

    /** The launches of the created runners ended in the given ways. */
    ghost predicate Launched(names: seq<string>, outcomes: seq<Outcome>)
      reads this, runners.Values
    {
      && |names| == |outcomes|
      && forall i | 0 <= i < |names| ::
        && names[i] in runners && runners[names[i]] != null
        && runners[names[i]].launch == outcomes[i]
    }

    lemma LaunchedCons(name: string, names: seq<string>, outcome: Outcome, outcomes: seq<Outcome>)
      requires Launched(names, outcomes)
      requires name in runners && runners[name] != null && runners[name].launch == outcome
      ensures Launched([name] + names, [outcome] + outcomes)
    {}

    method CreateComponent(url: string, ghost inherited: iset<string>) returns (outcome: Outcome)
      requires Valid() && inherited == Inherited() && (stack != [] ==> stack[|stack| - 1] == url)
      modifies this`runners, this`stack
      ensures Valid() && stack == old(stack) && Inherited() == inherited
      ensures outcome == LaunchOf(config, Members(stack), url)
      ensures outcome == UrlInvalid <==> LauncherOf(config, url).None?
      ensures outcome == Loading <==> LauncherOf(config, url) == Some("package")
      ensures outcome == RunnerFailed ==> LauncherOf(config, url).Some? && LauncherOf(config, url).value in stack
      ensures Grew(CreatedNext(config, old(runners.Keys), inherited, url))
      ensures var names := CreatedNext(config, old(runners.Keys), inherited, url);
        Launched(names, Outcomes(config, Members(stack), names))
      decreases config.schemeMap.Values - runners.Keys, 2
    {
      LaunchIs(config, Members(stack), url);
      match RouteOf(config, url)
      case Invalid => outcome := UrlInvalid;
      case Package => outcome := Loading;
      case Runner(name) =>
        RunnerIsMapped(config, url);
        assert config.schemeMap.Values + {name} == config.schemeMap.Values;
        var runner := GetOrCreateRunner(name, inherited);
        outcome := if runner == null then RunnerFailed else Started;
    }

    method GetOrCreateRunner(runner: string, ghost inherited: iset<string>) returns (r: RunnerHolder?)
      requires Valid() && inherited == Inherited() && Linked(config, stack + [runner])
      modifies this`runners, this`stack
      ensures Valid() && stack == old(stack) && Inherited() == inherited
      ensures r == null <==> runner in stack
      ensures r == GetRunnerRecursive(runner)
      ensures Grew(Created(config, old(runners.Keys), inherited, runner))
      ensures var names := Created(config, old(runners.Keys), inherited, runner);
        Launched(names, Outcomes(config, Members(stack), names))
      decreases config.schemeMap.Values + {runner} - runners.Keys, 1
    {
      r := GetRunnerRecursive(runner);
      if r != null { return; }
      if runner in runners { return null; }
      r := EmplaceRunner(runner, inherited);
    }

    /** The branch of `GetOrCreateRunner` that found no entry. */
    method EmplaceRunner(runner: string, ghost inherited: iset<string>) returns (r: RunnerHolder)
      requires Valid() && inherited == Inherited() && Linked(config, stack + [runner])
      requires runner !in runners && runner !in inherited
      modifies this`runners, this`stack
      ensures Valid() && stack == old(stack) && Inherited() == inherited
      ensures runner in runners && r == runners[runner]
      ensures Grew(Created(config, old(runners.Keys), inherited, runner))
      ensures var names := Created(config, old(runners.Keys), inherited, runner);
        Launched(names, Outcomes(config, Members(stack), names))
      decreases config.schemeMap.Values + {runner} - runners.Keys, 0
    {
      Reserve(runner);
      ghost var rest := CreatedNext(config, runners.Keys, inherited, runner);
      CreatedUnfolds(config, old(runners.Keys), runners.Keys, inherited, runner);
      r := new RunnerHolder(runner, this, inherited);
      assert runner !in rest by { assert runners[runner] == null; }
      AddedCons(old(runners), runners, runner, rest, r);
      OutcomesCons(config, old(stack), runner, rest);
      Fill(runner, r, rest, Outcomes(config, Members(old(stack) + [runner]), rest));
    }

    /** The runner's component terminated: the realm forgets its holder. */
    method OnRunnerTerminated(runner: string)
      requires Valid() && stack == []
      modifies this`runners
      ensures Valid() && runners == old(runners) - {runner}
    {
      runners := runners - {runner};
    }

    /** Puts in the null placeholder that marks `runner` as under construction. */
    method Reserve(runner: string)
      requires Valid() && Linked(config, stack + [runner]) && runner !in runners
      modifies this`runners, this`stack
      ensures Valid() && stack == old(stack) + [runner] && Inherited() == old(Inherited())
      ensures runners == old(runners)[runner := null]
    {
      runners, stack := runners[runner := null], stack + [runner];
      assert this !in Above();
      assert unchanged(Above());
    }

    /** Replaces the placeholder of the innermost runner under construction. */
    method Fill(runner: string, holder: RunnerHolder, ghost names: seq<string>, ghost outcomes: seq<Outcome>)
      requires Valid() && stack != [] && stack[|stack| - 1] == runner
      requires runner !in names && Launched(names, outcomes)
      modifies this`runners, this`stack
      ensures Valid() && stack == old(stack)[..|old(stack)| - 1] && Inherited() == old(Inherited())
      ensures runners == old(runners)[runner := holder]
      ensures Launched([runner] + names, [holder.launch] + outcomes)
    {
      runners, stack := runners[runner := holder], stack[..|stack| - 1];
      assert old(stack) == stack + [runner];
      assert this !in Above();
      assert unchanged(Above());
      LaunchedCons(runner, names, holder.launch, outcomes);
    }
  }
}
