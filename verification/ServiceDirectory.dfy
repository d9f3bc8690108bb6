/**
  Service directories of appmgr.  A directory copies its parent's services when the parent is set
  (an eager snapshot); what it promises is recursive lookup through the chain of parents.
*/
module ServiceDirectory {
  import opened Options

  /** A service under its name; a service object is known by its identity. */
  datatype Handle = Handle(name: string, service: nat)

  type Whitelist = Option<set<string>>

  predicate Admits(w: Whitelist, name: string) {
    w.None? || name in w.value
  }

  function Names(hs: seq<Handle>): set<string> {
    set h | h in hs :: h.name
  }

  /** The service of the first handle called `name`. */
  function Find(hs: seq<Handle>, name: string): Option<nat> {
    if hs == [] then None
    else if hs[0].name == name then Some(hs[0].service)
    else Find(hs[1..], name)
  }

  function Add(w: Whitelist, hs: seq<Handle>, h: Handle): seq<Handle> {
    if h.name in Names(hs) || !Admits(w, h.name) then hs else hs + [h]
  }

  function AddAll(w: Whitelist, hs: seq<Handle>, more: seq<Handle>): seq<Handle>
    decreases |more|
  {
    if more == [] then hs else AddAll(w, Add(w, hs, more[0]), more[1..])
  }

  // ----- What a list of additions leaves -----

  lemma {:induction false} FindPresent(hs: seq<Handle>, name: string)
    ensures Find(hs, name).Some? <==> name in Names(hs)
  {
    if hs != [] {
      FindPresent(hs[1..], name);
      assert hs == [hs[0]] + hs[1..];
    }
  }

  /** A name that is present has a first handle, and that is the one found. */
  lemma {:induction false} FindIsFirst(hs: seq<Handle>, name: string) returns (k: nat)
    requires name in Names(hs)
    ensures k < |hs| && hs[k].name == name && name !in Names(hs[..k])
    ensures Find(hs, name) == Some(hs[k].service)
  {
    if hs[0].name == name {
      k := 0;
    } else {
      assert hs == [hs[0]] + hs[1..];
      var j := FindIsFirst(hs[1..], name);
      k := j + 1;
      assert hs[..k] == [hs[0]] + hs[1..][..j];
    }
  }

  lemma {:induction false} FindAppended(hs: seq<Handle>, h: Handle, name: string)
    ensures Find(hs + [h], name) == if name in Names(hs) || name != h.name then Find(hs, name) else Some(h.service)
  {
    if hs == [] {
      assert hs + [h] == [h];
    } else {
      FindAppended(hs[1..], h, name);
      assert (hs + [h])[1..] == hs[1..] + [h];
      assert hs == [hs[0]] + hs[1..];
    }
  }

  /** First add wins: a name keeps the service it had, else gets the first admitted one added. */
  lemma {:induction false} FirstAddWins(w: Whitelist, hs: seq<Handle>, more: seq<Handle>, name: string)
    ensures Find(AddAll(w, hs, more), name) ==
      if Find(hs, name).Some? then Find(hs, name)
      else if w.Some? && name !in w.value then None
      else Find(more, name)
    decreases |more|
  {
    FindPresent(hs, name);
    if more != [] {
      FirstAddWins(w, Add(w, hs, more[0]), more[1..], name);
      FindAppended(hs, more[0], name);
    }
  }

  /** `more[k]` is kept when it is admitted and its name is new both to `hs` and to `more[..k]`. */
  predicate IsKept(w: Whitelist, hs: seq<Handle>, more: seq<Handle>, k: nat)
    requires k < |more|
  {
    Admits(w, more[k].name) && more[k].name !in Names(hs) && more[k].name !in Names(more[..k])
  }

  function Kept(w: Whitelist, hs: seq<Handle>, more: seq<Handle>, n: nat): seq<Handle>
    requires n <= |more|
  {
    if n == 0 then []
    else Kept(w, hs, more, n - 1) + if IsKept(w, hs, more, n - 1) then [more[n - 1]] else []
  }

  lemma {:induction false} NamesKept(w: Whitelist, hs: seq<Handle>, more: seq<Handle>, n: nat)
    requires n <= |more|
    ensures forall name :: Admits(w, name) ==>
      (name in Names(hs + Kept(w, hs, more, n)) <==> name in Names(hs) || name in Names(more[..n]))
  {
    if n > 0 {
      NamesKept(w, hs, more, n - 1);
      assert more[..n] == more[..n - 1] + [more[n - 1]];
      var before := hs + Kept(w, hs, more, n - 1);
      assert hs + Kept(w, hs, more, n) == before + if IsKept(w, hs, more, n - 1) then [more[n - 1]] else [];
    }
  }

  lemma {:induction false} AddAllLast(w: Whitelist, hs: seq<Handle>, more: seq<Handle>, h: Handle)
    ensures AddAll(w, hs, more + [h]) == Add(w, AddAll(w, hs, more), h)
    decreases |more|
  {
    if more == [] {
      assert more + [h] == [h];
      assert [h][1..] == [];
    } else {
      AddAllLast(w, Add(w, hs, more[0]), more[1..], h);
      assert (more + [h])[1..] == more[1..] + [h];
    }
  }

  lemma {:induction false} AddAllAppend(w: Whitelist, hs: seq<Handle>, a: seq<Handle>, b: seq<Handle>)
    ensures AddAll(w, hs, a + b) == AddAll(w, AddAll(w, hs, a), b)
    decreases |a|
  {
    if a == [] {
      assert a + b == b;
    } else {
      AddAllAppend(w, Add(w, hs, a[0]), a[1..], b);
      assert (a + b)[1..] == a[1..] + b;
    }
  }

  lemma {:induction false} AddAllPrefix(w: Whitelist, hs: seq<Handle>, more: seq<Handle>, n: nat)
    requires n <= |more|
    ensures AddAll(w, hs, more[..n]) == hs + Kept(w, hs, more, n)
  {
    if n > 0 {
      AddAllPrefix(w, hs, more, n - 1);
      NamesKept(w, hs, more, n - 1);
      assert more[..n] == more[..n - 1] + [more[n - 1]];
      AddAllLast(w, hs, more[..n - 1], more[n - 1]);
    } else {
      assert more[..0] == [];
    }
  }

  /** Additions extend the list in order, with exactly the kept handles. */
  lemma AddAllKeepsOrder(w: Whitelist, hs: seq<Handle>, more: seq<Handle>)
    ensures AddAll(w, hs, more) == hs + Kept(w, hs, more, |more|)
  {
    AddAllPrefix(w, hs, more, |more|);
    assert more[..|more|] == more;
  }

  // ----- Chains of directories -----

  /** A directory and what was added to it before its parent was set. */
  datatype Level = Level(whitelist: Whitelist, own: seq<Handle>)

  /** The handles held after each level, from the root of the chain down, took its parent's. */
  function Snapshot(chain: seq<Level>): seq<Handle> {
    if chain == [] then []
    else AddAll(chain[0].whitelist, AddAll(chain[0].whitelist, [], chain[0].own), Snapshot(chain[1..]))
  }

  /** Lookup that asks the parent only when it is needed. */
  function Resolve(chain: seq<Level>, name: string): Option<nat> {
    if chain == [] || !Admits(chain[0].whitelist, name) then None
    else if Find(chain[0].own, name).Some? then Find(chain[0].own, name)
    else Resolve(chain[1..], name)
  }

  /** Level `k` holds the nearest definition of `name`, and every level from there down has no
      whitelist, or one with the name in it. */
  predicate NearestAt(chain: seq<Level>, name: string, k: nat, service: nat)
    requires k < |chain|
  {
    && (forall j | 0 <= j <= k :: chain[j].whitelist.None? || name in chain[j].whitelist.value)
    && (forall j | 0 <= j < k :: name !in Names(chain[j].own))
    && Find(chain[k].own, name) == Some(service)
  }

  lemma {:induction false} SnapshotAgrees(chain: seq<Level>, name: string)
    ensures Find(Snapshot(chain), name) == Resolve(chain, name)
  {
    if chain != [] {
      var w, own := chain[0].whitelist, chain[0].own;
      SnapshotAgrees(chain[1..], name);
      FirstAddWins(w, [], own, name);
      FirstAddWins(w, AddAll(w, [], own), Snapshot(chain[1..]), name);
    }
  }

  lemma {:induction false} ResolveIsNearest(chain: seq<Level>, name: string, service: nat)
    ensures Resolve(chain, name) == Some(service) <==>
      exists k | 0 <= k < |chain| :: NearestAt(chain, name, k, service)
  {
    if chain != [] {
      var rest := chain[1..];
      ResolveIsNearest(rest, name, service);
      FindPresent(chain[0].own, name);
      forall k | 0 < k < |chain|
        ensures NearestAt(chain, name, k, service) <==>
          && Admits(chain[0].whitelist, name) && name !in Names(chain[0].own)
          && NearestAt(rest, name, k - 1, service)
      {
        NearestShift(chain, name, k, service);
      }
      if Resolve(chain, name) == Some(service) {
        if name in Names(chain[0].own) {
          assert NearestAt(chain, name, 0, service);
        } else {
          var k :| 0 <= k < |rest| && NearestAt(rest, name, k, service);
          assert NearestAt(chain, name, k + 1, service);
        }
      }
      if k :| 0 <= k < |chain| && NearestAt(chain, name, k, service) {
        assert Admits(chain[0].whitelist, name);
        if k > 0 { assert NearestAt(rest, name, k - 1, service); }
      }
    }
  }

  lemma NearestShift(chain: seq<Level>, name: string, k: nat, service: nat)
    requires 0 < k < |chain|
    ensures NearestAt(chain, name, k, service) <==>
      && Admits(chain[0].whitelist, name) && name !in Names(chain[0].own)
      && NearestAt(chain[1..], name, k - 1, service)
  {
    var rest := chain[1..];
    if NearestAt(rest, name, k - 1, service) && Admits(chain[0].whitelist, name) && name !in Names(chain[0].own) {
      forall j | 0 < j <= k ensures Admits(chain[j].whitelist, name) { assert rest[j - 1] == chain[j]; }
      forall j | 0 < j < k ensures name !in Names(chain[j].own) { assert rest[j - 1] == chain[j]; }
    }
    if NearestAt(chain, name, k, service) {
      forall j | 0 <= j <= k - 1 ensures Admits(rest[j].whitelist, name) { assert rest[j] == chain[j + 1]; }
      forall j | 0 <= j < k - 1 ensures name !in Names(rest[j].own) { assert rest[j] == chain[j + 1]; }
    }
  }

  /** The snapshot resolves a name to the nearest definition that every level below it admits. */
  lemma SnapshotIsNearest(chain: seq<Level>, name: string, service: nat)
    ensures Find(Snapshot(chain), name) == Some(service) <==>
      exists k | 0 <= k < |chain| :: NearestAt(chain, name, k, service)
  {
    SnapshotAgrees(chain, name);
    ResolveIsNearest(chain, name, service);
  }

  // ----- Additions that come late -----

  /** What the nearest directory holds when `lates[j]` is added at level `j` after every parent was set. */
  function Held(chain: seq<Level>, lates: seq<seq<Handle>>): seq<Handle>
    requires |lates| == |chain| > 0
  {
    AddAll(chain[0].whitelist, Snapshot(chain), lates[0])
  }

  /** What it would hold if every directory asked its parent now. */
  function Live(chain: seq<Level>, lates: seq<seq<Handle>>): seq<Handle>
    requires |lates| == |chain|
  {
    if chain == [] then []
    else
      var w := chain[0].whitelist;
      AddAll(w, AddAll(w, AddAll(w, [], chain[0].own), Live(chain[1..], lates[1..])), lates[0])
  }

  /** A name is added late at level `j`, and no level from there down has a whitelist without it. */
  predicate LateAt(chain: seq<Level>, lates: seq<seq<Handle>>, name: string, j: nat)
    requires j < |chain| == |lates|
  {
    && (forall i | 0 <= i <= j :: chain[i].whitelist.None? || name in chain[i].whitelist.value)
    && name in Names(lates[j])
  }

  /** The late addition of the highest such level, which would come first. */
  function LateFind(chain: seq<Level>, lates: seq<seq<Handle>>, name: string): Option<nat>
    requires |lates| == |chain|
  {
    if chain == [] || !Admits(chain[0].whitelist, name) then None
    else
      var above := LateFind(chain[1..], lates[1..], name);
      if above.Some? then above else Find(lates[0], name)
  }

  lemma LateShift(chain: seq<Level>, lates: seq<seq<Handle>>, name: string, j: nat)
    requires 0 < j < |chain| == |lates|
    ensures LateAt(chain, lates, name, j) <==>
      Admits(chain[0].whitelist, name) && LateAt(chain[1..], lates[1..], name, j - 1)
  {
    var rest := chain[1..];
    if LateAt(chain, lates, name, j) {
      forall i | 0 <= i <= j - 1 ensures Admits(rest[i].whitelist, name) { assert rest[i] == chain[i + 1]; }
    }
    if Admits(chain[0].whitelist, name) && LateAt(rest, lates[1..], name, j - 1) {
      forall i | 0 < i <= j ensures Admits(chain[i].whitelist, name) { assert rest[i - 1] == chain[i]; }
    }
  }

  /** No late addition counts only where there is none. */
  lemma {:induction false} LateFindNone(chain: seq<Level>, lates: seq<seq<Handle>>, name: string, j: nat)
    requires j < |chain| == |lates| && LateFind(chain, lates, name).None?
    ensures !LateAt(chain, lates, name, j)
    decreases |chain|
  {
    FindPresent(lates[0], name);
    if Admits(chain[0].whitelist, name) && j > 0 {
      LateFindNone(chain[1..], lates[1..], name, j - 1);
      LateShift(chain, lates, name, j);
    }
  }

  /** The late addition that counts is the one of the highest level that has one. */
  lemma {:induction false} LateFindIsHighest(chain: seq<Level>, lates: seq<seq<Handle>>, name: string) returns (k: nat)
    requires |lates| == |chain| && LateFind(chain, lates, name).Some?
    ensures k < |chain| && LateAt(chain, lates, name, k) && LateFind(chain, lates, name) == Find(lates[k], name)
    ensures forall j: nat | k < j < |chain| :: !LateAt(chain, lates, name, j)
    decreases |chain|
  {
    var rest, above := chain[1..], lates[1..];
    k := 0;
    FindPresent(lates[0], name);
    if LateFind(rest, above, name).Some? {
      var m := LateFindIsHighest(rest, above, name);
      k := m + 1;
      LateShift(chain, lates, name, k);
    }
    forall j: nat | k < j < |chain| ensures !LateAt(chain, lates, name, j) {
      LateShift(chain, lates, name, j);
      if LateFind(rest, above, name).None? { LateFindNone(rest, above, name, j - 1); }
    }
  }

  /** Asking now, a name gives what recursive lookup gave before, else the late addition that counts. */
  lemma {:induction false} LiveLookup(chain: seq<Level>, lates: seq<seq<Handle>>, name: string)
    requires |lates| == |chain|
    ensures Find(Live(chain, lates), name) ==
      if Resolve(chain, name).Some? then Resolve(chain, name) else LateFind(chain, lates, name)
    decreases |chain|
  {
    if chain != [] {
      var w, own, above := chain[0].whitelist, chain[0].own, Live(chain[1..], lates[1..]);
      LiveLookup(chain[1..], lates[1..], name);
      FirstAddWins(w, [], own, name);
      FirstAddWins(w, AddAll(w, [], own), above, name);
      FirstAddWins(w, AddAll(w, AddAll(w, [], own), above), lates[0], name);
    }
  }

  /**
    Whatever is added late, and at whichever levels: a lookup differs from asking the parents now
    exactly when the name resolved to nothing before, the directory admits it, and the late addition
    that counts above differs from its own.
  */
  lemma LateAdditions(chain: seq<Level>, lates: seq<seq<Handle>>, name: string)
    requires |lates| == |chain| > 0
    ensures Find(Held(chain, lates), name) != Find(Live(chain, lates), name) <==>
      && Resolve(chain, name).None? && Admits(chain[0].whitelist, name)
      && var above := LateFind(chain[1..], lates[1..], name);
         above.Some? && above != Find(lates[0], name)
  {
    SnapshotAgrees(chain, name);
    FirstAddWins(chain[0].whitelist, Snapshot(chain), lates[0], name);
    LiveLookup(chain, lates, name);
  }

  // ----- Who gets to see a service -----

  /** Level `k` is the nearest that defines the name, and no level from there down has a whitelist without it. */
  predicate ReachesFrom(chain: seq<Level>, name: string, k: nat)
    requires k < |chain|
  {
    && name in Names(chain[k].own)
    && (forall j | 0 <= j < k :: name !in Names(chain[j].own))
    && (forall j | 0 <= j <= k :: chain[j].whitelist.None? || name in chain[j].whitelist.value)
  }

  /** A name has a service exactly when its nearest definition reaches the directory. */
  lemma ResolvesIff(chain: seq<Level>, name: string)
    ensures Find(Snapshot(chain), name).Some? <==> exists k | 0 <= k < |chain| :: ReachesFrom(chain, name, k)
  {
    var found := Find(Snapshot(chain), name);
    if found.Some? {
      SnapshotIsNearest(chain, name, found.value);
      var k :| 0 <= k < |chain| && NearestAt(chain, name, k, found.value);
      FindPresent(chain[k].own, name);
      assert ReachesFrom(chain, name, k);
    }
    if k :| 0 <= k < |chain| && ReachesFrom(chain, name, k) {
      FindPresent(chain[k].own, name);
      assert NearestAt(chain, name, k, Find(chain[k].own, name).value);
      SnapshotIsNearest(chain, name, Find(chain[k].own, name).value);
    }
  }

  /** A whitelist without the name hides every service of that name at or above it. */
  lemma HiddenByWhitelist(chain: seq<Level>, name: string, j: nat)
    requires j < |chain| && chain[j].whitelist.Some? && name !in chain[j].whitelist.value
    requires forall i | 0 <= i < j :: name !in Names(chain[i].own)
    ensures Find(Snapshot(chain), name).None?
  {
    ResolvesIff(chain, name);
    assert forall k | 0 <= k < |chain| :: !ReachesFrom(chain, name, k);
  }

  // ----- Any run of a directory -----

  /** A call on a directory; `SetParent` carries the handles the parent has at that moment. */
  datatype Call = AddService(handle: Handle) | SetParent(handles: seq<Handle>)

  datatype State = State(handles: seq<Handle>, hasParent: bool)

  function Next(w: Whitelist, s: State, c: Call): State {
    match c
    case AddService(h) => s.(handles := Add(w, s.handles, h))
    case SetParent(hs) => if s.hasParent then s else State(AddAll(w, s.handles, hs), true)
  }

  function End(w: Whitelist, s: State, run: seq<Call>): State
    decreases |run|
  {
    if run == [] then s else End(w, Next(w, s, run[0]), run[1..])
  }

  /** Everything offered to a directory, in order: only the first parent counts. */
  function Offered(run: seq<Call>, hasParent: bool): seq<Handle> {
    if run == [] then []
    else match run[0]
      case AddService(h) => [h] + Offered(run[1..], hasParent)
      case SetParent(hs) => (if hasParent then [] else hs) + Offered(run[1..], true)
  }

  /** After any run a directory holds what was offered to it, first add winning. */
  lemma {:induction false} RunIsFirstAddWins(w: Whitelist, s: State, run: seq<Call>)
    ensures End(w, s, run).handles == AddAll(w, s.handles, Offered(run, s.hasParent))
    decreases |run|
  {
    if run != [] {
      var n := Next(w, s, run[0]);
      RunIsFirstAddWins(w, n, run[1..]);
      match run[0]
      case AddService(h) =>
        AddAllAppend(w, s.handles, [h], Offered(run[1..], s.hasParent));
        assert AddAll(w, s.handles, [h]) == n.handles by { assert [h][1..] == []; }
      case SetParent(hs) =>
        AddAllAppend(w, s.handles, if s.hasParent then [] else hs, Offered(run[1..], true));
    }
  }

  /** A name looked up after any run is the first one offered, when the whitelist admits it. */
  lemma RunLookup(w: Whitelist, run: seq<Call>, name: string)
    ensures Find(End(w, State([], false), run).handles, name) ==
      if w.Some? && name !in w.value then None else Find(Offered(run, false), name)
  {
    RunIsFirstAddWins(w, State([], false), run);
    FirstAddWins(w, [], Offered(run, false), name);
  }

  // ----- The directory object -----

  class ServiceProviderDirImpl {
    const whitelist: Whitelist
    var serviceHandles: seq<Handle>
    var root: map<string, nat>
    var allServiceNames: set<string>
    var parent: ServiceProviderDirImpl?

    /** The directory, the handle list and the name set agree, with no name twice or unadmitted. */
    ghost predicate Valid()
      reads this
    {
      && allServiceNames == Names(serviceHandles) == root.Keys
      && (forall k | 0 <= k < |serviceHandles| :: root[serviceHandles[k].name] == serviceHandles[k].service)
      && (forall j, k | 0 <= j < k < |serviceHandles| :: serviceHandles[j].name != serviceHandles[k].name)
      && (whitelist.Some? ==> allServiceNames <= whitelist.value)
    }

    ghost function View(): State
      reads this
    {
      State(serviceHandles, parent != null)
    }

    constructor (services: Whitelist)
      ensures Valid() && whitelist == services && View() == State([], false)
    {
      whitelist, serviceHandles, root, allServiceNames, parent := services, [], map[], {}, null;
    }

    method AddService(name: string, service: nat)
      requires Valid()
      modifies this
      ensures Valid() && parent == old(parent)
      ensures View() == Next(whitelist, old(View()), Call.AddService(Handle(name, service)))
      ensures name in allServiceNames <==>
        name in old(allServiceNames) || whitelist.None? || name in whitelist.value
    {
      if name in allServiceNames { return; }
      if Admits(whitelist, name) {
        serviceHandles := serviceHandles + [Handle(name, service)];
        root := root[name := service];
        allServiceNames := allServiceNames + {name};
      }
    }

    method SetParent(newParent: ServiceProviderDirImpl)
      requires Valid()
      modifies this
      ensures Valid() && parent == if old(parent) == null then newParent else old(parent)
      ensures View() == Next(whitelist, old(View()), Call.SetParent(old(newParent.serviceHandles)))
      ensures old(parent) != null ==> serviceHandles == old(serviceHandles)
    {
      if parent != null { return; }
      parent := newParent;
      var inherited := newParent.serviceHandles;
      for i := 0 to |inherited|
        invariant Valid() && parent == newParent
        invariant serviceHandles == AddAll(whitelist, old(serviceHandles), inherited[..i])
      {
        assert inherited[..i + 1] == inherited[..i] + [inherited[i]];
        AddAllLast(whitelist, old(serviceHandles), inherited[..i], inherited[i]);
        AddService(inherited[i].name, inherited[i].service);
      }
      assert inherited[..|inherited|] == inherited;
    }

    method Lookup(name: string) returns (service: Option<nat>)
      requires Valid()
      ensures service == Find(serviceHandles, name)
    {
      if name in allServiceNames { ghost var k := FindIsFirst(serviceHandles, name); }
      FindPresent(serviceHandles, name);
      service := if name in root then Some(root[name]) else None;
    }

    /** The service the channel is handed to, if any; the whitelist test rejects nothing `Lookup` finds. */
    method ConnectToService(name: string) returns (service: Option<nat>)
      requires Valid()
      ensures service == Find(serviceHandles, name)
      ensures whitelist.Some? && name !in whitelist.value ==> service.None?
      ensures service.Some? <==> name in allServiceNames
    {
      FindPresent(serviceHandles, name);
      if !Admits(whitelist, name) { return None; }
      service := Lookup(name);
    }
  }

  /** Creates the services of a namespace: built-in ones, then additional ones, then the parent's. */
  method NewNamespace(parent: ServiceProviderDirImpl?, services: Whitelist, builtin: seq<Handle>,
                      additional: seq<Handle>, ghost chain: seq<Level>)
    returns (d: ServiceProviderDirImpl)
    requires parent == null ==> chain == []
    requires parent != null ==> parent.Valid() && parent.serviceHandles == Snapshot(chain)
    ensures fresh(d) && d.Valid() && d.parent == parent
    ensures d.serviceHandles == Snapshot([Level(services, builtin + additional)] + chain)
  {
    d := new ServiceProviderDirImpl(services);
    var own := builtin + additional;
    for i := 0 to |own|
      invariant fresh(d) && d.Valid() && d.parent == null && d.whitelist == services
      invariant d.serviceHandles == AddAll(services, [], own[..i])
    {
      assert own[..i + 1] == own[..i] + [own[i]];
      AddAllLast(services, [], own[..i], own[i]);
      d.AddService(own[i].name, own[i].service);
    }
    assert own[..|own|] == own;
    assert ([Level(services, own)] + chain)[1..] == chain;
    if parent != null { d.SetParent(parent); }
  }
}
