/**
  A runner's hub directory.  The runner's controller object shows one hub entry per component it
  runs, under label/instance-id.  Components may start before that controller exists, and leave at
  any time.
*/
module RunnerHub {
  import opened Options
  import opened Numerals

  /** A bridge to a running component; it is known by the key it has in `components`. */
  datatype Bridge = Bridge(name: string, id: string, jobId: Option<string>)

  /** The hub's component directory: label, then instance id, then whose hub directory is there. */
  type Tree = map<string, map<string, nat>>

  // ----- The hub directory -----

  /** Adding under an instance id that is taken fails and changes nothing. */
  function Insert(t: Tree, name: string, id: string, key: nat): Tree {
    var dir := if name in t then t[name] else map[];
    t[name := if id in dir then dir else dir[id := key]]
  }

  /** Removing the last instance of a label removes the label. */
  function Remove(t: Tree, name: string, id: string): Tree {
    if name !in t then t
    else
      var dir := t[name] - {id};
      if dir == map[] then t - {name} else t[name := dir]
  }

  predicate Listed(t: Tree, name: string, id: string, key: nat) {
    name in t && id in t[name] && t[name][id] == key
  }

  /** Bridge `key` is the one with this label and instance id. */
  predicate Has(cs: map<nat, Bridge>, name: string, id: string, key: nat) {
    key in cs && cs[key].name == name && cs[key].id == id
  }

  predicate NoEmptyLabel(t: Tree) {
    forall name | name in t :: t[name] != map[]
  }

  /** The directory lists exactly the given bridges and has no empty label. */
  ghost predicate Agrees(cs: map<nat, Bridge>, t: Tree) {
    && NoEmptyLabel(t)
    && forall name, id, key: nat {:trigger Listed(t, name, id, key)} {:trigger Has(cs, name, id, key)} ::
         Listed(t, name, id, key) <==> Has(cs, name, id, key)
  }

  predicate DistinctIds(cs: map<nat, Bridge>) {
    forall j, k | j in cs && k in cs && cs[j].id == cs[k].id :: j == k
  }

  /** There is only one directory that agrees with a set of bridges. */
  lemma AgreesIsUnique(cs: map<nat, Bridge>, t: Tree, u: Tree)
    requires Agrees(cs, t) && Agrees(cs, u)
    ensures t == u
  {
    AgreesIsIncluded(cs, t, u);
    AgreesIsIncluded(cs, u, t);
    forall name | name in t ensures t[name] == u[name] {}
  }

  lemma AgreesIsIncluded(cs: map<nat, Bridge>, t: Tree, u: Tree)
    requires Agrees(cs, t) && Agrees(cs, u)
    ensures forall name, id | name in t && id in t[name] :: Listed(u, name, id, t[name][id])
    ensures forall name | name in t :: name in u
  {
    forall name, id | name in t && id in t[name] ensures Listed(u, name, id, t[name][id]) {
      assert Listed(t, name, id, t[name][id]);
    }
    forall name | name in t ensures name in u {
      var id :| id in t[name];
      assert Listed(u, name, id, t[name][id]);
    }
  }

  lemma InsertLists(t: Tree, name: string, id: string, key: nat, n: string, i: string, k: nat)
    requires name !in t || id !in t[name]
    ensures Listed(Insert(t, name, id, key), n, i, k) <==> Listed(t, n, i, k) || (n == name && i == id && k == key)
  {
  }

  lemma InsertAgrees(cs: map<nat, Bridge>, t: Tree, key: nat, b: Bridge)
    requires Agrees(cs, t) && key !in cs && DistinctIds(cs[key := b])
    ensures Agrees(cs[key := b], Insert(t, b.name, b.id, key))
  {
    var u, ds := Insert(t, b.name, b.id, key), cs[key := b];
    assert b.name !in t || b.id !in t[b.name] by {
      if b.name in t && b.id in t[b.name] { Taken(cs, t, key, b); }
    }
    forall n, i, k: nat ensures Listed(u, n, i, k) <==> Has(ds, n, i, k) {
      InsertLists(t, b.name, b.id, key, n, i, k);
      assert Listed(t, n, i, k) <==> Has(cs, n, i, k);
    }
  }

  /** An entry that is taken belongs to another bridge with the same id. */
  lemma Taken(cs: map<nat, Bridge>, t: Tree, key: nat, b: Bridge)
    requires Agrees(cs, t) && key !in cs && b.name in t && b.id in t[b.name]
    ensures !DistinctIds(cs[key := b])
  {
    var ds, other := cs[key := b], t[b.name][b.id];
    assert Listed(t, b.name, b.id, other) && Has(cs, b.name, b.id, other);
    assert ds[other].id == ds[key].id;
  }

  lemma RemoveLists(t: Tree, name: string, id: string, n: string, i: string, k: nat)
    ensures Listed(Remove(t, name, id), n, i, k) <==> Listed(t, n, i, k) && !(n == name && i == id)
  {
    if name in t && n == name && i in t[name] && i != id { assert i in t[name] - {id}; }
  }

  lemma RemoveAgrees(cs: map<nat, Bridge>, t: Tree, key: nat)
    requires Agrees(cs, t) && key in cs && DistinctIds(cs)
    ensures Agrees(cs - {key}, Remove(t, cs[key].name, cs[key].id))
  {
    var b := cs[key];
    var u, ds := Remove(t, b.name, b.id), cs - {key};
    forall n, i, k: nat ensures Listed(u, n, i, k) <==> Has(ds, n, i, k) {
      RemoveLists(t, b.name, b.id, n, i, k);
      assert Listed(t, n, i, k) <==> Has(cs, n, i, k);
    }
  }

  // ----- Runner holder -----

  /** The runner's controller object; its component directory appears with the first entry. */
  datatype Impl = Impl(koid: string, children: Option<Tree>)

  datatype State = State(components: map<nat, Bridge>, started: nat, counter: nat,
                         impl: Option<Impl>, koid: string, created: bool)

  datatype Event =
    | Start(name: string)
    | Created(koid: string, order: seq<nat>)
    | Extract(key: nat)
    | ImplGone
    | Cleanup

  const INIT := State(map[], 0, 0, None, "", false)
  const TWO_64 := 0x1_0000_0000_0000_0000

  function AddSubComponentHub(impl: Impl, b: Bridge, key: nat): Impl {
    var t := if impl.children.Some? then impl.children.value else map[];
    impl.(children := Some(Insert(t, b.name, b.id, key)))
  }

  function RemoveSubComponentHub(impl: Impl, b: Bridge): Impl
    requires impl.children.Some?
  {
    impl.(children := Some(Remove(impl.children.value, b.name, b.id)))
  }

  /** A job id, once in the hub, stays. */
  function SetParentJobId(b: Bridge, koid: string): Bridge {
    if b.jobId.None? then b.(jobId := Some(koid)) else b
  }

  function NewBridge(s: State, name: string): Bridge {
    Bridge(name, Print((s.counter + 1) % TWO_64, Ten), if s.impl.Some? then Some(s.koid) else None)
  }

  function AfterStart(s: State, name: string): State {
    var b := NewBridge(s, name);
    s.(components := s.components[s.started := b], started := s.started + 1,
       counter := (s.counter + 1) % TWO_64,
       impl := if s.impl.Some? then Some(AddSubComponentHub(s.impl.value, b, s.started)) else None)
  }

  /** The bridges of `order` are shown one by one. */
  function AddAll(impl: Impl, cs: map<nat, Bridge>, order: seq<nat>): Impl
    requires forall k | k in order :: k in cs
  {
    if order == [] then impl
    else
      var last := order[|order| - 1];
      AddSubComponentHub(AddAll(impl, cs, order[..|order| - 1]), cs[last], last)
  }

  /** `order` is one of the orders in which a hash map may yield its keys. */
  predicate Enumerates(order: seq<nat>, cs: map<nat, Bridge>) {
    && (forall i, j | 0 <= i < j < |order| :: order[i] != order[j])
    && (forall k | k in order :: k in cs)
    && (forall k | k in cs :: k in order)
  }

  function WithJobId(cs: map<nat, Bridge>, koid: string): map<nat, Bridge> {
    map k | k in cs :: SetParentJobId(cs[k], koid)
  }

  function AfterCreated(s: State, koid: string, order: seq<nat>): State
    requires Enumerates(order, s.components)
  {
    var cs := WithJobId(s.components, koid);
    s.(components := cs, koid := koid, created := true, impl := Some(AddAll(Impl(koid, None), cs, order)))
  }

  /** A bridge is extracted; the hub's component directory must exist if the controller does. */
  predicate CanExtract(s: State, key: nat) {
    key in s.components && s.impl.Some? ==> s.impl.value.children.Some?
  }

  function AfterExtract(s: State, key: nat): State
    requires CanExtract(s, key)
  {
    if key !in s.components then s
    else
      var b := s.components[key];
      s.(components := s.components - {key},
         impl := if s.impl.Some? then Some(RemoveSubComponentHub(s.impl.value, b)) else None)
  }

  /** Which events may occur: the creation callback at most once, everything else at any time. */
  predicate Enabled(s: State, e: Event) {
    e.Created? ==> !s.created && Enumerates(e.order, s.components)
  }

  /** The state after an event; none if a missing component directory was dereferenced. */
  function Next(s: State, e: Event): Option<State>
    requires Enabled(s, e)
  {
    match e
    case Start(name) => Some(AfterStart(s, name))
    case Created(koid, order) => Some(AfterCreated(s, koid, order))
    case Extract(key) => if CanExtract(s, key) then Some(AfterExtract(s, key)) else None
    case ImplGone => Some(s.(impl := None))
    case Cleanup => Some(s.(impl := None, components := map[]))
  }

  // ----- The invariant -----

  predicate Ids(cs: map<nat, Bridge>, started: nat) {
    forall k | k in cs :: k < started && cs[k].id == Print((k + 1) % TWO_64, Ten)
  }

  /** What the hub shows, and under which job. */
  ghost predicate Shown(cs: map<nat, Bridge>, impl: Impl) {
    && (forall k | k in cs :: cs[k].jobId == Some(impl.koid))
    && (if impl.children.None? then cs == map[] else Agrees(cs, impl.children.value))
  }

  ghost predicate Inv(s: State) {
    && s.counter == s.started % TWO_64
    && Ids(s.components, s.started)
    && (!s.created ==> s.impl.None? && forall k | k in s.components :: s.components[k].jobId.None?)
    && (s.impl.Some? ==> s.impl.value.koid == s.koid && Shown(s.components, s.impl.value))
  }

  lemma CounterInjective(j: nat, k: nat)
    requires j < TWO_64 && k < TWO_64 && (j + 1) % TWO_64 == (k + 1) % TWO_64
    ensures j == k
  {
  }

  lemma IdsAreDistinct(cs: map<nat, Bridge>, started: nat)
    requires Ids(cs, started) && started <= TWO_64
    ensures DistinctIds(cs)
  {
    forall j, k | j in cs && k in cs && cs[j].id == cs[k].id ensures j == k {
      PrintInjective((j + 1) % TWO_64, (k + 1) % TWO_64, Ten);
      CounterInjective(j, k);
    }
  }

  lemma NextNumber(n: nat)
    ensures (n % TWO_64 + 1) % TWO_64 == (n + 1) % TWO_64
  {
  }

  lemma StartKeepsInv(s: State, name: string)
    requires Inv(s) && s.started < TWO_64
    ensures Inv(AfterStart(s, name))
  {
    var t := AfterStart(s, name);
    NextNumber(s.started);
    assert Ids(t.components, t.started);
    if s.impl.Some? {
      IdsAreDistinct(t.components, t.started);
      var tree := if s.impl.value.children.Some? then s.impl.value.children.value else map[];
      InsertAgrees(s.components, tree, s.started, NewBridge(s, name));
    }
  }

  /** The bridges whose keys are listed in `order`. */
  function Part(cs: map<nat, Bridge>, order: seq<nat>): map<nat, Bridge> {
    map k | k in cs && k in order :: cs[k]
  }

  lemma {:induction false} AddAllShows(koid: string, cs: map<nat, Bridge>, order: seq<nat>)
    requires DistinctIds(cs)
    requires forall k | k in order :: k in cs
    requires forall i, j | 0 <= i < j < |order| :: order[i] != order[j]
    ensures var impl := AddAll(Impl(koid, None), cs, order);
      && impl.koid == koid
      && (if impl.children.None? then order == [] else Agrees(Part(cs, order), impl.children.value))
  {
    if order != [] {
      var n := |order| - 1;
      var last := order[n];
      AddAllShows(koid, cs, order[..n]);
      var before := AddAll(Impl(koid, None), cs, order[..n]);
      var tree := if before.children.Some? then before.children.value else map[];
      assert order == order[..n] + [last];
      assert Part(cs, order) == Part(cs, order[..n])[last := cs[last]];
      InsertAgrees(Part(cs, order[..n]), tree, last, cs[last]);
    }
  }

  lemma CreatedKeepsInv(s: State, koid: string, order: seq<nat>)
    requires Inv(s) && !s.created && Enumerates(order, s.components) && s.started <= TWO_64
    ensures Inv(AfterCreated(s, koid, order))
  {
    var cs := WithJobId(s.components, koid);
    IdsAreDistinct(cs, s.started);
    AddAllShows(koid, cs, order);
    assert Part(cs, order) == cs;
    if order == [] { assert cs == map[]; }
  }

  lemma ExtractKeepsInv(s: State, key: nat)
    requires Inv(s) && s.started <= TWO_64
    ensures CanExtract(s, key) && Inv(AfterExtract(s, key))
  {
    if key in s.components && s.impl.Some? {
      IdsAreDistinct(s.components, s.started);
      RemoveAgrees(s.components, s.impl.value.children.value, key);
    }
  }

  // ----- Whole runs -----

  function Starts(run: seq<Event>): nat {
    if run == [] then 0 else (if run[0].Start? then 1 else 0) + Starts(run[1..])
  }

  predicate IsRun(s: State, run: seq<Event>)
    decreases |run|
  {
    run != [] ==>
      && Enabled(s, run[0])
      && (Next(s, run[0]).Some? ==> IsRun(Next(s, run[0]).value, run[1..]))
  }

  function End(s: State, run: seq<Event>): Option<State>
    requires IsRun(s, run)
    decreases |run|
  {
    if run == [] then Some(s)
    else if Next(s, run[0]).None? then None
    else End(Next(s, run[0]).value, run[1..])
  }

  lemma NextKeepsInv(s: State, e: Event)
    requires Inv(s) && Enabled(s, e) && s.started + Starts([e]) <= TWO_64
    ensures Next(s, e).Some? && Inv(Next(s, e).value) && Next(s, e).value.started == s.started + Starts([e])
  {
    assert [e][1..] == [];
    match e
    case Start(name) => StartKeepsInv(s, name);
    case Created(koid, order) => CreatedKeepsInv(s, koid, order);
    case Extract(key) => ExtractKeepsInv(s, key);
    case ImplGone =>
    case Cleanup =>
  }

  lemma {:induction false} RunKeepsInv(s: State, run: seq<Event>)
    requires Inv(s) && IsRun(s, run) && s.started + Starts(run) <= TWO_64
    ensures End(s, run).Some? && Inv(End(s, run).value) && End(s, run).value.started == s.started + Starts(run)
    decreases |run|
  {
    if run != [] {
      assert [run[0]][1..] == [];
      NextKeepsInv(s, run[0]);
      RunKeepsInv(Next(s, run[0]).value, run[1..]);
    }
  }

  /**
    In any order of starts, late creation, extraction and termination (with at most 2^64 starts),
    nothing missing is dereferenced, instance ids are pairwise distinct, and while the runner's
    controller is alive its hub lists exactly the bridges, each under the runner's job.
  */
  lemma HubListsTheBridges(run: seq<Event>)
    requires IsRun(INIT, run) && Starts(run) <= TWO_64
    ensures End(INIT, run).Some?
    ensures var s := End(INIT, run).value;
      && DistinctIds(s.components)
      && (s.impl.Some? ==>
           && (forall k | k in s.components :: s.components[k].jobId == Some(s.impl.value.koid))
           && if s.impl.value.children.Some? then Agrees(s.components, s.impl.value.children.value)
              else s.components == map[])
  {
    RunKeepsInv(INIT, run);
    IdsAreDistinct(End(INIT, run).value.components, Starts(run));
  }

  // ----- Which bridges there are -----

  /** The labels of the components started, in order. */
  function StartedNames(run: seq<Event>): seq<string> {
    if run == [] then [] else (if run[0].Start? then [run[0].name] else []) + StartedNames(run[1..])
  }

  /** The components that are still there: started, and neither extracted nor cleaned up. */
  function Remaining(run: seq<Event>, started: nat, keys: set<nat>): set<nat> {
    if run == [] then keys
    else match run[0]
      case Start(_) => Remaining(run[1..], started + 1, keys + {started})
      case Extract(key) => Remaining(run[1..], started, keys - {key})
      case Cleanup => Remaining(run[1..], started, {})
      case _ => Remaining(run[1..], started, keys)
  }

  predicate Named(cs: map<nat, Bridge>, names: seq<string>) {
    forall k | k in cs :: k < |names| && cs[k].name == names[k]
  }

  lemma NextKeepsNames(s: State, e: Event, names: seq<string>)
    requires Enabled(s, e) && Next(s, e).Some? && s.started == |names| && Named(s.components, names)
    ensures Named(Next(s, e).value.components, names + StartedNames([e]))
    ensures Next(s, e).value.started == |names + StartedNames([e])|
    ensures Next(s, e).value.components.Keys == Remaining([e], s.started, s.components.Keys)
  {
    assert [e][1..] == [];
  }

  lemma RemainingStep(run: seq<Event>, started: nat, keys: set<nat>)
    requires run != []
    ensures var first := [run[0]];
      && Remaining(run, started, keys) ==
           Remaining(run[1..], started + |StartedNames(first)|, Remaining(first, started, keys))
      && StartedNames(run) == StartedNames(first) + StartedNames(run[1..])
  {
    assert [run[0]][1..] == [];
  }

  lemma {:induction false} RunKeepsNames(s: State, run: seq<Event>, names: seq<string>)
    requires IsRun(s, run) && End(s, run).Some? && s.started == |names| && Named(s.components, names)
    ensures Named(End(s, run).value.components, names + StartedNames(run))
    ensures End(s, run).value.components.Keys == Remaining(run, s.started, s.components.Keys)
    decreases |run|
  {
    if run == [] {
      assert names + [] == names;
    } else {
      var next, first := Next(s, run[0]).value, StartedNames([run[0]]);
      NextKeepsNames(s, run[0], names);
      RunKeepsNames(next, run[1..], names + first);
      RemainingStep(run, s.started, s.components.Keys);
      NamesJoined(names, first, StartedNames(run[1..]));
    }
  }

  lemma NamesJoined(a: seq<string>, b: seq<string>, c: seq<string>)
    ensures a + b + c == a + (b + c)
  {
  }

  /** After any run the bridges are those of the components started and neither extracted nor cleaned up
      since, each with the label it was started with and the decimal number of its start as id. */
  lemma BridgesAreTheComponents(run: seq<Event>)
    requires IsRun(INIT, run) && Starts(run) <= TWO_64
    ensures End(INIT, run).Some?
    ensures var cs := End(INIT, run).value.components;
      && cs.Keys == Remaining(run, 0, {})
      && forall k | k in cs ::
           k < |StartedNames(run)| && cs[k].name == StartedNames(run)[k] && cs[k].id == Print((k + 1) % TWO_64, Ten)
  {
    RunKeepsInv(INIT, run);
    RunKeepsNames(INIT, run, []);
    assert [] + StartedNames(run) == StartedNames(run);
    assert INIT.components.Keys == {};
  }

  // ----- The holder object -----

  /** The bridges once those of `done` have been given the job id. */
  function Marked(cs: map<nat, Bridge>, koid: string, done: seq<nat>): map<nat, Bridge> {
    map k | k in cs :: if k in done then SetParentJobId(cs[k], koid) else cs[k]
  }

  lemma MarkedStep(cs: map<nat, Bridge>, koid: string, order: seq<nat>, i: nat)
    requires Enumerates(order, cs) && i < |order|
    ensures order[i] in cs && Marked(cs, koid, order[..i])[order[i]] == cs[order[i]]
    ensures Marked(cs, koid, order[..i + 1]) ==
      Marked(cs, koid, order[..i])[order[i] := SetParentJobId(cs[order[i]], koid)]
  {
    assert order[..i + 1] == order[..i] + [order[i]];
  }

  lemma AddAllStep(impl: Impl, cs: map<nat, Bridge>, order: seq<nat>, i: nat)
    requires Enumerates(order, cs) && i < |order|
    ensures AddAll(impl, cs, order[..i + 1]) == AddSubComponentHub(AddAll(impl, cs, order[..i]), cs[order[i]], order[i])
  {
    assert order[..i + 1][..i] == order[..i];
  }

  class RunnerHolder {
    var components: map<nat, Bridge>
    var started: nat
    var counter: nat
    var impl: Option<Impl>
    var koid: string
    var created: bool

    ghost function View(): State
      reads this
    {
      State(components, started, counter, impl, koid, created)
    }

    constructor ()
      ensures View() == INIT
    {
      components, started, counter, impl, koid, created := map[], 0, 0, None, "", false;
    }

    /** The component of the runner itself was created; `order` is how the hash map yields its keys. */
    method CreateComponentCallback(newKoid: string, order: seq<nat>)
      requires Enabled(View(), Created(newKoid, order))
      modifies this
      ensures Some(View()) == Next(old(View()), Created(newKoid, order))
    {
      koid, created := newKoid, true;
      var object_ := Impl(koid, None);
      for i := 0 to |order|
        invariant koid == newKoid && created && unchanged(this`started, this`counter)
        invariant components == Marked(old(components), koid, order[..i])
        invariant object_ == AddAll(Impl(koid, None), WithJobId(old(components), koid), order[..i])
      {
        var k := order[i];
        MarkedStep(old(components), koid, order, i);
        AddAllStep(Impl(koid, None), WithJobId(old(components), koid), order, i);
        components := components[k := SetParentJobId(components[k], koid)];
        object_ := AddSubComponentHub(object_, components[k], k);
      }
      assert order[..|order|] == order;
      assert components == WithJobId(old(components), koid);
      impl := Some(object_);
    }

    method StartComponent(name: string)
      modifies this
      ensures Some(View()) == Next(old(View()), Start(name))
    {
      var key := started;
      started, counter := started + 1, (counter + 1) % TWO_64;
      var b := Bridge(name, Print(counter, Ten), None);
      if impl.Some? {
        b := SetParentJobId(b, koid);
        impl := Some(AddSubComponentHub(impl.value, b, key));
      }
      components := components[key := b];
    }

    method ExtractComponent(key: nat) returns (b: Option<Bridge>)
      requires Inv(View()) && started <= TWO_64
      modifies this
      ensures Some(View()) == Next(old(View()), Extract(key))
      ensures b == if key in old(components) then Some(old(components)[key]) else None
    {
      if key !in components { return None; }
      ExtractKeepsInv(View(), key);
      b := Some(components[key]);
      if impl.Some? { impl := Some(RemoveSubComponentHub(impl.value, b.value)); }
      components := components - {key};
    }

    method Cleanup()
      modifies this
      ensures Some(View()) == Next(old(View()), Event.Cleanup)
    {
      impl, components := None, map[];
    }
  }
}
