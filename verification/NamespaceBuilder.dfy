/**
  Building a component's namespace: parallel vectors of types, handles and paths, filled by guarded
  pushes (skipped when the path is taken or cannot be opened) and unguarded ones (which assert that
  the path is free).
*/
module NamespaceBuilder {
  import opened Options

  /** An attempt to add a directory; a channel is known by its identity. */
  datatype Offer =
    | FromPath(src: string, path: string)
    | FromChannel(path: string, channel: nat, guarded: bool)

  datatype Entry = Entry(path: string, channel: nat)

  /** What opening a path gives on the `k`-th attempt. */
  type Opens = (nat, string) -> Option<nat>

  function Source(open: Opens, k: nat, o: Offer): Option<nat> {
    if o.FromPath? then open(k, o.src) else Some(o.channel)
  }

  predicate Guarded(o: Offer) {
    o.FromPath? || o.guarded
  }

  /** The entries, and whether every assertion held. */
  datatype Built = Built(entries: seq<Entry>, ok: bool)

  predicate Has(es: seq<Entry>, path: string) {
    exists i | 0 <= i < |es| :: es[i].path == path
  }

  function Step(b: Built, o: Offer, source: Option<nat>): Built {
    if source.None? || (Guarded(o) && Has(b.entries, o.path)) then b
    else Built(b.entries + [Entry(o.path, source.value)], b.ok && !Has(b.entries, o.path))
  }

  function Fold(open: Opens, offers: seq<Offer>): Built {
    if offers == [] then Built([], true)
    else
      var n := |offers| - 1;
      Step(Fold(open, offers[..n]), offers[n], Source(open, n, offers[n]))
  }

  lemma FoldStep(open: Opens, offers: seq<Offer>, o: Offer)
    ensures Fold(open, offers + [o]) == Step(Fold(open, offers), o, Source(open, |offers|, o))
  {
    assert (offers + [o])[..|offers|] == offers;
  }

  lemma HasAppended(es: seq<Entry>, e: Entry, path: string)
    ensures Has(es + [e], path) <==> Has(es, path) || e.path == path
  {
    if i :| 0 <= i < |es| && es[i].path == path { assert (es + [e])[i].path == path; }
    if e.path == path { assert (es + [e])[|es|].path == path; }
  }

  // ----- What a list of offers builds -----

  predicate Distinct(es: seq<Entry>) {
    forall i, j | 0 <= i < j < |es| :: es[i].path != es[j].path
  }

  /** The assertions all held exactly when no path occurs twice. */
  lemma {:induction false} OkIsDistinct(open: Opens, offers: seq<Offer>)
    ensures Fold(open, offers).ok <==> Distinct(Fold(open, offers).entries)
  {
    if offers != [] {
      var n := |offers| - 1;
      OkIsDistinct(open, offers[..n]);
      var before, after := Fold(open, offers[..n]), Fold(open, offers);
      if after.entries != before.entries {
        var e := after.entries[|before.entries|];
        assert after.entries == before.entries + [e];
        AppendDistinct(before.entries, e);
      }
    }
  }

  lemma AppendDistinct(es: seq<Entry>, e: Entry)
    ensures Distinct(es + [e]) <==> Distinct(es) && !Has(es, e.path)
  {
    var longer := es + [e];
    if Distinct(longer) {
      forall i, j | 0 <= i < j < |es| ensures es[i].path != es[j].path {
        assert longer[i] == es[i] && longer[j] == es[j];
      }
      forall i | 0 <= i < |es| ensures es[i].path != e.path {
        assert longer[i] == es[i] && longer[|es|] == e;
      }
    }
  }

  /** Offer `k` is the first for `path` whose source could be had. */
  predicate FirstSource(open: Opens, offers: seq<Offer>, path: string, k: nat) {
    && k < |offers| && offers[k].path == path && Source(open, k, offers[k]).Some?
    && forall j | 0 <= j < k && offers[j].path == path :: Source(open, j, offers[j]).None?
  }

  function Find(es: seq<Entry>, path: string): Option<nat> {
    if es == [] then None
    else
      var before := Find(es[..|es| - 1], path);
      if before.Some? then before
      else if es[|es| - 1].path == path then Some(es[|es| - 1].channel)
      else None
  }

  lemma {:induction false} FindHas(es: seq<Entry>, path: string)
    ensures Find(es, path).Some? <==> Has(es, path)
  {
    if es != [] {
      var n := |es| - 1;
      FindHas(es[..n], path);
      HasAppended(es[..n], es[n], path);
      assert es == es[..n] + [es[n]];
    }
  }

  lemma FindStep(b: Built, o: Offer, source: Option<nat>, path: string)
    ensures Find(Step(b, o, source).entries, path) ==
      if Find(b.entries, path).Some? then Find(b.entries, path) else if o.path == path then source else None
  {
    FindHas(b.entries, path);
    var after := Step(b, o, source).entries;
    if after != b.entries { assert after[..|after| - 1] == b.entries; }
  }

  predicate NoSource(open: Opens, offers: seq<Offer>, path: string) {
    forall j | 0 <= j < |offers| && offers[j].path == path :: Source(open, j, offers[j]).None?
  }

  lemma NoSourceStep(open: Opens, before: seq<Offer>, o: Offer, path: string)
    ensures NoSource(open, before + [o], path) <==>
      NoSource(open, before, path) && (o.path == path ==> Source(open, |before|, o).None?)
  {
    var offers := before + [o];
    assert offers[|before|] == o;
    forall j | 0 <= j < |before| ensures offers[j] == before[j] {}
    if NoSource(open, offers, path) {
      forall j | 0 <= j < |before| && before[j].path == path ensures Source(open, j, before[j]).None? {
        assert offers[j] == before[j];
      }
    }
  }

  /** A path is bound exactly when one of its sources could be had. */
  lemma {:induction false} UnboundHasNoSource(open: Opens, offers: seq<Offer>, path: string)
    ensures Find(Fold(open, offers).entries, path).None? <==> NoSource(open, offers, path)
  {
    if offers != [] {
      var n := |offers| - 1;
      var before := offers[..n];
      FindStep(Fold(open, before), offers[n], Source(open, n, offers[n]), path);
      UnboundHasNoSource(open, before, path);
      NoSourceStep(open, before, offers[n], path);
      assert offers == before + [offers[n]];
    }
  }

  /** A path is bound to the first of its sources that could be had. */
  lemma {:induction false} BoundToFirstSource(open: Opens, offers: seq<Offer>, path: string, k: nat)
    requires FirstSource(open, offers, path, k)
    ensures Find(Fold(open, offers).entries, path) == Source(open, k, offers[k])
  {
    var n := |offers| - 1;
    var before := offers[..n];
    FindStep(Fold(open, before), offers[n], Source(open, n, offers[n]), path);
    if k < n {
      BoundToFirstSource(open, before, path, k);
    } else {
      UnboundHasNoSource(open, before, path);
    }
  }

  // ----- What a sandbox offers -----

  datatype Sandbox = Sandbox(dev: seq<string>, system: seq<string>, pkgfs: seq<string>,
                             features: seq<string>, boot: seq<string>)

  /** Results of the factories and of creating the miscellaneous storage directory. */
  datatype Env = Env(dataPath: string, cachePath: string, miscCreated: bool, hub: nat)

  function Same(path: string): Offer { FromPath(path, path) }

  function DevOffer(path: string): seq<Offer> {
    if path == "class" then [] else [Same("/dev/" + path)]
  }

  const DEPRECATED_DATA := "deprecated-data"

  function SystemOffer(path: string): seq<Offer> {
    if path == DEPRECATED_DATA || DEPRECATED_DATA + "/" <= path
    then [Same("/system/data" + path[|DEPRECATED_DATA|..])]
    else [Same("/system/" + path)]
  }

  function PkgfsOffer(path: string): seq<Offer> { [Same("/pkgfs/" + path)] }

  function BootOffer(path: string): seq<Offer> { [Same("/boot/" + path)] }

  const SHELL := "deprecated-shell"

  const BEFORE_HUB := [
    FromPath("/pkgfs/packages/root_ssl_certificates/0/data", "/config/ssl"),
    FromPath("/pkgfs/packages/shell-commands/0/bin", "/bin"),
    Same("/blob"), Same("/boot"), Same("/data"), Same("/dev")]

  const AFTER_HUB := [Same("/install"), Same("/pkgfs"), Same("/system"), Same("/tmp"), Same("/volume")]

  const VULKAN := [
    Same("/dev/class/goldfish-address-space"), Same("/dev/class/goldfish-control"),
    Same("/dev/class/goldfish-pipe"), Same("/dev/class/gpu"),
    FromPath("/pkgfs/packages/config-data/0/data/vulkan-icd/icd.d", "/config/vulkan/icd.d")]

  function ShellOffers(hub: nat): seq<Offer> {
    BEFORE_HUB + [FromChannel("/hub", hub, false)] + AFTER_HUB
  }

  /** What the features other than the shell offer. */
  function PathFeature(feature: string): (offers: seq<Offer>)
    ensures forall i | 0 <= i < |offers| :: offers[i].FromPath? && Ordinary(offers[i].path)
  {
    if feature == "build-info" then [FromPath("/pkgfs/packages/build-info/0/data", "/config/build-info")]
    else if feature == "root-ssl-certificates" then
      [FromPath("/pkgfs/packages/root_ssl_certificates/0/data", "/config/ssl")]
    else if feature == "shell-commands" then [FromPath("/pkgfs/packages/shell-commands/0/bin", "/bin")]
    else if feature == "system-temp" then [Same("/tmp")]
    else if feature == "vulkan" then VULKAN
    else []
  }

  function FeatureOffer(feature: string, hub: nat): seq<Offer> {
    if feature == SHELL then ShellOffers(hub) else PathFeature(feature)
  }

  function When(condition: bool, o: Offer): seq<Offer> {
    if condition then [o] else []
  }

  function StorageOffers(sb: Sandbox, env: Env): seq<Offer> {
    When("isolated-persistent-storage" in sb.features, FromPath(env.dataPath, "/data")) +
    When("deprecated-misc-storage" in sb.features && env.miscCreated, FromPath("/data/misc", "/misc")) +
    When("isolated-cache-storage" in sb.features, FromPath(env.cachePath, "/cache"))
  }

  function ConfigOffer(feature: string, pkgName: string): seq<Offer> {
    if feature == "config-data"
    then [FromPath("/pkgfs/packages/config-data/0/data/" + pkgName, "/config/data")] else []
  }

  /** The offers of each item in turn. */
  function Each(items: seq<string>, offer: string -> seq<Offer>): seq<Offer> {
    if items == [] then [] else Each(items[..|items| - 1], offer) + offer(items[|items| - 1])
  }

  function SandboxOffers(sb: Sandbox, env: Env): seq<Offer> {
    Each(sb.dev, DevOffer) + Each(sb.system, SystemOffer) + Each(sb.pkgfs, PkgfsOffer) + StorageOffers(sb, env) +
    Each(sb.features, f => FeatureOffer(f, env.hub)) + Each(sb.boot, BootOffer)
  }

  datatype FlatNamespace = FlatNamespace(paths: seq<string>, directories: seq<nat>)

  function FlatOffers(ns: Option<FlatNamespace>): seq<Offer> {
    if ns.None? || |ns.value.paths| != |ns.value.directories| then []
    else
      var n := |ns.value.paths|;
      seq(n, i requires 0 <= i < n => FromChannel(ns.value.paths[i], ns.value.directories[i], true))
  }

  function ConfigOffers(sb: Sandbox, pkgName: string): seq<Offer> {
    Each(sb.features, f => ConfigOffer(f, pkgName))
  }

  /** The calls made for a component started from a package. */
  function PackageOffers(pkg: nat, sb: Option<Sandbox>, pkgName: string, env: Env, svc: nat,
                         ns: Option<FlatNamespace>): seq<Offer> {
    [FromChannel("/pkg", pkg, false)] + Middle(sb, pkgName, env) + [FromChannel("/svc", svc, false)] + FlatOffers(ns)
  }

  /** The calls made for a shell. */
  function ShellNamespaceOffers(svc: nat, env: Env): seq<Offer> {
    [FromChannel("/svc", svc, false)] + SandboxOffers(Sandbox([], [], [], [SHELL], []), env)
  }

  // ----- When the assertions hold -----

  /** No path of a guarded push of a sandbox is one that is pushed unguarded. */
  predicate Ordinary(path: string) {
    path != "/hub" && path != "/svc" && path != "/pkg"
  }

  predicate IsHub(o: Offer) {
    o.FromChannel? && o.path == "/hub" && !o.guarded
  }

  predicate Regular(offers: seq<Offer>) {
    forall i | 0 <= i < |offers| :: IsHub(offers[i]) || (Guarded(offers[i]) && Ordinary(offers[i].path))
  }

  function Hubs(offers: seq<Offer>): nat {
    if offers == [] then 0
    else Hubs(offers[..|offers| - 1]) + if IsHub(offers[|offers| - 1]) then 1 else 0
  }

  lemma {:induction false} HubsAppend(a: seq<Offer>, b: seq<Offer>)
    ensures Hubs(a + b) == Hubs(a) + Hubs(b)
  {
    if b == [] {
      assert a + b == a;
    } else {
      var n := |b| - 1;
      HubsAppend(a, b[..n]);
      assert (a + b)[..|a| + n] == a + b[..n];
    }
  }

  /** Regular offers keep the assertions, as long as at most one of them is the hub. */
  lemma {:induction false} RegularOk(open: Opens, pre: seq<Offer>, mid: seq<Offer>)
    requires Fold(open, pre).ok && !Has(Fold(open, pre).entries, "/hub") && Regular(mid)
    ensures Fold(open, pre + mid).ok <==> Hubs(mid) <= 1
    ensures Has(Fold(open, pre + mid).entries, "/hub") <==> Hubs(mid) >= 1
    ensures Has(Fold(open, pre + mid).entries, "/svc") <==> Has(Fold(open, pre).entries, "/svc")
    decreases |mid|
  {
    if mid == [] {
      assert pre + mid == pre;
    } else {
      var n := |mid| - 1;
      var rest, o := mid[..n], mid[n];
      assert Regular(rest);
      RegularOk(open, pre, rest);
      assert pre + mid == pre + rest + [o];
      FoldStep(open, pre + rest, o);
      RegularStep(Fold(open, pre + rest), o, Source(open, |pre + rest|, o));
      HubsStep(rest, o, mid);
    }
  }

  lemma HubsStep(rest: seq<Offer>, o: Offer, mid: seq<Offer>)
    requires mid == rest + [o]
    ensures Hubs(mid) == Hubs(rest) + if IsHub(o) then 1 else 0
  {
    assert mid[..|rest|] == rest;
  }

  lemma RegularStep(b: Built, o: Offer, source: Option<nat>)
    requires IsHub(o) || (Guarded(o) && Ordinary(o.path))
    requires IsHub(o) ==> source.Some?
    ensures Step(b, o, source).ok <==> b.ok && !(IsHub(o) && Has(b.entries, "/hub"))
    ensures Has(Step(b, o, source).entries, "/hub") <==> Has(b.entries, "/hub") || IsHub(o)
    ensures Has(Step(b, o, source).entries, "/svc") <==> Has(b.entries, "/svc")
  {
    if source.Some? {
      HasAppended(b.entries, Entry(o.path, source.value), "/hub");
      HasAppended(b.entries, Entry(o.path, source.value), "/svc");
    }
  }

  lemma {:induction false} GuardedKeepsOk(open: Opens, pre: seq<Offer>, tail: seq<Offer>)
    requires forall i | 0 <= i < |tail| :: Guarded(tail[i])
    ensures Fold(open, pre + tail).ok == Fold(open, pre).ok
    decreases |tail|
  {
    if tail == [] {
      assert pre + tail == pre;
    } else {
      var n := |tail| - 1;
      GuardedKeepsOk(open, pre, tail[..n]);
      assert pre + tail == pre + tail[..n] + [tail[n]];
      FoldStep(open, pre + tail[..n], tail[n]);
    }
  }

  lemma RegularAppend(a: seq<Offer>, b: seq<Offer>)
    requires Regular(a) && Regular(b)
    ensures Regular(a + b)
  {
  }

  lemma {:induction false} EachRegular(items: seq<string>, offer: string -> seq<Offer>)
    requires forall s {:trigger offer(s)} :: Regular(offer(s)) && Hubs(offer(s)) == 0
    ensures Regular(Each(items, offer)) && Hubs(Each(items, offer)) == 0
  {
    if items != [] {
      var n := |items| - 1;
      EachRegular(items[..n], offer);
      RegularAppend(Each(items[..n], offer), offer(items[n]));
      HubsAppend(Each(items[..n], offer), offer(items[n]));
    }
  }

  lemma OneRegular(src: string, path: string)
    requires Ordinary(path)
    ensures Regular([FromPath(src, path)]) && Hubs([FromPath(src, path)]) == 0
  {
    assert [FromPath(src, path)][..0] == [];
  }

  lemma ListsRegular(path: string)
    ensures Regular(DevOffer(path)) && Hubs(DevOffer(path)) == 0
    ensures Regular(SystemOffer(path)) && Hubs(SystemOffer(path)) == 0
    ensures Regular(PkgfsOffer(path)) && Hubs(PkgfsOffer(path)) == 0
    ensures Regular(BootOffer(path)) && Hubs(BootOffer(path)) == 0
  {
    var dev, system, pkgfs, boot := "/dev/" + path, "/system/" + path, "/pkgfs/" + path, "/boot/" + path;
    assert dev[1] == 'd' && system[2] == 'y' && |pkgfs| >= 7 && pkgfs[1] == 'p' && boot[1] == 'b';
    OneRegular(dev, dev);
    OneRegular(system, system);
    OneRegular(pkgfs, pkgfs);
    OneRegular(boot, boot);
    if path == DEPRECATED_DATA || DEPRECATED_DATA + "/" <= path {
      var data := "/system/data" + path[|DEPRECATED_DATA|..];
      assert data[2] == 'y';
      OneRegular(data, data);
    }
  }

  /** How many times the shell feature is listed. */
  function Shells(features: seq<string>): nat {
    if features == [] then 0
    else Shells(features[..|features| - 1]) + if features[|features| - 1] == SHELL then 1 else 0
  }

  lemma ShellRegular(hub: nat)
    ensures Regular(ShellOffers(hub)) && Hubs(ShellOffers(hub)) == 1
  {
    var h := FromChannel("/hub", hub, false);
    assert Hubs([h]) == 1 by { assert [h][..0] == []; }
    NoHubs(BEFORE_HUB);
    NoHubs(AFTER_HUB);
    HubsAppend(BEFORE_HUB, [h]);
    HubsAppend(BEFORE_HUB + [h], AFTER_HUB);
  }

  lemma {:induction false} NoHubs(offers: seq<Offer>)
    requires forall i | 0 <= i < |offers| :: !IsHub(offers[i])
    ensures Hubs(offers) == 0
  {
    if offers != [] { NoHubs(offers[..|offers| - 1]); }
  }

  lemma FeatureRegular(feature: string, hub: nat)
    ensures Regular(FeatureOffer(feature, hub))
    ensures Hubs(FeatureOffer(feature, hub)) == if feature == SHELL then 1 else 0
  {
    if feature == SHELL { ShellRegular(hub); } else { NoHubs(PathFeature(feature)); }
  }

  lemma {:induction false} FeaturesRegular(features: seq<string>, hub: nat)
    ensures var offers := Each(features, f => FeatureOffer(f, hub));
      Regular(offers) && Hubs(offers) == Shells(features)
  {
    if features != [] {
      var n := |features| - 1;
      var rest := Each(features[..n], f => FeatureOffer(f, hub));
      FeaturesRegular(features[..n], hub);
      FeatureRegular(features[n], hub);
      RegularAppend(rest, FeatureOffer(features[n], hub));
      HubsAppend(rest, FeatureOffer(features[n], hub));
    }
  }

  lemma BothRegular(a: seq<Offer>, b: seq<Offer>)
    requires Regular(a) && Regular(b)
    ensures Regular(a + b) && Hubs(a + b) == Hubs(a) + Hubs(b)
  {
    HubsAppend(a, b);
  }

  lemma AllRegular(a: seq<Offer>, b: seq<Offer>, c: seq<Offer>, d: seq<Offer>, e: seq<Offer>, f: seq<Offer>)
    requires Regular(a) && Regular(b) && Regular(c) && Regular(d) && Regular(e) && Regular(f)
    ensures Regular(a + b + c + d + e + f)
    ensures Hubs(a + b + c + d + e + f) == Hubs(a) + Hubs(b) + Hubs(c) + Hubs(d) + Hubs(e) + Hubs(f)
  {
    BothRegular(a, b);
    BothRegular(a + b, c);
    BothRegular(a + b + c, d);
    BothRegular(a + b + c + d, e);
    BothRegular(a + b + c + d + e, f);
  }

  lemma PathListsRegular(sb: Sandbox)
    ensures Regular(Each(sb.dev, DevOffer)) && Hubs(Each(sb.dev, DevOffer)) == 0
    ensures Regular(Each(sb.system, SystemOffer)) && Hubs(Each(sb.system, SystemOffer)) == 0
    ensures Regular(Each(sb.pkgfs, PkgfsOffer)) && Hubs(Each(sb.pkgfs, PkgfsOffer)) == 0
    ensures Regular(Each(sb.boot, BootOffer)) && Hubs(Each(sb.boot, BootOffer)) == 0
  {
    forall s { ListsRegular(s); }
    EachRegular(sb.dev, DevOffer);
    EachRegular(sb.system, SystemOffer);
    EachRegular(sb.pkgfs, PkgfsOffer);
    EachRegular(sb.boot, BootOffer);
  }

  lemma StorageRegular(sb: Sandbox, env: Env)
    ensures Regular(StorageOffers(sb, env)) && Hubs(StorageOffers(sb, env)) == 0
  {
    var a := When("isolated-persistent-storage" in sb.features, FromPath(env.dataPath, "/data"));
    var b := When("deprecated-misc-storage" in sb.features && env.miscCreated, FromPath("/data/misc", "/misc"));
    var c := When("isolated-cache-storage" in sb.features, FromPath(env.cachePath, "/cache"));
    OneRegular(env.dataPath, "/data");
    OneRegular("/data/misc", "/misc");
    OneRegular(env.cachePath, "/cache");
    BothRegular(a, b);
    BothRegular(a + b, c);
  }

  /** A sandbox offers the hub as often as it lists the shell feature, and nothing else unguarded. */
  lemma SandboxRegular(sb: Sandbox, env: Env)
    ensures Regular(SandboxOffers(sb, env)) && Hubs(SandboxOffers(sb, env)) == Shells(sb.features)
  {
    PathListsRegular(sb);
    StorageRegular(sb, env);
    FeaturesRegular(sb.features, env.hub);
    AllRegular(Each(sb.dev, DevOffer), Each(sb.system, SystemOffer), Each(sb.pkgfs, PkgfsOffer),
               StorageOffers(sb, env), Each(sb.features, f => FeatureOffer(f, env.hub)), Each(sb.boot, BootOffer));
  }

  lemma ConfigRegular(sb: Sandbox, pkgName: string)
    ensures Regular(ConfigOffers(sb, pkgName)) && Hubs(ConfigOffers(sb, pkgName)) == 0
  {
    var offer := f => ConfigOffer(f, pkgName);
    forall f ensures Regular(offer(f)) && Hubs(offer(f)) == 0 {
      OneRegular("/pkgfs/packages/config-data/0/data/" + pkgName, "/config/data");
    }
    EachRegular(sb.features, offer);
  }

  lemma FirstOffer(open: Opens, o: Offer)
    requires o.FromChannel?
    ensures Fold(open, [o]) == Built([Entry(o.path, o.channel)], true)
  {
    assert [o][..0] == [];
  }

  lemma SequenceOk(open: Opens, first: Offer, mid: seq<Offer>, last: Offer, tail: seq<Offer>)
    requires first.FromChannel? && first.path == "/pkg" && Regular(mid)
    requires last.FromChannel? && last.path == "/svc"
    requires forall i | 0 <= i < |tail| :: Guarded(tail[i])
    ensures Fold(open, [first] + mid + [last] + tail).ok <==> Hubs(mid) <= 1
  {
    FirstOffer(open, first);
    RegularOk(open, [first], mid);
    FoldStep(open, [first] + mid, last);
    GuardedKeepsOk(open, [first] + mid + [last], tail);
  }

  /** What a sandbox, if there is one, adds between the package and the services. */
  function Middle(sb: Option<Sandbox>, pkgName: string, env: Env): seq<Offer> {
    if sb.Some? then ConfigOffers(sb.value, pkgName) + SandboxOffers(sb.value, env) else []
  }

  lemma MiddleRegular(sb: Option<Sandbox>, pkgName: string, env: Env)
    ensures Regular(Middle(sb, pkgName, env))
    ensures Hubs(Middle(sb, pkgName, env)) == if sb.Some? then Shells(sb.value.features) else 0
  {
    if sb.Some? {
      ConfigRegular(sb.value, pkgName);
      SandboxRegular(sb.value, env);
      BothRegular(ConfigOffers(sb.value, pkgName), SandboxOffers(sb.value, env));
    }
  }

  /** For a component from a package the assertions hold exactly when the shell feature is listed at most once. */
  lemma PackageNamespaceOk(open: Opens, pkg: nat, sb: Option<Sandbox>, pkgName: string, env: Env, svc: nat,
                           ns: Option<FlatNamespace>)
    ensures Fold(open, PackageOffers(pkg, sb, pkgName, env, svc, ns)).ok <==>
      (sb.Some? ==> Shells(sb.value.features) <= 1)
  {
    MiddleRegular(sb, pkgName, env);
    SequenceOk(open, FromChannel("/pkg", pkg, false), Middle(sb, pkgName, env),
               FromChannel("/svc", svc, false), FlatOffers(ns));
  }

  /** For a shell the assertions always hold. */
  lemma ShellNamespaceOk(open: Opens, svc: nat, env: Env)
    ensures Fold(open, ShellNamespaceOffers(svc, env)).ok
  {
    var sb := Sandbox([], [], [], [SHELL], []);
    SandboxRegular(sb, env);
    assert [SHELL][..0] == [];
    FirstOffer(open, FromChannel("/svc", svc, false));
    RegularOk(open, [FromChannel("/svc", svc, false)], SandboxOffers(sb, env));
  }

  // ----- The builder object -----

  function Zip(paths: seq<string>, handles: seq<nat>): seq<Entry>
    requires |paths| == |handles|
  {
    seq(|paths|, i requires 0 <= i < |paths| => Entry(paths[i], handles[i]))
  }

  lemma ZipAppended(paths: seq<string>, handles: seq<nat>, path: string, channel: nat)
    requires |paths| == |handles|
    ensures Zip(paths + [path], handles + [channel]) == Zip(paths, handles) + [Entry(path, channel)]
  {
  }

  lemma ZipHas(paths: seq<string>, handles: seq<nat>, path: string)
    requires |paths| == |handles|
    ensures path in paths <==> Has(Zip(paths, handles), path)
  {
    if path in paths {
      var i :| 0 <= i < |paths| && paths[i] == path;
      assert Zip(paths, handles)[i].path == path;
    }
  }

  class Builder {
    const open: Opens
    /** Directory entry types; the type at a position carries an index. */
    var types: seq<nat>
    var handles: seq<nat>
    var paths: seq<string>
    var handlePool: seq<nat>
    /** Whether the assertion of every unguarded push held. */
    var asserted: bool
    var attempts: nat
    ghost var offered: seq<Offer>

    /** The vectors run in parallel. */
    ghost predicate Aligned()
      reads this
    {
      && |types| == |handles| == |paths| && handlePool == handles
      && forall i | 0 <= i < |types| :: types[i] == i
    }

    ghost predicate Valid()
      reads this
    {
      && Aligned()
      && attempts == |offered|
      && Built(Zip(paths, handles), asserted) == Fold(open, offered)
    }

    constructor (open: Opens)
      ensures Valid() && this.open == open && offered == []
    {
      this.open, attempts, asserted, offered := open, 0, true, [];
      types, handles, paths, handlePool := [], [], [], [];
    }

    /** The push itself; the caller accounts for the attempt. */
    method Push(path: string, channel: nat)
      requires Aligned()
      modifies this`types, this`handles, this`paths, this`handlePool, this`asserted
      ensures Aligned()
      ensures Zip(paths, handles) == old(Zip(paths, handles)) + [Entry(path, channel)]
      ensures asserted == (old(asserted) && !Has(old(Zip(paths, handles)), path))
    {
      ZipHas(paths, handles, path);
      ZipAppended(paths, handles, path, channel);
      asserted := asserted && path !in paths;
      types := types + [|types|];
      handles := handles + [channel];
      paths := paths + [path];
      handlePool := handlePool + [channel];
    }

    method PushDirectoryFromChannel(path: string, channel: nat)
      requires Valid()
      modifies this
      ensures Valid() && offered == old(offered) + [FromChannel(path, channel, false)]
    {
      FoldStep(open, offered, FromChannel(path, channel, false));
      Push(path, channel);
      attempts, offered := attempts + 1, offered + [FromChannel(path, channel, false)];
    }

    method AddDirectoryIfNotPresent(path: string, channel: nat)
      requires Valid()
      modifies this
      ensures Valid() && offered == old(offered) + [FromChannel(path, channel, true)]
    {
      FoldStep(open, offered, FromChannel(path, channel, true));
      ZipHas(paths, handles, path);
      if path !in paths { Push(path, channel); }
      attempts, offered := attempts + 1, offered + [FromChannel(path, channel, true)];
    }

    method PushDirectoryFromPathAs(src: string, dst: string)
      requires Valid()
      modifies this
      ensures Valid() && offered == old(offered) + [FromPath(src, dst)]
    {
      FoldStep(open, offered, FromPath(src, dst));
      ZipHas(paths, handles, dst);
      if dst !in paths {
        var handle := open(attempts, src);
        if handle.Some? { Push(dst, handle.value); }
      }
      attempts, offered := attempts + 1, offered + [FromPath(src, dst)];
    }

    method PushDirectoryFromPath(path: string)
      requires Valid()
      modifies this
      ensures Valid() && offered == old(offered) + [Same(path)]
    {
      PushDirectoryFromPathAs(path, path);
    }

    method AddDev(dev: seq<string>)
      requires Valid()
      modifies this
      ensures Valid() && offered == old(offered) + Each(dev, DevOffer)
    {
      for i := 0 to |dev|
        invariant Valid() && offered == old(offered) + Each(dev[..i], DevOffer)
      {
        EachStep(dev, i, DevOffer);
        if dev[i] == "class" { continue; }
        PushDirectoryFromPath("/dev/" + dev[i]);
      }
      assert dev[..|dev|] == dev;
    }

    method AddSystem(system: seq<string>)
      requires Valid()
      modifies this
      ensures Valid() && offered == old(offered) + Each(system, SystemOffer)
    {
      for i := 0 to |system|
        invariant Valid() && offered == old(offered) + Each(system[..i], SystemOffer)
      {
        EachStep(system, i, SystemOffer);
        var path := system[i];
        if path == DEPRECATED_DATA || DEPRECATED_DATA + "/" <= path {
          PushDirectoryFromPath("/system/data" + path[|DEPRECATED_DATA|..]);
        } else {
          PushDirectoryFromPath("/system/" + path);
        }
      }
      assert system[..|system|] == system;
    }

    method AddPkgfs(pkgfs: seq<string>)
      requires Valid()
      modifies this
      ensures Valid() && offered == old(offered) + Each(pkgfs, PkgfsOffer)
    {
      for i := 0 to |pkgfs|
        invariant Valid() && offered == old(offered) + Each(pkgfs[..i], PkgfsOffer)
      {
        EachStep(pkgfs, i, PkgfsOffer);
        PushDirectoryFromPath("/pkgfs/" + pkgfs[i]);
      }
      assert pkgfs[..|pkgfs|] == pkgfs;
    }

    method AddBoot(boot: seq<string>)
      requires Valid()
      modifies this
      ensures Valid() && offered == old(offered) + Each(boot, BootOffer)
    {
      for i := 0 to |boot|
        invariant Valid() && offered == old(offered) + Each(boot[..i], BootOffer)
      {
        EachStep(boot, i, BootOffer);
        PushDirectoryFromPath("/boot/" + boot[i]);
      }
      assert boot[..|boot|] == boot;
    }

    method AddStorage(sb: Sandbox, env: Env)
      requires Valid()
      modifies this
      ensures Valid() && offered == old(offered) + StorageOffers(sb, env)
    {
      if "isolated-persistent-storage" in sb.features { PushDirectoryFromPathAs(env.dataPath, "/data"); }
      if "deprecated-misc-storage" in sb.features {
        if env.miscCreated { PushDirectoryFromPathAs("/data/misc", "/misc"); }
      }
      if "isolated-cache-storage" in sb.features { PushDirectoryFromPathAs(env.cachePath, "/cache"); }
    }

    method AddBeforeHub()
      requires Valid()
      modifies this
      ensures Valid() && offered == old(offered) + BEFORE_HUB
    {
      PushDirectoryFromPathAs("/pkgfs/packages/root_ssl_certificates/0/data", "/config/ssl");
      PushDirectoryFromPathAs("/pkgfs/packages/shell-commands/0/bin", "/bin");
      PushDirectoryFromPath("/blob");
      PushDirectoryFromPath("/boot");
      PushDirectoryFromPath("/data");
      PushDirectoryFromPath("/dev");
    }

    method AddAfterHub()
      requires Valid()
      modifies this
      ensures Valid() && offered == old(offered) + AFTER_HUB
    {
      PushDirectoryFromPath("/install");
      PushDirectoryFromPath("/pkgfs");
      PushDirectoryFromPath("/system");
      PushDirectoryFromPath("/tmp");
      PushDirectoryFromPath("/volume");
    }

    method AddShell(hub: nat)
      requires Valid()
      modifies this
      ensures Valid() && offered == old(offered) + ShellOffers(hub)
    {
      AddBeforeHub();
      PushDirectoryFromChannel("/hub", hub);
      AddAfterHub();
      assert old(offered) + BEFORE_HUB + [FromChannel("/hub", hub, false)] + AFTER_HUB
          == old(offered) + ShellOffers(hub);
    }

    method AddVulkan()
      requires Valid()
      modifies this
      ensures Valid() && offered == old(offered) + VULKAN
    {
      PushDirectoryFromPath("/dev/class/goldfish-address-space");
      PushDirectoryFromPath("/dev/class/goldfish-control");
      PushDirectoryFromPath("/dev/class/goldfish-pipe");
      PushDirectoryFromPath("/dev/class/gpu");
      PushDirectoryFromPathAs("/pkgfs/packages/config-data/0/data/vulkan-icd/icd.d", "/config/vulkan/icd.d");
    }

    method AddFeature(feature: string, hub: nat)
      requires Valid()
      modifies this
      ensures Valid() && offered == old(offered) + FeatureOffer(feature, hub)
    {
      if feature == "build-info" {
        PushDirectoryFromPathAs("/pkgfs/packages/build-info/0/data", "/config/build-info");
      } else if feature == "root-ssl-certificates" {
        PushDirectoryFromPathAs("/pkgfs/packages/root_ssl_certificates/0/data", "/config/ssl");
      } else if feature == SHELL {
        AddShell(hub);
      } else if feature == "shell-commands" {
        PushDirectoryFromPathAs("/pkgfs/packages/shell-commands/0/bin", "/bin");
      } else if feature == "system-temp" {
        PushDirectoryFromPath("/tmp");
      } else if feature == "vulkan" {
        AddVulkan();
      }
    }

    /** As `AddFeature`, for the caller that has a name for what is offered. */
    method AddOne(feature: string, hub: nat, ghost offers: seq<Offer>)
      requires Valid() && offers == FeatureOffer(feature, hub)
      modifies this
      ensures Valid() && offered == old(offered) + offers
    {
      AddFeature(feature, hub);
    }

    method AddFeatures(features: seq<string>, hub: nat)
      requires Valid()
      modifies this
      ensures Valid() && offered == old(offered) + Each(features, f => FeatureOffer(f, hub))
    {
      ghost var offer := f => FeatureOffer(f, hub);
      for i := 0 to |features|
        invariant Valid() && offered == old(offered) + Each(features[..i], offer)
      {
        EachStep(features, i, offer);
        AddOne(features[i], hub, offer(features[i]));
        Grouped(old(offered), Each(features[..i], offer), offer(features[i]));
      }
      assert features[..|features|] == features;
    }

    method AddSandbox(sb: Sandbox, env: Env)
      requires Valid()
      modifies this
      ensures Valid() && offered == old(offered) + SandboxOffers(sb, env)
    {
      AddDev(sb.dev);
      AddSystem(sb.system);
      AddPkgfs(sb.pkgfs);
      AddStorage(sb, env);
      AddFeatures(sb.features, env.hub);
      AddBoot(sb.boot);
      Regroup(old(offered), Each(sb.dev, DevOffer), Each(sb.system, SystemOffer), Each(sb.pkgfs, PkgfsOffer),
              StorageOffers(sb, env), Each(sb.features, f => FeatureOffer(f, env.hub)), Each(sb.boot, BootOffer));
    }

    method AddConfigData(sb: Sandbox, pkgName: string)
      requires Valid()
      modifies this
      ensures Valid() && offered == old(offered) + ConfigOffers(sb, pkgName)
    {
      ghost var offer := f => ConfigOffer(f, pkgName);
      for i := 0 to |sb.features|
        invariant Valid() && offered == old(offered) + Each(sb.features[..i], offer)
      {
        EachStep(sb.features, i, offer);
        if sb.features[i] == "config-data" {
          PushDirectoryFromPathAs("/pkgfs/packages/config-data/0/data/" + pkgName, "/config/data");
        }
      }
      assert sb.features[..|sb.features|] == sb.features;
    }

    method AddFlatNamespace(ns: Option<FlatNamespace>)
      requires Valid()
      modifies this
      ensures Valid() && offered == old(offered) + FlatOffers(ns)
    {
      if ns.Some? && |ns.value.paths| == |ns.value.directories| {
        for i := 0 to |ns.value.paths|
          invariant Valid() && offered == old(offered) + FlatOffers(ns)[..i]
        {
          assert FlatOffers(ns)[..i + 1] == FlatOffers(ns)[..i] + [FlatOffers(ns)[i]];
          AddDirectoryIfNotPresent(ns.value.paths[i], ns.value.directories[i]);
        }
        assert FlatOffers(ns)[..|ns.value.paths|] == FlatOffers(ns);
      }
    }

    /** The calls made for a component started from a package. */
    method AddPackageNamespace(pkg: nat, sb: Option<Sandbox>, pkgName: string, env: Env, svc: nat,
                               ns: Option<FlatNamespace>)
      requires Valid() && offered == []
      modifies this
      ensures Valid() && offered == PackageOffers(pkg, sb, pkgName, env, svc, ns)
    {
      PushDirectoryFromChannel("/pkg", pkg);
      if sb.Some? {
        AddConfigData(sb.value, pkgName);
        AddSandbox(sb.value, env);
        Grouped([FromChannel("/pkg", pkg, false)], ConfigOffers(sb.value, pkgName), SandboxOffers(sb.value, env));
      }
      assert offered == [FromChannel("/pkg", pkg, false)] + Middle(sb, pkgName, env);
      PushDirectoryFromChannel("/svc", svc);
      AddFlatNamespace(ns);
    }

    /** The flat namespace of a process; the handles are no longer owned here. */
    method Build() returns (outTypes: seq<nat>, outHandles: seq<nat>, outPaths: seq<string>)
      requires Valid()
      modifies this`handlePool
      ensures |outTypes| == |outHandles| == |outPaths| && Zip(outPaths, outHandles) == Fold(open, offered).entries
      ensures forall i | 0 <= i < |outTypes| :: outTypes[i] == i
      ensures handlePool == []
    {
      outTypes, outHandles, outPaths := types, handles, paths;
      handlePool := [];
    }

    /** The flat namespace handed to a runner; paths and handles leave the builder. */
    method BuildForRunner() returns (ns: FlatNamespace)
      requires Valid()
      modifies this`paths, this`handlePool
      ensures |ns.paths| == |ns.directories|
      ensures Zip(ns.paths, ns.directories) == old(Fold(open, offered)).entries
    {
      ns := FlatNamespace(paths, handlePool);
      paths, handlePool := [], [];
    }
  }

  lemma Grouped(a: seq<Offer>, b: seq<Offer>, c: seq<Offer>)
    ensures a + b + c == a + (b + c)
  {
  }

  lemma Regroup(o: seq<Offer>, a: seq<Offer>, b: seq<Offer>, c: seq<Offer>, d: seq<Offer>, e: seq<Offer>, f: seq<Offer>)
    ensures o + a + b + c + d + e + f == o + (a + b + c + d + e + f)
  {
  }

  lemma EachStep(items: seq<string>, i: nat, offer: string -> seq<Offer>)
    requires i < |items|
    ensures Each(items[..i + 1], offer) == Each(items[..i], offer) + offer(items[i])
  {
    assert items[..i + 1][..i] == items[..i];
  }

  /** Builds the namespace of a component started from a package. */
  method BuildPackageNamespace(open: Opens, pkg: nat, sb: Option<Sandbox>, pkgName: string, env: Env, svc: nat,
                               ns: Option<FlatNamespace>) returns (b: Builder)
    ensures fresh(b) && b.Valid() && b.open == open && b.offered == PackageOffers(pkg, sb, pkgName, env, svc, ns)
    ensures b.asserted <==> (sb.Some? ==> Shells(sb.value.features) <= 1)
    ensures b.asserted <==> Distinct(Zip(b.paths, b.handles))
  {
    b := new Builder(open);
    b.AddPackageNamespace(pkg, sb, pkgName, env, svc, ns);
    PackageNamespaceOk(open, pkg, sb, pkgName, env, svc, ns);
    OkIsDistinct(open, b.offered);
  }

  /** Builds the namespace of a shell. */
  method BuildShellNamespace(open: Opens, svc: nat, env: Env) returns (b: Builder)
    ensures fresh(b) && b.Valid() && b.open == open && b.offered == ShellNamespaceOffers(svc, env)
    ensures b.asserted && Distinct(Zip(b.paths, b.handles))
  {
    b := new Builder(open);
    b.PushDirectoryFromChannel("/svc", svc);
    b.AddSandbox(Sandbox([], [], [], [SHELL], []), env);
    ShellNamespaceOk(open, svc, env);
    OkIsDistinct(open, b.offered);
  }
}
