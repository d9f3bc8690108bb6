/**
  What the paths of a component's namespace are bound to: the first offer for a path that opens wins, so
  the order in which a sandbox makes its offers decides.
*/
module NamespaceBindings {
  import opened Options
  import opened NamespaceBuilder

  // ----- The first offer for a path -----

  predicate Avoids(offers: seq<Offer>, path: string) {
    forall i | 0 <= i < |offers| :: offers[i].path != path
  }

  /** Offer `k` is `o`, and the first one for its path. */
  predicate FirstAt(offers: seq<Offer>, k: nat, o: Offer) {
    k < |offers| && offers[k] == o && Avoids(offers[..k], o.path)
  }

  lemma FirstInLeft(a: seq<Offer>, b: seq<Offer>, k: nat, o: Offer)
    requires FirstAt(a, k, o)
    ensures FirstAt(a + b, k, o)
  {
    assert (a + b)[..k] == a[..k];
  }

  lemma FirstInRight(a: seq<Offer>, b: seq<Offer>, k: nat, o: Offer)
    requires Avoids(a, o.path) && FirstAt(b, k, o)
    ensures FirstAt(a + b, |a| + k, o)
  {
    assert (a + b)[..|a| + k] == a + b[..k];
  }

  /** If the first offer for a path opens, the path is bound to it. */
  lemma FirstWins(open: Opens, offers: seq<Offer>, k: nat, o: Offer)
    requires FirstAt(offers, k, o) && Source(open, k, o).Some?
    ensures Find(Fold(open, offers).entries, o.path) == Source(open, k, o)
  {
    assert forall j | 0 <= j < k :: offers[j] == offers[..k][j];
    BoundToFirstSource(open, offers, o.path, k);
  }

  lemma NotOfferedNotBound(open: Opens, offers: seq<Offer>, path: string)
    requires Avoids(offers, path)
    ensures Find(Fold(open, offers).entries, path).None?
  {
    UnboundHasNoSource(open, offers, path);
  }

  /** What is bound stays bound to the same, whatever is offered later. */
  lemma {:induction false} LaterOffersKeep(open: Opens, offers: seq<Offer>, more: seq<Offer>, path: string)
    requires Find(Fold(open, offers).entries, path).Some?
    ensures Find(Fold(open, offers + more).entries, path) == Find(Fold(open, offers).entries, path)
    decreases |more|
  {
    if more == [] {
      assert offers + more == offers;
    } else {
      var n := |more| - 1;
      LaterOffersKeep(open, offers, more[..n], path);
      assert offers + more == offers + more[..n] + [more[n]];
      FoldStep(open, offers + more[..n], more[n]);
      FindStep(Fold(open, offers + more[..n]), more[n], Source(open, |offers| + n, more[n]), path);
    }
  }

  /** A directory passed in by the creator never replaces one that is there without it. */
  lemma FlatNeverReplaces(open: Opens, pkg: nat, sb: Option<Sandbox>, pkgName: string, env: Env, svc: nat,
                          ns: Option<FlatNamespace>, path: string)
    requires Find(Fold(open, PackageOffers(pkg, sb, pkgName, env, svc, None)).entries, path).Some?
    ensures Find(Fold(open, PackageOffers(pkg, sb, pkgName, env, svc, ns)).entries, path) ==
      Find(Fold(open, PackageOffers(pkg, sb, pkgName, env, svc, None)).entries, path)
  {
    var before := [FromChannel("/pkg", pkg, false)] + Middle(sb, pkgName, env) + [FromChannel("/svc", svc, false)];
    assert PackageOffers(pkg, sb, pkgName, env, svc, None) == before by { assert before + [] == before; }
    LaterOffersKeep(open, before, FlatOffers(ns), path);
  }

  // ----- Isolated storage comes first -----

  lemma {:induction false} EachAvoids(items: seq<string>, offer: string -> seq<Offer>, path: string)
    requires forall s {:trigger offer(s)} :: Avoids(offer(s), path)
    ensures Avoids(Each(items, offer), path)
  {
    if items != [] { EachAvoids(items[..|items| - 1], offer, path); }
  }

  predicate IsStorage(path: string) { path == "/data" || path == "/misc" || path == "/cache" }

  lemma ListsAvoid(s: string, path: string)
    requires IsStorage(path)
    ensures Avoids(DevOffer(s), path) && Avoids(SystemOffer(s), path)
    ensures Avoids(PkgfsOffer(s), path) && Avoids(BootOffer(s), path)
  {
    var dev, system, pkgfs, boot := "/dev/" + s, "/system/" + s, "/pkgfs/" + s, "/boot/" + s;
    assert dev[2] == 'e' && system[1] == 's' && pkgfs[1] == 'p' && boot[1] == 'b';
    if s == DEPRECATED_DATA || DEPRECATED_DATA + "/" <= s {
      assert ("/system/data" + s[|DEPRECATED_DATA|..])[1] == 's';
    }
  }

  lemma SandboxListsAvoid(sb: Sandbox, path: string)
    requires IsStorage(path)
    ensures Avoids(Each(sb.dev, DevOffer) + Each(sb.system, SystemOffer) + Each(sb.pkgfs, PkgfsOffer), path)
    ensures Avoids(Each(sb.boot, BootOffer), path)
  {
    forall s { ListsAvoid(s, path); }
    EachAvoids(sb.dev, DevOffer, path);
    EachAvoids(sb.system, SystemOffer, path);
    EachAvoids(sb.pkgfs, PkgfsOffer, path);
    EachAvoids(sb.boot, BootOffer, path);
  }

  lemma ConfigAvoids(sb: Sandbox, pkgName: string, path: string)
    requires path != "/config/data"
    ensures Avoids(ConfigOffers(sb, pkgName), path)
  {
    EachAvoids(sb.features, f => ConfigOffer(f, pkgName), path);
  }

  /** The storage offers come before any other for their paths. */
  lemma StorageIsFirst(pkg: nat, sb: Sandbox, pkgName: string, env: Env, svc: nat, ns: Option<FlatNamespace>,
                       i: nat, o: Offer) returns (k: nat)
    requires FirstAt(StorageOffers(sb, env), i, o) && IsStorage(o.path)
    ensures FirstAt(PackageOffers(pkg, Some(sb), pkgName, env, svc, ns), k, o)
  {
    var lists := Each(sb.dev, DevOffer) + Each(sb.system, SystemOffer) + Each(sb.pkgfs, PkgfsOffer);
    var features := Each(sb.features, f => FeatureOffer(f, env.hub));
    SandboxListsAvoid(sb, o.path);
    ConfigAvoids(sb, pkgName, o.path);
    var j := FirstInSandbox(lists, StorageOffers(sb, env), features, Each(sb.boot, BootOffer), i, o);
    k := FirstInPackage(FromChannel("/pkg", pkg, false), ConfigOffers(sb, pkgName), SandboxOffers(sb, env),
                        FromChannel("/svc", svc, false), FlatOffers(ns), j, o);
  }

  lemma FirstInSandbox(lists: seq<Offer>, storage: seq<Offer>, features: seq<Offer>, boot: seq<Offer>,
                       i: nat, o: Offer) returns (k: nat)
    requires Avoids(lists, o.path) && FirstAt(storage, i, o)
    ensures FirstAt(lists + storage + features + boot, k, o)
  {
    k := |lists| + i;
    FirstInRight(lists, storage, i, o);
    FirstInLeft(lists + storage, features, k, o);
    FirstInLeft(lists + storage + features, boot, k, o);
  }

  lemma FirstInPackage(first: Offer, config: seq<Offer>, sandbox: seq<Offer>, last: Offer, flat: seq<Offer>,
                       i: nat, o: Offer) returns (k: nat)
    requires first.path != o.path && Avoids(config, o.path) && FirstAt(sandbox, i, o)
    ensures FirstAt([first] + (config + sandbox) + [last] + flat, k, o)
  {
    k := 1 + (|config| + i);
    FirstInRight(config, sandbox, i, o);
    FirstInRight([first], config + sandbox, |config| + i, o);
    FirstInLeft([first] + (config + sandbox), [last], k, o);
    FirstInLeft([first] + (config + sandbox) + [last], flat, k, o);
  }

  /** What the storage features offer, and that each is the first for its path. */
  lemma StorageOffered(sb: Sandbox, env: Env)
    ensures "isolated-persistent-storage" in sb.features ==>
      FirstAt(StorageOffers(sb, env), 0, FromPath(env.dataPath, "/data"))
    ensures "deprecated-misc-storage" in sb.features && env.miscCreated ==>
      exists i :: FirstAt(StorageOffers(sb, env), i, FromPath("/data/misc", "/misc"))
    ensures "isolated-cache-storage" in sb.features ==>
      exists i :: FirstAt(StorageOffers(sb, env), i, FromPath(env.cachePath, "/cache"))
  {
    var a := When("isolated-persistent-storage" in sb.features, FromPath(env.dataPath, "/data"));
    var b := When("deprecated-misc-storage" in sb.features && env.miscCreated, FromPath("/data/misc", "/misc"));
    if "deprecated-misc-storage" in sb.features && env.miscCreated {
      assert FirstAt(StorageOffers(sb, env), |a|, FromPath("/data/misc", "/misc"));
    }
    if "isolated-cache-storage" in sb.features {
      assert FirstAt(StorageOffers(sb, env), |a + b|, FromPath(env.cachePath, "/cache"));
    }
  }

  /** With isolated storage that opens, "/data" is that storage, whatever the other features are. */
  lemma DataIsIsolated(open: Opens, pkg: nat, sb: Sandbox, pkgName: string, env: Env, svc: nat,
                       ns: Option<FlatNamespace>) returns (k: nat)
    requires "isolated-persistent-storage" in sb.features
    ensures var offers := PackageOffers(pkg, Some(sb), pkgName, env, svc, ns);
      && k < |offers| && offers[k] == FromPath(env.dataPath, "/data")
      && (open(k, env.dataPath).Some? ==> Find(Fold(open, offers).entries, "/data") == open(k, env.dataPath))
  {
    StorageOffered(sb, env);
    k := StorageIsFirst(pkg, sb, pkgName, env, svc, ns, 0, FromPath(env.dataPath, "/data"));
    if open(k, env.dataPath).Some? {
      FirstWins(open, PackageOffers(pkg, Some(sb), pkgName, env, svc, ns), k, FromPath(env.dataPath, "/data"));
    }
  }

  /** With isolated cache storage that opens, "/cache" is that storage. */
  lemma CacheIsIsolated(open: Opens, pkg: nat, sb: Sandbox, pkgName: string, env: Env, svc: nat,
                        ns: Option<FlatNamespace>) returns (k: nat)
    requires "isolated-cache-storage" in sb.features
    ensures var offers := PackageOffers(pkg, Some(sb), pkgName, env, svc, ns);
      && k < |offers| && offers[k] == FromPath(env.cachePath, "/cache")
      && (open(k, env.cachePath).Some? ==> Find(Fold(open, offers).entries, "/cache") == open(k, env.cachePath))
  {
    StorageOffered(sb, env);
    var i: nat :| FirstAt(StorageOffers(sb, env), i, FromPath(env.cachePath, "/cache"));
    k := StorageIsFirst(pkg, sb, pkgName, env, svc, ns, i, FromPath(env.cachePath, "/cache"));
    if open(k, env.cachePath).Some? {
      FirstWins(open, PackageOffers(pkg, Some(sb), pkgName, env, svc, ns), k, FromPath(env.cachePath, "/cache"));
    }
  }

  /** With miscellaneous storage that exists and opens, "/misc" is that storage. */
  lemma MiscIsShared(open: Opens, pkg: nat, sb: Sandbox, pkgName: string, env: Env, svc: nat,
                     ns: Option<FlatNamespace>) returns (k: nat)
    requires "deprecated-misc-storage" in sb.features && env.miscCreated
    ensures var offers := PackageOffers(pkg, Some(sb), pkgName, env, svc, ns);
      && k < |offers| && offers[k] == FromPath("/data/misc", "/misc")
      && (open(k, "/data/misc").Some? ==> Find(Fold(open, offers).entries, "/misc") == open(k, "/data/misc"))
  {
    StorageOffered(sb, env);
    var i: nat :| FirstAt(StorageOffers(sb, env), i, FromPath("/data/misc", "/misc"));
    k := StorageIsFirst(pkg, sb, pkgName, env, svc, ns, i, FromPath("/data/misc", "/misc"));
    if open(k, "/data/misc").Some? {
      FirstWins(open, PackageOffers(pkg, Some(sb), pkgName, env, svc, ns), k, FromPath("/data/misc", "/misc"));
    }
  }

  // ----- No storage unasked -----

  predicate LacksStorage(sb: Sandbox, path: string) {
    && IsStorage(path)
    && (path == "/data" ==> "isolated-persistent-storage" !in sb.features && "deprecated-shell" !in sb.features)
    && (path == "/misc" ==> "deprecated-misc-storage" !in sb.features)
    && (path == "/cache" ==> "isolated-cache-storage" !in sb.features)
  }

  lemma FeatureAvoids(feature: string, hub: nat, path: string)
    requires IsStorage(path) && (path == "/data" ==> feature != "deprecated-shell")
    ensures Avoids(FeatureOffer(feature, hub), path)
  {
    if feature == SHELL {
      assert Avoids(BEFORE_HUB, path);
      assert Avoids(AFTER_HUB, path);
    }
  }

  lemma {:induction false} FeaturesAvoid(features: seq<string>, hub: nat, path: string)
    requires IsStorage(path) && (path == "/data" ==> "deprecated-shell" !in features)
    ensures Avoids(Each(features, f => FeatureOffer(f, hub)), path)
  {
    if features != [] {
      var n := |features| - 1;
      FeaturesAvoid(features[..n], hub, path);
      FeatureAvoids(features[n], hub, path);
    }
  }

  /** A component that asks for none, is no shell and is passed none, has no such directory. */
  lemma NoStorageUnasked(open: Opens, pkg: nat, sb: Sandbox, pkgName: string, env: Env, svc: nat, path: string)
    requires LacksStorage(sb, path)
    ensures Find(Fold(open, PackageOffers(pkg, Some(sb), pkgName, env, svc, None)).entries, path).None?
  {
    SandboxListsAvoid(sb, path);
    FeaturesAvoid(sb.features, env.hub, path);
    ConfigAvoids(sb, pkgName, path);
    assert Avoids(StorageOffers(sb, env), path);
    var lists := Each(sb.dev, DevOffer) + Each(sb.system, SystemOffer) + Each(sb.pkgfs, PkgfsOffer);
    var features := Each(sb.features, f => FeatureOffer(f, env.hub));
    FourAvoid(lists, StorageOffers(sb, env), features, Each(sb.boot, BootOffer), path);
    FiveAvoid(FromChannel("/pkg", pkg, false), ConfigOffers(sb, pkgName), SandboxOffers(sb, env),
              FromChannel("/svc", svc, false), path);
    NotOfferedNotBound(open, PackageOffers(pkg, Some(sb), pkgName, env, svc, None), path);
  }

  lemma FourAvoid(a: seq<Offer>, b: seq<Offer>, c: seq<Offer>, d: seq<Offer>, path: string)
    requires Avoids(a, path) && Avoids(b, path) && Avoids(c, path) && Avoids(d, path)
    ensures Avoids(a + b + c + d, path)
  {
  }

  lemma FiveAvoid(first: Offer, config: seq<Offer>, sandbox: seq<Offer>, last: Offer, path: string)
    requires first.path != path && Avoids(config, path) && Avoids(sandbox, path) && last.path != path
    ensures Avoids([first] + (config + sandbox) + [last] + [], path)
  {
  }

  // ----- Channels -----

  /** A path that is offered, and only ever from one channel, is bound to that channel. */
  lemma OnlyChannel(open: Opens, offers: seq<Offer>, path: string, channel: nat, k: nat)
    requires k < |offers| && offers[k].path == path
    requires forall i | 0 <= i < |offers| && offers[i].path == path ::
      offers[i].FromChannel? && offers[i].channel == channel
    ensures Find(Fold(open, offers).entries, path) == Some(channel)
  {
    var first := FirstFor(offers, path, k);
    FirstWins(open, offers, first, offers[first]);
  }

  lemma {:induction false} FirstFor(offers: seq<Offer>, path: string, k: nat) returns (first: nat)
    requires k < |offers| && offers[k].path == path
    ensures first <= k && offers[first].path == path && FirstAt(offers, first, offers[first])
  {
    if i :| 0 <= i < k && offers[i].path == path {
      first := FirstFor(offers, path, i);
    } else {
      first := k;
    }
  }

  /** The package, the services and, for a shell, the hub are bound to their own channels. */
  lemma ChannelsAreBound(open: Opens, pkg: nat, sb: Sandbox, pkgName: string, env: Env, svc: nat,
                         ns: Option<FlatNamespace>)
    ensures var entries := Fold(open, PackageOffers(pkg, Some(sb), pkgName, env, svc, ns)).entries;
      && Find(entries, "/pkg") == Some(pkg) && Find(entries, "/svc") == Some(svc)
      && ("deprecated-shell" in sb.features ==> Find(entries, "/hub") == Some(env.hub))
  {
    var middle := Middle(Some(sb), pkgName, env);
    MiddleRegular(Some(sb), pkgName, env);
    SandboxMapsOntoItself(sb, env, pkgName);
    if "deprecated-shell" in sb.features { HubIsOffered(sb, env); }
    ChannelsOf(open, FromChannel("/pkg", pkg, false), middle, FromChannel("/svc", svc, false), FlatOffers(ns),
               env, pkgName);
  }

  lemma HubIsOffered(sb: Sandbox, env: Env)
    requires "deprecated-shell" in sb.features
    ensures FromChannel("/hub", env.hub, false) in SandboxOffers(sb, env)
  {
    assert ShellOffers(env.hub)[|BEFORE_HUB|] == FromChannel("/hub", env.hub, false);
    FeatureHas(sb, env, SHELL, FromChannel("/hub", env.hub, false));
  }

  lemma ChannelsOf(open: Opens, first: Offer, middle: seq<Offer>, last: Offer, flat: seq<Offer>, env: Env,
                   pkgName: string)
    requires first.FromChannel? && first.path == "/pkg" && last.FromChannel? && last.path == "/svc"
    requires Regular(middle) && AllMapped(middle, env, pkgName)
    ensures var entries := Fold(open, [first] + middle + [last] + flat).entries;
      && Find(entries, "/pkg") == Some(first.channel) && Find(entries, "/svc") == Some(last.channel)
      && (FromChannel("/hub", env.hub, false) in middle ==> Find(entries, "/hub") == Some(env.hub))
  {
    var before := [first] + middle + [last];
    OnlyChannel(open, before, "/pkg", first.channel, 0);
    OnlyChannel(open, before, "/svc", last.channel, 1 + |middle|);
    LaterOffersKeep(open, before, flat, "/pkg");
    LaterOffersKeep(open, before, flat, "/svc");
    if FromChannel("/hub", env.hub, false) in middle {
      HubOf(open, first, middle, last, env, pkgName);
      LaterOffersKeep(open, before, flat, "/hub");
    }
  }

  lemma HubOf(open: Opens, first: Offer, middle: seq<Offer>, last: Offer, env: Env, pkgName: string)
    requires first.path == "/pkg" && last.path == "/svc"
    requires AllMapped(middle, env, pkgName) && Regular(middle) && FromChannel("/hub", env.hub, false) in middle
    ensures Find(Fold(open, [first] + middle + [last]).entries, "/hub") == Some(env.hub)
  {
    var before := [first] + middle + [last];
    var k :| 0 <= k < |middle| && middle[k] == FromChannel("/hub", env.hub, false);
    assert before[1 + k] == middle[k];
    OnlyChannel(open, before, "/hub", env.hub, 1 + k);
  }

  // ----- A sandbox maps directories onto themselves -----

  /** The directories that a sandbox offers under another name. */
  predicate IsRenamed(o: Offer, env: Env, pkgName: string) {
    || o == FromPath(env.dataPath, "/data") || o == FromPath("/data/misc", "/misc")
    || o == FromPath(env.cachePath, "/cache")
    || o == FromPath("/pkgfs/packages/root_ssl_certificates/0/data", "/config/ssl")
    || o == FromPath("/pkgfs/packages/shell-commands/0/bin", "/bin")
    || o == FromPath("/pkgfs/packages/build-info/0/data", "/config/build-info")
    || o == FromPath("/pkgfs/packages/config-data/0/data/vulkan-icd/icd.d", "/config/vulkan/icd.d")
    || o == FromPath("/pkgfs/packages/config-data/0/data/" + pkgName, "/config/data")
  }

  predicate IsMapped(o: Offer, env: Env, pkgName: string) {
    o == FromChannel("/hub", env.hub, false) || (o.FromPath? && o.src == o.path) || IsRenamed(o, env, pkgName)
  }

  predicate AllMapped(offers: seq<Offer>, env: Env, pkgName: string) {
    forall i | 0 <= i < |offers| :: IsMapped(offers[i], env, pkgName)
  }

  lemma {:induction false} EachMapped(items: seq<string>, offer: string -> seq<Offer>, env: Env, pkgName: string)
    requires forall s {:trigger offer(s)} :: AllMapped(offer(s), env, pkgName)
    ensures AllMapped(Each(items, offer), env, pkgName)
  {
    if items != [] { EachMapped(items[..|items| - 1], offer, env, pkgName); }
  }

  lemma FeatureMapped(feature: string, env: Env, pkgName: string)
    ensures AllMapped(FeatureOffer(feature, env.hub), env, pkgName)
  {
    if feature == SHELL {
      assert AllMapped(BEFORE_HUB, env, pkgName);
      assert AllMapped(AFTER_HUB, env, pkgName);
    }
  }

  /** Every directory of a sandbox is the hub, is offered under its own name, or is one of the eight
      that have another name. */
  lemma SandboxMapsOntoItself(sb: Sandbox, env: Env, pkgName: string)
    ensures AllMapped(ConfigOffers(sb, pkgName) + SandboxOffers(sb, env), env, pkgName)
  {
    ListsMapped(sb, env, pkgName);
    FeaturesMapped(sb, env, pkgName);
    StorageMapped(sb, env, pkgName);
    SixMapped(Each(sb.dev, DevOffer), Each(sb.system, SystemOffer), Each(sb.pkgfs, PkgfsOffer),
              StorageOffers(sb, env), Each(sb.features, f => FeatureOffer(f, env.hub)), Each(sb.boot, BootOffer),
              env, pkgName);
    MappedAppend(ConfigOffers(sb, pkgName), SandboxOffers(sb, env), env, pkgName);
  }

  lemma ListsMapped(sb: Sandbox, env: Env, pkgName: string)
    ensures AllMapped(Each(sb.dev, DevOffer), env, pkgName) && AllMapped(Each(sb.system, SystemOffer), env, pkgName)
    ensures AllMapped(Each(sb.pkgfs, PkgfsOffer), env, pkgName) && AllMapped(Each(sb.boot, BootOffer), env, pkgName)
  {
    EachMapped(sb.dev, DevOffer, env, pkgName);
    EachMapped(sb.system, SystemOffer, env, pkgName);
    EachMapped(sb.pkgfs, PkgfsOffer, env, pkgName);
    EachMapped(sb.boot, BootOffer, env, pkgName);
  }

  lemma FeaturesMapped(sb: Sandbox, env: Env, pkgName: string)
    ensures AllMapped(Each(sb.features, f => FeatureOffer(f, env.hub)), env, pkgName)
    ensures AllMapped(ConfigOffers(sb, pkgName), env, pkgName)
  {
    forall f { FeatureMapped(f, env, pkgName); }
    EachMapped(sb.features, f => FeatureOffer(f, env.hub), env, pkgName);
    EachMapped(sb.features, f => ConfigOffer(f, pkgName), env, pkgName);
  }

  lemma StorageMapped(sb: Sandbox, env: Env, pkgName: string)
    ensures AllMapped(StorageOffers(sb, env), env, pkgName)
  {
  }

  lemma MappedAppend(a: seq<Offer>, b: seq<Offer>, env: Env, pkgName: string)
    requires AllMapped(a, env, pkgName) && AllMapped(b, env, pkgName)
    ensures AllMapped(a + b, env, pkgName)
  {
  }

  lemma SixMapped(a: seq<Offer>, b: seq<Offer>, c: seq<Offer>, d: seq<Offer>, e: seq<Offer>, f: seq<Offer>,
                  env: Env, pkgName: string)
    requires AllMapped(a, env, pkgName) && AllMapped(b, env, pkgName) && AllMapped(c, env, pkgName)
    requires AllMapped(d, env, pkgName) && AllMapped(e, env, pkgName) && AllMapped(f, env, pkgName)
    ensures AllMapped(a + b + c + d + e + f, env, pkgName)
  {
    MappedAppend(a, b, env, pkgName);
    MappedAppend(a + b, c, env, pkgName);
    MappedAppend(a + b + c, d, env, pkgName);
    MappedAppend(a + b + c + d, e, env, pkgName);
    MappedAppend(a + b + c + d + e, f, env, pkgName);
  }

  // ----- What a sandbox lists is offered -----

  /** An offer that opens binds its path. */
  lemma OfferedIsBound(open: Opens, offers: seq<Offer>, k: nat)
    requires k < |offers| && Source(open, k, offers[k]).Some?
    ensures Find(Fold(open, offers).entries, offers[k].path).Some?
  {
    UnboundHasNoSource(open, offers, offers[k].path);
  }

  lemma {:induction false} EachHas(items: seq<string>, offer: string -> seq<Offer>, item: string, o: Offer)
    requires item in items && o in offer(item)
    ensures o in Each(items, offer)
  {
    var n := |items| - 1;
    if item != items[n] {
      assert items == items[..n] + [items[n]];
      EachHas(items[..n], offer, item, o);
    }
  }

  /** Every path listed is offered, except all of "/dev/class"; "deprecated-data" means "/system/data". */
  lemma ListedIsOffered(sb: Sandbox, env: Env, path: string)
    ensures path in sb.dev && path != "class" ==> FromPath("/dev/" + path, "/dev/" + path) in SandboxOffers(sb, env)
    ensures path in sb.pkgfs ==> FromPath("/pkgfs/" + path, "/pkgfs/" + path) in SandboxOffers(sb, env)
    ensures path in sb.boot ==> FromPath("/boot/" + path, "/boot/" + path) in SandboxOffers(sb, env)
    ensures path in sb.system && !("deprecated-data" <= path) ==>
      FromPath("/system/" + path, "/system/" + path) in SandboxOffers(sb, env)
    ensures "deprecated-data" in sb.system ==> FromPath("/system/data", "/system/data") in SandboxOffers(sb, env)
    ensures "deprecated-data" + ("/" + path) in sb.system ==>
      FromPath("/system/data" + ("/" + path), "/system/data" + ("/" + path)) in SandboxOffers(sb, env)
  {
    if path in sb.dev && path != "class" { EachHas(sb.dev, DevOffer, path, Same("/dev/" + path)); }
    if path in sb.pkgfs { EachHas(sb.pkgfs, PkgfsOffer, path, Same("/pkgfs/" + path)); }
    if path in sb.boot { EachHas(sb.boot, BootOffer, path, Same("/boot/" + path)); }
    SystemOfferIs(path);
    if path in sb.system && !(DEPRECATED_DATA <= path) {
      EachHas(sb.system, SystemOffer, path, Same("/system/" + path));
    }
    if DEPRECATED_DATA in sb.system { EachHas(sb.system, SystemOffer, DEPRECATED_DATA, Same("/system/data")); }
    var inside := DEPRECATED_DATA + ("/" + path);
    if inside in sb.system { EachHas(sb.system, SystemOffer, inside, Same("/system/data" + ("/" + path))); }
  }

  lemma SystemOfferIs(path: string)
    ensures !(DEPRECATED_DATA <= path) ==> SystemOffer(path) == [Same("/system/" + path)]
    ensures SystemOffer(DEPRECATED_DATA) == [Same("/system/data")]
    ensures SystemOffer(DEPRECATED_DATA + ("/" + path)) == [Same("/system/data" + ("/" + path))]
  {
    LongerPrefix(DEPRECATED_DATA, "/", path);
    assert "/system/data" + DEPRECATED_DATA[|DEPRECATED_DATA|..] == "/system/data";
    var inside := DEPRECATED_DATA + ("/" + path);
    assert inside == DEPRECATED_DATA + "/" + path;
    assert inside[|DEPRECATED_DATA|..] == "/" + path;
  }

  lemma LongerPrefix(a: string, b: string, s: string)
    ensures a + b <= s ==> a <= s
  {
    assert a <= a + b;
  }

  /** Every feature that stands for a directory is offered. */
  lemma FeatureIsOffered(sb: Sandbox, env: Env, pkgName: string)
    ensures var offers := ConfigOffers(sb, pkgName) + SandboxOffers(sb, env);
      && ("system-temp" in sb.features ==> FromPath("/tmp", "/tmp") in offers)
      && ("build-info" in sb.features ==> FromPath("/pkgfs/packages/build-info/0/data", "/config/build-info") in offers)
      && ("root-ssl-certificates" in sb.features || "deprecated-shell" in sb.features ==>
           FromPath("/pkgfs/packages/root_ssl_certificates/0/data", "/config/ssl") in offers)
      && ("shell-commands" in sb.features || "deprecated-shell" in sb.features ==>
           FromPath("/pkgfs/packages/shell-commands/0/bin", "/bin") in offers)
      && ("vulkan" in sb.features ==> FromPath("/dev/class/gpu", "/dev/class/gpu") in offers)
      && ("vulkan" in sb.features ==>
           FromPath("/pkgfs/packages/config-data/0/data/vulkan-icd/icd.d", "/config/vulkan/icd.d") in offers)
      && ("config-data" in sb.features ==>
           FromPath("/pkgfs/packages/config-data/0/data/" + pkgName, "/config/data") in offers)
  {
    FeatureHas(sb, env, "system-temp", Same("/tmp"));
    FeatureHas(sb, env, "build-info", FromPath("/pkgfs/packages/build-info/0/data", "/config/build-info"));
    FeatureHas(sb, env, "root-ssl-certificates",
               FromPath("/pkgfs/packages/root_ssl_certificates/0/data", "/config/ssl"));
    FeatureHas(sb, env, "shell-commands", FromPath("/pkgfs/packages/shell-commands/0/bin", "/bin"));
    assert VULKAN[3] == Same("/dev/class/gpu") && BEFORE_HUB[0].path == "/config/ssl" && BEFORE_HUB[1].path == "/bin";
    FeatureHas(sb, env, "vulkan", VULKAN[3]);
    FeatureHas(sb, env, "vulkan", VULKAN[4]);
    FeatureHas(sb, env, SHELL, BEFORE_HUB[0]);
    FeatureHas(sb, env, SHELL, BEFORE_HUB[1]);
    if "config-data" in sb.features {
      EachHas(sb.features, f => ConfigOffer(f, pkgName), "config-data",
              FromPath("/pkgfs/packages/config-data/0/data/" + pkgName, "/config/data"));
    }
  }

  lemma FeatureHas(sb: Sandbox, env: Env, feature: string, o: Offer)
    requires o in FeatureOffer(feature, env.hub)
    ensures feature in sb.features ==> o in SandboxOffers(sb, env)
  {
    if feature in sb.features { EachHas(sb.features, f => FeatureOffer(f, env.hub), feature, o); }
  }
}
