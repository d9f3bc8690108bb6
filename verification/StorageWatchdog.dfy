/** Cache purging in appmgr: the recursive walk of storage_watchdog.cc, and the directory
    names of realm.cc that make the walk remove component caches and nothing else. */
module StorageWatchdog {

  /** The components of an absolute path. */
  type Path = seq<string>

  datatype Kind = File | Directory

  type Nodes = map<Path, Kind>

  // ----- What a purge removes -----

  /** A path below a realm's cache directory lies strictly inside a component's
      directory, of that realm or of a realm nested in it. */
  predicate InsideComponent(rest: Path)
    decreases |rest|
  {
    |rest| >= 2 && (rest[0] == "r" ==> InsideComponent(rest[2..]))
  }

  predicate Purgeable(dir: Path, q: Path) {
    dir <= q && InsideComponent(q[|dir|..])
  }

  function Purged(nodes: Nodes, dir: Path): Nodes {
    map q | q in nodes && !Purgeable(dir, q) :: nodes[q]
  }

  lemma PurgeableStep(dir: Path, q: Path)
    requires dir <= q
    ensures Purgeable(dir, q) <==>
      && |q| >= |dir| + 2
      && (q[|dir|] == "r" ==> Purgeable(dir + ["r", q[|dir| + 1]], q))
  {
    if |q| >= |dir| + 2 && q[|dir|] == "r" {
      assert q[|dir|..][2..] == q[|dir| + 2..];
      assert dir + ["r", q[|dir| + 1]] == q[..|dir| + 2];
    }
  }

  // ----- The walk -----

  /** An entry has a real name and sits in a directory. */
  predicate HasParent(nodes: Nodes, q: Path) {
    q == [] || (q[|q| - 1] != "." && q[..|q| - 1] in nodes && nodes[q[..|q| - 1]] == Directory)
  }

  ghost predicate WellFormed(nodes: Nodes) {
    forall q {:trigger HasParent(nodes, q)} | q in nodes :: HasParent(nodes, q)
  }

  function Children(nodes: Nodes, dir: Path): set<string> {
    set q | q in nodes && |q| == |dir| + 1 && dir <= q :: q[|dir|]
  }

  ghost predicate Kept(before: Nodes, after: Nodes) {
    forall q | q in after :: q in before && after[q] == before[q]
  }

  lemma {:induction false} AncestorsExist(nodes: Nodes, q: Path, n: nat)
    requires WellFormed(nodes) && q in nodes && n <= |q|
    ensures q[..n] in nodes && (n < |q| ==> nodes[q[..n]] == Directory)
    decreases |q|
  {
    if n < |q| {
      assert HasParent(nodes, q);
      AncestorsExist(nodes, q[..|q| - 1], n);
      assert q[..|q| - 1][..n] == q[..n];
    } else {
      assert q[..n] == q;
    }
  }

  lemma ListsChild(nodes: Nodes, dir: Path)
    ensures forall q | q in nodes && q != [] && q[..|q| - 1] == dir :: q[|dir|] in Children(nodes, dir)
  {
  }

  /** What is below a path has a child of that path above it. */
  lemma OnlyDirectoriesHaveContents(nodes: Nodes, path: Path)
    requires WellFormed(nodes)
    ensures forall q | q in nodes && path < q :: path in nodes && nodes[path] == Directory
  {
    forall q | q in nodes && path < q ensures path in nodes && nodes[path] == Directory {
      AncestorsExist(nodes, q, |path|);
      assert q[..|path|] == path;
    }
  }

  lemma Below(dir: Path, name: string, q: Path)
    requires dir < q
    ensures dir + [name] <= q <==> q[|dir|] == name
  {
    if q[|dir|] == name { assert dir + [name] == q[..|dir| + 1]; }
  }

  /** The state of a purge of `root` that is listing `base`, with `names` still to visit. */
  ghost predicate Walk(before: Nodes, now: Nodes, root: Path, base: Path, names: set<string>, clean: bool) {
    && Kept(before, now)
    && (forall q | q in before && q !in now :: base < q && Purgeable(root, q))
    && (forall n | n in names && n != "." :: base + [n] in now)
    && (clean ==> forall q | q in now && base < q && Purgeable(root, q) :: q[|base|] in names && q[|base|] != ".")
  }

  lemma StartWalk(nodes: Nodes, root: Path, base: Path, names: set<string>, clean: bool)
    requires WellFormed(nodes)
    requires forall n | n in names && n != "." :: base + [n] in nodes
    requires forall q | q in nodes && base < q && q[..|base| + 1] in nodes :: q[|base|] in names
    ensures Walk(nodes, nodes, root, base, names, clean)
  {
    forall q | q in nodes && base < q ensures q[|base|] in names && q[|base|] != "." {
      AncestorsExist(nodes, q, |base| + 1);
      assert HasParent(nodes, q[..|base| + 1]);
    }
  }

  /** Visiting one name, which removes only what is purgeable below it. */
  lemma WalkOn(before: Nodes, now: Nodes, after: Nodes, root: Path, base: Path, names: set<string>, name: string,
               clean: bool)
    requires Walk(before, now, root, base, names, clean) && Kept(now, after)
    requires forall q | q in now && q !in after :: base + [name] < q && Purgeable(root, q)
    requires clean && name != "." ==> forall q | q in after && base + [name] <= q :: !Purgeable(root, q)
    ensures Walk(before, after, root, base, names - {name}, clean)
  {
    forall n | n in names && n != "." && n != name ensures base + [n] in after {
      assert base + [n] in now;
    }
    if clean {
      forall q | q in after && base < q && Purgeable(root, q) ensures q[|base|] in names - {name} && q[|base|] != "." {
        Below(base, name, q);
      }
    }
  }

  /** The state of deleting all entries of `dir`, with `names` still to visit. */
  ghost predicate Emptying(before: Nodes, now: Nodes, dir: Path, names: set<string>, clean: bool) {
    && Kept(before, now)
    && (forall q | q in before && q !in now :: dir < q)
    && (forall n | n in names && n != "." :: dir + [n] in now)
    && (clean ==> forall q | q in now && dir < q :: q[|dir|] in names && q[|dir|] != ".")
  }

  lemma StartEmptying(nodes: Nodes, dir: Path, names: set<string>, clean: bool)
    requires WellFormed(nodes)
    requires forall n | n in names && n != "." :: dir + [n] in nodes
    requires forall q | q in nodes && dir < q && q[..|dir| + 1] in nodes :: q[|dir|] in names
    ensures Emptying(nodes, nodes, dir, names, clean)
  {
    forall q | q in nodes && dir < q ensures q[|dir|] in names && q[|dir|] != "." {
      AncestorsExist(nodes, q, |dir| + 1);
      assert HasParent(nodes, q[..|dir| + 1]);
    }
  }

  /** Deleting one entry with all it holds. */
  lemma EmptyingOn(before: Nodes, now: Nodes, after: Nodes, dir: Path, names: set<string>, name: string, clean: bool)
    requires Emptying(before, now, dir, names, clean) && Kept(now, after)
    requires forall q | q in now && q !in after :: dir + [name] <= q
    requires clean && name != "." ==> forall q | q in after :: !(dir + [name] <= q)
    ensures Emptying(before, after, dir, names - {name}, clean)
  {
    forall n | n in names && n != "." && n != name ensures dir + [n] in after {
      assert dir + [n] in now;
      Below(dir, name, dir + [n]);
    }
    forall q | q in before && q !in after ensures dir < q {
      if q in now { assert dir + [name] <= q; }
    }
    if clean {
      forall q | q in after && dir < q ensures q[|dir|] in names - {name} && q[|dir|] != "." {
        Below(dir, name, q);
      }
    }
  }

  /** Everything strictly inside a component directory is purgeable. */
  lemma ComponentContents(dir: Path, name: string)
    requires name != "r"
    ensures forall q | dir + [name] < q :: Purgeable(dir, q)
    ensures !Purgeable(dir, dir + [name])
  {
    forall q | dir + [name] <= q ensures Purgeable(dir, q) <==> dir + [name] < q {
      PurgeableStep(dir, q);
    }
  }

  lemma NameIsNotPurgeable(dir: Path, name: string)
    ensures !Purgeable(dir, dir + [name])
  {
    assert (dir + [name])[|dir|..] == [name];
  }

  /** Inside a nested realm, purging means purging that realm's directory. */
  lemma RealmContents(dir: Path, realm: string)
    ensures forall q | dir + ["r"] + [realm] <= q :: Purgeable(dir, q) <==> Purgeable(dir + ["r"] + [realm], q)
  {
    forall q | dir + ["r"] + [realm] <= q ensures Purgeable(dir, q) <==> Purgeable(dir + ["r"] + [realm], q) {
      PurgeableStep(dir, q);
      assert dir + ["r"] + [realm] == dir + ["r", realm];
      assert q[|dir|] == "r" && q[|dir| + 1] == realm;
    }
  }

  /** The file system as a table of paths.  Whether the n-th openat or unlinkat fails, and on
      which paths, is up to `fails`; readdir lists "." and the children in any order. */
  class FileSystem {
    var nodes: Nodes
    var operations: nat
    const fails: (nat, Path) -> bool

    /** No operation fails. */
    ghost predicate Reliable() {
      forall n: nat, path: Path :: !fails(n, path)
    }

    /** Counts an operation and says whether it fails. */
    method Attempt(path: Path) returns (failed: bool)
      modifies this`operations
      ensures failed == fails(old(operations), path) && operations == old(operations) + 1
    {
      failed := fails(operations, path);
      operations := operations + 1;
    }

    ghost predicate Valid(depth: nat)
      reads this
    {
      WellFormed(nodes) && forall q | q in nodes :: |q| <= depth
    }

    method ReadDir(dir: Path) returns (names: set<string>)
      ensures names == Children(nodes, dir) + {"."}
      ensures forall n | n in names && n != "." :: dir + [n] in nodes
      ensures forall q | q in nodes && dir < q && q[..|dir| + 1] in nodes :: q[|dir|] in names
    {
      names := Children(nodes, dir) + {"."};
      forall n | n in names && n != "." ensures dir + [n] in nodes {
        var q :| q in nodes && |q| == |dir| + 1 && dir <= q && q[|dir|] == n;
        assert q == dir + [n];
      }
    }

    /** unlinkat: a directory must be empty. */
    method Unlink(path: Path, ghost depth: nat)
      requires Valid(depth) && path in nodes
      requires path != []
      modifies this
      ensures Valid(depth)
      ensures nodes == if fails(old(operations), path) || Children(old(nodes), path) != {} then old(nodes)
                       else old(nodes) - {path}
    {
      var failed := Attempt(path);
      if !failed && Children(nodes, path) == {} {
        ListsChild(nodes, path);
        forall q | q in nodes - {path} ensures HasParent(nodes - {path}, q) { assert HasParent(nodes, q); }
        nodes := nodes - {path};
      }
    }

    /** The loop that deletes every entry of a directory. */
    method EmptyDirectory(dir: Path, ghost depth: nat)
      requires Valid(depth) && dir in nodes
      modifies this
      ensures Valid(depth) && dir in nodes && Kept(old(nodes), nodes)
      ensures forall q | q in old(nodes) && q !in nodes :: dir < q
      ensures Reliable() ==> forall q | q in nodes :: !(dir < q)
      decreases depth - |dir|, 0
    {
      var names := ReadDir(dir);
      StartEmptying(nodes, dir, names, Reliable());
      while names != {}
        invariant Valid(depth) && dir in nodes && Emptying(old(nodes), nodes, dir, names, Reliable())
        decreases |names|
      {
        var name :| name in names;
        ghost var before := nodes;
        if name != "." { DeleteDirentInFd(dir + [name], depth); }
        EmptyingOn(old(nodes), before, nodes, dir, names, name, Reliable());
        names := names - {name};
      }
    }

    /** DeleteDirentInFd: removes one entry, a directory with everything in it. */
    method DeleteDirentInFd(path: Path, ghost depth: nat)
      requires Valid(depth) && path in nodes && path != []
      modifies this
      ensures Valid(depth) && Kept(old(nodes), nodes)
      ensures forall q | q in old(nodes) && q !in nodes :: path <= q
      ensures Reliable() ==> forall q | q in nodes :: !(path <= q)
      decreases depth - |path|, 1
    {
      OnlyDirectoriesHaveContents(nodes, path);
      if nodes[path] == Directory {
        var failed := Attempt(path);
        if failed { return; }
        EmptyDirectory(path, depth);
      }
      assert Reliable() ==> forall q | q in nodes && path <= q :: q == path;
      Unlink(path, depth);
    }

    /** PurgeCacheIn: empties the component directories of `dir` and of the realms below. */
    method PurgeCacheIn(dir: Path, ghost depth: nat)
      requires Valid(depth) && dir in nodes
      modifies this
      ensures Valid(depth) && Kept(old(nodes), nodes)
      ensures forall q | q in old(nodes) && q !in nodes :: Purgeable(dir, q)
      ensures Reliable() ==> nodes == Purged(old(nodes), dir)
      decreases depth - |dir|, 2
    {
      var names := ReadDir(dir);
      StartWalk(nodes, dir, dir, names, Reliable());
      while names != {}
        invariant Valid(depth) && Walk(old(nodes), nodes, dir, dir, names, Reliable())
        decreases |names|
      {
        var name :| name in names;
        ghost var before := nodes;
        if name != "." { PurgeEntry(dir, name, depth); }
        WalkOn(old(nodes), before, nodes, dir, dir, names, name, Reliable());
        names := names - {name};
      }
    }

    /** One entry of the outer loop: the realms nested in `dir`, or the contents of a component. */
    method PurgeEntry(dir: Path, name: string, ghost depth: nat)
      requires Valid(depth) && dir + [name] in nodes
      modifies this
      ensures Valid(depth) && Kept(old(nodes), nodes)
      ensures forall q | q in old(nodes) && q !in nodes :: dir + [name] < q && Purgeable(dir, q)
      ensures Reliable() ==> forall q | q in nodes && dir + [name] <= q :: !Purgeable(dir, q)
      decreases depth - |dir|, 1
    {
      OnlyDirectoriesHaveContents(nodes, dir + [name]);
      NameIsNotPurgeable(dir, name);
      var failed := Attempt(dir + [name]);
      if failed || nodes[dir + [name]] != Directory {
      } else if name == "r" {
        PurgeRealmsIn(dir, depth);
      } else {
        EmptyDirectory(dir + [name], depth);
        ComponentContents(dir, name);
      }
    }

    /** The inner loop of PurgeCacheIn over the realms nested in `dir`. */
    method PurgeRealmsIn(dir: Path, ghost depth: nat)
      requires Valid(depth) && dir + ["r"] in nodes
      modifies this
      ensures Valid(depth) && Kept(old(nodes), nodes)
      ensures forall q | q in old(nodes) && q !in nodes :: dir + ["r"] < q && Purgeable(dir, q)
      ensures Reliable() ==> forall q | q in nodes && dir + ["r"] < q :: !Purgeable(dir, q)
      decreases depth - |dir|, 0
    {
      var rdir := dir + ["r"];
      var names := ReadDir(rdir);
      StartWalk(nodes, dir, rdir, names, Reliable());
      while names != {}
        invariant Valid(depth) && Walk(old(nodes), nodes, dir, rdir, names, Reliable())
        decreases |names|
      {
        var name :| name in names;
        ghost var before := nodes;
        OnlyDirectoriesHaveContents(nodes, rdir + [name]);
        RealmContents(dir, name);
        if name != "." {
          var failed := Attempt(rdir + [name]);
          if !failed && nodes[rdir + [name]] == Directory { PurgeCacheIn(rdir + [name], depth); }
        }
        WalkOn(old(nodes), before, nodes, dir, rdir, names, name, Reliable());
        names := names - {name};
      }
    }

    /** Without failures, a second purge right after the first removes nothing. */
    method PurgeTwice(dir: Path, ghost depth: nat) returns (ghost once: Nodes)
      requires Valid(depth) && dir in nodes && Reliable()
      modifies this
      ensures Valid(depth) && once == Purged(old(nodes), dir) && nodes == once
    {
      PurgeCacheIn(dir, depth);
      once := nodes;
      PurgeIsIdempotent(old(nodes), dir);
      PurgeCacheIn(dir, depth);
    }

    /** StorageWatchdog::PurgeCache on the directory `clean`, if it exists. */
    method PurgeCache(clean: string, ghost depth: nat)
      requires Valid(depth)
      modifies this
      ensures Valid(depth) && Kept(old(nodes), nodes)
      ensures forall q | q in old(nodes) && q !in nodes :: Purgeable(Split(clean), q)
      ensures Reliable() && Split(clean) in old(nodes) ==> nodes == Purged(old(nodes), Split(clean))
    {
      var failed := Attempt(Split(clean));
      if !failed && Split(clean) in nodes {
        PurgeCacheIn(Split(clean), depth);
      }
    }
  }

  // ----- The names chosen by realm.cc -----

  function FirstSlash(s: string): (n: nat)
    ensures n <= |s| && (n < |s| ==> s[n] == '/') && '/' !in s[..n]
  {
    if s == "" || s[0] == '/' then 0 else 1 + FirstSlash(s[1..])
  }

  /** The components of a path string. */
  function Split(s: string): Path
    decreases |s|
  {
    if s == "" then []
    else if s[0] == '/' then Split(s[1..])
    else [s[..FirstSlash(s)]] + Split(s[FirstSlash(s)..])
  }

  function JoinPath(a: string, b: string): string { a + "/" + b }

  predicate LabelChar(c: char) {
    '0' <= c <= '9' || 'a' <= c <= 'z' || 'A' <= c <= 'Z' || c in ".-_:#"
  }

  predicate IsValidEnvironmentLabel(name: string) {
    name != "" && (forall c | c in name :: LabelChar(c)) && name != "." && name != ".."
  }

  /** The parsed component URL; the parser leaves no '/' in the first three parts. */
  datatype PkgUrl = PkgUrl(host: string, package: string, variant: string, resource: string)

  predicate Parsed(fp: PkgUrl) { '/' !in fp.host && '/' !in fp.package && '/' !in fp.variant }

  function ColonForSlash(s: string): (r: string)
    ensures |r| == |s| && forall i | 0 <= i < |s| :: r[i] == if s[i] == '/' then ':' else s[i]
  {
    seq(|s|, i requires 0 <= i < |s| => if s[i] == '/' then ':' else s[i])
  }

  function StableComponentID(fp: PkgUrl): string {
    var resource := if fp.resource == "" then "meta/" + fp.package + ".cmx" else fp.resource;
    fp.host + ":" + fp.package + ":" + fp.variant + "#" + ColonForSlash(resource)
  }

  function IsolatedPathForPackage(prefix: string, fp: PkgUrl): string {
    JoinPath(prefix, StableComponentID(fp))
  }

  /** The storage path of a realm, given the labels from the root realm down to it. */
  function RealmPath(root: string, labels: seq<string>): string {
    if labels == [] then root
    else JoinPath(RealmPath(root, labels[..|labels| - 1]), "r/" + labels[|labels| - 1])
  }

  function RealmComponents(labels: seq<string>): Path {
    if labels == [] then []
    else RealmComponents(labels[..|labels| - 1]) + ["r", labels[|labels| - 1]]
  }

  lemma {:induction false} FirstSlashOf(a: string, b: string)
    requires '/' !in a
    ensures FirstSlash(a + "/" + b) == |a|
  {
    if a != "" {
      assert (a + "/" + b)[1..] == a[1..] + "/" + b;
      FirstSlashOf(a[1..], b);
    }
  }

  lemma FirstSlashJoin(a: string, b: string)
    ensures FirstSlash(a + "/" + b) == FirstSlash(a)
  {
    var n := FirstSlash(a);
    if n < |a| {
      assert a == a[..n] + "/" + a[n + 1..];
      assert a + "/" + b == a[..n] + "/" + (a[n + 1..] + "/" + b);
      FirstSlashOf(a[..n], a[n + 1..] + "/" + b);
    } else {
      FirstSlashOf(a, b);
    }
  }

  lemma {:induction false} SplitJoin(a: string, b: string)
    ensures Split(JoinPath(a, b)) == Split(a) + Split(b)
    decreases |a|
  {
    var s := a + "/" + b;
    if a == "" {
      assert s[1..] == b;
    } else if a[0] == '/' {
      assert s[1..] == JoinPath(a[1..], b);
      SplitJoin(a[1..], b);
    } else {
      var n := FirstSlash(a);
      FirstSlashJoin(a, b);
      assert s[..n] == a[..n] && s[n..] == JoinPath(a[n..], b);
      SplitJoin(a[n..], b);
    }
  }

  lemma SplitName(name: string)
    requires name != "" && '/' !in name
    ensures Split(name) == [name]
  {
    assert FirstSlash(name) == |name|;
    assert name[..|name|] == name;
  }

  lemma {:induction false} SplitRealmPath(root: string, labels: seq<string>)
    requires forall l | l in labels :: IsValidEnvironmentLabel(l)
    ensures Split(RealmPath(root, labels)) == Split(root) + RealmComponents(labels)
  {
    if labels != [] {
      var l := labels[|labels| - 1];
      assert l in labels && IsValidEnvironmentLabel(l);
      SplitRealmPath(root, labels[..|labels| - 1]);
      SplitLabel(RealmPath(root, labels[..|labels| - 1]), l);
    }
  }

  lemma SplitLabel(path: string, l: string)
    requires IsValidEnvironmentLabel(l)
    ensures Split(JoinPath(path, "r/" + l)) == Split(path) + ["r", l]
  {
    assert JoinPath("r", l) == "r/" + l;
    assert !LabelChar('/');
    SplitTwoNames(path, "r", l);
  }

  lemma SplitTwoNames(path: string, a: string, b: string)
    requires a != "" && '/' !in a && b != "" && '/' !in b
    ensures Split(JoinPath(path, JoinPath(a, b))) == Split(path) + [a, b]
  {
    SplitJoin(path, JoinPath(a, b));
    SplitJoin(a, b);
    SplitName(a);
    SplitName(b);
    assert [a] + [b] == [a, b];
  }

  // ----- Who shares storage -----

  /** The resource path that counts: the given one, or the default of the package. */
  function ResourceOf(fp: PkgUrl): string {
    if fp.resource == "" then "meta/" + fp.package + ".cmx" else fp.resource
  }

  predicate NoMarks(s: string) { ':' !in s && '#' !in s }

  lemma MarkBefore(a: string, b: string, mark: char, c: string, d: string)
    requires |a| < |c| && a + [mark] + b == c + [mark] + d
    ensures mark in c
  {
    assert c[|a|] == (c + [mark] + d)[|a|] == (a + [mark] + b)[|a|] == mark;
  }

  /** Two strings cut at a mark that does not occur before it. */
  lemma CutAt(a: string, b: string, mark: char, c: string, d: string)
    requires mark !in a && mark !in c && a + [mark] + b == c + [mark] + d
    ensures a == c && b == d
  {
    if |a| < |c| {
      MarkBefore(a, b, mark, c, d);
    } else if |c| < |a| {
      MarkBefore(c, d, mark, a, b);
    } else {
      var s := a + [mark] + b;
      assert a == s[..|a|] == c && b == s[|a| + 1..] == d;
    }
  }

  /** Two components share their storage if and only if host, package and variant are the same and so are
      their resource paths with ':' for '/'. */
  lemma SharedStorageIff(x: PkgUrl, y: PkgUrl)
    requires NoMarks(x.host) && NoMarks(x.package) && NoMarks(x.variant)
    requires NoMarks(y.host) && NoMarks(y.package) && NoMarks(y.variant)
    ensures StableComponentID(x) == StableComponentID(y) <==>
      && x.host == y.host && x.package == y.package && x.variant == y.variant
      && ColonForSlash(ResourceOf(x)) == ColonForSlash(ResourceOf(y))
  {
    var rx, ry := ColonForSlash(ResourceOf(x)), ColonForSlash(ResourceOf(y));
    IdParts(x);
    IdParts(y);
    if StableComponentID(x) == StableComponentID(y) {
      var vx, vy := x.variant + ['#'] + rx, y.variant + ['#'] + ry;
      CutAt(x.host, x.package + [':'] + vx, ':', y.host, y.package + [':'] + vy);
      CutAt(x.package, vx, ':', y.package, vy);
      CutAt(x.variant, rx, '#', y.variant, ry);
    }
  }

  lemma IdParts(x: PkgUrl)
    ensures StableComponentID(x) ==
      x.host + [':'] + (x.package + [':'] + (x.variant + ['#'] + ColonForSlash(ResourceOf(x))))
  {
  }

  /** It does happen: the resources "a/b" and "a:b" of a package share storage. */
  lemma SlashAndColonCollide(host: string, package: string, variant: string)
    ensures StableComponentID(PkgUrl(host, package, variant, "a/b"))
         == StableComponentID(PkgUrl(host, package, variant, "a:b"))
  {
    assert ColonForSlash("a/b") == ColonForSlash("a:b");
  }

  /** Component ids are single path components, never "r", "." or "..", nor any name without ':'. */
  lemma ComponentIdIsAName(fp: PkgUrl)
    requires Parsed(fp)
    ensures '/' !in StableComponentID(fp) && ':' in StableComponentID(fp) && '#' in StableComponentID(fp)
    ensures Split(StableComponentID(fp)) == [StableComponentID(fp)]
  {
    var resource := if fp.resource == "" then "meta/" + fp.package + ".cmx" else fp.resource;
    var id := StableComponentID(fp);
    assert '/' !in ColonForSlash(resource);
    assert id[|fp.host|] == ':' && id[|fp.host| + 1 + |fp.package| + 1 + |fp.variant|] == '#';
    SplitName(id);
  }

  lemma SplitIsolatedPath(root: string, labels: seq<string>, fp: PkgUrl)
    requires (forall l | l in labels :: IsValidEnvironmentLabel(l)) && Parsed(fp)
    ensures Split(IsolatedPathForPackage(RealmPath(root, labels), fp))
         == Split(root) + RealmComponents(labels) + [StableComponentID(fp)]
    ensures StableComponentID(fp) != "r" && StableComponentID(fp) != "cache"
  {
    SplitRealmPath(root, labels);
    SplitJoin(RealmPath(root, labels), StableComponentID(fp));
    ComponentIdIsAName(fp);
  }

  /** Below a realm's directory, the realm's own labels do not matter to the purge. */
  lemma {:induction false} PurgeableBelowRealm(dir: Path, labels: seq<string>, rest: Path)
    ensures Purgeable(dir, dir + RealmComponents(labels) + rest) <==> InsideComponent(rest)
    decreases |labels|
  {
    if labels == [] {
      assert dir + RealmComponents(labels) + rest == dir + rest;
      assert (dir + rest)[|dir|..] == rest;
    } else {
      var l := labels[|labels| - 1];
      var rest' := ["r", l] + rest;
      PurgeableBelowRealm(dir, labels[..|labels| - 1], rest');
      assert dir + RealmComponents(labels) + rest == dir + RealmComponents(labels[..|labels| - 1]) + rest';
      assert rest'[2..] == rest;
    }
  }

  // ----- What the purge does to the directories of realms and components -----

  /** Below a component's cache directory everything is purged, the directory itself is not. */
  lemma CacheIsPurgeable(root: string, labels: seq<string>, fp: PkgUrl, q: Path)
    requires (forall l | l in labels :: IsValidEnvironmentLabel(l)) && Parsed(fp)
    requires Split(IsolatedPathForPackage(RealmPath(root, labels), fp)) <= q
    ensures Purgeable(Split(root), q) <==> Split(IsolatedPathForPackage(RealmPath(root, labels), fp)) < q
  {
    var dir, c := Split(root), Split(IsolatedPathForPackage(RealmPath(root, labels), fp));
    SplitIsolatedPath(root, labels, fp);
    InsideCache(dir, labels, fp, c, q);
  }

  lemma InsideCache(dir: Path, labels: seq<string>, fp: PkgUrl, c: Path, q: Path)
    requires (forall l | l in labels :: IsValidEnvironmentLabel(l)) && Parsed(fp)
    requires c == dir + RealmComponents(labels) + [StableComponentID(fp)] && c <= q
    ensures Purgeable(dir, q) <==> c < q
  {
    var rest := [StableComponentID(fp)] + q[|c|..];
    assert q == dir + RealmComponents(labels) + rest;
    PurgeableBelowRealm(dir, labels, rest);
    ComponentIdIsAName(fp);
    assert ':' !in "r";
  }

  /** A purge empties every component's isolated cache directory and keeps the directory. */
  lemma ComponentCacheIsEmptied(root: string, labels: seq<string>, fp: PkgUrl, nodes: Nodes)
    requires (forall l | l in labels :: IsValidEnvironmentLabel(l)) && Parsed(fp)
    ensures var c := Split(IsolatedPathForPackage(RealmPath(root, labels), fp));
      && (forall q | q in Purged(nodes, Split(root)) :: !(c < q))
      && (c in nodes ==> c in Purged(nodes, Split(root)))
  {
    var c := Split(IsolatedPathForPackage(RealmPath(root, labels), fp));
    forall q | c <= q ensures Purgeable(Split(root), q) <==> c < q { CacheIsPurgeable(root, labels, fp, q); }
  }

  /** A purge removes no realm directory and no directory "r" that holds nested realms. */
  lemma RealmDirectoriesSurvive(root: string, labels: seq<string>, nodes: Nodes)
    requires forall l | l in labels :: IsValidEnvironmentLabel(l)
    ensures var p := Split(RealmPath(root, labels));
      && (p in nodes ==> p in Purged(nodes, Split(root)))
      && (p + ["r"] in nodes ==> p + ["r"] in Purged(nodes, Split(root)))
  {
    SplitRealmPath(root, labels);
    PurgeableBelowRealm(Split(root), labels, []);
    PurgeableBelowRealm(Split(root), labels, ["r"]);
    assert Split(root) + RealmComponents(labels) + [] == Split(RealmPath(root, labels));
  }

  /** The cache of the root realm lies inside its data directory `root`, yet a purge of the cache
      touches nothing in the persistent storage of any component of any realm. */
  lemma PersistentDataSurvives(root: string, labels: seq<string>, fp: PkgUrl, q: Path, nodes: Nodes)
    requires (forall l | l in labels :: IsValidEnvironmentLabel(l)) && Parsed(fp)
    requires q in nodes && Split(IsolatedPathForPackage(RealmPath(root, labels), fp)) <= q
    ensures q in Purged(nodes, Split(JoinPath(root, "cache")))
  {
    var dir := Split(root);
    SplitIsolatedPath(root, labels, fp);
    SplitJoin(root, "cache");
    SplitName("cache");
    NotTheCache(labels, fp);
    var below := RealmComponents(labels) + [StableComponentID(fp)];
    assert dir + RealmComponents(labels) + [StableComponentID(fp)] == dir + below;
    assert q[|dir|] == below[0];
    assert !(dir + ["cache"] <= q);
  }

  /** No realm and no component has its directory called "cache". */
  lemma NotTheCache(labels: seq<string>, fp: PkgUrl)
    requires Parsed(fp)
    ensures (RealmComponents(labels) + [StableComponentID(fp)])[0] != "cache"
  {
    ComponentIdIsAName(fp);
    assert ':' !in "cache";
    if labels != [] { FirstRealmComponent(labels); }
  }

  lemma {:induction false} FirstRealmComponent(labels: seq<string>)
    requires labels != []
    ensures |RealmComponents(labels)| >= 2 && RealmComponents(labels)[0] == "r"
    decreases |labels|
  {
    if |labels| > 1 { FirstRealmComponent(labels[..|labels| - 1]); }
  }

  /** A second purge finds nothing to remove. */
  lemma PurgeIsIdempotent(nodes: Nodes, dir: Path)
    ensures Purged(Purged(nodes, dir), dir) == Purged(nodes, dir)
  {
  }
}
