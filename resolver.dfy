/**
 * The dependency-graph walker of lib/resolver.js and its near-twin
 * lib/lookup.js, as one class with a `flavour`: the two differ only in
 * whether a lookup also searches the parent's locals and in the verb of the
 * not-found message.
 *
 * Every walker of one resolution shares one `Session` by reference: the
 * search `paths`, the ignore set `_ignored`, the lookup `cache` and the
 * result `list`. A child walker is created for every dependency found, and
 * the walk recurses through it. The fan-out that the source runs through
 * `Batch` is run here one task at a time, in the order the tasks are pushed.
 */
module Resolver {
  import opened Wrappers
  import opened Dict
  import opened Manifest
  import Paths

  /** lib/resolver.js (`resolve`) or lib/lookup.js (`lookup`). */
  datatype Flavour = ResolveFlavour | LookupFlavour

  /** The exact message of the fatal not-found error. */
  function NotFoundMessage(f: Flavour, name: string, dep: string): string {
    "failed to " + (if f == ResolveFlavour then "resolve" else "lookup")
      + " \"" + name + "\"'s dependency \"" + dep + "\""
  }

  /** The key under which the lookup of `dep` in directory `dir` is cached. */
  function CacheKey(dep: string, dir: string): string {
    dep + ":" + dir
  }

  /** Every cached directory holds a manifest. */
  ghost predicate CacheSound(cache: map<string, string>, fs: FileSystem) {
    forall k :: k in cache ==> cache[k] in fs.manifests
  }

  /** The outcome of probing for one dependency: a cache hit, a directory found on disk, or nothing. */
  datatype Hit = Cached(dir: string) | Found(dir: string) | Missing

  /**
   * Probing `candidates` in order for `dep`: stop at the first falsy
   * entry (`""` stands for `undefined`); a cached `dep:dir` answers at once,
   * otherwise a directory whose `component.json` exists is found.
   */
  function Probe(candidates: seq<string>, dep: string, cache: map<string, string>, fs: FileSystem): Hit
    decreases |candidates|
  {
    if candidates == [] || candidates[0] == "" then Missing
    else
      var dir := Paths.Join(candidates[0], dep);
      if CacheKey(dep, dir) in cache then Cached(cache[CacheKey(dep, dir)])
      else if dir in fs.manifests then Found(dir)
      else Probe(candidates[1..], dep, cache, fs)
  }

  /** The candidates probing can reach: those before the first falsy entry. */
  function Live(candidates: seq<string>): (r: seq<string>)
    ensures |r| <= |candidates| && r == candidates[..|r|]
    ensures "" !in r
    ensures |r| < |candidates| ==> candidates[|r|] == ""
  {
    if candidates == [] || candidates[0] == "" then []
    else [candidates[0]] + Live(candidates[1..])
  }

  /** A candidate misses: its `dep:dir` key is not cached and `dir` holds no manifest. */
  ghost predicate Misses(c: string, dep: string, cache: map<string, string>, fs: FileSystem) {
    CacheKey(dep, Paths.Join(c, dep)) !in cache && Paths.Join(c, dep) !in fs.manifests
  }

  ghost predicate AllMiss(cs: seq<string>, dep: string, cache: map<string, string>, fs: FileSystem) {
    forall c :: c in cs ==> Misses(c, dep, cache, fs)
  }

  /** What candidate `c` answers when it does not miss: the cached directory if its key is cached, else `dir` from disk. */
  function Answer(c: string, dep: string, cache: map<string, string>): Hit {
    var dir := Paths.Join(c, dep);
    if CacheKey(dep, dir) in cache then Cached(cache[CacheKey(dep, dir)]) else Found(dir)
  }

  /** Probing finds nothing exactly when every reachable candidate misses. */
  lemma {:induction false} ProbeMissing(candidates: seq<string>, dep: string, cache: map<string, string>, fs: FileSystem)
    ensures Probe(candidates, dep, cache, fs).Missing? <==> AllMiss(Live(candidates), dep, cache, fs)
    decreases |candidates|
  {
    if candidates != [] && candidates[0] != "" {
      var rest := candidates[1..];
      ProbeMissing(rest, dep, cache, fs);
      assert Live(candidates) == [candidates[0]] + Live(rest);
      assert AllMiss(Live(candidates), dep, cache, fs) <==>
        Misses(candidates[0], dep, cache, fs) && AllMiss(Live(rest), dep, cache, fs);
    } else {
      assert Live(candidates) == [];
    }
  }

  /**
   * A hit comes from the first reachable candidate that does not miss: from
   * the cache if its key is cached and from disk if not.
   */
  lemma {:induction false} ProbeHit(candidates: seq<string>, dep: string, cache: map<string, string>, fs: FileSystem)
    ensures !Probe(candidates, dep, cache, fs).Missing? ==>
      exists k :: 0 <= k < |Live(candidates)| && AllMiss(candidates[..k], dep, cache, fs) &&
        !Misses(candidates[k], dep, cache, fs) && Probe(candidates, dep, cache, fs) == Answer(candidates[k], dep, cache)
    decreases |candidates|
  {
    if candidates != [] && candidates[0] != "" {
      var rest := candidates[1..];
      assert |Live(candidates)| == 1 + |Live(rest)|;
      if !Misses(candidates[0], dep, cache, fs) {
        assert candidates[..0] == [];
      } else if !Probe(rest, dep, cache, fs).Missing? {
        ProbeHit(rest, dep, cache, fs);
        var k :| 0 <= k < |Live(rest)| && AllMiss(rest[..k], dep, cache, fs) &&
          !Misses(rest[k], dep, cache, fs) && Probe(rest, dep, cache, fs) == Answer(rest[k], dep, cache);
        assert candidates[..k + 1] == [candidates[0]] + rest[..k];
        assert candidates[k + 1] == rest[k];
      }
    }
  }

  /** Probing never reaches past a falsy entry. */
  lemma {:induction false} ProbeStopsAtFalsy(a: seq<string>, b: seq<string>, dep: string, cache: map<string, string>, fs: FileSystem)
    ensures Probe(a + [""] + b, dep, cache, fs) == Probe(a, dep, cache, fs)
    decreases |a|
  {
    if a == [] {
      assert (a + [""] + b)[0] == "";
    } else {
      assert (a + [""] + b)[0] == a[0];
      assert (a + [""] + b)[1..] == a[1..] + [""] + b;
      ProbeStopsAtFalsy(a[1..], b, dep, cache, fs);
    }
  }

  /**
   * The answer of `resolve`/`lookup` for normalised name `dep` over
   * `candidates`, and the cache afterwards: only a hit found on disk is
   * cached, and a miss is the not-found error naming manifest `name`.
   */
  function Lookup(f: Flavour, name: string, candidates: seq<string>, dep: string, cache: map<string, string>, fs: FileSystem): (Result<string, Error>, map<string, string>) {
    match Probe(candidates, dep, cache, fs)
    case Missing => (Failure(DependencyNotFound(NotFoundMessage(f, name, dep))), cache)
    case Cached(dir) => (Success(dir), cache)
    case Found(dir) => (Success(dir), cache[CacheKey(dep, dir) := dir])
  }

  /** With a sound cache, whatever probing answers is a directory holding a manifest. */
  lemma {:induction false} ProbeFindsManifest(candidates: seq<string>, dep: string, cache: map<string, string>, fs: FileSystem)
    requires CacheSound(cache, fs)
    ensures !Probe(candidates, dep, cache, fs).Missing? ==> Probe(candidates, dep, cache, fs).dir in fs.manifests
    decreases |candidates|
  {
    if candidates != [] && candidates[0] != "" {
      ProbeFindsManifest(candidates[1..], dep, cache, fs);
    }
  }

  /** The declared `dependencies`, then `development` merged in when dev mode is on for this walker. */
  function WithDev(c: Conf, dev: bool): Dict {
    var declared := c.dependencies.GetOr([]);
    if dev && c.development.Some? then Merge(declared, c.development.value) else declared
  }

  /**
   * `dependencies()`: the declared `dependencies`, then `development` when
   * dev mode is on for this walker, then every local name mapped to `'*'`;
   * later sources override earlier ones.
   */
  function Dependencies(c: Conf, dev: bool): Dict {
    Merge(WithDev(c, dev), Local(c))
  }

  /** `local()`: `conf.local || conf.locals || []`, each name mapped to `'*'`. */
  function Local(c: Conf): (r: Dict)
    ensures Valid(r)
    ensures Keys(r) == NewKeys([], LocalNames(c.local, c.locals))
    ensures forall k :: Get(r, k) == if k in LocalNames(c.local, c.locals) then Some("*") else None
  {
    FromNamesSpec(LocalNames(c.local, c.locals), "*");
    FromNames(LocalNames(c.local, c.locals), "*")
  }

  /** The manifest's two dictionaries are well-formed objects. */
  predicate WellFormed(c: Conf) {
    Valid(c.dependencies.GetOr([])) && Valid(c.development.GetOr([]))
  }

  /** Development keys come after the declared ones and override their values, in dev mode only. */
  lemma WithDevSpec(c: Conf, dev: bool)
    requires WellFormed(c)
    ensures Valid(WithDev(c, dev))
    ensures var declared := Keys(c.dependencies.GetOr([]));
      Keys(WithDev(c, dev)) == declared + NewKeys(declared, if dev then Keys(c.development.GetOr([])) else [])
    ensures forall k ::
      Get(WithDev(c, dev), k) ==
        if dev && k in Keys(c.development.GetOr([])) then Get(c.development.value, k)
        else Get(c.dependencies.GetOr([]), k)
  {
    var declared := c.dependencies.GetOr([]);
    if dev && c.development.Some? {
      MergeSpec(declared, c.development.value);
    } else {
      assert Keys([]) == [];
      assert NewKeys(Keys(declared), []) == [];
      assert Keys(declared) + [] == Keys(declared);
    }
  }

  /**
   * The key order and the values of `dependencies()`: declared keys first,
   * then new development keys (only in dev mode), then new local names; a
   * local name maps to `'*'`, a development key (in dev mode) to its
   * development value, any other key to its declared value.
   */
  lemma DependenciesSpec(c: Conf, dev: bool)
    requires WellFormed(c)
    ensures Valid(Dependencies(c, dev))
    ensures Keys(Dependencies(c, dev)) ==
      Keys(WithDev(c, dev)) + NewKeys(Keys(WithDev(c, dev)), NewKeys([], LocalNames(c.local, c.locals)))
    ensures forall k ::
      Get(Dependencies(c, dev), k) ==
        if k in LocalNames(c.local, c.locals) then Some("*")
        else if dev && k in Keys(c.development.GetOr([])) then Get(c.development.value, k)
        else Get(c.dependencies.GetOr([]), k)
  {
    WithDevSpec(c, dev);
    MergeSpec(WithDev(c, dev), Local(c));
  }

  /** Every key of `dependencies()` is a name the manifest declares. */
  lemma DependenciesDeclared(c: Conf, dev: bool, k: string)
    requires k in Keys(Dependencies(c, dev))
    ensures k in Keys(c.dependencies.GetOr([])) + Keys(c.development.GetOr([])) + LocalNames(c.local, c.locals)
  {
    if dev && c.development.Some? {
      MergeKeys(c.dependencies.GetOr([]), c.development.value);
    }
    MergeKeys(WithDev(c, dev), Local(c));
  }

  /** Every dependency name of a manifest of `fs`, normalised, belongs to the universe of names. */
  lemma DependenciesInUniverse(c: Conf, dev: bool, fs: FileSystem, path: string)
    requires FromManifest(c, fs, path)
    ensures forall k :: k in Keys(Dependencies(c, dev)) ==> Paths.Normalize(k) in AllNames(fs)
  {
    forall k | k in Keys(Dependencies(c, dev)) ensures Paths.Normalize(k) in AllNames(fs) {
      DependenciesDeclared(c, dev, k);
      assert k in DeclaredNames(fs.manifests[path]);
    }
  }

  /** The conf a walker holds still has the dependency fields of the manifest in its directory. */
  ghost predicate FromManifest(c: Conf, fs: FileSystem, path: string) {
    path in fs.manifests &&
    var m := fs.manifests[path];
    c.dependencies == m.dependencies && c.development == m.development &&
    c.local == m.local && c.locals == m.locals && c.name == m.name
  }

  /** The not-yet-ignored part of the finite universe of names: the walk's termination measure. */
  lemma UnmarkedShrinks(all: set<string>, before: set<string>, after: set<string>, x: string)
    requires before <= after && x in all && x !in before && x in after
    ensures |all - after| < |all - before|
  {
    var small, big := all - after, all - before;
    assert big == small + (big - small);
    assert small * (big - small) == {};
    assert x in big - small;
  }

  /** The state one resolution shares by reference between all its walkers. */
  class Session {
    const fs: FileSystem
    /** Every name a manifest of `fs` declares, normalised: the names there are to mark. */
    ghost const universe: set<string>
    var paths: seq<string>
    var ignored: set<string>
    var cache: map<string, string>
    var list: seq<Resolver>
    /** Every normalised name handed to `resolve`/`lookup`, in order (bookkeeping for the proofs). */
    ghost var probed: seq<string>

    /** The cache only names real directories; each name is probed at most once, and only once ignored. */
    ghost predicate Valid()
      reads this
    {
      CacheSound(cache, fs) && Distinct(probed) &&
      forall i :: 0 <= i < |probed| ==> probed[i] in ignored
    }

    /** `inherit({})` for a root at `root`: the implicit `components` directory, all else empty. */
    constructor (fs: FileSystem, root: string)
      ensures this.fs == fs && universe == AllNames(fs) && paths == [root + "/components"]
      ensures ignored == {} && cache == map[] && list == [] && probed == []
      ensures Valid() && Covers()
    {
      this.fs := fs;
      universe := AllNames(fs);
      paths := [root + "/components"];
      ignored := {};
      cache := map[];
      list := [];
      probed := [];
    }

    /** `universe` is the set of all declared names; it depends on constants only, so no state change can break it. */
    ghost predicate Covers() {
      universe == AllNames(fs)
    }

    ghost function Unmarked(): nat
      reads this
    {
      |universe - ignored|
    }
  }

  /** The `conf` of a walker whose manifest has not been read yet. */
  const Unread := Conf("", "", None, None, None, None, None, map[], "")

  /** The confs of the walkers in `list`, in order: `list.map(r => r.conf)`. */
  function ConfsOf(list: seq<Resolver>): (r: seq<Conf>)
    reads set w | w in list
    ensures |r| == |list| && forall i :: 0 <= i < |list| ==> r[i] == list[i].conf
  {
    if list == [] then [] else [list[0].conf] + ConfsOf(list[1..])
  }

  class Resolver {
    const flavour: Flavour
    const path: string
    const session: Session
    const parent: Resolver?
    var dev: bool
    /** The resolved `paths` of this manifest, then (for `resolve`) copies of the parent's; `""` is `undefined`. */
    var locals: seq<string>
    var conf: Conf

    /** `new Resolver(path)`: a root, with a fresh session. */
    constructor Root(flavour: Flavour, path: string, fs: FileSystem)
      ensures this.flavour == flavour && this.path == path && parent == null
      ensures fresh(session) && session.fs == fs && session.paths == [path + "/components"]
      ensures session.ignored == {} && session.cache == map[] && session.list == [] && session.probed == []
      ensures session.Valid() && session.Covers()
      ensures !dev && locals == [] && conf == Unread
    {
      this.flavour := flavour;
      this.path := path;
      session := new Session(fs, path);
      parent := null;
      dev := false;
      locals := [];
      conf := Unread;
    }

    /** `Resolver(dir, parent)`: a child sharing the parent's session; `dev` is not inherited and `locals` starts empty. */
    constructor Child(path: string, p: Resolver)
      ensures flavour == p.flavour && this.path == path && parent == p && session == p.session
      ensures !dev && locals == [] && conf == Unread
    {
      flavour := p.flavour;
      this.path := path;
      session := p.session;
      parent := p;
      dev := false;
      locals := [];
      conf := Unread;
    }

    /** `add(path)`: one more global search path, resolved against this walker's directory, shared by the whole resolution. */
    method Add(p: string)
      modifies session`paths
      ensures session.paths == old(session.paths) + [Paths.Resolve(path, p)]
    {
      session.paths := session.paths + [Paths.Resolve(path, p)];
    }

    /** `development()`: take `development` dependencies of this walker's manifest. */
    method Development()
      modifies this`dev
      ensures dev
    {
      dev := true;
    }

    /** `ignored(dep)`: whether `dep`, its first `/` made `-`, is in the shared ignore set. */
    predicate Ignored(dep: string)
      reads session
    {
      Paths.Normalize(dep) in session.ignored
    }

    /**
     * `ignore(dep)`: mark the normalised name; `marked` is whether this call
     * did it (the source returns `this`) rather than finding it already
     * marked (the source returns `undefined` and changes nothing).
     */
    method Ignore(dep: string) returns (marked: bool)
      modifies session`ignored
      ensures marked == !old(Ignored(dep))
      ensures session.ignored == old(session.ignored) + {Paths.Normalize(dep)}
      ensures Ignored(dep)
    {
      if Ignored(dep) {
        return false;
      }
      session.ignored := session.ignored + {Paths.Normalize(dep)};
      return true;
    }

    /** `configure(conf)`: `locals` become the manifest's `paths` resolved against this directory; `conf.path()` answers it. */
    method Configure(m: Manifest)
      modifies this`locals, this`conf
      ensures |locals| == |m.paths.GetOr([])|
      ensures forall i :: 0 <= i < |locals| ==> locals[i] == Paths.Resolve(path, m.paths.GetOr([])[i])
      ensures conf == ConfOf(m, path)
    {
      var ps := m.paths.GetOr([]);
      locals := [];
      var i := 0;
      while i < |ps|
        invariant 0 <= i <= |ps| && |locals| == i
        invariant forall j :: 0 <= j < i ==> locals[j] == Paths.Resolve(path, ps[j])
      {
        locals := locals + [Paths.Resolve(path, ps[i])];
        i := i + 1;
      }
      conf := ConfOf(m, path);
    }

    /** `json(fn)`: read and configure this directory's manifest; a missing one is fatal. */
    method Json() returns (err: Option<Error>)
      modifies this`locals, this`conf
      ensures path !in session.fs.manifests ==>
        err == Some(ManifestError(Paths.Join(path, "component.json"))) && conf == old(conf) && locals == old(locals)
      ensures path in session.fs.manifests ==> err.None? && conf == ConfOf(session.fs.manifests[path], path)
      ensures path in session.fs.manifests ==> |locals| == |session.fs.manifests[path].paths.GetOr([])|
      ensures path in session.fs.manifests ==> forall i :: 0 <= i < |locals| ==>
        locals[i] == Paths.Resolve(path, session.fs.manifests[path].paths.GetOr([])[i])
    {
      if path !in session.fs.manifests {
        return Some(ManifestError(Paths.Join(path, "component.json")));
      }
      Configure(session.fs.manifests[path]);
      return None;
    }

    /**
     * `pull(type)`: replace the declared names of `type` by one
     * `{filename, contents}` record each, in declaration order; a missing
     * field is a no-op, an unreadable file is fatal and leaves `conf` as it was.
     */
    method Pull(t: AssetType) returns (err: Option<Error>)
      requires t in conf.assets ==> conf.assets[t].Raw?
      modifies this`conf
      ensures (err, conf) == Pulled(old(conf), t, path, session.fs)
    {
      if t !in conf.assets {
        return None;
      }
      var names := conf.assets[t].names;
      ghost var resolved := ResolveAll(path, names);
      var files: seq<File> := [];
      var i := 0;
      while i < |names|
        invariant 0 <= i <= |names| && |files| == i
        invariant forall j :: 0 <= j < i ==> resolved[j] in session.fs.files
        invariant forall j :: 0 <= j < i ==> files[j] == File(names[j], session.fs.files[resolved[j]])
      {
        var p := Paths.Resolve(path, names[i]);
        if p !in session.fs.files {
          ReadAllFirstMissing(session.fs, resolved, i);
          return Some(AssetReadError(p));
        }
        files := files + [File(names[i], session.fs.files[p])];
        i := i + 1;
      }
      assert Records(names, ReadAll(session.fs, resolved).value) == files;
      conf := conf.(assets := conf.assets[t := Loaded(files)]);
      err := None;
    }

    /** The parent's `locals` as `resolve` reads them: the root's parent is `{}`, whose `locals` is `undefined`. */
    function ParentLocals(): seq<string>
      reads this, parent
    {
      if parent == null then [""] else parent.locals
    }

    /**
     * `resolve(dep)` / `lookup(dep)`: probe `join(p, dep')` for `p` in the
     * global paths, then this walker's locals (`resolve` first appends the
     * parent's locals to them), where `dep'` is `dep` with its first `/`
     * made `-`. A hit found on disk is cached; nothing found is the fatal
     * not-found error naming this manifest and `dep'`.
     */
    method Resolve(dep: string) returns (r: Result<string, Error>)
      requires CacheSound(session.cache, session.fs)
      modifies this`locals, session`cache, session`probed
      ensures locals == old(locals) + (if flavour == ResolveFlavour then old(ParentLocals()) else [])
      ensures session.probed == old(session.probed) + [Paths.Normalize(dep)]
      ensures CacheSound(session.cache, session.fs)
      ensures (r, session.cache) == Lookup(flavour, conf.name, session.paths + locals, Paths.Normalize(dep), old(session.cache), session.fs)
      ensures r.Success? ==> r.value in session.fs.manifests
      ensures old(session.Valid()) && Paths.Normalize(dep) in session.ignored && Paths.Normalize(dep) !in old(session.probed) ==>
        session.Valid()
    {
      if flavour == ResolveFlavour {
        locals := locals + ParentLocals();
      }
      var candidates := session.paths + locals;
      var d := Paths.Normalize(dep);
      if session.Valid() && d !in session.probed {
        DistinctSnoc(session.probed, d);
      }
      session.probed := session.probed + [d];
      ProbeFindsManifest(candidates, d, session.cache, session.fs);
      var i := 0;
      while i < |candidates| && candidates[i] != ""
        invariant 0 <= i <= |candidates|
        invariant Probe(candidates[i..], d, session.cache, session.fs) == Probe(candidates, d, session.cache, session.fs)
        invariant session.cache == old(session.cache)
      {
        var dir := Paths.Join(candidates[i], d);
        var key := CacheKey(d, dir);
        if key in session.cache {
          return Success(session.cache[key]);
        }
        if dir in session.fs.manifests {
          session.cache := session.cache[key := dir];
          return Success(dir);
        }
        assert candidates[i..][1..] == candidates[i + 1..];
        i := i + 1;
      }
      return Failure(DependencyNotFound(NotFoundMessage(flavour, conf.name, d)));
    }

    /** `map()`: the confs of every walker of the resolution, root first. */
    function Map(): seq<Conf>
      reads session, set w | w in session.list
    {
      ConfsOf(session.list)
    }

    /**
     * The synchronous first half of `deps`: mark every name of `names`, and
     * answer, in order, the ones this call marked (those not ignored before).
     */
    method MarkAll(names: seq<string>) returns (pending: seq<string>)
      requires session.Valid()
      modifies session`ignored
      ensures session.Valid()
      ensures session.ignored == old(session.ignored) + NormSet(names)
      ensures pending == Unignored(names, old(session.ignored))
    {
      pending := [];
      var i := 0;
      while i < |names|
        invariant 0 <= i <= |names|
        invariant session.Valid()
        invariant session.ignored == old(session.ignored) + NormSet(names[..i])
        invariant pending + Unignored(names[i..], session.ignored) == Unignored(names, old(session.ignored))
      {
        var dep := names[i];
        ghost var ign := session.ignored;
        assert names[i..][0] == dep && names[i..][1..] == names[i + 1..];
        assert names[..i + 1][..i] == names[..i] && names[..i + 1][i] == dep;
        assert NormSet(names[..i + 1]) == NormSet(names[..i]) + {Paths.Normalize(dep)};
        var marked := Ignore(dep);
        if marked {
          assert Unignored(names[i..], ign) == [dep] + Unignored(names[i + 1..], session.ignored);
          pending := pending + [dep];
        } else {
          assert session.ignored == ign;
          assert Unignored(names[i..], ign) == Unignored(names[i + 1..], session.ignored);
        }
        i := i + 1;
      }
      assert names[..i] == names;
    }

    /**
     * The second half of `deps`: resolve each marked name in order and walk
     * it with a child sharing the session; the first error stops the walk.
     * Every name probed here or below was outside `before`, the ignore set
     * when `deps` began, and no name is probed twice.
     */
    method WalkAll(pending: seq<string>, ghost before: set<string>, ghost bound: nat) returns (err: Option<Error>)
      requires session.Valid() && session.Covers() && before <= session.ignored
      requires pending != [] ==> session.Unmarked() < bound
      requires forall q :: q in pending ==> Paths.Normalize(q) in session.ignored && Paths.Normalize(q) !in before
      requires NormDistinct(pending)
      requires forall q :: q in pending ==> Paths.Normalize(q) !in session.probed
      modifies this`locals, session
      decreases bound, 2
      ensures session.Valid()
      ensures old(session.ignored) <= session.ignored
      ensures session.paths == old(session.paths)
      ensures old(session.list) <= session.list
      ensures old(session.probed) <= session.probed
      ensures forall x :: x in session.probed && x !in old(session.probed) ==> x !in before
      ensures err.None? ==> |session.list| - |old(session.list)| == |session.probed| - |old(session.probed)|
    {
      var k := 0;
      while k < |pending|
        invariant 0 <= k <= |pending|
        invariant session.Valid() && before <= session.ignored
        invariant old(session.ignored) <= session.ignored
        invariant session.paths == old(session.paths)
        invariant pending != [] ==> session.Unmarked() < bound
        invariant old(session.list) <= session.list
        invariant old(session.probed) <= session.probed
        invariant forall x :: x in session.probed && x !in old(session.probed) ==> x !in before
        invariant forall j :: k <= j < |pending| ==> Paths.Normalize(pending[j]) !in session.probed
        invariant |session.list| - |old(session.list)| == |session.probed| - |old(session.probed)|
      {
        err := Visit(pending[k], before, bound);
        if err.Some? {
          return;
        }
        forall j | k < j < |pending| ensures Paths.Normalize(pending[j]) != Paths.Normalize(pending[k]) {
        }
        k := k + 1;
      }
      return None;
    }

    /** One task of the second half of `deps`: resolve `dep` and walk the directory found with a child sharing the session. */
    method Visit(dep: string, ghost before: set<string>, ghost bound: nat) returns (err: Option<Error>)
      requires session.Valid() && session.Covers() && before <= session.ignored
      requires session.Unmarked() < bound
      requires Paths.Normalize(dep) in session.ignored && Paths.Normalize(dep) !in before
      requires Paths.Normalize(dep) !in session.probed
      modifies this`locals, session
      decreases bound, 1
      ensures session.Valid()
      ensures old(session.ignored) <= session.ignored
      ensures session.Unmarked() < bound
      ensures session.paths == old(session.paths)
      ensures old(session.list) <= session.list
      ensures old(session.probed) <= session.probed
      ensures forall x :: x in session.probed && x !in old(session.probed) ==> x == Paths.Normalize(dep) || x !in old(session.ignored)
      ensures forall x :: x in session.probed && x !in old(session.probed) ==> x !in before
      ensures err.None? ==> |session.list| - |old(session.list)| == |session.probed| - |old(session.probed)|
    {
      var dir := Resolve(dep);
      if dir.Failure? {
        return Some(dir.error);
      }
      err := Descend(dir.value, bound);
    }

    /** Walk directory `dir` with a new child of this walker that shares the session. */
    method Descend(dir: string, ghost bound: nat) returns (err: Option<Error>)
      requires session.Valid() && session.Covers()
      requires session.Unmarked() < bound
      modifies session
      decreases bound, 0
      ensures session.Valid()
      ensures old(session.ignored) <= session.ignored
      ensures session.Unmarked() < bound
      ensures session.paths == old(session.paths)
      ensures old(session.list) <= session.list
      ensures old(session.probed) <= session.probed
      ensures forall x :: x in session.probed && x !in old(session.probed) ==> x !in old(session.ignored)
      ensures err.None? ==> |session.list| - |old(session.list)| == 1 + |session.probed| - |old(session.probed)|
    {
      var child := new Resolver.Child(dir, this);
      var res := child.End();
      UnmarkedMonotone(session.universe, old(session.ignored), session.ignored);
      if res.Failure? {
        return Some(res.error);
      }
      return None;
    }

    /**
     * `deps(done)`: merge the effective dependencies into
     * `conf.dependencies` (when the manifest has that field), mark every one
     * not yet ignored, then resolve each marked one and walk it with a child
     * sharing the session. Every name probed here or below was unmarked when
     * this call began, so across one resolution no name is probed twice.
     */
    method Deps() returns (err: Option<Error>)
      requires session.Valid() && session.Covers() && FromManifest(conf, session.fs, path)
      modifies this, session
      decreases session.Unmarked(), 4
      ensures session.Valid()
      ensures old(session.ignored) <= session.ignored
      ensures forall k :: k in Keys(Dependencies(old(conf), old(dev))) ==> Paths.Normalize(k) in session.ignored
      ensures conf == old(conf).(dependencies :=
        if old(conf.dependencies).Some? then Some(Dependencies(old(conf), old(dev))) else None)
      ensures dev == old(dev)
      ensures session.paths == old(session.paths)
      ensures old(session.list) <= session.list
      ensures old(session.probed) <= session.probed
      ensures forall x :: x in session.probed && x !in old(session.probed) ==> x !in old(session.ignored)
      ensures err.None? ==> |session.list| - |old(session.list)| == |session.probed| - |old(session.probed)|
    {
      var deps := Dependencies(conf, dev);
      DependenciesInUniverse(conf, dev, session.fs, path);
      if conf.dependencies.Some? {
        conf := conf.(dependencies := Some(deps));
      }
      err := Fetch(Keys(deps));
    }

    /** The body of `deps` once the names are known: mark them all, then resolve and walk the newly marked ones. */
    method Fetch(names: seq<string>) returns (err: Option<Error>)
      requires session.Valid() && session.Covers()
      requires forall k :: k in names ==> Paths.Normalize(k) in AllNames(session.fs)
      modifies this`locals, session
      decreases session.Unmarked(), 3
      ensures session.Valid()
      ensures old(session.ignored) <= session.ignored
      ensures forall k :: k in names ==> Paths.Normalize(k) in session.ignored
      ensures session.paths == old(session.paths)
      ensures old(session.list) <= session.list
      ensures old(session.probed) <= session.probed
      ensures forall x :: x in session.probed && x !in old(session.probed) ==> x !in old(session.ignored)
      ensures err.None? ==> |session.list| - |old(session.list)| == |session.probed| - |old(session.probed)|
    {
      ghost var before := session.ignored;
      ghost var bound := session.Unmarked();
      var pending := MarkAll(names);
      UnignoredFresh(names, before);
      UnignoredOnce(names, before);
      if pending != [] {
        UnignoredShrinks(names, before, session.universe);
      }
      err := WalkAll(pending, before, bound);
    }

    /** The four `pull`s of `end`, in order; the first error stops them. Only the per-type lists of `conf` change. */
    method PullAll() returns (err: Option<Error>)
      requires forall t :: t in conf.assets ==> conf.assets[t].Raw?
      modifies this`conf
      ensures (err, conf) == PulledEach(old(conf), PullOrder, path, session.fs)
    {
      PullOrderDistinct();
      ghost var c0 := conf;
      err := Pull(Templates);
      if err.Some? {
        return;
      }
      assert PullOrder[1..] == [Scripts, Styles, AssetType.Json];
      PulledEachStep(c0, PullOrder, path, session.fs);
      ghost var c1 := conf;
      err := Pull(Scripts);
      if err.Some? {
        return;
      }
      assert PullOrder[2..] == PullOrder[1..][1..] == [Styles, AssetType.Json];
      PulledEachStep(c1, PullOrder[1..], path, session.fs);
      ghost var c2 := conf;
      err := Pull(Styles);
      if err.Some? {
        return;
      }
      assert PullOrder[3..] == PullOrder[2..][1..] == [AssetType.Json];
      PulledEachStep(c2, PullOrder[2..], path, session.fs);
      ghost var c3 := conf;
      err := Pull(AssetType.Json);
      if err.None? {
        PulledEachStep(c3, PullOrder[3..], path, session.fs);
        assert PullOrder[3..][1..] == [];
      }
    }

    /**
     * `end(fn)`: read the manifest, append this walker to the shared list,
     * pull templates, scripts, styles and json, then walk the dependencies;
     * the answer is the conf of every walker of the resolution, root first.
     */
    method End() returns (r: Result<seq<Conf>, Error>)
      requires session.Valid() && session.Covers()
      modifies this, session
      decreases session.Unmarked(), 5
      ensures session.Valid()
      ensures old(session.ignored) <= session.ignored
      ensures session.paths == old(session.paths)
      ensures old(session.list) <= session.list
      ensures old(session.probed) <= session.probed
      ensures forall x :: x in session.probed && x !in old(session.probed) ==> x !in old(session.ignored)
      ensures path !in session.fs.manifests ==>
        r == Failure(ManifestError(Paths.Join(path, "component.json"))) && session.list == old(session.list)
      ensures r.Success? ==> path in session.fs.manifests && conf.name == session.fs.manifests[path].name && conf.dir == path
      ensures r.Success? ==> |session.list| == |old(session.list)| + 1 + |session.probed| - |old(session.probed)|
      ensures r.Success? ==> session.list[|old(session.list)|] == this
      ensures r.Success? ==> r.value == ConfsOf(session.list) && r.value[|old(session.list)|] == conf
      ensures path in session.fs.manifests ==>
        var pulled := PulledEach(ConfOf(session.fs.manifests[path], path), PullOrder, path, session.fs);
        (pulled.0.Some? ==> r == Failure(pulled.0.value)) &&
        (r.Success? ==> pulled.0.None? && conf == Ended(session.fs.manifests[path], path, session.fs, old(dev)))
      ensures dev == old(dev)
    {
      var e := Json();
      if e.Some? {
        return Failure(e.value);
      }
      session.list := session.list + [this];
      e := PullAll();
      if e.Some? {
        return Failure(e.value);
      }
      ghost var listed := session.list;
      e := Deps();
      if e.Some? {
        return Failure(e.value);
      }
      assert session.list[|old(session.list)|] == listed[|old(session.list)|];
      return Success(Map());
    }
  }

  /** The normalised names of `ps`. */
  function NormSet(ps: seq<string>): (r: set<string>)
    ensures forall q :: q in ps ==> Paths.Normalize(q) in r
  {
    if ps == [] then {} else NormSet(ps[..|ps| - 1]) + {Paths.Normalize(ps[|ps| - 1])}
  }

  /**
   * The names of `names` that marking them one by one, starting from the
   * ignore set `ign`, actually marks: the first of each normalised name,
   * unless that name was ignored already.
   */
  function Unignored(names: seq<string>, ign: set<string>): seq<string>
    decreases |names|
  {
    if names == [] then []
    else if Paths.Normalize(names[0]) in ign then Unignored(names[1..], ign)
    else [names[0]] + Unignored(names[1..], ign + {Paths.Normalize(names[0])})
  }

  /** Every marked name is one of `names` and was not ignored before. */
  lemma {:induction false} UnignoredFresh(names: seq<string>, ign: set<string>)
    ensures forall q :: q in Unignored(names, ign) ==> q in names && Paths.Normalize(q) !in ign && Paths.Normalize(q) in NormSet(names)
    decreases |names|
  {
    if names != [] {
      var n := Paths.Normalize(names[0]);
      NormSetCons(names);
      if n in ign {
        UnignoredFresh(names[1..], ign);
      } else {
        UnignoredFresh(names[1..], ign + {n});
      }
    }
  }

  /** No two names of `p` normalise alike. */
  ghost predicate NormDistinct(p: seq<string>) {
    forall i, j :: 0 <= i < j < |p| ==> Paths.Normalize(p[i]) != Paths.Normalize(p[j])
  }

  /** No normalised name is marked twice. */
  lemma {:induction false} UnignoredOnce(names: seq<string>, ign: set<string>)
    ensures NormDistinct(Unignored(names, ign))
    decreases |names|
  {
    if names != [] {
      var n := Paths.Normalize(names[0]);
      if n in ign {
        assert Unignored(names, ign) == Unignored(names[1..], ign);
        UnignoredOnce(names[1..], ign);
      } else {
        var rest := Unignored(names[1..], ign + {n});
        UnignoredOnce(names[1..], ign + {n});
        UnignoredFresh(names[1..], ign + {n});
        assert Unignored(names, ign) == [names[0]] + rest;
        NormDistinctCons(names[0], rest);
      }
    }
  }

  lemma NormDistinctCons(x: string, rest: seq<string>)
    requires NormDistinct(rest)
    requires forall q :: q in rest ==> Paths.Normalize(q) != Paths.Normalize(x)
    ensures NormDistinct([x] + rest)
  {
    var p := [x] + rest;
    forall i, j | 0 <= i < j < |p| ensures Paths.Normalize(p[i]) != Paths.Normalize(p[j]) {
      assert p[j] == rest[j - 1];
      if i > 0 {
        assert p[i] == rest[i - 1];
      }
    }
  }

  /** When something was marked, the names of `universe` still unmarked are fewer. */
  lemma {:induction false} UnignoredShrinks(names: seq<string>, ign: set<string>, universe: set<string>)
    requires forall n :: n in names ==> Paths.Normalize(n) in universe
    requires Unignored(names, ign) != []
    ensures |universe - (ign + NormSet(names))| < |universe - ign|
  {
    var q := Unignored(names, ign)[0];
    UnignoredFresh(names, ign);
    UnmarkedShrinks(universe, ign, ign + NormSet(names), Paths.Normalize(q));
  }

  lemma {:induction false} NormSetCons(names: seq<string>)
    requires names != []
    ensures NormSet(names) == {Paths.Normalize(names[0])} + NormSet(names[1..])
    decreases |names|
  {
    if |names| > 1 {
      var init := names[..|names| - 1];
      assert init[0] == names[0] && init[1..] == names[1..][..|names| - 2];
      NormSetCons(init);
    } else {
      assert names[..0] == [] && names[1..] == [];
    }
  }

  lemma DistinctSnoc(s: seq<string>, x: string)
    requires Distinct(s) && x !in s
    ensures Distinct(s + [x])
  {
    DistinctAppend(s, [x]);
  }

  /** Marking more names never unmarks one. */
  lemma UnmarkedMonotone(all: set<string>, before: set<string>, after: set<string>)
    requires before <= after
    ensures |all - after| <= |all - before|
  {
    var small, big := all - after, all - before;
    assert big == small + (big - small);
    assert small * (big - small) == {};
  }

  /** The declared names of a list, each resolved against the component's directory. */
  function ResolveAll(dir: string, names: seq<string>): (r: seq<string>)
    ensures |r| == |names| && forall i :: 0 <= i < |names| ==> r[i] == Paths.Resolve(dir, names[i])
  {
    seq(|names|, i requires 0 <= i < |names| => Paths.Resolve(dir, names[i]))
  }

  /**
   * The error and the conf after `pull(type)` in directory `dir`: a missing
   * field is a no-op; otherwise every declared name is read, and the list
   * becomes their records, unless one is unreadable.
   */
  function Pulled(c: Conf, t: AssetType, dir: string, fs: FileSystem): (r: (Option<Error>, Conf))
    requires t in c.assets ==> c.assets[t].Raw?
    ensures r.1.(assets := c.assets) == c && r.1.assets.Keys == c.assets.Keys
    ensures forall t' :: t' != t && t' in c.assets ==> r.1.assets[t'] == c.assets[t']
  {
    if t !in c.assets then (None, c)
    else
      var names := c.assets[t].names;
      var read := ReadAll(fs, ResolveAll(dir, names));
      if read.Failure? then (Some(read.error), c)
      else (None, c.(assets := c.assets[t := Loaded(Records(names, read.value))]))
  }

  /**
   * What `pull` promises: without the field nothing happens; when every
   * declared file is readable the list becomes one record per name, in
   * order, holding the name as declared and the text read from the path
   * resolved against the directory; otherwise the error is the first
   * unreadable path and the conf is as it was.
   */
  lemma PulledSpec(c: Conf, t: AssetType, dir: string, fs: FileSystem)
    requires t in c.assets ==> c.assets[t].Raw?
    ensures t !in c.assets ==> Pulled(c, t, dir, fs) == (None, c)
    ensures t in c.assets ==>
      (Pulled(c, t, dir, fs).0.None? <==> AllReadable(c.assets[t].names, dir, fs))
    ensures t in c.assets && Pulled(c, t, dir, fs).0.None? ==>
      LoadedFrom(Pulled(c, t, dir, fs).1.assets[t], c.assets[t].names, dir, fs)
    ensures t in c.assets && Pulled(c, t, dir, fs).0.Some? ==>
      Pulled(c, t, dir, fs).1 == c && FirstUnreadable(c.assets[t].names, dir, fs, Pulled(c, t, dir, fs).0.value)
  {
    if t in c.assets {
      var names := c.assets[t].names;
      var ps := ResolveAll(dir, names);
      if exists i :: 0 <= i < |names| && ps[i] !in fs.files {
        var i := FirstMissing(ps, fs);
        ReadAllFirstMissing(fs, ps, i);
        assert AllReadable(names[..i], dir, fs);
      }
    }
  }

  /** The types `end` pulls, in the order it pushes them. */
  const PullOrder: seq<AssetType> := [Templates, Scripts, Styles, AssetType.Json]

  /** No type occurs twice in `ts`. */
  predicate DistinctTypes(ts: seq<AssetType>) {
    forall i, j :: 0 <= i < j < |ts| ==> ts[i] != ts[j]
  }

  lemma PullOrderDistinct()
    ensures DistinctTypes(PullOrder)
  {
  }

  /**
   * The error and the conf after pulling each type of `ts` in turn; the
   * first error stops the rest and keeps the lists already pulled.
   */
  function PulledEach(c: Conf, ts: seq<AssetType>, dir: string, fs: FileSystem): (r: (Option<Error>, Conf))
    requires DistinctTypes(ts)
    requires forall t :: t in ts && t in c.assets ==> c.assets[t].Raw?
    ensures r.1.(assets := c.assets) == c && r.1.assets.Keys == c.assets.Keys
    decreases |ts|
  {
    if ts == [] then (None, c)
    else
      var p := Pulled(c, ts[0], dir, fs);
      if p.0.Some? then p
      else
        assert forall t :: t in ts[1..] ==> t != ts[0];
        PulledEach(p.1, ts[1..], dir, fs)
  }

  /** After a first pull that succeeds, the rest of the pulls start from its conf. */
  lemma PulledEachStep(c: Conf, ts: seq<AssetType>, dir: string, fs: FileSystem)
    requires ts != [] && DistinctTypes(ts)
    requires forall t :: t in ts && t in c.assets ==> c.assets[t].Raw?
    requires Pulled(c, ts[0], dir, fs).0.None?
    ensures var c1 := Pulled(c, ts[0], dir, fs).1;
      DistinctTypes(ts[1..]) && (forall t :: t in ts[1..] && t in c1.assets ==> c1.assets[t].Raw?) &&
      PulledEach(c, ts, dir, fs) == PulledEach(c1, ts[1..], dir, fs)
  {
    assert forall t :: t in ts[1..] ==> t != ts[0];
  }

  /** `pulls` stopped at `ts[k]`: the `k` types before it pulled, it unreadable, it and the types after it as they were. */
  ghost predicate StoppedAt(c: Conf, r: (Option<Error>, Conf), ts: seq<AssetType>, k: nat, dir: string, fs: FileSystem)
    requires k < |ts| && ts[k] in c.assets && ts[k] in r.1.assets
  {
    r.0.Some? && c.assets[ts[k]].Raw? &&
    FirstUnreadable(c.assets[ts[k]].names, dir, fs, r.0.value) &&
    (forall j :: 0 <= j < k && ts[j] in c.assets ==>
      c.assets[ts[j]].Raw? && ts[j] in r.1.assets &&
      AllReadable(c.assets[ts[j]].names, dir, fs) && LoadedFrom(r.1.assets[ts[j]], c.assets[ts[j]].names, dir, fs)) &&
    (forall j :: k <= j < |ts| && ts[j] in c.assets ==> ts[j] in r.1.assets && r.1.assets[ts[j]] == c.assets[ts[j]])
  }

  /** Pulling the types of `ts` leaves the lists of every other type as they were. */
  lemma {:induction false} PulledEachKeeps(c: Conf, ts: seq<AssetType>, dir: string, fs: FileSystem)
    requires DistinctTypes(ts)
    requires forall t :: t in ts && t in c.assets ==> c.assets[t].Raw?
    ensures var r := PulledEach(c, ts, dir, fs);
      forall t :: t in c.assets && t !in ts ==> r.1.assets[t] == c.assets[t]
    decreases |ts|
  {
    if ts != [] {
      var p := Pulled(c, ts[0], dir, fs);
      if p.0.None? {
        assert forall t :: t in ts[1..] ==> t != ts[0];
        PulledEachKeeps(p.1, ts[1..], dir, fs);
        assert forall t :: t !in ts ==> t != ts[0] && t !in ts[1..];
      }
    }
  }

  /**
   * The pulls all succeed exactly when every declared file of every pulled
   * type is readable, and then each pulled list holds its records.
   */
  lemma {:induction false} PulledEachLoads(c: Conf, ts: seq<AssetType>, dir: string, fs: FileSystem)
    requires DistinctTypes(ts)
    requires forall t :: t in ts && t in c.assets ==> c.assets[t].Raw?
    ensures var r := PulledEach(c, ts, dir, fs);
      r.0.None? <==> forall t :: t in ts && t in c.assets ==> AllReadable(c.assets[t].names, dir, fs)
    ensures var r := PulledEach(c, ts, dir, fs);
      r.0.None? ==> forall t :: t in ts && t in c.assets ==> LoadedFrom(r.1.assets[t], c.assets[t].names, dir, fs)
    decreases |ts|
  {
    if ts != [] {
      var p := Pulled(c, ts[0], dir, fs);
      PulledSpec(c, ts[0], dir, fs);
      if p.0.None? {
        var rest := ts[1..];
        assert forall t :: t in rest ==> t != ts[0];
        PulledEachLoads(p.1, rest, dir, fs);
        PulledEachKeeps(p.1, rest, dir, fs);
        assert forall t :: t in ts <==> t == ts[0] || t in rest;
        assert forall t :: t in rest && t in c.assets ==> p.1.assets[t] == c.assets[t];
      }
    }
  }

  /**
   * When a pull fails, the error is the first unreadable file of the first
   * type that has one; the types before it are pulled and the rest untouched.
   */
  lemma {:induction false} PulledEachStops(c: Conf, ts: seq<AssetType>, dir: string, fs: FileSystem)
    requires DistinctTypes(ts)
    requires forall t :: t in ts && t in c.assets ==> c.assets[t].Raw?
    ensures var r := PulledEach(c, ts, dir, fs);
      r.0.Some? ==> exists k: nat :: k < |ts| && ts[k] in c.assets && ts[k] in r.1.assets && StoppedAt(c, r, ts, k, dir, fs)
    decreases |ts|
  {
    if ts != [] {
      var r := PulledEach(c, ts, dir, fs);
      var p := Pulled(c, ts[0], dir, fs);
      PulledSpec(c, ts[0], dir, fs);
      if p.0.Some? {
        assert r == p && p.1 == c;
        assert StoppedAt(c, r, ts, 0, dir, fs);
      } else if r.0.Some? {
        var rest := ts[1..];
        assert forall t :: t in rest ==> t != ts[0];
        assert r == PulledEach(p.1, rest, dir, fs);
        PulledEachStops(p.1, rest, dir, fs);
        PulledEachKeeps(p.1, rest, dir, fs);
        var k: nat :| k < |rest| && rest[k] in p.1.assets && rest[k] in r.1.assets && StoppedAt(p.1, r, rest, k, dir, fs);
        assert ts[0] !in rest;
        StoppedLater(c, p.1, r, ts, k, dir, fs);
      }
    }
  }

  /** A stop at type `k` of the pulls after a successful first pull is a stop at type `k + 1` of them all. */
  lemma StoppedLater(c: Conf, c1: Conf, r: (Option<Error>, Conf), ts: seq<AssetType>, k: nat, dir: string, fs: FileSystem)
    requires k + 1 < |ts| && DistinctTypes(ts)
    requires c1.assets.Keys == c.assets.Keys && r.1.assets.Keys == c.assets.Keys
    requires forall t :: t in c.assets && t != ts[0] ==> c1.assets[t] == c.assets[t]
    requires ts[0] in c.assets ==> (c.assets[ts[0]].Raw? && AllReadable(c.assets[ts[0]].names, dir, fs) &&
      LoadedFrom(r.1.assets[ts[0]], c.assets[ts[0]].names, dir, fs))
    requires ts[k + 1] in c.assets && StoppedAt(c1, r, ts[1..], k, dir, fs)
    ensures StoppedAt(c, r, ts, k + 1, dir, fs)
  {
    var rest := ts[1..];
    assert forall j :: 0 < j < |ts| ==> ts[j] == rest[j - 1] && ts[j] != ts[0];
  }

  /**
   * The conf a walker of directory `dir` holds once `end` succeeds: its
   * manifest's conf with the four types pulled and `dependencies` narrowed
   * as `deps` leaves it.
   */
  function Ended(m: Manifest, dir: string, fs: FileSystem, dev: bool): Conf {
    PullOrderDistinct();
    var c := PulledEach(ConfOf(m, dir), PullOrder, dir, fs).1;
    c.(dependencies := if c.dependencies.Some? then Some(Dependencies(c, dev)) else None)
  }

  predicate AllReadable(names: seq<string>, dir: string, fs: FileSystem) {
    forall i :: 0 <= i < |names| ==> Paths.Resolve(dir, names[i]) in fs.files
  }

  /** One record per name, in order: the name as declared and the text at the path resolved against `dir`. */
  predicate LoadedFrom(a: Assets, names: seq<string>, dir: string, fs: FileSystem) {
    a.Loaded? && |a.files| == |names| &&
    forall i :: 0 <= i < |names| ==>
      Paths.Resolve(dir, names[i]) in fs.files && a.files[i] == File(names[i], fs.files[Paths.Resolve(dir, names[i])])
  }

  /** `e` reports the first declared name whose resolved path is unreadable. */
  ghost predicate FirstUnreadable(names: seq<string>, dir: string, fs: FileSystem, e: Error) {
    exists i :: 0 <= i < |names| && Paths.Resolve(dir, names[i]) !in fs.files &&
      e == AssetReadError(Paths.Resolve(dir, names[i])) &&
      AllReadable(names[..i], dir, fs)
  }

  /** `{filename, contents}` records for declared names and the texts read for them. */
  function Records(names: seq<string>, contents: seq<string>): (r: seq<File>)
    requires |names| == |contents|
    ensures |r| == |names| && forall i :: 0 <= i < |names| ==> r[i] == File(names[i], contents[i])
  {
    seq(|names|, i requires 0 <= i < |names| => File(names[i], contents[i]))
  }
}
