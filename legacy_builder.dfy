/**
 * index.js: the older builder. It keeps one flat ignore list, which its
 * builds never consult, so every declared dependency of every component is
 * built again, in its own child builder, each time it is met. A component
 * without a list of the requested type answers nothing (`fn()`), even when
 * it has dependencies; in a parent's output that nothing counts as `""`.
 *
 * As in lib/builder.js, `Batch` fan-out is read as sequential execution in
 * push order and a walk nested deeper than `fuel` builders is `Diverged`;
 * here that bound is reached by any dependency cycle at all.
 */
module LegacyBuilder {
  import opened Wrappers
  import opened Dict
  import opened Manifest
  import Paths
  import ComponentBuilder

  /** The directory the source builds the dependency `dep` of `dir` from. */
  function ChildDir(dir: string, dep: string): string {
    Paths.Sibling(dir, Paths.Normalize(dep))
  }

  /** The declared dependency names, in declaration order; none when the field is absent. */
  function DependencyNames(m: Manifest): seq<string> {
    if m.dependencies.Some? then Keys(m.dependencies.value) else []
  }

  /**
   * `buildScripts` / `buildStyles` of `dir`: the manifest; nothing when it
   * lists no files of `type`; otherwise every dependency built from its
   * sibling directory, then the own files, the texts joined by `\n`.
   */
  function LegacyBuildOf(fs: FileSystem, dir: string, t: AssetType, fuel: nat): Result<Option<string>, Error>
    decreases fuel, 0
  {
    if fuel == 0 then Failure(Diverged)
    else if dir !in fs.manifests then Failure(ManifestError(Paths.Join(dir, "component.json")))
    else
      var m := fs.manifests[dir];
      if t !in m.files then Success(None)
      else
        var kids := LegacyEach(fs, dir, DependencyNames(m), t, fuel - 1);
        var r := ComponentBuilder.Joined(kids, ComponentBuilder.OwnTexts(fs, dir, m, t));
        if r.Failure? then Failure(r.error) else Success(Some(r.value))
  }

  /** The dependencies of `dir`, built one after the other; an answer of nothing stands for `""`; the first error stops them. */
  function LegacyEach(fs: FileSystem, dir: string, deps: seq<string>, t: AssetType, fuel: nat): Result<seq<string>, Error>
    decreases fuel, |deps| + 1
  {
    if deps == [] then Success([])
    else
      var o := LegacyBuildOf(fs, ChildDir(dir, deps[0]), t, fuel);
      if o.Failure? then Failure(o.error)
      else
        var rest := LegacyEach(fs, dir, deps[1..], t, fuel);
        if rest.Failure? then rest else Success([o.value.GetOr("")] + rest.value)
  }

  /** One text per dependency, whatever the dependencies are called: no dependency is skipped as already built. */
  lemma {:induction false} LegacyEachLength(fs: FileSystem, dir: string, deps: seq<string>, t: AssetType, fuel: nat)
    ensures var r := LegacyEach(fs, dir, deps, t, fuel); r.Success? ==> |r.value| == |deps|
    decreases |deps|
  {
    if deps != [] {
      LegacyEachLength(fs, dir, deps[1..], t, fuel);
    }
  }

  /** Text `k` of a run of dependency builds that succeeds: the build of dependency `k`, nothing read as `""`. */
  lemma {:induction false} LegacyEachText(fs: FileSystem, dir: string, deps: seq<string>, t: AssetType, fuel: nat, k: nat)
    requires k < |deps| && LegacyEach(fs, dir, deps, t, fuel).Success?
    ensures var r := LegacyEach(fs, dir, deps, t, fuel);
      var c := LegacyBuildOf(fs, ChildDir(dir, deps[k]), t, fuel);
      |r.value| == |deps| && c.Success? && r.value[k] == c.value.GetOr("")
    decreases k
  {
    LegacyEachLength(fs, dir, deps, t, fuel);
    var o := LegacyBuildOf(fs, ChildDir(dir, deps[0]), t, fuel);
    var rest := LegacyEach(fs, dir, deps[1..], t, fuel);
    assert o.Success? && rest.Success? && LegacyEach(fs, dir, deps, t, fuel).value == [o.value.GetOr("")] + rest.value;
    if k > 0 {
      LegacyEachText(fs, dir, deps[1..], t, fuel, k - 1);
      assert deps[k] == deps[1..][k - 1];
    }
  }

  /**
   * The texts of a run of dependency builds that succeeds: one per declared
   * dependency, in order, text `k` being the build of dependency `k` from
   * its sibling directory.
   */
  lemma LegacyEachTexts(fs: FileSystem, dir: string, deps: seq<string>, t: AssetType, fuel: nat)
    ensures var r := LegacyEach(fs, dir, deps, t, fuel);
      r.Success? ==> (|r.value| == |deps| &&
        forall k :: 0 <= k < |deps| ==>
          var c := LegacyBuildOf(fs, ChildDir(dir, deps[k]), t, fuel);
          c.Success? && r.value[k] == c.value.GetOr(""))
  {
    if LegacyEach(fs, dir, deps, t, fuel).Success? {
      LegacyEachLength(fs, dir, deps, t, fuel);
      forall k | 0 <= k < |deps|
        ensures var c := LegacyBuildOf(fs, ChildDir(dir, deps[k]), t, fuel);
          c.Success? && LegacyEach(fs, dir, deps, t, fuel).value[k] == c.value.GetOr("")
      {
        LegacyEachText(fs, dir, deps, t, fuel, k);
      }
    }
  }

  /**
   * What a build answers: nothing exactly when the manifest is read and
   * lists no files of `type`; a text only when every declared dependency
   * gave one, in declaration order, text `k` being the build of dependency
   * `k` from its sibling directory, followed by the own texts.
   */
  lemma LegacyOutput(fs: FileSystem, dir: string, t: AssetType, fuel: nat)
    ensures var r := LegacyBuildOf(fs, dir, t, fuel);
      (r == Success(None) <==> fuel > 0 && dir in fs.manifests && t !in fs.manifests[dir].files) &&
      (r.Success? && r.value.Some? ==>
        fuel > 0 && dir in fs.manifests &&
        var m := fs.manifests[dir];
        var deps := DependencyNames(m);
        var kids := LegacyEach(fs, dir, deps, t, fuel - 1);
        ComponentBuilder.OwnTexts(fs, dir, m, t).Success? && kids.Success? && |kids.value| == |deps| &&
        (forall k :: 0 <= k < |deps| ==>
          var c := LegacyBuildOf(fs, ChildDir(dir, deps[k]), t, fuel - 1);
          c.Success? && kids.value[k] == c.value.GetOr("")) &&
        r.value.value == JoinWith(kids.value + ComponentBuilder.OwnTexts(fs, dir, m, t).value, "\n"))
  {
    var r := LegacyBuildOf(fs, dir, t, fuel);
    if r.Success? && r.value.Some? {
      var m := fs.manifests[dir];
      LegacyEachTexts(fs, dir, DependencyNames(m), t, fuel - 1);
    }
  }

  /**
   * Nothing stops a cycle: a component listing files of `type` whose first
   * dependency is built from its own directory never answers, for any
   * bound on the nesting.
   */
  lemma {:induction false} SelfDependencyDiverges(fs: FileSystem, dir: string, t: AssetType, fuel: nat)
    requires dir in fs.manifests && t in fs.manifests[dir].files
    requires |DependencyNames(fs.manifests[dir])| > 0 && ChildDir(dir, DependencyNames(fs.manifests[dir])[0]) == dir
    ensures LegacyBuildOf(fs, dir, t, fuel) == Failure(Diverged)
    decreases fuel
  {
    if fuel > 0 {
      SelfDependencyDiverges(fs, dir, t, fuel - 1);
    }
  }

  /** What `build` answers: `js` and `css`, each possibly nothing. */
  datatype LegacyResult = LegacyResult(js: Option<string>, css: Option<string>)

  class Builder {
    const fs: FileSystem
    const dir: string
    const name: string
    /** `this._ignore`. */
    var ignoreList: seq<string>
    /** `this.conf`, the memoised manifest; `None` is `undefined`. */
    var conf: Option<Manifest>

    /** The memoised manifest, once read, is the one on disk. */
    ghost predicate Valid()
      reads this
    {
      conf.Some? ==> dir in fs.manifests && conf.value == fs.manifests[dir]
    }

    /** `new Builder(dir)`: named after the last segment of `dir`, ignoring nothing. */
    constructor (fs: FileSystem, dir: string)
      ensures this.fs == fs && this.dir == dir && name == Paths.Basename(dir)
      ensures ignoreList == [] && conf.None? && Valid()
    {
      this.fs := fs;
      this.dir := dir;
      name := Paths.Basename(dir);
      ignoreList := [];
      conf := None;
    }

    /** `ignore(name)`: every name given, its first `/` made `-`, appended in order. */
    method Ignore(n: ComponentBuilder.Names)
      modifies this`ignoreList
      ensures ignoreList == old(ignoreList) + ComponentBuilder.NormalizeAll(ComponentBuilder.Listed(n))
    {
      var xs := ComponentBuilder.Listed(n);
      var i := 0;
      while i < |xs|
        invariant 0 <= i <= |xs|
        invariant ignoreList == old(ignoreList) + ComponentBuilder.NormalizeAll(xs[..i])
      {
        assert ComponentBuilder.NormalizeAll(xs[..i + 1]) == ComponentBuilder.NormalizeAll(xs[..i]) + [Paths.Normalize(xs[i])];
        ignoreList := ignoreList + [Paths.Normalize(xs[i])];
        i := i + 1;
      }
      assert xs[..i] == xs;
    }

    /** `ignoring(name)`: `name`, as given, is on the list. */
    predicate Ignoring(n: string)
      reads this
    {
      n in ignoreList
    }

    /** `path(file)`: `file` under this builder's directory. */
    function Path(file: string): string {
      Paths.Join(dir, file)
    }

    /** `json(fn)`: the memoised manifest when there is one, otherwise the one on disk, kept; a missing one is the error. */
    method Json() returns (r: Result<Manifest, Error>)
      requires Valid()
      modifies this`conf
      ensures Valid()
      ensures old(conf).Some? ==> r == Success(old(conf).value) && conf == old(conf)
      ensures dir in fs.manifests ==> r == Success(fs.manifests[dir]) && conf == Some(fs.manifests[dir])
      ensures dir !in fs.manifests ==> r == Failure(ManifestError(Path("component.json"))) && conf == old(conf)
    {
      if conf.Some? {
        return Success(conf.value);
      }
      if dir !in fs.manifests {
        return Failure(ManifestError(Path("component.json")));
      }
      conf := Some(fs.manifests[dir]);
      return Success(conf.value);
    }

    /** The dependencies: a fresh builder for each, run in turn; the first error stops them. */
    method BuildChildren(deps: seq<string>, t: AssetType, fuel: nat) returns (r: Result<seq<string>, Error>)
      ensures r == LegacyEach(fs, dir, deps, t, fuel)
      decreases fuel, |deps| + 1
    {
      if deps == [] {
        return Success([]);
      }
      var child := new Builder(fs, ChildDir(dir, deps[0]));
      var o := child.BuildType(t, fuel);
      if o.Failure? {
        return Failure(o.error);
      }
      var rest := BuildChildren(deps[1..], t, fuel);
      if rest.Failure? {
        return rest;
      }
      return Success([o.value.GetOr("")] + rest.value);
    }

    /**
     * `buildScripts` / `buildStyles`: the manifest; nothing without a list
     * of `type`; otherwise the dependencies, then the own files, joined by
     * `\n`.
     */
    method BuildType(t: AssetType, fuel: nat) returns (r: Result<Option<string>, Error>)
      requires Valid()
      modifies this`conf
      ensures Valid()
      ensures r == LegacyBuildOf(fs, dir, t, fuel)
      decreases fuel, 0
    {
      if fuel == 0 {
        return Failure(Diverged);
      }
      var c := Json();
      if c.Failure? {
        return Failure(c.error);
      }
      var m := c.value;
      if t !in m.files {
        return Success(None);
      }
      var kids := BuildChildren(DependencyNames(m), t, fuel - 1);
      if kids.Failure? {
        return Failure(kids.error);
      }
      var own := ComponentBuilder.ReadOwn(fs, dir, m, t);
      if own.Failure? {
        return Failure(own.error);
      }
      return Success(Some(JoinWith(kids.value + own.value, "\n")));
    }

    /** `buildScripts(fn)`. */
    method BuildScripts(fuel: nat) returns (r: Result<Option<string>, Error>)
      requires Valid()
      modifies this`conf
      ensures Valid() && r == LegacyBuildOf(fs, dir, Scripts, fuel)
    {
      r := BuildType(Scripts, fuel);
    }

    /** `buildStyles(fn)`. */
    method BuildStyles(fuel: nat) returns (r: Result<Option<string>, Error>)
      requires Valid()
      modifies this`conf
      ensures Valid() && r == LegacyBuildOf(fs, dir, Styles, fuel)
    {
      r := BuildType(Styles, fuel);
    }

    /** `build(fn)`: scripts, then styles, answered as `{js, css}`; the first error is the answer. */
    method Build(fuel: nat) returns (r: Result<LegacyResult, Error>)
      requires Valid()
      modifies this`conf
      ensures Valid()
      ensures var js, css := LegacyBuildOf(fs, dir, Scripts, fuel), LegacyBuildOf(fs, dir, Styles, fuel);
        r == if js.Failure? then Failure(js.error)
             else if css.Failure? then Failure(css.error)
             else Success(LegacyResult(js.value, css.value))
    {
      var js := BuildScripts(fuel);
      if js.Failure? {
        return Failure(js.error);
      }
      var css := BuildStyles(fuel);
      if css.Failure? {
        return Failure(css.error);
      }
      return Success(LegacyResult(js.value, css.value));
    }
  }
}
