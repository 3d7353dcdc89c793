/**
 * The data the builder works on: a parsed `component.json` (the `conf`
 * object), the per-type file lists it carries before and after they are
 * read, and a model filesystem standing in for `fs`.
 */
module Manifest {
  import opened Wrappers
  import opened Dict
  import Paths

  /** The per-type file lists a manifest may declare. */
  datatype AssetType = Templates | Scripts | Styles | Json | Images | Fonts | Files

  /** One loaded file: `{filename, contents}`; `filename` stays as declared. */
  datatype File = File(filename: string, contents: string)

  /** A declared list of file names, or the records that replaced it once read. */
  datatype Assets = Raw(names: seq<string>) | Loaded(files: seq<File>)

  /**
   * A parsed `component.json`. Optional JSON fields are `Option`s, `None`
   * being `undefined`; `name` and `main` are plain strings, `""` being falsy.
   * `files[t]` is the declared list of type `t`; a type missing from `files`
   * is a field the manifest does not have.
   */
  datatype Manifest = Manifest(
    name: string,
    main: string,
    dependencies: Option<Dict>,
    development: Option<Dict>,
    local: Option<seq<string>>,
    locals: Option<seq<string>>,
    paths: Option<seq<string>>,
    files: map<AssetType, seq<string>>)

  /**
   * A component's `conf` while the resolver and the build pipeline work on
   * it: the manifest's fields, the per-type lists (raw or loaded) and `dir`,
   * which is what `conf.path()` answers once `configure` has run.
   */
  datatype Conf = Conf(
    name: string,
    main: string,
    dependencies: Option<Dict>,
    development: Option<Dict>,
    local: Option<seq<string>>,
    locals: Option<seq<string>>,
    paths: Option<seq<string>>,
    assets: map<AssetType, Assets>,
    dir: string)

  /** The `conf` of a freshly read manifest of directory `dir`: every declared list still raw. */
  function ConfOf(m: Manifest, dir: string): (c: Conf)
    ensures c.name == m.name && c.dir == dir
    ensures c.assets.Keys == m.files.Keys
    ensures forall t :: t in m.files ==> c.assets[t] == Raw(m.files[t])
  {
    Conf(m.name, m.main, m.dependencies, m.development, m.local, m.locals, m.paths,
         map t | t in m.files :: Raw(m.files[t]), dir)
  }

  /**
   * The filesystem: `manifests[dir]` is the parsed `component.json` of
   * directory `dir` (so `exists(join(dir, 'component.json'))` is membership),
   * and `files[path]` is the text of the file at `path`.
   */
  datatype FileSystem = FileSystem(manifests: map<string, Manifest>, files: map<string, string>)

  /** The fatal errors: a missing manifest, an unresolvable dependency (with its exact message), an unreadable file, and a walk that never ends. */
  datatype Error =
    | ManifestError(path: string)
    | DependencyNotFound(message: string)
    | AssetReadError(path: string)
    | Diverged

  /** The files of `type` a component contributes once loaded; none when the field is absent. */
  function FilesOf(c: Conf, t: AssetType): seq<File> {
    if t in c.assets && c.assets[t].Loaded? then c.assets[t].files else []
  }

  /** `conf.local || conf.locals || []`. */
  function LocalNames(local: Option<seq<string>>, locals: Option<seq<string>>): seq<string> {
    if local.Some? then local.value
    else if locals.Some? then locals.value
    else []
  }

  /** Every dependency name a manifest declares, under any of its three fields. */
  function DeclaredNames(m: Manifest): seq<string> {
    Keys(m.dependencies.GetOr([])) + Keys(m.development.GetOr([])) + LocalNames(m.local, m.locals)
  }

  /** Every normalised dependency name any manifest of the filesystem declares: a finite universe. */
  function AllNames(fs: FileSystem): set<string> {
    set d, k | d in fs.manifests && k in DeclaredNames(fs.manifests[d]) :: Paths.Normalize(k)
  }

  /** Reading `files` one by one, keeping declaration order; the first missing path is the error. */
  function ReadAll(fs: FileSystem, paths: seq<string>): (r: Result<seq<string>, Error>)
    ensures r.Success? <==> forall i :: 0 <= i < |paths| ==> paths[i] in fs.files
    ensures r.Success? ==> |r.value| == |paths|
    ensures r.Success? ==> forall i :: 0 <= i < |paths| ==> r.value[i] == fs.files[paths[i]]
    ensures r.Failure? ==> exists i :: 0 <= i < |paths| && paths[i] !in fs.files && r.error == AssetReadError(paths[i])
  {
    if paths == [] then Success([])
    else if paths[0] !in fs.files then Failure(AssetReadError(paths[0]))
    else
      match ReadAll(fs, paths[1..])
      case Failure(e) => Failure(e)
      case Success(rest) => Success([fs.files[paths[0]]] + rest)
  }

  /** Reading stops at the first unreadable path, and that path is the error. */
  lemma {:induction false} ReadAllFirstMissing(fs: FileSystem, paths: seq<string>, i: nat)
    requires i < |paths| && paths[i] !in fs.files
    requires forall j :: 0 <= j < i ==> paths[j] in fs.files
    ensures ReadAll(fs, paths) == Failure(AssetReadError(paths[i]))
  {
    if i > 0 {
      ReadAllFirstMissing(fs, paths[1..], i - 1);
    }
  }

  /** The first position of `ps` that is not a readable file. */
  lemma FirstMissing(ps: seq<string>, fs: FileSystem) returns (i: nat)
    requires exists i :: 0 <= i < |ps| && ps[i] !in fs.files
    ensures i < |ps| && ps[i] !in fs.files && forall j :: 0 <= j < i ==> ps[j] in fs.files
  {
    i := 0;
    while ps[i] in fs.files
      invariant i < |ps| && forall j :: 0 <= j < i ==> ps[j] in fs.files
      invariant exists k :: i <= k < |ps| && ps[k] !in fs.files
      decreases |ps| - i
    {
      i := i + 1;
    }
  }

  /** `array.join(sep)`. */
  function JoinWith(parts: seq<string>, sep: string): string {
    if parts == [] then ""
    else if |parts| == 1 then parts[0]
    else parts[0] + sep + JoinWith(parts[1..], sep)
  }

  /** Joining one more part appends the separator and that part. */
  lemma {:induction false} JoinWithSnoc(parts: seq<string>, p: string, sep: string)
    requires parts != []
    ensures JoinWith(parts + [p], sep) == JoinWith(parts, sep) + sep + p
  {
    if |parts| == 1 {
      assert (parts + [p])[1..] == [p];
    } else {
      assert (parts + [p])[1..] == parts[1..] + [p];
      JoinWithSnoc(parts[1..], p, sep);
    }
  }
}
