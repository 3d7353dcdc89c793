/**
 * lib/builder.js: a builder for one component directory. `buildScripts` and
 * `buildStyles` read the manifest, make a child builder for every
 * dependency not yet ignored (marking it ignored first), build the children
 * from their sibling directories, then the component's own files, and join
 * the texts with `\n`. The children share the `ignored` object of their
 * parent, so within one build a dependency is built at most once per type.
 *
 * `Batch` fan-out is read as sequential execution in push order. The model
 * filesystem stands in for `fs`. A walk nested deeper than `fuel` builders
 * is the error `Diverged`. Names that `ignore` does not leave as they are
 * (two or more `/`) are never found in the lists, so they are built again
 * each time they occur; with plain string paths such a name leads one
 * directory deeper, while the source's `path.resolve` can fold `..` and
 * close a cycle through them that does not end.
 */
module ComponentBuilder {
  import opened Wrappers
  import opened Dict
  import opened Manifest
  import Paths
  import CommonJs
  import Resolver

  /** The `name` argument of `ignore`: one name, or an array of them. */
  datatype Names = One(name: string) | Many(names: seq<string>)

  /** The names an argument of `ignore` stands for, in order. */
  function Listed(n: Names): seq<string> {
    match n
    case One(x) => [x]
    case Many(xs) => xs
  }

  /** The two types a builder builds; the `ignored` object has a list for each. */
  predicate IsBuildType(t: AssetType) {
    t == Scripts || t == Styles
  }

  /** The value of the shared `ignored` object, `{scripts: [...], styles: [...]}`. */
  datatype Lists = Lists(scripts: seq<string>, styles: seq<string>)

  /** `ignored[type]`. */
  function Get(l: Lists, t: AssetType): seq<string>
    requires IsBuildType(t)
  {
    if t == Scripts then l.scripts else l.styles
  }

  /** The type whose list a build of `t` leaves alone. */
  function Other(t: AssetType): AssetType {
    if t == Scripts then Styles else Scripts
  }

  /** `ignored[type].push(x)`. */
  function Pushed(l: Lists, t: AssetType, x: string): (r: Lists)
    requires IsBuildType(t)
    ensures Get(r, t) == Get(l, t) + [x]
    ensures Get(r, Other(t)) == Get(l, Other(t))
  {
    if t == Scripts then l.(scripts := l.scripts + [x]) else l.(styles := l.styles + [x])
  }

  /** The names, each with its first `/` made `-`. */
  function NormalizeAll(names: seq<string>): (r: seq<string>)
    ensures |r| == |names| && forall i :: 0 <= i < |names| ==> r[i] == Paths.Normalize(names[i])
  {
    seq(|names|, i requires 0 <= i < |names| => Paths.Normalize(names[i]))
  }

  /** The loop of `ignore(name, type)`: each name, normalised, pushed onto `type`'s list in turn. */
  function PushAll(l: Lists, t: AssetType, names: seq<string>): Lists
    requires IsBuildType(t)
    decreases |names|
  {
    if names == [] then l
    else Pushed(PushAll(l, t, names[..|names| - 1]), t, Paths.Normalize(names[|names| - 1]))
  }

  /** `ignore(name, type)` on the value of the lists; without a type, the names go to `scripts`, then to `styles`. */
  function IgnoreAll(l: Lists, names: seq<string>, t: Option<AssetType>): Lists
    requires t.Some? ==> IsBuildType(t.value)
  {
    if t.None? then PushAll(PushAll(l, Scripts, names), Styles, names) else PushAll(l, t.value, names)
  }

  /** `ignoring(name, type)`: `name` as given, not normalised, is in `type`'s list; without a type, in both. */
  predicate IgnoringIn(l: Lists, name: string, t: Option<AssetType>)
    requires t.Some? ==> IsBuildType(t.value)
  {
    if t.None? then name in l.scripts && name in l.styles else name in Get(l, t.value)
  }

  lemma {:induction false} PushAllSpec(l: Lists, t: AssetType, names: seq<string>)
    requires IsBuildType(t)
    ensures Get(PushAll(l, t, names), t) == Get(l, t) + NormalizeAll(names)
    ensures Get(PushAll(l, t, names), Other(t)) == Get(l, Other(t))
    decreases |names|
  {
    if names != [] {
      var init := names[..|names| - 1];
      PushAllSpec(l, t, init);
      assert NormalizeAll(names) == NormalizeAll(init) + [Paths.Normalize(names[|names| - 1])];
    }
  }

  /** `ignore` of a single name pushes it, normalised, once. */
  lemma PushAllOne(l: Lists, t: AssetType, x: string)
    requires IsBuildType(t)
    ensures PushAll(l, t, [x]) == Pushed(l, t, Paths.Normalize(x))
  {
    assert [x][..0] == [];
  }

  /**
   * What `ignore` promises: every name, its first `/` made `-`, is appended
   * in order to the list of `type`, the other list unchanged; without a
   * type, to both lists.
   */
  lemma IgnoreSpec(l: Lists, names: seq<string>, t: Option<AssetType>)
    requires t.Some? ==> IsBuildType(t.value)
    ensures var r := IgnoreAll(l, names, t);
      (t != Some(Styles) ==> r.scripts == l.scripts + NormalizeAll(names)) &&
      (t != Some(Scripts) ==> r.styles == l.styles + NormalizeAll(names)) &&
      (t == Some(Scripts) ==> r.styles == l.styles) &&
      (t == Some(Styles) ==> r.scripts == l.scripts)
  {
    PushAllSpec(l, Scripts, names);
    PushAllSpec(PushAll(l, Scripts, names), Styles, names);
    PushAllSpec(l, Styles, names);
  }

  /** After `ignore(names, type)`, `ignoring` holds of every name given, once normalised; without a type, for both lists. */
  lemma IgnoreThenIgnoring(l: Lists, names: seq<string>, t: Option<AssetType>, n: string)
    requires t.Some? ==> IsBuildType(t.value)
    requires n in names
    ensures IgnoringIn(IgnoreAll(l, names, t), Paths.Normalize(n), t)
  {
    IgnoreSpec(l, names, t);
    var k :| 0 <= k < |names| && names[k] == n;
    assert (l.scripts + NormalizeAll(names))[|l.scripts| + k] == Paths.Normalize(n);
    assert (l.styles + NormalizeAll(names))[|l.styles| + k] == Paths.Normalize(n);
  }

  /**
   * The first half of `buildScripts` (and `buildStyles`): each declared
   * dependency, in order, normalised; one already in `type`'s list is
   * skipped, any other is passed to `ignore` (which normalises it once
   * more) and kept. The answer: the kept names, and the lists after.
   */
  function Mark(deps: seq<string>, l: Lists, t: AssetType): (seq<string>, Lists)
    requires IsBuildType(t)
    decreases |deps|
  {
    if deps == [] then ([], l)
    else
      var d := Paths.Normalize(deps[0]);
      if d in Get(l, t) then Mark(deps[1..], l, t)
      else
        var r := Mark(deps[1..], Pushed(l, t, Paths.Normalize(d)), t);
        ([d] + r.0, r.1)
  }

  /** One step of marking: the first dependency, normalised, skipped when ignored, otherwise kept and ignored. */
  lemma MarkStep(deps: seq<string>, l: Lists, t: AssetType)
    requires IsBuildType(t) && deps != []
    ensures var d := Paths.Normalize(deps[0]);
      Mark(deps, l, t) ==
        if d in Get(l, t) then Mark(deps[1..], l, t)
        else ([d] + Mark(deps[1..], Pushed(l, t, Paths.Normalize(d)), t).0, Mark(deps[1..], Pushed(l, t, Paths.Normalize(d)), t).1)
  {
  }

  /** Marking one more dependency at the end: it is skipped when the lists marking left already hold it, otherwise kept and pushed. */
  lemma {:induction false} MarkSnoc(deps: seq<string>, x: string, l: Lists, t: AssetType)
    requires IsBuildType(t)
    ensures var r := Mark(deps, l, t);
      var d := Paths.Normalize(x);
      Mark(deps + [x], l, t) == if d in Get(r.1, t) then r else (r.0 + [d], Pushed(r.1, t, Paths.Normalize(d)))
    decreases |deps|
  {
    if deps == [] {
      var d := Paths.Normalize(x);
      var l1 := Pushed(l, t, Paths.Normalize(d));
      assert deps + [x] == [x] && [x][0] == x && [x][1..] == [] && [] + [d] == [d] && [d] + [] == [d];
      MarkStep([x], l, t);
      assert Mark([], l, t) == ([], l) && Mark([], l1, t) == ([], l1);
      assert Mark([x], l, t) == if d in Get(l, t) then ([], l) else ([d], l1);
    } else {
      assert (deps + [x])[0] == deps[0] && (deps + [x])[1..] == deps[1..] + [x];
      var d0 := Paths.Normalize(deps[0]);
      if d0 in Get(l, t) {
        MarkSnoc(deps[1..], x, l, t);
      } else {
        var l1 := Pushed(l, t, Paths.Normalize(d0));
        MarkSnoc(deps[1..], x, l1, t);
        var r1 := Mark(deps[1..], l1, t);
        assert [d0] + (r1.0 + [Paths.Normalize(x)]) == ([d0] + r1.0) + [Paths.Normalize(x)];
      }
    }
  }

  /** Marking only appends to `type`'s list, one normalised entry per kept name, and leaves the other list alone. */
  lemma {:induction false} MarkLists(deps: seq<string>, l: Lists, t: AssetType)
    requires IsBuildType(t)
    ensures var r := Mark(deps, l, t);
      Get(r.1, t) == Get(l, t) + NormalizeAll(r.0) &&
      Get(r.1, Other(t)) == Get(l, Other(t))
    decreases |deps|
  {
    if deps != [] {
      var d := Paths.Normalize(deps[0]);
      MarkStep(deps, l, t);
      if d in Get(l, t) {
        MarkLists(deps[1..], l, t);
      } else {
        var l2 := Pushed(l, t, Paths.Normalize(d));
        MarkLists(deps[1..], l2, t);
        var r := Mark(deps[1..], l2, t);
        assert NormalizeAll([d] + r.0) == [Paths.Normalize(d)] + NormalizeAll(r.0);
        assert Get(l2, t) + NormalizeAll(r.0) == Get(l, t) + ([Paths.Normalize(d)] + NormalizeAll(r.0));
      }
    }
  }

  /** A dependency whose normalised name is already ignored for `type` gets no child builder. */
  lemma {:induction false} MarkSkipsIgnored(deps: seq<string>, l: Lists, t: AssetType, x: string)
    requires IsBuildType(t) && x in Mark(deps, l, t).0
    ensures x !in Get(l, t)
    ensures exists k :: 0 <= k < |deps| && Paths.Normalize(deps[k]) == x
    decreases |deps|
  {
    var d := Paths.Normalize(deps[0]);
    if d in Get(l, t) {
      MarkSkipsIgnored(deps[1..], l, t, x);
      var k :| 0 <= k < |deps[1..]| && Paths.Normalize(deps[1..][k]) == x;
      assert deps[k + 1] == deps[1..][k];
    } else if x != d {
      var l2 := Pushed(l, t, Paths.Normalize(d));
      MarkSkipsIgnored(deps[1..], l2, t, x);
      var k :| 0 <= k < |deps[1..]| && Paths.Normalize(deps[1..][k]) == x;
      assert deps[k + 1] == deps[1..][k];
    }
  }

  /** Every declared dependency is either kept or found in `type`'s list after marking. */
  lemma {:induction false} MarkCovers(deps: seq<string>, l: Lists, t: AssetType, k: nat)
    requires IsBuildType(t) && k < |deps|
    ensures var r := Mark(deps, l, t);
      Paths.Normalize(deps[k]) in r.0 || Paths.Normalize(deps[k]) in Get(r.1, t)
    decreases |deps|
  {
    var d := Paths.Normalize(deps[0]);
    var l2 := if d in Get(l, t) then l else Pushed(l, t, Paths.Normalize(d));
    MarkLists(deps[1..], l2, t);
    if k > 0 {
      MarkCovers(deps[1..], l2, t, k - 1);
      assert deps[1..][k - 1] == deps[k];
    } else if d in Get(l, t) {
      var r := Mark(deps[1..], l, t);
      assert d in Get(l, t) + NormalizeAll(r.0);
    }
  }

  /**
   * For names with at most one `/` the second normalisation changes
   * nothing, so the kept names are exactly the normalised declared names
   * not yet in `type`'s list, in declaration order, each once.
   */
  lemma {:induction false} MarkNewKeys(deps: seq<string>, l: Lists, t: AssetType)
    requires IsBuildType(t)
    requires forall k :: 0 <= k < |deps| ==> '/' !in Paths.Normalize(deps[k])
    ensures Mark(deps, l, t).0 == NewKeys(Get(l, t), NormalizeAll(deps))
    decreases |deps|
  {
    if deps != [] {
      var d := Paths.Normalize(deps[0]);
      var n := NormalizeAll(deps);
      assert n[0] == d && n[1..] == NormalizeAll(deps[1..]);
      assert forall k :: 0 <= k < |deps| - 1 ==> deps[1..][k] == deps[k + 1];
      if d in Get(l, t) {
        MarkNewKeys(deps[1..], l, t);
      } else {
        Paths.ReplaceFirstSpec(d, '/', '-');
        MarkNewKeys(deps[1..], Pushed(l, t, d), t);
      }
    }
  }

  /** Every name a child builder was made for is recorded, normalised, in `type`'s list. */
  predicate Recorded(l: Lists, t: AssetType, built: seq<string>)
    requires IsBuildType(t)
  {
    forall x :: x in built ==> Paths.Normalize(x) in Get(l, t)
  }

  /** No name that `ignore` leaves as it is was given a child builder twice. */
  predicate OnceEach(built: seq<string>) {
    forall i, j :: 0 <= i < j < |built| && built[i] == built[j] ==> Paths.Normalize(built[i]) != built[i]
  }

  /** `Recorded` survives the lists growing. */
  lemma RecordedGrows(l: Lists, l': Lists, t: AssetType, built: seq<string>)
    requires IsBuildType(t) && Recorded(l, t, built) && Get(l, t) <= Get(l', t)
    ensures Recorded(l', t, built)
  {
    forall x | x in built ensures Paths.Normalize(x) in Get(l', t) {
      var k :| 0 <= k < |Get(l, t)| && Get(l, t)[k] == Paths.Normalize(x);
      assert Get(l', t)[k] == Get(l, t)[k];
    }
  }

  /** One kept name: it was not in the list, so a name `ignore` leaves alone was never kept before. */
  lemma KeepOne(l: Lists, t: AssetType, before: seq<string>, d: string)
    requires IsBuildType(t) && Recorded(l, t, before) && OnceEach(before) && d !in Get(l, t)
    ensures Recorded(Pushed(l, t, Paths.Normalize(d)), t, before + [d])
    ensures OnceEach(before + [d])
  {
    var l2 := Pushed(l, t, Paths.Normalize(d));
    RecordedGrows(l, l2, t, before);
    var b := before + [d];
    forall i, j | 0 <= i < j < |b| && b[i] == b[j] ensures Paths.Normalize(b[i]) != b[i] {
      if j < |before| {
        assert b[i] == before[i] && b[j] == before[j];
      } else {
        assert b[i] == before[i] && before[i] in before;
      }
    }
  }

  /** Marking keeps the dedup invariant: each kept name is recorded, and no name `ignore` leaves alone is kept twice. */
  lemma {:induction false} MarkOnce(deps: seq<string>, l: Lists, t: AssetType, before: seq<string>)
    requires IsBuildType(t) && Recorded(l, t, before) && OnceEach(before)
    ensures var r := Mark(deps, l, t);
      Recorded(r.1, t, before + r.0) && OnceEach(before + r.0)
    decreases |deps|
  {
    if deps == [] {
      assert before + [] == before;
    } else {
      var d := Paths.Normalize(deps[0]);
      if d in Get(l, t) {
        MarkOnce(deps[1..], l, t, before);
      } else {
        var l2 := Pushed(l, t, Paths.Normalize(d));
        KeepOne(l, t, before, d);
        MarkOnce(deps[1..], l2, t, before + [d]);
        var r := Mark(deps[1..], l2, t);
        assert before + ([d] + r.0) == (before + [d]) + r.0;
      }
    }
  }

  /** What building one directory leaves: its text or the error, the lists after, and the names child builders were made for, in order. */
  datatype Outcome = Outcome(result: Result<string, Error>, lists: Lists, built: seq<string>)

  /** The same for a run of child builds: their texts in order, or the first error. */
  datatype Outcomes = Outcomes(result: Result<seq<string>, Error>, lists: Lists, built: seq<string>)

  /** The names a build of a directory with manifest `m` makes children for, and the lists after marking them. */
  function Pending(m: Manifest, l: Lists, t: AssetType): (seq<string>, Lists)
    requires IsBuildType(t)
  {
    if m.dependencies.Some? then Mark(Keys(m.dependencies.value), l, t) else ([], l)
  }

  /** The text between the module name and the body of `register`, and the text after the body. */
  const RegisterOpen := "\", function(module, exports, require){\n"
  const RegisterClose := "\n});"

  /** `register(path, js)`: a CommonJS module registered under `path` whose body is `js`. */
  function Register(path: string, js: string): string {
    CommonJs.RegisterHead + path + RegisterOpen + js + RegisterClose
  }

  /** Reads a registration back into its module name and body, the name running up to the first `"`. */
  function ReadRegistration(text: string): Option<(string, string)> {
    var head := CommonJs.RegisterHead;
    if |text| < |head| || text[..|head|] != head then None
    else
      var rest := text[|head|..];
      var k := Paths.IndexOf(rest, '"');
      match CommonJs.Between(rest[k..], RegisterOpen, RegisterClose)
      case None => None
      case Some(body) => Some((rest[..k], body))
  }

  /** A registration reads back as the module name and body it was made from, for a name free of `"`. */
  lemma RegisterRoundTrip(path: string, js: string)
    requires '"' !in path
    ensures ReadRegistration(Register(path, js)) == Some((path, js))
  {
    var tail := RegisterOpen + js + RegisterClose;
    assert Register(path, js) == CommonJs.RegisterHead + path + tail;
    CommonJs.SplitName(CommonJs.RegisterHead, path, tail);
    CommonJs.BetweenOf(RegisterOpen, js, RegisterClose);
  }

  /** The text a build contributes for its own file `name` with contents `text`: a registration for scripts, the contents for styles. */
  function OwnText(m: Manifest, t: AssetType, name: string, text: string): string {
    if t == Scripts then Register(m.name + "/" + name, text) else text
  }

  /** The declared files of `type`; none when the field is absent. */
  function Declared(m: Manifest, t: AssetType): seq<string> {
    if t in m.files then m.files[t] else []
  }

  /** `self.path(file)` for every name. */
  function PathsOf(dir: string, names: seq<string>): (r: seq<string>)
    ensures |r| == |names| && forall i :: 0 <= i < |names| ==> r[i] == Paths.Join(dir, names[i])
  {
    seq(|names|, i requires 0 <= i < |names| => Paths.Join(dir, names[i]))
  }

  /** The own half of the batch: every declared file of `type` read, in order, and turned into its text. */
  function OwnTexts(fs: FileSystem, dir: string, m: Manifest, t: AssetType): Result<seq<string>, Error> {
    var names := Declared(m, t);
    var read := ReadAll(fs, PathsOf(dir, names));
    if read.Failure? then Failure(read.error)
    else Success(seq(|names|, i requires 0 <= i < |names| => OwnText(m, t, names[i], read.value[i])))
  }

  /**
   * The own texts, read as `buildScripts` and `buildStyles` promise: one per
   * declared file, in order, a registration under `<conf.name>/<file>` for
   * scripts and the raw contents for styles; the first unreadable file is
   * the error.
   */
  lemma OwnTextsSpec(fs: FileSystem, dir: string, m: Manifest, t: AssetType)
    ensures var names := Declared(m, t);
      var r := OwnTexts(fs, dir, m, t);
      (r.Success? <==> forall i :: 0 <= i < |names| ==> Paths.Join(dir, names[i]) in fs.files) &&
      (r.Success? ==> |r.value| == |names| && forall i :: 0 <= i < |names| ==>
        r.value[i] == (if t == Scripts then Register(m.name + "/" + names[i], fs.files[Paths.Join(dir, names[i])])
                       else fs.files[Paths.Join(dir, names[i])])) &&
      (r.Failure? ==> exists i :: (0 <= i < |names| && Paths.Join(dir, names[i]) !in fs.files &&
        r.error == AssetReadError(Paths.Join(dir, names[i])) &&
        forall j :: 0 <= j < i ==> Paths.Join(dir, names[j]) in fs.files))
  {
    var names := Declared(m, t);
    var ps := PathsOf(dir, names);
    if exists i :: 0 <= i < |ps| && ps[i] !in fs.files {
      var i := FirstMissing(ps, fs);
      ReadAllFirstMissing(fs, ps, i);
    }
  }

  /** A run of child builds with texts `outs` and names `built` before it. */
  function Prepend(outs: seq<string>, built: seq<string>, rest: Outcomes): Outcomes {
    Outcomes(if rest.result.Failure? then rest.result else Success(outs + rest.result.value), rest.lists, built + rest.built)
  }

  /**
   * `buildScripts` / `buildStyles` of directory `dir`, starting from lists
   * `l`: read the manifest, mark the dependencies, build each kept one from
   * its sibling directory with a builder sharing the lists, then the own
   * files; the texts joined by `\n`, the dependencies' first.
   */
  function BuildOf(fs: FileSystem, dir: string, t: AssetType, l: Lists, fuel: nat): Outcome
    requires IsBuildType(t)
    decreases fuel, 0
  {
    if fuel == 0 then Outcome(Failure(Diverged), l, [])
    else if dir !in fs.manifests then Outcome(Failure(ManifestError(Paths.Join(dir, "component.json"))), l, [])
    else
      var m := fs.manifests[dir];
      var p := Pending(m, l, t);
      var kids := BuildEach(fs, dir, p.0, t, p.1, fuel - 1);
      Outcome(Joined(kids.result, OwnTexts(fs, dir, m, t)), kids.lists, p.0 + kids.built)
  }

  /** `batch.end`: the first error, the children's before the own files'; otherwise all texts joined by `\n`. */
  function Joined(kids: Result<seq<string>, Error>, own: Result<seq<string>, Error>): Result<string, Error> {
    if kids.Failure? then Failure(kids.error)
    else if own.Failure? then Failure(own.error)
    else Success(JoinWith(kids.value + own.value, "\n"))
  }

  /** The children of `dir` for `names`, built one after the other on the shared lists; the first error stops them. */
  function BuildEach(fs: FileSystem, dir: string, names: seq<string>, t: AssetType, l: Lists, fuel: nat): Outcomes
    requires IsBuildType(t)
    decreases fuel, |names| + 1
  {
    if names == [] then Outcomes(Success([]), l, [])
    else
      var o := BuildOf(fs, Paths.Sibling(dir, names[0]), t, l, fuel);
      if o.result.Failure? then Outcomes(Failure(o.result.error), o.lists, o.built)
      else Prepend([o.result.value], o.built, BuildEach(fs, dir, names[1..], t, o.lists, fuel))
  }

  /** One step of a run of child builds: the first child, then the rest on the lists it leaves. */
  lemma BuildEachStep(fs: FileSystem, dir: string, names: seq<string>, t: AssetType, l: Lists, fuel: nat)
    requires IsBuildType(t) && names != []
    ensures var o := BuildOf(fs, Paths.Sibling(dir, names[0]), t, l, fuel);
      BuildEach(fs, dir, names, t, l, fuel) ==
        if o.result.Failure? then Outcomes(Failure(o.result.error), o.lists, o.built)
        else Prepend([o.result.value], o.built, BuildEach(fs, dir, names[1..], t, o.lists, fuel))
  {
  }

  /** Texts and names put in front one batch after another are put in front together. */
  lemma PrependPrepend(outs: seq<string>, built: seq<string>, outs2: seq<string>, built2: seq<string>, rest: Outcomes)
    ensures Prepend(outs, built, Prepend(outs2, built2, rest)) == Prepend(outs + outs2, built + built2, rest)
  {
    assert built + (built2 + rest.built) == (built + built2) + rest.built;
    if rest.result.Success? {
      assert outs + (outs2 + rest.result.value) == (outs + outs2) + rest.result.value;
    }
  }

  /** Nothing put in front changes nothing. */
  lemma PrependNothing(rest: Outcomes)
    ensures Prepend([], [], rest) == rest
  {
    assert [] + rest.built == rest.built;
    if rest.result.Success? {
      assert [] + rest.result.value == rest.result.value;
    }
  }

  /**
   * The dedup rule, from lists `l` and names `before` built earlier to lists
   * `l2` with `built` added: every name given a builder is recorded in
   * `type`'s list, no name that `ignore` leaves as it is was given two, that
   * list only grew at the end and the other list is as it was.
   */
  predicate Kept(l: Lists, t: AssetType, before: seq<string>, l2: Lists, built: seq<string>)
    requires IsBuildType(t)
  {
    Recorded(l2, t, before + built) && OnceEach(before + built) &&
    Get(l, t) <= Get(l2, t) && Get(l2, Other(t)) == Get(l, Other(t))
  }

  /** Two steps that each keep the rule keep it together. */
  lemma KeptTrans(l: Lists, t: AssetType, before: seq<string>, l2: Lists, b1: seq<string>, l3: Lists, b2: seq<string>)
    requires IsBuildType(t) && Kept(l, t, before, l2, b1) && Kept(l2, t, before + b1, l3, b2)
    ensures Kept(l, t, before, l3, b1 + b2)
  {
    assert (before + b1) + b2 == before + (b1 + b2);
    var g1, g2, g3 := Get(l, t), Get(l2, t), Get(l3, t);
    assert g3[..|g1|] == g2[..|g1|];
  }

  /** Marking the dependencies of one manifest keeps the dedup rule. */
  lemma PendingKept(m: Manifest, l: Lists, t: AssetType, before: seq<string>)
    requires IsBuildType(t) && Recorded(l, t, before) && OnceEach(before)
    ensures var p := Pending(m, l, t); Kept(l, t, before, p.1, p.0)
  {
    if m.dependencies.Some? {
      var deps := Keys(m.dependencies.value);
      MarkOnce(deps, l, t, before);
      MarkLists(deps, l, t);
    } else {
      assert before + [] == before;
    }
  }

  /**
   * The dedup rule of the shared lists over a whole build: every name a
   * child builder is made for ends up recorded in `type`'s list, and no name
   * that `ignore` leaves as it is gets two builders.
   */
  lemma {:induction false} BuildOnce(fs: FileSystem, dir: string, t: AssetType, l: Lists, fuel: nat, before: seq<string>)
    requires IsBuildType(t) && Recorded(l, t, before) && OnceEach(before)
    ensures var o := BuildOf(fs, dir, t, l, fuel); Kept(l, t, before, o.lists, o.built)
    decreases fuel, 1
  {
    if fuel == 0 || dir !in fs.manifests {
      assert before + [] == before;
    } else {
      NodeOnce(fs, dir, t, l, fuel, before);
    }
  }

  /** The rule over a build that reads its manifest: marking keeps it, and so do the children. */
  lemma {:induction false} NodeOnce(fs: FileSystem, dir: string, t: AssetType, l: Lists, fuel: nat, before: seq<string>)
    requires IsBuildType(t) && Recorded(l, t, before) && OnceEach(before)
    requires fuel > 0 && dir in fs.manifests
    ensures var o := BuildOf(fs, dir, t, l, fuel); Kept(l, t, before, o.lists, o.built)
    decreases fuel, 0
  {
    var m := fs.manifests[dir];
    var p := Pending(m, l, t);
    var kids := BuildEach(fs, dir, p.0, t, p.1, fuel - 1);
    var o := BuildOf(fs, dir, t, l, fuel);
    assert o == Outcome(Joined(kids.result, OwnTexts(fs, dir, m, t)), kids.lists, p.0 + kids.built);
    PendingKept(m, l, t, before);
    KidsOnce(fs, dir, t, l, fuel - 1, before, p.0, p.1);
    assert Kept(l, t, before, kids.lists, p.0 + kids.built);
  }

  /** Children built after marking `names` keep the rule the marking kept. */
  lemma {:induction false} KidsOnce(fs: FileSystem, dir: string, t: AssetType, l: Lists, fuel: nat, before: seq<string>, names: seq<string>, l2: Lists)
    requires IsBuildType(t) && Kept(l, t, before, l2, names)
    ensures Kept(l, t, before, BuildEach(fs, dir, names, t, l2, fuel).lists, names + BuildEach(fs, dir, names, t, l2, fuel).built)
    decreases fuel, |names| + 3
  {
    var kids := BuildEach(fs, dir, names, t, l2, fuel);
    BuildEachOnce(fs, dir, names, t, l2, fuel, before + names);
    KeptTrans(l, t, before, l2, names, kids.lists, kids.built);
  }

  lemma {:induction false} BuildEachOnce(fs: FileSystem, dir: string, names: seq<string>, t: AssetType, l: Lists, fuel: nat, before: seq<string>)
    requires IsBuildType(t) && Recorded(l, t, before) && OnceEach(before)
    ensures var o := BuildEach(fs, dir, names, t, l, fuel); Kept(l, t, before, o.lists, o.built)
    decreases fuel, |names| + 2
  {
    if names == [] {
      assert before + [] == before;
    } else {
      var o := BuildOf(fs, Paths.Sibling(dir, names[0]), t, l, fuel);
      BuildOnce(fs, Paths.Sibling(dir, names[0]), t, l, fuel, before);
      if o.result.Success? {
        var rest := BuildEach(fs, dir, names[1..], t, o.lists, fuel);
        assert BuildEach(fs, dir, names, t, l, fuel) == Prepend([o.result.value], o.built, rest);
        BuildEachOnce(fs, dir, names[1..], t, o.lists, fuel, before + o.built);
        KeptTrans(l, t, before, o.lists, o.built, rest.lists, rest.built);
      }
    }
  }

  /**
   * The texts of a run of child builds that succeeds: one per child, text
   * `k` being the build of child `k` from its sibling directory on the lists
   * that the `k` children before it left.
   */
  lemma {:induction false} BuildEachTexts(fs: FileSystem, dir: string, names: seq<string>, t: AssetType, l: Lists, fuel: nat)
    requires IsBuildType(t)
    ensures var o := BuildEach(fs, dir, names, t, l, fuel);
      o.result.Success? ==> (|o.result.value| == |names| &&
        forall k :: 0 <= k < |names| ==>
          var c := BuildOf(fs, Paths.Sibling(dir, names[k]), t, BuildEach(fs, dir, names[..k], t, l, fuel).lists, fuel);
          c.result.Success? && o.result.value[k] == c.result.value)
  {
    if BuildEach(fs, dir, names, t, l, fuel).result.Success? {
      BuildEachLength(fs, dir, names, t, l, fuel);
      forall k | 0 <= k < |names|
        ensures var c := BuildOf(fs, Paths.Sibling(dir, names[k]), t, BuildEach(fs, dir, names[..k], t, l, fuel).lists, fuel);
          c.result.Success? && BuildEach(fs, dir, names, t, l, fuel).result.value[k] == c.result.value
      {
        BuildEachText(fs, dir, names, t, l, fuel, k);
      }
    }
  }

  /** A run of child builds that succeeds has one text per child. */
  lemma {:induction false} BuildEachLength(fs: FileSystem, dir: string, names: seq<string>, t: AssetType, l: Lists, fuel: nat)
    requires IsBuildType(t)
    ensures var o := BuildEach(fs, dir, names, t, l, fuel); o.result.Success? ==> |o.result.value| == |names|
    decreases |names|
  {
    if names != [] {
      var c0 := BuildOf(fs, Paths.Sibling(dir, names[0]), t, l, fuel);
      BuildEachLength(fs, dir, names[1..], t, c0.lists, fuel);
    }
  }

  /** Text `k` of a run of child builds that succeeds. */
  lemma {:induction false} BuildEachText(fs: FileSystem, dir: string, names: seq<string>, t: AssetType, l: Lists, fuel: nat, k: nat)
    requires IsBuildType(t) && k < |names| && BuildEach(fs, dir, names, t, l, fuel).result.Success?
    ensures var o := BuildEach(fs, dir, names, t, l, fuel);
      var c := BuildOf(fs, Paths.Sibling(dir, names[k]), t, BuildEach(fs, dir, names[..k], t, l, fuel).lists, fuel);
      |o.result.value| == |names| && c.result.Success? && o.result.value[k] == c.result.value
    decreases k
  {
    BuildEachLength(fs, dir, names, t, l, fuel);
    var o := BuildEach(fs, dir, names, t, l, fuel);
    var c0 := BuildOf(fs, Paths.Sibling(dir, names[0]), t, l, fuel);
    var rest := BuildEach(fs, dir, names[1..], t, c0.lists, fuel);
    assert o == Prepend([c0.result.value], c0.built, rest);
    if k == 0 {
      assert names[..0] == [];
    } else {
      BuildEachText(fs, dir, names[1..], t, c0.lists, fuel, k - 1);
      BuildEachPrefix(fs, dir, names, t, l, fuel, k);
      assert names[k] == names[1..][k - 1];
      assert o.result.value[k] == rest.result.value[k - 1];
    }
  }

  /** The lists after the first `k` children are those after the first child and then the `k - 1` next ones. */
  lemma BuildEachPrefix(fs: FileSystem, dir: string, names: seq<string>, t: AssetType, l: Lists, fuel: nat, k: nat)
    requires IsBuildType(t) && 0 < k <= |names|
    requires BuildOf(fs, Paths.Sibling(dir, names[0]), t, l, fuel).result.Success?
    ensures BuildEach(fs, dir, names[..k], t, l, fuel).lists ==
      BuildEach(fs, dir, names[1..][..k - 1], t, BuildOf(fs, Paths.Sibling(dir, names[0]), t, l, fuel).lists, fuel).lists
  {
    var pre := names[..k];
    assert pre[0] == names[0] && pre[1..] == names[1..][..k - 1];
  }

  /**
   * The output order: a build that succeeds gives, for each child builder in
   * the order it was kept, the text of that child's build on the lists the
   * children before it left, then the own texts, all joined by `\n`.
   */
  lemma BuildOutput(fs: FileSystem, dir: string, t: AssetType, l: Lists, fuel: nat)
    requires IsBuildType(t)
    ensures var o := BuildOf(fs, dir, t, l, fuel);
      o.result.Success? ==>
        fuel > 0 && dir in fs.manifests && OwnTexts(fs, dir, fs.manifests[dir], t).Success? &&
        var p := Pending(fs.manifests[dir], l, t);
        var kids := BuildEach(fs, dir, p.0, t, p.1, fuel - 1);
        kids.result.Success? && |kids.result.value| == |p.0| &&
        (forall k :: 0 <= k < |p.0| ==>
          var c := BuildOf(fs, Paths.Sibling(dir, p.0[k]), t, BuildEach(fs, dir, p.0[..k], t, p.1, fuel - 1).lists, fuel - 1);
          c.result.Success? && kids.result.value[k] == c.result.value) &&
        o.result.value == JoinWith(kids.result.value + OwnTexts(fs, dir, fs.manifests[dir], t).value, "\n")
  {
    BuildJoined(fs, dir, t, l, fuel);
    if BuildOf(fs, dir, t, l, fuel).result.Success? {
      var p := Pending(fs.manifests[dir], l, t);
      BuildEachTexts(fs, dir, p.0, t, p.1, fuel - 1);
    }
  }

  /** A build that succeeds read its manifest, and its text joins the children's texts and the own texts. */
  lemma BuildJoined(fs: FileSystem, dir: string, t: AssetType, l: Lists, fuel: nat)
    requires IsBuildType(t)
    ensures var o := BuildOf(fs, dir, t, l, fuel);
      o.result.Success? ==>
        fuel > 0 && dir in fs.manifests &&
        var p := Pending(fs.manifests[dir], l, t);
        var kids := BuildEach(fs, dir, p.0, t, p.1, fuel - 1);
        var own := OwnTexts(fs, dir, fs.manifests[dir], t);
        kids.result.Success? && own.Success? && o.result.value == JoinWith(kids.result.value + own.value, "\n")
  {
  }

  /** Every declared dependency name of every manifest has at most one `/`, so normalising it leaves no `/`. */
  ghost predicate SlashFreeNames(fs: FileSystem) {
    forall d, k :: (d in fs.manifests && fs.manifests[d].dependencies.Some? &&
      k in Keys(fs.manifests[d].dependencies.value)) ==> '/' !in Paths.Normalize(k)
  }

  /** The normalised dependency names the manifests of `fs` declare: every name a child builder can be made for. */
  ghost function DepUniverse(fs: FileSystem): set<string> {
    set d, k | d in fs.manifests && fs.manifests[d].dependencies.Some? &&
      k in Keys(fs.manifests[d].dependencies.value) :: Paths.Normalize(k)
  }

  /** The names of `u` that `s` does not list, taken off one list entry at a time from the end. */
  ghost function Unlisted(u: set<string>, s: seq<string>): set<string>
    decreases |s|
  {
    if s == [] then u else Unlisted(u - {s[|s| - 1]}, s[..|s| - 1])
  }

  /** Taking the entries off one at a time leaves the set difference. */
  lemma {:induction false} UnlistedSpec(u: set<string>, s: seq<string>)
    ensures Unlisted(u, s) == u - set x | x in s
    decreases |s|
  {
    if s != [] {
      var n := |s| - 1;
      UnlistedSpec(u - {s[n]}, s[..n]);
      assert s == s[..n] + [s[n]];
      assert (set x | x in s) == (set x | x in s[..n]) + {s[n]};
    }
  }

  /** How many names of the universe are not yet in `type`'s list. */
  ghost function Unbuilt(fs: FileSystem, l: Lists, t: AssetType): nat
    requires IsBuildType(t)
  {
    |Unlisted(DepUniverse(fs), Get(l, t))|
  }

  /** A list that only grows at the end leaves no more names unbuilt. */
  lemma UnbuiltMonotone(fs: FileSystem, l: Lists, l': Lists, t: AssetType)
    requires IsBuildType(t) && Get(l, t) <= Get(l', t)
    ensures Unbuilt(fs, l', t) <= Unbuilt(fs, l, t)
  {
    var a, b := set x | x in Get(l, t), set x | x in Get(l', t);
    UnlistedSpec(DepUniverse(fs), Get(l, t));
    UnlistedSpec(DepUniverse(fs), Get(l', t));
    forall x | x in a ensures x in b {
      var i :| 0 <= i < |Get(l, t)| && Get(l, t)[i] == x;
      assert Get(l', t)[i] == x;
    }
    Resolver.UnmarkedMonotone(DepUniverse(fs), a, b);
  }

  /**
   * The build answers: when no declared name has two `/`, a nesting bound
   * above the number of names not yet in `type`'s list is never exhausted,
   * so the result is the text or a missing manifest or file, never `Diverged`.
   */
  lemma {:induction false} BuildProgress(fs: FileSystem, dir: string, t: AssetType, l: Lists, fuel: nat)
    requires IsBuildType(t) && SlashFreeNames(fs)
    requires fuel > Unbuilt(fs, l, t)
    ensures BuildOf(fs, dir, t, l, fuel).result != Failure(Diverged)
    decreases fuel, 2
  {
    if dir in fs.manifests {
      NodeProgress(fs, dir, t, l, fuel);
    } else {
      assert BuildOf(fs, dir, t, l, fuel).result == Failure(ManifestError(Paths.Join(dir, "component.json")));
    }
  }

  /** The same for a build that reads its manifest: the children answer, and reading the own files fails only on a file. */
  lemma {:induction false} NodeProgress(fs: FileSystem, dir: string, t: AssetType, l: Lists, fuel: nat)
    requires IsBuildType(t) && SlashFreeNames(fs) && dir in fs.manifests
    requires fuel > Unbuilt(fs, l, t)
    ensures BuildOf(fs, dir, t, l, fuel).result != Failure(Diverged)
    decreases fuel, 1
  {
    var m := fs.manifests[dir];
    var p := Pending(m, l, t);
    var kids := BuildEach(fs, dir, p.0, t, p.1, fuel - 1);
    PendingShrinks(fs, dir, l, t, fuel);
    KidsProgress(fs, dir, t, l, fuel);
    var own := OwnTexts(fs, dir, m, t);
    OwnTextsError(fs, dir, m, t);
    assert Joined(kids.result, own) != Failure(Diverged);
    assert BuildOf(fs, dir, t, l, fuel).result == Joined(kids.result, own);
  }

  /** The children of a build that reads its manifest answer once the names left have shrunk below the bound. */
  lemma {:induction false} KidsProgress(fs: FileSystem, dir: string, t: AssetType, l: Lists, fuel: nat)
    requires IsBuildType(t) && SlashFreeNames(fs) && dir in fs.manifests && fuel > 0
    requires var p := Pending(fs.manifests[dir], l, t); p.0 != [] ==> fuel - 1 > Unbuilt(fs, p.1, t)
    ensures var p := Pending(fs.manifests[dir], l, t);
      BuildEach(fs, dir, p.0, t, p.1, fuel - 1).result != Failure(Diverged)
    decreases fuel, 0
  {
    var p := Pending(fs.manifests[dir], l, t);
    BuildEachProgress(fs, dir, p.0, t, p.1, fuel - 1);
  }

  /** Reading the own files fails only on a file. */
  lemma OwnTextsError(fs: FileSystem, dir: string, m: Manifest, t: AssetType)
    ensures OwnTexts(fs, dir, m, t).Failure? ==> OwnTexts(fs, dir, m, t).error.AssetReadError?
  {
    var read := ReadAll(fs, PathsOf(dir, Declared(m, t)));
    assert read.Failure? ==> read.error.AssetReadError?;
  }

  /** Keeping a name records one more name of the universe. */
  lemma PendingShrinks(fs: FileSystem, dir: string, l: Lists, t: AssetType, fuel: nat)
    requires IsBuildType(t) && SlashFreeNames(fs) && dir in fs.manifests && fuel > Unbuilt(fs, l, t)
    ensures var p := Pending(fs.manifests[dir], l, t); p.0 != [] ==> fuel - 1 > Unbuilt(fs, p.1, t)
  {
    var m := fs.manifests[dir];
    var p := Pending(m, l, t);
    if p.0 == [] {
      return;
    }
    var deps := Keys(m.dependencies.value);
    var x := p.0[0];
    MarkSkipsIgnored(deps, l, t, x);
    var k :| 0 <= k < |deps| && Paths.Normalize(deps[k]) == x;
    assert x in DepUniverse(fs);
    MarkLists(deps, l, t);
    Paths.ReplaceFirstSpec(x, '/', '-');
    assert Get(p.1, t)[|Get(l, t)|] == x;
    UnlistedShrinks(DepUniverse(fs), Get(l, t), Get(p.1, t), x);
  }

  /** A list that grows by a name of `u` it lacked leaves fewer names of `u` unlisted. */
  lemma UnlistedShrinks(u: set<string>, s: seq<string>, s': seq<string>, x: string)
    requires s <= s' && |s| < |s'| && s'[|s|] == x && x in u && x !in s
    ensures |Unlisted(u, s')| < |Unlisted(u, s)|
  {
    var a, b := set y | y in s, set y | y in s';
    UnlistedSpec(u, s);
    UnlistedSpec(u, s');
    forall y | y in a ensures y in b {
      var i :| 0 <= i < |s| && s[i] == y;
      assert s'[i] == y;
    }
    Resolver.UnmarkedShrinks(u, a, b, x);
  }

  /** A run of child builds answers too: each child shrinks nothing that the next one needs. */
  lemma {:induction false} BuildEachProgress(fs: FileSystem, dir: string, names: seq<string>, t: AssetType, l: Lists, fuel: nat)
    requires IsBuildType(t) && SlashFreeNames(fs)
    requires names != [] ==> fuel > Unbuilt(fs, l, t)
    ensures BuildEach(fs, dir, names, t, l, fuel).result != Failure(Diverged)
    decreases fuel, |names| + 3
  {
    if names != [] {
      var c := Paths.Sibling(dir, names[0]);
      BuildProgress(fs, c, t, l, fuel);
      var o := BuildOf(fs, c, t, l, fuel);
      if o.result.Success? {
        BuildOnce(fs, c, t, l, fuel, []);
        UnbuiltMonotone(fs, l, o.lists, t);
        BuildEachProgress(fs, dir, names[1..], t, o.lists, fuel);
        assert BuildEach(fs, dir, names, t, l, fuel) ==
          Prepend([o.result.value], o.built, BuildEach(fs, dir, names[1..], t, o.lists, fuel));
      }
    }
  }

  /** From fresh lists, a bound above the number of declared names suffices for scripts, then styles. */
  lemma BuildBothProgress(fs: FileSystem, dir: string, fuel: nat)
    requires SlashFreeNames(fs) && fuel > |DepUniverse(fs)|
    ensures BuildBothOf(fs, dir, Lists([], []), fuel).0 != Failure(Diverged)
  {
    var l := Lists([], []);
    BuildProgress(fs, dir, Scripts, l, fuel);
    var s := BuildOf(fs, dir, Scripts, l, fuel);
    if s.result.Success? {
      BuildOnce(fs, dir, Scripts, l, fuel, []);
      assert Get(s.lists, Styles) == [];
      BuildProgress(fs, dir, Styles, s.lists, fuel);
    }
  }

  /** Marking looks at `type`'s list only. */
  lemma {:induction false} MarkOwnList(deps: seq<string>, l: Lists, l': Lists, t: AssetType)
    requires IsBuildType(t) && Get(l, t) == Get(l', t)
    ensures Mark(deps, l, t).0 == Mark(deps, l', t).0 && Get(Mark(deps, l, t).1, t) == Get(Mark(deps, l', t).1, t)
    decreases |deps|
  {
    if deps != [] {
      var d := Paths.Normalize(deps[0]);
      MarkOwnList(deps[1..], Pushed(l, t, Paths.Normalize(d)), Pushed(l', t, Paths.Normalize(d)), t);
      MarkOwnList(deps[1..], l, l', t);
    }
  }

  /** A build of one type looks at that type's list only: the other list has no say in its text or its children. */
  lemma {:induction false} BuildOwnList(fs: FileSystem, dir: string, t: AssetType, l: Lists, l': Lists, fuel: nat)
    requires IsBuildType(t) && Get(l, t) == Get(l', t)
    ensures var o, o' := BuildOf(fs, dir, t, l, fuel), BuildOf(fs, dir, t, l', fuel);
      o.result == o'.result && o.built == o'.built && Get(o.lists, t) == Get(o'.lists, t)
    decreases fuel, 0
  {
    if fuel > 0 && dir in fs.manifests {
      var m := fs.manifests[dir];
      if m.dependencies.Some? {
        MarkOwnList(Keys(m.dependencies.value), l, l', t);
      }
      var p, p' := Pending(m, l, t), Pending(m, l', t);
      BuildEachOwnList(fs, dir, p.0, t, p.1, p'.1, fuel - 1);
    }
  }

  lemma {:induction false} BuildEachOwnList(fs: FileSystem, dir: string, names: seq<string>, t: AssetType, l: Lists, l': Lists, fuel: nat)
    requires IsBuildType(t) && Get(l, t) == Get(l', t)
    ensures var o, o' := BuildEach(fs, dir, names, t, l, fuel), BuildEach(fs, dir, names, t, l', fuel);
      o.result == o'.result && o.built == o'.built && Get(o.lists, t) == Get(o'.lists, t)
    decreases fuel, |names| + 1
  {
    if names != [] {
      var c := Paths.Sibling(dir, names[0]);
      BuildOwnList(fs, c, t, l, l', fuel);
      var o, o' := BuildOf(fs, c, t, l, fuel), BuildOf(fs, c, t, l', fuel);
      if o.result.Success? {
        BuildEachOwnList(fs, dir, names[1..], t, o.lists, o'.lists, fuel);
      }
    }
  }

  /** What `build` answers: `js` and `css`. */
  datatype Output = Output(js: string, css: string)

  /** `build(fn)`: the scripts build, then the styles build on the same lists; the first error is the answer. */
  function BuildBothOf(fs: FileSystem, dir: string, l: Lists, fuel: nat): (Result<Output, Error>, Lists) {
    var s := BuildOf(fs, dir, Scripts, l, fuel);
    if s.result.Failure? then (Failure(s.result.error), s.lists)
    else
      var c := BuildOf(fs, dir, Styles, s.lists, fuel);
      if c.result.Failure? then (Failure(c.result.error), c.lists)
      else (Success(Output(s.result.value, c.result.value)), c.lists)
  }

  /**
   * The two halves of `build` do not disturb each other: `js` is the scripts
   * build and `css` the styles build, each as it would be on its own from
   * the starting lists.
   */
  lemma BuildBothIndependent(fs: FileSystem, dir: string, l: Lists, fuel: nat)
    ensures var r := BuildBothOf(fs, dir, l, fuel).0;
      r.Success? ==>
        BuildOf(fs, dir, Scripts, l, fuel).result == Success(r.value.js) &&
        BuildOf(fs, dir, Styles, l, fuel).result == Success(r.value.css)
  {
    var s := BuildOf(fs, dir, Scripts, l, fuel);
    BuildOnce(fs, dir, Scripts, l, fuel, []);
    BuildOwnList(fs, dir, Styles, s.lists, l, fuel);
  }

  /** The own half of a build of `dir`: every declared file of `type` read in order and turned into its text; the first unreadable one is the error. */
  method ReadOwn(fs: FileSystem, dir: string, m: Manifest, t: AssetType) returns (r: Result<seq<string>, Error>)
    ensures r == OwnTexts(fs, dir, m, t)
  {
    var names := Declared(m, t);
    var ps := PathsOf(dir, names);
    var texts: seq<string> := [];
    var j := 0;
    while j < |names|
      invariant 0 <= j <= |names| && |texts| == j
      invariant forall q :: 0 <= q < j ==> ps[q] in fs.files
      invariant forall q :: 0 <= q < j ==> texts[q] == OwnText(m, t, names[q], fs.files[ps[q]])
    {
      var p := Paths.Join(dir, names[j]);
      if p !in fs.files {
        ReadAllFirstMissing(fs, ps, j);
        return Failure(AssetReadError(p));
      }
      texts := texts + [OwnText(m, t, names[j], fs.files[p])];
      j := j + 1;
    }
    var read := ReadAll(fs, ps);
    assert read.Success?;
    assert texts == seq(|names|, i requires 0 <= i < |names| => OwnText(m, t, names[i], read.value[i]));
    return Success(texts);
  }

  /** The shared `ignored` object. */
  class IgnoreLists {
    var scripts: seq<string>
    var styles: seq<string>

    /** `{scripts: [], styles: []}`. */
    constructor ()
      ensures scripts == [] && styles == []
    {
      scripts := [];
      styles := [];
    }

    function Value(): Lists
      reads this
    {
      Lists(scripts, styles)
    }

    /** `this[type].push(x)`. */
    method Push(t: AssetType, x: string)
      requires IsBuildType(t)
      modifies this
      ensures Value() == Pushed(old(Value()), t, x)
    {
      if t == Scripts {
        scripts := scripts + [x];
      } else {
        styles := styles + [x];
      }
    }
  }

  class Builder {
    const fs: FileSystem
    const dir: string
    const name: string
    var ignored: IgnoreLists
    /** `this.conf`, the memoised manifest; `None` is `undefined`. */
    var conf: Option<Manifest>

    /** The memoised manifest, once read, is the one on disk. */
    ghost predicate Valid()
      reads this
    {
      conf.Some? ==> dir in fs.manifests && conf.value == fs.manifests[dir]
    }

    /** `new Builder(dir)`: named after the last segment of `dir`, with empty lists of its own. */
    constructor (fs: FileSystem, dir: string)
      ensures this.fs == fs && this.dir == dir && name == Paths.Basename(dir)
      ensures fresh(ignored) && ignored.Value() == Lists([], []) && conf.None?
      ensures Valid()
    {
      this.fs := fs;
      this.dir := dir;
      name := Paths.Basename(dir);
      ignored := new IgnoreLists();
      conf := None;
    }

    /** `ignore(name, type)`: every name, normalised, pushed onto `type`'s list; without a type, onto `scripts` and then `styles`. */
    method Ignore(n: Names, t: Option<AssetType>)
      requires t.Some? ==> IsBuildType(t.value)
      modifies ignored
      ensures ignored.Value() == IgnoreAll(old(ignored.Value()), Listed(n), t)
      decreases if t.None? then 1 else 0
    {
      if t.None? {
        Ignore(n, Some(Scripts));
        Ignore(n, Some(Styles));
        return;
      }
      match n {
        case One(x) =>
          PushAllOne(ignored.Value(), t.value, x);
          ignored.Push(t.value, Paths.Normalize(x));
        case Many(xs) =>
          var i := 0;
          while i < |xs|
            invariant 0 <= i <= |xs|
            invariant ignored.Value() == PushAll(old(ignored.Value()), t.value, xs[..i])
          {
            assert xs[..i + 1][..i] == xs[..i];
            ignored.Push(t.value, Paths.Normalize(xs[i]));
            i := i + 1;
          }
          assert xs[..i] == xs;
      }
    }

    /** `ignoring(name, type)`. */
    predicate Ignoring(n: string, t: Option<AssetType>)
      requires t.Some? ==> IsBuildType(t.value)
      reads this, ignored
    {
      IgnoringIn(ignored.Value(), n, t)
    }

    /** `path(file)`: `file` under this builder's directory. */
    function Path(file: string): string {
      Paths.Join(dir, file)
    }

    /** `json(fn)`: the memoised manifest when there is one, otherwise the one on disk, kept; a missing one is the error. */
    method Json() returns (r: Result<Manifest, Error>)
      requires Valid()
      modifies this`conf
      ensures Valid()
      ensures old(conf).Some? ==> r == Success(old(conf).value) && conf == old(conf)
      ensures dir in fs.manifests ==> r == Success(fs.manifests[dir]) && conf == Some(fs.manifests[dir])
      ensures dir !in fs.manifests ==> r == Failure(ManifestError(Path("component.json"))) && conf == old(conf)
    {
      if conf.Some? {
        return Success(conf.value);
      }
      if dir !in fs.manifests {
        return Failure(ManifestError(Path("component.json")));
      }
      conf := Some(fs.manifests[dir]);
      return Success(conf.value);
    }

    /** The first half of a build: mark every dependency not yet ignored for `type`, answering those, in order. */
    method MarkDependencies(m: Manifest, t: AssetType) returns (pending: seq<string>)
      requires IsBuildType(t)
      modifies ignored
      ensures (pending, ignored.Value()) == Pending(m, old(ignored.Value()), t)
    {
      var deps := if m.dependencies.Some? then Keys(m.dependencies.value) else [];
      ghost var start := ignored.Value();
      assert Mark(deps, start, t) == Pending(m, start, t);
      pending := [];
      var i := 0;
      while i < |deps|
        invariant 0 <= i <= |deps|
        invariant (pending, ignored.Value()) == Mark(deps[..i], start, t)
      {
        var d := Paths.Normalize(deps[i]);
        assert deps[..i + 1] == deps[..i] + [deps[i]];
        MarkSnoc(deps[..i], deps[i], start, t);
        if !Ignoring(d, Some(t)) {
          PushAllOne(ignored.Value(), t, d);
          Ignore(One(d), Some(t));
          pending := pending + [d];
        }
        i := i + 1;
      }
      assert deps[..i] == deps;
    }

    /** A child builder for the sibling directory `dep`, sharing `ignored`, run for `type`. */
    method BuildChild(dep: string, t: AssetType, fuel: nat) returns (r: Result<string, Error>)
      requires IsBuildType(t)
      modifies ignored
      ensures r == BuildOf(fs, Paths.Sibling(dir, dep), t, old(ignored.Value()), fuel).result
      ensures ignored.Value() == BuildOf(fs, Paths.Sibling(dir, dep), t, old(ignored.Value()), fuel).lists
      decreases fuel, 1
    {
      var child := new Builder(fs, Paths.Sibling(dir, dep));
      child.ignored := ignored;
      r := child.BuildType(t, fuel);
    }

    /**
     * The children of a build: one builder per pending name, in the sibling
     * directory, sharing `ignored`, each run in turn; the first error stops
     * them. (The source makes every child before running any; making each
     * just before it runs is the same, as a new builder only allocates.)
     */
    method BuildChildren(pending: seq<string>, t: AssetType, fuel: nat) returns (r: Result<seq<string>, Error>)
      requires IsBuildType(t)
      modifies ignored
      ensures r == BuildEach(fs, dir, pending, t, old(ignored.Value()), fuel).result
      ensures ignored.Value() == BuildEach(fs, dir, pending, t, old(ignored.Value()), fuel).lists
      decreases fuel, 2
    {
      var outs: seq<string> := [];
      ghost var bs: seq<string> := [];
      var k := 0;
      assert pending[0..] == pending;
      PrependNothing(BuildEach(fs, dir, pending, t, ignored.Value(), fuel));
      while k < |pending|
        invariant 0 <= k <= |pending|
        invariant BuildEach(fs, dir, pending, t, old(ignored.Value()), fuel) ==
          Prepend(outs, bs, BuildEach(fs, dir, pending[k..], t, ignored.Value(), fuel))
      {
        ghost var l := ignored.Value();
        var o := BuildChild(pending[k], t, fuel);
        ghost var ob := BuildOf(fs, Paths.Sibling(dir, pending[k]), t, l, fuel);
        assert pending[k..][0] == pending[k] && pending[k..][1..] == pending[k + 1..];
        BuildEachStep(fs, dir, pending[k..], t, l, fuel);
        if o.Failure? {
          return Failure(o.error);
        }
        PrependPrepend(outs, bs, [o.value], ob.built, BuildEach(fs, dir, pending[k + 1..], t, ignored.Value(), fuel));
        outs := outs + [o.value];
        bs := bs + ob.built;
        k := k + 1;
      }
      assert outs + [] == outs;
      return Success(outs);
    }

    /**
     * `buildScripts` / `buildStyles`: the manifest, the marked dependencies
     * built first in a child builder each, then the own files; the texts
     * joined by `\n`.
     */
    method BuildType(t: AssetType, fuel: nat) returns (r: Result<string, Error>)
      requires IsBuildType(t) && Valid()
      modifies this`conf, ignored
      ensures Valid()
      ensures r == BuildOf(fs, dir, t, old(ignored.Value()), fuel).result
      ensures ignored.Value() == BuildOf(fs, dir, t, old(ignored.Value()), fuel).lists
      decreases fuel, 0
    {
      if fuel == 0 {
        return Failure(Diverged);
      }
      var c := Json();
      if c.Failure? {
        return Failure(c.error);
      }
      var m := c.value;
      var pending := MarkDependencies(m, t);
      var kids := BuildChildren(pending, t, fuel - 1);
      if kids.Failure? {
        return Failure(kids.error);
      }
      var own := ReadOwn(fs, dir, m, t);
      if own.Failure? {
        return Failure(own.error);
      }
      return Success(JoinWith(kids.value + own.value, "\n"));
    }

    /** `buildScripts(fn)`. */
    method BuildScripts(fuel: nat) returns (r: Result<string, Error>)
      requires Valid()
      modifies this`conf, ignored
      ensures Valid()
      ensures r == BuildOf(fs, dir, Scripts, old(ignored.Value()), fuel).result
      ensures ignored.Value() == BuildOf(fs, dir, Scripts, old(ignored.Value()), fuel).lists
    {
      r := BuildType(Scripts, fuel);
    }

    /** `buildStyles(fn)`. */
    method BuildStyles(fuel: nat) returns (r: Result<string, Error>)
      requires Valid()
      modifies this`conf, ignored
      ensures Valid()
      ensures r == BuildOf(fs, dir, Styles, old(ignored.Value()), fuel).result
      ensures ignored.Value() == BuildOf(fs, dir, Styles, old(ignored.Value()), fuel).lists
    {
      r := BuildType(Styles, fuel);
    }

    /** `build(fn)`: scripts, then styles, answered as `{js, css}`. */
    method Build(fuel: nat) returns (r: Result<Output, Error>)
      requires Valid()
      modifies this`conf, ignored
      ensures Valid()
      ensures (r, ignored.Value()) == BuildBothOf(fs, dir, old(ignored.Value()), fuel)
    {
      var js := BuildScripts(fuel);
      if js.Failure? {
        return Failure(js.error);
      }
      var css := BuildStyles(fuel);
      if css.Failure? {
        return Failure(css.error);
      }
      return Success(Output(js.value, css.value));
    }
  }
}
