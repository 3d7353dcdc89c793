/**
 * lib/plugins/commonjs.js: wraps every file of one type in a
 * `require.register(...)` call and appends to `build.aliases` one block of
 * `require.alias(...)` lines per component, mapping the names a component
 * uses for its dependencies (`<id>/deps/<name>/<file>`) onto the names the
 * dependencies register under (`<dir basename>/<file>`).
 *
 * `string-to-js` and `JSON.stringify` are parameters (`stringify`,
 * `quote`): their text is not modelled.
 */
module CommonJs {
  import opened Wrappers
  import opened Dict
  import opened Manifest
  import opened Paths
  import opened Pipeline
  import opened Seqs

  /** `normalize(conf, root)`: the root registers under its name, every other component under its directory's basename. */
  function ModuleId(c: Conf, root: bool): string {
    if root then c.name else Basename(c.dir)
  }

  /** `repo(conf)`: the directory basename with its first `-` turned back into `/`. */
  function Repo(c: Conf): string {
    ReplaceFirst(Basename(c.dir), '-', '/')
  }

  /** The name a file is registered under. */
  function ModuleName(c: Conf, root: bool, file: File): string {
    ModuleId(c, root) + "/" + file.filename
  }

  const RegisterHead := "require.register(\""
  const PlainOpen := "\", function(exports, require, module){\n"
  const PlainClose := "\n});\n"
  const DevOpen := "\", Function(\"exports, require, module\",\n"
  const DevClose := "\n));\n"

  /** The module body before wrapping: scripts as they are, JSON as an export, anything else through `stringify`. */
  function Body(t: AssetType, contents: string, stringify: string -> string): string {
    if t == Scripts then contents
    else if t == Json then "module.exports = " + contents
    else stringify(contents)
  }

  /**
   * `register(type, conf, file, root, dev)`: the file with its contents
   * replaced by the registration text. In dev mode a script is passed as the
   * quoted source of a `Function`, tagged with its `sourceURL`.
   */
  function Register(t: AssetType, c: Conf, file: File, root: bool, dev: bool,
                    stringify: string -> string, quote: string -> string): (r: File)
    ensures r.filename == file.filename
  {
    var name := ModuleName(c, root, file);
    var contents := Body(t, file.contents, stringify);
    if dev && t == Scripts then
      File(file.filename, RegisterHead + name + DevOpen + quote(contents + "//@ sourceURL=" + name) + DevClose)
    else
      File(file.filename, RegisterHead + name + PlainOpen + contents + PlainClose)
  }

  /** What a registration text declares: the module name, the wrapped text, and whether it is the dev form. */
  datatype Registered = Registered(name: string, body: string, dev: bool)

  /** `x` with `p` taken off its front and `q` off its back, if it has them (and they do not overlap). */
  function Between(x: string, p: string, q: string): Option<string> {
    if |x| >= |p| + |q| && x[..|p|] == p && x[|x| - |q|..] == q then Some(x[|p|..|x| - |q|]) else None
  }

  /** Reads a registration text back, the name running up to the first `"`. */
  function Unwrap(text: string): Option<Registered> {
    if |text| < |RegisterHead| || text[..|RegisterHead|] != RegisterHead then None
    else
      var rest := text[|RegisterHead|..];
      var k := IndexOf(rest, '"');
      var tail := rest[k..];
      match Between(tail, PlainOpen, PlainClose)
      case Some(body) => Some(Registered(rest[..k], body, false))
      case None =>
        match Between(tail, DevOpen, DevClose)
        case Some(body) => Some(Registered(rest[..k], body, true))
        case None => None
  }

  lemma BetweenOf(p: string, m: string, q: string)
    ensures Between(p + m + q, p, q) == Some(m)
  {
    var x := p + m + q;
    assert x[..|p|] == p && x[|x| - |q|..] == q && x[|p|..|x| - |q|] == m;
  }

  /** A name free of `"` and a wrapped text, read back from `head + name + tail`: the name ends where `tail` starts. */
  lemma SplitName(head: string, name: string, tail: string)
    requires '"' !in name && |tail| > 0 && tail[0] == '"'
    ensures var text := head + name + tail;
      text[..|head|] == head &&
      IndexOf(text[|head|..], '"') == |name| &&
      text[|head|..][..|name|] == name && text[|head|..][|name|..] == tail
  {
    var text := head + name + tail;
    assert text[|head|..] == name + tail;
    IndexOfAfter(name, tail, '"');
  }

  /** The plain form reads back as plain. */
  lemma UnwrapPlain(name: string, body: string)
    requires '"' !in name
    ensures Unwrap(RegisterHead + name + PlainOpen + body + PlainClose) == Some(Registered(name, body, false))
  {
    var tail := PlainOpen + body + PlainClose;
    assert RegisterHead + name + PlainOpen + body + PlainClose == RegisterHead + name + tail;
    SplitName(RegisterHead, name, tail);
    BetweenOf(PlainOpen, body, PlainClose);
  }

  /** A dev-form text never passes for the plain form. */
  lemma DevNotPlain(body: string)
    ensures Between(DevOpen + body + DevClose, PlainOpen, PlainClose).None?
  {
    var tail := DevOpen + body + DevClose;
    assert DevOpen[3] == 'F' && PlainOpen[3] == 'f';
    assert tail[3] == DevOpen[3];
    if |tail| >= |PlainOpen| {
      assert tail[..|PlainOpen|][3] != PlainOpen[3];
    }
  }

  /** The dev form reads back as dev: its opening differs from the plain one in the case of `Function`. */
  lemma UnwrapDev(name: string, body: string)
    requires '"' !in name
    ensures Unwrap(RegisterHead + name + DevOpen + body + DevClose) == Some(Registered(name, body, true))
  {
    var tail := DevOpen + body + DevClose;
    assert RegisterHead + name + DevOpen + body + DevClose == RegisterHead + name + tail;
    SplitName(RegisterHead, name, tail);
    BetweenOf(DevOpen, body, DevClose);
    DevNotPlain(body);
  }

  /**
   * Registration is read back by `Unwrap`: a file is registered under
   * `<id>/<filename>`, in the dev form exactly for scripts in dev mode, and
   * the text it wraps is its contents (scripts), `module.exports = ` before
   * them (JSON), or `stringify` of them; in dev form, the quoted contents
   * with the `sourceURL` tag.
   */
  lemma RegisterUnwrap(t: AssetType, c: Conf, file: File, root: bool, dev: bool,
                       stringify: string -> string, quote: string -> string)
    requires '"' !in ModuleName(c, root, file)
    ensures var name := ModuleName(c, root, file);
      var body := Body(t, file.contents, stringify);
      Unwrap(Register(t, c, file, root, dev, stringify, quote).contents) ==
        if dev && t == Scripts then Some(Registered(name, quote(body + "//@ sourceURL=" + name), true))
        else Some(Registered(name, body, false))
  {
    var name := ModuleName(c, root, file);
    var body := Body(t, file.contents, stringify);
    if dev && t == Scripts {
      UnwrapDev(name, quote(body + "//@ sourceURL=" + name));
    } else {
      UnwrapPlain(name, body);
    }
  }

  const AliasHead := "require.alias(\""
  const AliasMid := "\", \""
  const AliasTail := "\");"

  /** `alias([from, to])`: the target first. */
  function Alias(from: string, to: string): string {
    AliasHead + to + AliasMid + from + AliasTail
  }

  /** Reads an alias line back as `(from, to)`, the target running up to the first `"`. */
  function ParseAlias(line: string): Option<(string, string)> {
    match Between(line, AliasHead, AliasTail)
    case None => None
    case Some(inner) =>
      var k := IndexOf(inner, '"');
      if |inner| - k >= |AliasMid| && inner[k..k + |AliasMid|] == AliasMid then Some((inner[k + |AliasMid|..], inner[..k])) else None
  }

  /** The inner text of an alias line splits at the end of the target. */
  lemma SplitInner(to: string, from: string)
    requires '"' !in to
    ensures var inner := to + (AliasMid + from);
      IndexOf(inner, '"') == |to| && inner[..|to|] == to &&
      inner[|to|..|to| + |AliasMid|] == AliasMid && inner[|to| + |AliasMid|..] == from
  {
    IndexOfAfter(to, AliasMid + from, '"');
  }

  /** An alias line names its source and its target, read back as written. */
  lemma ParseAliasOf(from: string, to: string)
    requires '"' !in to
    ensures ParseAlias(Alias(from, to)) == Some((from, to))
  {
    var inner := to + (AliasMid + from);
    assert Alias(from, to) == AliasHead + inner + AliasTail;
    BetweenOf(AliasHead, inner, AliasTail);
    SplitInner(to, from);
  }

  /**
   * `dependencies(a, list)` looks at `b`: `a` depends on `b` when it
   * declares `repo(b)` with a truthy value, or lists `b`'s name among its
   * locals. `dev` is never passed, so `development` plays no part.
   */
  predicate IsDependency(a: Conf, b: Conf) {
    Truthy(a.dependencies.GetOr([]), Repo(b)) || b.name in LocalNames(a.local, a.locals)
  }

  /** The test `dependencies` applies to each component. */
  function DependsOn(a: Conf): Conf -> bool {
    (b: Conf) => IsDependency(a, b)
  }

  /** `dependencies(a, list)`: the components of `list` that `a` depends on, in list order. */
  function DependenciesOf(a: Conf, list: seq<Conf>): seq<Conf> {
    Filter(list, DependsOn(a))
  }

  /** A component is kept exactly when it is in the list and `a` depends on it. */
  lemma DependenciesOfMember(a: Conf, list: seq<Conf>, b: Conf)
    ensures b in DependenciesOf(a, list) <==> b in list && IsDependency(a, b)
  {
    FilterMember(list, DependsOn(a), b);
  }

  /** The filter keeps list order: it distributes over concatenation. */
  lemma DependenciesOfAppend(a: Conf, x: seq<Conf>, y: seq<Conf>)
    ensures DependenciesOf(a, x + y) == DependenciesOf(a, x) + DependenciesOf(a, y)
  {
    FilterAppend(x, y, DependsOn(a));
  }

  /** Development dependencies never produce aliases: the filter does not look at `development`. */
  lemma DependenciesIgnoreDevelopment(a: Conf, d: Option<Dict>, list: seq<Conf>)
    ensures DependenciesOf(a.(development := d), list) == DependenciesOf(a, list)
  {
    FilterAgree(list, DependsOn(a.(development := d)), DependsOn(a));
  }

  /** How consumer `c` refers to files of `dep`: `<id>/deps/<dep.name>/`. */
  function DepPrefix(c: Conf, root: bool, dep: Conf): string {
    ModuleId(c, root) + "/deps/" + dep.name + "/"
  }

  /** The alias of one file of `dep`. */
  function FilePair(c: Conf, root: bool, dep: Conf, f: File): (string, string) {
    (DepPrefix(c, root, dep) + f.filename, Basename(dep.dir) + "/" + f.filename)
  }

  /** The alias of `dep`'s declared main file. */
  function MainPair(c: Conf, root: bool, dep: Conf): (string, string) {
    (DepPrefix(c, root, dep) + "index.js", Basename(dep.dir) + "/" + dep.main)
  }

  /** The root's top-level alias for `dep`. */
  function TopPair(dep: Conf): (string, string) {
    (dep.name + "/index.js", Basename(dep.dir) + "/" + (if dep.main != "" then dep.main else "index.js"))
  }

  /** The root's alias for its own main file. */
  function RootMainPair(c: Conf): (string, string) {
    (c.name + "/index.js", c.name + "/" + c.main)
  }

  /** One alias per file of `dep`, in order. */
  function FilePairs(c: Conf, root: bool, dep: Conf, fs: seq<File>): (r: seq<(string, string)>)
    ensures |r| == |fs| && forall j :: 0 <= j < |fs| ==> r[j] == FilePair(c, root, dep, fs[j])
  {
    seq(|fs|, j requires 0 <= j < |fs| => FilePair(c, root, dep, fs[j]))
  }

  /**
   * The aliases consumer `c` gets for `dep` (lines 95-123): none when `dep`
   * has no list of the type; otherwise one per file, one for a declared
   * `main`, and for the root a top-level one. Both branches of lines
   * 102-104 name the consumer by `normalize(conf, root)`, `conf.name` for
   * the root.
   */
  function DepPairs(t: AssetType, c: Conf, root: bool, dep: Conf): seq<(string, string)> {
    if t !in dep.assets then []
    else
      FilePairs(c, root, dep, FilesOf(dep, t))
      + (if dep.main != "" then [MainPair(c, root, dep)] else [])
      + (if root then [TopPair(dep)] else [])
  }

  /** The aliases of every dependency, dependencies in order. */
  function DepsPairs(t: AssetType, c: Conf, root: bool, deps: seq<Conf>): seq<(string, string)> {
    FlatMap(deps, (dep: Conf) => DepPairs(t, c, root, dep))
  }

  /** The `[from, to]` pairs of `aliases(type, list[i], list)`; component 0 is the root. */
  function AliasPairs(t: AssetType, list: seq<Conf>, i: nat): seq<(string, string)>
    requires i < |list|
  {
    var c := list[i];
    DepsPairs(t, c, i == 0, DependenciesOf(c, list))
    + (if i == 0 && c.main != "" then [RootMainPair(c)] else [])
  }

  /** The alias lines of a list of pairs. */
  function AliasLines(pairs: seq<(string, string)>): seq<string> {
    seq(|pairs|, k requires 0 <= k < |pairs| => Alias(pairs[k].0, pairs[k].1))
  }

  /** `aliases(type, list[i], list)`: the block of alias lines, joined by newlines. */
  function Aliases(t: AssetType, list: seq<Conf>, i: nat): string
    requires i < |list|
  {
    JoinWith(AliasLines(AliasPairs(t, list, i)), "\n")
  }

  /** Pair `p` is one of the aliases consumer `c` gets for `dep`. */
  ghost predicate AliasFor(t: AssetType, c: Conf, root: bool, dep: Conf, p: (string, string)) {
    t in dep.assets &&
    ((exists f :: f in FilesOf(dep, t) && p == FilePair(c, root, dep, f))
     || (dep.main != "" && p == MainPair(c, root, dep))
     || (root && p == TopPair(dep)))
  }

  lemma FilePairsMember(c: Conf, root: bool, dep: Conf, fs: seq<File>, p: (string, string))
    ensures p in FilePairs(c, root, dep, fs) <==> exists f :: f in fs && p == FilePair(c, root, dep, f)
  {
    var ps := FilePairs(c, root, dep, fs);
    if p in ps {
      var j :| 0 <= j < |ps| && ps[j] == p;
      assert fs[j] in fs;
    }
    if f :| f in fs && p == FilePair(c, root, dep, f) {
      var j :| 0 <= j < |fs| && fs[j] == f;
      assert ps[j] == p;
    }
  }

  /** Membership in three sequences end to end. */
  lemma InThree<T>(a: seq<T>, b: seq<T>, e: seq<T>, x: T)
    ensures x in a + b + e <==> x in a || x in b || x in e
  {
  }

  lemma DepPairsSpec(t: AssetType, c: Conf, root: bool, dep: Conf, p: (string, string))
    ensures p in DepPairs(t, c, root, dep) <==> AliasFor(t, c, root, dep, p)
  {
    if t in dep.assets {
      var a := FilePairs(c, root, dep, FilesOf(dep, t));
      var b := if dep.main != "" then [MainPair(c, root, dep)] else [];
      var e := if root then [TopPair(dep)] else [];
      assert DepPairs(t, c, root, dep) == a + b + e;
      InThree(a, b, e, p);
      FilePairsMember(c, root, dep, FilesOf(dep, t), p);
    }
  }

  /** Every alias of component `i` is one it gets for a dependency, or the root's own main alias. */
  lemma AliasPairsSound(t: AssetType, list: seq<Conf>, i: nat, p: (string, string))
    requires i < |list| && p in AliasPairs(t, list, i)
    ensures (exists dep :: dep in DependenciesOf(list[i], list) && AliasFor(t, list[i], i == 0, dep, p))
      || (i == 0 && list[i].main != "" && p == RootMainPair(list[i]))
  {
    var c := list[i];
    var deps := DependenciesOf(c, list);
    var f := (dep: Conf) => DepPairs(t, c, i == 0, dep);
    var ps := FlatMap(deps, f);
    assert AliasPairs(t, list, i) == ps + (if i == 0 && c.main != "" then [RootMainPair(c)] else []);
    if p in ps {
      FlatMapMember(deps, f, p);
      var k :| 0 <= k < |deps| && p in f(deps[k]);
      DepPairsSpec(t, c, i == 0, deps[k], p);
      assert deps[k] in deps;
    }
  }

  /** Every alias component `i` gets for a dependency is in its table. */
  lemma AliasPairsComplete(t: AssetType, list: seq<Conf>, i: nat, dep: Conf, p: (string, string))
    requires i < |list| && dep in DependenciesOf(list[i], list) && AliasFor(t, list[i], i == 0, dep, p)
    ensures p in AliasPairs(t, list, i)
  {
    var c := list[i];
    var deps := DependenciesOf(c, list);
    var f := (dep: Conf) => DepPairs(t, c, i == 0, dep);
    var ps := FlatMap(deps, f);
    assert AliasPairs(t, list, i) == ps + (if i == 0 && c.main != "" then [RootMainPair(c)] else []);
    var k :| 0 <= k < |deps| && deps[k] == dep;
    DepPairsSpec(t, c, i == 0, dep, p);
    assert p in f(deps[k]);
    FlatMapMember(deps, f, p);
  }

  /**
   * What the alias table of component `i` holds, both ways: exactly the
   * aliases it gets for each component it depends on, and for the root
   * with a `main`, the alias of its own main file.
   */
  lemma AliasPairsSpec(t: AssetType, list: seq<Conf>, i: nat, p: (string, string))
    requires i < |list|
    ensures p in AliasPairs(t, list, i) <==>
      (exists dep :: dep in DependenciesOf(list[i], list) && AliasFor(t, list[i], i == 0, dep, p))
      || (i == 0 && list[i].main != "" && p == RootMainPair(list[i]))
  {
    if p in AliasPairs(t, list, i) {
      AliasPairsSound(t, list, i, p);
    }
    if dep :| dep in DependenciesOf(list[i], list) && AliasFor(t, list[i], i == 0, dep, p) {
      AliasPairsComplete(t, list, i, dep, p);
    }
  }

  /** Every file of every dependency that has the type gets its alias. */
  lemma FileAliased(t: AssetType, list: seq<Conf>, i: nat, dep: Conf, f: File)
    requires i < |list| && dep in list && IsDependency(list[i], dep)
    requires t in dep.assets && f in FilesOf(dep, t)
    ensures FilePair(list[i], i == 0, dep, f) in AliasPairs(t, list, i)
  {
    DependenciesOfMember(list[i], list, dep);
    AliasPairsSpec(t, list, i, FilePair(list[i], i == 0, dep, f));
  }

  /** The root's alias for its own main file comes last. */
  lemma RootMainLast(t: AssetType, list: seq<Conf>)
    requires |list| > 0 && list[0].main != ""
    ensures var ps := AliasPairs(t, list, 0); |ps| > 0 && ps[|ps| - 1] == RootMainPair(list[0])
  {
  }

  /** Only the root gets top-level aliases: every alias of another component starts with `<id>/deps/`. */
  lemma NonRootUnderDeps(t: AssetType, list: seq<Conf>, i: nat, p: (string, string))
    requires 0 < i < |list| && p in AliasPairs(t, list, i)
    ensures exists dep :: dep in DependenciesOf(list[i], list) && DepPrefix(list[i], false, dep) <= p.0
  {
    AliasPairsSound(t, list, i, p);
    var dep :| dep in DependenciesOf(list[i], list) && AliasFor(t, list[i], false, dep, p);
    var pre := DepPrefix(list[i], false, dep);
    if f :| f in FilesOf(dep, t) && p == FilePair(list[i], false, dep, f) {
      assert p.0 == pre + f.filename;
    } else {
      assert p == MainPair(list[i], false, dep);
      assert p.0 == pre + "index.js";
    }
  }

  /** Every line of a block reads back as its pair, in order, when no target holds a `"`. */
  lemma AliasLinesParse(pairs: seq<(string, string)>)
    requires forall k :: 0 <= k < |pairs| ==> '"' !in pairs[k].1
    ensures forall k :: 0 <= k < |pairs| ==> ParseAlias(AliasLines(pairs)[k]) == Some(pairs[k])
  {
    forall k | 0 <= k < |pairs| ensures ParseAlias(AliasLines(pairs)[k]) == Some(pairs[k]) {
      ParseAliasOf(pairs[k].0, pairs[k].1);
    }
  }

  /** The block of component `i`; nothing past the end of the list. */
  function BlockOf(t: AssetType, list: seq<Conf>): nat -> string {
    (i: nat) => if i < |list| then Aliases(t, list, i) else ""
  }

  /** The callback `map` receives: the root is component `0`. */
  function RegisterCallback(t: AssetType, dev: bool, stringify: string -> string, quote: string -> string): (File, Conf, nat) -> File {
    (file: File, c: Conf, i: nat) => Register(t, c, file, i == 0, dev, stringify, quote)
  }

  /**
   * After `map`, file `k` of component `i` is the registration of what was
   * file `k` there, under the component's own id; the alias table is the
   * same whether it is built before or after, since registration keeps
   * every file name.
   */
  lemma RegisteredInPlace(cs: seq<Conf>, t: AssetType, dev: bool, stringify: string -> string, quote: string -> string, i: nat, k: nat)
    requires i < |cs| && k < |FilesOf(cs[i], t)|
    ensures var r := MapAll(cs, t, RegisterCallback(t, dev, stringify, quote))[i];
      |FilesOf(r, t)| == |FilesOf(cs[i], t)| &&
      FilesOf(r, t)[k] == Register(t, cs[i], FilesOf(cs[i], t)[k], i == 0, dev, stringify, quote)
  {
    var f := RegisterCallback(t, dev, stringify, quote);
    forall x: File, c1: Conf, c2: Conf | c1.name == c2.name && c1.dir == c2.dir && c1.main == c2.main
      ensures f(x, c1, i) == f(x, c2, i)
    {
      assert f(x, c1, i) == Register(t, c1, x, i == 0, dev, stringify, quote);
      assert f(x, c2, i) == Register(t, c2, x, i == 0, dev, stringify, quote);
      assert ModuleName(c1, i == 0, x) == ModuleName(c2, i == 0, x);
    }
    MapFromSpec(cs[i], i, t, f, 0);
  }

  /**
   * The plugin `commonjs(type)(build)`: the type defaults to scripts; every
   * file of it is registered in place; then each component's alias block is
   * appended to `build.aliases` (an absent or empty one starting as `''`),
   * components in order.
   */
  method Plugin(b: Build, t0: Option<AssetType>, stringify: string -> string, quote: string -> string)
    modifies b`components, b`aliases
    ensures var t := t0.GetOr(Scripts);
      b.components == MapAll(old(b.components), t, RegisterCallback(t, b.dev, stringify, quote))
      && b.aliases == Some(old(b.aliases).GetOr("") + ConcatUpTo(|b.components|, BlockOf(t, b.components)))
  {
    var t := t0.GetOr(Scripts);
    b.aliases := Some(b.aliases.GetOr(""));
    b.Map(t, RegisterCallback(t, b.dev, stringify, quote));
    AppendEach(b, |b.components|, BlockOf(t, b.components));
  }

  /**
   * The `forEach` of lines 35-37: the block of each of the first `n`
   * components appended to `build.aliases`, in order, with no separator.
   */
  method AppendEach(b: Build, n: nat, block: nat -> string)
    requires b.aliases.Some?
    modifies b`aliases
    ensures b.aliases == Some(old(b.aliases).value + ConcatUpTo(n, block))
  {
    var i := 0;
    assert b.aliases.value + ConcatUpTo(0, block) == b.aliases.value;
    while i < n
      invariant 0 <= i <= n
      invariant b.aliases == Some(old(b.aliases).value + ConcatUpTo(i, block))
    {
      var text := block(i);
      ghost var x, y := old(b.aliases).value, ConcatUpTo(i, block);
      b.aliases := Some(b.aliases.value + text);
      assert (x + y) + text == x + (y + text);
      i := i + 1;
    }
  }
}
