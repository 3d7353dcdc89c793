/**
 * lib/build.js: the object plugins work on once every component has been
 * resolved. It holds the confs of all components, root first, and the
 * outputs the plugins leave on it (`build.aliases`, `build[type]`). `each`
 * folds a callback over every loaded file of one type; `map` replaces every
 * such file, in place, by the callback's answer.
 */
module Pipeline {
  import opened Wrappers
  import opened Manifest

  /** `each` over the components from `cs[0]` on: every file of `t` of each, in order, threaded through `f`. */
  function FoldConfs<S>(cs: seq<Conf>, t: AssetType, f: (S, File, Conf) -> S, s: S): S
    decreases |cs|
  {
    if cs == [] then s else FoldConfs(cs[1..], t, f, FoldFiles(FilesOf(cs[0], t), cs[0], f, s))
  }

  /** The callback threaded through the files `fs` of component `c`. */
  function FoldFiles<S>(fs: seq<File>, c: Conf, f: (S, File, Conf) -> S, s: S): S
    decreases |fs|
  {
    if fs == [] then s else FoldFiles(fs[1..], c, f, f(s, fs[0], c))
  }

  /** The calls `each(type, fn)` makes, in order: one per loaded file of `t`, with the component it belongs to. */
  function Visits(cs: seq<Conf>, t: AssetType): (r: seq<(File, Conf)>)
    decreases |cs|
  {
    if cs == [] then []
    else Calls(FilesOf(cs[0], t), cs[0]) + Visits(cs[1..], t)
  }

  /** One call per file of `fs`, each with component `c`. */
  function Calls(fs: seq<File>, c: Conf): (r: seq<(File, Conf)>)
    ensures |r| == |fs| && forall j :: 0 <= j < |fs| ==> r[j] == (fs[j], c)
  {
    seq(|fs|, j requires 0 <= j < |fs| => (fs[j], c))
  }

  /** A callback applied to a list of calls, in order. */
  function FoldCalls<S>(calls: seq<(File, Conf)>, f: (S, File, Conf) -> S, s: S): S
    decreases |calls|
  {
    if calls == [] then s else FoldCalls(calls[1..], f, f(s, calls[0].0, calls[0].1))
  }

  lemma {:induction false} FoldCallsAppend<S>(a: seq<(File, Conf)>, b: seq<(File, Conf)>, f: (S, File, Conf) -> S, s: S)
    ensures FoldCalls(a + b, f, s) == FoldCalls(b, f, FoldCalls(a, f, s))
    decreases |a|
  {
    if a == [] {
      assert a + b == b;
    } else {
      assert (a + b)[0] == a[0] && (a + b)[1..] == a[1..] + b;
      FoldCallsAppend(a[1..], b, f, f(s, a[0].0, a[0].1));
    }
  }

  lemma {:induction false} FoldFilesAsCalls<S>(fs: seq<File>, c: Conf, f: (S, File, Conf) -> S, s: S)
    ensures FoldFiles(fs, c, f, s) == FoldCalls(Calls(fs, c), f, s)
    decreases |fs|
  {
    if fs != [] {
      assert Calls(fs, c)[1..] == Calls(fs[1..], c);
      FoldFilesAsCalls(fs[1..], c, f, f(s, fs[0], c));
    }
  }

  /**
   * What `each` promises: the callback sees every loaded file of `t` of
   * every component exactly once, components in order and files in
   * declaration order within each.
   */
  lemma {:induction false} EachVisitsInOrder<S>(cs: seq<Conf>, t: AssetType, f: (S, File, Conf) -> S, s: S)
    ensures FoldConfs(cs, t, f, s) == FoldCalls(Visits(cs, t), f, s)
    decreases |cs|
  {
    if cs != [] {
      var fs := FilesOf(cs[0], t);
      FoldFilesAsCalls(fs, cs[0], f, s);
      EachVisitsInOrder(cs[1..], t, f, FoldFiles(fs, cs[0], f, s));
      FoldCallsAppend(Calls(fs, cs[0]), Visits(cs[1..], t), f, s);
    }
  }

  /** The calls of `each` over two runs of components are the calls over the first run, then over the second. */
  lemma {:induction false} VisitsAppend(a: seq<Conf>, b: seq<Conf>, t: AssetType)
    ensures Visits(a + b, t) == Visits(a, t) + Visits(b, t)
    decreases |a|
  {
    if a == [] {
      assert a + b == b;
    } else {
      assert (a + b)[0] == a[0] && (a + b)[1..] == a[1..] + b;
      VisitsAppend(a[1..], b, t);
    }
  }

  /** `files[j] = fn(files[j], conf)` for `j` from `from` on, where `conf` already holds the files replaced so far. */
  function MapFrom(c: Conf, i: nat, t: AssetType, f: (File, Conf, nat) -> File, from: nat): (r: Conf)
    ensures r.(assets := c.assets) == c && r.assets.Keys == c.assets.Keys
    ensures |FilesOf(r, t)| == |FilesOf(c, t)|
    ensures forall u :: u != t && u in c.assets ==> r.assets[u] == c.assets[u]
    ensures t in c.assets ==> r.assets[t].Loaded? == c.assets[t].Loaded?
    decreases |FilesOf(c, t)| - from
  {
    var fs := FilesOf(c, t);
    if from >= |fs| then c
    else MapFrom(c.(assets := c.assets[t := Loaded(fs[from := f(fs[from], c, i)])]), i, t, f, from + 1)
  }

  /** `map` over every component, the index `i` standing for `conf == components[0]` (component `0` is the root). */
  function MapAll(cs: seq<Conf>, t: AssetType, f: (File, Conf, nat) -> File): (r: seq<Conf>)
    ensures |r| == |cs|
  {
    seq(|cs|, i requires 0 <= i < |cs| => MapFrom(cs[i], i, t, f, 0))
  }

  /** A callback that looks at its component only through `name`, `dir` and `main`, which `map` never changes. */
  ghost predicate ReadsIdentity(f: (File, Conf, nat) -> File, i: nat) {
    forall x: File, c1: Conf, c2: Conf ::
      c1.name == c2.name && c1.dir == c2.dir && c1.main == c2.main ==> f(x, c1, i) == f(x, c2, i)
  }

  /**
   * What `map` promises for such a callback: file `k` of `t` becomes
   * `fn(file k, conf)`, the number of files is kept, and nothing else of the
   * component changes.
   */
  lemma {:induction false} MapFromSpec(c: Conf, i: nat, t: AssetType, f: (File, Conf, nat) -> File, from: nat)
    requires ReadsIdentity(f, i) && from <= |FilesOf(c, t)|
    ensures forall k :: 0 <= k < |FilesOf(c, t)| ==>
      FilesOf(MapFrom(c, i, t, f, from), t)[k] == if k < from then FilesOf(c, t)[k] else f(FilesOf(c, t)[k], c, i)
    decreases |FilesOf(c, t)| - from
  {
    var fs := FilesOf(c, t);
    if from < |fs| {
      var c' := c.(assets := c.assets[t := Loaded(fs[from := f(fs[from], c, i)])]);
      assert FilesOf(c', t) == fs[from := f(fs[from], c, i)];
      MapFromSpec(c', i, t, f, from + 1);
      forall k | from < k < |fs| ensures f(FilesOf(c', t)[k], c', i) == f(fs[k], c, i) {
        assert FilesOf(c', t)[k] == fs[k];
      }
    }
  }

  /** The build: the resolved components, root first, and what plugins leave on it. */
  class Build {
    var components: seq<Conf>
    /** `build.dev`, set by the caller before the plugins run. */
    var dev: bool
    /** `build.aliases`; `None` is `undefined`. */
    var aliases: Option<string>
    /** `build[type]` as the concatenation plugin leaves it; a missing type is `undefined`. */
    var outputs: map<AssetType, string>

    /** `new Build(components)`. */
    constructor (components: seq<Conf>)
      ensures this.components == components && !dev && aliases.None? && outputs == map[]
    {
      this.components := components;
      dev := false;
      aliases := None;
      outputs := map[];
    }

    /** `each(type, fn)`: the callback folded over every loaded file of `t`, components in order. */
    method Each<S>(t: AssetType, f: (S, File, Conf) -> S, s0: S) returns (s: S)
      ensures s == FoldConfs(components, t, f, s0)
    {
      s := s0;
      var i := 0;
      while i < |components|
        invariant 0 <= i <= |components|
        invariant FoldConfs(components[i..], t, f, s) == FoldConfs(components, t, f, s0)
      {
        var c := components[i];
        var all := FilesOf(c, t);
        ghost var si := s;
        var j := 0;
        while j < |all|
          invariant 0 <= j <= |all|
          invariant FoldFiles(all[j..], c, f, s) == FoldFiles(all, c, f, si)
        {
          assert all[j..][1..] == all[j + 1..];
          s := f(s, all[j], c);
          j := j + 1;
        }
        assert components[i..][1..] == components[i + 1..];
        i := i + 1;
      }
    }

    /** `map(type, fn)`: every loaded file of `t` replaced, in place, by `fn(file, conf)`. */
    method Map(t: AssetType, f: (File, Conf, nat) -> File)
      modifies this`components
      ensures components == MapAll(old(components), t, f)
    {
      ghost var cs := components;
      var i := 0;
      while i < |components|
        invariant 0 <= i <= |components| && |components| == |cs|
        invariant forall k :: 0 <= k < i ==> components[k] == MapFrom(cs[k], k, t, f, 0)
        invariant forall k :: i <= k < |cs| ==> components[k] == cs[k]
      {
        MapComponent(i, t, f);
        i := i + 1;
      }
      assert components == MapAll(cs, t, f);
    }

    /** The inner loop of `map`: the files of `t` of component `i` replaced one by one. */
    method MapComponent(i: nat, t: AssetType, f: (File, Conf, nat) -> File)
      requires i < |components|
      modifies this`components
      ensures components == old(components)[i := MapFrom(old(components)[i], i, t, f, 0)]
    {
      var j := 0;
      while j < |FilesOf(components[i], t)|
        invariant |components| == |old(components)| && 0 <= j <= |FilesOf(components[i], t)|
        invariant MapFrom(components[i], i, t, f, j) == MapFrom(old(components)[i], i, t, f, 0)
        invariant components == old(components)[i := components[i]]
        decreases |FilesOf(components[i], t)| - j
      {
        var c := components[i];
        var all := FilesOf(c, t);
        components := components[i := c.(assets := c.assets[t := Loaded(all[j := f(all[j], c, i)])])];
        j := j + 1;
      }
    }
  }
}
