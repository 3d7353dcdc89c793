/**
 * A JavaScript object used as a string-to-string dictionary
 * (`dependencies`, `development`, the object `local()` builds).
 * Entries are kept in insertion order, which is the order `Object.keys`
 * and `for (k in o)` report; assigning to an existing key keeps its place.
 */
module Dict {
  import opened Wrappers

  type Dict = seq<(string, string)>

  function Keys(d: Dict): (ks: seq<string>)
    ensures |ks| == |d|
    ensures forall i :: 0 <= i < |d| ==> ks[i] == d[i].0
  {
    if d == [] then [] else [d[0].0] + Keys(d[1..])
  }

  predicate Distinct(s: seq<string>) {
    forall i, j :: 0 <= i < j < |s| ==> s[i] != s[j]
  }

  /** A well-formed object: no key occurs twice. */
  predicate Valid(d: Dict) {
    Distinct(Keys(d))
  }

  /** `d[k]`, `None` standing for `undefined`. */
  function Get(d: Dict, k: string): (r: Option<string>)
    ensures r.None? <==> k !in Keys(d)
  {
    if d == [] then None
    else if d[0].0 == k then Some(d[0].1)
    else Get(d[1..], k)
  }

  /** JavaScript truthiness of `d[k]`: present and not the empty string. */
  predicate Truthy(d: Dict, k: string) {
    Get(d, k).Some? && Get(d, k).value != ""
  }

  /** `d[k] = v`. */
  function Put(d: Dict, k: string, v: string): (r: Dict)
    ensures k in Keys(d) ==> Keys(r) == Keys(d)
    ensures k !in Keys(d) ==> Keys(r) == Keys(d) + [k]
    ensures Get(r, k) == Some(v)
    ensures forall k' :: k' != k ==> Get(r, k') == Get(d, k')
  {
    if d == [] then [(k, v)]
    else if d[0].0 == k then [(k, v)] + d[1..]
    else
      var rest := Put(d[1..], k, v);
      var r := [d[0]] + rest;
      assert r[0] == d[0] && r[1..] == rest;
      r
  }

  /** The keys of `b` that `a` lacks, in `b`'s order of first occurrence. */
  function NewKeys(a: seq<string>, b: seq<string>): (r: seq<string>)
    ensures forall k :: k in r <==> k in b && k !in a
    ensures Distinct(r)
    decreases |b|
  {
    if b == [] then []
    else if b[0] in a then NewKeys(a, b[1..])
    else
      var rest := NewKeys(a + [b[0]], b[1..]);
      assert b[0] !in rest;
      [b[0]] + rest
  }

  /** `merge(a, b)`: `for (var k in b) a[k] = b[k]`. */
  function Merge(a: Dict, b: Dict): Dict
    decreases b
  {
    if b == [] then a else Merge(Put(a, b[0].0, b[0].1), b[1..])
  }

  lemma DistinctAppend(x: seq<string>, y: seq<string>)
    requires Distinct(x) && Distinct(y)
    requires forall k :: k in y ==> k !in x
    ensures Distinct(x + y)
  {
    forall i, j | 0 <= i < j < |x + y| ensures (x + y)[i] != (x + y)[j] {
      if j < |x| {
      } else if i >= |x| {
        assert (x + y)[i] == y[i - |x|] && (x + y)[j] == y[j - |x|];
      } else {
        assert (x + y)[j] == y[j - |x|] && (x + y)[j] in y;
      }
    }
  }

  /** `merge` keeps `a`'s keys in place and appends `b`'s new keys in `b`'s order. */
  lemma {:induction false} MergeKeys(a: Dict, b: Dict)
    ensures Keys(Merge(a, b)) == Keys(a) + NewKeys(Keys(a), Keys(b))
    decreases b
  {
    if b != [] {
      var k0 := b[0].0;
      MergeKeys(Put(a, k0, b[0].1), b[1..]);
      assert Keys(b) == [k0] + Keys(b[1..]);
      assert Keys(b)[1..] == Keys(b[1..]);
    }
  }

  /** After `merge`, a key maps to `b`'s value if `b` has it and to `a`'s otherwise. */
  lemma {:induction false} MergeGet(a: Dict, b: Dict, k: string)
    requires Valid(b)
    ensures Get(Merge(a, b), k) == if k in Keys(b) then Get(b, k) else Get(a, k)
    decreases b
  {
    if b != [] {
      var k0 := b[0].0;
      assert Keys(b) == [k0] + Keys(b[1..]);
      assert Valid(b[1..]) && k0 !in Keys(b[1..]) by {
        assert forall i :: 0 <= i < |b| - 1 ==> Keys(b[1..])[i] == Keys(b)[i + 1];
      }
      MergeGet(Put(a, k0, b[0].1), b[1..], k);
    }
  }

  /**
   * What `merge` promises: `a`'s keys keep their places and `b`'s new keys
   * follow in `b`'s order; a key maps to `b`'s value if `b` has it and to
   * `a`'s otherwise; the result is again a well-formed object.
   */
  lemma MergeSpec(a: Dict, b: Dict)
    requires Valid(a) && Valid(b)
    ensures Valid(Merge(a, b))
    ensures Keys(Merge(a, b)) == Keys(a) + NewKeys(Keys(a), Keys(b))
    ensures forall k :: Get(Merge(a, b), k) == if k in Keys(b) then Get(b, k) else Get(a, k)
  {
    MergeKeys(a, b);
    DistinctAppend(Keys(a), NewKeys(Keys(a), Keys(b)));
    forall k ensures Get(Merge(a, b), k) == if k in Keys(b) then Get(b, k) else Get(a, k) {
      MergeGet(a, b, k);
    }
  }

  /**
   * The object `local()` builds: `names.reduce((ret, name) => (ret[name] = v, ret), {})`.
   * Its keys are the names in order of first occurrence, each mapped to `v`.
   */
  function FromNames(names: seq<string>, v: string): Dict {
    FromNamesInto([], names, v)
  }

  /** The reduce from object `acc` on: each name in turn assigned `v`. */
  function FromNamesInto(acc: Dict, names: seq<string>, v: string): Dict
    decreases |names|
  {
    if names == [] then acc else FromNamesInto(Put(acc, names[0], v), names[1..], v)
  }

  /** The keys of that object are the names in order of first occurrence, each mapped to `v`; no key repeats. */
  lemma FromNamesSpec(names: seq<string>, v: string)
    ensures Keys(FromNames(names, v)) == NewKeys([], names)
    ensures forall k :: Get(FromNames(names, v), k) == if k in names then Some(v) else None
    ensures Valid(FromNames(names, v))
  {
    FromNamesIntoKeys([], names, v);
    assert Keys([]) == [];
    forall k ensures Get(FromNames(names, v), k) == if k in names then Some(v) else None {
      FromNamesIntoGet([], names, v, k);
    }
  }

  /** The reduce keeps `acc`'s keys in place and appends the new names in order. */
  lemma {:induction false} FromNamesIntoKeys(acc: Dict, names: seq<string>, v: string)
    ensures Keys(FromNamesInto(acc, names, v)) == Keys(acc) + NewKeys(Keys(acc), names)
    decreases |names|
  {
    if names != [] {
      FromNamesIntoKeys(Put(acc, names[0], v), names[1..], v);
    }
  }

  /** After the reduce, every name maps to `v` and any other key keeps its value in `acc`. */
  lemma {:induction false} FromNamesIntoGet(acc: Dict, names: seq<string>, v: string, k: string)
    ensures Get(FromNamesInto(acc, names, v), k) == if k in names then Some(v) else Get(acc, k)
    decreases |names|
  {
    if names != [] {
      FromNamesIntoGet(Put(acc, names[0], v), names[1..], v, k);
      assert k in names <==> k == names[0] || k in names[1..];
    }
  }

}
