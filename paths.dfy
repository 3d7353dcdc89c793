/**
 * The few string operations on names and paths the builder relies on:
 * `String.prototype.replace` with a one-character pattern (which replaces the
 * first occurrence only) and simplified `path.join`, `path.basename`,
 * `path.dirname` and `path.resolve`. Paths are taken as already normalised:
 * no `.`/`..` folding and no trailing separators.
 */
module Paths {

  /** Index of the first occurrence of `c` in `s`, or `|s|` when there is none. */
  function IndexOf(s: string, c: char): (k: nat)
    ensures k <= |s|
    ensures k < |s| <==> c in s
    ensures k < |s| ==> s[k] == c
    ensures forall j :: 0 <= j < k ==> s[j] != c
  {
    if s == [] then 0
    else if s[0] == c then 0
    else 1 + IndexOf(s[1..], c)
  }

  /**
   * `s.replace(a, b)` for one-character strings `a` and `b`: the first
   * occurrence of `a`, if any, becomes `b`; nothing else changes.
   */
  function ReplaceFirst(s: string, a: char, b: char): string {
    if s == [] then []
    else if s[0] == a then [b] + s[1..]
    else [s[0]] + ReplaceFirst(s[1..], a, b)
  }

  /** What the replacement promises: same length, unchanged without `a`, otherwise exactly the first `a` made `b`. */
  lemma {:induction false} ReplaceFirstSpec(s: string, a: char, b: char)
    ensures |ReplaceFirst(s, a, b)| == |s|
    ensures a !in s ==> ReplaceFirst(s, a, b) == s
    ensures a in s ==> ReplaceFirst(s, a, b) == s[..IndexOf(s, a)] + [b] + s[IndexOf(s, a) + 1..]
  {
    if s != [] && s[0] != a {
      ReplaceFirstSpec(s[1..], a, b);
      if a in s {
        assert a in s[1..];
        assert s[..IndexOf(s, a)] == [s[0]] + s[1..][..IndexOf(s[1..], a)];
        assert s[IndexOf(s, a) + 1..] == s[1..][IndexOf(s[1..], a) + 1..];
      }
    }
  }

  /** The name under which a dependency is ignored and probed: `dep.replace('/', '-')`. */
  function Normalize(dep: string): string {
    ReplaceFirst(dep, '/', '-')
  }

  /** `path.join(a, b)` for two non-empty segments. */
  function Join(a: string, b: string): string {
    a + "/" + b
  }

  /** Index of the last `/` in `p`, or -1 when there is none. */
  function LastSlash(p: string): (k: int)
    ensures -1 <= k < |p|
    ensures k >= 0 ==> p[k] == '/'
    ensures forall j :: k < j < |p| ==> p[j] != '/'
  {
    if p == [] then -1
    else if p[|p| - 1] == '/' then |p| - 1
    else LastSlash(p[..|p| - 1])
  }

  /** `path.basename(p)`: everything after the last `/`. */
  function Basename(p: string): string {
    p[LastSlash(p) + 1..]
  }

  /** `path.dirname(p)`: everything before the last `/`; `.` for a bare name and `/` for a top-level entry. */
  function Dirname(p: string): string {
    var k := LastSlash(p);
    if k < 0 then "." else if k == 0 then "/" else p[..k]
  }

  /** `path.resolve(base, p)`: an absolute `p` stands alone, a relative one is joined onto `base`. */
  function Resolve(base: string, p: string): string {
    if |p| > 0 && p[0] == '/' then p else Join(base, p)
  }

  /** `path.resolve(path.join(dir, '..', name))`: the directory `name` next to `dir`. */
  function Sibling(dir: string, name: string): string {
    Join(Dirname(dir), name)
  }

  /** The last segment of a joined path is the segment that was joined on. */
  lemma {:induction false} BasenameOfJoin(a: string, b: string)
    requires '/' !in b
    ensures Basename(Join(a, b)) == b
    ensures Dirname(Join(a, b)) == (if |a| == 0 then "/" else a)
  {
    var p := Join(a, b);
    var k := LastSlash(p);
    assert p[|a|] == '/';
    assert forall j :: |a| < j < |p| ==> p[j] == b[j - |a| - 1];
    assert k == |a|;
  }

  /** The first `c` of `s + x` is the head of `x` when `s` holds none. */
  lemma IndexOfAfter(s: string, x: string, c: char)
    requires c !in s && |x| > 0 && x[0] == c
    ensures IndexOf(s + x, c) == |s|
  {
    assert (s + x)[|s|] == c;
    assert forall j :: 0 <= j < |s| ==> (s + x)[j] == s[j];
  }
}
