/** `Array.prototype.filter` and a concatenating map, with the facts the plugins rely on. */
module Seqs {

  /** `s.filter(p)`: the elements satisfying `p`, in order. */
  function Filter<T>(s: seq<T>, p: T -> bool): seq<T>
    decreases |s|
  {
    if s == [] then [] else (if p(s[0]) then [s[0]] else []) + Filter(s[1..], p)
  }

  /** An element is kept exactly when it is in `s` and satisfies `p`. */
  lemma {:induction false} FilterMember<T>(s: seq<T>, p: T -> bool, x: T)
    ensures x in Filter(s, p) <==> x in s && p(x)
    decreases |s|
  {
    if s != [] {
      FilterMember(s[1..], p, x);
      assert s == [s[0]] + s[1..];
    }
  }

  /** The filter keeps order: it distributes over concatenation. */
  lemma {:induction false} FilterAppend<T>(x: seq<T>, y: seq<T>, p: T -> bool)
    ensures Filter(x + y, p) == Filter(x, p) + Filter(y, p)
    decreases |x|
  {
    if x == [] {
      assert x + y == y;
    } else {
      var h := if p(x[0]) then [x[0]] else [];
      assert (x + y)[0] == x[0] && (x + y)[1..] == x[1..] + y;
      assert Filter(x + y, p) == h + Filter(x[1..] + y, p);
      FilterAppend(x[1..], y, p);
      assert h + (Filter(x[1..], p) + Filter(y, p)) == (h + Filter(x[1..], p)) + Filter(y, p);
    }
  }

  /** Two tests that agree on every element keep the same elements. */
  lemma {:induction false} FilterAgree<T>(s: seq<T>, p: T -> bool, q: T -> bool)
    requires forall k :: 0 <= k < |s| ==> p(s[k]) == q(s[k])
    ensures Filter(s, p) == Filter(s, q)
    decreases |s|
  {
    if s != [] {
      assert forall k :: 0 <= k < |s| - 1 ==> s[1..][k] == s[k + 1];
      FilterAgree(s[1..], p, q);
    }
  }

  /** `f` applied to each element, the results end to end. */
  function FlatMap<T, U>(s: seq<T>, f: T -> seq<U>): seq<U>
    decreases |s|
  {
    if s == [] then [] else f(s[0]) + FlatMap(s[1..], f)
  }

  /** An item is in the result exactly when `f` gives it for some element. */
  lemma {:induction false} FlatMapMember<T, U>(s: seq<T>, f: T -> seq<U>, u: U)
    ensures u in FlatMap(s, f) <==> exists k :: 0 <= k < |s| && u in f(s[k])
    decreases |s|
  {
    if s != [] {
      FlatMapMember(s[1..], f, u);
      if k :| 1 <= k < |s| && u in f(s[k]) {
        assert s[1..][k - 1] == s[k];
      }
      if k :| 0 <= k < |s| - 1 && u in f(s[1..][k]) {
        assert s[1..][k] == s[k + 1];
      }
    }
  }

  /** `f(0) + f(1) + ... + f(n - 1)`, as repeated `+=` leaves them. */
  function ConcatUpTo(n: nat, f: nat -> string): string {
    if n == 0 then "" else ConcatUpTo(n - 1, f) + f(n - 1)
  }
}
