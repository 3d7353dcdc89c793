/**
 * lib/plugins/concat.js: the plugin that appends the contents of every
 * loaded file of one type, components in order, to `build[type]`. A file
 * with empty contents is skipped; `build[type]` is created (as `''`) only
 * when a non-empty file is met and it is still falsy.
 */
module Concat {
  import opened Wrappers
  import opened Manifest
  import opened Pipeline

  /** The callback of `concat`, acting on `build[type]` (`None` is `undefined`). */
  function Append(acc: Option<string>, file: File, c: Conf): Option<string> {
    if file.contents == "" then acc
    else Some((if acc.Some? then acc.value else "") + file.contents)
  }

  /** The contents of a list of calls, end to end. */
  function Contents(calls: seq<(File, Conf)>): string
    decreases |calls|
  {
    if calls == [] then "" else calls[0].0.contents + Contents(calls[1..])
  }

  /** Some call has non-empty contents. */
  predicate AnyContents(calls: seq<(File, Conf)>) {
    exists k :: 0 <= k < |calls| && calls[k].0.contents != ""
  }

  /** Some call has non-empty contents exactly when the first has or some later one has. */
  lemma AnyContentsCons(calls: seq<(File, Conf)>)
    requires calls != []
    ensures AnyContents(calls) <==> calls[0].0.contents != "" || AnyContents(calls[1..])
  {
    var rest := calls[1..];
    if AnyContents(calls) && calls[0].0.contents == "" {
      var k :| 0 <= k < |calls| && calls[k].0.contents != "";
      assert rest[k - 1] == calls[k];
    }
    if AnyContents(rest) {
      var k :| 0 <= k < |rest| && rest[k].0.contents != "";
      assert calls[k + 1] == rest[k];
    }
  }

  /** `build[type]` comes into being exactly when it was there before or some file has contents. */
  lemma {:induction false} AppendAllDefined(calls: seq<(File, Conf)>, acc: Option<string>)
    ensures FoldCalls(calls, Append, acc).Some? <==> acc.Some? || AnyContents(calls)
    decreases |calls|
  {
    if calls != [] {
      var acc' := Append(acc, calls[0].0, calls[0].1);
      assert FoldCalls(calls, Append, acc) == FoldCalls(calls[1..], Append, acc');
      AppendAllDefined(calls[1..], acc');
      AnyContentsCons(calls);
    }
  }

  /** Folding `Append` over the calls appends all their contents, in order, to what was there. */
  lemma {:induction false} AppendAll(calls: seq<(File, Conf)>, acc: Option<string>)
    ensures FoldCalls(calls, Append, acc).Some? ==> FoldCalls(calls, Append, acc).value == acc.GetOr("") + Contents(calls)
    decreases |calls|
  {
    if calls != [] {
      var acc' := Append(acc, calls[0].0, calls[0].1);
      assert FoldCalls(calls, Append, acc) == FoldCalls(calls[1..], Append, acc');
      assert Contents(calls) == calls[0].0.contents + Contents(calls[1..]);
      AppendAll(calls[1..], acc');
      if FoldCalls(calls, Append, acc).Some? && acc'.Some? {
        assert acc'.value == acc.GetOr("") + calls[0].0.contents;
      }
      if acc'.None? {
        assert acc.None? && calls[0].0.contents == "";
      }
    }
  }

  /** `concat(type)` run on `b`: the contents of every loaded file of `t`, in visiting order, appended to `build[type]`. */
  method Plugin(b: Build, t: AssetType)
    modifies b`outputs
    ensures var calls := Visits(b.components, t);
      if t in old(b.outputs) || AnyContents(calls) then
        b.outputs == old(b.outputs)[t := old(if t in b.outputs then b.outputs[t] else "") + Contents(calls)]
      else b.outputs == old(b.outputs)
  {
    var acc := b.Each(t, Append, if t in b.outputs then Some(b.outputs[t]) else None);
    EachVisitsInOrder(b.components, t, Append, if t in b.outputs then Some(b.outputs[t]) else None);
    AppendAllDefined(Visits(b.components, t), if t in b.outputs then Some(b.outputs[t]) else None);
    AppendAll(Visits(b.components, t), if t in b.outputs then Some(b.outputs[t]) else None);
    if acc.Some? {
      b.outputs := b.outputs[t := acc.value];
    }
  }

  /** The output is the visited contents end to end: each component's files in order, components in order. */
  lemma {:induction false} ContentsAppend(a: seq<(File, Conf)>, b: seq<(File, Conf)>)
    ensures Contents(a + b) == Contents(a) + Contents(b)
    decreases |a|
  {
    if a == [] {
      assert a + b == b;
    } else {
      assert (a + b)[1..] == a[1..] + b;
      ContentsAppend(a[1..], b);
    }
  }
}
