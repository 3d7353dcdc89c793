/**
 * lib/plugins/rewrite-urls.js: rewrites the `url(...)` references of every
 * style file so that relative ones point under
 * `<prefix>/<component id>/<dirname of the file>/`. Data and absolute URLs
 * are left as they are. `url.resolve` is a parameter (`resolve`).
 *
 * The global expression `\burl *\(([^)]+)\)` is modelled by a scanner:
 * a match starts at a position not preceded by a word character, reads
 * `url`, any number of spaces, `(`, one or more characters other than `)`,
 * and the closing `)`. `String.prototype.replace` tries each position from
 * left to right and resumes after each match.
 */
module RewriteUrls {
  import opened Wrappers
  import opened Manifest
  import opened Paths
  import opened Pipeline
  import opened Seqs
  import CommonJs

  /** `\w`: the characters a word boundary looks at. */
  predicate IsWordChar(c: char) {
    ('a' <= c <= 'z') || ('A' <= c <= 'Z') || ('0' <= c <= '9') || c == '_'
  }

  /** The number of spaces at the front of `s`. */
  function LeadingSpaces(s: string): (n: nat)
    ensures n <= |s|
  {
    if s == [] || s[0] != ' ' then 0 else 1 + LeadingSpaces(s[1..])
  }

  /** `LeadingSpaces` counts the spaces at the front and stops at the first other character. */
  lemma {:induction false} LeadingSpacesSpec(s: string)
    ensures forall j :: 0 <= j < LeadingSpaces(s) ==> s[j] == ' '
    ensures LeadingSpaces(s) < |s| ==> s[LeadingSpaces(s)] != ' '
  {
    if s != [] && s[0] == ' ' {
      LeadingSpacesSpec(s[1..]);
    }
  }

  function Blanks(n: nat): (r: string)
    ensures |r| == n && forall j :: 0 <= j < n ==> r[j] == ' '
  {
    if n == 0 then "" else " " + Blanks(n - 1)
  }

  /** A match of the expression: the spaces between `url` and `(`, and the captured text. */
  datatype Match = Match(spaces: nat, inner: string)

  /** The text a match covers. */
  function MatchText(m: Match): string {
    "url" + Blanks(m.spaces) + "(" + m.inner + ")"
  }

  /** `w` occurs in `s` at position `j`. */
  predicate OccursAt(s: string, j: nat, w: string) {
    j + |w| <= |s| && s[j..j + |w|] == w
  }

  /** `s` begins with the letters `url`. */
  predicate StartsWithUrl(s: string) {
    |s| >= 3 && s[0] == 'u' && s[1] == 'r' && s[2] == 'l'
  }

  /** `\(([^)]+)\)` at the front of `r`: the captured text, if any. */
  function Parenthesized(r: string): Option<string> {
    if r == [] || r[0] != '(' then None
    else
      var j := IndexOf(r[1..], ')');
      if j == 0 || j >= |r| - 1 then None
      else Some(r[1..1 + j])
  }

  /** What `Parenthesized` captures is non-empty, holds no `)`, and sits between `(` and `)` at the front of `r`. */
  lemma ParenthesizedSpec(r: string)
    requires Parenthesized(r).Some?
    ensures var x := Parenthesized(r).value;
      |x| > 0 && ')' !in x && "(" + x + ")" <= r
  {
    var j := IndexOf(r[1..], ')');
    var inner := r[1..1 + j];
    assert forall i :: 0 <= i < j ==> inner[i] == r[1..][i];
    assert "(" + inner + ")" == r[..j + 2];
  }

  /** The match that starts at the front of `s`, if any (the word boundary is the caller's). */
  function MatchUrl(s: string): Option<Match> {
    if !StartsWithUrl(s) then None
    else
      var n := LeadingSpaces(s[3..]);
      var p := Parenthesized(s[3 + n..]);
      if p.None? then None else Some(Match(n, p.value))
  }

  /** Two pieces at the front of `s`, one after the other, make one. */
  lemma PrefixCat(a: string, b: string, s: string)
    requires a <= s && b <= s[|a|..]
    ensures a + b <= s
  {
    assert (a + b) == s[..|a| + |b|] by {
      assert s[..|a| + |b|] == s[..|a|] + s[|a|..][..|b|];
    }
  }

  /** `url`, the spaces counted and a parenthesized text after them make a match's text at the front of `s`. */
  lemma MatchTextAt(s: string, n: nat, inner: string)
    requires StartsWithUrl(s) && n == LeadingSpaces(s[3..]) && "(" + inner + ")" <= s[3 + n..]
    ensures MatchText(Match(n, inner)) <= s
  {
    assert "url" <= s by {
      assert s[..3] == "url";
    }
    assert Blanks(n) <= s[3..] by {
      LeadingSpacesSpec(s[3..]);
      assert Blanks(n) == s[3..][..n];
    }
    var p := "url" + Blanks(n);
    PrefixCat("url", Blanks(n), s);
    assert |p| == 3 + n;
    PrefixCat(p, "(" + inner + ")", s);
    assert MatchText(Match(n, inner)) == p + ("(" + inner + ")");
  }

  lemma MatchUrlHead(s: string)
    requires MatchUrl(s).Some?
    ensures StartsWithUrl(s) && MatchUrl(s).value.spaces == LeadingSpaces(s[3..])
  {
  }

  lemma MatchUrlTail(s: string)
    requires MatchUrl(s).Some?
    ensures |s| >= 3 && Parenthesized(s[3 + MatchUrl(s).value.spaces..]) == Some(MatchUrl(s).value.inner)
  {
  }

  /** A match found at the front of `s` is one of the expression: it covers that much of `s`, captures at least one character and no `)`. */
  lemma MatchUrlSpec(s: string)
    requires MatchUrl(s).Some?
    ensures var m := MatchUrl(s).value;
      MatchText(m) <= s && |m.inner| > 0 && ')' !in m.inner
  {
    MatchUrlHead(s);
    MatchUrlTail(s);
    var m := MatchUrl(s).value;
    ParenthesizedSpec(s[3 + m.spaces..]);
    MatchTextAt(s, m.spaces, m.inner);
  }

  /** No match starts where `url` does not. */
  lemma NoMatchWithoutUrl(s: string)
    requires !OccursAt(s, 0, "url")
    ensures MatchUrl(s).None?
  {
    assert |s| >= 3 ==> s[0..3] == [s[0], s[1], s[2]];
  }

  /** A piece of a style sheet: one character of plain text, or one match. */
  datatype Token = Text(c: char) | Url(m: Match)

  /** The text a token covers. */
  function Raw(t: Token): string {
    match t
    case Text(c) => [c]
    case Url(m) => MatchText(m)
  }

  /** The text a list of tokens covers. */
  function RawAll(ts: seq<Token>): string {
    if ts == [] then "" else Raw(ts[0]) + RawAll(ts[1..])
  }

  /**
   * The scan `replace` makes: at each position, a match if one starts there
   * after a non-word character (or at the very start), otherwise one
   * character of text. `afterWord` says whether the character before `s` is
   * a word character; a match ends with `)`, which is not.
   */
  function Tokens(s: string, afterWord: bool): seq<Token>
    decreases |s|
  {
    if s == [] then []
    else if !afterWord && MatchUrl(s).Some? then
      var m := MatchUrl(s).value;
      MatchUrlSpec(s);
      [Url(m)] + Tokens(s[|MatchText(m)|..], false)
    else [Text(s[0])] + Tokens(s[1..], IsWordChar(s[0]))
  }

  /** The text of a token list with one token in front. */
  lemma RawAllCons(t: Token, rest: seq<Token>)
    ensures RawAll([t] + rest) == Raw(t) + RawAll(rest)
  {
    assert ([t] + rest)[1..] == rest;
  }

  /** The scan loses nothing: its tokens cover the text exactly. */
  lemma {:induction false} TokensCover(s: string, afterWord: bool)
    ensures RawAll(Tokens(s, afterWord)) == s
    decreases |s|, 1
  {
    if s != [] {
      if !afterWord && MatchUrl(s).Some? {
        TokensCoverUrl(s);
      } else {
        TokensCoverText(s, afterWord);
      }
    }
  }

  /** A prefix and what follows it make the whole. */
  lemma PrefixRest<T>(a: seq<T>, s: seq<T>)
    requires a <= s
    ensures s == a + s[|a|..]
  {
  }

  /** A match at the front covers its own text; the scan goes on after it. */
  lemma {:induction false} TokensCoverUrl(s: string)
    requires MatchUrl(s).Some?
    ensures RawAll(Tokens(s, false)) == s
    decreases |s|, 0
  {
    var m := MatchUrl(s).value;
    var t := MatchText(m);
    MatchUrlSpec(s);
    var rest := s[|t|..];
    assert Tokens(s, false) == [Url(m)] + Tokens(rest, false);
    RawAllCons(Url(m), Tokens(rest, false));
    TokensCover(rest, false);
    PrefixRest(t, s);
  }

  /** A character of plain text covers itself; the scan goes on after it. */
  lemma {:induction false} TokensCoverText(s: string, afterWord: bool)
    requires s != [] && (afterWord || MatchUrl(s).None?)
    ensures RawAll(Tokens(s, afterWord)) == s
    decreases |s|, 0
  {
    RawAllCons(Text(s[0]), Tokens(s[1..], IsWordChar(s[0])));
    TokensCover(s[1..], IsWordChar(s[0]));
    assert s == [s[0]] + s[1..];
  }

  /** Every match the scan takes is one of the expression: at least one captured character and no `)` among them. */
  lemma {:induction false} TokensMatch(s: string, afterWord: bool, t: Token)
    requires t in Tokens(s, afterWord) && t.Url?
    ensures |t.m.inner| > 0 && ')' !in t.m.inner
    decreases |s|
  {
    if !afterWord && MatchUrl(s).Some? {
      var m := MatchUrl(s).value;
      MatchUrlSpec(s);
      if t != Url(m) {
        TokensMatch(s[|MatchText(m)|..], false, t);
      }
    } else {
      TokensMatch(s[1..], IsWordChar(s[0]), t);
    }
  }

  /** Text with no `url` in it is plain text throughout. */
  lemma {:induction false} NoUrlAllText(s: string, afterWord: bool)
    requires forall j: nat :: !OccursAt(s, j, "url")
    ensures forall t :: t in Tokens(s, afterWord) ==> t.Text?
    decreases |s|
  {
    if s != [] {
      NoMatchWithoutUrl(s);
      forall j: nat ensures !OccursAt(s[1..], j, "url") {
        if OccursAt(s[1..], j, "url") {
          assert s[1..][j..j + 3] == s[j + 1..j + 4];
          assert OccursAt(s, j + 1, "url");
        }
      }
      NoUrlAllText(s[1..], IsWordChar(s[0]));
    }
  }

  /** The tokens with every match replaced by `f` of its captured text. */
  function Render(ts: seq<Token>, f: string -> string): string {
    if ts == [] then ""
    else
      (match ts[0]
       case Text(c) => [c]
       case Url(m) => f(m.inner))
      + Render(ts[1..], f)
  }

  /** `contents.replace(expr, fn)`, `fn` given the captured text only. */
  function ReplaceUrls(contents: string, f: string -> string): string {
    Render(Tokens(contents, false), f)
  }

  /** Where `f` gives back every match as it stands, rendering reproduces the text: only the matches change. */
  lemma {:induction false} RenderUnchanged(ts: seq<Token>, f: string -> string)
    requires forall t :: t in ts && t.Url? ==> f(t.m.inner) == MatchText(t.m)
    ensures Render(ts, f) == RawAll(ts)
  {
    if ts != [] {
      assert forall t :: t in ts[1..] ==> t in ts;
      RenderUnchanged(ts[1..], f);
    }
  }

  /** Text without any match comes out of the rewrite unchanged. */
  lemma NoUrlUnchanged(s: string, f: string -> string)
    requires forall j: nat :: !OccursAt(s, j, "url")
    ensures ReplaceUrls(s, f) == s
  {
    NoUrlAllText(s, false);
    RenderUnchanged(Tokens(s, false), f);
    TokensCover(s, false);
  }

  /** `data(url)`: the text begins with `data:`. */
  predicate IsData(u: string) {
    "data:" <= u
  }

  /** `absolute(url)`: the text holds `://` somewhere or begins with `/`. */
  predicate IsAbsolute(u: string) {
    (exists j: nat :: j < |u| && OccursAt(u, j, "://")) || (|u| > 0 && u[0] == '/')
  }

  /** `stripQuotes(str)`: `str.slice(1, -1)` when it begins with a quote, `str` otherwise. */
  function StripQuotes(u: string): (r: string)
    ensures |u| > 0 && (u[0] == '"' || u[0] == '\'') ==> (if |u| >= 2 then r == u[1..|u| - 1] else r == "")
    ensures !(|u| > 0 && (u[0] == '"' || u[0] == '\'')) ==> r == u
  {
    if |u| > 0 && (u[0] == '"' || u[0] == '\'') then (if |u| >= 2 then u[1..|u| - 1] else "") else u
  }

  /** A text opening with a quote loses its first and its last character, whatever that last one is. */
  lemma StripQuotesWrapped(q: char, x: string, e: char)
    requires q == '"' || q == '\''
    ensures StripQuotes([q] + x + [e]) == x
  {
    var u := [q] + x + [e];
    assert u[1..|u| - 1] == x;
  }

  /**
   * `stripQuotes` only ever removes: its answer is a contiguous piece of the
   * input, and it is the input itself exactly when the input does not open
   * with a quote.
   */
  lemma StripQuotesSpec(u: string)
    ensures |StripQuotes(u)| <= |u|
    ensures exists i, j :: 0 <= i <= j <= |u| && StripQuotes(u) == u[i..j]
    ensures StripQuotes(u) == u <==> !(|u| > 0 && (u[0] == '"' || u[0] == '\''))
  {
    if |u| > 0 && (u[0] == '"' || u[0] == '\'') {
      if |u| >= 2 {
        assert StripQuotes(u) == u[1..|u| - 1];
      } else {
        assert StripQuotes(u) == u[1..1];
      }
    } else {
      assert StripQuotes(u) == u[0..|u|];
    }
  }

  /** `truthy(str)`: a string is truthy when it is not empty. */
  predicate Truthy(p: string) {
    p != ""
  }

  /** `[prefix, basename, dir].filter(truthy).join('/') + '/'`. */
  function BaseDir(prefix: string, basename: string, filename: string): string {
    JoinWith(Filter([prefix, basename, Dirname(filename)], Truthy), "/") + "/"
  }

  /** The replacement callback of `rewrite` for one captured text. */
  function Replacement(u: string, filename: string, basename: string, prefix: string,
                       resolve: (string, string) -> string): string {
    if IsData(u) || IsAbsolute(u) then "url(" + u + ")"
    else "url(\"" + resolve(BaseDir(prefix, basename, filename), StripQuotes(u)) + "\")"
  }

  /** `rewrite(file, basename, prefix)`: the new contents. */
  function Rewrite(file: File, basename: string, prefix: string, resolve: (string, string) -> string): string {
    ReplaceUrls(file.contents, (u: string) => Replacement(u, file.filename, basename, prefix, resolve))
  }

  /**
   * Data and absolute URLs are written back as `url(<text>)`; a sheet whose
   * every match is such a URL, with no space before `(`, is left unchanged.
   */
  lemma ExemptUnchanged(file: File, basename: string, prefix: string, resolve: (string, string) -> string)
    requires forall t :: t in Tokens(file.contents, false) && t.Url? ==>
      t.m.spaces == 0 && (IsData(t.m.inner) || IsAbsolute(t.m.inner))
    ensures Rewrite(file, basename, prefix, resolve) == file.contents
  {
    var ts := Tokens(file.contents, false);
    var f := (u: string) => Replacement(u, file.filename, basename, prefix, resolve);
    forall t | t in ts && t.Url? ensures f(t.m.inner) == MatchText(t.m) {
      assert Blanks(0) == "";
      assert MatchText(t.m) == "url(" + t.m.inner + ")";
    }
    RenderUnchanged(ts, f);
    TokensCover(file.contents, false);
  }

  /**
   * The tests against `data:` and `/` look at the text before the quotes
   * are stripped: a quoted data URL is resolved like a relative one, its
   * quotes stripped and the result double-quoted.
   */
  lemma QuotedDataResolved(d: string, filename: string, basename: string, prefix: string, resolve: (string, string) -> string)
    requires IsData(d) && forall j: nat :: !OccursAt(d, j, "://")
    ensures Replacement("'" + d + "'", filename, basename, prefix, resolve) ==
      "url(\"" + resolve(BaseDir(prefix, basename, filename), d) + "\")"
  {
    var u := "'" + d + "'";
    assert !IsData(u) by {
      assert u[0] == '\'';
    }
    forall j: nat ensures !OccursAt(u, j, "://") {
      if j + 3 <= |u| {
        var w := u[j..j + 3];
        assert w[0] == u[j] && w[2] == u[j + 2];
        if 0 < j && j + 3 < |u| {
          assert w == d[j - 1..j + 2];
          assert !OccursAt(d, j - 1, "://");
        }
      }
    }
    assert u[1..|u| - 1] == d;
  }

  /** `dirname` never answers the empty string. */
  lemma DirnameNonEmpty(p: string)
    ensures Dirname(p) != ""
  {
  }

  /**
   * The base directory: the prefix, the component id and the file's
   * directory, the empty ones dropped, joined by `/` and ended with `/`.
   */
  lemma BaseDirSpec(prefix: string, basename: string, filename: string)
    ensures var d := Dirname(filename);
      BaseDir(prefix, basename, filename) ==
        (if prefix != "" then prefix + "/" else "") + (if basename != "" then basename + "/" else "") + d + "/"
  {
    var d := Dirname(filename);
    DirnameNonEmpty(filename);
    FilterThree(prefix, basename, d, Truthy);
    if prefix != "" && basename != "" {
      assert Filter([prefix, basename, d], Truthy) == [prefix, basename, d];
      JoinThree(prefix, basename, d, "/");
    } else if prefix != "" {
      assert Filter([prefix, basename, d], Truthy) == [prefix, d];
      JoinTwo(prefix, d, "/");
    } else if basename != "" {
      assert Filter([prefix, basename, d], Truthy) == [basename, d];
      JoinTwo(basename, d, "/");
    } else {
      assert Filter([prefix, basename, d], Truthy) == [d];
    }
  }

  /** Filtering three elements keeps those that pass, in order. */
  lemma FilterThree<T>(a: T, b: T, c: T, p: T -> bool)
    ensures Filter([a, b, c], p) == (if p(a) then [a] else []) + (if p(b) then [b] else []) + (if p(c) then [c] else [])
  {
    var x, y, z := (if p(a) then [a] else []), (if p(b) then [b] else []), (if p(c) then [c] else []);
    assert Filter([c], p) == z by {
      assert [c][1..] == [];
      assert z + [] == z;
    }
    assert Filter([b, c], p) == y + z by {
      assert [b, c][1..] == [c];
    }
    assert [a, b, c][1..] == [b, c];
    assert Filter([a, b, c], p) == x + (y + z);
  }

  /** Two parts joined. */
  lemma JoinTwo(a: string, b: string, sep: string)
    ensures JoinWith([a, b], sep) == a + sep + b
  {
    assert [a, b][1..] == [b];
  }

  /** Three parts joined. */
  lemma JoinThree(a: string, b: string, c: string, sep: string)
    ensures JoinWith([a, b, c], sep) == a + sep + b + sep + c
  {
    assert [a, b, c][1..] == [b, c];
    JoinTwo(b, c, sep);
  }

  /**
   * A relative URL, quoted or not, is resolved against
   * `<prefix>/<basename>/<dirname of the file>/` (empty parts dropped) with
   * its quotes taken off, and written back double-quoted.
   */
  lemma RelativeResolved(x: string, quoted: Option<char>, filename: string, basename: string, prefix: string,
                         resolve: (string, string) -> string)
    requires quoted.Some? ==> quoted.value == '"' || quoted.value == '\''
    requires quoted.None? ==> |x| == 0 || (x[0] != '"' && x[0] != '\'')
    requires var u := if quoted.Some? then [quoted.value] + x + [quoted.value] else x; !IsData(u) && !IsAbsolute(u)
    ensures var u := if quoted.Some? then [quoted.value] + x + [quoted.value] else x;
      Replacement(u, filename, basename, prefix, resolve) ==
        "url(\"" + resolve((if prefix != "" then prefix + "/" else "") + (if basename != "" then basename + "/" else "") +
                           Dirname(filename) + "/", x) + "\")"
  {
    var u := if quoted.Some? then [quoted.value] + x + [quoted.value] else x;
    BaseDirSpec(prefix, basename, filename);
    if quoted.Some? {
      assert u[1..|u| - 1] == x;
    }
  }

  /** The callback `map('styles', ...)` receives; component `0` is named by its `name`, the others by their directory. */
  function RewriteCallback(prefix: string, resolve: (string, string) -> string): (File, Conf, nat) -> File {
    (file: File, c: Conf, i: nat) => File(file.filename, Rewrite(file, CommonJs.ModuleId(c, i == 0), prefix, resolve))
  }

  /** `rewriteUrls(prefix)(build)`: every style file's contents rewritten in place. */
  method Plugin(b: Build, prefix: string, resolve: (string, string) -> string)
    modifies b`components
    ensures b.components == MapAll(old(b.components), Styles, RewriteCallback(prefix, resolve))
  {
    b.Map(Styles, RewriteCallback(prefix, resolve));
  }

  /** After the plugin, style file `k` of component `i` is that file rewritten with the component's id. */
  lemma RewrittenInPlace(cs: seq<Conf>, prefix: string, resolve: (string, string) -> string, i: nat, k: nat)
    requires i < |cs| && k < |FilesOf(cs[i], Styles)|
    ensures var r := MapAll(cs, Styles, RewriteCallback(prefix, resolve))[i];
      var file := FilesOf(cs[i], Styles)[k];
      |FilesOf(r, Styles)| == |FilesOf(cs[i], Styles)| &&
      FilesOf(r, Styles)[k] == File(file.filename, Rewrite(file, CommonJs.ModuleId(cs[i], i == 0), prefix, resolve))
  {
    var f := RewriteCallback(prefix, resolve);
    forall x: File, c1: Conf, c2: Conf | c1.name == c2.name && c1.dir == c2.dir && c1.main == c2.main
      ensures f(x, c1, i) == f(x, c2, i)
    {
      assert CommonJs.ModuleId(c1, i == 0) == CommonJs.ModuleId(c2, i == 0);
    }
    MapFromSpec(cs[i], i, Styles, f, 0);
  }
}
