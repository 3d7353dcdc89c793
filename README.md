# component builder, modelled in Dafny

This project models the core of the component builder, the tool that
assembles a component and its dependencies into one script and one style
sheet. The model covers:

- **The dependency walkers** (`lib/resolver.js` and its near-twin
  `lib/lookup.js`), in module `Resolver`. One class, `Resolver.Resolver`,
  covers both; a `flavour` constant selects `resolve` or `lookup`. The state
  that every walker of one resolution shares by reference lives in
  `Resolver.Session`:
  - the global search paths;
  - the ignore set;
  - the `dep:dir` cache;
  - the list of walkers.

  `end` reads the manifest, pushes the walker onto the shared list, pulls the
  file lists and walks the dependencies:
  - each name is marked ignored before it is probed;
  - each newly marked one is resolved over the search paths and walked by a
    child.
- **The CommonJS plugin** (`lib/plugins/commonjs.js`), in module `CommonJs`:
  the `require.register(...)` wrapping of each file and the
  `require.alias(...)` table. Each registration and alias text is proved to
  read back as the name and body it was built from. The alias table is
  characterised both ways.
- **The build pipeline** (`lib/build.js`), in module `Pipeline`: `each`
  folds over the files of a type in component and file order; `map`
  replaces every file in place. **Concatenation** (`lib/plugins/concat.js`)
  is in module `Concat`.
- **CSS url rewriting** (`lib/plugins/rewrite-urls.js`), in module
  `RewriteUrls`. The global expression `\burl *\(([^)]+)\)` is modelled by a
  scanner. It is proved to preserve all text outside the matches. A
  replacement keeps data and absolute URLs, and re-roots relative ones.
- **The two older builders.** `lib/builder.js` is in `ComponentBuilder`: its
  per-type ignore lists are shared by every child builder, which is what
  removes duplicate dependencies. `index.js` is in `LegacyBuilder`: it has
  one flat list that its builds never read, so nothing is deduplicated.

The filesystem is a value (`Manifest.FileSystem`). It maps each directory to
its already-parsed manifest, and each file path to its contents. Existence is
membership. JavaScript objects used as dictionaries are ordered association
lists (`Dict.Dict`), whose key order is `Object.keys` order. `Batch` fan-out
runs sequentially in push order. Each method with a loop or recursion
is proved against a specification function: `Lookup`, `Pulled`, `MapAll`,
`BuildOf`, `LegacyBuildOf` and the others. The properties the source promises
are lemmas about those functions.

Where the code and its documentation differ, this model follows the code:

- `lib/builder.js` normalises a dependency name (first `/` made `-`), tests
  that form against the list, then passes it to `ignore`, which normalises it
  a second time. A name with two or more `/` is therefore pushed in a form
  that its own test never matches, so it is built again each time it occurs.
  `ComponentBuilder.OnceEach` states the guarantee the code actually gives:
  no duplicate builds among names that a second normalisation leaves as they
  are.
- In `index.js` nothing stops a dependency cycle. `LegacyBuilder.SelfDependencyDiverges`
  shows that a component that lists files of the type and whose first
  dependency is itself never answers for that type.
- A component whose `scripts` (or `styles`) field is absent still builds its
  dependencies in `lib/builder.js`. In `index.js` it answers nothing.

## Model

| member | source | states |
|---|---|---|
| Paths.ReplaceFirstSpec | lib/resolver.js:85-88 | `replace('/', '-')` keeps the length, changes nothing without a `/`, and otherwise turns exactly the first `/` into `-` |
| Paths.BasenameOfJoin | lib/plugins/commonjs.js:195-199 | for a name `x` without `/`, the basename of `dir/x` is `x`, and its dirname is `dir` (`/` when `dir` is empty) |
| Dict.Get | lib/resolver.js:344-347 | a key reads as `undefined` exactly when it is not among the object's keys |
| Dict.Put | lib/resolver.js:344-347 | assignment keeps the key order (or appends a new key), sets that key and changes no other |
| Dict.MergeKeys | lib/resolver.js:344-347 | `merge(a, b)` keeps `a`'s keys in place and appends `b`'s new keys in `b`'s order |
| Dict.MergeGet | lib/resolver.js:344-347 | after `merge`, `b`'s value wins for every key `b` has; every other key keeps `a`'s value |
| Dict.MergeSpec | lib/lookup.js:343-346 | `merge` yields a well-formed object, with the key order and values above |
| Dict.FromNamesSpec | lib/resolver.js:289-298 | the object a reduce builds from names has those names in order of first occurrence, each mapped to the value, and no key repeats |
| Dict.NewKeys | lib/resolver.js:344-347 | the keys `b` adds are exactly those of `b` missing from `a`, and none of them repeats |
| Manifest.ConfOf | lib/resolver.js:320-333 | a freshly read conf keeps the manifest's name, takes the directory, and holds every declared list still unread |
| Manifest.ReadAll | lib/resolver.js:196-232 | reading succeeds exactly when every path is a file, giving their contents in declaration order; otherwise the error names an unreadable path |
| Manifest.ReadAllFirstMissing | lib/resolver.js:211-215 | the error is the first unreadable path in declaration order |
| Manifest.JoinWithSnoc | lib/builder.js:190-193 | joining one more part appends the separator and that part |
| Resolver.Live | lib/resolver.js:251-253 | the candidates probing reaches are those before the first falsy entry |
| Resolver.ProbeMissing | lib/resolver.js:251-259 | probing finds nothing exactly when every reachable candidate is uncached and has no `component.json` |
| Resolver.ProbeHit | lib/resolver.js:254-261 | a hit is the first reachable candidate that is cached or found on disk; a cached one answers the cached directory without a disk check |
| Resolver.ProbeStopsAtFalsy | lib/resolver.js:252-253 | candidates after a falsy entry are never probed |
| Resolver.ProbeFindsManifest | lib/resolver.js:256-261 | with a cache that only names real directories, every answer is a directory holding a manifest |
| Resolver.Local | lib/resolver.js:289-298 | `local()` maps each name of `local` (or `locals` when `local` is absent) to `'*'`, names in order of first occurrence |
| Resolver.WithDevSpec | lib/resolver.js:275-280 | development keys are merged after the declared ones and override them, in dev mode only |
| Resolver.DependenciesSpec | lib/resolver.js:275-280 | `dependencies()` orders keys as declared, then new development (dev only), then new local; values come from local (`'*'`), development (dev only) or declared, in that priority |
| Resolver.DependenciesDeclared | lib/lookup.js:274-279 | every dependency key is a name the manifest declares under one of its three fields |
| Resolver.DependenciesInUniverse | lib/resolver.js:174-183 | every normalised dependency name belongs to the finite set of names the filesystem declares |
| Resolver.UnmarkedShrinks | lib/resolver.js:175-176 | marking a new name makes the set of unmarked declared names strictly smaller, so the walk terminates |
| Resolver.Session.constructor | lib/resolver.js:57-64 | a root's session starts with search paths `[path + '/components']`, an empty ignore set, an empty cache and an empty list |
| Resolver.Resolver.Root | lib/resolver.js:29-35 | a root walker has a fresh session, no dev mode, empty locals and an unread conf |
| Resolver.Resolver.Child | lib/lookup.js:57-64 | a child shares its parent's session; dev mode is not inherited and locals start empty |
| Resolver.Resolver.Add | lib/resolver.js:45-48 | `add(p)` appends `p`, resolved against the walker's directory, to the search paths shared by the whole resolution |
| Resolver.Resolver.Development | lib/resolver.js:72-75 | `development()` turns on dev mode for this walker only |
| Resolver.Resolver.Ignore | lib/resolver.js:97-103 | `ignore(dep)` adds `dep` with its first `/` made `-` to the shared set; afterwards `ignored(dep)` holds, and it reports marking exactly when the name was not already ignored |
| Resolver.Resolver.Configure | lib/resolver.js:320-333 | `configure` resolves each manifest `paths` entry against the directory into `locals`, in order, and records the conf |
| Resolver.Resolver.Json | lib/resolver.js:112-127 | a missing manifest is the fatal error naming `component.json`, changing nothing; otherwise the conf is the manifest's, and `locals[i]` is the manifest's `paths[i]` resolved against the directory |
| Resolver.Resolver.Pull | lib/resolver.js:196-232 | `pull(type)` does what `Resolver.PulledSpec` describes |
| Resolver.PulledSpec | lib/resolver.js:196-232 | a missing type is a no-op; when every file is readable, the list becomes one `{filename, contents}` record per name in declaration order; otherwise the first unreadable path is the error |
| Resolver.Resolver.PullAll | lib/resolver.js:143-146 | the error and the conf are those of pulling templates, scripts, styles and json in that order, the first error stopping the rest (`Resolver.PulledEach`) |
| Resolver.PulledEachKeeps | lib/resolver.js:143-146 | the pulls leave the list of every type not pulled as it was |
| Resolver.PulledEachLoads | lib/resolver.js:143-150 | the pulls all succeed exactly when every declared file of every pulled type is readable; then each pulled list is one `{filename, contents}` record per name, in order |
| Resolver.PulledEachStops | lib/resolver.js:143-150 | a failure is the first unreadable file of the first type that has one; the types before it are pulled and it and the types after it are untouched |
| Resolver.Resolver.Resolve | lib/resolver.js:242-266 | probes `join(p, dep')` over the global paths and then the locals, where `resolve` appends the parent's locals first and `lookup` does not; the first hit is cached; a miss is `failed to resolve "<name>"'s dependency "<dep'>"` (`lookup`: `failed to lookup`) |
| Resolver.Resolver.MarkAll | lib/resolver.js:174-176 | every name is marked; the answer is, in order, the names that were not ignored before |
| Resolver.UnignoredFresh | lib/resolver.js:175-176 | every marked name is one of the declared names and was not ignored before |
| Resolver.UnignoredOnce | lib/resolver.js:174-183 | no two names marked by one `deps` normalise alike |
| Resolver.Resolver.WalkAll | lib/resolver.js:177-185 | the marked names are resolved and walked in turn; only new names get probed, and each success adds one walker per probe |
| Resolver.Resolver.Visit | lib/resolver.js:177-182 | one task: resolve the name and walk the directory found with a child on the same session |
| Resolver.Resolver.Descend | lib/resolver.js:180 | a child walker of the directory found appends itself and its own discoveries to the shared list |
| Resolver.Resolver.Fetch | lib/resolver.js:174-185 | after `deps`, every dependency name is ignored, and every name probed was unignored when `deps` began: across one resolution each normalised name is probed at most once |
| Resolver.Resolver.Deps | lib/resolver.js:162-186 | when the manifest has a `dependencies` field, `conf.dependencies` is replaced by the merged `dependencies()`; every one of its names, normalised, ends up ignored |
| Resolver.Resolver.End | lib/resolver.js:137-153 | a missing manifest is fatal and adds nothing; a failing pull of the manifest's files is the answer; on success the walker's conf is its manifest's with the four types pulled and `dependencies` merged (`Resolver.Ended`), this walker sits at its discovery position in the shared list (position 0 for the root), and the answer is the conf of every walker, in discovery order |
| Resolver.ConfsOf | lib/resolver.js:307-311 | `map()` gives one conf per walker, in list order |
| CommonJs.Register | lib/plugins/commonjs.js:53-75 | registration overwrites `contents` and keeps `filename` |
| CommonJs.RegisterUnwrap | lib/plugins/commonjs.js:53-75 | the registration reads back as the name `<id>/<filename>` and the wrapped body: contents for scripts, `module.exports = ` before them for JSON, `stringify` of them otherwise; the dev form, with the `sourceURL` tag, applies exactly to scripts in dev mode |
| CommonJs.UnwrapPlain | lib/plugins/commonjs.js:68-70 | the non-dev form `require.register("<name>", function(exports, require, module){\n<body>\n});\n` reads back as that name and body |
| CommonJs.UnwrapDev | lib/plugins/commonjs.js:65-67 | the dev form `Function("exports, require, module", <quoted>)` reads back as dev |
| CommonJs.ParseAliasOf | lib/plugins/commonjs.js:140-142 | `alias([from, to])` renders as `require.alias("<to>", "<from>");`, which reads back as that pair |
| CommonJs.DependenciesOfMember | lib/plugins/commonjs.js:154-164 | `b` is kept exactly when `a` declares `repo(b)` with a truthy value or lists `b.name` among its locals |
| CommonJs.DependenciesOfAppend | lib/plugins/commonjs.js:154-164 | the filter keeps list order |
| CommonJs.DependenciesIgnoreDevelopment | lib/plugins/commonjs.js:88-91 | the filter never reads `development`, since `aliases` passes no `dev`: any `development` field gives the same dependencies |
| CommonJs.DepPairsSpec | lib/plugins/commonjs.js:95-123 | a consumer gets for a dependency exactly: one `<id>/deps/<name>/<file>` pair per file; an `index.js` pair for a declared `main`; for the root, a top-level `<name>/index.js` pair |
| CommonJs.AliasPairsSpec | lib/plugins/commonjs.js:88-130 | the alias table of a component is exactly the aliases of the components it depends on, plus the root's own main alias |
| CommonJs.FileAliased | lib/plugins/commonjs.js:101-107 | every file of every dependency with the type has its alias |
| CommonJs.RootMainLast | lib/plugins/commonjs.js:125-127 | the root's alias for its own main file comes last |
| CommonJs.NonRootUnderDeps | lib/plugins/commonjs.js:101-119 | only the root gets top-level aliases; every alias of another component starts with `<id>/deps/` |
| CommonJs.AliasLinesParse | lib/plugins/commonjs.js:121-129 | each line of a block reads back as its pair, in order |
| CommonJs.RegisteredInPlace | lib/plugins/commonjs.js:30-33 | after `map`, file `k` of component `i` is the registration of the old file `k` under the component's id (its name for the root, its directory basename otherwise) |
| CommonJs.Plugin | lib/plugins/commonjs.js:22-39 | the type defaults to scripts; every file of that type is registered in place; each component's alias block is appended to `build.aliases`, components in order |
| CommonJs.AppendEach | lib/plugins/commonjs.js:35-37 | the blocks are appended to `build.aliases` in component order, without separators |
| Pipeline.EachVisitsInOrder | lib/build.js:27-34 | `each` calls `fn` file by file, components in list order and files in array order; a component without the type gives no calls |
| Pipeline.VisitsAppend | lib/build.js:27-34 | the calls over two runs of components are the first run's calls, then the second's |
| Pipeline.FoldCallsAppend | lib/build.js:27-34 | threading the callback through two runs of calls is threading it through the first, then the second |
| Pipeline.MapFromSpec | lib/build.js:44-51 | after `map`, slot `k` holds `fn(old slot k, conf)` |
| Pipeline.MapFrom | lib/build.js:44-51 | `map` keeps the array's length and every other type's list, and nothing else of the component changes |
| Pipeline.MapAll | lib/build.js:44-51 | `map` keeps the number of components |
| Pipeline.Build.constructor | lib/build.js:15-17 | a build holds the components, is not in dev mode and has no aliases or outputs yet |
| Pipeline.Build.Each | lib/build.js:27-34 | the loop computes the fold over every loaded file of the type, components in order |
| Pipeline.Build.Map | lib/build.js:44-51 | the loop replaces every file in place, as `Pipeline.MapAll` describes |
| Pipeline.Build.MapComponent | lib/build.js:46-50 | the inner loop replaces the files of one component in place, as `Pipeline.MapFrom` describes, and leaves every other component alone |
| Concat.AppendAllDefined | lib/plugins/concat.js:20-24 | `build[type]` exists afterwards exactly when it existed before or some file has non-empty contents |
| Concat.AppendAll | lib/plugins/concat.js:20-24 | the contents of every file are appended, in order, to what `build[type]` held, without separators; empty ones add nothing |
| Concat.ContentsAppend | lib/plugins/concat.js:20-24 | the concatenation over two runs of files is the first run's, then the second's |
| Concat.Plugin | lib/plugins/concat.js:17-26 | `build[type]` is extended by the contents of every file, in component and then file order; without contents and without an earlier value it stays unset |
| RewriteUrls.LeadingSpacesSpec | lib/plugins/rewrite-urls.js:20 | ` *` counts exactly the spaces at the front |
| RewriteUrls.MatchUrlSpec | lib/plugins/rewrite-urls.js:20 | a match found covers `url`, the spaces, `(`, a non-empty capture without `)`, and `)` |
| RewriteUrls.NoMatchWithoutUrl | lib/plugins/rewrite-urls.js:20 | no match starts where `url` does not |
| RewriteUrls.TokensCover | lib/plugins/rewrite-urls.js:53 | the scan loses nothing: its tokens cover the text exactly |
| RewriteUrls.TokensMatch | lib/plugins/rewrite-urls.js:20 | every match the scan takes has a non-empty capture without `)` |
| RewriteUrls.NoUrlAllText | lib/plugins/rewrite-urls.js:53 | text without `url` is plain text throughout |
| RewriteUrls.RenderUnchanged | lib/plugins/rewrite-urls.js:53 | only the matches change: a callback that returns each match as it stands leaves the sheet unchanged |
| RewriteUrls.NoUrlUnchanged | lib/plugins/rewrite-urls.js:53 | a sheet with no match is left unchanged |
| RewriteUrls.StripQuotesWrapped | lib/plugins/rewrite-urls.js:124-127 | a text opening with `"` or `'` loses its first and its last character, whatever that last one is: `[q] + x + [e]` gives `x` |
| RewriteUrls.StripQuotesSpec | lib/plugins/rewrite-urls.js:124-127 | the answer is never longer than the input, is a contiguous piece of it, and equals it exactly when the input does not open with a quote |
| RewriteUrls.ExemptUnchanged | lib/plugins/rewrite-urls.js:54-56 | data URLs (`data:`) and absolute ones (holding `://` or starting with `/`) come back as `url(<text>)`; a sheet of only such URLs is unchanged |
| RewriteUrls.QuotedDataResolved | lib/plugins/rewrite-urls.js:54-60 | the data and absolute tests look at the raw text: a quoted data URL is resolved like a relative one |
| RewriteUrls.RelativeResolved | lib/plugins/rewrite-urls.js:57-60 | a relative URL becomes `url("<resolve(dir, text without quotes)>")`, with `dir` the non-empty parts of prefix, component id and the file's dirname, each followed by `/` |
| RewriteUrls.BaseDirSpec | lib/plugins/rewrite-urls.js:57-59 | `[prefix, basename, dirname].filter(truthy).join('/') + '/'` drops the empty parts |
| RewriteUrls.DirnameNonEmpty | lib/plugins/rewrite-urls.js:57 | the dirname part is never dropped |
| RewriteUrls.RewrittenInPlace | lib/plugins/rewrite-urls.js:110-114 | after the plugin, style file `k` of component `i` is that file rewritten under the component's id: its name for the first component, its directory basename for the others |
| RewriteUrls.Plugin | lib/plugins/rewrite-urls.js:30-39 | every style file's contents is rewritten in place through `map` |
| ComponentBuilder.Pushed | lib/builder.js:59-62 | pushing onto one type's list appends there and leaves the other list alone |
| ComponentBuilder.PushAllSpec | lib/builder.js:57-63 | the names are appended, normalised and in order, to the type's list; the other list is untouched |
| ComponentBuilder.PushAllOne | lib/builder.js:61-63 | a single name counts as a one-element array |
| ComponentBuilder.IgnoreSpec | lib/builder.js:49-64 | `ignore` with no type records the names under scripts and styles; with a type, only under that type |
| ComponentBuilder.IgnoreThenIgnoring | lib/builder.js:75-81 | after `ignore(names, type)`, `ignoring` holds of each name in its normalised form, for both lists when no type is given |
| ComponentBuilder.MarkSnoc | lib/builder.js:159-167 | marking one more dependency skips it when the lists left so far hold its normalised name, and otherwise appends it to the kept names and pushes it |
| ComponentBuilder.MarkNewKeys | lib/builder.js:159-167 | for names with at most one `/`, the kept names are exactly the normalised declared names not yet in the type's list, in order, each once |
| ComponentBuilder.MarkLists | lib/builder.js:159-175 | marking appends one entry per kept dependency, in order, to the type's list and leaves the other list alone |
| ComponentBuilder.MarkSkipsIgnored | lib/builder.js:163 | a dependency already ignored for the type gets no child builder, and every kept name is a declared dependency |
| ComponentBuilder.MarkCovers | lib/builder.js:159-175 | after marking, every declared dependency is either kept or in the type's list |
| ComponentBuilder.KeepOne | lib/builder.js:165-166 | a kept name is recorded, and it was not kept before |
| ComponentBuilder.MarkOnce | lib/builder.js:159-175 | marking keeps the deduplication invariant |
| ComponentBuilder.RecordedGrows | lib/builder.js:166 | lists that only grow keep every recorded name |
| ComponentBuilder.PendingKept | lib/builder.js:158-176 | marking one manifest's dependencies keeps the deduplication invariant |
| ComponentBuilder.KeptTrans | lib/builder.js:171-174 | the invariant carries over successive child builds |
| ComponentBuilder.BuildOnce | lib/builder.js:150-195 | across a whole build on the shared lists, each name that a second normalisation leaves alone gets at most one child builder; each is recorded; only the type's list grows |
| ComponentBuilder.NodeOnce | lib/builder.js:154-193 | the same invariant holds for a build that reads its manifest |
| ComponentBuilder.BuildEachOnce | lib/builder.js:171-174 | the same invariant holds for a run of child builds |
| ComponentBuilder.BuildEachLength | lib/builder.js:190-192 | successful child builds give one text per child |
| ComponentBuilder.BuildEachText | lib/builder.js:169-174 | text `k` of a successful run is the build of name `k` from its sibling directory, on the lists the first `k` children leave |
| ComponentBuilder.BuildEachTexts | lib/builder.js:169-192 | the same for every `k` at once |
| ComponentBuilder.BuildOutput | lib/builder.js:158-193 | a successful build read its manifest and its own files; its text is the texts of the kept dependencies, text `k` being the build of kept name `k` from its sibling directory on the lists the earlier ones leave, then the own texts, joined by `\n` |
| ComponentBuilder.OwnTextsSpec | lib/builder.js:178-188 | the own texts are every declared file, read in order and registered as `<conf.name>/<file>` (scripts) or raw (styles); the error is the first unreadable one |
| ComponentBuilder.BuildProgress | lib/builder.js:150-195 | when no declared name has two `/`, a nesting bound above the number of declared names not yet in the type's list is never exhausted: the build never answers `Diverged` |
| ComponentBuilder.BuildEachProgress | lib/builder.js:169-192 | the same holds for a run of child builds |
| ComponentBuilder.BuildBothProgress | lib/builder.js:129-141 | from fresh lists, a bound above the number of declared names suffices for the scripts build and then the styles build |
| ComponentBuilder.RegisterRoundTrip | lib/builder.js:258-262 | `require.register("<path>", function(module, exports, require){\n<js>\n});` reads back as path and body (the same text as index.js:216-220) |
| ComponentBuilder.MarkOwnList | lib/builder.js:163-166 | marking depends only on the list of its type |
| ComponentBuilder.BuildOwnList | lib/builder.js:204-246 | a build of one type depends only on that type's list |
| ComponentBuilder.BuildEachOwnList | lib/builder.js:171-174 | the same holds for a run of child builds |
| ComponentBuilder.BuildBothIndependent | lib/builder.js:129-141 | in `build`, `js` is the scripts build and `css` the styles build, each as it would be alone from the starting lists |
| ComponentBuilder.ReadOwn | lib/builder.js:178-188 | the loop reading the own files computes the own texts |
| ComponentBuilder.IgnoreLists.constructor | lib/builder.js:29-32 | the shared object starts as `{scripts: [], styles: []}` |
| ComponentBuilder.IgnoreLists.Push | lib/builder.js:59-62 | `ignored[type].push(x)` changes only that list |
| ComponentBuilder.Builder.constructor | lib/builder.js:26-33 | a builder is named after the last segment of its directory, with fresh empty lists and no conf |
| ComponentBuilder.Builder.Ignore | lib/builder.js:49-64 | the loop pushes every normalised name onto the type's list (both lists when no type is given) |
| ComponentBuilder.Builder.Ignoring | lib/builder.js:75-81 | `ignoring(name, type)` is `ComponentBuilder.IgnoringIn` of the shared lists: membership in the type's list, or in both lists without a type; `ComponentBuilder.IgnoreThenIgnoring` states what it answers after `ignore` |
| ComponentBuilder.Builder.Path | lib/builder.js:92-94 | `path(file)` is `Paths.Join` of the builder's directory and the file; `Paths.BasenameOfJoin` gives its segments back |
| ComponentBuilder.Builder.Json | lib/builder.js:103-116 | the memoised conf is returned without a read; otherwise the manifest is read and kept; a missing one is the error |
| ComponentBuilder.Builder.MarkDependencies | lib/builder.js:158-176 | the loop marks the dependencies as `ComponentBuilder.Mark` describes |
| ComponentBuilder.Builder.BuildChild | lib/builder.js:169-174 | a child builder of the sibling directory shares the lists and leaves them as the specification build does |
| ComponentBuilder.Builder.BuildChildren | lib/builder.js:190-192 | the children are built in turn on the shared lists; the first error stops them |
| ComponentBuilder.Builder.BuildType | lib/builder.js:150-195 | the build computes `ComponentBuilder.BuildOf`: its text and the lists it leaves |
| ComponentBuilder.Builder.BuildScripts | lib/builder.js:150-195 | `buildScripts` is the build of the scripts type |
| ComponentBuilder.Builder.BuildStyles | lib/builder.js:204-246 | `buildStyles` is the build of the styles type, on raw contents |
| ComponentBuilder.Builder.Build | lib/builder.js:129-141 | `build` answers `{js, css}` from the scripts build and then the styles build; the first error is the answer |
| LegacyBuilder.LegacyEachLength | index.js:138-146 | every declared dependency gives one text, whatever its name: none is skipped as already built |
| LegacyBuilder.LegacyEachText | index.js:138-146 | text `k` of a successful run is the output of dependency `k`, built from its sibling directory, an empty output giving `""`; earlier builds do not affect it |
| LegacyBuilder.LegacyEachTexts | index.js:138-146 | the same for every `k` at once |
| LegacyBuilder.LegacyOutput | index.js:128-163 | a build answers nothing exactly when the manifest lists no files of the type (dependencies or not); otherwise a text is every declared dependency's output in declaration order (text `k` being the build of dependency `k` from its sibling directory), then the own texts, joined by `\n` |
| LegacyBuilder.SelfDependencyDiverges | index.js:128-146 | a component that lists files of the type and whose first dependency is built from its own directory never answers for that type |
| LegacyBuilder.Builder.constructor | index.js:26-30 | a builder is named after its directory's last segment, with an empty ignore list and no conf |
| LegacyBuilder.Builder.Ignore | index.js:39-47 | every name, its first `/` made `-`, is appended to the list in order |
| LegacyBuilder.Builder.Ignoring | index.js:57-59 | `ignoring(name)` is membership in the flat list that `ignore` appends to |
| LegacyBuilder.Builder.Path | index.js:70-72 | `path(file)` is `Paths.Join` of the builder's directory and the file |
| LegacyBuilder.Builder.Json | index.js:81-94 | the memoised conf is returned without a read; otherwise the manifest is read and kept; a missing one is the error |
| LegacyBuilder.Builder.BuildChildren | index.js:138-146 | a fresh builder per declared dependency, from its sibling directory, run in turn; the first error stops them |
| LegacyBuilder.Builder.BuildType | index.js:128-163 | the build computes `LegacyBuilder.LegacyBuildOf` |
| LegacyBuilder.Builder.BuildScripts | index.js:128-163 | `buildScripts` is the build of the scripts type |
| LegacyBuilder.Builder.BuildStyles | index.js:172-204 | `buildStyles` is the build of the styles type, on raw contents |
| LegacyBuilder.Builder.Build | index.js:107-119 | `build` answers `{js, css}`, either possibly nothing; the first error is the answer |

## Left out

- Filesystem and process I/O (`fs.readFile`, `fs.exists`) are membership and lookup in the `FileSystem` value. The copy and symlink plugins are plumbing around I/O and are not part of this model.
- `JSON.parse` and `utils.normalizeConfig` are left out: a manifest is taken as an already-parsed record. `normalizeConfig` is not part of this model.
- `Batch` concurrency runs sequentially in push order. The walk in `deps`, the file reads in `pull` (whose results the source pushes in completion order), and the two builds of `build` all follow that order.
- A script read error in the older builders calls the final callback directly, bypassing the batch. A style read error goes through the batch instead (lib/builder.js:236, index.js:195), which answers its first error. In both cases the model answers the first error in push order and ignores any later callback.
- The builders create every child builder inside the `forEach` over the dependencies, before any of them runs (lib/builder.js:171, index.js:143). The model creates each child when its turn comes. A child holds the shared lists by reference and reads them only when it runs, so this choice changes no result.
- The EventEmitter `'dependency'` event (lib/builder.js:173) and debug logging have no observable effect on the results, so they are left out.
- `path.join`, `path.resolve`, `basename` and `dirname` are plain string operations with no `.`/`..` normalisation. `Paths.Sibling` stands for `resolve(join(dir, '..', name))`.
- `url.resolve`, `string-to-js` and the dev-mode `JSON.stringify` are functions passed as parameters. Their texts are not modelled.
- The `component-require` runtime and `lib/shorthands.js` are not part of this model.
- The `0 == deps.length` branch of lib/resolver.js:168 never fires, since `deps` is an object, so it is not modelled.
- String contents are `seq<char>`. UTF-16, and `Object.keys` ordering of integer-like keys, are not modelled.
- ComponentBuilder.BuildOf: it carries a `fuel` bound on nesting, and runs out as the `Diverged` error. Names with two `/` are never deduplicated, so they are built again each time they occur. In the source the recursion can then fail to end, when `path.resolve` folds `..` segments (a dependency such as `x/../../p` of `R/p`) or a symlink closes a cycle. The model's plain string paths have neither, so there such a name always leads one directory deeper and enough fuel always suffices for a finite filesystem; `ComponentBuilder.BuildProgress` proves a concrete bound only for filesystems without such names. LegacyBuilder.LegacyBuildOf carries the same fuel bound on nesting, and there any cycle runs out.
- ComponentBuilder.RegisterRoundTrip: the round trip is stated only for module names without `"`, since the source does not escape names.
- CommonJs.RegisterUnwrap, CommonJs.UnwrapPlain, CommonJs.UnwrapDev, CommonJs.AliasLinesParse, CommonJs.ParseAliasOf: the read-back is stated only for names without `"`, for the same reason.
- RewriteUrls.ExemptUnchanged: "unchanged" is stated only for sheets with no space between `url` and `(`, because the replacement drops those spaces.
- Resolver.Resolver.WalkAll, Resolver.Resolver.Visit, Resolver.Resolver.Descend, Resolver.Resolver.Fetch: these state the dedup and list-growth invariants, not the exact contents of the list, because those contents depend on the whole recursive walk, for which the model has no specification function.
- Pipeline.EachVisitsInOrder, Pipeline.MapFromSpec, Pipeline.Build.Each, Pipeline.Build.Map, CommonJs.FilePairs, CommonJs.DepPairsSpec: only loaded lists (`{filename, contents}` records) are visited, replaced or aliased. A list still holding declared names, such as `images` or `fonts`, counts as having no files here. lib/build.js:29 and lib/build.js:46 would pass each name string to `fn`, and lib/plugins/commonjs.js:101-107 would emit aliases with `undefined` file names. The model keeps a single record type for the files of a list, so a list of bare names has no files to visit.
- Resolver.Resolver.End: the confs of the walkers after this one in the shared list are stated by count and discovery order, not as the pulled manifests of particular directories, because those confs come from the recursive walk, for which the model has no specification function.
- An absent `name` is `""` in the model. JavaScript string concatenation turns it into `"undefined"` (lib/builder.js:184, index.js:153, lib/resolver.js:253, lib/plugins/commonjs.js:198), so registration names, alias names and error messages for such a manifest differ.
- Object lookups are modelled as own keys only. In JavaScript, `_ignored[dep]` (lib/resolver.js:87) and `dependencies[slug]` (lib/plugins/commonjs.js:160) are also truthy for inherited keys such as `constructor`, so such a name counts as ignored, or as a dependency, in the source but not in the model.
