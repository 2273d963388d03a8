# ConfigLoader, modelled in Dafny

This project models the `ConfigLoader` class of enigma-bbs
(`core/config_loader.js`). The class builds one live configuration tree
for the BBS and rebuilds it whenever a file it depends on changes.

A reload runs four stages in order:

1. It loads the base file through the configuration cache.
2. It deep-merges that file over the defaults with `_.merge`, or with
   `_.mergeWith` when a `defaultsCustomizer` is given. The customizer is
   asked about every key together with its dotted key path, which the
   loader keeps on a stack of `{source, path}` frames.
3. It loads every file listed under `includes`, relative to the base
   file's directory, in order. Each one fills gaps with `_.defaultsDeep`.
   The base path and the include paths are recorded in `configPaths`.
4. It replaces every string value that starts with `@reference:` (a dotted
   path into the tree) or `@environment:` (an environment variable, with a
   type and an optional `array` flag).

If every stage succeeds, the tree is published as `current`, which `get()`
returns. When a file changes, the loader re-reads it. If the file is one
of `configPaths`, it reloads from the base path and counts a
`ConfigChanged` event when that succeeds.

## Modules

- `Json` (`json.dfy`) covers configuration values:
  - objects keep their keys in insertion order;
  - `Wf` says each key is listed once;
  - locations support `_.get` (`GetAt`, `GetDotted`) and `_.set` (`SetAt`);
  - `StringLeaves` lists the string values in the order of a pre-order walk.
- `Merge` (`merge.dfy`) models lodash's `merge`/`mergeWith` and
  `defaultsDeep` on parsed trees.
- `MergePath` (`merge_path.dfy`) models the customizer's path stack as a
  method with a loop. It is proved to hand every call the location of its
  value, for the order in which lodash makes the calls.
- `Environment` (`environment.dfy`) models `_convertTo` and
  `_resolveEnvironmentVariable` as functions.
- `Placeholders` (`placeholders.dfy`) models `_resolveAtSpecs` as a loop
  over the string values, proved against the fold `ResolveLeaves`.
- `Includes` (`includes.dfy`) models `_resolveIncludes`: the joined paths
  and the series of loads, proved against the fold `FoldIncludes`.
- `Loader` (`loader.dfy`) models the class itself:
  - its fields, the constructor, `get()`, `init`, `_reload` and
    `_configFileChanged` as methods;
  - each method is proved equal to a function of the old state (`ReloadSpec`,
    `FileChangedSpec`), with lemmas about those functions.
- `Strings`, `Wrappers` and `Faults` hold helpers: splitting and joining,
  `parseInt`, `String(n)`, `Option`/`Result`, and the fault values.

### Behaviour of the code that the model follows

The model follows the code's actual behaviour. In these cases that
differs from how the loader is usually described:

- `_.mergeWith(defaultConfig, config)` writes into the `defaultConfig`
  object. When the defaults are an object, every later stage edits that
  object, and after a success `current` is that same object. As a result:
  - A later reload that fails part-way still changes what `get()` returns
    (`SharedFailureIsVisible`, `FailedReloadWitness`).
  - Keys removed from the file remain in the published tree
    (`StaleKeysSurvive`).
  - The published tree is not swapped in atomically.
  - Running the pipeline twice on unchanged files can publish different
    trees. The first run resolves placeholders inside the defaults object,
    so a reference the file adds again reads the resolved value the second
    time (`RerunWitness`). With a defaults function every run starts
    afresh (`ProducerReloadIgnoresHistory`).
- `configPaths` is only assigned when the tree has an `includes` array. It
  is then assigned even when an include fails to load. Without includes it
  stays unset, so any later file change throws a `TypeError` instead of
  reloading (`NoIncludesNoHotReload`).
- An include entry that is not a string makes `paths.join` throw.
- `_resolveEnvironmentVariable` reads the fields of `spec.split(':')` by
  position:
  - field 0 is the `@environment` marker itself;
  - field 1 is the variable;
  - field 2 is the type;
  - field 3 is the array flag.

  So `@environment:PREFIX:PORT:number` reads the variable `PREFIX` and
  takes `PORT` as its type (`SecondFieldIsTheVariable`).
- The date types call `moment`, which the file never imports. The model
  throws a `ReferenceError` for them (`ConvertTo`, `OnlyDatesThrow`).
- A changed file whose re-read fails is reported through `console.stdout`.
  That is not a function, so the call throws (`FileChangedSpec`).
- A placeholder that cannot be resolved leaves the string in place. A
  thrown conversion escapes `_resolveAtSpecs` and the whole reload.

## Model

| member | source | states |
|---|---|---|
| Loader.ConfigLoader.constructor | core/config_loader.js:9-17 | the loader starts with `current` = `{}`, no configuration paths, no events, and keeps `hotReload`, `defaultConfig` and `defaultsCustomizer` as given |
| Loader.ConfigLoader.Get | core/config_loader.js:24-26 | `get()` returns the published configuration, which is the defaults object itself while the two are shared |
| Loader.ConfigLoader.Init | core/config_loader.js:19-22 | `init` records the base path and then behaves exactly as a reload from that path, keeping the aliasing invariant |
| Loader.ConfigLoader.Reload | core/config_loader.js:28-100 | the new state and the outcome are those of the four-stage pipeline `ReloadSpec` on the old state, and the aliasing invariant is kept |
| Loader.ConfigLoader.WriteInPlace | core/config_loader.js:53-82 | an edit of the pipeline's tree shows through `defaultConfig` when the tree is the defaults object, and through `current` when that is the same object |
| Loader.ConfigLoader.ResolveIncludes | core/config_loader.js:196-218 | the tree, the new state and the stop reason are those of the includes stage `IncludesStage` |
| Loader.ConfigLoader.ConfigFileChanged | core/config_loader.js:178-194 | the new state and outcome are those of `FileChangedSpec`, and the aliasing invariant is kept |
| Loader.ChosenDefaults | core/config_loader.js:29-36 | a defaults function is called for its result; object defaults are used as they are; any other value gives `{}` |
| Loader.ReloadSpec | core/config_loader.js:28-100 | a reload never reports "nothing to do", keeps the base path, the event count and a defaults function; while nothing is shared, a reload that does not succeed keeps `current` and shares nothing; a success shares exactly when the defaults are an object |
| Loader.FileChangedSpec | core/config_loader.js:178-194 | a change whose file cannot be re-read throws the `console.stdout` `TypeError`; a file outside `configPaths`, or an ignored change, leaves the state as it was; the event count grows by one exactly on a successful reload; a readable file with `configPaths` unset throws the `TypeError` of reading `.includes` of `undefined`; a readable file listed in `configPaths` reloads from `baseConfigPath`, with that reload's outcome and state plus one event when it succeeds |
| Loader.RootLoadFailureChangesNothing | core/config_loader.js:45-98 | a base file that cannot be loaded fails the reload with that file's error and changes no field |
| Loader.UnsharedFailureKeepsUnshared | core/config_loader.js:93-97 | from an unshared state, a reload that does not succeed keeps `current` and leaves it unshared |
| Loader.FailuresKeepPublished | core/config_loader.js:93-97 | from an unshared state, any series of reloads none of which succeeds keeps `current` and leaves it unshared |
| Loader.NothingPublishedBeforeSuccess | core/config_loader.js:93-97 | after the constructor, `get()` returns `{}` through any series of reloads until one succeeds |
| Loader.ReloadKeepsValid | core/config_loader.js:53-97 | every reload keeps the aliasing invariant (`current` is the defaults object whenever `sharesDefaults`), and a success shares exactly when the defaults are an object |
| Loader.SharedFailureIsVisible | core/config_loader.js:53-97 | with the defaults object published, even a failed reload leaves `current` equal to the edited defaults object |
| Loader.FailedReloadWitness | core/config_loader.js:53-97 | a concrete failed reload (missing include) after which `get()` returns a different tree than before |
| Loader.RerunWitness | core/config_loader.js:33-97 | two reloads of unchanged files over object defaults both succeed and publish different trees: the first resolves a placeholder inside the defaults object, which the second reads |
| Loader.StaleKeysSurvive | core/config_loader.js:32-82 | with object defaults, a key the defaults hold is still published after a successful reload of a file without it |
| Loader.ProducerReloadIgnoresHistory | core/config_loader.js:30-31 | with a defaults function, the outcome and published tree of a reload do not depend on earlier reloads |
| Loader.ConfigPathsAfterReload | core/config_loader.js:196-218 | `configPaths` becomes the base path followed by every include path when there is an `includes` array of strings, and is untouched without one |
| Loader.IncludeFailureFails | core/config_loader.js:204-216 | a reload with includes fails exactly when some include is missing, and then with the first missing one |
| Loader.ChangeEventsCountSuccesses | core/config_loader.js:186-191 | over any series of file changes, the number of `ConfigChanged` events emitted is the number of changes whose reload succeeds |
| Loader.UnrelatedChangeIgnored | core/config_loader.js:185 | a readable changed file outside `configPaths` changes nothing |
| Loader.NoIncludesNoHotReload | core/config_loader.js:185-199 | after `init` of a configuration without includes, every readable file change throws instead of reloading |
| Loader.PublishedWf | core/config_loader.js:28-100 | with well-formed files, defaults, customizer answers and parser, the published tree lists every key once |
| Merge.MergeConfig | core/config_loader.js:53-82 | the merged configuration is always an object |
| Merge.MergeKeepsLoaded | core/config_loader.js:82 | without a customizer the merged tree keeps every key, element and scalar of the loaded file |
| Merge.DefaultOnlyKeysSurvive | core/config_loader.js:53-82 | wherever a defaults object meets a loaded object, at any path, a key only the defaults have keeps the defaults' value |
| Merge.DefaultOnlyKeysSurviveDeep | core/config_loader.js:53-82 | at any depth where both trees hold objects and the customizer declined along the way, a key only the defaults' object has keeps its value in the merged tree |
| Merge.MergeOntoNothing | core/config_loader.js:82 | a loaded value with nothing under it in the defaults is taken over exactly |
| Merge.CustomizerDecides | core/config_loader.js:53-77 | when the customizer declines at every ancestor and answers `v` at a location (given the default value there, the key and the dotted path), the merged tree holds `v` there |
| Merge.MergedChild | core/config_loader.js:53-77 | each child of the merged tree is the merge of the loaded child with what the defaults hold there |
| Merge.MergeObjectWf | core/config_loader.js:53-82 | merging well-formed objects, with a customizer that answers well-formed values, gives a well-formed object |
| Merge.DefaultsDeep | core/config_loader.js:210 | the filled configuration is an object with the keys of both, keeps everything the configuration had, and takes every key only the include has from the include |
| Merge.FillExtends | core/config_loader.js:210 | `_.defaultsDeep` never overwrites: the configuration keeps everything it had |
| Merge.FillAgreesWithMerge | core/config_loader.js:210 | filling the configuration from an include holds the same content as laying the configuration over the include |
| Merge.FillWf | core/config_loader.js:210 | filling keeps a tree well-formed |
| MergePath.Step | core/config_loader.js:57-72 | one customizer call pops until the frame of its `source`, hands on the value's full location and leaves the frame chain of that value |
| MergePath.Paths | core/config_loader.js:52-75 | over any run of calls in which each follows the one before, the stack hands every call the location of its value |
| MergePath.TraceWalks | core/config_loader.js:53-77 | lodash's order of calls over a loaded tree is such a run |
| MergePath.MergePaths | core/config_loader.js:52-75 | over lodash's calls for a loaded tree, in lodash's order, every customizer call receives exactly the location of its value from the root |
| Environment.ConvertTo | core/config_loader.js:102-142 | booleans are the case-insensitive test for "true"; a number is the `parseInt` result whenever that is not NaN, and the text otherwise; an object is the `JSON.parse` result whenever that succeeds, and the text otherwise; exactly the date types throw; every other type leaves the text |
| Environment.ConvertAll | core/config_loader.js:156 | every element is converted with the type, or the error is that of an element whose conversion throws while every element before it converts |
| Environment.NumberRoundTrip | core/config_loader.js:109-116 | the text of an integer converts back to that integer |
| Environment.BoolRoundTrip | core/config_loader.js:104-107 | "true" and "false" convert back to their booleans |
| Environment.BoolIgnoresCase | core/config_loader.js:106 | boolean conversion depends only on the lower-cased text |
| Environment.ResolveEnvironmentVariable | core/config_loader.js:144-162 | a value is produced only for a non-empty name field naming a set, non-empty variable; with the "array" flag it is the element-wise conversion of the comma-separated parts, otherwise the conversion of the whole text; conversely a non-empty name field naming a set, non-empty variable always produces a value or throws, and what it throws is the error of that conversion |
| Environment.UnsetVariable | core/config_loader.js:146-153 | a missing or empty name field, or a variable that is unset or empty, resolves to `undefined` |
| Environment.OnlyDatesThrow | core/config_loader.js:144-162 | resolving a variable throws only when the type field is a date type |
| Environment.NumberVariable | core/config_loader.js:144-162 | `@environment:NAME:number` with NAME holding the text of an integer resolves to that integer |
| Environment.NumberArrayVariable | core/config_loader.js:155-156 | `@environment:NAME:number:array` with NAME holding comma-separated integers resolves to the array of them |
| Environment.SecondFieldIsTheVariable | core/config_loader.js:145 | in `@environment:PREFIX:PORT:number` the variable read is PREFIX and PORT is its type |
| Environment.ResolveEnvironmentVariableWf | core/config_loader.js:144-162 | with a parser yielding well-formed values, a resolved variable is well-formed |
| Placeholders.Replacement | core/config_loader.js:226-238 | text without '@', or with neither marker, is left alone; a reference is written exactly when `_.get` finds a truthy value at the dotted path, and then that value is written; an environment spec gives what the variable resolves to; only environment specs throw |
| Placeholders.ResolveAtSpecs | core/config_loader.js:220-243 | the walk's tree and fault are the fold of the iteratee over the string values in pre-order |
| Placeholders.StopsAtFault | core/config_loader.js:222-242 | once the iteratee has thrown, later values change nothing |
| Placeholders.PlainTextUntouched | core/config_loader.js:226 | string values not starting with '@' leave the tree as it is |
| Placeholders.StepEffect | core/config_loader.js:226-238 | one step sets its own location to what it wrote and leaves every location apart from it alone |
| Placeholders.ResolvedLeaves | core/config_loader.js:222-242 | after n steps each resolved value holds what its step wrote, later values are untouched and every other location is unchanged |
| Placeholders.ResolveAtSpecsSpec | core/config_loader.js:220-243 | on a completed walk every string value holds what its own step wrote, against the tree as resolved so far, and nothing else changes |
| Placeholders.ReferenceExample | core/config_loader.js:227-232 | `{a: v, b: "@reference:a"}` resolves to `{a: v, b: v}` |
| Placeholders.ResolveLeavesWf | core/config_loader.js:220-243 | the walk keeps a well-formed tree well-formed |
| Includes.IncludePaths | core/config_loader.js:203 | every entry is joined to the configuration's directory, in order, or the join throws `TypeError` on an entry that is not a string |
| Includes.LoadIncludes | core/config_loader.js:204-213 | the tree and fault are the fold of `_.defaultsDeep` over the include paths, stopping at the first failed load |
| Includes.FoldStops | core/config_loader.js:204-208 | after a failed load no later include is loaded |
| Includes.FoldFault | core/config_loader.js:204-216 | the includes fail exactly when some path cannot be loaded, and then with the first such path |
| Includes.FoldExtends | core/config_loader.js:210 | includes never overwrite what the configuration holds |
| Includes.LaterIncludesOnlyFill | core/config_loader.js:204-212 | whatever the tree holds after n includes it still holds after any later include |
| Includes.FoldWf | core/config_loader.js:210 | well-formed includes keep the configuration well-formed |
| Includes.IncludeExample | core/config_loader.js:210 | `{x: 1}` filled from `{x: 2, y: 3}` is `{x: 1, y: 3}` |
| Strings.ParseInt | core/config_loader.js:111 | after leading white space and one optional sign, digits without a "0x"/"0X" prefix yield the sign times the value of the leading decimal digits ("+5" is 5, "-05" is -5); a "0x"/"0X" prefix yields NaN (`None`) without hexadecimal digits after it and otherwise the sign times their value ("-0x1A" is -26); text with no digit after the optional sign is NaN; a result needs non-blank text, and a leading '-' never gives a positive result |
| Strings.ParseIntOfIntToString | core/config_loader.js:111 | `parseInt` reads back the text of any integer followed by nothing, or by a character that is neither a digit nor 'x'/'X' |
| Strings.SplitJoin | core/config_loader.js:145 | splitting joined fields that hold no separator gives back the fields |
| Json.GetDotted | core/config_loader.js:229 | a reference without a dot, or one that is itself a property of the tree, reads that single child |
| Json.GetDottedPath | core/config_loader.js:229 | a reference `k1.k2.…` of dot-free keys that is not itself a property of the tree reads `k1`, then `k2` inside it, and so on |
| Json.SetAt | core/config_loader.js:231-236 | a write at a missing location changes nothing; a write below an object or array keeps its property names and their order, or its length |
| Json.GetAtSetAt | core/config_loader.js:231 | after `_.set` at an existing location, `_.get` there gives the value written |
| Json.GetAtSetAtApart | core/config_loader.js:236 | `_.set` at one location leaves every location apart from it unchanged |
| Json.StringLeavesLocated | core/config_loader.js:222-224 | every string value the walk visits is the value at its location in the tree |
| Json.StringLeavesApart | core/config_loader.js:222-224 | the walk visits pairwise separate locations |

## Left out

- The configuration cache, file reading and parsing (`_loadConfigFile`, `ConfigCache`): a file is given as its parsed tree, or is absent when it cannot be loaded. `hotReload` is stored but never read by the model, because the loader only hands it to the cache.
- File watching: a change notification is the `ConfigFileChanged` call with the file's root and name.
- Asynchrony: `async.waterfall` and `async.eachSeries` run to completion in order. Interleaved reloads are not modelled.
- `Events.emit(ConfigChanged)` is a counter, `changeEvents`.
- The `console` call is only modelled as the `TypeError` it throws.
- `JSON.parse` is a parameter (`parseJson`), and the process environment is a map.
- `moment` is only modelled as the unbound name it is.
- Numbers are integers: floating-point values in files and `JSON.parse` results are not modelled. `parseInt` returns a double, so digit strings above 2^53 round and very long ones give `Infinity`; `Strings.ParseInt`, `NumberRoundTrip` and `ParseIntOfIntToString` are exact over all integers.
- `paths.join` and `paths.dirname` do not normalise `.`, `..` or repeated separators, and Windows separators are not modelled. `Includes.Dirname` keeps a trailing separator's directory ("a/b/" gives "a/b", Node gives "a"); a base configuration path names a file and never ends in a separator.
- `baseConfigPath` before `init` is `undefined` in the code and `""` in the model. It is never read before `init`.
- Merge.MergeDefault: lodash's merge behaviour is a model with these gaps:
  - lodash merge writes the merged elements into the existing array object itself, so that object changes wherever it is referenced; the model builds a new array value, and captures this only for the defaults object as a whole (`InPlace`);
  - a loaded object over a default array starts from a fresh `{}` in the model, while lodash keeps the array and adds the object's keys to it;
  - typed arrays, `undefined` source values that are skipped, and class instances are not modelled.
- Merge.MergeConfig: a loaded file whose top level is an array or a string merges as `{}` in the model. lodash's merge reads such a value's indices as keys, so `_.merge(defaults, [1, 2])` adds the keys "0" and "1" to the defaults. The model's promise holds for object, number, boolean and null file content.
- Merge.DefaultsDeep: an include whose top level is an array or a string contributes no keys in the model, while lodash's `defaultsDeep` fills the configuration with its indices as keys (`_.defaultsDeep(config, ["x"])` fills "0"). A configuration that is itself an array or a string is likewise taken as `{}`.
- Merge.FillValue: lodash's `defaultsDeep` merges an object into an array (and an array into an object). The model keeps the configuration's value when the kinds differ.
- Loader.ChosenDefaults: an array as `defaultConfig` is an object to `_.isObject` and would be merged into. The model treats it as `{}`.
- Loader.ChosenDefaults: a defaults function that returns the same object every time would alias it across reloads. The model takes each result as a fresh value.
- Placeholders.ResolveAtSpecs: deepdash's `reduceDeep` is assumed to have these properties:
  - it visits the string values of the tree as it was when the walk started, in pre-order;
  - writes are `_.set` at the visited value's own location.

  Aliasing between a reference target and its copy (later edits through one showing in the other) is not modelled.
- Json.Child: `_.get` also reads properties that are not keys of the parsed tree: `length` of arrays and strings, character indices of strings, and inherited members such as `constructor` or `toString`. `Child` has none of these, so `"@reference:list.length"` or `"@reference:constructor"` is left unchanged in the model, while the loader writes the length or the `Object` function.
- Json.RefPath: `_.get` paths with brackets, and keys containing dots that are not top-level properties, are read only by splitting at dots.
- Json: JavaScript lists integer-like keys first and other keys in insertion order. The model keeps insertion order for every key.
- MergePath.MergePaths: the stack loop is proved to hand each call the location of its value over `Trace`, lodash's order of calls, where the choice to descend into a value is a free parameter. `Merge` passes the customizer the location of each key directly. No lemma ties the calls `Trace` lists to the calls `Merge` makes.
- Loader.ConfigLoader.constructor: the default arguments (`hotReload = true`, `defaultConfig = {}`, `defaultsCustomizer = null`) are not modelled. Every option is passed explicitly, and a missing customizer is `None`.
