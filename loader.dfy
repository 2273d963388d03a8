/**
 * The `ConfigLoader` class (core/config_loader.js:8-243): its state, the
 * four-stage reload pipeline (load the base file, merge it over the
 * defaults, resolve includes, resolve `@` placeholders), and the reaction
 * to a changed file.
 *
 * The stages work on one tree in place. When `defaultConfig` is an object,
 * `_.mergeWith(defaultConfig, config)` writes into that object, so the tree
 * every later stage edits is the defaults object itself, and after a
 * successful reload the published configuration is that same object.
 * `sharesDefaults` records that aliasing; `InPlaceWrite` applies an edit of
 * the tree to every name it is reachable under.
 */
module Loader {
  import opened Wrappers
  import opened Json
  import opened Faults
  import opened Merge
  import opened Includes
  import opened Placeholders
  import opened Environment

  /** `defaultConfig` as the constructor received it: a function producing the defaults, or a value. */
  datatype Defaults = Producer(make: () -> Json) | Given(value: Json)

  /**
   * Everything outside the loader: what the configuration cache yields for
   * each path (absent: the load fails), the process environment, and
   * `JSON.parse` (`None` where it throws).
   */
  datatype World = World(files: Files, env: map<string, string>, parseJson: string -> Option<Json>)

  /** How a call ended: `cb(null)`, `cb(err)`, an exception thrown, or (file changes only) nothing to do. */
  datatype Outcome = Succeeded | Failed(fault: Fault) | Threw(thrown: Fault) | Ignored

  /** The loader's fields; `changeEvents` counts the `ConfigChanged` events emitted. */
  datatype LoaderState = LoaderState(
    current: Json,
    defaultConfig: Defaults,
    baseConfigPath: string,
    configPaths: Option<seq<string>>,
    sharesDefaults: bool,
    changeEvents: nat)

  /** A stage's result: the loader's state, the tree, and how the pipeline stopped if it did. */
  datatype Staged = Staged(state: LoaderState, tree: Json, stop: Option<Outcome>)

  /** A reload's result. */
  datatype Reloaded = Reloaded(state: LoaderState, outcome: Outcome)

  /** `_.isFunction(this.defaultsCustomizer)` is modelled by `Some`. */
  type MaybeCustomizer = Option<Customizer>

  /** `_reload` merges into the `defaultConfig` object itself. */
  predicate InPlace(d: Defaults)
  {
    d.Given? && d.value.Obj?
  }

  /**
   * The defaults a reload merges into: the function's result, the object
   * itself, or a fresh `{}` for any other value.
   */
  function ChosenDefaults(d: Defaults): (r: Json)
    ensures d.Producer? ==> r == d.make()
    ensures InPlace(d) ==> r == d.value
    ensures d.Given? && !d.value.Obj? ==> r == Empty
  {
    match d
    case Producer(make) => make()
    case Given(v) => AsObject(v)
  }

  /** The loaded file becomes the value `cb(err, config)` hands on. */
  function LoadConfigFile(w: World, path: string): Result<Json, Fault>
  {
    if path in w.files then Ok(w.files[path]) else Err(LoadFault(path))
  }

  /**
   * An in-place edit of the pipeline's tree: when the tree is the defaults
   * object, the defaults now hold `tree`, and so does the published
   * configuration when it is that object too.
   */
  function InPlaceWrite(s: LoaderState, inPlace: bool, tree: Json): LoaderState
  {
    if !inPlace then s
    else s.(defaultConfig := Given(tree), current := if s.sharesDefaults then tree else s.current)
  }

  /** Stage 2: `_.mergeWith(defaultConfig, config, customizer)`, or `_.merge` without a customizer. */
  function MergeStage(s: LoaderState, cust: MaybeCustomizer, config: Json): Staged
  {
    var merged := MergeConfig(ChosenDefaults(s.defaultConfig), config, cust);
    Staged(InPlaceWrite(s, InPlace(s.defaultConfig), merged), merged, None)
  }

  /**
   * Stage 3, `_resolveIncludes(configRoot, config)`: without an `includes`
   * array nothing happens (and `configPaths` keeps whatever it held); a
   * non-string entry throws before anything is loaded; otherwise the
   * includes are folded in and `configPaths` becomes the base path and
   * every include path, whether or not every include loaded.
   */
  function IncludesStage(s: LoaderState, inPlace: bool, root: string, config: Json, files: Files): Staged
  {
    var inc := Field(config, "includes");
    if !(inc.Some? && inc.value.Arr?) then Staged(s, config, None)
    else
      match IncludePaths(root, inc.value.items)
      case Err(e) => Staged(s, config, Some(Threw(e)))
      case Ok(paths) =>
        var p := FoldIncludes(config, paths, files);
        var s' := InPlaceWrite(s, inPlace, p.tree).(configPaths := Some([s.baseConfigPath] + paths));
        Staged(s', p.tree, if p.fault.Some? then Some(Failed(p.fault.value)) else None)
  }

  /** Stage 4, `_resolveAtSpecs(config)`; a throw escapes the pipeline. */
  function AtSpecsStage(s: LoaderState, inPlace: bool, config: Json, w: World): Staged
  {
    var p := ResolveLeaves(config, StringLeaves(config, []), w.env, w.parseJson);
    Staged(InPlaceWrite(s, inPlace, p.tree), p.tree, if p.fault.Some? then Some(Threw(p.fault.value)) else None)
  }

  /**
   * `_reload(baseConfigPath)`: the stages in order, each ending the
   * pipeline on a failure; the final callback publishes the tree only
   * when every stage succeeded.
   */
  function ReloadSpec(s: LoaderState, base: string, cust: MaybeCustomizer, w: World): (r: Reloaded)
    ensures r.outcome != Ignored
    ensures r.state.baseConfigPath == s.baseConfigPath && r.state.changeEvents == s.changeEvents
    ensures s.defaultConfig.Producer? ==> r.state.defaultConfig == s.defaultConfig
    ensures !s.sharesDefaults && r.outcome != Succeeded ==> r.state.current == s.current && !r.state.sharesDefaults
    ensures r.outcome == Succeeded ==> r.state.sharesDefaults == InPlace(s.defaultConfig)
  {
    match LoadConfigFile(w, base)
    case Err(e) => Reloaded(s, Failed(e))
    case Ok(config) =>
      var inPlace := InPlace(s.defaultConfig);
      var m := MergeStage(s, cust, config);
      var i := IncludesStage(m.state, inPlace, Dirname(base), m.tree, w.files);
      if i.stop.Some? then Reloaded(i.state, i.stop.value)
      else
        var a := AtSpecsStage(i.state, inPlace, i.tree, w);
        if a.stop.Some? then Reloaded(a.state, a.stop.value)
        else Reloaded(a.state.(current := a.tree, sharesDefaults := inPlace), Succeeded)
  }

  /** The message of the `TypeError` raised by calling `console.stdout`, which is not a function. */
  const NoConsoleStdout: string := "console.stdout is not a function"
  /** The message of the `TypeError` raised by reading `includes` of an unset `configPaths`. */
  const NoConfigPaths: string := "Cannot read properties of undefined (reading 'includes')"

  /**
   * `_configFileChanged({fileName, fileRoot, configCache})`: the changed
   * file is re-read; a re-read that fails throws (the error is reported
   * through `console.stdout`, which does not exist); a file the
   * configuration is built from triggers a reload, and a successful
   * reload emits `ConfigChanged`.
   */
  function FileChangedSpec(s: LoaderState, fileRoot: string, fileName: string, cust: MaybeCustomizer, w: World): (r: Reloaded)
    ensures JoinPath(fileRoot, fileName) !in w.files ==> r == Reloaded(s, Threw(TypeError(NoConsoleStdout)))
    ensures s.configPaths.Some? && JoinPath(fileRoot, fileName) !in s.configPaths.value ==> r.state == s
    ensures r.outcome == Ignored ==> r.state == s
    ensures r.state.changeEvents == s.changeEvents + (if r.outcome == Succeeded then 1 else 0)
    ensures JoinPath(fileRoot, fileName) in w.files && s.configPaths.None? ==>
      r == Reloaded(s, Threw(TypeError(NoConfigPaths)))
    ensures JoinPath(fileRoot, fileName) in w.files && s.configPaths.Some? && JoinPath(fileRoot, fileName) in s.configPaths.value ==>
      var reload := ReloadSpec(s, s.baseConfigPath, cust, w);
      r.outcome == reload.outcome
      && r.state == reload.state.(changeEvents := reload.state.changeEvents + (if reload.outcome == Succeeded then 1 else 0))
  {
    var path := JoinPath(fileRoot, fileName);
    if path !in w.files then Reloaded(s, Threw(TypeError(NoConsoleStdout)))
    else if s.configPaths.None? then Reloaded(s, Threw(TypeError(NoConfigPaths)))
    else if path !in s.configPaths.value then Reloaded(s, Ignored)
    else
      var r := ReloadSpec(s, s.baseConfigPath, cust, w);
      if r.outcome == Succeeded then Reloaded(r.state.(changeEvents := r.state.changeEvents + 1), Succeeded)
      else r
  }

  // ---------------------------------------------------------------- the class

  class ConfigLoader {
    var current: Json
    const hotReload: bool
    var defaultConfig: Defaults
    const defaultsCustomizer: MaybeCustomizer
    /** Unset (`undefined`) until `init`; modelled as "" and never read before `init`. */
    var baseConfigPath: string
    var configPaths: Option<seq<string>>
    var sharesDefaults: bool
    var changeEvents: nat

    function State(): LoaderState
      reads this
    {
      LoaderState(current, defaultConfig, baseConfigPath, configPaths, sharesDefaults, changeEvents)
    }

    /** The published configuration is the defaults object exactly when `sharesDefaults` says so. */
    ghost predicate Valid()
      reads this
    {
      StateValid(State())
    }

    constructor(hotReload: bool, defaultConfig: Defaults, defaultsCustomizer: MaybeCustomizer)
      ensures State() == LoaderState(Empty, defaultConfig, "", None, false, 0)
      ensures this.hotReload == hotReload && this.defaultsCustomizer == defaultsCustomizer
      ensures Valid()
    {
      current := Empty;
      this.hotReload := hotReload;
      this.defaultConfig := defaultConfig;
      this.defaultsCustomizer := defaultsCustomizer;
      baseConfigPath := "";
      configPaths := None;
      sharesDefaults := false;
      changeEvents := 0;
    }

    /**
     * `get()`: the last published configuration, which is the defaults
     * object itself while the two are shared.
     */
    function Get(): (r: Json)
      reads this
      ensures r == State().current
      ensures Valid() && sharesDefaults ==> defaultConfig.Given? && r == defaultConfig.value
    {
      current
    }

    /** `init(baseConfigPath)`: remember the path, then reload from it. */
    method Init(path: string, w: World) returns (outcome: Outcome)
      requires Valid()
      modifies this
      ensures Valid()
      ensures var r := ReloadSpec(old(State()).(baseConfigPath := path), path, defaultsCustomizer, w);
        State() == r.state && outcome == r.outcome
    {
      baseConfigPath := path;
      outcome := Reload(path, w);
    }

    /** An edit of the pipeline's tree, seen through every name it is reachable under. */
    method WriteInPlace(tree: Json, inPlace: bool)
      modifies this
      ensures State() == InPlaceWrite(old(State()), inPlace, tree)
    {
      if inPlace {
        defaultConfig := Given(tree);
        if sharesDefaults {
          current := tree;
        }
      }
    }

    /** `_resolveIncludes(configRoot, config, cb)`. */
    method ResolveIncludes(configRoot: string, config: Json, files: Files, inPlace: bool) returns (tree: Json, stop: Option<Outcome>)
      modifies this
      ensures Staged(State(), tree, stop) == IncludesStage(old(State()), inPlace, configRoot, config, files)
    {
      tree := config;
      stop := None;
      var inc := Field(config, "includes");
      if !(inc.Some? && inc.value.Arr?) {
        return;
      }
      var paths := IncludePaths(configRoot, inc.value.items);
      if paths.Err? {
        stop := Some(Threw(paths.error));
        return;
      }
      var fault;
      tree, fault := LoadIncludes(config, paths.value, files);
      WriteInPlace(tree, inPlace);
      configPaths := Some([baseConfigPath] + paths.value);
      if fault.Some? {
        stop := Some(Failed(fault.value));
      }
    }

    /** `_reload(baseConfigPath, cb)`. */
    method Reload(base: string, w: World) returns (outcome: Outcome)
      requires Valid()
      modifies this
      ensures Valid()
      ensures var r := ReloadSpec(old(State()), base, defaultsCustomizer, w);
        State() == r.state && outcome == r.outcome
    {
      ReloadKeepsValid(State(), base, defaultsCustomizer, w);
      var loaded := LoadConfigFile(w, base);
      if loaded.Err? {
        return Failed(loaded.error);
      }
      var inPlace := InPlace(defaultConfig);
      var config := MergeConfig(ChosenDefaults(defaultConfig), loaded.value, defaultsCustomizer);
      WriteInPlace(config, inPlace);
      var stop;
      config, stop := ResolveIncludes(Dirname(base), config, w.files, inPlace);
      if stop.Some? {
        return stop.value;
      }
      var fault;
      config, fault := ResolveAtSpecs(config, w.env, w.parseJson);
      WriteInPlace(config, inPlace);
      if fault.Some? {
        return Threw(fault.value);
      }
      current := config;
      sharesDefaults := inPlace;
      outcome := Succeeded;
    }

    /** `_configFileChanged({fileName, fileRoot, configCache})`. */
    method ConfigFileChanged(fileRoot: string, fileName: string, w: World) returns (outcome: Outcome)
      requires Valid()
      modifies this
      ensures Valid()
      ensures var r := FileChangedSpec(old(State()), fileRoot, fileName, defaultsCustomizer, w);
        State() == r.state && outcome == r.outcome
    {
      var path := JoinPath(fileRoot, fileName);
      if LoadConfigFile(w, path).Err? {
        return Threw(TypeError(NoConsoleStdout));
      }
      if configPaths.None? {
        return Threw(TypeError(NoConfigPaths));
      }
      if path !in configPaths.value {
        return Ignored;
      }
      outcome := Reload(baseConfigPath, w);
      if outcome == Succeeded {
        changeEvents := changeEvents + 1;
      }
    }
  }

  // ---------------------------------------------------------------- properties

  ghost predicate StateValid(s: LoaderState)
  {
    s.sharesDefaults ==> InPlace(s.defaultConfig) && s.current == s.defaultConfig.value
  }

  /** A base file that cannot be loaded ends the reload at once: nothing changes. */
  lemma RootLoadFailureChangesNothing(s: LoaderState, base: string, cust: MaybeCustomizer, w: World)
    requires base !in w.files
    ensures ReloadSpec(s, base, cust, w) == Reloaded(s, Failed(LoadFault(base)))
  {
  }

  /**
   * Until a reload succeeds, nothing is published: from a state whose
   * published configuration is not the defaults object (the constructor's
   * `{}`), a reload that fails or throws keeps the published configuration
   * and keeps it apart from the defaults.
   */
  lemma UnsharedFailureKeepsUnshared(s: LoaderState, base: string, cust: MaybeCustomizer, w: World)
    requires !s.sharesDefaults
    requires ReloadSpec(s, base, cust, w).outcome != Succeeded
    ensures ReloadSpec(s, base, cust, w).state.current == s.current
    ensures !ReloadSpec(s, base, cust, w).state.sharesDefaults
  {
  }

  /** The state after a series of reloads, each from its base path against its own world. */
  function AfterReloads(s: LoaderState, runs: seq<(string, World)>, cust: MaybeCustomizer): LoaderState
    decreases |runs|
  {
    if runs == [] then s else AfterReloads(ReloadSpec(s, runs[0].0, cust, runs[0].1).state, runs[1..], cust)
  }

  /** No reload of the series succeeds. */
  ghost predicate NoneSucceed(s: LoaderState, runs: seq<(string, World)>, cust: MaybeCustomizer)
    decreases |runs|
  {
    runs == []
    || (ReloadSpec(s, runs[0].0, cust, runs[0].1).outcome != Succeeded
        && NoneSucceed(ReloadSpec(s, runs[0].0, cust, runs[0].1).state, runs[1..], cust))
  }

  /**
   * `get()` returns the constructor's `{}` until some reload succeeds,
   * however many reloads fail or throw before it.
   */
  lemma {:induction false} NothingPublishedBeforeSuccess(d: Defaults, runs: seq<(string, World)>, cust: MaybeCustomizer)
    requires NoneSucceed(LoaderState(Empty, d, "", None, false, 0), runs, cust)
    ensures AfterReloads(LoaderState(Empty, d, "", None, false, 0), runs, cust).current == Empty
  {
    FailuresKeepPublished(LoaderState(Empty, d, "", None, false, 0), runs, cust);
  }

  lemma {:induction false} FailuresKeepPublished(s: LoaderState, runs: seq<(string, World)>, cust: MaybeCustomizer)
    requires !s.sharesDefaults && NoneSucceed(s, runs, cust)
    ensures AfterReloads(s, runs, cust).current == s.current && !AfterReloads(s, runs, cust).sharesDefaults
    decreases |runs|
  {
    if runs != [] {
      var next := ReloadSpec(s, runs[0].0, cust, runs[0].1).state;
      UnsharedFailureKeepsUnshared(s, runs[0].0, cust, runs[0].1);
      FailuresKeepPublished(next, runs[1..], cust);
    }
  }

  /**
   * The aliasing bookkeeping holds after every reload: the published
   * configuration is the defaults object exactly when `sharesDefaults`
   * says so, and a successful reload with object defaults publishes the
   * defaults object itself.
   */
  lemma ReloadKeepsValid(s: LoaderState, base: string, cust: MaybeCustomizer, w: World)
    requires StateValid(s)
    ensures StateValid(ReloadSpec(s, base, cust, w).state)
    ensures var r := ReloadSpec(s, base, cust, w);
      r.outcome == Succeeded ==> (r.state.sharesDefaults <==> InPlace(s.defaultConfig))
  {
    if base in w.files {
      var inPlace := InPlace(s.defaultConfig);
      var m := MergeStage(s, cust, w.files[base]);
      WriteKeepsValid(s, inPlace, m.tree);
      var i := IncludesStage(m.state, inPlace, Dirname(base), m.tree, w.files);
      IncludesStageKeepsValid(m.state, inPlace, Dirname(base), m.tree, w.files);
      if i.stop.None? {
        AtSpecsStageKeepsValid(i.state, inPlace, i.tree, w);
      }
    }
  }

  lemma WriteKeepsValid(s: LoaderState, inPlace: bool, tree: Json)
    requires StateValid(s) && inPlace == InPlace(s.defaultConfig) && tree.Obj?
    ensures var s' := InPlaceWrite(s, inPlace, tree);
      StateValid(s') && InPlace(s'.defaultConfig) == inPlace && (inPlace ==> s'.defaultConfig == Given(tree))
  {
  }

  lemma IncludesStageKeepsValid(s: LoaderState, inPlace: bool, root: string, config: Json, files: Files)
    requires StateValid(s) && inPlace == InPlace(s.defaultConfig) && config.Obj?
    ensures var i := IncludesStage(s, inPlace, root, config, files);
      StateValid(i.state) && InPlace(i.state.defaultConfig) == inPlace && i.tree.Obj?
      && (inPlace && i.stop.None? && Field(config, "includes").Some? && Field(config, "includes").value.Arr? ==>
            i.state.defaultConfig == Given(i.tree))
  {
    var inc := Field(config, "includes");
    if inc.Some? && inc.value.Arr? && IncludePaths(root, inc.value.items).Ok? {
      var paths := IncludePaths(root, inc.value.items).value;
      FoldExtends(config, paths, files);
      WriteKeepsValid(s, inPlace, FoldIncludes(config, paths, files).tree);
    }
  }

  lemma AtSpecsStageKeepsValid(s: LoaderState, inPlace: bool, config: Json, w: World)
    requires StateValid(s) && inPlace == InPlace(s.defaultConfig) && config.Obj?
    ensures var a := AtSpecsStage(s, inPlace, config, w);
      StateValid(a.state) && InPlace(a.state.defaultConfig) == inPlace && a.tree.Obj?
      && (inPlace ==> a.state.defaultConfig == Given(a.tree))
  {
    ObjectLeavesBelowRoot(config);
    LeavesKeepKeys(config, StringLeaves(config, []), w);
    WriteKeepsValid(s, inPlace, AtSpecsStage(s, inPlace, config, w).tree);
  }

  /**
   * With object defaults already published, a reload that fails still
   * changes what `get()` returns: the published configuration is the
   * defaults object, left as the failed stage left it.
   */
  lemma SharedFailureIsVisible(s: LoaderState, base: string, cust: MaybeCustomizer, w: World)
    requires StateValid(s) && s.sharesDefaults
    ensures var r := ReloadSpec(s, base, cust, w);
      r.state.sharesDefaults && r.state.defaultConfig.Given? && r.state.current == r.state.defaultConfig.value
  {
  }

  /** `SetAt` below the root of an object keeps its property names. */
  lemma SetAtKeepsKeys(j: Json, at: seq<string>, v: Json)
    requires j.Obj? && at != []
    ensures SetAt(j, at, v).Obj? && SetAt(j, at, v).fields.Keys == j.fields.Keys
  {
  }

  /** Resolving placeholders below the root of an object keeps its property names. */
  lemma {:induction false} LeavesKeepKeys(tree: Json, leaves: seq<Leaf>, w: World)
    requires tree.Obj?
    requires forall k :: 0 <= k < |leaves| ==> leaves[k].at != []
    ensures var t := ResolveLeaves(tree, leaves, w.env, w.parseJson).tree;
      t.Obj? && t.fields.Keys == tree.fields.Keys
    decreases |leaves|
  {
    if leaves != [] {
      var init := leaves[..|leaves| - 1];
      LeavesKeepKeys(tree, init, w);
      var p := ResolveLeaves(tree, init, w.env, w.parseJson);
      var leaf := leaves[|leaves| - 1];
      var r := Replacement(p.tree, leaf.text, w.env, w.parseJson);
      if p.fault.None? && r.Ok? && r.value.Some? {
        SetAtKeepsKeys(p.tree, leaf.at, r.value.value);
      }
    }
  }

  /** The walk of an object visits no string at the root itself. */
  lemma ObjectLeavesBelowRoot(j: Json)
    requires j.Obj?
    ensures forall k :: 0 <= k < |StringLeaves(j, [])| ==> StringLeaves(j, [])[k].at != []
  {
    StringLeavesLocated(j, []);
    forall k | 0 <= k < |StringLeaves(j, [])| ensures StringLeaves(j, [])[k].at != [] {
      var l := StringLeaves(j, [])[k];
      assert l in StringLeaves(j, []);
      assert l.at[0..] == l.at;
    }
  }

  /**
   * With object defaults, property names only accumulate: a key the
   * defaults object holds (for instance from an earlier reload) is still
   * published after a successful reload whose file no longer has it.
   */
  lemma StaleKeysSurvive(s: LoaderState, base: string, cust: MaybeCustomizer, w: World, key: string)
    requires InPlace(s.defaultConfig) && key in s.defaultConfig.value.fields
    requires base in w.files && w.files[base].Obj? && key !in w.files[base].fields
    requires ReloadSpec(s, base, cust, w).outcome == Succeeded
    ensures var c := ReloadSpec(s, base, cust, w).state.current; c.Obj? && key in c.fields
  {
    var d := s.defaultConfig.value;
    var config := w.files[base];
    var m := MergeStage(s, cust, config);
    DefaultOnlyKeysSurvive(d, config, [], cust, key);
    assert m.tree == MergeObject(d, config, [], cust);
    var i := IncludesStage(m.state, true, Dirname(base), m.tree, w.files);
    var inc := Field(m.tree, "includes");
    if inc.Some? && inc.value.Arr? {
      var paths := IncludePaths(Dirname(base), inc.value.items).value;
      FoldExtends(m.tree, paths, w.files);
    }
    assert i.tree.Obj? && key in i.tree.fields;
    ObjectLeavesBelowRoot(i.tree);
    LeavesKeepKeys(i.tree, StringLeaves(i.tree, []), w);
  }

  /** Reloading with a defaults function never depends on what earlier reloads left behind. */
  lemma ProducerReloadIgnoresHistory(s1: LoaderState, s2: LoaderState, base: string, cust: MaybeCustomizer, w: World)
    requires s1.defaultConfig.Producer? && s1.defaultConfig == s2.defaultConfig
    requires s1.baseConfigPath == s2.baseConfigPath
    ensures ReloadSpec(s1, base, cust, w).outcome == ReloadSpec(s2, base, cust, w).outcome
    ensures ReloadSpec(s1, base, cust, w).outcome == Succeeded ==>
      ReloadSpec(s1, base, cust, w).state.current == ReloadSpec(s2, base, cust, w).state.current
  {
  }

  /**
   * `configPaths` after a reload whose base file loads: the base path and
   * every include path when the tree has an `includes` array of strings,
   * even if an include then fails to load; untouched when it has none.
   */
  lemma ConfigPathsAfterReload(s: LoaderState, base: string, cust: MaybeCustomizer, w: World)
    requires base in w.files
    ensures var merged := MergeConfig(ChosenDefaults(s.defaultConfig), w.files[base], cust);
      var inc := Field(merged, "includes");
      var r := ReloadSpec(s, base, cust, w);
      (!(inc.Some? && inc.value.Arr?) ==> r.state.configPaths == s.configPaths)
      && (inc.Some? && inc.value.Arr? && IncludePaths(Dirname(base), inc.value.items).Ok? ==>
            r.state.configPaths == Some([s.baseConfigPath] + IncludePaths(Dirname(base), inc.value.items).value))
  {
  }

  /**
   * A reload whose configuration has an `includes` array fails exactly
   * when some include cannot be loaded, with the first such include.
   */
  lemma IncludeFailureFails(s: LoaderState, base: string, cust: MaybeCustomizer, w: World)
    requires base in w.files
    requires var inc := Field(MergeConfig(ChosenDefaults(s.defaultConfig), w.files[base], cust), "includes");
      inc.Some? && inc.value.Arr? && IncludePaths(Dirname(base), inc.value.items).Ok?
    ensures var inc := Field(MergeConfig(ChosenDefaults(s.defaultConfig), w.files[base], cust), "includes");
      var paths := IncludePaths(Dirname(base), inc.value.items).value;
      var r := ReloadSpec(s, base, cust, w);
      (r.outcome.Failed? <==> exists j :: 0 <= j < |paths| && paths[j] !in w.files)
      && (r.outcome.Failed? ==>
            exists j :: 0 <= j < |paths| && paths[j] !in w.files && r.outcome.fault == LoadFault(paths[j])
              && forall i :: 0 <= i < j ==> paths[i] in w.files)
  {
    var merged := MergeConfig(ChosenDefaults(s.defaultConfig), w.files[base], cust);
    var paths := IncludePaths(Dirname(base), Field(merged, "includes").value.items).value;
    FoldFault(merged, paths, w.files);
  }

  // ---------------------------------------------------------------- file changes

  /** A file change: the root and name of the changed file, and the world it is re-read from. */
  datatype Change = Change(fileRoot: string, fileName: string, world: World)

  /** The state after a series of file changes, each handled by `_configFileChanged`. */
  function AfterChanges(s: LoaderState, changes: seq<Change>, cust: MaybeCustomizer): LoaderState
    decreases |changes|
  {
    if changes == [] then s
    else
      var c := changes[0];
      AfterChanges(FileChangedSpec(s, c.fileRoot, c.fileName, cust, c.world).state, changes[1..], cust)
  }

  /** How many changes of a series end in a successful reload. */
  function Successes(s: LoaderState, changes: seq<Change>, cust: MaybeCustomizer): nat
    decreases |changes|
  {
    if changes == [] then 0
    else
      var c := changes[0];
      var r := FileChangedSpec(s, c.fileRoot, c.fileName, cust, c.world);
      (if r.outcome == Succeeded then 1 else 0) + Successes(r.state, changes[1..], cust)
  }

  /**
   * Over any series of file changes, `ConfigChanged` is emitted once per
   * change whose reload succeeds and never otherwise.
   */
  lemma {:induction false} ChangeEventsCountSuccesses(s: LoaderState, changes: seq<Change>, cust: MaybeCustomizer)
    ensures AfterChanges(s, changes, cust).changeEvents == s.changeEvents + Successes(s, changes, cust)
    decreases |changes|
  {
    if changes != [] {
      var c := changes[0];
      var r := FileChangedSpec(s, c.fileRoot, c.fileName, cust, c.world);
      ChangeEventsCountSuccesses(r.state, changes[1..], cust);
    }
  }

  /** A change to a file the configuration is not built from changes nothing. */
  lemma UnrelatedChangeIgnored(s: LoaderState, fileRoot: string, fileName: string, cust: MaybeCustomizer, w: World)
    requires JoinPath(fileRoot, fileName) in w.files
    requires s.configPaths.Some? && JoinPath(fileRoot, fileName) !in s.configPaths.value
    ensures FileChangedSpec(s, fileRoot, fileName, cust, w) == Reloaded(s, Ignored)
  {
  }

  /**
   * A configuration without includes never records `configPaths`, so
   * after `init` of such a configuration any change of a readable file,
   * the base file included, throws instead of reloading.
   */
  lemma NoIncludesNoHotReload(d: Defaults, base: string, cust: MaybeCustomizer, w: World, w': World, fileRoot: string, fileName: string)
    requires base in w.files
    requires var inc := Field(MergeConfig(ChosenDefaults(d), w.files[base], cust), "includes"); !(inc.Some? && inc.value.Arr?)
    requires JoinPath(fileRoot, fileName) in w'.files
    ensures var s := ReloadSpec(LoaderState(Empty, d, base, None, false, 0), base, cust, w).state;
      FileChangedSpec(s, fileRoot, fileName, cust, w') == Reloaded(s, Threw(TypeError(NoConfigPaths)))
  {
    ConfigPathsAfterReload(LoaderState(Empty, d, base, None, false, 0), base, cust, w);
  }

  // ---------------------------------------------------------------- well-formedness

  /**
   * With well-formed files and defaults, a customizer and a parser that
   * answer with well-formed values, the tree a reload publishes is well-formed:
   * every object lists each of its properties once.
   */
  lemma PublishedWf(s: LoaderState, base: string, cust: MaybeCustomizer, w: World)
    requires forall p :: p in w.files ==> Wf(w.files[p])
    requires Wf(ChosenDefaults(s.defaultConfig)) && CustomizerKeepsWf(cust) && ParserWf(w.parseJson)
    requires ReloadSpec(s, base, cust, w).outcome == Succeeded
    ensures Wf(ReloadSpec(s, base, cust, w).state.current)
  {
    assert base in w.files;
    var m := MergeStage(s, cust, w.files[base]);
    var i := IncludesStage(m.state, InPlace(s.defaultConfig), Dirname(base), m.tree, w.files);
    StagesWf(s, base, cust, w);
    assert ReloadSpec(s, base, cust, w).state.current == AtSpecsStage(i.state, InPlace(s.defaultConfig), i.tree, w).tree;
  }

  /** Each stage of a reload keeps the tree well-formed. */
  lemma StagesWf(s: LoaderState, base: string, cust: MaybeCustomizer, w: World)
    requires forall p :: p in w.files ==> Wf(w.files[p])
    requires Wf(ChosenDefaults(s.defaultConfig)) && CustomizerKeepsWf(cust) && ParserWf(w.parseJson)
    requires base in w.files
    ensures var m := MergeStage(s, cust, w.files[base]);
      var i := IncludesStage(m.state, InPlace(s.defaultConfig), Dirname(base), m.tree, w.files);
      Wf(AtSpecsStage(i.state, InPlace(s.defaultConfig), i.tree, w).tree)
  {
    var inPlace := InPlace(s.defaultConfig);
    var config := w.files[base];
    var m := MergeStage(s, cust, config);
    MergeObjectWf(AsObject(ChosenDefaults(s.defaultConfig)), AsObject(config), [], cust);
    var i := IncludesStage(m.state, inPlace, Dirname(base), m.tree, w.files);
    IncludesStageWf(m.state, inPlace, Dirname(base), m.tree, w.files);
    ResolveLeavesWf(i.tree, StringLeaves(i.tree, []), w.env, w.parseJson);
  }

  lemma IncludesStageWf(s: LoaderState, inPlace: bool, root: string, config: Json, files: Files)
    requires forall p :: p in files ==> Wf(files[p])
    requires config.Obj? && Wf(config)
    ensures Wf(IncludesStage(s, inPlace, root, config, files).tree)
  {
    var inc := Field(config, "includes");
    if inc.Some? && inc.value.Arr? && IncludePaths(root, inc.value.items).Ok? {
      FoldWf(config, IncludePaths(root, inc.value.items).value, files);
    }
  }

  /**
   * A witness of a failed reload that is still published: with the
   * defaults object `{}` already published, a base file `c/b` holding
   * `{"includes": ["m"]}` whose include `c/m` does not exist fails, yet
   * `get()` now returns `{"includes": ["m"]}`.
   */
  lemma FailedReloadWitness()
    ensures var s := LoaderState(Empty, Given(Empty), "c/b", None, true, 0);
      var file := Obj(["includes"], map["includes" := Arr([Str("m")])]);
      var w := World(map["c/b" := file], map[], _ => None);
      var r := ReloadSpec(s, "c/b", None, w);
      r.outcome == Failed(LoadFault("c/m")) && r.state.current == file && r.state.current != s.current
  {
    var file := Obj(["includes"], map["includes" := Arr([Str("m")])]);
    MergeObjectOntoNothing(file, []);
    assert MergeConfig(Empty, file, None) == file;
    assert "c/b"[..2] == "c/" && "c/"[..1] == "c";
    assert Dirname("c/b") == "c";
    assert JoinPath("c", "m") == "c/m";
    assert [Str("m")][1..] == [];
    assert IncludePaths("c", []) == Ok([]);
    assert IncludePaths("c", [Str("m")]) == Ok([JoinPath("c", "m")] + []);
    assert [JoinPath("c", "m")] + [] == ["c/m"];
    assert ["c/m"][..0] == [];
  }

  /** The defaults object of `RerunWitness`: `{a: null, c: "@reference:d", d: 1}`. */
  const RerunDefaults: Json := Obj(["a", "c", "d"], map["a" := Null, "c" := Str("@reference:d"), "d" := Num(1)])
  /** The base file of `RerunWitness`: `{a: "@reference:c"}`. */
  const RerunFile: Json := Obj(["a"], map["a" := Str("@reference:c")])

  /** `{a, c, d}` with the given values, in that order. */
  function Acd(a: Json, c: Json, d: Json): Json
  {
    Obj(["a", "c", "d"], map["a" := a, "c" := c, "d" := d])
  }

  /** Merging `RerunFile` into an `{a, c, d}` object replaces `a` only. */
  lemma MergeRerunFile(a: Json, c: Json, d: Json)
    ensures MergeConfig(Acd(a, c, d), RerunFile, None) == Acd(Str("@reference:c"), c, d)
  {
    var t := Acd(a, c, d);
    assert NewKeys(["a"], t.fields) == [] by {
      assert ["a"][1..] == [];
    }
    assert t.keys + [] == t.keys;
    assert [] + ["a"] == ["a"];
    assert MergeValue(Some(a), Str("@reference:c"), ["a"], None) == Str("@reference:c");
  }

  /** The string values of an `{a, c, d}` object whose `d` is a number. */
  lemma AcdLeaves(a: Json, c: Json, d: Json)
    requires d.Num?
    ensures StringLeaves(Acd(a, c, d), []) == StringLeaves(a, ["a"]) + StringLeaves(c, ["c"])
  {
    var t := Acd(a, c, d);
    assert [] + ["a"] == ["a"] && [] + ["c"] == ["c"] && [] + ["d"] == ["d"];
    assert KeyLeaves(t, [], 3) == [];
    assert KeyLeaves(t, [], 2) == [];
    assert KeyLeaves(t, [], 1) == StringLeaves(c, ["c"]);
  }

  /** One reference step at a top-level key of an `{a, c, d}` object. */
  lemma ReferenceStep(t: Json, at: string, ref: string, v: Json, env: map<string, string>, parseJson: string -> Option<Json>)
    requires t.Obj? && at in t.fields && ref in t.fields && '.' !in ref
    requires t.fields[ref] == v && Truthy(v)
    ensures ResolveLeaf(t, Leaf([at], "@reference:" + ref), env, parseJson)
         == Ok(Obj(t.keys, t.fields[at := v]))
  {
    var text := "@reference:" + ref;
    assert ReferencePrefix <= text;
    assert text[|ReferencePrefix|..] == ref;
    assert GetDotted(t, ref) == Some(v);
    assert Replacement(t, text, env, parseJson) == Ok(Some(v));
    assert [at][1..] == [];
    assert SetAt(t, [at], v) == Obj(t.keys, t.fields[at := v]);
  }

  /** The first reload's walk: `a` copies the still unresolved `c`, then `c` is resolved. */
  lemma FirstWalk(env: map<string, string>, parseJson: string -> Option<Json>)
    ensures var m := Acd(Str("@reference:c"), Str("@reference:d"), Num(1));
      ResolveLeaves(m, StringLeaves(m, []), env, parseJson) == Progress(Acd(Str("@reference:d"), Num(1), Num(1)), None)
  {
    var m := Acd(Str("@reference:c"), Str("@reference:d"), Num(1));
    var la := Leaf(["a"], "@reference:c");
    var lc := Leaf(["c"], "@reference:d");
    AcdLeaves(Str("@reference:c"), Str("@reference:d"), Num(1));
    assert StringLeaves(m, []) == [la, lc];
    assert [la, lc][..1] == [la] && [la][..0] == [];
    ReferenceStep(m, "a", "c", Str("@reference:d"), env, parseJson);
    var x := Acd(Str("@reference:d"), Str("@reference:d"), Num(1));
    assert Obj(m.keys, m.fields["a" := Str("@reference:d")]) == x;
    ReferenceStep(x, "c", "d", Num(1), env, parseJson);
    assert Obj(x.keys, x.fields["c" := Num(1)]) == Acd(Str("@reference:d"), Num(1), Num(1));
  }

  /** The second reload's walk: `a` now copies the resolved `c`. */
  lemma SecondWalk(env: map<string, string>, parseJson: string -> Option<Json>)
    ensures var m := Acd(Str("@reference:c"), Num(1), Num(1));
      ResolveLeaves(m, StringLeaves(m, []), env, parseJson) == Progress(Acd(Num(1), Num(1), Num(1)), None)
  {
    var m := Acd(Str("@reference:c"), Num(1), Num(1));
    var la := Leaf(["a"], "@reference:c");
    AcdLeaves(Str("@reference:c"), Num(1), Num(1));
    assert StringLeaves(m, []) == [la];
    assert [la][..0] == [];
    ReferenceStep(m, "a", "c", Num(1), env, parseJson);
    assert Obj(m.keys, m.fields["a" := Num(1)]) == Acd(Num(1), Num(1), Num(1));
  }

  /** A reload of `RerunFile` over object defaults whose merge has no includes and whose walk does not throw. */
  lemma RerunReload(s: LoaderState, w: World, m: Json, t: Json)
    requires "b" in w.files && w.files["b"] == RerunFile
    requires s.defaultConfig.Given? && s.defaultConfig.value.Obj?
    requires MergeConfig(s.defaultConfig.value, RerunFile, None) == m
    requires m.Obj? && "includes" !in m.fields
    requires ResolveLeaves(m, StringLeaves(m, []), w.env, w.parseJson) == Progress(t, None)
    ensures ReloadSpec(s, "b", None, w)
         == Reloaded(s.(current := t, defaultConfig := Given(t), sharesDefaults := true), Succeeded)
  {
    var ms := MergeStage(s, None, RerunFile);
    assert ms.tree == m;
    var i := IncludesStage(ms.state, true, Dirname("b"), m, w.files);
    assert Field(m, "includes") == None;
    assert i == Staged(ms.state, m, None);
    var at := AtSpecsStage(i.state, true, m, w);
    assert at.tree == t && at.stop == None;
  }

  /**
   * Running the pipeline twice on unchanged inputs need not give the same
   * tree when the defaults are an object: the first run resolves `c` inside
   * the defaults object, so the second run's `@reference:c` reads the
   * resolved value, where the first run read the placeholder.
   */
  lemma RerunWitness()
    ensures var s := LoaderState(Empty, Given(RerunDefaults), "b", None, false, 0);
      var w := World(map["b" := RerunFile], map[], _ => None);
      var r1 := ReloadSpec(s, "b", None, w);
      var r2 := ReloadSpec(r1.state, "b", None, w);
      r1.outcome == Succeeded && r2.outcome == Succeeded
      && r1.state.current == Obj(["a", "c", "d"], map["a" := Str("@reference:d"), "c" := Num(1), "d" := Num(1)])
      && r2.state.current == Obj(["a", "c", "d"], map["a" := Num(1), "c" := Num(1), "d" := Num(1)])
      && r1.state.current != r2.state.current
  {
    var s := LoaderState(Empty, Given(RerunDefaults), "b", None, false, 0);
    var w := World(map["b" := RerunFile], map[], _ => None);
    var m1 := Acd(Str("@reference:c"), Str("@reference:d"), Num(1));
    var t1 := Acd(Str("@reference:d"), Num(1), Num(1));
    assert RerunDefaults == Acd(Null, Str("@reference:d"), Num(1));
    MergeRerunFile(Null, Str("@reference:d"), Num(1));
    FirstWalk(w.env, w.parseJson);
    RerunReload(s, w, m1, t1);
    var s1 := s.(current := t1, defaultConfig := Given(t1), sharesDefaults := true);
    MergeRerunFile(Str("@reference:d"), Num(1), Num(1));
    SecondWalk(w.env, w.parseJson);
    RerunReload(s1, w, Acd(Str("@reference:c"), Num(1), Num(1)), Acd(Num(1), Num(1), Num(1)));
    assert t1.fields["a"] != Num(1);
  }
}
