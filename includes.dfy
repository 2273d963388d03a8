/**
 * The includes stage of `_resolveIncludes` (core/config_loader.js:196-218):
 * every entry of the configuration's `includes` array is joined to the
 * directory of the base file, loaded in declared order, and folded into
 * the configuration with `_.defaultsDeep`; the first include that fails
 * to load ends the stage.
 */
module Includes {
  import opened Wrappers
  import opened Json
  import opened Faults
  import opened Merge

  /** `paths.join(dir, name)`, without the normalisation of `.`, `..` and repeated separators. */
  function JoinPath(dir: string, name: string): string
  {
    if dir == "" then (if name == "" then "." else name)
    else if name == "" then dir
    else dir + "/" + name
  }

  /**
   * `paths.dirname(p)`: everything before the last separator. A base
   * configuration path names a file, so it never ends in a separator.
   */
  function Dirname(p: string): string
    decreases |p|
  {
    if p == [] then "."
    else if p[|p| - 1] == '/' then (if |p| == 1 then "/" else p[..|p| - 1])
    else Dirname(p[..|p| - 1])
  }

  /** The message of the `TypeError` that `paths.join` throws for an entry that is not a string. */
  const NotAString: string := "The \"path\" argument must be of type string"

  /**
   * `config.includes.map(inc => paths.join(configRoot, inc))`: the joined
   * paths, or the `TypeError` of the first entry that is not a string.
   */
  function IncludePaths(root: string, entries: seq<Json>): (r: Result<seq<string>, Fault>)
    ensures r.Ok? <==> forall i :: 0 <= i < |entries| ==> entries[i].Str?
    ensures r.Ok? ==> |r.value| == |entries| && forall i :: 0 <= i < |entries| ==> r.value[i] == JoinPath(root, entries[i].s)
    ensures r.Err? ==> r.error == TypeError(NotAString)
  {
    if entries == [] then Ok([])
    else if !entries[0].Str? then Err(TypeError(NotAString))
    else
      match IncludePaths(root, entries[1..])
      case Err(e) => Err(e)
      case Ok(rest) => Ok([JoinPath(root, entries[0].s)] + rest)
  }

  /** What the configuration cache yields for a path: its parsed content; a path it cannot load is absent. */
  type Files = map<string, Json>

  /**
   * `async.eachSeries` over the include paths: each loaded file fills what
   * the configuration still lacks; the first path that fails to load stops
   * the series with that failure.
   */
  function FoldIncludes(config: Json, paths: seq<string>, files: Files): Progress
    decreases |paths|
  {
    if paths == [] then Progress(config, None)
    else
      var p := FoldIncludes(config, paths[..|paths| - 1], files);
      var path := paths[|paths| - 1];
      if p.fault.Some? then p
      else if path in files then Progress(DefaultsDeep(p.tree, files[path]), None)
      else Progress(p.tree, Some(LoadFault(path)))
  }

  /** The loop of `async.eachSeries`, applying `_.defaultsDeep` in place one include at a time. */
  method LoadIncludes(config: Json, paths: seq<string>, files: Files) returns (tree: Json, fault: Option<Fault>)
    ensures Progress(tree, fault) == FoldIncludes(config, paths, files)
  {
    tree := config;
    fault := None;
    var i := 0;
    while i < |paths|
      invariant 0 <= i <= |paths|
      invariant fault.None? ==> Progress(tree, fault) == FoldIncludes(config, paths[..i], files)
      invariant fault.Some? ==> Progress(tree, fault) == FoldIncludes(config, paths, files)
    {
      assert paths[..i + 1][..i] == paths[..i];
      if paths[i] !in files {
        fault := Some(LoadFault(paths[i]));
        FoldStops(config, paths, i + 1, files);
        break;
      }
      tree := DefaultsDeep(tree, files[paths[i]]);
      i := i + 1;
    }
    if fault.None? {
      assert paths[..i] == paths;
    }
  }

  /** Once a load has failed, the later paths are never loaded. */
  lemma {:induction false} FoldStops(config: Json, paths: seq<string>, n: nat, files: Files)
    requires n <= |paths|
    requires FoldIncludes(config, paths[..n], files).fault.Some?
    ensures FoldIncludes(config, paths, files) == FoldIncludes(config, paths[..n], files)
    decreases |paths| - n
  {
    if n < |paths| {
      assert paths[..n + 1][..n] == paths[..n];
      FoldStops(config, paths, n + 1, files);
    } else {
      assert paths[..n] == paths;
    }
  }

  // ---------------------------------------------------------------- properties

  /**
   * The stage fails exactly when some include cannot be loaded, and then
   * with the first such include, every include before it having loaded.
   */
  lemma {:induction false} FoldFault(config: Json, paths: seq<string>, files: Files)
    ensures var p := FoldIncludes(config, paths, files);
      (p.fault.None? <==> forall j :: 0 <= j < |paths| ==> paths[j] in files)
      && (p.fault.Some? ==>
            exists j :: 0 <= j < |paths| && paths[j] !in files && p.fault == Some(LoadFault(paths[j]))
              && forall i :: 0 <= i < j ==> paths[i] in files)
    decreases |paths|
  {
    if paths != [] {
      var init := paths[..|paths| - 1];
      FoldFault(config, init, files);
      assert forall j :: 0 <= j < |init| ==> init[j] == paths[j];
    }
  }

  /** An included file never overwrites what the configuration already holds. */
  lemma {:induction false} FoldExtends(config: Json, paths: seq<string>, files: Files)
    requires config.Obj?
    ensures FoldIncludes(config, paths, files).tree.Obj?
    ensures Extends(FoldIncludes(config, paths, files).tree, config)
    decreases |paths|
  {
    if paths == [] {
      ExtendsRefl(config);
    } else {
      var init := paths[..|paths| - 1];
      var p := FoldIncludes(config, init, files);
      FoldExtends(config, init, files);
      var path := paths[|paths| - 1];
      if p.fault.None? && path in files {
        FillExtends(p.tree, AsObject(files[path]));
        ExtendsTrans(config, p.tree, DefaultsDeep(p.tree, files[path]));
      }
    }
  }

  /**
   * A later include never overwrites an earlier one: whatever the tree held
   * after the first `n` includes it still holds after the first `m`.
   */
  lemma {:induction false} LaterIncludesOnlyFill(config: Json, paths: seq<string>, files: Files, n: nat, m: nat)
    requires config.Obj?
    requires n <= m <= |paths|
    ensures Extends(FoldIncludes(config, paths[..m], files).tree, FoldIncludes(config, paths[..n], files).tree)
    decreases m - n
  {
    if n == m {
      ExtendsRefl(FoldIncludes(config, paths[..n], files).tree);
    } else {
      LaterIncludesOnlyFill(config, paths, files, n, m - 1);
      assert paths[..m][..m - 1] == paths[..m - 1];
      assert paths[..m][m - 1] == paths[m - 1];
      var before := FoldIncludes(config, paths[..m - 1], files);
      FoldExtends(config, paths[..m - 1], files);
      if before.fault.None? && paths[m - 1] in files {
        FillExtends(before.tree, AsObject(files[paths[m - 1]]));
        ExtendsTrans(FoldIncludes(config, paths[..n], files).tree, before.tree, FoldIncludes(config, paths[..m], files).tree);
      }
    }
  }

  /** Folding well-formed files into a well-formed configuration keeps it well-formed. */
  lemma {:induction false} FoldWf(config: Json, paths: seq<string>, files: Files)
    requires config.Obj? && Wf(config)
    requires forall p :: p in files ==> Wf(files[p])
    ensures Wf(FoldIncludes(config, paths, files).tree)
    decreases |paths|
  {
    if paths != [] {
      var init := paths[..|paths| - 1];
      var p := FoldIncludes(config, init, files);
      FoldWf(config, init, files);
      FoldExtends(config, init, files);
      var path := paths[|paths| - 1];
      if p.fault.None? && path in files {
        FillWf(p.tree, AsObject(files[path]));
      }
    }
  }

  /** `{x: 1}` filled from an include `{x: 2, y: 3}` is `{x: 1, y: 3}`. */
  lemma IncludeExample()
    ensures DefaultsDeep(Obj(["x"], map["x" := Num(1)]), Obj(["x", "y"], map["x" := Num(2), "y" := Num(3)]))
         == Obj(["x", "y"], map["x" := Num(1), "y" := Num(3)])
  {
    var d := Obj(["x"], map["x" := Num(1)]);
    var s := Obj(["x", "y"], map["x" := Num(2), "y" := Num(3)]);
    assert NewKeys(["y"], d.fields) == ["y"];
    assert NewKeys(["x", "y"], d.fields) == ["y"];
    assert FillValue(Num(1), Num(2)) == Num(1);
    assert FillObject(d, s).fields == map["x" := Num(1), "y" := Num(3)];
  }
}
