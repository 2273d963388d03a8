/**
 * `_resolveAtSpecs(config)` (core/config_loader.js:220-243): every string
 * value of the configuration that starts with "@reference:" or
 * "@environment:" is replaced, in place, by what it names.
 *
 * `reduceDeep` is taken to use the configuration itself as its
 * accumulator and to visit the string values of the tree as it was when the
 * walk began, in pre-order (`StringLeaves`); each replacement is an
 * `_.set` at the visited value's own location, and a reference is looked up
 * with `_.get` in the tree as resolved so far.
 */
module Placeholders {
  import opened Wrappers
  import opened Json
  import opened Faults
  import opened Environment

  const ReferencePrefix: string := "@reference:"
  const EnvironmentPrefix: string := "@environment:"

  /**
   * What the iteratee writes for one string value: `None` leaves it alone.
   * A reference is written only when `_.get` finds a truthy value; an
   * environment spec only when it resolves to something other than
   * `undefined`; a conversion that throws ends the walk (`Err`).
   */
  function Replacement(tree: Json, text: string, env: map<string, string>, parseJson: string -> Option<Json>): (r: Result<Option<Json>, Fault>)
    ensures (text == [] || text[0] != '@') ==> r == Ok(None)
    ensures r.Err? ==> EnvironmentPrefix <= text
    ensures ReferencePrefix <= text && r.Ok? && r.value.Some? ==>
      Truthy(r.value.value) && GetDotted(tree, text[|ReferencePrefix|..]) == r.value
    ensures ReferencePrefix <= text && (GetDotted(tree, text[|ReferencePrefix|..]).None? || !Truthy(GetDotted(tree, text[|ReferencePrefix|..]).value)) ==>
      r == Ok(None)
    ensures ReferencePrefix <= text && GetDotted(tree, text[|ReferencePrefix|..]).Some? && Truthy(GetDotted(tree, text[|ReferencePrefix|..]).value) ==>
      r == Ok(GetDotted(tree, text[|ReferencePrefix|..]))
    ensures !(ReferencePrefix <= text) && !(EnvironmentPrefix <= text) ==> r == Ok(None)
    ensures EnvironmentPrefix <= text ==> r == ResolveEnvironmentVariable(text, env, parseJson)
  {
    if text == [] || text[0] != '@' then Ok(None)
    else if ReferencePrefix <= text then
      var found := GetDotted(tree, text[|ReferencePrefix|..]);
      assert text[1] == ReferencePrefix[1] != EnvironmentPrefix[1];
      if found.Some? && Truthy(found.value) then Ok(Some(found.value)) else Ok(None)
    else if EnvironmentPrefix <= text then ResolveEnvironmentVariable(text, env, parseJson)
    else Ok(None)
  }

  /** One call of the iteratee on the string value `leaf`. */
  function ResolveLeaf(tree: Json, leaf: Leaf, env: map<string, string>, parseJson: string -> Option<Json>): Result<Json, Fault>
  {
    match Replacement(tree, leaf.text, env, parseJson)
    case Err(e) => Err(e)
    case Ok(None) => Ok(tree)
    case Ok(Some(v)) => Ok(SetAt(tree, leaf.at, v))
  }

  /** The iteratee over the leaves in order, from `tree`; the first throw stops the walk. */
  function ResolveLeaves(tree: Json, leaves: seq<Leaf>, env: map<string, string>, parseJson: string -> Option<Json>): Progress
    decreases |leaves|
  {
    if leaves == [] then Progress(tree, None)
    else
      var p := ResolveLeaves(tree, leaves[..|leaves| - 1], env, parseJson);
      if p.fault.Some? then p
      else
        match ResolveLeaf(p.tree, leaves[|leaves| - 1], env, parseJson)
        case Err(e) => Progress(p.tree, Some(e))
        case Ok(t) => Progress(t, None)
  }

  /**
   * `_resolveAtSpecs(config)`: the resolved tree, or the tree as far as it
   * got and the fault thrown.
   */
  method ResolveAtSpecs(config: Json, env: map<string, string>, parseJson: string -> Option<Json>) returns (tree: Json, fault: Option<Fault>)
    ensures Progress(tree, fault) == ResolveLeaves(config, StringLeaves(config, []), env, parseJson)
  {
    var leaves := StringLeaves(config, []);
    tree := config;
    fault := None;
    var i := 0;
    while i < |leaves|
      invariant 0 <= i <= |leaves|
      invariant fault.None? ==> Progress(tree, fault) == ResolveLeaves(config, leaves[..i], env, parseJson)
      invariant fault.Some? ==> Progress(tree, fault) == ResolveLeaves(config, leaves, env, parseJson)
    {
      assert leaves[..i + 1][..i] == leaves[..i];
      match ResolveLeaf(tree, leaves[i], env, parseJson)
      case Err(e) =>
        fault := Some(e);
        StopsAtFault(config, leaves, i + 1, env, parseJson);
        break;
      case Ok(t) =>
        tree := t;
        i := i + 1;
    }
    if fault.None? {
      assert leaves[..i] == leaves;
    }
  }

  /** Once a step has thrown, the leaves after it change nothing. */
  lemma {:induction false} StopsAtFault(tree: Json, leaves: seq<Leaf>, n: nat, env: map<string, string>, parseJson: string -> Option<Json>)
    requires n <= |leaves|
    requires ResolveLeaves(tree, leaves[..n], env, parseJson).fault.Some?
    ensures ResolveLeaves(tree, leaves, env, parseJson) == ResolveLeaves(tree, leaves[..n], env, parseJson)
    decreases |leaves| - n
  {
    if n < |leaves| {
      assert leaves[..n + 1][..n] == leaves[..n];
      StopsAtFault(tree, leaves, n + 1, env, parseJson);
    } else {
      assert leaves[..n] == leaves;
    }
  }

  // ---------------------------------------------------------------- properties

  /** The value left at a leaf's location by its own step, taken in the tree `before` it. */
  function Written(before: Json, leaf: Leaf, env: map<string, string>, parseJson: string -> Option<Json>): Json
  {
    match Replacement(before, leaf.text, env, parseJson)
    case Ok(Some(v)) => v
    case _ => Str(leaf.text)
  }

  /** A string value that does not start with '@' is never replaced and never throws. */
  lemma {:induction false} PlainTextUntouched(tree: Json, leaves: seq<Leaf>, env: map<string, string>, parseJson: string -> Option<Json>)
    requires forall k :: 0 <= k < |leaves| ==> leaves[k].text == [] || leaves[k].text[0] != '@'
    ensures ResolveLeaves(tree, leaves, env, parseJson) == Progress(tree, None)
    decreases |leaves|
  {
    if leaves != [] {
      PlainTextUntouched(tree, leaves[..|leaves| - 1], env, parseJson);
    }
  }

  /**
   * Leaves at separate locations of the tree: after the steps for the first
   * `n` of them, each resolved leaf holds the value its own step wrote (in
   * the tree before that step), every leaf still to come holds its original
   * value, and every location apart from all the resolved leaves is as it was.
   */
  lemma {:induction false} ResolvedLeaves(tree: Json, leaves: seq<Leaf>, n: nat, env: map<string, string>, parseJson: string -> Option<Json>)
    requires n <= |leaves|
    requires PairwiseApart(leaves)
    requires forall k :: 0 <= k < |leaves| ==> GetAt(tree, leaves[k].at) == Some(Str(leaves[k].text))
    requires ResolveLeaves(tree, leaves[..n], env, parseJson).fault.None?
    ensures var t := ResolveLeaves(tree, leaves[..n], env, parseJson).tree;
      (forall k :: 0 <= k < n ==>
         GetAt(t, leaves[k].at) == Some(Written(ResolveLeaves(tree, leaves[..k], env, parseJson).tree, leaves[k], env, parseJson)))
      && (forall k :: n <= k < |leaves| ==> GetAt(t, leaves[k].at) == GetAt(tree, leaves[k].at))
      && (forall q :: (forall k :: 0 <= k < n ==> Apart(leaves[k].at, q)) ==> GetAt(t, q) == GetAt(tree, q))
    decreases n
  {
    if n > 0 {
      var m := n - 1;
      var p := ResolveLeaves(tree, leaves[..m], env, parseJson);
      LastStep(tree, leaves, n, env, parseJson);
      ResolvedLeaves(tree, leaves, m, env, parseJson);
      var leaf := leaves[m];
      var t := ResolveLeaves(tree, leaves[..n], env, parseJson).tree;
      StepEffect(p.tree, leaf, env, parseJson);
      OthersUnchanged(p.tree, t, leaves, m);
      forall q | forall k :: 0 <= k < n ==> Apart(leaves[k].at, q) ensures GetAt(t, q) == GetAt(p.tree, q) {
        assert Apart(leaves[m].at, q);
      }
    }
  }

  /** The walk over the first `n` leaves is the walk over `n - 1` of them, then one step. */
  lemma LastStep(tree: Json, leaves: seq<Leaf>, n: nat, env: map<string, string>, parseJson: string -> Option<Json>)
    requires 0 < n <= |leaves|
    requires ResolveLeaves(tree, leaves[..n], env, parseJson).fault.None?
    ensures var p := ResolveLeaves(tree, leaves[..n - 1], env, parseJson);
      p.fault.None? && ResolveLeaf(p.tree, leaves[n - 1], env, parseJson).Ok?
      && ResolveLeaves(tree, leaves[..n], env, parseJson).tree == ResolveLeaf(p.tree, leaves[n - 1], env, parseJson).value
  {
    assert leaves[..n][..n - 1] == leaves[..n - 1];
    assert leaves[..n][n - 1] == leaves[n - 1];
  }

  /** A write apart from every other leaf leaves those leaves as they were. */
  lemma OthersUnchanged(a: Json, b: Json, leaves: seq<Leaf>, m: nat)
    requires PairwiseApart(leaves) && m < |leaves|
    requires forall q :: Apart(leaves[m].at, q) ==> GetAt(b, q) == GetAt(a, q)
    ensures forall k :: 0 <= k < |leaves| && k != m ==> GetAt(b, leaves[k].at) == GetAt(a, leaves[k].at)
  {
    forall k | 0 <= k < |leaves| && k != m ensures GetAt(b, leaves[k].at) == GetAt(a, leaves[k].at) {
      assert Apart(leaves[m].at, leaves[k].at) by {
        if k < m { assert Apart(leaves[k].at, leaves[m].at); } else { assert Apart(leaves[m].at, leaves[k].at); }
      }
    }
  }

  /**
   * One step: the visited value's location ends up holding what the step
   * wrote, and every location apart from it keeps its value.
   */
  lemma StepEffect(before: Json, leaf: Leaf, env: map<string, string>, parseJson: string -> Option<Json>)
    requires GetAt(before, leaf.at) == Some(Str(leaf.text))
    requires ResolveLeaf(before, leaf, env, parseJson).Ok?
    ensures var after := ResolveLeaf(before, leaf, env, parseJson).value;
      GetAt(after, leaf.at) == Some(Written(before, leaf, env, parseJson))
      && forall q :: Apart(leaf.at, q) ==> GetAt(after, q) == GetAt(before, q)
  {
    var r := Replacement(before, leaf.text, env, parseJson);
    if r.Ok? && r.value.Some? {
      var v := r.value.value;
      GetAtSetAt(before, leaf.at, v);
      forall q | Apart(leaf.at, q) ensures GetAt(SetAt(before, leaf.at, v), q) == GetAt(before, q) {
        GetAtSetAtApart(before, leaf.at, q, v);
      }
    }
  }

  /**
   * The whole walk over a well-formed configuration that completes: every
   * string value holds what its own step wrote (a reference resolved
   * against the tree as resolved up to that point), and every location
   * apart from all string values keeps its value.
   */
  lemma ResolveAtSpecsSpec(config: Json, env: map<string, string>, parseJson: string -> Option<Json>)
    requires Wf(config)
    requires ResolveLeaves(config, StringLeaves(config, []), env, parseJson).fault.None?
    ensures var leaves := StringLeaves(config, []);
      var t := ResolveLeaves(config, leaves, env, parseJson).tree;
      (forall k :: 0 <= k < |leaves| ==>
         GetAt(t, leaves[k].at) == Some(Written(ResolveLeaves(config, leaves[..k], env, parseJson).tree, leaves[k], env, parseJson)))
      && (forall q :: (forall k :: 0 <= k < |leaves| ==> Apart(leaves[k].at, q)) ==> GetAt(t, q) == GetAt(config, q))
  {
    var leaves := StringLeaves(config, []);
    StringLeavesApart(config, []);
    StringLeavesLocated(config, []);
    forall k | 0 <= k < |leaves| ensures GetAt(config, leaves[k].at) == Some(Str(leaves[k].text)) {
      assert leaves[k] in leaves;
      assert leaves[k].at[0..] == leaves[k].at;
    }
    assert leaves[..|leaves|] == leaves;
    ResolvedLeaves(config, leaves, |leaves|, env, parseJson);
  }

  /**
   * `{"a": v, "b": "@reference:a"}` with `v` a truthy string that is not
   * itself a placeholder resolves to `{"a": v, "b": v}`.
   */
  lemma ReferenceExample(v: string, env: map<string, string>, parseJson: string -> Option<Json>)
    requires v != [] && v[0] != '@'
    ensures var config := Obj(["a", "b"], map["a" := Str(v), "b" := Str("@reference:a")]);
      ResolveLeaves(config, StringLeaves(config, []), env, parseJson)
        == Progress(Obj(["a", "b"], map["a" := Str(v), "b" := Str(v)]), None)
  {
    var config := Obj(["a", "b"], map["a" := Str(v), "b" := Str("@reference:a")]);
    var la := Leaf(["a"], v);
    var lb := Leaf(["b"], "@reference:a");
    assert [] + ["a"] == ["a"] && [] + ["b"] == ["b"];
    assert KeyLeaves(config, [], 2) == [];
    assert StringLeaves(Str("@reference:a"), ["b"]) == [lb];
    assert KeyLeaves(config, [], 1) == [lb];
    assert StringLeaves(Str(v), ["a"]) == [la];
    assert KeyLeaves(config, [], 0) == [la, lb];
    assert [la, lb][..1] == [la];
    assert [la][..0] == [];
    assert ResolveLeaves(config, [la], env, parseJson) == Progress(config, None);
    assert ReferencePrefix <= lb.text;
    assert lb.text[|ReferencePrefix|..] == "a";
    assert ["a"][1..] == [];
    assert GetDotted(config, "a") == Some(Str(v));
    assert ["b"][1..] == [];
    assert SetAt(config, ["b"], Str(v)) == Obj(["a", "b"], map["a" := Str(v), "b" := Str(v)]);
  }

  /** On a well-formed tree, with a parser that yields well-formed values, the walk keeps the tree well-formed. */
  lemma {:induction false} ResolveLeavesWf(tree: Json, leaves: seq<Leaf>, env: map<string, string>, parseJson: string -> Option<Json>)
    requires Wf(tree) && ParserWf(parseJson)
    ensures Wf(ResolveLeaves(tree, leaves, env, parseJson).tree)
    decreases |leaves|
  {
    if leaves != [] {
      var init := leaves[..|leaves| - 1];
      ResolveLeavesWf(tree, init, env, parseJson);
      var p := ResolveLeaves(tree, init, env, parseJson);
      var leaf := leaves[|leaves| - 1];
      var r := Replacement(p.tree, leaf.text, env, parseJson);
      if p.fault.None? && r.Ok? && r.value.Some? {
        if ReferencePrefix <= leaf.text {
          GetAtWf(p.tree, RefPath(p.tree, leaf.text[|ReferencePrefix|..]));
        } else {
          ResolveEnvironmentVariableWf(leaf.text, env, parseJson);
        }
        SetAtWf(p.tree, leaf.at, r.value.value);
      }
    }
  }
}
