/**
 * The key path handed to the defaults customizer (core/config_loader.js:52-75).
 * lodash only tells the customizer the key and the object (`source`) that
 * holds it, so the loader keeps a stack of `{source, path}` frames across
 * calls: it pops frames until it finds the one pushed for `source`, extends
 * that frame's path by the key, and pushes a frame for the value itself.
 *
 * A parsed tree shares no objects, so an object is identified here by its
 * location in the loaded tree; a primitive value is never `===` to a
 * `source` (which is always an object or array) and has no identity (`None`).
 */
module MergePath {
  import opened Wrappers
  import opened Json

  /** `{source, path}`: what was pushed for a visited value. */
  datatype Frame = Frame(source: Option<seq<string>>, path: seq<string>)

  /** One customizer call: the location of the holding object, the key, and whether the value is an object or array. */
  datatype Call = Call(parent: seq<string>, key: string, container: bool)

  /** The location of the value a call is about. */
  function At(c: Call): seq<string>
  {
    c.parent + [c.key]
  }

  /** The identity `stack.push({source : configVal, …})` records. */
  function Identity(c: Call): Option<seq<string>>
  {
    if c.container then Some(At(c)) else None
  }

  /**
   * The stack right after the call `last`: one frame for the root and for
   * every proper ancestor of the visited value, each carrying its own
   * location as its path, then the frame of the value itself.
   */
  ghost predicate Chain(stack: seq<Frame>, last: Call)
  {
    var l := At(last);
    |stack| == |l| + 1
    && (forall i :: 0 <= i < |l| ==> stack[i] == Frame(Some(l[..i]), l[..i]))
    && stack[|l|] == Frame(Identity(last), l)
  }

  /**
   * What lodash's walk guarantees between two consecutive calls: the next
   * key belongs to an ancestor of the last value, or to the last value
   * itself when that is an object or array it descended into.
   */
  predicate Follows(last: Call, next: Call)
  {
    next.parent <= At(last) && (next.parent == At(last) ==> last.container)
  }

  /**
   * One customizer call's bookkeeping. The path handed on is the value's
   * location, and the stack afterwards is the chain of that value.
   */
  method Step(stack: seq<Frame>, call: Call, ghost last: Option<Call>) returns (path: seq<string>, after: seq<Frame>)
    requires last.None? ==> stack == [] && call.parent == []
    requires last.Some? ==> Chain(stack, last.value) && Follows(last.value, call)
    ensures path == At(call)
    ensures Chain(after, call)
  {
    after := stack;
    while true
      invariant last.None? ==> after == []
      invariant last.Some? ==> |call.parent| < |after| <= |stack| && after == stack[..|after|]
      decreases |after|
    {
      if |after| == 0 {
        after := [Frame(Some(call.parent), [])];
      }
      var prev := after[|after| - 1];
      if last.Some? {
        var l := At(last.value);
        assert call.parent == l[..|call.parent|];
        if |after| - 1 == |call.parent| {
          assert prev == stack[|call.parent|];
          if |call.parent| < |l| {
            assert l[..|call.parent|] == call.parent;
            assert stack[|call.parent|] == Frame(Some(l[..|call.parent|]), l[..|call.parent|]);
          } else {
            assert call.parent == l && last.value.container;
            assert stack[|l|] == Frame(Some(l), l);
          }
          assert prev == Frame(Some(call.parent), call.parent);
        }
      }
      if Some(call.parent) == prev.source {
        path := prev.path + [call.key];
        ghost var before := after;
        after := after + [Frame(Identity(call), path)];
        if last.Some? {
          var l := At(last.value);
          assert |before| - 1 == |call.parent|;
          assert path == At(call);
          forall i | 0 <= i < |At(call)| ensures after[i] == Frame(Some(At(call)[..i]), At(call)[..i]) {
            assert At(call)[..i] == l[..i];
            assert after[i] == stack[i];
          }
        }
        break;
      }
      after := after[..|after| - 1];
    }
  }

  /** The paths all calls of one merge receive, in call order. */
  method Paths(calls: seq<Call>) returns (paths: seq<seq<string>>)
    requires Walk(calls, [])
    ensures |paths| == |calls|
    ensures forall i :: 0 <= i < |calls| ==> paths[i] == At(calls[i])
  {
    var stack: seq<Frame> := [];
    paths := [];
    var i := 0;
    while i < |calls|
      invariant 0 <= i <= |calls|
      invariant |paths| == i
      invariant forall k :: 0 <= k < i ==> paths[k] == At(calls[k])
      invariant i == 0 ==> stack == []
      invariant i > 0 ==> Chain(stack, calls[i - 1])
    {
      var path;
      path, stack := Step(stack, calls[i], if i == 0 then None else Some(calls[i - 1]));
      paths := paths + [path];
      i := i + 1;
    }
  }

  // ---------------------------------------------------------------- lodash's walk

  /**
   * A run of calls below location `at`: it starts with a key of `at`
   * itself, every call is about a value below `at`, and each call follows
   * the one before it.
   */
  ghost predicate Walk(calls: seq<Call>, at: seq<string>)
  {
    (calls != [] ==> calls[0].parent == at)
    && (forall c :: c in calls ==> at <= c.parent)
    && (forall i :: 1 <= i < |calls| ==> Follows(calls[i - 1], calls[i]))
  }

  /**
   * The calls `_.mergeWith` makes for the loaded value `j` at `at`: one per
   * key (per index of an array), each followed by the calls for the value
   * when it is an object or array that lodash descends into, which it does
   * when the customizer answered `undefined` (`descend`).
   */
  function Trace(j: Json, at: seq<string>, descend: seq<string> -> bool): seq<Call>
    decreases j, 1, 0
  {
    match j
    case Obj(_, _) => KeyTrace(j, at, descend, 0)
    case Arr(_) => ItemTrace(j, at, descend, 0)
    case _ => []
  }

  function Visit(c: Json, at: seq<string>, key: string, descend: seq<string> -> bool): seq<Call>
    decreases c, 2, 0
  {
    var call := Call(at, key, c.Obj? || c.Arr?);
    [call] + (if call.container && descend(at + [key]) then Trace(c, at + [key], descend) else [])
  }

  function KeyTrace(j: Json, at: seq<string>, descend: seq<string> -> bool, i: nat): seq<Call>
    requires j.Obj? && i <= |j.keys|
    decreases j, 0, |j.keys| - i
  {
    if i == |j.keys| then []
    else
      (if j.keys[i] in j.fields then Visit(j.fields[j.keys[i]], at, j.keys[i], descend) else [])
      + KeyTrace(j, at, descend, i + 1)
  }

  function ItemTrace(j: Json, at: seq<string>, descend: seq<string> -> bool, i: nat): seq<Call>
    requires j.Arr? && i <= |j.items|
    decreases j, 0, |j.items| - i
  {
    if i == |j.items| then []
    else Visit(j.items[i], at, Strings.NatToString(i), descend) + ItemTrace(j, at, descend, i + 1)
  }

  /** Two runs below the same location, one after the other, are one run. */
  lemma WalkConcat(a: seq<Call>, b: seq<Call>, at: seq<string>)
    requires Walk(a, at) && Walk(b, at)
    ensures Walk(a + b, at)
  {
    var c := a + b;
    forall x | x in c ensures at <= x.parent {
      if x in a { } else { assert x in b; }
    }
    forall i | 1 <= i < |c| ensures Follows(c[i - 1], c[i]) {
      if i < |a| {
        assert c[i - 1] == a[i - 1] && c[i] == a[i];
      } else if i > |a| {
        assert c[i - 1] == b[i - 1 - |a|] && c[i] == b[i - |a|];
      } else {
        var last := a[|a| - 1];
        assert last in a;
        assert c[i] == b[0] && c[i - 1] == last;
        assert b[0].parent == at <= last.parent;
        assert last.parent <= At(last);
      }
    }
  }

  /** A run below `at + [key]` is also a run below `at`. */
  lemma WalkWiden(calls: seq<Call>, at: seq<string>, key: string)
    requires Walk(calls, at + [key])
    ensures forall c :: c in calls ==> at <= c.parent
  {
    forall c | c in calls ensures at <= c.parent {
      assert at + [key] <= c.parent;
      assert (at + [key])[..|at|] == at;
    }
  }

  lemma {:induction false} VisitWalks(c: Json, at: seq<string>, key: string, descend: seq<string> -> bool)
    ensures Walk(Visit(c, at, key, descend), at)
    decreases c, 2, 0
  {
    var call := Call(at, key, c.Obj? || c.Arr?);
    if call.container && descend(at + [key]) {
      var sub := Trace(c, at + [key], descend);
      TraceWalks(c, at + [key], descend);
      WalkWiden(sub, at, key);
      var v := [call] + sub;
      forall i | 1 <= i < |v| ensures Follows(v[i - 1], v[i]) {
        if i == 1 {
          assert v[1] == sub[0] && v[0] == call;
        } else {
          assert v[i - 1] == sub[i - 2] && v[i] == sub[i - 1];
        }
      }
      forall x | x in v ensures at <= x.parent {
        if x != call { assert x in sub; }
      }
    }
  }

  /** lodash's walk over a loaded value meets what the stack needs, call after call. */
  lemma {:induction false} TraceWalks(j: Json, at: seq<string>, descend: seq<string> -> bool)
    ensures Walk(Trace(j, at, descend), at)
    decreases j, 1, 0
  {
    match j
    case Obj(_, _) => KeyTraceWalks(j, at, descend, 0);
    case Arr(_) => ItemTraceWalks(j, at, descend, 0);
    case _ =>
  }

  lemma {:induction false} KeyTraceWalks(j: Json, at: seq<string>, descend: seq<string> -> bool, i: nat)
    requires j.Obj? && i <= |j.keys|
    ensures Walk(KeyTrace(j, at, descend, i), at)
    decreases j, 0, |j.keys| - i
  {
    if i < |j.keys| {
      KeyTraceWalks(j, at, descend, i + 1);
      if j.keys[i] in j.fields {
        VisitWalks(j.fields[j.keys[i]], at, j.keys[i], descend);
        WalkConcat(Visit(j.fields[j.keys[i]], at, j.keys[i], descend), KeyTrace(j, at, descend, i + 1), at);
      } else {
        assert KeyTrace(j, at, descend, i) == KeyTrace(j, at, descend, i + 1);
      }
    }
  }

  lemma {:induction false} ItemTraceWalks(j: Json, at: seq<string>, descend: seq<string> -> bool, i: nat)
    requires j.Arr? && i <= |j.items|
    ensures Walk(ItemTrace(j, at, descend, i), at)
    decreases j, 0, |j.items| - i
  {
    if i < |j.items| {
      ItemTraceWalks(j, at, descend, i + 1);
      VisitWalks(j.items[i], at, Strings.NatToString(i), descend);
      WalkConcat(Visit(j.items[i], at, Strings.NatToString(i), descend), ItemTrace(j, at, descend, i + 1), at);
    }
  }

  /**
   * Over a whole merge the stack hands every call the location of its
   * value in the loaded tree, keys from the merge root down.
   */
  method MergePaths(config: Json, descend: seq<string> -> bool) returns (paths: seq<seq<string>>)
    ensures var calls := Trace(config, [], descend);
      |paths| == |calls| && forall i :: 0 <= i < |calls| ==> paths[i] == At(calls[i])
  {
    TraceWalks(config, [], descend);
    paths := Paths(Trace(config, [], descend));
  }
}
