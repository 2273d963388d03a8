/**
 * The JavaScript values a configuration tree is made of, the locations
 * inside a tree, and the lodash/deepdash accessors the loader uses on them:
 * `_.get` with a dotted path, `_.set` at an existing location, and the
 * pre-order walk of `reduceDeep`.
 */
module Json {
  import opened Wrappers
  import opened Strings

  /**
   * A parsed configuration value. Objects keep their property names in
   * insertion order (`keys`) beside the lookup table (`fields`); a
   * well-formed object lists every field exactly once.
   */
  datatype Json =
    | Null
    | Bool(b: bool)
    | Num(n: int)
    | Str(s: string)
    | Arr(items: seq<Json>)
    | Obj(keys: seq<string>, fields: map<string, Json>)

  /** The object literal `{}`. */
  const Empty: Json := Obj([], map[])

  ghost predicate Distinct(keys: seq<string>)
  {
    forall i, j :: 0 <= i < j < |keys| ==> keys[i] != keys[j]
  }

  /** Every object, at every depth, lists each of its fields exactly once. */
  ghost predicate Wf(j: Json)
    decreases j
  {
    match j
    case Arr(items) => forall i :: 0 <= i < |items| ==> Wf(items[i])
    case Obj(keys, fields) =>
      Distinct(keys) && (forall k :: k in fields <==> k in keys)
      && forall k :: k in fields ==> Wf(fields[k])
    case _ => true
  }

  /** JavaScript truthiness of a value (`if (ref)`). */
  predicate Truthy(j: Json)
  {
    match j
    case Null => false
    case Bool(b) => b
    case Num(n) => n != 0
    case Str(s) => s != ""
    case _ => true
  }

  /** `Object.prototype.hasOwnProperty`-based lookup of one property. */
  function Field(j: Json, key: string): Option<Json>
  {
    if j.Obj? && key in j.fields then Some(j.fields[key]) else None
  }

  /** `value[seg]` on an object (property) or an array (canonical index). */
  function Child(j: Json, seg: string): Option<Json>
  {
    match j
    case Obj(_, fields) => if seg in fields then Some(fields[seg]) else None
    case Arr(items) =>
      var i := ParseIndex(seg);
      if i.Some? && i.value < |items| then Some(items[i.value]) else None
    case _ => None
  }

  /** The value at a location (a sequence of property names), if there is one. */
  function GetAt(j: Json, at: seq<string>): Option<Json>
    decreases |at|
  {
    if at == [] then Some(j)
    else match Child(j, at[0])
      case None => None
      case Some(c) => GetAt(c, at[1..])
  }

  /**
   * `_.set(tree, at, v)` where `at` names an existing location: the value
   * there is replaced and everything else, property order included, stays.
   */
  function SetAt(j: Json, at: seq<string>, v: Json): (r: Json)
    ensures GetAt(j, at).None? ==> r == j
    ensures at != [] && j.Obj? ==> r.Obj? && r.keys == j.keys && r.fields.Keys == j.fields.Keys
    ensures at != [] && j.Arr? ==> r.Arr? && |r.items| == |j.items|
    decreases |at|
  {
    if at == [] then v
    else match j
      case Obj(keys, fields) =>
        if at[0] in fields then Obj(keys, fields[at[0] := SetAt(fields[at[0]], at[1..], v)]) else j
      case Arr(items) =>
        var i := ParseIndex(at[0]);
        if i.Some? && i.value < |items| then Arr(items[i.value := SetAt(items[i.value], at[1..], v)]) else j
      case _ => j
  }

  /**
   * The property path `_.get(tree, ref)` reads. A string without a dot,
   * or one that is itself a property of the tree, is a single key;
   * otherwise it is split at every dot.
   */
  function RefPath(tree: Json, ref: string): (path: seq<string>)
    ensures |path| >= 1
  {
    if '.' !in ref || (tree.Obj? && ref in tree.fields) then [ref] else Split(ref, '.')
  }

  /** `_.get(tree, ref)`; `None` is `undefined`. */
  function GetDotted(tree: Json, ref: string): (r: Option<Json>)
    ensures '.' !in ref ==> r == Child(tree, ref)
    ensures tree.Obj? && ref in tree.fields ==> r == Some(tree.fields[ref])
  {
    GetAtSingle(tree, ref);
    GetAt(tree, RefPath(tree, ref))
  }

  /**
   * A dotted reference to a nested value: the dot-joined keys are read one
   * after another, unless the whole reference is itself a property of the
   * tree.
   */
  lemma GetDottedPath(tree: Json, segs: seq<string>)
    requires |segs| >= 1
    requires forall i :: 0 <= i < |segs| ==> '.' !in segs[i]
    requires |segs| == 1 || !(tree.Obj? && JoinWith(segs, '.') in tree.fields)
    ensures GetDotted(tree, JoinWith(segs, '.')) == GetAt(tree, segs)
  {
    SplitJoin(segs, '.');
    if |segs| == 1 {
      GetAtSingle(tree, segs[0]);
    }
  }

  /** Neither location lies inside the other. */
  predicate Apart(p: seq<string>, q: seq<string>)
  {
    !(p <= q) && !(q <= p)
  }

  lemma {:induction false} GetAtSetAt(j: Json, at: seq<string>, v: Json)
    requires GetAt(j, at).Some?
    ensures GetAt(SetAt(j, at, v), at) == Some(v)
    decreases |at|
  {
    if at != [] {
      var c := Child(j, at[0]).value;
      GetAtSetAt(c, at[1..], v);
      if j.Arr? {
        var i := ParseIndex(at[0]).value;
        assert Child(SetAt(j, at, v), at[0]) == Some(SetAt(c, at[1..], v));
      }
    }
  }

  /** Writing at one location leaves every location apart from it as it was. */
  lemma {:induction false} GetAtSetAtApart(j: Json, p: seq<string>, q: seq<string>, v: Json)
    requires Apart(p, q)
    ensures GetAt(SetAt(j, p, v), q) == GetAt(j, q)
    decreases |p|
  {
    assert p != [] && q != [];
    var j' := SetAt(j, p, v);
    if p[0] == q[0] {
      assert p[1..] != [] && q[1..] != [];
      assert Apart(p[1..], q[1..]);
      match Child(j, p[0])
      case None =>
        assert j' == j;
      case Some(c) =>
        GetAtSetAtApart(c, p[1..], q[1..], v);
        assert Child(j', q[0]) == Some(SetAt(c, p[1..], v));
    } else {
      assert Child(j', q[0]) == Child(j, q[0]) by {
        if j.Arr? {
          var i := ParseIndex(p[0]);
          var k := ParseIndex(q[0]);
          if i.Some? && k.Some? && i.value == k.value {
            ParseIndexInjective(p[0], q[0]);
          }
        }
      }
    }
  }

  // ---------------------------------------------------------------- walk

  /** A string value met by the walk, with its location. */
  datatype Leaf = Leaf(at: seq<string>, text: string)

  /**
   * Every string value of `j`, in the pre-order `reduceDeep` visits them:
   * object properties in insertion order, array elements by index. `at`
   * is the location of `j` itself.
   */
  function StringLeaves(j: Json, at: seq<string>): seq<Leaf>
    decreases j, 1, 0
  {
    match j
    case Str(s) => [Leaf(at, s)]
    case Arr(items) => ItemLeaves(j, at, 0)
    case Obj(_, _) => KeyLeaves(j, at, 0)
    case _ => []
  }

  function ItemLeaves(j: Json, at: seq<string>, i: nat): seq<Leaf>
    requires j.Arr? && i <= |j.items|
    decreases j, 0, |j.items| - i
  {
    if i == |j.items| then []
    else StringLeaves(j.items[i], at + [NatToString(i)]) + ItemLeaves(j, at, i + 1)
  }

  function KeyLeaves(j: Json, at: seq<string>, i: nat): seq<Leaf>
    requires j.Obj? && i <= |j.keys|
    decreases j, 0, |j.keys| - i
  {
    if i == |j.keys| then []
    else
      var k := j.keys[i];
      (if k in j.fields then StringLeaves(j.fields[k], at + [k]) else []) + KeyLeaves(j, at, i + 1)
  }

  /** The leaf `l` of the walk of `j` (at `at`) is a string of `j` at its location. */
  ghost predicate LocatedIn(j: Json, at: seq<string>, l: Leaf)
  {
    at <= l.at && GetAt(j, l.at[|at|..]) == Some(Str(l.text))
  }

  /** `loc` lies strictly below `at`, inside its child `seg`. */
  ghost predicate Below(at: seq<string>, seg: string, loc: seq<string>)
  {
    |loc| > |at| && at <= loc && loc[|at|] == seg
  }

  ghost predicate PairwiseApart(ls: seq<Leaf>)
  {
    forall a, b :: 0 <= a < b < |ls| ==> Apart(ls[a].at, ls[b].at)
  }

  /** A one-segment location is a single child. */
  lemma GetAtSingle(j: Json, seg: string)
    ensures GetAt(j, [seg]) == Child(j, seg)
  {
    assert [seg][1..] == [];
  }

  lemma GetAtChild(j: Json, seg: string, c: Json, rest: seq<string>)
    requires Child(j, seg) == Some(c)
    ensures GetAt(j, [seg] + rest) == GetAt(c, rest)
  {
    assert ([seg] + rest)[1..] == rest;
  }

  lemma ChildLeafLocated(j: Json, at: seq<string>, seg: string, c: Json, l: Leaf)
    requires Child(j, seg) == Some(c)
    requires LocatedIn(c, at + [seg], l)
    ensures LocatedIn(j, at, l) && Below(at, seg, l.at)
  {
    var rest := l.at[|at| + 1..];
    assert l.at[|at|..] == [seg] + rest;
    GetAtChild(j, seg, c, rest);
  }

  /** Every leaf of the walk is a string of the tree, found at the leaf's location. */
  lemma {:induction false} StringLeavesLocated(j: Json, at: seq<string>)
    ensures forall l :: l in StringLeaves(j, at) ==> LocatedIn(j, at, l)
    decreases j, 1, 0
  {
    match j
    case Str(s) =>
      assert at[|at|..] == [];
    case Arr(items) =>
      ItemLeavesLocated(j, at, 0);
    case Obj(_, _) =>
      KeyLeavesLocated(j, at, 0);
    case _ =>
  }

  lemma {:induction false} ItemLeavesLocated(j: Json, at: seq<string>, i: nat)
    requires j.Arr? && i <= |j.items|
    ensures forall l :: l in ItemLeaves(j, at, i) ==>
      LocatedIn(j, at, l) && exists m :: i <= m < |j.items| && Below(at, NatToString(m), l.at)
    decreases j, 0, |j.items| - i
  {
    if i < |j.items| {
      var seg := NatToString(i);
      var c := j.items[i];
      ParseIndexOfNatToString(i);
      StringLeavesLocated(c, at + [seg]);
      ItemLeavesLocated(j, at, i + 1);
      forall l | l in ItemLeaves(j, at, i)
        ensures LocatedIn(j, at, l) && exists m :: i <= m < |j.items| && Below(at, NatToString(m), l.at)
      {
        if l in StringLeaves(c, at + [seg]) {
          ChildLeafLocated(j, at, seg, c, l);
          assert i <= i < |j.items| && Below(at, NatToString(i), l.at);
        } else {
          assert l in ItemLeaves(j, at, i + 1);
        }
      }
      assert forall l :: l in ItemLeaves(j, at, i) ==> LocatedIn(j, at, l);
      assert forall l :: l in ItemLeaves(j, at, i) ==> exists m :: i <= m < |j.items| && Below(at, NatToString(m), l.at);
    }
  }

  lemma {:induction false} KeyLeavesLocated(j: Json, at: seq<string>, i: nat)
    requires j.Obj? && i <= |j.keys|
    ensures forall l :: l in KeyLeaves(j, at, i) ==>
      LocatedIn(j, at, l) && exists m :: i <= m < |j.keys| && Below(at, j.keys[m], l.at)
    decreases j, 0, |j.keys| - i
  {
    if i < |j.keys| {
      var k := j.keys[i];
      KeyLeavesLocated(j, at, i + 1);
      if k in j.fields {
        var c := j.fields[k];
        StringLeavesLocated(c, at + [k]);
        forall l | l in StringLeaves(c, at + [k])
          ensures LocatedIn(j, at, l) && Below(at, k, l.at)
        {
          ChildLeafLocated(j, at, k, c, l);
        }
      }
    }
  }

  lemma BelowApart(at: seq<string>, s: string, t: string, p: seq<string>, q: seq<string>)
    requires Below(at, s, p) && Below(at, t, q) && s != t
    ensures Apart(p, q)
  {
  }

  lemma ConcatApart(xs: seq<Leaf>, ys: seq<Leaf>)
    requires PairwiseApart(xs) && PairwiseApart(ys)
    requires forall x, y :: x in xs && y in ys ==> Apart(x.at, y.at)
    ensures PairwiseApart(xs + ys)
  {
    var zs := xs + ys;
    forall a, b | 0 <= a < b < |zs| ensures Apart(zs[a].at, zs[b].at) {
      if b < |xs| {
        assert zs[a] == xs[a] && zs[b] == xs[b];
      } else if a >= |xs| {
        assert zs[a] == ys[a - |xs|] && zs[b] == ys[b - |xs|];
      } else {
        assert zs[a] in xs && zs[b] in ys;
      }
    }
  }

  /**
   * In a well-formed tree no two leaves of the walk share a location or lie
   * one inside the other, so writing at one leaf never disturbs another.
   */
  lemma {:induction false} StringLeavesApart(j: Json, at: seq<string>)
    requires Wf(j)
    ensures PairwiseApart(StringLeaves(j, at))
    decreases j, 1, 0
  {
    match j
    case Arr(items) =>
      ItemLeavesApart(j, at, 0);
    case Obj(_, _) =>
      KeyLeavesApart(j, at, 0);
    case _ =>
  }

  lemma {:induction false} ItemLeavesApart(j: Json, at: seq<string>, i: nat)
    requires j.Arr? && i <= |j.items| && Wf(j)
    ensures PairwiseApart(ItemLeaves(j, at, i))
    decreases j, 0, |j.items| - i
  {
    if i < |j.items| {
      var seg := NatToString(i);
      var c := j.items[i];
      var xs := StringLeaves(c, at + [seg]);
      var ys := ItemLeaves(j, at, i + 1);
      ParseIndexOfNatToString(i);
      StringLeavesApart(c, at + [seg]);
      ItemLeavesApart(j, at, i + 1);
      StringLeavesLocated(c, at + [seg]);
      ItemLeavesLocated(j, at, i + 1);
      forall x, y | x in xs && y in ys ensures Apart(x.at, y.at) {
        ChildLeafLocated(j, at, seg, c, x);
        var m :| i + 1 <= m < |j.items| && Below(at, NatToString(m), y.at);
        ParseIndexOfNatToString(m);
        BelowApart(at, seg, NatToString(m), x.at, y.at);
      }
      ConcatApart(xs, ys);
    }
  }

  lemma {:induction false} KeyLeavesApart(j: Json, at: seq<string>, i: nat)
    requires j.Obj? && i <= |j.keys| && Wf(j)
    ensures PairwiseApart(KeyLeaves(j, at, i))
    decreases j, 0, |j.keys| - i
  {
    if i < |j.keys| {
      var k := j.keys[i];
      var ys := KeyLeaves(j, at, i + 1);
      KeyLeavesApart(j, at, i + 1);
      if k in j.fields {
        var c := j.fields[k];
        var xs := StringLeaves(c, at + [k]);
        StringLeavesApart(c, at + [k]);
        StringLeavesLocated(c, at + [k]);
        KeyLeavesLocated(j, at, i + 1);
        forall x, y | x in xs && y in ys ensures Apart(x.at, y.at) {
          ChildLeafLocated(j, at, k, c, x);
          var m :| i + 1 <= m < |j.keys| && Below(at, j.keys[m], y.at);
          BelowApart(at, k, j.keys[m], x.at, y.at);
        }
        ConcatApart(xs, ys);
      }
    }
  }

  /** A value found inside a well-formed tree is well-formed. */
  lemma {:induction false} GetAtWf(j: Json, at: seq<string>)
    requires Wf(j) && GetAt(j, at).Some?
    ensures Wf(GetAt(j, at).value)
    decreases |at|
  {
    if at != [] {
      var c := Child(j, at[0]).value;
      if j.Arr? {
        assert c == j.items[ParseIndex(at[0]).value];
      }
      GetAtWf(c, at[1..]);
    }
  }

  /** Writing a well-formed value into a well-formed tree gives a well-formed tree. */
  lemma {:induction false} SetAtWf(j: Json, at: seq<string>, v: Json)
    requires Wf(j) && Wf(v)
    ensures Wf(SetAt(j, at, v))
    decreases |at|
  {
    if at != [] {
      match j
      case Obj(keys, fields) =>
        if at[0] in fields {
          SetAtWf(fields[at[0]], at[1..], v);
        }
      case Arr(items) =>
        var i := ParseIndex(at[0]);
        if i.Some? && i.value < |items| {
          SetAtWf(items[i.value], at[1..], v);
        }
      case _ =>
    }
  }
}
