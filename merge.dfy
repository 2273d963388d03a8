/**
 * The two deep merges of the pipeline, as lodash performs them on parsed
 * (acyclic, unshared) trees:
 *  - `_.merge(defaults, config)` / `_.mergeWith(defaults, config, customizer)`
 *    (core/config_loader.js:53-82): the loaded config is laid over the defaults;
 *  - `_.defaultsDeep(config, included)` (core/config_loader.js:210): an
 *    include fills only what the config still lacks.
 * The dotted key path the customizer receives is threaded through the
 * recursion as an ordinary parameter.
 */
module Merge {
  import opened Wrappers
  import opened Strings
  import opened Json

  /**
   * `defaultsCustomizer(defaultVal, configVal, key, path)`: `defaultVal` is
   * `None` when the defaults have nothing there; a `None` answer
   * (`undefined`) lets lodash merge as usual.
   */
  type Customizer = (Option<Json>, Json, string, string) -> Option<Json>

  /** The keys of `ks` (in order) that `present` does not have yet. */
  function NewKeys(ks: seq<string>, present: map<string, Json>): (r: seq<string>)
    ensures forall k :: k in r <==> k in ks && k !in present
    ensures |r| <= |ks|
  {
    if ks == [] then []
    else (if ks[0] in present then [] else [ks[0]]) + NewKeys(ks[1..], present)
  }

  /**
   * The value lodash stores for one key of the loaded tree: the
   * customizer, when there is one, is asked first with the key and the
   * `.`-joined path from the merge root; its answer wins outright.
   */
  function MergeValue(dst: Option<Json>, src: Json, path: seq<string>, cust: Option<Customizer>): Json
    requires path != []
    decreases src, 2, 0
  {
    var answer := if cust.Some? then cust.value(dst, src, path[|path| - 1], JoinWith(path, '.')) else None;
    if answer.Some? then answer.value else MergeDefault(dst, src, path, cust)
  }

  /**
   * lodash's own rule: an object is merged into the default object (into a
   * fresh `{}` when the default is not one), an array into the default
   * array index by index (into a fresh `[]` when the default is not one),
   * and any other loaded value replaces the default.
   */
  function MergeDefault(dst: Option<Json>, src: Json, path: seq<string>, cust: Option<Customizer>): Json
    decreases src, 1, 0
  {
    match src
    case Obj(_, _) =>
      MergeObject(if dst.Some? && dst.value.Obj? then dst.value else Empty, src, path, cust)
    case Arr(_) =>
      Arr(MergeItems(if dst.Some? && dst.value.Arr? then dst.value.items else [], src, path, 0, cust))
    case _ => src
  }

  /** Keys of `src` override or extend `dst`; new keys go last, in `src` order. */
  function MergeObject(dst: Json, src: Json, path: seq<string>, cust: Option<Customizer>): Json
    requires dst.Obj? && src.Obj?
    decreases src, 0, 0
  {
    Obj(dst.keys + NewKeys(src.keys, dst.fields),
        map k | k in dst.fields.Keys + src.fields.Keys ::
          if k in src.fields then MergeValue(Field(dst, k), src.fields[k], path + [k], cust)
          else dst.fields[k])
  }

  /** Elements `i..` of the merged array: `src[i]` merged onto `dst[i]`, then the rest of `dst`. */
  function MergeItems(dst: seq<Json>, src: Json, path: seq<string>, i: nat, cust: Option<Customizer>): seq<Json>
    requires src.Arr? && i <= |src.items|
    decreases src, 0, |src.items| - i
  {
    if i == |src.items| then (if i < |dst| then dst[i..] else [])
    else
      [MergeValue(if i < |dst| then Some(dst[i]) else None, src.items[i], path + [NatToString(i)], cust)]
      + MergeItems(dst, src, path, i + 1, cust)
  }

  /**
   * File content that is not an object merges like `{}`. For numbers,
   * booleans and null this is what lodash does; an array or a string would
   * contribute its indices as keys there, which the model leaves out.
   */
  function AsObject(j: Json): Json
  {
    if j.Obj? then j else Empty
  }

  /** `_.mergeWith(defaults, config, customizer)`, or `_.merge` when there is no customizer. */
  function MergeConfig(defaults: Json, config: Json, cust: Option<Customizer>): (r: Json)
    ensures r.Obj?
  {
    MergeObject(AsObject(defaults), AsObject(config), [], cust)
  }

  /**
   * `_.defaultsDeep` on one value: the destination keeps what it has; two
   * objects, or two arrays, are filled key by key (index by index).
   */
  function FillValue(dst: Json, src: Json): Json
    decreases src, 1, 0
  {
    if dst.Obj? && src.Obj? then FillObject(dst, src)
    else if dst.Arr? && src.Arr? then Arr(FillItems(dst.items, src, 0))
    else dst
  }

  function FillObject(dst: Json, src: Json): Json
    requires dst.Obj? && src.Obj?
    decreases src, 0, 0
  {
    Obj(dst.keys + NewKeys(src.keys, dst.fields),
        map k | k in dst.fields.Keys + src.fields.Keys ::
          if k !in dst.fields then src.fields[k]
          else if k in src.fields then FillValue(dst.fields[k], src.fields[k])
          else dst.fields[k])
  }

  function FillItems(dst: seq<Json>, src: Json, i: nat): seq<Json>
    requires src.Arr? && i <= |src.items|
    decreases src, 0, |src.items| - i
  {
    if i == |src.items| then (if i < |dst| then dst[i..] else [])
    else [if i < |dst| then FillValue(dst[i], src.items[i]) else src.items[i]] + FillItems(dst, src, i + 1)
  }

  /** `_.defaultsDeep(config, included)`. */
  function DefaultsDeep(config: Json, included: Json): (r: Json)
    ensures r.Obj? && r.fields.Keys == AsObject(config).fields.Keys + AsObject(included).fields.Keys
    ensures Extends(r, AsObject(config))
    ensures forall k :: k in AsObject(included).fields && k !in AsObject(config).fields ==>
      r.fields[k] == AsObject(included).fields[k]
  {
    var d := AsObject(config);
    var s := AsObject(included);
    FillExtends(d, s);
    assert FillValue(d, s) == FillObject(d, s);
    FillValue(d, s)
  }

  // ---------------------------------------------------------------- relations

  /**
   * `r` keeps everything `d` has: every key (recursively), every array
   * element, every other value exactly.
   */
  ghost predicate Extends(r: Json, d: Json)
    decreases d
  {
    match d
    case Obj(_, fields) =>
      r.Obj? && forall k :: k in fields ==> k in r.fields && Extends(r.fields[k], fields[k])
    case Arr(items) =>
      r.Arr? && |items| <= |r.items| && forall i :: 0 <= i < |items| ==> Extends(r.items[i], items[i])
    case _ => r == d
  }

  /** The same tree up to the order of object keys. */
  ghost predicate SameContent(a: Json, b: Json)
    decreases a
  {
    match a
    case Obj(_, fields) =>
      b.Obj? && fields.Keys == b.fields.Keys && forall k :: k in fields ==> SameContent(fields[k], b.fields[k])
    case Arr(items) =>
      b.Arr? && |items| == |b.items| && forall i :: 0 <= i < |items| ==> SameContent(items[i], b.items[i])
    case _ => a == b
  }

  ghost predicate CustomizerKeepsWf(cust: Option<Customizer>)
  {
    cust.Some? ==>
      forall d: Option<Json>, s: Json, k: string, p: string ::
        Wf(s) && (d.Some? ==> Wf(d.value)) && cust.value(d, s, k, p).Some? ==> Wf(cust.value(d, s, k, p).value)
  }

  lemma {:induction false} ExtendsRefl(j: Json)
    ensures Extends(j, j)
    decreases j
  {
    match j
    case Obj(_, fields) =>
      forall k | k in fields ensures Extends(fields[k], fields[k]) { ExtendsRefl(fields[k]); }
    case Arr(items) =>
      forall i | 0 <= i < |items| ensures Extends(items[i], items[i]) { ExtendsRefl(items[i]); }
    case _ =>
  }

  lemma {:induction false} ExtendsTrans(a: Json, b: Json, c: Json)
    requires Extends(b, a) && Extends(c, b)
    ensures Extends(c, a)
    decreases a
  {
    match a
    case Obj(_, fields) =>
      forall k | k in fields ensures k in c.fields && Extends(c.fields[k], fields[k]) {
        ExtendsTrans(fields[k], b.fields[k], c.fields[k]);
      }
    case Arr(items) =>
      forall i | 0 <= i < |items| ensures Extends(c.items[i], items[i]) {
        ExtendsTrans(items[i], b.items[i], c.items[i]);
      }
    case _ =>
  }

  lemma {:induction false} SameContentRefl(j: Json)
    ensures SameContent(j, j)
    decreases j
  {
    match j
    case Obj(_, fields) =>
      forall k | k in fields ensures SameContent(fields[k], fields[k]) { SameContentRefl(fields[k]); }
    case Arr(items) =>
      forall i | 0 <= i < |items| ensures SameContent(items[i], items[i]) { SameContentRefl(items[i]); }
    case _ =>
  }

  // ---------------------------------------------------------------- arrays, element by element

  function Longer(a: nat, b: nat): nat { if a > b then a else b }

  lemma {:induction false} MergeItemsLength(dst: seq<Json>, src: Json, path: seq<string>, i: nat, cust: Option<Customizer>)
    requires src.Arr? && i <= |src.items|
    ensures |MergeItems(dst, src, path, i, cust)| == Longer(|dst|, |src.items|) - i
    decreases |src.items| - i
  {
    if i < |src.items| {
      MergeItemsLength(dst, src, path, i + 1, cust);
    }
  }

  /** Element `m` of a merged array: the merge of the two elements, or the default's own past the loaded ones. */
  lemma {:induction false} MergeItemsAt(dst: seq<Json>, src: Json, path: seq<string>, i: nat, cust: Option<Customizer>, m: nat)
    requires src.Arr? && i <= |src.items| && i <= m < Longer(|dst|, |src.items|)
    ensures |MergeItems(dst, src, path, i, cust)| == Longer(|dst|, |src.items|) - i
    ensures MergeItems(dst, src, path, i, cust)[m - i] ==
      if m < |src.items| then MergeValue(if m < |dst| then Some(dst[m]) else None, src.items[m], path + [NatToString(m)], cust)
      else dst[m]
    decreases |src.items| - i
  {
    MergeItemsLength(dst, src, path, i, cust);
    if i < |src.items| && i < m {
      MergeItemsAt(dst, src, path, i + 1, cust, m);
    }
  }

  lemma {:induction false} FillItemsLength(dst: seq<Json>, src: Json, i: nat)
    requires src.Arr? && i <= |src.items|
    ensures |FillItems(dst, src, i)| == Longer(|dst|, |src.items|) - i
    decreases |src.items| - i
  {
    if i < |src.items| {
      FillItemsLength(dst, src, i + 1);
    }
  }

  /** Element `m` of a filled array: the config's element (filled), or the include's past the config's end. */
  lemma {:induction false} FillItemsAt(dst: seq<Json>, src: Json, i: nat, m: nat)
    requires src.Arr? && i <= |src.items| && i <= m < Longer(|dst|, |src.items|)
    ensures |FillItems(dst, src, i)| == Longer(|dst|, |src.items|) - i
    ensures FillItems(dst, src, i)[m - i] ==
      if m < |src.items| then (if m < |dst| then FillValue(dst[m], src.items[m]) else src.items[m])
      else dst[m]
    decreases |src.items| - i
  {
    FillItemsLength(dst, src, i);
    if i < |src.items| && i < m {
      FillItemsAt(dst, src, i + 1, m);
    }
  }

  // ---------------------------------------------------------------- merge

  /**
   * Without a customizer the loaded tree wins everywhere it has a value:
   * the merge result keeps every key, element and scalar of the loaded tree.
   */
  lemma {:induction false} MergeKeepsLoaded(dst: Option<Json>, src: Json, path: seq<string>)
    ensures Extends(MergeDefault(dst, src, path, None), src)
    decreases src, 1
  {
    var r := MergeDefault(dst, src, path, None);
    match src
    case Obj(_, fields) =>
      var base := if dst.Some? && dst.value.Obj? then dst.value else Empty;
      assert r == MergeObject(base, src, path, None);
      forall k | k in fields ensures k in r.fields && Extends(r.fields[k], fields[k]) {
        assert k in base.fields.Keys + src.fields.Keys;
        assert r.fields[k] == MergeValue(Field(base, k), fields[k], path + [k], None);
        assert r.fields[k] == MergeDefault(Field(base, k), fields[k], path + [k], None);
        MergeKeepsLoaded(Field(base, k), fields[k], path + [k]);
      }
    case Arr(items) =>
      var base := if dst.Some? && dst.value.Arr? then dst.value.items else [];
      MergeItemsLength(base, src, path, 0, None);
      forall i | 0 <= i < |items| ensures Extends(r.items[i], items[i]) {
        MergeItemsAt(base, src, path, 0, None, i);
        MergeKeepsLoaded(if i < |base| then Some(base[i]) else None, items[i], path + [NatToString(i)]);
      }
    case _ =>
  }

  /** A key that only the defaults object has keeps the defaults' value, at whatever path the two objects meet. */
  lemma DefaultOnlyKeysSurvive(dst: Json, src: Json, path: seq<string>, cust: Option<Customizer>, k: string)
    requires dst.Obj? && src.Obj?
    requires k in dst.fields && k !in src.fields
    ensures Field(MergeObject(dst, src, path, cust), k) == Some(dst.fields[k])
  {
  }

  lemma NewKeysOfNothing(ks: seq<string>)
    ensures NewKeys(ks, map[]) == ks
  {
  }

  /** A loaded value with nothing under it in the defaults is taken over exactly. */
  lemma {:induction false} MergeOntoNothing(src: Json, path: seq<string>)
    ensures MergeDefault(None, src, path, None) == src
    decreases src, 1, 0
  {
    var r := MergeDefault(None, src, path, None);
    match src
    case Obj(keys, fields) =>
      MergeObjectOntoNothing(src, path);
    case Arr(items) =>
      MergeItemsLength([], src, path, 0, None);
      forall i | 0 <= i < |items| ensures r.items[i] == items[i] {
        MergeItemsAt([], src, path, 0, None, i);
        MergeOntoNothing(items[i], path + [NatToString(i)]);
      }
      assert r.items == items;
    case _ =>
  }

  lemma {:induction false} MergeObjectOntoNothing(src: Json, path: seq<string>)
    requires src.Obj?
    ensures MergeObject(Empty, src, path, None) == src
    decreases src, 0, 0
  {
    var r := MergeObject(Empty, src, path, None);
    NewKeysOfNothing(src.keys);
    assert r.keys == src.keys;
    forall k | k in src.fields ensures r.fields[k] == src.fields[k] {
      assert r.fields[k] == MergeValue(None, src.fields[k], path + [k], None);
      MergeOntoNothing(src.fields[k], path + [k]);
    }
    assert r.fields.Keys == src.fields.Keys;
    assert r.fields == src.fields;
  }

  /** The path the merge pairs with the loaded value at `p`: the defaults' value there, as lodash reaches it. */
  function Seen(dst: Option<Json>, src: Json, p: seq<string>): Option<Json>
    decreases |p|
  {
    if p == [] then dst
    else match Child(src, p[0])
      case None => None
      case Some(c) => Seen(Under(dst, src, p[0]), c, p[1..])
  }

  /** The defaults' value paired with the child `seg` of the loaded value `src`. */
  function Under(dst: Option<Json>, src: Json, seg: string): Option<Json>
  {
    if dst.Some? && ((src.Obj? && dst.value.Obj?) || (src.Arr? && dst.value.Arr?)) then Child(dst.value, seg) else None
  }

  /** What the customizer answers for the loaded value at location `p` (below `path`); `None` where there is none. */
  function Ask(cust: Customizer, dst: Option<Json>, src: Json, path: seq<string>, p: seq<string>): Option<Json>
  {
    if p == [] then None
    else match GetAt(src, p)
      case None => None
      case Some(x) => cust(Seen(dst, src, p), x, p[|p| - 1], JoinWith(path + p, '.'))
  }

  /** One step down: a location below the child `seg` of `src` is asked about as a location of that child. */
  lemma AskChild(cust: Customizer, dst: Option<Json>, src: Json, path: seq<string>, seg: string, c: Json, p: seq<string>)
    requires Child(src, seg) == Some(c)
    requires p != []
    ensures GetAt(src, [seg] + p) == GetAt(c, p)
    ensures Ask(cust, dst, src, path, [seg] + p) == Ask(cust, Under(dst, src, seg), c, path + [seg], p)
  {
    var q := [seg] + p;
    assert q[1..] == p && q[0] == seg;
    assert q[|q| - 1] == p[|p| - 1];
    assert path + q == (path + [seg]) + p;
  }

  /**
   * The customizer decides the merged value: when it declines (`undefined`)
   * at every ancestor of location `p` of the loaded tree and answers `v` at
   * `p` itself, given the defaults' value there, the key and the `.`-joined
   * path from the merge root, then the merged tree holds `v` at `p`.
   */
  lemma {:induction false} CustomizerDecides(dst: Option<Json>, src: Json, path: seq<string>, p: seq<string>, cust: Customizer, v: Json)
    requires p != []
    requires forall n :: 1 <= n < |p| ==> Ask(cust, dst, src, path, p[..n]).None?
    requires Ask(cust, dst, src, path, p) == Some(v)
    ensures GetAt(MergeDefault(dst, src, path, Some(cust)), p) == Some(v)
    decreases |p|
  {
    var seg := p[0];
    var rest := p[1..];
    assert p == [seg] + rest;
    var c := Child(src, seg).value;
    var under := Under(dst, src, seg);
    var r := MergeDefault(dst, src, path, Some(cust));
    var merged := MergeValue(under, c, path + [seg], Some(cust));
    MergedChild(dst, src, path, seg, Some(cust));
    var answer := cust(under, c, seg, JoinWith(path + [seg], '.'));
    assert [seg][1..] == [];
    GetAtChild(src, seg, c, []);
    assert [seg] + [] == [seg];
    assert Seen(dst, src, [seg]) == under;
    assert Ask(cust, dst, src, path, [seg]) == answer;
    if rest == [] {
      assert merged == v;
    } else {
      assert p[..1] == [seg];
      assert merged == MergeDefault(under, c, path + [seg], Some(cust));
      forall n | 1 <= n < |rest| ensures Ask(cust, under, c, path + [seg], rest[..n]).None? {
        assert p[..n + 1] == [seg] + rest[..n];
        AskChild(cust, dst, src, path, seg, c, rest[..n]);
      }
      AskChild(cust, dst, src, path, seg, c, rest);
      CustomizerDecides(under, c, path + [seg], rest, cust, v);
      GetAtChild(r, seg, merged, rest);
    }
  }

  /** The merged tree's child `seg` is the merge of the loaded child with what the defaults have there. */
  lemma MergedChild(dst: Option<Json>, src: Json, path: seq<string>, seg: string, cust: Option<Customizer>)
    requires Child(src, seg).Some?
    ensures Child(MergeDefault(dst, src, path, cust), seg)
         == Some(MergeValue(Under(dst, src, seg), Child(src, seg).value, path + [seg], cust))
  {
    var r := MergeDefault(dst, src, path, cust);
    var c := Child(src, seg).value;
    if src.Arr? {
      var base := if dst.Some? && dst.value.Arr? then dst.value.items else [];
      var i := ParseIndex(seg).value;
      NatToStringOfParseIndex(seg);
      MergeItemsAt(base, src, path, 0, cust, i);
    }
  }

  /**
   * lodash never visits a key the loaded tree lacks, at any depth: where
   * the loaded tree has an object at location `p`, the defaults have an
   * object there too, and the customizer (if any) declined at `p` and at
   * every ancestor, a key only the defaults' object has keeps its value in
   * the merged tree.
   */
  lemma {:induction false} DefaultOnlyKeysSurviveDeep(dst: Option<Json>, src: Json, path: seq<string>, p: seq<string>,
                                                     cust: Option<Customizer>, k: string)
    requires GetAt(src, p).Some? && GetAt(src, p).value.Obj?
    requires Seen(dst, src, p).Some? && Seen(dst, src, p).value.Obj?
    requires k in Seen(dst, src, p).value.fields && k !in GetAt(src, p).value.fields
    requires cust.Some? ==> forall n :: 1 <= n <= |p| ==> Ask(cust.value, dst, src, path, p[..n]).None?
    ensures GetAt(MergeDefault(dst, src, path, cust), p + [k]) == Some(Seen(dst, src, p).value.fields[k])
    decreases |p|
  {
    var r := MergeDefault(dst, src, path, cust);
    if p == [] {
      var d := dst.value;
      assert r == MergeObject(d, src, path, cust);
      DefaultOnlyKeysSurvive(d, src, path, cust, k);
      GetAtChild(r, k, d.fields[k], []);
      assert [k] + [] == [k] && p + [k] == [k];
    } else {
      var seg := p[0];
      var rest := p[1..];
      assert p == [seg] + rest;
      var c := Child(src, seg).value;
      var under := Under(dst, src, seg);
      GetAtChild(src, seg, c, rest);
      assert Seen(dst, src, p) == Seen(under, c, rest);
      MergedChild(dst, src, path, seg, cust);
      var merged := MergeValue(under, c, path + [seg], cust);
      if cust.Some? {
        assert [seg][1..] == [];
        GetAtChild(src, seg, c, []);
        assert [seg] + [] == [seg];
        assert Seen(dst, src, [seg]) == under;
        assert p[..1] == [seg];
        assert Ask(cust.value, dst, src, path, [seg]).None?;
        forall n | 1 <= n <= |rest| ensures Ask(cust.value, under, c, path + [seg], rest[..n]).None? {
          assert p[..n + 1] == [seg] + rest[..n];
          AskChild(cust.value, dst, src, path, seg, c, rest[..n]);
        }
      }
      assert merged == MergeDefault(under, c, path + [seg], cust);
      DefaultOnlyKeysSurviveDeep(under, c, path + [seg], rest, cust, k);
      GetAtChild(r, seg, merged, rest + [k]);
      assert p + [k] == [seg] + (rest + [k]);
    }
  }

  // ---------------------------------------------------------------- defaultsDeep

  /** An include never overwrites: everything the config already has is kept. */
  lemma {:induction false} FillExtends(d: Json, s: Json)
    ensures Extends(FillValue(d, s), d)
    decreases d
  {
    var r := FillValue(d, s);
    match d
    case Obj(_, fields) =>
      if s.Obj? {
        forall k | k in fields ensures k in r.fields && Extends(r.fields[k], fields[k]) {
          if k in s.fields {
            FillExtends(fields[k], s.fields[k]);
          } else {
            ExtendsRefl(fields[k]);
          }
        }
      } else {
        ExtendsRefl(d);
      }
    case Arr(items) =>
      if s.Arr? {
        FillItemsLength(items, s, 0);
        forall i | 0 <= i < |items| ensures Extends(r.items[i], items[i]) {
          FillItemsAt(items, s, 0, i);
          if i < |s.items| {
            FillExtends(items[i], s.items[i]);
          } else {
            ExtendsRefl(items[i]);
          }
        }
      } else {
        ExtendsRefl(d);
      }
    case _ =>
  }

  /**
   * `_.defaultsDeep(config, included)` holds what `_.merge(included, config)`
   * holds: filling the config from an include is laying the config over the
   * include (only the order of the keys differs).
   */
  lemma {:induction false} FillAgreesWithMerge(d: Json, s: Json, path: seq<string>)
    ensures SameContent(FillValue(d, s), MergeDefault(Some(s), d, path, None))
    decreases d
  {
    var f := FillValue(d, s);
    var m := MergeDefault(Some(s), d, path, None);
    match d
    case Obj(_, dfields) =>
      if s.Obj? {
        assert f == FillObject(d, s);
        assert m == MergeObject(s, d, path, None);
        assert f.fields.Keys == m.fields.Keys;
        forall k | k in f.fields ensures SameContent(f.fields[k], m.fields[k]) {
          if k in dfields {
            assert m.fields[k] == MergeValue(Field(s, k), dfields[k], path + [k], None);
            if k in s.fields {
              FillAgreesWithMerge(dfields[k], s.fields[k], path + [k]);
            } else {
              MergeOntoNothing(dfields[k], path + [k]);
              SameContentRefl(dfields[k]);
            }
          } else {
            assert f.fields[k] == s.fields[k] == m.fields[k];
            SameContentRefl(s.fields[k]);
          }
        }
      } else {
        MergeObjectOntoNothing(d, path);
        SameContentRefl(d);
      }
    case Arr(ditems) =>
      if s.Arr? {
        FillItemsLength(ditems, s, 0);
        MergeItemsLength(s.items, d, path, 0, None);
        forall i | 0 <= i < |f.items| ensures SameContent(f.items[i], m.items[i]) {
          FillItemsAt(ditems, s, 0, i);
          MergeItemsAt(s.items, d, path, 0, None, i);
          if i < |ditems| && i < |s.items| {
            FillAgreesWithMerge(ditems[i], s.items[i], path + [NatToString(i)]);
          } else if i < |ditems| {
            MergeOntoNothing(ditems[i], path + [NatToString(i)]);
            SameContentRefl(ditems[i]);
          } else {
            SameContentRefl(s.items[i]);
          }
        }
      } else {
        assert m == MergeDefault(None, d, path, None);
        MergeOntoNothing(d, path);
        SameContentRefl(d);
      }
    case _ =>
  }

  // ---------------------------------------------------------------- well-formedness

  lemma DistinctConcat(a: seq<string>, b: seq<string>)
    requires Distinct(a) && Distinct(b)
    requires forall x :: x in a ==> x !in b
    ensures Distinct(a + b)
  {
    var c := a + b;
    forall i, j | 0 <= i < j < |c| ensures c[i] != c[j] {
      if j < |a| {
      } else if i >= |a| {
        assert c[i] == b[i - |a|] && c[j] == b[j - |a|];
      } else {
        assert c[i] == a[i] && a[i] in a;
        assert c[j] == b[j - |a|] && b[j - |a|] in b;
      }
    }
  }

  lemma {:induction false} NewKeysDistinct(ks: seq<string>, present: map<string, Json>)
    requires Distinct(ks)
    ensures Distinct(NewKeys(ks, present))
  {
    if ks != [] {
      var t := ks[1..];
      assert Distinct(t) by {
        forall i, j | 0 <= i < j < |t| ensures t[i] != t[j] { assert t[i] == ks[i + 1] && t[j] == ks[j + 1]; }
      }
      NewKeysDistinct(t, present);
      assert ks[0] !in t by {
        forall i | 0 <= i < |t| ensures t[i] != ks[0] { assert t[i] == ks[i + 1]; }
      }
      var head := if ks[0] in present then [] else [ks[0]];
      DistinctConcat(head, NewKeys(t, present));
    }
  }

  /** The keys of a merged (or filled) object: the destination's, then the new ones, each once. */
  lemma CombinedKeysWf(dst: Json, src: Json, fields: map<string, Json>)
    requires dst.Obj? && src.Obj? && Wf(dst) && Wf(src)
    requires fields.Keys == dst.fields.Keys + src.fields.Keys
    ensures Distinct(dst.keys + NewKeys(src.keys, dst.fields))
    ensures forall k :: k in fields <==> k in dst.keys + NewKeys(src.keys, dst.fields)
  {
    NewKeysDistinct(src.keys, dst.fields);
    DistinctConcat(dst.keys, NewKeys(src.keys, dst.fields));
  }

  /** Merging well-formed trees gives a well-formed tree, provided the customizer's answers are. */
  lemma {:induction false} MergeValueWf(dst: Option<Json>, src: Json, path: seq<string>, cust: Option<Customizer>)
    requires path != []
    requires Wf(src) && (dst.Some? ==> Wf(dst.value)) && CustomizerKeepsWf(cust)
    ensures Wf(MergeValue(dst, src, path, cust))
    decreases src, 2, 0
  {
    var answer := if cust.Some? then cust.value(dst, src, path[|path| - 1], JoinWith(path, '.')) else None;
    if answer.None? {
      MergeDefaultWf(dst, src, path, cust);
    }
  }

  lemma {:induction false} MergeDefaultWf(dst: Option<Json>, src: Json, path: seq<string>, cust: Option<Customizer>)
    requires Wf(src) && (dst.Some? ==> Wf(dst.value)) && CustomizerKeepsWf(cust)
    ensures Wf(MergeDefault(dst, src, path, cust))
    decreases src, 1, 0
  {
    match src
    case Obj(_, _) =>
      MergeObjectWf(if dst.Some? && dst.value.Obj? then dst.value else Empty, src, path, cust);
    case Arr(items) =>
      var base := if dst.Some? && dst.value.Arr? then dst.value.items else [];
      var r := MergeItems(base, src, path, 0, cust);
      MergeItemsLength(base, src, path, 0, cust);
      forall i | 0 <= i < |r| ensures Wf(r[i]) {
        MergeItemsAt(base, src, path, 0, cust, i);
        if i < |items| {
          MergeValueWf(if i < |base| then Some(base[i]) else None, items[i], path + [NatToString(i)], cust);
        }
      }
    case _ =>
  }

  lemma {:induction false} MergeObjectWf(dst: Json, src: Json, path: seq<string>, cust: Option<Customizer>)
    requires dst.Obj? && src.Obj? && Wf(dst) && Wf(src) && CustomizerKeepsWf(cust)
    ensures Wf(MergeObject(dst, src, path, cust))
    decreases src, 0, 0
  {
    var r := MergeObject(dst, src, path, cust);
    CombinedKeysWf(dst, src, r.fields);
    forall k | k in r.fields ensures Wf(r.fields[k]) {
      if k in src.fields {
        MergeValueWf(Field(dst, k), src.fields[k], path + [k], cust);
      }
    }
  }

  /** Filling a well-formed config from a well-formed include gives a well-formed tree. */
  lemma {:induction false} FillWf(d: Json, s: Json)
    requires Wf(d) && Wf(s)
    ensures Wf(FillValue(d, s))
    decreases d
  {
    var r := FillValue(d, s);
    if d.Obj? && s.Obj? {
      assert r == FillObject(d, s);
      CombinedKeysWf(d, s, r.fields);
      forall k | k in r.fields ensures Wf(r.fields[k]) {
        if k in d.fields && k in s.fields {
          FillWf(d.fields[k], s.fields[k]);
        }
      }
    } else if d.Arr? && s.Arr? {
      FillItemsLength(d.items, s, 0);
      forall i | 0 <= i < |r.items| ensures Wf(r.items[i]) {
        FillItemsAt(d.items, s, 0, i);
        if i < |d.items| && i < |s.items| {
          FillWf(d.items[i], s.items[i]);
        }
      }
    }
  }
}
