/**
 * `_convertTo` and `_resolveEnvironmentVariable` (core/config_loader.js:102-162):
 * turning the text of an environment variable into a configuration value.
 * `JSON.parse` is a parameter (`parseJson`, `None` where it throws), the
 * process environment a map.
 */
module Environment {
  import opened Wrappers
  import opened Strings
  import opened Json
  import opened Faults

  /** The types whose branch calls `moment`, which the loader never imports. */
  predicate IsDateType(t: string)
  {
    t == "date" || t == "time" || t == "datetime" || t == "timestamp"
  }

  /**
   * `_convertTo(value, type)`. Booleans compare the lower-cased text with
   * "true"; numbers go through `parseInt` and stay text when that is NaN;
   * objects go through `JSON.parse` and stay text when it throws; the date
   * types throw a `ReferenceError` because `moment` is not bound; "regex",
   * any other type and no type at all leave the text as it is.
   */
  function ConvertTo(value: string, typ: Option<string>, parseJson: string -> Option<Json>): (r: Result<Json, Fault>)
    ensures r.Err? <==> typ.Some? && IsDateType(typ.value)
    ensures r.Err? ==> r.error == ReferenceError("moment")
    ensures typ.Some? && (typ.value == "bool" || typ.value == "boolean") ==>
      r.Ok? && r.value.Bool? && (r.value.b <==> LowerAscii(value) == "true")
    ensures typ.Some? && typ.value == "number" && ParseInt(value).Some? ==> r == Ok(Num(ParseInt(value).value))
    ensures typ.Some? && typ.value == "number" && ParseInt(value).None? ==> r == Ok(Str(value))
    ensures typ.Some? && typ.value == "object" && parseJson(value).Some? ==> r == Ok(parseJson(value).value)
    ensures typ.Some? && typ.value == "object" && parseJson(value).None? ==> r == Ok(Str(value))
    ensures !Known(typ) ==> r == Ok(Str(value))
  {
    if typ.None? then Ok(Str(value))
    else
      var t := typ.value;
      if t == "bool" || t == "boolean" then Ok(Bool(LowerAscii(value) == "true"))
      else if t == "number" then
        match ParseInt(value)
        case None => Ok(Str(value))
        case Some(n) => Ok(Num(n))
      else if t == "object" then
        match parseJson(value)
        case None => Ok(Str(value))
        case Some(j) => Ok(j)
      else if IsDateType(t) then Err(ReferenceError("moment"))
      else Ok(Str(value))
  }

  /** A type with a `case` of its own that changes the value. */
  predicate Known(typ: Option<string>)
  {
    typ.Some? && (typ.value in {"bool", "boolean", "number", "object"} || IsDateType(typ.value))
  }

  /** `value.split(',').map(v => this._convertTo(v, type))`: the first throw ends the map. */
  function ConvertAll(parts: seq<string>, typ: Option<string>, parseJson: string -> Option<Json>): (r: Result<seq<Json>, Fault>)
    ensures r.Ok? ==>
              |r.value| == |parts| && forall i :: 0 <= i < |parts| ==> ConvertTo(parts[i], typ, parseJson) == Ok(r.value[i])
    ensures r.Err? ==> exists i :: 0 <= i < |parts| && ConvertTo(parts[i], typ, parseJson) == Err(r.error)
                                 && forall j :: 0 <= j < i ==> ConvertTo(parts[j], typ, parseJson).Ok?
  {
    if parts == [] then Ok([])
    else
      match ConvertTo(parts[0], typ, parseJson)
      case Err(e) => Err(e)
      case Ok(v) =>
        match ConvertAll(parts[1..], typ, parseJson)
        case Err(e) =>
          // Whether a conversion throws depends on the type alone.
          assert false; Err(e)
        case Ok(vs) => Ok([v] + vs)
  }

  /** Field `i` of `spec.split(':')`, `undefined` past the end. */
  function Part(parts: seq<string>, i: nat): Option<string>
  {
    if i < |parts| then Some(parts[i]) else None
  }

  /**
   * `_resolveEnvironmentVariable(spec)`. The spec is split on ':' and read
   * positionally: field 0 is the "@environment" marker, field 1 the
   * variable, field 2 the type and field 3 the "array" flag. A missing or
   * empty variable name, or an unset or empty variable, yields `undefined`
   * (`Ok(None)`); a conversion that throws propagates (`Err`).
   */
  function ResolveEnvironmentVariable(spec: string, env: map<string, string>, parseJson: string -> Option<Json>): (r: Result<Option<Json>, Fault>)
    ensures var parts := Split(spec, ':');
      r != Ok(None) ==> |parts| >= 2 && parts[1] != "" && parts[1] in env && env[parts[1]] != ""
    ensures var parts := Split(spec, ':');
      r.Ok? && r.value.Some? && Part(parts, 3) == Some("array") ==>
        r.value.value.Arr? && ConvertAll(Split(env[parts[1]], ','), Part(parts, 2), parseJson) == Ok(r.value.value.items)
    ensures var parts := Split(spec, ':');
      r.Ok? && r.value.Some? && Part(parts, 3) != Some("array") ==>
        ConvertTo(env[parts[1]], Part(parts, 2), parseJson) == Ok(r.value.value)
    ensures var parts := Split(spec, ':');
      |parts| >= 2 && parts[1] != "" && parts[1] in env && env[parts[1]] != "" && Part(parts, 3) == Some("array") ==>
        r != Ok(None) && (r.Err? ==> ConvertAll(Split(env[parts[1]], ','), Part(parts, 2), parseJson) == Err(r.error))
    ensures var parts := Split(spec, ':');
      |parts| >= 2 && parts[1] != "" && parts[1] in env && env[parts[1]] != "" && Part(parts, 3) != Some("array") ==>
        r != Ok(None) && (r.Err? ==> ConvertTo(env[parts[1]], Part(parts, 2), parseJson) == Err(r.error))
  {
    var parts := Split(spec, ':');
    var name := Part(parts, 1);
    if name.None? || name.value == "" then Ok(None)
    else if name.value !in env || env[name.value] == "" then Ok(None)
    else
      var value := env[name.value];
      var typ := Part(parts, 2);
      if Part(parts, 3) == Some("array") then
        match ConvertAll(Split(value, ','), typ, parseJson)
        case Err(e) => Err(e)
        case Ok(vs) => Ok(Some(Arr(vs)))
      else
        match ConvertTo(value, typ, parseJson)
        case Err(e) => Err(e)
        case Ok(v) => Ok(Some(v))
  }

  // ---------------------------------------------------------------- properties

  /** The text of a number converts back to that number. */
  lemma NumberRoundTrip(i: int, parseJson: string -> Option<Json>)
    ensures ConvertTo(IntToString(i), Some("number"), parseJson) == Ok(Num(i))
  {
    ParseIntOfIntToString(i, []);
    assert IntToString(i) + [] == IntToString(i);
  }

  /** The text of a boolean converts back to that boolean. */
  lemma BoolRoundTrip(b: bool, parseJson: string -> Option<Json>)
    ensures ConvertTo(if b then "true" else "false", Some("bool"), parseJson) == Ok(Bool(b))
  {
    var s := if b then "true" else "false";
    assert LowerAscii(s) == s;
  }

  /** Boolean conversion ignores letter case. */
  lemma BoolIgnoresCase(v: string, w: string, typ: string, parseJson: string -> Option<Json>)
    requires typ == "bool" || typ == "boolean"
    requires LowerAscii(v) == LowerAscii(w)
    ensures ConvertTo(v, Some(typ), parseJson) == ConvertTo(w, Some(typ), parseJson)
  {
  }

  /**
   * A spec without a variable name, or naming a variable that is unset or
   * empty, resolves to `undefined`, whatever its type.
   */
  lemma UnsetVariable(spec: string, env: map<string, string>, parseJson: string -> Option<Json>)
    ensures var parts := Split(spec, ':');
      (|parts| < 2 || parts[1] == "" || parts[1] !in env || env[parts[1]] == "") ==>
        ResolveEnvironmentVariable(spec, env, parseJson) == Ok(None)
  {
  }

  /** Only a date type can make the resolution throw. */
  lemma OnlyDatesThrow(spec: string, env: map<string, string>, parseJson: string -> Option<Json>)
    requires ResolveEnvironmentVariable(spec, env, parseJson).Err?
    ensures |Split(spec, ':')| >= 3 && IsDateType(Split(spec, ':')[2])
  {
    var parts := Split(spec, ':');
    var value := env[parts[1]];
    if Part(parts, 3) == Some("array") {
      var e := ConvertAll(Split(value, ','), Part(parts, 2), parseJson);
      var i :| 0 <= i < |Split(value, ',')| && ConvertTo(Split(value, ',')[i], Part(parts, 2), parseJson) == Err(e.error);
    }
  }

  /** The text of a number contains no comma. */
  lemma IntToStringNoComma(i: int)
    ensures ',' !in IntToString(i)
  {
    var n := NatToString(if i < 0 then -i else i);
    assert forall k :: 0 <= k < |n| ==> IsDigit(n[k]);
  }

  lemma ConvertNumbers(xs: seq<int>, parseJson: string -> Option<Json>)
    ensures ConvertAll(seq(|xs|, k requires 0 <= k < |xs| => IntToString(xs[k])), Some("number"), parseJson)
      == Ok(seq(|xs|, k requires 0 <= k < |xs| => Num(xs[k])))
  {
    var parts := seq(|xs|, k requires 0 <= k < |xs| => IntToString(xs[k]));
    var r := ConvertAll(parts, Some("number"), parseJson);
    forall k | 0 <= k < |xs| ensures ConvertTo(parts[k], Some("number"), parseJson) == Ok(Num(xs[k])) {
      NumberRoundTrip(xs[k], parseJson);
    }
    assert r.Ok?;
    assert r.value == seq(|xs|, k requires 0 <= k < |xs| => Num(xs[k]));
  }

  /** `@environment:NAME:number` with NAME set to the text of a number gives that number. */
  lemma NumberVariable(name: string, i: int, env: map<string, string>, parseJson: string -> Option<Json>)
    requires name != "" && ':' !in name
    requires name in env && env[name] == IntToString(i)
    ensures ResolveEnvironmentVariable(JoinWith(["@environment", name, "number"], ':'), env, parseJson) == Ok(Some(Num(i)))
  {
    SplitJoin(["@environment", name, "number"], ':');
    assert IntToString(i) != "";
    NumberRoundTrip(i, parseJson);
  }

  /**
   * `@environment:NAME:number:array` with NAME set to comma-separated
   * numbers gives the array of those numbers.
   */
  lemma NumberArrayVariable(name: string, xs: seq<int>, env: map<string, string>, parseJson: string -> Option<Json>)
    requires name != "" && ':' !in name && xs != []
    requires name in env && env[name] == JoinWith(seq(|xs|, k requires 0 <= k < |xs| => IntToString(xs[k])), ',')
    ensures ResolveEnvironmentVariable(JoinWith(["@environment", name, "number", "array"], ':'), env, parseJson)
         == Ok(Some(Arr(seq(|xs|, k requires 0 <= k < |xs| => Num(xs[k])))))
  {
    SplitJoin(["@environment", name, "number", "array"], ':');
    var parts := seq(|xs|, k requires 0 <= k < |xs| => IntToString(xs[k]));
    forall k | 0 <= k < |parts| ensures ',' !in parts[k] { IntToStringNoComma(xs[k]); }
    SplitJoin(parts, ',');
    NonEmptyJoin(parts, ',');
    ConvertNumbers(xs, parseJson);
  }

  lemma NonEmptyJoin(parts: seq<string>, sep: char)
    requires parts != [] && parts[0] != ""
    ensures JoinWith(parts, sep) != ""
  {
    if |parts| > 1 {
      assert JoinWith(parts, sep) == parts[0] + [sep] + JoinWith(parts[1..], sep);
    }
  }

  /**
   * The second field is the variable: in `@environment:PREFIX:PORT:number`
   * the variable read is PREFIX and PORT is taken as its type, so when
   * PORT names no known type the text of PREFIX comes back unconverted.
   */
  lemma SecondFieldIsTheVariable(prefix: string, port: string, env: map<string, string>, parseJson: string -> Option<Json>)
    requires prefix != "" && ':' !in prefix && ':' !in port
    requires prefix in env && env[prefix] != ""
    requires !Known(Some(port))
    ensures ResolveEnvironmentVariable(JoinWith(["@environment", prefix, port, "number"], ':'), env, parseJson)
         == Ok(Some(Str(env[prefix])))
  {
    SplitJoin(["@environment", prefix, port, "number"], ':');
  }

  /** `JSON.parse` yields well-formed values. */
  ghost predicate ParserWf(parseJson: string -> Option<Json>)
  {
    forall t :: parseJson(t).Some? ==> Wf(parseJson(t).value)
  }

  /** An environment variable resolves to a well-formed value. */
  lemma ResolveEnvironmentVariableWf(spec: string, env: map<string, string>, parseJson: string -> Option<Json>)
    requires ParserWf(parseJson)
    requires ResolveEnvironmentVariable(spec, env, parseJson).Ok?
    requires ResolveEnvironmentVariable(spec, env, parseJson).value.Some?
    ensures Wf(ResolveEnvironmentVariable(spec, env, parseJson).value.value)
  {
    var parts := Split(spec, ':');
    var value := env[parts[1]];
    if Part(parts, 3) == Some("array") {
      var vs := ConvertAll(Split(value, ','), Part(parts, 2), parseJson).value;
      forall i | 0 <= i < |vs| ensures Wf(vs[i]) {
        assert ConvertTo(Split(value, ',')[i], Part(parts, 2), parseJson) == Ok(vs[i]);
      }
    }
  }
}
