/**
 * The request-body logic of two write endpoints of the backend: the
 * validation of a new watchlist entry and the column list of an alert
 * update. Database access, routing and clocks are outside the model; the
 * current time is a parameter.
 */
module Handlers {
  import opened Wrappers
  import opened Text
  import opened Symbols
  import opened Auth

  /**
   * A value of the decoded JSON body. Strings are kept; every other JSON value
   * (null, a boolean, a number, an array, an object) is represented by its
   * Python truth value and the text `str()` gives for it.
   */
  datatype Value = Str(s: string) | NonStr(truthy: bool, text: string)

  /** Python truthiness: the empty string is false. */
  predicate Truthy(v: Value)
  {
    match v
    case Str(s) => s != ""
    case NonStr(t, _) => t
  }

  /** `str(v or "")`: a falsy value becomes the empty string, any other its `str()` text. */
  function TextOrEmpty(v: Value): string
  {
    if !Truthy(v) then ""
    else match v
      case Str(s) => s
      case NonStr(_, text) => text
  }

  /** The error responses of the two endpoints. */
  datatype ApiError =
    | Unauthorized     // 401 {"error": "unauthorized"}
    | SymbolRequired   // 400 {"error": "symbol required"}
    | NoFields         // 400 {"error": "no fields"}
    | NotAString       // Python raises AttributeError when `.strip()` meets a truthy non-string: 500

  /** The JSON body: `request.get_json(silent=True) or {}`. */
  type Body = map<string, Value>

  /** `(data.get(key) or "").strip()`. */
  function FieldText(data: Body, key: string): Result<string, ApiError>
  {
    if key !in data || !Truthy(data[key]) then Ok("")
    else match data[key]
      case Str(s) => Ok(Strip(s))
      case NonStr(_, _) => Err(NotAString)
  }

  /** The values inserted for a new watchlist entry. */
  datatype WatchRow = WatchRow(symbol: string, symbolNorm: string, labelText: string, createdTs: int, updatedTs: int)

  /** `watchlist` for POST, up to the INSERT: authorise, read and strip `symbol` and `label`, reject a blank symbol, normalise. */
  function WatchlistPost(auth: string, apiToken: string, data: Body, nowTs: int): Result<WatchRow, ApiError>
  {
    if !RequireToken(auth, apiToken) then Err(Unauthorized)
    else match FieldText(data, "symbol")
      case Err(e) => Err(e)
      case Ok(sym) =>
        match FieldText(data, "label")
        case Err(e) => Err(e)
        case Ok(labelText) =>
          if sym == "" then Err(SymbolRequired)
          else Ok(WatchRow(sym, Normalize(sym), labelText, nowTs, nowTs))
  }

  /** `(data.get(key) or "")` is a string, so `.strip()` can be applied to it. */
  predicate StringOrFalsy(data: Body, key: string)
  {
    key !in data || !Truthy(data[key]) || data[key].Str?
  }

  /** The field is missing, falsy, or a string of whitespace only. */
  predicate BlankField(data: Body, key: string)
  {
    key !in data || !Truthy(data[key]) || (data[key].Str? && Strip(data[key].s) == "")
  }

  /**
   * The outcomes of a watchlist POST: unauthorised requests are refused first,
   * a non-string symbol or label fails, a blank symbol is refused before it is
   * normalised, and an accepted entry stores the stripped symbol next to its
   * non-empty normal form.
   */
  lemma WatchlistPostOutcomes(auth: string, apiToken: string, data: Body, nowTs: int)
    ensures var r := WatchlistPost(auth, apiToken, data, nowTs);
      && (r == Err(Unauthorized) <==> !RequireToken(auth, apiToken))
      && (r == Err(NotAString) <==>
            RequireToken(auth, apiToken) && !(StringOrFalsy(data, "symbol") && StringOrFalsy(data, "label")))
      && (r == Err(SymbolRequired) <==>
            RequireToken(auth, apiToken) && StringOrFalsy(data, "symbol") && StringOrFalsy(data, "label")
            && BlankField(data, "symbol"))
      && (r.Err? ==> r.error != NoFields)
      && (r.Ok? <==>
            RequireToken(auth, apiToken) && StringOrFalsy(data, "symbol") && StringOrFalsy(data, "label")
            && !BlankField(data, "symbol"))
      && (r.Ok? ==>
            && "symbol" in data && data["symbol"].Str?
            && r.value.symbol == Strip(data["symbol"].s)
            && r.value.symbol != [] && IsTrimmed(r.value.symbol)
            && r.value.symbolNorm == Normalize(r.value.symbol)
            && r.value.symbolNorm != [] && Normalize(r.value.symbolNorm) == r.value.symbolNorm
            && r.value.labelText == (if "label" in data && Truthy(data["label"]) then Strip(data["label"].s) else "")
            && IsTrimmed(r.value.labelText)
            && r.value.createdTs == nowTs && r.value.updatedTs == nowTs)
  {
    var r := WatchlistPost(auth, apiToken, data, nowTs);
    if r.Ok? {
      var sym := r.value.symbol;
      StripSpec(data["symbol"].s);
      StripTrimmed(sym);
      NormalizeNonEmpty(sym);
      NormalizeIdempotent(sym);
      if "label" in data && Truthy(data["label"]) {
        StripSpec(data["label"].s);
      }
    }
  }

  /**
   * The UPDATE an alert PATCH issues: the names of the columns it sets (each
   * stands for its `<name>=?` fragment of the SET clause) and the parameters.
   */
  datatype Update = Update(fields: seq<string>, params: seq<Param>)

  /** An SQL parameter: the backend binds integers and strings. */
  datatype Param = PInt(n: int) | PText(s: string)

  /** The keys a PATCH may change, in the order the handler looks at them. */
  const Editable: seq<string> := ["enabled", "name", "cond"]

  /** The parameter bound for an edited key: `enabled` as 1 or 0 by truthiness, the others as text. */
  function ParamFor(key: string, v: Value): Param
  {
    if key == "enabled" then PInt(if Truthy(v) then 1 else 0) else PText(TextOrEmpty(v))
  }

  /** The keys of `keys` that are present in `data`, in the order of `keys`. */
  function Edits(keys: seq<string>, data: Body): seq<string>
  {
    if keys == [] then []
    else (if keys[0] in data then [keys[0]] else []) + Edits(keys[1..], data)
  }

  /** The parameter of each key of `keys` present in `data`, from its value there. */
  function Bindings(keys: seq<string>, data: Body): seq<Param>
  {
    if keys == [] then []
    else (if keys[0] in data then [ParamFor(keys[0], data[keys[0]])] else []) + Bindings(keys[1..], data)
  }

  /** `xs` is `ys` with some elements left out. */
  predicate IsSubsequence(xs: seq<string>, ys: seq<string>)
  {
    if xs == [] then true
    else if ys == [] then false
    else if xs[0] == ys[0] then IsSubsequence(xs[1..], ys[1..])
    else IsSubsequence(xs, ys[1..])
  }

  /** `Edits` keeps exactly the present keys, in their original order. */
  lemma {:induction false} EditsSpec(keys: seq<string>, data: Body)
    ensures forall k :: k in Edits(keys, data) <==> k in keys && k in data
    ensures IsSubsequence(Edits(keys, data), keys)
    ensures Edits(keys, data) == [] <==> forall k :: k in keys ==> k !in data
    ensures |Edits(keys, data)| <= |keys|
  {
    if keys != [] {
      EditsSpec(keys[1..], data);
      assert keys == [keys[0]] + keys[1..];
      var rest := Edits(keys[1..], data);
      if keys[0] !in data {
        assert Edits(keys, data) == rest;
        SubsequenceSkip(rest, keys);
      } else {
        assert Edits(keys, data) == [keys[0]] + rest;
      }
    }
  }

  /** A subsequence of the tail of `ys` is a subsequence of `ys`. */
  lemma {:induction false} SubsequenceSkip(xs: seq<string>, ys: seq<string>)
    requires ys != [] && IsSubsequence(xs, ys[1..])
    ensures IsSubsequence(xs, ys)
    decreases |ys|, 0
  {
    if xs != [] && xs[0] == ys[0] {
      SubsequenceDropHead(xs, ys[1..]);
    }
  }

  /** Leaving out the first element of a subsequence keeps it a subsequence. */
  lemma {:induction false} SubsequenceDropHead(xs: seq<string>, zs: seq<string>)
    requires xs != [] && IsSubsequence(xs, zs)
    ensures IsSubsequence(xs[1..], zs)
    decreases |zs|, 1
  {
    if xs[0] == zs[0] {
      SubsequenceSkip(xs[1..], zs);
    } else {
      SubsequenceDropHead(xs, zs[1..]);
      SubsequenceSkip(xs[1..], zs);
    }
  }

  /** One parameter per edited key, at the same position, bound from that key's value. */
  lemma {:induction false} BindingsAlign(keys: seq<string>, data: Body)
    ensures |Bindings(keys, data)| == |Edits(keys, data)|
    ensures forall i :: 0 <= i < |Edits(keys, data)| ==>
      Edits(keys, data)[i] in data
      && Bindings(keys, data)[i] == ParamFor(Edits(keys, data)[i], data[Edits(keys, data)[i]])
  {
    if keys != [] {
      BindingsAlign(keys[1..], data);
      if keys[0] in data {
        assert Edits(keys, data) == [keys[0]] + Edits(keys[1..], data);
        assert Bindings(keys, data) == [ParamFor(keys[0], data[keys[0]])] + Bindings(keys[1..], data);
      } else {
        assert Edits(keys, data) == Edits(keys[1..], data);
        assert Bindings(keys, data) == Bindings(keys[1..], data);
      }
    }
  }

  /** Keys outside `keys` do not affect what is edited or bound. */
  lemma {:induction false} OtherKeysIgnored(keys: seq<string>, d1: Body, d2: Body)
    requires forall k :: k in keys ==> (k in d1 <==> k in d2) && (k in d1 ==> d1[k] == d2[k])
    ensures Edits(keys, d1) == Edits(keys, d2)
    ensures Bindings(keys, d1) == Bindings(keys, d2)
  {
    if keys != [] {
      OtherKeysIgnored(keys[1..], d1, d2);
    }
  }

  /** The edits of a PATCH, spelled out for the three editable keys. */
  lemma EditableUnfolded(data: Body)
    ensures Edits(Editable, data) ==
      (if "enabled" in data then ["enabled"] else [])
      + (if "name" in data then ["name"] else [])
      + (if "cond" in data then ["cond"] else [])
    ensures Bindings(Editable, data) ==
      (if "enabled" in data then [ParamFor("enabled", data["enabled"])] else [])
      + (if "name" in data then [ParamFor("name", data["name"])] else [])
      + (if "cond" in data then [ParamFor("cond", data["cond"])] else [])
  {
    assert Editable[1..] == ["name", "cond"] && ["name", "cond"][1..] == ["cond"] && ["cond"][1..] == [];
    var a := if "enabled" in data then ["enabled"] else [];
    var b := if "name" in data then ["name"] else [];
    var c := if "cond" in data then ["cond"] else [];
    assert Edits(["cond"], data) == c;
    assert Edits(["name", "cond"], data) == b + c;
    assert Edits(Editable, data) == a + (b + c);
    var pa := if "enabled" in data then [ParamFor("enabled", data["enabled"])] else [];
    var pb := if "name" in data then [ParamFor("name", data["name"])] else [];
    var pc := if "cond" in data then [ParamFor("cond", data["cond"])] else [];
    assert Bindings(["cond"], data) == pc;
    assert Bindings(["name", "cond"], data) == pb + pc;
    assert Bindings(Editable, data) == pa + (pb + pc);
  }

  /**
   * The body of `alerts_patch` after authorisation: one column and one
   * parameter per editable key present, an empty edit refused, then the
   * update time, the alert id and the user id 0 appended.
   */
  method BuildUpdate(data: Body, aid: int, nowTs: int) returns (r: Result<Update, ApiError>)
    ensures r == Err(NoFields) <==> forall k :: k in Editable ==> k !in data
    ensures r.Err? ==> r.error == NoFields
    ensures r.Ok? ==>
      r.value.fields == Edits(Editable, data) + ["updated_ts"]
      && r.value.params == Bindings(Editable, data) + [PInt(nowTs), PInt(aid), PInt(0)]
    ensures r.Ok? ==>
      2 <= |r.value.fields| <= 4 && |r.value.params| == |r.value.fields| + 2
  {
    var fields: seq<string> := [];
    var params: seq<Param> := [];
    if "enabled" in data {
      fields := fields + ["enabled"];
      params := params + [PInt(if Truthy(data["enabled"]) then 1 else 0)];
    }
    if "name" in data {
      fields := fields + ["name"];
      params := params + [PText(TextOrEmpty(data["name"]))];
    }
    if "cond" in data {
      fields := fields + ["cond"];
      params := params + [PText(TextOrEmpty(data["cond"]))];
    }
    assert |fields| == |params| <= 3;
    EditableUnfolded(data);
    assert fields == Edits(Editable, data) && params == Bindings(Editable, data);
    assert fields == [] <==> forall k :: k in Editable ==> k !in data;
    if fields == [] {
      return Err(NoFields);
    }
    fields := fields + ["updated_ts"];
    params := params + [PInt(nowTs)];
    params := params + [PInt(aid), PInt(0)];
    return Ok(Update(fields, params));
  }

  /** `alerts_patch` up to the UPDATE: an unauthorised request is refused before the body is read. */
  method AlertsPatch(auth: string, apiToken: string, data: Body, aid: int, nowTs: int)
    returns (r: Result<Update, ApiError>)
    ensures !RequireToken(auth, apiToken) ==> r == Err(Unauthorized)
    ensures r.Err? ==> r.error == (if RequireToken(auth, apiToken) then NoFields else Unauthorized)
    ensures RequireToken(auth, apiToken) ==>
      (r == Err(NoFields) <==> forall k :: k in Editable ==> k !in data)
    ensures r.Ok? ==>
      RequireToken(auth, apiToken)
      && r.value.fields == Edits(Editable, data) + ["updated_ts"]
      && r.value.params == Bindings(Editable, data) + [PInt(nowTs), PInt(aid), PInt(0)]
  {
    if !RequireToken(auth, apiToken) {
      return Err(Unauthorized);
    }
    r := BuildUpdate(data, aid, nowTs);
  }

  /** `enabled` is bound as 1 or 0 by truthiness; `name` and `cond` as text, with a falsy value as the empty string. */
  lemma ParamForSpec(key: string, v: Value)
    ensures ParamFor(key, v).PInt? <==> key == "enabled"
    ensures key == "enabled" ==> ParamFor(key, v) == PInt(if Truthy(v) then 1 else 0)
    ensures key != "enabled" && !Truthy(v) ==> ParamFor(key, v) == PText("")
    ensures key != "enabled" && v.Str? ==> ParamFor(key, v) == PText(v.s)
  {
  }

  /** With `enabled` in the body, the first column set is `enabled` and its parameter is the 0/1 flag. */
  lemma EnabledComesFirst(data: Body)
    requires "enabled" in data
    ensures |Edits(Editable, data)| >= 1 && Edits(Editable, data)[0] == "enabled"
    ensures |Bindings(Editable, data)| >= 1
      && Bindings(Editable, data)[0] == PInt(if Truthy(data["enabled"]) then 1 else 0)
  {
    EditableUnfolded(data);
  }
}
