/** The rewriting of tool parameter schemas: keywords the upstream refuses are removed and arrays get an
    `items`, at every position where a schema stands inside a schema. */
module SchemaSanitizer {
  import opened Wrappers

  datatype Json =
    | Null
    | Bool(b: bool)
    | Number(n: int)
    | Str(s: string)
    | Arr(elems: seq<Json>)
    | Obj(fields: map<string, Json>)

  predicate Unsupported(key: string) {
    key in {"uniqueItems", "minItems", "maxItems", "minimum", "maximum", "exclusiveMinimum", "exclusiveMaximum",
            "multipleOf", "pattern", "minLength", "maxLength", "format", "minProperties", "maxProperties"}
  }

  /** What stands under a keyword: a map of schemas by name, one schema, a list of schemas, or plain data. */
  datatype Position = SchemaMap | OneSchema | SchemaList | PlainData

  function PositionOf(key: string): Position {
    if key in {"properties", "$defs"} then SchemaMap
    else if key in {"items", "additionalProperties"} then OneSchema
    else if key in {"allOf", "anyOf", "oneOf"} then SchemaList
    else PlainData
  }

  lemma PositionsAreSupported(key: string)
    ensures Unsupported(key) ==> PositionOf(key) == PlainData
    ensures PositionOf("items") == OneSchema && PositionOf("type") == PlainData && !Unsupported("type")
  {
  }

  /** The schema says `"type": "array"`, alone or in a list of types. */
  predicate DeclaresArray(fields: map<string, Json>) {
    && "type" in fields
    && match fields["type"] {
         case Str(s) => s == "array"
         case Arr(elems) => Str("array") in elems
         case _ => false
       }
  }

  // ---------------------------------------------------------------- the two passes

  datatype Pass = StripKeys | AddItems

  /** Which keys a schema has after a pass. */
  function KeysAfter(pass: Pass, fields: map<string, Json>): set<string> {
    match pass
    case StripKeys => set k | k in fields && !Unsupported(k)
    case AddItems => fields.Keys + if DeclaresArray(fields) then {"items"} else {}
  }

  function Rewrite(pass: Pass, v: Json): Json
    decreases v, 0
  {
    match v
    case Obj(fields) =>
      Obj(map k | k in KeysAfter(pass, fields) :: if k in fields then RewriteAt(pass, k, fields[k]) else Obj(map[]))
    case _ => v
  }

  function RewriteAt(pass: Pass, key: string, v: Json): Json
    decreases v, 1
  {
    match (PositionOf(key), v)
    case (SchemaMap, Obj(named)) => Obj(map name | name in named :: Rewrite(pass, named[name]))
    case (OneSchema, _) => Rewrite(pass, v)
    case (SchemaList, Arr(elems)) => Arr(seq(|elems|, i requires 0 <= i < |elems| => Rewrite(pass, elems[i])))
    case _ => v
  }

  /** sanitizeSchemaForUpstream: first the keywords go, then arrays get their items. */
  function Sanitize(v: Json): Json {
    Rewrite(AddItems, Rewrite(StripKeys, v))
  }

  // ---------------------------------------------------------------- positions

  datatype Step = Named(key: string, name: string) | Under(key: string) | Listed(key: string, index: nat)

  /** The schema one step below `v`, if there is one. */
  function Child(v: Json, step: Step): Option<Json> {
    if !v.Obj? || step.key !in v.fields then None
    else
      var w := v.fields[step.key];
      match (step, PositionOf(step.key))
      case (Named(_, name), SchemaMap) => if w.Obj? && name in w.fields then Some(w.fields[name]) else None
      case (Under(_), OneSchema) => Some(w)
      case (Listed(_, i), SchemaList) => if w.Arr? && i < |w.elems| then Some(w.elems[i]) else None
      case _ => None
  }

  function At(v: Json, path: seq<Step>): Option<Json> {
    if path == [] then Some(v)
    else
      var c := Child(v, path[0]);
      if c.None? then None else At(c.value, path[1..])
  }

  /** Nothing at this position is refused upstream: no unsupported keyword, and every array has items. */
  predicate Acceptable(v: Json) {
    v.Obj? ==> (forall k | k in v.fields :: !Unsupported(k)) && (DeclaresArray(v.fields) ==> "items" in v.fields)
  }

  ghost predicate AcceptableEverywhere(v: Json) {
    forall path: seq<Step> :: At(v, path).Some? ==> Acceptable(At(v, path).value)
  }

  // ---------------------------------------------------------------- a pass works position by position

  lemma ChildAfterPass(pass: Pass, v: Json, step: Step)
    ensures Child(v, step).Some? ==> Child(Rewrite(pass, v), step) == Some(Rewrite(pass, Child(v, step).value))
    ensures Child(v, step).None? ==> Child(Rewrite(pass, v), step) in {None, Some(Obj(map[]))}
    ensures Child(v, step).None? && Child(Rewrite(pass, v), step).Some? ==>
      pass == AddItems && step == Under("items") && v.Obj? && DeclaresArray(v.fields) && "items" !in v.fields
  {
    PositionsAreSupported(step.key);
    hide Unsupported, PositionOf, DeclaresArray;
  }

  lemma {:induction false} SanitizeNothing()
    ensures Sanitize(Obj(map[])) == Obj(map[])
  {
    assert KeysAfter(StripKeys, map[]) == {} && KeysAfter(AddItems, map[]) == {};
  }

  /** The position a step leads to is sanitised like a schema of its own; a new one can only be an empty `items`. */
  lemma SanitizedChild(v: Json, step: Step)
    ensures Child(v, step).Some? ==> Child(Sanitize(v), step) == Some(Sanitize(Child(v, step).value))
    ensures Child(v, step).None? ==> Child(Sanitize(v), step) in {None, Some(Obj(map[]))}
  {
    ChildAfterPass(StripKeys, v, step);
    ChildAfterPass(AddItems, Rewrite(StripKeys, v), step);
  }

  /** Sanitising commutes with going to a position: every position of the schema is still there, properties
      whose names are refused keywords included, and holds its own schema, sanitised. */
  lemma {:induction false} SanitizedAt(v: Json, path: seq<Step>)
    requires At(v, path).Some?
    ensures At(Sanitize(v), path) == Some(Sanitize(At(v, path).value))
    decreases |path|
  {
    hide Sanitize, Child;
    if path != [] {
      SanitizedChild(v, path[0]);
      SanitizedAt(Child(v, path[0]).value, path[1..]);
    }
  }

  lemma PlainFieldKept(pass: Pass, fields: map<string, Json>, k: string)
    requires k in fields && k in KeysAfter(pass, fields) && PositionOf(k) == PlainData
    ensures Rewrite(pass, Obj(fields)).fields[k] == fields[k]
  {
    hide PositionOf, KeysAfter;
    assert RewriteAt(pass, k, fields[k]) == fields[k];
  }

  lemma DeclarationKept(pass: Pass, fields: map<string, Json>)
    ensures Rewrite(pass, Obj(fields)).Obj?
    ensures DeclaresArray(Rewrite(pass, Obj(fields)).fields) <==> DeclaresArray(fields)
  {
    PositionsAreSupported("type");
    if "type" in fields {
      PlainFieldKept(pass, fields, "type");
    }
  }

  lemma AcceptableHere(v: Json)
    ensures Acceptable(Sanitize(v))
  {
    if v.Obj? {
      var w := Rewrite(StripKeys, v);
      PositionsAreSupported("items");
      DeclarationKept(AddItems, w.fields);
      hide Unsupported, DeclaresArray;
      assert KeysAfter(AddItems, w.fields) == Sanitize(v).fields.Keys;
    }
  }

  /** After sanitising, no position at all holds an unsupported keyword or an array without items. */
  lemma {:induction false} AcceptableAt(v: Json, path: seq<Step>)
    requires At(Sanitize(v), path).Some?
    ensures Acceptable(At(Sanitize(v), path).value)
    decreases |path|
  {
    hide Sanitize, Child, Acceptable;
    if path == [] {
      AcceptableHere(v);
    } else {
      SanitizedChild(v, path[0]);
      SanitizeNothing();
      AcceptableAt(if Child(v, path[0]).Some? then Child(v, path[0]).value else Obj(map[]), path[1..]);
    }
  }

  lemma SanitizedIsAcceptable(v: Json)
    ensures AcceptableEverywhere(Sanitize(v))
  {
    forall path: seq<Step> | At(Sanitize(v), path).Some?
      ensures Acceptable(At(Sanitize(v), path).value)
    {
      AcceptableAt(v, path);
    }
  }

  lemma AcceptableChild(v: Json, step: Step)
    requires AcceptableEverywhere(v) && Child(v, step).Some?
    ensures AcceptableEverywhere(Child(v, step).value)
  {
    hide Acceptable, Child;
    var c := Child(v, step).value;
    forall path: seq<Step> | At(c, path).Some?
      ensures Acceptable(At(c, path).value)
    {
      assert ([step] + path)[1..] == path;
      assert At(v, [step] + path) == At(c, path);
    }
  }

  /** A pass changes nothing in a schema that is acceptable everywhere. */
  lemma {:induction false} AcceptableIsFixed(pass: Pass, v: Json)
    requires AcceptableEverywhere(v)
    ensures Rewrite(pass, v) == v
    decreases v, 0
  {
    if v.Obj? {
      assert At(v, []) == Some(v);
      forall k | k in v.fields
        ensures RewriteAt(pass, k, v.fields[k]) == v.fields[k]
      {
        AcceptableIsFixedAt(pass, v, k);
      }
      assert KeysAfter(pass, v.fields) == v.fields.Keys;
    }
  }

  lemma {:induction false} AcceptableIsFixedAt(pass: Pass, v: Json, k: string)
    requires AcceptableEverywhere(v) && v.Obj? && k in v.fields
    ensures RewriteAt(pass, k, v.fields[k]) == v.fields[k]
    decreases v.fields[k], 1
  {
    hide AcceptableEverywhere, Rewrite;
    var w := v.fields[k];
    match (PositionOf(k), w)
    case (SchemaMap, Obj(named)) =>
      forall name | name in named
        ensures Rewrite(pass, named[name]) == named[name]
      {
        AcceptableChild(v, Named(k, name));
        AcceptableIsFixed(pass, named[name]);
      }
    case (OneSchema, _) =>
      AcceptableChild(v, Under(k));
      AcceptableIsFixed(pass, w);
    case (SchemaList, Arr(elems)) =>
      forall i | 0 <= i < |elems|
        ensures Rewrite(pass, elems[i]) == elems[i]
      {
        AcceptableChild(v, Listed(k, i));
        AcceptableIsFixed(pass, elems[i]);
      }
    case _ =>
  }

  /** Sanitising leaves a schema alone exactly when there is nothing to object to, so doing it again does nothing. */
  lemma SanitizeFixesExactlyTheAcceptable(v: Json)
    ensures Sanitize(v) == v <==> AcceptableEverywhere(v)
    ensures Sanitize(Sanitize(v)) == Sanitize(v)
  {
    SanitizedIsAcceptable(v);
    AcceptableIsFixed(StripKeys, Sanitize(v));
    AcceptableIsFixed(AddItems, Sanitize(v));
    if AcceptableEverywhere(v) {
      AcceptableIsFixed(StripKeys, v);
      AcceptableIsFixed(AddItems, v);
    }
  }

  /** What a schema keeps of its own keys: all supported ones, plain data unchanged, and `items` for an array. */
  lemma KeysOfSanitized(fields: map<string, Json>)
    ensures Sanitize(Obj(fields)).Obj?
    ensures var after := Sanitize(Obj(fields)).fields;
      && (forall k :: k in after <==> (k in fields && !Unsupported(k)) || (k == "items" && DeclaresArray(fields)))
      && (forall k | k in fields && k in after && PositionOf(k) == PlainData :: after[k] == fields[k])
      && ("items" in after && "items" !in fields ==> after["items"] == Obj(map[]))
  {
    DeclarationKept(StripKeys, fields);
    PositionsAreSupported("items");
    hide Unsupported, DeclaresArray, PositionOf;
    var w := Rewrite(StripKeys, Obj(fields)).fields;
    var after := Sanitize(Obj(fields)).fields;
    assert after.Keys == KeysAfter(AddItems, w);
    forall k | k in fields && k in after && PositionOf(k) == PlainData
      ensures after[k] == fields[k]
    {
      PlainFieldKept(StripKeys, fields, k);
      PlainFieldKept(AddItems, w, k);
    }
  }

  // ---------------------------------------------------------------- the keywords by name

  /** The fourteen keywords that the upstream refuses are gone, and no other key is. */
  lemma RefusedKeywordsGo(fields: map<string, Json>)
    ensures var after := Sanitize(Obj(fields));
      && after.Obj?
      && "uniqueItems" !in after.fields && "minItems" !in after.fields && "maxItems" !in after.fields
      && "minimum" !in after.fields && "maximum" !in after.fields && "exclusiveMinimum" !in after.fields
      && "exclusiveMaximum" !in after.fields && "multipleOf" !in after.fields && "pattern" !in after.fields
      && "minLength" !in after.fields && "maxLength" !in after.fields && "format" !in after.fields
      && "minProperties" !in after.fields && "maxProperties" !in after.fields
    ensures forall k | k in fields && k !in Sanitize(Obj(fields)).fields ::
      k in {"uniqueItems", "minItems", "maxItems", "minimum", "maximum", "exclusiveMinimum", "exclusiveMaximum",
            "multipleOf", "pattern", "minLength", "maxLength", "format", "minProperties", "maxProperties"}
  {
    KeysOfSanitized(fields);
    hide Sanitize, DeclaresArray;
  }

  lemma FieldTwice(fields: map<string, Json>, k: string)
    requires k in fields && !Unsupported(k)
    ensures Sanitize(Obj(fields)).Obj? && k in Sanitize(Obj(fields)).fields
    ensures Sanitize(Obj(fields)).fields[k] == RewriteAt(AddItems, k, RewriteAt(StripKeys, k, fields[k]))
  {
    hide RewriteAt, Unsupported, DeclaresArray;
  }

  /** Where schemas stand inside a schema: under `items` and `additionalProperties`, in the lists of `allOf`, `anyOf`
      and `oneOf`, and by name under `properties` and `$defs`. Each of them is sanitised as a schema of its own. */
  lemma SubschemasSanitized(fields: map<string, Json>, k: string)
    requires k in fields && k in {"items", "additionalProperties", "allOf", "anyOf", "oneOf", "properties", "$defs"}
    ensures var after := Sanitize(Obj(fields));
      && after.Obj? && k in after.fields
      && (k == "items" || k == "additionalProperties" ==> after.fields[k] == Sanitize(fields[k]))
      && (k == "allOf" || k == "anyOf" || k == "oneOf" ==>
            if fields[k].Arr? then
              && after.fields[k].Arr? && |after.fields[k].elems| == |fields[k].elems|
              && forall i | 0 <= i < |fields[k].elems| :: after.fields[k].elems[i] == Sanitize(fields[k].elems[i])
            else after.fields[k] == fields[k])
      && (k == "properties" || k == "$defs" ==>
            if fields[k].Obj? then
              && after.fields[k].Obj? && after.fields[k].fields.Keys == fields[k].fields.Keys
              && forall name | name in fields[k].fields ::
                   after.fields[k].fields[name] == Sanitize(fields[k].fields[name])
            else after.fields[k] == fields[k])
  {
    FieldTwice(fields, k);
    hide Rewrite;
  }

  /** Items are there afterwards exactly when they were, or the type is array, alone or among others; new items are
      empty. */
  lemma ItemsExactly(fields: map<string, Json>)
    ensures var after := Sanitize(Obj(fields));
      && after.Obj?
      && ("items" in after.fields <==>
            || "items" in fields
            || ("type" in fields && fields["type"] == Str("array"))
            || ("type" in fields && fields["type"].Arr? && Str("array") in fields["type"].elems))
      && ("items" in after.fields && "items" !in fields ==> after.fields["items"] == Obj(map[]))
  {
    KeysOfSanitized(fields);
    hide Sanitize;
  }

  /** Under any other key nothing is changed. */
  lemma OtherDataKept(fields: map<string, Json>, k: string)
    requires k in fields && k in Sanitize(Obj(fields)).fields
    requires k !in {"items", "additionalProperties", "allOf", "anyOf", "oneOf", "properties", "$defs"}
    ensures Sanitize(Obj(fields)).fields[k] == fields[k]
  {
    KeysOfSanitized(fields);
    hide Sanitize, DeclaresArray;
  }
}
