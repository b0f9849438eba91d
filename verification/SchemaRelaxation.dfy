/**
 The reduction of a JSON Schema to a subset without value limits: limiting
 keywords disappear at every depth and objects accept no further properties.
 */
module SchemaRelaxation {
  import opened Common

  datatype Json =
    | Null
    | Bool(b: bool)
    | Num(n: real)
    | Str(s: string)
    | Arr(items: seq<Json>)
    | Obj(fields: map<string, Json>)

  /** The keywords that are removed. */
  predicate IsLimiting(key: string) {
    key in {
      "minimum", "maximum", "exclusiveMinimum", "exclusiveMaximum", "multipleOf", "minLength", "maxLength",
      "pattern", "maxItems", "minItems", "minProperties", "maxProperties"
    }
  }

  predicate IsObjectSchema(fields: map<string, Json>) {
    "type" in fields && fields["type"] == Str("object")
  }

  /** Limiting keywords are dropped, object schemas are closed, and the rest is transformed in turn. */
  function Transform(node: Json): (r: Json)
    ensures (r.Obj? <==> node.Obj?) && (r.Arr? <==> node.Arr?)
    ensures !node.Obj? && !node.Arr? ==> r == node
  {
    match node
    case Obj(fields) =>
      if IsObjectSchema(fields) then
        Obj((map k | k in fields && !IsLimiting(k) :: Transform(fields[k]))["additionalProperties" := Bool(false)])
      else
        Obj(map k | k in fields && !IsLimiting(k) :: Transform(fields[k]))
    case Arr(items) => Arr(seq(|items|, i requires 0 <= i < |items| => Transform(items[i])))
    case _ => node
  }

  /** The required root fields that are not listed yet are appended, in order. */
  function Missing(existing: seq<Json>, wanted: seq<string>): seq<Json> {
    if wanted == [] then []
    else
      var front := Missing(existing, wanted[..|wanted| - 1]);
      var last := Str(wanted[|wanted| - 1]);
      if last in existing then front else front + [last]
  }

  function Listed(fields: map<string, Json>): seq<Json> {
    if "required" in fields && fields["required"].Arr? then fields["required"].items else []
  }

  function ToStrict(schema: map<string, Json>, wanted: seq<string>): map<string, Json> {
    var fields := Transform(Obj(schema)).fields;
    if wanted == [] then fields
    else fields["required" := Arr(Listed(fields) + Missing(Listed(fields), wanted))]
  }

  // ----- the walk over the keys of a node

  method TransformNode(node: Json) returns (r: Json)
    ensures r == Transform(node)
    decreases node, 1
  {
    match node {
      case Obj(fields) =>
        var done := TransformFields(node);
        if "type" in fields && fields["type"] == Str("object") {
          done := done["additionalProperties" := Bool(false)];
        }
        r := Obj(done);
      case Arr(_) =>
        r := TransformItems(node);
      case _ =>
        r := node;
    }
  }

  method TransformItems(node: Json) returns (r: Json)
    requires node.Arr?
    ensures r == Transform(node)
    decreases node, 0
  {
    var done: seq<Json> := [];
    assert Transform(node).items == seq(|node.items|, i requires 0 <= i < |node.items| => Transform(node.items[i]));
    hide Transform;
    for i := 0 to |node.items|
      invariant |done| == i && forall j :: 0 <= j < i ==> done[j] == Transform(node.items[j])
    {
      var item := TransformNode(node.items[i]);
      done := done + [item];
    }
    r := Arr(done);
  }

  method TransformFields(node: Json) returns (done: map<string, Json>)
    requires node.Obj?
    ensures done == map k | k in node.fields && !IsLimiting(k) :: Transform(node.fields[k])
    decreases node, 0
  {
    hide Transform, IsLimiting;
    done := map[];
    var keys := node.fields.Keys;
    while keys != {}
      invariant keys <= node.fields.Keys
      invariant done == map k | k in node.fields && k !in keys && !IsLimiting(k) :: Transform(node.fields[k])
      decreases |keys|
    {
      var key :| key in keys;
      if !IsLimiting(key) {
        var value := TransformNode(node.fields[key]);
        done := done[key := value];
      }
      keys := keys - {key};
    }
  }

  method ToStrictSchema(schema: map<string, Json>, wanted: seq<string>) returns (r: map<string, Json>)
    ensures r == ToStrict(schema, wanted)
  {
    var node := TransformNode(Obj(schema));
    r := node.fields;
    if wanted != [] {
      var existing := Listed(r);
      var required := existing;
      for i := 0 to |wanted|
        invariant required == existing + Missing(existing, wanted[..i])
      {
        assert wanted[..i + 1][..i] == wanted[..i];
        if Str(wanted[i]) !in existing {
          required := required + [Str(wanted[i])];
        }
      }
      assert wanted[..|wanted|] == wanted;
      r := r["required" := Arr(required)];
    }
  }

  // ----- the form of the result

  /** No limiting keyword at any depth, and every object schema is closed. */
  ghost predicate Strict(node: Json) {
    match node
    case Obj(fields) =>
      && (forall k :: k in fields ==> !IsLimiting(k))
      && (IsObjectSchema(fields) ==> "additionalProperties" in fields && fields["additionalProperties"] == Bool(false))
      && forall k :: k in fields ==> Strict(fields[k])
    case Arr(items) => forall i :: 0 <= i < |items| ==> Strict(items[i])
    case _ => true
  }

  lemma {:induction false} TransformIsStrict(node: Json)
    ensures Strict(Transform(node))
  {
    assert !IsLimiting("additionalProperties");
    hide IsLimiting;
    match node {
      case Obj(fields) =>
        forall k | k in fields ensures Strict(Transform(fields[k])) {
          TransformIsStrict(fields[k]);
        }
      case Arr(items) =>
        forall i | 0 <= i < |items| ensures Strict(Transform(items[i])) {
          TransformIsStrict(items[i]);
        }
      case _ =>
    }
  }

  /** A schema that is strict already is left as it is, and only such a schema is. */
  lemma {:induction false} StrictIsFixed(node: Json)
    ensures Strict(node) <==> Transform(node) == node
  {
    hide IsLimiting;
    if Strict(node) {
      match node {
        case Obj(fields) =>
          forall k | k in fields ensures Transform(fields[k]) == fields[k] {
            StrictIsFixed(fields[k]);
          }
          assert Transform(node).fields == fields;
        case Arr(items) =>
          forall i | 0 <= i < |items| ensures Transform(items[i]) == items[i] {
            StrictIsFixed(items[i]);
          }
          assert Transform(node).items == items;
        case _ =>
      }
    } else {
      TransformIsStrict(node);
    }
  }

  lemma TransformIsIdempotent(node: Json)
    ensures Transform(Transform(node)) == Transform(node)
  {
    TransformIsStrict(node);
    StrictIsFixed(Transform(node));
  }

  // ----- references

  /** The value a chain of keys leads to. */
  function Follow(node: Json, path: seq<string>): Option<Json>
    decreases |path|
  {
    if path == [] then Some(node)
    else if node.Obj? && path[0] in node.fields then Follow(node.fields[path[0]], path[1..])
    else None
  }

  /** A path that names no limiting keyword and no `additionalProperties` leads to the transformed value. */
  lemma {:induction false} ReferencesStillResolve(node: Json, path: seq<string>)
    requires forall i :: 0 <= i < |path| ==> !IsLimiting(path[i]) && path[i] != "additionalProperties"
    ensures Follow(Transform(node), path) == (match Follow(node, path) case Some(target) => Some(Transform(target)) case None => None)
    decreases |path|
  {
    if path != [] && node.Obj? && path[0] in node.fields {
      ReferencesStillResolve(node.fields[path[0]], path[1..]);
    }
  }
}
