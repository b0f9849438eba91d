/**
 What the reduced schemas accept: the instances of a schema before and after the
 reduction, following the vocabulary of JSON Schema 2020-12 that Pydantic emits.
 */
module SchemaMeaning {
  import opened Common
  import opened SchemaRelaxation

  const DEFINITIONS := "#/$defs/"

  /** Keywords whose meaning a looser subschema could turn around. */
  const NEGATING: set<string> := {"oneOf", "not", "if", "then", "else"}

  /** Validating keywords that acceptance does not cover. */
  predicate Uncovered(key: string) {
    key in {
      "prefixItems", "contains", "minContains", "maxContains", "uniqueItems", "unevaluatedItems",
      "patternProperties", "propertyNames", "dependentSchemas", "dependentRequired", "unevaluatedProperties", "$dynamicRef"
    }
  }

  // ----- reading a schema node

  function Part(fields: map<string, Json>, key: string): (r: map<string, Json>) {
    if key in fields && fields[key].Obj? then fields[key].fields else map[]
  }

  function Entries(fields: map<string, Json>, key: string): seq<Json> {
    if key in fields && fields[key].Arr? then fields[key].items else []
  }

  /** The definition a reference of the form the generator writes points to. */
  function Definition(defs: map<string, Json>, reference: string): Option<Json> {
    if !(DEFINITIONS <= reference) then None
    else
      var name := reference[|DEFINITIONS|..];
      if name in defs then Some(defs[name]) else None
  }

  // ----- keywords without subschemas

  predicate HasType(v: Json, name: string) {
    match name
    case "null" => v.Null?
    case "boolean" => v.Bool?
    case "number" => v.Num?
    case "integer" => v.Num? && v.n == v.n.Floor as real
    case "string" => v.Str?
    case "array" => v.Arr?
    case "object" => v.Obj?
    case _ => false
  }

  predicate TypeAccepts(fields: map<string, Json>, v: Json) {
    "type" in fields ==>
      match fields["type"]
      case Str(name) => HasType(v, name)
      case Arr(names) => exists i :: 0 <= i < |names| && names[i].Str? && HasType(v, names[i].s)
      case _ => true
  }

  predicate ValuesAccept(fields: map<string, Json>, v: Json) {
    && ("enum" in fields && fields["enum"].Arr? ==> v in fields["enum"].items)
    && ("const" in fields ==> v == fields["const"])
  }

  predicate RequiredAccepts(fields: map<string, Json>, v: Json) {
    v.Obj? ==> forall i :: 0 <= i < |Entries(fields, "required")| ==>
      Entries(fields, "required")[i].Str? ==> Entries(fields, "required")[i].s in v.fields
  }

  function Limit(fields: map<string, Json>, key: string): Option<real> {
    if key in fields && fields[key].Num? then Some(fields[key].n) else None
  }

  predicate AtLeast(l: Option<real>, x: real) { l.Some? ==> l.value <= x }

  predicate AtMost(l: Option<real>, x: real) { l.Some? ==> x <= l.value }

  predicate IsMultiple(x: real, k: int, unit: real) { x == k as real * unit }

  /** The limiting keywords; `matches` is the regular-expression search. */
  ghost predicate LimitsAccept(fields: map<string, Json>, v: Json, matches: (string, string) -> bool) {
    match v
    case Num(n) =>
      && AtLeast(Limit(fields, "minimum"), n) && AtMost(Limit(fields, "maximum"), n)
      && (AtLeast(Limit(fields, "exclusiveMinimum"), n) && Limit(fields, "exclusiveMinimum") != Some(n))
      && (AtMost(Limit(fields, "exclusiveMaximum"), n) && Limit(fields, "exclusiveMaximum") != Some(n))
      && (Limit(fields, "multipleOf").Some? ==> exists k :: IsMultiple(n, k, Limit(fields, "multipleOf").value))
    case Str(s) =>
      && AtLeast(Limit(fields, "minLength"), |s| as real) && AtMost(Limit(fields, "maxLength"), |s| as real)
      && ("pattern" in fields && fields["pattern"].Str? ==> matches(fields["pattern"].s, s))
    case Arr(items) =>
      AtLeast(Limit(fields, "minItems"), |items| as real) && AtMost(Limit(fields, "maxItems"), |items| as real)
    case Obj(members) =>
      AtLeast(Limit(fields, "minProperties"), |members| as real) && AtMost(Limit(fields, "maxProperties"), |members| as real)
    case _ => true
  }

  // ----- acceptance

  ghost predicate PlainAccepts(fields: map<string, Json>, v: Json, matches: (string, string) -> bool) {
    TypeAccepts(fields, v) && ValuesAccept(fields, v) && RequiredAccepts(fields, v) && LimitsAccept(fields, v, matches)
  }

  ghost predicate AlternativesAccept(defs: map<string, Json>, node: Json, v: Json, matches: (string, string) -> bool, fuel: nat)
    requires node.Obj?
    decreases fuel, node, 0
  {
    && ("anyOf" in node.fields && node.fields["anyOf"].Arr? ==>
          exists i :: 0 <= i < |node.fields["anyOf"].items| && Accepts(defs, node.fields["anyOf"].items[i], v, matches, fuel))
    && ("allOf" in node.fields && node.fields["allOf"].Arr? ==>
          forall i :: 0 <= i < |node.fields["allOf"].items| ==> Accepts(defs, node.fields["allOf"].items[i], v, matches, fuel))
  }

  ghost predicate MembersAccept(defs: map<string, Json>, node: Json, v: Json, matches: (string, string) -> bool, fuel: nat)
    requires node.Obj?
    decreases fuel, node, 0
  {
    v.Obj? ==>
      && ("properties" in node.fields && node.fields["properties"].Obj? ==>
            forall k :: k in node.fields["properties"].fields && k in v.fields ==>
              Accepts(defs, node.fields["properties"].fields[k], v.fields[k], matches, fuel))
      && ("additionalProperties" in node.fields ==>
            forall k :: k in v.fields && k !in Part(node.fields, "properties") ==>
              Accepts(defs, node.fields["additionalProperties"], v.fields[k], matches, fuel))
  }

  ghost predicate ItemsAccept(defs: map<string, Json>, node: Json, v: Json, matches: (string, string) -> bool, fuel: nat)
    requires node.Obj?
    decreases fuel, node, 0
  {
    "items" in node.fields && v.Arr? ==>
      forall i :: 0 <= i < |v.items| ==> Accepts(defs, node.fields["items"], v.items[i], matches, fuel)
  }

  ghost predicate ReferenceAccepts(defs: map<string, Json>, node: Json, v: Json, matches: (string, string) -> bool, fuel: nat)
    requires node.Obj?
    decreases fuel, node, 0
  {
    "$ref" in node.fields && node.fields["$ref"].Str? ==>
      && fuel > 0 && Definition(defs, node.fields["$ref"].s).Some?
      && Accepts(defs, Definition(defs, node.fields["$ref"].s).value, v, matches, fuel - 1)
  }

  /** Whether the schema accepts the instance; `fuel` bounds how many references are followed in a row. */
  ghost predicate Accepts(defs: map<string, Json>, node: Json, v: Json, matches: (string, string) -> bool, fuel: nat)
    decreases fuel, node, 1
  {
    match node
    case Bool(b) => b
    case Obj(fields) =>
      && PlainAccepts(fields, v, matches)
      && AlternativesAccept(defs, node, v, matches, fuel)
      && MembersAccept(defs, node, v, matches, fuel)
      && ItemsAccept(defs, node, v, matches, fuel)
      && ReferenceAccepts(defs, node, v, matches, fuel)
    case _ => false
  }

  // ----- the schemas that are only relaxed

  /** A value without objects, as enumerations of scalars are. */
  ghost predicate Flat(node: Json) {
    match node
    case Obj(_) => false
    case Arr(items) => forall i :: 0 <= i < |items| ==> Flat(items[i])
    case _ => true
  }

  /** Nothing in the node itself that closing it or dropping keywords could turn into a stricter schema. */
  ghost predicate Mild(fields: map<string, Json>) {
    && fields.Keys !! NEGATING
    && (forall k :: k in fields ==> !Uncovered(k))
    && (IsObjectSchema(fields) ==> "additionalProperties" in fields && fields["additionalProperties"] == Bool(false))
    && (forall k :: k in {"type", "enum", "const", "required"} && k in fields ==> Flat(fields[k]))
    && (forall k :: k in Part(fields, "properties") ==> !IsLimiting(k))
    && (forall k :: k in Part(fields, "$defs") ==> !IsLimiting(k))
  }

  /** No negation, covered keywords, closed objects, unreserved names and flat constants, in every subschema. */
  ghost predicate Relaxable(node: Json) {
    match node
    case Bool(_) => true
    case Obj(fields) =>
      && Mild(fields)
      && ("anyOf" in fields && fields["anyOf"].Arr? ==> forall i :: 0 <= i < |fields["anyOf"].items| ==> Relaxable(fields["anyOf"].items[i]))
      && ("allOf" in fields && fields["allOf"].Arr? ==> forall i :: 0 <= i < |fields["allOf"].items| ==> Relaxable(fields["allOf"].items[i]))
      && ("properties" in fields && fields["properties"].Obj? ==>
            forall k :: k in fields["properties"].fields ==> Relaxable(fields["properties"].fields[k]))
      && ("$defs" in fields && fields["$defs"].Obj? ==> forall k :: k in fields["$defs"].fields ==> Relaxable(fields["$defs"].fields[k]))
      && ("items" in fields ==> Relaxable(fields["items"]))
      && ("additionalProperties" in fields ==> Relaxable(fields["additionalProperties"]))
    case _ => false
  }

  lemma {:induction false} FlatIsFixed(node: Json)
    requires Flat(node)
    ensures Transform(node) == node
  {
    if node.Arr? {
      forall i | 0 <= i < |node.items| ensures Transform(node.items[i]) == node.items[i] {
        FlatIsFixed(node.items[i]);
      }
      assert Transform(node).items == node.items;
    }
  }

  // ----- what becomes of the parts

  lemma KeywordsStay()
    ensures !IsLimiting("type") && !IsLimiting("enum") && !IsLimiting("const") && !IsLimiting("required")
    ensures !IsLimiting("anyOf") && !IsLimiting("allOf") && !IsLimiting("properties") && !IsLimiting("$defs")
    ensures !IsLimiting("items") && !IsLimiting("additionalProperties") && !IsLimiting("$ref")
  {
    assert "required"[0] == 'r' && "maxItems"[0] == 'm' && "minItems"[0] == 'm';
  }

  /** In a mild node every keyword that is not limiting stays, with its value transformed. */
  lemma FieldStays(fields: map<string, Json>, key: string)
    requires Mild(fields) && !IsLimiting(key)
    ensures var after := Transform(Obj(fields)).fields;
      && (key in after <==> key in fields)
      && (key in fields ==> after[key] == Transform(fields[key]))
  {
    hide IsLimiting;
  }

  lemma ItemsStay(list: Json)
    ensures list.Arr? ==>
      && |Transform(list).items| == |list.items|
      && forall i :: 0 <= i < |list.items| ==> Transform(list).items[i] == Transform(list.items[i])
  {
  }

  /** A table of named schemas keeps its names. */
  lemma PartStays(fields: map<string, Json>, key: string)
    requires Mild(fields) && key in {"properties", "$defs"}
    requires forall k :: k in Part(fields, key) ==> Relaxable(Part(fields, key)[k])
    ensures var after := Transform(Obj(fields)).fields;
      && (key in after && after[key].Obj? <==> key in fields && fields[key].Obj?)
      && Part(after, key).Keys == Part(fields, key).Keys
      && forall k :: k in Part(fields, key) ==> Part(after, key)[k] == Transform(Part(fields, key)[k])
  {
    KeywordsStay();
    FieldStays(fields, key);
    hide IsLimiting;
    assert !IsObjectSchema(Part(fields, key)) by {
      assert !Relaxable(Str("object"));
    }
  }

  ghost predicate AllRelaxable(defs: map<string, Json>) {
    forall k :: k in defs ==> Relaxable(defs[k])
  }

  function TransformAll(defs: map<string, Json>): map<string, Json> {
    map k | k in defs :: Transform(defs[k])
  }

  /** A definition is found under the same reference, transformed. */
  lemma DefinitionStays(defs: map<string, Json>, reference: string)
    requires AllRelaxable(defs)
    ensures Definition(TransformAll(defs), reference).Some? <==> Definition(defs, reference).Some?
    ensures Definition(defs, reference).Some? ==>
      && Relaxable(Definition(defs, reference).value)
      && Definition(TransformAll(defs), reference).value == Transform(Definition(defs, reference).value)
  {
    hide Transform, Relaxable;
  }

  // ----- the reduction only relaxes

  lemma PlainRelaxes(fields: map<string, Json>, v: Json, matches: (string, string) -> bool)
    requires Mild(fields) && PlainAccepts(fields, v, matches)
    ensures PlainAccepts(Transform(Obj(fields)).fields, v, matches)
  {
    hide Transform, Mild, LimitsAccept, IsLimiting;
    ConstantStays(fields, "type");
    ConstantStays(fields, "enum");
    ConstantStays(fields, "const");
    ConstantStays(fields, "required");
    LimitsAreGone(fields, v, matches);
    var after := Transform(Obj(fields)).fields;
    assert Entries(after, "required") == Entries(fields, "required");
  }

  lemma ConstantStays(fields: map<string, Json>, key: string)
    requires Mild(fields) && key in {"type", "enum", "const", "required"}
    ensures var after := Transform(Obj(fields)).fields;
      && (key in after <==> key in fields)
      && (key in fields ==> after[key] == fields[key])
  {
    KeywordsStay();
    FieldStays(fields, key);
    if key in fields {
      FlatIsFixed(fields[key]);
    }
    hide Transform, IsLimiting;
  }

  lemma LimitIsGone(fields: map<string, Json>, key: string)
    requires IsLimiting(key)
    ensures key !in Transform(Obj(fields)).fields
  {
    KeywordsStay();
    hide IsLimiting;
  }

  lemma LimitsAreGone(fields: map<string, Json>, v: Json, matches: (string, string) -> bool)
    ensures LimitsAccept(Transform(Obj(fields)).fields, v, matches)
  {
    LimitingKeywords();
    hide IsLimiting, Transform;
    match v {
      case Num(_) =>
        LimitIsGone(fields, "minimum");
        LimitIsGone(fields, "maximum");
        LimitIsGone(fields, "exclusiveMinimum");
        LimitIsGone(fields, "exclusiveMaximum");
        LimitIsGone(fields, "multipleOf");
      case Str(_) =>
        LimitIsGone(fields, "minLength");
        LimitIsGone(fields, "maxLength");
        LimitIsGone(fields, "pattern");
      case Arr(_) =>
        LimitIsGone(fields, "minItems");
        LimitIsGone(fields, "maxItems");
      case Obj(_) =>
        LimitIsGone(fields, "minProperties");
        LimitIsGone(fields, "maxProperties");
      case _ =>
    }
  }

  lemma LimitingKeywords()
    ensures IsLimiting("minimum") && IsLimiting("maximum") && IsLimiting("exclusiveMinimum") && IsLimiting("exclusiveMaximum")
    ensures IsLimiting("multipleOf") && IsLimiting("minLength") && IsLimiting("maxLength") && IsLimiting("pattern")
    ensures IsLimiting("maxItems") && IsLimiting("minItems") && IsLimiting("minProperties") && IsLimiting("maxProperties")
  {
  }

  lemma RelaxableIsMild(node: Json)
    requires node.Obj? && Relaxable(node)
    ensures Mild(node.fields)
  {
    hide Mild;
  }

  lemma AlternativesRelax(defs: map<string, Json>, node: Json, v: Json, matches: (string, string) -> bool, fuel: nat)
    requires node.Obj? && AllRelaxable(defs) && Relaxable(node) && AlternativesAccept(defs, node, v, matches, fuel)
    ensures AlternativesAccept(TransformAll(defs), Transform(node), v, matches, fuel)
    decreases fuel, node, 0
  {
    hide IsLimiting, Mild, Transform, Accepts;
    KeywordsStay();
    RelaxableIsMild(node);
    FieldStays(node.fields, "anyOf");
    FieldStays(node.fields, "allOf");
    if "anyOf" in node.fields { ItemsStay(node.fields["anyOf"]); }
    if "allOf" in node.fields { ItemsStay(node.fields["allOf"]); }
    var after := Transform(node).fields;
    if "anyOf" in node.fields && node.fields["anyOf"].Arr? {
      var i :| 0 <= i < |node.fields["anyOf"].items| && Accepts(defs, node.fields["anyOf"].items[i], v, matches, fuel);
      Relaxes(defs, node.fields["anyOf"].items[i], v, matches, fuel);
      assert Accepts(TransformAll(defs), after["anyOf"].items[i], v, matches, fuel);
    }
    if "allOf" in node.fields && node.fields["allOf"].Arr? {
      forall i | 0 <= i < |node.fields["allOf"].items| ensures Accepts(TransformAll(defs), after["allOf"].items[i], v, matches, fuel) {
        Relaxes(defs, node.fields["allOf"].items[i], v, matches, fuel);
      }
    }
  }

  lemma MembersRelax(defs: map<string, Json>, node: Json, v: Json, matches: (string, string) -> bool, fuel: nat)
    requires node.Obj? && AllRelaxable(defs) && Relaxable(node) && MembersAccept(defs, node, v, matches, fuel)
    ensures MembersAccept(TransformAll(defs), Transform(node), v, matches, fuel)
    decreases fuel, node, 0
  {
    KeywordsStay();
    PartStays(node.fields, "properties");
    FieldStays(node.fields, "additionalProperties");
    var after := Transform(node).fields;
    hide IsLimiting, Mild;
    if v.Obj? {
      forall k | k in Part(node.fields, "properties") && k in v.fields
        ensures Accepts(TransformAll(defs), Part(after, "properties")[k], v.fields[k], matches, fuel)
      {
        Relaxes(defs, node.fields["properties"].fields[k], v.fields[k], matches, fuel);
      }
      if "additionalProperties" in node.fields {
        forall k | k in v.fields && k !in Part(node.fields, "properties")
          ensures Accepts(TransformAll(defs), after["additionalProperties"], v.fields[k], matches, fuel)
        {
          Relaxes(defs, node.fields["additionalProperties"], v.fields[k], matches, fuel);
        }
      }
    }
  }

  lemma ItemsRelax(defs: map<string, Json>, node: Json, v: Json, matches: (string, string) -> bool, fuel: nat)
    requires node.Obj? && AllRelaxable(defs) && Relaxable(node) && ItemsAccept(defs, node, v, matches, fuel)
    ensures ItemsAccept(TransformAll(defs), Transform(node), v, matches, fuel)
    decreases fuel, node, 0
  {
    KeywordsStay();
    FieldStays(node.fields, "items");
    hide IsLimiting, Mild;
    if "items" in node.fields && v.Arr? {
      forall i | 0 <= i < |v.items| ensures Accepts(TransformAll(defs), Transform(node.fields["items"]), v.items[i], matches, fuel) {
        Relaxes(defs, node.fields["items"], v.items[i], matches, fuel);
      }
    }
  }

  lemma ReferenceRelaxes(defs: map<string, Json>, node: Json, v: Json, matches: (string, string) -> bool, fuel: nat)
    requires node.Obj? && AllRelaxable(defs) && Relaxable(node) && ReferenceAccepts(defs, node, v, matches, fuel)
    ensures ReferenceAccepts(TransformAll(defs), Transform(node), v, matches, fuel)
    decreases fuel, node, 0
  {
    hide Transform, Mild, IsLimiting, Definition, Relaxable, Accepts;
    KeywordsStay();
    RelaxableIsMild(node);
    FieldStays(node.fields, "$ref");
    if "$ref" in node.fields && node.fields["$ref"].Str? {
      DefinitionStays(defs, node.fields["$ref"].s);
      Relaxes(defs, Definition(defs, node.fields["$ref"].s).value, v, matches, fuel - 1);
    }
  }

  /** Every instance the schema accepts is accepted by the reduced schema, through all references. */
  lemma {:induction false} Relaxes(defs: map<string, Json>, node: Json, v: Json, matches: (string, string) -> bool, fuel: nat)
    requires AllRelaxable(defs) && Relaxable(node) && Accepts(defs, node, v, matches, fuel)
    ensures Accepts(TransformAll(defs), Transform(node), v, matches, fuel)
    decreases fuel, node, 1
  {
    if node.Obj? {
      hide Relaxable;
      PlainRelaxes(node.fields, v, matches);
      AlternativesRelax(defs, node, v, matches, fuel);
      MembersRelax(defs, node, v, matches, fuel);
      ItemsRelax(defs, node, v, matches, fuel);
      ReferenceRelaxes(defs, node, v, matches, fuel);
      hide PlainAccepts, AlternativesAccept, MembersAccept, ItemsAccept, ReferenceAccepts;
    }
  }

  // ----- whole schemas

  /** A document accepts what its root accepts, with its own definitions. */
  ghost predicate DocumentAccepts(schema: map<string, Json>, v: Json, matches: (string, string) -> bool, fuel: nat) {
    Accepts(Part(schema, "$defs"), Obj(schema), v, matches, fuel)
  }

  /** The reduced document accepts every instance the document accepts. */
  lemma ReducedDocumentAcceptsMore(schema: map<string, Json>, v: Json, matches: (string, string) -> bool, fuel: nat)
    requires Relaxable(Obj(schema)) && DocumentAccepts(schema, v, matches, fuel)
    ensures DocumentAccepts(ToStrict(schema, []), v, matches, fuel)
  {
    var defs := Part(schema, "$defs");
    PartStays(schema, "$defs");
    assert Part(Transform(Obj(schema)).fields, "$defs") == TransformAll(defs);
    Relaxes(defs, Obj(schema), v, matches, fuel);
  }

  lemma {:induction false} MissingIsWhatIsMissing(existing: seq<Json>, wanted: seq<string>, name: string)
    ensures Str(name) in existing + Missing(existing, wanted) <==> Str(name) in existing || name in wanted
  {
    if wanted != [] {
      var front := wanted[..|wanted| - 1];
      MissingIsWhatIsMissing(existing, front, name);
      assert wanted == front + [wanted[|wanted| - 1]];
    }
  }

  /** Asking for root fields adds exactly the demand that an object instance has them. */
  lemma WantedFieldsAreDemanded(schema: map<string, Json>, wanted: seq<string>, v: Json, matches: (string, string) -> bool, fuel: nat)
    requires wanted != []
    ensures DocumentAccepts(ToStrict(schema, wanted), v, matches, fuel) <==>
      DocumentAccepts(ToStrict(schema, []), v, matches, fuel) && (v.Obj? ==> forall name :: name in wanted ==> name in v.fields)
  {
    var fields := ToStrict(schema, []);
    var after := ToStrict(schema, wanted);
    assert after == fields["required" := Arr(Listed(fields) + Missing(Listed(fields), wanted))];
    RequiredGrows(fields, wanted, v);
    SameOtherwise(fields, after["required"], v, matches, fuel);
  }

  /** The demands of a list of names, said of each name. */
  lemma RequiredMeans(fields: map<string, Json>, v: Json)
    requires v.Obj?
    ensures RequiredAccepts(fields, v) <==> forall name :: Str(name) in Entries(fields, "required") ==> name in v.fields
  {
    var entries := Entries(fields, "required");
    forall name | Str(name) in entries && RequiredAccepts(fields, v) ensures name in v.fields {
      var i :| 0 <= i < |entries| && entries[i] == Str(name);
    }
    if forall name :: Str(name) in entries ==> name in v.fields {
      forall i | 0 <= i < |entries| && entries[i].Str? ensures entries[i].s in v.fields {
        assert Str(entries[i].s) in entries;
      }
    }
  }

  lemma RequiredGrows(fields: map<string, Json>, wanted: seq<string>, v: Json)
    ensures var after := fields["required" := Arr(Listed(fields) + Missing(Listed(fields), wanted))];
      RequiredAccepts(after, v) <==> RequiredAccepts(fields, v) && (v.Obj? ==> forall name :: name in wanted ==> name in v.fields)
  {
    if v.Obj? {
      var after := fields["required" := Arr(Listed(fields) + Missing(Listed(fields), wanted))];
      RequiredMeans(fields, v);
      RequiredMeans(after, v);
      forall name: string
        ensures Str(name) in Entries(after, "required") <==> Str(name) in Entries(fields, "required") || name in wanted
      {
        MissingIsWhatIsMissing(Listed(fields), wanted, name);
      }
    }
  }

  lemma OtherKeywords()
    ensures "type" != "required" && "enum" != "required" && "const" != "required" && "anyOf" != "required"
    ensures "allOf" != "required" && "properties" != "required" && "additionalProperties" != "required"
    ensures "items" != "required" && "$ref" != "required" && "$defs" != "required"
    ensures !IsLimiting("required")
  {
    KeywordsStay();
  }

  lemma LimitUnchanged(fields: map<string, Json>, names: Json, v: Json, matches: (string, string) -> bool)
    ensures LimitsAccept(fields["required" := names], v, matches) <==> LimitsAccept(fields, v, matches)
  {
    OtherKeywords();
    LimitingKeywords();
    hide IsLimiting;
  }

  lemma SubschemasUnchanged(defs: map<string, Json>, fields: map<string, Json>, names: Json, v: Json, matches: (string, string) -> bool, fuel: nat)
    ensures var node := Obj(fields); var after := Obj(fields["required" := names]);
      && (AlternativesAccept(defs, after, v, matches, fuel) <==> AlternativesAccept(defs, node, v, matches, fuel))
      && (MembersAccept(defs, after, v, matches, fuel) <==> MembersAccept(defs, node, v, matches, fuel))
      && (ItemsAccept(defs, after, v, matches, fuel) <==> ItemsAccept(defs, node, v, matches, fuel))
      && (ReferenceAccepts(defs, after, v, matches, fuel) <==> ReferenceAccepts(defs, node, v, matches, fuel))
  {
    hide Accepts, Definition;
    OtherKeywords();
    Unchanged(fields, names, "anyOf");
    Unchanged(fields, names, "allOf");
    Unchanged(fields, names, "properties");
    Unchanged(fields, names, "additionalProperties");
    Unchanged(fields, names, "items");
    Unchanged(fields, names, "$ref");
  }

  lemma Unchanged(fields: map<string, Json>, names: Json, key: string)
    requires key != "required"
    ensures var after := fields["required" := names];
      (key in after <==> key in fields) && (key in fields ==> after[key] == fields[key])
  {
  }

  /** Another list of required names changes no other demand. */
  lemma SameOtherwise(fields: map<string, Json>, names: Json, v: Json, matches: (string, string) -> bool, fuel: nat)
    ensures var after := fields["required" := names];
      DocumentAccepts(after, v, matches, fuel) && RequiredAccepts(fields, v) <==>
        DocumentAccepts(fields, v, matches, fuel) && RequiredAccepts(after, v)
  {
    OtherKeywords();
    LimitUnchanged(fields, names, v, matches);
    SubschemasUnchanged(Part(fields, "$defs"), fields, names, v, matches, fuel);
    hide AlternativesAccept, MembersAccept, ItemsAccept, ReferenceAccepts, LimitsAccept, RequiredAccepts;
  }

  // ----- where the reduction tightens

  /** An object schema that is not closed accepts less afterwards: closing it shuts out every further property. */
  lemma OpenObjectsAreClosed(defs: map<string, Json>, fields: map<string, Json>, v: Json, name: string, matches: (string, string) -> bool, fuel: nat)
    requires IsObjectSchema(fields) && v.Obj?
    requires name in v.fields && name !in Part(Transform(Obj(fields)).fields, "properties")
    ensures !Accepts(defs, Transform(Obj(fields)), v, matches, fuel)
  {
    var after := Transform(Obj(fields));
    assert after.fields["additionalProperties"] == Bool(false);
    assert !Accepts(defs, Bool(false), v.fields[name], matches, fuel);
    hide Transform, PlainAccepts, AlternativesAccept, ItemsAccept, ReferenceAccepts, IsLimiting;
    assert !MembersAccept(defs, after, v, matches, fuel);
  }

  /** A property named like a limiting keyword is lost, so a closed object no longer takes it. */
  lemma PropertiesNamedLikeLimitsAreLost(defs: map<string, Json>, fields: map<string, Json>, v: Json, name: string, matches: (string, string) -> bool, fuel: nat)
    requires IsObjectSchema(fields) && v.Obj? && IsLimiting(name) && name in v.fields
    ensures !Accepts(defs, Transform(Obj(fields)), v, matches, fuel)
  {
    var after := Transform(Obj(fields)).fields;
    KeywordsStay();
    hide IsLimiting;
    assert "properties" in fields ==> after["properties"] == Transform(fields["properties"]);
    assert name !in Part(after, "properties") by {
      if "properties" in fields && fields["properties"].Obj? {
        LimitIsGone(fields["properties"].fields, name);
      }
    }

    OpenObjectsAreClosed(defs, fields, v, name, matches, fuel);
  }
}
