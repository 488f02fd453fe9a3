/**
The provider-only rewrite of tool schemas that removes literals contradicting their
declared type, and what it means for the values a schema accepts.
*/
module SchemaLiterals {
  import opened Outcomes
  import opened Json

  const MAX_TOOL_SCHEMA_LITERAL_DEPTH := 32

  const MAP_KEYWORDS := {"properties", "patternProperties", "$defs", "definitions"}
  const LIST_KEYWORDS := {"anyOf", "oneOf", "allOf", "prefixItems"}
  const CHILD_KEYWORDS :=
    {"items", "additionalProperties", "contains", "not", "if", "then", "else", "propertyNames"}

  // ---------------------------------------------------------------------
  // The rewrite
  // ---------------------------------------------------------------------

  /** The bridge's own classification: a number is an integer when it is held as one. */
  function TypeName(value: Json): string {
    match value
    case Null => "null"
    case Bool(_) => "boolean"
    case Num(Integer(_)) => "integer"
    case Num(Float(_)) => "number"
    case Str(_) => "string"
    case Array(_) => "array"
    case Object(_) => "object"
  }

  function Strings(values: seq<Json>): seq<string> {
    if values == [] then []
    else if values[0].Str? then [values[0].text] + Strings(values[1..])
    else Strings(values[1..])
  }

  function DeclaredTypes(schema: map<string, Json>): seq<string> {
    if "type" !in schema then []
    else
      match schema["type"]
      case Str(name) => [name]
      case Array(names) => Strings(names)
      case _ => []
  }

  predicate MatchesType(value: Json, types: seq<string>) {
    TypeName(value) in types || (TypeName(value) == "integer" && "number" in types)
  }

  function KeptLiterals(values: seq<Json>, types: seq<string>): seq<Json> {
    if values == [] then []
    else if MatchesType(values[0], types) then [values[0]] + KeptLiterals(values[1..], types)
    else KeptLiterals(values[1..], types)
  }

  /** A typed `enum` that keeps no literal and a typed `const` that does not match go away. */
  predicate Dropped(schema: map<string, Json>, key: string)
    requires key in schema
  {
    var types := DeclaredTypes(schema);
    && types != []
    && match schema[key]
       case Array(values) =>
         (key == "enum" && values != [] && KeptLiterals(values, types) == []) ||
         (key == "const" && !MatchesType(schema[key], types))
       case value => key == "const" && !MatchesType(value, types)
  }

  function NormalizeValue(value: Json, depth: nat): Json
    decreases value, 0
  {
    if !value.Object? || depth > MAX_TOOL_SCHEMA_LITERAL_DEPTH then value
    else
      var schema := value.fields;
      Object(map key | key in schema && !Dropped(schema, key) ::
               NormalizeKeyword(key, schema[key], DeclaredTypes(schema), depth))
  }

  function NormalizeKeyword(key: string, value: Json, types: seq<string>, depth: nat): Json
    decreases value, 1
  {
    if key == "enum" then
      if value.Array? && types != [] then Array(KeptLiterals(value.items, types)) else value
    else if key in MAP_KEYWORDS then
      if value.Object? then Object(map name | name in value.fields :: NormalizeValue(value.fields[name], depth + 1))
      else value
    else if key in LIST_KEYWORDS || (key in CHILD_KEYWORDS && value.Array?) then
      if value.Array?
      then Array(seq(|value.items|, i requires 0 <= i < |value.items| => NormalizeValue(value.items[i], depth + 1)))
      else value
    else if key in CHILD_KEYWORDS then NormalizeValue(value, depth + 1)
    else value
  }

  // ---------------------------------------------------------------------
  // What a schema accepts
  // ---------------------------------------------------------------------

  /**
  What the rewrite does not look at: literal equality, property patterns, and every other
  keyword, which may also depend on how many elements `contains` found. What depends on which
  other subschemas matched, as `unevaluatedProperties` does, is not among them.
  */
  datatype Dialect = Dialect(
    equal: (Json, Json) -> bool,
    patternMatches: (string, string) -> bool,
    other: (map<string, Json>, Json, Option<nat>) -> bool)
  {
    /** Literals held differently are different, as the bridge compares them. */
    ghost predicate RespectsTypes() {
      forall a, b :: equal(a, b) ==> TypeName(a) == TypeName(b)
    }

    /** Numbers are compared by value, however they are held; nothing else crosses types. */
    ghost predicate ComparesNumbers() {
      && (forall a: Json, b: Json :: a.Num? && b.Num? ==>
            (equal(a, b) <==> NumericValue(a.number) == NumericValue(b.number)))
      && (forall a: Json, b: Json :: equal(a, b) && !(a.Num? && b.Num?) ==> TypeName(a) == TypeName(b))
    }
  }

  /** The keywords the rewrite never touches. */
  function Untouched(schema: map<string, Json>): map<string, Json> {
    map key | key in schema && key !in MAP_KEYWORDS + LIST_KEYWORDS + CHILD_KEYWORDS + {"enum", "const"} :: schema[key]
  }

  ghost predicate TypeAccepts(schema: map<string, Json>, v: Json) {
    "type" in schema && (schema["type"].Str? || schema["type"].Array?) ==> MatchesType(v, DeclaredTypes(schema))
  }

  ghost predicate EnumAccepts(d: Dialect, schema: map<string, Json>, v: Json) {
    "enum" in schema && schema["enum"].Array? ==>
      exists i :: 0 <= i < |schema["enum"].items| && d.equal(schema["enum"].items[i], v)
  }

  ghost predicate ConstAccepts(d: Dialect, schema: map<string, Json>, v: Json) {
    "const" in schema ==> d.equal(schema["const"], v)
  }

  /** Validation; anything that is not a schema, such as a misplaced list, accepts all values. */
  ghost predicate Accepts(d: Dialect, schema: Json, v: Json)
    decreases schema, 1
  {
    match schema
    case Bool(b) => b
    case Object(s) =>
      && TypeAccepts(s, v) && EnumAccepts(d, s, v) && ConstAccepts(d, s, v)
      && ("anyOf" in s ==> AnyAccepts(d, s["anyOf"], v))
      && ("oneOf" in s ==> OneAccepts(d, s["oneOf"], v))
      && ("allOf" in s ==> AllAccept(d, s["allOf"], v))
      && ("not" in s ==> !Accepts(d, s["not"], v))
      && ("if" in s ==>
            if Accepts(d, s["if"], v) then ("then" in s ==> Accepts(d, s["then"], v))
            else ("else" in s ==> Accepts(d, s["else"], v)))
      && ("properties" in s ==> PropertiesAccept(d, s["properties"], v))
      && ("patternProperties" in s ==> PatternsAccept(d, s["patternProperties"], v))
      && ("additionalProperties" in s ==> AdditionalAccept(d, s["additionalProperties"], Named(d, s), v))
      && ("propertyNames" in s && v.Object? ==> forall n :: n in v.fields ==> Accepts(d, s["propertyNames"], Str(n)))
      && ("prefixItems" in s ==> PrefixAccept(d, s["prefixItems"], v))
      && ("items" in s ==> ItemsAccept(d, s["items"], PrefixLength(s), v))
      && d.other(Untouched(s), v, if "contains" in s then Some(|ContainsFound(d, s["contains"], v)|) else None)
    case _ => true
  }

  ghost predicate AnyAccepts(d: Dialect, list: Json, v: Json)
    decreases list, 0
  {
    list.Array? ==> exists i :: 0 <= i < |list.items| && Accepts(d, list.items[i], v)
  }

  ghost predicate AllAccept(d: Dialect, list: Json, v: Json)
    decreases list, 0
  {
    list.Array? ==> forall i :: 0 <= i < |list.items| ==> Accepts(d, list.items[i], v)
  }

  ghost predicate IsOnly(d: Dialect, items: seq<Json>, i: int, v: Json)
    decreases items
  {
    && 0 <= i < |items| && Accepts(d, items[i], v)
    && forall j :: 0 <= j < |items| && Accepts(d, items[j], v) ==> j == i
  }

  /** Exactly one alternative accepts. */
  ghost predicate OneAccepts(d: Dialect, list: Json, v: Json)
    decreases list, 0
  {
    list.Array? ==> exists i :: IsOnly(d, list.items, i, v)
  }

  ghost predicate PropertiesAccept(d: Dialect, props: Json, v: Json)
    decreases props, 0
  {
    props.Object? && v.Object? ==>
      forall n :: n in props.fields && n in v.fields ==> Accepts(d, props.fields[n], v.fields[n])
  }

  ghost predicate PatternsAccept(d: Dialect, patterns: Json, v: Json)
    decreases patterns, 0
  {
    patterns.Object? && v.Object? ==>
      forall p, n :: p in patterns.fields && n in v.fields && d.patternMatches(p, n) ==>
        Accepts(d, patterns.fields[p], v.fields[n])
  }

  /** The property names that `properties` or `patternProperties` speak about. */
  ghost function Named(d: Dialect, s: map<string, Json>): iset<string> {
    iset n |
      || ("properties" in s && s["properties"].Object? && n in s["properties"].fields)
      || ("patternProperties" in s && s["patternProperties"].Object? &&
          exists p :: p in s["patternProperties"].fields && d.patternMatches(p, n))
  }

  ghost predicate AdditionalAccept(d: Dialect, schema: Json, named: iset<string>, v: Json)
    decreases schema, 2
  {
    v.Object? ==> forall n :: n in v.fields && n !in named ==> Accepts(d, schema, v.fields[n])
  }

  function PrefixLength(s: map<string, Json>): nat {
    if "prefixItems" in s && s["prefixItems"].Array? then |s["prefixItems"].items| else 0
  }

  ghost predicate PrefixAccept(d: Dialect, list: Json, v: Json)
    decreases list, 0
  {
    list.Array? && v.Array? ==>
      forall i :: 0 <= i < |list.items| && i < |v.items| ==> Accepts(d, list.items[i], v.items[i])
  }

  /** A list under `items` is the older, positional form. */
  ghost predicate ItemsAccept(d: Dialect, items: Json, prefix: nat, v: Json)
    decreases items, 2
  {
    if items.Array? then PrefixAccept(d, items, v)
    else v.Array? ==> forall i :: prefix <= i < |v.items| ==> Accepts(d, items, v.items[i])
  }

  /** The positions of the elements that `contains` accepts. */
  ghost function ContainsFound(d: Dialect, schema: Json, v: Json): set<int>
    decreases schema, 2
  {
    if v.Array? then set i | 0 <= i < |v.items| && Accepts(d, schema, v.items[i]) else {}
  }

  // ---------------------------------------------------------------------
  // When the rewrite keeps the meaning
  // ---------------------------------------------------------------------

  /** Every typed `enum` keeps a literal and every typed `const` matches. */
  ghost predicate LiteralsFit(value: Json, depth: nat)
    decreases value, 0
  {
    value.Object? && depth <= MAX_TOOL_SCHEMA_LITERAL_DEPTH ==>
      forall key :: key in value.fields ==>
        !Dropped(value.fields, key) && ChildrenFit(key, value.fields[key], depth)
  }

  ghost predicate ChildrenFit(key: string, value: Json, depth: nat)
    decreases value, 1
  {
    && (key in MAP_KEYWORDS && value.Object? ==>
          forall n :: n in value.fields ==> LiteralsFit(value.fields[n], depth + 1))
    && ((key in LIST_KEYWORDS || key in CHILD_KEYWORDS) && value.Array? ==>
          forall i :: 0 <= i < |value.items| ==> LiteralsFit(value.items[i], depth + 1))
    && (key in CHILD_KEYWORDS ==> LiteralsFit(value, depth + 1))
  }

  ghost predicate Covered(d: Dialect, values: seq<Json>, types: seq<string>, v: Json) {
    exists y :: y in values && MatchesType(y, types) && d.equal(y, v)
  }

  /** Every value of the declared types that equals a literal equals one that is kept. */
  ghost predicate EnumCovered(d: Dialect, schema: map<string, Json>) {
    var types := DeclaredTypes(schema);
    "enum" in schema && schema["enum"].Array? && types != [] ==>
      forall x, v :: x in schema["enum"].items && !MatchesType(x, types) && MatchesType(v, types) && d.equal(x, v) ==>
        Covered(d, schema["enum"].items, types, v)
  }

  /** The same for every schema node the rewrite looks into. */
  ghost predicate LiteralsCovered(d: Dialect, value: Json, depth: nat)
    decreases value, 0
  {
    value.Object? && depth <= MAX_TOOL_SCHEMA_LITERAL_DEPTH ==>
      && EnumCovered(d, value.fields)
      && forall key :: key in value.fields ==> ChildrenCovered(d, key, value.fields[key], depth)
  }

  ghost predicate ChildrenCovered(d: Dialect, key: string, value: Json, depth: nat)
    decreases value, 1
  {
    && (key in MAP_KEYWORDS && value.Object? ==>
          forall n :: n in value.fields ==> LiteralsCovered(d, value.fields[n], depth + 1))
    && ((key in LIST_KEYWORDS || key in CHILD_KEYWORDS) && value.Array? ==>
          forall i :: 0 <= i < |value.items| ==> LiteralsCovered(d, value.items[i], depth + 1))
    && (key in CHILD_KEYWORDS ==> LiteralsCovered(d, value, depth + 1))
  }

  ghost predicate Same(d: Dialect, a: Json, b: Json) {
    forall v :: Accepts(d, a, v) <==> Accepts(d, b, v)
  }

  /** How one keyword's value may differ without changing what is accepted. */
  ghost predicate KeywordSame(d: Dialect, key: string, a: Json, b: Json) {
    && (key in MAP_KEYWORDS ==>
          && (a.Object? <==> b.Object?)
          && (a.Object? ==>
                a.fields.Keys == b.fields.Keys && forall n :: n in a.fields ==> Same(d, a.fields[n], b.fields[n])))
    && (key in LIST_KEYWORDS + CHILD_KEYWORDS ==>
          && (a.Array? <==> b.Array?)
          && (a.Array? ==>
                |a.items| == |b.items| && forall i :: 0 <= i < |a.items| ==> Same(d, a.items[i], b.items[i])))
    && (key in CHILD_KEYWORDS ==> Same(d, a, b))
    && (key !in MAP_KEYWORDS + LIST_KEYWORDS + CHILD_KEYWORDS + {"enum"} ==> a == b)
  }

  ghost predicate SchemaSame(d: Dialect, s: map<string, Json>, t: map<string, Json>) {
    && s.Keys == t.Keys
    && (forall key :: key in s ==> KeywordSame(d, key, s[key], t[key]))
  }

  // One lemma per group of keywords.

  /** Two lists of the same length whose elements accept the same values. */
  ghost predicate Aligned(d: Dialect, a: Json, b: Json) {
    && (a.Array? <==> b.Array?)
    && (a.Array? ==>
          && |a.items| == |b.items|
          && forall i, v :: 0 <= i < |a.items| ==> (Accepts(d, a.items[i], v) <==> Accepts(d, b.items[i], v)))
  }

  lemma ListsSame(d: Dialect, key: string, a: Json, b: Json, v: Json)
    requires key in LIST_KEYWORDS + CHILD_KEYWORDS && KeywordSame(d, key, a, b)
    ensures AnyAccepts(d, a, v) <==> AnyAccepts(d, b, v)
    ensures AllAccept(d, a, v) <==> AllAccept(d, b, v)
    ensures OneAccepts(d, a, v) <==> OneAccepts(d, b, v)
    ensures PrefixAccept(d, a, v) <==> PrefixAccept(d, b, v)
  {
    hide *;
    ListsAligned(d, key, a, b);
    AnyAligned(d, a, b, v);
    AllAligned(d, a, b, v);
    OneAligned(d, a, b, v);
    PrefixAligned(d, a, b, v);
  }

  lemma ListsAligned(d: Dialect, key: string, a: Json, b: Json)
    requires key in LIST_KEYWORDS + CHILD_KEYWORDS && KeywordSame(d, key, a, b)
    ensures Aligned(d, a, b)
  {
    hide Accepts;
    if a.Array? {
      forall i, w | 0 <= i < |a.items|
        ensures Accepts(d, a.items[i], w) <==> Accepts(d, b.items[i], w)
      {
        assert Same(d, a.items[i], b.items[i]);
      }
    }
  }

  lemma AnyAligned(d: Dialect, a: Json, b: Json, v: Json)
    requires Aligned(d, a, b)
    ensures AnyAccepts(d, a, v) <==> AnyAccepts(d, b, v)
  {
    hide Accepts;
  }

  lemma AllAligned(d: Dialect, a: Json, b: Json, v: Json)
    requires Aligned(d, a, b)
    ensures AllAccept(d, a, v) <==> AllAccept(d, b, v)
  {
    hide Accepts;
  }

  lemma PrefixAligned(d: Dialect, a: Json, b: Json, v: Json)
    requires Aligned(d, a, b)
    ensures PrefixAccept(d, a, v) <==> PrefixAccept(d, b, v)
  {
    hide Accepts;
  }

  lemma OneAligned(d: Dialect, a: Json, b: Json, v: Json)
    requires Aligned(d, a, b)
    ensures OneAccepts(d, a, v) <==> OneAccepts(d, b, v)
  {
    hide Accepts, OneAccepts;
    if a.Array? {
      if OneAccepts(d, a, v) { OneImplies(d, a, b, v); }
      if OneAccepts(d, b, v) { OneImplies(d, b, a, v); }
    } else {
      NotAList(d, a, v);
      NotAList(d, b, v);
    }
  }

  lemma NotAList(d: Dialect, a: Json, v: Json)
    requires !a.Array?
    ensures OneAccepts(d, a, v)
  {
  }

  lemma OneImplies(d: Dialect, a: Json, b: Json, v: Json)
    requires a.Array? && Aligned(d, a, b) && OneAccepts(d, a, v)
    ensures OneAccepts(d, b, v)
  {
    hide Accepts, AnyAccepts, AllAccept, PrefixAccept, IsOnly;
    var i :| IsOnly(d, a.items, i, v);
    OnlyImplies(d, a, b, i, v);
  }

  lemma OnlyImplies(d: Dialect, a: Json, b: Json, i: int, v: Json)
    requires a.Array? && Aligned(d, a, b) && IsOnly(d, a.items, i, v)
    ensures IsOnly(d, b.items, i, v)
  {
    hide Accepts, AnyAccepts, AllAccept, PrefixAccept, OneAccepts;
  }

  lemma MapsSame(d: Dialect, key: string, a: Json, b: Json, v: Json)
    requires key in MAP_KEYWORDS && KeywordSame(d, key, a, b)
    ensures PropertiesAccept(d, a, v) <==> PropertiesAccept(d, b, v)
    ensures PatternsAccept(d, a, v) <==> PatternsAccept(d, b, v)
  {
    hide Accepts;
    if a.Object? {
      forall n, w | n in a.fields
        ensures Accepts(d, a.fields[n], w) <==> Accepts(d, b.fields[n], w)
      {
        assert Same(d, a.fields[n], b.fields[n]);
      }
    }
  }

  lemma ChildIsSame(d: Dialect, key: string, a: Json, b: Json, v: Json)
    requires key in CHILD_KEYWORDS && KeywordSame(d, key, a, b)
    ensures Accepts(d, a, v) <==> Accepts(d, b, v)
  {
    hide Accepts;
  }

  lemma FoundSame(d: Dialect, key: string, a: Json, b: Json, v: Json)
    requires key in CHILD_KEYWORDS && KeywordSame(d, key, a, b)
    ensures ContainsFound(d, a, v) == ContainsFound(d, b, v)
  {
    hide Accepts, KeywordSame;
    forall i
      ensures i in ContainsFound(d, a, v) <==> i in ContainsFound(d, b, v)
    {
      if v.Array? && 0 <= i < |v.items| { ChildIsSame(d, key, a, b, v.items[i]); }
    }
  }

  lemma ChildrenSame(d: Dialect, key: string, a: Json, b: Json, named: iset<string>, prefix: nat, v: Json)
    requires key in CHILD_KEYWORDS && KeywordSame(d, key, a, b)
    ensures AdditionalAccept(d, a, named, v) <==> AdditionalAccept(d, b, named, v)
    ensures ItemsAccept(d, a, prefix, v) <==> ItemsAccept(d, b, prefix, v)
    ensures ContainsFound(d, a, v) == ContainsFound(d, b, v)
    ensures Accepts(d, a, v) <==> Accepts(d, b, v)
    ensures v.Object? ==>
      ((forall n :: n in v.fields ==> Accepts(d, a, Str(n))) <==> (forall n :: n in v.fields ==> Accepts(d, b, Str(n))))
  {
    hide Accepts, AnyAccepts, AllAccept, OneAccepts, PrefixAccept, KeywordSame, ContainsFound;
    ListsSame(d, key, a, b, v);
    FoundSame(d, key, a, b, v);
    assert a.Array? <==> b.Array? by { ArraysAlike(d, key, a, b); }
    forall w
      ensures Accepts(d, a, w) <==> Accepts(d, b, w)
    {
      ChildIsSame(d, key, a, b, w);
    }
  }

  lemma ArraysAlike(d: Dialect, key: string, a: Json, b: Json)
    requires key in CHILD_KEYWORDS && KeywordSame(d, key, a, b)
    ensures a.Array? <==> b.Array?
  {
    hide Accepts;
  }

  lemma RestSame(d: Dialect, s: map<string, Json>, t: map<string, Json>)
    requires SchemaSame(d, s, t)
    ensures Untouched(s) == Untouched(t)
    ensures Named(d, s) == Named(d, t)
    ensures PrefixLength(s) == PrefixLength(t)
    ensures forall v :: TypeAccepts(s, v) <==> TypeAccepts(t, v)
    ensures forall v :: ConstAccepts(d, s, v) <==> ConstAccepts(d, t, v)
  {
    hide *;
    PrefixLengthSame(d, s, t);
    TypeAndConstSame(d, s, t);
    NamedSame(d, s, t);
    UntouchedSame(d, s, t);
  }

  lemma PrefixLengthSame(d: Dialect, s: map<string, Json>, t: map<string, Json>)
    requires SchemaSame(d, s, t)
    ensures PrefixLength(s) == PrefixLength(t)
  {
    hide Same;
    assert "prefixItems" in s ==> KeywordSame(d, "prefixItems", s["prefixItems"], t["prefixItems"]);
  }

  /** Keywords the rewrite does not look into keep their value. */
  lemma PlainKeywordSame(d: Dialect, s: map<string, Json>, t: map<string, Json>, key: string)
    requires SchemaSame(d, s, t) && (key == "type" || key == "const")
    ensures (key in s <==> key in t) && (key in s ==> s[key] == t[key])
  {
    hide Same;
    assert key in s ==> KeywordSame(d, key, s[key], t[key]);
  }

  lemma TypeAndConstSame(d: Dialect, s: map<string, Json>, t: map<string, Json>)
    requires SchemaSame(d, s, t)
    ensures forall v :: TypeAccepts(s, v) <==> TypeAccepts(t, v)
    ensures forall v :: ConstAccepts(d, s, v) <==> ConstAccepts(d, t, v)
  {
    hide Same, SchemaSame, KeywordSame, MatchesType;
    PlainKeywordSame(d, s, t, "type");
    PlainKeywordSame(d, s, t, "const");
  }

  lemma UntouchedSame(d: Dialect, s: map<string, Json>, t: map<string, Json>)
    requires SchemaSame(d, s, t)
    ensures Untouched(s) == Untouched(t)
  {
    hide Same;
    forall key | key in Untouched(s)
      ensures Untouched(s)[key] == Untouched(t)[key]
    {
      assert KeywordSame(d, key, s[key], t[key]);
    }
    assert Untouched(s).Keys == Untouched(t).Keys;
  }

  lemma NamedSame(d: Dialect, s: map<string, Json>, t: map<string, Json>)
    requires SchemaSame(d, s, t)
    ensures Named(d, s) == Named(d, t)
  {
    hide Same;
    assert "properties" in s ==> KeywordSame(d, "properties", s["properties"], t["properties"]);
    assert "patternProperties" in s ==>
      KeywordSame(d, "patternProperties", s["patternProperties"], t["patternProperties"]);
  }

  /** The clauses of `Accepts` that look into subschemas. */
  ghost predicate Nested(d: Dialect, s: map<string, Json>, v: Json) {
    && ("anyOf" in s ==> AnyAccepts(d, s["anyOf"], v))
    && ("oneOf" in s ==> OneAccepts(d, s["oneOf"], v))
    && ("allOf" in s ==> AllAccept(d, s["allOf"], v))
    && ("not" in s ==> !Accepts(d, s["not"], v))
    && ("if" in s ==>
          if Accepts(d, s["if"], v) then ("then" in s ==> Accepts(d, s["then"], v))
          else ("else" in s ==> Accepts(d, s["else"], v)))
    && ("properties" in s ==> PropertiesAccept(d, s["properties"], v))
    && ("patternProperties" in s ==> PatternsAccept(d, s["patternProperties"], v))
    && ("additionalProperties" in s ==> AdditionalAccept(d, s["additionalProperties"], Named(d, s), v))
    && ("propertyNames" in s && v.Object? ==> forall n :: n in v.fields ==> Accepts(d, s["propertyNames"], Str(n)))
    && ("prefixItems" in s ==> PrefixAccept(d, s["prefixItems"], v))
    && ("items" in s ==> ItemsAccept(d, s["items"], PrefixLength(s), v))
    && d.other(Untouched(s), v, if "contains" in s then Some(|ContainsFound(d, s["contains"], v)|) else None)
  }

  lemma NestedSame(d: Dialect, s: map<string, Json>, t: map<string, Json>, v: Json)
    requires SchemaSame(d, s, t)
    ensures Nested(d, s, v) <==> Nested(d, t, v)
  {
    hide Accepts, AnyAccepts, OneAccepts, AllAccept, PropertiesAccept, PatternsAccept, AdditionalAccept, PrefixAccept,
         ItemsAccept, ContainsFound, Named, PrefixLength, Untouched, KeywordSame, Same;
    RestSame(d, s, t);
    forall key | key in s && key in LIST_KEYWORDS
      ensures AnyAccepts(d, s[key], v) <==> AnyAccepts(d, t[key], v)
      ensures AllAccept(d, s[key], v) <==> AllAccept(d, t[key], v)
      ensures OneAccepts(d, s[key], v) <==> OneAccepts(d, t[key], v)
      ensures PrefixAccept(d, s[key], v) <==> PrefixAccept(d, t[key], v)
    {
      ListsSame(d, key, s[key], t[key], v);
    }
    forall key | key in s && key in MAP_KEYWORDS
      ensures PropertiesAccept(d, s[key], v) <==> PropertiesAccept(d, t[key], v)
      ensures PatternsAccept(d, s[key], v) <==> PatternsAccept(d, t[key], v)
    {
      MapsSame(d, key, s[key], t[key], v);
    }
    forall key | key in s && key in CHILD_KEYWORDS
      ensures AdditionalAccept(d, s[key], Named(d, s), v) <==> AdditionalAccept(d, t[key], Named(d, s), v)
      ensures ItemsAccept(d, s[key], PrefixLength(s), v) <==> ItemsAccept(d, t[key], PrefixLength(s), v)
      ensures ContainsFound(d, s[key], v) == ContainsFound(d, t[key], v)
      ensures Accepts(d, s[key], v) <==> Accepts(d, t[key], v)
      ensures v.Object? ==>
        ((forall n :: n in v.fields ==> Accepts(d, s[key], Str(n))) <==>
         (forall n :: n in v.fields ==> Accepts(d, t[key], Str(n))))
    {
      ChildrenSame(d, key, s[key], t[key], Named(d, s), PrefixLength(s), v);
    }
  }

  lemma AcceptsSplits(d: Dialect, s: map<string, Json>, v: Json)
    ensures Accepts(d, Object(s), v) <==>
            TypeAccepts(s, v) && EnumAccepts(d, s, v) && ConstAccepts(d, s, v) && Nested(d, s, v)
  {
  }

  lemma {:induction false} KeptMembers(values: seq<Json>, types: seq<string>, x: Json)
    ensures x in KeptLiterals(values, types) <==> x in values && MatchesType(x, types)
  {
    if values != [] {
      KeptMembers(values[1..], types, x);
    }
  }

  /** Filtering a covered `enum` cannot be noticed by a value of the declared types. */
  lemma EnumSame(d: Dialect, s: map<string, Json>, t: map<string, Json>, depth: nat, v: Json)
    requires EnumCovered(d, s) && TypeAccepts(s, v) && "enum" in s && "enum" in t
    requires t["enum"] == NormalizeKeyword("enum", s["enum"], DeclaredTypes(s), depth)
    ensures EnumAccepts(d, s, v) <==> EnumAccepts(d, t, v)
  {
    var types := DeclaredTypes(s);
    if s["enum"].Array? && types != [] {
      var values, kept := s["enum"].items, KeptLiterals(s["enum"].items, types);
      assert t["enum"] == Array(kept);
      forall x
        ensures x in kept <==> x in values && MatchesType(x, types)
      {
        KeptMembers(values, types, x);
      }
      assert EnumAccepts(d, s, v) <==> exists x :: x in values && d.equal(x, v);
      assert EnumAccepts(d, t, v) <==> exists x :: x in kept && d.equal(x, v);
      if x :| x in values && d.equal(x, v) && !MatchesType(x, types) {
        assert Covered(d, values, types, v);
      }
    }
  }

  lemma {:induction false} RewriteKeyword(d: Dialect, key: string, value: Json, types: seq<string>, depth: nat)
    requires ChildrenFit(key, value, depth) && ChildrenCovered(d, key, value, depth)
    ensures KeywordSame(d, key, value, NormalizeKeyword(key, value, types, depth))
    decreases value, 1
  {
    hide Accepts, Dropped, LiteralsFit, LiteralsCovered, DeclaredTypes, KeptLiterals;
    if key in MAP_KEYWORDS && value.Object? {
      forall n | n in value.fields
        ensures Same(d, value.fields[n], NormalizeValue(value.fields[n], depth + 1))
      {
        RewriteKeepsMeaning(d, value.fields[n], depth + 1);
      }
    }
    if key in LIST_KEYWORDS + CHILD_KEYWORDS && value.Array? {
      forall i | 0 <= i < |value.items|
        ensures Same(d, value.items[i], NormalizeValue(value.items[i], depth + 1))
      {
        RewriteKeepsMeaning(d, value.items[i], depth + 1);
      }
      ListAcceptsAll(d, value, NormalizeKeyword(key, value, types, depth));
    } else if key in CHILD_KEYWORDS {
      RewriteKeepsMeaning(d, value, depth + 1);
    }
  }

  lemma ListAcceptsAll(d: Dialect, a: Json, b: Json)
    requires a.Array? && b.Array?
    ensures Same(d, a, b)
  {
  }

  /**
  The rewritten schema accepts exactly the same values, under any nesting of unions,
  negations, conditionals and object or array keywords, however literals are compared and
  whatever other keywords say about the value from their own text and the count of `contains`.
  */
  lemma {:induction false} RewriteKeepsMeaning(d: Dialect, value: Json, depth: nat)
    requires LiteralsFit(value, depth) && LiteralsCovered(d, value, depth)
    ensures Same(d, value, NormalizeValue(value, depth))
    decreases value, 0
  {
    hide Accepts, Nested, TypeAccepts, EnumAccepts, ConstAccepts, NormalizeKeyword, KeywordSame, ChildrenFit,
         ChildrenCovered, EnumCovered, DeclaredTypes;
    if value.Object? && depth <= MAX_TOOL_SCHEMA_LITERAL_DEPTH {
      var s, t := value.fields, NormalizeValue(value, depth).fields;
      assert s.Keys == t.Keys;
      forall key | key in s
        ensures KeywordSame(d, key, s[key], t[key])
      {
        RewriteKeyword(d, key, s[key], DeclaredTypes(s), depth);
      }
      RestSame(d, s, t);
      forall v
        ensures Accepts(d, value, v) <==> Accepts(d, NormalizeValue(value, depth), v)
      {
        AcceptsSplits(d, s, v);
        AcceptsSplits(d, t, v);
        NestedSame(d, s, t, v);
        if TypeAccepts(s, v) { EnumEither(d, s, t, depth, v); }
      }
    }
  }

  lemma EnumEither(d: Dialect, s: map<string, Json>, t: map<string, Json>, depth: nat, v: Json)
    requires EnumCovered(d, s) && TypeAccepts(s, v) && s.Keys == t.Keys
    requires "enum" in s ==> t["enum"] == NormalizeKeyword("enum", s["enum"], DeclaredTypes(s), depth)
    ensures EnumAccepts(d, s, v) <==> EnumAccepts(d, t, v)
  {
    if "enum" in s { EnumSame(d, s, t, depth, v); }
  }

  // ---------------------------------------------------------------------
  // Which equalities of literals are covered
  // ---------------------------------------------------------------------

  /** If literals held differently are different, there is nothing to cover. */
  lemma {:induction false} TypedEqualityCovers(d: Dialect, value: Json, depth: nat)
    requires d.RespectsTypes()
    ensures LiteralsCovered(d, value, depth)
    decreases value, 0
  {
    if value.Object? && depth <= MAX_TOOL_SCHEMA_LITERAL_DEPTH {
      forall key | key in value.fields
        ensures ChildrenCovered(d, key, value.fields[key], depth)
      {
        TypedEqualityCoversChildren(d, key, value.fields[key], depth);
      }
    }
  }

  lemma {:induction false} TypedEqualityCoversChildren(d: Dialect, key: string, value: Json, depth: nat)
    requires d.RespectsTypes()
    ensures ChildrenCovered(d, key, value, depth)
    decreases value, 1
  {
    hide LiteralsCovered;
    if value.Object? {
      forall n | n in value.fields
        ensures LiteralsCovered(d, value.fields[n], depth + 1)
      {
        TypedEqualityCovers(d, value.fields[n], depth + 1);
      }
    }
    if value.Array? {
      forall i | 0 <= i < |value.items|
        ensures LiteralsCovered(d, value.items[i], depth + 1)
      {
        TypedEqualityCovers(d, value.items[i], depth + 1);
      }
    }
    TypedEqualityCovers(d, value, depth + 1);
  }

  /** In an integer `enum` that is not a number `enum`, every whole double has its integer beside it. */
  ghost predicate WholesBeside(schema: map<string, Json>) {
    var types := DeclaredTypes(schema);
    "enum" in schema && schema["enum"].Array? && "integer" in types && "number" !in types ==>
      forall x: real :: Num(Float(x)) in schema["enum"].items && x.Floor as real == x ==>
        Num(Integer(x.Floor)) in schema["enum"].items
  }

  ghost predicate AllWholesBeside(value: Json, depth: nat)
    decreases value, 0
  {
    value.Object? && depth <= MAX_TOOL_SCHEMA_LITERAL_DEPTH ==>
      && WholesBeside(value.fields)
      && forall key :: key in value.fields ==> ChildrenWholesBeside(key, value.fields[key], depth)
  }

  ghost predicate ChildrenWholesBeside(key: string, value: Json, depth: nat)
    decreases value, 1
  {
    && (key in MAP_KEYWORDS && value.Object? ==>
          forall n :: n in value.fields ==> AllWholesBeside(value.fields[n], depth + 1))
    && ((key in LIST_KEYWORDS || key in CHILD_KEYWORDS) && value.Array? ==>
          forall i :: 0 <= i < |value.items| ==> AllWholesBeside(value.items[i], depth + 1))
    && (key in CHILD_KEYWORDS ==> AllWholesBeside(value, depth + 1))
  }

  /** Under numeric equality an `enum` is covered exactly when its whole doubles have their integers. */
  lemma NumericEnumCoveredIff(d: Dialect, s: map<string, Json>)
    requires d.ComparesNumbers()
    ensures EnumCovered(d, s) <==> WholesBeside(s)
  {
    var types := DeclaredTypes(s);
    if "enum" in s && s["enum"].Array? && types != [] {
      var values := s["enum"].items;
      if EnumCovered(d, s) && "integer" in types && "number" !in types {
        forall x: real | Num(Float(x)) in values && x.Floor as real == x
          ensures Num(Integer(x.Floor)) in values
        {
          var v := Num(Integer(x.Floor));
          assert d.equal(Num(Float(x)), v);
          var y :| y in values && MatchesType(y, types) && d.equal(y, v);
          assert y == v;
        }
      }
      if WholesBeside(s) {
        forall x, v | x in values && !MatchesType(x, types) && MatchesType(v, types) && d.equal(x, v)
          ensures Covered(d, values, types, v)
        {
          assert x.Num? && x.number.Float? && v.Num? && v.number.Integer?;
          assert x.number.x.Floor == v.number.n;
          assert v in values && d.equal(v, v);
        }
      }
    }
  }

  lemma {:induction false} NumericCoveredIff(d: Dialect, value: Json, depth: nat)
    requires d.ComparesNumbers()
    ensures LiteralsCovered(d, value, depth) <==> AllWholesBeside(value, depth)
    decreases value, 0
  {
    hide EnumCovered, WholesBeside, ChildrenCovered, ChildrenWholesBeside;
    if value.Object? && depth <= MAX_TOOL_SCHEMA_LITERAL_DEPTH {
      NumericEnumCoveredIff(d, value.fields);
      forall key | key in value.fields
        ensures ChildrenCovered(d, key, value.fields[key], depth) <==>
          ChildrenWholesBeside(key, value.fields[key], depth)
      {
        NumericChildrenCoveredIff(d, key, value.fields[key], depth);
      }
    }
  }

  lemma {:induction false} NumericChildrenCoveredIff(d: Dialect, key: string, value: Json, depth: nat)
    requires d.ComparesNumbers()
    ensures ChildrenCovered(d, key, value, depth) <==> ChildrenWholesBeside(key, value, depth)
    decreases value, 1
  {
    hide LiteralsCovered, AllWholesBeside;
    if value.Object? {
      forall n | n in value.fields
        ensures LiteralsCovered(d, value.fields[n], depth + 1) <==> AllWholesBeside(value.fields[n], depth + 1)
      {
        NumericCoveredIff(d, value.fields[n], depth + 1);
      }
    }
    if value.Array? {
      forall i | 0 <= i < |value.items|
        ensures LiteralsCovered(d, value.items[i], depth + 1) <==> AllWholesBeside(value.items[i], depth + 1)
      {
        NumericCoveredIff(d, value.items[i], depth + 1);
      }
    }
    NumericCoveredIff(d, value, depth + 1);
  }

  /** What a caller reads off the schema, for numbers that are compared by value. */
  lemma RewriteKeepsNumericMeaning(d: Dialect, value: Json, depth: nat)
    requires d.ComparesNumbers() && LiteralsFit(value, depth) && AllWholesBeside(value, depth)
    ensures Same(d, value, NormalizeValue(value, depth))
  {
    hide LiteralsFit, LiteralsCovered, AllWholesBeside, Same;
    NumericCoveredIff(d, value, depth);
    RewriteKeepsMeaning(d, value, depth);
  }

  // ---------------------------------------------------------------------
  // Normalising twice
  // ---------------------------------------------------------------------

  lemma {:induction false} KeptTwice(values: seq<Json>, types: seq<string>)
    ensures KeptLiterals(KeptLiterals(values, types), types) == KeptLiterals(values, types)
  {
    if values != [] { KeptTwice(values[1..], types); }
  }

  lemma SameTypes(value: Json, depth: nat)
    requires value.Object? && depth <= MAX_TOOL_SCHEMA_LITERAL_DEPTH
    ensures DeclaredTypes(NormalizeValue(value, depth).fields) == DeclaredTypes(value.fields)
  {
  }

  lemma NothingLeftToDrop(value: Json, depth: nat, key: string)
    requires value.Object? && depth <= MAX_TOOL_SCHEMA_LITERAL_DEPTH
    requires key in NormalizeValue(value, depth).fields
    ensures !Dropped(NormalizeValue(value, depth).fields, key)
  {
    var types := DeclaredTypes(value.fields);
    SameTypes(value, depth);
    if key == "enum" && value.fields[key].Array? && types != [] {
      KeptTwice(value.fields[key].items, types);
    }
  }

  lemma {:induction false} KeywordTwice(key: string, value: Json, types: seq<string>, depth: nat)
    ensures NormalizeKeyword(key, NormalizeKeyword(key, value, types, depth), types, depth)
         == NormalizeKeyword(key, value, types, depth)
    decreases value, 1
  {
    var once := NormalizeKeyword(key, value, types, depth);
    if key == "enum" {
      if value.Array? { KeptTwice(value.items, types); }
    } else if key in MAP_KEYWORDS {
      if value.Object? {
        forall n | n in value.fields
          ensures NormalizeValue(once.fields[n], depth + 1) == once.fields[n]
        {
          NormalizeTwice(value.fields[n], depth + 1);
        }
        assert NormalizeKeyword(key, once, types, depth).fields == once.fields;
      }
    } else if key in LIST_KEYWORDS + CHILD_KEYWORDS {
      if value.Array? {
        forall i | 0 <= i < |value.items|
          ensures NormalizeValue(once.items[i], depth + 1) == once.items[i]
        {
          NormalizeTwice(value.items[i], depth + 1);
        }
        assert NormalizeKeyword(key, once, types, depth).items == once.items;
      } else if key in CHILD_KEYWORDS {
        NormalizeTwice(value, depth + 1);
      }
    }
  }

  /** Normalising twice equals normalising once. */
  lemma {:induction false} NormalizeTwice(value: Json, depth: nat)
    ensures NormalizeValue(NormalizeValue(value, depth), depth) == NormalizeValue(value, depth)
    decreases value, 0
  {
    hide Dropped, NormalizeKeyword, DeclaredTypes;
    if value.Object? && depth <= MAX_TOOL_SCHEMA_LITERAL_DEPTH {
      var once := NormalizeValue(value, depth);
      SameTypes(value, depth);
      forall key | key in once.fields
        ensures !Dropped(once.fields, key)
        ensures NormalizeKeyword(key, once.fields[key], DeclaredTypes(once.fields), depth) == once.fields[key]
      {
        NothingLeftToDrop(value, depth, key);
        KeywordTwice(key, value.fields[key], DeclaredTypes(value.fields), depth);
      }
      assert NormalizeValue(once, depth).fields == once.fields;
    }
  }

  // ---------------------------------------------------------------------
  // The condition is needed
  // ---------------------------------------------------------------------

  /** Literal equality as the bridge compares values; no keyword beyond the modelled ones. */
  ghost function Plain(): Dialect {
    Dialect((a: Json, b: Json) => a == b, (p: string, n: string) => false,
            (rest: map<string, Json>, v: Json, found: Option<nat>) => true)
  }

  /**
  For a schema of literals only, with a type some value has and no empty `enum`, the
  rewrite keeps the accepted values exactly when every typed literal fits.
  */
  lemma LiteralSchemaSameIff(s: map<string, Json>, sample: Json)
    requires s.Keys <= {"type", "enum", "const"}
    requires MatchesType(sample, DeclaredTypes(s))
    requires "enum" in s && s["enum"].Array? ==> s["enum"].items != []
    ensures Same(Plain(), Object(s), NormalizeValue(Object(s), 0)) <==> LiteralsFit(Object(s), 0)
  {
    hide Accepts, LiteralsFit;
    if LiteralsFit(Object(s), 0) {
      TypedEqualityCovers(Plain(), Object(s), 0);
      RewriteKeepsMeaning(Plain(), Object(s), 0);
    } else {
      var w := Witness(s, sample);
      WitnessIsAccepted(s, sample);
      WitnessWasRejected(s, sample);
      assert Accepts(Plain(), NormalizeValue(Object(s), 0), w);
    }
  }

  /** A value that the rewritten schema of literals accepts. */
  ghost function Witness(s: map<string, Json>, sample: Json): Json {
    var types := DeclaredTypes(s);
    if "const" in s && MatchesType(s["const"], types) then s["const"]
    else if "enum" in s && s["enum"].Array? && KeptLiterals(s["enum"].items, types) != [] then
      KeptLiterals(s["enum"].items, types)[0]
    else sample
  }

  lemma WitnessIsAccepted(s: map<string, Json>, sample: Json)
    requires s.Keys <= {"type", "enum", "const"} && MatchesType(sample, DeclaredTypes(s))
    requires "enum" in s && s["enum"].Array? ==> s["enum"].items != []
    requires !LiteralsFit(Object(s), 0)
    ensures Accepts(Plain(), NormalizeValue(Object(s), 0), Witness(s, sample))
  {
    hide KeptLiterals, Accepts, Nested, LiteralsFit;
    var t, types, w := NormalizeValue(Object(s), 0).fields, DeclaredTypes(s), Witness(s, sample);
    OneIsDropped(s);
    if "enum" in s && s["enum"].Array? && KeptLiterals(s["enum"].items, types) != [] {
      KeptMembers(s["enum"].items, types, KeptLiterals(s["enum"].items, types)[0]);
    }
    SameTypes(Object(s), 0);
    NothingNested(Plain(), t, w);
    AcceptsSplits(Plain(), t, w);
  }

  lemma NothingNested(d: Dialect, t: map<string, Json>, w: Json)
    requires t.Keys <= {"type", "enum", "const"} && d.other == Plain().other
    ensures Nested(d, t, w)
  {
  }

  lemma OneIsDropped(s: map<string, Json>)
    requires s.Keys <= {"type", "enum", "const"} && !LiteralsFit(Object(s), 0)
    ensures ("enum" in s && Dropped(s, "enum")) || ("const" in s && Dropped(s, "const"))
  {
    var key :| key in s && (Dropped(s, key) || !ChildrenFit(key, s[key], 0));
    assert Dropped(s, key);
  }

  lemma WitnessWasRejected(s: map<string, Json>, sample: Json)
    requires s.Keys <= {"type", "enum", "const"} && !LiteralsFit(Object(s), 0)
    ensures forall w :: !Accepts(Plain(), Object(s), w)
  {
    OneIsDropped(s);
    forall w
      ensures !Accepts(Plain(), Object(s), w)
    {
      if Accepts(Plain(), Object(s), w) && "enum" in s && Dropped(s, "enum") {
        KeptMembers(s["enum"].items, DeclaredTypes(s), w);
      }
    }
  }

  /** A mismatched `const` loses its meaning: the rewritten schema accepts every string. */
  lemma MismatchedConstIsForgotten()
    ensures var schema := Object(map["type" := Str("string"), "const" := Num(Integer(5))]);
            && !Accepts(Plain(), schema, Str("x"))
            && Accepts(Plain(), NormalizeValue(schema, 0), Str("x"))
  {
    var s := map["type" := Str("string"), "const" := Num(Integer(5))];
    assert DeclaredTypes(s) == ["string"];
    assert Dropped(s, "const");
    var t := NormalizeValue(Object(s), 0).fields;
    assert t == map["type" := Str("string")];
  }

  const ONE_AND_TWO: seq<Json> := [Num(Float(1.0)), Num(Integer(2))]

  const INTEGER_ENUM: map<string, Json> := map["type" := Str("integer"), "enum" := Array(ONE_AND_TWO)]

  lemma OneIsDroppedFromEnum()
    ensures LiteralsFit(Object(INTEGER_ENUM), 0)
    ensures NormalizeValue(Object(INTEGER_ENUM), 0) ==
            Object(map["type" := Str("integer"), "enum" := Array([Num(Integer(2))])])
  {
    var s, values := INTEGER_ENUM, ONE_AND_TWO;
    assert DeclaredTypes(s) == ["integer"];
    assert values[1..] == [Num(Integer(2))] && values[1..][1..] == [];
    assert KeptLiterals(values, ["integer"]) == [Num(Integer(2))];
    assert !Dropped(s, "enum") && !Dropped(s, "type");
  }

  /**
  Under numeric equality of literals, which ignores how a number is held, even a rewrite
  that keeps a literal loses a value: 1.0 is dropped from an integer `enum`, and 1 with it.
  */
  lemma NumericEqualityIsNotKept(d: Dialect)
    requires d.other == Plain().other
    requires d.equal(Num(Float(1.0)), Num(Integer(1))) && !d.equal(Num(Integer(2)), Num(Integer(1)))
    ensures LiteralsFit(Object(INTEGER_ENUM), 0)
    ensures Accepts(d, Object(INTEGER_ENUM), Num(Integer(1)))
    ensures !Accepts(d, NormalizeValue(Object(INTEGER_ENUM), 0), Num(Integer(1)))
  {
    hide Accepts, Nested, NormalizeValue, LiteralsFit;
    var s := INTEGER_ENUM;
    var t := map["type" := Str("integer"), "enum" := Array([Num(Integer(2))])];
    var v := Num(Integer(1));
    OneIsDroppedFromEnum();
    assert DeclaredTypes(s) == ["integer"] && DeclaredTypes(t) == ["integer"];
    assert d.equal(s["enum"].items[0], v);
    NothingNested(d, s, v);
    NothingNested(d, t, v);
    AcceptsSplits(d, s, v);
    AcceptsSplits(d, t, v);
  }

  // ---------------------------------------------------------------------
  // The exact condition for literals, under any equality of values
  // ---------------------------------------------------------------------

  /** An equality of JSON values that crosses types only between numbers of equal value. */
  ghost predicate IsEquality(d: Dialect) {
    && (forall a :: d.equal(a, a))
    && (forall a, b :: d.equal(a, b) ==> d.equal(b, a))
    && (forall a, b, c :: d.equal(a, b) && d.equal(b, c) ==> d.equal(a, c))
    && (forall a, b :: d.equal(a, b) ==>
          TypeName(a) == TypeName(b) || (a.Num? && b.Num? && NumericValue(a.number) == NumericValue(b.number)))
  }

  ghost function Literals(s: map<string, Json>): seq<Json> {
    if "enum" in s && s["enum"].Array? then s["enum"].items else []
  }

  ghost function Kept(s: map<string, Json>): seq<Json> {
    KeptLiterals(Literals(s), DeclaredTypes(s))
  }

  ghost predicate Equals(d: Dialect, values: seq<Json>, v: Json) {
    exists x :: x in values && d.equal(x, v)
  }

  /**
  Without a `const`, an `enum` must keep a literal and be covered. A `const` that fits must
  stay admitted by the `enum` if it was, and stay excluded if it was. A `const` that does not
  fit, and goes away, must equal all that the `enum` keeps.
  */
  ghost predicate LiteralsKept(d: Dialect, s: map<string, Json>) {
    var values, kept := Literals(s), Kept(s);
    if "const" !in s then values != [] ==> kept != [] && EnumCovered(d, s)
    else if MatchesType(s["const"], DeclaredTypes(s)) then
      values != [] ==> (Equals(d, values, s["const"]) <==> kept == [] || Equals(d, kept, s["const"]))
    else kept != [] && forall y :: y in kept ==> d.equal(s["const"], y)
  }

  /** What a schema of literals accepts. */
  lemma LiteralSchemaAccepts(d: Dialect, s: map<string, Json>, v: Json)
    requires s.Keys <= {"type", "enum", "const"} && d.other == Plain().other && DeclaredTypes(s) != []
    requires "enum" in s && s["enum"].Array? ==> s["enum"].items != []
    ensures Accepts(d, Object(s), v) <==>
      MatchesType(v, DeclaredTypes(s)) && (Literals(s) != [] ==> Equals(d, Literals(s), v))
      && ("const" in s ==> d.equal(s["const"], v))
  {
    hide Accepts, Nested, MatchesType, DeclaredTypes;
    AcceptsSplits(d, s, v);
    NothingNested(d, s, v);
    TypedBy(s);
    assert EnumAccepts(d, s, v) <==> (Literals(s) != [] ==> Equals(d, Literals(s), v));
  }

  lemma TypedBy(s: map<string, Json>)
    requires DeclaredTypes(s) != []
    ensures "type" in s && (s["type"].Str? || s["type"].Array?)
  {
  }

  /** What its rewrite accepts. */
  lemma RewrittenLiteralsAccept(d: Dialect, s: map<string, Json>, v: Json)
    requires s.Keys <= {"type", "enum", "const"} && d.other == Plain().other && DeclaredTypes(s) != []
    requires "enum" in s && s["enum"].Array? ==> s["enum"].items != []
    ensures Accepts(d, NormalizeValue(Object(s), 0), v) <==>
      MatchesType(v, DeclaredTypes(s)) && (Kept(s) != [] ==> Equals(d, Kept(s), v))
      && ("const" in s && MatchesType(s["const"], DeclaredTypes(s)) ==> d.equal(s["const"], v))
  {
    hide Accepts, Nested, MatchesType, DeclaredTypes, KeptLiterals;
    var t := NormalizeValue(Object(s), 0).fields;
    SameTypes(Object(s), 0);
    RewrittenLiterals(s);
    LiteralSchemaAccepts(d, t, v);
  }

  lemma RewrittenLiterals(s: map<string, Json>)
    requires s.Keys <= {"type", "enum", "const"} && DeclaredTypes(s) != []
    requires "enum" in s && s["enum"].Array? ==> s["enum"].items != []
    ensures var t := NormalizeValue(Object(s), 0).fields;
            && t.Keys <= {"type", "enum", "const"} && Literals(t) == Kept(s)
            && ("enum" in t && t["enum"].Array? ==> t["enum"].items != [])
            && ("const" in t <==> "const" in s && MatchesType(s["const"], DeclaredTypes(s)))
            && ("const" in t ==> t["const"] == s["const"])
  {
    hide MatchesType, DeclaredTypes;
  }

  lemma {:induction false} NumbersBelow(values: seq<Json>) returns (n: int)
    ensures forall x :: x in values && x.Num? ==> NumericValue(x.number) < n as real
  {
    n := 0;
    if values != [] {
      n := NumbersBelow(values[1..]);
      if values[0].Num? && NumericValue(values[0].number) >= n as real {
        n := NumericValue(values[0].number).Floor + 1;
      }
    }
  }

  /** If no literal has a declared type, some value of the declared types equals none of them. */
  lemma SomethingElse(d: Dialect, values: seq<Json>, types: seq<string>, sample: Json) returns (v: Json)
    requires IsEquality(d) && MatchesType(sample, types)
    requires forall x :: x in values ==> !MatchesType(x, types)
    ensures MatchesType(v, types) && !Equals(d, values, v)
  {
    v := sample;
    if Equals(d, values, sample) {
      var n := NumbersBelow(values);
      v := Num(Integer(n));
    }
  }

  lemma KeptMeans(s: map<string, Json>)
    ensures forall x :: x in Kept(s) <==> x in Literals(s) && MatchesType(x, DeclaredTypes(s))
  {
    forall x
      ensures x in Kept(s) <==> x in Literals(s) && MatchesType(x, DeclaredTypes(s))
    {
      KeptMembers(Literals(s), DeclaredTypes(s), x);
    }
  }

  ghost predicate LiteralSchema(d: Dialect, s: map<string, Json>, sample: Json) {
    && IsEquality(d) && d.other == Plain().other && s.Keys <= {"type", "enum", "const"}
    && MatchesType(sample, DeclaredTypes(s)) && ("enum" in s && s["enum"].Array? ==> s["enum"].items != [])
  }

  ghost predicate SameAt(d: Dialect, s: map<string, Json>, v: Json) {
    Accepts(d, Object(s), v) <==> Accepts(d, NormalizeValue(Object(s), 0), v)
  }

  /**
  For a schema of literals only, with a type some value has and no empty `enum`, and for any
  equality of values: the rewrite keeps the accepted values exactly when the literals are kept.
  */
  lemma LiteralSchemaKeptIff(d: Dialect, s: map<string, Json>, sample: Json)
    requires LiteralSchema(d, s, sample)
    ensures Same(d, Object(s), NormalizeValue(Object(s), 0)) <==> LiteralsKept(d, s)
  {
    hide *;
    SameEverywhere(d, s);
    if LiteralsKept(d, s) {
      forall v
        ensures SameAt(d, s, v)
      {
        KeptIsSame(d, s, sample, v);
      }
    } else {
      var v := LostValue(d, s, sample);
    }
  }

  lemma SameEverywhere(d: Dialect, s: map<string, Json>)
    ensures Same(d, Object(s), NormalizeValue(Object(s), 0)) <==> forall v :: SameAt(d, s, v)
  {
    hide Accepts, NormalizeValue;
    if forall v :: SameAt(d, s, v) {
      forall v
        ensures Accepts(d, Object(s), v) <==> Accepts(d, NormalizeValue(Object(s), 0), v)
      {
        assert SameAt(d, s, v);
      }
    }
  }

  lemma KeptIsSame(d: Dialect, s: map<string, Json>, sample: Json, v: Json)
    requires LiteralSchema(d, s, sample) && LiteralsKept(d, s)
    ensures SameAt(d, s, v)
  {
    hide Accepts, NormalizeValue, KeptLiterals, DeclaredTypes, Kept, Equals, MatchesType, IsEquality, EnumCovered;
    HasTypes(s, sample);
    LiteralSchemaAccepts(d, s, v);
    RewrittenLiteralsAccept(d, s, v);
    KeptMeans(s);
    NoneKept(s);
    KeptAreLiterals(d, s, v);
    if "const" !in s {
      if EnumCovered(d, s) && Equals(d, Literals(s), v) && MatchesType(v, DeclaredTypes(s)) { CoveredIsKept(d, s, v); }
    } else if d.equal(s["const"], v) {
      EqualsCongruent(d, Literals(s), s["const"], v);
      EqualsCongruent(d, Kept(s), s["const"], v);
      KeptAreLiterals(d, s, s["const"]);
      if !MatchesType(s["const"], DeclaredTypes(s)) { AllEqual(d, Kept(s), s["const"], v); }
    } else if !MatchesType(s["const"], DeclaredTypes(s)) {
      AllEqual(d, Kept(s), s["const"], v);
    }
  }

  lemma HasTypes(s: map<string, Json>, sample: Json)
    requires MatchesType(sample, DeclaredTypes(s))
    ensures DeclaredTypes(s) != []
  {
  }

  lemma KeptAreLiterals(d: Dialect, s: map<string, Json>, v: Json)
    ensures Equals(d, Kept(s), v) ==> Equals(d, Literals(s), v)
  {
    hide Kept;
    KeptMeans(s);
  }

  lemma EqualsCongruent(d: Dialect, values: seq<Json>, a: Json, b: Json)
    requires IsEquality(d) && d.equal(a, b)
    ensures Equals(d, values, a) <==> Equals(d, values, b)
  {
    if x :| x in values && d.equal(x, a) { assert d.equal(x, b); }
    if x :| x in values && d.equal(x, b) { assert d.equal(b, a) && d.equal(x, a); }
  }

  /** Values that all equal one value equal exactly what it equals. */
  lemma AllEqual(d: Dialect, values: seq<Json>, c: Json, v: Json)
    requires IsEquality(d) && values != [] && forall y :: y in values ==> d.equal(c, y)
    ensures Equals(d, values, v) <==> d.equal(c, v)
  {
    assert values[0] in values && d.equal(c, values[0]) && d.equal(values[0], c);
    if d.equal(c, v) { assert d.equal(values[0], v); }
    if x :| x in values && d.equal(x, v) { assert d.equal(c, x); }
  }

  lemma NoneKept(s: map<string, Json>)
    ensures Literals(s) == [] ==> Kept(s) == []
  {
  }

  lemma CoveredIsKept(d: Dialect, s: map<string, Json>, v: Json)
    requires EnumCovered(d, s) && DeclaredTypes(s) != []
    requires Equals(d, Literals(s), v) && MatchesType(v, DeclaredTypes(s))
    ensures Equals(d, Kept(s), v)
  {
    hide MatchesType, DeclaredTypes, Kept;
    KeptMeans(s);
    var x :| x in Literals(s) && d.equal(x, v);
    if !MatchesType(x, DeclaredTypes(s)) {
      assert Covered(d, Literals(s), DeclaredTypes(s), v);
    }
  }

  lemma LostValue(d: Dialect, s: map<string, Json>, sample: Json) returns (v: Json)
    requires LiteralSchema(d, s, sample) && !LiteralsKept(d, s)
    ensures !SameAt(d, s, v)
  {
    hide Accepts, NormalizeValue, KeptLiterals, DeclaredTypes, Kept, MatchesType;
    var values, kept, types := Literals(s), Kept(s), DeclaredTypes(s);
    HasTypes(s, sample);
    KeptMeans(s);
    NoneKept(s);
    if "const" in s && MatchesType(s["const"], types) {
      v := s["const"];
    } else if "const" in s {
      if kept == [] {
        v := SomethingElse(d, [s["const"]], types, sample);
      } else {
        v :| v in kept && !d.equal(s["const"], v);
      }
    } else if kept == [] {
      v := SomethingElse(d, values, types, sample);
    } else {
      var x;
      x, v :| x in values && !MatchesType(x, types) && MatchesType(v, types) && d.equal(x, v)
              && !Covered(d, values, types, v);
    }
    LiteralSchemaAccepts(d, s, v);
    RewrittenLiteralsAccept(d, s, v);
  }

  /**
  With numbers compared by value and no `const`, the meaning is kept exactly when the `enum`
  keeps a literal and every whole double in an integer `enum` has its integer beside it.
  */
  lemma NumericLiteralSchemaSameIff(d: Dialect, s: map<string, Json>, sample: Json)
    requires LiteralSchema(d, s, sample) && d.ComparesNumbers() && "const" !in s
    ensures Same(d, Object(s), NormalizeValue(Object(s), 0)) <==> LiteralsFit(Object(s), 0) && WholesBeside(s)
  {
    hide Same, LiteralsFit, MatchesType, DeclaredTypes, KeptLiterals, IsEquality, EnumCovered, WholesBeside,
         NormalizeValue;
    HasTypes(s, sample);
    LiteralSchemaKeptIff(d, s, sample);
    NumericEnumCoveredIff(d, s);
    NothingToCover(d, s);
    FitsIffSomethingKept(s);
  }

  lemma NothingToCover(d: Dialect, s: map<string, Json>)
    ensures Literals(s) == [] ==> EnumCovered(d, s)
  {
  }

  lemma FitsIffSomethingKept(s: map<string, Json>)
    requires s.Keys <= {"type", "enum"} && DeclaredTypes(s) != []
    ensures LiteralsFit(Object(s), 0) <==> (Literals(s) != [] ==> Kept(s) != [])
  {
    hide MatchesType, DeclaredTypes, KeptLiterals;
    if LiteralsFit(Object(s), 0) && "enum" in s { assert !Dropped(s, "enum"); }
  }

  /** Equality that compares numbers by value. */
  ghost function ByValue(): Dialect {
    Plain().(equal := (a: Json, b: Json) =>
      a == b || (a.Num? && b.Num? && NumericValue(a.number) == NumericValue(b.number)))
  }

  /** Both equalities are in scope of the theorem. */
  lemma EqualitiesOfValues()
    ensures IsEquality(Plain()) && Plain().RespectsTypes()
    ensures IsEquality(ByValue()) && ByValue().ComparesNumbers() && ByValue().other == Plain().other
  {
  }
}
