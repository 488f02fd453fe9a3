/**
Which values the plain object root accepts, compared with the union it replaces: not always
all of them, and a condition on the schema under which it does.
*/
module RootAcceptance {
  import opened Outcomes
  import opened Json
  import opened SchemaLiterals
  import opened ObjectRoot

  // ---------------------------------------------------------------------
  // What a union promises about each property
  // ---------------------------------------------------------------------

  ghost predicate ClosesOut(s: Fields, name: string) {
    && name !in PropertiesOf(s) && "patternProperties" !in s
    && "additionalProperties" in s && s["additionalProperties"] == Bool(false)
  }

  /**
  In every value that the schema accepts, a property of this name has this very schema or is
  absent. Local references are followed as deep as the rewrite follows them.
  */
  ghost predicate Guards(root: Fields, schema: Json, name: string, property: Json, depth: nat)
    decreases MAX_TOOL_SCHEMA_DEPTH + 1 - depth, schema
  {
    schema.Object? &&
    var s := schema.fields;
    || (name in PropertiesOf(s) && PropertiesOf(s)[name] == property)
    || ClosesOut(s, name)
    || ("anyOf" in s && s["anyOf"].Array? && AllGuard(root, s["anyOf"].items, name, property, depth))
    || ("oneOf" in s && s["oneOf"].Array? && AllGuard(root, s["oneOf"].items, name, property, depth))
    || ("allOf" in s && s["allOf"].Array? &&
        exists i :: 0 <= i < |s["allOf"].items| && Guards(root, s["allOf"].items[i], name, property, depth))
    || (HasRef(s) && depth <= MAX_TOOL_SCHEMA_DEPTH && ResolveLocalRef(s["$ref"].text, root).Some? &&
        Guards(root, Object(ResolveLocalRef(s["$ref"].text, root).value), name, property, depth + 1))
  }

  ghost predicate AllGuard(root: Fields, schemas: seq<Json>, name: string, property: Json, depth: nat)
    decreases MAX_TOOL_SCHEMA_DEPTH + 1 - depth, schemas
  {
    forall i :: 0 <= i < |schemas| ==> Guards(root, schemas[i], name, property, depth)
  }

  /** Every object that the schema accepts has a property of this name. */
  ghost predicate Demands(root: Fields, schema: Json, name: Json, depth: nat)
    decreases MAX_TOOL_SCHEMA_DEPTH + 1 - depth, schema
  {
    schema.Object? &&
    var s := schema.fields;
    || name in RequiredOf(s)
    || ("anyOf" in s && s["anyOf"].Array? && AllDemand(root, s["anyOf"].items, name, depth))
    || ("oneOf" in s && s["oneOf"].Array? && AllDemand(root, s["oneOf"].items, name, depth))
    || ("allOf" in s && s["allOf"].Array? &&
        exists i :: 0 <= i < |s["allOf"].items| && Demands(root, s["allOf"].items[i], name, depth))
    || (HasRef(s) && depth <= MAX_TOOL_SCHEMA_DEPTH && ResolveLocalRef(s["$ref"].text, root).Some? &&
        Demands(root, Object(ResolveLocalRef(s["$ref"].text, root).value), name, depth + 1))
  }

  ghost predicate AllDemand(root: Fields, schemas: seq<Json>, name: Json, depth: nat)
    decreases MAX_TOOL_SCHEMA_DEPTH + 1 - depth, schemas
  {
    forall i :: 0 <= i < |schemas| ==> Demands(root, schemas[i], name, depth)
  }

  // ---------------------------------------------------------------------
  // What is asked of the other keywords
  // ---------------------------------------------------------------------

  predicate HasRequired(untouched: Fields, v: Json) {
    v.Object? ==> forall i :: 0 <= i < |RequiredOf(untouched)| ==>
      RequiredOf(untouched)[i].Str? ==> RequiredOf(untouched)[i].text in v.fields
  }

  /** `required` and local references have their meaning; annotations accept everything. */
  ghost predicate KnowsKeywords(d: Dialect, root: Fields) {
    && (forall u: Fields, v, n :: d.other(u, v, n) ==> HasRequired(u, v))
    && (forall u: Fields, v, n ::
          u.Keys <= {"$schema", "description", "type", "required"} && HasRequired(u, v) ==> d.other(u, v, n))
    && (forall u: Fields, v, n ::
          d.other(u, v, n) && HasRef(u) && ResolveLocalRef(u["$ref"].text, root).Some? ==>
            Accepts(d, Object(ResolveLocalRef(u["$ref"].text, root).value), v))
  }

  lemma UntouchedKeeps(s: Fields)
    ensures RequiredOf(Untouched(s)) == RequiredOf(s)
    ensures HasRef(Untouched(s)) <==> HasRef(s)
    ensures HasRef(s) ==> Untouched(s)["$ref"] == s["$ref"]
  {
  }

  /** One node: what its acceptance says about the clauses used below. */
  lemma NodeAccepts(d: Dialect, root: Fields, s: Fields, v: Json)
    requires KnowsKeywords(d, root) && Accepts(d, Object(s), v)
    ensures HasRequired(s, v)
    ensures HasRef(s) && ResolveLocalRef(s["$ref"].text, root).Some? ==>
      Accepts(d, Object(ResolveLocalRef(s["$ref"].text, root).value), v)
    ensures "anyOf" in s ==> AnyAccepts(d, s["anyOf"], v)
    ensures "oneOf" in s ==> OneAccepts(d, s["oneOf"], v)
    ensures "allOf" in s ==> AllAccept(d, s["allOf"], v)
    ensures "properties" in s ==> PropertiesAccept(d, s["properties"], v)
    ensures "additionalProperties" in s ==> AdditionalAccept(d, s["additionalProperties"], Named(d, s), v)
  {
    hide Accepts, AnyAccepts, OneAccepts, AllAccept, PropertiesAccept, AdditionalAccept, PrefixAccept, PatternsAccept,
         ItemsAccept, ContainsFound, Named, PrefixLength, Untouched, HasRef, RequiredOf, ResolveLocalRef;
    AcceptsSplits(d, s, v);
    UntouchedKeeps(s);
  }

  /** A node of its own guards as `Guards` says. */
  lemma NodeGuards(d: Dialect, root: Fields, s: Fields, name: string, property: Json, v: Json)
    requires KnowsKeywords(d, root) && Accepts(d, Object(s), v) && v.Object? && name in v.fields
    requires (name in PropertiesOf(s) && PropertiesOf(s)[name] == property) || ClosesOut(s, name)
    ensures Accepts(d, property, v.fields[name])
  {
    hide Accepts, AnyAccepts, OneAccepts, AllAccept, KnowsKeywords;
    NodeAccepts(d, root, s, v);
    if name in PropertiesOf(s) {
      assert PropertiesAccept(d, s["properties"], v);
    } else {
      assert name !in Named(d, s);
      FalseAcceptsNothing(d, v.fields[name]);
    }
  }

  lemma FalseAcceptsNothing(d: Dialect, v: Json)
    ensures !Accepts(d, Bool(false), v)
  {
  }

  lemma SomeAlternative(d: Dialect, list: Json, v: Json) returns (i: int)
    requires list.Array? && (AnyAccepts(d, list, v) || OneAccepts(d, list, v))
    ensures 0 <= i < |list.items| && Accepts(d, list.items[i], v)
  {
    hide Accepts;
    if AnyAccepts(d, list, v) {
      i :| 0 <= i < |list.items| && Accepts(d, list.items[i], v);
    } else {
      i := OnlyAlternative(d, list, v);
    }
  }

  lemma OnlyAlternative(d: Dialect, list: Json, v: Json) returns (i: int)
    requires list.Array? && OneAccepts(d, list, v)
    ensures 0 <= i < |list.items| && Accepts(d, list.items[i], v)
  {
    hide Accepts;
    i :| IsOnly(d, list.items, i, v);
  }

  lemma {:induction false} GuardsKeep(
      d: Dialect, root: Fields, schema: Json, name: string, property: Json, depth: nat, v: Json)
    requires KnowsKeywords(d, root) && Accepts(d, schema, v) && v.Object? && name in v.fields
    requires Guards(root, schema, name, property, depth)
    ensures Accepts(d, property, v.fields[name])
    decreases MAX_TOOL_SCHEMA_DEPTH + 1 - depth, schema
  {
    hide Accepts, KnowsKeywords, AnyAccepts, OneAccepts, AllAccept, PropertiesAccept, AdditionalAccept, ClosesOut,
         PropertiesOf;
    var s := schema.fields;
    NodeAccepts(d, root, s, v);
    if (name in PropertiesOf(s) && PropertiesOf(s)[name] == property) || ClosesOut(s, name) {
      NodeGuards(d, root, s, name, property, v);
    } else if "anyOf" in s && s["anyOf"].Array? && AllGuard(root, s["anyOf"].items, name, property, depth) {
      var i := SomeAlternative(d, s["anyOf"], v);
      GuardsKeep(d, root, s["anyOf"].items[i], name, property, depth, v);
    } else if "oneOf" in s && s["oneOf"].Array? && AllGuard(root, s["oneOf"].items, name, property, depth) {
      var i := SomeAlternative(d, s["oneOf"], v);
      GuardsKeep(d, root, s["oneOf"].items[i], name, property, depth, v);
    } else if "allOf" in s && s["allOf"].Array? &&
              exists i :: 0 <= i < |s["allOf"].items| && Guards(root, s["allOf"].items[i], name, property, depth) {
      var i :| 0 <= i < |s["allOf"].items| && Guards(root, s["allOf"].items[i], name, property, depth);
      EveryAlternative(d, s["allOf"], i, v);
      GuardsKeep(d, root, s["allOf"].items[i], name, property, depth, v);
    } else {
      GuardsKeep(d, root, Object(ResolveLocalRef(s["$ref"].text, root).value), name, property, depth + 1, v);
    }
  }

  lemma EveryAlternative(d: Dialect, list: Json, i: int, v: Json)
    requires AllAccept(d, list, v) && list.Array? && 0 <= i < |list.items|
    ensures Accepts(d, list.items[i], v)
  {
    hide Accepts;
  }

  lemma {:induction false} DemandsKeep(d: Dialect, root: Fields, schema: Json, name: Json, depth: nat, v: Json)
    requires KnowsKeywords(d, root) && Accepts(d, schema, v) && v.Object? && Demands(root, schema, name, depth)
    ensures name.Str? ==> name.text in v.fields
    decreases MAX_TOOL_SCHEMA_DEPTH + 1 - depth, schema
  {
    hide Accepts, KnowsKeywords, AnyAccepts, OneAccepts, AllAccept, PropertiesAccept, AdditionalAccept, RequiredOf;
    var s := schema.fields;
    NodeAccepts(d, root, s, v);
    if name in RequiredOf(s) {
    } else if "anyOf" in s && s["anyOf"].Array? && AllDemand(root, s["anyOf"].items, name, depth) {
      var i := SomeAlternative(d, s["anyOf"], v);
      DemandsKeep(d, root, s["anyOf"].items[i], name, depth, v);
    } else if "oneOf" in s && s["oneOf"].Array? && AllDemand(root, s["oneOf"].items, name, depth) {
      var i := SomeAlternative(d, s["oneOf"], v);
      DemandsKeep(d, root, s["oneOf"].items[i], name, depth, v);
    } else if "allOf" in s && s["allOf"].Array? &&
              exists i :: 0 <= i < |s["allOf"].items| && Demands(root, s["allOf"].items[i], name, depth) {
      var i :| 0 <= i < |s["allOf"].items| && Demands(root, s["allOf"].items[i], name, depth);
      EveryAlternative(d, s["allOf"], i, v);
      DemandsKeep(d, root, s["allOf"].items[i], name, depth, v);
    } else {
      DemandsKeep(d, root, Object(ResolveLocalRef(s["$ref"].text, root).value), name, depth + 1, v);
    }
  }

  // ---------------------------------------------------------------------
  // The theorem
  // ---------------------------------------------------------------------

  /** What a caller checks on the schema and its rewrite. */
  ghost predicate RootCovers(schema: Fields, branches: seq<Branch>, root: Fields) {
    && (forall n :: n in PropertiesOf(root) ==> Guards(schema, Object(schema), n, PropertiesOf(root)[n], 0))
    && (forall name :: name in RequiredOf(root) ==> Demands(schema, Object(schema), name, 0))
    && ("patternProperties" in schema && "additionalProperties" in schema ==> HasBranchBelow(branches))
  }

  /**
  If every property of the plain root is guarded by the schema and every required name is
  demanded by it, the plain root accepts every object that the schema accepts.
  */
  lemma PlainRootAccepts(d: Dialect, schema: Fields, branches: seq<Branch>, root: Fields, v: Json)
    requires IsMergedRoot(schema, branches, root) && RootCovers(schema, branches, root)
    requires KnowsKeywords(d, schema) && v.Object? && Accepts(d, Object(schema), v)
    ensures Accepts(d, Object(root), v)
  {
    hide Accepts, KnowsKeywords, Guards, Demands, AnyAccepts, OneAccepts, AllAccept, AdditionalAccept, Named,
         HasRequired, MergesProperties, RequiredBy, HasBranchBelow;
    forall n | n in PropertiesOf(root) && n in v.fields
      ensures Accepts(d, PropertiesOf(root)[n], v.fields[n])
    {
      GuardsKeep(d, schema, Object(schema), n, PropertiesOf(root)[n], 0, v);
    }
    forall name | name in RequiredOf(root)
      ensures name.Str? ==> name.text in v.fields
    {
      DemandsKeep(d, schema, Object(schema), name, 0, v);
    }
    RestOfRoot(d, schema, branches, root, v);
    PlainRootNode(d, schema, root, v);
  }

  /** The additional properties of a plain root. */
  lemma RestOfRoot(d: Dialect, schema: Fields, branches: seq<Branch>, root: Fields, v: Json)
    requires IsMergedRoot(schema, branches, root) && KnowsKeywords(d, schema)
    requires v.Object? && Accepts(d, Object(schema), v)
    requires "patternProperties" in schema && "additionalProperties" in schema ==> HasBranchBelow(branches)
    ensures AdditionalAccept(d, root["additionalProperties"], Named(d, root), v)
  {
    hide Accepts, KnowsKeywords, AnyAccepts, OneAccepts, AllAccept, RequiredBy, HasBranchBelow;
    NodeAccepts(d, schema, schema, v);
    if HasBranchBelow(branches) || "additionalProperties" !in schema {
      forall n | n in v.fields
        ensures Accepts(d, Bool(true), v.fields[n])
      {
        TrueAcceptsAll(d, v.fields[n]);
      }
    } else {
      assert forall n :: n in Named(d, schema) ==> n in PropertiesOf(schema);
      assert forall n :: n in PropertiesOf(schema) ==> n in PropertiesOf(root);
      assert forall n :: n in PropertiesOf(root) ==> n in Named(d, root);
    }
  }

  lemma TrueAcceptsAll(d: Dialect, v: Json)
    ensures Accepts(d, Bool(true), v)
  {
  }

  const PLAIN_KEYS := {
    "$schema", "$defs", "definitions", "description", "type", "properties", "required", "additionalProperties"}

  /** A plain root accepts an object when its own three keywords do. */
  lemma PlainRootNode(d: Dialect, schema: Fields, root: Fields, v: Json)
    requires KnowsKeywords(d, schema) && v.Object? && root.Keys <= PLAIN_KEYS
    requires "type" in root && root["type"] == Str("object")
    requires "properties" in root && root["properties"] == Object(PropertiesOf(root))
    requires forall n :: n in PropertiesOf(root) && n in v.fields ==> Accepts(d, PropertiesOf(root)[n], v.fields[n])
    requires forall name :: name in RequiredOf(root) ==> name.Str? ==> name.text in v.fields
    requires "additionalProperties" in root && AdditionalAccept(d, root["additionalProperties"], Named(d, root), v)
    ensures Accepts(d, Object(root), v)
  {
    hide Accepts, AdditionalAccept, Named, RequiredOf, PropertiesOf, KnowsKeywords, Nested, Untouched, HasRequired,
         PropertiesAccept, EnumAccepts, ConstAccepts, TypeAccepts;
    AcceptsSplits(d, root, v);
    PlainRootLiterals(d, root, v);
    assert PropertiesAccept(d, root["properties"], v) by { PropertiesHeld(d, PropertiesOf(root), v); }
    PlainRootOthers(d, schema, root, v);
    PlainRootNested(d, root, v);
  }

  lemma PropertiesHeld(d: Dialect, properties: Fields, v: Json)
    requires v.Object?
    requires forall n :: n in properties && n in v.fields ==> Accepts(d, properties[n], v.fields[n])
    ensures PropertiesAccept(d, Object(properties), v)
  {
    hide Accepts;
  }

  lemma PlainRootLiterals(d: Dialect, root: Fields, v: Json)
    requires root.Keys <= PLAIN_KEYS && "type" in root && root["type"] == Str("object") && v.Object?
    ensures TypeAccepts(root, v) && EnumAccepts(d, root, v) && ConstAccepts(d, root, v)
  {
    assert DeclaredTypes(root) == ["object"];
  }

  lemma PlainRootOthers(d: Dialect, schema: Fields, root: Fields, v: Json)
    requires KnowsKeywords(d, schema) && v.Object? && root.Keys <= PLAIN_KEYS
    requires forall name :: name in RequiredOf(root) ==> name.Str? ==> name.text in v.fields
    ensures d.other(Untouched(root), v, None)
  {
    hide Accepts, RequiredOf, HasRef, ResolveLocalRef;
    UntouchedKeeps(root);
    UntouchedOfPlain(root);
    assert HasRequired(Untouched(root), v);
  }

  lemma UntouchedOfPlain(root: Fields)
    requires root.Keys <= PLAIN_KEYS
    ensures Untouched(root).Keys <= {"$schema", "description", "type", "required"}
  {
  }

  lemma PlainRootNested(d: Dialect, root: Fields, v: Json)
    requires root.Keys <= PLAIN_KEYS && d.other(Untouched(root), v, None)
    requires "properties" in root && PropertiesAccept(d, root["properties"], v)
    requires "additionalProperties" in root && AdditionalAccept(d, root["additionalProperties"], Named(d, root), v)
    ensures Nested(d, root, v)
  {
    hide Accepts, AdditionalAccept, Named, PropertiesAccept, Untouched;
  }

  /**
  From the declared schema to what the provider sees: no object that the declared schema
  accepts is refused, if its literals are kept and its properties are covered.
  */
  lemma ProviderSchemaAccepts(d: Dialect, schema: Fields, branches: seq<Branch>, projected: Fields, v: Json)
    requires LiteralsFit(Object(schema), 0) && LiteralsCovered(d, Object(schema), 0)
    requires var normalized := NormalizeValue(Object(schema), 0).fields;
             if HasRootUnion(normalized) || HasNullableObjectRoot(normalized)
             then IsMergedRoot(normalized, branches, projected) && RootCovers(normalized, branches, projected)
                  && KnowsKeywords(d, normalized)
             else projected == normalized
    requires v.Object? && Accepts(d, Object(schema), v)
    ensures Accepts(d, Object(projected), v)
  {
    hide Accepts, IsMergedRoot, RootCovers, KnowsKeywords, LiteralsFit, LiteralsCovered, NormalizeKeyword, Dropped,
         HasRootUnion, HasNullableObjectRoot;
    var normalized := NormalizeValue(Object(schema), 0).fields;
    RewriteKeepsMeaning(d, Object(schema), 0);
    assert Accepts(d, Object(normalized), v);
    if HasRootUnion(normalized) || HasNullableObjectRoot(normalized) {
      PlainRootAccepts(d, normalized, branches, projected, v);
    }
  }

  // ---------------------------------------------------------------------
  // The condition is needed
  // ---------------------------------------------------------------------

  /** A dialect that knows `required` and nothing else; every pattern matches every name. */
  ghost function Knowing(): Dialect {
    Dialect((a: Json, b: Json) => a == b, (p: string, n: string) => true,
            (u: Fields, v: Json, found: Option<nat>) => HasRequired(u, v) && !HasRef(u))
  }

  lemma KeywordsCanBeKnown(root: Fields)
    ensures KnowsKeywords(Knowing(), root)
  {
    hide Accepts, ResolveLocalRef, HasRequired;
  }

  const STRING_A: Fields :=
    map["type" := Str("object"), "properties" := Object(map["a" := Object(map["type" := Str("string")])])]

  const INTEGER_B: Fields :=
    map["type" := Str("object"), "properties" := Object(map["b" := Object(map["type" := Str("integer")])])]

  const A_OR_B: Fields := map["anyOf" := Array([Object(STRING_A), Object(INTEGER_B)])]

  const STRING_AT_B: Json := Object(map["b" := Str("x")])

  /** The union has these two branches, and no name is defined twice. */
  lemma UnionBranches()
    ensures Collecting(A_OR_B, A_OR_B, {}, 0, true) ==
            Collected({}, [Branch(STRING_A, false), Branch(INTEGER_B, false)])
  {
    hide ResolveLocalRef;
    var items := [Object(STRING_A), Object(INTEGER_B)];
    ObjectsNext(items, 0);
    ObjectsNext(items, 1);
    assert items[..0] == [] && items[..2] == items && Objects([]) == [];
    assert UnionChildren(A_OR_B) == [STRING_A, INTEGER_B];
    LeafBranch(STRING_A);
    LeafBranch(INTEGER_B);
    CollectingPush([], STRING_A, A_OR_B, {}, 1);
    CollectingPush([STRING_A], INTEGER_B, A_OR_B, {}, 1);
    assert [] + [STRING_A] == [STRING_A] && [STRING_A] + [INTEGER_B] == [STRING_A, INTEGER_B];
  }

  lemma LeafBranch(leaf: Fields)
    requires IsObjectSchema(leaf) && !HasRef(leaf) && UnionChildren(leaf) == []
    ensures Collecting(leaf, A_OR_B, {}, 1, false) == Collected({}, [Branch(leaf, false)])
  {
  }

  const INTEGER: Json := Object(map["type" := Str("integer")])

  lemma NoStringIsInteger(d: Dialect)
    ensures !Accepts(d, INTEGER, Str("x"))
  {
    hide Nested;
    var s := map["type" := Str("integer")];
    assert DeclaredTypes(s) == ["integer"];
    AcceptsSplits(d, s, Str("x"));
  }

  /** A node of these few keywords, without `required`. */
  lemma SmallNodeAccepts(s: Fields, v: Json)
    requires s.Keys <= {"type", "properties", "anyOf", "patternProperties", "additionalProperties"} && TypeAccepts(s, v)
    requires "properties" in s ==> PropertiesAccept(Knowing(), s["properties"], v)
    requires "anyOf" in s ==> AnyAccepts(Knowing(), s["anyOf"], v)
    requires "patternProperties" in s ==> PatternsAccept(Knowing(), s["patternProperties"], v)
    requires "additionalProperties" in s ==>
      AdditionalAccept(Knowing(), s["additionalProperties"], Named(Knowing(), s), v)
    ensures Accepts(Knowing(), Object(s), v)
  {
    hide Accepts, PropertiesAccept, AnyAccepts, PatternsAccept, AdditionalAccept, Named, TypeAccepts, Knowing,
         Untouched;
    AcceptsSplits(Knowing(), s, v);
    NothingElse(s, v);
  }

  lemma NothingElse(s: Fields, v: Json)
    requires "required" !in s && "$ref" !in s
    ensures Knowing().other(Untouched(s), v, None)
  {
    hide Untouched;
    UntouchedKeeps(s);
    assert HasRequired(Untouched(s), v) && !HasRef(Untouched(s));
  }

  lemma FirstAlternativeAccepts()
    ensures Accepts(Knowing(), Object(STRING_A), STRING_AT_B)
  {
    hide Accepts;
    assert DeclaredTypes(STRING_A) == ["object"];
    SmallNodeAccepts(STRING_A, STRING_AT_B);
  }

  lemma UnionAccepts()
    ensures Accepts(Knowing(), Object(A_OR_B), STRING_AT_B)
  {
    hide Accepts;
    FirstAlternativeAccepts();
    assert Accepts(Knowing(), A_OR_B["anyOf"].items[0], STRING_AT_B);
    SmallNodeAccepts(A_OR_B, STRING_AT_B);
  }

  lemma SecondIsMerged(root: Fields, branches: seq<Branch>)
    requires IsMergedRoot(A_OR_B, branches, root) && branches == [Branch(STRING_A, false), Branch(INTEGER_B, false)]
    ensures "properties" in root && root["properties"] == Object(PropertiesOf(root))
    ensures "b" in PropertiesOf(root) && PropertiesOf(root)["b"] == INTEGER
  {
    hide RequiredBy, HasBranchBelow;
    assert branches[..1] == [Branch(STRING_A, false)];
    assert IsFirstOwner(A_OR_B, branches, 1, "b");
    assert branches[1].schema == INTEGER_B;
  }

  lemma RootRefuses(root: Fields)
    requires "properties" in root && root["properties"].Object?
    requires "b" in root["properties"].fields && root["properties"].fields["b"] == INTEGER
    ensures !Accepts(Knowing(), Object(root), STRING_AT_B)
  {
    hide Accepts;
    NoStringIsInteger(Knowing());
    AcceptsSplits(Knowing(), root, STRING_AT_B);
    assert !PropertiesAccept(Knowing(), root["properties"], STRING_AT_B);
  }

  lemma SecondIsNotGuarded()
    ensures !Guards(A_OR_B, Object(A_OR_B), "b", INTEGER, 0)
  {
    assert !Guards(A_OR_B, Object(STRING_A), "b", INTEGER, 0);
    assert A_OR_B["anyOf"].items[0] == Object(STRING_A);
  }

  /**
  A value that only meets the first alternative, because it has none of its names, is refused
  by the plain root for a property that the second one defines. No name is defined twice.
  */
  lemma UnionValueIsLost(root: Fields)
    requires IsMergedRoot(A_OR_B, Collecting(A_OR_B, A_OR_B, {}, 0, true).branches, root)
    ensures Accepts(Knowing(), Object(A_OR_B), STRING_AT_B)
    ensures !Accepts(Knowing(), Object(root), STRING_AT_B)
    ensures "b" in PropertiesOf(root) && !Guards(A_OR_B, Object(A_OR_B), "b", PropertiesOf(root)["b"], 0)
  {
    hide *;
    UnionBranches();
    SecondIsMerged(root, [Branch(STRING_A, false), Branch(INTEGER_B, false)]);
    UnionAccepts();
    RootRefuses(root);
    SecondIsNotGuarded();
  }

  const PATTERNED: Fields := map[
    "type" := Array([Str("object"), Str("null")]), "patternProperties" := Object(map["." := Bool(true)]),
    "additionalProperties" := Bool(false)]

  lemma NothingBelowPatterned()
    ensures var branches := Collecting(PATTERNED, PATTERNED, {}, 0, true).branches;
            !HasBranchBelow(branches) && forall i :: 0 <= i < |branches| ==> PropertiesOf(branches[i].schema) == map[]
  {
    assert UnionChildren(PATTERNED) == [];
  }

  lemma PatternedAccepts()
    ensures Accepts(Knowing(), Object(PATTERNED), STRING_AT_B)
  {
    hide Accepts;
    var types := [Str("object"), Str("null")];
    assert types[1..] == [Str("null")] && types[1..][1..] == [];
    assert DeclaredTypes(PATTERNED) == ["object", "null"];
    TrueAcceptsAll(Knowing(), Str("x"));
    PatternNames();
    SmallNodeAccepts(PATTERNED, STRING_AT_B);
  }

  lemma PatternNames()
    ensures "b" in Named(Knowing(), PATTERNED)
  {
    assert Knowing().patternMatches(".", "b");
  }

  /** A nullable root that is closed except for patterns loses them, and with them such values. */
  lemma PatternValueIsLost(root: Fields)
    requires IsMergedRoot(PATTERNED, Collecting(PATTERNED, PATTERNED, {}, 0, true).branches, root)
    ensures HasNullableObjectRoot(PATTERNED)
    ensures Accepts(Knowing(), Object(PATTERNED), STRING_AT_B)
    ensures !Accepts(Knowing(), Object(root), STRING_AT_B)
  {
    hide Accepts, Collecting, HasBranchBelow, RequiredBy;
    var branches := Collecting(PATTERNED, PATTERNED, {}, 0, true).branches;
    NothingBelowPatterned();
    PatternedAccepts();
    NothingOwned(branches, root);
    FalseAcceptsNothing(Knowing(), Str("x"));
    RootIsClosed(root);
  }

  lemma RootIsClosed(root: Fields)
    requires "additionalProperties" in root && root["additionalProperties"] == Bool(false)
    requires "b" !in Named(Knowing(), root)
    ensures !Accepts(Knowing(), Object(root), STRING_AT_B)
  {
    hide Accepts, Named;
    FalseAcceptsNothing(Knowing(), Str("x"));
    AcceptsSplits(Knowing(), root, STRING_AT_B);
    assert !AdditionalAccept(Knowing(), root["additionalProperties"], Named(Knowing(), root), STRING_AT_B);
  }

  lemma NothingOwned(branches: seq<Branch>, root: Fields)
    requires IsMergedRoot(PATTERNED, branches, root)
    requires forall i :: 0 <= i < |branches| ==> PropertiesOf(branches[i].schema) == map[]
    ensures "b" !in Named(Knowing(), root)
  {
    hide Accepts, HasBranchBelow, RequiredBy;
    assert "b" !in PropertiesOf(root);
  }
}
