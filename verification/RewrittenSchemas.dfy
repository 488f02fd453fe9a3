/**
What the rewrite of tool schemas leaves at every place of a schema, told by a walk that knows
the keywords of JSON Schema and nothing of the rewrite.
*/
module RewrittenSchemas {
  import opened Outcomes
  import opened Json
  import opened SchemaLiterals

  // ---------------------------------------------------------------------
  // Walking through a schema
  // ---------------------------------------------------------------------

  /** Keywords whose value holds schemas under names. */
  predicate NamesSchemas(keyword: string) {
    keyword in {"properties", "patternProperties", "$defs", "definitions"}
  }

  /** Keywords whose value lists schemas. */
  predicate ListsSchemas(keyword: string) {
    keyword in {"anyOf", "oneOf", "allOf", "prefixItems"}
  }

  /** Keywords whose value is a schema; some may also list schemas. */
  predicate HasSchema(keyword: string) {
    keyword in {"items", "additionalProperties", "contains", "not", "if", "then", "else", "propertyNames"}
  }

  /** One step from a schema into a schema below it. */
  datatype Hop =
    | Named(keyword: string, name: string)
    | Numbered(keyword: string, index: nat)
    | Single(keyword: string)

  predicate HoldsSchemas(keyword: string) {
    NamesSchemas(keyword) || ListsSchemas(keyword) || HasSchema(keyword)
  }

  /** What a hop finds in the value of its keyword. */
  function Entered(value: Json, hop: Hop): Option<Json> {
    match hop
    case Named(keyword, name) =>
      if NamesSchemas(keyword) && value.Object? && name in value.fields then Some(value.fields[name]) else None
    case Numbered(keyword, index) =>
      if (ListsSchemas(keyword) || HasSchema(keyword)) && value.Array? && index < |value.items|
      then Some(value.items[index])
      else None
    case Single(keyword) => if HasSchema(keyword) && !value.Array? then Some(value) else None
  }

  function Below(schema: Fields, hop: Hop): Option<Json> {
    if hop.keyword in schema then Entered(schema[hop.keyword], hop) else None
  }

  /** The schema at the end of a path, if the path leads anywhere. */
  function At(value: Json, path: seq<Hop>): Option<Json>
    decreases |path|
  {
    if path == [] then Some(value)
    else if !value.Object? then None
    else
      match Below(value.fields, path[0])
      case None => None
      case Some(child) => At(child, path[1..])
  }

  // ---------------------------------------------------------------------
  // Literals and declared types
  // ---------------------------------------------------------------------

  predicate Declares(schema: Fields, name: string) {
    && "type" in schema
    && (schema["type"] == Str(name) || (schema["type"].Array? && Str(name) in schema["type"].items))
  }

  ghost predicate Typed(schema: Fields) {
    exists name :: Declares(schema, name)
  }

  /** The schema declares the type of the literal; an integer is also a number. */
  predicate Fits(schema: Fields, literal: Json) {
    match literal
    case Null => Declares(schema, "null")
    case Bool(_) => Declares(schema, "boolean")
    case Num(Integer(_)) => Declares(schema, "integer") || Declares(schema, "number")
    case Num(Float(_)) => Declares(schema, "number")
    case Str(_) => Declares(schema, "string")
    case Array(_) => Declares(schema, "array")
    case Object(_) => Declares(schema, "object")
  }

  lemma {:induction false} StringsMembers(values: seq<Json>, name: string)
    ensures name in Strings(values) <==> Str(name) in values
  {
    if values != [] {
      StringsMembers(values[1..], name);
      assert values == [values[0]] + values[1..];
    }
  }

  lemma DeclaredNames(schema: Fields, name: string)
    ensures name in DeclaredTypes(schema) <==> Declares(schema, name)
  {
    if "type" in schema && schema["type"].Array? { StringsMembers(schema["type"].items, name); }
  }

  lemma TypedIff(schema: Fields)
    ensures DeclaredTypes(schema) != [] <==> Typed(schema)
  {
    hide DeclaredTypes, Declares;
    if DeclaredTypes(schema) != [] { DeclaredNames(schema, DeclaredTypes(schema)[0]); }
    if name :| Declares(schema, name) { DeclaredNames(schema, name); }
  }

  lemma FitsIff(schema: Fields, literal: Json)
    ensures Fits(schema, literal) <==> MatchesType(literal, DeclaredTypes(schema))
  {
    hide DeclaredTypes, Declares;
    DeclaredNames(schema, TypeName(literal));
    DeclaredNames(schema, "number");
  }

  // ---------------------------------------------------------------------
  // What the rewrite does at one place
  // ---------------------------------------------------------------------

  /** How many of these literals fit. */
  function Fitting(schema: Fields, literals: seq<Json>): nat {
    if literals == [] then 0
    else Fitting(schema, literals[..|literals| - 1]) + if Fits(schema, literals[|literals| - 1]) then 1 else 0
  }

  /** Exactly the literals that fit, in their order. */
  ghost predicate KeepsFitting(schema: Fields, literals: seq<Json>, kept: seq<Json>) {
    && |kept| == Fitting(schema, literals)
    && forall i :: 0 <= i < |literals| && Fits(schema, literals[i]) ==>
         Fitting(schema, literals[..i]) < |kept| && kept[Fitting(schema, literals[..i])] == literals[i]
  }

  /** An untyped `enum` stays; of a typed one the fitting literals stay, and if there are none it goes. */
  ghost predicate EnumRewritten(s: Fields, t: Fields)
    requires "enum" in s
  {
    if !Typed(s) || !s["enum"].Array? then "enum" in t && t["enum"] == s["enum"]
    else if s["enum"].items != [] && Fitting(s, s["enum"].items) == 0 then "enum" !in t
    else "enum" in t && t["enum"].Array? && KeepsFitting(s, s["enum"].items, t["enum"].items)
  }

  /** The value of a keyword that holds schemas keeps its names, its length, or is no schema at all. */
  ghost predicate SameShape(keyword: string, a: Json, b: Json) {
    if NamesSchemas(keyword) then
      if a.Object? then b.Object? && b.fields.Keys == a.fields.Keys else b == a
    else if a.Array? then b.Array? && |b.items| == |a.items|
    else if HasSchema(keyword) && a.Object? then b.Object?
    else b == a
  }

  ghost predicate IsRewritten(s: Fields, t: Fields) {
    && t.Keys <= s.Keys
    && (forall key :: key in s && key !in {"enum", "const"} ==> key in t)
    && ("enum" in s ==> EnumRewritten(s, t))
    && ("const" in s ==> ("const" in t <==> !Typed(s) || Fits(s, s["const"])))
    && (forall key :: key in t && key != "enum" ==>
          if HoldsSchemas(key) then SameShape(key, s[key], t[key])
          else t[key] == s[key])
  }

  lemma {:induction false} FittingSplits(schema: Fields, first: Json, rest: seq<Json>)
    ensures Fitting(schema, [first] + rest) == (if Fits(schema, first) then 1 else 0) + Fitting(schema, rest)
  {
    if rest == [] {
      assert [first] + [] == [first] && [first][..0] == [];
    } else {
      var k := |rest| - 1;
      FittingSplits(schema, first, rest[..k]);
      assert ([first] + rest)[..k + 1] == [first] + rest[..k];
    }
  }

  lemma NoneFits(schema: Fields)
    ensures Fitting(schema, []) == 0
  {
  }

  lemma {:induction false} KeptAreFitting(schema: Fields, literals: seq<Json>)
    ensures KeepsFitting(schema, literals, KeptLiterals(literals, DeclaredTypes(schema)))
  {
    hide Fits, MatchesType, DeclaredTypes, Fitting;
    if literals == [] {
      NoneFits(schema);
    } else {
      var first, rest := literals[0], literals[1..];
      KeptAreFitting(schema, rest);
      FitsIff(schema, first);
      assert literals == [first] + rest;
      FittingSplits(schema, first, rest);
      var all, later := KeptLiterals(literals, DeclaredTypes(schema)), KeptLiterals(rest, DeclaredTypes(schema));
      forall i | 0 <= i < |literals| && Fits(schema, literals[i])
        ensures Fitting(schema, literals[..i]) < |all| && all[Fitting(schema, literals[..i])] == literals[i]
      {
        if i == 0 {
          NoneFits(schema);
          assert literals[..0] == [];
        } else {
          assert literals[..i] == [first] + rest[..i - 1] && literals[i] == rest[i - 1];
          FittingSplits(schema, first, rest[..i - 1]);
        }
      }
    }
  }

  lemma EnumIsRewritten(s: Fields, depth: nat)
    requires "enum" in s && depth <= MAX_TOOL_SCHEMA_LITERAL_DEPTH
    ensures EnumRewritten(s, NormalizeValue(Object(s), depth).fields)
  {
    hide Fits, MatchesType, DeclaredTypes, KeptLiterals, KeepsFitting, Fitting, Typed;
    TypedIff(s);
    if s["enum"].Array? {
      KeptAreFitting(s, s["enum"].items);
      assert |KeptLiterals(s["enum"].items, DeclaredTypes(s))| == Fitting(s, s["enum"].items) by {
        KeptCount(s, s["enum"].items, KeptLiterals(s["enum"].items, DeclaredTypes(s)));
      }
    }
  }

  lemma KeptCount(s: Fields, literals: seq<Json>, kept: seq<Json>)
    requires KeepsFitting(s, literals, kept)
    ensures |kept| == Fitting(s, literals)
  {
  }

  lemma ConstIsRewritten(s: Fields, depth: nat)
    requires "const" in s && depth <= MAX_TOOL_SCHEMA_LITERAL_DEPTH
    ensures "const" in NormalizeValue(Object(s), depth).fields <==> !Typed(s) || Fits(s, s["const"])
  {
    hide Fits, MatchesType, DeclaredTypes, KeptLiterals, Typed, NormalizeKeyword;
    TypedIff(s);
    FitsIff(s, s["const"]);
  }

  /** Which keys stay, and what the rewrite puts under them. */
  lemma KeysRewritten(s: Fields, depth: nat)
    requires depth <= MAX_TOOL_SCHEMA_LITERAL_DEPTH
    ensures NormalizeValue(Object(s), depth).Object?
    ensures var t := NormalizeValue(Object(s), depth).fields;
            && t.Keys <= s.Keys
            && (forall key :: key in s && key !in {"enum", "const"} ==> key in t)
            && (forall key :: key in t ==> t[key] == NormalizeKeyword(key, s[key], DeclaredTypes(s), depth))
  {
    hide MatchesType, DeclaredTypes, KeptLiterals, NormalizeKeyword;
  }

  lemma ShapeRewritten(key: string, value: Json, types: seq<string>, depth: nat)
    requires key != "enum"
    ensures var after := NormalizeKeyword(key, value, types, depth);
            if HoldsSchemas(key) then SameShape(key, value, after) else after == value
  {
    hide KeptLiterals;
  }

  lemma NodeIsRewritten(s: Fields, depth: nat)
    requires depth <= MAX_TOOL_SCHEMA_LITERAL_DEPTH
    ensures NormalizeValue(Object(s), depth).Object? && IsRewritten(s, NormalizeValue(Object(s), depth).fields)
  {
    hide Fits, DeclaredTypes, EnumRewritten, Typed, NormalizeKeyword, NormalizeValue, SameShape, HoldsSchemas;
    KeysRewritten(s, depth);
    if "enum" in s { EnumIsRewritten(s, depth); }
    if "const" in s { ConstIsRewritten(s, depth); }
    forall key | key in NormalizeValue(Object(s), depth).fields && key != "enum"
      ensures var after := NormalizeValue(Object(s), depth).fields[key];
              if HoldsSchemas(key) then SameShape(key, s[key], after) else after == s[key]
    {
      ShapeRewritten(key, s[key], DeclaredTypes(s), depth);
    }
  }

  // ---------------------------------------------------------------------
  // The whole schema
  // ---------------------------------------------------------------------

  lemma EnteredRewritten(value: Json, hop: Hop, types: seq<string>, depth: nat)
    ensures Entered(NormalizeKeyword(hop.keyword, value, types, depth), hop) ==
            match Entered(value, hop) case None => None case Some(child) => Some(NormalizeValue(child, depth + 1))
  {
    hide KeptLiterals, NormalizeValue;
    if HasSchema(hop.keyword) && !value.Array? { PlainIsKept(value, depth + 1); }
  }

  lemma PlainIsKept(value: Json, depth: nat)
    ensures NormalizeValue(value, depth).Array? <==> value.Array?
  {
  }

  lemma BelowRewritten(s: Fields, hop: Hop, depth: nat)
    requires depth <= MAX_TOOL_SCHEMA_LITERAL_DEPTH
    ensures NormalizeValue(Object(s), depth).Object?
    ensures Below(NormalizeValue(Object(s), depth).fields, hop) ==
            match Below(s, hop) case None => None case Some(child) => Some(NormalizeValue(child, depth + 1))
  {
    hide Entered, NormalizeValue, NormalizeKeyword, DeclaredTypes;
    KeysRewritten(s, depth);
    if hop.keyword in s { EnteredRewritten(s[hop.keyword], hop, DeclaredTypes(s), depth); }
    if hop.keyword in {"enum", "const"} {
      LiteralsHoldNoSchemas(hop);
    }
  }

  lemma LiteralsHoldNoSchemas(hop: Hop)
    requires hop.keyword in {"enum", "const"}
    ensures forall value :: Entered(value, hop).None?
  {
  }

  /** A path leads through the rewritten schema exactly as through the declared one. */
  lemma {:induction false} AtRewritten(value: Json, path: seq<Hop>, depth: nat)
    ensures At(NormalizeValue(value, depth), path) ==
            match At(value, path) case None => None case Some(x) => Some(NormalizeValue(x, depth + |path|))
    decreases |path|
  {
    hide Below, NormalizeKeyword, Dropped;
    if path != [] && value.Object? && depth <= MAX_TOOL_SCHEMA_LITERAL_DEPTH {
      BelowRewritten(value.fields, path[0], depth);
      if Below(value.fields, path[0]).Some? {
        AtRewritten(Below(value.fields, path[0]).value, path[1..], depth + 1);
      }
    }
  }

  /** No `enum` literal and no `const` outside the declared types. */
  ghost predicate LiteralsFitHere(s: Fields) {
    Typed(s) ==>
      && ("enum" in s && s["enum"].Array? ==> forall x :: x in s["enum"].items ==> Fits(s, x))
      && ("const" in s ==> Fits(s, s["const"]))
  }

  lemma SameDeclared(s: Fields, t: Fields)
    requires IsRewritten(s, t)
    ensures forall name :: Declares(t, name) <==> Declares(s, name)
    ensures Typed(t) <==> Typed(s)
    ensures forall x :: Fits(t, x) <==> Fits(s, x)
  {
    hide EnumRewritten;
    assert "type" in s <==> "type" in t;
    assert "type" in s ==> s["type"] == t["type"];
    assert forall name :: Declares(t, name) <==> Declares(s, name);
  }

  lemma {:induction false} OnlyFitting(s: Fields, literals: seq<Json>, kept: seq<Json>)
    requires KeepsFitting(s, literals, kept)
    ensures forall x :: x in kept ==> x in literals && Fits(s, x)
  {
    hide Fits;
    if literals != [] {
      var k := |literals| - 1;
      var init, last := literals[..k], literals[k];
      var fewer := if Fits(s, last) then kept[..|kept| - 1] else kept;
      forall i | 0 <= i < k && Fits(s, init[i])
        ensures Fitting(s, init[..i]) < |fewer| && fewer[Fitting(s, init[..i])] == init[i]
      {
        assert init[..i] == literals[..i] && init[i] == literals[i];
        FittingGrows(s, init, i);
      }
      OnlyFitting(s, init, fewer);
      if Fits(s, last) { assert kept == fewer + [last]; }
    }
  }

  lemma {:induction false} FittingGrows(s: Fields, literals: seq<Json>, i: nat)
    requires i < |literals| && Fits(s, literals[i])
    ensures Fitting(s, literals[..i]) < Fitting(s, literals)
    decreases |literals|
  {
    hide Fits;
    if i < |literals| - 1 {
      var init := literals[..|literals| - 1];
      assert init[..i] == literals[..i];
      FittingGrows(s, init, i);
    }
  }

  lemma RewrittenFits(s: Fields, t: Fields)
    requires IsRewritten(s, t)
    ensures LiteralsFitHere(t)
  {
    hide Fits, Typed, Declares, KeepsFitting, Fitting;
    SameDeclared(s, t);
    if Typed(s) && "enum" in t && t["enum"].Array? {
      assert EnumRewritten(s, t);
      OnlyFitting(s, s["enum"].items, t["enum"].items);
    }
  }

  /**
  Wherever one gets to within 32 steps in the rewritten schema, no literal of an `enum` and no
  `const` lies outside the types declared there.
  */
  lemma EveryLiteralFits(value: Json, path: seq<Hop>)
    requires |path| <= 32
    requires At(NormalizeValue(value, 0), path).Some? && At(NormalizeValue(value, 0), path).value.Object?
    ensures LiteralsFitHere(At(NormalizeValue(value, 0), path).value.fields)
  {
    hide At, NormalizeKeyword, Dropped, IsRewritten, LiteralsFitHere;
    AtRewritten(value, path, 0);
    var s := At(value, path).value;
    assert s.Object?;
    NodeIsRewritten(s.fields, |path|);
    RewrittenFits(s.fields, NormalizeValue(s, |path|).fields);
  }

  /**
  Nothing else changes: the same paths lead somewhere; at each of the first 32 steps only literals
  that do not fit are gone, and whatever lies deeper, or is no object, is as it was.
  */
  lemma EverythingElseStays(value: Json, path: seq<Hop>)
    ensures At(NormalizeValue(value, 0), path).Some? <==> At(value, path).Some?
    ensures At(value, path).Some? ==>
      var before, after := At(value, path).value, At(NormalizeValue(value, 0), path).value;
      if before.Object? && |path| <= 32
      then after.Object? && IsRewritten(before.fields, after.fields)
      else after == before
  {
    hide At, NormalizeKeyword, Dropped, IsRewritten;
    AtRewritten(value, path, 0);
    if At(value, path).Some? && At(value, path).value.Object? && |path| <= 32 {
      NodeIsRewritten(At(value, path).value.fields, |path|);
    }
  }
}
