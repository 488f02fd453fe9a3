/**
The provider-only rewrite of a tool schema whose root is a union or nullable: the
branches are collected through local references and merged into a plain object root.
*/
module ObjectRoot {
  import opened Outcomes
  import opened Json
  import opened SchemaLiterals

  const MAX_TOOL_SCHEMA_DEPTH := 8
  const UNION_KEYWORDS := ["anyOf", "oneOf", "allOf"]

  datatype Branch = Branch(schema: Fields, isRoot: bool)

  // ---------------------------------------------------------------------
  // Local references
  // ---------------------------------------------------------------------

  function Split(s: string, separator: char): (parts: seq<string>)
    ensures |parts| > 0
  {
    if s == "" then [""]
    else
      var rest := Split(s[1..], separator);
      if s[0] == separator then [""] + rest else [[s[0]] + rest[0]] + rest[1..]
  }

  /** Left-to-right replacement of a two-character pattern by one character. */
  function Replace(s: string, first: char, second: char, put: char): string {
    if |s| < 2 then s
    else if s[0] == first && s[1] == second then [put] + Replace(s[2..], first, second, put)
    else [s[0]] + Replace(s[1..], first, second, put)
  }

  function Unescape(segment: string): string {
    Replace(Replace(segment, '~', '1', '/'), '~', '0', '~')
  }

  /** Only objects are walked; a list or scalar on the way makes the reference unresolved. */
  function Walk(current: Fields, path: seq<string>): Option<Fields>
    requires path != []
    decreases |path|
  {
    if path[0] !in current || !current[path[0]].Object? then None
    else if |path| == 1 then Some(current[path[0]].fields)
    else Walk(current[path[0]].fields, path[1..])
  }

  function Unescaped(segments: seq<string>): (path: seq<string>)
    ensures |path| == |segments|
  {
    if segments == [] then [] else [Unescape(segments[0])] + Unescaped(segments[1..])
  }

  function ResolveLocalRef(reference: string, root: Fields): Option<Fields> {
    if "#/" <= reference then Walk(root, Unescaped(Split(reference[2..], '/'))) else None
  }

  // A reference written the way RFC 6901, section 3, writes a path is resolved along that path.

  function EscapeChar(c: char): string {
    if c == '~' then "~0" else if c == '/' then "~1" else [c]
  }

  function Escape(key: string): string {
    if key == "" then "" else EscapeChar(key[0]) + Escape(key[1..])
  }

  function Pointer(path: seq<string>): string
    requires path != []
  {
    if |path| == 1 then Escape(path[0]) else Escape(path[0]) + "/" + Pointer(path[1..])
  }

  /** A key with only its tildes escaped. */
  function HalfEscape(key: string): string {
    if key == "" then "" else (if key[0] == '~' then "~0" else [key[0]]) + HalfEscape(key[1..])
  }

  lemma ReplaceSkips(c: char, s: string, first: char, second: char, put: char)
    requires c != first
    ensures Replace([c] + s, first, second, put) == [c] + Replace(s, first, second, put)
  {
    assert ([c] + s)[1..] == s;
    if |s| == 0 { assert [c] + s == [c]; }
  }

  lemma {:induction false} UnescapeSlashes(key: string)
    ensures Replace(Escape(key), '~', '1', '/') == HalfEscape(key)
  {
    if key != "" {
      var rest := Escape(key[1..]);
      UnescapeSlashes(key[1..]);
      if key[0] == '~' {
        assert Escape(key) == ['~'] + (['0'] + rest);
        assert Escape(key)[1..] == ['0'] + rest;
        ReplaceSkips('0', rest, '~', '1', '/');
      } else if key[0] == '/' {
        assert Escape(key)[2..] == rest;
      } else {
        assert Escape(key) == [key[0]] + rest;
        ReplaceSkips(key[0], rest, '~', '1', '/');
      }
    }
  }

  lemma {:induction false} UnescapeTildes(key: string)
    ensures Replace(HalfEscape(key), '~', '0', '~') == key
  {
    if key != "" {
      var rest := HalfEscape(key[1..]);
      UnescapeTildes(key[1..]);
      if key[0] == '~' {
        assert HalfEscape(key)[2..] == rest;
      } else {
        assert HalfEscape(key) == [key[0]] + rest;
        ReplaceSkips(key[0], rest, '~', '0', '~');
      }
    }
  }

  lemma {:induction false} EscapeHasNoSlash(key: string)
    ensures '/' !in Escape(key)
  {
    if key != "" { EscapeHasNoSlash(key[1..]); }
  }

  lemma {:induction false} SplitOnce(head: string, tail: string)
    requires '/' !in head
    ensures Split(head, '/') == [head]
    ensures Split(head + "/" + tail, '/') == [head] + Split(tail, '/')
  {
    if head == "" {
      assert (head + "/" + tail)[1..] == tail;
    } else {
      SplitOnce(head[1..], tail);
      assert (head + "/" + tail)[1..] == head[1..] + "/" + tail;
      assert [head[0]] + head[1..] == head;
    }
  }

  lemma {:induction false} PointerSplits(path: seq<string>)
    requires path != []
    ensures Unescaped(Split(Pointer(path), '/')) == path
  {
    hide Escape, HalfEscape, Replace;
    EscapeHasNoSlash(path[0]);
    UnescapeSlashes(path[0]);
    UnescapeTildes(path[0]);
    if |path| == 1 {
      SplitOnce(Escape(path[0]), "");
      assert [Escape(path[0])][1..] == [];
    } else {
      PointerSplits(path[1..]);
      SplitOnce(Escape(path[0]), Pointer(path[1..]));
      var rest := Split(Pointer(path[1..]), '/');
      assert ([Escape(path[0])] + rest)[1..] == rest;
    }
  }

  /** Keys with slashes and tildes included, a canonical reference finds what its path names. */
  lemma RefFollowsPath(path: seq<string>, root: Fields)
    requires path != []
    ensures ResolveLocalRef("#/" + Pointer(path), root) == Walk(root, path)
  {
    PointerSplits(path);
    assert ("#/" + Pointer(path))[2..] == Pointer(path);
  }

  // ---------------------------------------------------------------------
  // Collecting the branches
  // ---------------------------------------------------------------------

  function Objects(values: seq<Json>): seq<Fields> {
    if values == [] then []
    else Objects(values[..|values| - 1]) +
         if values[|values| - 1].Object? then [values[|values| - 1].fields] else []
  }

  function ChildrenUnder(schema: Fields, key: string): seq<Fields> {
    if key in schema && schema[key].Array? then Objects(schema[key].items) else []
  }

  function UnionChildren(schema: Fields): seq<Fields> {
    ChildrenUnder(schema, "anyOf") + ChildrenUnder(schema, "oneOf") + ChildrenUnder(schema, "allOf")
  }

  predicate IsObjectSchema(schema: Fields) {
    || ("type" in schema && schema["type"] == Str("object"))
    || ("properties" in schema && schema["properties"].Object?)
  }

  predicate HasRef(schema: Fields) {
    "$ref" in schema && schema["$ref"].Str?
  }

  datatype Collected = Collected(seen: set<string>, branches: seq<Branch>)

  /** What collecting from a schema adds: every reference is followed once, and never deeper than the limit. */
  function Collecting(schema: Fields, root: Fields, seen: set<string>, depth: nat, isRoot: bool): Collected
    decreases MAX_TOOL_SCHEMA_DEPTH + 1 - depth, 0
  {
    if depth > MAX_TOOL_SCHEMA_DEPTH then Collected(seen, [])
    else if HasRef(schema) then
      var reference := schema["$ref"].text;
      if reference in seen then Collected(seen, [])
      else
        match ResolveLocalRef(reference, root)
        case None => Collected(seen + {reference}, [])
        case Some(resolved) => Collecting(resolved, root, seen + {reference}, depth + 1, false)
    else
      var below := CollectingAll(UnionChildren(schema), root, seen, depth + 1);
      if IsObjectSchema(schema) then Collected(below.seen, below.branches + [Branch(schema, isRoot)]) else below
  }

  function CollectingAll(children: seq<Fields>, root: Fields, seen: set<string>, depth: nat): Collected
    decreases MAX_TOOL_SCHEMA_DEPTH + 1 - depth, 1, |children|
  {
    if children == [] then Collected(seen, [])
    else
      var earlier := CollectingAll(children[..|children| - 1], root, seen, depth);
      var last := Collecting(children[|children| - 1], root, earlier.seen, depth, false);
      Collected(last.seen, earlier.branches + last.branches)
  }

  /** The mutable set and list that the recursion fills. */
  class BranchCollector {
    var seenRefs: set<string>
    var branches: seq<Branch>

    constructor ()
      ensures seenRefs == {} && branches == []
    {
      seenRefs := {};
      branches := [];
    }

    method Collect(schema: Fields, root: Fields, depth: nat, isRoot: bool)
      modifies this
      ensures var c := Collecting(schema, root, old(seenRefs), depth, isRoot);
              seenRefs == c.seen && branches == old(branches) + c.branches
      decreases MAX_TOOL_SCHEMA_DEPTH + 1 - depth, 0
    {
      hide CollectingAll, ResolveLocalRef, IsObjectSchema;
      if depth > MAX_TOOL_SCHEMA_DEPTH {
        return;
      }
      if HasRef(schema) {
        var reference := schema["$ref"].text;
        if reference in seenRefs {
          return;
        }
        seenRefs := seenRefs + {reference};
        var resolved := ResolveLocalRef(reference, root);
        if resolved.Some? {
          Collect(resolved.value, root, depth + 1, false);
        }
        return;
      }
      CollectUnions(schema, root, depth + 1);
      if IsObjectSchema(schema) {
        branches := branches + [Branch(schema, isRoot)];
      }
    }

    method CollectUnions(schema: Fields, root: Fields, depth: nat)
      requires depth <= MAX_TOOL_SCHEMA_DEPTH + 1
      modifies this
      ensures var c := CollectingAll(UnionChildren(schema), root, old(seenRefs), depth);
              seenRefs == c.seen && branches == old(branches) + c.branches
      decreases MAX_TOOL_SCHEMA_DEPTH + 1 - depth, 2
    {
      hide CollectingAll, Under, UnionChildren;
      ghost var seen, before := seenRefs, branches;
      NothingCollected(root, seen, depth);
      UnderNone(schema);
      for k := 0 to |UNION_KEYWORDS|
        invariant seenRefs == CollectingAll(Under(schema, k), root, seen, depth).seen
        invariant branches == before + CollectingAll(Under(schema, k), root, seen, depth).branches
      {
        var key := UNION_KEYWORDS[k];
        UnderNext(schema, k);
        CollectingConcat(Under(schema, k), ChildrenUnder(schema, key), root, seen, depth);
        if key in schema && schema[key].Array? {
          CollectChildren(schema[key].items, root, depth);
        } else {
          NothingCollected(root, seenRefs, depth);
        }
      }
      UnderAll(schema);
    }

    method CollectChildren(children: seq<Json>, root: Fields, depth: nat)
      requires depth <= MAX_TOOL_SCHEMA_DEPTH + 1
      modifies this
      ensures var c := CollectingAll(Objects(children), root, old(seenRefs), depth);
              seenRefs == c.seen && branches == old(branches) + c.branches
      decreases MAX_TOOL_SCHEMA_DEPTH + 1 - depth, 1
    {
      hide Collecting, CollectingAll, Objects;
      ghost var seen, before := seenRefs, branches;
      NothingCollected(root, seen, depth);
      ObjectsNone();
      assert children[..0] == [];
      for i := 0 to |children|
        invariant seenRefs == CollectingAll(Objects(children[..i]), root, seen, depth).seen
        invariant branches == before + CollectingAll(Objects(children[..i]), root, seen, depth).branches
      {
        ObjectsNext(children, i);
        if children[i].Object? {
          CollectingPush(Objects(children[..i]), children[i].fields, root, seen, depth);
          Collect(children[i].fields, root, depth, false);
        }
      }
      assert children[..|children|] == children;
    }
  }

  lemma ObjectsNone()
    ensures Objects([]) == []
  {
  }

  lemma ObjectsNext(values: seq<Json>, i: nat)
    requires i < |values|
    ensures Objects(values[..i + 1]) ==
            if values[i].Object? then Objects(values[..i]) + [values[i].fields] else Objects(values[..i])
  {
    assert values[..i + 1][..i] == values[..i];
  }

  lemma CollectingPush(children: seq<Fields>, last: Fields, root: Fields, seen: set<string>, depth: nat)
    ensures var earlier := CollectingAll(children, root, seen, depth);
            var c := Collecting(last, root, earlier.seen, depth, false);
            CollectingAll(children + [last], root, seen, depth) == Collected(c.seen, earlier.branches + c.branches)
  {
    hide Collecting;
    assert (children + [last])[..|children|] == children;
  }

  lemma NothingCollected(root: Fields, seen: set<string>, depth: nat)
    ensures CollectingAll([], root, seen, depth) == Collected(seen, [])
  {
  }

  lemma {:induction false} CollectingConcat(x: seq<Fields>, y: seq<Fields>, root: Fields, seen: set<string>, depth: nat)
    ensures var first := CollectingAll(x, root, seen, depth);
            var second := CollectingAll(y, root, first.seen, depth);
            CollectingAll(x + y, root, seen, depth) == Collected(second.seen, first.branches + second.branches)
    decreases |y|
  {
    hide Collecting;
    if y == [] {
      assert x + y == x;
    } else {
      var k := |y| - 1;
      assert (x + y)[..|x + y| - 1] == x + y[..k];
      CollectingConcat(x, y[..k], root, seen, depth);
    }
  }

  ghost function Under(schema: Fields, keywords: nat): seq<Fields>
    requires keywords <= |UNION_KEYWORDS|
  {
    if keywords == 0 then [] else Under(schema, keywords - 1) + ChildrenUnder(schema, UNION_KEYWORDS[keywords - 1])
  }

  lemma UnderNone(schema: Fields)
    ensures Under(schema, 0) == []
  {
  }

  lemma UnderNext(schema: Fields, k: nat)
    requires k < |UNION_KEYWORDS|
    ensures Under(schema, k + 1) == Under(schema, k) + ChildrenUnder(schema, UNION_KEYWORDS[k])
  {
  }

  lemma UnderAll(schema: Fields)
    ensures Under(schema, 3) == UnionChildren(schema)
  {
    assert Under(schema, 1) == ChildrenUnder(schema, "anyOf");
    assert Under(schema, 2) == ChildrenUnder(schema, "anyOf") + ChildrenUnder(schema, "oneOf");
  }

  // ---------------------------------------------------------------------
  // The merged root
  // ---------------------------------------------------------------------

  function PropertiesOf(schema: Fields): Fields {
    if "properties" in schema && schema["properties"].Object? then schema["properties"].fields else map[]
  }

  function RequiredOf(schema: Fields): seq<Json> {
    if "required" in schema && schema["required"].Array? then schema["required"].items else []
  }

  ghost predicate OwnedBelow(branches: seq<Branch>, name: string) {
    exists i :: 0 <= i < |branches| && name in PropertiesOf(branches[i].schema)
  }

  /** The earliest branch with a name that the root does not have. */
  ghost predicate IsFirstOwner(schema: Fields, branches: seq<Branch>, i: nat, name: string)
    requires i < |branches|
  {
    && name in PropertiesOf(branches[i].schema)
    && name !in PropertiesOf(schema)
    && !OwnedBelow(branches[..i], name)
  }

  /** The root's properties first, then those of the earliest branch that has the name. */
  ghost predicate MergesProperties(schema: Fields, branches: seq<Branch>, properties: Fields) {
    && (forall name :: name in properties <==> name in PropertiesOf(schema) || OwnedBelow(branches, name))
    && (forall name :: name in PropertiesOf(schema) ==> properties[name] == PropertiesOf(schema)[name])
    && (forall i, name :: 0 <= i < |branches| && IsFirstOwner(schema, branches, i, name) ==>
          properties[name] == PropertiesOf(branches[i].schema)[name])
  }

  ghost predicate HasBranchBelow(branches: seq<Branch>) {
    exists i :: 0 <= i < |branches| && !branches[i].isRoot
  }

  /** A name is required by the root, or by every collected branch below it. */
  ghost predicate RequiredBy(schema: Fields, branches: seq<Branch>, name: Json) {
    || name in RequiredOf(schema)
    || (HasBranchBelow(branches)
        && forall i :: 0 <= i < |branches| && !branches[i].isRoot ==> name in RequiredOf(branches[i].schema))
  }

  /** A plain object root that keeps the definitions and the description of the schema. */
  ghost predicate IsPlainRoot(schema: Fields, root: Fields, properties: Fields, required: seq<Json>, open: bool) {
    && root.Keys <=
         {"$schema", "$defs", "definitions", "description", "type", "properties", "required", "additionalProperties"}
    && (forall key :: key in {"$schema", "$defs", "definitions"} ==>
          (key in root <==> key in schema) && (key in schema ==> root[key] == schema[key]))
    && ("description" in root <==> "description" in schema && schema["description"].Str?)
    && ("description" in root ==> root["description"] == schema["description"])
    && "type" in root && root["type"] == Str("object")
    && "properties" in root && root["properties"] == Object(properties)
    && ("required" in root <==> required != []) && RequiredOf(root) == required
    && "additionalProperties" in root
    && root["additionalProperties"] ==
         if open || "additionalProperties" !in schema then Bool(true) else schema["additionalProperties"]
  }

  ghost predicate IsMergedRoot(schema: Fields, branches: seq<Branch>, root: Fields) {
    && IsPlainRoot(schema, root, PropertiesOf(root), RequiredOf(root), HasBranchBelow(branches))
    && MergesProperties(schema, branches, PropertiesOf(root))
    && forall name :: name in RequiredOf(root) <==> RequiredBy(schema, branches, name)
  }

  /** The part of a plain root that is copied from the schema. */
  ghost predicate IsCopied(schema: Fields, root: Fields) {
    && root.Keys <= {"$schema", "$defs", "definitions", "description"}
    && (forall key :: key in {"$schema", "$defs", "definitions"} ==>
          (key in root <==> key in schema) && (key in schema ==> root[key] == schema[key]))
    && ("description" in root <==> "description" in schema && schema["description"].Str?)
    && ("description" in root ==> root["description"] == schema["description"])
  }

  method CopyRoot(schema: Fields) returns (root: Fields)
    ensures IsCopied(schema, root)
  {
    root := map[];
    if "$schema" in schema {
      root := root["$schema" := schema["$schema"]];
    }
    if "$defs" in schema {
      root := root["$defs" := schema["$defs"]];
    }
    if "definitions" in schema {
      root := root["definitions" := schema["definitions"]];
    }
    if "description" in schema && schema["description"].Str? {
      root := root["description" := schema["description"]];
    }
  }

  method PlainRoot(schema: Fields, properties: Fields, required: seq<Json>, open: bool) returns (root: Fields)
    ensures IsPlainRoot(schema, root, properties, required, open)
  {
    root := CopyRoot(schema);
    root := root["type" := Str("object")];
    root := root["properties" := Object(properties)];
    if required != [] {
      root := root["required" := Array(required)];
    }
    var additional := if open || "additionalProperties" !in schema then Bool(true) else schema["additionalProperties"];
    root := root["additionalProperties" := additional];
  }

  method ObjectRootToolSchema(schema: Fields) returns (rewritten: Fields)
    ensures IsMergedRoot(schema, Collecting(schema, schema, {}, 0, true).branches, rewritten)
  {
    hide Collecting, MergesProperties;
    var collector := new BranchCollector();
    collector.Collect(schema, schema, 0, true);
    var branches := collector.branches;
    assert branches == Collecting(schema, schema, {}, 0, true).branches;
    var properties := MergeProperties(schema, branches);
    var below: seq<Fields> := [];
    for i := 0 to |branches|
      invariant IsBelow(branches[..i], below)
    {
      BelowPush(branches[..i], branches[i], below);
      assert branches[..i + 1] == branches[..i] + [branches[i]];
      if !branches[i].isRoot {
        below := below + [branches[i].schema];
      }
    }
    assert branches[..|branches|] == branches;
    var required := MergeRequired(schema, branches, below);
    BelowEmpty(branches, below);
    rewritten := PlainRoot(schema, properties, required, below != []);
  }

  /** The schemas of the branches that are not the root. */
  ghost predicate IsBelow(branches: seq<Branch>, below: seq<Fields>) {
    forall b :: b in below <==> exists i :: 0 <= i < |branches| && !branches[i].isRoot && branches[i].schema == b
  }

  lemma BelowPush(branches: seq<Branch>, last: Branch, below: seq<Fields>)
    requires IsBelow(branches, below)
    ensures IsBelow(branches + [last], if last.isRoot then below else below + [last.schema])
  {
    var all, below' := branches + [last], if last.isRoot then below else below + [last.schema];
    forall b
      ensures b in below' <==> exists i :: 0 <= i < |all| && !all[i].isRoot && all[i].schema == b
    {
      if b in below {
        var i :| 0 <= i < |branches| && !branches[i].isRoot && branches[i].schema == b;
        assert all[i] == branches[i];
      }
      assert all[|branches|] == last;
    }
  }

  lemma BelowEmpty(branches: seq<Branch>, below: seq<Fields>)
    requires IsBelow(branches, below)
    ensures below != [] <==> HasBranchBelow(branches)
  {
    if below != [] { assert below[0] in below; }
    if i :| 0 <= i < |branches| && !branches[i].isRoot { assert branches[i].schema in below; }
  }

  method MergeProperties(schema: Fields, branches: seq<Branch>) returns (properties: Fields)
    ensures MergesProperties(schema, branches, properties)
  {
    hide MergesProperties;
    properties := PropertiesOf(schema);
    NothingMerged(schema);
    for i := 0 to |branches|
      invariant MergesProperties(schema, branches[..i], properties)
    {
      MergePush(schema, branches[..i], branches[i], properties);
      properties := PropertiesOf(branches[i].schema) + properties;
      assert branches[..i + 1] == branches[..i] + [branches[i]];
    }
    assert branches[..|branches|] == branches;
  }

  lemma NothingMerged(schema: Fields)
    ensures MergesProperties(schema, [], PropertiesOf(schema))
  {
  }

  lemma MergePush(schema: Fields, branches: seq<Branch>, last: Branch, properties: Fields)
    requires MergesProperties(schema, branches, properties)
    ensures MergesProperties(schema, branches + [last], PropertiesOf(last.schema) + properties)
  {
    hide PropertiesOf;
    var all, merged := branches + [last], PropertiesOf(last.schema) + properties;
    OwnedPush(branches, last);
    forall i, name | 0 <= i < |all| && IsFirstOwner(schema, all, i, name)
      ensures merged[name] == PropertiesOf(all[i].schema)[name]
    {
      assert all[..i] == if i < |branches| then branches[..i] else branches;
      if i < |branches| {
        assert all[i] == branches[i] && IsFirstOwner(schema, branches, i, name);
      }
    }
  }

  lemma OwnedPush(branches: seq<Branch>, last: Branch)
    ensures forall name :: OwnedBelow(branches + [last], name) <==>
                           OwnedBelow(branches, name) || name in PropertiesOf(last.schema)
  {
    forall name
      ensures OwnedBelow(branches + [last], name) <==> OwnedBelow(branches, name) || name in PropertiesOf(last.schema)
    {
      if OwnedBelow(branches, name) {
        var i :| 0 <= i < |branches| && name in PropertiesOf(branches[i].schema);
        assert (branches + [last])[i] == branches[i];
      }
      assert (branches + [last])[|branches|] == last;
    }
  }

  method MergeRequired(schema: Fields, ghost branches: seq<Branch>, below: seq<Fields>) returns (required: seq<Json>)
    requires IsBelow(branches, below)
    ensures forall name :: name in required <==> RequiredBy(schema, branches, name)
  {
    hide RequiredOf;
    required := RequiredOf(schema);
    BelowEmpty(branches, below);
    if below != [] {
      var shared := RequiredOf(below[0]);
      for i := 1 to |below|
        invariant forall name :: name in shared <==> forall j :: 0 <= j < i ==> name in RequiredOf(below[j])
      {
        shared := Retain(shared, RequiredOf(below[i]));
      }
      SharedByAll(branches, below, shared);
      ghost var own := required;
      for i := 0 to |shared|
        invariant forall name :: name in required <==> name in own || name in shared[..i]
      {
        assert shared[..i + 1] == shared[..i] + [shared[i]];
        if shared[i] !in required {
          required := required + [shared[i]];
        }
      }
      assert shared[..|shared|] == shared;
    }
  }

  lemma SharedByAll(branches: seq<Branch>, below: seq<Fields>, shared: seq<Json>)
    requires IsBelow(branches, below)
    requires forall name :: name in shared <==> forall j :: 0 <= j < |below| ==> name in RequiredOf(below[j])
    ensures forall name :: name in shared <==>
      forall i :: 0 <= i < |branches| && !branches[i].isRoot ==> name in RequiredOf(branches[i].schema)
  {
    hide RequiredOf;
    forall name
      ensures name in shared <==>
        forall i :: 0 <= i < |branches| && !branches[i].isRoot ==> name in RequiredOf(branches[i].schema)
    {
      if name in shared {
        forall i | 0 <= i < |branches| && !branches[i].isRoot
          ensures name in RequiredOf(branches[i].schema)
        {
          assert branches[i].schema in below;
        }
      }
      if forall i :: 0 <= i < |branches| && !branches[i].isRoot ==> name in RequiredOf(branches[i].schema) {
        forall j | 0 <= j < |below|
          ensures name in RequiredOf(below[j])
        {
          assert below[j] in below;
        }
      }
    }
  }

  function Retain(names: seq<Json>, allowed: seq<Json>): (kept: seq<Json>)
    ensures forall name :: name in kept <==> name in names && name in allowed
  {
    if names == [] then []
    else (if names[0] in allowed then [names[0]] else []) + Retain(names[1..], allowed)
  }

  // ---------------------------------------------------------------------
  // The provider schema
  // ---------------------------------------------------------------------

  predicate HasRootUnion(schema: Fields) {
    || ("anyOf" in schema && schema["anyOf"].Array?)
    || ("oneOf" in schema && schema["oneOf"].Array?)
    || ("allOf" in schema && schema["allOf"].Array?)
  }

  predicate HasNullableObjectRoot(schema: Fields) {
    "type" in schema && schema["type"].Array? && Str("object") in schema["type"].items
  }

  /** Whatever the declared schema, the provider sees no union and no nullable object at the root. */
  method ProviderToolSchema(schema: Fields) returns (projected: Fields)
    ensures forall key :: key in {"anyOf", "oneOf", "allOf"} && key in projected ==> !projected[key].Array?
    ensures "type" in projected && projected["type"].Array? ==> Str("object") !in projected["type"].items
    ensures var normalized := NormalizeValue(Object(schema), 0).fields;
      if HasRootUnion(normalized) || HasNullableObjectRoot(normalized)
      then IsMergedRoot(normalized, Collecting(normalized, normalized, {}, 0, true).branches, projected)
      else projected == normalized
  {
    hide Collecting, IsMergedRoot, NormalizeKeyword, Dropped;
    var normalized := NormalizeValue(Object(schema), 0).fields;
    if !HasRootUnion(normalized) && !HasNullableObjectRoot(normalized) {
      return normalized;
    }
    projected := ObjectRootToolSchema(normalized);
    PlainRootHasNoUnion(normalized, Collecting(normalized, normalized, {}, 0, true).branches, projected);
  }

  lemma PlainRootHasNoUnion(schema: Fields, branches: seq<Branch>, root: Fields)
    requires IsMergedRoot(schema, branches, root)
    ensures !HasRootUnion(root) && !HasNullableObjectRoot(root)
  {
    hide MergesProperties, RequiredBy, HasBranchBelow;
  }

  // ---------------------------------------------------------------------
  // What was collected
  // ---------------------------------------------------------------------

  /** The root appears last if at all, so no branch below it can be taken for it. */
  lemma {:induction false} OnlyLastIsRoot(schema: Fields, root: Fields, seen: set<string>, depth: nat, isRoot: bool)
    ensures var c := Collecting(schema, root, seen, depth, isRoot);
            && seen <= c.seen
            && (forall i :: 0 <= i < |c.branches| && c.branches[i].isRoot ==> isRoot && i == |c.branches| - 1)
            && (forall i :: 0 <= i < |c.branches| ==>
                  IsObjectSchema(c.branches[i].schema) && !HasRef(c.branches[i].schema))
    decreases MAX_TOOL_SCHEMA_DEPTH + 1 - depth, 0
  {
    if depth <= MAX_TOOL_SCHEMA_DEPTH {
      if HasRef(schema) {
        var reference := schema["$ref"].text;
        if reference !in seen && ResolveLocalRef(reference, root).Some? {
          OnlyLastIsRoot(ResolveLocalRef(reference, root).value, root, seen + {reference}, depth + 1, false);
        }
      } else {
        NoneBelowIsRoot(UnionChildren(schema), root, seen, depth + 1);
      }
    }
  }

  lemma {:induction false} NoneBelowIsRoot(children: seq<Fields>, root: Fields, seen: set<string>, depth: nat)
    ensures var c := CollectingAll(children, root, seen, depth);
            && seen <= c.seen
            && (forall i :: 0 <= i < |c.branches| ==>
                  !c.branches[i].isRoot && IsObjectSchema(c.branches[i].schema) && !HasRef(c.branches[i].schema))
    decreases MAX_TOOL_SCHEMA_DEPTH + 1 - depth, 1, |children|
  {
    if children != [] {
      var k := |children| - 1;
      NoneBelowIsRoot(children[..k], root, seen, depth);
      OnlyLastIsRoot(children[k], root, CollectingAll(children[..k], root, seen, depth).seen, depth, false);
    }
  }

  /** Where one step leads: below a union, or behind a reference; a reference hides everything beside it. */
  function Successors(schema: Fields, root: Fields): seq<Fields> {
    if HasRef(schema) then
      match ResolveLocalRef(schema["$ref"].text, root)
      case None => []
      case Some(target) => [target]
    else UnionChildren(schema)
  }

  ghost predicate InUnion(schema: Fields, key: string, child: Fields) {
    key in schema && schema[key].Array? && Object(child) in schema[key].items
  }

  /** One step of a walk, told from the schema itself. */
  ghost predicate LeadsTo(schema: Fields, root: Fields, next: Fields) {
    if HasRef(schema) then ResolveLocalRef(schema["$ref"].text, root) == Some(next)
    else InUnion(schema, "anyOf", next) || InUnion(schema, "oneOf", next) || InUnion(schema, "allOf", next)
  }

  lemma {:induction false} ObjectsMembers(values: seq<Json>, child: Fields)
    ensures child in Objects(values) <==> Object(child) in values
  {
    if values != [] {
      var k := |values| - 1;
      ObjectsMembers(values[..k], child);
      assert values == values[..k] + [values[k]];
    }
  }

  lemma LeadsIff(schema: Fields, root: Fields, next: Fields)
    ensures LeadsTo(schema, root, next) <==> next in Successors(schema, root)
  {
    hide ResolveLocalRef, Objects;
    forall key | key in schema && schema[key].Array?
      ensures next in Objects(schema[key].items) <==> Object(next) in schema[key].items
    {
      ObjectsMembers(schema[key].items, next);
    }
  }

  /** A walk that follows none of the references in a set. */
  ghost predicate Way(path: seq<Fields>, root: Fields, barred: set<string>) {
    && path != []
    && (|path| > 1 ==>
          && LeadsTo(path[0], root, path[1])
          && (HasRef(path[0]) ==> path[0]["$ref"].text !in barred)
          && Way(path[1..], root, barred))
  }

  ghost predicate WayTo(path: seq<Fields>, root: Fields, barred: set<string>, schema: Fields, below: Fields) {
    Way(path, root, barred) && path[0] == schema && path[|path| - 1] == below
  }

  ghost predicate Reaches(schema: Fields, root: Fields, barred: set<string>, below: Fields) {
    exists path :: WayTo(path, root, barred, schema, below)
  }

  ghost predicate ReachedFrom(children: seq<Fields>, root: Fields, barred: set<string>, below: Fields) {
    exists c :: c in children && Reaches(c, root, barred, below)
  }

  /** A reference is met on a walk that does not follow it yet. */
  ghost predicate MeetsFrom(children: seq<Fields>, root: Fields, barred: set<string>, reference: string) {
    exists y: Fields :: HasRef(y) && y["$ref"].text == reference && ReachedFrom(children, root, barred, y)
  }

  /** However one walks without following a reference twice, so many steps are enough. */
  ghost predicate EndsWithin(schema: Fields, root: Fields, barred: set<string>, levels: nat)
    decreases levels
  {
    if HasRef(schema) then
      var reference := schema["$ref"].text;
      reference in barred || ResolveLocalRef(reference, root).None?
      || (levels > 0 && EndsWithin(ResolveLocalRef(reference, root).value, root, barred + {reference}, levels - 1))
    else forall c :: c in UnionChildren(schema) ==> levels > 0 && EndsWithin(c, root, barred, levels - 1)
  }

  lemma {:induction false} EndsSooner(schema: Fields, root: Fields, barred: set<string>, more: set<string>, levels: nat)
    requires EndsWithin(schema, root, barred, levels) && barred <= more
    ensures EndsWithin(schema, root, more, levels)
    decreases levels
  {
    hide UnionChildren, ResolveLocalRef;
    if HasRef(schema) {
      var reference := schema["$ref"].text;
      if reference !in more && ResolveLocalRef(reference, root).Some? {
        EndsSooner(ResolveLocalRef(reference, root).value, root, barred + {reference}, more + {reference}, levels - 1);
      }
    } else {
      forall c | c in UnionChildren(schema)
        ensures levels > 0 && EndsWithin(c, root, more, levels - 1)
      {
        EndsSooner(c, root, barred, more, levels - 1);
      }
    }
  }

  lemma ReachesStep(schema: Fields, root: Fields, barred: set<string>, below: Fields)
    ensures Reaches(schema, root, barred, below) <==>
            || schema == below
            || ((HasRef(schema) ==> schema["$ref"].text !in barred)
                && ReachedFrom(Successors(schema, root), root, barred, below))
  {
    hide Successors, LeadsTo;
    if path :| WayTo(path, root, barred, schema, below) {
      if |path| > 1 {
        assert WayTo(path[1..], root, barred, path[1], below);
        LeadsIff(schema, root, path[1]);
      }
    }
    if schema == below { assert WayTo([schema], root, barred, schema, below); }
    if c :| c in Successors(schema, root) && Reaches(c, root, barred, below)
            && (HasRef(schema) ==> schema["$ref"].text !in barred) {
      var path :| WayTo(path, root, barred, c, below);
      LeadsIff(schema, root, c);
      assert ([schema] + path)[1..] == path;
      assert WayTo([schema] + path, root, barred, schema, below);
    }
  }

  lemma {:induction false} WayWithFewerBars(path: seq<Fields>, root: Fields, barred: set<string>, fewer: set<string>)
    requires Way(path, root, barred) && fewer <= barred
    ensures Way(path, root, fewer)
    decreases |path|
  {
    hide LeadsTo;
    if |path| > 1 { WayWithFewerBars(path[1..], root, barred, fewer); }
  }

  lemma ReachesWithFewerBars(schema: Fields, root: Fields, barred: set<string>, fewer: set<string>, below: Fields)
    requires Reaches(schema, root, barred, below) && fewer <= barred
    ensures Reaches(schema, root, fewer, below)
  {
    var path :| WayTo(path, root, barred, schema, below);
    WayWithFewerBars(path, root, barred, fewer);
    assert WayTo(path, root, fewer, schema, below);
  }

  /** The end of some more references, from which a walk can go on without them. */
  ghost predicate PicksUp(reference: string, root: Fields, barred: set<string>, below: Fields) {
    ResolveLocalRef(reference, root).Some? && Reaches(ResolveLocalRef(reference, root).value, root, barred, below)
  }

  /** A walk avoids more references, or its rest does after the last of them it follows. */
  lemma {:induction false} LastFollowed(
      path: seq<Fields>, root: Fields, barred: set<string>, more: set<string>, schema: Fields, below: Fields)
    requires WayTo(path, root, barred, schema, below)
    ensures Reaches(schema, root, barred + more, below)
            || exists r :: r in more && PicksUp(r, root, barred + more, below)
    decreases |path|
  {
    hide ResolveLocalRef, UnionChildren, Reaches;
    ReachesStep(schema, root, barred + more, below);
    if |path| > 1 {
      LeadsIff(schema, root, path[1]);
      LastFollowed(path[1..], root, barred, more, path[1], below);
      if Reaches(path[1], root, barred + more, below) {
        assert path[1] in Successors(schema, root);
        if HasRef(schema) && schema["$ref"].text in more {
          assert PicksUp(schema["$ref"].text, root, barred + more, below);
        } else {
          assert ReachedFrom(Successors(schema, root), root, barred + more, below);
        }
      }
    }
  }

  ghost predicate InBranches(branches: seq<Branch>, x: Fields) {
    exists i :: 0 <= i < |branches| && branches[i].schema == x
  }

  lemma InBranchesConcat(a: seq<Branch>, b: seq<Branch>, x: Fields)
    ensures InBranches(a + b, x) <==> InBranches(a, x) || InBranches(b, x)
  {
    if i :| 0 <= i < |a| && a[i].schema == x { assert (a + b)[i] == a[i]; }
    if i :| 0 <= i < |b| && b[i].schema == x { assert (a + b)[|a| + i] == b[i]; }
  }

  /** A schema that can be collected: an object schema that is not a reference. */
  predicate Collectable(schema: Fields) {
    IsObjectSchema(schema) && !HasRef(schema)
  }

  /** What was collected can be reached, and what was newly marked as seen was met. */
  ghost predicate OnlyReached(c: Collected, children: seq<Fields>, root: Fields, seen: set<string>) {
    && seen <= c.seen
    && (forall x :: InBranches(c.branches, x) ==> Collectable(x) && ReachedFrom(children, root, seen, x))
    && (forall r :: r in c.seen ==> r in seen || MeetsFrom(children, root, seen, r))
  }

  /** The converse. */
  ghost predicate AllReached(c: Collected, children: seq<Fields>, root: Fields, seen: set<string>) {
    && (forall x :: Collectable(x) && ReachedFrom(children, root, seen, x) ==> InBranches(c.branches, x))
    && (forall r :: MeetsFrom(children, root, seen, r) ==> r in c.seen)
  }

  lemma FromOne(schema: Fields, root: Fields, barred: set<string>, below: Fields)
    ensures ReachedFrom([schema], root, barred, below) <==> Reaches(schema, root, barred, below)
  {
    hide Reaches;
    assert schema in [schema];
  }

  lemma FromMore(children: seq<Fields>, last: Fields, root: Fields, barred: set<string>, below: Fields)
    ensures ReachedFrom(children + [last], root, barred, below) <==>
            ReachedFrom(children, root, barred, below) || Reaches(last, root, barred, below)
  {
    hide Reaches;
    assert forall c :: c in children + [last] <==> c in children || c == last;
  }

  lemma FromFewerBars(children: seq<Fields>, root: Fields, barred: set<string>, fewer: set<string>, below: Fields)
    requires ReachedFrom(children, root, barred, below) && fewer <= barred
    ensures ReachedFrom(children, root, fewer, below)
  {
    hide Reaches;
    var c :| c in children && Reaches(c, root, barred, below);
    ReachesWithFewerBars(c, root, barred, fewer, below);
  }

  lemma FromNothing(root: Fields, barred: set<string>, below: Fields)
    ensures !ReachedFrom([], root, barred, below)
  {
  }

  /** What is reached behind a schema is reached from it. */
  lemma ReachedBehind(schema: Fields, children: seq<Fields>, root: Fields, barred: set<string>, below: Fields)
    requires ReachedFrom(children, root, barred, below) && children == Successors(schema, root)
    requires HasRef(schema) ==> schema["$ref"].text !in barred
    ensures ReachedFrom([schema], root, barred, below)
  {
    hide Reaches, ReachedFrom, Successors;
    ReachesStep(schema, root, barred, below);
    FromOne(schema, root, barred, below);
  }

  lemma NothingInBranches(x: Fields)
    ensures !InBranches([], x)
  {
  }

  lemma OneBranch(schema: Fields, isRoot: bool, x: Fields)
    ensures InBranches([Branch(schema, isRoot)], x) <==> schema == x
  {
    assert [Branch(schema, isRoot)][0].schema == schema;
  }

  lemma ReferenceIsMet(schema: Fields, root: Fields, barred: set<string>)
    requires HasRef(schema)
    ensures MeetsFrom([schema], root, barred, schema["$ref"].text)
  {
    hide Reaches;
    ReachesStep(schema, root, barred, schema);
    FromOne(schema, root, barred, schema);
  }

  /** Nothing but what a walk reaches is collected, however deep the schema is. */
  lemma {:induction false} CollectsOnlyReached(
      schema: Fields, root: Fields, seen: set<string>, depth: nat, isRoot: bool)
    ensures OnlyReached(Collecting(schema, root, seen, depth, isRoot), [schema], root, seen)
    decreases MAX_TOOL_SCHEMA_DEPTH + 1 - depth, 0
  {
    hide CollectingAll, UnionChildren, ResolveLocalRef, InBranches, ReachedFrom, MeetsFrom, IsObjectSchema, OnlyReached;
    var c := Collecting(schema, root, seen, depth, isRoot);
    if depth > MAX_TOOL_SCHEMA_DEPTH {
      NothingNew(c, [schema], root, seen);
    } else if HasRef(schema) {
      var reference := schema["$ref"].text;
      ReferenceIsMet(schema, root, seen);
      if reference in seen || ResolveLocalRef(reference, root).None? {
        NothingNew(c, [schema], root, seen);
      } else {
        var target := ResolveLocalRef(reference, root).value;
        CollectsOnlyReached(target, root, seen + {reference}, depth + 1, false);
        BehindReference(schema, target, c, root, seen);
      }
    } else {
      CollectsOnlyReachedAll(UnionChildren(schema), root, seen, depth + 1);
      BehindUnions(schema, CollectingAll(UnionChildren(schema), root, seen, depth + 1), c, isRoot, root, seen);
    }
  }

  lemma NothingNew(c: Collected, children: seq<Fields>, root: Fields, seen: set<string>)
    requires c.branches == [] && seen <= c.seen
    requires forall r :: r in c.seen - seen ==> MeetsFrom(children, root, seen, r)
    ensures OnlyReached(c, children, root, seen)
  {
    hide MeetsFrom, ReachedFrom;
  }

  lemma BehindReference(schema: Fields, target: Fields, c: Collected, root: Fields, seen: set<string>)
    requires HasRef(schema) && schema["$ref"].text !in seen
    requires ResolveLocalRef(schema["$ref"].text, root) == Some(target)
    requires OnlyReached(c, [target], root, seen + {schema["$ref"].text})
    ensures OnlyReached(c, [schema], root, seen)
  {
    hide Reaches, InBranches, IsObjectSchema, ReachedFrom;
    var reference := schema["$ref"].text;
    assert Successors(schema, root) == [target];
    forall x | ReachedFrom([target], root, seen + {reference}, x)
      ensures ReachedFrom([schema], root, seen, x)
    {
      FromFewerBars([target], root, seen + {reference}, seen, x);
      ReachedBehind(schema, [target], root, seen, x);
    }
    ReferenceIsMet(schema, root, seen);
  }

  lemma BehindUnions(
      schema: Fields, below: Collected, c: Collected, isRoot: bool, root: Fields, seen: set<string>)
    requires !HasRef(schema) && OnlyReached(below, UnionChildren(schema), root, seen)
    requires c == if IsObjectSchema(schema)
                  then Collected(below.seen, below.branches + [Branch(schema, isRoot)]) else below
    ensures OnlyReached(c, [schema], root, seen)
  {
    hide Reaches, InBranches, IsObjectSchema, ReachedFrom, UnionChildren;
    forall x | ReachedFrom(UnionChildren(schema), root, seen, x)
      ensures ReachedFrom([schema], root, seen, x)
    {
      ReachedBehind(schema, UnionChildren(schema), root, seen, x);
    }
    ReachesStep(schema, root, seen, schema);
    FromOne(schema, root, seen, schema);
    forall x
      ensures InBranches(c.branches, x) <==> InBranches(below.branches, x) || (IsObjectSchema(schema) && x == schema)
    {
      InBranchesConcat(below.branches, [Branch(schema, isRoot)], x);
      OneBranch(schema, isRoot, x);
    }
  }

  lemma {:induction false} CollectsOnlyReachedAll(children: seq<Fields>, root: Fields, seen: set<string>, depth: nat)
    ensures OnlyReached(CollectingAll(children, root, seen, depth), children, root, seen)
    decreases MAX_TOOL_SCHEMA_DEPTH + 1 - depth, 1, |children|
  {
    hide Collecting, OnlyReached, MeetsFrom;
    var c := CollectingAll(children, root, seen, depth);
    if children == [] {
      NothingNew(c, children, root, seen);
    } else {
      var init, last := children[..|children| - 1], children[|children| - 1];
      var earlier := CollectingAll(init, root, seen, depth);
      var later := Collecting(last, root, earlier.seen, depth, false);
      CollectsOnlyReachedAll(init, root, seen, depth);
      CollectsOnlyReached(last, root, earlier.seen, depth, false);
      assert children == init + [last];
      BothReached(init, last, earlier, later, root, seen);
    }
  }

  lemma BothReached(
      init: seq<Fields>, last: Fields, earlier: Collected, later: Collected, root: Fields, seen: set<string>)
    requires OnlyReached(earlier, init, root, seen) && OnlyReached(later, [last], root, earlier.seen)
    ensures OnlyReached(Collected(later.seen, earlier.branches + later.branches), init + [last], root, seen)
  {
    hide Reaches, InBranches, IsObjectSchema, ReachedFrom;
    forall x
      ensures ReachedFrom(init, root, seen, x) || ReachedFrom([last], root, earlier.seen, x) ==>
              ReachedFrom(init + [last], root, seen, x)
    {
      FromMore(init, last, root, seen, x);
      FromOne(last, root, seen, x);
      if ReachedFrom([last], root, earlier.seen, x) { FromFewerBars([last], root, earlier.seen, seen, x); }
    }
    forall x
      ensures InBranches(earlier.branches + later.branches, x) <==>
              InBranches(earlier.branches, x) || InBranches(later.branches, x)
    {
      InBranchesConcat(earlier.branches, later.branches, x);
    }
  }

  /** A walk goes on where another ended. */
  lemma {:induction false} WayOn(
      path: seq<Fields>, root: Fields, barred: set<string>, schema: Fields, middle: Fields, below: Fields)
    requires WayTo(path, root, barred, schema, middle) && Reaches(middle, root, barred, below)
    ensures Reaches(schema, root, barred, below)
    decreases |path|
  {
    hide Reaches, Successors, LeadsTo;
    if |path| > 1 {
      LeadsIff(schema, root, path[1]);
      WayOn(path[1..], root, barred, path[1], middle, below);
      ReachesStep(schema, root, barred, below);
      assert ReachedFrom(Successors(schema, root), root, barred, below);
    }
  }

  /** What lies behind a reference that was met is reached from there. */
  lemma BehindMet(children: seq<Fields>, root: Fields, barred: set<string>, reference: string, below: Fields)
    requires MeetsFrom(children, root, barred, reference) && reference !in barred
    requires PicksUp(reference, root, barred, below)
    ensures ReachedFrom(children, root, barred, below)
  {
    hide ResolveLocalRef;
    var y: Fields :| HasRef(y) && y["$ref"].text == reference && ReachedFrom(children, root, barred, y);
    var c :| c in children && Reaches(c, root, barred, y);
    var path :| WayTo(path, root, barred, c, y);
    var target := ResolveLocalRef(reference, root).value;
    assert Successors(y, root) == [target];
    FromOne(target, root, barred, below);
    ReachesStep(y, root, barred, below);
    WayOn(path, root, barred, c, y, below);
  }

  /** When no walk is longer than the limit allows, everything a walk reaches is collected. */
  lemma {:induction false} CollectsAllReached(
      schema: Fields, root: Fields, seen: set<string>, depth: nat, isRoot: bool, levels: nat)
    requires EndsWithin(schema, root, seen, levels) && depth + levels <= MAX_TOOL_SCHEMA_DEPTH
    ensures AllReached(Collecting(schema, root, seen, depth, isRoot), [schema], root, seen)
    decreases levels, 1
  {
    hide CollectingAll, UnionChildren, ResolveLocalRef, InBranches, ReachedFrom, MeetsFrom, IsObjectSchema, AllReached,
         OnlyReached;
    var c := Collecting(schema, root, seen, depth, isRoot);
    if HasRef(schema) {
      var reference := schema["$ref"].text;
      if reference in seen || ResolveLocalRef(reference, root).None? {
        NothingBehind(schema, c, root, seen);
      } else {
        var target := ResolveLocalRef(reference, root).value;
        CollectsAllReached(target, root, seen + {reference}, depth + 1, false, levels - 1);
        CollectsOnlyReached(target, root, seen + {reference}, depth + 1, false);
        AllBehindReference(schema, target, c, root, seen);
      }
    } else {
      var children := UnionChildren(schema);
      if children == [] {
        NothingToReach(root, seen, depth + 1);
      } else {
        assert children[0] in children;
        CollectsAllReachedBelow(children, root, seen, depth + 1, levels - 1);
      }
      AllBehindUnions(schema, CollectingAll(children, root, seen, depth + 1), c, isRoot, root, seen);
    }
  }

  lemma NothingToReach(root: Fields, seen: set<string>, depth: nat)
    ensures AllReached(CollectingAll([], root, seen, depth), [], root, seen)
  {
  }

  lemma NothingBehind(schema: Fields, c: Collected, root: Fields, seen: set<string>)
    requires HasRef(schema) && schema["$ref"].text in c.seen
    requires schema["$ref"].text in seen || ResolveLocalRef(schema["$ref"].text, root).None?
    ensures AllReached(c, [schema], root, seen)
  {
    hide Reaches, InBranches, IsObjectSchema, ResolveLocalRef, ReachedFrom;
    forall x | ReachedFrom([schema], root, seen, x)
      ensures x == schema
    {
      FromOne(schema, root, seen, x);
      ReachesStep(schema, root, seen, x);
      FromNothing(root, seen, x);
    }
  }

  lemma AllBehindReference(schema: Fields, target: Fields, c: Collected, root: Fields, seen: set<string>)
    requires HasRef(schema) && ResolveLocalRef(schema["$ref"].text, root) == Some(target)
    requires AllReached(c, [target], root, seen + {schema["$ref"].text})
    requires OnlyReached(c, [target], root, seen + {schema["$ref"].text})
    ensures AllReached(c, [schema], root, seen)
  {
    hide Reaches, InBranches, IsObjectSchema, ResolveLocalRef, ReachedFrom;
    var reference := schema["$ref"].text;
    assert Successors(schema, root) == [target];
    forall x | ReachedFrom([schema], root, seen, x)
      ensures x == schema || ReachedFrom([target], root, seen + {reference}, x)
    {
      FromOne(schema, root, seen, x);
      ReachesStep(schema, root, seen, x);
      FromOne(target, root, seen, x);
      FromOne(target, root, seen + {reference}, x);
      if x != schema {
        var path := TheWay(target, root, seen, x);
        LastFollowed(path, root, seen, {reference}, target, x);
      }
    }
  }

  lemma TheWay(schema: Fields, root: Fields, barred: set<string>, below: Fields) returns (path: seq<Fields>)
    requires Reaches(schema, root, barred, below)
    ensures WayTo(path, root, barred, schema, below)
  {
    path :| WayTo(path, root, barred, schema, below);
  }

  lemma AllBehindUnions(
      schema: Fields, below: Collected, c: Collected, isRoot: bool, root: Fields, seen: set<string>)
    requires !HasRef(schema) && AllReached(below, UnionChildren(schema), root, seen)
    requires c == if IsObjectSchema(schema)
                  then Collected(below.seen, below.branches + [Branch(schema, isRoot)]) else below
    ensures AllReached(c, [schema], root, seen)
  {
    hide Reaches, InBranches, IsObjectSchema, ReachedFrom, UnionChildren;
    forall x | ReachedFrom([schema], root, seen, x)
      ensures x == schema || ReachedFrom(UnionChildren(schema), root, seen, x)
    {
      FromOne(schema, root, seen, x);
      ReachesStep(schema, root, seen, x);
    }
    forall x
      ensures InBranches(c.branches, x) <==> InBranches(below.branches, x) || (IsObjectSchema(schema) && x == schema)
    {
      InBranchesConcat(below.branches, [Branch(schema, isRoot)], x);
      OneBranch(schema, isRoot, x);
    }
  }

  lemma {:induction false} CollectsAllReachedBelow(
      children: seq<Fields>, root: Fields, seen: set<string>, depth: nat, levels: nat)
    requires forall c :: c in children ==> EndsWithin(c, root, seen, levels)
    requires depth + levels <= MAX_TOOL_SCHEMA_DEPTH
    ensures AllReached(CollectingAll(children, root, seen, depth), children, root, seen)
    decreases levels, 2, |children|
  {
    hide Collecting, AllReached, OnlyReached, EndsWithin;
    if children == [] {
      NothingToReach(root, seen, depth);
    } else {
      var init, last := children[..|children| - 1], children[|children| - 1];
      var earlier := CollectingAll(init, root, seen, depth);
      var later := Collecting(last, root, earlier.seen, depth, false);
      CollectsOnlyReachedAll(init, root, seen, depth);
      assert seen <= earlier.seen by { SeenStays(earlier, init, root, seen); }
      CollectsAllReachedBelow(init, root, seen, depth, levels);
      EndsSooner(last, root, seen, earlier.seen, levels);
      CollectsAllReached(last, root, earlier.seen, depth, false, levels);
      CollectsOnlyReached(last, root, earlier.seen, depth, false);
      assert children == init + [last];
      AllOfBoth(init, last, earlier, later, root, seen);
    }
  }

  lemma SeenStays(c: Collected, children: seq<Fields>, root: Fields, seen: set<string>)
    requires OnlyReached(c, children, root, seen)
    ensures seen <= c.seen
  {
  }

  /** Behind a reference that an earlier child followed, nothing new can be reached. */
  lemma ReachedAnew(
      init: seq<Fields>, last: Fields, earlier: Collected, root: Fields, seen: set<string>, x: Fields)
    requires OnlyReached(earlier, init, root, seen) && Reaches(last, root, seen, x)
    ensures ReachedFrom(init, root, seen, x) || Reaches(last, root, earlier.seen, x)
  {
    hide Reaches, InBranches, IsObjectSchema, ReachedFrom, MeetsFrom;
    var path := TheWay(last, root, seen, x);
    var more := earlier.seen - seen;
    LastFollowed(path, root, seen, more, last, x);
    assert seen + more == earlier.seen;
    if !Reaches(last, root, earlier.seen, x) {
      var r :| r in more && PicksUp(r, root, earlier.seen, x);
      ReachesWithFewerBars(ResolveLocalRef(r, root).value, root, earlier.seen, seen, x);
      BehindMet(init, root, seen, r, x);
    }
  }

  lemma AllOfBoth(
      init: seq<Fields>, last: Fields, earlier: Collected, later: Collected, root: Fields, seen: set<string>)
    requires OnlyReached(earlier, init, root, seen) && OnlyReached(later, [last], root, earlier.seen)
    requires AllReached(earlier, init, root, seen) && AllReached(later, [last], root, earlier.seen)
    ensures AllReached(Collected(later.seen, earlier.branches + later.branches), init + [last], root, seen)
  {
    hide Reaches, InBranches, IsObjectSchema, ReachedFrom;
    forall x | ReachedFrom(init + [last], root, seen, x)
      ensures ReachedFrom(init, root, seen, x) || ReachedFrom([last], root, earlier.seen, x)
    {
      FromMore(init, last, root, seen, x);
      FromOne(last, root, earlier.seen, x);
      if Reaches(last, root, seen, x) { ReachedAnew(init, last, earlier, root, seen, x); }
    }
    forall x
      ensures InBranches(earlier.branches + later.branches, x) <==>
              InBranches(earlier.branches, x) || InBranches(later.branches, x)
    {
      InBranchesConcat(earlier.branches, later.branches, x);
    }
  }

  /**
  Exactly the object schemas that a walk through unions and local references reaches, without
  following a reference that was seen before, are collected, as long as no such walk that follows
  each reference once is longer than the limit. Recursive definitions are no exception.
  */
  lemma CollectsReachable(
      schema: Fields, root: Fields, seen: set<string>, depth: nat, isRoot: bool, levels: nat, x: Fields)
    requires EndsWithin(schema, root, seen, levels) && depth + levels <= MAX_TOOL_SCHEMA_DEPTH
    ensures InBranches(Collecting(schema, root, seen, depth, isRoot).branches, x) <==>
            IsObjectSchema(x) && !HasRef(x) && Reaches(schema, root, seen, x)
  {
    hide Collecting, Reaches, InBranches, IsObjectSchema, ReachedFrom, MeetsFrom;
    CollectsAllReached(schema, root, seen, depth, isRoot, levels);
    CollectsOnlyReached(schema, root, seen, depth, isRoot);
    FromOne(schema, root, seen, x);
  }

  ghost predicate BelowRoot(branches: seq<Branch>, x: Fields) {
    exists i :: 0 <= i < |branches| && !branches[i].isRoot && branches[i].schema == x
  }

  lemma AllBelow(branches: seq<Branch>, x: Fields)
    requires forall i :: 0 <= i < |branches| ==> !branches[i].isRoot
    ensures BelowRoot(branches, x) <==> InBranches(branches, x)
  {
  }

  lemma AllButRoot(branches: seq<Branch>, root: Fields, x: Fields)
    requires forall i :: 0 <= i < |branches| ==> !branches[i].isRoot
    ensures BelowRoot(branches + [Branch(root, true)], x) <==> InBranches(branches, x)
  {
    var all := branches + [Branch(root, true)];
    assert forall i :: 0 <= i < |branches| ==> all[i] == branches[i];
    assert all[|branches|].isRoot;
  }

  lemma BelowReference(schema: Fields, target: Fields, x: Fields)
    requires HasRef(schema) && ResolveLocalRef(schema["$ref"].text, schema) == Some(target)
    requires EndsWithin(schema, schema, {}, MAX_TOOL_SCHEMA_DEPTH)
    ensures BelowRoot(Collecting(schema, schema, {}, 0, true).branches, x) <==>
            Collectable(x) && ReachedFrom([target], schema, {}, x)
  {
    hide CollectingAll, UnionChildren, ResolveLocalRef, InBranches, ReachedFrom, MeetsFrom, IsObjectSchema, BelowRoot,
         Reaches;
    var reference := schema["$ref"].text;
    assert {} + {reference} == {reference};
    var c := Collecting(target, schema, {reference}, 1, false);
    assert Collecting(schema, schema, {}, 0, true) == c;
    CollectsBelow(target, schema, {reference}, x);
    OnlyLastIsRoot(target, schema, {reference}, 1, false);
    AllBelow(c.branches, x);
    BarredOrNot(target, schema, reference, x);
  }

  lemma CollectsBelow(target: Fields, root: Fields, seen: set<string>, x: Fields)
    requires EndsWithin(target, root, seen, MAX_TOOL_SCHEMA_DEPTH - 1)
    ensures InBranches(Collecting(target, root, seen, 1, false).branches, x) <==>
            Collectable(x) && ReachedFrom([target], root, seen, x)
  {
    hide Collecting, InBranches, ReachedFrom, MeetsFrom, IsObjectSchema, EndsWithin;
    CollectsAllReached(target, root, seen, 1, false, MAX_TOOL_SCHEMA_DEPTH - 1);
    CollectsOnlyReached(target, root, seen, 1, false);
  }

  lemma CollectsUnions(schema: Fields, x: Fields)
    requires !HasRef(schema) && EndsWithin(schema, schema, {}, MAX_TOOL_SCHEMA_DEPTH)
    ensures InBranches(CollectingAll(UnionChildren(schema), schema, {}, 1).branches, x) <==>
            Collectable(x) && ReachedFrom(UnionChildren(schema), schema, {}, x)
  {
    hide Collecting, CollectingAll, UnionChildren, InBranches, ReachedFrom, MeetsFrom, IsObjectSchema;
    var children := UnionChildren(schema);
    if children == [] {
      NothingToReach(schema, {}, 1);
    } else {
      assert children[0] in children;
      CollectsAllReachedBelow(children, schema, {}, 1, MAX_TOOL_SCHEMA_DEPTH - 1);
    }
    CollectsOnlyReachedAll(children, schema, {}, 1);
  }

  lemma BelowUnions(schema: Fields, x: Fields)
    requires !HasRef(schema) && EndsWithin(schema, schema, {}, MAX_TOOL_SCHEMA_DEPTH)
    ensures BelowRoot(Collecting(schema, schema, {}, 0, true).branches, x) <==>
            Collectable(x) && ReachedFrom(UnionChildren(schema), schema, {}, x)
  {
    hide CollectingAll, UnionChildren, InBranches, ReachedFrom, IsObjectSchema, BelowRoot, EndsWithin;
    var below := CollectingAll(UnionChildren(schema), schema, {}, 1);
    CollectsUnions(schema, x);
    NoneBelowIsRoot(UnionChildren(schema), schema, {}, 1);
    AllBelow(below.branches, x);
    AllButRoot(below.branches, schema, x);
  }

  /** The branches below the root are the object schemas that a walk reaches after its first step. */
  lemma BranchesBelow(schema: Fields, x: Fields)
    requires EndsWithin(schema, schema, {}, MAX_TOOL_SCHEMA_DEPTH)
    ensures BelowRoot(Collecting(schema, schema, {}, 0, true).branches, x) <==>
            Collectable(x) && ReachedFrom(Successors(schema, schema), schema, {}, x)
  {
    hide CollectingAll, UnionChildren, ResolveLocalRef, InBranches, ReachedFrom, IsObjectSchema, BelowRoot, EndsWithin;
    if !HasRef(schema) {
      BelowUnions(schema, x);
    } else if ResolveLocalRef(schema["$ref"].text, schema).Some? {
      BelowReference(schema, ResolveLocalRef(schema["$ref"].text, schema).value, x);
    } else {
      FromNothing(schema, {}, x);
      AllBelow(Collecting(schema, schema, {}, 0, true).branches, x);
      NothingInBranches(x);
    }
  }

  /** Behind a reference it makes no difference whether one may follow it again. */
  lemma BarredOrNot(target: Fields, root: Fields, reference: string, x: Fields)
    requires ResolveLocalRef(reference, root) == Some(target)
    ensures ReachedFrom([target], root, {reference}, x) <==> ReachedFrom([target], root, {}, x)
  {
    hide Reaches, ResolveLocalRef, ReachedFrom;
    FromOne(target, root, {reference}, x);
    FromOne(target, root, {}, x);
    if Reaches(target, root, {}, x) {
      var path := TheWay(target, root, {}, x);
      LastFollowed(path, root, {}, {reference}, target, x);
      assert {} + {reference} == {reference};
    }
    if Reaches(target, root, {reference}, x) { ReachesWithFewerBars(target, root, {reference}, {}, x); }
  }

  /** An object schema below the root of a tool schema. */
  ghost predicate Beneath(schema: Fields, x: Fields) {
    && (("type" in x && x["type"] == Str("object")) || ("properties" in x && x["properties"].Object?)) && !HasRef(x)
    && exists c :: LeadsTo(schema, schema, c) && Reaches(c, schema, {}, x)
  }

  lemma BeneathIff(schema: Fields, x: Fields)
    ensures Beneath(schema, x) <==> Collectable(x) && ReachedFrom(Successors(schema, schema), schema, {}, x)
  {
    hide Successors, LeadsTo, Reaches;
    forall c
      ensures LeadsTo(schema, schema, c) <==> c in Successors(schema, schema)
    {
      LeadsIff(schema, schema, c);
    }
  }

  /**
  The plain root in terms of the declared schema alone: it has exactly the property names of the
  root and of the object schemas below it, through unions and references, and requires exactly what
  the root requires or all of those require.
  */
  lemma MergesWhatIsBeneath(schema: Fields, root: Fields)
    requires EndsWithin(schema, schema, {}, 8)
    requires IsMergedRoot(schema, Collecting(schema, schema, {}, 0, true).branches, root)
    ensures forall name :: name in PropertiesOf(root) <==>
              name in PropertiesOf(schema) || exists x :: Beneath(schema, x) && name in PropertiesOf(x)
    ensures forall name :: name in RequiredOf(root) <==>
              || name in RequiredOf(schema)
              || ((exists x :: Beneath(schema, x)) && forall x :: Beneath(schema, x) ==> name in RequiredOf(x))
  {
    hide Collecting, PropertiesOf, RequiredOf, IsObjectSchema, ReachedFrom, Successors, EndsWithin, Beneath;
    var branches := Collecting(schema, schema, {}, 0, true).branches;
    OnlyLastIsRoot(schema, schema, {}, 0, true);
    forall x
      ensures BelowRoot(branches, x) <==> Beneath(schema, x)
    {
      BranchesBelow(schema, x);
      BeneathIff(schema, x);
    }
    RootIsItself(schema);
    forall name
      ensures OwnedBelow(branches, name) || name in PropertiesOf(schema) <==>
              name in PropertiesOf(schema) || exists x :: Beneath(schema, x) && name in PropertiesOf(x)
    {
      OwnedBeneath(schema, branches, name);
    }
    BranchBeneath(branches);
    forall name
      ensures RequiredBy(schema, branches, name) <==>
              || name in RequiredOf(schema)
              || ((exists x :: Beneath(schema, x)) && forall x :: Beneath(schema, x) ==> name in RequiredOf(x))
    {
      RequiredBeneath(schema, branches, name);
    }
  }

  /** A branch that is marked as the root is the root. */
  lemma RootIsItself(schema: Fields)
    ensures var branches := Collecting(schema, schema, {}, 0, true).branches;
            forall i :: 0 <= i < |branches| && branches[i].isRoot ==> branches[i].schema == schema
  {
    hide CollectingAll, UnionChildren, ResolveLocalRef;
    if HasRef(schema) {
      assert {} + {schema["$ref"].text} == {schema["$ref"].text};
      if ResolveLocalRef(schema["$ref"].text, schema).Some? {
        OnlyLastIsRoot(
          ResolveLocalRef(schema["$ref"].text, schema).value, schema, {schema["$ref"].text}, 1, false);
      }
    } else {
      NoneBelowIsRoot(UnionChildren(schema), schema, {}, 1);
    }
  }

  lemma OwnedBeneath(schema: Fields, branches: seq<Branch>, name: string)
    requires forall x :: BelowRoot(branches, x) <==> Beneath(schema, x)
    requires forall i :: 0 <= i < |branches| && branches[i].isRoot ==> branches[i].schema == schema
    ensures OwnedBelow(branches, name) || name in PropertiesOf(schema) <==>
            name in PropertiesOf(schema) || exists x :: Beneath(schema, x) && name in PropertiesOf(x)
  {
    hide PropertiesOf, Beneath;
    if i :| 0 <= i < |branches| && name in PropertiesOf(branches[i].schema) {
      if !branches[i].isRoot { assert BelowRoot(branches, branches[i].schema); }
    }
    if x :| Beneath(schema, x) && name in PropertiesOf(x) {
      assert BelowRoot(branches, x);
    }
  }

  lemma BranchBeneath(branches: seq<Branch>)
    ensures HasBranchBelow(branches) <==> exists x :: BelowRoot(branches, x)
  {
    if i :| 0 <= i < |branches| && !branches[i].isRoot { assert BelowRoot(branches, branches[i].schema); }
  }

  lemma RequiredBeneath(schema: Fields, branches: seq<Branch>, name: Json)
    requires forall x :: BelowRoot(branches, x) <==> Beneath(schema, x)
    ensures RequiredBy(schema, branches, name) <==>
            || name in RequiredOf(schema)
            || ((exists x :: Beneath(schema, x)) && forall x :: Beneath(schema, x) ==> name in RequiredOf(x))
  {
    hide RequiredOf, Beneath;
    BranchBeneath(branches);
    if HasBranchBelow(branches) && forall x :: Beneath(schema, x) ==> name in RequiredOf(x) {
      forall i | 0 <= i < |branches| && !branches[i].isRoot
        ensures name in RequiredOf(branches[i].schema)
      {
        assert BelowRoot(branches, branches[i].schema);
      }
    }
    if forall i :: 0 <= i < |branches| && !branches[i].isRoot ==> name in RequiredOf(branches[i].schema) {
      forall x | Beneath(schema, x)
        ensures name in RequiredOf(x)
      {
        assert BelowRoot(branches, x);
      }
    }
  }

  /** The object schema behind a reference that was not seen before is collected, whatever lies below it. */
  lemma ReferenceIsCollected(
      schema: Fields, root: Fields, seen: set<string>, depth: nat, isRoot: bool, target: Fields)
    requires HasRef(schema) && schema["$ref"].text !in seen && depth < MAX_TOOL_SCHEMA_DEPTH
    requires ResolveLocalRef(schema["$ref"].text, root) == Some(target)
    requires IsObjectSchema(target) && !HasRef(target)
    ensures InBranches(Collecting(schema, root, seen, depth, isRoot).branches, target)
  {
    hide CollectingAll, UnionChildren, ResolveLocalRef, InBranches, IsObjectSchema;
    var seen' := seen + {schema["$ref"].text};
    var below := CollectingAll(UnionChildren(target), root, seen', depth + 2);
    InBranchesConcat(below.branches, [Branch(target, false)], target);
    OneBranch(target, false, target);
  }

  /** A reference met only at the limit is marked as seen and lost, there and at every later visit. */
  lemma ReferenceIsLostAtLimit(
      schema: Fields, root: Fields, seen: set<string>, isRoot: bool, laterDepth: nat, later: set<string>)
    requires HasRef(schema) && Collecting(schema, root, seen, MAX_TOOL_SCHEMA_DEPTH, isRoot).seen <= later
    ensures Collecting(schema, root, seen, MAX_TOOL_SCHEMA_DEPTH, isRoot).branches == []
    ensures Collecting(schema, root, later, laterDepth, false).branches == []
  {
    ReferenceIsFollowedOnce(schema, root, seen, MAX_TOOL_SCHEMA_DEPTH, isRoot, later, laterDepth);
  }

  /** Every one of these references leads, within the schema, to another of them. */
  ghost predicate OnlyReferences(refs: set<string>, root: Fields) {
    forall r :: r in refs ==>
      var resolved := ResolveLocalRef(r, root);
      resolved.Some? && HasRef(resolved.value) && resolved.value["$ref"].text in refs
  }

  /** References that only lead to each other, in cycles of any length, contribute no branch. */
  lemma {:induction false} CyclicReferenceEnds(
      refs: set<string>, schema: Fields, root: Fields, seen: set<string>, depth: nat, isRoot: bool)
    requires OnlyReferences(refs, root) && HasRef(schema) && schema["$ref"].text in refs
    ensures var c := Collecting(schema, root, seen, depth, isRoot);
            c.branches == [] && seen <= c.seen <= seen + refs
    decreases MAX_TOOL_SCHEMA_DEPTH + 1 - depth
  {
    hide ResolveLocalRef, CollectingAll;
    var reference := schema["$ref"].text;
    if depth <= MAX_TOOL_SCHEMA_DEPTH && reference !in seen {
      CyclicReferenceEnds(refs, ResolveLocalRef(reference, root).value, root, seen + {reference}, depth + 1, false);
    }
  }

  /** Whatever lies behind a reference, it is collected once: any later visit contributes nothing. */
  lemma ReferenceIsFollowedOnce(
      schema: Fields, root: Fields, seen: set<string>, depth: nat, isRoot: bool, later: set<string>, laterDepth: nat)
    requires HasRef(schema) && depth <= MAX_TOOL_SCHEMA_DEPTH
    requires Collecting(schema, root, seen, depth, isRoot).seen <= later
    ensures Collecting(schema, root, later, laterDepth, false) == Collected(later, [])
  {
    hide ResolveLocalRef, CollectingAll;
    var reference := schema["$ref"].text;
    if reference !in seen && ResolveLocalRef(reference, root).Some? {
      OnlyLastIsRoot(ResolveLocalRef(reference, root).value, root, seen + {reference}, depth + 1, false);
    }
    assert reference in Collecting(schema, root, seen, depth, isRoot).seen;
  }

  /** A definition that is a reference to itself is followed exactly once. */
  lemma SelfReferenceEnds(name: string, root: Fields)
    requires '/' !in name && '~' !in name
    requires "$defs" in root && root["$defs"].Object?
    requires name in root["$defs"].fields
    requires root["$defs"].fields[name] == Object(map["$ref" := Str("#/$defs/" + name)])
    ensures Collecting(map["$ref" := Str("#/$defs/" + name)], root, {}, 0, true)
         == Collected({"#/$defs/" + name}, [])
  {
    hide ResolveLocalRef, Unescaped, Split, Pointer, Escape;
    var reference := "#/$defs/" + name;
    DefsPointer(name);
    RefFollowsPath(["$defs", name], root);
    assert ["$defs", name][1..] == [name];
    assert Walk(root, ["$defs", name]) == Some(map["$ref" := Str(reference)]);
  }

  lemma DefsPointer(name: string)
    requires '/' !in name && '~' !in name
    ensures "#/" + Pointer(["$defs", name]) == "#/$defs/" + name
  {
    hide Escape;
    PlainKey("$defs");
    PlainKey(name);
    assert ["$defs", name][1..] == [name];
    assert Pointer(["$defs", name]) == "$defs" + "/" + name;
  }

  lemma {:induction false} PlainKey(key: string)
    requires '/' !in key && '~' !in key
    ensures Escape(key) == key
  {
    if key != "" {
      PlainKey(key[1..]);
      assert key == [key[0]] + key[1..];
    }
  }
}
