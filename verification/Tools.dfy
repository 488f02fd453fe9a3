/**
The request's tool list: declared tools, and the merge of tools that earlier
searches discovered, together with the flat-name maps they are entitled to.
*/
module Tools {
  import opened Outcomes
  import opened Json
  import opened Namespace

  datatype ToolBody = ToolBody(description: string, parameters: Json, strict: Option<bool>)

  datatype Tool = Function(name: string, body: ToolBody) | HostedWebSearch

  /** Where a projected tool came from; a namespaced one owns an entry in the maps. */
  datatype Origin = Plain | Search | Namespaced(native: NativeToolName)

  datatype Entry = Listed(tool: Tool, origin: Origin)

  /** One tool to add: a specification's child is named after its pair, a search tool has one name. */
  datatype Addition =
    | PlainTool(plain: Tool)
    | SearchTool(body: ToolBody)
    | NamespacedTool(native: NativeToolName, body: ToolBody)
  {
    function Tool(): Tool {
      match this
      case PlainTool(tool) => tool
      case SearchTool(body) => Function(TOOL_SEARCH, body)
      case NamespacedTool(native, body) => Function(Flat(native), body)
    }

    function Origin(): Origin {
      match this
      case PlainTool(_) => Plain
      case SearchTool(_) => Search
      case NamespacedTool(native, _) => Namespaced(native)
    }

    function Entry(): Entry {
      Listed(Tool(), Origin())
    }
  }

  /** The identity two entries of a list must not share. */
  function Key(tool: Tool): Option<string> {
    match tool
    case Function(name, _) => Some(name)
    case HostedWebSearch => None
  }

  datatype Registry = Registry(tools: seq<Tool>, maps: Maps)

  /** The identities a list uses. */
  ghost function Keys(tools: seq<Tool>): set<Option<string>> {
    if tools == [] then {} else Keys(tools[..|tools| - 1]) + {Key(tools[|tools| - 1])}
  }

  ghost predicate DistinctKeys(tools: seq<Tool>) {
    tools == [] ||
    (DistinctKeys(tools[..|tools| - 1]) && Key(tools[|tools| - 1]) !in Keys(tools[..|tools| - 1]))
  }

  lemma Push(tools: seq<Tool>, last: Tool)
    ensures Keys(tools + [last]) == Keys(tools) + {Key(last)}
    ensures DistinctKeys(tools + [last]) <==> DistinctKeys(tools) && Key(last) !in Keys(tools)
  {
    assert (tools + [last])[..|tools|] == tools;
  }

  lemma {:induction false} InKeys(tools: seq<Tool>, t: Tool)
    requires t in tools
    ensures Key(t) in Keys(tools)
  {
    var init, last := tools[..|tools| - 1], tools[|tools| - 1];
    assert tools == init + [last];
    if t != last { InKeys(init, t); }
  }

  /** Distinct keys in terms of positions. */
  lemma {:induction false} DistinctMeans(tools: seq<Tool>)
    ensures DistinctKeys(tools) <==> forall i, j :: 0 <= i < j < |tools| ==> Key(tools[i]) != Key(tools[j])
    ensures forall k :: k in Keys(tools) <==> exists i :: 0 <= i < |tools| && Key(tools[i]) == k
  {
    if tools != [] {
      var init, last := tools[..|tools| - 1], tools[|tools| - 1];
      DistinctMeans(init);
      assert forall i :: 0 <= i < |init| ==> tools[i] == init[i];
    }
  }

  ghost predicate Valid(reg: Registry) {
    |reg.tools| <= MAX_XAI_TOOLS && Entitled(reg.tools, reg.maps)
  }

  /** Distinct tools, and maps that only speak about listed ones. */
  ghost predicate Entitled(tools: seq<Tool>, maps: Maps) {
    && maps.Valid()
    && DistinctKeys(tools)
    && (forall p :: p in maps.toNative ==> Some(p) in Keys(tools))
    && (maps.search.Some? ==>
          maps.search.value == TOOL_SEARCH && Some(TOOL_SEARCH) in Keys(tools) && TOOL_SEARCH !in maps.toNative)
  }

  function OriginOf(maps: Maps, tool: Tool): Origin {
    if tool.HostedWebSearch? then Plain
    else if tool.name in maps.toNative then Namespaced(maps.toNative[tool.name])
    else if maps.search == Some(tool.name) then Search
    else Plain
  }

  function Registered(maps: Maps, add: Addition): Maps
  {
    match add.Origin()
    case Plain => maps
    case Search => maps.(search := Some(add.Tool().name))
    case Namespaced(native) => Inserted(maps, native)
  }

  /** A tool under a free key may be added; it gets its origin and disturbs no other. */
  lemma EntitledPush(tools: seq<Tool>, maps: Maps, add: Addition)
    requires Entitled(tools, maps) && Key(add.Tool()) !in Keys(tools)
    ensures Entitled(tools + [add.Tool()], Registered(maps, add))
    ensures OriginOf(Registered(maps, add), add.Tool()) == add.Origin()
    ensures forall t :: t in tools ==> OriginOf(Registered(maps, add), t) == OriginOf(maps, t)
  {
    hide Keys, DistinctKeys, Flat;
    Push(tools, add.Tool());
    if add.NamespacedTool? { InsertedValid(maps, add.native); }
    forall t | t in tools
      ensures OriginOf(Registered(maps, add), t) == OriginOf(maps, t)
    {
      InKeys(tools, t);
    }
  }

  function Find(tools: seq<Tool>, name: string): (r: Option<Tool>)
    ensures r.Some? ==> r.value in tools && Key(r.value) == Some(name)
    ensures r.None? <==> Some(name) !in Keys(tools)
  {
    if tools == [] then None
    else if Key(tools[|tools| - 1]) == Some(name) then
      (InKeys(tools, tools[|tools| - 1]); Some(tools[|tools| - 1]))
    else Find(tools[..|tools| - 1], name)
  }

  lemma {:induction false} SameKey(tools: seq<Tool>, a: Tool, b: Tool)
    requires DistinctKeys(tools) && a in tools && b in tools && Key(a) == Key(b)
    ensures a == b
  {
    var init, last := tools[..|tools| - 1], tools[|tools| - 1];
    assert tools == init + [last];
    if a in init { InKeys(init, a); }
    if b in init { InKeys(init, b); }
    if a in init && b in init { SameKey(init, a, b); }
  }

  // ---------------------------------------------------------------------
  // Merging one discovered tool
  // ---------------------------------------------------------------------

  /** One merge step, as a value: an equal entry is ignored, a different one is refused. */
  function Merged(reg: Registry, add: Addition): Result<Registry, ToolError>
  {
    if add.Tool() in reg.tools && OriginOf(reg.maps, add.Tool()) == add.Origin() then Ok(reg)
    else if add.Tool().Function? && Find(reg.tools, add.Tool().name).Some? then Err(DuplicateToolName)
    else if |reg.tools| >= MAX_XAI_TOOLS then Err(TooManyTools)
    else Ok(Registry(reg.tools + [add.Tool()], Registered(reg.maps, add)))
  }

  /** The maps parsed together with an addition agree with its origin. */
  ghost predicate Describes(discovered: Maps, add: Addition) {
    add.Tool().Function? ==>
      && discovered.Restore(add.Tool().name) == (if add.Origin().Namespaced? then Some(add.Origin().native) else None)
      && (discovered.search == Some(add.Tool().name) <==> add.Origin().Search?)
  }

  method MergeDiscoveredTool(existing: seq<Tool>, projection: NamespaceToolProjection, addition: Tool,
                             discovered: Maps, ghost add: Addition)
    returns (r: Result<seq<Tool>, ToolError>)
    requires Valid(Registry(existing, projection.Value()))
    requires add.Tool() == addition && Describes(discovered, add)
    modifies projection
    ensures match Merged(Registry(existing, old(projection.Value())), add)
            case Ok(reg) => r == Ok(reg.tools) && projection.Value() == reg.maps
            case Err(e) => r.Err? && r.error == e
    ensures r.Ok? ==> Valid(Registry(r.value, projection.Value()))
  {
    MergedKeepsValid(Registry(existing, projection.Value()), add);
    if addition.HostedWebSearch? {
      if addition in existing {
        return Ok(existing);
      }
      if |existing| >= MAX_XAI_TOOLS {
        return Err(TooManyTools);
      }
      return Ok(existing + [addition]);
    }
    var name := addition.name;
    var candidateNative := discovered.Restore(name);
    var existingNative := projection.Value().Restore(name);
    var candidateIsSearch := discovered.search == Some(name);
    var existingIsSearch := projection.toolSearchProviderName == Some(name);
    var current := Find(existing, name);
    if current.Some? {
      if addition in existing { SameKey(existing, current.value, addition); }
      if current.value == addition && existingNative == candidateNative && existingIsSearch == candidateIsSearch {
        return Ok(existing);
      }
      return Err(DuplicateToolName);
    }
    if addition in existing { InKeys(existing, addition); }
    assert existingNative.None? && !existingIsSearch;
    if candidateNative.Some? {
      FreshPair(projection.Value(), candidateNative.value);
      var inserted := projection.Insert(name, candidateNative.value);
      assert inserted.Ok?;
    }
    if candidateIsSearch {
      assert projection.toolSearchProviderName.None?;
      projection.toolSearchProviderName := Some(name);
    }
    // A refusal here leaves the maps extended: the request then fails as a whole.
    if |existing| >= MAX_XAI_TOOLS {
      return Err(TooManyTools);
    }
    return Ok(existing + [addition]);
  }

  lemma {:induction false} MergedKeepsValid(reg: Registry, add: Addition)
    requires Valid(reg)
    ensures Merged(reg, add).Ok? ==> Valid(Merged(reg, add).value)
    ensures Merged(reg, add).Ok? && Merged(reg, add).value != reg ==>
      Key(add.Tool()) !in Keys(reg.tools)
  {
    if Key(add.Tool()) !in Keys(reg.tools) {
      EntitledPush(reg.tools, reg.maps, add);
    } else if add.Tool().HostedWebSearch? {
      HostedKey(reg.tools);
    }
  }

  lemma {:induction false} HostedKey(tools: seq<Tool>)
    ensures None in Keys(tools) <==> HostedWebSearch in tools
  {
    if tools != [] {
      var init, last := tools[..|tools| - 1], tools[|tools| - 1];
      assert tools == init + [last];
      HostedKey(init);
    }
  }

  // ---------------------------------------------------------------------
  // Merging whole lists: idempotent and independent of the order
  // ---------------------------------------------------------------------

  function MergedAll(reg: Registry, adds: seq<Addition>): (r: Result<Registry, ToolError>)
    requires Valid(reg)
    ensures r.Ok? ==> Valid(r.value)
  {
    if adds == [] then Ok(reg)
    else
      match MergedAll(reg, adds[..|adds| - 1])
      case Err(e) => Err(e)
      case Ok(earlier) =>
        MergedKeepsValid(earlier, adds[|adds| - 1]);
        Merged(earlier, adds[|adds| - 1])
  }

  lemma MergedNone(reg: Registry)
    requires Valid(reg)
    ensures MergedAll(reg, []) == Ok(reg)
  {
  }

  lemma MergedAllPush(reg: Registry, adds: seq<Addition>, add: Addition)
    requires Valid(reg)
    ensures MergedAll(reg, adds + [add]) ==
      match MergedAll(reg, adds) case Err(e) => Err(e) case Ok(earlier) => Merged(earlier, add)
  {
    assert (adds + [add])[..|adds|] == adds;
  }

  /** The tools of one discovered specification, merged one after the other. */
  method MergeDiscoveredTools(existing: seq<Tool>, projection: NamespaceToolProjection,
                              additions: seq<Tool>, discovered: Maps, ghost adds: seq<Addition>)
    returns (r: Result<seq<Tool>, ToolError>)
    requires Valid(Registry(existing, projection.Value()))
    requires |adds| == |additions|
    requires forall i :: 0 <= i < |adds| ==> adds[i].Tool() == additions[i] && Describes(discovered, adds[i])
    modifies projection
    ensures match MergedAll(Registry(existing, old(projection.Value())), adds)
            case Ok(reg) => r == Ok(reg.tools) && projection.Value() == reg.maps
            case Err(e) => r.Err? && r.error == e
  {
    hide Merged, Valid, Entitled;
    ghost var start := Registry(existing, projection.Value());
    var tools := existing;
    for i := 0 to |additions|
      invariant MergedAll(start, adds[..i]) == Ok(Registry(tools, projection.Value()))
    {
      assert adds[..i + 1] == adds[..i] + [adds[i]];
      MergedAllPush(start, adds[..i], adds[i]);
      var merged := MergeDiscoveredTool(tools, projection, additions[i], discovered, adds[i]);
      if merged.Err? {
        MergeErrorPersists(start, adds, i + 1);
        return Err(merged.error);
      }
      tools := merged.value;
    }
    assert adds[..|adds|] == adds;
    return Ok(tools);
  }

  lemma {:induction false} MergeErrorPersists(reg: Registry, adds: seq<Addition>, i: nat)
    requires Valid(reg) && i <= |adds| && MergedAll(reg, adds[..i]).Err?
    ensures MergedAll(reg, adds) == MergedAll(reg, adds[..i])
    decreases |adds|
  {
    hide Merged, Valid;
    if i < |adds| {
      var k := |adds| - 1;
      assert adds[..k][..i] == adds[..i];
      MergeErrorPersists(reg, adds[..k], i);
    } else {
      assert adds[..i] == adds;
    }
  }

  /** The tool list as a finite map: what a list means, independent of its order. */
  ghost function View(tools: seq<Tool>, maps: Maps): map<Option<string>, Entry> {
    if tools == [] then map[]
    else
      var last := tools[|tools| - 1];
      View(tools[..|tools| - 1], maps)[Key(last) := Listed(last, OriginOf(maps, last))]
  }

  lemma {:induction false} ViewMembers(tools: seq<Tool>, maps: Maps, key: Option<string>)
    ensures key in View(tools, maps) <==> key in Keys(tools)
    ensures key in View(tools, maps) ==>
      var a := View(tools, maps)[key];
      a.tool in tools && Key(a.tool) == key && a.origin == OriginOf(maps, a.tool)
  {
    if tools != [] {
      var init, last := tools[..|tools| - 1], tools[|tools| - 1];
      assert tools == init + [last];
      ViewMembers(init, maps, key);
    }
  }

  lemma {:induction false} ViewSize(tools: seq<Tool>, maps: Maps)
    requires DistinctKeys(tools)
    ensures |View(tools, maps)| == |tools|
  {
    if tools != [] {
      var init, last := tools[..|tools| - 1], tools[|tools| - 1];
      ViewSize(init, maps);
      ViewMembers(init, maps, Key(last));
    }
  }

  lemma {:induction false} ViewSameOrigins(tools: seq<Tool>, x: Maps, y: Maps)
    requires forall t :: t in tools ==> OriginOf(x, t) == OriginOf(y, t)
    ensures View(tools, x) == View(tools, y)
  {
    if tools != [] {
      var init, last := tools[..|tools| - 1], tools[|tools| - 1];
      assert tools == init + [last];
      ViewSameOrigins(init, x, y);
    }
  }

  /** What a list says about a tool under the tool's own key. */
  lemma ViewAt(tools: seq<Tool>, maps: Maps, t: Tool)
    requires DistinctKeys(tools) && Key(t) in Keys(tools)
    ensures Key(t) in View(tools, maps)
    ensures t in tools ==> View(tools, maps)[Key(t)] == Listed(t, OriginOf(maps, t))
    ensures t !in tools ==> View(tools, maps)[Key(t)].tool != t
  {
    ViewMembers(tools, maps, Key(t));
    if t in tools { SameKey(tools, View(tools, maps)[Key(t)].tool, t); }
  }

  /** One step succeeds exactly when the entry is already there, or is new and fits. */
  lemma {:induction false} MergedView(reg: Registry, add: Addition)
    requires Valid(reg)
    ensures var key, view := Key(add.Tool()), View(reg.tools, reg.maps);
            && (Merged(reg, add).Ok? <==> if key in view then view[key] == add.Entry() else |view| < MAX_XAI_TOOLS)
            && (Merged(reg, add).Ok? ==>
                  && View(Merged(reg, add).value.tools, Merged(reg, add).value.maps) == view[key := add.Entry()]
                  && (key in view ==> Merged(reg, add).value == reg))
  {
    var key, view := Key(add.Tool()), View(reg.tools, reg.maps);
    ViewSize(reg.tools, reg.maps);
    ViewMembers(reg.tools, reg.maps, key);
    if key in view {
      ViewAt(reg.tools, reg.maps, add.Tool());
      HostedKey(reg.tools);
      assert view[key] == add.Entry() ==> view[key := add.Entry()] == view;
    } else {
      if add.Tool() in reg.tools { InKeys(reg.tools, add.Tool()); }
      ViewPush(reg, add);
    }
  }

  lemma ViewPush(reg: Registry, add: Addition)
    requires Valid(reg) && Key(add.Tool()) !in Keys(reg.tools)
    ensures View(reg.tools + [add.Tool()], Registered(reg.maps, add)) ==
            View(reg.tools, reg.maps)[Key(add.Tool()) := add.Entry()]
  {
    EntitledPush(reg.tools, reg.maps, add);
    ViewSameOrigins(reg.tools, Registered(reg.maps, add), reg.maps);
    assert (reg.tools + [add.Tool()])[..|reg.tools|] == reg.tools;
  }

  /** No addition contradicts the list or another addition under the same key. */
  ghost predicate Agrees(view: map<Option<string>, Entry>, adds: seq<Addition>) {
    && (forall a :: a in adds && Key(a.Tool()) in view ==> view[Key(a.Tool())] == a.Entry())
    && (forall a, b :: a in adds && b in adds && Key(a.Tool()) == Key(b.Tool()) ==> a == b)
  }

  ghost function Extended(view: map<Option<string>, Entry>, adds: seq<Addition>): map<Option<string>, Entry> {
    if adds == [] then view
    else
      var last := adds[|adds| - 1];
      Extended(view, adds[..|adds| - 1])[Key(last.Tool()) := last.Entry()]
  }

  lemma {:induction false} ExtendedMembers(view: map<Option<string>, Entry>, adds: seq<Addition>, key: Option<string>)
    ensures key in Extended(view, adds) <==> key in view || exists a :: a in adds && Key(a.Tool()) == key
    ensures Agrees(view, adds) && key in Extended(view, adds) ==>
      if key in view then Extended(view, adds)[key] == view[key]
      else exists a :: a in adds && Key(a.Tool()) == key && Extended(view, adds)[key] == a.Entry()
  {
    if adds != [] {
      var k := |adds| - 1;
      ExtendedMembers(view, adds[..k], key);
      assert adds == adds[..k] + [adds[k]];
      assert forall a :: a in adds[..k] ==> a in adds;
    }
  }

  lemma ExtendedPush(view: map<Option<string>, Entry>, adds: seq<Addition>, a: Addition)
    ensures Extended(view, adds + [a]) == Extended(view, adds)[Key(a.Tool()) := a.Entry()]
    ensures |Extended(view, adds + [a])| ==
            |Extended(view, adds)| + if Key(a.Tool()) in Extended(view, adds) then 0 else 1
  {
    var key, before := Key(a.Tool()), Extended(view, adds);
    assert (adds + [a])[..|adds|] == adds;
    if key in before {
      assert before[key := a.Entry()].Keys == before.Keys;
      assert |before[key := a.Entry()].Keys| == |before.Keys|;
    }
  }

  /** One more addition agrees when no earlier one and nothing in the view contradicts it. */
  ghost predicate AgreesWith(view: map<Option<string>, Entry>, adds: seq<Addition>, a: Addition) {
    && (Key(a.Tool()) in view ==> view[Key(a.Tool())] == a.Entry())
    && (forall b :: b in adds && Key(b.Tool()) == Key(a.Tool()) ==> b == a)
  }

  lemma AgreesSplits(view: map<Option<string>, Entry>, adds: seq<Addition>, a: Addition)
    ensures Agrees(view, adds + [a]) <==> Agrees(view, adds) && AgreesWith(view, adds, a)
  {
    hide Key;
    assert forall b :: b in adds + [a] <==> b in adds || b == a;
  }

  lemma SameEntry(a: Addition, b: Addition)
    ensures a.Entry() == b.Entry() <==> a == b
  {
  }

  lemma AgreesPush(view: map<Option<string>, Entry>, adds: seq<Addition>, a: Addition)
    ensures Agrees(view, adds + [a]) <==>
      && Agrees(view, adds)
      && (Key(a.Tool()) in Extended(view, adds) ==> Extended(view, adds)[Key(a.Tool())] == a.Entry())
    ensures |Extended(view, adds + [a])| ==
            |Extended(view, adds)| + if Key(a.Tool()) in Extended(view, adds) then 0 else 1
  {
    hide Extended, Key;
    var key, before := Key(a.Tool()), Extended(view, adds);
    ExtendedPush(view, adds, a);
    AgreesSplits(view, adds, a);
    ExtendedMembers(view, adds, key);
    if Agrees(view, adds) {
      EntryMeansAgreement(view, adds, a);
    }
  }

  lemma EntryMeansAgreement(view: map<Option<string>, Entry>, adds: seq<Addition>, a: Addition)
    requires Agrees(view, adds)
    ensures AgreesWith(view, adds, a) <==>
      (Key(a.Tool()) in Extended(view, adds) ==> Extended(view, adds)[Key(a.Tool())] == a.Entry())
  {
    hide Extended, Key;
    var key, before := Key(a.Tool()), Extended(view, adds);
    ExtendedMembers(view, adds, key);
    if key in before && before[key] == a.Entry() {
      forall b | b in adds && Key(b.Tool()) == key
        ensures b == a
      {
        if key in view {
          SameEntry(a, b);
        } else {
          var c :| c in adds && Key(c.Tool()) == key && before[key] == c.Entry();
          SameEntry(a, c);
        }
      }
    }
  }

  /**
  A merge succeeds exactly when nothing contradicts and the union has at most 128 tools,
  and then the list means exactly that union.
  */
  lemma {:induction false} MergeIsUnion(reg: Registry, adds: seq<Addition>)
    requires Valid(reg)
    ensures MergedAll(reg, adds).Ok? <==>
            Agrees(View(reg.tools, reg.maps), adds) && |Extended(View(reg.tools, reg.maps), adds)| <= MAX_XAI_TOOLS
    ensures MergedAll(reg, adds).Ok? ==>
      View(MergedAll(reg, adds).value.tools, MergedAll(reg, adds).value.maps) ==
      Extended(View(reg.tools, reg.maps), adds)
  {
    hide Merged, View;
    var view := View(reg.tools, reg.maps);
    if adds == [] {
      ViewSize(reg.tools, reg.maps);
    } else {
      var init, last := adds[..|adds| - 1], adds[|adds| - 1];
      MergeIsUnion(reg, init);
      AgreesPush(view, init, last);
      assert adds == init + [last];
      if MergedAll(reg, init).Ok? {
        MergedView(MergedAll(reg, init).value, last);
      }
    }
  }

  lemma InView(x: Registry, y: Registry)
    requires Valid(x) && Valid(y) && View(x.tools, x.maps) == View(y.tools, y.maps)
    ensures forall t :: t in x.tools ==> t in y.tools && OriginOf(y.maps, t) == OriginOf(x.maps, t)
    ensures forall p :: p in x.maps.toNative ==> p in y.maps.toNative && y.maps.toNative[p] == x.maps.toNative[p]
    ensures x.maps.search.Some? ==> y.maps.search == x.maps.search
  {
    forall t | t in x.tools
      ensures t in y.tools && OriginOf(y.maps, t) == OriginOf(x.maps, t)
    {
      InKeys(x.tools, t);
      ViewAt(x.tools, x.maps, t);
      ViewMembers(y.tools, y.maps, Key(t));
    }
    forall p | p in x.maps.toNative
      ensures p in y.maps.toNative && y.maps.toNative[p] == x.maps.toNative[p]
    {
      var t := Find(x.tools, p).value;
      assert OriginOf(x.maps, t) == Namespaced(x.maps.toNative[p]);
    }
    if x.maps.search.Some? {
      var t := Find(x.tools, TOOL_SEARCH).value;
      assert OriginOf(x.maps, t) == Search;
    }
  }

  /** Equal views mean the same tools and the same maps. */
  lemma ViewDetermines(x: Registry, y: Registry)
    requires Valid(x) && Valid(y) && View(x.tools, x.maps) == View(y.tools, y.maps)
    ensures forall t :: t in x.tools <==> t in y.tools
    ensures x.maps == y.maps
  {
    InView(x, y);
    InView(y, x);
    SameInverse(x.maps, y.maps);
  }

  lemma SameInverse(x: Maps, y: Maps)
    requires x.Valid() && y.Valid() && x.toNative == y.toNative
    ensures x.toProvider == y.toProvider
  {
    ValidIsUnambiguous(x);
    ValidIsUnambiguous(y);
    forall n
      ensures n in x.toProvider <==> n in y.toProvider
    {
      if n in x.toProvider { assert x.toNative[Flat(n)] == n; }
      if n in y.toProvider { assert y.toNative[Flat(n)] == n; }
    }
    assert x.toProvider.Keys == y.toProvider.Keys;
  }

  /** Two lists with the same additions, in any order, both fail or give the same tools and maps. */
  lemma MergeOrderIsIrrelevant(reg: Registry, x: seq<Addition>, y: seq<Addition>)
    requires Valid(reg)
    requires forall a :: a in x <==> a in y
    ensures MergedAll(reg, x).Ok? <==> MergedAll(reg, y).Ok?
    ensures MergedAll(reg, x).Ok? ==>
      && (forall t :: t in MergedAll(reg, x).value.tools <==> t in MergedAll(reg, y).value.tools)
      && MergedAll(reg, x).value.maps == MergedAll(reg, y).value.maps
  {
    var view := View(reg.tools, reg.maps);
    MergeIsUnion(reg, x);
    MergeIsUnion(reg, y);
    assert Agrees(view, x) <==> Agrees(view, y);
    if Agrees(view, x) {
      SameExtension(view, x, y);
      if MergedAll(reg, x).Ok? {
        ViewDetermines(MergedAll(reg, x).value, MergedAll(reg, y).value);
      }
    }
  }

  lemma SameExtension(view: map<Option<string>, Entry>, x: seq<Addition>, y: seq<Addition>)
    requires Agrees(view, x) && Agrees(view, y) && forall a :: a in x <==> a in y
    ensures Extended(view, x) == Extended(view, y)
  {
    forall key
      ensures key in Extended(view, x) <==> key in Extended(view, y)
      ensures key in Extended(view, x) ==> Extended(view, x)[key] == Extended(view, y)[key]
    {
      ExtendedMembers(view, x, key);
      ExtendedMembers(view, y, key);
    }
  }

  /** Discovering the same tools again changes nothing, not even the order of the list. */
  lemma {:induction false} MergeIsIdempotent(reg: Registry, adds: seq<Addition>, again: seq<Addition>)
    requires Valid(reg) && MergedAll(reg, adds).Ok?
    requires forall a :: a in again ==> a in adds
    ensures MergedAll(MergedAll(reg, adds).value, again) == Ok(MergedAll(reg, adds).value)
  {
    hide Merged, Valid, View, Keys;
    var merged := MergedAll(reg, adds).value;
    if again != [] {
      var last := again[|again| - 1];
      MergeIsIdempotent(reg, adds, again[..|again| - 1]);
      MergeIsUnion(reg, adds);
      assert last in adds;
      ExtendedMembers(View(reg.tools, reg.maps), adds, Key(last.Tool()));
      MergedView(merged, last);
    }
  }

  // ---------------------------------------------------------------------
  // The declared tools of one request
  // ---------------------------------------------------------------------

  datatype ToolSpec =
    | FunctionSpec(name: string, body: ToolBody)
    | SearchSpec(body: ToolBody)
    | NamespaceSpec(namespace: string, children: seq<(string, ToolBody)>)
    | WebSearchSpec
    | UnsupportedSpec

  function ChildAddition(namespace: string, child: (string, ToolBody)): (a: Addition)
  {
    var native := NativeToolName(namespace, child.0);
    NamespacedTool(native, child.1)
  }

  function ChildAdditions(namespace: string, children: seq<(string, ToolBody)>): (adds: seq<Addition>)
    ensures |adds| == |children|
  {
    if children == [] then []
    else ChildAdditions(namespace, children[..|children| - 1]) + [ChildAddition(namespace, children[|children| - 1])]
  }

  function SpecAdditions(spec: ToolSpec): (adds: seq<Addition>)
  {
    match spec
    case FunctionSpec(name, body) => [PlainTool(Function(name, body))]
    case SearchSpec(body) => [SearchTool(body)]
    case NamespaceSpec(namespace, children) => ChildAdditions(namespace, children)
    case WebSearchSpec => [PlainTool(HostedWebSearch)]
    case UnsupportedSpec => []
  }

  function Additions(specs: seq<ToolSpec>): (adds: seq<Addition>)
  {
    if specs == [] then [] else Additions(specs[..|specs| - 1]) + SpecAdditions(specs[|specs| - 1])
  }

  function ToolsOf(adds: seq<Addition>): (tools: seq<Tool>)
    ensures |tools| == |adds|
  {
    if adds == [] then [] else ToolsOf(adds[..|adds| - 1]) + [adds[|adds| - 1].Tool()]
  }

  lemma {:induction false} ToolAt(adds: seq<Addition>, i: nat)
    requires i < |adds|
    ensures ToolsOf(adds)[i] == adds[i].Tool()
  {
    if i < |adds| - 1 { ToolAt(adds[..|adds| - 1], i); }
  }

  /** The tools of these additions are listed, and the maps hold exactly their origins. */
  ghost predicate Declared(adds: seq<Addition>, tools: seq<Tool>, maps: Maps) {
    && tools == ToolsOf(adds)
    && Entitled(tools, maps)
    && (forall a :: a in adds ==> a.Tool() in tools && OriginOf(maps, a.Tool()) == a.Origin())
  }

  ghost predicate Disjoint(adds: seq<Addition>) {
    DistinctKeys(ToolsOf(adds))
  }

  lemma DeclaredPush(adds: seq<Addition>, tools: seq<Tool>, maps: Maps, add: Addition)
    requires Declared(adds, tools, maps)
    ensures Disjoint(adds + [add]) <==> Key(add.Tool()) !in Keys(tools)
    ensures Key(add.Tool()) !in Keys(tools) ==> Declared(adds + [add], tools + [add.Tool()], Registered(maps, add))
    ensures Keys(tools + [add.Tool()]) == Keys(tools) + {Key(add.Tool())}
  {
    assert (adds + [add])[..|adds|] == adds;
    Push(tools, add.Tool());
    if Key(add.Tool()) !in Keys(tools) {
      EntitledPush(tools, maps, add);
    }
  }

  lemma {:induction false} DisjointPrefix(adds: seq<Addition>, more: seq<Addition>)
    requires Disjoint(adds + more)
    ensures Disjoint(adds)
    decreases |more|
  {
    hide Keys;
    if more == [] {
      assert adds + more == adds;
    } else {
      var k := |more| - 1;
      assert (adds + more)[..|adds + more| - 1] == adds + more[..k];
      DisjointPrefix(adds, more[..k]);
    }
  }

  lemma DeclaredIsDisjoint(adds: seq<Addition>, tools: seq<Tool>, maps: Maps)
    requires Declared(adds, tools, maps)
    ensures Disjoint(adds)
  {
  }

  /** The provider names taken so far, and whether hosted search was declared. */
  ghost predicate Taken(tools: seq<Tool>, names: set<string>, hosted: bool) {
    && (forall n :: n in names <==> Some(n) in Keys(tools))
    && (hosted <==> None in Keys(tools))
  }

  /** One declared function: refused exactly when its provider name is taken. */
  method Declare(ghost adds: seq<Addition>, tools: seq<Tool>, projection: NamespaceToolProjection,
                 names: set<string>, ghost hosted: bool, add: Addition)
    returns (ok: bool, tools': seq<Tool>, names': set<string>)
    requires Declared(adds, tools, projection.Value()) && add.Tool().Function?
    requires Taken(tools, names, hosted)
    modifies projection
    ensures ok <==> Disjoint(adds + [add])
    ensures ok ==> Declared(adds + [add], tools', projection.Value()) && Taken(tools', names', hosted)
    ensures ok ==> tools' == tools + [add.Tool()]
  {
    var name := add.Tool().name;
    DeclaredPush(adds, tools, projection.Value(), add);
    if name in names {
      return false, tools, names;
    }
    match add.Origin() {
      case Plain =>
      case Search => projection.toolSearchProviderName := Some(name);
      case Namespaced(native) =>
        FreshPair(projection.Value(), native);
        var inserted := projection.Insert(name, native);
        assert inserted.Ok?;
    }
    return true, tools + [add.Tool()], names + {name};
  }

  /** The children of one namespace group, added until a name is taken. */
  method DeclareChildren(ghost adds: seq<Addition>, tools: seq<Tool>, projection: NamespaceToolProjection,
                         names: set<string>, ghost hosted: bool, namespace: string, children: seq<(string, ToolBody)>)
    returns (ok: bool, tools': seq<Tool>, names': set<string>)
    requires Declared(adds, tools, projection.Value()) && Taken(tools, names, hosted)
    modifies projection
    ensures ok <==> Disjoint(adds + ChildAdditions(namespace, children))
    ensures ok ==> Declared(adds + ChildAdditions(namespace, children), tools', projection.Value())
    ensures ok ==> Taken(tools', names', hosted)
  {
    hide Declared, Disjoint, Keys, Taken;
    tools', names' := tools, names;
    var nativeNames: set<string> := {};
    assert adds + ChildAdditions(namespace, children[..0]) == adds;
    for i := 0 to |children|
      invariant Declared(adds + ChildAdditions(namespace, children[..i]), tools', projection.Value())
      invariant Taken(tools', names', hosted)
      invariant forall n :: n in nativeNames ==> Some(Flat(NativeToolName(namespace, n))) in Keys(tools')
    {
      ghost var before := adds + ChildAdditions(namespace, children[..i]);
      var add := ChildAddition(namespace, children[i]);
      ChildPush(adds, namespace, children, i);
      DeclaredPush(before, tools', projection.Value(), add);
      if children[i].0 in nativeNames {
        ChildClash(adds, namespace, children, i + 1);
        return false, tools', names';
      }
      nativeNames := nativeNames + {children[i].0};
      ok, tools', names' := Declare(before, tools', projection, names', hosted, add);
      if !ok {
        ChildClash(adds, namespace, children, i + 1);
        return;
      }
    }
    assert children[..|children|] == children;
    DeclaredIsDisjoint(adds + ChildAdditions(namespace, children), tools', projection.Value());
    ok := true;
  }

  lemma ChildPush(adds: seq<Addition>, namespace: string, children: seq<(string, ToolBody)>, i: nat)
    requires i < |children|
    ensures adds + ChildAdditions(namespace, children[..i + 1])
         == adds + ChildAdditions(namespace, children[..i]) + [ChildAddition(namespace, children[i])]
  {
    assert children[..i + 1][..i] == children[..i];
  }

  lemma {:induction false} ChildClash(adds: seq<Addition>, namespace: string, children: seq<(string, ToolBody)>, i: nat)
    requires i <= |children| && !Disjoint(adds + ChildAdditions(namespace, children[..i]))
    ensures !Disjoint(adds + ChildAdditions(namespace, children))
    decreases |children|
  {
    hide Disjoint, ToolsOf, DistinctKeys;
    if i == |children| {
      assert children[..i] == children;
    } else {
      var k := |children| - 1;
      assert children[..k][..i] == children[..i];
      ChildClash(adds, namespace, children[..k], i);
      var init := adds + ChildAdditions(namespace, children[..k]);
      var last := [ChildAddition(namespace, children[k])];
      assert adds + ChildAdditions(namespace, children) == init + last;
      if Disjoint(init + last) { DisjointPrefix(init, last); }
    }
  }

  /** Hosted web search: refused exactly when it was declared before. */
  method DeclareHosted(ghost adds: seq<Addition>, tools: seq<Tool>, projection: NamespaceToolProjection,
                       ghost names: set<string>, hosted: bool)
    returns (ok: bool, tools': seq<Tool>, hosted': bool)
    requires Declared(adds, tools, projection.Value()) && Taken(tools, names, hosted)
    ensures ok <==> Disjoint(adds + [PlainTool(HostedWebSearch)])
    ensures ok ==> Declared(adds + [PlainTool(HostedWebSearch)], tools', projection.Value())
    ensures ok ==> Taken(tools', names, hosted')
  {
    DeclaredPush(adds, tools, projection.Value(), PlainTool(HostedWebSearch));
    return !hosted, tools + [HostedWebSearch], true;
  }

  /** One declared specification of any kind. */
  method DeclareSpec(ghost adds: seq<Addition>, tools: seq<Tool>, projection: NamespaceToolProjection,
                     names: set<string>, hosted: bool, spec: ToolSpec)
    returns (ok: bool, tools': seq<Tool>, names': set<string>, hosted': bool)
    requires Declared(adds, tools, projection.Value()) && !spec.UnsupportedSpec?
    requires Taken(tools, names, hosted)
    modifies projection
    ensures ok <==> Disjoint(adds + SpecAdditions(spec))
    ensures ok ==> Declared(adds + SpecAdditions(spec), tools', projection.Value())
    ensures ok ==> Taken(tools', names', hosted')
  {
    hide Declared, Disjoint, DistinctKeys, ToolsOf, Taken;
    names', hosted' := names, hosted;
    if spec.NamespaceSpec? {
      ok, tools', names' := DeclareChildren(adds, tools, projection, names, hosted, spec.namespace, spec.children);
    } else if spec.WebSearchSpec? {
      ok, tools', hosted' := DeclareHosted(adds, tools, projection, names, hosted);
    } else {
      ok, tools', names' := Declare(adds, tools, projection, names, hosted, SpecAdditions(spec)[0]);
    }
  }

  lemma {:induction false} SpecsPrefix(specs: seq<ToolSpec>, i: nat)
    requires i <= |specs|
    ensures |Additions(specs[..i])| <= |Additions(specs)|
    ensures Additions(specs[..i]) == Additions(specs)[..|Additions(specs[..i])|]
  {
    if i == |specs| {
      assert specs[..i] == specs;
    } else {
      var k := |specs| - 1;
      assert specs[..k][..i] == specs[..i];
      SpecsPrefix(specs[..k], i);
    }
  }

  lemma SpecClash(specs: seq<ToolSpec>, i: nat)
    requires i <= |specs| && !Disjoint(Additions(specs[..i]))
    ensures !Disjoint(Additions(specs))
  {
    hide SpecAdditions, Additions, DistinctKeys, ToolsOf;
    SpecsPrefix(specs, i);
    var head, all := Additions(specs[..i]), Additions(specs);
    assert all == head + all[|head|..];
    if Disjoint(all) { DisjointPrefix(head, all[|head|..]); }
  }

  // What was declared, in terms of the specifications.

  ghost predicate DeclaresChild(specs: seq<ToolSpec>, native: NativeToolName, body: ToolBody) {
    exists children :: NamespaceSpec(native.namespace, children) in specs && (native.name, body) in children
  }

  /** A function tool of this name is declared: plainly, as the search tool, or within a namespace. */
  ghost predicate DeclaresTool(specs: seq<ToolSpec>, name: string, body: ToolBody) {
    || FunctionSpec(name, body) in specs
    || (name == "tool_search" && SearchSpec(body) in specs)
    || exists native :: DeclaresChild(specs, native, body) && name == native.namespace + "__" + native.name
  }

  ghost predicate AddedBy(specs: seq<ToolSpec>, add: Addition) {
    match add
    case PlainTool(Function(name, body)) => FunctionSpec(name, body) in specs
    case PlainTool(HostedWebSearch) => WebSearchSpec in specs
    case SearchTool(body) => SearchSpec(body) in specs
    case NamespacedTool(native, body) => DeclaresChild(specs, native, body)
  }

  lemma {:induction false} ChildMembers(namespace: string, children: seq<(string, ToolBody)>, add: Addition)
    ensures add in ChildAdditions(namespace, children) <==>
            && add.NamespacedTool? && add.native.namespace == namespace && (add.native.name, add.body) in children
  {
    if children != [] {
      var init, last := children[..|children| - 1], children[|children| - 1];
      ChildMembers(namespace, init, add);
      assert children == init + [last];
    }
  }

  lemma SpecMembers(spec: ToolSpec, add: Addition)
    ensures add in SpecAdditions(spec) <==> AddedBy([spec], add)
  {
    assert spec in [spec];
    if spec.NamespaceSpec? {
      ChildMembers(spec.namespace, spec.children, add);
      if add.NamespacedTool? && add.native.namespace == spec.namespace && (add.native.name, add.body) in spec.children {
        assert NamespaceSpec(add.native.namespace, spec.children) in [spec];
      }
    }
  }

  lemma AddedPush(specs: seq<ToolSpec>, spec: ToolSpec, add: Addition)
    ensures AddedBy(specs + [spec], add) <==> AddedBy(specs, add) || AddedBy([spec], add)
  {
    assert forall x :: x in specs + [spec] <==> x in specs || x in [spec];
  }

  lemma {:induction false} AdditionMembers(specs: seq<ToolSpec>, add: Addition)
    ensures add in Additions(specs) <==> AddedBy(specs, add)
  {
    hide SpecAdditions, AddedBy;
    if specs == [] {
      NothingAdded(add);
    } else {
      var init, last := specs[..|specs| - 1], specs[|specs| - 1];
      AdditionMembers(init, add);
      SpecMembers(last, add);
      AddedPush(init, last, add);
      assert specs == init + [last];
    }
  }

  lemma NothingAdded(add: Addition)
    ensures !AddedBy([], add)
  {
  }

  lemma {:induction false} ToolsMembers(adds: seq<Addition>, tool: Tool)
    ensures tool in ToolsOf(adds) <==> exists a :: a in adds && a.Tool() == tool
  {
    if adds != [] {
      var init, last := adds[..|adds| - 1], adds[|adds| - 1];
      ToolsMembers(init, tool);
      assert adds == init + [last];
    }
  }

  /** The parsed list holds exactly the declared tools, and the maps exactly the namespaced ones. */
  lemma ListIsDeclared(specs: seq<ToolSpec>, tools: seq<Tool>, maps: Maps)
    requires Declared(Additions(specs), tools, maps)
    ensures forall name, body :: Function(name, body) in tools <==> DeclaresTool(specs, name, body)
    ensures HostedWebSearch in tools <==> WebSearchSpec in specs
    ensures forall native :: native in maps.toProvider <==> exists body :: DeclaresChild(specs, native, body)
    ensures maps.search.Some? <==> exists body :: SearchSpec(body) in specs
  {
    hide DeclaresChild, Additions, ToolsOf;
    forall add
      ensures add in Additions(specs) <==> AddedBy(specs, add)
    {
      AdditionMembers(specs, add);
    }
    forall name, body
      ensures Function(name, body) in tools <==> DeclaresTool(specs, name, body)
    {
      FunctionDeclared(specs, tools, name, body);
    }
    ToolsMembers(Additions(specs), HostedWebSearch);
    if WebSearchSpec in specs { assert AddedBy(specs, PlainTool(HostedWebSearch)); }
    forall native
      ensures native in maps.toProvider <==> exists body :: DeclaresChild(specs, native, body)
    {
      PairDeclared(specs, tools, maps, native);
    }
    SearchDeclared(specs, tools, maps);
  }

  lemma FunctionDeclared(specs: seq<ToolSpec>, tools: seq<Tool>, name: string, body: ToolBody)
    requires tools == ToolsOf(Additions(specs))
    requires forall add :: add in Additions(specs) <==> AddedBy(specs, add)
    ensures Function(name, body) in tools <==> DeclaresTool(specs, name, body)
  {
    hide DeclaresChild, Additions, ToolsOf;
    ToolsMembers(Additions(specs), Function(name, body));
    if FunctionSpec(name, body) in specs { assert AddedBy(specs, PlainTool(Function(name, body))); }
    if name == "tool_search" && SearchSpec(body) in specs { assert AddedBy(specs, SearchTool(body)); }
    if native :| DeclaresChild(specs, native, body) && name == native.namespace + "__" + native.name {
      assert AddedBy(specs, NamespacedTool(native, body));
    }
  }

  lemma ToolNamed(tools: seq<Tool>, name: string) returns (tool: Tool)
    requires Some(name) in Keys(tools)
    ensures tool in tools && tool.Function? && tool.name == name
  {
    DistinctMeans(tools);
    var i :| 0 <= i < |tools| && Key(tools[i]) == Some(name);
    tool := tools[i];
  }

  lemma PairDeclared(specs: seq<ToolSpec>, tools: seq<Tool>, maps: Maps, native: NativeToolName)
    requires Declared(Additions(specs), tools, maps)
    requires forall add :: add in Additions(specs) <==> AddedBy(specs, add)
    ensures native in maps.toProvider <==> exists body :: DeclaresChild(specs, native, body)
  {
    hide DeclaresChild, Additions, ToolsOf;
    if native in maps.toProvider {
      var tool := ToolNamed(tools, maps.toProvider[native]);
      ToolsMembers(Additions(specs), tool);
      var a :| a in Additions(specs) && a.Tool() == tool;
      assert a.Origin() == Namespaced(native);
      assert DeclaresChild(specs, native, a.body);
    }
    if body :| DeclaresChild(specs, native, body) {
      var a := NamespacedTool(native, body);
      assert AddedBy(specs, a);
      assert OriginOf(maps, a.Tool()) == a.Origin();
      assert maps.toNative[a.Tool().name] == native;
    }
  }

  lemma SearchDeclared(specs: seq<ToolSpec>, tools: seq<Tool>, maps: Maps)
    requires Declared(Additions(specs), tools, maps)
    requires forall add :: add in Additions(specs) <==> AddedBy(specs, add)
    ensures maps.search.Some? <==> exists body :: SearchSpec(body) in specs
  {
    hide DeclaresChild, Additions, ToolsOf;
    if maps.search.Some? {
      var tool := ToolNamed(tools, maps.search.value);
      ToolsMembers(Additions(specs), tool);
      var a :| a in Additions(specs) && a.Tool() == tool;
      assert a.Origin() == Search;
    }
    if body :| SearchSpec(body) in specs {
      var a := SearchTool(body);
      assert AddedBy(specs, a);
      assert OriginOf(maps, a.Tool()) == Search;
    }
  }

  /**
  Declared tools parse exactly when every spec is supported, no two tools share a
  provider name, and there are at most 128; every namespaced tool then owns its entry.
  */
  method ParseTools(specs: seq<ToolSpec>) returns (r: Result<seq<Tool>, ToolError>, projection: NamespaceToolProjection)
    ensures fresh(projection)
    ensures r.Ok? <==>
      UnsupportedSpec !in specs && Disjoint(Additions(specs)) && |Additions(specs)| <= 128
    ensures r.Ok? ==>
      && Valid(Registry(r.value, projection.Value()))
      && Declared(Additions(specs), r.value, projection.Value())
  {
    projection := new NamespaceToolProjection();
    var tools: seq<Tool> := [];
    var names: set<string> := {};
    var hosted := false;
    for i := 0 to |specs|
      invariant Declared(Additions(specs[..i]), tools, projection.Value())
      invariant Taken(tools, names, hosted)
      invariant UnsupportedSpec !in specs[..i]
      invariant fresh(projection)
    {
      assert specs[..i + 1][..i] == specs[..i];
      if specs[i].UnsupportedSpec? {
        return Err(UnsupportedTools), projection;
      }
      var ok: bool;
      ok, tools, names, hosted := DeclareSpec(Additions(specs[..i]), tools, projection, names, hosted, specs[i]);
      if !ok {
        SpecClash(specs, i + 1);
        return Err(DuplicateToolName), projection;
      }
    }
    assert specs[..|specs|] == specs;
    if |tools| > MAX_XAI_TOOLS {
      return Err(TooManyTools), projection;
    }
    return Ok(tools), projection;
  }

  // ---------------------------------------------------------------------
  // Discovered specifications: parsed one by one, then merged
  // ---------------------------------------------------------------------

  ghost predicate ParsesAlone(spec: ToolSpec) {
    !spec.UnsupportedSpec? && Disjoint(SpecAdditions(spec)) && |SpecAdditions(spec)| <= MAX_XAI_TOOLS
  }

  lemma {:induction false} MergedConcat(reg: Registry, x: seq<Addition>, y: seq<Addition>)
    requires Valid(reg) && MergedAll(reg, x).Ok?
    ensures MergedAll(reg, x + y) == MergedAll(MergedAll(reg, x).value, y)
    decreases |y|
  {
    hide Merged, Valid, MergedAll;
    if y == [] {
      assert x + y == x;
      MergedNone(MergedAll(reg, x).value);
    } else {
      var init, last := y[..|y| - 1], y[|y| - 1];
      MergedConcat(reg, x, init);
      MergedAllPush(reg, x + init, last);
      MergedAllPush(MergedAll(reg, x).value, init, last);
      assert x + y == x + init + [last] && y == init + [last];
    }
  }

  lemma DeclaredDescribes(adds: seq<Addition>, tools: seq<Tool>, maps: Maps, i: nat)
    requires Declared(adds, tools, maps) && i < |adds|
    ensures tools[i] == adds[i].Tool() && Describes(maps, adds[i])
  {
    ToolAt(adds, i);
    assert adds[i] in adds;
    assert OriginOf(maps, adds[i].Tool()) == adds[i].Origin();
  }

  /** One discovered specification: parsed alone, then merged into the list. */
  method MergeDiscoveredSpec(existing: seq<Tool>, projection: NamespaceToolProjection, spec: ToolSpec)
    returns (r: Result<seq<Tool>, ToolError>)
    requires Valid(Registry(existing, projection.Value()))
    modifies projection
    ensures r.Ok? <==>
      ParsesAlone(spec) && MergedAll(Registry(existing, old(projection.Value())), SpecAdditions(spec)).Ok?
    ensures r.Ok? ==>
      MergedAll(Registry(existing, old(projection.Value())), SpecAdditions(spec)) ==
      Ok(Registry(r.value, projection.Value()))
  {
    hide *;
    ghost var adds := SpecAdditions(spec);
    AdditionsOfOne(spec);
    var parsed, discovered := ParseTools([spec]);
    if parsed.Err? {
      return Err(parsed.error);
    }
    AllDescribed(adds, parsed.value, discovered.Value());
    r := MergeDiscoveredTools(existing, projection, parsed.value, discovered.Value(), adds);
  }

  lemma AdditionsOfOne(spec: ToolSpec)
    ensures Additions([spec]) == SpecAdditions(spec)
    ensures ParsesAlone(spec) <==>
      UnsupportedSpec !in [spec] && Disjoint(Additions([spec])) && |Additions([spec])| <= 128
  {
    hide SpecAdditions, Disjoint;
    assert [spec][..0] == [];
  }

  lemma AllDescribed(adds: seq<Addition>, tools: seq<Tool>, maps: Maps)
    requires Declared(adds, tools, maps)
    ensures |tools| == |adds|
    ensures forall j :: 0 <= j < |adds| ==> tools[j] == adds[j].Tool() && Describes(maps, adds[j])
  {
    hide Declared, Describes;
    assert tools == ToolsOf(adds) by { DeclaredTools(adds, tools, maps); }
    forall j | 0 <= j < |adds|
      ensures tools[j] == adds[j].Tool() && Describes(maps, adds[j])
    {
      DeclaredDescribes(adds, tools, maps, j);
    }
  }

  lemma DeclaredTools(adds: seq<Addition>, tools: seq<Tool>, maps: Maps)
    requires Declared(adds, tools, maps)
    ensures tools == ToolsOf(adds)
  {
  }

  lemma MergeSpecStep(reg: Registry, specs: seq<ToolSpec>, i: nat)
    requires Valid(reg) && i < |specs| && MergedAll(reg, Additions(specs[..i])).Ok?
    ensures MergedAll(reg, Additions(specs[..i + 1])) ==
            MergedAll(MergedAll(reg, Additions(specs[..i])).value, SpecAdditions(specs[i]))
    ensures MergedAll(reg, Additions(specs[..i + 1])).Err? ==> MergedAll(reg, Additions(specs)).Err?
  {
    hide Merged, MergedAll, SpecAdditions, Valid;
    assert specs[..i + 1][..i] == specs[..i];
    MergedConcat(reg, Additions(specs[..i]), SpecAdditions(specs[i]));
    SpecsPrefix(specs, i + 1);
    if MergedAll(reg, Additions(specs[..i + 1])).Err? {
      MergeErrorPersists(reg, Additions(specs), |Additions(specs[..i + 1])|);
    }
  }

  method MergeDiscoveredToolSearchSpecs(existing: seq<Tool>, projection: NamespaceToolProjection, specs: seq<ToolSpec>)
    returns (r: Result<seq<Tool>, ToolError>)
    requires Valid(Registry(existing, projection.Value()))
    modifies projection
    ensures r.Ok? <==>
      && (forall spec :: spec in specs ==> ParsesAlone(spec))
      && MergedAll(Registry(existing, old(projection.Value())), Additions(specs)).Ok?
    ensures r.Ok? ==>
      MergedAll(Registry(existing, old(projection.Value())), Additions(specs)) ==
      Ok(Registry(r.value, projection.Value()))
  {
    hide Merged, SpecAdditions, ParsesAlone, Valid, MergedAll;
    ghost var start := Registry(existing, projection.Value());
    MergedNone(start);
    assert Additions(specs[..0]) == [];
    var tools := existing;
    for i := 0 to |specs|
      invariant MergedAll(start, Additions(specs[..i])) == Ok(Registry(tools, projection.Value()))
      invariant forall spec :: spec in specs[..i] ==> ParsesAlone(spec)
    {
      MergeSpecStep(start, specs, i);
      var merged := MergeDiscoveredSpec(tools, projection, specs[i]);
      if merged.Err? {
        assert specs[i] in specs;
        return Err(merged.error);
      }
      tools := merged.value;
      assert specs[..i + 1] == specs[..i] + [specs[i]];
    }
    assert specs[..|specs|] == specs;
    return Ok(tools);
  }

  // ---------------------------------------------------------------------
  // Flatten, then restore
  // ---------------------------------------------------------------------

  lemma MergedKeepsPairs(reg: Registry, add: Addition)
    requires Valid(reg) && Merged(reg, add).Ok?
    ensures var maps := Merged(reg, add).value.maps;
            && reg.maps.toProvider.Keys <= maps.toProvider.Keys
            && (add.Origin().Namespaced? ==> add.Origin().native in maps.toProvider)
  {
    if add.Origin().Namespaced? && OriginOf(reg.maps, add.Tool()) == add.Origin() {
      assert reg.maps.toNative[add.Tool().name] == add.Origin().native;
    }
  }

  lemma {:induction false} MergeKeepsPairs(reg: Registry, adds: seq<Addition>)
    requires Valid(reg) && MergedAll(reg, adds).Ok?
    ensures var maps := MergedAll(reg, adds).value.maps;
            && reg.maps.toProvider.Keys <= maps.toProvider.Keys
            && (forall a :: a in adds && a.Origin().Namespaced? ==> a.Origin().native in maps.toProvider)
  {
    hide Merged, Valid;
    if adds != [] {
      var init, last := adds[..|adds| - 1], adds[|adds| - 1];
      MergeKeepsPairs(reg, init);
      assert adds == init + [last];
      MergedKeepsPairs(MergedAll(reg, init).value, last);
    }
  }

  /**
  Over one whole request: every declared, discovered or replayed pair is given back by its
  flat name, and a plain tool is left alone unless a replayed pair flattens onto its name.
  */
  lemma FlattenThenRestore(reg: Registry, discovered: seq<Addition>, replays: seq<NativeToolName>)
    requires Valid(reg)
    requires MergedAll(reg, discovered).Ok?
    requires EnsuredAll(MergedAll(reg, discovered).value.maps, replays).Ok?
    ensures var merged := MergedAll(reg, discovered).value;
            var maps := EnsuredAll(merged.maps, replays).value;
            && maps.Valid()
            && (forall n :: n in reg.maps.toProvider || n in replays ==> maps.Restore(Flat(n)) == Some(n))
            && (forall a :: a in discovered && a.Origin().Namespaced? ==>
                  maps.Restore(a.Tool().name) == Some(a.Origin().native))
            && (forall t :: t in merged.tools && t.Function? && !OriginOf(merged.maps, t).Namespaced? ==>
                  (maps.Restore(t.name).Some? <==> exists n :: n in replays && Flat(n) == t.name))
  {
    hide EnsuredAll, MergedAll, Unambiguous, OriginOf, Merged, Flat;
    var merged := MergedAll(reg, discovered).value;
    var maps := EnsuredAll(merged.maps, replays).value;
    ReplaysRestore(merged.maps, replays);
    MergeKeepsPairs(reg, discovered);
    forall t | t in merged.tools && t.Function? && !OriginOf(merged.maps, t).Namespaced?
      ensures maps.Restore(t.name).Some? <==> exists n :: n in replays && Flat(n) == t.name
    {
      PlainHasNoPair(merged.maps, t);
      PlainToolCaptured(merged.maps, replays, t.name);
    }
  }

  lemma PlainHasNoPair(maps: Maps, tool: Tool)
    requires tool.Function? && !OriginOf(maps, tool).Namespaced?
    ensures tool.name !in maps.toNative
  {
  }

  lemma PlainToolCaptured(known: Maps, replays: seq<NativeToolName>, name: string)
    requires known.Valid() && EnsuredAll(known, replays).Ok? && name !in known.toNative
    ensures EnsuredAll(known, replays).value.Restore(name).Some? <==> exists n :: n in replays && Flat(n) == name
  {
    var maps := EnsuredAll(known, replays).value;
    ReplaysRestore(known, replays);
    ValidIsUnambiguous(known);
    if maps.Restore(name).Some? {
      var n := maps.toNative[name];
      assert n in maps.toProvider && Flat(n) == name;
      assert n in Replayed(replays);
    }
    if n :| n in replays && Flat(n) == name {
      assert n in Replayed(replays) && n in maps.toProvider;
    }
  }

  /** A stale replayed pair that flattens onto a plain tool's name captures that tool. */
  lemma StaleReplayCapturesPlainTool(body: ToolBody)
    ensures var reg := Registry([Function("x__y", body)], NO_MAPS);
            var stale := NativeToolName("x", "y");
            && Valid(reg)
            && EnsuredAll(reg.maps, [stale]).Ok?
            && EnsuredAll(reg.maps, [stale]).value.Restore("x__y") == Some(stale)
  {
    var stale := NativeToolName("x", "y");
    assert [stale][..0] == [];
    assert EnsuredAll(NO_MAPS, []) == Ok(NO_MAPS);
    assert Flat(stale) == "x__y";
  }
}
