/**
The published picker catalog and the Native route built from it: sorted rows, distinct slugs,
and an allowlist that is searched by halving.
*/
module Catalog {
  import opened Outcomes

  // ---------------------------------------------------------------------
  // Sorting strings
  // ---------------------------------------------------------------------

  predicate Less(a: string, b: string) {
    b != "" && (a == "" || a[0] < b[0] || (a[0] == b[0] && Less(a[1..], b[1..])))
  }

  lemma {:induction false} LessIsTotal(a: string, b: string)
    ensures Less(a, b) || Less(b, a) || a == b
    ensures !(Less(a, b) && Less(b, a)) && !Less(a, a)
  {
    if a != "" {
      LessIsTotal(a[1..], if b != "" then b[1..] else "");
      if b != "" && a[0] == b[0] {
        assert a == [a[0]] + a[1..] && b == [b[0]] + b[1..];
      }
    }
  }

  lemma {:induction false} LessIsTransitive(a: string, b: string, c: string)
    requires Less(a, b) && Less(b, c)
    ensures Less(a, c)
  {
    if a != "" && a[0] == b[0] && b[0] == c[0] { LessIsTransitive(a[1..], b[1..], c[1..]); }
  }

  function Insert(x: string, s: seq<string>): seq<string> {
    if s != [] && Less(s[0], x) then [s[0]] + Insert(x, s[1..]) else [x] + s
  }

  function Sorted(s: seq<string>): seq<string> {
    if s == [] then [] else Insert(s[0], Sorted(s[1..]))
  }

  /** No element is followed by a smaller one. */
  ghost predicate Ordered(s: seq<string>) {
    forall i, j :: 0 <= i < j < |s| ==> !Less(s[j], s[i])
  }

  ghost predicate Strict(s: seq<string>) {
    forall i, j :: 0 <= i < j < |s| ==> Less(s[i], s[j])
  }

  ghost predicate Distinct(s: seq<string>) {
    forall i, j :: 0 <= i < j < |s| ==> s[i] != s[j]
  }

  lemma {:induction false} InsertKeeps(x: string, s: seq<string>)
    ensures multiset(Insert(x, s)) == multiset([x]) + multiset(s)
    ensures |Insert(x, s)| == |s| + 1
  {
    if s != [] && Less(s[0], x) {
      InsertKeeps(x, s[1..]);
      assert s == [s[0]] + s[1..];
    }
  }

  lemma {:induction false} InsertOrders(x: string, s: seq<string>)
    requires Ordered(s)
    ensures Ordered(Insert(x, s))
  {
    if s != [] && Less(s[0], x) {
      InsertOrders(x, s[1..]);
      InsertKeeps(x, s[1..]);
      var rest := Insert(x, s[1..]);
      forall j | 0 <= j < |rest|
        ensures !Less(rest[j], s[0])
      {
        assert rest[j] in multiset(rest);
        if rest[j] == x {
          LessIsTotal(s[0], x);
        } else {
          assert rest[j] in s[1..];
          var k :| 1 <= k < |s| && s[k] == rest[j];
        }
      }
    } else if s != [] {
      forall j | 0 <= j < |s|
        ensures !Less(s[j], x)
      {
        NotLessBefore(x, s, j);
      }
    }
  }

  lemma NotLessBefore(x: string, s: seq<string>, j: nat)
    requires Ordered(s) && j < |s| && !Less(s[0], x)
    ensures !Less(s[j], x)
  {
    if Less(s[j], x) {
      LessIsTotal(s[0], s[j]);
      if s[0] != s[j] { LessIsTransitive(s[0], s[j], x); }
    }
  }

  lemma {:induction false} SortedKeeps(s: seq<string>)
    ensures Ordered(Sorted(s)) && multiset(Sorted(s)) == multiset(s) && |Sorted(s)| == |s|
  {
    hide Ordered, Less, Insert;
    if s == [] {
      assert Ordered([]) by { NothingOrdered(); }
    } else {
      SortedKeeps(s[1..]);
      InsertOrders(s[0], Sorted(s[1..]));
      InsertKeeps(s[0], Sorted(s[1..]));
      assert s == [s[0]] + s[1..];
    }
  }

  lemma NothingOrdered()
    ensures Ordered([])
  {
  }

  /** Sorting keeps the elements and orders them. */
  lemma SortedSorts(s: seq<string>)
    ensures Ordered(Sorted(s)) && multiset(Sorted(s)) == multiset(s) && |Sorted(s)| == |s|
    ensures forall x :: x in Sorted(s) <==> x in s
  {
    hide Ordered, Sorted;
    SortedKeeps(s);
    forall x
      ensures x in Sorted(s) <==> x in s
    {
      assert x in Sorted(s) <==> x in multiset(Sorted(s));
    }
  }

  lemma DistinctByCount(s: seq<string>)
    ensures Distinct(s) <==> forall x :: multiset(s)[x] <= 1
  {
    if Distinct(s) {
      forall x
        ensures multiset(s)[x] <= 1
      {
        CountOfDistinct(s, x);
      }
    } else {
      var i, j :| 0 <= i < j < |s| && s[i] == s[j];
      assert s == s[..i] + [s[i]] + s[i + 1..j] + [s[j]] + s[j + 1..];
      assert multiset(s)[s[i]] >= 2;
    }
  }

  lemma {:induction false} CountOfDistinct(s: seq<string>, x: string)
    requires Distinct(s)
    ensures multiset(s)[x] <= 1
  {
    if s != [] {
      assert s == [s[0]] + s[1..];
      CountOfDistinct(s[1..], x);
      if s[0] == x { assert x !in s[1..]; }
    }
  }

  /** A sorted list is strictly sorted exactly when the list had no duplicates. */
  lemma StrictIffDistinct(s: seq<string>)
    ensures Strict(Sorted(s)) <==> Distinct(s)
  {
    var t := Sorted(s);
    SortedSorts(s);
    DistinctByCount(s);
    DistinctByCount(t);
    if Distinct(t) {
      forall i, j | 0 <= i < j < |t|
        ensures Less(t[i], t[j])
      {
        LessIsTotal(t[i], t[j]);
      }
    }
    if Strict(t) {
      forall i, j | 0 <= i < j < |t|
        ensures t[i] != t[j]
      {
        LessIsTotal(t[i], t[j]);
      }
    }
  }

  /** A strictly sorted list is determined by the set of its elements. */
  lemma {:induction false} StrictIsUnique(a: seq<string>, b: seq<string>)
    requires Strict(a) && Strict(b) && forall x :: x in a <==> x in b
    ensures a == b
  {
    assert b != [] ==> b[0] in b;
    if a != [] {
      assert a[0] in b;
      assert b[0] in a;
      SameHead(a, b);
      forall x
        ensures x in a[1..] <==> x in b[1..]
      {
        TailMember(a, x);
        TailMember(b, x);
      }
      StrictIsUnique(a[1..], b[1..]);
      assert a == [a[0]] + a[1..] && b == [b[0]] + b[1..];
    }
  }

  lemma SameHead(a: seq<string>, b: seq<string>)
    requires Strict(a) && Strict(b) && a != [] && b != [] && a[0] in b && b[0] in a
    ensures a[0] == b[0]
  {
    var i :| 0 <= i < |a| && a[i] == b[0];
    var j :| 0 <= j < |b| && b[j] == a[0];
    LessIsTotal(a[0], b[0]);
  }

  lemma TailMember(a: seq<string>, x: string)
    requires Strict(a) && a != []
    ensures x in a[1..] <==> x in a && x != a[0]
  {
    assert a == [a[0]] + a[1..];
    if x in a[1..] {
      var k :| 0 <= k < |a[1..]| && a[1..][k] == x;
      assert Less(a[0], a[k + 1]);
      LessIsTotal(a[0], x);
    }
  }

  // ---------------------------------------------------------------------
  // Rows
  // ---------------------------------------------------------------------

  const FIRST_PRIORITY := 1_000
  const I32_MIN := -0x8000_0000
  const I32_MAX := 0x7FFF_FFFF

  /** The remaining fields of a row: the picker's own policy, or a native row's, well-formed or not. */
  datatype Rest = Policy | Foreign(json: string, wellFormed: bool)

  datatype Row = Row(
    slug: string, displayName: string, description: string, visibility: string, priority: int,
    instructions: Option<string>, rest: Rest)

  datatype Error =
    | EmptyOverlay | InvalidNativeCatalog | InvalidModelSchema(index: nat) | DuplicateSlug(slug: string)
    | TooManyModels | MissingFallback

  predicate ValidRow(r: Row) {
    && r.slug != "" && r.displayName != "" && r.visibility in {"list", "hide", "none"}
    && I32_MIN <= r.priority <= I32_MAX && r.instructions.Some? && (r.rest.Foreign? ==> r.rest.wellFormed)
  }

  function Slugs(rows: seq<Row>): seq<string> {
    seq(|rows|, i requires 0 <= i < |rows| => rows[i].slug)
  }

  const GROK_DESCRIPTION := "Grok model served through Grok Codex Bridge."
  const SAVED_DESCRIPTION := "Saved Grok task routed through Native compatibility."

  function GrokRow(id: string, priority: int, overlay: string): Row {
    Row(id, id, GROK_DESCRIPTION, "list", priority, Some(overlay), Policy)
  }

  function HiddenRow(fallback: Row, id: string): Row {
    fallback.(slug := id, displayName := id, description := SAVED_DESCRIPTION, visibility := "hide")
  }

  datatype Published = Published(models: seq<Row>, nativeSlugs: seq<string>, nativeCount: nat, grokCount: nat)

  /** Valid native rows with different slugs. */
  ghost predicate NativeOk(native: seq<Row>) {
    native != [] && (forall i :: 0 <= i < |native| ==> ValidRow(native[i])) && Distinct(Slugs(native))
  }

  /** Collects the slugs of the native rows; refuses an invalid row or a repeated slug. */
  method NativeSlugs(native: seq<Row>) returns (r: Result<seq<string>, Error>)
    ensures r.Ok? <==> NativeOk(native)
    ensures r.Ok? ==> r.value == Slugs(native)
    ensures r.Err? && native != [] ==>
      exists i :: 0 <= i < |native|
        && ((r.error == InvalidModelSchema(i) && !ValidRow(native[i]))
            || (r.error == DuplicateSlug(native[i].slug) && native[i].slug in Slugs(native)[..i]))
  {
    if native == [] {
      return Err(InvalidNativeCatalog);
    }
    var slugs: seq<string> := [];
    var seen: set<string> := {};
    for i := 0 to |native|
      invariant slugs == Slugs(native)[..i] && Distinct(slugs)
      invariant forall x :: x in seen <==> x in slugs
      invariant forall j :: 0 <= j < i ==> ValidRow(native[j])
    {
      if !ValidRow(native[i]) {
        return Err(InvalidModelSchema(i));
      }
      if native[i].slug in seen {
        var j :| 0 <= j < i && slugs[j] == native[i].slug;
        assert Slugs(native)[j] == Slugs(native)[i];
        return Err(DuplicateSlug(native[i].slug));
      }
      seen := seen + {native[i].slug};
      slugs := slugs + [native[i].slug];
    }
    return Ok(slugs);
  }

  /** What can be appended to the native slugs. */
  ghost predicate Appendable(nativeSlugs: seq<string>, ids: seq<string>) {
    Distinct(ids) && forall i :: 0 <= i < |ids| ==> ids[i] != "" && ids[i] !in nativeSlugs
  }

  ghost predicate Generatable(native: seq<Row>, ids: seq<string>, overlay: string) {
    overlay != "" && NativeOk(native) && Appendable(Slugs(native), ids) && |ids| <= I32_MAX - FIRST_PRIORITY + 1
  }

  function GrokRows(ids: seq<string>, overlay: string): seq<Row> {
    seq(|ids|, i requires 0 <= i < |ids| => GrokRow(ids[i], FIRST_PRIORITY + i, overlay))
  }

  lemma AppendableSorted(nativeSlugs: seq<string>, ids: seq<string>)
    ensures Appendable(nativeSlugs, Sorted(ids)) <==> Appendable(nativeSlugs, ids)
  {
    hide Sorted, Ordered, Distinct;
    SortedSorts(ids);
    DistinctByCount(ids);
    DistinctByCount(Sorted(ids));
    AppendableMembers(nativeSlugs, ids);
    AppendableMembers(nativeSlugs, Sorted(ids));
  }

  lemma AppendableMembers(nativeSlugs: seq<string>, ids: seq<string>)
    ensures Appendable(nativeSlugs, ids) <==> Distinct(ids) && forall id :: id in ids ==> id != "" && id !in nativeSlugs
  {
    hide Distinct;
    assert forall i :: 0 <= i < |ids| ==> ids[i] in ids;
  }

  /** Appends one row per admitted identifier, in the order of the sorted identifiers. */
  method GeneratePickerCatalog(native: seq<Row>, ids: seq<string>, overlay: string)
    returns (r: Result<Published, Error>)
    ensures r.Ok? <==> Generatable(native, ids, overlay)
    ensures r.Ok? ==> r.value == Published(native + GrokRows(Sorted(ids), overlay), Slugs(native), |native|, |ids|)
  {
    hide Distinct, NativeOk, Sorted;
    if overlay == "" {
      return Err(EmptyOverlay);
    }
    var nativeSlugs := NativeSlugs(native);
    if nativeSlugs.Err? {
      return Err(nativeSlugs.error);
    }
    var sorted := Sorted(ids);
    SortedSorts(ids);
    AppendableSorted(nativeSlugs.value, ids);
    var seen := SetOf(nativeSlugs.value);
    var models := native;
    NoneAppended(nativeSlugs.value);
    for i := 0 to |sorted|
      invariant models == native + GrokRows(sorted[..i], overlay)
      invariant forall x :: x in seen <==> x in nativeSlugs.value || x in sorted[..i]
      invariant Appendable(nativeSlugs.value, sorted[..i]) && (i > 0 ==> FIRST_PRIORITY + i - 1 <= I32_MAX)
    {
      AppendPush(nativeSlugs.value, sorted, i);
      if sorted[i] in seen {
        return Err(DuplicateSlug(sorted[i]));
      }
      seen := seen + {sorted[i]};
      if i > I32_MAX || FIRST_PRIORITY + i > I32_MAX {
        return Err(TooManyModels);
      }
      var entry := GrokRow(sorted[i], FIRST_PRIORITY + i, overlay);
      if !ValidRow(entry) {
        return Err(InvalidModelSchema(|native| + i));
      }
      models := models + [entry];
      assert GrokRows(sorted[..i + 1], overlay) == GrokRows(sorted[..i], overlay) + [entry];
    }
    assert sorted[..|sorted|] == sorted;
    return Ok(Published(models, nativeSlugs.value, |native|, |sorted|));
  }

  function SetOf(s: seq<string>): set<string> {
    set x | x in s
  }

  lemma NoneAppended(nativeSlugs: seq<string>)
    ensures Appendable(nativeSlugs, [])
  {
  }

  lemma AppendPush(nativeSlugs: seq<string>, ids: seq<string>, i: nat)
    requires i < |ids| && Appendable(nativeSlugs, ids[..i])
    ensures ids[..i + 1] == ids[..i] + [ids[i]]
    ensures Appendable(nativeSlugs, ids[..i + 1]) <==> ids[i] != "" && ids[i] !in nativeSlugs && ids[i] !in ids[..i]
    ensures !Appendable(nativeSlugs, ids[..i + 1]) ==> !Appendable(nativeSlugs, ids)
  {
    var more := ids[..i + 1];
    assert more[..i] == ids[..i];
    if Appendable(nativeSlugs, ids) {
      assert forall k :: 0 <= k <= i ==> more[k] == ids[k];
    }
    if Appendable(nativeSlugs, more) {
      assert forall k :: 0 <= k < i ==> more[k] != more[i];
    }
  }

  /** The native rows alone, unchanged. */
  method GenerateNativeCompatibilityCatalog(native: seq<Row>) returns (r: Result<Published, Error>)
    ensures r.Ok? <==> NativeOk(native)
    ensures r.Ok? ==> r.value == Published(native, Slugs(native), |native|, 0)
  {
    var slugs := NativeSlugs(native);
    return match slugs case Err(e) => Err(e) case Ok(s) => Ok(Published(native, s, |native|, 0));
  }

  function HiddenRows(fallback: Row, ids: seq<string>): seq<Row> {
    seq(|ids|, i requires 0 <= i < |ids| => HiddenRow(fallback, ids[i]))
  }

  /** The first row with a slug, if there is one. */
  function FindRow(models: seq<Row>, slug: string): (r: Option<Row>)
    ensures r.Some? <==> slug in Slugs(models)
    ensures r.Some? ==> r.value in models && r.value.slug == slug
  {
    if models == [] then None
    else if models[0].slug == slug then assert Slugs(models)[0] == slug; Some(models[0])
    else
      assert Slugs(models) == [models[0].slug] + Slugs(models[1..]);
      FindRow(models[1..], slug)
  }

  /** The generated catalog, edited in place when compatibility rows are added. */
  class GeneratedPickerCatalog {
    var models: seq<Row>
    var nativeSlugs: seq<string>
    var nativeCount: nat
    var grokCount: nat

    function View(): Published
      reads this
    {
      Published(models, nativeSlugs, nativeCount, grokCount)
    }

    constructor (p: Published)
      ensures View() == p
    {
      models, nativeSlugs, nativeCount, grokCount := p.models, p.nativeSlugs, p.nativeCount, p.grokCount;
    }

    /** Adds a hidden copy of the fallback row for every admitted identifier; a refusal changes nothing. */
    method WithHiddenGrokCompatibility(ids: seq<string>, fallbackModel: string) returns (error: Option<Error>)
      requires forall i :: 0 <= i < |models| ==> ValidRow(models[i])
      modifies this
      ensures error.None? <==> fallbackModel in Slugs(old(models)) && Appendable(old(nativeSlugs), ids)
      ensures error.None? ==>
        var fallback := FindRow(old(models), fallbackModel).value;
        View() == Published(old(models) + HiddenRows(fallback, Sorted(ids)), old(nativeSlugs), old(nativeCount), |ids|)
      ensures error.Some? ==> View() == old(View())
    {
      hide Sorted, Distinct, Slugs;
      var found := FindRow(models, fallbackModel);
      if found.None? {
        return Some(MissingFallback);
      }
      var fallback := found.value;
      var seen := SetOf(nativeSlugs);
      var sorted := Sorted(ids);
      SortedSorts(ids);
      AppendableSorted(nativeSlugs, ids);
      var extended := models;
      NoneAppended(nativeSlugs);
      for i := 0 to |sorted|
        invariant View() == old(View())
        invariant extended == models + HiddenRows(fallback, sorted[..i])
        invariant forall x :: x in seen <==> x in nativeSlugs || x in sorted[..i]
        invariant Appendable(nativeSlugs, sorted[..i])
      {
        AppendPush(nativeSlugs, sorted, i);
        if sorted[i] in seen {
          return Some(DuplicateSlug(sorted[i]));
        }
        seen := seen + {sorted[i]};
        var entry := HiddenRow(fallback, sorted[i]);
        if !ValidRow(entry) {
          return Some(InvalidModelSchema(nativeCount + i));
        }
        extended := extended + [entry];
        assert HiddenRows(fallback, sorted[..i + 1]) == HiddenRows(fallback, sorted[..i]) + [entry];
      }
      assert sorted[..|sorted|] == sorted;
      models, grokCount := extended, |sorted|;
      return None;
    }
  }

  // ---------------------------------------------------------------------
  // The Native route
  // ---------------------------------------------------------------------

  const ROUTE_STATE_VERSION: nat := 1

  datatype Mode = GrokEnabled | NativeCompatibility(fallback: string)

  datatype Route = Route(version: nat, models: seq<string>, mode: Mode)

  predicate NameChar(c: char) {
    'a' <= c <= 'z' || 'A' <= c <= 'Z' || '0' <= c <= '9' || c == '-' || c == '_' || c == '.' || c == ':'
  }

  predicate ModelName(s: string) {
    0 < |s| <= 128 && forall i :: 0 <= i < |s| ==> NameChar(s[i])
  }

  ghost predicate RouteOk(r: Route) {
    && r.version == ROUTE_STATE_VERSION && r.models != []
    && (forall i :: 0 <= i < |r.models| ==> ModelName(r.models[i]))
    && Strict(r.models) && (r.mode.NativeCompatibility? ==> r.mode.fallback in r.models)
  }

  /** Membership in a strictly sorted list, by halving. */
  method Contains(models: seq<string>, model: string) returns (found: bool)
    requires Strict(models)
    ensures found <==> model in models
  {
    var low, high := 0, |models|;
    while low < high
      invariant 0 <= low <= high <= |models|
      invariant forall k :: 0 <= k < low ==> models[k] != model
      invariant forall k :: high <= k < |models| ==> models[k] != model
      decreases high - low
    {
      var mid := (low + high) / 2;
      if models[mid] == model {
        return true;
      }
      if Less(models[mid], model) {
        forall k | low <= k <= mid
          ensures models[k] != model
        {
          LessIsTotal(models[k], model);
          if k < mid { LessIsTransitive(models[k], models[mid], model); }
        }
        low := mid + 1;
      } else {
        LessIsTotal(models[mid], model);
        forall k | mid <= k < high
          ensures models[k] != model
        {
          LessIsTotal(models[k], model);
          if mid < k { LessIsTransitive(model, models[mid], models[k]); }
        }
        high := mid;
      }
    }
    return false;
  }

  /** Neighbours in order are enough. */
  lemma {:induction false} NeighboursSuffice(s: seq<string>, i: nat, j: nat)
    requires forall k :: 0 <= k < |s| - 1 ==> Less(s[k], s[k + 1])
    requires i < j < |s|
    ensures Less(s[i], s[j])
    decreases j - i
  {
    if j > i + 1 {
      NeighboursSuffice(s, i, j - 1);
      LessIsTransitive(s[i], s[j - 1], s[j]);
    }
  }

  method Validate(r: Route) returns (ok: bool)
    ensures ok <==> RouteOk(r)
  {
    if r.version != ROUTE_STATE_VERSION || r.models == [] {
      return false;
    }
    var seen: set<string> := {};
    for i := 0 to |r.models|
      invariant forall k :: 0 <= k < i ==> ModelName(r.models[k])
      invariant seen == SetOf(r.models[..i])
    {
      if !ModelName(r.models[i]) {
        return false;
      }
      if r.models[i] in seen {
        var k :| 0 <= k < i && r.models[..i][k] == r.models[i];
        LessIsTotal(r.models[k], r.models[i]);
        return false;
      }
      seen := seen + {r.models[i]};
      assert r.models[..i + 1] == r.models[..i] + [r.models[i]];
    }
    for i := 0 to |r.models| - 1
      invariant forall k :: 0 <= k < i ==> Less(r.models[k], r.models[k + 1])
    {
      if !Less(r.models[i], r.models[i + 1]) {
        return false;
      }
    }
    forall i, j | 0 <= i < j < |r.models|
      ensures Less(r.models[i], r.models[j])
    {
      NeighboursSuffice(r.models, i, j);
    }
    ok := true;
    if r.mode.NativeCompatibility? {
      ok := Contains(r.models, r.mode.fallback);
    }
  }

  /** Sorts the models and validates the result. */
  method NewRoute(models: seq<string>, mode: Mode) returns (r: Option<Route>)
    ensures r.Some? <==>
      && models != [] && Distinct(models) && (forall i :: 0 <= i < |models| ==> ModelName(models[i]))
      && (mode.NativeCompatibility? ==> mode.fallback in models)
    ensures r.Some? ==> r.value.mode == mode && RouteOk(r.value) && forall x :: x in r.value.models <==> x in models
  {
    hide ModelName, Sorted, Distinct;
    SortedSorts(models);
    StrictIffDistinct(models);
    var route := Route(ROUTE_STATE_VERSION, Sorted(models), mode);
    assert forall i :: 0 <= i < |models| ==> models[i] in Sorted(models);
    assert forall i :: 0 <= i < |models| ==> Sorted(models)[i] in models;
    var ok := Validate(route);
    return if ok then Some(route) else None;
  }

  // ---------------------------------------------------------------------
  // The catalog and the route agree
  // ---------------------------------------------------------------------

  /** The catalog depends on the set of admitted identifiers, not on their order. */
  lemma OrderIsIrrelevant(ids: seq<string>, others: seq<string>, overlay: string)
    requires Distinct(ids) && Distinct(others) && forall x :: x in ids <==> x in others
    ensures GrokRows(Sorted(ids), overlay) == GrokRows(Sorted(others), overlay) && |ids| == |others|
  {
    hide *;
    SameSorted(ids, others);
    SortedSorts(ids);
    SortedSorts(others);
  }

  lemma SameSorted(ids: seq<string>, others: seq<string>)
    requires Distinct(ids) && Distinct(others) && forall x :: x in ids <==> x in others
    ensures Sorted(ids) == Sorted(others)
  {
    hide *;
    StrictIffDistinct(ids);
    StrictIffDistinct(others);
    forall x
      ensures x in Sorted(ids) <==> x in Sorted(others)
    {
      SortedSorts(ids);
      SortedSorts(others);
    }
    StrictIsUnique(Sorted(ids), Sorted(others));
  }

  /**
  The published rows: native rows first and unchanged, then rows whose slugs and priorities
  both strictly increase; all slugs are different.
  */
  lemma PublishedRows(native: seq<Row>, ids: seq<string>, overlay: string)
    requires Generatable(native, ids, overlay)
    ensures var models := native + GrokRows(Sorted(ids), overlay);
            && models[..|native|] == native && |models| == |native| + |ids|
            && (forall i, j :: |native| <= i < j < |models| ==>
                  Less(models[i].slug, models[j].slug) && models[i].priority < models[j].priority)
            && Distinct(Slugs(models))
            && (forall i :: 0 <= i < |models| ==> ValidRow(models[i]))
            && (forall id :: id in ids <==> exists i :: |native| <= i < |models| && models[i].slug == id)
            && (forall i :: |native| <= i < |models| ==>
                  && models[i].visibility == "list" && models[i].instructions == Some(overlay)
                  && models[i].displayName == models[i].slug && models[i].priority == 1_000 + i - |native|
                  && models[i].description == "Grok model served through Grok Codex Bridge.")
  {
    hide ValidRow, Less, Sorted, Ordered, Distinct, GrokRow, Strict;
    assert forall i :: |native| <= i < |native| + |ids| ==>
      var row := (native + GrokRows(Sorted(ids), overlay))[i];
      && row.visibility == "list" && row.instructions == Some(overlay)
      && row.displayName == row.slug && row.priority == 1_000 + i - |native|
      && row.description == "Grok model served through Grok Codex Bridge."
    by {
      SortedSorts(ids);
      AppendedPolicy(native, Sorted(ids), overlay);
    }
    var sorted := Sorted(ids);
    var rows := GrokRows(sorted, overlay);
    SortedSorts(ids);
    StrictIffDistinct(ids);
    AppendableSorted(Slugs(native), ids);
    GrokRowsValid(sorted, overlay);
    GrokRowsIncrease(sorted, overlay);
    assert Slugs(rows) == sorted by { GrokSlugs(sorted, overlay); }
    AppendedDistinct(native, rows, sorted);
    AppendedIds(native, rows, ids);
    Appended(native, rows);
  }

  /** Every appended row can be picked, shows its identifier and carries the overlay. */
  lemma AppendedPolicy(native: seq<Row>, ids: seq<string>, overlay: string)
    ensures forall i :: |native| <= i < |native| + |ids| ==>
      var row := (native + GrokRows(ids, overlay))[i];
      && row.visibility == "list" && row.instructions == Some(overlay)
      && row.displayName == row.slug && row.priority == 1_000 + i - |native|
      && row.description == "Grok model served through Grok Codex Bridge."
  {
  }

  lemma GrokSlugs(ids: seq<string>, overlay: string)
    ensures Slugs(GrokRows(ids, overlay)) == ids
  {
  }

  /** What holds of the two parts holds of the whole. */
  lemma Appended(native: seq<Row>, rows: seq<Row>)
    requires forall i :: 0 <= i < |native| ==> ValidRow(native[i])
    requires forall i :: 0 <= i < |rows| ==> ValidRow(rows[i])
    requires forall i, j :: 0 <= i < j < |rows| ==>
      Less(rows[i].slug, rows[j].slug) && rows[i].priority < rows[j].priority
    ensures var models := native + rows;
            && models[..|native|] == native
            && (forall i :: 0 <= i < |models| ==> ValidRow(models[i]))
            && (forall i, j :: |native| <= i < j < |models| ==>
                  Less(models[i].slug, models[j].slug) && models[i].priority < models[j].priority)
  {
    hide ValidRow, Less;
    var models := native + rows;
    assert forall i :: |native| <= i < |models| ==> models[i] == rows[i - |native|];
  }

  lemma GrokRowsIncrease(ids: seq<string>, overlay: string)
    requires Strict(ids)
    ensures var rows := GrokRows(ids, overlay);
            forall i, j :: 0 <= i < j < |rows| ==>
              Less(rows[i].slug, rows[j].slug) && rows[i].priority < rows[j].priority
  {
    hide Less;
  }

  lemma GrokRowsValid(ids: seq<string>, overlay: string)
    requires |ids| <= I32_MAX - FIRST_PRIORITY + 1 && forall i :: 0 <= i < |ids| ==> ids[i] != ""
    ensures forall i :: 0 <= i < |ids| ==> ValidRow(GrokRows(ids, overlay)[i])
  {
  }

  lemma AppendedDistinct(native: seq<Row>, rows: seq<Row>, slugs: seq<string>)
    requires Slugs(rows) == slugs && Distinct(Slugs(native)) && Appendable(Slugs(native), slugs)
    ensures Distinct(Slugs(native + rows))
  {
    var all := Slugs(native + rows);
    assert all == Slugs(native) + slugs;
    forall i, j | 0 <= i < j < |all|
      ensures all[i] != all[j]
    {
      if i < |native| <= j {
        assert all[i] == Slugs(native)[i] && Slugs(native)[i] in Slugs(native);
        assert all[j] == slugs[j - |native|];
      }
    }
  }

  /** The appended rows are found by their identifiers. */
  lemma AppendedIds(native: seq<Row>, rows: seq<Row>, ids: seq<string>)
    requires Slugs(rows) == Sorted(ids)
    ensures forall id :: id in ids <==> exists i :: |native| <= i < |native| + |rows| && (native + rows)[i].slug == id
  {
    hide Sorted;
    SortedSorts(ids);
    var models := native + rows;
    forall id
      ensures id in ids <==> exists i :: |native| <= i < |models| && models[i].slug == id
    {
      if id in ids {
        var k :| 0 <= k < |rows| && Slugs(rows)[k] == id;
        assert models[|native| + k].slug == id;
      }
      if i :| |native| <= i < |models| && models[i].slug == id {
        assert Slugs(rows)[i - |native|] == id;
      }
    }
  }

  /**
  The route built from a catalog contains a published slug exactly when it is a native row's,
  whether the rows for the admitted identifiers are listed or hidden.
  */
  lemma RouteSeparatesRows(native: seq<Row>, rows: seq<Row>, ids: seq<string>, route: Route, i: nat)
    requires Appendable(Slugs(native), ids) && Slugs(rows) == Sorted(ids)
    requires RouteOk(route) && forall x :: x in route.models <==> x in Slugs(native)
    requires i < |native| + |rows|
    ensures (native + rows)[i].slug in route.models <==> i < |native|
  {
    hide Sorted;
    AppendableSorted(Slugs(native), ids);
    if i < |native| {
      assert Slugs(native)[i] in Slugs(native);
    } else {
      assert Slugs(rows)[i - |native|] !in Slugs(native);
    }
  }

  /** Both kinds of appended rows carry exactly the sorted identifiers. */
  lemma AppendedSlugs(ids: seq<string>, overlay: string, fallback: Row)
    ensures Slugs(GrokRows(Sorted(ids), overlay)) == Sorted(ids)
    ensures Slugs(HiddenRows(fallback, Sorted(ids))) == Sorted(ids)
  {
    hide Sorted;
  }

  /**
  Compatibility rows resolve every saved identifier, differ from the fallback only in their
  name, description and visibility, and add nothing a user could pick.
  */
  lemma HiddenRowsOnlyResolve(native: seq<Row>, ids: seq<string>, fallback: Row)
    requires NativeOk(native) && fallback in native && Appendable(Slugs(native), ids)
    ensures var models := native + HiddenRows(fallback, Sorted(ids));
            && (forall i :: 0 <= i < |models| && models[i].visibility == "list" ==> i < |native|)
            && (forall id :: id in ids ==>
                  exists i :: 0 <= i < |models| && models[i].slug == id && models[i].visibility == "hide")
            && Distinct(Slugs(models))
            && (forall i :: |native| <= i < |models| ==>
                  models[i].(slug := fallback.slug, displayName := fallback.displayName,
                             description := fallback.description, visibility := fallback.visibility) == fallback)
  {
    hide ValidRow, Less, Sorted;
    var sorted := Sorted(ids);
    var models := native + HiddenRows(fallback, sorted);
    SortedSorts(ids);
    AppendableSorted(Slugs(native), ids);
    AppendedDistinct(native, HiddenRows(fallback, sorted), sorted);
    AppendedIds(native, HiddenRows(fallback, sorted), ids);
    forall id | id in ids
      ensures exists i :: 0 <= i < |models| && models[i].slug == id && models[i].visibility == "hide"
    {
      var i :| |native| <= i < |models| && models[i].slug == id;
      assert models[i].visibility == "hide";
    }
  }

  /** Asks the route for every published row. */
  method AskForEach(models: seq<Row>, route: Route) returns (answers: seq<bool>)
    requires Strict(route.models)
    ensures |answers| == |models|
    ensures forall i :: 0 <= i < |models| ==> (answers[i] <==> models[i].slug in route.models)
  {
    hide Strict;
    answers := [];
    for i := 0 to |models|
      invariant |answers| == i
      invariant forall j :: 0 <= j < i ==> (answers[j] <==> models[j].slug in route.models)
    {
      var found := Contains(route.models, models[i].slug);
      answers := answers + [found];
    }
  }

  /** The whole way: generate the catalog, build the route from its native slugs, search for every row. */
  method PublishAndAsk(native: seq<Row>, ids: seq<string>, overlay: string) returns (r: Option<seq<bool>>)
    ensures r.Some? <==>
      Generatable(native, ids, overlay) && forall i :: 0 <= i < |native| ==> ModelName(native[i].slug)
    ensures r.Some? ==>
      |r.value| == |native| + |ids| && forall i :: 0 <= i < |r.value| ==> (r.value[i] <==> i < |native|)
  {
    hide ModelName, Sorted, Distinct, Strict, ValidRow, Appendable;
    var generated := GeneratePickerCatalog(native, ids, overlay);
    if generated.Err? {
      return None;
    }
    var route := NewRoute(generated.value.nativeSlugs, GrokEnabled);
    assert forall i :: 0 <= i < |native| ==> Slugs(native)[i] == native[i].slug;
    if route.None? {
      return None;
    }
    var answers := AskForEach(generated.value.models, route.value);
    var rows := GrokRows(Sorted(ids), overlay);
    SortedSorts(ids);
    AppendedSlugs(ids, overlay, native[0]);
    forall i | 0 <= i < |answers|
      ensures answers[i] <==> i < |native|
    {
      RouteSeparatesRows(native, rows, ids, route.value, i);
    }
    return Some(answers);
  }

  /** The same for the compatibility catalog with its hidden rows and a fallback. */
  method PublishHiddenAndAsk(native: seq<Row>, ids: seq<string>, fallback: string) returns (r: Option<seq<bool>>)
    ensures r.Some? <==>
      && NativeOk(native) && Appendable(Slugs(native), ids) && fallback in Slugs(native)
      && forall i :: 0 <= i < |native| ==> ModelName(native[i].slug)
    ensures r.Some? ==>
      |r.value| == |native| + |ids| && forall i :: 0 <= i < |r.value| ==> (r.value[i] <==> i < |native|)
  {
    hide ModelName, Sorted, Distinct, Strict, ValidRow, Appendable;
    var generated := GenerateNativeCompatibilityCatalog(native);
    if generated.Err? {
      return None;
    }
    var route := NewRoute(generated.value.nativeSlugs, NativeCompatibility(fallback));
    assert forall i :: 0 <= i < |native| ==> Slugs(native)[i] == native[i].slug;
    if route.None? {
      return None;
    }
    var catalog := new GeneratedPickerCatalog(generated.value);
    var error := catalog.WithHiddenGrokCompatibility(ids, fallback);
    if error.Some? {
      return None;
    }
    var answers := AskForEach(catalog.models, route.value);
    var row := FindRow(native, fallback).value;
    SortedSorts(ids);
    AppendedSlugs(ids, "", row);
    forall i | 0 <= i < |answers|
      ensures answers[i] <==> i < |native|
    {
      RouteSeparatesRows(native, HiddenRows(row, Sorted(ids)), ids, route.value, i);
    }
    return Some(answers);
  }
}
