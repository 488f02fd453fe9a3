/**
The request-local map between Codex's namespaced tool names and the flat names
accepted upstream, and the merge of tools discovered by earlier searches.
*/
module Namespace {
  import opened Outcomes

  const MAX_XAI_TOOLS := 128
  const NAMESPACE_DELIMITER := "__"
  const TOOL_SEARCH := "tool_search"

  datatype ToolError = DuplicateToolName | TooManyTools | UnsupportedTools

  datatype NativeToolName = NativeToolName(namespace: string, name: string)

  /** The provider name of a native pair; distinct pairs can collide here. */
  function Flat(native: NativeToolName): string {
    native.namespace + NAMESPACE_DELIMITER + native.name
  }

  datatype Maps = Maps(toNative: map<string, NativeToolName>,
                       toProvider: map<NativeToolName, string>,
                       search: Option<string>)
  {
    /** The two maps are mutual inverses and every provider name is the flat one. */
    ghost predicate Valid() {
      && (forall p :: p in toNative ==> toNative[p] in toProvider && toProvider[toNative[p]] == p)
      && (forall n :: n in toProvider ==> toProvider[n] in toNative && toNative[toProvider[n]] == n)
      && (forall p :: p in toNative ==> p == Flat(toNative[p]))
    }

    /** What a later response sees for a provider name. */
    function Restore(provider: string): Option<NativeToolName> {
      if provider in toNative then Some(toNative[provider]) else None
    }
  }

  const NO_MAPS := Maps(map[], map[], None)

  function Inserted(maps: Maps, native: NativeToolName): Maps {
    Maps(maps.toNative[Flat(native) := native], maps.toProvider[native := Flat(native)], maps.search)
  }

  /** A replayed pair is admitted unless another pair already owns its flat name. */
  function Ensured(maps: Maps, native: NativeToolName): Result<Maps, ToolError> {
    if native in maps.toProvider then Ok(maps)
    else if Flat(native) in maps.toNative then Err(DuplicateToolName)
    else Ok(Inserted(maps, native))
  }

  class NamespaceToolProjection {
    var providerToNative: map<string, NativeToolName>
    var nativeToProvider: map<NativeToolName, string>
    var toolSearchProviderName: Option<string>

    constructor ()
      ensures Value() == NO_MAPS
    {
      providerToNative := map[];
      nativeToProvider := map[];
      toolSearchProviderName := None;
    }

    function Value(): Maps
      reads this
    {
      Maps(providerToNative, nativeToProvider, toolSearchProviderName)
    }

    /** Registers any free pair under any free name; a flat name keeps the maps valid. */
    method Insert(provider: string, native: NativeToolName) returns (r: Result<(), ToolError>)
      modifies this
      ensures r.Ok? <==> native !in old(nativeToProvider) && provider !in old(providerToNative)
      ensures r.Ok? ==>
        Value() == Maps(old(providerToNative)[provider := native], old(nativeToProvider)[native := provider],
                        old(toolSearchProviderName))
      ensures r.Err? ==> Value() == old(Value()) && r.error == DuplicateToolName
      ensures old(Value().Valid()) && provider == Flat(native) ==> Value().Valid()
    {
      if native in nativeToProvider || provider in providerToNative {
        return Err(DuplicateToolName);
      }
      nativeToProvider := nativeToProvider[native := provider];
      providerToNative := providerToNative[provider := native];
      return Ok(());
    }

    method EnsureProviderName(native: NativeToolName) returns (r: Result<string, ToolError>)
      requires Value().Valid()
      modifies this
      ensures Value().Valid()
      ensures match Ensured(old(Value()), native)
              case Ok(maps) => r == Ok(Flat(native)) && Value() == maps
              case Err(e) => r == Err(e) && Value() == old(Value())
    {
      if native in nativeToProvider {
        return Ok(nativeToProvider[native]);
      }
      var provider := native.namespace + NAMESPACE_DELIMITER + native.name;
      if provider in providerToNative && providerToNative[provider] != native {
        return Err(DuplicateToolName);
      }
      var inserted := Insert(provider, native);
      assert inserted.Ok?;
      return Ok(provider);
    }
  }

  // ---------------------------------------------------------------------
  // Replaying namespaced calls
  // ---------------------------------------------------------------------

  function EnsuredAll(maps: Maps, replays: seq<NativeToolName>): Result<Maps, ToolError> {
    if replays == [] then Ok(maps)
    else
      match EnsuredAll(maps, replays[..|replays| - 1])
      case Err(e) => Err(e)
      case Ok(earlier) => Ensured(earlier, replays[|replays| - 1])
  }

  /** No two different pairs share a flat name. */
  ghost predicate Unambiguous(names: set<NativeToolName>) {
    forall m, n :: m in names && n in names && Flat(m) == Flat(n) ==> m == n
  }

  ghost function Replayed(replays: seq<NativeToolName>): set<NativeToolName> {
    set n | n in replays
  }

  lemma ValidIsUnambiguous(maps: Maps)
    requires maps.Valid()
    ensures Unambiguous(maps.toProvider.Keys)
    ensures forall n :: n in maps.toProvider ==> maps.toProvider[n] == Flat(n) && maps.Restore(Flat(n)) == Some(n)
  {
    forall n | n in maps.toProvider
      ensures maps.toProvider[n] == Flat(n) && maps.Restore(Flat(n)) == Some(n)
    {
      var p := maps.toProvider[n];
      assert p in maps.toNative && maps.toNative[p] == n;
    }
  }

  lemma FreshPair(maps: Maps, native: NativeToolName)
    requires maps.Valid() && Flat(native) !in maps.toNative
    ensures native !in maps.toProvider
  {
    ValidIsUnambiguous(maps);
  }

  lemma InsertedValid(maps: Maps, native: NativeToolName)
    requires maps.Valid() && Flat(native) !in maps.toNative
    ensures Inserted(maps, native).Valid()
  {
    hide Flat;
    FreshPair(maps, native);
  }

  lemma EnsuredStep(maps: Maps, native: NativeToolName)
    requires maps.Valid()
    ensures Ensured(maps, native).Ok? <==> Unambiguous(maps.toProvider.Keys + {native})
    ensures Ensured(maps, native).Ok? ==>
      var r := Ensured(maps, native).value;
      && r.Valid() && r.search == maps.search
      && r.toProvider.Keys == maps.toProvider.Keys + {native}
  {
    hide Flat;
    ValidIsUnambiguous(maps);
    if native !in maps.toProvider && Flat(native) in maps.toNative {
      var other := maps.toNative[Flat(native)];
      assert other in maps.toProvider.Keys && Flat(other) == Flat(native);
    } else if native !in maps.toProvider {
      InsertedValid(maps, native);
    }
  }

  /**
  Replays succeed exactly when no flat name is claimed by two pairs; they then keep
  every known pair, add exactly the replayed ones, and every pair is restored from
  its flat name.
  */
  lemma {:induction false} ReplaysRestore(maps: Maps, replays: seq<NativeToolName>)
    requires maps.Valid()
    ensures EnsuredAll(maps, replays).Ok? <==> Unambiguous(maps.toProvider.Keys + Replayed(replays))
    ensures EnsuredAll(maps, replays).Ok? ==>
      var r := EnsuredAll(maps, replays).value;
      && r.Valid() && r.search == maps.search
      && r.toProvider.Keys == maps.toProvider.Keys + Replayed(replays)
      && (forall n :: n in r.toProvider ==> r.Restore(Flat(n)) == Some(n))
  {
    ValidIsUnambiguous(maps);
    if replays == [] {
      assert maps.toProvider.Keys + Replayed(replays) == maps.toProvider.Keys;
    } else {
      var k := |replays| - 1;
      ReplaysRestore(maps, replays[..k]);
      assert replays == replays[..k] + [replays[k]];
      assert Replayed(replays) == Replayed(replays[..k]) + {replays[k]};
      var all := maps.toProvider.Keys + Replayed(replays);
      if EnsuredAll(maps, replays[..k]).Ok? {
        var r := EnsuredAll(maps, replays[..k]).value;
        assert all == r.toProvider.Keys + {replays[k]};
        EnsuredStep(r, replays[k]);
        if Ensured(r, replays[k]).Ok? { ValidIsUnambiguous(Ensured(r, replays[k]).value); }
      }
    }
  }

  /** Both parts of a pair may contain the delimiter, so splitting a flat name is ambiguous. */
  lemma FlatIsNotInjective()
    ensures Flat(NativeToolName("a__b", "c")) == Flat(NativeToolName("a", "b__c"))
    ensures EnsuredAll(NO_MAPS, [NativeToolName("a__b", "c"), NativeToolName("a", "b__c")]) == Err(DuplicateToolName)
  {
    var x, y := NativeToolName("a__b", "c"), NativeToolName("a", "b__c");
    assert Flat(x) == "a__b__c" && Flat(y) == "a__b__c";
    assert [x, y][..1] == [x] && [x][..0] == [];
    assert EnsuredAll(NO_MAPS, []) == Ok(NO_MAPS);
    assert EnsuredAll(NO_MAPS, [x]) == Ok(Inserted(NO_MAPS, x));
    assert EnsuredAll(NO_MAPS, [x, y]) == Ensured(Inserted(NO_MAPS, x), y);
  }
}
