# Verified model of the Grok Codex Bridge

The bridge lets Codex talk to Grok and to Native models through one picker. This project
models, in Dafny, the parts of it whose correctness is not visible in a single function, and
proves what they promise. `dafny verify dfyconfig.toml` checks everything.

| File | What it models |
|---|---|
| `Projection.dfy` | turning a Codex history into a Grok history: parsing with call/output pairing, and hoisting assistant messages out of open parallel tool batches |
| `Namespace.dfy`, `Tools.dfy` | the request-local names of namespaced tools, the parsing of declared tools, and the merging of discovered ones |
| `Json.dfy`, `SchemaLiterals.dfy`, `RewrittenSchemas.dfy`, `ObjectRoot.dfy`, `RootAcceptance.dfy` | the two JSON Schema rewrites applied to tool parameters: what they keep, what they leave at every place, and what the plain object root accepts |
| `Numbers.dfy`, `Base64.dfy` | the exact number canonicaliser and the canonical base64 recogniser |
| `PickerConfig.dfy`, `PickerSettings.dfy` | the marker-delimited block in Codex's `config.toml`, and reading its settings back |
| `ManagedFiles.dfy`, `PickerLifecycle.dfy`, `PickerUninstall.dfy`, `LifecycleRuns.dfy` | installing, synchronising and uninstalling the picker over a disk whose operations fail, and whole runs of these calls |
| `StoppedCalls.dfy` | what an install or a synchronisation leaves behind when the process stops between two of its operations |
| `RenewalGate.dfy`, `RenewalOutcomes.dfy` | the mutex and condition-variable protocol that lets many threads share one credential renewal, and what each caller gets back |
| `Catalog.dfy` | the published catalog, the compatibility catalog and the Native route |
| `NativeRetry.dfy` | the bounded retry loop of the Native transport and the request that shares its budget |
| `EventStream.dfy` | the stream validator, the supplied completion at the end of a stream, and the closing of the last block |
| `Outcomes.dfy`, `Text.dfy`, `Words.dfy` | option and result values; trimming; 64-bit counts |

Loops and in-place updates of the code are methods and classes here, proved against functions
or relations; the theorems about whole requests, runs and streams are lemmas about those.
Faults of the disk, the answers of the upstream and the clock are arbitrary.

Where the code and its documentation differ, the code is followed. `reject_unknown_keys`
(src/protocol.rs:2409) accepts every key, so unknown keys never make an item broken here.
`synthetic_completed_on_eof` speaks of the last useful item, but its guard looks only at
whether any event was accepted and whether the last one was terminal. `n + 1` for a missing
sequence number wraps at 2^64, as in a release build, while the supplied completion saturates.
Some properties one might expect fail, and the condition is proved instead: see
`SchemaLiterals.LiteralSchemaKeptIff`, `RootAcceptance.PlainRootAccepts`,
`Numbers.CanonicalKeepsNumbersIff`, `Tools.PlainToolCaptured`,
`LifecycleRuns.UninstallIsUndoneIff`, `StoppedCalls.LaterCallIsPlannedIff`,
`EventStream.AtMostOneCompletionIff` and `RenewalGate.HelpersAreFreeDecisions`.

## Model

| member | source | states |
|---|---|---|
| Projection.ProjectInputForXai | src/protocol.rs:460-531 | the one-pass loop with `split_off` and `append` gives exactly what inserting each interleaved assistant message, one at a time, at the start of its own open batch gives |
| Projection.StableReordering | src/protocol.rs:460-531 | the projected input is a permutation of the kept items; assistant messages keep their order, everything else keeps its order; no assistant message stands while a completed call is open; each message stands at the last quiet point before it |
| Projection.ProjectionIsUnique | src/protocol.rs:460-531 | those orders and places determine the output: any other sequence with them is the projection |
| Projection.OnlyFilteredIff | src/protocol.rs:469-530 | a history is only filtered if and only if no kept assistant message interrupts an open batch |
| Projection.ProjectionIsIdempotent | src/protocol.rs:460-531 | projecting a projected history changes nothing |
| Projection.SentValues | src/protocol.rs:726-751 | the output has exactly one value for every item that is neither foreign nor another model's reasoning, and every value stands for an item of the history |
| Projection.SentByKind | src/protocol.rs:726-751 | kind by kind: messages, Grok's own encrypted reasoning, function calls or a `tool_search` call, and outputs are sent if and only if such an item is in the history |
| Projection.KeptStandFor | src/protocol.rs:726-751 | the kept values stand, one for one and in order, for the items that are not foreign |
| Projection.OpenMeans | src/protocol.rs:469-502 | a call is open if and only if it has an output somewhere, and stands there without an output for it after it |
| Projection.ParseInput | src/protocol.rs:1486-1547 | the parsing loop over mutable sets and maps computes the step-by-step reference, or its first error |
| Projection.ParseSucceedsIff | src/protocol.rs:1486-1547 | a history parses if and only if no item is broken, every output follows a call with its id, and the replayed names are unambiguous; the result holds the known items in order with the first output of each call, and the maps gained exactly the replayed names |
| Projection.ProjectedOutputsArePaired | src/protocol.rs:460-547 | after parsing and projecting, every output follows a call with its id and no call is answered twice, although messages moved |
| Projection.ParsedItems | src/protocol.rs:1486-1547 | an item is in the parsed history if and only if an element of the request gives it: a known item, or a namespaced call under `namespace__name`; of the outputs of one call only the first |
| Projection.RequestIsSent | src/protocol.rs:460-547 | the same from the request to what Grok receives, for messages, reasoning, calls and outputs |
| Projection.PairedPositions | src/protocol.rs:1486-1547 | what that pairing means for positions in the sequence |
| Namespace.NamespaceToolProjection.Insert | src/protocol.rs:1580-1597 | any pair is registered under any name, in both maps, if and only if neither is taken; otherwise nothing changes; under its flat name the maps stay mutual inverses |
| Namespace.NamespaceToolProjection.EnsureProviderName | src/protocol.rs:1556-1578 | a known pair keeps its name, a new one is registered if its flat name is free, and a clash leaves both maps alone |
| Namespace.ValidIsUnambiguous | src/protocol.rs:1549-1614 | the two maps are inverse to each other, every provider name is namespace, `__`, name, and every registered pair is restored from its flat name |
| Namespace.ReplaysRestore | src/protocol.rs:1556-1614 | any replayed pairs are accepted if and only if no flat name is claimed twice; then every pair, old or replayed, is restored from its flat name, even when either part contains `__` |
| Namespace.FlatIsNotInjective | src/protocol.rs:1556-1578 | two pairs with the delimiter inside flatten to one name, and the second is refused |
| Tools.ParseTools | src/protocol.rs:1688-1796 | declared tools parse if and only if every one is supported, provider names are distinct and there are at most 128; the maps then hold exactly the namespaced tools of the list |
| Tools.DistinctMeans | src/protocol.rs:1831-1891 | distinct provider names in terms of positions in the list |
| Tools.ListIsDeclared | src/protocol.rs:1688-1796 | the list holds a function tool if and only if it is declared plainly, as `tool_search`, or in a namespace under `namespace__name`; the hosted search if and only if it is declared; the maps hold exactly the declared pairs |
| Tools.MergeDiscoveredTool | src/protocol.rs:1831-1891 | one discovered tool: already listed with the same meaning, appended under a free name while fewer than 128 tools are listed, or refused; names stay distinct and the maps' domain stays the namespaced tools |
| Tools.MergeDiscoveredTools | src/protocol.rs:1811-1829 | merging a discovered list, one after the other, against the reference |
| Tools.MergeDiscoveredSpec | src/protocol.rs:1798-1829 | a discovered specification is first parsed alone, so it must not clash with itself |
| Tools.MergeDiscoveredToolSearchSpecs | src/protocol.rs:1798-1829 | all discovered specifications merge if and only if each parses alone and their additions merge in sequence |
| Tools.MergeIsUnion | src/protocol.rs:1798-1891 | a merge succeeds if and only if no addition contradicts the list or another addition and the union has at most 128 tools; the list then means exactly that union |
| Tools.ViewDetermines | src/protocol.rs:1798-1891 | lists with the same meaning hold the same tools and the same maps |
| Tools.MergeOrderIsIrrelevant | src/protocol.rs:1798-1891 | the same additions in any order and multiplicity both fail, or give the same tools and the same maps |
| Tools.MergeIsIdempotent | src/protocol.rs:1798-1891 | merging again what was merged changes nothing, not even the order |
| Tools.FlattenThenRestore | src/protocol.rs:1549-1614 | over one request every declared, discovered or replayed pair is given back by its flat name; a plain tool is restored to a pair if and only if a replayed pair flattens onto its name |
| Tools.PlainToolCaptured | src/protocol.rs:1143-1175 | exactly when a replay captures a plain tool |
| Tools.StaleReplayCapturesPlainTool | src/protocol.rs:1143-1175 | a concrete replay that does |
| SchemaLiterals.RewriteKeepsMeaning | src/protocol.rs:1967-2075 | for any way of comparing literals: when every typed `enum` keeps a literal and every typed `const` matches, and every value of the declared types that equals a literal equals one that is kept, the rewritten schema accepts exactly the same values, under any nesting of unions, `not`, `if`, and object and array keywords, whatever other keywords say about the value from their own text and the count of `contains` |
| SchemaLiterals.TypedEqualityCovers | src/protocol.rs:2056-2075 | if literals of different types are different, as the code compares them, that covering always holds |
| SchemaLiterals.NumericCoveredIff | src/protocol.rs:2049-2075 | if numbers are compared by value, it holds for a schema if and only if, in every integer `enum` that is not a number `enum`, each whole double has its integer beside it |
| SchemaLiterals.RewriteKeepsNumericMeaning | src/protocol.rs:1967-2075 | so under numeric equality the meaning is kept whenever the literals fit and that can be read off the schema |
| SchemaLiterals.NormalizeTwice | src/protocol.rs:1967-2075 | normalising twice equals normalising once, for every schema |
| RewrittenSchemas.EveryLiteralFits | src/protocol.rs:1967-2047 | wherever one gets to within 32 steps through named, listed or single subschemas of the rewritten schema, no `enum` literal and no `const` lies outside the types declared there |
| RewrittenSchemas.EverythingElseStays | src/protocol.rs:1967-2047 | the same paths lead somewhere before and after; at each of the first 32 steps only `enum` literals that do not fit, an `enum` without any that fits, and a `const` that does not fit are gone, the kept literals in order; whatever lies deeper is as it was |
| RewrittenSchemas.AtRewritten | src/protocol.rs:1996-2047 | whatever a path leads to in the declared schema, it leads to its rewriting, with the depth counted on |
| RewrittenSchemas.FitsIff | src/protocol.rs:2056-2075 | the classification of literals, type by type: an integer fits `integer` or `number`, another number only `number` |
| SchemaLiterals.LiteralSchemaSameIff | src/protocol.rs:1967-2075 | for a schema of a type, an `enum` and a `const`, and equality as the code has it, the meaning is kept if and only if every typed literal fits |
| SchemaLiterals.LiteralSchemaKeptIff | src/protocol.rs:1967-2075 | for such a schema and every equality of values the meaning is kept if and only if: without a `const`, the `enum` keeps a literal and is covered; a fitting `const` is admitted by the kept literals exactly if it was by all of them; a misfitting `const` equals everything the `enum` keeps |
| SchemaLiterals.NumericLiteralSchemaSameIff | src/protocol.rs:1967-2075 | with numbers compared by value and no `const`: if and only if the `enum` keeps a literal and each whole double in an integer `enum` has its integer beside it |
| SchemaLiterals.EqualitiesOfValues | src/protocol.rs:2064-2075 | structural equality and numeric equality both fall under these theorems |
| SchemaLiterals.MismatchedConstIsForgotten | src/protocol.rs:1967-2047 | a `const` of the wrong type is dropped and the schema then accepts what it rejected |
| SchemaLiterals.NumericEqualityIsNotKept | src/protocol.rs:2056-2075 | if 1.0 and 1 count as the same literal, filtering an integer `enum` loses a value, because 1.0 is classified as a number only |
| ObjectRoot.RefFollowsPath | src/protocol.rs:2201-2217 | a local reference whose keys are escaped as RFC 6901 says finds exactly what its path names, with slashes and tildes in keys |
| ObjectRoot.BranchCollector.Collect | src/protocol.rs:2161-2199 | the recursion that fills the mutable sets collects the reference's branches, in order, following each reference once |
| ObjectRoot.OnlyLastIsRoot | src/protocol.rs:2161-2199 | every collected branch is an object schema without a reference, and only the last can be the root itself |
| ObjectRoot.CyclicReferenceEnds | src/protocol.rs:2161-2217 | references that only lead to each other, in cycles of any length, contribute no branch, and only they are marked as seen |
| ObjectRoot.ReferenceIsFollowedOnce | src/protocol.rs:2172-2180 | whatever lies behind a reference is collected once: every later visit, at any depth, contributes nothing |
| ObjectRoot.SelfReferenceEnds | src/protocol.rs:2172-2217 | a definition that is a reference to itself is followed exactly once |
| ObjectRoot.MergeProperties | src/protocol.rs:2092-2112 | property names are the union over root and branches; the root's definition wins, then the earliest branch's |
| ObjectRoot.MergeRequired | src/protocol.rs:2097-2126 | a name is required if and only if the root requires it, or there are branches below the root and all of them require it |
| ObjectRoot.CollectsReachable | src/protocol.rs:2161-2217 | exactly the object schemas that a walk through `anyOf`, `oneOf`, `allOf` and unseen local references reaches are collected, as long as no walk that follows each reference once is longer than the limit; recursive definitions included |
| ObjectRoot.CollectsOnlyReached | src/protocol.rs:2161-2217 | nothing else is ever collected or marked as seen, however deep the schema |
| ObjectRoot.ReferenceIsCollected | src/protocol.rs:2172-2180 | the object schema behind an unseen reference is collected |
| ObjectRoot.ReferenceIsLostAtLimit | src/protocol.rs:2169-2180 | a reference met only at the limit is lost there and at every later visit, which is why the depth matters |
| ObjectRoot.ObjectRootToolSchema | src/protocol.rs:2087-2153 | the result is a plain object root with that union of properties and that required set, keeping the definitions and the description |
| ObjectRoot.MergesWhatIsBeneath | src/protocol.rs:2087-2217 | in terms of the declared schema: the plain root has exactly the property names of the root and of the object schemas below it, through unions and references, and requires exactly what the root requires or all of those require, when walks have at most eight steps |
| ObjectRoot.ProviderToolSchema | src/protocol.rs:1959-1965 | whatever was declared, the provider sees no union and no nullable object at the root; a schema without one is only normalised |
| RootAcceptance.PlainRootAccepts | src/protocol.rs:2087-2153 | if the union guards every property of the plain root (each alternative defines it the same way, closes it out, or an `allOf` part or a reference does), demands every required name, and pattern properties are not lost, then the plain root accepts every object the union accepted |
| RootAcceptance.ProviderSchemaAccepts | src/protocol.rs:1959-2153 | the same for both rewrites together: every object the declared schema accepts is accepted by the schema the provider sees |
| RootAcceptance.UnionValueIsLost | src/protocol.rs:2103-2112 | without that condition it fails: a union of `a: string` and `b: integer` accepts `{"b": "x"}` and every plain root made from it refuses it, although no name is defined twice |
| RootAcceptance.PatternValueIsLost | src/protocol.rs:2127-2153 | a nullable root that is closed except for `patternProperties` loses the patterns and the values that met them |
| RootAcceptance.KeywordsCanBeKnown | src/protocol.rs:2087-2153 | the meaning of `required` and `$ref` that these theorems ask for is consistent |
| Numbers.CanonicalizeIntegerValuedNumbers | src/protocol.rs:1034-1053 | the walk over arrays and objects canonicalises the number at every depth |
| Numbers.IntegerValuedExactly | src/protocol.rs:1055-1071 | among the doubles from -2^63 up to 2^63 exactly the whole ones become that integer; outside nothing changes; 2^63 itself becomes 2^63 - 1 |
| Numbers.CanonicalKeepsNumbers | src/protocol.rs:1034-1071 | no number at any depth changes its value and no double holding a 64-bit integer remains, unless a number is the double 2^63 |
| Numbers.CanonicalKeepsNumbersIff | src/protocol.rs:1034-1071 | every number of a value keeps its exact value if and only if none, at any depth, is the double 2^63 |
| Numbers.CanonicalIsIdempotent | src/protocol.rs:1034-1071 | canonicalising again changes nothing, for every value |
| Numbers.LargestExceptionChanges | src/protocol.rs:1055-1071 | the double 2^63 does change its value |
| Base64.AcceptsExactlyEncodings | src/protocol.rs:1440-1484 | the recogniser accepts a text if and only if it is the RFC 4648 encoding of some non-empty bytes, with its padding or with all of it stripped |
| Base64.EncodingIsInjective | src/protocol.rs:1440-1484 | no two byte sequences share an accepted text |
| Base64.ValidByContent | src/protocol.rs:1440-1473 | the recogniser in terms of content, unused bits and the number of padding characters |
| PickerConfig.FindInsertion | src/lifecycle.rs:1449-1457 | the scan over lines finds the reference's insertion point |
| PickerConfig.InsertionIsFirstHeader | src/lifecycle.rs:1449-1457 | that point is the start of the first line whose first non-blank character is `[`, or the end of the text; a line inside a multi-line value can be that line |
| PickerConfig.RenderPickerConfig | src/lifecycle.rs:1420-1464 | inserts or replaces the block as the reference does; refuses a text with unpaired or repeated markers |
| PickerConfig.OneMarker | src/lifecycle.rs:1420-1475 | in a marker-free text with a block a marker occurs exactly where the block puts it, and across no seam |
| PickerConfig.RenderInsertsOneBlock | src/lifecycle.rs:1420-1464 | rendering into a marker-free text inserts exactly the block before the first line that starts with `[` and leaves one begin and one end marker |
| PickerConfig.RerenderReplacesOnlyBlock | src/lifecycle.rs:1436-1448 | rendering again with any other address, path or capability is as if the first rendering never was |
| PickerConfig.EraseRestores | src/lifecycle.rs:1420-1475 | after any number of renderings, erasing the block gives the source back |
| PickerSettings.SettingsAreRead | src/lifecycle.rs:1426-1429 | read as lines and quoted strings, the block sets `model_provider` and `model_catalog_json` at the top level to the picker's provider and the catalog's path, and then, in the provider's table, `base_url` to the bridge's address and the header to the capability |
| PickerSettings.ReadsBack | src/lifecycle.rs:1427-1429 | an escaped string reads back as itself, up to its closing quote |
| ManagedFiles.Disk.AtomicWrite | src/lifecycle.rs:2482-2490 | a write happens completely or not at all |
| ManagedFiles.Disk.WriteNew | src/lifecycle.rs:2462-2476 | a new file never replaces one; a failure may leave part of it under the new name only |
| ManagedFiles.Disk.RestoreOptional | src/lifecycle.rs:1520-1534 | puts back what was read, or removes what was not there |
| ManagedFiles.RestoreShrinks | src/lifecycle.rs:1520-1534 | a compensating write makes its path equal to the entry again and touches no other |
| PickerLifecycle.PreparePickerConfig | src/lifecycle.rs:1197-1308 | a matching configuration carries its receipt; a rewritten one gets a new backup and supersedes the old receipt; a first one is backed up or noted as absent; a refusal leaves at most an unreferenced backup |
| PickerLifecycle.PlanHonoursReceipt | src/lifecycle.rs:1204-1304 | the receipt a plan hands to the new state names a backup that exists with its bytes and is not the one to be removed |
| PickerLifecycle.Finish | src/lifecycle.rs:1176-1186 | removes the superseded backup, and only it |
| PickerLifecycle.Abort | src/lifecycle.rs:1188-1194 | removes the new backup, and only it |
| PickerLifecycle.PublishInstall | src/lifecycle.rs:512-541 | if one of the four writes fails and the compensating writes succeed, all files have their entry bytes and modes, except that a new backup that cannot be removed stays; otherwise all are published; at every step the backup named by the state on disk exists |
| PickerLifecycle.PublishSync | src/lifecycle.rs:698-752 | the same for a synchronisation that writes only what changed and compensates only what it wrote |
| PickerLifecycle.Unwind | src/lifecycle.rs:711-749 | compensating what was written, newest first, gives the entry files back |
| PickerLifecycle.InstallPicker | src/lifecycle.rs:390-556 | unless a compensating write fails, after another failure, the call publishes everything, or changes nothing but a spare backup, or leaves only the replaced backup behind; it is refused only for a reason on disk or in its inputs; whatever fails, every single step keeps the backup named by the published state and leaves the disk as before, at a moment of this publication, or with a spare backup |
| PickerLifecycle.SyncInstalledPickerCatalog | src/lifecycle.rs:558-761 | the same for a synchronisation, which does nothing without a managed state and demands that the state identifies catalog and route |
| PickerLifecycle.DoneDelivers | src/lifecycle.rs:489-541 | after an install or a synchronisation that succeeds, the catalog path holds the composed catalog, the route path the composed route, the configuration is the base rendered with the settings, and the state names the Grok catalog, the native file's content and those three files, with the receipt for what was there; no other file but backups changed |
| PickerUninstall.RollbackPickerConfig | src/lifecycle.rs:910-1002 | an exact match restores the recorded bytes and mode or the absence; a rewritten configuration loses only the picker's keys; the receipt's backup goes last |
| PickerUninstall.Compensate | src/lifecycle.rs:821-841 | putting back removed artifacts, configuration and backup gives exactly the entry files |
| PickerUninstall.RemoveArtifacts | src/lifecycle.rs:816-848 | all three removals happen, or the first that fails is undone completely |
| PickerUninstall.UninstallPicker | src/lifecycle.rs:792-851 | unless a compensating write fails, the uninstall succeeds completely or changes nothing, except that a backup that cannot be removed leaves the configuration already restored |
| PickerUninstall.DoneUninstalls | src/lifecycle.rs:792-1002 | after an uninstall that succeeds the recorded configuration is back with its mode, or there is none, or a rewritten one has lost the picker's keys; catalog, route, state and backup are gone and were the recorded ones; every other file is as before |
| LifecycleRuns.RunKeepsSound | src/lifecycle.rs:504-541 | over every run of installs, synchronisations, uninstalls, native-catalog refreshes and configuration edits, with operations failing anywhere but in a compensating write, a managed state on disk identifies exactly the catalog and route bytes on disk and a backup that is there |
| LifecycleRuns.ActKeepsSound | src/lifecycle.rs:698-752 | every single call and outside step keeps that |
| LifecycleRuns.PlanKeeps | src/lifecycle.rs:1204-1304 | while only the bridge edits the configuration, a plan begins with the original or carries its receipt, and never supersedes it |
| LifecycleRuns.RunKeepsOriginal | src/lifecycle.rs:1204-1227 | at every point of a bridge-only run the original is in place, or a receipt for it is |
| LifecycleRuns.UninstallRestoresFirstConfig | src/lifecycle.rs:910-993 | after any number of installs, synchronisations and uninstalls, a successful uninstall leaves the first configuration byte for byte with its mode, or its absence |
| LifecycleRuns.ManagedConfigErasesToOriginal | src/lifecycle.rs:1420-1475 | throughout such a run the managed configuration is the original text with one block: erasing the block gives the original |
| LifecycleRuns.UninstallIsUndoneIff | src/lifecycle.rs:812-848 | told from the disk before the call: every failed uninstall of a managed configuration changes nothing if and only if the receipt says the picker created the configuration, or the native catalog is gone |
| LifecycleRuns.FailedUninstallIsUndoneIff | src/lifecycle.rs:812-848 | told from its outcome: a failed uninstall is undone unless the failing operation was the removal of the backup; then only the configuration is back |
| LifecycleRuns.UninstallIsNeverRefused | src/lifecycle.rs:853-870 | while the native catalog can be read, only a failing operation stops an uninstall |
| LifecycleRuns.HalfUninstalledIsFinal | src/lifecycle.rs:1310-1346 | after that exception every later call fails and the restored configuration is never touched again |
| LifecycleRuns.BackupLeftBehind | src/lifecycle.rs:973-993 | a concrete uninstall that ends there |
| StoppedCalls.LaterCallIsPlannedIff | src/lifecycle.rs:504-541 | wherever an install or a synchronisation stops, a later call has a plan, except after the write of the configuration and before that of the state: there it has one if and only if the old state already claims that text or the picker's keys can be taken out of it |
| StoppedCalls.HalfInstalledIsStuck | src/lifecycle.rs:1254-1269 | a first install that stops there cannot be repeated or undone by the bridge: every later install fails, and synchronisations and uninstalls report that nothing is installed |
| StoppedCalls.PointCases | src/lifecycle.rs:512-541 | at every such point configuration and state are both as before, or the configuration is new and the state old, or both are new |
| RenewalGate.RunKeepsInv | src/credential.rs:102-180 | every interleaving of any number of threads keeps mutual exclusion, leadership, counting and sleeping invariants |
| RenewalGate.InFlightMeansOneLeader | src/credential.rs:119-160 | `in_flight` holds if and only if one thread, and only one, is in the leader section |
| RenewalGate.LaunchesAreCounted | src/credential.rs:145-180 | helper launches equal completed generations plus the one in progress |
| RenewalGate.JoinersNeverLaunch | src/credential.rs:119-143 | a caller that joined a renewal in flight never launches a helper, and no caller launches two |
| RenewalGate.NoLostWakeup | src/credential.rs:119-159 | whenever the gate is unlocked, a sleeping thread waits for a renewal that still has its leader |
| RenewalGate.SomeoneCanMove | src/credential.rs:102-180 | until all callers have returned, one of them can move without a timeout: the gate never deadlocks |
| RenewalGate.HelperIff | src/credential.rs:116-165 | in every run a caller is elected, about to launch a helper, or has launched one if and only if at an earlier step it held the gate and found `in_flight` false |
| RenewalGate.HelpersAreFreeDecisions | src/credential.rs:116-165 | helpers launched, plus a leader that has not launched yet, equal the number of such decisions: a second helper means a second caller that found no renewal in flight |
| RenewalGate.LatecomerLaunchesAgain | src/credential.rs:102-160 | a concrete run in which a caller that failed before a renewal ended, and reaches the gate after it, launches a second helper |
| RenewalOutcomes.ReturnsWhatItLoaded | src/credential.rs:102-199 | in every run a caller gets a credential back if and only if one of its own loads gave it; otherwise the last thing it was told is a load that gave none, a passed deadline or a timed-out wait |
| RenewalOutcomes.NothingAfterTheEnd | src/credential.rs:106-199 | after a credential, a fatal load, a passed deadline or a timed-out wait a thread asks for nothing more |
| RenewalOutcomes.SettledAtOnce | src/credential.rs:107-112 | a caller whose first load gives a credential or a fatal error never holds the gate, joins no renewal and launches no helper |
| RenewalOutcomes.JoinersWaitForTheRenewal | src/credential.rs:119-143 | whoever joins a renewal loads again, and returns a credential, only after that renewal was completed |
| RenewalOutcomes.EveryRunIsPlayed | src/credential.rs:102-199 | every run is one of those with a mover and a word for each step |
| Catalog.NativeSlugs | src/picker.rs:150-158 | the native rows are taken if and only if there are some, each is valid and no slug repeats; the refusal names an offending row |
| Catalog.GeneratePickerCatalog | src/picker.rs:123-183 | a catalog is generated if and only if overlay, native rows and admitted identifiers fit; it is the native rows, unchanged, followed by one row per sorted identifier with priorities from 1000 |
| Catalog.GenerateNativeCompatibilityCatalog | src/picker.rs:189-221 | the compatibility catalog is the native rows alone |
| Catalog.GeneratedPickerCatalog.WithHiddenGrokCompatibility | src/picker.rs:58-106 | adds a hidden copy of the fallback row for each admitted identifier, or refuses and changes nothing |
| Catalog.SortedSorts | src/picker.rs:161-162 | sorting keeps the elements and orders them |
| Catalog.StrictIsUnique | src/picker.rs:161-162 | a strictly sorted list is determined by its set of elements |
| Catalog.OrderIsIrrelevant | src/picker.rs:161-175 | the appended rows depend only on the set of admitted identifiers |
| Catalog.PublishedRows | src/picker.rs:150-183 | native rows are an unchanged prefix, appended slugs and priorities strictly increase, all slugs are distinct, every row is valid, and exactly the admitted identifiers were appended, each selectable under its own name and with the overlay as instructions |
| Catalog.HiddenRowsOnlyResolve | src/picker.rs:58-106 | every saved identifier resolves to a hidden row that differs from the fallback only in name, description and visibility; nothing new can be picked |
| Catalog.Contains | src/native.rs:147-151 | halving a strictly sorted list finds an element if and only if it is there |
| Catalog.Validate | src/native.rs:166-191 | a route is valid if and only if its version is right, its names are well-formed, not empty and strictly sorted, and the fallback is among them |
| Catalog.NewRoute | src/native.rs:85-116 | a route is made if and only if the models are distinct, well-formed and not empty and include the fallback; it lists exactly them |
| Catalog.AppendedSlugs | src/picker.rs:84-101 | listed or hidden, the appended rows carry exactly the sorted identifiers |
| Catalog.RouteSeparatesRows | src/native.rs:147-151 | a route that lists the native slugs contains the slug of a native row and of no appended row, listed or hidden |
| Catalog.PublishAndAsk | src/picker.rs:123-183 | generating a catalog, building the route from its native slugs and searching it for every published row answers yes exactly for the native rows; all three steps succeed if and only if the inputs fit and the native slugs are well-formed |
| Catalog.PublishHiddenAndAsk | src/picker.rs:58-106 | the same for the compatibility catalog with its hidden rows and fallback |
| NativeRetry.PostWithStarted | src/native.rs:245-361 | for every behaviour of upstream and clock the rounds obey the retry rules: a round sleeps exactly when its answer may be retried and the pause ends by 60 s, for the Retry-After or backoff time; the reply is the last answer or the passed deadline; the loop ends |
| NativeRetry.SendsAreBounded | src/native.rs:262-265 | one call that starts at count a sends at most max(1, 4 - a) times |
| NativeRetry.DeadlineIsKept | src/native.rs:266-268 | no send begins and no pause ends after 60 s, the backoff table is never exceeded, and a printed Retry-After of a transient answer is slept if and only if it fits |
| NativeRetry.RetriedAnswers | src/native.rs:273-382 | only 429, 502, 503, 504 and retryable transport errors are retried, at most three times, after the header's seconds or else 1, 2 and 4 s, and only if the pause ends by 60 s |
| NativeRetry.PrintedSecondsAreObeyed | src/native.rs:393-400 | the header with a decimal number of seconds, with blanks around it, gives exactly that pause if it fits 64 bits and the default otherwise |
| NativeRetry.SharedBudget | src/native.rs:251-265 | any calls that hand the counter on send at most once each and three times more in total |
| NativeRetry.NativeResponseStarted | src/server.rs:800-900 | a request that retries after a failed body shares counter and deadline: all its calls together send at most four times, none of them after 60 s; what is served fits the last answer |
| EventStream.TextStreamValidator.AcceptValue | src/protocol.rs:2891-3066 | an admitted event updates state, sequence and first identifier as the reference does; a refused one changes nothing |
| EventStream.TextStreamValidator.SyntheticCompletedOnEof | src/protocol.rs:2844-2871 | a completion is supplied only after a non-terminal last event, and is then recorded as the end |
| EventStream.ValidatedTextEventStream.PollNext | src/grok.rs:298-352 | each poll hands on the next thing the whole run hands on: blank data is skipped, the first error is the last item, and after the end every poll says so |
| EventStream.Drain | src/grok.rs:298-352 | polling until the end hands on exactly the whole run |
| EventStream.ErrorFreeRunIsComplete | src/grok.rs:298-352 | an error-free run forwards every non-blank event once, in order and restored; with at least one it ends in a terminal event; a completion is supplied if and only if the last event was not terminal, with the first identifier seen or a fresh one and the next sequence number; without events nothing is handed on |
| EventStream.SequenceNumbers | src/protocol.rs:2844-2903 | each forwarded event has the `sequence_number` of its text, or follows the event before it; the supplied completion, in its JSON too, follows the last event and stays at 2^64 - 1 |
| EventStream.ForwardedCarry | src/protocol.rs:3071-3133 | every forwarded lifecycle event names its response and becomes the kind its type says; every delta names its item and carries its text |
| EventStream.CompletionsOfRun | src/grok.rs:298-352 | an error-free run hands on as many completions as the upstream sent, and one more if and only if its last event was not terminal |
| EventStream.AtMostOneCompletionIff | src/protocol.rs:2844-2871 | so at most one is handed on if and only if the upstream sent none, or sent one and ended with a terminal event |
| EventStream.TwoCompletions | src/grok.rs:298-352 | a concrete upstream that repeats its completion: both are handed on |
| EventStream.NothingFollowsAnError | src/grok.rs:314-333 | an error is the last thing handed on, after everything accepted before it, and nothing is supplied |
| EventStream.FirstIdPush | src/protocol.rs:2932-2935 | the first non-empty identifier is kept when later events carry others |
| EventStream.SseEofBoundaryStream.PollNext | src/grok.rs:262-289 | chunks pass through; a clean end is followed by one empty line, an error by nothing |
| EventStream.NoErrorCloses | src/grok.rs:262-289 | without an error the bytes are the upstream's bytes and one empty line |
| EventStream.FirstErrorCloses | src/grok.rs:262-289 | with an error they stop at the first one |

## Left out

- HTTP clients and servers, asynchronous scheduling, launch agents, the command line, shell scripts and the desktop launcher: plumbing around the modelled logic.
- The text of JSON and TOML, SHA-256, UUIDs and the event-stream parser: parsed values, injective digests and fresh names stand for them. A managed state on disk is its parsed value.
- Removing the picker's keys from a configuration that another program rewrote (src/lifecycle.rs:1310-1359): a parameter, except that it refuses a text that does not claim the keys. Claims about the original configuration are for runs in which only the bridge edits it.
- AtomicWrite: `sync_parent` failing after a rename is not modelled, here or after a removal: both are all or nothing.
- Read errors, size limits, symbolic links and owner checks: reads are exact, and early refusals are one input of a call.
- RunKeepsSound, RunKeepsOriginal: a call in which a compensating write fails is not a step of a run; such a call may leave some files published and others not.
- InstallPicker, SyncInstalledPickerCatalog: the generated catalog and route bytes are parameters of the call; `Catalog.dfy` models their generation separately. Nothing is claimed about unreferenced backups, which early errors may leave behind.
- UninstallPicker: when several compensating writes fail, their messages are not modelled; that one failed is.
- Reading the fields of single history items and tools: an item is known, namespaced, of unknown type or broken; a tool specification is supported or not. Which of several errors of one request is reported first is not modelled where the result does not depend on it.
- RewriteKeepsMeaning: `unevaluatedProperties` and `unevaluatedItems`, which depend on which other subschemas matched, are not covered. `$ref` is not interpreted by the acceptance relation; it is one of the keywords the rewrite never touches. The other half of the equivalence is proved for schemas of literals only, because a nested misfit can be hidden by its context. Integers have no upper bound in the values a schema accepts.
- ObjectRootToolSchema, ProviderToolSchema: their contracts are about the shape of the root. The plain root need not accept every object the union accepted (`UnionValueIsLost`, `PatternValueIsLost`); `PlainRootAccepts` gives a condition under which it does. The condition is sufficient only: another property schema may accept the same values without being the same. Values that are no objects, `null` among them, are refused by design.
- HalfInstalledIsStuck, LaterCallIsPlannedIff: a process that stops inside an uninstall is not covered.
- SyncInstalledPickerCatalog: a state that names another configuration path is refused here, while the code follows that path (src/lifecycle.rs:617). No install produces such a state.
- RouteSeparatesRows: that the route lists the native slugs is a hypothesis here; `PublishAndAsk` and `PublishHiddenAndAsk` build the route and search it.
- CanonicalKeepsNumbers: doubles are rationals with a 53-bit significand of any exponent; NaN and infinities do not occur in JSON.
- PickerConfig: Rust's debug escapes for control and unprintable characters are not modelled beyond quotes, backslashes, tabs and line breaks.
- RenewalGate: time is a free choice of each step, so the grace period bounds nothing here; the poisoning of a lock is not modelled. One helper per expiry is not claimed: `LatecomerLaunchesAgain` shows a run with two, and `HelpersAreFreeDecisions` counts them in every run.
- AcceptValue: the payload of events other than the three terminal kinds is forwarded but not split into its fields. Restoring tool names inside an event is a parameter. The validator accepts events after a terminal one, so a second completion can be handed on; `AtMostOneCompletionIff` says when.
- GeneratePickerCatalog: of a native row the fields beside slug, name, description, visibility, priority and instructions count only as well-formed or not.
- PostWithStarted: the headers sent, the request body and the logging are left out; a status is a number.
- `src/desktop_transition.rs`, `src/picker_activation.rs`, `src/launchd.rs`, `src/config.rs`, `src/cli.rs` and the doctor checks: straight-line checks that would only add easy members.
