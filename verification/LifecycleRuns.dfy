/**
Whole runs of the picker lifecycle: installs, synchronisations and uninstalls in any order,
with operations failing anywhere except in a compensation, interleaved with the outside world refreshing the
native catalog or rewriting the configuration.
*/
module LifecycleRuns {
  import opened Outcomes
  import opened ManagedFiles
  import opened PickerConfig
  import opened PickerLifecycle
  import opened PickerUninstall

  datatype Command =
    | Install(native: Path, inputs: Inputs, spare: Path)
    | Sync(inputs: Inputs, spare: Path)
    | Uninstall(toml: Toml)
    | Refresh(name: string, file: Option<File>)
    | Edit(file: Option<File>)

  ghost predicate Act(before: Files, after: Files, c: Command, report: Report) {
    match c
    case Install(native, inputs, spare) =>
      FreshName(before, spare) && InstallStep(before, after, native, inputs, spare, report)
    case Sync(inputs, spare) => FreshName(before, spare) && SyncStep(before, after, inputs, spare, report)
    case Uninstall(toml) => UninstallStep(before, after, toml, report)
    case Refresh(name, file) => after == Set(before, Outside(name), file) && report.Done?
    case Edit(file) => after == Set(before, Config, file) && report.Done?
  }

  ghost predicate Run(states: seq<Files>, steps: seq<(Command, Report)>) {
    |states| == |steps| + 1
    && forall i :: 0 <= i < |steps| ==> Act(states[i], states[i + 1], steps[i].0, steps[i].1)
  }

  // ---------------------------------------------------------------------
  // The state on disk never lies
  // ---------------------------------------------------------------------

  /**
  There is no managed state, or a valid one that identifies exactly the catalog and route
  bytes on disk and a backup that is there with its recorded bytes.
  */
  ghost predicate Sound(files: Files) {
    match ReadState(files)
    case Err(_) => false
    case Ok(None) => true
    case Ok(Some(s)) => Linked(files, s) && s.config.path == Config && RollbackHeld(files, s.rollback)
  }

  lemma SoundIsHeld(files: Files)
    requires Sound(files)
    ensures BackupHeld(files)
  {
    hide Valid;
  }

  /** Only catalog, route, state and the named backup matter. */
  lemma SoundAside(before: Files, after: Files)
    requires Sound(before)
    requires forall p :: p in before && (p in {Generated, Route, State} || p.Backup?) ==>
      p in after && after[p] == before[p]
    requires State in after ==> State in before
    ensures Sound(after)
    ensures ReadState(after) == ReadState(before)
  {
    hide Valid;
  }

  lemma SoundSpare(before: Files, after: Files, spare: Path)
    requires Sound(before) && SpareOnly(before, after, spare) && spare.Backup?
    ensures Sound(after) && ReadState(after) == ReadState(before)
  {
    if after != before {
      assert forall p :: p in before ==> p in after - {spare};
      assert State in after ==> State in after - {spare};
    }
    SoundAside(before, after);
  }

  lemma TargetState(before: Files, prior: Option<ManagedState>, native: Path, inputs: Inputs, spare: Path, mode: Mode)
    requires native in before && Goal(before, prior, native, inputs, spare).Some?
    requires PlannedFrom(before, Goal(before, prior, native, inputs, spare).value.0)
    ensures var (plan, d) := Goal(before, prior, native, inputs, spare).value;
            var target := Target(before, plan, d, mode);
            && Valid(d.state) && d.state.config == Identity(Config, d.config) && d.state.rollback == plan.rollback
            && ReadState(target) == Ok(Some(d.state)) && Linked(target, d.state)
            && ReadState(Settled(target, plan)) == Ok(Some(d.state)) && Linked(Settled(target, plan), d.state)
  {
    hide PlanOf, Valid, Render;
  }

  lemma TargetHeld(before: Files, plan: Plan, d: Draft, mode: Mode)
    requires PlannedFrom(before, plan) && Receipted(before, plan, d)
    ensures RollbackHeld(Target(before, plan, d, mode), d.state.rollback)
    ensures RollbackHeld(Settled(Target(before, plan, d, mode), plan), d.state.rollback)
  {
  }

  lemma PublishedSound(
      before: Files, after: Files, prior: Option<ManagedState>, native: Path, inputs: Inputs, spare: Path, sync: bool,
      report: Report)
    requires Sound(before) && ReadState(before) == Ok(prior) && FreshName(before, spare)
    requires Published(before, after, prior, native, inputs, spare, sync, report)
    ensures Sound(after)
  {
    hide Goal, ReadState, Target, Settled, Valid, PlannedFrom, Receipted, RollbackHeld, SpareOnly, Linked;
    if SpareOnly(before, after, spare) {
      SoundSpare(before, after, spare);
    } else if after != before {
      SoundIsHeld(before);
      GoalIsPlanned(before, prior, native, inputs, spare);
      var (plan, d) := Goal(before, prior, native, inputs, spare).value;
      var mode := if sync then SyncedMode(plan, d) else PRIVATE;
      TargetState(before, prior, native, inputs, spare, mode);
      TargetHeld(before, plan, d, mode);
    }
  }

  lemma UninstalledSound(before: Files, after: Files, toml: Toml, report: Report)
    requires Sound(before) && UninstallStep(before, after, toml, report)
    ensures Sound(after)
  {
    hide ConfigAfter, Valid;
    if report.Done? {
      assert State !in after;
    } else if after != before {
      SoundAside(before, after);
    }
  }

  /** Every step keeps the state honest. */
  lemma ActKeepsSound(before: Files, after: Files, c: Command, report: Report)
    requires Sound(before) && Act(before, after, c, report)
    ensures Sound(after)
  {
    hide Sound, Published, UninstallStep, Goal, FreshName, ReadState, Linked;
    match c
    case Install(native, inputs, spare) =>
      if ReadState(before).Ok? {
        PublishedSound(before, after, ReadState(before).value, native, inputs, spare, false, report);
      }
    case Sync(inputs, spare) =>
      if ReadState(before).Ok? && ReadState(before).value.Some? {
        var s := ReadState(before).value.value;
        PublishedSound(before, after, Some(s), s.native.path, inputs, spare, true, report);
      }
    case Uninstall(toml) => UninstalledSound(before, after, toml, report);
    case Refresh(_, _) => SoundAside(before, after);
    case Edit(_) => SoundAside(before, after);
  }

  /** In every run, a managed state on disk identifies exactly the published bytes. */
  lemma {:induction false} RunKeepsSound(states: seq<Files>, steps: seq<(Command, Report)>, i: nat)
    requires Run(states, steps) && Sound(states[0]) && i < |states|
    ensures Sound(states[i])
    decreases i
  {
    hide Sound, Act;
    if i > 0 {
      RunKeepsSound(states, steps, i - 1);
      ActKeepsSound(states[i - 1], states[i], steps[i - 1].0, steps[i - 1].1);
    }
  }

  // ---------------------------------------------------------------------
  // The first configuration is never lost
  // ---------------------------------------------------------------------

  ghost predicate ConfigIs(files: Files, original: Option<File>) {
    if original.Some? then Config in files && files[Config] == original.value else Config !in files
  }

  /** A configuration the picker may take over: plain text without markers and without a key the picker owns. */
  ghost predicate Untouched(original: Option<File>, claims: string -> Option<bool>) {
    original.Some? ==>
      original.value.content.Text? && AcceptedMode(original.value.mode)
      && claims(original.value.content.text) == Some(false) && MarkerCount(original.value.content.text) == 0
  }

  /** The receipt that leads back to the original. */
  ghost predicate ReceiptFor(files: Files, s: ManagedState, original: Option<File>) {
    match original
    case None => s.rollback.RemoveCreated?
    case Some(f) =>
      && s.rollback.RestoreExactBackup? && s.rollback.originalMode == f.mode && s.rollback.backup.content == f.content
      && s.rollback.backup.path in files && files[s.rollback.backup.path] == File(f.content, PRIVATE)
  }

  /** The configuration is the one the picker wrote. */
  ghost predicate ConfigManaged(files: Files, s: ManagedState) {
    Config in files && files[Config].content == s.config.content && AcceptedMode(files[Config].mode)
  }

  ghost predicate PrivateArtifacts(files: Files) {
    Generated in files && files[Generated].mode == PRIVATE && Route in files && files[Route].mode == PRIVATE
  }

  /**
  Where a run that leaves the configuration to the bridge can be: not installed, with the
  original in place; installed, with a receipt for the original; or half uninstalled, with the
  original already back but state and receipt still there.
  */
  ghost predicate Kept(files: Files, original: Option<File>, claims: string -> Option<bool>) {
    && Sound(files)
    && match ReadState(files)
       case Err(_) => false
       case Ok(None) => ConfigIs(files, original)
       case Ok(Some(s)) =>
         && Untouched(original, claims) && ReceiptFor(files, s, original) && PrivateArtifacts(files)
         && (ConfigManaged(files, s) || (original.Some? && ConfigIs(files, original)))
  }

  /** Commands of the bridge and refreshes of the native catalog, all with the same TOML library. */
  ghost predicate BridgeOnly(c: Command, claims: string -> Option<bool>) {
    match c
    case Install(_, inputs, _) => inputs.toml.claims == claims
    case Sync(inputs, _) => inputs.toml.claims == claims
    case Uninstall(toml) => toml.claims == claims
    case Refresh(_, _) => true
    case Edit(_) => false
  }

  lemma KeptAside(before: Files, after: Files, original: Option<File>, claims: string -> Option<bool>)
    requires Kept(before, original, claims)
    requires forall p :: p in before && (p in {Generated, Route, State, Config} || p.Backup?) ==>
      p in after && after[p] == before[p]
    requires State in after ==> State in before
    requires Config in after ==> Config in before
    ensures Kept(after, original, claims)
  {
    hide Valid;
    SoundAside(before, after);
  }

  lemma KeptSpare(before: Files, after: Files, spare: Path, original: Option<File>, claims: string -> Option<bool>)
    requires Kept(before, original, claims) && SpareOnly(before, after, spare) && spare.Backup?
    ensures Kept(after, original, claims)
  {
    hide Kept;
    if after != before {
      assert forall p :: p in before ==> p in after - {spare};
      assert State in after ==> State in after - {spare};
      assert Config in after ==> Config in after - {spare};
      KeptAside(before, after, original, claims);
    }
  }

  /** In a kept state a plan either begins with the original or carries its receipt. */
  lemma PlanKeeps(
      before: Files, prior: Option<ManagedState>, toml: Toml, spare: Path, original: Option<File>,
      claims: string -> Option<bool>)
    requires Kept(before, original, claims) && ReadState(before) == Ok(prior) && toml.claims == claims
    requires PlanOf(before, prior, toml, spare).Some?
    ensures var plan := PlanOf(before, prior, toml, spare).value;
            && Untouched(original, claims) && plan.superseded.None?
            && (match original
                case None => plan.rollback.RemoveCreated?
                case Some(f) =>
                  && plan.rollback.RestoreExactBackup? && plan.rollback.originalMode == f.mode
                  && plan.rollback.backup.content == f.content
                  && plan.rollback.backup.path in Backed(before, plan)
                  && Backed(before, plan)[plan.rollback.backup.path] == File(f.content, PRIVATE))
            && AcceptedMode(plan.previousMode)
  {
    hide MarkerCount, Count, Sound;
  }

  lemma TargetKept(
      before: Files, prior: Option<ManagedState>, native: Path, inputs: Inputs, spare: Path, mode: Mode,
      original: Option<File>, claims: string -> Option<bool>)
    requires Kept(before, original, claims) && ReadState(before) == Ok(prior) && inputs.toml.claims == claims
    requires native in before && Goal(before, prior, native, inputs, spare).Some? && FreshName(before, spare)
    requires mode == PRIVATE || mode == Goal(before, prior, native, inputs, spare).value.0.previousMode
    requires var (plan, d) := Goal(before, prior, native, inputs, spare).value;
             Sound(Target(before, plan, d, mode))
    ensures var (plan, d) := Goal(before, prior, native, inputs, spare).value;
            plan.superseded.None? && Kept(Target(before, plan, d, mode), original, claims)
  {
    hide PlanOf, Sound, Valid, PlannedFrom, Render, ReadState, FreshName;
    GoalIsPlanned(before, prior, native, inputs, spare);
    var (plan, d) := Goal(before, prior, native, inputs, spare).value;
    PlanKeeps(before, prior, inputs.toml, spare, original, claims);
    TargetState(before, prior, native, inputs, spare, mode);
    BackupsStay(before, plan, d, mode);
    ValidBackup(d.state);
  }

  lemma ValidBackup(s: ManagedState)
    requires Valid(s)
    ensures s.rollback.RestoreExactBackup? ==> s.rollback.backup.path.Backup? && AcceptedMode(s.rollback.originalMode)
  {
  }

  lemma BackupsStay(before: Files, plan: Plan, d: Draft, mode: Mode)
    requires PlannedFrom(before, plan)
    ensures var target := Target(before, plan, d, mode);
            && (forall p :: p in Backed(before, plan) && p.Backup? ==>
                  p in target && target[p] == Backed(before, plan)[p])
            && Config in target && target[Config] == File(d.config, mode)
            && Generated in target && target[Generated].mode == PRIVATE
            && Route in target && target[Route].mode == PRIVATE
  {
  }

  lemma PublishedKept(
      before: Files, after: Files, prior: Option<ManagedState>, native: Path, inputs: Inputs, spare: Path, sync: bool,
      report: Report, original: Option<File>, claims: string -> Option<bool>)
    requires Kept(before, original, claims) && ReadState(before) == Ok(prior) && FreshName(before, spare)
    requires inputs.toml.claims == claims
    requires Published(before, after, prior, native, inputs, spare, sync, report)
    ensures Kept(after, original, claims)
  {
    hide Goal, ReadState, Target, Valid, PlannedFrom, SpareOnly, Kept, Sound;
    assert Sound(before) by { KeptIsSound(before, original, claims); }
    PublishedSound(before, after, prior, native, inputs, spare, sync, report);
    if SpareOnly(before, after, spare) {
      KeptSpare(before, after, spare, original, claims);
    } else if after != before {
      var (plan, d) := Goal(before, prior, native, inputs, spare).value;
      var mode := if sync then SyncedMode(plan, d) else PRIVATE;
      GoalIsPlanned(before, prior, native, inputs, spare);
      TargetSound(before, prior, native, inputs, spare, mode);
      TargetKept(before, prior, native, inputs, spare, mode, original, claims);
    }
  }

  lemma KeptIsSound(files: Files, original: Option<File>, claims: string -> Option<bool>)
    requires Kept(files, original, claims)
    ensures Sound(files)
  {
  }

  lemma TargetSound(before: Files, prior: Option<ManagedState>, native: Path, inputs: Inputs, spare: Path, mode: Mode)
    requires native in before && Goal(before, prior, native, inputs, spare).Some? && FreshName(before, spare)
    requires Sound(before) && ReadState(before) == Ok(prior)
    ensures var (plan, d) := Goal(before, prior, native, inputs, spare).value; Sound(Target(before, plan, d, mode))
  {
    hide Goal, ReadState, Target, Valid, PlannedFrom, Receipted, Linked, RollbackHeld;
    SoundIsHeld(before);
    GoalIsPlanned(before, prior, native, inputs, spare);
    var (plan, d) := Goal(before, prior, native, inputs, spare).value;
    TargetState(before, prior, native, inputs, spare, mode);
    TargetHeld(before, plan, d, mode);
  }

  /** From a kept state a rollback leads to the original, or is refused because it is already there. */
  lemma RollbackLeadsBack(
      files: Files, s: ManagedState, toml: Toml, original: Option<File>, claims: string -> Option<bool>)
    requires Kept(files, original, claims) && ReadState(files) == Ok(Some(s)) && toml.claims == claims
    ensures ConfigManaged(files, s) ==> ConfigAfter(files, s, toml) == Some(original)
    ensures !ConfigManaged(files, s) ==> ConfigAfter(files, s, toml).None? && ConfigIs(files, original)
  {
    hide Valid, Count;
  }

  lemma UninstalledKept(
      before: Files, after: Files, toml: Toml, report: Report, original: Option<File>, claims: string -> Option<bool>)
    requires Kept(before, original, claims) && toml.claims == claims && UninstallStep(before, after, toml, report)
    ensures Kept(after, original, claims)
    ensures report.Done? ==> State !in after && ConfigIs(after, original)
  {
    hide ConfigAfter, Valid;
    UninstalledSound(before, after, toml, report);
    if ReadState(before).Ok? && ReadState(before).value.Some? {
      var s := ReadState(before).value.value;
      RollbackLeadsBack(before, s, toml, original, claims);
      ValidBackup(s);
    }
  }

  lemma ActKeepsOriginal(
      before: Files, after: Files, c: Command, report: Report, original: Option<File>, claims: string -> Option<bool>)
    requires Kept(before, original, claims) && Act(before, after, c, report) && BridgeOnly(c, claims)
    ensures Kept(after, original, claims)
    ensures c.Uninstall? && report.Done? ==> State !in after && ConfigIs(after, original)
  {
    hide Kept, Published, UninstallStep, Goal, FreshName, ReadState, Linked, ConfigIs;
    match c
    case Install(native, inputs, spare) =>
      if ReadState(before).Ok? {
        PublishedKept(before, after, ReadState(before).value, native, inputs, spare, false, report, original, claims);
      }
    case Sync(inputs, spare) =>
      if ReadState(before).Ok? && ReadState(before).value.Some? {
        var s := ReadState(before).value.value;
        PublishedKept(before, after, Some(s), s.native.path, inputs, spare, true, report, original, claims);
      }
    case Uninstall(toml) => UninstalledKept(before, after, toml, report, original, claims);
    case Refresh(_, _) => KeptAside(before, after, original, claims);
  }

  ghost predicate BridgeRun(states: seq<Files>, steps: seq<(Command, Report)>, claims: string -> Option<bool>) {
    Run(states, steps) && forall i :: 0 <= i < |steps| ==> BridgeOnly(steps[i].0, claims)
  }

  lemma {:induction false} RunKeepsOriginal(
      states: seq<Files>, steps: seq<(Command, Report)>, original: Option<File>, claims: string -> Option<bool>, i: nat)
    requires BridgeRun(states, steps, claims) && Kept(states[0], original, claims) && i < |states|
    ensures Kept(states[i], original, claims)
    decreases i
  {
    hide Kept, Act, BridgeOnly;
    if i > 0 {
      RunKeepsOriginal(states, steps, original, claims, i - 1);
      ActKeepsOriginal(states[i - 1], states[i], steps[i - 1].0, steps[i - 1].1, original, claims);
    }
  }

  /**
  Begin without a picker. However many installs, synchronisations and uninstalls follow, with
  failures anywhere except in a compensation, an uninstall that succeeds leaves the very configuration
  the run began with: its bytes and mode, or its absence.
  */
  lemma UninstallRestoresFirstConfig(
      states: seq<Files>, steps: seq<(Command, Report)>, claims: string -> Option<bool>, i: nat)
    requires BridgeRun(states, steps, claims) && State !in states[0]
    requires i < |steps| && steps[i].0.Uninstall? && steps[i].1.Done?
    ensures State !in states[i + 1]
    ensures Config in states[i + 1] <==> Config in states[0]
    ensures Config in states[0] ==> states[i + 1][Config] == states[0][Config]
  {
    hide Act, BridgeOnly;
    var original := if Config in states[0] then Some(states[0][Config]) else None;
    assert Kept(states[0], original, claims);
    RunKeepsOriginal(states, steps, original, claims, i);
    ActKeepsOriginal(states[i], states[i + 1], steps[i].0, steps[i].1, original, claims);
  }

  // ---------------------------------------------------------------------
  // The managed configuration is the original with one block
  // ---------------------------------------------------------------------

  function SourceText(original: Option<File>): string {
    if original.Some? && original.value.content.Text? then original.value.content.text else ""
  }

  ghost predicate RenderedFrom(source: string, text: string) {
    exists a :: Clean(a) && Render(source, a) == Ok(text)
  }

  ghost predicate Rendered(files: Files, original: Option<File>) {
    match ReadState(files)
    case Ok(Some(s)) =>
      ConfigManaged(files, s) ==>
        files[Config].content.Text? && RenderedFrom(SourceText(original), files[Config].content.text)
    case _ => true
  }

  ghost predicate CleanCommand(c: Command) {
    match c
    case Install(_, inputs, _) => Clean(inputs.settings)
    case Sync(inputs, _) => Clean(inputs.settings)
    case _ => true
  }

  lemma RenderedAside(before: Files, after: Files, original: Option<File>)
    requires Rendered(before, original) && ReadState(after) == ReadState(before)
    requires Same(before, after, Config)
    ensures Rendered(after, original)
  {
    hide ReadState, RenderedFrom;
  }

  /** A plan renders into the original, or into something already rendered from it. */
  lemma PlanRenders(
      before: Files, prior: Option<ManagedState>, toml: Toml, spare: Path, original: Option<File>,
      claims: string -> Option<bool>)
    requires Kept(before, original, claims) && Rendered(before, original)
    requires ReadState(before) == Ok(prior) && toml.claims == claims && PlanOf(before, prior, toml, spare).Some?
    ensures var base := PlanOf(before, prior, toml, spare).value.base;
            base == SourceText(original) || RenderedFrom(SourceText(original), base)
  {
    hide MarkerCount, Count, Sound, RenderedFrom, ReadState, Valid;
  }

  lemma RenderedAgain(source: string, base: string, a: Settings, text: string)
    requires MarkerCount(source) == 0 && Clean(a) && Render(base, a) == Ok(text)
    requires base == source || RenderedFrom(source, base)
    ensures RenderedFrom(source, text)
  {
    hide Render, Clean;
    if base != source {
      var b :| Clean(b) && Render(source, b) == Ok(base);
      RerenderReplacesOnlyBlock(source, b, a);
    }
  }

  lemma NoMarkersInSource(original: Option<File>, claims: string -> Option<bool>)
    requires Untouched(original, claims)
    ensures MarkerCount(SourceText(original)) == 0
  {
  }

  lemma TargetRendered(
      before: Files, prior: Option<ManagedState>, native: Path, inputs: Inputs, spare: Path, mode: Mode,
      original: Option<File>, claims: string -> Option<bool>)
    requires Kept(before, original, claims) && Rendered(before, original) && Clean(inputs.settings)
    requires ReadState(before) == Ok(prior) && inputs.toml.claims == claims && FreshName(before, spare)
    requires native in before && Goal(before, prior, native, inputs, spare).Some?
    ensures var (plan, d) := Goal(before, prior, native, inputs, spare).value;
            Rendered(Target(before, plan, d, mode), original)
  {
    hide Kept, Rendered, PlanOf, Valid, Render, PlannedFrom, ReadState, FreshName, RenderedFrom, Clean, MarkerCount;
    GoalIsPlanned(before, prior, native, inputs, spare);
    var (plan, d) := Goal(before, prior, native, inputs, spare).value;
    PlanKeeps(before, prior, inputs.toml, spare, original, claims);
    PlanRenders(before, prior, inputs.toml, spare, original, claims);
    NoMarkersInSource(original, claims);
    RenderedAgain(SourceText(original), plan.base, inputs.settings, d.config.text);
    TargetState(before, prior, native, inputs, spare, mode);
    BackupsStay(before, plan, d, mode);
    RenderedState(Target(before, plan, d, mode), d, original);
  }

  lemma RenderedState(files: Files, d: Draft, original: Option<File>)
    requires ReadState(files) == Ok(Some(d.state)) && d.config.Text?
    requires Config in files && files[Config].content == d.config && RenderedFrom(SourceText(original), d.config.text)
    ensures Rendered(files, original)
  {
    hide ReadState, RenderedFrom;
  }

  lemma PublishedRendered(
      before: Files, after: Files, prior: Option<ManagedState>, native: Path, inputs: Inputs, spare: Path, sync: bool,
      report: Report, original: Option<File>, claims: string -> Option<bool>)
    requires Kept(before, original, claims) && Rendered(before, original) && Clean(inputs.settings)
    requires ReadState(before) == Ok(prior) && FreshName(before, spare) && inputs.toml.claims == claims
    requires Published(before, after, prior, native, inputs, spare, sync, report)
    ensures Rendered(after, original)
  {
    hide Goal, ReadState, Target, Valid, PlannedFrom, SpareOnly, Kept, Sound, Rendered, Clean;
    assert Sound(before) by { KeptIsSound(before, original, claims); }
    if SpareOnly(before, after, spare) {
      SoundSpare(before, after, spare);
      SpareSame(before, after, spare);
      assert Same(before, after, Config);
      RenderedAside(before, after, original);
    } else if after != before {
      var (plan, d) := Goal(before, prior, native, inputs, spare).value;
      var mode := if sync then SyncedMode(plan, d) else PRIVATE;
      GoalIsPlanned(before, prior, native, inputs, spare);
      TargetSound(before, prior, native, inputs, spare, mode);
      TargetKept(before, prior, native, inputs, spare, mode, original, claims);
      TargetRendered(before, prior, native, inputs, spare, mode, original, claims);
    }
  }

  lemma UninstalledRendered(
      before: Files, after: Files, toml: Toml, report: Report, original: Option<File>, claims: string -> Option<bool>)
    requires Kept(before, original, claims) && Rendered(before, original) && toml.claims == claims
    requires UninstallStep(before, after, toml, report)
    ensures Rendered(after, original)
  {
    hide ConfigAfter, Valid, RenderedFrom;
    if ReadState(before).Ok? && ReadState(before).value.Some? {
      var s := ReadState(before).value.value;
      RollbackLeadsBack(before, s, toml, original, claims);
      ValidBackup(s);
    }
  }

  lemma ActKeepsRendering(
      before: Files, after: Files, c: Command, report: Report, original: Option<File>, claims: string -> Option<bool>)
    requires Kept(before, original, claims) && Rendered(before, original)
    requires Act(before, after, c, report) && BridgeOnly(c, claims) && CleanCommand(c)
    ensures Rendered(after, original)
  {
    hide Kept, Published, UninstallStep, Goal, FreshName, ReadState, Linked, Rendered, Clean, Sound;
    KeptIsSound(before, original, claims);
    match c
    case Install(native, inputs, spare) =>
      if ReadState(before).Ok? {
        PublishedRendered(
          before, after, ReadState(before).value, native, inputs, spare, false, report, original, claims);
      }
    case Sync(inputs, spare) =>
      if ReadState(before).Ok? && ReadState(before).value.Some? {
        var s := ReadState(before).value.value;
        PublishedRendered(before, after, Some(s), s.native.path, inputs, spare, true, report, original, claims);
      }
    case Uninstall(toml) => UninstalledRendered(before, after, toml, report, original, claims);
    case Refresh(_, _) =>
      SoundAside(before, after);
      RenderedAside(before, after, original);
  }

  lemma {:induction false} RunKeepsRendering(
      states: seq<Files>, steps: seq<(Command, Report)>, original: Option<File>, claims: string -> Option<bool>, i: nat)
    requires BridgeRun(states, steps, claims) && forall k :: 0 <= k < |steps| ==> CleanCommand(steps[k].0)
    requires Kept(states[0], original, claims) && Rendered(states[0], original) && i < |states|
    ensures Rendered(states[i], original)
    decreases i
  {
    hide Kept, Act, BridgeOnly, Rendered, CleanCommand;
    if i > 0 {
      RunKeepsRendering(states, steps, original, claims, i - 1);
      RunKeepsOriginal(states, steps, original, claims, i - 1);
      ActKeepsRendering(states[i - 1], states[i], steps[i - 1].0, steps[i - 1].1, original, claims);
    }
  }

  /**
  Throughout such a run the configuration the picker manages is the original text with one
  block in it: erasing the block gives the original back, however often it was rewritten.
  */
  lemma ManagedConfigErasesToOriginal(
      states: seq<Files>, steps: seq<(Command, Report)>, claims: string -> Option<bool>, i: nat, s: ManagedState)
    requires BridgeRun(states, steps, claims) && forall k :: 0 <= k < |steps| ==> CleanCommand(steps[k].0)
    requires State !in states[0] && i < |states|
    requires ReadState(states[i]) == Ok(Some(s)) && ConfigManaged(states[i], s)
    ensures states[i][Config].content.Text?
    ensures Erase(states[i][Config].content.text) ==
            if Config in states[0] then SourceText(Some(states[0][Config])) else ""
  {
    hide Act, BridgeOnly, CleanCommand, Clean, Erase, Render, MarkerCount, Sound;
    var original := if Config in states[0] then Some(states[0][Config]) else None;
    assert Sound(states[0]) by { NothingInstalledIsSound(states[0]); }
    assert Kept(states[0], original, claims) && Rendered(states[0], original);
    RunKeepsOriginal(states, steps, original, claims, i);
    RunKeepsRendering(states, steps, original, claims, i);
    NoMarkersInSource(original, claims);
    var a :| Clean(a) && Render(SourceText(original), a) == Ok(states[i][Config].content.text);
    ErasesBlock(SourceText(original), a);
  }

  lemma NothingInstalledIsSound(files: Files)
    requires State !in files
    ensures Sound(files)
  {
  }

  // ---------------------------------------------------------------------
  // When a failed uninstall changes nothing
  // ---------------------------------------------------------------------

  /**
  A failed uninstall of a managed configuration puts everything back exactly when the operation
  that failed was not the removal of the backup; then only the configuration is already back.
  */
  lemma FailedUninstallIsUndoneIff(
      before: Files, after: Files, toml: Toml, report: Report, original: Option<File>, claims: string -> Option<bool>)
    requires Kept(before, original, claims) && toml.claims == claims
    requires ReadState(before).Ok? && ReadState(before).value.Some?
    requires ConfigManaged(before, ReadState(before).value.value) && !ConfigIs(before, original)
    requires UninstallStep(before, after, toml, report) && report.Failed?
    ensures after == before <==> !(report.error.Unremoved? && report.error.path.Backup?)
    ensures after != before ==> after == Set(before, Config, original)
  {
    hide ConfigAfter, Valid;
    var s := ReadState(before).value.value;
    RollbackLeadsBack(before, s, toml, original, claims);
    ValidBackup(s);
    if report.error.Unremoved? && report.error.path in BackupPath(s) {
      assert ConfigIs(after, original);
    }
  }

  /**
  Told from the disk before the call: every failed uninstall changes nothing exactly when the
  receipt says that the picker created the configuration, or the native catalog is gone and
  the call is refused. Otherwise the removal of the backup can fail after the original is back.
  */
  lemma UninstallIsUndoneIff(before: Files, toml: Toml, original: Option<File>, claims: string -> Option<bool>)
    requires Kept(before, original, claims) && toml.claims == claims
    requires ReadState(before).Ok? && ReadState(before).value.Some?
    requires ConfigManaged(before, ReadState(before).value.value) && !ConfigIs(before, original)
    ensures (forall after, report :: UninstallStep(before, after, toml, report) && report.Failed? ==> after == before)
            <==> var s := ReadState(before).value.value; s.rollback.RemoveCreated? || s.native.path !in before
  {
    hide ConfigAfter, Valid;
    var s := ReadState(before).value.value;
    RollbackLeadsBack(before, s, toml, original, claims);
    ValidBackup(s);
    forall after, report | UninstallStep(before, after, toml, report) && report.Failed?
      ensures s.rollback.RemoveCreated? || s.native.path !in before ==> after == before
    {
      FailedUninstallIsUndoneIff(before, after, toml, report, original, claims);
    }
    if s.rollback.RestoreExactBackup? && s.native.path in before {
      var after := Set(before, Config, original);
      assert UninstallStep(before, after, toml, Failed(Unremoved(s.rollback.backup.path)));
      assert ConfigIs(after, original);
    }
  }

  /** As long as the native catalog can be read, only a failing operation stops an uninstall. */
  lemma UninstallIsNeverRefused(
      before: Files, after: Files, toml: Toml, report: Report, original: Option<File>, claims: string -> Option<bool>)
    requires Kept(before, original, claims) && toml.claims == claims
    requires ReadState(before).Ok? && ReadState(before).value.Some?
    requires ConfigManaged(before, ReadState(before).value.value)
    requires ReadState(before).value.value.native.path in before
    requires UninstallStep(before, after, toml, report)
    ensures report != Failed(Rejected)
  {
    hide ConfigAfter, Valid;
    var s := ReadState(before).value.value;
    RollbackLeadsBack(before, s, toml, original, claims);
  }

  /**
  Once a failed removal of the backup has left the original back in place beside the state,
  no later call of the bridge touches the configuration again: all are refused.
  */
  lemma HalfUninstalledIsFinal(
      before: Files, after: Files, c: Command, report: Report, original: Option<File>, claims: string -> Option<bool>)
    requires Kept(before, original, claims) && Act(before, after, c, report) && BridgeOnly(c, claims) && !c.Refresh?
    requires ReadState(before).Ok? && ReadState(before).value.Some?
    requires !ConfigManaged(before, ReadState(before).value.value)
    ensures report.Failed? && ConfigIs(after, original) && forall p: Path :: !p.Backup? ==> Same(before, after, p)
  {
    hide Valid, Recover, Linked, Acceptable, SpareOnly, NewName;
    var s := ReadState(before).value.value;
    match c
    case Install(native, inputs, spare) =>
      NoPlan(before, s, inputs.toml, spare, original, claims);
      SpareSame(before, after, spare);
      assert Same(before, after, Config);
    case Sync(inputs, spare) =>
      NoPlan(before, s, inputs.toml, spare, original, claims);
      SpareSame(before, after, spare);
      assert Same(before, after, Config);
    case Uninstall(toml) => RollbackLeadsBack(before, s, toml, original, claims);
  }

  lemma SpareSame(before: Files, after: Files, spare: Path)
    requires spare.Backup?
    ensures SpareOnly(before, after, spare) ==> forall p: Path :: !p.Backup? ==> Same(before, after, p)
  {
    if SpareOnly(before, after, spare) && after != before {
      forall p: Path | !p.Backup?
        ensures Same(before, after, p)
      {
        assert p in after <==> p in after - {spare};
      }
    }
  }

  lemma NoPlan(
      before: Files, s: ManagedState, toml: Toml, spare: Path, original: Option<File>, claims: string -> Option<bool>)
    requires Kept(before, original, claims) && ReadState(before) == Ok(Some(s)) && toml.claims == claims
    requires !ConfigManaged(before, s)
    ensures PlanOf(before, Some(s), toml, spare).None?
  {
    hide Valid, Count;
  }

  /** A run can get there: here the configuration is back, but the state still claims it. */
  lemma BackupLeftBehind(toml: Toml)
    ensures exists before: Files, after: Files ::
              && UninstallStep(before, after, toml, Failed(Unremoved(Backup("1")))) && Sound(before)
              && after != before && State in after && after[Config] == File(Text("a = 1"), SHARED)
  {
    hide Recover;
    var backup := Identity(Backup("1"), Text("a = 1"));
    var s := ManagedState(
      Identity(Outside("models_cache.json"), Text("{}")), "grok-4", Identity(Generated, Text("c")),
      Identity(Route, Text("r")),
      Identity(Config, Text("m")), RestoreExactBackup(backup, SHARED));
    var before: Files := map[
      Outside("models_cache.json") := File(Text("{}"), PRIVATE), Generated := File(Text("c"), PRIVATE),
      Route := File(Text("r"), PRIVATE), Config := File(Text("m"), PRIVATE), State := File(Managed(s), PRIVATE),
      Backup("1") := File(Text("a = 1"), PRIVATE)];
    var after := before[Config := File(Text("a = 1"), SHARED)];
    assert ReadState(before) == Ok(Some(s));
    assert ConfigAfter(before, s, toml) == Some(Some(File(Text("a = 1"), SHARED)));
    assert UninstallStep(before, after, toml, Failed(Unremoved(Backup("1")))) && Sound(before);
    assert "a = 1" != "m";
    assert before[Config] != after[Config];
  }
}
