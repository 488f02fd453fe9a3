/**
What a process that stops between two operations of an install or a synchronisation leaves
behind: which of those points a later call can pick up, and the one it cannot.
*/
module StoppedCalls {
  import opened Outcomes
  import opened ManagedFiles
  import opened PickerConfig
  import opened PickerLifecycle
  import opened PickerUninstall

  /** The new configuration is in place, the state is still the one from before the call. */
  ghost predicate Half(before: Files, d: Draft, files: Files) {
    && Config in files && files[Config].content == d.config && AcceptedMode(files[Config].mode)
    && Same(files, before, State)
  }

  /** What a later call finds in a half published configuration: its receipt, or keys it can take out again. */
  ghost predicate Resumable(prior: Option<ManagedState>, d: Draft, toml: Toml) {
    && prior.Some? && d.config.Text?
    && (prior.value.config.content == d.config || Recover(toml, d.config.text).Some?)
  }

  /** A point of a call that has a goal: as before, half published, or published. */
  lemma PointCases(
      before: Files, files: Files, prior: Option<ManagedState>, native: Path, inputs: Inputs, spare: Path)
    requires native in before && ReadState(before) == Ok(prior) && FreshName(before, spare)
    requires Goal(before, prior, native, inputs, spare).Some?
    requires Point(before, files, prior, native, inputs, spare)
    ensures var d := Goal(before, prior, native, inputs, spare).value.1;
            || (Same(files, before, Config) && Same(files, before, State))
            || Half(before, d, files) || StatePublished(d, files)
  {
    hide Goal, ReadState, BackupHeld, Receipted, FreshName;
    GoalIsPlanned(before, prior, native, inputs, spare);
    var (plan, d) := Goal(before, prior, native, inputs, spare).value;
    StateIsValid(before, prior, spare);
    if SpareOnly(before, files, spare) {
      SpareAside(before, files, spare);
    } else {
      BackedAside(before, plan);
    }
  }

  lemma SpareAside(before: Files, after: Files, spare: Path)
    requires spare.Backup? && SpareOnly(before, after, spare)
    ensures Same(after, before, Config) && Same(after, before, State)
  {
    if after != before {
      assert Config in after <==> Config in after - {spare};
      assert State in after <==> State in after - {spare};
    }
  }

  lemma BackedAside(before: Files, plan: Plan)
    requires PlannedFrom(before, plan)
    ensures Same(Backed(before, plan), before, Config) && Same(Backed(before, plan), before, State)
  {
  }

  lemma SameState(before: Files, files: Files)
    requires Same(files, before, State)
    ensures ReadState(files) == ReadState(before)
  {
    hide Valid;
  }

  /** An unchanged configuration and state are planned for as before. */
  lemma UnchangedIsPlanned(
      before: Files, files: Files, prior: Option<ManagedState>, toml: Toml, spare: Path, later: Path)
    requires ReadState(before) == Ok(prior) && PlanOf(before, prior, toml, spare).Some?
    requires Same(files, before, Config) && Same(files, before, State)
    requires BackupHeld(files) && later !in files
    ensures PlanOf(files, prior, toml, later).Some?
  {
    hide Recover, MarkerCount, Valid;
  }

  lemma GoalRenders(before: Files, prior: Option<ManagedState>, native: Path, inputs: Inputs, spare: Path)
    requires native in before && Goal(before, prior, native, inputs, spare).Some?
    ensures var (plan, d) := Goal(before, prior, native, inputs, spare).value;
            && PlanOf(before, prior, inputs.toml, spare) == Some(plan)
            && d.config.Text? && MarkerCount(d.config.text) != 0
            && Valid(d.state) && d.state.config == Identity(Config, d.config) && d.state.rollback == plan.rollback
  {
    hide PlanOf, Render, Valid, MarkerCount;
    var (plan, d) := Goal(before, prior, native, inputs, spare).value;
    RenderLeavesMarker(plan.base, inputs.settings);
  }

  lemma HalfIsPlannedIff(
      before: Files, files: Files, prior: Option<ManagedState>, d: Draft, toml: Toml, spare: Path, later: Path)
    requires ReadState(before) == Ok(prior) && PlanOf(before, prior, toml, spare).Some?
    requires Half(before, d, files) && d.config.Text? && MarkerCount(d.config.text) != 0
    requires BackupHeld(files) && later !in files
    ensures PlanOf(files, prior, toml, later).Some? <==> Resumable(prior, d, toml)
  {
    hide Recover, MarkerCount, Valid;
  }

  lemma PublishedIsPlanned(files: Files, d: Draft, toml: Toml, later: Path)
    requires StatePublished(d, files) && Valid(d.state)
    requires d.state.config == Identity(Config, d.config) && d.config.Text?
    ensures ReadState(files) == Ok(Some(d.state))
    ensures PlanOf(files, Some(d.state), toml, later).Some?
    ensures PlanOf(files, Some(d.state), toml, later).value.rollback == d.state.rollback
  {
    hide Recover, Valid;
  }

  /**
  Wherever an install or a synchronisation stops, a later call has a plan, except between the
  write of the configuration and the write of the state: there it has one exactly when the old
  state already claims that text, or the keys can be taken out of it again.
  */
  lemma LaterCallIsPlannedIff(
      before: Files, files: Files, prior: Option<ManagedState>, native: Path, inputs: Inputs, spare: Path, later: Path)
    requires native in before && ReadState(before) == Ok(prior) && FreshName(before, spare)
    requires Goal(before, prior, native, inputs, spare).Some?
    requires Point(before, files, prior, native, inputs, spare) && BackupHeld(files) && later !in files
    ensures ReadState(files).Ok?
    ensures var d := Goal(before, prior, native, inputs, spare).value.1;
            PlanOf(files, ReadState(files).value, inputs.toml, later).Some?
            <==> (Half(before, d, files) ==> Resumable(prior, d, inputs.toml))
  {
    hide Goal, ReadState, BackupHeld, FreshName, PlanOf, Point, Recover, MarkerCount, Valid, Same;
    PointCases(before, files, prior, native, inputs, spare);
    GoalRenders(before, prior, native, inputs, spare);
    var (plan, d) := Goal(before, prior, native, inputs, spare).value;
    if Half(before, d, files) {
      SameState(before, files);
      HalfIsPlannedIff(before, files, prior, d, inputs.toml, spare, later);
    } else if StatePublished(d, files) {
      PublishedIsPlanned(files, d, inputs.toml, later);
    } else {
      SameState(before, files);
      UnchangedIsPlanned(before, files, prior, inputs.toml, spare, later);
    }
  }

  /**
  A first install that stops between those two writes cannot be repeated, finished or undone by
  the bridge: the markers are on disk without a state, so every later install is refused and
  synchronisations and uninstalls report that nothing is installed.
  */
  lemma HalfInstalledIsStuck(
      before: Files, files: Files, native: Path, inputs: Inputs, spare: Path, after: Files, report: Report)
    requires native in before && ReadState(before) == Ok(None)
    requires Goal(before, None, native, inputs, spare).Some?
    requires Half(before, Goal(before, None, native, inputs, spare).value.1, files)
    ensures forall native', inputs', spare' ::
              InstallStep(files, after, native', inputs', spare', report) ==>
                report.Failed? && SpareOnly(files, after, spare')
    ensures forall inputs', spare' :: SyncStep(files, after, inputs', spare', report) ==>
      report.Absent? && after == files
    ensures forall toml :: UninstallStep(files, after, toml, report) ==> report.Absent? && after == files
  {
    hide Goal, ReadState, MarkerCount, Valid, Same;
    GoalRenders(before, None, native, inputs, spare);
    SameState(before, files);
    forall native', inputs', spare' | InstallStep(files, after, native', inputs', spare', report)
      ensures report.Failed? && SpareOnly(files, after, spare')
    {
      MarkedIsRefused(files, native', inputs', spare');
    }
  }

  lemma MarkedIsRefused(files: Files, native: Path, inputs: Inputs, spare: Path)
    requires Config in files && files[Config].content.Text? && MarkerCount(files[Config].content.text) != 0
    ensures native in files ==> Goal(files, None, native, inputs, spare).None?
    ensures SpareOnly(files, files, spare)
  {
    hide MarkerCount;
  }
}
