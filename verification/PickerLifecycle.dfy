/**
Installing, synchronising and uninstalling the merged picker: four publication writes with
compensation, a backup of the user's configuration that is handed from receipt to receipt,
and a rollback that follows the receipt.
*/
module PickerLifecycle {
  import opened Outcomes
  import opened ManagedFiles
  import opened PickerConfig

  /**
  What the TOML library reports: whether a text parses and claims one of the keys the picker
  owns, and the text without the picker's keys when they are exactly the expected ones.
  */
  datatype Toml = Toml(claims: string -> Option<bool>, strip: string -> Option<string>)

  /** The generated catalog and Native route with the admitted Grok catalog they were made from. */
  datatype Composed = Composed(generated: string, route: string, grok: string)

  /** What a call reads besides the managed files; `admitted` is false when one of its early checks fails. */
  datatype Inputs = Inputs(admitted: bool, settings: Settings, toml: Toml, compose: string -> Option<Composed>)

  datatype Error = Rejected | Unwritten(path: Path) | Unremoved(path: Path) | Unrestored(path: Path)

  datatype Report = Done | Absent | Failed(error: Error)

  /** A compensating write or removal failed, after the operation it compensates. */
  predicate RestoreFailed(report: Report) {
    report.Failed? && report.error.Unrestored?
  }

  datatype Plan = Plan(
    current: Option<Content>, base: string, previousMode: Mode, rollback: Rollback,
    added: Option<Path>, superseded: Option<Identity>)

  datatype Draft = Draft(generated: Content, route: Content, config: Content, state: ManagedState)

  // ---------------------------------------------------------------------
  // Reading
  // ---------------------------------------------------------------------

  function ReadOptional(files: Files, path: Path): Result<Option<Content>, Error> {
    if path !in files then Ok(None)
    else if files[path].mode != PRIVATE then Err(Rejected)
    else Ok(Some(files[path].content))
  }

  function ReadState(files: Files): Result<Option<ManagedState>, Error> {
    match ReadOptional(files, State)
    case Err(e) => Err(e)
    case Ok(None) => Ok(None)
    case Ok(Some(Text(_))) => Err(Rejected)
    case Ok(Some(Managed(s))) => if Valid(s) then Ok(Some(s)) else Err(Rejected)
  }

  /** The configuration as text with its mode, when it may be edited. */
  function ReadConfig(files: Files): Option<(string, Mode)> {
    if Config in files && AcceptedMode(files[Config].mode) && files[Config].content.Text?
    then Some((files[Config].content.text, files[Config].mode))
    else None
  }

  /** A rewritten configuration without the picker's keys; refused unless it still claims them. */
  function Recover(toml: Toml, text: string): Option<string> {
    if Count(PICKER_BEGIN, text) > 1 || Count(PICKER_END, text) > 1 || toml.claims(text) != Some(true) then None
    else toml.strip(text)
  }

  // ---------------------------------------------------------------------
  // The plan for the configuration
  // ---------------------------------------------------------------------

  function BackupPlan(text: string, base: string, mode: Mode, spare: Path, superseded: Option<Identity>): Plan {
    Plan(Some(Text(text)), base, mode, RestoreExactBackup(Identity(spare, Text(base)), mode), Some(spare), superseded)
  }

  function Receipt(s: ManagedState): Option<Identity> {
    if s.rollback.RestoreExactBackup? then Some(s.rollback.backup) else None
  }

  /** A generated backup name is never the one a receipt already uses. */
  predicate NewName(prior: Option<ManagedState>, spare: Path) {
    spare.Backup? && (prior.Some? && Receipt(prior.value).Some? ==> Receipt(prior.value).value.path != spare)
  }

  /** What a call with these files plans: to carry the receipt, to replace it, or to begin one. */
  function PlanOf(files: Files, prior: Option<ManagedState>, toml: Toml, spare: Path): Option<Plan> {
    match prior
    case Some(s) =>
      (match ReadConfig(files)
       case None => None
       case Some((text, mode)) =>
         if s.config.path != Config then None
         else if s.config.content == Text(text) then Some(Plan(Some(Text(text)), text, mode, s.rollback, None, None))
         else
           match Recover(toml, text)
           case None => None
           case Some(base) =>
             if spare in files || (Receipt(s).Some? && !Identified(files, Receipt(s).value)) then None
             else Some(BackupPlan(text, base, mode, spare, Receipt(s))))
    case None =>
      if Config !in files then Some(Plan(None, "", PRIVATE, RemoveCreated, None, None))
      else
        match ReadConfig(files)
        case None => None
        case Some((text, mode)) =>
          if MarkerCount(text) != 0 || toml.claims(text) != Some(false) || spare in files then None
          else Some(BackupPlan(text, text, mode, spare, None))
  }

  function Backed(files: Files, plan: Plan): Files {
    if plan.added.Some? then files[plan.added.value := File(Text(plan.base), PRIVATE)] else files
  }

  method PreparePickerConfig(disk: Disk, prior: Option<ManagedState>, toml: Toml, spare: Path)
    returns (r: Result<Plan, Error>)
    requires NewName(prior, spare)
    modifies disk
    ensures r.Ok? ==> PlanOf(old(disk.files), prior, toml, spare) == Some(r.value)
    ensures r.Ok? ==> disk.files == Backed(old(disk.files), r.value) && disk.failures == old(disk.failures)
    ensures r.Err? ==> SpareOnly(old(disk.files), disk.files, spare)
    ensures r.Err? ==> (r.error == Rejected && disk.failures == old(disk.failures))
                       || (r.error == Unwritten(spare) && disk.failures == old(disk.failures) + 1)
    ensures r == Err(Rejected) ==> PlanOf(old(disk.files), prior, toml, spare).None?
    ensures disk.history == old(disk.history) + [disk.files]
            || (disk.history == old(disk.history) && disk.files == old(disk.files))
  {
    hide Count, Recover, MarkerCount;
    if prior.Some? {
      var s := prior.value;
      if s.config.path != Config || ReadConfig(disk.files).None? {
        return Err(Rejected);
      }
      var (text, mode) := ReadConfig(disk.files).value;
      if Identity(Config, Text(text)) == s.config {
        return Ok(Plan(Some(Text(text)), text, mode, s.rollback, None, None));
      }
      var base := Recover(toml, text);
      if base.None? {
        return Err(Rejected);
      }
      var ok := disk.WriteNew(spare, Text(base.value), PRIVATE);
      if !ok {
        return Err(Unwritten(spare));
      }
      var superseded := None;
      if s.rollback.RestoreExactBackup? {
        if !Identified(disk.files, s.rollback.backup) {
          assert disk.files - {spare} == old(disk.files);
          return Err(Rejected);
        }
        superseded := Some(s.rollback.backup);
      }
      return Ok(BackupPlan(text, base.value, mode, spare, superseded));
    }
    if Config !in disk.files {
      return Ok(Plan(None, "", PRIVATE, RemoveCreated, None, None));
    }
    if ReadConfig(disk.files).None? {
      return Err(Rejected);
    }
    var (text, mode) := ReadConfig(disk.files).value;
    if MarkerCount(text) != 0 || toml.claims(text) != Some(false) {
      return Err(Rejected);
    }
    var ok := disk.WriteNew(spare, Text(text), PRIVATE);
    if !ok {
      return Err(Unwritten(spare));
    }
    return Ok(BackupPlan(text, text, mode, spare, None));
  }

  // ---------------------------------------------------------------------
  // Ending a plan
  // ---------------------------------------------------------------------

  function Settled(files: Files, plan: Plan): Files {
    if plan.superseded.Some? then files - {plan.superseded.value.path} else files
  }

  function Withdrawn(files: Files, plan: Plan): Files {
    if plan.added.Some? then files - {plan.added.value} else files
  }

  /** After publication the replaced receipt goes. */
  method Finish(disk: Disk, plan: Plan) returns (report: Report)
    modifies disk
    ensures report.Done? ==> disk.files == Settled(old(disk.files), plan) && disk.failures == old(disk.failures)
    ensures !report.Done? ==> plan.superseded.Some? && disk.files == old(disk.files)
    ensures !report.Done? ==>
      (report == Failed(Unremoved(plan.superseded.value.path)) && disk.failures == old(disk.failures) + 1)
      || (report == Failed(Rejected) && !Identified(old(disk.files), plan.superseded.value))
    ensures disk.history == old(disk.history) + [disk.files]
            || (disk.history == old(disk.history) && disk.files == old(disk.files))
  {
    if plan.superseded.Some? {
      if !Identified(disk.files, plan.superseded.value) {
        return Failed(Rejected);
      }
      var ok := disk.Remove(plan.superseded.value.path);
      if !ok {
        return Failed(Unremoved(plan.superseded.value.path));
      }
    }
    return Done;
  }

  /** Before publication the new backup goes. */
  method Abort(disk: Disk, plan: Plan, error: Error) returns (report: Report)
    modifies disk
    ensures report.Failed?
    ensures disk.failures == old(disk.failures) ==>
      disk.files == Withdrawn(old(disk.files), plan) && report.error == error
    ensures disk.failures != old(disk.failures) ==>
      plan.added.Some? && disk.files == old(disk.files) && disk.failures == old(disk.failures) + 1
      && report.error == Unremoved(plan.added.value)
    ensures disk.history == old(disk.history) + [disk.files]
            || (disk.history == old(disk.history) && disk.files == old(disk.files))
  {
    if plan.added.Some? {
      var ok := disk.Remove(plan.added.value);
      if !ok {
        return Failed(Unremoved(plan.added.value));
      }
    }
    return Failed(error);
  }

  // ---------------------------------------------------------------------
  // The receipt is always honoured
  // ---------------------------------------------------------------------

  ghost predicate RollbackHeld(files: Files, rollback: Rollback) {
    rollback.RestoreExactBackup? ==> rollback.backup.path.Backup? && Identified(files, rollback.backup)
  }

  /** The backup named by the state on disk exists with its recorded bytes. */
  ghost predicate BackupHeld(files: Files) {
    State in files && files[State].content.Managed? ==> RollbackHeld(files, files[State].content.state.rollback)
  }

  ghost predicate HeldSince(history: seq<Files>, start: nat) {
    forall k :: start <= k < |history| ==> BackupHeld(history[k])
  }

  const BODY: set<Path> := {Generated, Route, Config}

  lemma HeldAside(files: Files, entry: Files, changed: set<Path>)
    requires SameExcept(files, entry, changed) && changed <= BODY && BackupHeld(entry)
    ensures BackupHeld(files)
  {
    assert Same(files, entry, State);
    if State in entry && entry[State].content.Managed? {
      var r := entry[State].content.state.rollback;
      if r.RestoreExactBackup? { assert Same(files, entry, r.backup.path); }
    }
  }

  // ---------------------------------------------------------------------
  // Publication
  // ---------------------------------------------------------------------

  function Written(files: Files, d: Draft, configMode: Mode): Files {
    files[Generated := File(d.generated, PRIVATE)][Route := File(d.route, PRIVATE)]
         [Config := File(d.config, configMode)][State := File(Managed(d.state), PRIVATE)]
  }

  /** A plan that was made from these files. */
  ghost predicate PlannedFrom(before: Files, plan: Plan) {
    && (plan.added.Some? ==> plan.added.value.Backup? && plan.added.value !in before)
    && (plan.superseded.Some? ==> plan.superseded.value.path.Backup? && Identified(before, plan.superseded.value))
    && Entry(before, Config, plan.current, plan.previousMode) && AcceptedMode(plan.previousMode)
  }

  /** The new state names a receipt that is there and stays there. */
  ghost predicate Receipted(before: Files, plan: Plan, d: Draft) {
    RollbackHeld(Settled(Backed(before, plan), plan), d.state.rollback)
  }

  /** What was read before the first write. */
  ghost predicate EntryRead(
      before: Files, generated: Option<Content>, route: Option<Content>, state: Option<Content>) {
    Entry(before, Generated, generated, PRIVATE) && Entry(before, Route, route, PRIVATE)
    && Entry(before, State, state, PRIVATE)
  }

  /** A publication that was stopped, and all of whose compensating writes succeeded. */
  ghost predicate Stopped(before: Files, after: Files, plan: Plan, published: Files, error: Error) {
    match error
    case Unwritten(p) => p in BODY + {State} && after == before
    case Unremoved(p) =>
      || (plan.superseded.Some? && p == plan.superseded.value.path && after == published)
      || (plan.added == Some(p) && after == Backed(before, plan))
    case _ => false
  }

  lemma WithdrawUndoes(before: Files, plan: Plan)
    requires PlannedFrom(before, plan)
    ensures Withdrawn(Backed(before, plan), plan) == before
    ensures BackupHeld(before) ==> BackupHeld(Backed(before, plan))
  {
    if plan.added.Some? {
      assert before[plan.added.value := File(Text(plan.base), PRIVATE)] - {plan.added.value} == before;
    }
  }

  lemma WrittenHeld(before: Files, plan: Plan, d: Draft, configMode: Mode)
    requires PlannedFrom(before, plan) && Receipted(before, plan, d)
    ensures BackupHeld(Written(Backed(before, plan), d, configMode))
    ensures BackupHeld(Settled(Written(Backed(before, plan), d, configMode), plan))
  {
  }

  lemma StillSuperseded(before: Files, plan: Plan, d: Draft, configMode: Mode)
    requires PlannedFrom(before, plan)
    ensures plan.superseded.Some? ==> Identified(Written(Backed(before, plan), d, configMode), plan.superseded.value)
  {
  }

  // ---------------------------------------------------------------------
  // Single steps of a publication
  // ---------------------------------------------------------------------

  /**
  The proof's view of a running publication: the files it started from, with the new backup,
  what it writes, and where in the history it began. `held` says that both named backups are
  in order.
  */
  datatype Watch = Watch(before: Files, entry: Files, d: Draft, held: bool, start: nat)

  /** The configuration is the one the call found or the one it writes. */
  ghost predicate ConfigStage(entry: Files, d: Draft, files: Files) {
    || Same(files, entry, Config)
    || (Config in files && files[Config].content == d.config && AcceptedMode(files[Config].mode))
  }

  ghost predicate StatePublished(d: Draft, files: Files) {
    && Config in files && files[Config].content == d.config && AcceptedMode(files[Config].mode)
    && State in files && files[State] == File(Managed(d.state), PRIVATE)
  }

  /** A moment of a publication: the new state is on disk only beside the new configuration. */
  ghost predicate Moment(entry: Files, d: Draft, files: Files) {
    (ConfigStage(entry, d, files) && Same(files, entry, State)) || StatePublished(d, files)
  }

  ghost predicate MomentsSince(w: Watch, history: seq<Files>) {
    forall k :: w.start <= k < |history| ==> Moment(w.entry, w.d, history[k])
  }

  ghost predicate Watched(w: Watch, history: seq<Files>, files: Files) {
    && w.start <= |history| && ConfigStage(w.entry, w.d, files) && MomentsSince(w, history)
    && (w.held ==> BackupHeld(w.before) && BackupHeld(w.entry) && HeldSince(history, w.start))
  }

  lemma WatchPush(w: Watch, earlier: seq<Files>, was: Files, history: seq<Files>, files: Files)
    requires Watched(w, earlier, was) && (w.held ==> BackupHeld(files)) && Moment(w.entry, w.d, files)
    requires history == earlier + [files] || history == earlier
    ensures Watched(w, history, files)
  {
    hide BackupHeld;
  }

  /** Before the state is written the stage of the configuration decides. */
  lemma StagedMoment(w: Watch, files: Files, changed: set<Path>)
    requires changed <= BODY && SameExcept(files, w.entry, changed) && ConfigStage(w.entry, w.d, files)
    ensures Moment(w.entry, w.d, files)
  {
    assert Same(files, w.entry, State);
  }

  lemma WatchedStage(w: Watch, history: seq<Files>, files: Files)
    requires Watched(w, history, files)
    ensures ConfigStage(w.entry, w.d, files)
  {
  }

  lemma StageAfterWrite(w: Watch, history: seq<Files>, was: Files, path: Path, content: Content)
    requires Watched(w, history, was) && (path == Config ==> content == w.d.config)
    ensures ConfigStage(w.entry, w.d, was) && ConfigStage(w.entry, w.d, was[path := File(content, PRIVATE)])
  {
  }

  lemma StageAfterRestore(
      w: Watch, history: seq<Files>, was: Files, path: Path, previous: Option<Content>, mode: Mode)
    requires Watched(w, history, was) && Entry(w.entry, path, previous, mode)
    ensures ConfigStage(w.entry, w.d, was) && ConfigStage(w.entry, w.d, Restored(was, path, previous, mode))
  {
  }

  method Write(disk: Disk, path: Path, content: Content, ghost w: Watch, ghost changed: set<Path>) returns (ok: bool)
    requires path in BODY && changed <= BODY && (path == Config ==> content == w.d.config)
    requires Watched(w, disk.history, disk.files) && SameExcept(disk.files, w.entry, changed)
    modifies disk
    ensures ok ==> disk.files == old(disk.files)[path := File(content, PRIVATE)] && disk.failures == old(disk.failures)
    ensures ok ==> SameExcept(disk.files, w.entry, changed + {path})
    ensures !ok ==> disk.files == old(disk.files) && disk.failures == old(disk.failures) + 1
    ensures Watched(w, disk.history, disk.files) && old(disk.history) <= disk.history
  {
    hide BackupHeld, HeldSince, SameExcept, Watched, Moment, ConfigStage;
    ghost var was, h := disk.files, disk.history;
    ok := disk.AtomicWrite(path, content, PRIVATE);
    WriteGrows(was, w.entry, path, File(content, PRIVATE), changed);
    StageAfterWrite(w, h, was, path, content);
    WatchAside(w, h, was, disk.files, if ok then changed + {path} else changed);
    WatchPush(w, h, was, disk.history, disk.files);
  }

  lemma WatchAside(w: Watch, history: seq<Files>, was: Files, files: Files, changed: set<Path>)
    requires Watched(w, history, was)
    requires changed <= BODY && SameExcept(files, w.entry, changed) && ConfigStage(w.entry, w.d, files)
    ensures (w.held ==> BackupHeld(files)) && Moment(w.entry, w.d, files)
  {
    hide ConfigStage, Moment;
    StagedMoment(w, files, changed);
    if w.held { HeldAside(files, w.entry, changed); }
  }

  method Restore(
      disk: Disk, path: Path, previous: Option<Content>, mode: Mode, ghost w: Watch, ghost changed: set<Path>)
    returns (ok: bool)
    requires changed <= BODY && Entry(w.entry, path, previous, mode)
    requires Watched(w, disk.history, disk.files) && SameExcept(disk.files, w.entry, changed)
    modifies disk
    ensures ok ==> SameExcept(disk.files, w.entry, changed - {path}) && disk.failures == old(disk.failures)
    ensures !ok ==> disk.failures == old(disk.failures) + 1
    ensures Watched(w, disk.history, disk.files) && old(disk.history) <= disk.history
  {
    hide BackupHeld, HeldSince, SameExcept, Watched, Restored, Entry, Moment, ConfigStage;
    ghost var was, h := disk.files, disk.history;
    ok := disk.RestoreOptional(path, previous, mode);
    RestoreShrinks(was, w.entry, path, previous, mode, changed);
    StageAfterRestore(w, h, was, path, previous, mode);
    WatchAside(w, h, was, disk.files, if ok then changed - {path} else changed);
    WatchPush(w, h, was, disk.history, disk.files);
  }

  /** Everything is compensated: the new backup goes and the first error is reported. */
  method Withdraw(disk: Disk, plan: Plan, error: Error, ghost w: Watch) returns (report: Report)
    requires PlannedFrom(w.before, plan) && w.entry == Backed(w.before, plan)
    requires Watched(w, disk.history, disk.files) && SameExcept(disk.files, w.entry, {})
    modifies disk
    ensures report.Failed? && disk.failures >= old(disk.failures)
    ensures disk.failures == old(disk.failures) ==> disk.files == w.before && report.error == error
    ensures disk.failures != old(disk.failures) ==>
      plan.added.Some? && report.error == Unremoved(plan.added.value) && disk.files == w.entry
    ensures Watched(w, disk.history, disk.files) && old(disk.history) <= disk.history
  {
    hide BackupHeld, HeldSince, SameExcept, Watched, Backed, Withdrawn, Moment, PlannedFrom;
    ghost var h, was := disk.history, disk.files;
    SameEverywhere(disk.files, w.entry);
    WithdrawUndoes(w.before, plan);
    WatchKnows(w, plan, h, was);
    report := Abort(disk, plan, error);
    WatchPush(w, h, was, disk.history, disk.files);
  }

  lemma WatchKnows(w: Watch, plan: Plan, history: seq<Files>, files: Files)
    requires Watched(w, history, files) && PlannedFrom(w.before, plan) && w.entry == Backed(w.before, plan)
    ensures w.held ==> BackupHeld(w.before) && BackupHeld(w.entry)
    ensures Moment(w.entry, w.d, w.before) && Moment(w.entry, w.d, w.entry)
  {
  }

  /** The last write publishes the state. */
  method WriteState(disk: Disk, plan: Plan, d: Draft, configMode: Mode, ghost w: Watch) returns (ok: bool)
    requires PlannedFrom(w.before, plan) && w.entry == Backed(w.before, plan)
    requires d == w.d && (w.held ==> Receipted(w.before, plan, d)) && AcceptedMode(configMode)
    requires Watched(w, disk.history, disk.files) && SameExcept(disk.files, w.entry, BODY)
    requires disk.files[State := File(Managed(d.state), PRIVATE)] == Written(w.entry, d, configMode)
    modifies disk
    ensures ok ==> disk.files == Written(w.entry, d, configMode) && disk.failures == old(disk.failures)
    ensures !ok ==> disk.files == old(disk.files) && disk.failures == old(disk.failures) + 1
    ensures Watched(w, disk.history, disk.files) && old(disk.history) <= disk.history
  {
    hide BackupHeld, HeldSince, SameExcept, Watched, Written, Backed, PlannedFrom, Receipted, Moment, ConfigStage;
    ghost var h, was := disk.history, disk.files;
    ok := disk.AtomicWrite(State, Managed(d.state), PRIVATE);
    if ok {
      if w.held { WrittenHeld(w.before, plan, d, configMode); }
      WrittenIsPublished(w, configMode, disk.files);
    } else {
      WatchedStage(w, h, was);
      WatchAside(w, h, was, disk.files, BODY);
    }
    WatchPush(w, h, was, disk.history, disk.files);
  }

  lemma WrittenIsPublished(w: Watch, configMode: Mode, files: Files)
    requires files == Written(w.entry, w.d, configMode) && AcceptedMode(configMode)
    ensures Moment(w.entry, w.d, files) && StatePublished(w.d, files)
  {
  }

  /** Removing a superseded backup moves neither configuration nor state. */
  lemma SettledIsPublished(w: Watch, plan: Plan, files: Files)
    requires PlannedFrom(w.before, plan) && StatePublished(w.d, files)
    ensures Moment(w.entry, w.d, Settled(files, plan)) && StatePublished(w.d, Settled(files, plan))
  {
  }

  /** After publication the replaced receipt goes. */
  method Conclude(disk: Disk, plan: Plan, ghost d: Draft, ghost configMode: Mode, ghost w: Watch)
    returns (report: Report)
    requires PlannedFrom(w.before, plan) && w.entry == Backed(w.before, plan)
    requires d == w.d && (w.held ==> Receipted(w.before, plan, d)) && AcceptedMode(configMode)
    requires Watched(w, disk.history, disk.files) && disk.files == Written(w.entry, d, configMode)
    modifies disk
    ensures report.Done? ==>
      disk.files == Settled(Written(w.entry, d, configMode), plan) && disk.failures == old(disk.failures)
    ensures !report.Done? ==> plan.superseded.Some? && disk.failures == old(disk.failures) + 1
    ensures !report.Done? ==>
      report == Failed(Unremoved(plan.superseded.value.path)) && disk.files == Written(w.entry, d, configMode)
    ensures Watched(w, disk.history, disk.files) && old(disk.history) <= disk.history
  {
    hide BackupHeld, HeldSince, Watched, Written, Backed, PlannedFrom, Receipted, Settled, Identified, Moment,
         StatePublished;
    ghost var h, was := disk.history, disk.files;
    StillSuperseded(w.before, plan, d, configMode);
    WrittenIsPublished(w, configMode, disk.files);
    SettledIsPublished(w, plan, disk.files);
    report := Finish(disk, plan);
    if w.held { WrittenHeld(w.before, plan, d, configMode); }
    WatchPush(w, h, was, disk.history, disk.files);
  }

  // ---------------------------------------------------------------------
  // Publication
  // ---------------------------------------------------------------------

  lemma EntriesOf(before: Files, plan: Plan, generated: Option<Content>, route: Option<Content>, state: Option<Content>)
    requires PlannedFrom(before, plan) && EntryRead(before, generated, route, state)
    ensures var entry := Backed(before, plan);
            && Entry(entry, Generated, generated, PRIVATE) && Entry(entry, Route, route, PRIVATE)
            && Entry(entry, State, state, PRIVATE) && Entry(entry, Config, plan.current, plan.previousMode)
  {
  }

  ghost function WatchOf(before: Files, plan: Plan, d: Draft, start: nat): Watch {
    Watch(before, Backed(before, plan), d, BackupHeld(before) && Receipted(before, plan, d), start)
  }

  lemma BeginWatch(before: Files, plan: Plan, d: Draft, history: seq<Files>)
    requires PlannedFrom(before, plan)
    ensures Watched(WatchOf(before, plan, d, |history|), history, Backed(before, plan))
    ensures SameExcept(Backed(before, plan), Backed(before, plan), {})
  {
    WithdrawUndoes(before, plan);
  }

  lemma BodySets()
    ensures {} + {Generated} == {Generated} && {Generated} - {Generated} == {}
    ensures {Generated} + {Route} == {Generated, Route} && {Generated, Route} - {Route} == {Generated}
    ensures {Generated, Route} + {Config} == BODY && BODY - {Config} == {Generated, Route}
    ensures {Generated, Route} - {Generated} == {Route} && {Route} - {Route} == {}
    ensures {} - {State} == {}
  {
  }

  /**
  The four publication writes of an install. A failing write is compensated; when it was the
  state, the configuration goes back first, before the artifacts it names.
  */
  method PublishInstall(
      disk: Disk, plan: Plan, d: Draft, previousGenerated: Option<Content>, previousRoute: Option<Content>,
      previousState: Option<Content>, ghost before: Files)
    returns (report: Report)
    requires PlannedFrom(before, plan) && disk.files == Backed(before, plan)
    requires EntryRead(before, previousGenerated, previousRoute, previousState)
    modifies disk
    ensures report.Done? || report.Failed?
    ensures report.Done? ==> disk.failures == old(disk.failures)
    ensures report.Done? ==> disk.files == Settled(Written(Backed(before, plan), d, PRIVATE), plan)
    ensures report.Failed? ==> disk.failures > old(disk.failures)
    ensures RestoreFailed(report) ==> disk.failures >= old(disk.failures) + 2
    ensures report.Failed? && !RestoreFailed(report) ==>
      Stopped(before, disk.files, plan, Written(Backed(before, plan), d, PRIVATE), report.error)
    ensures old(disk.history) <= disk.history
    ensures Watched(WatchOf(before, plan, d, |old(disk.history)|), disk.history, disk.files)
  {
    hide BackupHeld, HeldSince, Watched, SameExcept, Entry, Restored, Settled, Withdrawn, Backed, Receipted, Identified;
    hide PlannedFrom, EntryRead;
    ghost var w := WatchOf(before, plan, d, |disk.history|);
    BeginWatch(before, plan, d, disk.history);
    EntriesOf(before, plan, previousGenerated, previousRoute, previousState);
    BodySets();

    var ok := Write(disk, Generated, d.generated, w, {});
    if !ok {
      report := Withdraw(disk, plan, Unwritten(Generated), w);
      return;
    }
    ok := Write(disk, Route, d.route, w, {Generated});
    if !ok {
      ok := Restore(disk, Generated, previousGenerated, PRIVATE, w, {Generated});
      if !ok { return Failed(Unrestored(Generated)); }
      report := Withdraw(disk, plan, Unwritten(Route), w);
      return;
    }
    ok := Write(disk, Config, d.config, w, {Generated, Route});
    if !ok {
      ok := Restore(disk, Route, previousRoute, PRIVATE, w, {Generated, Route});
      if !ok { return Failed(Unrestored(Route)); }
      ok := Restore(disk, Generated, previousGenerated, PRIVATE, w, {Generated});
      if !ok { return Failed(Unrestored(Generated)); }
      report := Withdraw(disk, plan, Unwritten(Config), w);
      return;
    }
    report := SealInstall(disk, plan, d, previousGenerated, previousRoute, previousState, w);
  }

  /** The last write of an install, the state, and the end of the plan. */
  method SealInstall(
      disk: Disk, plan: Plan, d: Draft, previousGenerated: Option<Content>, previousRoute: Option<Content>,
      previousState: Option<Content>, ghost w: Watch)
    returns (report: Report)
    requires PlannedFrom(w.before, plan) && w.entry == Backed(w.before, plan)
    requires d == w.d && (w.held ==> Receipted(w.before, plan, d))
    requires Entry(w.entry, Generated, previousGenerated, PRIVATE) && Entry(w.entry, Route, previousRoute, PRIVATE)
    requires Entry(w.entry, State, previousState, PRIVATE) && Entry(w.entry, Config, plan.current, plan.previousMode)
    requires Watched(w, disk.history, disk.files) && SameExcept(disk.files, w.entry, BODY)
    requires disk.files[State := File(Managed(d.state), PRIVATE)] == Written(w.entry, d, PRIVATE)
    modifies disk
    ensures report.Done? || report.Failed?
    ensures report.Done? ==> disk.failures == old(disk.failures)
    ensures report.Done? ==> disk.files == Settled(Written(w.entry, d, PRIVATE), plan)
    ensures report.Failed? ==> disk.failures > old(disk.failures)
    ensures RestoreFailed(report) ==> disk.failures >= old(disk.failures) + 2
    ensures report.Failed? && !RestoreFailed(report) ==>
      Stopped(w.before, disk.files, plan, Written(w.entry, d, PRIVATE), report.error)
    ensures Watched(w, disk.history, disk.files) && old(disk.history) <= disk.history
  {
    hide BackupHeld, HeldSince, Watched, SameExcept, Entry, Restored, Settled, Backed, Receipted, PlannedFrom, Written,
         Identified;
    BodySets();
    var ok := WriteState(disk, plan, d, PRIVATE, w);
    if !ok {
      ok := Restore(disk, Config, plan.current, plan.previousMode, w, BODY);
      if !ok { return Failed(Unrestored(Config)); }
      ok := Restore(disk, Generated, previousGenerated, PRIVATE, w, {Generated, Route});
      if !ok { return Failed(Unrestored(Generated)); }
      ok := Restore(disk, Route, previousRoute, PRIVATE, w, {Route});
      if !ok { return Failed(Unrestored(Route)); }
      ok := Restore(disk, State, previousState, PRIVATE, w, {});
      if !ok { return Failed(Unrestored(State)); }
      report := Withdraw(disk, plan, Unwritten(State), w);
      return;
    }
    report := Conclude(disk, plan, d, PRIVATE, w);
  }

  function Only(changed: bool, path: Path): set<Path> {
    if changed then {path} else {}
  }

  method WriteIf(
      disk: Disk, changed: bool, path: Path, content: Content, mode: Mode, ghost w: Watch, ghost others: set<Path>)
    returns (ok: bool)
    requires path in BODY && others <= BODY && (path == Config ==> content == w.d.config)
    requires Watched(w, disk.history, disk.files) && SameExcept(disk.files, w.entry, others)
    requires !changed ==> path in disk.files && disk.files[path] == File(content, mode)
    requires changed ==> mode == PRIVATE
    modifies disk
    ensures ok ==> disk.files == old(disk.files)[path := File(content, mode)] && disk.failures == old(disk.failures)
    ensures ok ==> SameExcept(disk.files, w.entry, others + Only(changed, path))
    ensures !ok ==> disk.files == old(disk.files) && disk.failures == old(disk.failures) + 1
    ensures Watched(w, disk.history, disk.files) && old(disk.history) <= disk.history
  {
    hide BackupHeld, HeldSince, SameExcept, Watched;
    ok := true;
    if changed {
      ok := Write(disk, path, content, w, others);
    } else {
      assert others + Only(changed, path) == others;
    }
  }

  method RestoreIf(
      disk: Disk, changed: bool, path: Path, previous: Option<Content>, mode: Mode, ghost w: Watch,
      ghost others: set<Path>)
    returns (ok: bool)
    requires path in BODY && path !in others && others <= BODY && Entry(w.entry, path, previous, mode)
    requires Watched(w, disk.history, disk.files) && SameExcept(disk.files, w.entry, others + Only(changed, path))
    modifies disk
    ensures ok ==> SameExcept(disk.files, w.entry, others) && disk.failures == old(disk.failures)
    ensures !ok ==> disk.failures == old(disk.failures) + 1
    ensures Watched(w, disk.history, disk.files) && old(disk.history) <= disk.history
  {
    hide BackupHeld, HeldSince, SameExcept, Watched, Entry;
    ok := true;
    if changed {
      assert others + Only(changed, path) - {path} == others;
      ok := Restore(disk, path, previous, mode, w, others + Only(changed, path));
    } else {
      assert others + Only(changed, path) == others;
    }
  }

  function Wrote(generated: bool, route: bool, config: bool): set<Path> {
    Only(generated, Generated) + Only(route, Route) + Only(config, Config)
  }

  lemma WroteSets(a: bool, b: bool, c: bool)
    ensures {} == Wrote(false, false, false)
    ensures Wrote(false, false, false) + Only(a, Generated) == Wrote(a, false, false)
    ensures Wrote(a, false, false) + Only(b, Route) == Wrote(a, b, false)
    ensures Wrote(a, b, false) + Only(c, Config) == Wrote(a, b, c)
    ensures Generated !in Wrote(false, false, false) && Route !in Wrote(a, false, false)
    ensures Config !in Wrote(a, b, false)
    ensures Wrote(a, false, false) <= BODY && Wrote(a, b, false) <= BODY && Wrote(a, b, c) <= BODY
  {
  }

  lemma FewerChanged(files: Files, entry: Files, some: set<Path>, more: set<Path>)
    requires SameExcept(files, entry, some) && some <= more
    ensures SameExcept(files, entry, more)
  {
  }

  /** Compensates what a synchronisation wrote, newest first, and withdraws the plan. */
  method Unwind(
      disk: Disk, plan: Plan, error: Error, generated: bool, route: bool, config: bool,
      previousGenerated: Content, previousRoute: Content, ghost w: Watch)
    returns (report: Report)
    requires PlannedFrom(w.before, plan) && w.entry == Backed(w.before, plan)
    requires Entry(w.entry, Generated, Some(previousGenerated), PRIVATE)
    requires Entry(w.entry, Route, Some(previousRoute), PRIVATE)
    requires Entry(w.entry, Config, plan.current, plan.previousMode)
    requires Watched(w, disk.history, disk.files) && SameExcept(disk.files, w.entry, Wrote(generated, route, config))
    requires !error.Unrestored?
    modifies disk
    ensures report.Failed? && disk.failures >= old(disk.failures)
    ensures RestoreFailed(report) ==> disk.failures > old(disk.failures)
    ensures !RestoreFailed(report) ==>
      (disk.files == w.before && report.error == error)
      || (plan.added.Some? && report.error == Unremoved(plan.added.value) && disk.files == w.entry)
    ensures Watched(w, disk.history, disk.files) && old(disk.history) <= disk.history
  {
    hide BackupHeld, HeldSince, Watched, SameExcept, Entry, Backed, PlannedFrom, Only, Wrote;
    WroteSets(generated, route, config);
    var ok := RestoreIf(disk, config, Config, plan.current, plan.previousMode, w, Wrote(generated, route, false));
    if !ok { return Failed(Unrestored(Config)); }
    ok := RestoreIf(disk, route, Route, Some(previousRoute), PRIVATE, w, Wrote(generated, false, false));
    if !ok { return Failed(Unrestored(Route)); }
    ok := RestoreIf(disk, generated, Generated, Some(previousGenerated), PRIVATE, w, Wrote(false, false, false));
    if !ok { return Failed(Unrestored(Generated)); }
    report := Withdraw(disk, plan, error, w);
  }

  /** A synchronisation writes what changed, and compensates what it wrote. */
  method PublishSync(
      disk: Disk, plan: Plan, d: Draft, previousGenerated: Content, previousRoute: Content, previousState: Content,
      ghost before: Files)
    returns (report: Report)
    requires PlannedFrom(before, plan) && disk.files == Backed(before, plan)
    requires EntryRead(before, Some(previousGenerated), Some(previousRoute), Some(previousState))
    modifies disk
    ensures report.Done? || report.Failed?
    ensures report.Done? ==> disk.failures == old(disk.failures)
    ensures report.Done? ==> disk.files == Settled(Written(Backed(before, plan), d, SyncedMode(plan, d)), plan)
    ensures report.Failed? ==> disk.failures > old(disk.failures)
    ensures RestoreFailed(report) ==> disk.failures >= old(disk.failures) + 2
    ensures report.Failed? && !RestoreFailed(report) ==>
      Stopped(before, disk.files, plan, Written(Backed(before, plan), d, SyncedMode(plan, d)), report.error)
    ensures old(disk.history) <= disk.history
    ensures Watched(WatchOf(before, plan, d, |old(disk.history)|), disk.history, disk.files)
  {
    hide BackupHeld, HeldSince, Watched, SameExcept, Entry, Restored, Settled, Withdrawn, Backed, Receipted, Identified;
    hide PlannedFrom, EntryRead, Only, Wrote, AcceptedMode, Written;
    ghost var w := WatchOf(before, plan, d, |disk.history|);
    BeginWatch(before, plan, d, disk.history);
    EntriesOf(before, plan, Some(previousGenerated), Some(previousRoute), Some(previousState));
    var generatedChanged := d.generated != previousGenerated;
    var routeChanged := d.route != previousRoute;
    var configChanged := plan.current != Some(d.config);
    var stateChanged := Managed(d.state) != previousState;
    WroteSets(generatedChanged, routeChanged, configChanged);
    EntryValue(disk.files, plan, previousGenerated, previousRoute, previousState);

    var ok := WriteIf(disk, generatedChanged, Generated, d.generated, PRIVATE, w, Wrote(false, false, false));
    if !ok {
      report := Unwind(disk, plan, Unwritten(Generated), false, false, false, previousGenerated, previousRoute, w);
      return;
    }
    ok := WriteIf(disk, routeChanged, Route, d.route, PRIVATE, w, Wrote(generatedChanged, false, false));
    if !ok {
      report := Unwind(
        disk, plan, Unwritten(Route), generatedChanged, false, false, previousGenerated, previousRoute, w);
      return;
    }
    ok := WriteIf(
      disk, configChanged, Config, d.config, SyncedMode(plan, d), w, Wrote(generatedChanged, routeChanged, false));
    if !ok {
      report := Unwind(
        disk, plan, Unwritten(Config), generatedChanged, routeChanged, false, previousGenerated, previousRoute, w);
      return;
    }
    WrittenInSteps(Backed(before, plan), disk.files, d, SyncedMode(plan, d), previousState);
    report := SealSync(
      disk, plan, d, generatedChanged, routeChanged, configChanged, stateChanged, previousGenerated, previousRoute, w);
  }

  /** The last step of a synchronisation: the state, if it changed, and the end of the plan. */
  method SealSync(
      disk: Disk, plan: Plan, d: Draft, generated: bool, route: bool, config: bool, state: bool,
      previousGenerated: Content, previousRoute: Content, ghost w: Watch)
    returns (report: Report)
    requires PlannedFrom(w.before, plan) && w.entry == Backed(w.before, plan)
    requires d == w.d && (w.held ==> Receipted(w.before, plan, d))
    requires Entry(w.entry, Generated, Some(previousGenerated), PRIVATE)
    requires Entry(w.entry, Route, Some(previousRoute), PRIVATE)
    requires Entry(w.entry, Config, plan.current, plan.previousMode)
    requires Watched(w, disk.history, disk.files) && SameExcept(disk.files, w.entry, Wrote(generated, route, config))
    requires disk.files[State := File(Managed(d.state), PRIVATE)] == Written(w.entry, d, SyncedMode(plan, d))
    requires !state ==> disk.files == Written(w.entry, d, SyncedMode(plan, d))
    modifies disk
    ensures report.Done? || report.Failed?
    ensures report.Done? ==> disk.failures == old(disk.failures)
    ensures report.Done? ==> disk.files == Settled(Written(w.entry, d, SyncedMode(plan, d)), plan)
    ensures report.Failed? ==> disk.failures > old(disk.failures)
    ensures RestoreFailed(report) ==> disk.failures >= old(disk.failures) + 2
    ensures report.Failed? && !RestoreFailed(report) ==>
      Stopped(w.before, disk.files, plan, Written(w.entry, d, SyncedMode(plan, d)), report.error)
    ensures Watched(w, disk.history, disk.files) && old(disk.history) <= disk.history
  {
    hide BackupHeld, HeldSince, Watched, SameExcept, Entry, Restored, Settled, Backed, Receipted, PlannedFrom, Only,
         Wrote, Written, Identified;
    SyncedModeAccepted(w.before, plan, d);
    if state {
      WroteSets(generated, route, config);
      FewerChanged(disk.files, w.entry, Wrote(generated, route, config), BODY);
      var ok := WriteState(disk, plan, d, SyncedMode(plan, d), w);
      if !ok {
        report := Unwind(disk, plan, Unwritten(State), generated, route, config, previousGenerated, previousRoute, w);
        return;
      }
    }
    report := Conclude(disk, plan, d, SyncedMode(plan, d), w);
  }

  lemma WrittenInSteps(entry: Files, files: Files, d: Draft, configMode: Mode, state: Content)
    requires State in entry && entry[State] == File(state, PRIVATE)
    requires files == entry[Generated := File(d.generated, PRIVATE)][Route := File(d.route, PRIVATE)]
                           [Config := File(d.config, configMode)]
    ensures files[State := File(Managed(d.state), PRIVATE)] == Written(entry, d, configMode)
    ensures Managed(d.state) == state ==> files == Written(entry, d, configMode)
  {
  }

  /** A configuration that did not change is not rewritten and keeps its mode. */
  function SyncedMode(plan: Plan, d: Draft): Mode {
    if plan.current != Some(d.config) then PRIVATE else plan.previousMode
  }

  lemma SyncedModeAccepted(before: Files, plan: Plan, d: Draft)
    requires PlannedFrom(before, plan)
    ensures AcceptedMode(SyncedMode(plan, d))
  {
  }

  lemma EntryValue(entry: Files, plan: Plan, generated: Content, route: Content, state: Content)
    requires Entry(entry, Generated, Some(generated), PRIVATE) && Entry(entry, Route, Some(route), PRIVATE)
    requires Entry(entry, State, Some(state), PRIVATE) && Entry(entry, Config, plan.current, plan.previousMode)
    ensures Generated in entry && entry[Generated] == File(generated, PRIVATE)
    ensures Route in entry && entry[Route] == File(route, PRIVATE)
    ensures State in entry && entry[State] == File(state, PRIVATE)
    ensures plan.current.Some? ==> Config in entry && entry[Config] == File(plan.current.value, plan.previousMode)
  {
  }

  // ---------------------------------------------------------------------
  // What a call aims at
  // ---------------------------------------------------------------------

  function DraftOf(native: Identity, settings: Settings, plan: Plan, c: Composed): Option<Draft> {
    match Render(plan.base, settings)
    case Err(_) => None
    case Ok(text) =>
      var s := ManagedState(
        native, c.grok, Identity(Generated, Text(c.generated)), Identity(Route, Text(c.route)),
        Identity(Config, Text(text)), plan.rollback);
      if Valid(s) then Some(Draft(Text(c.generated), Text(c.route), Text(text), s)) else None
  }

  /** The plan and the draft of a call that meets no refusal. */
  ghost function Goal(
      before: Files, prior: Option<ManagedState>, native: Path, inputs: Inputs, spare: Path): Option<(Plan, Draft)>
    requires native in before
  {
    match PlanOf(before, prior, inputs.toml, spare)
    case None => None
    case Some(plan) =>
      match inputs.compose(plan.base)
      case None => None
      case Some(c) =>
        match DraftOf(Identity(native, before[native].content), inputs.settings, plan, c)
        case None => None
        case Some(d) => Some((plan, d))
  }

  ghost function Target(before: Files, plan: Plan, d: Draft, configMode: Mode): Files {
    Written(Backed(before, plan), d, configMode)
  }

  /**
  One publication in which no compensating write failed: everything is published, or nothing
  changed apart from an unreferenced backup, or everything is published and only the replaced
  backup is still there.
  */
  ghost predicate Published(
      before: Files, after: Files, prior: Option<ManagedState>, native: Path, inputs: Inputs, spare: Path,
      sync: bool, report: Report)
  {
    match report
    case Absent => false
    case Done =>
      && native in before && Goal(before, prior, native, inputs, spare).Some?
      && var (plan, d) := Goal(before, prior, native, inputs, spare).value;
      after == Settled(Target(before, plan, d, if sync then SyncedMode(plan, d) else PRIVATE), plan)
    case Failed(Rejected) => SpareOnly(before, after, spare)
    case Failed(Unwritten(p)) =>
      if p == spare then SpareOnly(before, after, spare) else p in BODY + {State} && after == before
    case Failed(Unremoved(p)) =>
      || (p == spare && SpareOnly(before, after, spare))
      || (&& native in before && Goal(before, prior, native, inputs, spare).Some?
          && var (plan, d) := Goal(before, prior, native, inputs, spare).value;
          plan.superseded.Some? && p == plan.superseded.value.path
          && after == Target(before, plan, d, if sync then SyncedMode(plan, d) else PRIVATE))
    case Failed(Unrestored(_)) => false
  }

  // ---------------------------------------------------------------------
  // What a call that succeeds leaves on the disk
  // ---------------------------------------------------------------------

  /**
  The text a call renders into: nothing without a configuration, the configuration itself, or,
  when the installed one was rewritten by another program, that one without the picker's keys.
  */
  ghost predicate IsBase(before: Files, prior: Option<ManagedState>, toml: Toml, base: string) {
    if Config !in before then prior.None? && base == ""
    else
      && before[Config].content.Text? && before[Config].mode in {0x180, 0x1A4}
      && var text := before[Config].content.text;
      if prior.Some? && prior.value.config.content != Text(text)
      then Count(PICKER_BEGIN, text) <= 1 && Count(PICKER_END, text) <= 1
           && toml.claims(text) == Some(true) && toml.strip(text) == Some(base)
      else base == text
  }

  /** The composed bytes stand under their own names, and the state names exactly what is there. */
  ghost predicate Holds(before: Files, after: Files, native: Path, inputs: Inputs, base: string) {
    && native in before && inputs.compose(base).Some? && Render(base, inputs.settings).Ok?
    && var c, text := inputs.compose(base).value, Render(base, inputs.settings).value;
    && Generated in after && after[Generated] == File(Text(c.generated), PRIVATE)
    && Route in after && after[Route] == File(Text(c.route), PRIVATE)
    && Config in after && after[Config].content == Text(text)
    && State in after && after[State].mode == PRIVATE && after[State].content.Managed?
    && var s := after[State].content.state;
    && s.grok == c.grok && s.native == Identity(native, before[native].content)
    && s.generated == Identity(Generated, Text(c.generated)) && s.route == Identity(Route, Text(c.route))
    && s.config == Identity(Config, Text(text))
  }

  /** The way back that the new state records, and the backup it needs. */
  ghost predicate Receipts(before: Files, after: Files, prior: Option<ManagedState>, spare: Path, base: string) {
    && State in after && after[State].content.Managed?
    && var rollback := after[State].content.state.rollback;
    if Config !in before then rollback == RemoveCreated
    else if prior.Some? && prior.value.config.content == before[Config].content then rollback == prior.value.rollback
    else
      && rollback == RestoreExactBackup(Identity(spare, Text(base)), before[Config].mode)
      && spare in after && after[spare] == File(Text(base), PRIVATE)
      && (prior.Some? && prior.value.rollback.RestoreExactBackup? ==> prior.value.rollback.backup.path !in after)
  }

  /** An install makes the configuration private; a synchronisation leaves one that it does not change. */
  ghost predicate ConfigModeKept(before: Files, after: Files, sync: bool) {
    Config in after &&
    after[Config].mode ==
      if sync && Config in before && before[Config].content == after[Config].content then before[Config].mode
      else PRIVATE
  }

  ghost predicate Delivered(
      before: Files, after: Files, prior: Option<ManagedState>, native: Path, inputs: Inputs, spare: Path, sync: bool)
  {
    && (exists base ::
          && IsBase(before, prior, inputs.toml, base)
          && Holds(before, after, native, inputs, base) && Receipts(before, after, prior, spare, base))
    && ConfigModeKept(before, after, sync)
    && (forall p :: p !in {Generated, Route, Config, State} && !p.Backup? ==> Same(after, before, p))
  }

  lemma PlanHasBase(before: Files, prior: Option<ManagedState>, toml: Toml, spare: Path)
    requires PlanOf(before, prior, toml, spare).Some? && (prior.Some? ==> Valid(prior.value))
    ensures var plan := PlanOf(before, prior, toml, spare).value;
            && IsBase(before, prior, toml, plan.base)
            && (Config in before ==>
                  plan.current == Some(before[Config].content) && plan.previousMode == before[Config].mode)
            && (plan.current.Some? ==> Config in before)
  {
    hide MarkerCount, Count, Valid;
  }

  lemma GoalHolds(
      before: Files, prior: Option<ManagedState>, native: Path, inputs: Inputs, spare: Path, configMode: Mode)
    requires native in before && Goal(before, prior, native, inputs, spare).Some?
    requires PlannedFrom(before, Goal(before, prior, native, inputs, spare).value.0)
    ensures var (plan, d) := Goal(before, prior, native, inputs, spare).value;
            && Holds(before, Settled(Target(before, plan, d, configMode), plan), native, inputs, plan.base)
            && PlanOf(before, prior, inputs.toml, spare) == Some(plan)
            && d.state.rollback == plan.rollback
  {
    hide PlanOf, Render, Valid;
  }

  lemma TargetReceipts(
      before: Files, prior: Option<ManagedState>, toml: Toml, spare: Path, d: Draft, configMode: Mode)
    requires PlanOf(before, prior, toml, spare).Some? && NewName(prior, spare)
    requires var plan := PlanOf(before, prior, toml, spare).value;
             PlannedFrom(before, plan) && d.state.rollback == plan.rollback
    ensures var plan := PlanOf(before, prior, toml, spare).value;
            Receipts(before, Settled(Target(before, plan, d, configMode), plan), prior, spare, plan.base)
  {
    hide MarkerCount, Recover;
  }

  lemma TargetElsewhere(before: Files, plan: Plan, d: Draft, configMode: Mode)
    requires PlannedFrom(before, plan)
    ensures var after := Settled(Target(before, plan, d, configMode), plan);
            && Config in after && after[Config] == File(d.config, configMode)
            && (forall p :: p !in {Generated, Route, Config, State} && !p.Backup? ==> Same(after, before, p))
  {
  }

  /** A call that reports success has delivered what was composed. */
  lemma DoneDelivers(
      before: Files, after: Files, prior: Option<ManagedState>, native: Path, inputs: Inputs, spare: Path, sync: bool)
    requires ReadState(before) == Ok(prior) && FreshName(before, spare)
    requires Published(before, after, prior, native, inputs, spare, sync, Done)
    ensures Delivered(before, after, prior, native, inputs, spare, sync)
  {
    hide Goal, PlanOf, Target, Settled, Holds, Receipts, IsBase, PlannedFrom, BackupHeld, Receipted, NewName, Valid,
         ReadState;
    StateIsValid(before, prior, spare);
    GoalIsPlanned(before, prior, native, inputs, spare);
    var (plan, d) := Goal(before, prior, native, inputs, spare).value;
    var mode := if sync then SyncedMode(plan, d) else PRIVATE;
    GoalHolds(before, prior, native, inputs, spare, mode);
    PlanHasBase(before, prior, inputs.toml, spare);
    TargetReceipts(before, prior, inputs.toml, spare, d, mode);
    TargetElsewhere(before, plan, d, mode);
  }

  lemma PlanIsFrom(before: Files, prior: Option<ManagedState>, toml: Toml, spare: Path)
    requires NewName(prior, spare) && PlanOf(before, prior, toml, spare).Some?
    requires prior.Some? ==> Valid(prior.value)
    ensures PlannedFrom(before, PlanOf(before, prior, toml, spare).value)
    ensures PlanOf(before, prior, toml, spare).value.added in {None, Some(spare)}
  {
    hide Recover, MarkerCount;
  }

  lemma PlanHonoursReceipt(before: Files, prior: Option<ManagedState>, toml: Toml, spare: Path, d: Draft)
    requires NewName(prior, spare) && PlanOf(before, prior, toml, spare).Some?
    requires ReadState(before) == Ok(prior) && BackupHeld(before)
    requires d.state.rollback == PlanOf(before, prior, toml, spare).value.rollback
    ensures Receipted(before, PlanOf(before, prior, toml, spare).value, d)
  {
    hide Recover, MarkerCount;
  }

  lemma SpareHeld(before: Files, after: Files, spare: Path)
    requires spare.Backup? && SpareOnly(before, after, spare) && BackupHeld(before)
    ensures BackupHeld(after)
  {
    if after != before {
      assert forall p :: p in before ==> p in after - {spare};
    }
  }

  lemma BackedIsSpare(before: Files, plan: Plan, spare: Path)
    requires PlannedFrom(before, plan) && plan.added in {None, Some(spare)}
    ensures SpareOnly(before, Backed(before, plan), spare)
  {
    WithdrawUndoes(before, plan);
  }

  ghost predicate FreshName(files: Files, spare: Path) {
    spare.Backup? && (ReadState(files).Ok? ==> NewName(ReadState(files).value, spare))
  }

  lemma HistoryStart(before: Files, start: nat, earlier: seq<Files>, history: seq<Files>, files: Files, spare: Path)
    requires start == |earlier| && (history == earlier + [files] || history == earlier)
    requires spare.Backup? && SpareOnly(before, files, spare)
    ensures BackupHeld(before) ==> HeldSince(history, start)
    ensures SpareSince(history, start, before, spare)
  {
    hide SpareOnly, BackupHeld;
    if BackupHeld(before) { SpareHeld(before, files, spare); }
  }

  // ---------------------------------------------------------------------
  // The two publishing calls
  // ---------------------------------------------------------------------

  /**
  Where a process that stops between two operations of a call can leave the disk: as before the
  call up to a spare backup, or at a moment of the publication that the call aims at.
  */
  ghost predicate Point(
      before: Files, files: Files, prior: Option<ManagedState>, native: Path, inputs: Inputs, spare: Path)
  {
    || SpareOnly(before, files, spare)
    || (&& native in before && Goal(before, prior, native, inputs, spare).Some?
        && var (plan, d) := Goal(before, prior, native, inputs, spare).value;
        Moment(Backed(before, plan), d, files))
  }

  ghost predicate PointsSince(
      history: seq<Files>, start: nat, before: Files, prior: Option<ManagedState>, native: Path, inputs: Inputs,
      spare: Path)
  {
    forall k :: start <= k < |history| ==> Point(before, history[k], prior, native, inputs, spare)
  }

  ghost predicate SpareSince(history: seq<Files>, start: nat, before: Files, spare: Path) {
    forall k :: start <= k < |history| ==> SpareOnly(before, history[k], spare)
  }

  lemma PointsGiven(
      before: Files, prior: Option<ManagedState>, native: Path, inputs: Inputs, spare: Path, h: seq<Files>, start: nat,
      history: seq<Files>, files: Files)
    requires native in before && Goal(before, prior, native, inputs, spare).Some?
    requires start <= |h| && h <= history && SpareSince(h, start, before, spare)
    requires var (plan, d) := Goal(before, prior, native, inputs, spare).value;
             Watched(WatchOf(before, plan, d, |h|), history, files)
    ensures PointsSince(history, start, before, prior, native, inputs, spare)
  {
    hide BackupHeld, Receipted, Goal, SpareOnly, Moment, Backed, HeldSince, ConfigStage;
    var (plan, d) := Goal(before, prior, native, inputs, spare).value;
    forall k | start <= k < |history|
      ensures Point(before, history[k], prior, native, inputs, spare)
    {
      if k < |h| {
        assert history[k] == h[k];
      } else {
        assert Moment(Backed(before, plan), d, history[k]);
      }
    }
  }

  lemma SparePoints(
      history: seq<Files>, start: nat, before: Files, prior: Option<ManagedState>, native: Path, inputs: Inputs,
      spare: Path)
    requires SpareSince(history, start, before, spare)
    ensures PointsSince(history, start, before, prior, native, inputs, spare)
  {
    hide SpareOnly, Goal;
  }

  lemma WatchGives(
      before: Files, plan: Plan, d: Draft, start: nat, middle: nat, h: seq<Files>, history: seq<Files>, files: Files)
    requires start <= middle == |h| && h <= history
    requires BackupHeld(before) ==> HeldSince(h, start) && Receipted(before, plan, d)
    requires Watched(WatchOf(before, plan, d, middle), history, files)
    ensures BackupHeld(before) ==> HeldSince(history, start)
  {
    hide BackupHeld, Receipted, ConfigStage, Moment;
    if BackupHeld(before) {
      forall k | start <= k < |history|
        ensures BackupHeld(history[k])
      {
        if k < middle { assert history[k] == h[k]; }
      }
    }
  }

  /**
  Plans the configuration and renders everything that will be written; a synchronisation withdraws
  every failed plan.
  */
  method DrawUp(disk: Disk, prior: Option<ManagedState>, native: Path, inputs: Inputs, spare: Path, sync: bool)
    returns (r: Result<(Plan, Draft), Error>)
    requires native in disk.files && ReadState(disk.files) == Ok(prior) && FreshName(disk.files, spare)
    modifies disk
    ensures r.Ok? ==> Goal(old(disk.files), prior, native, inputs, spare) == Some(r.value)
    ensures r.Ok? ==> disk.files == Backed(old(disk.files), r.value.0) && disk.failures == old(disk.failures)
    ensures r.Err? ==> SpareOnly(old(disk.files), disk.files, spare)
    ensures r.Err? ==> r.error in {Rejected, Unwritten(spare), Unremoved(spare)}
    ensures r == Err(Rejected) ==> Goal(old(disk.files), prior, native, inputs, spare).None?
    ensures r.Err? && r.error != Rejected ==> disk.failures > old(disk.failures)
    ensures disk.failures >= old(disk.failures) && old(disk.history) <= disk.history
    ensures SpareSince(disk.history, |old(disk.history)|, old(disk.files), spare)
    ensures BackupHeld(old(disk.files)) ==> HeldSince(disk.history, |old(disk.history)|)
  {
    hide PlanOf, Valid, Recover, BackupHeld, HeldSince, Backed, Withdrawn, PlannedFrom, NewName, Render, ReadState,
         SpareOnly, SpareSince;
    ghost var before, h := disk.files, disk.history;
    StateIsValid(before, prior, spare);
    var prepared := PreparePickerConfig(disk, prior, inputs.toml, spare);
    if prepared.Err? {
      HistoryStart(before, |h|, h, disk.history, disk.files, spare);
      return Err(prepared.error);
    }
    var plan := prepared.value;
    PlanIsFrom(before, prior, inputs.toml, spare);
    BackedIsSpare(before, plan, spare);
    HistoryStart(before, |h|, h, disk.history, disk.files, spare);
    assert old(disk.history) <= disk.history;
    var composed := inputs.compose(plan.base);
    if composed.None? && !sync {
      return Err(Rejected);
    }
    var d := if composed.None? then None
             else DraftOf(Identity(native, disk.files[native].content), inputs.settings, plan, composed.value);
    if d.None? {
      ghost var h1 := disk.history;
      var report := Abort(disk, plan, Rejected);
      WithdrawUndoes(before, plan);
      NothingSpared(before, spare);
      HistoryMore(before, |h|, h1, disk.history, disk.files, spare);
      return Err(report.error);
    }
    return Ok((plan, d.value));
  }

  lemma NothingSpared(before: Files, spare: Path)
    ensures SpareOnly(before, before, spare)
  {
  }

  lemma StateIsValid(files: Files, prior: Option<ManagedState>, spare: Path)
    requires ReadState(files) == Ok(prior) && FreshName(files, spare)
    ensures NewName(prior, spare) && spare.Backup? && (prior.Some? ==> Valid(prior.value))
  {
  }

  lemma HistoryMore(before: Files, start: nat, earlier: seq<Files>, history: seq<Files>, files: Files, spare: Path)
    requires start <= |earlier| && (history == earlier + [files] || history == earlier)
    requires SpareSince(earlier, start, before, spare) && (BackupHeld(before) ==> HeldSince(earlier, start))
    requires spare.Backup? && SpareOnly(before, files, spare)
    ensures BackupHeld(before) ==> HeldSince(history, start)
    ensures SpareSince(history, start, before, spare)
  {
    hide SpareOnly, BackupHeld;
    if BackupHeld(before) { SpareHeld(before, files, spare); }
  }

  /**
  Installs or updates the picker. Unless a compensating operation fails, the call is atomic up
  to an unreferenced backup; whatever fails, every moment honours the published receipt.
  */
  method InstallPicker(disk: Disk, native: Path, inputs: Inputs, spare: Path) returns (report: Report)
    requires FreshName(disk.files, spare)
    modifies disk
    ensures RestoreFailed(report) ==> disk.failures >= old(disk.failures) + 2
    ensures !RestoreFailed(report) ==>
      InstallStep(old(disk.files), disk.files, native, inputs, spare, report)
    ensures report.Failed? && report.error != Rejected ==> disk.failures > old(disk.failures)
    ensures old(disk.history) <= disk.history
    ensures BackupHeld(old(disk.files)) ==> HeldSince(disk.history, |old(disk.history)|)
    ensures match ReadState(old(disk.files))
            case Err(_) => disk.history == old(disk.history)
            case Ok(prior) =>
              PointsSince(disk.history, |old(disk.history)|, old(disk.files), prior, native, inputs, spare)
    ensures report.Done? ==>
      && ReadState(old(disk.files)).Ok?
      && Delivered(old(disk.files), disk.files, ReadState(old(disk.files)).value, native, inputs, spare, false)
  {
    hide BackupHeld, HeldSince, Watched, Backed, Settled, Written, Goal, FreshName, ReadState, PlannedFrom, PlanOf,
         Receipted, NewName, Stopped, Published, SpareOnly, SpareSince, PointsSince, Identified, Valid, InstallStep,
         ReadOptional, EntryRead, Delivered;
    ghost var before, h0 := disk.files, disk.history;
    NothingSpared(before, spare);
    NoHistory(h0, before, spare);
    if ReadState(before).Ok? { SparePoints(h0, |h0|, before, ReadState(before).value, native, inputs, spare); }
    if !inputs.admitted || native !in disk.files {
      InstallRefused(before, native, inputs, spare);
      return Failed(Rejected);
    }
    var prior := ReadState(disk.files);
    var previousGenerated := ReadOptional(disk.files, Generated);
    var previousRoute := ReadOptional(disk.files, Route);
    var previousState := ReadOptional(disk.files, State);
    StateReadable(before);
    if prior.Err? || previousGenerated.Err? || previousRoute.Err? || previousState.Err? {
      InstallRefused(before, native, inputs, spare);
      return Failed(Rejected);
    }
    var drawn := DrawUp(disk, prior.value, native, inputs, spare, false);
    SparePoints(disk.history, |h0|, before, prior.value, native, inputs, spare);
    if drawn.Err? {
      DrawingEnds(before, disk.files, prior.value, native, inputs, spare, false, drawn.error);
      InstallEnds(before, disk.files, prior.value, native, inputs, spare, Failed(drawn.error));
      return Failed(drawn.error);
    }
    var (plan, d) := drawn.value;
    ghost var h := disk.history;
    GoalIsPlanned(before, prior.value, native, inputs, spare);
    EntriesRead(before);
    report := PublishInstall(
      disk, plan, d, previousGenerated.value, previousRoute.value, previousState.value, before);
    WatchGives(before, plan, d, |h0|, |h|, h, disk.history, disk.files);
    PointsGiven(before, prior.value, native, inputs, spare, h, |h0|, disk.history, disk.files);
    StateIsValid(before, prior.value, spare);
    if !RestoreFailed(report) {
      PublicationEnds(before, disk.files, prior.value, native, inputs, spare, false, report);
      InstallEnds(before, disk.files, prior.value, native, inputs, spare, report);
      if report.Done? { DoneDelivers(before, disk.files, prior.value, native, inputs, spare, false); }
    }
  }

  lemma InstallRefused(before: Files, native: Path, inputs: Inputs, spare: Path)
    requires ReadState(before).Ok? ==>
      !(&& inputs.admitted && native in before
        && ReadOptional(before, Generated).Ok? && ReadOptional(before, Route).Ok?)
    ensures InstallStep(before, before, native, inputs, spare, Failed(Rejected))
  {
    hide Goal, SpareOnly, ReadState;
    if ReadState(before).Ok? {
      NothingSpared(before, spare);
      DrawingEnds(before, before, ReadState(before).value, native, inputs, spare, false, Rejected);
    }
  }

  lemma InstallEnds(
      before: Files, after: Files, prior: Option<ManagedState>, native: Path, inputs: Inputs, spare: Path,
      report: Report)
    requires ReadState(before) == Ok(prior) && native in before
    requires Published(before, after, prior, native, inputs, spare, false, report)
    requires report == Failed(Rejected) ==> Goal(before, prior, native, inputs, spare).None?
    ensures InstallStep(before, after, native, inputs, spare, report)
  {
    hide Goal, Published, ReadState;
  }

  /** The outcome of the writes is the outcome of the call. */
  lemma PublicationEnds(
      before: Files, after: Files, prior: Option<ManagedState>, native: Path, inputs: Inputs, spare: Path, sync: bool,
      report: Report)
    requires native in before && Goal(before, prior, native, inputs, spare).Some?
    requires var (plan, d) := Goal(before, prior, native, inputs, spare).value;
             var target := Target(before, plan, d, if sync then SyncedMode(plan, d) else PRIVATE);
             match report
             case Done => after == Settled(target, plan)
             case Failed(error) => Stopped(before, after, plan, target, error)
             case Absent => false
    requires spare.Backup?
    requires var (plan, d) := Goal(before, prior, native, inputs, spare).value;
             PlannedFrom(before, plan) && plan.added in {None, Some(spare)}
    ensures Published(before, after, prior, native, inputs, spare, sync, report) && report != Failed(Rejected)
  {
    hide Goal, Target, Settled, PlannedFrom, Backed, SpareOnly;
    var (plan, d) := Goal(before, prior, native, inputs, spare).value;
    BackedIsSpare(before, plan, spare);
  }

  /** A call that ends before its first write leaves at most a spare backup. */
  lemma DrawingEnds(
      before: Files, after: Files, prior: Option<ManagedState>, native: Path, inputs: Inputs, spare: Path, sync: bool,
      error: Error)
    requires SpareOnly(before, after, spare) && error in {Rejected, Unwritten(spare), Unremoved(spare)}
    ensures Published(before, after, prior, native, inputs, spare, sync, Failed(error))
  {
    hide Goal, Target, Settled, SpareOnly;
  }

  /** Nothing on the disk or in the inputs stands in the way of a call. */
  ghost predicate Acceptable(before: Files, prior: Option<ManagedState>, native: Path, inputs: Inputs, spare: Path) {
    && inputs.admitted && native in before && ReadOptional(before, Generated).Ok? && ReadOptional(before, Route).Ok?
    && Goal(before, prior, native, inputs, spare).Some?
  }

  ghost predicate InstallStep(before: Files, after: Files, native: Path, inputs: Inputs, spare: Path, report: Report) {
    match ReadState(before)
    case Err(_) => report == Failed(Rejected) && after == before
    case Ok(prior) =>
      && Published(before, after, prior, native, inputs, spare, false, report)
      && (report == Failed(Rejected) ==> !Acceptable(before, prior, native, inputs, spare))
  }

  lemma StateReadable(files: Files)
    ensures ReadState(files).Ok? ==> ReadOptional(files, State).Ok?
  {
  }

  lemma EntriesRead(files: Files)
    requires ReadOptional(files, Generated).Ok? && ReadOptional(files, Route).Ok? && ReadOptional(files, State).Ok?
    ensures EntryRead(
              files, ReadOptional(files, Generated).value, ReadOptional(files, Route).value,
              ReadOptional(files, State).value)
  {
  }

  lemma NoHistory(h: seq<Files>, before: Files, spare: Path)
    ensures HeldSince(h, |h|) && SpareSince(h, |h|, before, spare)
  {
  }

  lemma GoalIsPlanned(before: Files, prior: Option<ManagedState>, native: Path, inputs: Inputs, spare: Path)
    requires native in before && ReadState(before) == Ok(prior) && FreshName(before, spare)
    requires Goal(before, prior, native, inputs, spare).Some?
    ensures var (plan, d) := Goal(before, prior, native, inputs, spare).value;
            && PlannedFrom(before, plan) && plan.added in {None, Some(spare)}
            && (BackupHeld(before) ==> Receipted(before, plan, d))
  {
    hide PlanOf, BackupHeld, Receipted, PlannedFrom, Render, NewName;
    StateIsValid(before, prior, spare);
    PlanIsFrom(before, prior, inputs.toml, spare);
    var (plan, d) := Goal(before, prior, native, inputs, spare).value;
    if BackupHeld(before) { PlanHonoursReceipt(before, prior, inputs.toml, spare, d); }
  }

  /** What a synchronisation demands of the installed picker. */
  ghost predicate Linked(files: Files, s: ManagedState) {
    && s.generated.path == Generated && s.route.path == Route
    && Identified(files, s.generated) && Identified(files, s.route)
  }

  ghost predicate SyncStep(before: Files, after: Files, inputs: Inputs, spare: Path, report: Report) {
    match ReadState(before)
    case Err(_) => report == Failed(Rejected) && after == before
    case Ok(None) => report.Absent? && after == before
    case Ok(Some(s)) =>
      && Published(before, after, Some(s), s.native.path, inputs, spare, true, report)
      && (after != before ==> Linked(before, s))
      && (report == Failed(Rejected) ==>
            !(Linked(before, s) && Acceptable(before, Some(s), s.native.path, inputs, spare)))
  }

  /** Brings an installed picker up to date with the refreshed catalogs. */
  method SyncInstalledPickerCatalog(disk: Disk, inputs: Inputs, spare: Path) returns (report: Report)
    requires FreshName(disk.files, spare)
    modifies disk
    ensures RestoreFailed(report) ==> disk.failures >= old(disk.failures) + 2
    ensures !RestoreFailed(report) ==> SyncStep(old(disk.files), disk.files, inputs, spare, report)
    ensures report.Failed? && report.error != Rejected ==> disk.failures > old(disk.failures)
    ensures old(disk.history) <= disk.history
    ensures BackupHeld(old(disk.files)) ==> HeldSince(disk.history, |old(disk.history)|)
    ensures match ReadState(old(disk.files))
            case Ok(Some(s)) =>
              PointsSince(disk.history, |old(disk.history)|, old(disk.files), Some(s), s.native.path, inputs, spare)
            case _ => disk.history == old(disk.history)
    ensures report.Done? ==>
      match ReadState(old(disk.files))
      case Ok(Some(s)) =>
        && Delivered(old(disk.files), disk.files, Some(s), s.native.path, inputs, spare, true)
        && Generated in old(disk.files) && old(disk.files)[Generated] == File(s.generated.content, PRIVATE)
        && Route in old(disk.files) && old(disk.files)[Route] == File(s.route.content, PRIVATE)
      case _ => false
  {
    hide BackupHeld, HeldSince, Watched, Backed, Settled, Written, Goal, FreshName, PlannedFrom, PlanOf, Receipted,
         NewName, Valid, Stopped, SpareSince, PointsSince, Delivered;
    ghost var before, h0 := disk.files, disk.history;
    NothingSpared(before, spare);
    NoHistory(h0, before, spare);
    var prior := ReadState(disk.files);
    if prior.Err? {
      return Failed(Rejected);
    }
    if prior.value.None? {
      return Absent;
    }
    var s := prior.value.value;
    SparePoints(h0, |h0|, before, Some(s), s.native.path, inputs, spare);
    if s.generated.path != Generated || s.route.path != Route
       || !Identified(disk.files, s.generated) || !Identified(disk.files, s.route) {
      return Failed(Rejected);
    }
    var native := s.native.path;
    if !inputs.admitted || native !in disk.files
       || disk.files[Generated].mode != PRIVATE || disk.files[Route].mode != PRIVATE {
      return Failed(Rejected);
    }
    var previousGenerated, previousRoute := disk.files[Generated].content, disk.files[Route].content;
    var drawn := DrawUp(disk, prior.value, native, inputs, spare, true);
    SparePoints(disk.history, |h0|, before, prior.value, native, inputs, spare);
    if drawn.Err? {
      return Failed(drawn.error);
    }
    var (plan, d) := drawn.value;
    ghost var h := disk.history;
    GoalIsPlanned(before, prior.value, native, inputs, spare);
    report := PublishSync(disk, plan, d, previousGenerated, previousRoute, Managed(s), before);
    WatchGives(before, plan, d, |h0|, |h|, h, disk.history, disk.files);
    PointsGiven(before, prior.value, native, inputs, spare, h, |h0|, disk.history, disk.files);
    StateIsValid(before, prior.value, spare);
    if !RestoreFailed(report) {
      PublicationEnds(before, disk.files, prior.value, native, inputs, spare, true, report);
      if report.Done? { DoneDelivers(before, disk.files, prior.value, native, inputs, spare, true); }
    }
  }
}
