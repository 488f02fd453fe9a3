/**
Uninstalling the picker: the configuration is rolled back by its receipt, then the generated
artifacts go one by one, and a removal that fails puts everything back.
*/
module PickerUninstall {
  import opened Outcomes
  import opened ManagedFiles
  import opened PickerConfig
  import opened PickerLifecycle

  /** The configuration after a rollback: a file, or none; None when the rollback is refused. */
  function ConfigAfter(files: Files, s: ManagedState, toml: Toml): Option<Option<File>> {
    if Config !in files || !AcceptedMode(files[Config].mode) then None
    else
      var current := files[Config];
      if Identity(Config, current.content) == s.config then
        match s.rollback
        case RemoveCreated => Some(None)
        case RestoreExactBackup(backup, mode) =>
          if Identified(files, backup) then Some(Some(File(backup.content, mode))) else None
      else if current.content.Text? && Recover(toml, current.content.text).Some? then
        Some(Some(File(Text(Recover(toml, current.content.text).value), current.mode)))
      else None
  }

  function BackupPath(s: ManagedState): set<Path> {
    if s.rollback.RestoreExactBackup? then {s.rollback.backup.path} else {}
  }

  const ARTIFACTS: seq<Path> := [Generated, Route, State]

  /** What an uninstall demands of the disk before it changes anything. */
  predicate Removable(files: Files, s: ManagedState) {
    && s.config.path == Config && s.generated.path == Generated && s.route.path == Route
    && s.native.path in files && Identified(files, s.generated) && Identified(files, s.route)
    && Config in files && files[Generated].mode == PRIVATE && files[Route].mode == PRIVATE
    && (s.rollback.RestoreExactBackup? ==>
          s.rollback.backup.path in files && files[s.rollback.backup.path].mode == PRIVATE)
  }

  /**
  An uninstall in which no compensating write failed. It succeeds completely or changes nothing,
  with one exception: once the configuration is back, a backup that cannot be removed ends the
  call, and nothing is put back.
  */
  ghost predicate UninstallStep(before: Files, after: Files, toml: Toml, report: Report) {
    match ReadState(before)
    case Err(_) => report == Failed(Rejected) && after == before
    case Ok(None) => report.Absent? && after == before
    case Ok(Some(s)) =>
      var config := ConfigAfter(before, s, toml);
      match report
      case Absent => false
      case Done =>
        && Removable(before, s) && config.Some?
        && (forall p :: p in BackupPath(s) ==> Identified(before, s.rollback.backup))
        && after == Set(before, Config, config.value) - BackupPath(s) - {Generated, Route, State}
      case Failed(Rejected) =>
        || (after == before && !(Removable(before, s) && config.Some?))
        || (&& Removable(before, s) && s.rollback.RestoreExactBackup? && !Identified(before, s.rollback.backup)
            && config.Some? && after == Set(before, Config, config.value))
      case Failed(Unwritten(p)) => Removable(before, s) && p == Config && after == before
      case Failed(Unremoved(p)) =>
        && Removable(before, s)
        && if p in BackupPath(s) then config.Some? && after == Set(before, Config, config.value)
           else p in {Config, Generated, Route, State} && after == before
      case Failed(Unrestored(_)) => false
  }

  /**
  What is on the disk after an uninstall that succeeded: the recorded configuration with its mode,
  or none, or a rewritten one without the picker's keys; nothing the picker made; the rest as before.
  */
  ghost predicate Uninstalled(before: Files, after: Files, s: ManagedState, toml: Toml) {
    && Config in before && s.native.path in before && before[Config].mode in {0x180, 0x1A4}
    && Generated in before && before[Generated] == File(s.generated.content, PRIVATE)
    && Route in before && before[Route] == File(s.route.content, PRIVATE)
    && (s.rollback.RestoreExactBackup? ==>
          && s.rollback.backup.path in before
          && before[s.rollback.backup.path] == File(s.rollback.backup.content, PRIVATE))
    && (if before[Config].content == s.config.content then
          match s.rollback
          case RemoveCreated => Config !in after
          case RestoreExactBackup(backup, mode) => Config in after && after[Config] == File(backup.content, mode)
        else
          && before[Config].content.Text? && toml.claims(before[Config].content.text) == Some(true)
          && Count(PICKER_BEGIN, before[Config].content.text) <= 1
          && Count(PICKER_END, before[Config].content.text) <= 1
          && toml.strip(before[Config].content.text).Some?
          && Config in after
          && after[Config] == File(Text(toml.strip(before[Config].content.text).value), before[Config].mode))
    && (forall p :: p in {Generated, Route, State} + BackupPath(s) ==> p !in after)
    && (forall p :: p !in {Config, Generated, Route, State} + BackupPath(s) ==> Same(after, before, p))
  }

  lemma DoneUninstalls(before: Files, after: Files, s: ManagedState, toml: Toml)
    requires ReadState(before) == Ok(Some(s)) && UninstallStep(before, after, toml, Done)
    ensures Uninstalled(before, after, s, toml)
  {
    hide Valid, Count;
    BackupAside(before, s);
  }

  ghost predicate Saved(before: Files, removed: seq<(Path, Content)>) {
    forall i :: 0 <= i < |removed| ==> Entry(before, removed[i].0, Some(removed[i].1), PRIVATE)
  }

  function PathsOf(removed: seq<(Path, Content)>): set<Path> {
    set i | 0 <= i < |removed| :: removed[i].0
  }

  /** Puts back, newest first, what was removed; then the configuration; then its backup. */
  method Compensate(
      disk: Disk, removed: seq<(Path, Content)>, config: Content, configMode: Mode, backup: Option<(Path, Content)>,
      ghost before: Files, ghost rest: set<Path>)
    returns (ok: bool)
    requires Saved(before, removed) && Entry(before, Config, Some(config), configMode)
    requires backup.Some? ==> Entry(before, backup.value.0, Some(backup.value.1), PRIVATE)
    requires rest == {Config} + (if backup.Some? then {backup.value.0} else {})
    requires SameExcept(disk.files, before, PathsOf(removed) + rest)
    modifies disk
    ensures ok ==> disk.failures == old(disk.failures) && disk.files == before
    ensures !ok ==> disk.failures > old(disk.failures)
  {
    hide SameExcept, Entry;
    ok := true;
    var i := |removed|;
    assert removed[..i] == removed;
    while i > 0
      invariant 0 <= i <= |removed|
      invariant ok ==>
        disk.failures == old(disk.failures) && SameExcept(disk.files, before, PathsOf(removed[..i]) + rest)
      invariant !ok ==> disk.failures > old(disk.failures)
    {
      i := i - 1;
      ghost var was := disk.files;
      var done := disk.AtomicWrite(removed[i].0, removed[i].1, PRIVATE);
      if ok && done {
        PutBack(was, before, removed, i, rest);
      }
      ok := ok && done;
    }
    assert PathsOf(removed[..0]) + rest == rest;
    ghost var was := disk.files;
    var done := disk.AtomicWrite(Config, config, configMode);
    ok := ok && done;
    if ok {
      RestoreShrinks(was, before, Config, Some(config), configMode, rest);
      assert disk.files == Restored(was, Config, Some(config), configMode);
    }
    if backup.Some? {
      was := disk.files;
      done := disk.AtomicWrite(backup.value.0, backup.value.1, PRIVATE);
      ok := ok && done;
      if ok {
        RestoreShrinks(was, before, backup.value.0, Some(backup.value.1), PRIVATE, rest - {Config});
        assert rest - {Config} - {backup.value.0} == {};
        SameEverywhere(disk.files, before);
      }
    } else if ok {
      assert rest - {Config} == {};
      SameEverywhere(disk.files, before);
    }
  }

  lemma PutBack(files: Files, before: Files, removed: seq<(Path, Content)>, i: nat, rest: set<Path>)
    requires i < |removed| && Saved(before, removed)
    requires SameExcept(files, before, PathsOf(removed[..i + 1]) + rest)
    ensures SameExcept(files[removed[i].0 := File(removed[i].1, PRIVATE)], before, PathsOf(removed[..i]) + rest)
  {
    hide Entry;
    var changed := PathsOf(removed[..i + 1]) + rest;
    RestoreShrinks(files, before, removed[i].0, Some(removed[i].1), PRIVATE, changed);
    assert changed - {removed[i].0} <= PathsOf(removed[..i]) + rest;
    var after := files[removed[i].0 := File(removed[i].1, PRIVATE)];
    FewerChanged(after, before, changed - {removed[i].0}, PathsOf(removed[..i]) + rest);
  }

  /** Rolls the configuration back by its receipt; an exact match restores the very bytes and mode. */
  method RollbackPickerConfig(disk: Disk, s: ManagedState, toml: Toml) returns (report: Report)
    requires Config in disk.files
    modifies disk
    ensures report.Done? || report.Failed?
    ensures var before := old(disk.files);
            var config := ConfigAfter(before, s, toml);
            match report
            case Absent => false
            case Done =>
              && config.Some? && disk.failures == old(disk.failures)
              && disk.files == Set(before, Config, config.value) - BackupPath(s)
              && (s.rollback.RestoreExactBackup? ==>
                    s.rollback.backup.path in Set(before, Config, config.value)
                    && Set(before, Config, config.value)[s.rollback.backup.path].content == s.rollback.backup.content)
            case Failed(Rejected) =>
              && disk.failures == old(disk.failures)
              && ((config.None? && disk.files == before)
                  || (config.Some? && s.rollback.RestoreExactBackup? && disk.files == Set(before, Config, config.value)
                      && !Identified(Set(before, Config, config.value), s.rollback.backup)))
            case Failed(Unwritten(p)) => p == Config && disk.files == before && disk.failures == old(disk.failures) + 1
            case Failed(Unremoved(p)) =>
              && disk.failures == old(disk.failures) + 1
              && ((p == Config && s.rollback.RemoveCreated? && disk.files == before)
                  || (p in BackupPath(s) && config.Some? && disk.files == Set(before, Config, config.value)))
            case Failed(Unrestored(_)) => false
  {
    hide Recover;
    var current := disk.files[Config];
    if !AcceptedMode(current.mode) {
      return Failed(Rejected);
    }
    if Identity(Config, current.content) == s.config {
      if s.rollback.RemoveCreated? {
        var ok := disk.Remove(Config);
        return if ok then Done else Failed(Unremoved(Config));
      }
      var backup := s.rollback.backup;
      if !Identified(disk.files, backup) {
        return Failed(Rejected);
      }
      var ok := disk.AtomicWrite(Config, backup.content, s.rollback.originalMode);
      if !ok {
        return Failed(Unwritten(Config));
      }
      ok := disk.Remove(backup.path);
      return if ok then Done else Failed(Unremoved(backup.path));
    }
    if !current.content.Text? || Recover(toml, current.content.text).None? {
      return Failed(Rejected);
    }
    var ok := disk.AtomicWrite(Config, Text(Recover(toml, current.content.text).value), current.mode);
    if !ok {
      return Failed(Unwritten(Config));
    }
    if s.rollback.RestoreExactBackup? {
      if !Identified(disk.files, s.rollback.backup) {
        return Failed(Rejected);
      }
      ok := disk.Remove(s.rollback.backup.path);
      if !ok {
        return Failed(Unremoved(s.rollback.backup.path));
      }
    }
    return Done;
  }

  /** The files after the first removals. */
  ghost function Without(files: Files, n: nat): Files
    requires n <= 3
  {
    if n == 0 then files else Without(files, n - 1) - {ARTIFACTS[n - 1]}
  }

  lemma WithoutAll(files: Files)
    ensures Without(files, 3) == files - {Generated, Route, State}
  {
    assert Without(files, 1) == files - {Generated};
    assert Without(files, 2) == files - {Generated, Route};
    assert Without(files, 2) - {State} == files - {Generated, Route, State};
  }

  lemma {:induction false} WithoutDiffers(files: Files, before: Files, n: nat, rest: set<Path>)
    requires n <= 3 && SameExcept(files, before, rest)
    ensures SameExcept(Without(files, n), before, (set i | 0 <= i < n :: ARTIFACTS[i]) + rest)
  {
    hide SameExcept;
    var fewer, all := (set i | 0 <= i < n - 1 :: ARTIFACTS[i]) + rest, (set i | 0 <= i < n :: ARTIFACTS[i]) + rest;
    if n == 0 {
      FewerChanged(files, before, rest, all);
    } else {
      WithoutDiffers(files, before, n - 1, rest);
      RemoveGrows(Without(files, n - 1), before, ARTIFACTS[n - 1], fewer);
      FewerChanged(Without(files, n), before, fewer + {ARTIFACTS[n - 1]}, all);
    }
  }

  lemma BackupAside(files: Files, s: ManagedState)
    requires ReadState(files) == Ok(Some(s)) && s.config.path == Config
    ensures BackupPath(s) !! {Config, Generated, Route, State}
  {
  }

  /** Uninstalls the picker, if there is one. */
  method UninstallPicker(disk: Disk, toml: Toml) returns (report: Report)
    modifies disk
    ensures RestoreFailed(report) ==> disk.failures >= old(disk.failures) + 2
    ensures !RestoreFailed(report) ==> UninstallStep(old(disk.files), disk.files, toml, report)
    ensures report.Failed? && report.error != Rejected ==> disk.failures > old(disk.failures)
    ensures report.Done? ==>
      match ReadState(old(disk.files))
      case Ok(Some(s)) => Uninstalled(old(disk.files), disk.files, s, toml)
      case _ => false
  {
    hide ConfigAfter, Recover, Valid, SameExcept, Uninstalled;
    ghost var before := disk.files;
    var prior := ReadState(disk.files);
    if prior.Err? {
      return Failed(Rejected);
    }
    if prior.value.None? {
      return Absent;
    }
    var s := prior.value.value;
    if !Removable(disk.files, s) {
      return Failed(Rejected);
    }
    BackupAside(before, s);
    var config := disk.files[Config];
    var contents := [disk.files[Generated].content, disk.files[Route].content, disk.files[State].content];
    var backup := if s.rollback.RestoreExactBackup? then
                    Some((s.rollback.backup.path, disk.files[s.rollback.backup.path].content))
                  else None;
    report := RollbackPickerConfig(disk, s, toml);
    if report.Failed? {
      return;
    }
    ghost var rolled := disk.files;
    ghost var rest := {Config} + (if backup.Some? then {backup.value.0} else {});
    RolledDiffers(before, s, toml, rest);
    report := RemoveArtifacts(disk, contents, config, backup, before, rest);
    if report.Done? {
      WithoutAll(rolled);
      DoneUninstalls(before, disk.files, s, toml);
    }
  }

  /** Removes catalog, route and state; the first removal that fails puts everything back. */
  method RemoveArtifacts(
      disk: Disk, contents: seq<Content>, config: File, backup: Option<(Path, Content)>, ghost before: Files,
      ghost rest: set<Path>)
    returns (report: Report)
    requires |contents| == 3 && forall j :: 0 <= j < 3 ==> Entry(before, ARTIFACTS[j], Some(contents[j]), PRIVATE)
    requires Entry(before, Config, Some(config.content), config.mode)
    requires backup.Some? ==> Entry(before, backup.value.0, Some(backup.value.1), PRIVATE)
    requires rest == {Config} + (if backup.Some? then {backup.value.0} else {})
    requires SameExcept(disk.files, before, rest)
    modifies disk
    ensures report.Done? || report.Failed?
    ensures report.Done? ==> disk.failures == old(disk.failures) && disk.files == Without(old(disk.files), 3)
    ensures report.Failed? ==> disk.failures > old(disk.failures)
    ensures RestoreFailed(report) ==> disk.failures >= old(disk.failures) + 2
    ensures report.Failed? && !RestoreFailed(report) ==>
      disk.files == before && report.error.Unremoved? && report.error.path in {Generated, Route, State}
  {
    hide SameExcept, Entry;
    ghost var rolled := disk.files;
    var removed: seq<(Path, Content)> := [];
    var i := 0;
    while i < 3
      invariant 0 <= i <= 3 && |removed| == i
      invariant disk.failures == old(disk.failures) && disk.files == Without(rolled, i)
      invariant forall j :: 0 <= j < i ==> removed[j] == (ARTIFACTS[j], contents[j])
    {
      var ok := disk.Remove(ARTIFACTS[i]);
      if !ok {
        WithoutDiffers(rolled, before, i, rest);
        assert PathsOf(removed) == set j | 0 <= j < i :: ARTIFACTS[j];
        ok := Compensate(disk, removed, config.content, config.mode, backup, before, rest);
        return Failed(if ok then Unremoved(ARTIFACTS[i]) else Unrestored(Config));
      }
      removed := removed + [(ARTIFACTS[i], contents[i])];
      i := i + 1;
    }
    return Done;
  }

  lemma RolledDiffers(before: Files, s: ManagedState, toml: Toml, rest: set<Path>)
    requires ConfigAfter(before, s, toml).Some? && rest == {Config} + BackupPath(s)
    ensures SameExcept(Set(before, Config, ConfigAfter(before, s, toml).value) - BackupPath(s), before, rest)
  {
  }
}
