/**
The files that the picker lifecycle touches, the documents they hold, and a disk whose
operations can fail. Every operation is one step of the disk's history.
*/
module ManagedFiles {
  import opened Outcomes

  type Mode = nat

  /** 0600 and 0644 in octal. */
  const PRIVATE: Mode := 0x180
  const SHARED: Mode := 0x1A4

  /** Backups are the private siblings of the configuration file. */
  datatype Path = Outside(name: string) | Generated | Route | Config | State | Backup(id: string)

  datatype Content = Text(text: string) | Managed(state: ManagedState)

  /** A path with the digest of its bytes; digests are taken to be injective. */
  datatype Identity = Identity(path: Path, content: Content)

  datatype Rollback = RemoveCreated | RestoreExactBackup(backup: Identity, originalMode: Mode)

  datatype ManagedState = ManagedState(
    native: Identity, grok: string, generated: Identity, route: Identity, config: Identity, rollback: Rollback)

  datatype File = File(content: Content, mode: Mode)

  type Files = map<Path, File>

  predicate AcceptedMode(mode: Mode) {
    mode == PRIVATE || mode == SHARED
  }

  predicate Valid(s: ManagedState) {
    && s.native.path != s.generated.path && s.native.path != s.route.path && s.native.path != s.config.path
    && s.generated.path != s.route.path && s.generated.path != s.config.path && s.route.path != s.config.path
    && (s.rollback.RestoreExactBackup? ==>
          AcceptedMode(s.rollback.originalMode) && s.rollback.backup.path.Backup?
          && s.rollback.backup.path != s.config.path)
  }

  predicate Identified(files: Files, i: Identity) {
    i.path in files && files[i.path].content == i.content
  }

  /** The files with one path holding a file, or none. */
  function Set(files: Files, path: Path, file: Option<File>): Files {
    if file.Some? then files[path := file.value] else files - {path}
  }

  // ---------------------------------------------------------------------
  // Comparing two moments of a disk
  // ---------------------------------------------------------------------

  ghost predicate Same(a: Files, b: Files, p: Path) {
    (p in a <==> p in b) && (p in a ==> a[p] == b[p])
  }

  ghost predicate SameExcept(a: Files, b: Files, changed: set<Path>) {
    forall p :: p !in changed ==> Same(a, b, p)
  }

  lemma SameEverywhere(a: Files, b: Files)
    requires SameExcept(a, b, {})
    ensures a == b
  {
    forall p
      ensures p in a <==> p in b
      ensures p in a ==> a[p] == b[p]
    {
      assert Same(a, b, p);
    }
  }

  /** A path as it was read: its content with a mode, or nothing. */
  predicate Entry(files: Files, path: Path, previous: Option<Content>, mode: Mode) {
    if previous.Some? then path in files && files[path] == File(previous.value, mode) else path !in files
  }

  function Restored(files: Files, path: Path, previous: Option<Content>, mode: Mode): Files {
    if previous.Some? then files[path := File(previous.value, mode)] else files - {path}
  }

  /** A compensating write takes its path off the list of differences. */
  lemma RestoreShrinks(
      files: Files, entry: Files, path: Path, previous: Option<Content>, mode: Mode, changed: set<Path>)
    requires SameExcept(files, entry, changed) && Entry(entry, path, previous, mode)
    ensures SameExcept(Restored(files, path, previous, mode), entry, changed - {path})
  {
    forall p | p !in changed - {path}
      ensures Same(Restored(files, path, previous, mode), entry, p)
    {
      assert p != path ==> Same(files, entry, p);
    }
  }

  lemma WriteGrows(files: Files, entry: Files, path: Path, file: File, changed: set<Path>)
    requires SameExcept(files, entry, changed)
    ensures SameExcept(files[path := file], entry, changed + {path})
  {
    forall p | p !in changed + {path}
      ensures Same(files[path := file], entry, p)
    {
      assert Same(files, entry, p);
    }
  }

  lemma RemoveGrows(files: Files, entry: Files, path: Path, changed: set<Path>)
    requires SameExcept(files, entry, changed)
    ensures SameExcept(files - {path}, entry, changed + {path})
  {
    forall p | p !in changed + {path}
      ensures Same(files - {path}, entry, p)
    {
      assert Same(files, entry, p);
    }
  }

  /** Nothing happened, except that a backup under a new name may have been left behind. */
  ghost predicate SpareOnly(before: Files, after: Files, spare: Path) {
    after == before || (spare !in before && spare in after && after - {spare} == before)
  }

  // ---------------------------------------------------------------------
  // The disk
  // ---------------------------------------------------------------------

  /**
  Whether an operation fails is not known in advance. The ghost fields count the failures
  and record the files after every operation.
  */
  class Disk {
    var files: Files
    ghost var failures: nat
    ghost var history: seq<Files>

    constructor (files: Files)
      ensures this.files == files && failures == 0 && history == []
    {
      this.files, failures, history := files, 0, [];
    }

    /** A write to a temporary sibling followed by a rename: all or nothing. */
    method AtomicWrite(path: Path, content: Content, mode: Mode) returns (ok: bool)
      modifies this
      ensures ok ==> files == old(files)[path := File(content, mode)] && failures == old(failures)
      ensures !ok ==> files == old(files) && failures == old(failures) + 1
      ensures history == old(history) + [files]
    {
      ok := *;
      if ok {
        files := files[path := File(content, mode)];
      } else {
        failures := failures + 1;
      }
      history := history + [files];
    }

    /** Creates a file that must not exist; a failure can leave part of it behind. */
    method WriteNew(path: Path, content: Content, mode: Mode) returns (ok: bool)
      modifies this
      ensures ok ==>
        path !in old(files) && files == old(files)[path := File(content, mode)] && failures == old(failures)
      ensures !ok ==> SpareOnly(old(files), files, path) && failures == old(failures) + 1
      ensures history == old(history) + [files]
    {
      ok := *;
      ok := ok && path !in files;
      if ok {
        files := files[path := File(content, mode)];
      } else {
        failures := failures + 1;
        var residue: Option<File> := *;
        if path !in files && residue.Some? {
          files := files[path := residue.value];
          assert files - {path} == old(files);
        }
      }
      history := history + [files];
    }

    method Remove(path: Path) returns (ok: bool)
      modifies this
      ensures ok ==> path in old(files) && files == old(files) - {path} && failures == old(failures)
      ensures !ok ==> files == old(files) && failures == old(failures) + 1
      ensures history == old(history) + [files]
    {
      ok := *;
      ok := ok && path in files;
      if ok {
        files := files - {path};
      } else {
        failures := failures + 1;
      }
      history := history + [files];
    }

    /** Writes back what was read, or removes what was not there. */
    method RestoreOptional(path: Path, previous: Option<Content>, mode: Mode) returns (ok: bool)
      modifies this
      ensures ok ==> files == Restored(old(files), path, previous, mode) && failures == old(failures)
      ensures !ok ==> files == old(files) && failures == old(failures) + 1
      ensures history == old(history) + [files] || (history == old(history) && files == old(files))
    {
      if previous.Some? {
        ok := AtomicWrite(path, previous.value, mode);
      } else if path in files {
        ok := Remove(path);
      } else {
        ok := true;
        assert files - {path} == files;
      }
    }
  }
}
