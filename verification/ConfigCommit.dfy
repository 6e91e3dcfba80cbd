/**
 The two-file commit of store.rs (`write_config_with_fs` and the restore helpers) and the recovery
 in `load_disk_config`, as methods over a machine whose every step may fail and whose history
 records every state a crash could leave behind.
 */
module ConfigCommit {
  import opened Common
  import opened ConfigModel

  datatype BackupMode = CurrentOnly | ReplaceLegacy

  class Machine {
    const windows: bool
    var w: World
    var history: seq<World>

    constructor (windows: bool, w: World)
      ensures this.windows == windows && this.w == w && history == []
    {
      this.windows := windows;
      this.w := w;
      history := [];
    }

    /** The machine reaches a new durable state. */
    method Become(next: World)
      modifies this
      ensures w == next && history == old(history) + [next]
    {
      w := next;
      history := history + [next];
    }

    /** A filesystem rename or removal: all or nothing. */
    method Rename(from: Slot, to: Slot) returns (ok: bool)
      modifies this
      ensures history == old(history) + [w]
      ensures if ok then w == old(w).(files := old(w).files.Put(to, old(w).files.Get(from)).Put(from, Absent))
              else w == old(w).(faults := old(w).faults + 1)
    {
      ok := *;
      if ok {
        Become(w.(files := w.files.Put(to, w.files.Get(from)).Put(from, Absent)));
      } else {
        Become(w.(faults := w.faults + 1));
      }
    }

    method Remove(slot: Slot) returns (ok: bool)
      modifies this
      ensures history == old(history) + [w]
      ensures if ok then w == old(w).(files := old(w).files.Put(slot, Absent))
              else w == old(w).(faults := old(w).faults + 1)
    {
      ok := *;
      if ok {
        Become(w.(files := w.files.Put(slot, Absent)));
      } else {
        Become(w.(faults := w.faults + 1));
      }
    }

    /** write_staged_config: a failed write leaves a file that does not parse. */
    method Stage(slot: Slot, contents: File) returns (ok: bool)
      modifies this
      ensures history == old(history) + [old(w).(files := old(w).files.Put(slot, Garbage)), w]
      ensures if ok then w == old(w).(files := old(w).files.Put(slot, contents))
              else w == old(w).(files := old(w).files.Put(slot, Garbage), faults := old(w).faults + 1)
    {
      ok := *;
      Become(w.(files := w.files.Put(slot, Garbage)));
      if ok {
        Become(w.(files := w.files.Put(slot, contents)));
      } else {
        Become(w.(faults := w.faults + 1));
      }
    }

    /** A read, which changes nothing durable but may fail. */
    method Read() returns (ok: bool)
      modifies this
      ensures history == old(history)
      ensures w == old(w).(faults := old(w).faults + if ok then 0 else 1)
    {
      ok := *;
      if !ok {
        w := w.(faults := w.faults + 1);
      }
    }
  }

  /**
   States of a file step: nothing but files and the fault count differs from `w0` and, as long as at
   most one operation has failed, the two configs are among the given ones.
   */
  predicate Between(w0: World, w: World, primaries: set<File>, backups: set<File>) {
    && w.keyring == w0.keyring && w.cache == w0.cache && w0.faults <= w.faults
    && (w.faults <= w0.faults + 1 ==> w.files.primary in primaries && w.files.backup in backups)
  }

  ghost predicate AllBetween(w0: World, before: seq<World>, after: seq<World>, primaries: set<File>, backups: set<File>) {
    && before <= after
    && forall k :: |before| <= k < |after| ==> Between(w0, after[k], primaries, backups)
  }

  /** replace_backup_file: on Windows the old copy goes first; setting permissions may fail last. */
  method ReplaceBackup(m: Machine) returns (ok: bool)
    modifies m
    ensures var b := old(m.w).files;
            var backups := {b.backup, b.backupTmp} + if m.windows then {Absent} else {};
            && AllBetween(old(m.w), old(m.history), m.history, {b.primary}, backups)
            && Between(old(m.w), m.w, {b.primary}, backups)
            && m.w.files.aside == b.aside && m.w.files.tmp == b.tmp
            && (ok ==> m.w.files.backup == b.backupTmp && m.w.faults == old(m.w).faults)
            && (!ok ==> m.w.faults == old(m.w).faults + 1)
            && (ok && m.windows && !b.backup.Absent? ==>
                  |m.history| > |old(m.history)| && m.history[|old(m.history)|].files.backup == Absent)
  {
    if m.windows && !m.w.files.backup.Absent? {
      ok := m.Remove(Backup);
      if !ok {
        return;
      }
    }
    ok := m.Rename(BackupTmp, Backup);
    if !ok {
      return;
    }
    ok := m.Read();
  }

  /** replace_config_file and replace_migrated_config_file: on Windows the old file is set aside. */
  method ReplacePrimary(m: Machine, mode: BackupMode) returns (ok: bool)
    modifies m
    ensures var b := old(m.w).files;
            var primaries := {b.primary, b.tmp} + if m.windows then {Absent} else {};
            && AllBetween(old(m.w), old(m.history), m.history, primaries, {b.backup})
            && Between(old(m.w), m.w, primaries, {b.backup})
            && m.w.files.backup == b.backup
            && (ok ==> m.w.files.primary == b.tmp)
            && (!ok ==> m.w.faults > old(m.w).faults)
            && (!ok && m.w.faults == old(m.w).faults + 1 ==> m.w.files.primary == b.primary)
  {
    if !m.windows {
      ok := m.Rename(Tmp, Primary);
      return;
    }
    ok := m.Remove(Aside); // the result is ignored
    if !m.w.files.primary.Absent? {
      ok := m.Rename(Primary, Aside);
      if !ok {
        return;
      }
    }
    ok := m.Rename(Tmp, Primary);
    if !ok {
      if !m.w.files.aside.Absent? {
        var _ := m.Rename(Aside, Primary);
      }
      return;
    }
    if mode.CurrentOnly? {
      var _ := m.Remove(Aside);
    }
  }

  /** restore_file_snapshot for the backup. */
  method RestoreBackup(m: Machine, previous: File) returns (ok: bool)
    modifies m
    ensures var b := old(m.w).files;
            && AllBetween(old(m.w), old(m.history), m.history, {b.primary}, {b.backup, previous, Absent})
            && Between(old(m.w), m.w, {b.primary}, {b.backup, previous, Absent})
            && (ok ==> m.w.files.backup == previous && m.w.faults == old(m.w).faults)
            && (!ok ==> m.w.faults > old(m.w).faults)
  {
    if previous.Absent? {
      ok := true;
      if !m.w.files.backup.Absent? {
        ok := m.Remove(Backup);
      }
      return;
    }
    ok := m.Stage(BackupTmp, previous);
    if ok {
      ok := ReplaceBackup(m);
    }
  }

  /** restore_file_snapshot for the primary. */
  method RestorePrimary(m: Machine, previous: File) returns (ok: bool)
    modifies m
    ensures var b := old(m.w).files;
            && AllBetween(old(m.w), old(m.history), m.history, {b.primary, previous, Absent}, {b.backup})
            && Between(old(m.w), m.w, {b.primary, previous, Absent}, {b.backup})
            && (ok ==> m.w.files.primary == previous)
            && (!ok ==> m.w.faults > old(m.w).faults)
  {
    if previous.Absent? {
      ok := true;
      if !m.w.files.primary.Absent? {
        ok := m.Remove(Primary);
      }
      return;
    }
    ok := m.Stage(Tmp, previous);
    if ok {
      ok := ReplacePrimary(m, CurrentOnly);
    }
  }

  // ----- the commit -----

  /** What load_disk_config leaves behind: a primary that parses, or no config at all. */
  predicate Steady(f: Files) {
    f.primary.Holds? || (f.primary.Absent? && f.backup.Absent?)
  }

  /**
   The states a commit of `cfg` may pass through while at most one operation has failed: the backup
   changes under the old primary, then the primary changes over the new backup, or back again.
   */
  predicate InTransit(w0: World, w: World, cfg: DiskConfig) {
    && w.keyring == w0.keyring && w.cache == w0.cache && w0.faults <= w.faults
    && (w.faults <= w0.faults + 1 ==>
          || (w.files.primary == w0.files.primary &&
              (w.files.backup in {Absent, Holds(cfg)} || w.files.backup == w0.files.backup))
          || (w.files.backup == Holds(cfg) &&
              (w.files.primary in {Absent, Holds(cfg)} || w.files.primary == w0.files.primary)))
  }

  ghost predicate AllInTransit(w0: World, before: seq<World>, after: seq<World>, cfg: DiskConfig) {
    && before <= after
    && forall k :: |before| <= k < |after| ==> InTransit(w0, after[k], cfg)
  }

  /**
   Crash-atomicity: wherever a commit is interrupted, the next load reads exactly the old or exactly
   the new config, and neither file holds anything but what it held before or the new config.
   */
  lemma CrashAtomic(w0: World, w: World, cfg: DiskConfig)
    requires Steady(w0.files) && InTransit(w0, w, cfg) && w.faults <= w0.faults + 1
    ensures Loaded(w.files) == Loaded(w0.files) || Loaded(w.files) == Some(cfg)
    ensures Candidates(w.files) <= Candidates(w0.files) + {cfg}
    ensures Candidates(w.files) != {}
  {
    if w.files.primary.Holds? {
      assert w.files.primary.config in Candidates(w.files);
    } else if w.files.backup.Holds? {
      assert w.files.backup.config in Candidates(w.files);
    } else {
      assert EMPTY_CONFIG in Candidates(w.files);
    }
  }

  /** Undo a failed commit: the primary first, then the recovery copy, then the staging files. */
  method RollBack(m: Machine, previousPrimary: Option<File>, previousBackup: File, ghost w0: World, cfg: DiskConfig)
    requires Steady(w0.files) && InTransit(w0, m.w, cfg) && m.w.faults > w0.faults
    requires previousBackup == w0.files.backup
    requires match previousPrimary
             case None => m.w.faults == w0.faults + 1 ==>
                 m.w.files.primary == w0.files.primary && m.w.files.backup in {w0.files.backup, Absent, Holds(cfg)}
             case Some(p) => p == w0.files.primary && (m.w.faults == w0.faults + 1 ==>
                 m.w.files.primary == p && m.w.files.backup == Holds(cfg))
    modifies m
    ensures AllInTransit(w0, old(m.history), m.history, cfg)
    ensures InTransit(w0, m.w, cfg) && m.w.faults > w0.faults
    ensures m.w.faults == w0.faults + 1 ==>
              m.w.files.primary == w0.files.primary && m.w.files.backup == w0.files.backup
  {
    if previousPrimary.Some? {
      var _ := RestorePrimary(m, previousPrimary.value);
    }
    var _ := RestoreBackup(m, previousBackup);
    var _ := m.Remove(Tmp);
    var _ := m.Remove(BackupTmp);
  }

  /** Both staging files are written before anything that counts is touched. */
  method StageBoth(m: Machine, cfg: DiskConfig) returns (ok: bool)
    modifies m
    ensures AllBetween(old(m.w), old(m.history), m.history, {old(m.w).files.primary}, {old(m.w).files.backup})
    ensures Between(old(m.w), m.w, {old(m.w).files.primary}, {old(m.w).files.backup})
    ensures m.w.files.primary == old(m.w).files.primary && m.w.files.backup == old(m.w).files.backup
    ensures ok ==> m.w.files.tmp == m.w.files.backupTmp == Holds(cfg) && m.w.faults == old(m.w).faults
    ensures !ok ==> m.w.faults > old(m.w).faults
  {
    ok := m.Read();
    if !ok { return; }
    ok := m.Read();
    if !ok { return; }
    ok := m.Stage(Tmp, Holds(cfg));
    if !ok { return; }
    ok := m.Stage(BackupTmp, Holds(cfg));
    if !ok {
      var _ := m.Remove(Tmp);
    }
  }

  /**
   write_config_with_fs: the recovery copy is committed first, the primary second. If it reports an
   error whose rollback went through, both files are as before.
   */
  method WriteConfig(m: Machine, cfg: DiskConfig, mode: BackupMode) returns (ok: bool)
    requires Steady(m.w.files)
    modifies m
    ensures AllInTransit(old(m.w), old(m.history), m.history, cfg)
    ensures InTransit(old(m.w), m.w, cfg)
    ensures ok ==> m.w.files.primary == m.w.files.backup == Holds(cfg)
    ensures !ok ==> m.w.faults > old(m.w).faults
    ensures !ok && m.w.faults == old(m.w).faults + 1 ==>
              m.w.files.primary == old(m.w).files.primary && m.w.files.backup == old(m.w).files.backup
  {
    var previousPrimary, previousBackup := m.w.files.primary, m.w.files.backup;
    ok := StageBoth(m, cfg);
    if !ok { return; }
    ok := ReplaceBackup(m);
    if !ok {
      RollBack(m, None, previousBackup, old(m.w), cfg);
      return;
    }
    ok := ReplacePrimary(m, mode);
    if !ok {
      RollBack(m, Some(previousPrimary), previousBackup, old(m.w), cfg);
    }
  }

  /** Recovery keeps to what a load could already have read. */
  predicate Recovering(w0: World, w: World) {
    && w.keyring == w0.keyring && w.cache == w0.cache && w0.faults <= w.faults
    && Candidates(w.files) <= Candidates(w0.files)
    && (Candidates(w0.files) != {} ==> Candidates(w.files) != {})
  }

  ghost predicate AllRecovering(w0: World, before: seq<World>, after: seq<World>) {
    && before <= after
    && forall k :: |before| <= k < |after| ==> Recovering(w0, after[k])
  }

  /** restore_primary_from_backup. */
  method RestoreFromBackup(m: Machine) returns (ok: bool)
    requires m.w.files.backup.Holds?
    modifies m
    ensures AllRecovering(old(m.w), old(m.history), m.history) && Recovering(old(m.w), m.w)
    ensures m.w.faults == old(m.w).faults + if ok then 0 else 1
    ensures ok ==> m.w.files.primary == m.w.files.backup == old(m.w).files.backup
    ensures !old(m.w).files.primary.Holds? ==> Loaded(m.w.files) == Loaded(old(m.w).files)
    ensures ok && m.windows && !old(m.w).files.primary.Absent? ==>
              |m.history| > |old(m.history)| + 2 && m.history[|old(m.history)| + 2].files.primary == Absent
  {
    ok := m.Stage(Tmp, m.w.files.backup);
    if !ok { return; }
    if m.windows && !m.w.files.primary.Absent? {
      ok := m.Remove(Primary);
      if !ok { return; }
    }
    ok := m.Rename(Tmp, Primary);
    if !ok { return; }
    ok := m.Read();
  }

  /**
   load_disk_config. Without a failing operation it returns what `Loaded` says and changes nothing a
   load would read; a primary whose read fails gives way to the backup.
   */
  method LoadDiskConfig(m: Machine) returns (r: Option<DiskConfig>)
    modifies m
    ensures AllRecovering(old(m.w), old(m.history), m.history) && Recovering(old(m.w), m.w)
    ensures r.Some? ==> r.value in Candidates(old(m.w).files) && Steady(m.w.files) && Loaded(m.w.files) == r
    ensures m.w.faults == old(m.w).faults ==> r == Loaded(old(m.w).files) == Loaded(m.w.files)
    ensures r.Some? && r != Loaded(old(m.w).files) ==>
              m.w.faults > old(m.w).faults && old(m.w).files.primary.Holds? && r == Some(old(m.w).files.backup.config)
  {
    if m.w.files.primary.Absent? {
      if m.w.files.backup.Absent? {
        return Some(EMPTY_CONFIG);
      }
      var readable := m.Read();
      if !readable || !m.w.files.backup.Holds? {
        return None;
      }
      var config := m.w.files.backup.config;
      var restored := RestoreFromBackup(m);
      return if restored then Some(config) else None;
    }
    var readable := m.Read();
    if readable && m.w.files.primary.Holds? {
      return Some(m.w.files.primary.config);
    }
    if !m.w.files.backup.Absent? {
      var backupReadable := m.Read();
      if backupReadable && m.w.files.backup.Holds? {
        var config := m.w.files.backup.config;
        var restored := RestoreFromBackup(m);
        return if restored then Some(config) else None;
      }
    }
    return None;
  }

  // ----- where the commit relies on the recovery that precedes it -----

  /**
   On Windows the recovery copy is removed before it is replaced. If the process dies just there,
   the next load reads what it would have read before exactly when the primary parses, or there was
   no readable backup to lose, or losing it makes no difference.
   */
  lemma BackupGapHarmlessIff(f: Files)
    ensures Loaded(f.(backup := Absent)) == Loaded(f) <==>
              || f.primary.Holds? || f.backup.Absent?
              || (f.primary.Garbage? && f.backup.Garbage?)
              || (f.primary.Absent? && f.backup == Holds(EMPTY_CONFIG))
    ensures Steady(f) ==> Loaded(f.(backup := Absent)) == Loaded(f)
  {
  }
}
