/** The config store on a file system whose every operation may fail (src/config/store.rs). */
module FileStore {
  import opened Prelude
  import opened ConfigSchema
  import opened StoreModel

  /** The config path, its temporary files and its backups. */
  datatype Name = ConfigPath | Temp(id: nat) | Backup(id: nat)

  datatype FileEntry = Regular(contents: Contents) | Special

  type Files = map<Name, FileEntry>

  const BACKUP_ATTEMPTS := 1024
  const EMPTY_FILE := Unreadable([], true)

  datatype RepairOutcome =
    | Unchanged(config: AppConfig)
    | Created(config: AppConfig)
    | Repaired(config: AppConfig, backup: Name)

  datatype Done = Succeeded | Missing | AlreadyExists | Failed

  function View(files: Files): Option<Contents> {
    if ConfigPath in files && files[ConfigPath].Regular? then Some(files[ConfigPath].contents) else None
  }

  ghost predicate SameConfig(start: Files, now: Files) {
    (ConfigPath in start <==> ConfigPath in now) && (ConfigPath in start ==> now[ConfigPath] == start[ConfigPath])
  }

  ghost predicate SameBackups(start: Files, now: Files) {
    forall id :: (Backup(id) in start <==> Backup(id) in now)
      && (Backup(id) in start ==> now[Backup(id)] == start[Backup(id)])
  }

  /** Every file but the config is as it was, and new files may have come. */
  ghost predicate OthersKept(start: Files, now: Files) {
    forall name :: name in start && name != ConfigPath ==> name in now && now[name] == start[name]
  }

  /** The original is at the config path, or at a backup name that nothing had before. */
  ghost predicate Preserved(start: Files, now: Files, original: Contents) {
    || (ConfigPath in now && now[ConfigPath] == Regular(original))
    || exists id :: Backup(id) !in start && Backup(id) in now && now[Backup(id)] == Regular(original)
  }

  ghost predicate Safe(start: Files, now: Files, original: Contents) {
    OthersKept(start, now) && Preserved(start, now, original)
  }

  /** The files were safe after every operation since the history was this long. */
  ghost predicate SafeSince(start: Files, original: Contents, history: seq<Files>, since: nat) {
    since <= |history| && forall k :: since <= k < |history| ==> Safe(start, history[k], original)
  }

  /** A new file has come, or not, and nothing else has changed. */
  ghost predicate Beside(start: Files, now: Files, name: Name) {
    name !in start && now - {name} == start
  }

  /** A temporary file more or less touches neither the config nor a backup nor any file that was there. */
  lemma BesideTouchesNothing(start: Files, now: Files, temp: Name)
    requires temp.Temp? && Beside(start, now, temp)
    ensures OthersKept(start, now) && SameConfig(start, now) && SameBackups(start, now)
  {
    assert forall name :: name != temp ==> (name in now <==> name in now - {temp});
  }

  /** While a configuration is being written, the config is as it was or new, and nothing else that was
      there has changed. */
  ghost predicate Writing(start: Files, now: Files, config: AppConfig) {
    && OthersKept(start, now) && SameBackups(start, now)
    && (SameConfig(start, now) || (ConfigPath in now && now[ConfigPath] == Regular(Serialize(config))))
  }

  lemma BesideIsWriting(start: Files, now: Files, temp: Name, config: AppConfig)
    requires temp.Temp? && Beside(start, now, temp)
    ensures Writing(start, now, config) && View(now) == View(start)
  {
    BesideTouchesNothing(start, now, temp);
  }

  lemma NothingIsWriting(start: Files, config: AppConfig)
    ensures Writing(start, start, config)
  {
  }

  lemma InPlaceIsWriting(start: Files, config: AppConfig)
    ensures Writing(start, start[ConfigPath := Regular(Serialize(config))], config)
  {
  }

  // ---------------------------------------------------------------------
  // Which failing operations end where
  // ---------------------------------------------------------------------

  /** Whether a temporary file begun at operation `n` comes about, and the operation after it. */
  function PrepareEnds(fails: nat -> bool, n: nat): (bool, nat) {
    if fails(n) then (false, n + 1)
    else if fails(n + 1) then (false, n + 3)
    else if fails(n + 2) then (false, n + 4)
    else (true, n + 3)
  }

  /** Whether `write_unlocked` of a valid configuration begun at operation `n` answers Ok. */
  function WriteEnds(fails: nat -> bool, n: nat): (bool, nat) {
    var (prepared, next) := PrepareEnds(fails, n);
    if !prepared then (false, next) else (!fails(next) && !fails(next + 1), next + 2)
  }

  lemma WorkingPrepares(fails: nat -> bool, n: nat)
    requires forall k :: !fails(k)
    ensures PrepareEnds(fails, n).0
  {
  }

  datatype RepairEnd = KeptInPlace | Replaced | RolledBack | Stuck

  function RestoreEnd(fails: nat -> bool, n: nat): RepairEnd {
    if fails(n) || fails(n + 1) then Stuck else RolledBack
  }

  /** And the rest of a repair, once the config is in the backup. */
  function ReplaceEndsAs(fails: nat -> bool, n: nat): (end: RepairEnd)
    ensures !end.KeptInPlace?
    ensures (forall k :: !fails(k)) ==> end.Replaced?
  {
    if fails(n) then RestoreEnd(fails, n + 1)
    else
      var (written, next) := WriteEnds(fails, n + 1);
      if written then Replaced else RestoreEnd(fails, next)
  }

  /** Where the repair of an invalid config begun at operation `n` ends: lock, inspection, reading, link,
      backup sync and removal come first. */
  function RepairEndsAs(fails: nat -> bool, n: nat): RepairEnd {
    if exists k :: n <= k < n + 6 && fails(k) then KeptInPlace else ReplaceEndsAs(fails, n + 6)
  }

  predicate IsStuck(error: StoreError) {
    error.ReplacementStuck? || error.RestoreStuck?
  }

  lemma DefaultIsValid()
    ensures Validate(Default()).Ok?
  {
  }

  /** With the original in a backup, files that differ from those only beside it are safe. */
  lemma WritingIsSafe(start: Files, quarantined: Files, original: Contents, backup: Name)
    requires backup.Backup? && backup !in start && backup in quarantined && quarantined[backup] == Regular(original)
    requires OthersKept(start, quarantined)
    ensures forall now :: OthersKept(quarantined, now) && SameBackups(quarantined, now) ==>
      Safe(start, now, original) && backup in now && now[backup] == Regular(original)
  {
    forall now | OthersKept(quarantined, now) && SameBackups(quarantined, now)
      ensures Safe(start, now, original) && backup in now && now[backup] == Regular(original)
    {
      assert Backup(backup.id) in now;
    }
  }

  lemma OthersKeptAside(start: Files, backup: Name, original: Contents)
    requires backup !in start
    ensures OthersKept(start, (start - {ConfigPath})[backup := Regular(original)])
  {
  }

  /** While the config is in place, any other files are safe. */
  lemma OriginalInPlace(start: Files, original: Contents)
    ensures forall now :: ConfigPath in now && now[ConfigPath] == Regular(original) ==> Preserved(start, now, original)
  {
  }

  /** A commit that answers is the rest of the operation that planned it. */
  lemma CommitIsExec(disk: Option<Contents>, op: Op, luck: Luck)
    requires PlanFor(disk, op).Write? && (luck.Clean? || luck.PrepareFails? || luck.RenameFails? || luck.SyncFails?)
    ensures Exec(disk, op, luck) == Commit(disk, PlanFor(disk, op).config, luck)
  {
    hide Validate;
  }

  /** `ConfigStore` with the files it works on. Repair also holds the lock, so nothing else changes them. */
  class ConfigStore {
    var files: Files
    var operations: nat                // how many file operations have been tried
    const fails: nat -> bool           // which of them fail
    var nextSaveId: nat
    ghost var history: seq<Files>      // the files after every operation

    constructor (files: Files, fails: nat -> bool)
      ensures this.files == files && this.fails == fails && history == [] && operations == nextSaveId == 0
    {
      this.files := files;
      this.fails := fails;
      operations, nextSaveId, history := 0, 0, [];
    }

    /** No operation ever fails. */
    ghost predicate Works() {
      forall n :: !fails(n)
    }

    /** No file has a name that is still to be drawn. */
    ghost predicate NamesFree()
      reads this
    {
      forall id :: nextSaveId <= id ==> Temp(id) !in files && Backup(id) !in files
    }

    /** Whether the next operation fails. */
    method Attempt() returns (ok: bool)
      modifies `operations
      ensures ok == !fails(old(operations)) && operations == old(operations) + 1
    {
      ok := !fails(operations);
      operations := operations + 1;
    }

    method NextSaveId() returns (id: nat)
      modifies `nextSaveId
      ensures id == old(nextSaveId) && nextSaveId == id + 1
    {
      id := nextSaveId;
      nextSaveId := nextSaveId + 1;
    }

    method Become(next: Files)
      modifies `files, `history
      ensures files == next && history == old(history) + [next]
    {
      files := next;
      history := history + [next];
    }

    method Sync() returns (ok: bool)
      modifies `operations
      ensures ok == !fails(old(operations)) && operations == old(operations) + 1
    {
      ok := Attempt();
    }

    method Remove(name: Name) returns (done: Done)
      modifies `operations, `files, `history
      ensures done == Succeeded ==> name in old(files) && files == old(files) - {name}
      ensures done == Missing ==> name !in old(files) && files == old(files)
      ensures done.Succeeded? || done.Missing? || done.Failed?
      ensures done == Failed ==> files == old(files)
      ensures done == Failed <==> fails(old(operations))
      ensures operations == old(operations) + 1
      ensures history == old(history) + [files]
    {
      var ok := Attempt();
      done := if !ok then Failed else if name in files then Succeeded else Missing;
      Become(if done.Succeeded? then files - {name} else files);
    }

    method Move(from: Name, to: Name) returns (ok: bool)
      requires from != to
      modifies `operations, `files, `history
      ensures ok ==> from in old(files) && files == (old(files) - {from})[to := old(files)[from]]
      ensures !ok ==> files == old(files)
      ensures ok <==> !fails(old(operations)) && from in old(files)
      ensures operations == old(operations) + 1
      ensures history == old(history) + [files]
    {
      ok := Attempt();
      ok := ok && from in files;
      Become(if ok then (files - {from})[to := files[from]] else files);
    }

    /** The new name shares the file, whose bytes nothing changes in place afterwards. */
    method HardLink(from: Name, to: Name) returns (done: Done)
      modifies `operations, `files, `history
      ensures done == Succeeded ==>
        from in old(files) && to !in old(files) && files == old(files)[to := old(files)[from]]
      ensures done == AlreadyExists ==> to in old(files)
      ensures done != Succeeded ==> files == old(files)
      ensures done != Missing
      ensures done == Failed <==> fails(old(operations)) || from !in old(files)
      ensures operations == old(operations) + 1
      ensures history == old(history) + [files]
    {
      var ok := Attempt();
      done := if !ok || from !in files then Failed else if to in files then AlreadyExists else Succeeded;
      Become(if done.Succeeded? then files[to := files[from]] else files);
    }

    /** The temporary file has these contents now. */
    method Put(temp: Name, contents: Contents, ghost start: Files)
      requires temp !in start && (files == start || Beside(start, files, temp))
      modifies `files, `history
      ensures files == start[temp := Regular(contents)] && Beside(start, files, temp)
      ensures history == old(history) + [files]
    {
      Become(files[temp := Regular(contents)]);
      assert files == start[temp := Regular(contents)];
    }

    /** Removes a temporary file, if that does not fail as well. */
    method Discard(temp: Name, ghost start: Files)
      requires Beside(start, files, temp)
      modifies `operations, `files, `history
      ensures Beside(start, files, temp) && operations == old(operations) + 1
      ensures history == old(history) + [files]
    {
      var _ := Remove(temp);
    }

    /** `create_new`, `write_all` and `sync_all` of a temporary file, removed again on a failure. */
    method PrepareTemp(temp: Name, contents: Contents) returns (ok: bool)
      requires temp.Temp?
      modifies `operations, `files, `history
      ensures ok ==> temp !in old(files) && files == old(files)[temp := Regular(contents)]
      ensures temp !in old(files) ==> (ok, operations) == PrepareEnds(fails, old(operations))
      ensures files == old(files) || Beside(old(files), files, temp)
      ensures old(history) <= history
      ensures forall k :: |old(history)| <= k < |history| ==> Beside(old(files), history[k], temp)
    {
      hide Beside;
      ghost var start := files;
      ok := Attempt();
      if !ok || temp in files {
        return false;
      }
      Put(temp, EMPTY_FILE, start);
      ok := Attempt();
      if !ok {
        Discard(temp, start);
        return false;
      }
      Put(temp, contents, start);
      ok := Sync();
      if !ok {
        Discard(temp, start);
        return false;
      }
    }

    method ReadConfig() returns (r: Result<Contents, StoreError>)
      modifies `operations
      ensures r.Ok? ==> View(files) == Some(r.value) && Parse(r.value) != Err(NotUtf8)
      ensures r.Err? ==>
        || r.error == Io(Read)
        || (r.error == NotFound && ConfigPath !in files)
        || (r.error == NotUtf8 && View(files).Some? && Parse(View(files).value) == Err(NotUtf8))
      ensures Works() && r == Err(Io(Read)) ==> ConfigPath in files && files[ConfigPath].Special?
    {
      var ok := Attempt();
      if !ok {
        return Err(Io(Read));
      }
      if ConfigPath !in files {
        return Err(NotFound);
      }
      match files[ConfigPath]
      case Special => return Err(Io(Read));
      case Regular(contents) =>
        return if contents.Unreadable? && !contents.utf8 then Err(NotUtf8) else Ok(contents);
    }

    /** Renames the temporary file over the config, or removes it. */
    method MoveIntoPlace(temp: Name, config: AppConfig, ghost start: Files) returns (moved: bool)
      requires temp.Temp? && temp !in start && files == start[temp := Regular(Serialize(config))]
      modifies `operations, `files, `history
      ensures moved <==> !fails(old(operations))
      ensures operations == old(operations) + if moved then 1 else 2
      ensures if moved then files == start[ConfigPath := Regular(Serialize(config))]
              else Beside(start, files, temp)
      ensures old(history) <= history
      ensures forall k :: |old(history)| <= k < |history| ==> Writing(start, history[k], config)
    {
      hide Writing;
      moved := Move(temp, ConfigPath);
      if !moved {
        BesideIsWriting(start, files, temp, config);
        Discard(temp, start);
        BesideIsWriting(start, files, temp, config);
      } else {
        assert files == start[ConfigPath := Regular(Serialize(config))];
        InPlaceIsWriting(start, config);
      }
    }

    method WriteUnlocked(config: AppConfig) returns (r: Result<Snapshot, StoreError>, ghost luck: Luck)
      modifies this
      ensures (View(files), Answered(r)) == Commit(View(old(files)), config, luck)
      ensures luck.Clean? || luck.PrepareFails? || luck.RenameFails? || luck.SyncFails?
      ensures Works() && old(NamesFree()) ==> luck.Clean?
      ensures Validate(config).Ok? && Temp(old(nextSaveId)) !in old(files) ==>
        (r.Ok?, operations) == WriteEnds(fails, old(operations))
      ensures r.Ok? ==> files == old(files)[ConfigPath := Regular(Serialize(config))]
      ensures r.Err? ==> r.error.Io? || (r.error.Invalid? && Validate(config).Err?)
      ensures Writing(old(files), files, config)
      ensures old(history) <= history
      ensures forall k :: |old(history)| <= k < |history| ==> Writing(old(files), history[k], config)
    {
      hide Validate, PrepareEnds, Writing, Beside;
      ghost var start := files;
      luck := Clean;
      NothingIsWriting(start, config);
      InPlaceIsWriting(start, config);
      var verdict := Validate(config);
      if verdict.Err? {
        return Err(Invalid(verdict.error)), luck;
      }
      var contents := Serialize(config);
      var id := NextSaveId();
      var temp := Temp(id);
      if Works() {
        WorkingPrepares(fails, old(operations));
      }
      var prepared := PrepareTemp(temp, contents);
      forall now | Beside(start, now, temp) ensures Writing(start, now, config) && View(now) == View(start) {
        BesideIsWriting(start, now, temp, config);
      }
      if !prepared {
        return Err(Io(Prepare)), PrepareFails;
      }
      var moved := MoveIntoPlace(temp, config, start);
      if !moved {
        return Err(Io(Rename)), RenameFails;
      }
      var synced := Sync();
      if !synced {
        return Err(Io(SyncDirectory)), SyncFails;
      }
      r := Ok(Snapshot(config, contents));
    }

    /** Each operation does to the file, and answers, what the sequential model says for some luck. */
    method LoadOrCreateSnapshot() returns (r: Result<Snapshot, StoreError>, ghost luck: Luck)
      modifies this
      ensures (View(files), Answered(r)) == Exec(View(old(files)), LoadOrCreate, luck)
      ensures OthersKept(old(files), files)
      ensures Works() && old(NamesFree()) && (ConfigPath in old(files) ==> old(files)[ConfigPath].Regular?) ==>
        luck.Clean?
    {
      hide Validate, SameBackups, Commit;
      var locked := Attempt();
      if !locked {
        return Err(Io(Lock)), LockFails;
      }
      luck := Clean;
      var current := ReadConfig();
      match current
      case Ok(contents) =>
        r := SnapshotOf(contents);
      case Err(NotFound) =>
        r, luck := WriteUnlocked(Default());
        CommitIsExec(View(old(files)), LoadOrCreate, luck);
      case Err(error) =>
        r := Err(error);
        if error.Io? { luck := ReadFails; }
    }

    method SaveConfigIfUnchanged(config: AppConfig, expected: Contents)
      returns (r: Result<Snapshot, StoreError>, ghost luck: Luck)
      modifies this
      ensures (View(files), Answered(r)) == Exec(View(old(files)), SaveIfUnchanged(config, expected), luck)
      ensures OthersKept(old(files), files)
      ensures Works() && old(NamesFree()) && (ConfigPath in old(files) ==> old(files)[ConfigPath].Regular?) ==>
        luck.Clean?
    {
      hide Validate, SameBackups, Commit;
      var locked := Attempt();
      if !locked {
        return Err(Io(Lock)), LockFails;
      }
      luck := Clean;
      var read := ReadConfig();
      var current := None;
      match read {
        case Ok(contents) =>
          current := Some(contents);
        case Err(NotFound) =>
        case Err(error) =>
          if error.Io? { luck := ReadFails; }
          return Err(error), luck;
      }
      if current != Some(expected) {
        return Err(ConfigChanged), luck;
      }
      r, luck := WriteUnlocked(config);
      CommitIsExec(View(old(files)), SaveIfUnchanged(config, expected), luck);
    }

    method UpdateConfig(mutate: AppConfig -> AppConfig) returns (r: Result<Snapshot, StoreError>, ghost luck: Luck)
      modifies this
      ensures (View(files), Answered(r)) == Exec(View(old(files)), Update(mutate), luck)
      ensures OthersKept(old(files), files)
      ensures Works() && old(NamesFree()) && (ConfigPath in old(files) ==> old(files)[ConfigPath].Regular?) ==>
        luck.Clean?
    {
      hide Validate, SameBackups, Commit;
      var locked := Attempt();
      if !locked {
        return Err(Io(Lock)), LockFails;
      }
      luck := Clean;
      var read := ReadConfig();
      var config := Default();
      match read {
        case Ok(contents) =>
          var parsed := Parse(contents);
          if parsed.Err? {
            return Err(parsed.error), luck;
          }
          config := parsed.value;
        case Err(NotFound) =>
        case Err(error) =>
          if error.Io? { luck := ReadFails; }
          return Err(error), luck;
      }
      config := mutate(config);
      r, luck := WriteUnlocked(config);
      CommitIsExec(View(old(files)), Update(mutate), luck);
    }

    /** With the invalid config linked to a new name: syncs that and removes the config, or takes the
        new name back. */
    method MoveAside(candidate: Name, ghost start: Files, ghost original: Contents, ghost since: nat)
      returns (r: Result<Name, StoreError>)
      requires candidate.Backup? && candidate !in start && files == start[candidate := Regular(original)]
      requires ConfigPath in start && start[ConfigPath] == Regular(original)
      requires SafeSince(start, original, history, since)
      modifies `operations, `files, `history
      ensures SafeSince(start, original, history, since)
      ensures r.Ok? <==> !fails(old(operations)) && !fails(old(operations) + 1)
      ensures r.Ok? ==>
        r.value == candidate && files == (start - {ConfigPath})[candidate := Regular(original)]
        && operations == old(operations) + 2
      ensures r.Err? ==>
        && (r.error.Io? || r.error.CleanupStuck?)
        && OthersKept(start, files) && ConfigPath in files && files[ConfigPath] == Regular(original)
      ensures r.Err? && !r.error.CleanupStuck? && r.error != Io(SyncBackup) ==> files == start
    {
      var synced := Sync();
      if !synced {
        var _ := Remove(candidate);
        return Err(Io(SyncBackup));
      }
      var removed := Remove(ConfigPath);
      if removed != Succeeded {
        var cleanup := Remove(candidate);
        return Err(if cleanup == Succeeded then Io(RemoveConfig) else CleanupStuck);
      }
      assert Preserved(start, files, original) by {
        assert Backup(candidate.id) in files;
      }
      return Ok(candidate);
    }

    /** Hard-links the invalid config to a name nothing has, then removes it from its own. */
    method QuarantineInvalidConfig(ghost start: Files, ghost original: Contents, ghost since: nat)
      returns (r: Result<Name, StoreError>)
      requires files == start && ConfigPath in files && files[ConfigPath] == Regular(original)
      requires SafeSince(start, original, history, since)
      modifies this
      ensures SafeSince(start, original, history, since)
      ensures r.Ok? ==>
        && r.value.Backup? && r.value !in start
        && files == (start - {ConfigPath})[r.value := Regular(original)]
      ensures r.Err? ==>
        && (r.error.Io? || r.error.NoBackupName? || r.error.CleanupStuck?)
        && OthersKept(start, files) && ConfigPath in files && files[ConfigPath] == Regular(original)
      ensures r.Err? && !r.error.CleanupStuck? && r.error != Io(SyncBackup) ==> files == start
      ensures old(NamesFree()) ==>
        (r.Ok? <==> forall k :: old(operations) <= k < old(operations) + 3 ==> !fails(k))
      ensures old(NamesFree()) && r.Ok? ==> NamesFree() && operations == old(operations) + 3
    {
      hide Preserved;
      OriginalInPlace(start, original);
      for attempt := 0 to BACKUP_ATTEMPTS
        invariant files == start && SafeSince(start, original, history, since)
        invariant old(NamesFree()) ==> attempt == 0 && operations == old(operations)
        invariant old(nextSaveId) <= nextSaveId
      {
        var id := NextSaveId();
        var candidate := Backup(id);
        var linked := HardLink(ConfigPath, candidate);
        match linked {
          case Succeeded =>
            r := MoveAside(candidate, start, original, since);
            return;
          case AlreadyExists =>
          case _ =>
            return Err(Io(Link));
        }
      }
      return Err(NoBackupName);
    }

    /** Takes the replacement away, if any, and moves the backup back. */
    method RestoreAfterFailedRepair(
        backup: Name, cause: StoreError, ghost start: Files, ghost original: Contents, ghost since: nat)
      returns (error: StoreError)
      requires backup.Backup? && backup !in start && backup in files && files[backup] == Regular(original)
      requires OthersKept(start, files) && SafeSince(start, original, history, since)
      requires cause.Io? || cause.Invalid?
      modifies this
      ensures SafeSince(start, original, history, since) && Safe(start, files, original)
      ensures error == cause || error == RestoredUnsynced(cause) ==>
        ConfigPath in files && files[ConfigPath] == Regular(original) && backup !in files
      ensures error == ReplacementStuck(cause) || error == RestoreStuck(cause) ==>
        backup in files && files[backup] == Regular(original)
      ensures error in {cause, RestoredUnsynced(cause), ReplacementStuck(cause), RestoreStuck(cause)}
      ensures View(old(files)) != Some(original) ==>
        && (View(files) == Some(original) <==> RestoreEnd(fails, old(operations)) == RolledBack)
        && (View(files) == Some(original) <==> !IsStuck(error))
    {
      var removed := Remove(ConfigPath);
      if removed == Failed {
        return ReplacementStuck(cause);
      }
      assert Preserved(start, files, original);
      var moved := Move(backup, ConfigPath);
      if !moved {
        return RestoreStuck(cause);
      }
      var synced := Sync();
      if !synced {
        return RestoredUnsynced(cause);
      }
      error := cause;
    }

    /** With the invalid config moved to a backup: makes that durable and writes the defaults, or rolls
        back. */
    method ReplaceQuarantined(backup: Name, ghost start: Files, ghost original: Contents, ghost since: nat)
      returns (r: Result<RepairOutcome, StoreError>)
      requires ConfigPath in start && start[ConfigPath] == Regular(original) && Parse(original).Err?
      requires backup.Backup? && backup !in start
      requires files == (start - {ConfigPath})[backup := Regular(original)]
      requires SafeSince(start, original, history, since)
      modifies this
      ensures SafeSince(start, original, history, since) && Safe(start, files, original)
      ensures r.Ok? ==>
        && r.value == Repaired(Default(), backup)
        && files == start[ConfigPath := Regular(Serialize(Default()))][backup := Regular(original)]
      ensures View(files) == Some(original) <==> r.Err? && !IsStuck(r.error)
      ensures Temp(old(nextSaveId)) !in start ==>
        var end := ReplaceEndsAs(fails, old(operations));
        && (r.Ok? <==> end == Replaced)
        && (View(files) == Some(original) <==> end == RolledBack)
    {
      hide Validate, WriteEnds, Preserved, OthersKept, SameBackups;
      assert OthersKept(start, files) by { OthersKeptAside(start, backup, original); }
      assert Validate(Default()).Ok? by { DefaultIsValid(); }
      var synced := Sync();
      if !synced {
        var error := RestoreAfterFailedRepair(backup, Io(SyncDirectory), start, original, since);
        return Err(error);
      }
      ghost var quarantined := files;
      var written, _ := WriteUnlocked(Default());
      WritingIsSafe(start, quarantined, original, backup);
      if written.Ok? {
        return Ok(Repaired(Default(), backup));
      }
      var error := RestoreAfterFailedRepair(backup, written.error, start, original, since);
      return Err(error);
    }

    /** `repair_with_defaults`: whatever fails, at every moment the original text is at the config path or
        in a new backup and no other file has changed. A repair leaves the defaults and the backup; every
        other answer says where the original is. */
    method RepairWithDefaults() returns (r: Result<RepairOutcome, StoreError>)
      modifies this
      ensures forall original :: View(old(files)) == Some(original) ==>
        SafeSince(old(files), original, history, |old(history)|) && Safe(old(files), files, original)
      ensures r.Ok? && r.value.Unchanged? ==>
        files == old(files) && View(files).Some? && Parse(View(files).value) == Ok(r.value.config)
      ensures r.Ok? && r.value.Created? ==>
        && ConfigPath !in old(files) && r.value.config == Default()
        && files == old(files)[ConfigPath := Regular(Serialize(Default()))]
      ensures r.Ok? && r.value.Repaired? ==>
        && View(old(files)).Some? && Parse(View(old(files)).value).Err? && r.value.config == Default()
        && r.value.backup.Backup? && r.value.backup !in old(files)
        && files == old(files)[ConfigPath := Regular(Serialize(Default()))][r.value.backup := old(files)[ConfigPath]]
      ensures r.Err? && ConfigPath in old(files) ==>
        (ConfigPath in files && files[ConfigPath] == old(files)[ConfigPath] <==> !IsStuck(r.error))
      ensures old(NamesFree()) && View(old(files)).Some? && Parse(View(old(files)).value).Err? ==>
        var end := RepairEndsAs(fails, old(operations));
        && (r.Ok? <==> end == Replaced)
        && (View(files) == View(old(files)) <==> end == KeptInPlace || end == RolledBack)
      ensures ConfigPath in old(files) && (View(old(files)).None? || Parse(View(old(files)).value).Ok?) ==>
        files == old(files) && !(r.Ok? && r.value.Repaired?)
      ensures Works() && old(NamesFree()) ==>
        (r.Err? <==> ConfigPath in old(files) && old(files)[ConfigPath].Special?)
    {
      hide Validate, ReplaceEndsAs, WriteEnds;
      ghost var start, since := files, |history|;
      var locked := Attempt();
      if !locked {
        return Err(Io(Lock));
      }
      var defaults := Default();
      assert Validate(defaults).Ok? by { DefaultIsValid(); }
      var inspected := Attempt();
      if !inspected {
        return Err(Io(Inspect));
      }
      if ConfigPath !in files {
        var written, _ := WriteUnlocked(defaults);
        return if written.Ok? then Ok(Created(defaults)) else Err(written.error);
      }
      if files[ConfigPath].Special? {
        return Err(NotRegular);
      }
      var read := Attempt();
      if !read {
        return Err(Io(Read));
      }
      var original := files[ConfigPath].contents;
      var parsed := Parse(original);
      if parsed.Ok? {
        return Ok(Unchanged(parsed.value));
      }
      var quarantined := QuarantineInvalidConfig(start, original, since);
      if quarantined.Err? {
        return Err(quarantined.error);
      }
      r := ReplaceQuarantined(quarantined.value, start, original, since);
    }
  }

  /** A failed repair does not always put the original back: with only the directory sync after the
      quarantine and the very next operation failing, it answers with the config path empty of it. */
  method StuckRepair() returns (before: Files, after: Files, answer: Result<RepairOutcome, StoreError>)
    ensures before == map[ConfigPath := Regular(Unreadable([0], false))]
    ensures answer.Err? && IsStuck(answer.error) && View(after) != View(before)
    ensures Preserved(before, after, Unreadable([0], false))
  {
    before := map[ConfigPath := Regular(Unreadable([0], false))];
    var store := new ConfigStore(before, n => n == 6 || n == 7);
    assert RepairEndsAs(store.fails, 0) == Stuck;
    answer := store.RepairWithDefaults();
    after := store.files;
  }
}
