/** One configuration operation at a time: what it does to the file and what it answers
    (src/config/store.rs). */
module StoreModel {
  import opened Prelude
  import opened ConfigSchema

  /** A config file's text. A document reads as a configuration, in one of many spellings of which
      the serializer writes spelling 0; anything else does not read as one. */
  datatype Contents =
    | Document(config: AppConfig, spelling: nat)
    | Unreadable(bytes: seq<nat>, utf8: bool)

  datatype FileStep = Lock | Inspect | Read | Prepare | Rename | SyncDirectory | Link | SyncBackup | RemoveConfig

  datatype StoreError =
    | Io(step: FileStep)
    | NotFound
    | NotUtf8
    | ParseFailed
    | Invalid(error: ConfigError)
    | ConfigChanged
    | NotRegular
    | NoBackupName
    | CleanupStuck                            // neither the config nor its duplicate backup could be removed
    | ReplacementStuck(cause: StoreError)     // the incomplete replacement could not be removed
    | RestoreStuck(cause: StoreError)         // the backup could not be moved back
    | RestoredUnsynced(cause: StoreError)     // moved back, but the directory was not synced

  /** `ConfigRevision` holds the exact text. */
  datatype Snapshot = Snapshot(config: AppConfig, revision: Contents)

  function Serialize(config: AppConfig): Contents {
    Document(config, 0)
  }

  /** Reading as text, then as TOML, then validating. */
  function Parse(contents: Contents): Result<AppConfig, StoreError> {
    match contents
    case Unreadable(_, utf8) => Err(if utf8 then ParseFailed else NotUtf8)
    case Document(config, _) =>
      match Validate(config)
      case Ok(_) => Ok(config)
      case Err(error) => Err(Invalid(error))
  }

  datatype Op =
    | Load
    | LoadOrCreate
    | SaveIfUnchanged(config: AppConfig, expected: Contents)
    | Update(mutate: AppConfig -> AppConfig)

  /** What an operation does once it has read the file: answer, or write a configuration. */
  datatype Plan = Answer(result: Result<Snapshot, StoreError>) | Write(config: AppConfig)

  function PlanFor(disk: Option<Contents>, op: Op): Plan {
    match op
    case Load =>
      if disk.None? then Answer(Err(NotFound)) else Answer(SnapshotOf(disk.value))
    case LoadOrCreate =>
      if disk.None? then Write(Default()) else Answer(SnapshotOf(disk.value))
    case SaveIfUnchanged(config, expected) =>
      if disk.Some? && disk.value.Unreadable? && !disk.value.utf8 then Answer(Err(NotUtf8))
      else if disk != Some(expected) then Answer(Err(ConfigChanged))
      else Write(config)
    case Update(mutate) =>
      if disk.None? then Write(mutate(Default()))
      else match Parse(disk.value)
           case Ok(config) => Write(mutate(config))
           case Err(error) => Answer(Err(error))
  }

  function SnapshotOf(contents: Contents): Result<Snapshot, StoreError> {
    match Parse(contents)
    case Ok(config) => Ok(Snapshot(config, contents))
    case Err(error) => Err(error)
  }

  /** The first file operation that goes wrong, if any; a crash may come before or after the rename. */
  datatype Luck = Clean | LockFails | ReadFails | PrepareFails | RenameFails | SyncFails | CrashBefore | CrashAfter

  datatype Outcome = Answered(result: Result<Snapshot, StoreError>) | Crashed

  /** `write_unlocked` */
  function Commit(disk: Option<Contents>, config: AppConfig, luck: Luck): (Option<Contents>, Outcome) {
    if Validate(config).Err? then (disk, Answered(Err(Invalid(Validate(config).error))))
    else match luck
         case Clean => (Some(Serialize(config)), Answered(Ok(Snapshot(config, Serialize(config)))))
         case CrashAfter => (Some(Serialize(config)), Crashed)
         case SyncFails => (Some(Serialize(config)), Answered(Err(Io(SyncDirectory))))
         case RenameFails => (disk, Answered(Err(Io(Rename))))
         case PrepareFails => (disk, Answered(Err(Io(Prepare))))
         case ReadFails => (disk, Answered(Err(Io(Read))))
         case LockFails => (disk, Answered(Err(Io(Lock))))
         case CrashBefore => (disk, Crashed)
  }

  /** One whole operation with nothing in between. */
  function Exec(disk: Option<Contents>, op: Op, luck: Luck): (Option<Contents>, Outcome) {
    if luck.CrashBefore? then (disk, Crashed)
    else if luck.LockFails? then (disk, Answered(Err(Io(Lock))))
    else if luck.ReadFails? then (disk, Answered(Err(Io(Read))))
    else match PlanFor(disk, op)
         case Answer(result) => (disk, if luck.CrashAfter? then Crashed else Answered(result))
         case Write(config) => Commit(disk, config, luck)
  }

  // ---------------------------------------------------------------------
  // Laws of one operation
  // ---------------------------------------------------------------------

  /** Nothing there, or a valid configuration in any spelling. */
  predicate Readable(disk: Option<Contents>) {
    disk.Some? ==> Parse(disk.value).Ok?
  }

  /** A valid configuration reads back from any of its spellings, the written one included, and nothing
      else reads as a configuration. */
  lemma SerializeRoundTrips(config: AppConfig)
    ensures Parse(Serialize(config)) == Ok(config) <==> Validate(config).Ok?
    ensures forall contents :: Parse(contents) == Ok(config) <==>
      contents.Document? && contents.config == config && Validate(config).Ok?
  {
  }

  /** Every Ok answer is true of the file that the operation leaves: the revision is its exact text, which
      reads as the answered configuration. */
  lemma AnswersAreTrue(disk: Option<Contents>, op: Op, luck: Luck)
    ensures var (after, outcome) := Exec(disk, op, luck);
            outcome.Answered? && outcome.result.Ok? ==>
              && after == Some(outcome.result.value.revision)
              && Parse(outcome.result.value.revision) == Ok(outcome.result.value.config)
  {
    hide Validate;
  }

  /** What a load answers when nothing fails. Over an existing file it leaves the file alone and answers
      its configuration with its exact text, or why it does not read as one; with no file, `Load` says so
      and `LoadOrCreate` writes and answers the defaults. */
  lemma LoadsAnswerExactly(disk: Option<Contents>, op: Op)
    requires op.Load? || op.LoadOrCreate?
    ensures var (after, outcome) := Exec(disk, op, Clean);
            match disk
            case Some(text) =>
              && after == disk
              && outcome == Answered(match Parse(text)
                                     case Ok(config) => Ok(Snapshot(config, text))
                                     case Err(error) => Err(error))
            case None =>
              if op.Load? then after == None && outcome == Answered(Err(NotFound))
              else
                && after == Some(Serialize(Default()))
                && outcome == Answered(Ok(Snapshot(Default(), Serialize(Default()))))
  {
    hide Parse;
    assert Validate(Default()).Ok?;
  }

  /** An update that nothing disturbs changes the configuration that the file holds, or the defaults where
      there is none; a file that does not read as a configuration is left alone. */
  lemma UpdatesApplyExactly(disk: Option<Contents>, mutate: AppConfig -> AppConfig)
    ensures var (after, outcome) := Exec(disk, Update(mutate), Clean);
            if disk.Some? && Parse(disk.value).Err? then
              after == disk && outcome == Answered(Err(Parse(disk.value).error))
            else
              var config := mutate(if disk.None? then Default() else Parse(disk.value).value);
              match Validate(config)
              case Ok(_) =>
                after == Some(Serialize(config)) && outcome == Answered(Ok(Snapshot(config, Serialize(config))))
              case Err(error) => after == disk && outcome == Answered(Err(Invalid(error)))
  {
    hide Parse, Validate;
  }

  /** A failure before the rename leaves the file as it was, a failing lock or read is what the answer
      names, and an Ok answer is the answer of an undisturbed operation. */
  lemma FailuresAreReported(disk: Option<Contents>, op: Op, luck: Luck)
    ensures var (after, outcome) := Exec(disk, op, luck);
            && (after != disk ==> luck in {Clean, SyncFails, CrashAfter})
            && (outcome.Crashed? ==> luck in {CrashBefore, CrashAfter})
            && (outcome.Answered? && outcome.result.Ok? ==> (after, outcome) == Exec(disk, op, Clean))
            && (luck.CrashBefore? ==> outcome.Crashed?)
            && (luck.LockFails? ==> outcome == Answered(Err(Io(Lock))))
            && (luck.ReadFails? ==> outcome == Answered(Err(Io(Read))))
  {
    hide Validate;
  }

  /** Saving with the revision that a load returned, with nothing in between, succeeds for every valid
      configuration and however the loaded file was spelled. */
  lemma LoadThenSave(disk: Option<Contents>, op: Op, config: AppConfig)
    requires op.Load? || op.LoadOrCreate?
    requires Exec(disk, op, Clean).1.Answered? && Exec(disk, op, Clean).1.result.Ok? && Validate(config).Ok?
    ensures var (after, outcome) := Exec(disk, op, Clean);
            Exec(after, SaveIfUnchanged(config, outcome.result.value.revision), Clean)
              == (Some(Serialize(config)), Answered(Ok(Snapshot(config, Serialize(config)))))
  {
    hide Validate;
  }

  /** No operation leaves anything but what was there or a whole valid configuration. */
  lemma OnlyWholeRevisions(disk: Option<Contents>, op: Op, luck: Luck)
    ensures var after := Exec(disk, op, luck).0;
            after == disk || exists config :: Validate(config).Ok? && after == Some(Serialize(config))
    ensures Readable(disk) ==> Readable(Exec(disk, op, luck).0)
  {
    hide Validate;
    if PlanFor(disk, op).Write? {
      SerializeRoundTrips(PlanFor(disk, op).config);
    }
  }

  /** Compare-and-swap: a save succeeds only over exactly the expected text, which it replaces whole;
      it reports a changed config only where the text differs, leaving the file alone. */
  lemma SaveSwapsExactly(disk: Option<Contents>, config: AppConfig, expected: Contents, luck: Luck)
    ensures var (after, outcome) := Exec(disk, SaveIfUnchanged(config, expected), luck);
            && (outcome.Answered? && outcome.result.Ok? ==>
                  disk == Some(expected) && after == Some(outcome.result.value.revision)
                  && Parse(outcome.result.value.revision) == Ok(config))
            && (outcome == Answered(Err(ConfigChanged)) ==> disk != Some(expected) && after == disk)
            && (after != disk ==> disk == Some(expected) && after == Some(Serialize(config)))
    ensures luck.Clean? && disk != Some(expected) && !(disk.Some? && Parse(disk.value) == Err(NotUtf8)) ==>
              Exec(disk, SaveIfUnchanged(config, expected), luck).1 == Answered(Err(ConfigChanged))
    ensures luck.Clean? && disk.Some? && Parse(disk.value) == Err(NotUtf8) ==>
              Exec(disk, SaveIfUnchanged(config, expected), luck) == (disk, Answered(Err(NotUtf8)))
    ensures luck.Clean? && disk == Some(expected) && Validate(config).Ok?
            && Parse(expected) != Err(NotUtf8) ==>
              Exec(disk, SaveIfUnchanged(config, expected), luck).1.result ==
                Ok(Snapshot(config, Serialize(config)))
  {
    hide Validate;
    SerializeRoundTrips(config);
  }

  /** The revision a save returns is the one the next save must expect. */
  lemma SavesChain(disk: Option<Contents>, a: AppConfig, b: AppConfig, expected: Contents)
    requires Exec(disk, SaveIfUnchanged(a, expected), Clean).1.Answered?
    requires Exec(disk, SaveIfUnchanged(a, expected), Clean).1.result.Ok? && Validate(b).Ok?
    ensures var (after, outcome) := Exec(disk, SaveIfUnchanged(a, expected), Clean);
            Exec(after, SaveIfUnchanged(b, outcome.result.value.revision), Clean)
              == (Some(Serialize(b)), Answered(Ok(Snapshot(b, Serialize(b)))))
  {
    hide Validate;
  }

  /** An operation answers with an error and has changed the file exactly when it got as far as syncing
      the directory over a different text, and that sync failed. */
  lemma ErrAfterChangeExactly(disk: Option<Contents>, op: Op, luck: Luck)
    ensures var (after, outcome) := Exec(disk, op, luck);
            after != disk && outcome.Answered? && outcome.result.Err? <==>
              && luck.SyncFails? && PlanFor(disk, op).Write?
              && Validate(PlanFor(disk, op).config).Ok?
              && disk != Some(Serialize(PlanFor(disk, op).config))
  {
    hide Validate;
  }
}
