/** Processes sharing one config file: the locked operations interleave file step by file step, and
    unlocked readers look at any time (src/config/store.rs). */
module StoreMachine {
  import opened Prelude
  import opened ConfigSchema
  import opened StoreModel

  datatype Stage =
    | Locking
    | Reading
    | Preparing(config: AppConfig)     // writing and syncing the temporary file
    | Renaming(config: AppConfig)
    | Syncing(config: AppConfig)       // the new file is in place
    | Returning(outcome: Outcome, luck: Luck)
    | Finished(outcome: Outcome)

  datatype Process = Process(op: Op, stage: Stage)

  datatype Entry = Entry(p: nat, op: Op, luck: Luck, outcome: Outcome)

  datatype State = State(
    disk: Option<Contents>,
    holder: Option<nat>,
    processes: map<nat, Process>,
    log: seq<Entry>,                                              // operations in lock order
    inspections: seq<Result<Option<AppConfig>, StoreError>>)      // answers to unlocked readers

  datatype Step =
    | Begin(p: nat, op: Op)
    | Acquire(p: nat, ok: bool)
    | ReadFile(p: nat, ok: bool)
    | PrepareTemp(p: nat, ok: bool)
    | RenameTemp(p: nat, ok: bool)
    | SyncDir(p: nat, ok: bool)
    | Release(p: nat)
    | Crash(p: nat)
    | InspectExisting(ok: bool)

  function Start(disk: Option<Contents>): State {
    State(disk, None, map[], [], [])
  }

  ghost predicate At(s: State, p: nat) {
    p in s.processes && s.holder == Some(p)
  }

  ghost predicate Enabled(s: State, step: Step) {
    match step
    case Begin(p, _) => p !in s.processes
    case Acquire(p, ok) =>
      p in s.processes && s.processes[p].stage.Locking? && (ok ==> s.holder.None?)
    case ReadFile(p, _) => At(s, p) && s.processes[p].stage.Reading?
    case PrepareTemp(p, _) => At(s, p) && s.processes[p].stage.Preparing?
    case RenameTemp(p, _) => At(s, p) && s.processes[p].stage.Renaming?
    case SyncDir(p, _) => At(s, p) && s.processes[p].stage.Syncing?
    case Release(p) => At(s, p) && s.processes[p].stage.Returning?
    case Crash(p) => At(s, p) && !s.processes[p].stage.Returning?
    case InspectExisting(_) => true
  }

  ghost function Go(s: State, p: nat, stage: Stage): State
    requires p in s.processes
  {
    s.(processes := s.processes[p := s.processes[p].(stage := stage)])
  }

  ghost function Fail(s: State, p: nat, step: FileStep, luck: Luck): State
    requires p in s.processes
  {
    Go(s, p, Returning(Answered(Err(Io(step))), luck))
  }

  /** Leaving the critical section, by returning or by dying, which also drops the lock. */
  ghost function Leave(s: State, p: nat, outcome: Outcome, luck: Luck): State
    requires p in s.processes
  {
    Go(s, p, Finished(outcome)).(holder := None, log := s.log + [Entry(p, s.processes[p].op, luck, outcome)])
  }

  function InspectionOf(disk: Option<Contents>): Result<Option<AppConfig>, StoreError> {
    if disk.None? then Ok(None)
    else match Parse(disk.value)
         case Ok(config) => Ok(Some(config))
         case Err(error) => Err(error)
  }

  ghost function Apply(s: State, step: Step): State
    requires Enabled(s, step)
  {
    match step
    case Begin(p, op) => s.(processes := s.processes[p := Process(op, Locking)])
    case Acquire(p, ok) =>
      if ok then Go(s, p, Reading).(holder := Some(p)) else Go(s, p, Finished(Answered(Err(Io(Lock)))))
    case ReadFile(p, ok) =>
      if !ok then Fail(s, p, Read, ReadFails)
      else (match PlanFor(s.disk, s.processes[p].op)
            case Answer(result) => Go(s, p, Returning(Answered(result), Clean))
            case Write(config) =>
              match Validate(config)
              case Ok(_) => Go(s, p, Preparing(config))
              case Err(error) => Go(s, p, Returning(Answered(Err(Invalid(error))), Clean)))
    case PrepareTemp(p, ok) =>
      if ok then Go(s, p, Renaming(s.processes[p].stage.config)) else Fail(s, p, Prepare, PrepareFails)
    case RenameTemp(p, ok) =>
      if ok then
        Go(s, p, Syncing(s.processes[p].stage.config)).(disk := Some(Serialize(s.processes[p].stage.config)))
      else Fail(s, p, Rename, RenameFails)
    case SyncDir(p, ok) =>
      var config := s.processes[p].stage.config;
      if ok then Go(s, p, Returning(Answered(Ok(Snapshot(config, Serialize(config)))), Clean))
      else Fail(s, p, SyncDirectory, SyncFails)
    case Release(p) => Leave(s, p, s.processes[p].stage.outcome, s.processes[p].stage.luck)
    case Crash(p) => Leave(s, p, Crashed, if s.processes[p].stage.Syncing? then CrashAfter else CrashBefore)
    case InspectExisting(ok) =>
      s.(inspections := s.inspections + [if ok then InspectionOf(s.disk) else Err(Io(Read))])
  }

  ghost predicate Legal(s: State, steps: seq<Step>)
    decreases |steps|
  {
    steps == [] || (Enabled(s, steps[0]) && Legal(Apply(s, steps[0]), steps[1..]))
  }

  ghost function Play(s: State, steps: seq<Step>): State
    requires Legal(s, steps)
    decreases |steps|
  {
    if steps == [] then s else Play(Apply(s, steps[0]), steps[1..])
  }

  // ---------------------------------------------------------------------
  // The sequential run
  // ---------------------------------------------------------------------

  /** The file after running the logged operations one after another. */
  ghost function After(disk: Option<Contents>, log: seq<Entry>): Option<Contents> {
    if log == [] then disk
    else
      var last := log[|log| - 1];
      Exec(After(disk, log[..|log| - 1]), last.op, last.luck).0
  }

  /** Every logged operation answered as it would have alone. */
  ghost predicate AnswersAgree(disk: Option<Contents>, log: seq<Entry>) {
    forall i :: 0 <= i < |log| ==>
      Exec(After(disk, log[..i]), log[i].op, log[i].luck).1 == log[i].outcome
  }

  /** What the lock holder has done so far, seen from the file it found. */
  ghost predicate HolderOnTrack(found: Option<Contents>, disk: Option<Contents>, process: Process) {
    match process.stage
    case Locking => false
    case Reading => disk == found
    case Preparing(config) => disk == found && PlanFor(found, process.op) == Write(config) && Validate(config).Ok?
    case Renaming(config) => disk == found && PlanFor(found, process.op) == Write(config) && Validate(config).Ok?
    case Syncing(config) =>
      disk == Some(Serialize(config)) && PlanFor(found, process.op) == Write(config) && Validate(config).Ok?
    case Returning(outcome, luck) => Exec(found, process.op, luck) == (disk, outcome)
    case Finished(_) => false
  }

  ghost predicate Serial(start: Option<Contents>, s: State) {
    && AnswersAgree(start, s.log)
    && (match s.holder
        case None => s.disk == After(start, s.log)
        case Some(p) => p in s.processes && HolderOnTrack(After(start, s.log), s.disk, s.processes[p]))
  }

  /** Who is where: only the holder is inside, and whoever is done is in the log, once. */
  ghost predicate Orderly(s: State) {
    && (s.holder.Some? ==> s.holder.value in s.processes)
    && (forall p :: p in s.processes ==>
          s.processes[p].stage.Locking? || s.processes[p].stage.Finished? || s.holder == Some(p))
    && (forall p :: p in s.processes && s.processes[p].stage.Locking? ==> s.holder != Some(p))
    && (forall i :: 0 <= i < |s.log| ==>
          s.log[i].p in s.processes && s.processes[s.log[i].p] == Process(s.log[i].op, Finished(s.log[i].outcome)))
    && (forall i, j :: 0 <= i < j < |s.log| ==> s.log[i].p != s.log[j].p)
    && (forall p :: p in s.processes && s.processes[p].stage.Finished? ==>
          s.holder != Some(p)
          && (s.processes[p].stage.outcome == Answered(Err(Io(Lock))) || Logged(s, p)))
  }

  ghost predicate Logged(s: State, p: nat) {
    exists i :: 0 <= i < |s.log| && s.log[i].p == p
  }

  lemma AfterOneMore(disk: Option<Contents>, log: seq<Entry>, entry: Entry)
    ensures After(disk, log + [entry]) == Exec(After(disk, log), entry.op, entry.luck).0
    ensures AnswersAgree(disk, log)
            && Exec(After(disk, log), entry.op, entry.luck).1 == entry.outcome ==>
              AnswersAgree(disk, log + [entry])
  {
    hide Exec;
    var more := log + [entry];
    assert more[..|log|] == log;
    forall i | 0 <= i < |log| ensures more[..i] == log[..i] && more[i] == log[i] {
    }
  }

  lemma HolderStaysOnTrack(start: Option<Contents>, s: State, step: Step)
    requires Serial(start, s) && Orderly(s) && Enabled(s, step) && !step.Release? && !step.Crash?
    ensures Serial(start, Apply(s, step))
  {
    hide Validate, After, AnswersAgree;
  }

  lemma LeavingIsSerial(start: Option<Contents>, s: State, step: Step)
    requires Serial(start, s) && Enabled(s, step) && (step.Release? || step.Crash?)
    ensures Serial(start, Apply(s, step))
  {
    hide Validate, After, AnswersAgree;
    var t := Apply(s, step);
    AfterOneMore(start, s.log, t.log[|s.log|]);
    assert t.log == s.log + [t.log[|s.log|]];
  }

  lemma StaysLogged(s: State, step: Step, p: nat)
    requires Enabled(s, step) && Logged(s, p)
    ensures Logged(Apply(s, step), p)
  {
    hide Validate, PlanFor, Parse;
    var i :| 0 <= i < |s.log| && s.log[i].p == p;
    assert Apply(s, step).log[i] == s.log[i];
  }

  lemma LeavingIsOrderly(s: State, step: Step)
    requires Orderly(s) && Enabled(s, step) && (step.Release? || step.Crash?)
    ensures Orderly(Apply(s, step))
  {
    hide Logged;
    var t := Apply(s, step);
    IsLogged(t, |s.log|);
    forall p | p in t.processes && t.processes[p].stage.Finished?
      ensures t.processes[p].stage.outcome == Answered(Err(Io(Lock))) || Logged(t, p)
    {
      if Logged(s, p) {
        StaysLogged(s, step, p);
      }
    }
  }

  lemma StaysOrderly(s: State, step: Step)
    requires Orderly(s) && Enabled(s, step) && !step.Release? && !step.Crash?
    ensures Orderly(Apply(s, step))
  {
    hide Validate, PlanFor, Parse, Logged, InspectionOf;
    var t := Apply(s, step);
    assert t.log == s.log;
    forall p | Logged(s, p) ensures Logged(t, p) {
      StaysLogged(s, step, p);
    }
  }

  lemma IsLogged(s: State, i: nat)
    requires i < |s.log|
    ensures Logged(s, s.log[i].p)
  {
  }

  lemma {:induction false} PlayIsSerial(start: Option<Contents>, s: State, steps: seq<Step>)
    requires Legal(s, steps) && Serial(start, s) && Orderly(s)
    ensures Serial(start, Play(s, steps)) && Orderly(Play(s, steps))
    decreases |steps|
  {
    hide Serial, Orderly, Apply, Enabled;
    if steps == [] {
    } else {
      if steps[0].Release? || steps[0].Crash? {
        LeavingIsOrderly(s, steps[0]);
        LeavingIsSerial(start, s, steps[0]);
      } else {
        StaysOrderly(s, steps[0]);
        HolderStaysOnTrack(start, s, steps[0]);
      }
      PlayIsSerial(start, Apply(s, steps[0]), steps[1..]);
    }
  }

  /** Serializability: however the operations of any processes interleave, fail or die, each answered
      as if the operations had run one after another in lock order, and with the lock free the file is
      what that sequential run leaves. Each operation that got the lock is in that order once. */
  lemma StoreIsSerializable(start: Option<Contents>, steps: seq<Step>)
    requires Legal(Start(start), steps)
    ensures var s := Play(Start(start), steps);
            && (forall i :: 0 <= i < |s.log| ==>
                  Exec(After(start, s.log[..i]), s.log[i].op, s.log[i].luck).1 == s.log[i].outcome)
            && (s.holder.None? ==> s.disk == After(start, s.log))
            && (forall i, j :: 0 <= i < j < |s.log| ==> s.log[i].p != s.log[j].p)
            && (forall i :: 0 <= i < |s.log| ==>
                  s.log[i].p in s.processes
                  && s.processes[s.log[i].p] == Process(s.log[i].op, Finished(s.log[i].outcome)))
    ensures var s := Play(Start(start), steps);
            forall p :: p in s.processes && s.processes[p].stage.Finished? ==>
              s.processes[p].stage.outcome == Answered(Err(Io(Lock))) || Logged(s, p)
  {
    hide Apply, Enabled, Exec, After, HolderOnTrack;
    assert Serial(start, Start(start)) by { StartIsSerial(start); }
    PlayIsSerial(start, Start(start), steps);
  }

  lemma StartIsSerial(start: Option<Contents>)
    ensures Serial(start, Start(start)) && Orderly(Start(start))
  {
  }

  // ---------------------------------------------------------------------
  // Unlocked readers
  // ---------------------------------------------------------------------

  /** What an unlocked reader may be told of a readable file: nothing there, a valid configuration, or a
      failed read. */
  ghost predicate FairAnswer(answer: Result<Option<AppConfig>, StoreError>) {
    match answer
    case Err(error) => error == Io(Read)
    case Ok(None) => true
    case Ok(Some(config)) => Validate(config).Ok?
  }

  ghost predicate ReadersFair(s: State) {
    Readable(s.disk) && forall i :: 0 <= i < |s.inspections| ==> FairAnswer(s.inspections[i])
  }

  lemma ReadersStayFair(start: Option<Contents>, s: State, step: Step)
    requires Enabled(s, step) && ReadersFair(s) && Serial(start, s)
    ensures ReadersFair(Apply(s, step))
  {
    hide Validate, After, AnswersAgree;
  }

  lemma {:induction false} PlayStaysFair(start: Option<Contents>, s: State, steps: seq<Step>)
    requires Legal(s, steps) && ReadersFair(s) && Serial(start, s) && Orderly(s)
    ensures ReadersFair(Play(s, steps))
    decreases |steps|
  {
    hide Serial, Orderly, Apply, Enabled, ReadersFair;
    if steps == [] {
    } else {
      ReadersStayFair(start, s, steps[0]);
      PlayIsSerial(start, s, [steps[0]]);
      PlayStaysFair(start, Apply(s, steps[0]), steps[1..]);
    }
  }

  lemma FileIsNeverRemoved(s: State, step: Step)
    requires Enabled(s, step) && s.disk.Some?
    ensures Apply(s, step).disk.Some?
  {
    hide PlanFor, Validate;
  }

  /** What a step answers to an unlocked reader, if anything, is what the file is just then. */
  lemma StepLooks(s: State, step: Step)
    requires Enabled(s, step)
    ensures s.inspections <= Apply(s, step).inspections && |Apply(s, step).inspections| <= |s.inspections| + 1
    ensures |Apply(s, step).inspections| > |s.inspections| ==>
      step.InspectExisting?
      && Apply(s, step).inspections[|s.inspections|] == if step.ok then InspectionOf(s.disk) else Err(Io(Read))
  {
    hide PlanFor, Validate, InspectionOf;
  }

  /** The moment of the run at which an answer was read. */
  lemma {:induction false} LookedAt(s: State, steps: seq<Step>, i: nat) returns (k: nat)
    requires Legal(s, steps) && |s.inspections| <= i < |Play(s, steps).inspections|
    ensures k < |steps| && Legal(s, steps[..k]) && steps[k].InspectExisting?
    ensures Play(s, steps).inspections[i] ==
      if steps[k].ok then InspectionOf(Play(s, steps[..k]).disk) else Err(Io(Read))
    ensures s.disk.Some? ==> Play(s, steps[..k]).disk.Some?
    decreases |steps|
  {
    hide Apply, Enabled, InspectionOf;
    var next := Apply(s, steps[0]);
    StepLooks(s, steps[0]);
    if i < |next.inspections| {
      InspectionsOnlyGrow(next, steps[1..]);
      k := 0;
      assert steps[..0] == [];
    } else {
      var j := LookedAt(next, steps[1..], i);
      k := j + 1;
      assert steps[..k][1..] == steps[1..][..j] && steps[..k][0] == steps[0];
      if s.disk.Some? {
        FileIsNeverRemoved(s, steps[0]);
      }
    }
  }

  lemma {:induction false} InspectionsOnlyGrow(s: State, steps: seq<Step>)
    requires Legal(s, steps)
    ensures s.inspections <= Play(s, steps).inspections
    decreases |steps|
  {
    hide Apply, Enabled;
    if steps == [] {
    } else {
      StepLooks(s, steps[0]);
      InspectionsOnlyGrow(Apply(s, steps[0]), steps[1..]);
    }
  }

  /** Every answer to an unlocked reader is what the file was when it looked, or a failed read if that failed.
      From a missing or valid file on that is never a torn, unparsable or invalid one, and a file that was
      there at the start is never missed. */
  lemma InspectionSeesRevisions(start: Option<Contents>, steps: seq<Step>, i: nat) returns (k: nat)
    requires Legal(Start(start), steps) && i < |Play(Start(start), steps).inspections|
    ensures k < |steps| && Legal(Start(start), steps[..k]) && steps[k].InspectExisting?
    ensures var answer := Play(Start(start), steps).inspections[i];
            var disk := Play(Start(start), steps[..k]).disk;
            && (match answer
                case Ok(None) => disk == None
                case Ok(Some(config)) => disk.Some? && Parse(disk.value) == Ok(config)
                case Err(error) => error == Io(Read) || (disk.Some? && Parse(disk.value) == Err(error)))
            && (answer == Err(Io(Read)) <==> !steps[k].ok)
            && (Readable(start) ==> FairAnswer(answer))
            && (start.Some? ==> answer != Ok(None))
  {
    hide Apply, Enabled, Serial, Orderly, FairAnswer, Validate, Play;
    StartIsSerial(start);
    k := LookedAt(Start(start), steps, i);
    if Readable(start) {
      PlayStaysFair(start, Start(start), steps);
    }
  }

  /** At every moment the file is what the finished operations left, or that with the lock holder's own
      write already committed: never anything else, and never part of one. */
  lemma FileIsAlwaysCommitted(start: Option<Contents>, steps: seq<Step>)
    requires Legal(Start(start), steps)
    ensures var s := Play(Start(start), steps);
            || s.disk == After(start, s.log)
            || (s.holder.Some? && s.holder.value in s.processes
                && s.disk == Exec(After(start, s.log), s.processes[s.holder.value].op, CrashAfter).0)
  {
    hide Apply, Enabled, After, Validate;
    StartIsSerial(start);
    PlayIsSerial(start, Start(start), steps);
  }

  // ---------------------------------------------------------------------
  // No update is lost
  // ---------------------------------------------------------------------

  /** The configuration an operation commits, if it gets to rename its temporary file into place. */
  ghost function Committed(disk: Option<Contents>, op: Op, luck: Luck): Option<AppConfig> {
    var plan := PlanFor(disk, op);
    if plan.Write? && Validate(plan.config).Ok? && (luck.Clean? || luck.SyncFails? || luck.CrashAfter?)
    then Some(plan.config)
    else None
  }

  ghost function ConfigOf(disk: Option<Contents>): AppConfig
    requires Readable(disk)
  {
    if disk.None? then Default() else Parse(disk.value).value
  }

  /** What committing an operation makes of the configuration, whatever else ran. */
  ghost function Effect(config: AppConfig, op: Op): AppConfig {
    match op
    case Load => config
    case LoadOrCreate => Default()
    case SaveIfUnchanged(saved, _) => saved
    case Update(mutate) => mutate(config)
  }

  /** The effects of the committed operations of a log, one after another; all others have none. */
  ghost function Folded(start: Option<Contents>, log: seq<Entry>): AppConfig
    requires Readable(start)
  {
    if log == [] then ConfigOf(start)
    else
      var init, last := log[..|log| - 1], log[|log| - 1];
      if Committed(After(start, init), last.op, last.luck).Some? then Effect(Folded(start, init), last.op)
      else Folded(start, init)
  }

  lemma OneEffect(disk: Option<Contents>, op: Op, luck: Luck)
    requires Readable(disk)
    ensures var after := Exec(disk, op, luck).0;
            && Readable(after)
            && ConfigOf(after) ==
                 (if Committed(disk, op, luck).Some? then Effect(ConfigOf(disk), op) else ConfigOf(disk))
  {
    hide Validate, Default;
  }

  lemma {:induction false} EffectsFold(start: Option<Contents>, log: seq<Entry>)
    requires Readable(start)
    ensures Readable(After(start, log)) && ConfigOf(After(start, log)) == Folded(start, log)
  {
    hide Exec, ConfigOf, Readable, Committed, Effect;
    if log == [] {
    } else {
      var init, last := log[..|log| - 1], log[|log| - 1];
      EffectsFold(start, init);
      OneEffect(After(start, init), last.op, last.luck);
    }
  }

  /** An answered update, or a save, took effect exactly if it answered Ok or failed only in the last
      directory sync; the answers that report a refusal had none. */
  lemma AnswersTellEffects(disk: Option<Contents>, op: Op, luck: Luck)
    requires (op.Update? || op.SaveIfUnchanged?) && Exec(disk, op, luck).1.Answered?
    ensures Committed(disk, op, luck).Some? <==>
      Exec(disk, op, luck).1.result.Ok? || Exec(disk, op, luck).1.result == Err(Io(SyncDirectory))
  {
    hide Validate;
  }

  /** No update is lost and none is invented: after any run of loads, creations, saves and updates, with
      any failures and crashes, the configuration is the committed ones' effects in lock order. */
  lemma NoUpdateIsLost(start: Option<Contents>, steps: seq<Step>)
    requires Readable(start) && Legal(Start(start), steps) && Play(Start(start), steps).holder.None?
    ensures var s := Play(Start(start), steps);
            && Readable(s.disk) && ConfigOf(s.disk) == Folded(start, s.log)
            && AnswersAgree(start, s.log)
  {
    hide Apply, Enabled, After, Validate, Exec, Folded;
    StartIsSerial(start);
    PlayIsSerial(start, Start(start), steps);
    EffectsFold(start, Play(Start(start), steps).log);
  }
}
