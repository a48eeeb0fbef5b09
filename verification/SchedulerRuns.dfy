/** Whole runs of the scheduler: conservation, unreachable faults, lease exclusivity, generation safety. */
module SchedulerRuns {
  import opened Prelude
  import opened Preset
  import opened Rate
  import opened AxisModel
  import opened AxisLaws
  import opened InputLaws
  import opened SchedulerModel
  import opened SchedulerLaws

  datatype Call =
    | Event(t: u64, input: Vector, continuous: bool, synthetic: bool, noise: Noise)
    | PollAt(t: u64, wake: WakeToken, noise: Noise)
    | Reset

  /** One call to the scheduler. */
  ghost function Do(s: Scheduler, call: Call): Scheduler
    requires Sound(s)
    ensures Sound(Do(s, call))
  {
    match call
    case Event(t, input, continuous, synthetic, noise) =>
      EventIsSound(s, t, input, continuous, synthetic, noise);
      HandleEvent(s, t, input, continuous, synthetic, noise).0
    case PollAt(t, wake, noise) =>
      PollIsSound(s, t, wake, noise);
      Poll(s, t, wake, noise).0
    case Reset =>
      ResetIsSound(s);
      ResetAfterFault(s).0
  }

  ghost function DoAll(s: Scheduler, calls: seq<Call>): Scheduler
    requires Sound(s)
    ensures Sound(DoAll(s, calls))
    decreases |calls|
  {
    if calls == [] then s else Do(DoAll(s, calls[..|calls| - 1]), calls[|calls| - 1])
  }

  /** The state after a run from construction. */
  ghost function RunOf(preset: SmoothPreset, policy: CancellationPolicy, calls: seq<Call>): Scheduler
    ensures Sound(RunOf(preset, policy, calls))
  {
    NewSchedulerIsSound(preset, policy);
    DoAll(NewScheduler(preset, policy), calls)
  }

  // ---------------------------------------------------------------------
  // Faults that cannot happen
  // ---------------------------------------------------------------------

  /** Over every sequence of calls, whatever the timestamps, inputs and tokens, no `MissingDeadline` or
      `DeadlineNotFuture` fault ever latches, a poll of a healthy scheduler never latches a dynamics
      fault, and a wake is armed exactly when an axis is active and no fault is latched. */
  lemma FaultsNeverSeen(
      preset: SmoothPreset, policy: CancellationPolicy, calls: seq<Call>, t: u64, wake: WakeToken, noise: Noise)
    ensures var s := RunOf(preset, policy, calls);
            && (s.fault.Some? ==> Reachable(s.fault.value))
            && (s.schedule.wake.Some? <==> s.fault.None? && AnyActive(s.dynamics))
            && var outcome := Poll(s, t, wake, noise).1;
            (s.fault.None? && outcome.Faulted? ==> outcome.fault.ScheduleFault? && Reachable(outcome.fault))
  {
    hide Poll, Lease, FacadeCoherent;
    var s := RunOf(preset, policy, calls);
    PollIsSound(s, t, wake, noise);
  }

  /** A latched fault passes every event through exactly and answers every poll with itself, until reset. */
  lemma {:induction false} FaultStaysLatched(s: Scheduler, calls: seq<Call>)
    requires Sound(s) && s.fault.Some? && forall k :: 0 <= k < |calls| ==> !calls[k].Reset?
    ensures DoAll(s, calls) == s
    decreases |calls|
  {
    hide HandleEvent, Poll, FacadeCoherent, Lease;
    if calls == [] {
    } else {
      FaultStaysLatched(s, calls[..|calls| - 1]);
      match calls[|calls| - 1]
      case Event(t, input, continuous, synthetic, noise) =>
        EventIsSound(s, t, input, continuous, synthetic, noise);
      case PollAt(t, wake, noise) =>
        PollIsSound(s, t, wake, noise);
    }
  }

  // ---------------------------------------------------------------------
  // Conservation
  // ---------------------------------------------------------------------

  /** Running sums for one axis over a run, faults and resets included. */
  datatype Book = Book(accepted: real, emitted: real, canceled: real, lost: real)

  const BLANK := Book(0.0, 0.0, 0.0, 0.0)

  /** How one call is booked, from what the caller passed and was answered: `lost` grows only when a
      fault latches, by what the axis still owed. */
  ghost function Enter(book: Book, s: Scheduler, call: Call, vertical: bool): Book
    requires Sound(s)
  {
    var before := if vertical then s.dynamics.vertical else s.dynamics.horizontal;
    match call
    case Reset => book
    case Event(t, input, continuous, synthetic, noise) =>
      var (after, emission) := HandleEvent(s, t, input, continuous, synthetic, noise);
      if emission.route == FailOpenTriggered then book.(lost := book.lost + Owed(before))
      else if emission.route != DiscreteRoute then book
      else
        var now := if vertical then after.dynamics.vertical else after.dynamics.horizontal;
        var accepted := if vertical then input.vertical else input.horizontal;
        var emitted := if vertical then emission.delta.vertical else emission.delta.horizontal;
        book.(accepted := book.accepted + Amount(accepted), emitted := book.emitted + Amount(emitted),
              canceled := book.canceled + Canceled(before, now))
    case PollAt(t, wake, noise) =>
      var outcome := Poll(s, t, wake, noise).1;
      if outcome.Sampled? then
        var delta := if vertical then outcome.sample.delta.vertical else outcome.sample.delta.horizontal;
        book.(emitted := book.emitted + Amount(delta))
      else if outcome.Faulted? && s.fault.None? then book.(lost := book.lost + Owed(before))
      else book
  }

  ghost function BookOf(preset: SmoothPreset, policy: CancellationPolicy, calls: seq<Call>, vertical: bool): Book
    decreases |calls|
  {
    if calls == [] then BLANK
    else
      var last := |calls| - 1;
      Enter(BookOf(preset, policy, calls[..last], vertical),
            RunOf(preset, policy, calls[..last]), calls[last], vertical)
  }

  ghost function AxisOf(s: Scheduler, vertical: bool): Axis {
    if vertical then s.dynamics.vertical else s.dynamics.horizontal
  }

  lemma EnterBalances(book: Book, s: Scheduler, call: Call, vertical: bool)
    requires Sound(s)
    requires book.accepted == book.emitted + book.canceled + book.lost + Owed(AxisOf(s, vertical))
    ensures var after := Enter(book, s, call, vertical);
            after.accepted == after.emitted + after.canceled + after.lost + Owed(AxisOf(Do(s, call), vertical))
  {
    hide HandleEvent, Poll, FacadeCoherent, Lease, Canceled, Owed;
    LatchIsSound(s);
    match call
    case Reset => ResetIsSound(s);
    case Event(t, input, continuous, synthetic, noise) =>
      EventIsSound(s, t, input, continuous, synthetic, noise);
    case PollAt(t, wake, noise) =>
      PollIsSound(s, t, wake, noise);
  }

  /** End-to-end conservation on each axis over any run, under any rounding: the discrete points accepted
      are the points emitted with events, those delivered by samples, those canceled by reversals and
      long gaps, those lost when a fault latched (exactly what was then owed), and those still owed. */
  lemma {:induction false} PointsAreConserved(
      preset: SmoothPreset, policy: CancellationPolicy, calls: seq<Call>, vertical: bool)
    ensures var book := BookOf(preset, policy, calls, vertical);
            var axis := AxisOf(RunOf(preset, policy, calls), vertical);
            && book.accepted == book.emitted + book.canceled + book.lost + axis.Momentum() + axis.ledger.residual
            && (axis.Phase() == Idle ==> book.accepted == book.emitted + book.canceled + book.lost)
    decreases |calls|
  {
    hide Do, Enter, Lease;
    if calls == [] {
      FreshIsCoherent(preset);
    } else {
      var last := |calls| - 1;
      PointsAreConserved(preset, policy, calls[..last], vertical);
      var book := BookOf(preset, policy, calls[..last], vertical);
      EnterBalances(book, RunOf(preset, policy, calls[..last]), calls[last], vertical);
      assert RunOf(preset, policy, calls) == Do(RunOf(preset, policy, calls[..last]), calls[last]);
      assert Coherent(AxisOf(RunOf(preset, policy, calls), vertical));
    }
  }

  // ---------------------------------------------------------------------
  // Wake leases
  // ---------------------------------------------------------------------

  /** The wake ids handed out and the wake ids that produced a sample, in order. */
  datatype Ids = Ids(issued: seq<u64>, sampled: seq<u64>)

  ghost function Note(ids: Ids, s: Scheduler, call: Call): Ids
    requires Sound(s)
  {
    match call
    case Reset => ids
    case Event(t, input, continuous, synthetic, noise) =>
      var emission := HandleEvent(s, t, input, continuous, synthetic, noise).1;
      if emission.route == DiscreteRoute && emission.wake.Some?
      then ids.(issued := ids.issued + [emission.wake.value.id]) else ids
    case PollAt(t, wake, noise) =>
      var outcome := Poll(s, t, wake, noise).1;
      if !outcome.Sampled? then ids
      else Ids(ids.issued + (if outcome.nextWake.Some? then [outcome.nextWake.value.id] else []),
               ids.sampled + [wake.id])
  }

  ghost function IdsOf(preset: SmoothPreset, policy: CancellationPolicy, calls: seq<Call>): Ids
    decreases |calls|
  {
    if calls == [] then Ids([], [])
    else
      var last := |calls| - 1;
      Note(IdsOf(preset, policy, calls[..last]), RunOf(preset, policy, calls[..last]), calls[last])
  }

  ghost predicate Increasing(ids: seq<u64>) {
    forall i, j :: 0 <= i < j < |ids| ==> ids[i] < ids[j]
  }

  ghost predicate UpTo(ids: seq<u64>, bound: int) {
    forall i :: 0 <= i < |ids| ==> ids[i] <= bound
  }

  /** Everything issued is at most the last id, and everything sampled is older than the armed wake. */
  ghost predicate IdsFit(ids: Ids, s: Scheduler) {
    && Increasing(ids.issued) && UpTo(ids.issued, s.schedule.lastWakeId)
    && Increasing(ids.sampled)
    && UpTo(ids.sampled, if s.schedule.wake.Some? then s.schedule.lastWakeId - 1 else s.schedule.lastWakeId)
  }

  lemma NoteFits(ids: Ids, s: Scheduler, call: Call)
    requires Sound(s) && IdsFit(ids, s)
    ensures IdsFit(Note(ids, s, call), Do(s, call))
  {
    hide HandleEvent, Poll, FacadeCoherent;
    match call
    case Reset => ResetIsSound(s);
    case Event(t, input, continuous, synthetic, noise) =>
      EventIsSound(s, t, input, continuous, synthetic, noise);
    case PollAt(t, wake, noise) =>
      PollIsSound(s, t, wake, noise);
  }

  /** Wake ids strictly increase over the whole run, across faults and resets, and so do the ids that
      were sampled: no id is issued twice, and each token yields at most one sample. */
  lemma {:induction false} LeasesAreExclusive(preset: SmoothPreset, policy: CancellationPolicy, calls: seq<Call>)
    ensures IdsFit(IdsOf(preset, policy, calls), RunOf(preset, policy, calls))
    decreases |calls|
  {
    hide Do, Note, FacadeCoherent, Lease;
    if calls == [] {
    } else {
      var last := |calls| - 1;
      LeasesAreExclusive(preset, policy, calls[..last]);
      NoteFits(IdsOf(preset, policy, calls[..last]), RunOf(preset, policy, calls[..last]), calls[last]);
      assert RunOf(preset, policy, calls) == Do(RunOf(preset, policy, calls[..last]), calls[last]);
    }
  }

  /** A token that was superseded, consumed or dropped never comes back, so no later poll of it can
      change the scheduler. */
  lemma {:induction false} DeadTokensStayDead(s: Scheduler, calls: seq<Call>, token: WakeToken, t: u64, noise: Noise)
    requires Sound(s) && token.id <= s.schedule.lastWakeId && s.schedule.wake != Some(token)
    ensures var later := DoAll(s, calls);
            && later.schedule.wake != Some(token)
            && Poll(later, t, token, noise).0 == later
            && token.id <= later.schedule.lastWakeId
    decreases |calls|
  {
    hide HandleEvent, FacadeCoherent, TakeSample;
    if calls == [] {
    } else {
      var before := DoAll(s, calls[..|calls| - 1]);
      DeadTokensStayDead(s, calls[..|calls| - 1], token, t, noise);
      match calls[|calls| - 1]
      case Reset => ResetIsSound(before);
      case Event(u, input, continuous, synthetic, n) =>
        EventIsSound(before, u, input, continuous, synthetic, n);
      case PollAt(u, wake, n) =>
        PollIsSound(before, u, wake, n);
    }
  }

  // ---------------------------------------------------------------------
  // Generations
  // ---------------------------------------------------------------------

  /** No reset of the run takes effect: none meets a latched fault. */
  ghost predicate NoReset(s: Scheduler, calls: seq<Call>)
    requires Sound(s)
    decreases |calls|
  {
    calls == [] ||
    var before, last := DoAll(s, calls[..|calls| - 1]), calls[|calls| - 1];
    NoReset(s, calls[..|calls| - 1]) && !(last.Reset? && before.fault.Some?)
  }

  /** The call is a wheel event taken in by the dynamics that starts a session on some axis. */
  ghost predicate BeginsSession(s: Scheduler, call: Call)
    requires Sound(s)
  {
    && call.Event?
    && HandleEvent(s, call.t, call.input, call.continuous, call.synthetic, call.noise).1.route == DiscreteRoute
    && (|| StartsSession(s.dynamics.vertical, call.t, Amount(call.input.vertical))
        || StartsSession(s.dynamics.horizontal, call.t, Amount(call.input.horizontal)))
  }

  ghost predicate NoSession(s: Scheduler, calls: seq<Call>)
    requires Sound(s)
    decreases |calls|
  {
    calls == []
    || (NoSession(s, calls[..|calls| - 1]) && !BeginsSession(DoAll(s, calls[..|calls| - 1]), calls[|calls| - 1]))
  }

  const NO_SESSIONS := Generation(0, 0)

  predicate NotAbove(a: Generation, b: Generation) {
    a.vertical <= b.vertical && a.horizontal <= b.horizontal
  }

  /** Taking an event in advances exactly the axes on which it starts a session. */
  lemma EventAdvances(s: Scheduler, call: Call)
    requires Sound(s) && call.Event?
    requires HandleEvent(s, call.t, call.input, call.continuous, call.synthetic, call.noise).1.route == DiscreteRoute
    ensures NotAbove(CurrentGeneration(s), CurrentGeneration(Do(s, call)))
    ensures CurrentGeneration(Do(s, call)) == CurrentGeneration(s) <==> !BeginsSession(s, call)
  {
    hide HandleInput, Sync, Coherent, State, StartsSession, Accounted, Lease;
    FacadeAdvances(s.dynamics, s.preset, call.t, call.input, call.noise);
  }

  lemma FacadeAdvances(f: Facade, preset: SmoothPreset, t: u64, input: Vector, noise: Noise)
    requires FacadeCoherent(f, preset) && HandleTwoAxes(f, t, input, false, noise).1.Ok?
    ensures var after := HandleTwoAxes(f, t, input, false, noise).0;
            && after.vertical.generation ==
                 (if StartsSession(f.vertical, t, Amount(input.vertical)) then f.vertical.generation + 1
                  else f.vertical.generation)
            && after.horizontal.generation ==
                 (if StartsSession(f.horizontal, t, Amount(input.horizontal)) then f.horizontal.generation + 1
                  else f.horizontal.generation)
  {
    hide HandleInput, Coherent, State, StartsSession, Canceled, Owed;
    SessionsStartExactly(f.vertical, t, input.vertical, noise.vertical);
    SessionsStartExactly(f.horizontal, t, input.horizontal, noise.horizontal);
  }

  /** One call: a reset or a fault drops to no sessions, and everything else keeps the generations or
      advances them with the sessions it begins. */
  lemma OneCallAdvances(s: Scheduler, call: Call)
    requires Sound(s)
    ensures var after := Do(s, call);
            && (after.fault.Some? || (call.Reset? && s.fault.Some?) ==> CurrentGeneration(after) == NO_SESSIONS)
            && (after.fault.Some? || (call.Reset? && s.fault.Some?) ==> !BeginsSession(s, call))
            && (after.fault.None? && !(call.Reset? && s.fault.Some?) ==>
                  && s.fault.None?
                  && NotAbove(CurrentGeneration(s), CurrentGeneration(after))
                  && (CurrentGeneration(after) == CurrentGeneration(s) <==> !BeginsSession(s, call)))
  {
    hide HandleEvent, Poll, FacadeCoherent, Owed, Canceled, StartsSession;
    match call
    case Reset => ResetIsSound(s);
    case Event(t, input, continuous, synthetic, noise) =>
      EventIsSound(s, t, input, continuous, synthetic, noise);
      if HandleEvent(s, t, input, continuous, synthetic, noise).1.route == DiscreteRoute {
        EventAdvances(s, call);
      }
    case PollAt(t, wake, noise) =>
      PollIsSound(s, t, wake, noise);
  }

  /** A run: until a reset takes effect the generations never decrease while nothing is latched, and are
      what they were exactly if no session began; after one they are back at zero until a session begins. */
  lemma {:induction false} RunAdvances(s: Scheduler, calls: seq<Call>)
    requires Sound(s)
    ensures var end := DoAll(s, calls);
            && (end.fault.Some? ==> CurrentGeneration(end) == NO_SESSIONS)
            && (NoReset(s, calls) && end.fault.None? ==>
                  && s.fault.None?
                  && NotAbove(CurrentGeneration(s), CurrentGeneration(end))
                  && (CurrentGeneration(end) == CurrentGeneration(s) <==> NoSession(s, calls)))
            && (!NoReset(s, calls) && NoSession(s, calls) ==> CurrentGeneration(end) == NO_SESSIONS)
    decreases |calls|
  {
    hide Do, FacadeCoherent, Lease, BeginsSession;
    if calls == [] {
    } else {
      var prefix, last := calls[..|calls| - 1], calls[|calls| - 1];
      RunAdvances(s, prefix);
      OneCallAdvances(DoAll(s, prefix), last);
    }
  }

  /** Until a reset takes effect, generations never decrease while nothing is latched. */
  lemma GenerationsGrow(s: Scheduler, calls: seq<Call>)
    requires Sound(s) && NoReset(s, calls) && DoAll(s, calls).fault.None?
    ensures NotAbove(CurrentGeneration(s), CurrentGeneration(DoAll(s, calls)))
  {
    hide Sound, NoReset, DoAll;
    RunAdvances(s, calls);
  }

  /** A wake is armed only within a numbered session, which a latched or fresh scheduler has none of. */
  lemma ArmedHasSession(s: Scheduler)
    requires Sound(s) && s.schedule.wake.Some?
    ensures CurrentGeneration(s) != NO_SESSIONS && s.fault.None?
  {
  }

  lemma SampleHasSession(s: Scheduler, t: u64, wake: WakeToken, noise: Noise)
    requires Sound(s) && Poll(s, t, wake, noise).1.Sampled?
    ensures var after := Do(s, PollAt(t, wake, noise));
            var sample := Poll(s, t, wake, noise).1.sample;
            && sample.generation == CurrentGeneration(after) != NO_SESSIONS
            && sample.expiresAtUs == wake.dueAtUs + 8_000
            && after.fault.None?
  {
    hide Poll, FacadeCoherent;
    PollIsSound(s, t, wake, noise);
    ArmedHasSession(s);
  }

  /** How a held sample is judged, exactly: stale if a session number differs from the one it was made
      under, else expired from 8 ms after its due time on, else deliverable. */
  lemma SampleIsJudgedExactly(s: Scheduler, t: u64, wake: WakeToken, noise: Noise, now: u64, later: Scheduler)
    requires Sound(s) && Poll(s, t, wake, noise).1.Sampled?
    ensures var verdict := Dispose(Poll(s, t, wake, noise).1.sample, now, CurrentGeneration(later));
            var after := Do(s, PollAt(t, wake, noise)).dynamics;
            var same := later.dynamics.vertical.generation == after.vertical.generation
                        && later.dynamics.horizontal.generation == after.horizontal.generation;
            verdict ==
              if !same then DiscardStale(Generation(after.vertical.generation, after.horizontal.generation),
                                         Generation(later.dynamics.vertical.generation,
                                                    later.dynamics.horizontal.generation))
              else if now > wake.dueAtUs + 8_000 then DiscardExpired(wake.dueAtUs + 8_000, now)
              else Deliver
  {
    hide Poll, Sound, Do;
    SampleHasSession(s, t, wake, noise);
  }

  /** Until a reset takes effect, whatever faults latch, a held sample is delivered only while no axis has
      begun a session since it was made, nothing is latched, and only within 8 ms of the time it was due;
      a sample found stale stays stale however the run goes on, and an expired one is never delivered. */
  lemma HeldSamplesAreSafe(s: Scheduler, t: u64, wake: WakeToken, noise: Noise, calls: seq<Call>, more: seq<Call>,
                           now: u64, later: u64)
    requires Sound(s) && Poll(s, t, wake, noise).1.Sampled?
    requires NoReset(Do(s, PollAt(t, wake, noise)), calls)
    requires NoReset(DoAll(Do(s, PollAt(t, wake, noise)), calls), more)
    ensures var sample := Poll(s, t, wake, noise).1.sample;
            var after := Do(s, PollAt(t, wake, noise));
            var held := DoAll(after, calls);
            var further := DoAll(held, more);
            && (Dispose(sample, now, CurrentGeneration(held)).Deliver? ==>
                  && NoSession(after, calls) && held.fault.None?
                  && now <= wake.dueAtUs + 8_000)
            && (Dispose(sample, now, CurrentGeneration(held)).DiscardStale? ==>
                  Dispose(sample, later, CurrentGeneration(further)).DiscardStale?)
            && (Dispose(sample, now, CurrentGeneration(held)).DiscardExpired? && now <= later ==>
                  !Dispose(sample, later, CurrentGeneration(further)).Deliver?)
  {
    hide Do, Poll, Sound, NoReset, NoSession, DoAll;
    SampleHasSession(s, t, wake, noise);
    var after := Do(s, PollAt(t, wake, noise));
    RunAdvances(after, calls);
    RunAdvances(DoAll(after, calls), more);
  }

  /** Exactly when that judgement is right, over all runs: of a held sample that is judged deliverable, no
      axis has begun a session since it was made if and only if no reset has taken effect since. */
  lemma DeliverIsRightExactly(s: Scheduler, t: u64, wake: WakeToken, noise: Noise, calls: seq<Call>, now: u64)
    requires Sound(s) && Poll(s, t, wake, noise).1.Sampled?
    requires Dispose(Poll(s, t, wake, noise).1.sample, now,
                     CurrentGeneration(DoAll(Do(s, PollAt(t, wake, noise)), calls))).Deliver?
    ensures var after := Do(s, PollAt(t, wake, noise));
            NoSession(after, calls) <==> NoReset(after, calls)
  {
    hide Do, Poll, Sound, NoReset, NoSession, DoAll;
    SampleHasSession(s, t, wake, noise);
    RunAdvances(Do(s, PollAt(t, wake, noise)), calls);
  }

  // ---------------------------------------------------------------------
  // Generations restart after a reset
  // ---------------------------------------------------------------------

  const QUIET := Noise(EXACT, EXACT)

  function Wheel(points: real): Vector {
    Vector(Finite(points), Finite(0.0))
  }

  lemma FirstInput(points: real)
    requires 1.0 <= points <= 1000.0
    ensures var (after, outcome) := HandleInput(Fresh(Balanced), 0, Finite(points), EXACT);
            && outcome.Ok? && after.generation == 1 && after.lastTimestamp == Some(0)
            && after.tail.Some? && after.tail.value.deadlineUs == 90_000
  {
    hide Estimate, Velocity;
    var admission := Admission(points, Some(90_000), 1, Some(InitialInput), None, Some(1));
    assert Admit(Fresh(Balanced), 0, Finite(points)) == Ok(admission);
    var (moved, due) := Advance(OpenSession(Fresh(Balanced), 0, admission), 0, EXACT);
    assert moved.tail.None? && due == 0.0;
    assert Immediate(Balanced, points, EXACT) == points * 0.55;
  }

  lemma NoInput()
    ensures var (after, outcome) := HandleInput(Fresh(Balanced), 0, Finite(0.0), EXACT);
            && outcome.Ok? && after.generation == 0 && after.lastTimestamp == Some(0) && after.tail.None?
  {
    hide Estimate, Velocity;
  }

  lemma FirstTwoAxes(policy: CancellationPolicy, points: real)
    requires 1.0 <= points <= 1000.0
    ensures var (after, output) := HandleTwoAxes(FreshFacade(Balanced, policy), 0, Wheel(points), false, QUIET);
            && output.Ok? && output.value.route == DiscreteDynamics
            && after.vertical.generation == 1 && after.horizontal.generation == 0
            && after.vertical.Deadline() == Some(90_000) && after.horizontal.tail.None?
  {
    hide HandleInput, State;
    FirstInput(points);
    NoInput();
  }

  /** The first wheel event of a healthy, idle scheduler starts vertical session 1 and arms its wake. */
  lemma FirstEvent(s: Scheduler, points: real)
    requires s == NewScheduler(Balanced, s.policy).(schedule := Schedule(None, s.schedule.lastWakeId))
    requires s.schedule.lastWakeId < 10 && 1.0 <= points <= 1000.0
    ensures Sound(s)
    ensures var after := Do(s, Event(0, Wheel(points), false, false, QUIET));
            && after.fault.None?
            && after.schedule == Schedule(Some(WakeToken(s.schedule.lastWakeId + 1, 2_000, Generation(1, 0))),
                                          s.schedule.lastWakeId + 1)
            && CurrentGeneration(after) == Generation(1, 0)
  {
    hide HandleTwoAxes, Sync, Coherent, State;
    FreshIsCoherent(Balanced);
    FirstTwoAxes(s.policy, points);
    TwoAxesConserve(s.dynamics, Balanced, 0, Wheel(points), false, QUIET);
    SyncGrantsLease(s.schedule, HandleTwoAxes(s.dynamics, 0, Wheel(points), false, QUIET).0, Balanced, 0);
  }

  /** An event behind the axes' time trips the scheduler. */
  lemma LateEvent(s: Scheduler)
    requires Sound(s) && s.fault.None? && s.dynamics.vertical.lastTimestamp == Some(2_000)
    ensures var after := Do(s, Event(1_000, Wheel(1.0), false, false, QUIET));
            after.fault.Some? && after.schedule.lastWakeId == s.schedule.lastWakeId
  {
    hide State, Sync, Coherent, Apply;
  }

  lemma WakeIsPolled(s: Scheduler, wake: WakeToken)
    requires Sound(s) && s.schedule == Schedule(Some(wake), wake.id) && wake.id < 9 && wake.dueAtUs == 2_000
    ensures var (after, outcome) := Poll(s, 2_000, wake, QUIET);
            && outcome.Sampled? && Sound(after) && after.fault.None?
            && outcome.sample.generation == wake.generation && outcome.sample.expiresAtUs == 10_000
            && after.dynamics.vertical.lastTimestamp == Some(2_000)
            && after.schedule.lastWakeId < 10 && after.preset == s.preset && after.policy == s.policy
  {
    hide TakeSample, FacadeCoherent;
    PollIsSound(s, 2_000, wake, QUIET);
    PollFaultsExactlyWhen(s, 2_000, wake, QUIET);
    PollAnswersExactly(s, 2_000, wake, QUIET);
  }

  lemma DoThree(s: Scheduler, a: Call, b: Call, c: Call)
    requires Sound(s)
    ensures DoAll(s, [a]) == Do(s, a)
    ensures DoAll(s, [a, b, c]) == Do(Do(Do(s, a), b), c)
  {
    hide Do, Sound, DoAll;
    DoNone(s);
    DoOneMore(s, [], a);
    assert [] + [a] == [a] && [a] + [b] == [a, b] && [a, b] + [c] == [a, b, c];
    DoOneMore(s, [a], b);
    DoOneMore(s, [a, b], c);
  }

  lemma DoNone(s: Scheduler)
    requires Sound(s)
    ensures DoAll(s, []) == s
  {
  }

  lemma DoOneMore(s: Scheduler, calls: seq<Call>, call: Call)
    requires Sound(s)
    ensures DoAll(s, calls + [call]) == Do(DoAll(s, calls), call)
  {
    hide Do, Sound;
    assert (calls + [call])[..|calls|] == calls;
  }

  /** Across a reset the guarantee ends: generations start again from zero, so a sample held from before
      the fault is judged deliverable in a later, unrelated session. */
  lemma ResetRevivesHeldSample(policy: CancellationPolicy)
    ensures var wake := WakeToken(1, 2_000, Generation(1, 0));
            var s1 := RunOf(Balanced, policy, [Event(0, Wheel(100.0), false, false, QUIET)]);
            var (s2, outcome) := Poll(s1, 2_000, wake, QUIET);
            && outcome.Sampled? && Sound(s2)
            && var later := DoAll(s2, [Event(1_000, Wheel(1.0), false, false, QUIET), Reset,
                                       Event(0, Wheel(10.0), false, false, QUIET)]);
            Dispose(outcome.sample, 2_000, CurrentGeneration(later)).Deliver?
  {
    hide Do, DoAll, Poll, Sound;
    var wake := WakeToken(1, 2_000, Generation(1, 0));
    var first, late := Event(0, Wheel(100.0), false, false, QUIET), Event(1_000, Wheel(1.0), false, false, QUIET);
    var again := Event(0, Wheel(10.0), false, false, QUIET);
    var s0 := NewScheduler(Balanced, policy);
    FirstEvent(s0, 100.0);
    DoThree(s0, first, Reset, again);
    var s1 := Do(s0, first);
    PresetIsKept(s0, first);
    WakeIsPolled(s1, wake);
    var s2 := Poll(s1, 2_000, wake, QUIET).0;
    LateEvent(s2);
    PresetIsKept(s2, late);
    DoThree(s2, late, Reset, again);
    ResetStartsOver(Do(s2, late));
    FirstEvent(Do(Do(s2, late), Reset), 10.0);
  }

  lemma PresetIsKept(s: Scheduler, call: Call)
    requires Sound(s) && call.Event?
    ensures Do(s, call).preset == s.preset && Do(s, call).policy == s.policy
  {
    hide HandleEvent, FacadeCoherent;
    EventIsSound(s, call.t, call.input, call.continuous, call.synthetic, call.noise);
  }

  lemma ResetStartsOver(s: Scheduler)
    requires Sound(s) && s.fault.Some?
    ensures Do(s, Reset) == NewScheduler(s.preset, s.policy).(schedule := Schedule(None, s.schedule.lastWakeId))
  {
    ResetIsSound(s);
  }
}
