/** What every run of the scheduler keeps, for any timestamps, inputs, tokens and rounding errors. */
module SchedulerLaws {
  import opened Prelude
  import opened Preset
  import opened AxisModel
  import opened AxisLaws
  import opened InputLaws
  import opened SchedulerModel

  // ---------------------------------------------------------------------
  // The invariant
  // ---------------------------------------------------------------------

  ghost predicate FacadeCoherent(f: Facade, preset: SmoothPreset)
    ensures FacadeCoherent(f, preset) ==> BothWellFormed(f)
  {
    && Coherent(f.vertical) && Coherent(f.horizontal)
    && f.vertical.preset == f.horizontal.preset == preset
    && f.vertical.lastTimestamp == f.horizontal.lastTimestamp
  }

  predicate AnyActive(f: Facade) {
    f.vertical.tail.Some? || f.horizontal.tail.Some?
  }

  /** An active axis's deadline is not before `t`, or none is active there. */
  predicate NotBefore(a: Axis, t: u64) {
    a.tail.Some? ==> t <= a.tail.value.deadlineUs
  }

  predicate EndsAt(a: Axis, t: u64) {
    a.tail.Some? && a.tail.value.deadlineUs == t
  }

  /** The wake in force belongs to the current sessions, is the last one issued, and is due after
      everything the axes have seen: at the earliest of 2 ms from then and the active deadlines. */
  ghost predicate Lease(f: Facade, lastWakeId: u64, wake: WakeToken) {
    && wake.id == lastWakeId
    && wake.generation == Generation(f.vertical.generation, f.horizontal.generation)
    && AnyActive(f)
    && f.vertical.lastTimestamp.Some?
    && var now := f.vertical.lastTimestamp.value;
    && now < wake.dueAtUs <= now + 2_000
    && NotBefore(f.vertical, wake.dueAtUs) && NotBefore(f.horizontal, wake.dueAtUs)
    && (wake.dueAtUs == now + 2_000 || EndsAt(f.vertical, wake.dueAtUs) || EndsAt(f.horizontal, wake.dueAtUs))
  }

  ghost predicate Sound(s: Scheduler)
    ensures Sound(s) ==> BothWellFormed(s.dynamics)
  {
    && FacadeCoherent(s.dynamics, s.preset)
    && s.dynamics.policy == s.policy
    && (s.fault.Some? ==> s.dynamics == FreshFacade(s.preset, s.policy) && Reachable(s.fault.value))
    && (s.schedule.wake.Some? <==> s.fault.None? && AnyActive(s.dynamics))
    && (s.schedule.wake.Some? ==> Lease(s.dynamics, s.schedule.lastWakeId, s.schedule.wake.value))
  }

  /** The faults that can occur: `MissingDeadline` and `DeadlineNotFuture` are not among them. */
  predicate Reachable(fault: Fault) {
    fault.ScheduleFault? ==> !fault.schedule.MissingDeadline? && !fault.schedule.DeadlineNotFuture?
  }

  lemma NewSchedulerIsSound(preset: SmoothPreset, policy: CancellationPolicy)
    ensures Sound(NewScheduler(preset, policy))
  {
  }

  // ---------------------------------------------------------------------
  // Scheduling
  // ---------------------------------------------------------------------

  lemma StateShows(a: Axis)
    requires WellFormed(a)
    ensures var state := State(a);
            state.phase == a.Phase() && state.deadlineUs == a.Deadline() && state.generation == a.generation
  {
  }

  lemma DeadlineIsFuture(a: Axis, now: u64, axis: ScheduleAxis)
    requires Coherent(a) && a.lastTimestamp == Some(now)
    ensures ActiveDeadline(now, axis, State(a)) == Ok(a.Deadline())
    ensures a.tail.Some? ==>
      a.Deadline() == Some(a.lastInput.value + TailDuration(a.preset)) && now < a.Deadline().value
  {
    hide State;
    StateShows(a);
  }

  /** Rescheduling after both axes reached `now` can only fail by running out of wake ids; otherwise it
      arms a fresh lease exactly when an axis is active. */
  lemma SyncGrantsLease(s: Schedule, f: Facade, preset: SmoothPreset, now: u64)
    requires FacadeCoherent(f, preset) && f.vertical.lastTimestamp == Some(now)
    ensures var (after, wake) := Sync(s, now, State(f.vertical), State(f.horizontal));
            if AnyActive(f) && s.lastWakeId == U64_MAX then wake == Err(WakeIdOverflow) && after == s
            else
              && wake.Ok? && after.wake == wake.value
              && (after.wake.Some? <==> AnyActive(f))
              && (if AnyActive(f)
                  then Lease(f, after.lastWakeId, after.wake.value) && after.lastWakeId == s.lastWakeId + 1
                  else after.lastWakeId == s.lastWakeId)
  {
    hide State, Coherent;
    DeadlineIsFuture(f.vertical, now, Vertical);
    DeadlineIsFuture(f.horizontal, now, Horizontal);
    StateShows(f.vertical);
    StateShows(f.horizontal);
  }

  // ---------------------------------------------------------------------
  // The facade
  // ---------------------------------------------------------------------

  /** Points as a finite number; refused inputs count as none. */
  function Amount(points: Points): real {
    if points.Finite? then points.value else 0.0
  }

  /** A discrete event moves both axes to its timestamp and conserves each axis's points; a refused or
      continuous one changes neither. */
  lemma TwoAxesConserve(f: Facade, preset: SmoothPreset, t: u64, input: Vector, continuous: bool, noise: Noise)
    requires FacadeCoherent(f, preset)
    ensures var (after, output) := HandleTwoAxes(f, t, input, continuous, noise);
            && FacadeCoherent(after, preset)
            && after.policy == f.policy
            && (output.Err? || continuous ==> after == f)
            && (output.Ok? ==>
                  && (output.value.route == ContinuousBypass <==> continuous)
                  && output.value.vertical == State(after.vertical)
                  && output.value.horizontal == State(after.horizontal)
                  && (continuous ==> output.value.delta == input)
                  && (!continuous ==>
                        && after.vertical.lastTimestamp == Some(t)
                        && Accounted(f.vertical, after.vertical,
                                     Amount(input.vertical), Amount(output.value.delta.vertical))
                        && Accounted(f.horizontal, after.horizontal,
                                 Amount(input.horizontal), Amount(output.value.delta.horizontal))))
  {
    hide HandleInput, State, Coherent, Canceled;
    InputConserves(f.vertical, t, input.vertical, noise.vertical);
    InputConserves(f.horizontal, t, input.horizontal, noise.horizontal);
  }

  ghost predicate Accounted(before: Axis, after: Axis, accepted: real, emitted: real) {
    && Owed(before) + accepted == emitted + Canceled(before, after) + Owed(after)
    && before.generation <= after.generation
  }

  /** The cancellation on record names the trigger, the time and what was owed. */
  predicate RecordedAs(before: Axis, after: Axis, t: u64, trigger: CancellationTrigger) {
    after.lastCancellation ==
      Some(CancellationRecord(t, if trigger.OnPhysicalAction? then NewPhysicalAction else PointerClick, Owed(before)))
  }

  /** An external cancellation takes both tails or neither: it hands back exactly what each axis still
      owed, applies only when the policy allows the trigger, and a refused one changes nothing. */
  lemma TwoAxesCancel(f: Facade, preset: SmoothPreset, t: u64, trigger: CancellationTrigger)
    requires FacadeCoherent(f, preset)
    ensures var (after, output) := CancelTwoAxes(f, t, trigger);
            var allowed := if trigger.OnPhysicalAction? then f.policy.onPhysicalAction else f.policy.onPointerClick;
            && FacadeCoherent(after, preset)
            && (output.Err? <==> allowed && f.vertical.lastTimestamp.Some? && t < f.vertical.lastTimestamp.value)
            && (output.Err? || !allowed ==> after == f)
            && (output.Ok? ==> (output.value.applied <==> allowed))
            && (output.Ok? && !output.value.applied ==> output.value.canceled == ZERO)
            && (output.Ok? && output.value.applied ==>
                  && RecordedAs(f.vertical, after.vertical, t, trigger)
                  && RecordedAs(f.horizontal, after.horizontal, t, trigger)
                  && Amount(output.value.canceled.vertical) == Owed(f.vertical)
                  && Amount(output.value.canceled.horizontal) == Owed(f.horizontal)
                  && Owed(after.vertical) == 0.0 == Owed(after.horizontal)
                  && after.vertical.tail.None? && after.horizontal.tail.None?)
  {
    hide State, Coherent, Owed, CancelPending, ResetTracking;
    CancelConserves(f.vertical, t, NewPhysicalAction);
    CancelConserves(f.horizontal, t, NewPhysicalAction);
    CancelConserves(f.vertical, t, PointerClick);
    CancelConserves(f.horizontal, t, PointerClick);
    CancelStamps(f.vertical, t, if trigger.OnPhysicalAction? then NewPhysicalAction else PointerClick);
    CancelStamps(f.horizontal, t, if trigger.OnPhysicalAction? then NewPhysicalAction else PointerClick);
  }

  lemma CancelStamps(a: Axis, t: u64, reason: CancellationReason)
    requires Coherent(a)
    ensures var (after, outcome) := CancelExternal(a, t, reason);
            && after.preset == a.preset
            && (outcome.Err? <==> a.lastTimestamp.Some? && t < a.lastTimestamp.value)
            && (outcome.Ok? ==>
                  && after.lastTimestamp == Some(t)
                  && after.lastCancellation == Some(CancellationRecord(t, reason, Owed(a))))
  {
    hide CancelPending, ResetTracking, Owed, Coherent;
    if CancelExternal(a, t, reason).1.Ok? {
      CancelLeavesRecord(a, t, reason);
    }
  }

  lemma TwoAxesSample(f: Facade, preset: SmoothPreset, t: u64, noise: Noise)
    requires FacadeCoherent(f, preset)
    ensures var (after, output) := SampleTwoAxes(f, t, noise);
            && FacadeCoherent(after, preset)
            && after.policy == f.policy
            && (output.Err? <==> f.vertical.lastTimestamp.Some? && t < f.vertical.lastTimestamp.value)
            && (output.Err? ==> after == f)
            && (output.Ok? ==>
                  && output.value.vertical == State(after.vertical)
                  && output.value.horizontal == State(after.horizontal)
                  && after.vertical.lastTimestamp == Some(t)
                  && after.vertical.generation == f.vertical.generation
                  && after.horizontal.generation == f.horizontal.generation
                  && Owed(f.vertical) == Amount(output.value.delta.vertical) + Owed(after.vertical)
                  && Owed(f.horizontal) == Amount(output.value.delta.horizontal) + Owed(after.horizontal))
  {
    hide Sample, State, Coherent;
    SampleConserves(f.vertical, t, noise.vertical);
    SampleConserves(f.horizontal, t, noise.horizontal);
  }

  // ---------------------------------------------------------------------
  // One step of the scheduler
  // ---------------------------------------------------------------------

  /** What an event may do: everything but a discrete route leaves the delta as it came; the wake ids
      never go back, and a new wake has a new id. */
  lemma EventIsSound(s: Scheduler, t: u64, original: Vector, continuous: bool, synthetic: bool, noise: Noise)
    requires Sound(s)
    ensures var (after, emission) := HandleEvent(s, t, original, continuous, synthetic, noise);
            && Sound(after)
            && after.preset == s.preset && after.policy == s.policy
            && emission.wake == after.schedule.wake
            && emission.fault == after.fault
            && (emission.route != DiscreteRoute ==> emission.delta == original)
            && (match emission.route
                case DiscreteRoute =>
                  && s.fault.None? && after.fault.None?
                  && Accounted(s.dynamics.vertical, after.dynamics.vertical,
                           Amount(original.vertical), Amount(emission.delta.vertical))
                  && Accounted(s.dynamics.horizontal, after.dynamics.horizontal,
                           Amount(original.horizontal), Amount(emission.delta.horizontal))
                  && after.schedule.lastWakeId == s.schedule.lastWakeId + (if after.schedule.wake.Some? then 1 else 0)
                case FailOpenTriggered =>
                  s.fault.None? && emission.fault.Some? && after == Latch(s, emission.fault.value)
                case _ => after == s)
  {
    hide HandleTwoAxes, Sync, Coherent, Lease, State, Canceled;
    TwoAxesConserve(s.dynamics, s.preset, t, original, continuous, noise);
    LatchIsSound(s);
    var (dynamics, output) := HandleTwoAxes(s.dynamics, t, original, continuous, noise);
    if output.Ok? && !continuous {
      SyncGrantsLease(s.schedule, dynamics, s.preset, t);
    }
  }

  /** The events that trip an unfaulted scheduler: not a number within a million points, continuous or
      not; or a wheel event that an axis refuses or that finds no wake id left for the tail it leaves. */
  predicate Trips(s: Scheduler, t: u64, original: Vector, continuous: bool, noise: Noise)
    requires BothWellFormed(s.dynamics)
  {
    || Unacceptable(original.vertical) || Unacceptable(original.horizontal)
    || (!continuous
        && (|| Refused(s.dynamics.vertical, t, original.vertical)
            || Refused(s.dynamics.horizontal, t, original.horizontal)
            || (s.schedule.lastWakeId == U64_MAX
                && AnyActive(HandleTwoAxes(s.dynamics, t, original, false, noise).0))))
  }

  /** The route of every event from the event and the state alone. */
  function RouteOf(s: Scheduler, t: u64, original: Vector, continuous: bool, synthetic: bool, noise: Noise): InputRoute
    requires BothWellFormed(s.dynamics)
  {
    if synthetic then SelfSyntheticRoute
    else if s.fault.Some? then FailOpenLatched
    else if Trips(s, t, original, continuous, noise) then FailOpenTriggered
    else if continuous then ContinuousRoute
    else DiscreteRoute
  }

  /** The fault that an event that trips leaves, vertical axis first. */
  function TripsWith(s: Scheduler, t: u64, original: Vector): Fault {
    if Unacceptable(original.vertical) then DynamicsFault(WhyUnacceptable(original.vertical))
    else if Unacceptable(original.horizontal) then DynamicsFault(WhyUnacceptable(original.horizontal))
    else if Refused(s.dynamics.vertical, t, original.vertical)
      then DynamicsFault(WhyRefused(s.dynamics.vertical, t, original.vertical))
    else if Refused(s.dynamics.horizontal, t, original.horizontal)
      then DynamicsFault(WhyRefused(s.dynamics.horizontal, t, original.horizontal))
    else ScheduleFault(WakeIdOverflow)
  }

  /** Which events take which route; only a wheel event that is taken in has another delta than it came
      with, and only that and one that trips change the state. */
  lemma EventRoutesExactly(s: Scheduler, t: u64, original: Vector, continuous: bool, synthetic: bool, noise: Noise)
    requires Sound(s)
    ensures var (after, emission) := HandleEvent(s, t, original, continuous, synthetic, noise);
            && emission.route == RouteOf(s, t, original, continuous, synthetic, noise)
            && (emission.route in {SelfSyntheticRoute, FailOpenLatched, ContinuousRoute} ==>
                  && after == s && emission.delta == original
                  && emission.wake == s.schedule.wake && emission.fault == s.fault)
            && (emission.route.FailOpenTriggered? ==>
                  && emission.delta == original && emission.wake == None
                  && emission.fault == Some(TripsWith(s, t, original)) && after == Latch(s, emission.fault.value))
            && (emission.route.DiscreteRoute? ==> emission.fault.None? && emission.wake == after.schedule.wake)
  {
    hide HandleInput, Sync, Coherent, State, Refused, Unacceptable, WhyRefused, WhyUnacceptable;
    InputRefusedExactly(s.dynamics.vertical, t, original.vertical, noise.vertical);
    InputRefusedExactly(s.dynamics.horizontal, t, original.horizontal, noise.horizontal);
    UnacceptableExactly(original.vertical);
    UnacceptableExactly(original.horizontal);
    var (dynamics, output) := HandleTwoAxes(s.dynamics, t, original, continuous, noise);
    if s.fault.None? && !synthetic {
      TwoAxesConserve(s.dynamics, s.preset, t, original, continuous, noise);
      if output.Ok? && !continuous {
        SyncGrantsLease(s.schedule, dynamics, s.preset, t);
      }
    }
  }

  lemma UnacceptableExactly(input: Points)
    ensures ValidateInput(input) == if Unacceptable(input) then Some(WhyUnacceptable(input)) else None
  {
  }

  lemma LatchIsSound(s: Scheduler)
    requires Sound(s)
    ensures forall fault :: Reachable(fault) ==> Sound(Latch(s, fault))
    ensures Owed(Fresh(s.preset)) == 0.0
  {
    FreshIsCoherent(s.preset);
  }

  /** A poll changes the state only for the current token, once due. It then either samples, with the
      token's own id and generation and a time to live counted from the due time, or latches a fault
      that is never a dynamics fault. */
  lemma PollIsSound(s: Scheduler, t: u64, wake: WakeToken, noise: Noise)
    requires Sound(s)
    ensures var (after, outcome) := Poll(s, t, wake, noise);
            && Sound(after)
            && after.preset == s.preset && after.policy == s.policy
            && (match outcome
                case Sampled(sample, next) =>
                  && s.fault.None? && after.fault.None?
                  && s.schedule.wake == Some(wake) && wake.dueAtUs <= t <= wake.dueAtUs + 8_000
                  && next == after.schedule.wake
                  && sample.wakeId == wake.id && sample.generation == wake.generation == CurrentGeneration(after)
                  && sample.scheduledAtUs == wake.dueAtUs && sample.createdAtUs == t
                  && sample.expiresAtUs == wake.dueAtUs + 8_000
                  && after.dynamics.vertical.lastTimestamp == Some(t)
                  && Owed(s.dynamics.vertical) == Amount(sample.delta.vertical) + Owed(after.dynamics.vertical)
                  && Owed(s.dynamics.horizontal) == Amount(sample.delta.horizontal) + Owed(after.dynamics.horizontal)
                  && after.schedule.lastWakeId == s.schedule.lastWakeId + (if next.Some? then 1 else 0)
                case Faulted(fault) =>
                  if s.fault.Some? then after == s && s.fault == Some(fault)
                  else after == Latch(s, fault) && fault.ScheduleFault? && s.schedule.wake == Some(wake)
                case _ => after == s && s.fault.None?)
  {
    hide SampleTwoAxes, Sync, Coherent, State;
    LatchIsSound(s);
    if s.schedule.wake.Some? {
      TwoAxesSample(s.dynamics, s.preset, t, noise);
      var (dynamics, output) := SampleTwoAxes(s.dynamics, t, noise);
      if output.Ok? {
        SyncGrantsLease(s.schedule, dynamics, s.preset, t);
      }
    }
  }

  /** Exactly when a poll of an unfaulted scheduler latches a fault, and which. */
  lemma PollFaultsExactlyWhen(s: Scheduler, t: u64, wake: WakeToken, noise: Noise)
    requires Sound(s) && s.fault.None?
    ensures Poll(s, t, wake, noise).1.Faulted? <==>
            && s.schedule.wake == Some(wake) && wake.dueAtUs <= t
            && (|| wake.dueAtUs + 8_000 > U64_MAX
                || t > wake.dueAtUs + 8_000
                || (s.schedule.lastWakeId == U64_MAX && AnyActive(SampleTwoAxes(s.dynamics, t, noise).0)))
    ensures var outcome := Poll(s, t, wake, noise).1;
            outcome.Faulted? ==>
              outcome.fault.ScheduleFault?
              && outcome.fault.schedule ==
                   if wake.dueAtUs + 8_000 > U64_MAX then SampleExpiryOverflow(wake.dueAtUs, 8_000)
                   else if t > wake.dueAtUs + 8_000 then WakeExpired(wake.dueAtUs, wake.dueAtUs + 8_000, t)
                   else WakeIdOverflow
  {
    hide SampleTwoAxes, Sync, Coherent, State;
    if s.schedule.wake.Some? {
      TwoAxesSample(s.dynamics, s.preset, t, noise);
      var (dynamics, output) := SampleTwoAxes(s.dynamics, t, noise);
      if output.Ok? {
        SyncGrantsLease(s.schedule, dynamics, s.preset, t);
      }
    }
  }

  /** The other answers of a poll, each exactly: the latched fault; nothing armed; another wake armed,
      which is named; the armed wake, not yet due; and a sample for all the rest that latches no fault. */
  lemma PollAnswersExactly(s: Scheduler, t: u64, wake: WakeToken, noise: Noise)
    requires Sound(s)
    ensures var outcome := Poll(s, t, wake, noise).1;
            && (s.fault.Some? ==> outcome == Faulted(s.fault.value))
            && (outcome == SchedulerIdle <==> s.fault.None? && s.schedule.wake.None?)
            && (outcome.Superseded? <==> s.schedule.wake.Some? && s.schedule.wake.value != wake)
            && (outcome.Superseded? ==> outcome.current == s.schedule.wake.value)
            && (outcome.Waiting? <==> s.schedule.wake == Some(wake) && t < wake.dueAtUs)
            && (outcome.Waiting? ==> outcome.wake == wake)
            && (outcome.Sampled? <==> s.schedule.wake == Some(wake) && wake.dueAtUs <= t && !outcome.Faulted?)
  {
    hide TakeSample, FacadeCoherent, Lease;
    TakeSampleAnswers(s, t, wake, noise);
  }

  lemma TakeSampleAnswers(s: Scheduler, t: u64, wake: WakeToken, noise: Noise)
    requires BothWellFormed(s.dynamics)
    ensures var outcome := TakeSample(s, t, wake, noise).1;
            outcome.Sampled? || outcome.Faulted?
  {
    hide SampleTwoAxes, Sync;
  }

  lemma ResetIsSound(s: Scheduler)
    requires Sound(s)
    ensures var (after, reset) := ResetAfterFault(s);
            && Sound(after) && after.fault.None?
            && (reset <==> s.fault.Some?)
            && (!reset ==> after == s)
            && (reset ==> after == NewScheduler(s.preset, s.policy).(schedule := Schedule(None, s.schedule.lastWakeId)))
  {
    FreshIsCoherent(s.preset);
  }
}
