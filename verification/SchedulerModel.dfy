/** The two-axis facade and the fail-open scheduler as states and transitions
    (src/scroll_dynamics.rs, src/scroll_scheduler.rs, src/scroll_scheduler/schedule.rs). */
module SchedulerModel {
  import opened Prelude
  import opened Preset
  import opened AxisModel

  const SAMPLE_INTERVAL_US: int := 2_000
  const SCHEDULED_SAMPLE_TTL_US: int := 8_000

  // ---------------------------------------------------------------------
  // The two-axis facade
  // ---------------------------------------------------------------------

  datatype Vector = Vector(vertical: Points, horizontal: Points)

  const ZERO := Vector(Finite(0.0), Finite(0.0))

  datatype Route = DiscreteDynamics | ContinuousBypass

  datatype CancellationTrigger = OnPhysicalAction | OnPointerClick

  datatype CancellationPolicy = CancellationPolicy(onPhysicalAction: bool, onPointerClick: bool) {
    predicate Allows(trigger: CancellationTrigger) {
      match trigger
      case OnPhysicalAction => onPhysicalAction
      case OnPointerClick => onPointerClick
    }
  }

  /** The rounding errors of one operation, axis by axis. */
  datatype Noise = Noise(vertical: Rounding, horizontal: Rounding)

  datatype Facade = Facade(vertical: Axis, horizontal: Axis, policy: CancellationPolicy)

  datatype TwoAxisEmission = TwoAxisEmission(delta: Vector, route: Route, vertical: Snapshot, horizontal: Snapshot)

  datatype CancellationEmission =
    CancellationEmission(applied: bool, canceled: Vector, vertical: Snapshot, horizontal: Snapshot)

  predicate BothWellFormed(f: Facade) {
    WellFormed(f.vertical) && WellFormed(f.horizontal)
  }

  function FreshFacade(preset: SmoothPreset, policy: CancellationPolicy): Facade {
    Facade(Fresh(preset), Fresh(preset), policy)
  }

  function HandleTwoAxes(f: Facade, t: u64, input: Vector, continuous: bool, noise: Noise)
    : (result: (Facade, Result<TwoAxisEmission, DynamicsError>))
    requires BothWellFormed(f)
    ensures BothWellFormed(result.0)
  {
    var badVertical := ValidateInput(input.vertical);
    var badHorizontal := ValidateInput(input.horizontal);
    if badVertical.Some? then (f, Err(badVertical.value))
    else if badHorizontal.Some? then (f, Err(badHorizontal.value))
    else if continuous then (f, Ok(TwoAxisEmission(input, ContinuousBypass, State(f.vertical), State(f.horizontal))))
    else
      var (vertical, v) := HandleInput(f.vertical, t, input.vertical, noise.vertical);
      var (horizontal, h) := HandleInput(f.horizontal, t, input.horizontal, noise.horizontal);
      Commit(f, vertical, v, horizontal, h)
  }

  /** Both axes move together or not at all. */
  function Commit(f: Facade, vertical: Axis, v: Result<Emission, DynamicsError>,
                  horizontal: Axis, h: Result<Emission, DynamicsError>)
    : (Facade, Result<TwoAxisEmission, DynamicsError>)
    requires WellFormed(vertical) && WellFormed(horizontal)
  {
    if v.Err? then (f, Err(v.error))
    else if h.Err? then (f, Err(h.error))
    else (f.(vertical := vertical, horizontal := horizontal),
          Ok(TwoAxisEmission(Vector(Finite(v.value.deltaPoints), Finite(h.value.deltaPoints)), DiscreteDynamics,
                             State(vertical), State(horizontal))))
  }

  function SampleTwoAxes(f: Facade, t: u64, noise: Noise): (result: (Facade, Result<TwoAxisEmission, DynamicsError>))
    requires BothWellFormed(f)
    ensures BothWellFormed(result.0)
  {
    var (vertical, v) := Sample(f.vertical, t, noise.vertical);
    var (horizontal, h) := Sample(f.horizontal, t, noise.horizontal);
    Commit(f, vertical, v, horizontal, h)
  }

  function CancelTwoAxes(f: Facade, t: u64, trigger: CancellationTrigger)
    : (result: (Facade, Result<CancellationEmission, DynamicsError>))
    requires BothWellFormed(f)
    ensures BothWellFormed(result.0)
  {
    if !f.policy.Allows(trigger)
    then (f, Ok(CancellationEmission(false, ZERO, State(f.vertical), State(f.horizontal))))
    else
      var reason := if trigger.OnPhysicalAction? then NewPhysicalAction else PointerClick;
      var (vertical, v) := CancelExternal(f.vertical, t, reason);
      var (horizontal, h) := CancelExternal(f.horizontal, t, reason);
      if v.Err? then (f, Err(v.error))
      else if h.Err? then (f, Err(h.error))
      else (f.(vertical := vertical, horizontal := horizontal),
            Ok(CancellationEmission(true, Vector(Finite(v.value), Finite(h.value)),
                                    State(vertical), State(horizontal))))
  }

  // ---------------------------------------------------------------------
  // Wake leases
  // ---------------------------------------------------------------------

  datatype Generation = Generation(vertical: u64, horizontal: u64)

  datatype WakeToken = WakeToken(id: u64, dueAtUs: u64, generation: Generation)

  datatype ScheduleAxis = Vertical | Horizontal

  datatype SchedulerError =
    | MissingDeadline(axis: ScheduleAxis)
    | DeadlineNotFuture(axis: ScheduleAxis, deadlineUs: u64, observedAtUs: u64)
    | WakeIdOverflow
    | SampleExpiryOverflow(scheduledAtUs: u64, ttlUs: int)
    | WakeExpired(dueAtUs: u64, expiresAtUs: u64, lateAtUs: u64)

  datatype Schedule = Schedule(wake: Option<WakeToken>, lastWakeId: u64)

  function ActiveDeadline(now: u64, axis: ScheduleAxis, state: Snapshot): Result<Option<u64>, SchedulerError> {
    if state.phase.Idle? then Ok(None)
    else if state.deadlineUs.None? then Err(MissingDeadline(axis))
    else if state.deadlineUs.value <= now then Err(DeadlineNotFuture(axis, state.deadlineUs.value, now))
    else Ok(state.deadlineUs)
  }

  /** The earlier of two optional deadlines. */
  function Earlier(a: Option<u64>, b: Option<u64>): Option<u64> {
    if a.Some? && b.Some? then Some(Min(a.value, b.value))
    else if a.Some? then a
    else b
  }

  function DueAt(now: u64, deadline: u64): u64 {
    if now + SAMPLE_INTERVAL_US > U64_MAX then deadline else Min(now + SAMPLE_INTERVAL_US, deadline)
  }

  /** Arms the next wake for the active axes, or disarms when both are idle. */
  function Sync(s: Schedule, now: u64, vertical: Snapshot, horizontal: Snapshot)
    : (Schedule, Result<Option<WakeToken>, SchedulerError>)
  {
    var v := ActiveDeadline(now, Vertical, vertical);
    if v.Err? then (s, Err(v.error)) else
    var h := ActiveDeadline(now, Horizontal, horizontal);
    if h.Err? then (s, Err(h.error)) else
    var deadline := Earlier(v.value, h.value);
    if deadline.None? then (s.(wake := None), Ok(None))
    else if s.lastWakeId == U64_MAX then (s, Err(WakeIdOverflow))
    else
      var wake := WakeToken(s.lastWakeId + 1, DueAt(now, deadline.value),
                            Generation(vertical.generation, horizontal.generation));
      (Schedule(Some(wake), wake.id), Ok(Some(wake)))
  }

  function SampleExpiry(scheduledAt: u64): Result<u64, SchedulerError> {
    if scheduledAt + SCHEDULED_SAMPLE_TTL_US > U64_MAX
    then Err(SampleExpiryOverflow(scheduledAt, SCHEDULED_SAMPLE_TTL_US))
    else Ok(scheduledAt + SCHEDULED_SAMPLE_TTL_US)
  }

  datatype EventTag = AutoReverseSynthetic

  datatype ScheduledSample = ScheduledSample(
    delta: Vector,
    generation: Generation,
    wakeId: u64,
    scheduledAtUs: u64,
    createdAtUs: u64,
    expiresAtUs: u64,
    tag: EventTag)

  function NewSample(delta: Vector, generation: Generation, wakeId: u64, scheduledAt: u64, createdAt: u64)
    : Result<ScheduledSample, SchedulerError>
  {
    var expiry := SampleExpiry(scheduledAt);
    if expiry.Err? then Err(expiry.error)
    else Ok(ScheduledSample(delta, generation, wakeId, scheduledAt, createdAt, expiry.value, AutoReverseSynthetic))
  }

  datatype Disposition =
    | Deliver
    | DiscardStale(sample: Generation, current: Generation)
    | DiscardExpired(expiresAtUs: u64, observedAtUs: u64)

  function Dispose(sample: ScheduledSample, now: u64, current: Generation): Disposition {
    if sample.generation != current then DiscardStale(sample.generation, current)
    else if now > sample.expiresAtUs then DiscardExpired(sample.expiresAtUs, now)
    else Deliver
  }

  // ---------------------------------------------------------------------
  // The scheduler
  // ---------------------------------------------------------------------

  datatype InputRoute =
    | DiscreteRoute
    | ContinuousRoute
    | SelfSyntheticRoute
    | FailOpenTriggered
    | FailOpenLatched

  datatype Fault = DynamicsFault(dynamics: DynamicsError) | ScheduleFault(schedule: SchedulerError)

  datatype InputEmission =
    InputEmission(delta: Vector, route: InputRoute, wake: Option<WakeToken>, fault: Option<Fault>)

  datatype PollOutcome =
    | Waiting(wake: WakeToken)
    | SchedulerIdle
    | Superseded(current: WakeToken)
    | Sampled(sample: ScheduledSample, nextWake: Option<WakeToken>)
    | Faulted(fault: Fault)

  datatype Scheduler = Scheduler(
    preset: SmoothPreset,
    policy: CancellationPolicy,
    dynamics: Facade,
    schedule: Schedule,
    fault: Option<Fault>)

  function NewScheduler(preset: SmoothPreset, policy: CancellationPolicy): Scheduler {
    Scheduler(preset, policy, FreshFacade(preset, policy), Schedule(None, 0), None)
  }

  /** Drops all pending state and the wake, and remembers the fault. Wake ids are not reused. */
  function Latch(s: Scheduler, fault: Fault): Scheduler {
    s.(dynamics := FreshFacade(s.preset, s.policy), schedule := s.schedule.(wake := None), fault := Some(fault))
  }

  function Trip(s: Scheduler, original: Vector, fault: Fault): (Scheduler, InputEmission) {
    (Latch(s, fault), InputEmission(original, FailOpenTriggered, None, Some(fault)))
  }

  function Bypass(s: Scheduler, original: Vector, route: InputRoute): InputEmission {
    InputEmission(original, route, s.schedule.wake, s.fault)
  }

  function HandleEvent(s: Scheduler, t: u64, original: Vector, continuous: bool, selfSynthetic: bool, noise: Noise)
    : (result: (Scheduler, InputEmission))
    requires BothWellFormed(s.dynamics)
    ensures BothWellFormed(result.0.dynamics)
  {
    if selfSynthetic then (s, Bypass(s, original, SelfSyntheticRoute))
    else if s.fault.Some? then (s, InputEmission(original, FailOpenLatched, None, s.fault))
    else
      var (dynamics, output) := HandleTwoAxes(s.dynamics, t, original, continuous, noise);
      if output.Err? then Trip(s, original, DynamicsFault(output.error))
      else if output.value.route == ContinuousBypass then (s, Bypass(s, original, ContinuousRoute))
      else
        var (schedule, wake) := Sync(s.schedule, t, output.value.vertical, output.value.horizontal);
        if wake.Err? then Trip(s, original, ScheduleFault(wake.error))
        else (s.(dynamics := dynamics, schedule := schedule),
              InputEmission(output.value.delta, DiscreteRoute, wake.value, None))
  }

  function LatchPoll(s: Scheduler, fault: Fault): (Scheduler, PollOutcome) {
    (Latch(s, fault), Faulted(fault))
  }

  /** Advances the dynamics for a wake that is due and inside its time to live. */
  function TakeSample(s: Scheduler, observedAt: u64, wake: WakeToken, noise: Noise): (result: (Scheduler, PollOutcome))
    requires BothWellFormed(s.dynamics)
    ensures BothWellFormed(result.0.dynamics)
  {
    var (dynamics, output) := SampleTwoAxes(s.dynamics, observedAt, noise);
    if output.Err? then LatchPoll(s, DynamicsFault(output.error)) else
    var sample := NewSample(output.value.delta, wake.generation, wake.id, wake.dueAtUs, observedAt);
    if sample.Err? then LatchPoll(s, ScheduleFault(sample.error)) else
    var (schedule, next) := Sync(s.schedule, observedAt, output.value.vertical, output.value.horizontal);
    if next.Err? then LatchPoll(s, ScheduleFault(next.error))
    else (s.(dynamics := dynamics, schedule := schedule), Sampled(sample.value, next.value))
  }

  function Poll(s: Scheduler, observedAt: u64, wake: WakeToken, noise: Noise): (result: (Scheduler, PollOutcome))
    requires BothWellFormed(s.dynamics)
    ensures BothWellFormed(result.0.dynamics)
  {
    if s.fault.Some? then (s, Faulted(s.fault.value))
    else if s.schedule.wake.None? then (s, SchedulerIdle)
    else if wake != s.schedule.wake.value then (s, Superseded(s.schedule.wake.value))
    else if observedAt < wake.dueAtUs then (s, Waiting(wake))
    else
      var expiry := SampleExpiry(wake.dueAtUs);
      if expiry.Err? then LatchPoll(s, ScheduleFault(expiry.error))
      else if observedAt > expiry.value
      then LatchPoll(s, ScheduleFault(WakeExpired(wake.dueAtUs, expiry.value, observedAt)))
      else TakeSample(s, observedAt, wake, noise)
  }

  function ResetAfterFault(s: Scheduler): (Scheduler, bool) {
    if s.fault.None? then (s, false)
    else (s.(dynamics := FreshFacade(s.preset, s.policy), schedule := s.schedule.(wake := None), fault := None), true)
  }

  function CurrentGeneration(s: Scheduler): Generation {
    Generation(s.dynamics.vertical.generation, s.dynamics.horizontal.generation)
  }
}
