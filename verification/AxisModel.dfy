/** One scalar axis of the wheel dynamics as a state and its transitions (src/scroll_dynamics/axis.rs).

    `f64` arithmetic is modelled over `real`. Each tail computation adds an arbitrary error taken from
    a `Rounding` record, so a law proved for every record holds whatever the hardware rounds to, and a
    law about `EXACT` is one of exact arithmetic. The ledger's own additions are exact. */
module AxisModel {
  import opened Prelude
  import opened Preset
  import opened Rate

  const DISTANCE_EPSILON_POINTS: real := 0.000000001
  const MAX_ABS_INPUT_POINTS: real := 1_000_000.0
  const SESSION_GAP_US: int := 150_000
  const STOP_THRESHOLD_POINTS: real := 0.25

  /** An input value: `f64` may also be infinite or not a number. */
  datatype Points = Finite(value: real) | NonFinite

  datatype DynamicsError =
    | NonFiniteInput
    | InputTooLarge(points: real)
    | TimestampOutOfOrder(previous: u64, current: u64)
    | TimestampOverflow(timestampUs: u64, durationUs: u64)
    | SessionGenerationOverflow

  datatype Phase = Idle | Active

  datatype SessionBoundary = InitialInput | DirectionChange | LongGap

  datatype CancellationReason = OppositeInput | AfterLongGap | NewPhysicalAction | PointerClick

  datatype CancellationRecord = CancellationRecord(timestampUs: u64, reason: CancellationReason, canceledPoints: real)

  datatype Emission = Emission(deltaPoints: real, pendingPoints: real, phase: Phase, deadlineUs: Option<u64>)

  datatype Tail = Tail(pendingPoints: real, lastSampleUs: u64, deadlineUs: u64)

  /** The error each tail computation may carry, in the order the source performs them. */
  datatype Rounding = Rounding(
    share: real,      // pending * fraction
    remainder: real,  // pending - emitted
    flush: real,      // emitted + pending, when the stop threshold is reached
    immediate: real,  // input * ratio
    deferred: real,   // input - immediate
    merged: real,     // pending + deferred
    total: real)      // due + immediate (or due + input when the preset is Off)

  const EXACT := Rounding(0.0, 0.0, 0.0, 0.0, 0.0, 0.0, 0.0)

  // ---------------------------------------------------------------------
  // The signed-distance ledger
  // ---------------------------------------------------------------------

  datatype Ledger = Ledger(accepted: real, emitted: real, canceled: real, residual: real) {
    function Accept(points: real): Ledger {
      this.(accepted := accepted + points)
    }

    function Reconcile(emittedNow: real, momentum: real): Ledger {
      var emitted := emitted + emittedNow;
      this.(emitted := emitted, residual := accepted - emitted - canceled - momentum)
    }

    /** What `cancel_all` books as newly canceled; the ledger is then reset. */
    function CancelAll(momentum: real): real {
      var settled := canceled + momentum + residual;
      settled + (accepted - emitted - settled) - canceled
    }
  }

  const EMPTY_LEDGER := Ledger(0.0, 0.0, 0.0, 0.0)

  // ---------------------------------------------------------------------
  // The axis
  // ---------------------------------------------------------------------

  datatype Axis = Axis(
    preset: SmoothPreset,
    lastTimestamp: Option<u64>,
    lastInput: Option<u64>,
    lastInputDelta: Option<NormalizedDelta>,
    window: Window,
    velocity: Option<real>,
    direction: int,
    generation: u64,
    lastBoundary: Option<SessionBoundary>,
    lastCancellation: Option<CancellationRecord>,
    tail: Option<Tail>,
    ledger: Ledger)
  {
    function Phase(): Phase {
      if tail.Some? then Active else Idle
    }

    function Momentum(): real {
      if tail.Some? then tail.value.pendingPoints else 0.0
    }

    function Deadline(): Option<u64> {
      if tail.Some? then Some(tail.value.deadlineUs) else None
    }
  }

  /** What the axis operations need of a state to be defined at all. */
  predicate WellFormed(a: Axis) {
    InRange(a.window)
  }

  function Fresh(preset: SmoothPreset): Axis {
    Axis(preset, None, None, None, [], None, 0, 0, None, None, None, EMPTY_LEDGER)
  }

  datatype Snapshot = Snapshot(
    phase: Phase,
    velocity: Option<real>,
    residual: real,
    momentum: real,
    observedRate: Option<u64>,
    rateIntervalCount: nat,
    lastInputDelta: Option<NormalizedDelta>,
    deadlineUs: Option<u64>,
    generation: u64,
    lastBoundary: Option<SessionBoundary>,
    direction: int,
    lastCancellation: Option<CancellationRecord>)

  function State(a: Axis): Snapshot
    requires InRange(a.window)
  {
    var estimate := Estimate(a.window);
    Snapshot(a.Phase(), a.velocity, a.ledger.residual, a.Momentum(),
             if estimate.Some? then Some(estimate.value.millihertz) else None, |a.window|,
             a.lastInputDelta, a.Deadline(), a.generation, a.lastBoundary, a.direction, a.lastCancellation)
  }

  // ---------------------------------------------------------------------
  // Checks
  // ---------------------------------------------------------------------

  function ValidateTimestamp(a: Axis, t: u64): Option<DynamicsError> {
    if a.lastTimestamp.Some? && t < a.lastTimestamp.value
    then Some(TimestampOutOfOrder(a.lastTimestamp.value, t))
    else None
  }

  function ValidateInput(input: Points): Option<DynamicsError> {
    match input
    case NonFinite => Some(NonFiniteInput)
    case Finite(x) => if Abs(x) > MAX_ABS_INPUT_POINTS then Some(InputTooLarge(x)) else None
  }

  function Direction(points: real): int {
    if points > 0.0 then 1 else if points < 0.0 then -1 else 0
  }

  function Boundary(a: Axis, t: u64, direction: int): Option<SessionBoundary> {
    if direction == 0 then None
    else if a.lastInput.None? then Some(InitialInput)
    else if t - a.lastInput.value > SESSION_GAP_US then Some(LongGap)
    else if a.direction != 0 && direction != a.direction then Some(DirectionChange)
    else None
  }

  /** Everything `handle_input` establishes before it changes the axis. */
  datatype Admission = Admission(
    points: real,
    deadline: Option<u64>,
    direction: int,
    boundary: Option<SessionBoundary>,
    inputDelta: Option<NormalizedDelta>,
    generation: Option<u64>)

  function AdmitDeadline(a: Axis, t: u64, points: real): Result<Option<u64>, DynamicsError> {
    if a.preset.Off? || points == 0.0 then Ok(None)
    else
      var duration := TailDuration(a.preset);
      if t + duration > U64_MAX then Err(TimestampOverflow(t, duration)) else Ok(Some(t + duration))
  }

  function AdmitDelta(a: Axis, t: u64, points: real, boundary: Option<SessionBoundary>)
    : Result<Option<NormalizedDelta>, DynamicsError>
  {
    if points == 0.0 || boundary.Some? || a.lastInput.None? then Ok(None)
    else
      var delta := NormalizeInputDelta(a.lastInput.value, t);
      if delta.None? then Err(TimestampOutOfOrder(a.lastInput.value, t)) else Ok(delta)
  }

  function AdmitGeneration(a: Axis, boundary: Option<SessionBoundary>): Result<Option<u64>, DynamicsError> {
    if boundary.None? then Ok(None)
    else if a.generation == U64_MAX then Err(SessionGenerationOverflow)
    else Ok(Some(a.generation + 1))
  }

  function Admit(a: Axis, t: u64, input: Points): (r: Result<Admission, DynamicsError>)
    requires WellFormed(a)
    ensures r.Ok? ==> input == Finite(r.value.points)
  {
    var late := ValidateTimestamp(a, t);
    var bad := ValidateInput(input);
    if late.Some? then Err(late.value)
    else if bad.Some? then Err(bad.value)
    else
      var points := input.value;
      var deadline := AdmitDeadline(a, t, points);
      if deadline.Err? then Err(deadline.error) else
      var direction := Direction(points);
      var boundary := Boundary(a, t, direction);
      var delta := AdmitDelta(a, t, points, boundary);
      if delta.Err? then Err(delta.error) else
      var generation := AdmitGeneration(a, boundary);
      if generation.Err? then Err(generation.error)
      else Ok(Admission(points, deadline.value, direction, boundary, delta.value, generation.value))
  }

  // ---------------------------------------------------------------------
  // Transitions
  // ---------------------------------------------------------------------

  function ResetTracking(a: Axis): Axis {
    a.(lastInput := None, lastInputDelta := None, window := [], velocity := None, direction := 0)
  }

  function CancelPending(a: Axis, t: u64, reason: CancellationReason): Axis {
    var canceled := a.ledger.CancelAll(a.Momentum());
    a.(tail := None, ledger := EMPTY_LEDGER, lastCancellation := Some(CancellationRecord(t, reason, canceled)))
  }

  function OpenSession(a: Axis, t: u64, admission: Admission): Axis
    requires admission.boundary.Some? ==> admission.generation.Some?
  {
    match admission.boundary
    case None => a
    case Some(boundary) =>
      var settled :=
        match boundary
        case InitialInput => a
        case DirectionChange => CancelPending(a, t, OppositeInput)
        case LongGap => CancelPending(a, t, AfterLongGap);
      ResetTracking(settled).(generation := admission.generation.value, lastBoundary := Some(boundary))
  }

  /** The part of a tail that falls due between its last sample and `t`. */
  function DueShare(tail: Tail, t: u64): real
    requires tail.lastSampleUs < t < tail.deadlineUs
  {
    var fraction := (t - tail.lastSampleUs) as real / (tail.deadlineUs - tail.lastSampleUs) as real;
    tail.pendingPoints * fraction
  }

  /** The tail left at time `t` and the points that fell due on the way. */
  function AdvanceTail(tail: Option<Tail>, t: u64, r: Rounding): (Option<Tail>, real) {
    if tail.None? then (None, 0.0)
    else
      var last := tail.value;
      if t <= last.lastSampleUs then (tail, 0.0)
      else if t >= last.deadlineUs then (None, last.pendingPoints)
      else
        var emitted := DueShare(last, t) + r.share;
        var pending := last.pendingPoints - emitted + r.remainder;
        if Abs(pending) <= STOP_THRESHOLD_POINTS then (None, emitted + pending + r.flush)
        else if Abs(pending) > DISTANCE_EPSILON_POINTS then (Some(Tail(pending, t, last.deadlineUs)), emitted)
        else (None, emitted)
  }

  /** An axis that goes idle also emits what closes the books, and its ledger is reset. */
  function FinishEmission(a: Axis, delta: real): (Axis, Emission) {
    var ledger := a.ledger.Reconcile(delta, a.Momentum());
    if a.tail.None? then
      var correction := ledger.residual;
      var finalError := ledger.accepted - (ledger.emitted + correction) - ledger.canceled;
      (a.(ledger := EMPTY_LEDGER), Emission(delta + (correction + finalError), 0.0, Idle, None))
    else (a.(ledger := ledger), Emission(delta, a.Momentum(), Active, a.Deadline()))
  }

  /** Moves the tail to `t`; the points due on the way come with the new state. */
  function Advance(a: Axis, t: u64, r: Rounding): (Axis, real) {
    var (tail, due) := AdvanceTail(a.tail, t, r);
    (a.(tail := tail, lastTimestamp := Some(t)), due)
  }

  function Velocity(points: real, estimate: Option<RateEstimate>): Option<real> {
    if estimate.None? then None else Some(points * estimate.value.millihertz as real / 1000.0)
  }

  function RecordInput(a: Axis, t: u64, admission: Admission): (result: Axis)
    requires InRange(a.window)
    ensures InRange(result.window)
  {
    var window :=
      if admission.inputDelta.Some? then
        PushKeepsRange(a.window, admission.inputDelta.value.usedUs);
        Push(a.window, admission.inputDelta.value.usedUs)
      else a.window;
    a.(ledger := a.ledger.Accept(admission.points),
       lastInput := Some(t),
       lastInputDelta := admission.inputDelta,
       direction := admission.direction,
       window := window,
       velocity := Velocity(admission.points, Estimate(window)))
  }

  /** Adds the deferred share of an input to the tail and applies the stop threshold. */
  function ExtendTail(tail: Option<Tail>, t: u64, deferred: real, deadline: u64, r: Rounding): Option<Tail> {
    var extended :=
      if tail.Some? then Tail(tail.value.pendingPoints + deferred + r.merged, t, Max(tail.value.deadlineUs, deadline))
      else Tail(deferred, t, deadline);
    if Abs(extended.pendingPoints) <= STOP_THRESHOLD_POINTS then None else Some(extended)
  }

  function Immediate(preset: SmoothPreset, points: real, r: Rounding): real {
    points * Parameters(preset).ImmediateRatio() + r.immediate
  }

  /** Splits a recorded input into its immediate share and the tail, and emits what is due. */
  function Share(a: Axis, due: real, t: u64, admission: Admission, r: Rounding): (Axis, Emission)
    requires !a.preset.Off? ==> admission.deadline.Some?
  {
    if a.preset.Off? then FinishEmission(a, due + admission.points + r.total)
    else
      var immediate := Immediate(a.preset, admission.points, r);
      var deferred := admission.points - immediate + r.deferred;
      var tail := ExtendTail(a.tail, t, deferred, admission.deadline.value, r);
      FinishEmission(a.(tail := tail), due + immediate + r.total)
  }

  function Apply(a: Axis, t: u64, admission: Admission, r: Rounding): (result: (Axis, Emission))
    requires WellFormed(a) && Admit(a, t, Finite(admission.points)) == Ok(admission)
    ensures WellFormed(result.0)
  {
    var (moved, due) := Advance(OpenSession(a, t, admission), t, r);
    if admission.points == 0.0 then FinishEmission(moved, due)
    else Share(RecordInput(moved, t, admission), due, t, admission, r)
  }

  function HandleInput(a: Axis, t: u64, input: Points, r: Rounding)
    : (result: (Axis, Result<Emission, DynamicsError>))
    requires WellFormed(a)
    ensures WellFormed(result.0)
  {
    match Admit(a, t, input)
    case Err(error) => (a, Err(error))
    case Ok(admission) =>
      var (after, emission) := Apply(a, t, admission, r);
      (after, Ok(emission))
  }

  function Sample(a: Axis, t: u64, r: Rounding): (result: (Axis, Result<Emission, DynamicsError>))
    ensures WellFormed(a) ==> WellFormed(result.0)
  {
    var late := ValidateTimestamp(a, t);
    if late.Some? then (a, Err(late.value))
    else
      var (moved, due) := Advance(a, t, r);
      var (after, emission) := FinishEmission(moved, due);
      (after, Ok(emission))
  }

  function CancelExternal(a: Axis, t: u64, reason: CancellationReason): (result: (Axis, Result<real, DynamicsError>))
    ensures WellFormed(a) ==> WellFormed(result.0)
  {
    var late := ValidateTimestamp(a, t);
    if late.Some? then (a, Err(late.value))
    else
      var settled := CancelPending(a, t, reason);
      (ResetTracking(settled).(lastTimestamp := Some(t)), Ok(settled.lastCancellation.value.canceledPoints))
  }
}
