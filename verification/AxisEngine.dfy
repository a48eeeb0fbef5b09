/** The axis engine as the object the source mutates, proved against the transitions of AxisModel. */
module AxisEngine {
  import opened Prelude
  import opened Preset
  import opened Rate
  import opened AxisModel
  import M = AxisModel

  class ScrollDynamics {
    const preset: SmoothPreset
    const parameters: PresetParameters
    const rateEstimator: InputRateEstimator
    var lastTimestampUs: Option<u64>
    var lastInputTimestampUs: Option<u64>
    var lastInputDelta: Option<NormalizedDelta>
    var velocity: Option<real>
    var inputDirection: int
    var sessionGeneration: u64
    var lastSessionBoundary: Option<SessionBoundary>
    var lastCancellation: Option<CancellationRecord>
    var tail: Option<Tail>
    var ledger: Ledger

    ghost const Repr: set<object>

    ghost function View(): Axis
      requires rateEstimator in Repr && rateEstimator.intervals in Repr && rateEstimator.Valid()
      reads this, Repr
    {
      Axis(preset, lastTimestampUs, lastInputTimestampUs, lastInputDelta, rateEstimator.Contents(), velocity,
           inputDirection, sessionGeneration, lastSessionBoundary, lastCancellation, tail, ledger)
    }

    ghost predicate Valid()
      reads this, Repr
      ensures Valid() ==> this in Repr
    {
      && Repr == {this, rateEstimator, rateEstimator.intervals}
      && rateEstimator.Valid()
      && parameters == Parameters(preset)
      && WellFormed(View())
    }

    constructor (preset: SmoothPreset)
      ensures Valid() && fresh(Repr) && View() == Fresh(preset)
    {
      this.preset := preset;
      parameters := Parameters(preset);
      var estimator := new InputRateEstimator();
      rateEstimator := estimator;
      lastTimestampUs, lastInputTimestampUs, lastInputDelta := None, None, None;
      velocity, inputDirection, sessionGeneration := None, 0, 0;
      lastSessionBoundary, lastCancellation, tail, ledger := None, None, None, EMPTY_LEDGER;
      Repr := {this, estimator, estimator.intervals};
    }

    method Clone() returns (copy: ScrollDynamics)
      requires Valid()
      ensures fresh(copy.Repr) && copy.Valid() && copy.View() == View()
    {
      copy := new ScrollDynamics.Copy(this);
    }

    constructor Copy(from: ScrollDynamics)
      requires from.Valid()
      ensures fresh(Repr) && Valid() && View() == from.View()
    {
      preset := from.preset;
      parameters := from.parameters;
      var copied := from.rateEstimator.Clone();
      rateEstimator := copied;
      lastTimestampUs, lastInputTimestampUs := from.lastTimestampUs, from.lastInputTimestampUs;
      lastInputDelta, velocity, inputDirection := from.lastInputDelta, from.velocity, from.inputDirection;
      sessionGeneration, lastSessionBoundary := from.sessionGeneration, from.lastSessionBoundary;
      lastCancellation, tail, ledger := from.lastCancellation, from.tail, from.ledger;
      Repr := {this, copied, copied.intervals};
    }

    method State() returns (snapshot: Snapshot)
      requires Valid()
      ensures snapshot == M.State(View())
    {
      var estimate := rateEstimator.EstimateRate();
      var count := rateEstimator.IntervalCount();
      var phase := if tail.Some? then Active else Idle;
      var momentum := if tail.Some? then tail.value.pendingPoints else 0.0;
      var deadline := if tail.Some? then Some(tail.value.deadlineUs) else None;
      snapshot := Snapshot(phase, velocity, ledger.residual, momentum,
                           if estimate.Some? then Some(estimate.value.millihertz) else None, count,
                           lastInputDelta, deadline, sessionGeneration, lastSessionBoundary, inputDirection,
                           lastCancellation);
    }

    method HandleInput(t: u64, input: Points, r: Rounding) returns (outcome: Result<Emission, DynamicsError>)
      requires Valid()
      modifies Repr
      ensures Valid() && (View(), outcome) == M.HandleInput(old(View()), t, input, r)
    {
      hide Apply, M.Admit, Estimate, WellFormed;
      var admitted := Admit(t, input);
      if admitted.Err? {
        return Err(admitted.error);
      }
      var emission := ApplyInput(t, admitted.value, r);
      return Ok(emission);
    }

    /** The checks at the head of `handle_input`: nothing has changed when one of them refuses. */
    method Admit(t: u64, input: Points) returns (admitted: Result<Admission, DynamicsError>)
      requires Valid()
      ensures admitted == M.Admit(View(), t, input)
    {
      hide Estimate, InRange;
      var late := CheckTimestamp(t);
      if late.Some? {
        return Err(late.value);
      }
      var bad := ValidateInput(input);
      if bad.Some? {
        return Err(bad.value);
      }
      var points := input.value;

      var newDeadline: Option<u64> := None;
      if preset != Off && points != 0.0 {
        if t + parameters.tailDurationUs > U64_MAX {
          return Err(TimestampOverflow(t, parameters.tailDurationUs));
        }
        newDeadline := Some(t + parameters.tailDurationUs);
      }

      var direction := Direction(points);
      var boundary := BoundaryAt(t, direction);
      var inputDelta: Option<NormalizedDelta> := None;
      if points != 0.0 && boundary.None? && lastInputTimestampUs.Some? {
        inputDelta := NormalizeInputDelta(lastInputTimestampUs.value, t);
        if inputDelta.None? {
          return Err(TimestampOutOfOrder(lastInputTimestampUs.value, t));
        }
      }
      var nextGeneration: Option<u64> := None;
      if boundary.Some? {
        if sessionGeneration == U64_MAX {
          return Err(SessionGenerationOverflow);
        }
        nextGeneration := Some(sessionGeneration + 1);
      }
      return Ok(Admission(points, newDeadline, direction, boundary, inputDelta, nextGeneration));
    }

    method ApplyInput(t: u64, admission: Admission, r: Rounding) returns (emission: Emission)
      requires Valid() && M.Admit(View(), t, Finite(admission.points)) == Ok(admission)
      modifies Repr
      ensures Valid() && (View(), emission) == Apply(old(View()), t, admission, r)
    {
      hide M.RecordInput, Share, M.FinishEmission, M.OpenSession, M.AdvanceTail, M.Admit, Estimate;
      AdmissionIsComplete(View(), t, admission);
      OpenSession(t, admission);
      var due := AdvanceTail(t, r);
      lastTimestampUs := Some(t);
      if admission.points == 0.0 {
        emission := FinishEmission(due);
        return;
      }
      RecordInput(t, admission);
      emission := ShareInput(due, t, admission, r);
    }

    static lemma AdmissionIsComplete(a: Axis, t: u64, admission: Admission)
      requires WellFormed(a) && M.Admit(a, t, Finite(admission.points)) == Ok(admission)
      ensures ValidateTimestamp(a, t).None?
      ensures admission.boundary.Some? ==> admission.generation.Some?
      ensures !a.preset.Off? && admission.points != 0.0 ==> admission.deadline.Some?
    {
    }

    method Sample(t: u64, r: Rounding) returns (outcome: Result<Emission, DynamicsError>)
      requires Valid()
      modifies Repr
      ensures Valid() && (View(), outcome) == M.Sample(old(View()), t, r)
    {
      var late := CheckTimestamp(t);
      if late.Some? {
        return Err(late.value);
      }
      var delta := AdvanceTail(t, r);
      lastTimestampUs := Some(t);
      var emission := FinishEmission(delta);
      return Ok(emission);
    }

    method CancelExternal(t: u64, reason: CancellationReason) returns (outcome: Result<real, DynamicsError>)
      requires Valid()
      modifies Repr
      ensures Valid() && (View(), outcome) == M.CancelExternal(old(View()), t, reason)
    {
      var late := CheckTimestamp(t);
      if late.Some? {
        return Err(late.value);
      }
      var canceled := CancelPending(t, reason);
      ResetInputTracking();
      lastTimestampUs := Some(t);
      return Ok(canceled);
    }

    // -------------------------------------------------------------------
    // Steps
    // -------------------------------------------------------------------

    method CheckTimestamp(t: u64) returns (late: Option<DynamicsError>)
      requires Valid()
      ensures late == ValidateTimestamp(View(), t)
    {
      if lastTimestampUs.Some? && t < lastTimestampUs.value {
        return Some(TimestampOutOfOrder(lastTimestampUs.value, t));
      }
      return None;
    }

    method BoundaryAt(t: u64, direction: int) returns (boundary: Option<SessionBoundary>)
      requires Valid()
      ensures boundary == Boundary(View(), t, direction)
    {
      if direction == 0 {
        return None;
      }
      if lastInputTimestampUs.None? {
        return Some(InitialInput);
      }
      if t - lastInputTimestampUs.value > SESSION_GAP_US {
        return Some(LongGap);
      }
      if inputDirection != 0 && direction != inputDirection {
        return Some(DirectionChange);
      }
      return None;
    }

    method ResetInputTracking()
      requires Valid()
      modifies Repr
      ensures Valid() && View() == ResetTracking(old(View()))
    {
      lastInputTimestampUs := None;
      lastInputDelta := None;
      rateEstimator.Clear();
      velocity := None;
      inputDirection := 0;
    }

    method BeginSession(boundary: SessionBoundary, generation: u64)
      requires Valid()
      modifies Repr
      ensures Valid()
      ensures View() == ResetTracking(old(View())).(generation := generation, lastBoundary := Some(boundary))
    {
      ResetInputTracking();
      sessionGeneration := generation;
      lastSessionBoundary := Some(boundary);
    }

    method CancelPending(t: u64, reason: CancellationReason) returns (canceled: real)
      requires Valid()
      modifies this
      ensures Valid() && View() == M.CancelPending(old(View()), t, reason)
      ensures lastCancellation == Some(CancellationRecord(t, reason, canceled))
    {
      hide Estimate, InRange, M.OpenSession;
      var momentum := if tail.Some? then tail.value.pendingPoints else 0.0;
      tail := None;
      canceled := ledger.CancelAll(momentum);
      ledger := EMPTY_LEDGER;
      lastCancellation := Some(CancellationRecord(t, reason, canceled));
    }

    method AdvanceTail(t: u64, r: Rounding) returns (due: real)
      requires Valid()
      modifies `tail
      ensures Valid() && (tail, due) == M.AdvanceTail(old(tail), t, r)
    {
      if tail.None? {
        return 0.0;
      }
      var moving := tail.value;
      tail := None;
      if t <= moving.lastSampleUs {
        tail := Some(moving);
        return 0.0;
      }
      if t >= moving.deadlineUs {
        return moving.pendingPoints;
      }
      var emitted := DueShare(moving, t) + r.share;
      moving := moving.(pendingPoints := moving.pendingPoints - emitted + r.remainder, lastSampleUs := t);
      if Abs(moving.pendingPoints) <= STOP_THRESHOLD_POINTS {
        return emitted + moving.pendingPoints + r.flush;
      }
      if Abs(moving.pendingPoints) > DISTANCE_EPSILON_POINTS {
        tail := Some(moving);
      }
      return emitted;
    }

    method OpenSession(t: u64, admission: Admission)
      requires Valid() && (admission.boundary.Some? ==> admission.generation.Some?)
      modifies Repr
      ensures Valid() && View() == M.OpenSession(old(View()), t, admission)
    {
      hide Estimate, InRange;
      if admission.boundary.Some? {
        match admission.boundary.value {
          case InitialInput =>
          case DirectionChange => var _ := CancelPending(t, OppositeInput);
          case LongGap => var _ := CancelPending(t, AfterLongGap);
        }
        BeginSession(admission.boundary.value, admission.generation.value);
      }
    }

    method RecordInput(t: u64, admission: Admission)
      requires Valid() && lastTimestampUs == Some(t)
      modifies Repr
      ensures Valid() && View() == M.RecordInput(old(View()), t, admission)
    {
      hide Estimate, Velocity, Push;
      ledger := ledger.Accept(admission.points);
      lastInputTimestampUs := Some(t);
      lastInputDelta := admission.inputDelta;
      inputDirection := admission.direction;
      if admission.inputDelta.Some? {
        rateEstimator.Observe(admission.inputDelta.value);
      }
      var estimate := rateEstimator.EstimateRate();
      velocity := Velocity(admission.points, estimate);
    }

    method ShareInput(due: real, t: u64, admission: Admission, r: Rounding) returns (emission: Emission)
      requires Valid() && (!preset.Off? ==> admission.deadline.Some?)
      modifies this
      ensures Valid() && (View(), emission) == Share(old(View()), due, t, admission, r)
    {
      hide Immediate, M.ExtendTail, M.FinishEmission, Estimate, InRange;
      if preset == Off {
        emission := FinishEmission(due + admission.points + r.total);
        return;
      }
      var immediate := Immediate(preset, admission.points, r);
      var deferred := admission.points - immediate + r.deferred;
      ExtendTail(t, deferred, admission.deadline.value, r);
      emission := FinishEmission(due + immediate + r.total);
    }

    method ExtendTail(t: u64, deferred: real, deadline: u64, r: Rounding)
      requires Valid()
      modifies `tail
      ensures Valid() && tail == M.ExtendTail(old(tail), t, deferred, deadline, r)
    {
      if tail.Some? {
        tail := Some(Tail(tail.value.pendingPoints + deferred + r.merged, t, Max(tail.value.deadlineUs, deadline)));
      } else {
        tail := Some(Tail(deferred, t, deadline));
      }
      if Abs(tail.value.pendingPoints) <= STOP_THRESHOLD_POINTS {
        tail := None;
      }
    }

    /** Closes the books: returns all that was accepted and neither emitted nor canceled, whatever the
        residual was. */
    method TakeIdleCorrection() returns (correction: real)
      modifies `ledger
      ensures ledger == EMPTY_LEDGER
      ensures correction == old(ledger).accepted - old(ledger).emitted - old(ledger).canceled
    {
      correction := ledger.residual;
      ledger := ledger.(emitted := ledger.emitted + correction);
      var finalError := ledger.accepted - ledger.emitted - ledger.canceled;
      ledger := EMPTY_LEDGER;
      correction := correction + finalError;
    }

    method FinishEmission(delta: real) returns (emission: Emission)
      requires Valid()
      modifies `ledger
      ensures Valid() && (View(), emission) == M.FinishEmission(old(View()), delta)
    {
      var momentum := if tail.Some? then tail.value.pendingPoints else 0.0;
      ledger := ledger.Reconcile(delta, momentum);
      var total := delta;
      if tail.None? {
        var correction := TakeIdleCorrection();
        total := total + correction;
      }
      emission := Emission(total, if tail.Some? then tail.value.pendingPoints else 0.0,
                           if tail.Some? then Active else Idle,
                           if tail.Some? then Some(tail.value.deadlineUs) else None);
    }
  }
}
