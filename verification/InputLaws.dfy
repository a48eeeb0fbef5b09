/** Exactly what one input does to an axis: when it is refused, when it starts a session, and what it
    leaves pending. */
module InputLaws {
  import opened Prelude
  import opened Preset
  import opened Rate
  import opened AxisModel
  import opened AxisLaws
  import opened CadenceLaws
  import opened SessionLaws
  import opened WindowLaws

  /** Of a thousand points of input, those that are deferred to the tail, and how long that lasts. */
  function DeferredPerMille(preset: SmoothPreset): nat {
    match preset
    case Off => 0
    case Precise => 650
    case Balanced => 450
    case Fast => 250
  }

  function TailUs(preset: SmoothPreset): nat {
    match preset
    case Off => 0
    case Precise => 120_000
    case Balanced => 90_000
    case Fast => 60_000
  }

  function Deferred(preset: SmoothPreset, points: real): real {
    points * DeferredPerMille(preset) as real / 1000.0
  }

  lemma SplitIsExact(preset: SmoothPreset, points: real)
    ensures points - Immediate(preset, points, EXACT) == Deferred(preset, points)
    ensures TailDuration(preset) == TailUs(preset)
  {
    match preset
    case Off => assert Immediate(Off, points, EXACT) == points * 1.0;
    case Precise => assert Immediate(Precise, points, EXACT) == points * 0.35;
    case Balanced => assert Immediate(Balanced, points, EXACT) == points * 0.55;
    case Fast => assert Immediate(Fast, points, EXACT) == points * 0.75;
  }

  /** The first input, one after more than 150 ms, and one against the session's direction. */
  predicate StartsSession(a: Axis, t: u64, points: real) {
    points != 0.0
    && (a.lastInput.None? || t > a.lastInput.value + 150_000 || Along(a.direction, points) < 0.0)
  }

  lemma BoundaryIsSessionStart(a: Axis, t: u64, points: real)
    requires Coherent(a)
    ensures Boundary(a, t, Direction(points)).Some? <==> StartsSession(a, t, points)
    ensures Boundary(a, t, Direction(points)) == Some(InitialInput) <==> points != 0.0 && a.lastInput.None?
  {
  }

  /** Not a number of at most a million points. */
  predicate Unacceptable(input: Points) {
    input.NonFinite? || Abs(input.value) > 1_000_000.0
  }

  /** Behind the axis, unacceptable, or past the end of the clock or of the session numbers. */
  predicate Refused(a: Axis, t: u64, input: Points) {
    || (a.lastTimestamp.Some? && t < a.lastTimestamp.value)
    || Unacceptable(input)
    || (input.value != 0.0 && !a.preset.Off? && t + TailUs(a.preset) > U64_MAX)
    || (StartsSession(a, t, input.value) && a.generation == U64_MAX)
  }

  /** Why an input is not acceptable. */
  function WhyUnacceptable(input: Points): DynamicsError {
    if input.NonFinite? then NonFiniteInput else InputTooLarge(input.value)
  }

  /** Why an input is refused, in the order in which the causes are found. */
  function WhyRefused(a: Axis, t: u64, input: Points): DynamicsError {
    if a.lastTimestamp.Some? && t < a.lastTimestamp.value then TimestampOutOfOrder(a.lastTimestamp.value, t)
    else if Unacceptable(input) then WhyUnacceptable(input)
    else if input.value != 0.0 && !a.preset.Off? && t + TailUs(a.preset) > U64_MAX then
      TimestampOverflow(t, TailUs(a.preset))
    else SessionGenerationOverflow
  }

  lemma InputRefusedExactly(a: Axis, t: u64, input: Points, r: Rounding)
    requires Coherent(a)
    ensures HandleInput(a, t, input, r).1.Err? <==> Refused(a, t, input)
    ensures HandleInput(a, t, input, r).1.Err? ==> HandleInput(a, t, input, r).1.error == WhyRefused(a, t, input)
  {
    hide Apply, Estimate, Parameters, Immediate;
    if input.Finite? {
      BoundaryIsSessionStart(a, t, input.value);
      SplitIsExact(a.preset, input.value);
    }
  }

  /** An accepted input begins a session exactly when it starts one, and then cancels exactly what the
      axis owed. */
  lemma SessionsStartExactly(a: Axis, t: u64, input: Points, r: Rounding)
    requires Coherent(a) && HandleInput(a, t, input, r).1.Ok? && input.Finite?
    ensures var after := HandleInput(a, t, input, r).0;
            && after.generation == (if StartsSession(a, t, input.value) then a.generation + 1 else a.generation)
            && Canceled(a, after) ==
                 (if StartsSession(a, t, input.value) && a.lastInput.Some? then Owed(a) else 0.0)
  {
    hide AdvanceTail, ExtendTail, Immediate, Estimate, Parameters, Owed;
    BoundaryIsSessionStart(a, t, input.value);
    var admission := Admit(a, t, input).value;
    AdmitFacts(a, t, admission);
    OpenSessionSettles(a, t, admission);
    ApplyKeepsCoherence(a, t, admission, r);
  }

  /** What an exact axis still holds of its tail at `t`, when the input stays in the session. */
  function Kept(a: Axis, t: u64, points: real): real
    requires Coherent(a)
  {
    if StartsSession(a, t, points) || a.tail.None? || !Alive(a.tail.value, t) then 0.0 else Left(a.tail.value, t)
  }

  /** The tail after an input, in closed form: what the curve left of the old tail plus the deferred
      share, ending a tail duration from now, unless no more than the stop threshold is left. Everything
      else that was pending or came in is emitted at once. */
  lemma InputFollowsCurve(a: Axis, t: u64, input: Points)
    requires Exact(a) && HandleInput(a, t, input, EXACT).1.Ok? && input.Finite? && input.value != 0.0
    ensures var (after, outcome) := HandleInput(a, t, input, EXACT);
            var pending := Kept(a, t, input.value) + Deferred(a.preset, input.value);
            && after.tail == (if a.preset.Off? || Abs(pending) <= 0.25 then None
                              else Some(Tail(pending, t, t + TailUs(a.preset))))
            && outcome.value.deltaPoints ==
                 (if StartsSession(a, t, input.value) then 0.0 else a.Momentum()) + input.value - after.Momentum()
  {
    hide Apply, Advance, OpenSession, Estimate, Parameters, Left, Alive, Immediate, Share, Kept, Deferred;
    var admission := Admit(a, t, input).value;
    BoundaryIsSessionStart(a, t, input.value);
    AdmitFacts(a, t, admission);
    InputIsExact(a, t, input);
    ApplyFollowsCurve(a, t, admission);
    SplitIsExact(a.preset, input.value);
    SessionsStartExactly(a, t, input, EXACT);
  }

  /** The split in plain numbers, for an input that starts a session and leaves a tail. */
  lemma SessionSplit(a: Axis, t: u64, points: real)
    requires Exact(a) && HandleInput(a, t, Finite(points), EXACT).1.Ok? && StartsSession(a, t, points)
    requires !a.preset.Off? ==> Abs(Deferred(a.preset, points)) > 0.25
    ensures var (after, outcome) := HandleInput(a, t, Finite(points), EXACT);
            match a.preset
            case Off => outcome.value.deltaPoints == points && after.tail == None
            case Precise => outcome.value.deltaPoints == 0.35 * points
                            && after.tail == Some(Tail(0.65 * points, t, t + 120_000))
            case Balanced => outcome.value.deltaPoints == 0.55 * points
                             && after.tail == Some(Tail(0.45 * points, t, t + 90_000))
            case Fast => outcome.value.deltaPoints == 0.75 * points
                         && after.tail == Some(Tail(0.25 * points, t, t + 60_000))
  {
    hide HandleInput, Exact;
    InputFollowsCurve(a, t, Finite(points));
  }

  lemma AdvanceKeeps(a: Axis, t: u64, admission: Admission)
    requires Coherent(a) && Admit(a, t, Finite(admission.points)) == Ok(admission) && admission.points != 0.0
    ensures var m := Advance(OpenSession(a, t, admission), t, EXACT).0;
            && m.preset == a.preset
            && m.Momentum() == Kept(a, t, admission.points)
            && (m.tail.Some? ==> m.tail.value.deadlineUs <= t + TailDuration(a.preset))
  {
    hide AdvanceTail, Left, Alive, Estimate, Parameters, Admit;
    AdmitFacts(a, t, admission);
    BoundaryIsSessionStart(a, t, admission.points);
    AdvanceNothing(t, EXACT);
    if admission.boundary.None? && a.tail.Some? {
      AdvanceFollowsCurve(a.tail.value, t);
    }
  }

  lemma ApplyFollowsCurve(a: Axis, t: u64, admission: Admission)
    requires Exact(a) && Admit(a, t, Finite(admission.points)) == Ok(admission) && admission.points != 0.0
    ensures var after := Apply(a, t, admission, EXACT).0;
            var points := admission.points;
            var pending := Kept(a, t, points) + points - Immediate(a.preset, points, EXACT);
            after.tail == (if a.preset.Off? || Abs(pending) <= STOP_THRESHOLD_POINTS then None
                           else Some(Tail(pending, t, t + TailDuration(a.preset))))
  {
    hide Advance, OpenSession, Estimate, Immediate, Kept, Admit, Parameters;
    AdmitFacts(a, t, admission);
    AdvanceKeeps(a, t, admission);
    AdvanceKeepsMoved(a, t, admission, EXACT);
  }

  // ---------------------------------------------------------------------
  // What is tracked
  // ---------------------------------------------------------------------

  /** Why an input starts a session. */
  function BoundaryOf(a: Axis, t: u64): SessionBoundary {
    if a.lastInput.None? then InitialInput
    else if t > a.lastInput.value + 150_000 then LongGap
    else DirectionChange
  }

  /** The record of what a session start canceled: the long gap, or the opposite input. */
  function CanceledRecord(a: Axis, t: u64): CancellationRecord {
    CancellationRecord(t, if BoundaryOf(a, t).LongGap? then AfterLongGap else OppositeInput, Owed(a))
  }

  /** The last cancellation on record after a session boundary. */
  function RecordAfter(a: Axis, t: u64, boundary: Option<SessionBoundary>): Option<CancellationRecord> {
    match boundary
    case Some(LongGap) => Some(CancellationRecord(t, AfterLongGap, Owed(a)))
    case Some(DirectionChange) => Some(CancellationRecord(t, OppositeInput, Owed(a)))
    case _ => a.lastCancellation
  }

  lemma OpeningTracks(a: Axis, t: u64, admission: Admission, r: Rounding)
    requires Coherent(a) && Admitted(a, t, admission)
    ensures var moved := Advance(OpenSession(a, t, admission), t, r).0;
            && moved.lastBoundary == (if admission.boundary.Some? then admission.boundary else a.lastBoundary)
            && moved.lastCancellation == RecordAfter(a, t, admission.boundary)
  {
    hide AdvanceTail, Estimate, Parameters, Boundary;
  }

  lemma RecordTracks(m: Axis, t: u64, admission: Admission)
    requires InRange(m.window)
    ensures var recorded := RecordInput(m, t, admission);
            && recorded.lastInput == Some(t)
            && recorded.direction == admission.direction
            && recorded.lastInputDelta == admission.inputDelta
  {
  }

  lemma ApplyTracks(a: Axis, t: u64, admission: Admission, r: Rounding)
    requires Coherent(a) && Admit(a, t, Finite(admission.points)) == Ok(admission) && admission.points != 0.0
    ensures var after := Apply(a, t, admission, r).0;
            && after.lastInput == Some(t)
            && after.direction == Direction(admission.points)
            && after.lastInputDelta == admission.inputDelta
            && after.lastBoundary == (if admission.boundary.Some? then admission.boundary else a.lastBoundary)
            && after.lastCancellation == RecordAfter(a, t, admission.boundary)
  {
    hide Advance, RecordInput, Share, Admit, OpenSession, TailDuration, Owed, Boundary;
    AdmitFacts(a, t, admission);
    var (moved, due) := Advance(OpenSession(a, t, admission), t, r);
    AdvanceKeepsMoved(a, t, admission, r);
    OpeningTracks(a, t, admission, r);
    RecordKeepsMoved(moved, t, admission);
    RecordTracks(moved, t, admission);
    ShareKeepsCoherence(RecordInput(moved, t, admission), due, t, admission, r);
  }

  /** What a non-zero input leaves on record. */
  lemma InputLeavesTrack(a: Axis, t: u64, input: Points, r: Rounding)
    requires Coherent(a) && HandleInput(a, t, input, r).1.Ok? && input.Finite? && input.value != 0.0
    ensures var after := HandleInput(a, t, input, r).0;
            var starts := StartsSession(a, t, input.value);
            && after.lastInput == Some(t)
            && after.direction == (if input.value > 0.0 then 1 else -1)
            && after.lastInputDelta == (if starts then None else NormalizeInputDelta(a.lastInput.value, t))
            && after.lastBoundary == (if starts then Some(BoundaryOf(a, t)) else a.lastBoundary)
            && after.lastCancellation ==
                 (if starts && a.lastInput.Some? then Some(CanceledRecord(a, t)) else a.lastCancellation)
  {
    hide Apply, NormalizeInputDelta;
    ApplyTracks(a, t, Admit(a, t, input).value, r);
  }

  /** The velocity after a non-zero input: its points times the observed rate per second, known from the
      third interval of a session on. */
  lemma InputGivesVelocity(a: Axis, t: u64, input: Points, r: Rounding)
    requires Coherent(a) && HandleInput(a, t, input, r).1.Ok? && input.Finite? && input.value != 0.0
    ensures var after := HandleInput(a, t, input, r).0;
            && (after.velocity.Some? <==> |after.window| >= 3)
            && (after.velocity.Some? ==>
                  1000.0 * after.velocity.value == input.value * Estimate(after.window).value.millihertz as real)
  {
    hide Apply, Admit, Estimate;
    ApplyWindow(a, t, Admit(a, t, input).value, r);
    EstimateIsMedianRate(HandleInput(a, t, input, r).0.window);
  }

  /** An input of nothing is a sample. */
  lemma ZeroInputIsASample(a: Axis, t: u64, r: Rounding)
    requires Coherent(a)
    ensures HandleInput(a, t, Finite(0.0), r) == Sample(a, t, r)
  {
    hide Advance, FinishEmission, Estimate;
  }

  /** A cancellation ends the session's tracking and leaves its record; session numbers stay. */
  lemma CancelLeavesRecord(a: Axis, t: u64, reason: CancellationReason)
    requires Coherent(a) && CancelExternal(a, t, reason).1.Ok?
    ensures CancelExternal(a, t, reason).0 ==
      Fresh(a.preset).(lastTimestamp := Some(t), generation := a.generation, lastBoundary := a.lastBoundary,
                       lastCancellation := Some(CancellationRecord(t, reason, Owed(a))))
  {
    hide Estimate;
  }

  /** What the public state shows: everything owed is momentum or residual, and an observed rate is a
      thousand million over the lower median of the session's window, known from three intervals on. */
  lemma StateShowsWhatIsOwed(a: Axis)
    requires Coherent(a)
    ensures var state := State(a);
            && state.momentum + state.residual == a.ledger.accepted - a.ledger.emitted
            && state.momentum == a.Momentum() && state.deadlineUs == a.Deadline()
            && state.generation == a.generation && state.direction == a.direction && state.velocity == a.velocity
            && state.lastBoundary == a.lastBoundary && state.lastCancellation == a.lastCancellation
            && state.lastInputDelta == a.lastInputDelta
            && (state.phase == Idle ==> state.momentum == 0.0 && state.residual == 0.0 && state.deadlineUs == None)
            && (state.phase == Active <==> state.deadlineUs.Some?)
            && state.rateIntervalCount == |a.window|
            && (state.observedRate.Some? <==> |a.window| >= 3)
            && (state.observedRate.Some? ==>
                  exists median: nat :: IsLowerMedian(median, a.window)
                    && state.observedRate.value * median <= 1_000_000_000 < (state.observedRate.value + 1) * median)
  {
    hide Estimate, IsLowerMedian;
    EstimateIsMedianRate(a.window);
  }
}
