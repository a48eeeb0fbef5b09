/** What one axis keeps under every operation, and its ledger over whole runs, for any rounding error. */
module AxisLaws {
  import opened Prelude
  import opened Preset
  import opened Rate
  import opened AxisModel

  /** The invariant of every reachable axis. */
  ghost predicate Coherent(a: Axis)
    ensures Coherent(a) ==> WellFormed(a)
  {
    && WellFormed(a)
    && |a.window| <= RATE_WINDOW_CAPACITY
    && (a.lastInput.Some? ==> a.lastTimestamp.Some? && a.lastInput.value <= a.lastTimestamp.value)
    && (a.direction == 0 <==> a.lastInput.None?)
    && (a.lastInput.Some? ==> a.generation >= 1)
    && -1 <= a.direction <= 1
    && a.ledger.canceled == 0.0
    && a.ledger.residual == a.ledger.accepted - a.ledger.emitted - a.Momentum()
    && (a.tail.None? ==> a.ledger == EMPTY_LEDGER)
    && (a.tail.Some? ==> TailCoherent(a, a.tail.value))
  }

  /** An active tail was last moved at the axis's own time, ends a full tail duration after the last
      input, lies strictly in the future, and holds more than the stop threshold. */
  ghost predicate TailCoherent(a: Axis, tail: Tail) {
    && !a.preset.Off?
    && a.lastInput.Some?
    && a.lastTimestamp == Some(tail.lastSampleUs)
    && tail.deadlineUs == a.lastInput.value + TailDuration(a.preset)
    && tail.lastSampleUs < tail.deadlineUs
    && Abs(tail.pendingPoints) > STOP_THRESHOLD_POINTS
  }

  /** Points accepted and not yet emitted or canceled: the pending momentum and the ledger's residual. */
  function Owed(a: Axis): real {
    a.Momentum() + a.ledger.residual
  }

  /** The points an input's session boundary canceled, read off the public state before and after. */
  function Canceled(before: Axis, after: Axis): real {
    if after.generation != before.generation && after.lastBoundary != Some(InitialInput) && after.lastCancellation.Some?
    then after.lastCancellation.value.canceledPoints
    else 0.0
  }

  lemma FreshIsCoherent(preset: SmoothPreset)
    ensures Coherent(Fresh(preset)) && Owed(Fresh(preset)) == 0.0
  {
  }

  // ---------------------------------------------------------------------
  // One step
  // ---------------------------------------------------------------------

  /** Finishing settles the ledger whatever error the delta carries: what stays owed is what was
      accepted and not emitted before, less the delta; an idle axis owes nothing. */
  lemma FinishSettles(a: Axis, delta: real)
    requires a.ledger.canceled == 0.0
    ensures var (after, emission) := FinishEmission(a, delta);
            && Owed(after) == a.ledger.accepted - a.ledger.emitted - emission.deltaPoints
            && after.ledger.canceled == 0.0
            && after.ledger.residual == after.ledger.accepted - after.ledger.emitted - after.Momentum()
            && (a.tail.None? ==> after.ledger == EMPTY_LEDGER)
            && after == a.(ledger := after.ledger)
  {
  }

  /** Opening a session cancels all that was owed, or keeps all of it. */
  lemma OpenSessionSettles(a: Axis, t: u64, admission: Admission)
    requires Coherent(a) && Admit(a, t, Finite(admission.points)) == Ok(admission)
    ensures var begun := OpenSession(a, t, admission);
            && begun.ledger.canceled == 0.0
            && begun.ledger.accepted - begun.ledger.emitted == Owed(a) - Canceled(a, begun)
            && (admission.boundary.Some? ==> begun.tail.None? && begun.ledger == EMPTY_LEDGER)
            && begun.preset == a.preset && InRange(begun.window)
            && begun.generation == (if admission.boundary.Some? then a.generation + 1 else a.generation)
            && (admission.boundary.None? ==> begun == a)
  {
  }

  /** A tail that survives being moved keeps its deadline, is current, and is worth keeping. */
  lemma AdvanceShape(tail: Option<Tail>, t: u64, r: Rounding)
    requires tail.Some? ==> tail.value.lastSampleUs <= t && tail.value.lastSampleUs < tail.value.deadlineUs
                            && Abs(tail.value.pendingPoints) > STOP_THRESHOLD_POINTS
    ensures var next := AdvanceTail(tail, t, r).0;
            next.Some? ==>
              && tail.Some?
              && next.value.deadlineUs == tail.value.deadlineUs
              && next.value.lastSampleUs == t < next.value.deadlineUs
              && Abs(next.value.pendingPoints) > STOP_THRESHOLD_POINTS
  {
  }

  /** What an admission is known to be. */
  ghost predicate Admitted(a: Axis, t: u64, admission: Admission) {
    && (a.lastTimestamp.Some? ==> a.lastTimestamp.value <= t)
    && admission.direction == Direction(admission.points)
    && admission.boundary == Boundary(a, t, admission.direction)
    && admission.generation == (if admission.boundary.Some? then Some(a.generation + 1) else None)
    && (!a.preset.Off? && admission.points != 0.0 ==>
          t + TailDuration(a.preset) <= U64_MAX && admission.deadline == Some(t + TailDuration(a.preset)))
    && a.generation + (if admission.boundary.Some? then 1 else 0) <= U64_MAX
  }

  lemma AdmitFacts(a: Axis, t: u64, admission: Admission)
    requires WellFormed(a) && Admit(a, t, Finite(admission.points)) == Ok(admission)
    ensures Admitted(a, t, admission)
  {
  }

  /** The state between moving the tail and booking the input. */
  ghost predicate Moved(m: Axis, t: u64) {
    && InRange(m.window) && |m.window| <= RATE_WINDOW_CAPACITY
    && m.lastTimestamp == Some(t)
    && (m.direction == 0 <==> m.lastInput.None?) && -1 <= m.direction <= 1
    && (m.lastInput.Some? ==> m.lastInput.value <= t && m.generation >= 1)
    && m.ledger.canceled == 0.0
    && (m.tail.Some? ==> TailCoherent(m, m.tail.value))
  }

  lemma AdvanceKeepsMoved(a: Axis, t: u64, admission: Admission, r: Rounding)
    requires Coherent(a) && Admit(a, t, Finite(admission.points)) == Ok(admission)
    ensures var m := Advance(OpenSession(a, t, admission), t, r).0;
            && Moved(m, t)
            && m.preset == a.preset
            && m.ledger.accepted - m.ledger.emitted == Owed(a) - Canceled(a, m)
            && (if admission.boundary.Some? then m.generation == a.generation + 1 else m.generation == a.generation)
            && (admission.boundary.None? && admission.points != 0.0 ==> m.lastInput.Some?)
            && (admission.points != 0.0 ==> m.generation >= 1)
  {
    hide AdvanceTail, Admit, Estimate, Parameters;
    AdmitFacts(a, t, admission);
    OpenSessionSettles(a, t, admission);
    var begun := OpenSession(a, t, admission);
    AdvanceShape(begun.tail, t, r);
  }

  lemma RecordKeepsMoved(m: Axis, t: u64, admission: Admission)
    requires Moved(m, t) && admission.points != 0.0 && admission.direction == Direction(admission.points)
    requires m.generation >= 1
    ensures var d := RecordInput(m, t, admission);
            && Recorded(d, t)
            && d.tail == m.tail && d.preset == m.preset && d.generation == m.generation
            && d.lastBoundary == m.lastBoundary && d.lastCancellation == m.lastCancellation
            && d.ledger == m.ledger.Accept(admission.points)
  {
    hide Estimate;
    if admission.inputDelta.Some? {
      var longer := m.window + [admission.inputDelta.value.usedUs];
      assert InRange(longer);
      assert InRange(Latest(longer));
    }
  }

  /** The state after an input has been recorded and before it is shared out. */
  ghost predicate Recorded(d: Axis, t: u64) {
    && WellFormed(d) && |d.window| <= RATE_WINDOW_CAPACITY
    && d.direction != 0 && -1 <= d.direction <= 1
    && d.lastInput == Some(t) == d.lastTimestamp
    && d.generation >= 1
    && d.ledger.canceled == 0.0
    && (d.tail.Some? ==> !d.preset.Off? && d.tail.value.deadlineUs <= t + TailDuration(d.preset))
  }

  lemma ShareKeepsCoherence(d: Axis, due: real, t: u64, admission: Admission, r: Rounding)
    requires Recorded(d, t)
    requires !d.preset.Off? ==> t + TailDuration(d.preset) <= U64_MAX
                                && admission.deadline == Some(t + TailDuration(d.preset))
    ensures var (after, emission) := Share(d, due, t, admission, r);
            && Coherent(after)
            && after == d.(tail := after.tail, ledger := after.ledger)
            && Owed(after) == d.ledger.accepted - d.ledger.emitted - emission.deltaPoints
  {
    hide Immediate, FinishEmission, Estimate;
    if d.preset.Off? {
      FinishSettles(d, due + admission.points + r.total);
    } else {
      var immediate := Immediate(d.preset, admission.points, r);
      var deferred := admission.points - immediate + r.deferred;
      var tail := ExtendTail(d.tail, t, deferred, admission.deadline.value, r);
      FinishSettles(d.(tail := tail), due + immediate + r.total);
    }
  }

  lemma ApplyKeepsCoherence(a: Axis, t: u64, admission: Admission, r: Rounding)
    requires Coherent(a) && Admit(a, t, Finite(admission.points)) == Ok(admission)
    ensures var (after, emission) := Apply(a, t, admission, r);
            && Coherent(after)
            && after.preset == a.preset
            && after.lastTimestamp == Some(t)
            && after.generation == (if admission.boundary.Some? then a.generation + 1 else a.generation)
            && Owed(a) + admission.points == emission.deltaPoints + Canceled(a, after) + Owed(after)
  {
    hide Advance, RecordInput, Share, FinishEmission, OpenSession, Admit, TailDuration;
    AdmitFacts(a, t, admission);
    AdvanceKeepsMoved(a, t, admission, r);
    var (moved, due) := Advance(OpenSession(a, t, admission), t, r);
    if admission.points == 0.0 {
      FinishSettles(moved, due);
    } else {
      RecordKeepsMoved(moved, t, admission);
      ShareKeepsCoherence(RecordInput(moved, t, admission), due, t, admission, r);
    }
  }

  /** Every accepted input keeps the invariant and accounts for each point: what was owed plus the input
      is emitted, canceled at a session boundary, or still owed. A refused input changes nothing. */
  lemma InputConserves(a: Axis, t: u64, input: Points, r: Rounding)
    requires Coherent(a)
    ensures var (after, outcome) := HandleInput(a, t, input, r);
            && Coherent(after)
            && (outcome.Err? ==> after == a)
            && (outcome.Ok? ==>
                  && input.Finite?
                  && after.preset == a.preset
                  && after.lastTimestamp == Some(t)
                  && (after.generation == a.generation || after.generation == a.generation + 1)
                  && Owed(a) + input.value == outcome.value.deltaPoints + Canceled(a, after) + Owed(after))
  {
    hide Apply;
    var admitted := Admit(a, t, input);
    if admitted.Ok? {
      ApplyKeepsCoherence(a, t, admitted.value, r);
    }
  }

  lemma SampleConserves(a: Axis, t: u64, r: Rounding)
    requires Coherent(a)
    ensures var (after, outcome) := Sample(a, t, r);
            && Coherent(after)
            && (outcome.Err? <==> a.lastTimestamp.Some? && t < a.lastTimestamp.value)
            && (outcome.Err? ==> after == a)
            && (outcome.Ok? ==>
                  && after == a.(tail := after.tail, ledger := after.ledger, lastTimestamp := Some(t))
                  && Owed(a) == outcome.value.deltaPoints + Owed(after))
  {
    hide AdvanceTail;
    if ValidateTimestamp(a, t).None? {
      AdvanceShape(a.tail, t, r);
      var (moved, due) := Advance(a, t, r);
      FinishSettles(moved, due);
    }
  }

  lemma CancelConserves(a: Axis, t: u64, reason: CancellationReason)
    requires Coherent(a)
    ensures var (after, outcome) := CancelExternal(a, t, reason);
            && Coherent(after)
            && (outcome.Err? ==> after == a)
            && (outcome.Ok? ==> outcome.value == Owed(a) && Owed(after) == 0.0 && after.tail.None?)
  {
    hide Estimate, Parameters;
  }

  // ---------------------------------------------------------------------
  // Whole runs
  // ---------------------------------------------------------------------

  datatype Step =
    | Input(t: u64, points: Points, r: Rounding)
    | SampleAt(t: u64, r: Rounding)
    | CancelAt(t: u64, reason: CancellationReason)

  /** Running sums of what callers put in, got out, and were told was canceled. */
  datatype Totals = Totals(accepted: real, emitted: real, canceled: real)

  const NOTHING := Totals(0.0, 0.0, 0.0)

  ghost function Take(a: Axis, sums: Totals, step: Step): (Axis, Totals)
    requires WellFormed(a)
  {
    match step
    case Input(t, points, r) =>
      var (after, outcome) := HandleInput(a, t, points, r);
      if outcome.Err? || points.NonFinite? then (after, sums)
      else (after, Totals(sums.accepted + points.value, sums.emitted + outcome.value.deltaPoints,
                          sums.canceled + Canceled(a, after)))
    case SampleAt(t, r) =>
      var (after, outcome) := Sample(a, t, r);
      if outcome.Err? then (after, sums) else (after, sums.(emitted := sums.emitted + outcome.value.deltaPoints))
    case CancelAt(t, reason) =>
      var (after, outcome) := CancelExternal(a, t, reason);
      if outcome.Err? then (after, sums) else (after, sums.(canceled := sums.canceled + outcome.value))
  }

  lemma TakeConserves(a: Axis, sums: Totals, step: Step)
    requires Coherent(a)
    requires sums.accepted == sums.emitted + sums.canceled + Owed(a)
    ensures var (after, total) := Take(a, sums, step);
            Coherent(after) && total.accepted == total.emitted + total.canceled + Owed(after)
  {
    hide HandleInput, Sample, CancelExternal, Estimate, Parameters;
    match step
    case Input(t, points, r) => InputConserves(a, t, points, r);
    case SampleAt(t, r) => SampleConserves(a, t, r);
    case CancelAt(t, reason) => CancelConserves(a, t, reason);
  }

  /** The state and sums after a run that starts from a fresh axis. */
  ghost function Run(preset: SmoothPreset, steps: seq<Step>): (result: (Axis, Totals))
    ensures Coherent(result.0)
    ensures result.1.accepted == result.1.emitted + result.1.canceled + Owed(result.0)
  {
    FreshIsCoherent(preset);
    if steps == [] then (Fresh(preset), NOTHING)
    else
      var last := |steps| - 1;
      var (a, sums) := Run(preset, steps[..last]);
      TakeConserves(a, sums, steps[last]);
      Take(a, sums, steps[last])
  }

  /** The rounding-robust ledger: after any run with any rounding errors, accepted equals emitted plus
      canceled plus momentum plus residual, and whenever the axis is idle, accepted equals emitted plus
      canceled exactly. */
  lemma LedgerClosesUnderAnyRounding(preset: SmoothPreset, steps: seq<Step>)
    ensures var (a, sums) := Run(preset, steps);
            && sums.accepted == sums.emitted + sums.canceled + a.Momentum() + a.ledger.residual
            && (a.Phase() == Idle ==> sums.accepted == sums.emitted + sums.canceled)
  {
    var (a, sums) := Run(preset, steps);
    assert Coherent(a);
  }
}
