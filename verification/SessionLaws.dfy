/** Exact arithmetic within one session: sign, no overshoot, and nothing of an older tail. */
module SessionLaws {
  import opened Prelude
  import opened Preset
  import opened Rate
  import opened AxisModel
  import opened AxisLaws
  import opened CadenceLaws

  /** Points measured along a direction. */
  function Along(direction: int, points: real): real {
    if direction > 0 then points else if direction < 0 then -points else 0.0
  }

  /** What exact arithmetic adds to the invariant: nothing is left unexplained in the ledger, and
      pending points run in the session's direction. */
  ghost predicate Exact(a: Axis) {
    && Coherent(a)
    && a.ledger.residual == 0.0
    && 0.0 <= Along(a.direction, a.Momentum())
  }

  lemma AdvanceSplits(a: Axis, t: u64)
    requires a.tail.Some? ==> TailCoherent(a, a.tail.value) && a.tail.value.lastSampleUs <= t
    requires 0.0 <= Along(a.direction, a.Momentum())
    ensures var (moved, due) := Advance(a, t, EXACT);
            && a.Momentum() == due + moved.Momentum()
            && 0.0 <= Along(a.direction, due)
            && 0.0 <= Along(a.direction, moved.Momentum())
  {
    hide AdvanceTail, Left, Parameters;
    AdvanceNothing(t, EXACT);
    if a.tail.Some? {
      AdvanceFollowsCurve(a.tail.value, t);
      LeftStaysBetween(a.tail.value, t);
    }
  }

  lemma LeftStaysBetween(tail: Tail, t: u64)
    requires tail.lastSampleUs < tail.deadlineUs && tail.lastSampleUs <= t
    ensures 0.0 <= tail.pendingPoints ==> 0.0 <= Left(tail, t) <= tail.pendingPoints
    ensures tail.pendingPoints <= 0.0 ==> tail.pendingPoints <= Left(tail, t) <= 0.0
  {
    if t < tail.deadlineUs {
      PartIsSmaller(tail.pendingPoints, (tail.deadlineUs - t) as real, (tail.deadlineUs - tail.lastSampleUs) as real);
    }
  }

  /** Each active preset emits a part of the input at once and defers the rest, both in its direction. */
  lemma RatioIsProper(preset: SmoothPreset)
    requires !preset.Off?
    ensures 0.0 < Parameters(preset).ImmediateRatio() < 1.0
  {
    hide Parameters;
    ParametersAreValid(preset);
  }

  lemma ShareSplits(preset: SmoothPreset, points: real)
    requires !preset.Off? && points != 0.0
    ensures var immediate := Immediate(preset, points, EXACT);
            && 0.0 < Along(Direction(points), immediate)
            && 0.0 < Along(Direction(points), points - immediate)
  {
    var ratio := Parameters(preset).ImmediateRatio();
    assert 0.0 < ratio < 1.0 by { RatioIsProper(preset); }
    Between(points, ratio);
    assert points - points * ratio == points * (1.0 - ratio);
    Between(points, 1.0 - ratio);
  }

  lemma ShareIsExact(d: Axis, due: real, t: u64, admission: Admission)
    requires Recorded(d, t)
    requires !d.preset.Off? ==> t + TailDuration(d.preset) <= U64_MAX
                                && admission.deadline == Some(t + TailDuration(d.preset))
    requires admission.points != 0.0 && d.direction == Direction(admission.points)
    requires d.ledger.accepted - d.ledger.emitted == admission.points + due + d.Momentum()
    requires 0.0 <= Along(d.direction, due) && 0.0 <= Along(d.direction, d.Momentum())
    ensures var (after, emission) := Share(d, due, t, admission, EXACT);
            && Exact(after)
            && 0.0 < Along(d.direction, emission.deltaPoints)
            && due + d.Momentum() + admission.points == emission.deltaPoints + after.Momentum()
  {
    hide Immediate, Estimate;
    ShareKeepsCoherence(d, due, t, admission, EXACT);
    if !d.preset.Off? {
      ShareSplits(d.preset, admission.points);
    }
  }

  /** An accepted input keeps the axis exact. Its emission runs in the input's direction, strictly so
      for a non-zero input; what was pending (unless a session boundary canceled it) plus the input is
      the emission plus what is pending now. */
  lemma InputIsExact(a: Axis, t: u64, input: Points)
    requires Exact(a) && HandleInput(a, t, input, EXACT).1.Ok? && input.Finite?
    ensures var (after, outcome) := HandleInput(a, t, input, EXACT);
            var kept := if after.generation == a.generation then a.Momentum() else 0.0;
            && Exact(after)
            && kept + input.value == outcome.value.deltaPoints + after.Momentum()
            && 0.0 <= Along(after.direction, outcome.value.deltaPoints)
            && (input.value != 0.0 ==> after.direction == Direction(input.value)
                                       && 0.0 < Along(after.direction, outcome.value.deltaPoints))
            && (input.value == 0.0 ==> after.direction == a.direction && after.generation == a.generation)
  {
    hide Apply, Estimate;
    var admission := Admit(a, t, input).value;
    ApplyIsExact(a, t, admission);
  }

  lemma FinishIsExact(m: Axis, delta: real)
    requires m.ledger.canceled == 0.0 && m.ledger.accepted - m.ledger.emitted == delta + m.Momentum()
    ensures var (after, emission) := FinishEmission(m, delta);
            && after.ledger.residual == 0.0
            && after == m.(ledger := after.ledger)
            && emission.deltaPoints == delta
  {
  }

  /** Opening a session and moving the tail: what stays of the old points is split between now and later. */
  lemma AdvanceIsExact(a: Axis, t: u64, admission: Admission)
    requires Exact(a) && Admit(a, t, Finite(admission.points)) == Ok(admission)
    ensures var (m, due) := Advance(OpenSession(a, t, admission), t, EXACT);
            var kept := if admission.boundary.None? then a.Momentum() else 0.0;
            var along := if admission.points == 0.0 then a.direction else admission.direction;
            && kept == due + m.Momentum() == m.ledger.accepted - m.ledger.emitted
            && 0.0 <= Along(along, due) && 0.0 <= Along(along, m.Momentum())
            && (admission.boundary.None? ==> m.direction == a.direction)
  {
    hide AdvanceTail, Admit, OpenSession, Estimate, Parameters;
    AdmitFacts(a, t, admission);
    OpenSessionSettles(a, t, admission);
    var begun := OpenSession(a, t, admission);
    AdvanceNothing(t, EXACT);
    AdvanceSplits(begun, t);
  }

  lemma ApplyIsExact(a: Axis, t: u64, admission: Admission)
    requires Exact(a) && Admit(a, t, Finite(admission.points)) == Ok(admission)
    ensures var (after, emission) := Apply(a, t, admission, EXACT);
            var kept := if admission.boundary.None? then a.Momentum() else 0.0;
            && Exact(after)
            && after.generation == (if admission.boundary.Some? then a.generation + 1 else a.generation)
            && kept + admission.points == emission.deltaPoints + after.Momentum()
            && 0.0 <= Along(after.direction, emission.deltaPoints)
            && (admission.points != 0.0 ==> after.direction == Direction(admission.points)
                                            && 0.0 < Along(after.direction, emission.deltaPoints))
            && (admission.points == 0.0 ==> after.direction == a.direction && admission.boundary.None?)
  {
    hide Advance, RecordInput, Share, Admit, OpenSession, FinishEmission, TailDuration, WellFormed;
    AdmitFacts(a, t, admission);
    AdvanceKeepsMoved(a, t, admission, EXACT);
    ApplyKeepsCoherence(a, t, admission, EXACT);
    AdvanceIsExact(a, t, admission);
    var (moved, due) := Advance(OpenSession(a, t, admission), t, EXACT);
    if admission.points == 0.0 {
      FinishIsExact(moved, due);
    } else {
      RecordKeepsMoved(moved, t, admission);
      RecordedDirection(moved, t, admission);
      ShareKeepsCoherence(RecordInput(moved, t, admission), due, t, admission, EXACT);
      ShareIsExact(RecordInput(moved, t, admission), due, t, admission);
    }
  }

  lemma RecordedDirection(m: Axis, t: u64, admission: Admission)
    requires InRange(m.window)
    ensures RecordInput(m, t, admission).direction == admission.direction
  {
  }

  lemma SampleIsExact(a: Axis, t: u64)
    requires Exact(a) && Sample(a, t, EXACT).1.Ok?
    ensures var (after, outcome) := Sample(a, t, EXACT);
            && Exact(after)
            && after.direction == a.direction && after.generation == a.generation
            && a.Momentum() == outcome.value.deltaPoints + after.Momentum()
            && 0.0 <= Along(a.direction, outcome.value.deltaPoints)
  {
    hide Sample, Left, Estimate, Parameters;
    SampleConserves(a, t, EXACT);
    SampleFollowsCurve(a, t);
    if a.tail.Some? {
      LeftStaysBetween(a.tail.value, t);
    }
  }
}
