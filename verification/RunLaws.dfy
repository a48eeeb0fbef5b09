/** Exact arithmetic over whole runs: the sampling cadence is invisible, a session never overshoots,
    and nothing of a canceled tail is ever emitted. */
module RunLaws {
  import opened Prelude
  import opened Preset
  import opened Rate
  import opened AxisModel
  import opened AxisLaws
  import opened CadenceLaws
  import opened SessionLaws

  // ---------------------------------------------------------------------
  // A sample before another operation
  // ---------------------------------------------------------------------

  /** Equal but for the ledger and the last cancellation. */
  ghost predicate Alike(a: Axis, b: Axis) {
    a == b.(ledger := a.ledger, lastCancellation := a.lastCancellation)
  }

  lemma ExactAlikeIsSame(a: Axis, b: Axis)
    requires Exact(a) && Exact(b) && Alike(a, b)
    ensures Same(a, b)
  {
  }

  lemma ShareRespectsAlike(a: Axis, b: Axis, due1: real, due2: real, t: u64, admission: Admission)
    requires Alike(a, b) && (!a.preset.Off? ==> admission.deadline.Some?)
    ensures Alike(Share(a, due1, t, admission, EXACT).0, Share(b, due2, t, admission, EXACT).0)
  {
    hide Immediate, ExtendTail;
  }

  lemma AdvanceAfterSample(a: Axis, t1: u64, t2: u64, admission: Admission)
    requires Coherent(a) && ValidateTimestamp(a, t1).None? && t1 <= t2
    requires Admitted(a, t2, admission)
    ensures var m := Sample(a, t1, EXACT).0;
            Alike(Advance(OpenSession(m, t2, admission), t2, EXACT).0,
                  Advance(OpenSession(a, t2, admission), t2, EXACT).0)
  {
    hide Sample, AdvanceTail, Left, Estimate, Parameters;
    var m := Sample(a, t1, EXACT).0;
    SampleFollowsCurve(a, t1);
    AdvanceNothing(t2, EXACT);
    if admission.boundary.None? && a.tail.Some? {
      CurveComposes(a.tail.value, t1, t2);
      AdvanceFollowsCurve(a.tail.value, t2);
      if m.tail.Some? {
        AdvanceFollowsCurve(m.tail.value, t2);
      }
    }
  }

  lemma AdmitIgnoresSample(a: Axis, m: Axis, t: u64, input: Points)
    requires WellFormed(a) && WellFormed(m)
    requires m == a.(tail := m.tail, ledger := m.ledger, lastTimestamp := m.lastTimestamp)
    requires ValidateTimestamp(a, t).None? && ValidateTimestamp(m, t).None?
    ensures Admit(m, t, input) == Admit(a, t, input)
  {
  }

  /** A sample on the way to an input changes neither whether the input is accepted nor the state after it. */
  lemma SampleThenInput(a: Axis, t1: u64, t2: u64, input: Points)
    requires Exact(a) && ValidateTimestamp(a, t1).None? && t1 <= t2
    ensures var m := Sample(a, t1, EXACT).0;
            var (direct, plain) := HandleInput(a, t2, input, EXACT);
            var (staged, sampled) := HandleInput(m, t2, input, EXACT);
            && (plain.Err? ==> sampled == plain)
            && (plain.Ok? ==> sampled.Ok? && Same(staged, direct))
  {
    hide Apply, Sample, Estimate, Admit;
    SampleFollowsCurve(a, t1);
    SampleIsExact(a, t1);
    var m := Sample(a, t1, EXACT).0;
    AdmitIgnoresSample(a, m, t2, input);
    if Admit(a, t2, input).Ok? {
      ApplyAfterSample(a, t1, t2, Admit(a, t2, input).value);
      ApplyIsExact(a, t2, Admit(a, t2, input).value);
      ApplyIsExact(m, t2, Admit(a, t2, input).value);
      ExactAlikeIsSame(HandleInput(m, t2, input, EXACT).0, HandleInput(a, t2, input, EXACT).0);
    }
  }

  lemma ApplyAfterSample(a: Axis, t1: u64, t2: u64, admission: Admission)
    requires Exact(a) && ValidateTimestamp(a, t1).None? && t1 <= t2
    requires Coherent(Sample(a, t1, EXACT).0)
    requires Admit(a, t2, Finite(admission.points)) == Ok(admission)
             == Admit(Sample(a, t1, EXACT).0, t2, Finite(admission.points))
    ensures var m := Sample(a, t1, EXACT).0;
            Alike(Apply(m, t2, admission, EXACT).0, Apply(a, t2, admission, EXACT).0)
  {
    hide Advance, OpenSession, Sample, RecordInput, Share, Admit, Estimate;
    var m := Sample(a, t1, EXACT).0;
    SampleFollowsCurve(a, t1);
    AdmitFacts(a, t2, admission);
    AdmitFacts(m, t2, admission);
    AdvanceAfterSample(a, t1, t2, admission);
    AdvanceKeepsMoved(a, t2, admission, EXACT);
    AdvanceKeepsMoved(m, t2, admission, EXACT);
    var (x, due1) := Advance(OpenSession(m, t2, admission), t2, EXACT);
    var (y, due2) := Advance(OpenSession(a, t2, admission), t2, EXACT);
    if admission.points != 0.0 {
      RecordRespectsSame(x, y, t2, admission);
      ShareRespectsAlike(RecordInput(x, t2, admission), RecordInput(y, t2, admission), due1, due2, t2, admission);
    }
  }

  lemma CancelIsExact(a: Axis, t: u64, reason: CancellationReason)
    requires Exact(a)
    ensures Exact(CancelExternal(a, t, reason).0)
  {
    hide Estimate, Parameters;
  }

  lemma CancelForgets(a: Axis, b: Axis, t: u64, reason: CancellationReason)
    requires Exact(a) && Exact(b) && ValidateTimestamp(a, t).None? && ValidateTimestamp(b, t).None?
    requires a == b.(tail := a.tail, ledger := a.ledger, lastTimestamp := a.lastTimestamp)
    ensures CancelExternal(a, t, reason).1.Ok? && CancelExternal(b, t, reason).1.Ok?
    ensures Same(CancelExternal(a, t, reason).0, CancelExternal(b, t, reason).0)
  {
    hide Estimate, Parameters, Left;
  }

  lemma SampleThenCancel(a: Axis, t1: u64, t2: u64, reason: CancellationReason)
    requires Exact(a) && ValidateTimestamp(a, t1).None? && t1 <= t2
    ensures var m := Sample(a, t1, EXACT).0;
            && CancelExternal(m, t2, reason).1.Ok? && CancelExternal(a, t2, reason).1.Ok?
            && Same(CancelExternal(m, t2, reason).0, CancelExternal(a, t2, reason).0)
  {
    hide Sample, CancelExternal, Estimate, Parameters, Left;
    SampleFollowsCurve(a, t1);
    SampleIsExact(a, t1);
    CancelForgets(Sample(a, t1, EXACT).0, a, t2, reason);
  }

  // ---------------------------------------------------------------------
  // Dropping the samples of a run
  // ---------------------------------------------------------------------

  function TimeOf(step: Step): u64 {
    match step
    case Input(t, _, _) => t
    case SampleAt(t, _) => t
    case CancelAt(t, _) => t
  }

  predicate IsExactStep(step: Step) {
    match step
    case Input(_, _, r) => r == EXACT
    case SampleAt(_, r) => r == EXACT
    case CancelAt(_, _) => true
  }

  /** An exact run in which no call is made with a timestamp behind the axis. */
  ghost predicate TimelyRun(preset: SmoothPreset, steps: seq<Step>)
    decreases |steps|
  {
    steps == [] ||
    var last := |steps| - 1;
    && TimelyRun(preset, steps[..last])
    && IsExactStep(steps[last])
    && ValidateTimestamp(Run(preset, steps[..last]).0, TimeOf(steps[last])).None?
  }

  /** The run's inputs and cancellations, without its samples. */
  function WithoutSamples(steps: seq<Step>): (r: seq<Step>)
    ensures forall k :: 0 <= k < |r| ==> r[k] in steps
    decreases |steps|
  {
    if steps == [] then []
    else
      var last := |steps| - 1;
      WithoutSamples(steps[..last]) + if steps[last].SampleAt? then [] else [steps[last]]
  }

  /** `b` is the axis that was never sampled: brought to `a`'s time it is `a`. */
  ghost predicate Behind(b: Axis, a: Axis) {
    if b.lastTimestamp == a.lastTimestamp then Same(a, b)
    else
      && a.lastTimestamp.Some?
      && ValidateTimestamp(b, a.lastTimestamp.value).None?
      && Same(a, Sample(b, a.lastTimestamp.value, EXACT).0)
  }

  lemma SampleNow(a: Axis)
    requires Coherent(a) && a.lastTimestamp.Some?
    ensures Same(Sample(a, a.lastTimestamp.value, EXACT).0, a)
  {
    hide Left, Estimate, Parameters;
    AdvanceNothing(a.lastTimestamp.value, EXACT);
  }

  lemma StepKeepsBehind(a: Axis, b: Axis, sumsA: Totals, sumsB: Totals, step: Step)
    requires Exact(a) && Exact(b) && Behind(b, a) && IsExactStep(step) && sumsA.accepted == sumsB.accepted
    requires ValidateTimestamp(a, TimeOf(step)).None?
    ensures var (a', totalA) := Take(a, sumsA, step);
            var (b', totalB) := if step.SampleAt? then (b, sumsB) else Take(b, sumsB, step);
            Behind(b', a') && totalA.accepted == totalB.accepted
  {
    hide HandleInput, Sample, CancelExternal, Behind, Exact, Coherent;
    match step
    case SampleAt(t, r) => SampleKeepsBehind(a, b, t);
    case Input(t, input, r) => InputKeepsBehind(a, b, t, input);
    case CancelAt(t, reason) => CancelKeepsBehind(a, b, t, reason);
  }

  lemma SampleKeepsBehind(a: Axis, b: Axis, t: u64)
    requires Exact(a) && Exact(b) && Behind(b, a) && ValidateTimestamp(a, t).None?
    ensures Behind(b, Sample(a, t, EXACT).0)
  {
    hide Sample, Left, Estimate;
    SampleConserves(a, t, EXACT);
    var m := if b.lastTimestamp == a.lastTimestamp then b else Sample(b, a.lastTimestamp.value, EXACT).0;
    if b.lastTimestamp == a.lastTimestamp {
      if b.lastTimestamp == Some(t) {
        SampleNow(a);
      }
    } else {
      SampleConserves(b, a.lastTimestamp.value, EXACT);
      SampleTwice(b, a.lastTimestamp.value, t);
    }
    SampleRespectsSame(a, m, t, EXACT);
  }

  lemma InputKeepsBehind(a: Axis, b: Axis, t: u64, input: Points)
    requires Exact(a) && Exact(b) && Behind(b, a) && ValidateTimestamp(a, t).None?
    ensures var (a', outA) := HandleInput(a, t, input, EXACT);
            var (b', outB) := HandleInput(b, t, input, EXACT);
            Behind(b', a') && (outA.Ok? <==> outB.Ok?)
  {
    hide Sample, HandleInput, Estimate;
    InputConserves(a, t, input, EXACT);
    InputConserves(b, t, input, EXACT);
    if b.lastTimestamp == a.lastTimestamp {
      InputRespectsSame(a, b, t, input, EXACT);
    } else {
      SampleConserves(b, a.lastTimestamp.value, EXACT);
      InputRespectsSame(a, Sample(b, a.lastTimestamp.value, EXACT).0, t, input, EXACT);
      SampleThenInput(b, a.lastTimestamp.value, t, input);
      SameIsTransitive(HandleInput(a, t, input, EXACT).0,
                       HandleInput(Sample(b, a.lastTimestamp.value, EXACT).0, t, input, EXACT).0,
                       HandleInput(b, t, input, EXACT).0);
    }
  }

  lemma SameIsTransitive(a: Axis, b: Axis, c: Axis)
    ensures Same(a, b) && Same(b, c) ==> Same(a, c)
  {
  }

  lemma CancelKeepsBehind(a: Axis, b: Axis, t: u64, reason: CancellationReason)
    requires Exact(a) && Exact(b) && Behind(b, a) && ValidateTimestamp(a, t).None?
    ensures Behind(CancelExternal(b, t, reason).0, CancelExternal(a, t, reason).0)
  {
    hide Sample, Estimate, Parameters;
    if b.lastTimestamp == a.lastTimestamp {
      CancelRespectsSame(a, b, t, reason);
    } else {
      SampleConserves(b, a.lastTimestamp.value, EXACT);
      CancelRespectsSame(a, Sample(b, a.lastTimestamp.value, EXACT).0, t, reason);
      SampleThenCancel(b, a.lastTimestamp.value, t, reason);
    }
  }

  lemma TakeIsExact(a: Axis, sums: Totals, step: Step)
    requires Exact(a) && IsExactStep(step)
    ensures Exact(Take(a, sums, step).0)
  {
    hide HandleInput, Sample, CancelExternal, Estimate;
    match step
    case Input(t, input, _) =>
      InputConserves(a, t, input, EXACT);
      if HandleInput(a, t, input, EXACT).1.Ok? {
        InputIsExact(a, t, input);
      }
    case SampleAt(t, _) =>
      SampleConserves(a, t, EXACT);
      if Sample(a, t, EXACT).1.Ok? {
        SampleIsExact(a, t);
      }
    case CancelAt(t, reason) => CancelIsExact(a, t, reason);
  }

  lemma {:induction false} CadenceInduction(preset: SmoothPreset, steps: seq<Step>)
    requires TimelyRun(preset, steps)
    ensures var (a, sumsA) := Run(preset, steps);
            var (b, sumsB) := Run(preset, WithoutSamples(steps));
            Exact(a) && Exact(b) && Behind(b, a) && sumsA.accepted == sumsB.accepted
    decreases |steps|
  {
    hide Take, Behind, Exact, Owed, Coherent;
    if steps != [] {
      var last := |steps| - 1;
      var prefix, step := steps[..last], steps[last];
      CadenceInduction(preset, prefix);
      var (a, sumsA) := Run(preset, prefix);
      var (b, sumsB) := Run(preset, WithoutSamples(prefix));
      StepKeepsBehind(a, b, sumsA, sumsB, step);
      TakeIsExact(a, sumsA, step);
      TakeIsExact(b, sumsB, step);
      var shorter := WithoutSamples(steps);
      if step.SampleAt? {
        assert shorter == WithoutSamples(prefix);
      } else {
        assert shorter == WithoutSamples(prefix) + [step];
        assert shorter[..|shorter| - 1] == WithoutSamples(prefix);
      }
    } else {
      FreshIsBehindItself(preset);
    }
  }

  lemma FreshIsBehindItself(preset: SmoothPreset)
    ensures Exact(Fresh(preset)) && Behind(Fresh(preset), Fresh(preset))
  {
  }

  /** Samples taken during a run, however many and whenever, are invisible afterwards: at any later time
      `t` the axis is the one that saw only the inputs and cancellations, the same inputs were accepted,
      and the emitted and canceled points add up to the same total. */
  lemma CadenceIsInvisible(preset: SmoothPreset, steps: seq<Step>, t: u64)
    requires TimelyRun(preset, steps) && ValidateTimestamp(Run(preset, steps).0, t).None?
    ensures var (a, sumsA) := Run(preset, steps + [SampleAt(t, EXACT)]);
            var (b, sumsB) := Run(preset, WithoutSamples(steps) + [SampleAt(t, EXACT)]);
            && Same(a, b)
            && sumsA.accepted == sumsB.accepted
            && sumsA.emitted + sumsA.canceled == sumsB.emitted + sumsB.canceled
  {
    hide Run, Sample, Behind, Exact;
    CadenceInduction(preset, steps);
    var shorter := WithoutSamples(steps);
    RunEndsWithSample(preset, steps, t);
    RunEndsWithSample(preset, shorter, t);
    BehindMeets(Run(preset, steps).0, Run(preset, shorter).0, t);
  }

  lemma RunEndsWithSample(preset: SmoothPreset, steps: seq<Step>, t: u64)
    ensures var (a, sums) := Run(preset, steps);
            Run(preset, steps + [SampleAt(t, EXACT)]) == Take(a, sums, SampleAt(t, EXACT))
  {
    hide Take;
    assert (steps + [SampleAt(t, EXACT)])[..|steps|] == steps;
  }

  lemma BehindMeets(a: Axis, b: Axis, t: u64)
    requires Exact(a) && Exact(b) && Behind(b, a) && ValidateTimestamp(a, t).None?
    ensures Same(Sample(a, t, EXACT).0, Sample(b, t, EXACT).0)
  {
    hide Sample, Left, Estimate;
    if b.lastTimestamp == a.lastTimestamp {
      SampleRespectsSame(a, b, t, EXACT);
    } else {
      SampleConserves(b, a.lastTimestamp.value, EXACT);
      SampleRespectsSame(a, Sample(b, a.lastTimestamp.value, EXACT).0, t, EXACT);
      SampleTwice(b, a.lastTimestamp.value, t);
    }
  }

  // ---------------------------------------------------------------------
  // Sessions
  // ---------------------------------------------------------------------

  /** What the current session accepted and emitted so far. */
  datatype SessionTotals = SessionTotals(accepted: real, emitted: real)

  ghost function TakeInSession(a: Axis, sums: SessionTotals, step: Step): (Axis, SessionTotals)
    requires WellFormed(a)
  {
    match step
    case Input(t, points, r) =>
      var (after, outcome) := HandleInput(a, t, points, r);
      if outcome.Err? || points.NonFinite? then (after, sums)
      else if after.generation != a.generation
      then (after, SessionTotals(points.value, outcome.value.deltaPoints))
      else (after, SessionTotals(sums.accepted + points.value, sums.emitted + outcome.value.deltaPoints))
    case SampleAt(t, r) =>
      var (after, outcome) := Sample(a, t, r);
      if outcome.Err? then (after, sums) else (after, sums.(emitted := sums.emitted + outcome.value.deltaPoints))
    case CancelAt(t, reason) =>
      var (after, outcome) := CancelExternal(a, t, reason);
      if outcome.Err? then (after, sums) else (after, SessionTotals(0.0, 0.0))
  }

  ghost predicate WithinSession(a: Axis, sums: SessionTotals) {
    && Exact(a)
    && sums.accepted == sums.emitted + a.Momentum()
    && 0.0 <= Along(a.direction, sums.emitted)
    && (a.direction == 0 ==> sums.emitted == 0.0)
  }

  lemma TakeStaysWithinSession(a: Axis, sums: SessionTotals, step: Step)
    requires WithinSession(a, sums) && IsExactStep(step)
    ensures var (after, total) := TakeInSession(a, sums, step);
            WithinSession(after, total)
  {
    hide HandleInput, Sample, CancelExternal, Estimate, Parameters;
    match step
    case Input(t, input, _) =>
      InputConserves(a, t, input, EXACT);
      if HandleInput(a, t, input, EXACT).1.Ok? {
        InputIsExact(a, t, input);
        InputStaysInSession(a, t, input);
      }
    case SampleAt(t, _) =>
      SampleConserves(a, t, EXACT);
      if Sample(a, t, EXACT).1.Ok? {
        SampleIsExact(a, t);
      }
    case CancelAt(t, reason) =>
      CancelIsExact(a, t, reason);
      if CancelExternal(a, t, reason).1.Ok? {
        CancelEndsSession(a, t, reason);
      } else {
        CancelConserves(a, t, reason);
      }
  }

  /** Within a session the direction never changes. */
  lemma InputStaysInSession(a: Axis, t: u64, input: Points)
    requires Exact(a) && HandleInput(a, t, input, EXACT).1.Ok?
    ensures var after := HandleInput(a, t, input, EXACT).0;
            after.generation == a.generation ==> after.direction == a.direction
  {
    hide Apply, Estimate;
    var admission := Admit(a, t, input).value;
    AdmitFacts(a, t, admission);
    ApplyIsExact(a, t, admission);
  }

  lemma CancelEndsSession(a: Axis, t: u64, reason: CancellationReason)
    requires Coherent(a) && CancelExternal(a, t, reason).1.Ok?
    ensures var after := CancelExternal(a, t, reason).0;
            after.direction == 0 && after.Momentum() == 0.0
  {
    hide Estimate, Parameters;
  }

  ghost function SessionRun(preset: SmoothPreset, steps: seq<Step>): (result: (Axis, SessionTotals))
    requires forall k :: 0 <= k < |steps| ==> IsExactStep(steps[k])
    ensures WithinSession(result.0, result.1)
    decreases |steps|
  {
    if steps == [] then (Fresh(preset), SessionTotals(0.0, 0.0))
    else
      var last := |steps| - 1;
      var (a, sums) := SessionRun(preset, steps[..last]);
      TakeStaysWithinSession(a, sums, steps[last]);
      TakeInSession(a, sums, steps[last])
  }

  /** After any run, the current session's output has its direction and never exceeds what the session
      accepted; the difference is exactly the pending momentum. */
  lemma SessionNeverOvershoots(preset: SmoothPreset, steps: seq<Step>)
    requires forall k :: 0 <= k < |steps| ==> IsExactStep(steps[k])
    ensures var (a, sums) := SessionRun(preset, steps);
            && 0.0 <= Along(a.direction, sums.emitted) <= Along(a.direction, sums.accepted)
            && sums.accepted - sums.emitted == a.Momentum()
  {
    hide SessionRun, Coherent;
    var (a, sums) := SessionRun(preset, steps);
  }

  // ---------------------------------------------------------------------
  // The cadence within a session
  // ---------------------------------------------------------------------

  ghost predicate AllExact(steps: seq<Step>)
    ensures AllExact(steps) ==>
      && (forall k :: 0 <= k < |steps| ==> IsExactStep(steps[k]))
      && (forall k :: 0 <= k < |WithoutSamples(steps)| ==> IsExactStep(WithoutSamples(steps)[k]))
  {
    forall k :: 0 <= k < |steps| ==> IsExactStep(steps[k])
  }

  lemma BehindSharesSession(a: Axis, b: Axis)
    requires Coherent(b) && Behind(b, a)
    ensures b.generation == a.generation
    ensures b.lastTimestamp.Some? && a.lastTimestamp.Some? ==> b.lastTimestamp.value <= a.lastTimestamp.value
    ensures b.lastTimestamp.Some? ==> a.lastTimestamp.Some?
  {
    hide Sample;
    if b.lastTimestamp != a.lastTimestamp {
      SampleConserves(b, a.lastTimestamp.value, EXACT);
    }
  }

  lemma StepKeepsSessions(a: Axis, b: Axis, sumsA: SessionTotals, sumsB: SessionTotals, step: Step)
    requires Exact(a) && Exact(b) && Behind(b, a) && IsExactStep(step) && sumsA.accepted == sumsB.accepted
    requires ValidateTimestamp(a, TimeOf(step)).None?
    ensures TakeInSession(a, sumsA, step).1.accepted ==
      if step.SampleAt? then sumsB.accepted else TakeInSession(b, sumsB, step).1.accepted
  {
    hide HandleInput, Sample, Behind, Coherent;
    BehindSharesSession(a, b);
    match step
    case SampleAt(t, r) =>
    case Input(t, input, r) =>
      InputKeepsBehind(a, b, t, input);
      InputConserves(a, t, input, EXACT);
      InputConserves(b, t, input, EXACT);
      BehindSharesSession(HandleInput(a, t, input, EXACT).0, HandleInput(b, t, input, EXACT).0);
    case CancelAt(t, reason) =>
      CancelAnswers(a, t, reason);
      CancelAnswers(b, t, reason);
  }

  lemma CancelAnswers(a: Axis, t: u64, reason: CancellationReason)
    ensures CancelExternal(a, t, reason).1.Ok? <==> ValidateTimestamp(a, t).None?
  {
  }

  lemma {:induction false} SessionsAgree(preset: SmoothPreset, steps: seq<Step>)
    requires TimelyRun(preset, steps) && AllExact(steps)
    ensures SessionRun(preset, steps).0 == Run(preset, steps).0
    ensures SessionRun(preset, WithoutSamples(steps)).0 == Run(preset, WithoutSamples(steps)).0
    ensures SessionRun(preset, steps).1.accepted == SessionRun(preset, WithoutSamples(steps)).1.accepted
    decreases |steps|
  {
    hide Take, TakeInSession, Behind, Exact, WithinSession;
    if steps == [] {
    } else {
      var last := |steps| - 1;
      var prefix, step := steps[..last], steps[last];
      SessionsAgree(preset, prefix);
      CadenceInduction(preset, prefix);
      var a, b := Run(preset, prefix).0, Run(preset, WithoutSamples(prefix)).0;
      var sumsA, sumsB := SessionRun(preset, prefix).1, SessionRun(preset, WithoutSamples(prefix)).1;
      StepKeepsSessions(a, b, sumsA, sumsB, step);
      SameAxis(a, Run(preset, prefix).1, sumsA, step);
      SameAxis(b, Run(preset, WithoutSamples(prefix)).1, sumsB, step);
      var shorter := WithoutSamples(steps);
      if step.SampleAt? {
        assert shorter == WithoutSamples(prefix);
      } else {
        assert shorter == WithoutSamples(prefix) + [step];
        assert shorter[..|shorter| - 1] == WithoutSamples(prefix);
      }
    }
  }

  lemma SameAxis(a: Axis, sums: Totals, session: SessionTotals, step: Step)
    requires WellFormed(a)
    ensures Take(a, sums, step).0 == TakeInSession(a, session, step).0
  {
    hide HandleInput, Sample, CancelExternal;
  }

  lemma SessionEndsWithSample(preset: SmoothPreset, steps: seq<Step>, t: u64)
    requires AllExact(steps)
    ensures AllExact(steps + [SampleAt(t, EXACT)])
    ensures var (a, sums) := SessionRun(preset, steps);
            SessionRun(preset, steps + [SampleAt(t, EXACT)]) == TakeInSession(a, sums, SampleAt(t, EXACT))
  {
    hide TakeInSession, WithinSession;
    assert (steps + [SampleAt(t, EXACT)])[..|steps|] == steps;
  }

  lemma SampleAcceptsNothing(a: Axis, sums: SessionTotals, t: u64)
    requires WellFormed(a)
    ensures TakeInSession(a, sums, SampleAt(t, EXACT)).0 == Sample(a, t, EXACT).0
    ensures TakeInSession(a, sums, SampleAt(t, EXACT)).1.accepted == sums.accepted
  {
    hide Sample;
  }

  /** The axis and what its session accepted decide what the session emitted. */
  lemma AcceptedDecidesEmitted(a: Axis, b: Axis, sumsA: SessionTotals, sumsB: SessionTotals)
    requires WithinSession(a, sumsA) && WithinSession(b, sumsB) && Same(a, b) && sumsA.accepted == sumsB.accepted
    ensures sumsA == sumsB
  {
  }

  /** Within the current session not even the totals differ: sampled often, seldom or not at all on the
      way, at any later time `t` it has accepted the same and emitted the same. */
  lemma SessionOutputIgnoresCadence(preset: SmoothPreset, steps: seq<Step>, t: u64)
    requires TimelyRun(preset, steps) && AllExact(steps) && ValidateTimestamp(Run(preset, steps).0, t).None?
    ensures AllExact(steps + [SampleAt(t, EXACT)]) && AllExact(WithoutSamples(steps) + [SampleAt(t, EXACT)])
    ensures SessionRun(preset, steps + [SampleAt(t, EXACT)]).1 ==
            SessionRun(preset, WithoutSamples(steps) + [SampleAt(t, EXACT)]).1
  {
    hide Run, Sample, Behind, Exact, SessionRun, TakeInSession, Same, WithinSession, AllExact, IsExactStep,
         WithoutSamples;
    var shorter := WithoutSamples(steps);
    StaysExact(steps);
    SessionsAgree(preset, steps);
    CadenceInduction(preset, steps);
    SessionEndsWithSample(preset, steps, t);
    SessionEndsWithSample(preset, shorter, t);
    var (a, sumsA) := SessionRun(preset, steps);
    var (b, sumsB) := SessionRun(preset, shorter);
    BehindMeets(a, b, t);
    SampleAcceptsNothing(a, sumsA, t);
    SampleAcceptsNothing(b, sumsB, t);
    AcceptedDecidesEmitted(Sample(a, t, EXACT).0, Sample(b, t, EXACT).0,
                           SessionRun(preset, steps + [SampleAt(t, EXACT)]).1,
                           SessionRun(preset, shorter + [SampleAt(t, EXACT)]).1);
  }

  lemma StaysExact(steps: seq<Step>)
    requires AllExact(steps)
    ensures AllExact(WithoutSamples(steps))
  {
  }

  // ---------------------------------------------------------------------
  // Nothing of a canceled tail is emitted
  // ---------------------------------------------------------------------

  /** The visible answer to one step: the points emitted or canceled, or the refusal. */
  ghost function Answer(a: Axis, step: Step): Result<real, DynamicsError>
    requires WellFormed(a)
  {
    match step
    case Input(t, points, r) =>
      var outcome := HandleInput(a, t, points, r).1;
      if outcome.Err? then Err(outcome.error) else Ok(outcome.value.deltaPoints)
    case SampleAt(t, r) =>
      var outcome := Sample(a, t, r).1;
      if outcome.Err? then Err(outcome.error) else Ok(outcome.value.deltaPoints)
    case CancelAt(t, reason) => CancelExternal(a, t, reason).1
  }

  ghost function Answers(a: Axis, steps: seq<Step>): seq<Result<real, DynamicsError>>
    requires Coherent(a)
    decreases |steps|
  {
    if steps == [] then []
    else
      TakeIsCoherent(a, steps[0]);
      [Answer(a, steps[0])] + Answers(Take(a, NOTHING, steps[0]).0, steps[1..])
  }

  lemma TakeIsCoherent(a: Axis, step: Step)
    requires Coherent(a)
    ensures Coherent(Take(a, NOTHING, step).0)
  {
    hide HandleInput, Sample, CancelExternal;
    match step
    case Input(t, points, r) => InputConserves(a, t, points, r);
    case SampleAt(t, r) => SampleConserves(a, t, r);
    case CancelAt(t, reason) => CancelConserves(a, t, reason);
  }

  lemma {:induction false} SameAnswers(a: Axis, b: Axis, steps: seq<Step>)
    requires Coherent(a) && Coherent(b) && Same(a, b)
    ensures Answers(a, steps) == Answers(b, steps)
    decreases |steps|
  {
    if steps == [] {
    } else {
      TakeIsCoherent(a, steps[0]);
      TakeIsCoherent(b, steps[0]);
      StepRespectsSame(a, b, steps[0]);
      SameAnswers(Take(a, NOTHING, steps[0]).0, Take(b, NOTHING, steps[0]).0, steps[1..]);
    }
  }

  lemma StepRespectsSame(a: Axis, b: Axis, step: Step)
    requires Coherent(a) && Coherent(b) && Same(a, b)
    ensures Answer(a, step) == Answer(b, step) && Same(Take(a, NOTHING, step).0, Take(b, NOTHING, step).0)
  {
    hide HandleInput, Sample, CancelExternal, Same, Coherent;
    match step
    case Input(t, points, r) => InputRespectsSame(a, b, t, points, r);
    case SampleAt(t, r) => SampleRespectsSame(a, b, t, r);
    case CancelAt(t, reason) => CancelRespectsSame(a, b, t, reason);
  }

  /** Two axes that agree on session, timestamps and direction, whatever their tails, ledgers and rate
      windows hold. */
  ghost predicate AgreeOnSession(a: Axis, b: Axis) {
    b == a.(lastInputDelta := b.lastInputDelta, window := b.window, velocity := b.velocity,
            lastBoundary := b.lastBoundary, lastCancellation := b.lastCancellation, tail := b.tail, ledger := b.ledger)
  }

  /** After a reversal or a long gap nothing of the old tail is ever emitted, under any rounding: the
      input that starts the new session, and everything asked of the axis afterwards, is answered
      independently of the old tail, ledger and rate window. */
  lemma StaleTailIsNeverEmitted(a: Axis, b: Axis, t: u64, input: Points, r: Rounding, steps: seq<Step>)
    requires Coherent(a) && Coherent(b) && AgreeOnSession(a, b)
    requires HandleInput(a, t, input, r).1.Ok? && input.Finite?
    requires Boundary(a, t, Direction(input.value)) in {Some(DirectionChange), Some(LongGap)}
    ensures Answers(a, [Input(t, input, r)] + steps) == Answers(b, [Input(t, input, r)] + steps)
  {
    hide HandleInput, Answer, Take, Boundary;
    var first := Input(t, input, r);
    BoundaryForgets(a, b, t, input, r);
    TakeIsCoherent(a, first);
    TakeIsCoherent(b, first);
    TakeInput(a, t, input, r);
    TakeInput(b, t, input, r);
    var all := [first] + steps;
    assert all[0] == first && all[1..] == steps;
    SameAnswers(Take(a, NOTHING, first).0, Take(b, NOTHING, first).0, steps);
  }

  lemma TakeInput(a: Axis, t: u64, input: Points, r: Rounding)
    requires WellFormed(a)
    ensures Take(a, NOTHING, Input(t, input, r)).0 == HandleInput(a, t, input, r).0
    ensures var outcome := HandleInput(a, t, input, r).1;
            Answer(a, Input(t, input, r)) == if outcome.Err? then Err(outcome.error) else Ok(outcome.value.deltaPoints)
  {
    hide HandleInput;
  }

  lemma BoundaryForgets(a: Axis, b: Axis, t: u64, input: Points, r: Rounding)
    requires Coherent(a) && Coherent(b) && AgreeOnSession(a, b)
    requires HandleInput(a, t, input, r).1.Ok? && input.Finite?
    requires Boundary(a, t, Direction(input.value)) in {Some(DirectionChange), Some(LongGap)}
    ensures HandleInput(a, t, input, r).1 == HandleInput(b, t, input, r).1
    ensures Same(HandleInput(a, t, input, r).0, HandleInput(b, t, input, r).0)
  {
    hide Apply, Estimate;
    assert Admit(a, t, input) == Admit(b, t, input);
    var admission := Admit(a, t, input).value;
    AdmitFacts(a, t, admission);
    OpenSessionForgets(a, b, t, admission);
    ApplyForgets(a, b, t, admission, r);
  }

  lemma OpenSessionForgets(a: Axis, b: Axis, t: u64, admission: Admission)
    requires Coherent(a) && Coherent(b) && AgreeOnSession(a, b) && Admitted(a, t, admission)
    requires admission.boundary in {Some(DirectionChange), Some(LongGap)}
    ensures var (x, y) := (OpenSession(a, t, admission), OpenSession(b, t, admission));
            x == y.(lastCancellation := x.lastCancellation)
  {
  }

  lemma ApplyForgets(a: Axis, b: Axis, t: u64, admission: Admission, r: Rounding)
    requires Coherent(a) && Coherent(b)
    requires Admit(a, t, Finite(admission.points)) == Ok(admission) == Admit(b, t, Finite(admission.points))
    requires admission.boundary.Some?
    requires var (x, y) := (OpenSession(a, t, admission), OpenSession(b, t, admission));
             x == y.(lastCancellation := x.lastCancellation)
    ensures Apply(a, t, admission, r).1 == Apply(b, t, admission, r).1
    ensures Same(Apply(a, t, admission, r).0, Apply(b, t, admission, r).0)
  {
    hide AdvanceTail, RecordInput, Share, FinishEmission, OpenSession, Admit, Estimate, Parameters;
    AdmitFacts(a, t, admission);
    OpenSessionSettles(a, t, admission);
    OpenSessionSettles(b, t, admission);
    var (x, due) := Advance(OpenSession(a, t, admission), t, r);
    var (y, _) := Advance(OpenSession(b, t, admission), t, r);
    RecordRespectsSame(x, y, t, admission);
    ShareRespectsSame(RecordInput(x, t, admission), RecordInput(y, t, admission), due, t, admission, r);
  }
}
