/** What the rate window and the reported velocity are over a whole run. */
module WindowLaws {
  import opened Prelude
  import opened Preset
  import opened Rate
  import opened AxisModel
  import opened AxisLaws

  /** The normalized intervals between the accepted non-zero inputs of the current session. */
  ghost function TakeIntervals(a: Axis, history: Window, step: Step): Window
    requires WellFormed(a)
  {
    match step
    case SampleAt(_, _) => history
    case CancelAt(t, reason) => if CancelExternal(a, t, reason).1.Ok? then [] else history
    case Input(t, points, r) =>
      var (after, outcome) := HandleInput(a, t, points, r);
      if outcome.Err? || points == Finite(0.0) then history
      else if after.generation != a.generation || a.lastInput.None? then []
      else
        var delta := NormalizeInputDelta(a.lastInput.value, t);
        if delta.Some? then history + [delta.value.usedUs] else history
  }

  ghost function SessionIntervals(preset: SmoothPreset, steps: seq<Step>): Window
    decreases |steps|
  {
    if steps == [] then []
    else
      var last := |steps| - 1;
      TakeIntervals(Run(preset, steps[..last]).0, SessionIntervals(preset, steps[..last]), steps[last])
  }

  lemma ApplyWindow(a: Axis, t: u64, admission: Admission, r: Rounding)
    requires Coherent(a) && Admit(a, t, Finite(admission.points)) == Ok(admission)
    ensures var after := Apply(a, t, admission, r).0;
            var base := if admission.boundary.Some? then [] else a.window;
            && (admission.points == 0.0 ==>
                  after == a.(tail := after.tail, ledger := after.ledger, lastTimestamp := Some(t)))
            && (admission.points != 0.0 ==>
                  && after.window ==
                       (if admission.inputDelta.Some? then Push(base, admission.inputDelta.value.usedUs) else base)
                  && after.velocity == Velocity(admission.points, Estimate(after.window)))
  {
    hide AdvanceTail, Share, Admit, Estimate, Velocity, Parameters;
    AdmitFacts(a, t, admission);
    OpenSessionSettles(a, t, admission);
    var (moved, due) := Advance(OpenSession(a, t, admission), t, r);
    if admission.points != 0.0 {
      AdvanceKeepsMoved(a, t, admission, r);
      RecordKeepsMoved(moved, t, admission);
      ShareKeepsCoherence(RecordInput(moved, t, admission), due, t, admission, r);
    }
  }

  lemma InputKeepsLatest(a: Axis, history: Window, t: u64, input: Points, r: Rounding)
    requires Coherent(a) && a.window == Latest(history) && HandleInput(a, t, input, r).1.Ok? && input.Finite?
    ensures var after := HandleInput(a, t, input, r).0;
            && after.window == Latest(TakeIntervals(a, history, Input(t, input, r)))
            && (input.value != 0.0 ==> after.velocity == Velocity(input.value, Estimate(after.window)))
  {
    hide Apply, Estimate, Velocity, Latest;
    var admission := Admit(a, t, input).value;
    AdmitFacts(a, t, admission);
    AdmitDeltaFacts(a, t, admission);
    ApplyWindow(a, t, admission, r);
    ApplyKeepsCoherence(a, t, admission, r);
    LatestOfNothing();
    if admission.inputDelta.Some? {
      PushLatest(history, admission.inputDelta.value.usedUs);
    }
  }

  lemma AdmitDeltaFacts(a: Axis, t: u64, admission: Admission)
    requires WellFormed(a) && Admit(a, t, Finite(admission.points)) == Ok(admission)
    ensures admission.inputDelta ==
      if admission.points == 0.0 || admission.boundary.Some? || a.lastInput.None? then None
                                    else NormalizeInputDelta(a.lastInput.value, t)
  {
  }

  lemma LatestOfNothing()
    ensures Latest([]) == []
  {
  }

  lemma PushLatest(history: Window, interval: int)
    ensures Push(Latest(history), interval) == Latest(history + [interval])
  {
  }

  lemma TakeKeepsLatest(a: Axis, sums: Totals, history: Window, step: Step)
    requires Coherent(a) && a.window == Latest(history)
    ensures Take(a, sums, step).0.window == Latest(TakeIntervals(a, history, step))
  {
    hide HandleInput, Sample, CancelExternal, Latest;
    LatestOfNothing();
    match step
    case Input(t, input, r) =>
      InputConserves(a, t, input, r);
      if HandleInput(a, t, input, r).1.Ok? {
        InputKeepsLatest(a, history, t, input, r);
      }
    case SampleAt(t, r) => SampleConserves(a, t, r);
    case CancelAt(t, reason) =>
      CancelConserves(a, t, reason);
      CancelClearsWindow(a, t, reason);
  }

  lemma CancelClearsWindow(a: Axis, t: u64, reason: CancellationReason)
    requires WellFormed(a)
    ensures CancelExternal(a, t, reason).1.Ok? ==> CancelExternal(a, t, reason).0.window == []
  {
    hide Estimate;
  }

  /** After any run the window holds exactly the newest eight (or fewer) normalized intervals between
      the inputs of the current session: sessions, zero inputs, samples and refusals leave no trace. */
  lemma {:induction false} WindowHoldsSession(preset: SmoothPreset, steps: seq<Step>)
    ensures Run(preset, steps).0.window == Latest(SessionIntervals(preset, steps))
    decreases |steps|
  {
    hide Take, TakeIntervals, Latest;
    if steps == [] {
      LatestOfNothing();
    } else {
      var last := |steps| - 1;
      WindowHoldsSession(preset, steps[..last]);
      var (a, sums) := Run(preset, steps[..last]);
      TakeKeepsLatest(a, sums, SessionIntervals(preset, steps[..last]), steps[last]);
    }
  }
}
