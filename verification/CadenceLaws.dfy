/** Exact arithmetic: the output curve of an axis does not depend on when it is sampled. */
module CadenceLaws {
  import opened Prelude
  import opened Preset
  import opened Rate
  import opened AxisModel
  import opened AxisLaws

  // ---------------------------------------------------------------------
  // The curve
  // ---------------------------------------------------------------------

  function Part(p: real, share: real, whole: real): real
    requires 0.0 < whole
  {
    p * share / whole
  }

  /** The ideal curve: what is left of a tail at `t`, falling linearly to zero at the deadline. */
  function Left(tail: Tail, t: u64): real
    requires tail.lastSampleUs < tail.deadlineUs
  {
    if t >= tail.deadlineUs then 0.0
    else Part(tail.pendingPoints, (tail.deadlineUs - t) as real, (tail.deadlineUs - tail.lastSampleUs) as real)
  }

  /** The tail survives until what is left reaches the stop threshold. */
  predicate Alive(tail: Tail, t: u64)
    requires tail.lastSampleUs < tail.deadlineUs
  {
    t < tail.deadlineUs && Abs(Left(tail, t)) > 0.25
  }

  lemma DueLeavesLeft(tail: Tail, t: u64)
    requires tail.lastSampleUs < t < tail.deadlineUs
    ensures tail.pendingPoints - DueShare(tail, t) == Left(tail, t)
  {
    var p := tail.pendingPoints;
    var span, elapsed := (tail.deadlineUs - tail.lastSampleUs) as real, (t - tail.lastSampleUs) as real;
    assert (tail.deadlineUs - t) as real == span - elapsed;
    Complement(p, elapsed, span);
  }

  lemma Complement(p: real, elapsed: real, span: real)
    requires 0.0 < span
    ensures p - p * (elapsed / span) == p * (span - elapsed) / span
  {
    assert p * (elapsed / span) * span == p * elapsed;
    assert (p - p * (elapsed / span)) * span == p * (span - elapsed);
  }

  lemma NothingElapsed(tail: Tail)
    requires tail.lastSampleUs < tail.deadlineUs
    ensures Left(tail, tail.lastSampleUs) == tail.pendingPoints
  {
    WholeShare(tail.pendingPoints, (tail.deadlineUs - tail.lastSampleUs) as real);
  }

  lemma WholeShare(p: real, whole: real)
    requires 0.0 < whole
    ensures Part(p, whole, whole) == p
  {
  }

  /** Advancing the tail follows the curve: the tail holds what is left, and the rest has come due. */
  lemma AdvanceFollowsCurve(tail: Tail, t: u64)
    requires tail.lastSampleUs < tail.deadlineUs && tail.lastSampleUs <= t
    requires Abs(tail.pendingPoints) > STOP_THRESHOLD_POINTS
    ensures var (next, due) := AdvanceTail(Some(tail), t, EXACT);
            if Alive(tail, t)
            then next == Some(Tail(Left(tail, t), t, tail.deadlineUs)) && due == tail.pendingPoints - Left(tail, t)
            else next == None && due == tail.pendingPoints
  {
    hide Left, DueShare;
    NothingElapsed(tail);
    if tail.lastSampleUs < t < tail.deadlineUs {
      DueLeavesLeft(tail, t);
    }
  }

  lemma PartOfPart(p: real, a: real, b: real, c: real)
    requires 0.0 < b && 0.0 < c
    ensures Part(Part(p, b, c), a, b) == Part(p, a, c)
  {
    assert p * b / c == (p / c) * b;
    assert (p / c) * b * a / b == (p / c) * a;
  }

  lemma PartIsSmaller(p: real, a: real, b: real)
    requires 0.0 <= a <= b && 0.0 < b
    ensures Abs(Part(p, a, b)) <= Abs(p)
    ensures 0.0 <= p ==> 0.0 <= Part(p, a, b)
    ensures p <= 0.0 ==> Part(p, a, b) <= 0.0
  {
    hide Part;
    var share := PartIsShare(p, a, b);
    Between(p, share);
  }

  /** A part is the share of the whole. */
  lemma PartIsShare(p: real, a: real, b: real) returns (share: real)
    requires 0.0 <= a <= b && 0.0 < b
    ensures 0.0 <= share <= 1.0 && Part(p, a, b) == p * share
  {
    share := a / b;
    assert share * b == a;
    CancelFactor(share, 1.0, b);
    CancelFactor(0.0, share, b);
    Divided(p, share, a, b);
  }

  lemma Divided(p: real, share: real, a: real, b: real)
    requires 0.0 < b && share * b == a
    ensures p * a / b == p * share
  {
    assert p * a == p * share * b;
  }

  lemma Between(p: real, share: real)
    requires 0.0 <= share <= 1.0
    ensures 0.0 <= p ==> 0.0 <= p * share <= p
    ensures p <= 0.0 ==> p <= p * share <= 0.0
  {
  }

  lemma CancelFactor(x: real, y: real, b: real)
    requires 0.0 < b && x * b <= y * b
    ensures x <= y
  {
  }

  /** Following the curve in two stages is following it in one, including its early end. */
  lemma CurveComposes(tail: Tail, t1: u64, t2: u64)
    requires tail.lastSampleUs < tail.deadlineUs && t1 <= t2
    ensures Alive(tail, t2) ==> Alive(tail, t1)
    ensures Alive(tail, t1) ==> Left(Tail(Left(tail, t1), t1, tail.deadlineUs), t2) == Left(tail, t2)
  {
    hide Part;
    if t2 < tail.deadlineUs {
      var (a, b) := ((tail.deadlineUs - t2) as real, (tail.deadlineUs - t1) as real);
      PartOfPart(tail.pendingPoints, a, b, (tail.deadlineUs - tail.lastSampleUs) as real);
      PartIsSmaller(Left(tail, t1), a, b);
    }
  }

  // ---------------------------------------------------------------------
  // Sampling
  // ---------------------------------------------------------------------

  lemma AdvanceNothing(t: u64, r: Rounding)
    ensures AdvanceTail(None, t, r) == (None, 0.0)
  {
  }

  /** What a sample at `t` makes of a coherent axis, in terms of the curve. */
  lemma SampleFollowsCurve(a: Axis, t: u64)
    requires Coherent(a) && ValidateTimestamp(a, t).None?
    ensures var (after, outcome) := Sample(a, t, EXACT);
            && outcome.Ok?
            && Coherent(after)
            && Owed(a) == outcome.value.deltaPoints + Owed(after)
            && after == a.(tail := after.tail, ledger := after.ledger, lastTimestamp := Some(t))
            && (if a.tail.Some? && Alive(a.tail.value, t)
                then
                  && after.tail == Some(Tail(Left(a.tail.value, t), t, a.tail.value.deadlineUs))
                  && after.ledger.accepted == a.ledger.accepted
                  && outcome.value.deltaPoints == a.tail.value.pendingPoints - Left(a.tail.value, t)
                  && after.ledger.emitted == a.ledger.emitted + outcome.value.deltaPoints
                else after.tail.None?)
  {
    hide AdvanceTail, Left, Estimate;
    AdvanceNothing(t, EXACT);
    SampleConserves(a, t, EXACT);
    if a.tail.Some? {
      AdvanceFollowsCurve(a.tail.value, t);
      assert Advance(a, t, EXACT).0.tail == AdvanceTail(a.tail, t, EXACT).0;
    }
  }

  /** Two samples leave the state and the summed output of one. */
  lemma SampleTwice(a: Axis, t1: u64, t2: u64)
    requires Coherent(a) && ValidateTimestamp(a, t1).None? && t1 <= t2
    ensures var (mid, first) := Sample(a, t1, EXACT);
            var (after, second) := Sample(mid, t2, EXACT);
            var (direct, once) := Sample(a, t2, EXACT);
            && first.Ok? && second.Ok? && once.Ok?
            && after == direct
            && first.value.deltaPoints + second.value.deltaPoints == once.value.deltaPoints
  {
    hide Sample, Left, Estimate;
    SampleFollowsCurve(a, t1);
    SampleFollowsCurve(Sample(a, t1, EXACT).0, t2);
    SampleFollowsCurve(a, t2);
    if a.tail.Some? {
      CurveComposes(a.tail.value, t1, t2);
    }
  }

  ghost predicate Nondecreasing(times: seq<u64>) {
    forall i :: 0 < i < |times| ==> times[i - 1] <= times[i]
  }

  /** Samples at each time in turn, summing the emissions. */
  ghost function SampleAll(a: Axis, times: seq<u64>): (Axis, real)
    decreases |times|
  {
    if times == [] then (a, 0.0)
    else
      var (next, outcome) := Sample(a, times[0], EXACT);
      var (after, rest) := SampleAll(next, times[1..]);
      (after, (if outcome.Ok? then outcome.value.deltaPoints else 0.0) + rest)
  }

  /** Any nondecreasing schedule ending at `t` leaves exactly the state of the single sample at `t`,
      ledger included, and sums to its output. */
  lemma {:induction false} SamplingScheduleIsInvisible(a: Axis, times: seq<u64>)
    requires Coherent(a) && times != [] && Nondecreasing(times) && ValidateTimestamp(a, times[0]).None?
    ensures var (after, outcome) := Sample(a, times[|times| - 1], EXACT);
            outcome.Ok? && SampleAll(a, times) == (after, outcome.value.deltaPoints)
    decreases |times|
  {
    hide Sample, Left;
    var (mid, first) := Sample(a, times[0], EXACT);
    SampleFollowsCurve(a, times[0]);
    if |times| == 1 {
      assert SampleAll(mid, times[1..]) == (mid, 0.0);
    } else {
      SamplingScheduleIsInvisible(mid, times[1..]);
      NondecreasingOrders(times, 0, |times| - 1);
      SampleTwice(a, times[0], times[|times| - 1]);
    }
  }

  lemma {:induction false} NondecreasingOrders(times: seq<u64>, i: nat, j: nat)
    requires Nondecreasing(times) && i <= j < |times|
    ensures times[i] <= times[j]
    decreases j
  {
    if i < j {
      NondecreasingOrders(times, i, j - 1);
    }
  }

  // ---------------------------------------------------------------------
  // Whole runs
  // ---------------------------------------------------------------------

  /** Equal but for the ledger's running sums and the amount the last cancellation reported: the same
      tail, the same input tracking, the same session, and the same points owed. */
  ghost predicate Same(a: Axis, b: Axis) {
    && a == b.(ledger := a.ledger, lastCancellation := a.lastCancellation)
    && Owed(a) == Owed(b)
  }

  lemma SampleRespectsSame(a: Axis, b: Axis, t: u64, r: Rounding)
    requires Coherent(a) && Coherent(b) && Same(a, b)
    ensures Same(Sample(a, t, r).0, Sample(b, t, r).0)
    ensures Sample(a, t, r).1 == Sample(b, t, r).1
  {
    hide AdvanceTail, Estimate;
    SampleConserves(a, t, r);
    SampleConserves(b, t, r);
  }

  lemma CancelRespectsSame(a: Axis, b: Axis, t: u64, reason: CancellationReason)
    requires Coherent(a) && Coherent(b) && Same(a, b)
    ensures Same(CancelExternal(a, t, reason).0, CancelExternal(b, t, reason).0)
    ensures CancelExternal(a, t, reason).1 == CancelExternal(b, t, reason).1
  {
    hide Estimate, Parameters, WellFormed;
  }

  lemma FinishRespectsSame(a: Axis, b: Axis, delta: real)
    requires a.ledger.canceled == b.ledger.canceled == 0.0
    requires a == b.(ledger := a.ledger, lastCancellation := a.lastCancellation)
    requires a.ledger.accepted - a.ledger.emitted == b.ledger.accepted - b.ledger.emitted
    ensures Same(FinishEmission(a, delta).0, FinishEmission(b, delta).0)
    ensures FinishEmission(a, delta).1 == FinishEmission(b, delta).1
  {
    FinishSettles(a, delta);
    FinishSettles(b, delta);
  }

  lemma ShareRespectsSame(a: Axis, b: Axis, due: real, t: u64, admission: Admission, r: Rounding)
    requires a.ledger.canceled == b.ledger.canceled == 0.0
    requires a == b.(ledger := a.ledger, lastCancellation := a.lastCancellation)
    requires a.ledger.accepted - a.ledger.emitted == b.ledger.accepted - b.ledger.emitted
    requires !a.preset.Off? ==> admission.deadline.Some?
    ensures Same(Share(a, due, t, admission, r).0, Share(b, due, t, admission, r).0)
    ensures Share(a, due, t, admission, r).1 == Share(b, due, t, admission, r).1
  {
    hide Immediate, ExtendTail, FinishEmission;
    if a.preset.Off? {
      FinishRespectsSame(a, b, due + admission.points + r.total);
    } else {
      var immediate := Immediate(a.preset, admission.points, r);
      var tail := ExtendTail(a.tail, t, admission.points - immediate + r.deferred, admission.deadline.value, r);
      FinishRespectsSame(a.(tail := tail), b.(tail := tail), due + immediate + r.total);
    }
  }

  lemma RecordRespectsSame(a: Axis, b: Axis, t: u64, admission: Admission)
    requires InRange(a.window) && a == b.(ledger := a.ledger, lastCancellation := a.lastCancellation)
    ensures var (x, y) := (RecordInput(a, t, admission), RecordInput(b, t, admission));
            && x == y.(ledger := x.ledger, lastCancellation := x.lastCancellation)
            && x.ledger == a.ledger.Accept(admission.points) && y.ledger == b.ledger.Accept(admission.points)
            && x.preset == a.preset
  {
    hide Estimate, Velocity;
  }

  lemma ApplyRespectsSame(a: Axis, b: Axis, t: u64, admission: Admission, r: Rounding)
    requires Coherent(a) && Coherent(b) && Same(a, b)
    requires Admit(a, t, Finite(admission.points)) == Ok(admission) == Admit(b, t, Finite(admission.points))
    ensures Same(Apply(a, t, admission, r).0, Apply(b, t, admission, r).0)
    ensures Apply(a, t, admission, r).1 == Apply(b, t, admission, r).1
  {
    hide AdvanceTail, Estimate, Share, FinishEmission, Admit, Parameters, RecordInput;
    AdmitFacts(a, t, admission);
    OpenSessionSettles(a, t, admission);
    OpenSessionSettles(b, t, admission);
    var (x, due) := Advance(OpenSession(a, t, admission), t, r);
    var (y, _) := Advance(OpenSession(b, t, admission), t, r);
    if admission.points == 0.0 {
      FinishRespectsSame(x, y, due);
    } else {
      assert x == y.(ledger := x.ledger, lastCancellation := x.lastCancellation);
      RecordRespectsSame(x, y, t, admission);
      ShareRespectsSame(RecordInput(x, t, admission), RecordInput(y, t, admission), due, t, admission, r);
    }
  }

  lemma InputRespectsSame(a: Axis, b: Axis, t: u64, input: Points, r: Rounding)
    requires Coherent(a) && Coherent(b) && Same(a, b)
    ensures Same(HandleInput(a, t, input, r).0, HandleInput(b, t, input, r).0)
    ensures HandleInput(a, t, input, r).1 == HandleInput(b, t, input, r).1
  {
    hide Apply;
    assert Admit(a, t, input) == Admit(b, t, input);
    if Admit(a, t, input).Ok? {
      ApplyRespectsSame(a, b, t, Admit(a, t, input).value, r);
    }
  }
}
