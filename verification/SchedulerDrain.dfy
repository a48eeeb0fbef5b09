/** Polling every wake within its time to live drains the scheduler in a bounded number of polls. */
module SchedulerDrain {
  import opened Prelude
  import opened Preset
  import opened AxisModel
  import opened AxisLaws
  import opened InputLaws
  import opened SchedulerModel
  import opened SchedulerLaws
  import opened SchedulerRuns

  /** How late after its due time a wake is polled, and the rounding of that sample. */
  datatype Poke = Poke(lateUs: nat, noise: Noise)

  /** The callbacks come within the time to live of their wakes. */
  ghost predicate InTime(pokes: seq<Poke>) {
    forall k :: 0 <= k < |pokes| ==> pokes[k].lateUs <= 8_000
  }

  /** Polls the armed wake once it is due, again and again, summing what each axis delivers. */
  ghost function Drain(s: Scheduler, pokes: seq<Poke>): (Scheduler, real, real)
    requires Sound(s)
    ensures Sound(Drain(s, pokes).0)
    decreases |pokes|
  {
    if s.schedule.wake.None? || pokes == [] || s.schedule.wake.value.dueAtUs + pokes[0].lateUs > U64_MAX
    then (s, 0.0, 0.0)
    else
      var wake := s.schedule.wake.value;
      var t := wake.dueAtUs + pokes[0].lateUs;
      PollIsSound(s, t, wake, pokes[0].noise);
      var (next, outcome) := Poll(s, t, wake, pokes[0].noise);
      var (v, h) :=
        if outcome.Sampled?
        then (Amount(outcome.sample.delta.vertical), Amount(outcome.sample.delta.horizontal))
        else (0.0, 0.0);
      var (after, vertical, horizontal) := Drain(next, pokes[1..]);
      (after, v + vertical, h + horizontal)
  }

  function ActiveAxes(f: Facade): nat {
    (if f.vertical.tail.Some? then 1 else 0) + (if f.horizontal.tail.Some? then 1 else 0)
  }

  /** The time both axes have reached. */
  function Now(f: Facade): u64 {
    if f.vertical.lastTimestamp.Some? then f.vertical.lastTimestamp.value else 0
  }

  /** The last active deadline, or the axes' own time when both are idle. */
  function Horizon(f: Facade): int {
    Max(if f.vertical.tail.Some? then f.vertical.tail.value.deadlineUs else Now(f),
        if f.horizontal.tail.Some? then f.horizontal.tail.value.deadlineUs else Now(f))
  }

  /** Polls left: full intervals until the last deadline, plus one for each axis still to retire. */
  function PollsLeft(f: Facade): int {
    (Horizon(f) - Now(f)) / 2_000 + ActiveAxes(f)
  }

  /** A sample keeps each tail's deadline, retires it at that deadline, and starts none. */
  lemma SampleRetires(a: Axis, t: u64, r: Rounding)
    requires Coherent(a) && ValidateTimestamp(a, t).None?
    ensures var after := Sample(a, t, r).0;
            after.tail.Some? ==> a.tail.Some? && after.tail.value.deadlineUs == a.tail.value.deadlineUs
                                 && t < a.tail.value.deadlineUs
  {
    if a.tail.Some? {
      AdvanceShape(a.tail, t, r);
    }
  }

  /** There is room in the counters and the clock for a poll in time to succeed. */
  predicate HasRoom(s: Scheduler, polls: int) {
    && s.schedule.lastWakeId + polls <= U64_MAX
    && Horizon(s.dynamics) + 8_000 <= U64_MAX
  }

  lemma DueByHorizon(s: Scheduler)
    requires Sound(s) && s.schedule.wake.Some?
    ensures s.schedule.wake.value.dueAtUs <= Horizon(s.dynamics)
  {
  }

  lemma PollInTime(s: Scheduler, t: u64, noise: Noise)
    requires Sound(s) && s.schedule.wake.Some? && HasRoom(s, 1)
    requires s.schedule.wake.value.dueAtUs <= t <= s.schedule.wake.value.dueAtUs + 8_000
    ensures var wake := s.schedule.wake.value;
            var (after, outcome) := Poll(s, t, wake, noise);
            && outcome.Sampled? && Sound(after)
            && after.dynamics == SampleTwoAxes(s.dynamics, t, noise).0
            && after.dynamics.vertical.lastTimestamp == Some(t)
  {
    hide SampleTwoAxes, Sync, State, Coherent;
    var wake := s.schedule.wake.value;
    DueByHorizon(s);
    PollIsSound(s, t, wake, noise);
    PollFaultsExactlyWhen(s, t, wake, noise);
  }

  /** Each poll in time advances at least a full interval or retires an axis, so fewer polls are left. */
  lemma PollMakesProgress(s: Scheduler, t: u64, noise: Noise)
    requires Sound(s) && s.schedule.wake.Some? && HasRoom(s, 1)
    requires s.schedule.wake.value.dueAtUs <= t <= s.schedule.wake.value.dueAtUs + 8_000
    ensures var after := Poll(s, t, s.schedule.wake.value, noise).0;
            && (t >= Now(s.dynamics) + 2_000 || ActiveAxes(after.dynamics) < ActiveAxes(s.dynamics))
            && (after.schedule.wake.Some? ==>
                  && Horizon(after.dynamics) <= Horizon(s.dynamics)
                  && PollsLeft(after.dynamics) < PollsLeft(s.dynamics))
  {
    hide Poll, Sample, State, Coherent;
    var wake, f := s.schedule.wake.value, s.dynamics;
    PollInTime(s, t, noise);
    assert Now(f) < wake.dueAtUs;
    SampleRetires(f.vertical, t, noise.vertical);
    SampleRetires(f.horizontal, t, noise.horizontal);
    TwoAxesSample(f, s.preset, t, noise);
    var after := Poll(s, t, wake, noise).0;
    AfterSample(f, t, noise);
    if after.schedule.wake.Some? {
      ProgressArithmetic(Horizon(f), Horizon(after.dynamics), Now(f), t, ActiveAxes(f), ActiveAxes(after.dynamics));
    }
  }

  /** The axes of the facade after a sample are the sampled axes. */
  lemma AfterSample(f: Facade, t: u64, noise: Noise)
    requires BothWellFormed(f) && SampleTwoAxes(f, t, noise).1.Ok?
    ensures var after := SampleTwoAxes(f, t, noise).0;
            after.vertical == Sample(f.vertical, t, noise.vertical).0
            && after.horizontal == Sample(f.horizontal, t, noise.horizontal).0
  {
    hide Sample, State;
  }

  lemma ProgressArithmetic(horizon: int, horizon': int, now: int, t: int, active: int, active': int)
    requires now < t < horizon' <= horizon && 0 <= active' <= active
    requires t >= now + 2_000 || active' < active
    ensures (horizon' - t) / 2_000 + active' < (horizon - now) / 2_000 + active
  {
  }

  /** The bound holds for any state with an armed wake. */
  lemma PollsLeftIsBounded(s: Scheduler)
    requires Sound(s) && s.schedule.wake.Some?
    ensures 1 <= PollsLeft(s.dynamics) <= TailUs(s.preset) / 2_000 + 2
  {
    var f := s.dynamics;
    SplitIsExact(s.preset, 0.0);
    assert Now(f) <= Horizon(f) <= Now(f) + TailDuration(s.preset);
    DivisionGrows(Horizon(f) - Now(f), TailDuration(s.preset));
  }

  lemma DivisionGrows(x: int, y: int)
    requires 0 <= x <= y
    ensures 0 <= x / 2_000 <= y / 2_000
  {
  }

  /** From any healthy state with an armed wake, and with room in the counters, polling each wake within
      its time to live disarms the scheduler within tail / 2000 + 2 polls without a fault, and
      delivers on each axis exactly what the axis owed, whatever the delays and the rounding. */
  lemma {:induction false} DrainsInBoundedPolls(s: Scheduler, pokes: seq<Poke>)
    requires Sound(s) && s.schedule.wake.Some? && InTime(pokes)
    requires |pokes| >= PollsLeft(s.dynamics)
    requires HasRoom(s, PollsLeft(s.dynamics))
    ensures PollsLeft(s.dynamics) <= TailUs(s.preset) / 2_000 + 2
    ensures var (after, vertical, horizontal) := Drain(s, pokes);
            && after.schedule.wake.None? && after.fault.None?
            && vertical == Owed(s.dynamics.vertical)
            && horizontal == Owed(s.dynamics.horizontal)
    decreases |pokes|
  {
    hide Poll, Coherent, Owed, PollsLeft, Horizon;
    PollsLeftIsBounded(s);
    var wake := s.schedule.wake.value;
    DueByHorizon(s);
    var t := wake.dueAtUs + pokes[0].lateUs;
    PollInTime(s, t, pokes[0].noise);
    PollIsSound(s, t, wake, pokes[0].noise);
    PollMakesProgress(s, t, pokes[0].noise);
    var next := Poll(s, t, wake, pokes[0].noise).0;
    if next.schedule.wake.Some? {
      DrainsInBoundedPolls(next, pokes[1..]);
    } else {
      IdleOwesNothing(next);
    }
  }

  lemma IdleOwesNothing(s: Scheduler)
    requires Sound(s) && s.fault.None? && s.schedule.wake.None?
    ensures Owed(s.dynamics.vertical) == 0.0 && Owed(s.dynamics.horizontal) == 0.0
  {
  }
}
