/** The facade, the wake schedule and the scheduler as the objects the source mutates, proved against
    the transitions of SchedulerModel. Operations work on clones and commit them last. */
module SchedulerEngine {
  import opened Prelude
  import opened Preset
  import opened AxisModel
  import opened AxisEngine
  import opened SchedulerModel
  import M = SchedulerModel

  class ScrollDynamics2D {
    const cancellationPolicy: CancellationPolicy
    var vertical: ScrollDynamics
    var horizontal: ScrollDynamics
    ghost var Repr: set<object>

    ghost predicate Valid()
      reads this, Repr
      ensures Valid() ==> this in Repr
    {
      && this in Repr
      && vertical in Repr && vertical.Repr <= Repr
      && horizontal in Repr && horizontal.Repr <= Repr
      && this !in vertical.Repr && this !in horizontal.Repr
      && vertical.Repr !! horizontal.Repr
      && vertical.Valid() && horizontal.Valid()
    }

    ghost function View(): Facade
      requires Valid()
      reads this, Repr
    {
      Facade(vertical.View(), horizontal.View(), cancellationPolicy)
    }

    constructor (preset: SmoothPreset, policy: CancellationPolicy)
      ensures Valid() && fresh(Repr) && View() == FreshFacade(preset, policy)
    {
      hide ScrollDynamics.Valid, ScrollDynamics.View;
      cancellationPolicy := policy;
      vertical := new ScrollDynamics(preset);
      horizontal := new ScrollDynamics(preset);
      new;
      Repr := {this} + vertical.Repr + horizontal.Repr;
    }

    constructor Copy(from: ScrollDynamics2D)
      requires from.Valid()
      ensures Valid() && fresh(Repr) && View() == from.View()
    {
      hide ScrollDynamics.Valid, ScrollDynamics.View;
      cancellationPolicy := from.cancellationPolicy;
      var v := from.vertical.Clone();
      var h := from.horizontal.Clone();
      vertical, horizontal := v, h;
      new;
      Repr := {this} + vertical.Repr + horizontal.Repr;
    }

    /** Working copies of both axes. */
    method CloneAxes() returns (v: ScrollDynamics, h: ScrollDynamics)
      requires Valid()
      ensures fresh(v.Repr) && fresh(h.Repr) && v.Repr !! h.Repr
      ensures v.Valid() && h.Valid() && v.View() == vertical.View() && h.View() == horizontal.View()
    {
      hide ScrollDynamics.Valid, ScrollDynamics.View;
      v := vertical.Clone();
      h := horizontal.Clone();
    }

    /** Replaces both axes by clones that have been moved, and shows their states. */
    method CommitAxes(v: ScrollDynamics, h: ScrollDynamics) returns (vs: Snapshot, hs: Snapshot)
      requires Valid() && v.Valid() && h.Valid()
      requires v.Repr !! h.Repr && this !in v.Repr && this !in h.Repr
      modifies this
      ensures Valid() && Repr == {this} + v.Repr + h.Repr
      ensures View() == Facade(v.View(), h.View(), cancellationPolicy)
      ensures vs == AxisModel.State(v.View()) && hs == AxisModel.State(h.View())
    {
      hide ScrollDynamics.Valid, ScrollDynamics.View, AxisModel.State;
      vertical, horizontal := v, h;
      Repr := {this} + v.Repr + h.Repr;
      vs := v.State();
      hs := h.State();
    }

    method HandleEvent(t: u64, input: Vector, continuous: bool, noise: Noise)
      returns (output: Result<TwoAxisEmission, DynamicsError>)
      requires Valid()
      modifies this
      ensures Valid() && fresh(Repr - old(Repr))
      ensures (View(), output) == HandleTwoAxes(old(View()), t, input, continuous, noise)
    {
      hide ScrollDynamics.Valid, ScrollDynamics.View;
      hide HandleInput, AxisModel.State;
      var badVertical := ValidateInput(input.vertical);
      if badVertical.Some? {
        return Err(badVertical.value);
      }
      var badHorizontal := ValidateInput(input.horizontal);
      if badHorizontal.Some? {
        return Err(badHorizontal.value);
      }
      if continuous {
        var vs, hs := States();
        return Ok(TwoAxisEmission(input, ContinuousBypass, vs, hs));
      }
      var v, h := CloneAxes();
      var vo := v.HandleInput(t, input.vertical, noise.vertical);
      if vo.Err? {
        return Err(vo.error);
      }
      var ho := h.HandleInput(t, input.horizontal, noise.horizontal);
      if ho.Err? {
        return Err(ho.error);
      }
      var vs, hs := CommitAxes(v, h);
      return Ok(TwoAxisEmission(Vector(Finite(vo.value.deltaPoints), Finite(ho.value.deltaPoints)),
                                DiscreteDynamics, vs, hs));
    }

    method Sample(t: u64, noise: Noise) returns (output: Result<TwoAxisEmission, DynamicsError>)
      requires Valid()
      modifies this
      ensures Valid() && fresh(Repr - old(Repr))
      ensures (View(), output) == SampleTwoAxes(old(View()), t, noise)
    {
      hide ScrollDynamics.Valid, ScrollDynamics.View;
      hide AxisModel.Sample, AxisModel.State;
      var v, h := CloneAxes();
      var vo := v.Sample(t, noise.vertical);
      if vo.Err? {
        return Err(vo.error);
      }
      var ho := h.Sample(t, noise.horizontal);
      if ho.Err? {
        return Err(ho.error);
      }
      var vs, hs := CommitAxes(v, h);
      return Ok(TwoAxisEmission(Vector(Finite(vo.value.deltaPoints), Finite(ho.value.deltaPoints)),
                                DiscreteDynamics, vs, hs));
    }

    method Cancel(t: u64, trigger: CancellationTrigger) returns (output: Result<CancellationEmission, DynamicsError>)
      requires Valid()
      modifies this
      ensures Valid() && fresh(Repr - old(Repr))
      ensures (View(), output) == CancelTwoAxes(old(View()), t, trigger)
    {
      hide ScrollDynamics.Valid, ScrollDynamics.View;
      hide CancelExternal, AxisModel.State;
      if !cancellationPolicy.Allows(trigger) {
        var vs, hs := States();
        return Ok(CancellationEmission(false, ZERO, vs, hs));
      }
      var reason := if trigger.OnPhysicalAction? then NewPhysicalAction else PointerClick;
      var v, h := CloneAxes();
      var vo := v.CancelExternal(t, reason);
      if vo.Err? {
        return Err(vo.error);
      }
      var ho := h.CancelExternal(t, reason);
      if ho.Err? {
        return Err(ho.error);
      }
      var vs, hs := CommitAxes(v, h);
      return Ok(CancellationEmission(true, Vector(Finite(vo.value), Finite(ho.value)), vs, hs));
    }

    method States() returns (v: Snapshot, h: Snapshot)
      requires Valid()
      ensures v == AxisModel.State(View().vertical) && h == AxisModel.State(View().horizontal)
    {
      hide ScrollDynamics.Valid, ScrollDynamics.View;
      v := vertical.State();
      h := horizontal.State();
    }
  }

  class TailSchedule {
    var wake: Option<WakeToken>
    var lastWakeId: u64

    ghost function View(): Schedule
      reads this
    {
      Schedule(wake, lastWakeId)
    }

    constructor ()
      ensures View() == Schedule(None, 0)
    {
      wake, lastWakeId := None, 0;
    }

    constructor Copy(from: TailSchedule)
      ensures View() == from.View()
    {
      wake, lastWakeId := from.wake, from.lastWakeId;
    }

    method Disarm()
      modifies this
      ensures View() == old(View()).(wake := None)
    {
      wake := None;
    }

    method Sync(now: u64, vertical: Snapshot, horizontal: Snapshot)
      returns (outcome: Result<Option<WakeToken>, SchedulerError>)
      modifies this
      ensures (View(), outcome) == M.Sync(old(View()), now, vertical, horizontal)
    {
      var v := ActiveDeadline(now, Vertical, vertical);
      if v.Err? {
        return Err(v.error);
      }
      var h := ActiveDeadline(now, Horizontal, horizontal);
      if h.Err? {
        return Err(h.error);
      }
      var deadline := Earlier(v.value, h.value);
      if deadline.None? {
        wake := None;
        return Ok(None);
      }
      if lastWakeId == U64_MAX {
        return Err(WakeIdOverflow);
      }
      var id := lastWakeId + 1;
      var token := WakeToken(id, DueAt(now, deadline.value), Generation(vertical.generation, horizontal.generation));
      lastWakeId := id;
      wake := Some(token);
      return Ok(Some(token));
    }
  }

  class ScrollScheduler {
    const preset: SmoothPreset
    const cancellationPolicy: CancellationPolicy
    var dynamics: ScrollDynamics2D
    var schedule: TailSchedule
    var fault: Option<Fault>
    ghost var Repr: set<object>

    ghost predicate Valid()
      reads this, Repr
      ensures Valid() ==> this in Repr
    {
      && this in Repr && dynamics in Repr && schedule in Repr
      && dynamics.Repr <= Repr && this !in dynamics.Repr && schedule !in dynamics.Repr
      && dynamics.Valid()
    }

    ghost function View(): Scheduler
      requires Valid()
      reads this, Repr
    {
      Scheduler(preset, cancellationPolicy, dynamics.View(), schedule.View(), fault)
    }

    constructor (preset: SmoothPreset, policy: CancellationPolicy)
      ensures Valid() && fresh(Repr) && View() == NewScheduler(preset, policy)
    {
      hide ScrollDynamics2D.Valid, ScrollDynamics2D.View, ScrollDynamics.Valid, ScrollDynamics.View;
      this.preset := preset;
      cancellationPolicy := policy;
      dynamics := new ScrollDynamics2D(preset, policy);
      schedule := new TailSchedule();
      fault := None;
      new;
      Repr := {this, schedule} + dynamics.Repr;
    }

    method HandleEvent(t: u64, original: Vector, continuous: bool, selfSynthetic: bool, noise: Noise)
      returns (emission: InputEmission)
      requires Valid()
      modifies Repr
      ensures Valid() && fresh(Repr - old(Repr))
      ensures (View(), emission) == M.HandleEvent(old(View()), t, original, continuous, selfSynthetic, noise)
    {
      hide ScrollDynamics2D.Valid, ScrollDynamics2D.View, ScrollDynamics.Valid, ScrollDynamics.View;
      hide HandleTwoAxes, M.Sync, FreshFacade;
      if selfSynthetic {
        return BypassWith(original, SelfSyntheticRoute);
      }
      if fault.Some? {
        return InputEmission(original, FailOpenLatched, None, fault);
      }
      var moved := new ScrollDynamics2D.Copy(dynamics);
      var output := moved.HandleEvent(t, original, continuous, noise);
      if output.Err? {
        emission := Trip(original, DynamicsFault(output.error));
        return;
      }
      if output.value.route == ContinuousBypass {
        return BypassWith(original, ContinuousRoute);
      }
      var rearmed := new TailSchedule.Copy(schedule);
      var wake := rearmed.Sync(t, output.value.vertical, output.value.horizontal);
      if wake.Err? {
        emission := Trip(original, ScheduleFault(wake.error));
        return;
      }
      CommitBoth(moved, rearmed);
      return InputEmission(output.value.delta, DiscreteRoute, wake.value, None);
    }

    method Poll(observedAt: u64, wake: WakeToken, noise: Noise) returns (outcome: PollOutcome)
      requires Valid()
      modifies Repr
      ensures Valid() && fresh(Repr - old(Repr))
      ensures (View(), outcome) == M.Poll(old(View()), observedAt, wake, noise)
    {
      hide ScrollDynamics2D.Valid, ScrollDynamics2D.View, ScrollDynamics.Valid, ScrollDynamics.View;
      hide SampleTwoAxes, M.Sync, FreshFacade, NewSample;
      if fault.Some? {
        return Faulted(fault.value);
      }
      if schedule.wake.None? {
        return SchedulerIdle;
      }
      if wake != schedule.wake.value {
        return Superseded(schedule.wake.value);
      }
      if observedAt < wake.dueAtUs {
        return Waiting(wake);
      }
      var expiry := SampleExpiry(wake.dueAtUs);
      if expiry.Err? {
        LatchFault(ScheduleFault(expiry.error));
        return Faulted(ScheduleFault(expiry.error));
      }
      if observedAt > expiry.value {
        var expired := ScheduleFault(WakeExpired(wake.dueAtUs, expiry.value, observedAt));
        LatchFault(expired);
        return Faulted(expired);
      }
      var moved := new ScrollDynamics2D.Copy(dynamics);
      var output := moved.Sample(observedAt, noise);
      if output.Err? {
        LatchFault(DynamicsFault(output.error));
        return Faulted(DynamicsFault(output.error));
      }
      var sample := NewSample(output.value.delta, wake.generation, wake.id, wake.dueAtUs, observedAt);
      if sample.Err? {
        LatchFault(ScheduleFault(sample.error));
        return Faulted(ScheduleFault(sample.error));
      }
      var rearmed := new TailSchedule.Copy(schedule);
      var next := rearmed.Sync(observedAt, output.value.vertical, output.value.horizontal);
      if next.Err? {
        LatchFault(ScheduleFault(next.error));
        return Faulted(ScheduleFault(next.error));
      }
      CommitBoth(moved, rearmed);
      return Sampled(sample.value, next.value);
    }

    method ResetAfterFault() returns (reset: bool)
      requires Valid()
      modifies Repr
      ensures Valid() && fresh(Repr - old(Repr))
      ensures (View(), reset) == M.ResetAfterFault(old(View()))
    {
      hide ScrollDynamics2D.Valid, ScrollDynamics2D.View, ScrollDynamics.Valid, ScrollDynamics.View;
      if fault.None? {
        return false;
      }
      dynamics := new ScrollDynamics2D(preset, cancellationPolicy);
      schedule.Disarm();
      fault := None;
      Repr := {this, schedule} + dynamics.Repr;
      return true;
    }

    method SampleDisposition(sample: ScheduledSample, observedAt: u64) returns (disposition: Disposition)
      requires Valid()
      ensures disposition == Dispose(sample, observedAt, CurrentGeneration(View()))
    {
      hide ScrollDynamics2D.Valid, ScrollDynamics2D.View, ScrollDynamics.Valid, ScrollDynamics.View;
      var v, h := dynamics.States();
      disposition := Dispose(sample, observedAt, Generation(v.generation, h.generation));
    }

    // -------------------------------------------------------------------
    // Steps
    // -------------------------------------------------------------------

    function BypassWith(original: Vector, route: InputRoute): InputEmission
      requires Valid()
      reads this, Repr
    {
      InputEmission(original, route, schedule.wake, fault)
    }

    method CommitBoth(moved: ScrollDynamics2D, rearmed: TailSchedule)
      requires Valid() && moved.Valid()
      requires this !in moved.Repr && rearmed !in moved.Repr
      modifies this
      ensures Valid() && Repr == {this, rearmed} + moved.Repr
      ensures View() == Scheduler(preset, cancellationPolicy, moved.View(), rearmed.View(), old(fault))
    {
      hide ScrollDynamics2D.Valid, ScrollDynamics2D.View, ScrollDynamics.Valid, ScrollDynamics.View;
      dynamics, schedule := moved, rearmed;
      Repr := {this, schedule} + dynamics.Repr;
    }

    method Trip(original: Vector, cause: Fault) returns (emission: InputEmission)
      requires Valid()
      modifies Repr
      ensures Valid() && fresh(Repr - old(Repr))
      ensures (View(), emission) == M.Trip(old(View()), original, cause)
    {
      hide ScrollDynamics2D.Valid, ScrollDynamics2D.View, ScrollDynamics.Valid, ScrollDynamics.View;
      LatchFault(cause);
      emission := InputEmission(original, FailOpenTriggered, None, Some(cause));
    }

    method LatchFault(cause: Fault)
      requires Valid()
      modifies Repr
      ensures Valid() && fresh(Repr - old(Repr))
      ensures View() == Latch(old(View()), cause)
    {
      hide ScrollDynamics2D.Valid, ScrollDynamics2D.View, ScrollDynamics.Valid, ScrollDynamics.View;
      dynamics := new ScrollDynamics2D(preset, cancellationPolicy);
      schedule.Disarm();
      fault := Some(cause);
      Repr := {this, schedule} + dynamics.Repr;
    }
  }
}
