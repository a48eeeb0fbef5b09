/** Privacy-bounded traces and their replay
    (src/scroll_trace.rs, src/platform/macos/event_tap.rs, src/ui/debug_console/export.rs). */
module ScrollTrace {
  import opened Prelude
  import opened ConfigSchema
  import opened ConfigProfiles
  import opened ScrollTransform
  import opened TapEvents

  datatype DecisionReason =
    | ScrollReversalOff
    | TemporarilyPaused
    | SyntheticEvent
    | VirtualHidSource
    | UnknownHidSource
    | RawInputGuard
    | Reversed
    | DeviceRuleReversed
    | UnknownDeviceNotReversed
    | DeviceRuleDisabled
    | TrackpadNatural
    | DeviceReversalOff
    | AxisDisabled

  predicate IsDeviceRule(source: ProfileSource) {
    source.ExactSerial? || source.ExactLocation? || source.Hardware?
  }

  /** The reason shown for one axis of one event. */
  function ReasonFor(config: AppConfig, event: ScrollEvent, paused: bool, axisReversed: bool): DecisionReason {
    var bypass := PolicyOf(config, event).bypass;
    var reverse := Resolve(config, event.deviceKind, event.identity).reverse;
    if !config.enabled then ScrollReversalOff
    else if paused then TemporarilyPaused
    else if bypass.Some? then
      match bypass.value
      case BySelfSynthetic => SyntheticEvent
      case ByVirtualHid => VirtualHidSource
      case ByUnknownHid => UnknownHidSource
      case ByPostedInputGuard => RawInputGuard
    else if axisReversed then if IsDeviceRule(reverse.source) then DeviceRuleReversed else Reversed
    else if !reverse.value then
      if event.deviceKind == Unknown then UnknownDeviceNotReversed
      else if IsDeviceRule(reverse.source) then DeviceRuleDisabled
      else if event.deviceKind == Trackpad then TrackpadNatural
      else DeviceReversalOff
    else AxisDisabled
  }

  datatype TraceSample = TraceSample(
    timestampUs: u64,
    deviceKind: DeviceKind,
    continuous: bool,
    axis: Axis,
    inputDelta: i64,
    observedOutputDelta: i64,
    decisionReason: DecisionReason)

  predicate AxisFlag(config: AppConfig, axis: Axis) {
    if axis.Vertical? then config.reverseVertical else config.reverseHorizontal
  }

  function ToScrollEvent(sample: TraceSample): ScrollEvent {
    ScrollEvent(
      sample.deviceKind,
      if sample.axis.Vertical? then sample.inputDelta else 0,
      if sample.axis.Vertical? then 0 else sample.inputDelta,
      sample.continuous,
      sample.decisionReason == SyntheticEvent,
      match sample.decisionReason
      case VirtualHidSource => Virtual
      case UnknownHidSource => UnknownSource
      case _ => NotObserved,
      if sample.decisionReason == RawInputGuard then 1 else 0,
      None)
  }

  predicate RequiresOmittedContext(sample: TraceSample) {
    sample.decisionReason in {TemporarilyPaused, DeviceRuleReversed, DeviceRuleDisabled}
  }

  /** One exported row of a live event. */
  function Record(config: AppConfig, live: LiveEvent, axis: Axis): TraceSample {
    var reversed := !live.paused && ReversedOn(Decide(config, live.event), axis);
    TraceSample(live.monotonicUs, live.event.deviceKind, live.event.continuous, axis, RawDelta(live, axis),
                OutputDelta(config, live, axis), ReasonFor(config, live.event, live.paused, reversed))
  }

  function ReplayOutput(config: AppConfig, sample: TraceSample): i64 {
    DeltaOf(Decide(config, ToScrollEvent(sample)).transformed, sample.axis)
  }

  predicate ReplayReversed(config: AppConfig, sample: TraceSample) {
    ReversedOn(Decide(config, ToScrollEvent(sample)), sample.axis)
  }

  // ---------------------------------------------------------------------
  // Replay is faithful
  // ---------------------------------------------------------------------

  /** The recorded reason carries over whether the policy acts, although process id and source are dropped. */
  lemma ReasonKeepsPolicy(config: AppConfig, live: LiveEvent, axis: Axis)
    requires !live.paused
    ensures Acts(config, ToScrollEvent(Record(config, live, axis))) == Acts(config, live.event)
  {
    hide Resolve;
  }

  /** What each reason means, for the row of any event under any configuration. */
  lemma ReasonsAreExact(config: AppConfig, live: LiveEvent, axis: Axis)
    ensures var reason := Record(config, live, axis).decisionReason;
            var event := live.event;
            var open := config.enabled && !live.paused;
            var reverse := Resolve(config, event.deviceKind, event.identity).reverse;
            var acts := open && Acts(config, event);
            && (reason == ScrollReversalOff <==> !config.enabled)
            && (reason == TemporarilyPaused <==> config.enabled && live.paused)
            && (reason == SyntheticEvent <==> open && event.synthetic)
            && (reason == VirtualHidSource <==> open && !event.synthetic && event.hidSource == Virtual)
            && (reason == UnknownHidSource <==> open && !event.synthetic && event.hidSource == UnknownSource)
            && (reason == RawInputGuard <==>
                  open && !event.synthetic && event.hidSource in {NotObserved, Physical}
                  && event.sourcePid != 0 && config.reverseOnlyRawInput)
            && (reason in {Reversed, DeviceRuleReversed} <==> acts && reverse.value && AxisFlag(config, axis))
            && (reason == AxisDisabled <==> acts && reverse.value && !AxisFlag(config, axis))
            && (reason in {DeviceRuleReversed, DeviceRuleDisabled} ==> IsDeviceRule(reverse.source))
            && (reason == Reversed ==> !IsDeviceRule(reverse.source))
            && (reason == UnknownDeviceNotReversed <==> acts && !reverse.value && event.deviceKind == Unknown)
            && (reason == DeviceRuleDisabled <==>
                  acts && !reverse.value && event.deviceKind != Unknown && IsDeviceRule(reverse.source))
            && (reason == TrackpadNatural <==>
                  acts && !reverse.value && event.deviceKind == Trackpad && !IsDeviceRule(reverse.source))
            && (reason == DeviceReversalOff <==>
                  acts && !reverse.value && event.deviceKind in {Mouse, MagicMouse} && !IsDeviceRule(reverse.source))
  {
    hide Resolve, OutputDelta;
    DecidedAxis(config, live.event, axis);
  }

  /** The rows that say what they leave out: those of a paused tap, and those whose direction a device's rule
      gives, except where the axis is off or the device is of unknown kind and kept from reversing. */
  lemma FlaggedExactly(config: AppConfig, live: LiveEvent, axis: Axis)
    ensures var reverse := Resolve(config, live.event.deviceKind, live.event.identity).reverse;
            RequiresOmittedContext(Record(config, live, axis)) <==>
              config.enabled
              && (live.paused
                  || (Acts(config, live.event) && IsDeviceRule(reverse.source)
                      && if reverse.value then AxisFlag(config, axis) else live.event.deviceKind != Unknown))
  {
    hide Resolve, Record, Acts;
    ReasonsAreExact(config, live, axis);
  }

  lemma DecidedAxis(config: AppConfig, event: ScrollEvent, axis: Axis)
    ensures var profile := Resolve(config, event.deviceKind, event.identity);
            && DeltaOf(Decide(config, event).transformed, axis) ==
                 (if Acts(config, event)
                  then AxisOutput(profile, event.continuous, AxisFlag(config, axis), DeltaOf(event, axis))
                  else DeltaOf(event, axis))
            && (ReversedOn(Decide(config, event), axis) <==>
                  Acts(config, event) && profile.reverse.value && AxisFlag(config, axis))
  {
    hide Resolve, AxisOutput, Acts;
  }

  /** What the user sees of an axis is the same function of the shown motion for wheels and for
      continuous scrolling, although the code writes them in different ways. */
  lemma LiveAxis(config: AppConfig, live: LiveEvent, axis: Axis)
    requires !live.paused
    ensures var profile := Resolve(config, live.event.deviceKind, live.event.identity);
            OutputDelta(config, live, axis) ==
              (if Acts(config, live.event)
               then AxisOutput(profile, live.event.continuous, AxisFlag(config, axis), RawDelta(live, axis))
               else RawDelta(live, axis))
  {
    hide Resolve, Acts, Decide;
    DecidedAxis(config, live.event, axis);
  }

  /** The motion shown before and after: lines of a wheel and points of continuous scrolling, each axis its
      own; a paused tap changes neither, and continuous points are negated on the reversed axes alone. */
  lemma ShownMotion(config: AppConfig, live: LiveEvent)
    ensures !live.event.continuous ==>
      && RawDelta(live, Vertical) == live.event.deltaVertical
      && RawDelta(live, Horizontal) == live.event.deltaHorizontal
    ensures live.event.continuous ==>
      && RawDelta(live, Vertical) == live.pointVertical
      && RawDelta(live, Horizontal) == live.pointHorizontal
    ensures live.paused ==> forall axis: Axis :: OutputDelta(config, live, axis) == RawDelta(live, axis)
    ensures !live.paused && live.event.continuous && -0x8000_0000_0000_0000 < live.pointVertical ==>
      OutputDelta(config, live, Vertical) ==
        if Decide(config, live.event).verticalReversed then -live.pointVertical else live.pointVertical
    ensures !live.paused && live.event.continuous && -0x8000_0000_0000_0000 < live.pointHorizontal ==>
      OutputDelta(config, live, Horizontal) ==
        if Decide(config, live.event).horizontalReversed then -live.pointHorizontal else live.pointHorizontal
  {
    hide Decide;
  }

  lemma ReplayedAxis(config: AppConfig, live: LiveEvent, axis: Axis)
    requires !live.paused
    ensures var bare := Resolve(config, live.event.deviceKind, None);
            var sample := Record(config, live, axis);
            && ReplayOutput(config, sample) ==
                 (if Acts(config, live.event)
                  then AxisOutput(bare, live.event.continuous, AxisFlag(config, axis), RawDelta(live, axis))
                  else RawDelta(live, axis))
            && (ReplayReversed(config, sample) <==>
                  Acts(config, live.event) && bare.reverse.value && AxisFlag(config, axis))
  {
    hide Resolve, AxisOutput, Acts, Decide, ReasonFor, OutputDelta;
    ReasonKeepsPolicy(config, live, axis);
    DecidedAxis(config, ToScrollEvent(Record(config, live, axis)), axis);
  }

  /** Replaying an unpaused event under its own configuration gives the observed output, exactly where
      the device's profile and the profile without a device treat the shown delta alike. */
  lemma ReplayIsFaithfulExactly(config: AppConfig, live: LiveEvent, axis: Axis)
    requires !live.paused
    ensures var sample := Record(config, live, axis);
            ReplayOutput(config, sample) == sample.observedOutputDelta <==>
              || !Acts(config, live.event)
              || TreatAlike(Resolve(config, live.event.deviceKind, live.event.identity),
                            Resolve(config, live.event.deviceKind, None),
                            live.event.continuous, AxisFlag(config, axis), RawDelta(live, axis))
  {
    hide Resolve, AxisOutput, Acts, Decide, ReasonFor, TreatAlike, ReplayOutput, OutputDelta;
    LiveAxis(config, live, axis);
    ReplayedAxis(config, live, axis);
    AlikeExactly(Resolve(config, live.event.deviceKind, live.event.identity),
                 Resolve(config, live.event.deviceKind, None),
                 live.event.continuous, AxisFlag(config, axis), RawDelta(live, axis));
  }

  /** With no attributed device the replay is always faithful, of wheels and of continuous scrolling. */
  lemma UnattributedReplayIsFaithful(config: AppConfig, live: LiveEvent, axis: Axis)
    requires !live.paused && live.event.identity.None?
    ensures var sample := Record(config, live, axis);
            && ReplayOutput(config, sample) == sample.observedOutputDelta
            && (ReplayReversed(config, sample) <==> ReversedOn(Decide(config, live.event), axis))
  {
    hide Resolve, AxisOutput, Acts, ReasonFor, Decide, ReplayOutput, ReplayReversed, OutputDelta;
    DecidedAxis(config, live.event, axis);
    LiveAxis(config, live, axis);
    ReplayedAxis(config, live, axis);
  }

  // ---------------------------------------------------------------------
  // Where the omitted-context flag falls short
  // ---------------------------------------------------------------------

  /** The device's profile and the profile without it scale a unit tick differently. */
  predicate ScaledApart(config: AppConfig, live: LiveEvent, axis: Axis) {
    var profile := Resolve(config, live.event.deviceKind, live.event.identity);
    var bare := Resolve(config, live.event.deviceKind, None);
    IsUnit(RawDelta(live, axis)) && Factor(profile, live.event.continuous) != Factor(bare, live.event.continuous)
  }

  /** The samples that replay differently although their reason is not flagged: a rule that sets only
      the step; a wheel tick scaled by a rule on an axis whose reversal is off; and a rule that keeps a
      device of unknown kind from reversing. */
  predicate UnflaggedGap(config: AppConfig, live: LiveEvent, axis: Axis) {
    var reverse := Resolve(config, live.event.deviceKind, live.event.identity).reverse;
    if reverse.value then
      ScaledApart(config, live, axis) && (!AxisFlag(config, axis) || !IsDeviceRule(reverse.source))
    else
      && live.event.deviceKind == Unknown && IsDeviceRule(reverse.source)
      && Resolve(config, live.event.deviceKind, None).reverse.value
      && RawDelta(live, axis) != 0 && (AxisFlag(config, axis) || ScaledApart(config, live, axis))
  }

  /** Without a device the direction is the kind's, which is also the device's where no rule gives one. */
  lemma BareDirection(config: AppConfig, event: ScrollEvent)
    ensures !IsDeviceRule(Resolve(config, event.deviceKind, None).reverse.source)
    ensures var reverse := Resolve(config, event.deviceKind, event.identity).reverse;
            !IsDeviceRule(reverse.source) ==> reverse == Resolve(config, event.deviceKind, None).reverse
  {
    hide Winner;
  }

  /** Of all inputs the pure functions take, an unpaused sample that is not flagged replays unfaithfully
      exactly in those three cases. */
  lemma FlagMissesExactly(config: AppConfig, live: LiveEvent, axis: Axis)
    requires !live.paused && !RequiresOmittedContext(Record(config, live, axis))
    ensures var sample := Record(config, live, axis);
            ReplayOutput(config, sample) != sample.observedOutputDelta <==>
              Acts(config, live.event) && UnflaggedGap(config, live, axis)
  {
    hide Resolve, ReplayOutput, OutputDelta, EvaluateInputPolicy;
    ReplayIsFaithfulExactly(config, live, axis);
    BareDirection(config, live.event);
  }

  /** Of the events the tap really produces only the first two remain: the device's rules reverse a unit
      wheel tick and scale it differently, and either no rule gives the direction or the axis is off. */
  lemma TapFlagMissesExactly(config: AppConfig, live: LiveEvent, axis: Axis)
    requires FromTap(live.event)
    requires !live.paused && !RequiresOmittedContext(Record(config, live, axis))
    ensures var sample := Record(config, live, axis);
            var reverse := Resolve(config, live.event.deviceKind, live.event.identity).reverse;
            ReplayOutput(config, sample) != sample.observedOutputDelta <==>
              && Acts(config, live.event) && reverse.value && ScaledApart(config, live, axis)
              && (!AxisFlag(config, axis) || !IsDeviceRule(reverse.source))
  {
    hide Resolve, ReplayOutput, OutputDelta, EvaluateInputPolicy, ScaledApart, Record;
    FlagMissesExactly(config, live, axis);
    BareDirection(config, live.event);
  }

  /** A rule that sets only the step is not flagged, and its sample replays differently. */
  lemma StepRuleIsNotFlagged(timestampUs: u64)
    ensures var rule := DeviceRule(1, 2, None, None, None, None, None, Some(7), None);
            var config := Default().(deviceRules := [rule]);
            var identity := DeviceIdentity(HardwareId(1, 2), None, None);
            var wheel := WheelSnapshot(Some(identity), Some("USB"), 1_000);
            var raw := RawEvent(false, Unknown, 1, 0, 0, 0, false, 0, Some(wheel));
            var sample := Record(config, LiveEvent(Normalize(raw), 0, 0, false, timestampUs), Vertical);
            && Validate(config).Ok? && !RequiresOmittedContext(sample)
            && sample.observedOutputDelta == -7 && ReplayOutput(config, sample) == -3
  {
    var rule := DeviceRule(1, 2, None, None, None, None, None, Some(7), None);
    var identity := DeviceIdentity(HardwareId(1, 2), None, None);
    assert Winner([rule][..0], identity, StepSize) == None;
    assert Winner([rule][..0], identity, Direction) == None;
    assert Winner([rule], identity, StepSize) == Some(rule);
    assert Winner([rule], identity, Direction) == None;
    assert ValidateRules([rule], 1).Ok?;
    assert "USB" in PHYSICAL_TRANSPORTS && FromObservedTransport(Some("USB")) == Physical;
  }

  // ---------------------------------------------------------------------
  // Whole traces
  // ---------------------------------------------------------------------

  /** The rows of one event: one for each axis that moved or was moved. */
  function RowsOf(config: AppConfig, live: LiveEvent): seq<TraceSample> {
    RowFor(config, live, Vertical) + RowFor(config, live, Horizontal)
  }

  function RowFor(config: AppConfig, live: LiveEvent, axis: Axis): seq<TraceSample> {
    if RawDelta(live, axis) == 0 && OutputDelta(config, live, axis) == 0 then [] else [Record(config, live, axis)]
  }

  function Rows(config: AppConfig, log: seq<LiveEvent>): seq<TraceSample> {
    if log == [] then [] else RowsOf(config, log[0]) + Rows(config, log[1..])
  }

  predicate IsRowOf(config: AppConfig, row: TraceSample, live: LiveEvent) {
    exists axis: Axis :: row == Record(config, live, axis)
      && (RawDelta(live, axis) != 0 || OutputDelta(config, live, axis) != 0)
  }

  /** The rows of a run are the records of every axis of every event that moved or was moved, and
      nothing else. */
  lemma {:induction false} RowsAreComplete(config: AppConfig, log: seq<LiveEvent>, row: TraceSample)
    ensures row in Rows(config, log) <==> exists k :: 0 <= k < |log| && IsRowOf(config, row, log[k])
  {
    hide Record, OutputDelta, RawDelta;
    if log == [] {
    } else {
      RowsAreComplete(config, log[1..], row);
      RowsOfOne(config, log[0], row);
      forall k | 0 <= k < |log| - 1 ensures log[1..][k] == log[k + 1] {
      }
      if row in Rows(config, log[1..]) {
        var k :| 0 <= k < |log[1..]| && IsRowOf(config, row, log[1..][k]);
        assert IsRowOf(config, row, log[k + 1]);
      }
      if k: int :| 0 < k < |log| && IsRowOf(config, row, log[k]) {
        assert log[1..][k - 1] == log[k];
      }
    }
  }

  lemma RowsOfOne(config: AppConfig, live: LiveEvent, row: TraceSample)
    ensures row in RowsOf(config, live) <==> IsRowOf(config, row, live)
  {
    hide Record, OutputDelta, RawDelta;
    forall axis ensures row in RowFor(config, live, axis) <==>
      row == Record(config, live, axis) && (RawDelta(live, axis) != 0 || OutputDelta(config, live, axis) != 0)
    {
    }
    if IsRowOf(config, row, live) {
      var axis: Axis :| row == Record(config, live, axis)
                        && (RawDelta(live, axis) != 0 || OutputDelta(config, live, axis) != 0);
      assert axis == Vertical || axis == Horizontal;
    }
  }

  /** Events that came in order leave rows that are in order. */
  lemma {:induction false} RowsComeInOrder(config: AppConfig, log: seq<LiveEvent>)
    requires forall i, j :: 0 <= i < j < |log| ==> log[i].monotonicUs <= log[j].monotonicUs
    ensures InOrder(Rows(config, log))
  {
    hide OutputDelta, RawDelta, ReasonFor, Decide;
    if log == [] {
    } else {
      RowsComeInOrder(config, log[1..]);
      var first, rest := RowsOf(config, log[0]), Rows(config, log[1..]);
      forall j | 0 <= j < |rest| ensures log[0].monotonicUs <= rest[j].timestampUs {
        RowsAreComplete(config, log[1..], rest[j]);
        var k :| 0 <= k < |log[1..]| && IsRowOf(config, rest[j], log[1..][k]);
        assert log[1..][k] == log[k + 1];
      }
      assert forall i :: 0 <= i < |first| ==> first[i].timestampUs == log[0].monotonicUs;
    }
  }

  /** Exported times count from the first row; an earlier time becomes zero. */
  function SinceOrigin(rows: seq<TraceSample>, originUs: u64): seq<TraceSample> {
    seq(|rows|, i requires 0 <= i < |rows| =>
      rows[i].(timestampUs := if rows[i].timestampUs < originUs then 0 else rows[i].timestampUs - originUs))
  }

  datatype TraceError =
    | UnsupportedTrace(found: nat)
    | Empty
    | TooManySamples(actual: nat)
    | NonZeroOrigin(timestampUs: u64)
    | OutOfOrder(index: nat)

  datatype Trace = Trace(schemaVersion: nat, samples: seq<TraceSample>)

  const TRACE_SCHEMA_VERSION := 1
  const MAX_TRACE_SAMPLES := 10_000

  function FirstOutOfOrder(samples: seq<TraceSample>, index: nat): Option<nat>
    requires 1 <= index
    decreases |samples| - index
  {
    if index >= |samples| then None
    else if samples[index].timestampUs < samples[index - 1].timestampUs then Some(index)
    else FirstOutOfOrder(samples, index + 1)
  }

  function ValidateTrace(trace: Trace): Result<(), TraceError> {
    if trace.schemaVersion != TRACE_SCHEMA_VERSION then Err(UnsupportedTrace(trace.schemaVersion))
    else if trace.samples == [] then Err(Empty)
    else if |trace.samples| > MAX_TRACE_SAMPLES then Err(TooManySamples(|trace.samples|))
    else if trace.samples[0].timestampUs != 0 then Err(NonZeroOrigin(trace.samples[0].timestampUs))
    else
      var index := FirstOutOfOrder(trace.samples, 1);
      if index.Some? then Err(OutOfOrder(index.value)) else Ok(())
  }

  predicate InOrder(samples: seq<TraceSample>) {
    forall i, j :: 0 <= i < j < |samples| ==> samples[i].timestampUs <= samples[j].timestampUs
  }

  lemma {:induction false} OrderIsChecked(samples: seq<TraceSample>, index: nat)
    requires 1 <= index && InOrder(samples[..if index < |samples| then index else |samples|])
    ensures FirstOutOfOrder(samples, index).None? <==> InOrder(samples)
    ensures FirstOutOfOrder(samples, index).Some? ==>
      var k := FirstOutOfOrder(samples, index).value;
      1 <= k < |samples| && samples[k].timestampUs < samples[k - 1].timestampUs
    decreases |samples| - index
  {
    if index >= |samples| {
      assert samples[..|samples|] == samples;
    } else if samples[index - 1].timestampUs <= samples[index].timestampUs {
      assert forall i :: 0 <= i < index ==> samples[..index][i] == samples[i];
      OrderIsChecked(samples, index + 1);
    }
  }

  /** Validation accepts exactly the non-empty bounded traces that start at zero and never go back. */
  lemma ValidateTraceIsExact(trace: Trace)
    ensures ValidateTrace(trace).Ok? <==>
      && trace.schemaVersion == 1
      && 1 <= |trace.samples| <= 10_000
      && trace.samples[0].timestampUs == 0
      && InOrder(trace.samples)
  {
    if trace.samples != [] {
      OrderIsChecked(trace.samples, 1);
    }
  }

  ghost predicate Replays(config: AppConfig, samples: seq<TraceSample>) {
    forall i :: 0 <= i < |samples| ==> ReplayOutput(config, samples[i]) == samples[i].observedOutputDelta
  }

  /** `ScrollTrace::replay` gives a trace's observed outputs back: every unpaused run of events without
      an attributed device, wheel or continuous, replays exactly. */
  lemma {:induction false} TraceReplays(config: AppConfig, log: seq<LiveEvent>)
    requires forall i :: 0 <= i < |log| ==> !log[i].paused && log[i].event.identity.None?
    ensures Replays(config, Rows(config, log))
  {
    hide ReplayOutput, OutputDelta, ReasonFor;
    if log == [] {
    } else {
      TraceReplays(config, log[1..]);
      forall axis: Axis ensures Replays(config, RowFor(config, log[0], axis)) {
        UnattributedReplayIsFaithful(config, log[0], axis);
      }
    }
  }

  /** The export keeps every row but for its time, and the time that passed between rows. */
  lemma ExportKeepsRows(rows: seq<TraceSample>)
    requires rows != [] && InOrder(rows)
    ensures var exported := SinceOrigin(rows, rows[0].timestampUs);
            && |exported| == |rows| && exported[0].timestampUs == 0
            && forall i :: 0 <= i < |rows| ==>
                 && exported[i] == rows[i].(timestampUs := exported[i].timestampUs)
                 && exported[i].timestampUs + rows[0].timestampUs == rows[i].timestampUs
  {
    assert forall i :: 0 <= i < |rows| ==> rows[0].timestampUs <= rows[i].timestampUs;
  }

  /** The export of such a run, with its times counted from the first row, still replays exactly, and
      where the rows came in order it is a valid trace exactly if they are not too many. */
  lemma ExportReplays(config: AppConfig, log: seq<LiveEvent>, originUs: u64)
    requires forall i :: 0 <= i < |log| ==> !log[i].paused && log[i].event.identity.None?
    ensures Replays(config, SinceOrigin(Rows(config, log), originUs))
    ensures var rows := Rows(config, log);
            rows != [] && InOrder(rows) && originUs == rows[0].timestampUs ==>
              (ValidateTrace(Trace(1, SinceOrigin(rows, originUs))).Ok? <==> |rows| <= 10_000)
  {
    hide OutputDelta, ReasonFor, Decide;
    TraceReplays(config, log);
    var rows := Rows(config, log);
    var exported := SinceOrigin(rows, originUs);
    ValidateTraceIsExact(Trace(1, exported));
    forall i | 0 <= i < |exported| ensures ReplayOutput(config, exported[i]) == exported[i].observedOutputDelta {
      assert ToScrollEvent(exported[i]) == ToScrollEvent(rows[i]);
      assert ReplayOutput(config, rows[i]) == rows[i].observedOutputDelta;
    }
    if rows != [] && InOrder(rows) && originUs == rows[0].timestampUs {
      ExportKeepsRows(rows);
    }
  }
}
