/** How the event tap makes a scroll event of a raw one, and what it reports of the outcome
    (src/platform/macos/event_tap.rs, src/platform/macos/scroll_events.rs, src/device_attribution.rs,
    src/device_source.rs). */
module TapEvents {
  import opened Prelude
  import opened ConfigSchema
  import opened ScrollTransform

  const ATTRIBUTION_TIMEOUT_US := 50_000

  const PHYSICAL_TRANSPORTS := {
    "USB", "Bluetooth", "BluetoothLowEnergy", "AID", "I2C", "SPI", "Serial", "iAP", "BT-AACP", "FIFO", "SPU",
    "Inductive In-Band"}

  /** The wheel the HID monitor saw last, and how long ago. */
  datatype WheelSnapshot = WheelSnapshot(identity: Option<DeviceIdentity>, transport: Option<string>, ageUs: nat)

  /** A raw scroll event. `gestureKind` is what the gesture classifier makes of continuous scrolling. */
  datatype RawEvent = RawEvent(
    continuous: bool,
    gestureKind: DeviceKind,
    deltaVertical: i64,
    deltaHorizontal: i64,
    pointVertical: i64,
    pointHorizontal: i64,
    synthetic: bool,
    sourcePid: i64,
    wheel: Option<WheelSnapshot>)

  function FromObservedTransport(transport: Option<string>): HidSourceClass {
    if transport == Some("Virtual") then Virtual
    else if transport.Some? && transport.value in PHYSICAL_TRANSPORTS then Physical
    else UnknownSource
  }

  /** The wheel observation that a raw event is attributed to. */
  function AcceptedWheel(raw: RawEvent): Option<WheelSnapshot> {
    if raw.continuous || raw.sourcePid != 0 || raw.wheel.None? || raw.wheel.value.ageUs > ATTRIBUTION_TIMEOUT_US
    then None
    else raw.wheel
  }

  function Normalize(raw: RawEvent): ScrollEvent {
    var wheel := AcceptedWheel(raw);
    ScrollEvent(
      if raw.continuous then raw.gestureKind else Mouse,
      raw.deltaVertical, raw.deltaHorizontal, raw.continuous, raw.synthetic,
      if wheel.Some? then FromObservedTransport(wheel.value.transport) else NotObserved,
      raw.sourcePid,
      if wheel.Some? then wheel.value.identity else None)
  }

  /** An attributed event is a discrete mouse event of the HID system whose source was observed. */
  predicate FromTap(event: ScrollEvent) {
    && (!event.continuous ==> event.deviceKind == Mouse)
    && (event.hidSource != NotObserved ==> !event.continuous && event.sourcePid == 0)
    && (event.identity.Some? ==> event.hidSource != NotObserved)
  }

  lemma NormalizedIsFromTap(raw: RawEvent)
    ensures FromTap(Normalize(raw))
  {
  }

  /** An event is attributed to the device of the last wheel seen exactly if it is a discrete event of the
      HID system at most 50 ms after it; the source is then judged by the transport. Everything else is
      passed on as it came. */
  lemma AttributionIsExact(raw: RawEvent)
    ensures var event := Normalize(raw);
            var attributed :=
              !raw.continuous && raw.sourcePid == 0 && raw.wheel.Some? && raw.wheel.value.ageUs <= 50_000;
            && event.deviceKind == (if raw.continuous then raw.gestureKind else Mouse)
            && event.identity == (if attributed then raw.wheel.value.identity else None)
            && (event.hidSource == NotObserved <==> !attributed)
            && (event.hidSource == Virtual <==> attributed && raw.wheel.value.transport == Some("Virtual"))
            && (event.hidSource == Physical ==> attributed && raw.wheel.value.transport.Some?)
            && (attributed && raw.wheel.value.transport.None? ==> event.hidSource == UnknownSource)
            && event.deltaVertical == raw.deltaVertical && event.deltaHorizontal == raw.deltaHorizontal
            && event.continuous == raw.continuous && event.synthetic == raw.synthetic
            && event.sourcePid == raw.sourcePid
  {
    assert "Virtual" !in PHYSICAL_TRANSPORTS;
  }

  datatype Axis = Vertical | Horizontal

  function DeltaOf(event: ScrollEvent, axis: Axis): i64 {
    if axis.Vertical? then event.deltaVertical else event.deltaHorizontal
  }

  predicate ReversedOn(decision: TransformDecision, axis: Axis) {
    if axis.Vertical? then decision.verticalReversed else decision.horizontalReversed
  }

  /** A scroll event with the precise motion that only a continuous one has. */
  datatype LiveEvent = LiveEvent(
    event: ScrollEvent,
    pointVertical: i64,
    pointHorizontal: i64,
    paused: bool,
    monotonicUs: u64)

  /** What diagnostics show of an axis before the policy: lines of a wheel, points of continuous motion. */
  function RawDelta(live: LiveEvent, axis: Axis): i64 {
    if !live.event.continuous then DeltaOf(live.event, axis)
    else if axis.Vertical? then live.pointVertical
    else live.pointHorizontal
  }

  /** And after it: a wheel's transformed lines are written back; continuous points are negated on
      exactly the reversed axes, whatever the coarse delta was. A paused tap changes nothing. */
  function OutputDelta(config: AppConfig, live: LiveEvent, axis: Axis): i64 {
    if live.paused then RawDelta(live, axis)
    else
      var decision := Decide(config, live.event);
      if !live.event.continuous then DeltaOf(decision.transformed, axis)
      else if ReversedOn(decision, axis) then SaturatingNeg(RawDelta(live, axis))
      else RawDelta(live, axis)
  }
}
