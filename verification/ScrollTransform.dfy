/** The pure reversal policy (src/scroll.rs, src/input_policy.rs, src/input.rs). */
module ScrollTransform {
  import opened Prelude
  import opened ConfigSchema
  import opened ConfigProfiles

  datatype HidSourceClass = NotObserved | Physical | Virtual | UnknownSource

  datatype ScrollEvent = ScrollEvent(
    deviceKind: DeviceKind,
    deltaVertical: i64,
    deltaHorizontal: i64,
    continuous: bool,
    synthetic: bool,
    hidSource: HidSourceClass,
    sourcePid: i64,
    identity: Option<DeviceIdentity>)

  datatype InputProvenance = FromHardware | PostedProcess | SelfSynthetic | VirtualHid | UnknownHid

  datatype Bypass = BySelfSynthetic | ByVirtualHid | ByUnknownHid | ByPostedInputGuard

  datatype InputPolicy = InputPolicy(provenance: InputProvenance, bypass: Option<Bypass>)

  function EvaluateInputPolicy(synthetic: bool, source: HidSourceClass, sourcePid: i64, ignorePosted: bool)
    : InputPolicy
  {
    var provenance :=
      if synthetic then SelfSynthetic
      else match source
           case Virtual => VirtualHid
           case UnknownSource => UnknownHid
           case _ => if sourcePid != 0 then PostedProcess else FromHardware;
    var bypass :=
      match provenance
      case SelfSynthetic => Some(BySelfSynthetic)
      case VirtualHid => Some(ByVirtualHid)
      case UnknownHid => Some(ByUnknownHid)
      case PostedProcess => if ignorePosted then Some(ByPostedInputGuard) else None
      case FromHardware => None;
    InputPolicy(provenance, bypass)
  }

  function PolicyOf(config: AppConfig, event: ScrollEvent): InputPolicy {
    EvaluateInputPolicy(event.synthetic, event.hidSource, event.sourcePid, config.reverseOnlyRawInput)
  }

  datatype TransformDecision = TransformDecision(
    original: ScrollEvent,
    transformed: ScrollEvent,
    reversed: bool,
    verticalReversed: bool,
    horizontalReversed: bool,
    stepSizeApplied: bool)

  function Saturate(n: int): i64 {
    if n < I64_MIN then I64_MIN else if n > I64_MAX then I64_MAX else n
  }

  function SaturatingNeg(n: i64): i64 {
    var exact: int := n;
    Saturate(-exact)
  }

  predicate IsUnit(delta: i64) {
    delta == 1 || delta == -1
  }

  // ---------------------------------------------------------------------
  // What one axis becomes
  // ---------------------------------------------------------------------

  /** Whether the policy acts on the event at all. */
  predicate Acts(config: AppConfig, event: ScrollEvent) {
    config.enabled && PolicyOf(config, event).bypass.None?
  }

  /** The factor that a unit tick of a wheel is multiplied by. */
  function Factor(profile: Profile, continuous: bool): int {
    if profile.reverse.value && !continuous && profile.stepSize.value > 0 then profile.stepSize.value else 1
  }

  function AxisOutput(profile: Profile, continuous: bool, axisFlag: bool, delta: i64): i64 {
    var scaled := if IsUnit(delta) then Saturate(delta * Factor(profile, continuous)) else delta;
    if profile.reverse.value && axisFlag then SaturatingNeg(scaled) else scaled
  }

  function Decide(config: AppConfig, event: ScrollEvent): TransformDecision {
    if !Acts(config, event) then TransformDecision(event, event, false, false, false, false)
    else
      var profile := Resolve(config, event.deviceKind, event.identity);
      var turns := profile.reverse.value;
      TransformDecision(
        event,
        event.(deltaVertical := AxisOutput(profile, event.continuous, config.reverseVertical, event.deltaVertical),
               deltaHorizontal :=
                 AxisOutput(profile, event.continuous, config.reverseHorizontal, event.deltaHorizontal)),
        turns && (config.reverseVertical || config.reverseHorizontal),
        turns && config.reverseVertical,
        turns && config.reverseHorizontal,
        turns && !event.continuous && profile.stepSize.value > 0
          && (IsUnit(event.deltaVertical) || IsUnit(event.deltaHorizontal)))
  }

  /** `transform_event`, updating a copy of the event step by step: each axis is decided on its own. */
  method TransformEvent(config: AppConfig, event: ScrollEvent) returns (decision: TransformDecision)
    ensures decision == Decide(config, event)
  {
    hide Resolve;
    var policy := EvaluateInputPolicy(event.synthetic, event.hidSource, event.sourcePid, config.reverseOnlyRawInput);
    if !config.enabled || policy.bypass.Some? {
      return TransformDecision(event, event, false, false, false, false);
    }
    var transformed := event;
    var reversed, verticalReversed, horizontalReversed, stepSizeApplied := false, false, false, false;
    var profile := Resolve(config, event.deviceKind, event.identity);
    var shouldReverse := profile.reverse.value;
    if shouldReverse && !event.continuous && profile.stepSize.value > 0 {
      if IsUnit(event.deltaVertical) {
        transformed := transformed.(deltaVertical := Saturate(transformed.deltaVertical * profile.stepSize.value));
        stepSizeApplied := true;
      }
      if IsUnit(event.deltaHorizontal) {
        transformed := transformed.(deltaHorizontal := Saturate(transformed.deltaHorizontal * profile.stepSize.value));
        stepSizeApplied := true;
      }
    }
    if shouldReverse && config.reverseVertical {
      transformed := transformed.(deltaVertical := SaturatingNeg(transformed.deltaVertical));
      reversed := true;
      verticalReversed := true;
    }
    if shouldReverse && config.reverseHorizontal {
      transformed := transformed.(deltaHorizontal := SaturatingNeg(transformed.deltaHorizontal));
      reversed := true;
      horizontalReversed := true;
    }
    decision := TransformDecision(event, transformed, reversed, verticalReversed, horizontalReversed, stepSizeApplied);
  }

  // ---------------------------------------------------------------------
  // When two profiles treat a delta alike
  // ---------------------------------------------------------------------

  /** Stated on the inputs: no motion, the same direction and the same effective step, or an
      unreversed axis that the one reversing profile does not scale. */
  predicate TreatAlike(a: Profile, b: Profile, continuous: bool, axisFlag: bool, delta: i64) {
    || delta == 0
    || ((a.reverse.value == b.reverse.value || !axisFlag)
        && (IsUnit(delta) ==> Factor(a, continuous) == Factor(b, continuous)))
  }

  lemma AlikeExactly(a: Profile, b: Profile, continuous: bool, axisFlag: bool, delta: i64)
    ensures AxisOutput(a, continuous, axisFlag, delta) == AxisOutput(b, continuous, axisFlag, delta) <==>
              TreatAlike(a, b, continuous, axisFlag, delta)
  {
  }
}
