/** What the pure policy does to an event, from the event and the configuration alone
    (src/scroll.rs, src/input_policy.rs). */
module TransformLaws {
  import opened Prelude
  import opened Preset
  import opened ConfigSchema
  import opened ConfigProfiles
  import opened ScrollTransform

  /** Where an event comes from. */
  lemma ProvenanceIsExact(synthetic: bool, source: HidSourceClass, sourcePid: i64, ignorePosted: bool)
    ensures var provenance := EvaluateInputPolicy(synthetic, source, sourcePid, ignorePosted).provenance;
            && (provenance == SelfSynthetic <==> synthetic)
            && (provenance == VirtualHid <==> !synthetic && source == Virtual)
            && (provenance == UnknownHid <==> !synthetic && source == UnknownSource)
            && (provenance == PostedProcess <==> !synthetic && source in {NotObserved, Physical} && sourcePid != 0)
            && (provenance == FromHardware <==> !synthetic && source in {NotObserved, Physical} && sourcePid == 0)
  {
  }

  /** The policy acts on an event exactly if it is enabled, the event is not the program's own, its source
      is neither virtual nor unknown, and it is not a posted one under the guard; every other event passes
      through untouched. */
  lemma PassesThroughExactly(config: AppConfig, event: ScrollEvent)
    ensures Acts(config, event) <==>
      && config.enabled && !event.synthetic
      && event.hidSource != Virtual && event.hidSource != UnknownSource
      && (event.sourcePid == 0 || !config.reverseOnlyRawInput)
    ensures !Acts(config, event) ==>
      Decide(config, event) == TransformDecision(event, event, false, false, false, false)
  {
  }

  /** The delta of an axis of an event whose device reverses: a unit tick of a wheel is multiplied by a
      positive step, and the axis is negated if its own flag is on, where the one number without a
      negative becomes the largest. */
  function Turned(delta: i64, discrete: bool, step: i64, axisFlag: bool): int {
    if discrete && step > 0 && (delta == 1 || delta == -1) then if axisFlag then -delta * step else delta * step
    else if !axisFlag then delta
    else if delta == -0x8000_0000_0000_0000 then 0x7FFF_FFFF_FFFF_FFFF
    else -delta
  }

  /** The decision in closed form, given whether the device reverses and its step. */
  predicate DecidedAs(config: AppConfig, event: ScrollEvent, turns: bool, step: i64) {
    var decision := Decide(config, event);
    var v, h := event.deltaVertical, event.deltaHorizontal;
    && decision.original == event
    && decision.transformed ==
         event.(deltaVertical := decision.transformed.deltaVertical,
                deltaHorizontal := decision.transformed.deltaHorizontal)
    && decision.transformed.deltaVertical ==
         (if turns then Turned(v, !event.continuous, step, config.reverseVertical) else v)
    && decision.transformed.deltaHorizontal ==
         (if turns then Turned(h, !event.continuous, step, config.reverseHorizontal) else h)
    && (decision.verticalReversed <==> turns && config.reverseVertical)
    && (decision.horizontalReversed <==> turns && config.reverseHorizontal)
    && (decision.reversed <==> decision.verticalReversed || decision.horizontalReversed)
    && (decision.stepSizeApplied <==>
          turns && !event.continuous && step > 0 && (v == 1 || v == -1 || h == 1 || h == -1))
  }

  lemma UnitTimesStep(delta: i64, step: i64)
    requires IsUnit(delta) && step > 0
    ensures Saturate(delta * step) == delta * step
    ensures SaturatingNeg(delta * step) == -delta * step
  {
  }

  /** The whole decision, for every configuration and event. */
  lemma DecisionIsExact(config: AppConfig, event: ScrollEvent)
    ensures var profile := Resolve(config, event.deviceKind, event.identity);
            DecidedAs(config, event, Acts(config, event) && profile.reverse.value, profile.stepSize.value)
  {
    hide Resolve, PolicyOf;
    var profile := Resolve(config, event.deviceKind, event.identity);
    AxisIsTurned(profile, event.continuous, config.reverseVertical, event.deltaVertical);
    AxisIsTurned(profile, event.continuous, config.reverseHorizontal, event.deltaHorizontal);
  }

  lemma AxisIsTurned(profile: Profile, continuous: bool, axisFlag: bool, delta: i64)
    ensures AxisOutput(profile, continuous, axisFlag, delta) ==
      if profile.reverse.value then Turned(delta, !continuous, profile.stepSize.value, axisFlag) else delta
  {
    if IsUnit(delta) && profile.stepSize.value > 0 {
      UnitTimesStep(delta, profile.stepSize.value);
    }
  }

  /** The flag of a device kind, each kind its own. */
  predicate KindFlag(config: AppConfig, kind: DeviceKind) {
    || (kind == Mouse && config.reverseMouse)
    || (kind == Trackpad && config.reverseTrackpad)
    || (kind == MagicMouse && config.reverseMagicMouse)
    || (kind == Unknown && config.reverseUnknown)
  }

  /** A device for which no rule gives a direction goes by its own kind's flag and nothing else. */
  lemma RuleFreeDecision(config: AppConfig, event: ScrollEvent)
    requires NoneContends(config, event.identity, Direction)
    ensures DecidedAs(config, event, Acts(config, event) && KindFlag(config, event.deviceKind),
                      Resolve(config, event.deviceKind, event.identity).stepSize.value)
  {
    hide Resolve, DecidedAs, Acts, NoneContends;
    FieldsFallBack(config, event.deviceKind, event.identity);
    DecisionIsExact(config, event);
  }

  /** As shipped the policy acts on every event but the program's own and those of virtual or unknown
      sources; posted ones are not held back. */
  lemma ShippedPolicy(event: ScrollEvent)
    ensures Acts(Default(), event) <==>
      !event.synthetic && event.hidSource != Virtual && event.hidSource != UnknownSource
  {
    PassesThroughExactly(Default(), event);
  }

  /** As shipped: mice and Magic Mice reverse vertically, three lines a wheel tick; trackpads, devices of
      unknown kind and every horizontal axis are left as they are. */
  lemma ShippedDecision(event: ScrollEvent)
    requires event.identity.None? && Acts(Default(), event)
    ensures var decision := Decide(Default(), event);
            && (decision.verticalReversed <==> event.deviceKind == Mouse || event.deviceKind == MagicMouse)
            && !decision.horizontalReversed
            && (decision.verticalReversed && !event.continuous && event.deltaVertical == 1 ==>
                  decision.transformed.deltaVertical == -3)
            && (!decision.verticalReversed ==> decision.transformed == event)
    ensures Default().smoothPreset == Off && Validate(Default()).Ok?
  {
    RuleFreeDecision(Default(), event);
  }
}
