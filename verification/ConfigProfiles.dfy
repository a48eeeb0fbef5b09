/** Field-by-field resolution of a device's settings
    (src/config/profiles.rs, src/config/device_rules.rs). */
module ConfigProfiles {
  import opened Prelude
  import opened Preset
  import opened ConfigSchema

  datatype ProfileSource =
    | ExactSerial
    | ExactLocation
    | Hardware
    | OfKind(kind: DeviceKind)
    | GlobalDefault

  datatype Resolved<+T> = Resolved(value: T, source: ProfileSource)

  datatype Profile = Profile(
    reverse: Resolved<bool>,
    stepSize: Resolved<i64>,
    smoothPreset: Resolved<SmoothPreset>)

  /** The settings that a rule may override, each resolved on its own. */
  datatype Setting = Direction | StepSize | Smoothing | Label

  predicate Sets(rule: DeviceRule, setting: Setting) {
    match setting
    case Direction => rule.reverse.Some?
    case StepSize => rule.stepSize.Some?
    case Smoothing => rule.smoothPreset.Some?
    case Label => rule.alias.Some?
  }

  predicate Matches(rule: DeviceRule, identity: DeviceIdentity) {
    && rule.vendorId == identity.hardware.vendorId
    && rule.productId == identity.hardware.productId
    && match (rule.serialNumber, rule.locationId)
       case (Some(serial), None) => identity.serialNumber == Some(serial)
       case (None, Some(location)) => identity.locationId == Some(location)
       case (None, None) => true
       case (Some(_), Some(_)) => false
  }

  function Specificity(rule: DeviceRule): nat {
    if rule.serialNumber.Some? then 2 else if rule.locationId.Some? then 1 else 0
  }

  function SourceForRule(rule: DeviceRule): ProfileSource {
    if rule.serialNumber.Some? then ExactSerial
    else if rule.locationId.Some? then ExactLocation
    else Hardware
  }

  predicate Contends(rule: DeviceRule, identity: DeviceIdentity, setting: Setting) {
    Matches(rule, identity) && Sets(rule, setting)
  }

  /** `filter`, `filter_map` and `max_by_key`: of equally specific rules the last one wins. */
  function Winner(rules: seq<DeviceRule>, identity: DeviceIdentity, setting: Setting): (r: Option<DeviceRule>)
    ensures r.Some? ==> r.value in rules && Contends(r.value, identity, setting)
  {
    if rules == [] then None
    else
      var best := Winner(rules[..|rules| - 1], identity, setting);
      var last := rules[|rules| - 1];
      if Contends(last, identity, setting) && (best.None? || Specificity(best.value) <= Specificity(last)) then
        Some(last)
      else best
  }

  function DeviceAlias(config: AppConfig, identity: DeviceIdentity): Option<string> {
    var winner := Winner(config.deviceRules, identity, Label);
    if winner.Some? then winner.value.alias else None
  }

  predicate ShouldReverseKind(config: AppConfig, kind: DeviceKind) {
    match kind
    case Mouse => config.reverseMouse
    case Trackpad => config.reverseTrackpad
    case MagicMouse => config.reverseMagicMouse
    case Unknown => config.reverseUnknown
  }

  function WinnerFor(config: AppConfig, identity: Option<DeviceIdentity>, setting: Setting): (r: Option<DeviceRule>)
    ensures r.Some? ==> Sets(r.value, setting)
  {
    if identity.None? then None else Winner(config.deviceRules, identity.value, setting)
  }

  function Resolve(config: AppConfig, kind: DeviceKind, identity: Option<DeviceIdentity>): Profile {
    var direction := WinnerFor(config, identity, Direction);
    var step := WinnerFor(config, identity, StepSize);
    var smoothing := WinnerFor(config, identity, Smoothing);
    Profile(
      if direction.Some? then Resolved(direction.value.reverse.value, SourceForRule(direction.value))
      else Resolved(ShouldReverseKind(config, kind), OfKind(kind)),
      if step.Some? then Resolved(step.value.stepSize.value, SourceForRule(step.value))
      else Resolved(config.discreteScrollStepSize, GlobalDefault),
      if smoothing.Some? then Resolved(smoothing.value.smoothPreset.value, SourceForRule(smoothing.value))
      else Resolved(config.smoothPreset, GlobalDefault))
  }

  // ---------------------------------------------------------------------
  // What is resolved
  // ---------------------------------------------------------------------

  /** The winner is some most specific contender. */
  lemma {:induction false} WinnerIsMostSpecific(rules: seq<DeviceRule>, identity: DeviceIdentity, setting: Setting)
    ensures forall r :: r in rules && Contends(r, identity, setting) ==>
      var w := Winner(rules, identity, setting);
      w.Some? && Specificity(r) <= Specificity(w.value)
  {
    hide Contends, Specificity;
    if rules == [] {
    } else {
      var init := rules[..|rules| - 1];
      WinnerIsMostSpecific(init, identity, setting);
      assert rules == init + [rules[|rules| - 1]];
    }
  }

  /** Without a rule to decide it, a field falls back to the device kind's own flag or the global default,
      and says so. */
  lemma FieldsFallBack(config: AppConfig, kind: DeviceKind, identity: Option<DeviceIdentity>)
    ensures var profile := Resolve(config, kind, identity);
            && (NoneContends(config, identity, Direction) ==>
                  && profile.reverse.source == OfKind(kind)
                  && (kind == Mouse ==> profile.reverse.value == config.reverseMouse)
                  && (kind == Trackpad ==> profile.reverse.value == config.reverseTrackpad)
                  && (kind == MagicMouse ==> profile.reverse.value == config.reverseMagicMouse)
                  && (kind == Unknown ==> profile.reverse.value == config.reverseUnknown))
            && (NoneContends(config, identity, StepSize) ==>
                  profile.stepSize == Resolved(config.discreteScrollStepSize, GlobalDefault))
            && (NoneContends(config, identity, Smoothing) ==>
                  profile.smoothPreset == Resolved(config.smoothPreset, GlobalDefault))
    ensures identity.Some? && NoneContends(config, identity, Label) ==> DeviceAlias(config, identity.value) == None
  {
    hide Contends;
  }

  /** No rule matches the device and sets the field. */
  predicate NoneContends(config: AppConfig, identity: Option<DeviceIdentity>, setting: Setting) {
    identity.Some? ==>
      forall k :: 0 <= k < |config.deviceRules| ==> !Contends(config.deviceRules[k], identity.value, setting)
  }

  /** A serial number outranks a location, and either outranks the hardware alone. */
  predicate Outranks(a: DeviceRule, b: DeviceRule) {
    if a.serialNumber.Some? then b.serialNumber.None?
    else a.locationId.Some? && b.serialNumber.None? && b.locationId.None?
  }

  lemma OutranksExactly(a: DeviceRule, b: DeviceRule)
    ensures Outranks(a, b) <==> Specificity(a) > Specificity(b)
  {
  }

  /** A rule in form applies to exactly the devices of its hardware that carry the qualifier it names. */
  lemma MatchesExactly(rule: DeviceRule, identity: DeviceIdentity)
    requires RuleSound(rule)
    ensures Matches(rule, identity) <==>
      && rule.vendorId == identity.hardware.vendorId && rule.productId == identity.hardware.productId
      && (rule.serialNumber.Some? ==> rule.serialNumber == identity.serialNumber)
      && (rule.locationId.Some? ==> rule.locationId == identity.locationId)
  {
    hide AliasSound;
  }

  /** The rule decides the field: it matches and sets it, and outranks any other that does. */
  predicate Decides(rule: DeviceRule, config: AppConfig, identity: DeviceIdentity, setting: Setting) {
    && rule in config.deviceRules && Contends(rule, identity, setting)
    && forall k :: 0 <= k < |config.deviceRules| && Contends(config.deviceRules[k], identity, setting) ==>
         config.deviceRules[k] == rule || Outranks(rule, config.deviceRules[k])
  }

  /** A field resolves to the value of the rule that decides it, and names that rule's kind of selector. */
  lemma FieldsComeFromRules(config: AppConfig, kind: DeviceKind, identity: DeviceIdentity, rule: DeviceRule)
    ensures var profile := Resolve(config, kind, Some(identity));
            var source := if rule.serialNumber.Some? then ExactSerial
                          else if rule.locationId.Some? then ExactLocation
                          else Hardware;
            && (Decides(rule, config, identity, Direction) ==>
                  Some(profile.reverse.value) == rule.reverse && profile.reverse.source == source)
            && (Decides(rule, config, identity, StepSize) ==>
                  Some(profile.stepSize.value) == rule.stepSize && profile.stepSize.source == source)
            && (Decides(rule, config, identity, Smoothing) ==>
                  Some(profile.smoothPreset.value) == rule.smoothPreset && profile.smoothPreset.source == source)
    ensures Decides(rule, config, identity, Label) ==> DeviceAlias(config, identity) == rule.alias
  {
    hide Winner, Contends, Specificity, Outranks;
    forall setting | Decides(rule, config, identity, setting)
      ensures Winner(config.deviceRules, identity, setting) == Some(rule)
    {
      DecidesWins(rule, config, identity, setting);
    }
  }

  lemma DecidesWins(rule: DeviceRule, config: AppConfig, identity: DeviceIdentity, setting: Setting)
    requires Decides(rule, config, identity, setting)
    ensures Winner(config.deviceRules, identity, setting) == Some(rule)
  {
    hide Winner, Contends, Specificity, Outranks;
    WinnerIsMostSpecific(config.deviceRules, identity, setting);
    OutranksExactly(rule, Winner(config.deviceRules, identity, setting).value);
  }

  /** In a valid configuration every field that some rule contends for is decided by one rule. */
  lemma WinnerDecides(config: AppConfig, identity: DeviceIdentity, setting: Setting)
    requires Validate(config).Ok? && Winner(config.deviceRules, identity, setting).Some?
    ensures Decides(Winner(config.deviceRules, identity, setting).value, config, identity, setting)
  {
    hide Winner, Matches, Specificity, SameSelector, Validate, Valid, Outranks;
    var winner := Winner(config.deviceRules, identity, setting).value;
    ValidateIsExact(config);
    ValidHasNoDuplicates(config);
    WinnerIsMostSpecific(config.deviceRules, identity, setting);
    forall k | 0 <= k < |config.deviceRules| && Contends(config.deviceRules[k], identity, setting)
      ensures config.deviceRules[k] == winner || Outranks(winner, config.deviceRules[k])
    {
      OutranksExactly(winner, config.deviceRules[k]);
      if Specificity(config.deviceRules[k]) == Specificity(winner) {
        MatchesFixSelector(config.deviceRules[k], winner, identity);
        OnePerSelector(config.deviceRules, config.deviceRules[k], winner);
      }
    }
  }

  // ---------------------------------------------------------------------
  // Order does not matter
  // ---------------------------------------------------------------------

  /** Two rules that match one device equally specifically carry the same selector. */
  lemma MatchesFixSelector(a: DeviceRule, b: DeviceRule, identity: DeviceIdentity)
    requires Matches(a, identity) && Matches(b, identity) && Specificity(a) == Specificity(b)
    ensures SameSelector(a, b)
  {
  }

  predicate SameRules(a: seq<DeviceRule>, b: seq<DeviceRule>) {
    multiset(a) == multiset(b)
  }

  lemma SameRulesSameMembers(a: seq<DeviceRule>, b: seq<DeviceRule>)
    requires SameRules(a, b)
    ensures forall r :: r in a <==> r in b
  {
    forall r ensures r in a <==> r in b {
      assert r in a <==> r in multiset(a);
      assert r in b <==> r in multiset(b);
    }
  }

  lemma OnePerSelector(rules: seq<DeviceRule>, a: DeviceRule, b: DeviceRule)
    requires NoDuplicates(rules) && a in rules && b in rules && SameSelector(a, b)
    ensures a == b
  {
    var i :| 0 <= i < |rules| && rules[i] == a;
    var j :| 0 <= j < |rules| && rules[j] == b;
    assert i == j;
  }

  /** With no duplicate selector the winner does not depend on the order of the rules. */
  lemma WinnerIgnoresOrder(a: seq<DeviceRule>, b: seq<DeviceRule>, identity: DeviceIdentity, setting: Setting)
    requires NoDuplicates(a) && forall r :: r in a <==> r in b
    ensures Winner(a, identity, setting) == Winner(b, identity, setting)
  {
    hide Matches, Specificity, SameSelector;
    WinnerIsMostSpecific(a, identity, setting);
    WinnerIsMostSpecific(b, identity, setting);
    var x, y := Winner(a, identity, setting), Winner(b, identity, setting);
    if x.Some? && y.Some? {
      MatchesFixSelector(x.value, y.value, identity);
      OnePerSelector(a, x.value, y.value);
    }
  }

  /** Every resolved setting and the alias are the same for every order of the rules. */
  lemma ResolutionIgnoresOrder(
      config: AppConfig, rules: seq<DeviceRule>, kind: DeviceKind, identity: Option<DeviceIdentity>)
    requires Validate(config).Ok? && SameRules(config.deviceRules, rules)
    ensures Resolve(config.(deviceRules := rules), kind, identity) == Resolve(config, kind, identity)
    ensures identity.Some? ==>
      DeviceAlias(config.(deviceRules := rules), identity.value) == DeviceAlias(config, identity.value)
  {
    hide Winner, Validate, Valid;
    assert NoDuplicates(config.deviceRules) by { ValidateIsExact(config); ValidHasNoDuplicates(config); }
    SameRulesSameMembers(config.deviceRules, rules);
    if identity.Some? {
      forall setting
        ensures Winner(rules, identity.value, setting) == Winner(config.deviceRules, identity.value, setting)
      {
        WinnerIgnoresOrder(config.deviceRules, rules, identity.value, setting);
      }
    }
  }

  lemma ValidHasNoDuplicates(config: AppConfig)
    requires Valid(config)
    ensures NoDuplicates(config.deviceRules)
  {
  }

  /** A rule occurs twice exactly where the multiset counts it twice. */
  lemma TwiceIsCounted(rules: seq<DeviceRule>, i: nat, j: nat)
    requires i < j < |rules| && rules[i] == rules[j]
    ensures multiset(rules)[rules[i]] >= 2
  {
    assert rules == rules[..j] + rules[j..];
    assert rules[..j][i] == rules[i] && rules[j..][0] == rules[i];
  }

  lemma CountedIsTwice(rules: seq<DeviceRule>, rule: DeviceRule) returns (i: nat, j: nat)
    requires multiset(rules)[rule] >= 2
    ensures i < j < |rules| && rules[i] == rules[j] == rule
  {
    i :| i < |rules| && rules[i] == rule;
    var rest := rules[..i] + rules[i + 1..];
    assert rules == rules[..i] + [rule] + rules[i + 1..];
    assert multiset(rules) == multiset(rest) + multiset{rule};
    var k :| 0 <= k < |rest| && rest[k] == rule;
    j := if k < i then k else k + 1;
    if j < i {
      i, j := j, i;
    }
  }

  lemma NoDuplicatesIgnoresOrder(a: seq<DeviceRule>, b: seq<DeviceRule>)
    requires NoDuplicates(a) && SameRules(a, b)
    ensures NoDuplicates(b)
  {
    hide SameSelector;
    SameRulesSameMembers(a, b);
    forall i: nat, j: nat | i < j < |b| ensures !SameSelector(b[i], b[j]) {
      if b[i] == b[j] {
        TwiceIsCounted(b, i, j);
        var k, l := CountedIsTwice(a, b[i]);
        SelectorReflexive(b[i]);
      } else if SameSelector(b[i], b[j]) {
        assert b[i] in b && b[j] in b;
        OnePerSelector(a, b[i], b[j]);
      }
    }
  }

  lemma SelectorReflexive(rule: DeviceRule)
    ensures SameSelector(rule, rule)
  {
  }

  /** Whether validation accepts does not depend on the order of the rules either. */
  lemma ValidityIgnoresOrder(config: AppConfig, rules: seq<DeviceRule>)
    requires SameRules(config.deviceRules, rules)
    ensures Validate(config).Ok? <==> Validate(config.(deviceRules := rules)).Ok?
  {
    hide Validate, RuleSound, SameRules, NoDuplicates;
    ValidateIsExact(config);
    ValidateIsExact(config.(deviceRules := rules));
    SoundnessIgnoresOrder(config.deviceRules, rules);
  }

  lemma SoundnessIgnoresOrder(a: seq<DeviceRule>, b: seq<DeviceRule>)
    requires SameRules(a, b)
    ensures RulesSound(a) <==> RulesSound(b)
  {
    hide RuleSound, NoDuplicates;
    SameRulesSameMembers(a, b);
    if NoDuplicates(a) {
      NoDuplicatesIgnoresOrder(a, b);
    }
    if NoDuplicates(b) {
      NoDuplicatesIgnoresOrder(b, a);
    }
    assert (forall i :: 0 <= i < |a| ==> RuleSound(a[i])) <==> forall r :: r in a ==> RuleSound(r);
    assert (forall i :: 0 <= i < |b| ==> RuleSound(b[i])) <==> forall r :: r in b ==> RuleSound(r);
  }
}
