/** Device rules, the configuration and its validation
    (src/config/schema.rs, src/config/device_rules.rs, src/device.rs). */
module ConfigSchema {
  import opened Prelude
  import opened Preset
  import opened Text

  datatype DeviceKind = Mouse | Trackpad | MagicMouse | Unknown

  datatype HardwareId = HardwareId(vendorId: nat, productId: nat)

  datatype DeviceIdentity = DeviceIdentity(
    hardware: HardwareId,
    serialNumber: Option<string>,
    locationId: Option<nat>)

  datatype DeviceRule = DeviceRule(
    vendorId: nat,
    productId: nat,
    serialNumber: Option<string>,
    locationId: Option<nat>,
    name: Option<string>,
    alias: Option<string>,
    reverse: Option<bool>,
    stepSize: Option<i64>,
    smoothPreset: Option<SmoothPreset>)

  datatype AppConfig = AppConfig(
    configVersion: nat,
    enabled: bool,
    reverseVertical: bool,
    reverseHorizontal: bool,
    reverseMouse: bool,
    reverseTrackpad: bool,
    reverseMagicMouse: bool,
    reverseUnknown: bool,
    discreteScrollStepSize: i64,
    smoothPreset: SmoothPreset,
    showDiscreteScrollOptions: bool,
    startAtLogin: bool,
    showMenuBarIcon: bool,
    checkForUpdates: bool,
    includeBetaUpdates: bool,
    reverseOnlyRawInput: bool,
    deviceRules: seq<DeviceRule>)

  const CONFIG_VERSION := 1
  const MAX_STEP := 20
  const MAX_ALIAS := 64

  function Default(): AppConfig {
    AppConfig(CONFIG_VERSION, true, true, false, true, false, true, false, 3, Off,
              false, false, true, false, false, false, [])
  }

  /** `DeviceIdentity::new`: a blank serial and a zero location identify nothing. */
  function NewIdentity(hardware: HardwareId, serialNumber: Option<string>, locationId: Option<nat>): DeviceIdentity {
    var serial :=
      match serialNumber
      case None => None
      case Some(text) => if Trim(text) == [] then None else Some(Trim(text));
    DeviceIdentity(hardware, serial, if locationId == Some(0) then None else locationId)
  }

  predicate SameSelector(a: DeviceRule, b: DeviceRule) {
    && a.vendorId == b.vendorId
    && a.productId == b.productId
    && a.serialNumber == b.serialNumber
    && a.locationId == b.locationId
  }

  // ---------------------------------------------------------------------
  // Validation
  // ---------------------------------------------------------------------

  datatype ConfigError =
    | UnsupportedVersion
    | StepOutOfRange
    | EmptySerial(index: nat)
    | UntrimmedSerial(index: nat)
    | SerialAndLocation(index: nat)
    | ZeroLocation(index: nat)
    | EmptyAlias(index: nat)
    | UntrimmedAlias(index: nat)
    | InvisibleAlias(index: nat)
    | RuleStepOutOfRange(index: nat)
    | DuplicateSelector(index: nat)

  predicate StepInRange(step: i64) {
    0 <= step <= MAX_STEP
  }

  /** The first complaint about one rule on its own. */
  function RuleError(rule: DeviceRule, index: nat): Option<ConfigError> {
    if rule.serialNumber.Some? && Trim(rule.serialNumber.value) == [] then Some(EmptySerial(index))
    else if rule.serialNumber.Some? && Trim(rule.serialNumber.value) != rule.serialNumber.value then
      Some(UntrimmedSerial(index))
    else if rule.serialNumber.Some? && rule.locationId.Some? then Some(SerialAndLocation(index))
    else if rule.locationId == Some(0) then Some(ZeroLocation(index))
    else if rule.alias.Some? && Trim(rule.alias.value) == [] then Some(EmptyAlias(index))
    else if rule.alias.Some? && Trim(rule.alias.value) != rule.alias.value then Some(UntrimmedAlias(index))
    else if rule.alias.Some?
         && (|rule.alias.value| > MAX_ALIAS
             || exists k :: 0 <= k < |rule.alias.value| && IsControl(rule.alias.value[k])) then
      Some(InvisibleAlias(index))
    else if rule.stepSize.Some? && !StepInRange(rule.stepSize.value) then Some(RuleStepOutOfRange(index))
    else None
  }

  function ValidateRules(rules: seq<DeviceRule>, index: nat): Result<(), ConfigError>
    requires index <= |rules|
    decreases |rules| - index
  {
    if index == |rules| then Ok(())
    else if RuleError(rules[index], index).Some? then Err(RuleError(rules[index], index).value)
    else if exists i :: 0 <= i < index && SameSelector(rules[i], rules[index]) then Err(DuplicateSelector(index))
    else ValidateRules(rules, index + 1)
  }

  function Validate(config: AppConfig): Result<(), ConfigError> {
    if config.configVersion != CONFIG_VERSION then Err(UnsupportedVersion)
    else if !StepInRange(config.discreteScrollStepSize) then Err(StepOutOfRange)
    else ValidateRules(config.deviceRules, 0)
  }

  // ---------------------------------------------------------------------
  // What validation accepts
  // ---------------------------------------------------------------------

  predicate SelectorSound(serialNumber: Option<string>, locationId: Option<nat>) {
    && (serialNumber.Some? ==> Trimmed(serialNumber.value) && locationId.None?)
    && locationId != Some(0)
  }

  predicate AliasSound(alias: Option<string>) {
    alias.Some? ==>
      && Trimmed(alias.value) && |alias.value| <= 64
      && forall k :: 0 <= k < |alias.value| ==> !IsControl(alias.value[k])
  }

  predicate RuleSound(rule: DeviceRule) {
    && SelectorSound(rule.serialNumber, rule.locationId)
    && AliasSound(rule.alias)
    && (rule.stepSize.Some? ==> 0 <= rule.stepSize.value <= 20)
  }

  predicate NoDuplicates(rules: seq<DeviceRule>) {
    forall i, j :: 0 <= i < j < |rules| ==> !SameSelector(rules[i], rules[j])
  }

  predicate RulesSound(rules: seq<DeviceRule>) {
    (forall i :: 0 <= i < |rules| ==> RuleSound(rules[i])) && NoDuplicates(rules)
  }

  predicate Valid(config: AppConfig) {
    && config.configVersion == 1
    && 0 <= config.discreteScrollStepSize <= 20
    && RulesSound(config.deviceRules)
  }

  lemma RuleErrorIsExact(rule: DeviceRule, index: nat)
    ensures RuleError(rule, index).None? <==> RuleSound(rule)
  {
    hide Trim;
    if rule.serialNumber.Some? {
      TrimTrims(rule.serialNumber.value);
    }
    if rule.alias.Some? {
      TrimTrims(rule.alias.value);
    }
  }

  lemma {:induction false} ValidateRulesIsExact(rules: seq<DeviceRule>, index: nat)
    requires index <= |rules|
    requires (forall i :: 0 <= i < index ==> RuleSound(rules[i])) && NoDuplicates(rules[..index])
    ensures ValidateRules(rules, index).Ok? <==> RulesSound(rules)
    decreases |rules| - index
  {
    hide RuleError, RuleSound, SameSelector;
    if index == |rules| {
      assert rules[..index] == rules;
    } else {
      RuleErrorIsExact(rules[index], index);
      if RuleSound(rules[index]) && forall i :: 0 <= i < index ==> !SameSelector(rules[i], rules[index]) {
        ValidateRulesIsExact(rules, index + 1);
      }
    }
  }

  /** Validation accepts exactly the sound configurations: every rule's selector, alias and step are
      in form, and no two rules share a selector. */
  lemma ValidateIsExact(config: AppConfig)
    ensures Validate(config).Ok? <==> Valid(config)
  {
    hide ValidateRules, RulesSound;
    ValidateRulesIsExact(config.deviceRules, 0);
  }

  /** What an error says of the configuration. */
  ghost predicate IsTrueOf(error: ConfigError, config: AppConfig) {
    var rules := config.deviceRules;
    match error
    case UnsupportedVersion => config.configVersion != 1
    case StepOutOfRange => config.configVersion == 1 && !(0 <= config.discreteScrollStepSize <= 20)
    case EmptySerial(i) => i < |rules| && rules[i].serialNumber.Some? && Blank(rules[i].serialNumber.value)
    case UntrimmedSerial(i) =>
      i < |rules| && rules[i].serialNumber.Some?
      && !Blank(rules[i].serialNumber.value) && !Trimmed(rules[i].serialNumber.value)
    case SerialAndLocation(i) => i < |rules| && rules[i].serialNumber.Some? && rules[i].locationId.Some?
    case ZeroLocation(i) => i < |rules| && rules[i].locationId == Some(0)
    case EmptyAlias(i) => i < |rules| && rules[i].alias.Some? && Blank(rules[i].alias.value)
    case UntrimmedAlias(i) =>
      i < |rules| && rules[i].alias.Some? && !Blank(rules[i].alias.value) && !Trimmed(rules[i].alias.value)
    case InvisibleAlias(i) =>
      i < |rules| && rules[i].alias.Some? && Trimmed(rules[i].alias.value) && !AliasSound(rules[i].alias)
    case RuleStepOutOfRange(i) =>
      i < |rules| && rules[i].stepSize.Some? && !(0 <= rules[i].stepSize.value <= 20)
    case DuplicateSelector(i) =>
      i < |rules| && RuleSound(rules[i]) && exists j :: 0 <= j < i && SameSelector(rules[j], rules[i])
  }

  /** The rules before the one that an error names are in form. */
  ghost predicate IsFirst(error: ConfigError, config: AppConfig) {
    error.UnsupportedVersion? || error.StepOutOfRange?
    || (error.index < |config.deviceRules| && RulesSound(config.deviceRules[..error.index]))
  }

  lemma RuleErrorIsTrue(config: AppConfig, i: nat)
    requires i < |config.deviceRules| && RuleError(config.deviceRules[i], i).Some?
    ensures var error := RuleError(config.deviceRules[i], i).value;
            IsTrueOf(error, config) && !error.UnsupportedVersion? && !error.StepOutOfRange? && error.index == i
  {
    hide Trim, Surrounds;
    var rule := config.deviceRules[i];
    if rule.serialNumber.Some? {
      TrimTrims(rule.serialNumber.value);
    }
    if rule.alias.Some? {
      TrimTrims(rule.alias.value);
    }
  }

  lemma {:induction false} RulesErrorIsTrue(config: AppConfig, index: nat)
    requires index <= |config.deviceRules| && RulesSound(config.deviceRules[..index])
    requires ValidateRules(config.deviceRules, index).Err?
    ensures var error := ValidateRules(config.deviceRules, index).error;
            IsTrueOf(error, config) && IsFirst(error, config)
    decreases |config.deviceRules| - index
  {
    hide RuleError, RuleSound, SameSelector;
    var rules := config.deviceRules;
    RuleErrorIsExact(rules[index], index);
    if RuleError(rules[index], index).Some? {
      RuleErrorIsTrue(config, index);
    } else if forall i :: 0 <= i < index ==> !SameSelector(rules[i], rules[index]) {
      RulesErrorIsTrue(config, index + 1);
    }
  }

  /** What a rejection says is true of the configuration, and it names the first rule that is not in form
      or repeats a selector. */
  lemma RejectionsAreTrue(config: AppConfig)
    requires Validate(config).Err?
    ensures IsTrueOf(Validate(config).error, config) && IsFirst(Validate(config).error, config)
  {
    hide ValidateRules;
    if config.configVersion == 1 && 0 <= config.discreteScrollStepSize <= 20 {
      RulesErrorIsTrue(config, 0);
    }
  }

  /** The qualifier a rule for this identity would carry is in form. */
  predicate Normal(identity: DeviceIdentity) {
    if identity.serialNumber.Some? then Trimmed(identity.serialNumber.value) else identity.locationId != Some(0)
  }

  /** A normalized identity names a selector that validation accepts: a serial that is not blank is kept
      without the white space around it, and a location is kept unless it is zero. */
  lemma NewIdentityIsNormal(hardware: HardwareId, serialNumber: Option<string>, locationId: Option<nat>)
    ensures var identity := NewIdentity(hardware, serialNumber, locationId);
            && Normal(identity) && identity.hardware == hardware
            && (identity.serialNumber.None? <==> serialNumber.None? || Blank(serialNumber.value))
            && (identity.serialNumber.Some? ==> Surrounds(serialNumber.value, identity.serialNumber.value))
            && (forall location :: identity.locationId == Some(location) <==>
                  locationId == Some(location) && location > 0)
  {
    hide Trim;
    if serialNumber.Some? {
      TrimTrims(serialNumber.value);
    }
  }
}
