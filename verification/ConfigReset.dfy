/** Scoped resets (src/config/reset.rs). */
module ConfigReset {
  import opened Prelude
  import opened Preset
  import opened ConfigSchema
  import opened ConfigProfiles
  import opened ConfigEdits
  import opened ConfigEditLaws

  function ClearSmoothing(rule: DeviceRule): DeviceRule {
    rule.(smoothPreset := None)
  }

  function ClearDynamics(rule: DeviceRule): DeviceRule {
    rule.(stepSize := None, smoothPreset := None)
  }

  /** What a reset clears in every rule. */
  datatype Scope = Rollback | Dynamics

  function Cleared(rule: DeviceRule, scope: Scope): DeviceRule {
    if scope.Rollback? then ClearSmoothing(rule) else ClearDynamics(rule)
  }

  function ClearedAll(rules: seq<DeviceRule>, scope: Scope): (r: seq<DeviceRule>)
    ensures |r| == |rules| && forall k :: 0 <= k < |r| ==> r[k] == Cleared(rules[k], scope)
  {
    if rules == [] then []
    else ClearedAll(rules[..|rules| - 1], scope) + [Cleared(rules[|rules| - 1], scope)]
  }

  /** `retain(has_profile_overrides)` */
  function Retained(rules: seq<DeviceRule>): seq<DeviceRule> {
    if rules == [] then []
    else Retained(rules[..|rules| - 1]) + if HasOverrides(rules[|rules| - 1]) then [rules[|rules| - 1]] else []
  }

  /** Every rule cleared, and the rules that no longer set anything dropped. */
  function Reset(rules: seq<DeviceRule>, scope: Scope): seq<DeviceRule> {
    Retained(ClearedAll(rules, scope))
  }

  function RolledBack(config: AppConfig): AppConfig {
    config.(smoothPreset := Off, deviceRules := Reset(config.deviceRules, Rollback))
  }

  function DynamicsReset(config: AppConfig): AppConfig {
    config.(discreteScrollStepSize := Default().discreteScrollStepSize, smoothPreset := Default().smoothPreset,
            showDiscreteScrollOptions := Default().showDiscreteScrollOptions,
            deviceRules := Reset(config.deviceRules, Dynamics))
  }

  // ---------------------------------------------------------------------
  // The operations, updating a copy in place
  // ---------------------------------------------------------------------

  method WithDynamicsRollback(config: AppConfig) returns (rollback: AppConfig)
    ensures rollback == RolledBack(config)
  {
    rollback := config.(smoothPreset := Off);
    var rules := rollback.deviceRules;
    for i := 0 to |rules|
      invariant |rules| == |config.deviceRules|
      invariant forall k :: 0 <= k < i ==> rules[k] == Cleared(config.deviceRules[k], Rollback)
      invariant forall k :: i <= k < |rules| ==> rules[k] == config.deviceRules[k]
    {
      rules := rules[i := rules[i].(smoothPreset := None)];
    }
    assert rules == ClearedAll(config.deviceRules, Rollback);
    rollback := rollback.(deviceRules := Retained(rules));
  }

  method WithDynamicsDefaults(config: AppConfig) returns (reset: AppConfig)
    ensures reset == DynamicsReset(config)
  {
    var defaults := Default();
    reset := config.(discreteScrollStepSize := defaults.discreteScrollStepSize);
    reset := reset.(smoothPreset := defaults.smoothPreset);
    reset := reset.(showDiscreteScrollOptions := defaults.showDiscreteScrollOptions);
    var rules := reset.deviceRules;
    for i := 0 to |rules|
      invariant |rules| == |config.deviceRules|
      invariant forall k :: 0 <= k < i ==> rules[k] == Cleared(config.deviceRules[k], Dynamics)
      invariant forall k :: i <= k < |rules| ==> rules[k] == config.deviceRules[k]
    {
      rules := rules[i := rules[i].(stepSize := None)];
      rules := rules[i := rules[i].(smoothPreset := None)];
    }
    assert rules == ClearedAll(config.deviceRules, Dynamics);
    reset := reset.(deviceRules := Retained(rules));
  }

  function WithoutDeviceProfile(config: AppConfig, identity: DeviceIdentity): AppConfig {
    config.(deviceRules := Others(config.deviceRules, identity))
  }

  // ---------------------------------------------------------------------
  // Meaning
  // ---------------------------------------------------------------------

  predicate ResetClears(scope: Scope, setting: Setting) {
    setting == Smoothing || (scope.Dynamics? && setting == StepSize)
  }

  lemma ClearedKeeps(rule: DeviceRule, scope: Scope, setting: Setting)
    ensures SameSelector(Cleared(rule, scope), rule)
    ensures Sets(Cleared(rule, scope), setting) <==> Sets(rule, setting) && !ResetClears(scope, setting)
    ensures !ResetClears(scope, setting) ==> SameValue(Cleared(rule, scope), rule, setting)
    ensures Cleared(Cleared(rule, scope), scope) == Cleared(rule, scope)
    ensures Sets(Cleared(rule, scope), setting) ==> HasOverrides(Cleared(rule, scope))
  {
  }

  lemma ResetOfAppended(init: seq<DeviceRule>, last: DeviceRule, scope: Scope)
    ensures Reset(init + [last], scope) ==
      Reset(init, scope) + if HasOverrides(Cleared(last, scope)) then [Cleared(last, scope)] else []
  {
    hide HasOverrides, Cleared;
    var cleared := ClearedAll(init, scope);
    assert (init + [last])[..|init|] == init;
    assert ClearedAll(init + [last], scope) == cleared + [Cleared(last, scope)];
    assert (cleared + [Cleared(last, scope)])[..|cleared|] == cleared;
  }

  lemma ResetOfNone(scope: Scope)
    ensures Reset([], scope) == []
  {
  }

  /** The winner of a setting is the cleared form of what it was, and gone if the setting is cleared. */
  lemma {:induction false} ResetWinner(
      rules: seq<DeviceRule>, scope: Scope, identity: DeviceIdentity, setting: Setting)
    ensures var w := Winner(rules, identity, setting);
            Winner(Reset(rules, scope), identity, setting) ==
              if ResetClears(scope, setting) || w.None? then None else Some(Cleared(w.value, scope))
  {
    hide Winner, Reset, Matches, Sets, Specificity, HasOverrides, Cleared, SourceForRule, IsPreferredFor,
         SameSelector, SameValue, ResetClears;
    if rules == [] {
      ResetOfNone(scope);
      NoWinner(identity, setting);
    } else {
      var init, last := rules[..|rules| - 1], rules[|rules| - 1];
      assert rules == init + [last];
      var cleared := Cleared(last, scope);
      ResetWinner(init, scope, identity, setting);
      ResetOfAppended(init, last, scope);
      WinnerOfAppended(init, last, identity, setting);
      WinnerOfAppended(Reset(init, scope), cleared, identity, setting);
      ClearedKeeps(last, scope, setting);
      SelectorDecides(cleared, last, identity);
      assert Reset(init, scope) + [] == Reset(init, scope);
      var best := Winner(init, identity, setting);
      if best.Some? {
        ClearedKeeps(best.value, scope, setting);
        SelectorDecides(Cleared(best.value, scope), best.value, identity);
      }
    }
  }

  lemma NoWinner(identity: DeviceIdentity, setting: Setting)
    ensures Winner([], identity, setting) == None
  {
  }

  /** A rollback leaves direction, step and alias of every device as they were and turns smoothing off
      everywhere. */
  lemma RollbackKeepsMeaning(config: AppConfig, kind: DeviceKind, identity: Option<DeviceIdentity>)
    ensures var before, after := Resolve(config, kind, identity), Resolve(RolledBack(config), kind, identity);
            && after.reverse == before.reverse && after.stepSize == before.stepSize
            && after.smoothPreset == Resolved(Off, GlobalDefault)
    ensures identity.Some? ==> DeviceAlias(RolledBack(config), identity.value) == DeviceAlias(config, identity.value)
  {
    hide Winner, Reset;
    if identity.Some? {
      ResetWinner(config.deviceRules, Rollback, identity.value, Direction);
      ResetWinner(config.deviceRules, Rollback, identity.value, StepSize);
      ResetWinner(config.deviceRules, Rollback, identity.value, Smoothing);
      ResetWinner(config.deviceRules, Rollback, identity.value, Label);
    }
  }

  /** A dynamics reset leaves direction and alias of every device as they were; step and smoothing are
      the defaults everywhere. */
  lemma DynamicsResetKeepsMeaning(config: AppConfig, kind: DeviceKind, identity: Option<DeviceIdentity>)
    ensures var before, after := Resolve(config, kind, identity), Resolve(DynamicsReset(config), kind, identity);
            && after.reverse == before.reverse
            && after.stepSize == Resolved(3, GlobalDefault)
            && after.smoothPreset == Resolved(Off, GlobalDefault)
    ensures identity.Some? ==> DeviceAlias(DynamicsReset(config), identity.value) == DeviceAlias(config, identity.value)
  {
    hide Winner, Reset;
    if identity.Some? {
      ResetWinner(config.deviceRules, Dynamics, identity.value, Direction);
      ResetWinner(config.deviceRules, Dynamics, identity.value, StepSize);
      ResetWinner(config.deviceRules, Dynamics, identity.value, Smoothing);
      ResetWinner(config.deviceRules, Dynamics, identity.value, Label);
    }
  }

  lemma {:induction false} ResetLeaves(rules: seq<DeviceRule>, scope: Scope, rule: DeviceRule)
    ensures rule in Reset(rules, scope) <==>
      HasOverrides(rule) && exists k :: 0 <= k < |rules| && rule == Cleared(rules[k], scope)
  {
    hide Reset, HasOverrides, Cleared;
    if rules == [] {
      ResetOfNone(scope);
    } else {
      var init, last := rules[..|rules| - 1], rules[|rules| - 1];
      assert rules == init + [last];
      ResetLeaves(init, scope, rule);
      ResetOfAppended(init, last, scope);
      assert rule == Cleared(last, scope) ==> rule == Cleared(rules[|rules| - 1], scope);
      forall k | 0 <= k < |init| && rule == Cleared(init[k], scope) ensures rule == Cleared(rules[k], scope) {
      }
    }
  }

  /** A reset changes nothing but what it is for: the rules left are the old ones with the cleared fields
      empty, without those that then set nothing. */
  lemma ResetsLeaveExactly(config: AppConfig, rule: DeviceRule)
    ensures var after := RolledBack(config);
            && after == config.(smoothPreset := Off, deviceRules := after.deviceRules)
            && (rule in after.deviceRules <==>
                  && (rule.alias.Some? || rule.reverse.Some? || rule.stepSize.Some?) && rule.smoothPreset.None?
                  && exists was :: was in config.deviceRules && rule == was.(smoothPreset := None))
    ensures var after := DynamicsReset(config);
            && after == config.(discreteScrollStepSize := 3, smoothPreset := Off, showDiscreteScrollOptions := false,
                                deviceRules := after.deviceRules)
            && (rule in after.deviceRules <==>
                  && (rule.alias.Some? || rule.reverse.Some?) && rule.stepSize.None? && rule.smoothPreset.None?
                  && exists was :: was in config.deviceRules
                       && rule == was.(stepSize := None, smoothPreset := None))
  {
    hide Reset;
    ResetLeaves(config.deviceRules, Rollback, rule);
    ResetLeaves(config.deviceRules, Dynamics, rule);
    forall r | r in config.deviceRules
      ensures exists k :: 0 <= k < |config.deviceRules| && config.deviceRules[k] == r
    {
    }
  }

  lemma {:induction false} ResetTwice(rules: seq<DeviceRule>, scope: Scope)
    ensures Reset(Reset(rules, scope), scope) == Reset(rules, scope)
  {
    hide Reset, HasOverrides, Cleared, SameSelector, SameValue, Sets;
    if rules == [] {
      ResetOfNone(scope);
    } else {
      var init, last := rules[..|rules| - 1], rules[|rules| - 1];
      assert rules == init + [last];
      ResetTwice(init, scope);
      ResetOfAppended(init, last, scope);
      ClearedKeeps(last, scope, Direction);
      ResetOfAppended(Reset(init, scope), Cleared(last, scope), scope);
      assert Reset(init, scope) + [] == Reset(init, scope);
    }
  }

  /** Resetting again changes nothing. */
  lemma ResetsAreIdempotent(config: AppConfig)
    ensures RolledBack(RolledBack(config)) == RolledBack(config)
    ensures DynamicsReset(DynamicsReset(config)) == DynamicsReset(config)
  {
    hide Reset;
    ResetTwice(config.deviceRules, Rollback);
    ResetTwice(config.deviceRules, Dynamics);
  }

  /** Every rule left is a cleared rule of the original, in a place no other rule's selector takes. */
  lemma {:induction false} ResetStaysSound(rules: seq<DeviceRule>, scope: Scope)
    requires RulesSound(rules)
    ensures RulesSound(Reset(rules, scope))
    ensures forall r :: r in Reset(rules, scope) ==> exists k :: 0 <= k < |rules| && SameSelector(r, rules[k])
  {
    hide Reset, RuleSound, HasOverrides, Cleared, SameSelector, SameValue, Sets;
    if rules == [] {
      ResetOfNone(scope);
    } else {
      var init, last := rules[..|rules| - 1], rules[|rules| - 1];
      assert rules == init + [last];
      assert forall k :: 0 <= k < |init| ==> init[k] == rules[k];
      ResetStaysSound(init, scope);
      ResetOfAppended(init, last, scope);
      ClearedIsSound(last, scope);
      var before := Reset(init, scope);
      forall i | 0 <= i < |before| ensures !SameSelector(before[i], Cleared(last, scope)) {
        assert before[i] in before;
        var k :| 0 <= k < |init| && SameSelector(before[i], init[k]);
        SelectorsDiffer(before[i], init[k], last, Cleared(last, scope));
      }
      assert before + [] == before;
    }
  }

  lemma ClearedIsSound(rule: DeviceRule, scope: Scope)
    requires RuleSound(rule)
    ensures RuleSound(Cleared(rule, scope)) && SameSelector(Cleared(rule, scope), rule)
  {
    hide AliasSound;
  }

  lemma SelectorsDiffer(a: DeviceRule, b: DeviceRule, c: DeviceRule, d: DeviceRule)
    requires SameSelector(a, b) && !SameSelector(b, c) && SameSelector(d, c)
    ensures !SameSelector(a, d)
  {
  }

  /** Resets and the removal of a device's rule keep a valid configuration valid. */
  lemma ResetsKeepValidity(config: AppConfig, identity: DeviceIdentity)
    requires Validate(config).Ok?
    ensures Validate(RolledBack(config)).Ok?
    ensures Validate(DynamicsReset(config)).Ok?
    ensures Validate(WithoutDeviceProfile(config, identity)).Ok?
  {
    hide Validate, Reset, RulesSound, Others;
    ValidateIsExact(config);
    ValidateIsExact(RolledBack(config));
    ValidateIsExact(DynamicsReset(config));
    ValidateIsExact(WithoutDeviceProfile(config, identity));
    ResetStaysSound(config.deviceRules, Rollback);
    ResetStaysSound(config.deviceRules, Dynamics);
    OthersStaySound(config.deviceRules, identity);
  }

  lemma OthersOfEdited(rules: seq<DeviceRule>, identity: DeviceIdentity, name: Option<string>, edit: Edit)
    ensures Others(Edited(rules, identity, name, edit), identity) == Others(rules, identity)
  {
    hide IsPreferredFor, Others, UpdatedRule, Preferred;
    var others := Others(rules, identity);
    UpdatedIsPreferred(rules, identity, name, edit);
    OthersOfOthers(rules, identity);
    var updated := UpdatedRule(Preferred(rules, identity), identity, name, edit);
    assert others + [] == others;
    if updated.Some? {
      OthersOfAppended(others, updated.value, identity);
    }
  }

  lemma OthersAreAllExactly(rules: seq<DeviceRule>, identity: DeviceIdentity)
    ensures Others(rules, identity) == rules <==> Preferred(rules, identity).None?
    ensures Preferred(Others(rules, identity), identity).None?
  {
    hide IsPreferredFor, Others, Preferred;
    if Preferred(rules, identity).None? {
      NothingToRemove(rules, identity);
    }
  }

  /** Removing a device's rule undoes every edit of that device, and removes nothing exactly where it
      has none. */
  lemma RemovalUndoesEdits(config: AppConfig, identity: DeviceIdentity, name: Option<string>, edit: Edit)
    ensures var edited := config.(deviceRules := Edited(config.deviceRules, identity, name, edit));
            WithoutDeviceProfile(edited, identity) == WithoutDeviceProfile(config, identity)
    ensures WithoutDeviceProfile(config, identity) == config <==> Preferred(config.deviceRules, identity).None?
    ensures Preferred(WithoutDeviceProfile(config, identity).deviceRules, identity).None?
  {
    hide IsPreferredFor, Edited, Others, Preferred;
    OthersOfEdited(config.deviceRules, identity, name, edit);
    OthersAreAllExactly(config.deviceRules, identity);
  }

  /** A device without a rule of its own has none again after a direction or an alias is given to it and
      then cleared: the whole list is as it was. */
  lemma ClearingUndoesEdit(
      rules: seq<DeviceRule>, identity: DeviceIdentity, name: Option<string>, again: Option<string>,
      edit: Edit, clear: Edit)
    requires Preferred(rules, identity).None? && Clears(clear) && SettingOf(clear) == SettingOf(edit)
    ensures Edited(Edited(rules, identity, name, edit), identity, again, clear) == rules
  {
    hide IsPreferredFor, Others, Preferred;
    var edited := Edited(rules, identity, name, edit);
    OthersOfEdited(rules, identity, name, edit);
    OthersAreAllExactly(rules, identity);
    assert rules + [] == rules;
    var updated := UpdatedRule(None, identity, name, edit);
    if updated.Some? {
      UpdatedIsPreferred(rules, identity, name, edit);
      PreferredAfter(rules, updated.value, identity);
    }
  }

  /** Removing a device's rule changes nothing for the devices its selector does not match. */
  lemma RemovalStaysLocal(config: AppConfig, identity: DeviceIdentity, kind: DeviceKind, other: DeviceIdentity)
    requires !Reaches(identity, other)
    ensures Resolve(WithoutDeviceProfile(config, identity), kind, Some(other)) == Resolve(config, kind, Some(other))
    ensures DeviceAlias(WithoutDeviceProfile(config, identity), other) == DeviceAlias(config, other)
  {
    hide Winner, Others, Reaches;
    forall setting
      ensures Winner(Others(config.deviceRules, identity), other, setting) == Winner(config.deviceRules, other, setting)
    {
      UnreachedKeepWinner(config.deviceRules, identity, other, setting);
    }
  }

  lemma UnreachedKeepWinner(
      rules: seq<DeviceRule>, identity: DeviceIdentity, other: DeviceIdentity, setting: Setting)
    requires !Reaches(identity, other)
    ensures Winner(Others(rules, identity), other, setting) == Winner(rules, other, setting)
  {
    hide IsPreferredFor, Winner, Others, Matches;
    forall rule | IsPreferredFor(rule, identity) ensures !Contends(rule, other, setting) {
      PreferredMatches(rule, identity, other);
    }
    OthersKeepWinner(rules, identity, other, setting);
  }

  lemma {:induction false} NothingToRemove(rules: seq<DeviceRule>, identity: DeviceIdentity)
    requires forall k :: 0 <= k < |rules| ==> !IsPreferredFor(rules[k], identity)
    ensures Others(rules, identity) == rules
  {
    hide IsPreferredFor;
    if rules == [] {
    } else {
      NothingToRemove(rules[..|rules| - 1], identity);
    }
  }
}
