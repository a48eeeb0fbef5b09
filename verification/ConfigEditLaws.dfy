/** What editing one device's rule does to every device (src/config/device_rules.rs). */
module ConfigEditLaws {
  import opened Prelude
  import opened Text
  import opened ConfigSchema
  import opened ConfigProfiles
  import opened ConfigEdits

  // ---------------------------------------------------------------------
  // Winners in an edited list
  // ---------------------------------------------------------------------

  lemma {:induction false} OthersKeepWinner(
      rules: seq<DeviceRule>, identity: DeviceIdentity, other: DeviceIdentity, setting: Setting)
    requires forall k :: 0 <= k < |rules| && IsPreferredFor(rules[k], identity) ==> !Contends(rules[k], other, setting)
    ensures Winner(Others(rules, identity), other, setting) == Winner(rules, other, setting)
  {
    hide IsPreferredFor, Contends, Specificity, Winner, Others;
    if rules == [] {
      assert Others(rules, identity) == [] by { OthersOfNone(identity); }
    } else {
      var init, last := rules[..|rules| - 1], rules[|rules| - 1];
      assert rules == init + [last];
      OthersKeepWinner(init, identity, other, setting);
      OthersOfAppended(init, last, identity);
      WinnerOfAppended(init, last, other, setting);
      WinnerOfAppended(Others(init, identity), last, other, setting);
      assert Others(init, identity) + [] == Others(init, identity);
      assert IsPreferredFor(last, identity) ==> !Contends(last, other, setting);
    }
  }

  lemma OthersOfNone(identity: DeviceIdentity)
    ensures Others([], identity) == []
  {
  }

  lemma OthersOfAppended(init: seq<DeviceRule>, last: DeviceRule, identity: DeviceIdentity)
    ensures Others(init + [last], identity) ==
      Others(init, identity) + if IsPreferredFor(last, identity) then [] else [last]
  {
    hide IsPreferredFor;
    assert (init + [last])[..|init|] == init;
    assert Others(init, identity) + [] == Others(init, identity);
  }

  lemma WinnerOfAppended(others: seq<DeviceRule>, rule: DeviceRule, other: DeviceIdentity, setting: Setting)
    ensures var best := Winner(others, other, setting);
            Winner(others + [rule], other, setting) ==
              if Contends(rule, other, setting) && (best.None? || Specificity(best.value) <= Specificity(rule))
              then Some(rule) else best
  {
    hide Contends, Specificity;
    assert (others + [rule])[..|others|] == others;
  }

  lemma {:induction false} OthersAreMembers(rules: seq<DeviceRule>, identity: DeviceIdentity)
    ensures forall r :: r in Others(rules, identity) <==> r in rules && !IsPreferredFor(r, identity)
  {
    hide IsPreferredFor;
    if rules == [] {
    } else {
      OthersAreMembers(rules[..|rules| - 1], identity);
      assert rules == rules[..|rules| - 1] + [rules[|rules| - 1]];
    }
  }

  /** A rule the edit reaches matches exactly the devices its selector matches. */
  lemma PreferredMatches(rule: DeviceRule, identity: DeviceIdentity, other: DeviceIdentity)
    requires IsPreferredFor(rule, identity)
    ensures Matches(rule, other) == Reaches(identity, other) && Specificity(rule) == Narrowness(identity)
    ensures SourceForRule(rule) == SourceForRule(InheritingFor(identity, None))
  {
    PreferredIsSelector(rule, identity);
    SelectorDecides(rule, InheritingFor(identity, None), other);
  }

  lemma NothingMatchesNarrower(rule: DeviceRule, identity: DeviceIdentity)
    requires Matches(rule, identity)
    ensures Specificity(rule) <= Narrowness(identity) && Reaches(identity, identity)
  {
  }

  // ---------------------------------------------------------------------
  // Frame: devices the edited selector does not match
  // ---------------------------------------------------------------------

  lemma EditKeepsWinnerElsewhere(
      rules: seq<DeviceRule>, identity: DeviceIdentity, name: Option<string>, edit: Edit,
      other: DeviceIdentity, setting: Setting)
    requires !Reaches(identity, other)
    ensures Winner(Edited(rules, identity, name, edit), other, setting) == Winner(rules, other, setting)
  {
    hide IsPreferredFor, Matches, Winner, Preferred;
    forall rule | IsPreferredFor(rule, identity) ensures !Matches(rule, other) {
      PreferredMatches(rule, identity, other);
    }
    OthersKeepWinner(rules, identity, other, setting);
    var updated := UpdatedRule(Preferred(rules, identity), identity, name, edit);
    UpdatedIsPreferred(rules, identity, name, edit);
    if updated.Some? {
      WinnerOfAppended(Others(rules, identity), updated.value, other, setting);
    } else {
      assert Others(rules, identity) + [] == Others(rules, identity);
    }
  }

  /** No setting and no alias changes for a device that the edited selector does not match. */
  lemma EditStaysLocal(
      config: AppConfig, identity: DeviceIdentity, name: Option<string>, edit: Edit,
      kind: DeviceKind, other: DeviceIdentity)
    requires !Reaches(identity, other)
    ensures var edited := config.(deviceRules := Edited(config.deviceRules, identity, name, edit));
            && Resolve(edited, kind, Some(other)) == Resolve(config, kind, Some(other))
            && DeviceAlias(edited, other) == DeviceAlias(config, other)
  {
    hide Edited, Reaches, Winner;
    forall setting
      ensures Winner(Edited(config.deviceRules, identity, name, edit), other, setting)
           == Winner(config.deviceRules, other, setting)
    {
      EditKeepsWinnerElsewhere(config.deviceRules, identity, name, edit, other, setting);
    }
  }

  // ---------------------------------------------------------------------
  // The edited device
  // ---------------------------------------------------------------------

  /** The rule an edit writes carries the edited value, with the selector of the identity. */
  lemma WrittenRule(rules: seq<DeviceRule>, identity: DeviceIdentity, name: Option<string>, edit: Edit)
    returns (rule: DeviceRule)
    requires !Clears(edit)
    ensures UpdatedRule(Preferred(rules, identity), identity, name, edit) == Some(rule)
    ensures IsPreferredFor(rule, identity) && Sets(rule, SettingOf(edit))
    ensures match edit
            case SetDirection(reverse) => rule.reverse == reverse
            case SetAlias(alias) => rule.alias == alias
  {
    hide Preferred;
    UpdatedIsPreferred(rules, identity, name, edit);
    rule := UpdatedRule(Preferred(rules, identity), identity, name, edit).value;
  }

  /** In the edited list the written rule wins wherever no narrower rule contends. */
  lemma WrittenWins(
      rules: seq<DeviceRule>, identity: DeviceIdentity, name: Option<string>, edit: Edit, other: DeviceIdentity)
    returns (rule: DeviceRule)
    requires !Clears(edit) && Reaches(identity, other)
    ensures var best := Winner(Others(rules, identity), other, SettingOf(edit));
            Winner(Edited(rules, identity, name, edit), other, SettingOf(edit)) ==
              if best.None? || Specificity(best.value) <= Narrowness(identity) then Some(rule) else best
    ensures SourceForRule(rule) == SourceForRule(InheritingFor(identity, None))
    ensures match edit
            case SetDirection(reverse) => rule.reverse == reverse
            case SetAlias(alias) => rule.alias == alias
  {
    hide IsPreferredFor, Matches, Winner, Preferred, UpdatedRule, Specificity, SourceForRule, Reaches, Narrowness,
         InheritingFor, Sets, Others;
    rule := WrittenRule(rules, identity, name, edit);
    PreferredMatches(rule, identity, other);
    WinnerOfAppended(Others(rules, identity), rule, other, SettingOf(edit));
  }

  /** On the edited device itself nothing is narrower. */
  lemma WrittenWinsAtHome(rules: seq<DeviceRule>, identity: DeviceIdentity, name: Option<string>, edit: Edit)
    returns (rule: DeviceRule)
    requires !Clears(edit)
    ensures Winner(Edited(rules, identity, name, edit), identity, SettingOf(edit)) == Some(rule)
    ensures SourceForRule(rule) == SourceForRule(InheritingFor(identity, None))
    ensures match edit
            case SetDirection(reverse) => rule.reverse == reverse
            case SetAlias(alias) => rule.alias == alias
  {
    hide Edited, Matches, Winner, Specificity, SourceForRule, Narrowness, InheritingFor, Others;
    InheritingMatches(identity);
    rule := WrittenWins(rules, identity, name, edit, identity);
    var best := Winner(Others(rules, identity), identity, SettingOf(edit));
    if best.Some? {
      NothingMatchesNarrower(best.value, identity);
    }
  }

  /** The narrowest selector a device supports. */
  function SelectorOf(identity: DeviceIdentity): ProfileSource {
    if identity.serialNumber.Some? then ExactSerial
    else if identity.locationId.Some? then ExactLocation
    else Hardware
  }

  lemma SelectorIsSource(identity: DeviceIdentity)
    ensures SourceForRule(InheritingFor(identity, None)) == SelectorOf(identity)
  {
  }

  /** Selecting a direction makes the device resolve to it, from the narrowest rule it supports,
      whatever the other rules say. */
  lemma DirectionTakesEffect(
      config: AppConfig, identity: DeviceIdentity, name: Option<string>, reverse: bool, kind: DeviceKind)
    ensures var edited := config.(deviceRules := WithDirection(config.deviceRules, identity, name, Some(reverse)));
            Resolve(edited, kind, Some(identity)).reverse ==
              Resolved(reverse, SelectorOf(identity))
  {
    hide Edited, Winner, SourceForRule, InheritingFor, SelectorOf;
    SelectorIsSource(identity);
    var rule := WrittenWinsAtHome(config.deviceRules, identity, name, SetDirection(Some(reverse)));
  }

  lemma InheritingMatches(identity: DeviceIdentity)
    ensures Matches(InheritingFor(identity, None), identity)
  {
  }

  /** What an edit leaves on record. The device keeps a rule of its own exactly if the edit or its old rule
      sets something that is not cleared; the rule takes the edited value and the given name, and keeps
      everything else. It is the only one with its selector, and every other rule stays as it was. */
  lemma EditWritesExactly(rules: seq<DeviceRule>, identity: DeviceIdentity, name: Option<string>, edit: Edit)
    ensures var edited := Edited(rules, identity, name, edit);
            var before := if Preferred(rules, identity).Some? then Preferred(rules, identity).value
                          else InheritingFor(identity, None);
            var after := before.(name := if name.Some? then name else before.name,
                                 reverse := if edit.SetDirection? then edit.reverse else before.reverse,
                                 alias := if edit.SetAlias? then edit.alias else before.alias);
            && (forall rule :: !IsPreferredFor(rule, identity) ==> (rule in edited <==> rule in rules))
            && (forall rule :: IsPreferredFor(rule, identity) ==>
                  (rule in edited <==>
                     && rule == after
                     && (after.reverse.Some? || after.alias.Some? || after.stepSize.Some?
                         || after.smoothPreset.Some?)))
            && (forall i, j :: 0 <= i < j < |edited| ==>
                  !IsPreferredFor(edited[i], identity) || !IsPreferredFor(edited[j], identity))
  {
    hide IsPreferredFor, Preferred, Others;
    OthersAreMembers(rules, identity);
    PreferredIsSelector(InheritingFor(identity, name), identity);
    UpdatedIsPreferred(rules, identity, name, edit);
  }

  /** Likewise an alias. */
  lemma AliasTakesEffect(config: AppConfig, identity: DeviceIdentity, name: Option<string>, alias: string)
    ensures var edited := config.(deviceRules := WithAlias(config.deviceRules, identity, name, Some(alias)));
            DeviceAlias(edited, identity) == Some(alias)
  {
    hide Edited, Winner, SourceForRule, InheritingFor;
    var rule := WrittenWinsAtHome(config.deviceRules, identity, name, SetAlias(Some(alias)));
  }

  // ---------------------------------------------------------------------
  // Devices that share the edited selector
  // ---------------------------------------------------------------------

  /** What the settings other than the preferred rule's would resolve to. */
  lemma WinnerAmongOthers(
      rules: seq<DeviceRule>, identity: DeviceIdentity, other: DeviceIdentity, setting: Setting)
    requires NoDuplicates(rules)
    ensures var w, v := Winner(rules, other, setting), Winner(Others(rules, identity), other, setting);
            if w.Some? && IsPreferredFor(w.value, identity)
            then v.Some? ==> Specificity(v.value) < Specificity(w.value)
            else v == w
  {
    hide IsPreferredFor, Contends, Specificity, Winner, SameSelector, Others;
    var others := Others(rules, identity);
    OthersAreMembers(rules, identity);
    WinnerIsMostSpecific(rules, other, setting);
    WinnerIsMostSpecific(others, other, setting);
    var w, v := Winner(rules, other, setting), Winner(others, other, setting);
    if w.Some? && v.Some? && Specificity(v.value) == Specificity(w.value) {
      SameSpecificityIsSame(rules, w.value, v.value, other, setting);
    }
  }

  lemma SameSpecificityIsSame(
      rules: seq<DeviceRule>, a: DeviceRule, b: DeviceRule, other: DeviceIdentity, setting: Setting)
    requires NoDuplicates(rules) && a in rules && b in rules
    requires Contends(a, other, setting) && Contends(b, other, setting) && Specificity(a) == Specificity(b)
    ensures a == b
  {
    hide SameSelector, Matches, Specificity;
    MatchesFixSelector(a, b, other);
    OnePerSelector(rules, a, b);
  }

  lemma BestOfOthers(
      rules: seq<DeviceRule>, identity: DeviceIdentity, other: DeviceIdentity, setting: Setting)
    requires NoDuplicates(rules)
    ensures var w, v := Winner(rules, other, setting), Winner(Others(rules, identity), other, setting);
            (v.None? || Specificity(v.value) <= Narrowness(identity)) <==>
              (w.None? || Specificity(w.value) <= Narrowness(identity))
    ensures var w, v := Winner(rules, other, setting), Winner(Others(rules, identity), other, setting);
            w.Some? && Specificity(w.value) > Narrowness(identity) ==> v == w
  {
    hide IsPreferredFor, Matches, Winner, Specificity, Narrowness, Reaches, SourceForRule, Others, NoDuplicates;
    WinnerAmongOthers(rules, identity, other, setting);
    var w := Winner(rules, other, setting);
    if w.Some? && IsPreferredFor(w.value, identity) {
      PreferredMatches(w.value, identity, other);
    }
  }

  /** A direction reaches another device through a shared selector exactly where no narrower rule
      already decides for it. */
  lemma DirectionReachesExactly(
      config: AppConfig, identity: DeviceIdentity, name: Option<string>, reverse: bool,
      kind: DeviceKind, other: DeviceIdentity)
    requires Validate(config).Ok? && Reaches(identity, other)
    ensures var edited := config.(deviceRules := WithDirection(config.deviceRules, identity, name, Some(reverse)));
            var winner := Winner(config.deviceRules, other, Direction);
            Resolve(edited, kind, Some(other)).reverse ==
              if winner.Some? && Specificity(winner.value) > Narrowness(identity)
              then Resolve(config, kind, Some(other)).reverse
              else Resolved(reverse, SelectorOf(identity))
  {
    hide Edited, Winner, Specificity, SourceForRule, Validate, Valid, Reaches, NoDuplicates, Narrowness, InheritingFor,
         Others, SelectorOf;
    SelectorIsSource(identity);
    ValidateIsExact(config);
    ValidHasNoDuplicates(config);
    BestOfOthers(config.deviceRules, identity, other, Direction);
    var rule := WrittenWins(config.deviceRules, identity, name, SetDirection(Some(reverse)), other);
  }

  /** Clearing a direction leaves each device to its remaining rules. */
  lemma ClearedDirectionInherits(
      config: AppConfig, identity: DeviceIdentity, name: Option<string>,
      kind: DeviceKind, other: Option<DeviceIdentity>)
    ensures var edited := config.(deviceRules := WithDirection(config.deviceRules, identity, name, None));
            var without := config.(deviceRules := Others(config.deviceRules, identity));
            Resolve(edited, kind, other).reverse == Resolve(without, kind, other).reverse
  {
    hide IsPreferredFor, Matches, Winner, Preferred, Specificity, SourceForRule;
    var rules, others := config.deviceRules, Others(config.deviceRules, identity);
    var updated := UpdatedRule(Preferred(rules, identity), identity, name, SetDirection(None));
    if updated.Some? && other.Some? {
      WinnerOfAppended(others, updated.value, other.value, Direction);
    }
    assert others + [] == others;
  }

  // ---------------------------------------------------------------------
  // The settings an edit does not name
  // ---------------------------------------------------------------------

  /** The two rules give `setting` the same value. */
  predicate SameValue(a: DeviceRule, b: DeviceRule, setting: Setting) {
    match setting
    case Direction => a.reverse == b.reverse
    case StepSize => a.stepSize == b.stepSize
    case Smoothing => a.smoothPreset == b.smoothPreset
    case Label => a.alias == b.alias
  }

  predicate SameOutcome(a: Option<DeviceRule>, b: Option<DeviceRule>, setting: Setting) {
    && (a.Some? <==> b.Some?)
    && (a.Some? ==> SameValue(a.value, b.value, setting) && SourceForRule(a.value) == SourceForRule(b.value))
  }

  lemma WrittenKeeps(rule: DeviceRule, edit: Edit, name: Option<string>, setting: Setting)
    requires setting != SettingOf(edit)
    ensures SameSelector(Written(rule, edit, name), rule) && SameValue(Written(rule, edit, name), rule, setting)
    ensures Sets(Written(rule, edit, name), setting) == Sets(rule, setting)
    ensures Sets(rule, setting) ==> HasOverrides(Written(rule, edit, name))
  {
  }

  lemma PreferredIsTheOnly(rules: seq<DeviceRule>, identity: DeviceIdentity, rule: DeviceRule)
    requires NoDuplicates(rules) && rule in rules && IsPreferredFor(rule, identity)
    ensures Preferred(rules, identity) == Some(rule)
  {
    hide Preferred;
    var found := Preferred(rules, identity);
    PreferredIsSelector(rule, identity);
    PreferredIsSelector(found.value, identity);
    OnePerSelector(rules, rule, found.value);
  }

  /** What becomes of the preferred rule: the same value and selector, or no rule if it set nothing else. */
  lemma UpdatedKeeps(
      preferred: Option<DeviceRule>, identity: DeviceIdentity, name: Option<string>, edit: Edit,
      other: DeviceIdentity, setting: Setting)
    requires setting != SettingOf(edit)
    ensures var updated := UpdatedRule(preferred, identity, name, edit);
            && (updated.Some? && Contends(updated.value, other, setting) <==>
                  preferred.Some? && Contends(preferred.value, other, setting))
            && (updated.Some? && preferred.Some? ==>
                  SameSelector(updated.value, preferred.value) && SameValue(updated.value, preferred.value, setting))
  {
    hide Matches;
    if preferred.Some? {
      WrittenKeeps(preferred.value, edit, name, setting);
      SelectorDecides(Written(preferred.value, edit, name), preferred.value, other);
    }
  }

  lemma EditKeepsOtherWinner(
      rules: seq<DeviceRule>, identity: DeviceIdentity, name: Option<string>, edit: Edit,
      other: DeviceIdentity, setting: Setting)
    requires NoDuplicates(rules) && setting != SettingOf(edit)
    ensures SameOutcome(Winner(Edited(rules, identity, name, edit), other, setting),
                        Winner(rules, other, setting), setting)
  {
    hide IsPreferredFor, Contends, Winner, Specificity, SourceForRule, NoDuplicates, UpdatedRule, SameValue,
         Others, SameSelector, Preferred;
    var others, preferred := Others(rules, identity), Preferred(rules, identity);
    var updated := UpdatedRule(preferred, identity, name, edit);
    var w := Winner(rules, other, setting);
    WinnerAmongOthers(rules, identity, other, setting);
    UpdatedKeeps(preferred, identity, name, edit, other, setting);
    if w.Some? && IsPreferredFor(w.value, identity) {
      PreferredIsTheOnly(rules, identity, w.value);
    }
    if updated.Some? {
      WinnerOfAppended(others, updated.value, other, setting);
      if preferred.Some? {
        SelectorDecides(updated.value, preferred.value, other);
        if Contends(preferred.value, other, setting) {
          ContenderLosesTo(rules, preferred.value, other, setting);
        }
      }
    } else {
      assert others + [] == others;
    }
    forall r ensures SameValue(r, r, setting) { SameValueReflexive(r, setting); }
  }

  lemma SameValueReflexive(rule: DeviceRule, setting: Setting)
    ensures SameValue(rule, rule, setting)
  {
  }

  lemma ContenderLosesTo(rules: seq<DeviceRule>, rule: DeviceRule, other: DeviceIdentity, setting: Setting)
    requires NoDuplicates(rules) && rule in rules && Contends(rule, other, setting)
    ensures Winner(rules, other, setting).Some?
    ensures var w := Winner(rules, other, setting).value;
            w == rule || Specificity(rule) < Specificity(w)
  {
    hide Specificity, Winner, NoDuplicates, Contends;
    WinnerIsMostSpecific(rules, other, setting);
    var w := Winner(rules, other, setting).value;
    if Specificity(rule) == Specificity(w) {
      SameSpecificityIsSame(rules, rule, w, other, setting);
    }
  }

  /** Selecting a direction changes no other setting and no alias, of any device. */
  lemma DirectionTouchesNothingElse(
      config: AppConfig, identity: DeviceIdentity, name: Option<string>, selection: Option<bool>,
      kind: DeviceKind, other: DeviceIdentity)
    requires Validate(config).Ok?
    ensures var edited := config.(deviceRules := WithDirection(config.deviceRules, identity, name, selection));
            var before, after := Resolve(config, kind, Some(other)), Resolve(edited, kind, Some(other));
            && after.stepSize == before.stepSize && after.smoothPreset == before.smoothPreset
            && DeviceAlias(edited, other) == DeviceAlias(config, other)
  {
    hide Edited, Winner, Validate, Valid, NoDuplicates, SourceForRule;
    ValidateIsExact(config);
    ValidHasNoDuplicates(config);
    EditKeepsOtherWinner(config.deviceRules, identity, name, SetDirection(selection), other, StepSize);
    EditKeepsOtherWinner(config.deviceRules, identity, name, SetDirection(selection), other, Smoothing);
    EditKeepsOtherWinner(config.deviceRules, identity, name, SetDirection(selection), other, Label);
  }

  /** Setting an alias changes no resolved setting, of any device. */
  lemma AliasTouchesNothingElse(
      config: AppConfig, identity: DeviceIdentity, name: Option<string>, alias: Option<string>,
      kind: DeviceKind, other: DeviceIdentity)
    requires Validate(config).Ok?
    ensures var edited := config.(deviceRules := WithAlias(config.deviceRules, identity, name, alias));
            Resolve(edited, kind, Some(other)) == Resolve(config, kind, Some(other))
  {
    hide Edited, Winner, Validate, Valid, NoDuplicates, SourceForRule;
    ValidateIsExact(config);
    ValidHasNoDuplicates(config);
    EditKeepsOtherWinner(config.deviceRules, identity, name, SetAlias(alias), other, Direction);
    EditKeepsOtherWinner(config.deviceRules, identity, name, SetAlias(alias), other, StepSize);
    EditKeepsOtherWinner(config.deviceRules, identity, name, SetAlias(alias), other, Smoothing);
  }

  // ---------------------------------------------------------------------
  // Validity
  // ---------------------------------------------------------------------

  lemma {:induction false} OthersStaySound(rules: seq<DeviceRule>, identity: DeviceIdentity)
    requires RulesSound(rules)
    ensures RulesSound(Others(rules, identity))
  {
    hide IsPreferredFor, RuleSound, SameSelector;
    if rules == [] {
    } else {
      var init := rules[..|rules| - 1];
      OthersStaySound(init, identity);
      OthersAreMembers(init, identity);
    }
  }

  /** The rule an edit leaves is the only one with its selector, so it decides validity. */
  lemma EditedIsSound(rules: seq<DeviceRule>, identity: DeviceIdentity, name: Option<string>, edit: Edit)
    requires RulesSound(rules)
    ensures var updated := UpdatedRule(Preferred(rules, identity), identity, name, edit);
            RulesSound(Edited(rules, identity, name, edit)) <==> (updated.Some? ==> RuleSound(updated.value))
  {
    hide IsPreferredFor, RuleSound, SameSelector, Preferred, Others, UpdatedRule;
    var others := Others(rules, identity);
    OthersStaySound(rules, identity);
    var updated := UpdatedRule(Preferred(rules, identity), identity, name, edit);
    UpdatedIsPreferred(rules, identity, name, edit);
    assert others + [] == others;
    if updated.Some? {
      var edited := others + [updated.value];
      assert edited[|others|] == updated.value;
      forall i | 0 <= i < |others| ensures !SameSelector(others[i], updated.value) {
        if SameSelector(others[i], updated.value) {
          SelectorDecides(others[i], updated.value, identity);
        }
      }
    }
  }

  /** What the edited value itself must satisfy. */
  predicate EditSound(edit: Edit) {
    edit.SetAlias? ==> AliasSound(edit.alias)
  }

  lemma UpdatedIsSound(rules: seq<DeviceRule>, identity: DeviceIdentity, name: Option<string>, edit: Edit)
    requires RulesSound(rules)
    ensures var updated := UpdatedRule(Preferred(rules, identity), identity, name, edit);
            (updated.Some? ==> RuleSound(updated.value)) <==> (Clears(edit) || (Normal(identity) && EditSound(edit)))
  {
    hide Preferred, Trimmed, NoDuplicates;
    var preferred := Preferred(rules, identity);
    if preferred.Some? {
      var k :| 0 <= k < |rules| && rules[k] == preferred.value;
      assert RuleSound(rules[k]);
    }
  }

  /** Selecting a direction keeps a valid configuration valid exactly when the identity is normalized,
      as every identity made by `DeviceIdentity::new` is; clearing one always does. */
  lemma DirectionKeepsValidity(
      config: AppConfig, identity: DeviceIdentity, name: Option<string>, selection: Option<bool>)
    requires Validate(config).Ok?
    ensures Validate(config.(deviceRules := WithDirection(config.deviceRules, identity, name, selection))).Ok? <==>
              (selection.None? || Normal(identity))
  {
    hide Validate, RulesSound, Normal, Edited;
    var edit := SetDirection(selection);
    ValidateIsExact(config);
    ValidateIsExact(config.(deviceRules := Edited(config.deviceRules, identity, name, edit)));
    EditedIsSound(config.deviceRules, identity, name, edit);
    UpdatedIsSound(config.deviceRules, identity, name, edit);
  }

  /** An alias must besides be one that validation accepts. */
  lemma AliasKeepsValidity(config: AppConfig, identity: DeviceIdentity, name: Option<string>, alias: Option<string>)
    requires Validate(config).Ok?
    ensures Validate(config.(deviceRules := WithAlias(config.deviceRules, identity, name, alias))).Ok? <==>
              (alias.None? || (Normal(identity) && AliasSound(alias)))
  {
    hide Validate, RulesSound, Normal, Edited, AliasSound;
    var edit := SetAlias(alias);
    ValidateIsExact(config);
    ValidateIsExact(config.(deviceRules := Edited(config.deviceRules, identity, name, edit)));
    EditedIsSound(config.deviceRules, identity, name, edit);
    UpdatedIsSound(config.deviceRules, identity, name, edit);
  }
}
