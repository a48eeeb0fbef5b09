/** Editing one device's rule (src/config/device_rules.rs). */
module ConfigEdits {
  import opened Prelude
  import opened ConfigSchema
  import opened ConfigProfiles

  function InheritingFor(identity: DeviceIdentity, name: Option<string>): DeviceRule {
    DeviceRule(identity.hardware.vendorId, identity.hardware.productId, identity.serialNumber,
               if identity.serialNumber.None? then identity.locationId else None,
               name, None, None, None, None)
  }

  predicate HasOverrides(rule: DeviceRule) {
    rule.alias.Some? || rule.reverse.Some? || rule.stepSize.Some? || rule.smoothPreset.Some?
  }

  predicate IsPreferredFor(rule: DeviceRule, identity: DeviceIdentity) {
    && rule.vendorId == identity.hardware.vendorId
    && rule.productId == identity.hardware.productId
    && if identity.serialNumber.Some? then rule.serialNumber == identity.serialNumber && rule.locationId.None?
       else if identity.locationId.Some? then rule.serialNumber.None? && rule.locationId == identity.locationId
       else rule.serialNumber.None? && rule.locationId.None?
  }

  /** The first rule with the narrowest selector this identity supports. */
  function Preferred(rules: seq<DeviceRule>, identity: DeviceIdentity): (r: Option<DeviceRule>)
    ensures r.Some? ==> r.value in rules && IsPreferredFor(r.value, identity)
    ensures r.None? ==> forall k :: 0 <= k < |rules| ==> !IsPreferredFor(rules[k], identity)
  {
    if rules == [] then None
    else if IsPreferredFor(rules[0], identity) then Some(rules[0])
    else Preferred(rules[1..], identity)
  }

  /** The other rules, in order. */
  function Others(rules: seq<DeviceRule>, identity: DeviceIdentity): (r: seq<DeviceRule>)
    ensures forall k :: 0 <= k < |r| ==> r[k] in rules && !IsPreferredFor(r[k], identity)
  {
    if rules == [] then []
    else
      var init := Others(rules[..|rules| - 1], identity);
      var last := rules[|rules| - 1];
      if IsPreferredFor(last, identity) then init else init + [last]
  }

  /** What an edit writes: a direction or an alias, either of which may be cleared. */
  datatype Edit = SetDirection(reverse: Option<bool>) | SetAlias(alias: Option<string>)

  predicate Clears(edit: Edit) {
    match edit
    case SetDirection(reverse) => reverse.None?
    case SetAlias(alias) => alias.None?
  }

  function SettingOf(edit: Edit): Setting {
    if edit.SetDirection? then Direction else Label
  }

  function Written(rule: DeviceRule, edit: Edit, name: Option<string>): DeviceRule {
    var named := if name.Some? then rule.(name := name) else rule;
    match edit
    case SetDirection(reverse) => named.(reverse := reverse)
    case SetAlias(alias) => named.(alias := alias)
  }

  /** The edited device's new rule, if it keeps one. */
  function UpdatedRule(
      preferred: Option<DeviceRule>, identity: DeviceIdentity, name: Option<string>, edit: Edit)
    : Option<DeviceRule>
  {
    if preferred.None? && Clears(edit) then None
    else
      var rule := Written(if preferred.Some? then preferred.value else InheritingFor(identity, name), edit, name);
      if HasOverrides(rule) then Some(rule) else None
  }

  /** `update_preferred_rule` as both edits use it. */
  function Edited(rules: seq<DeviceRule>, identity: DeviceIdentity, name: Option<string>, edit: Edit)
    : seq<DeviceRule>
  {
    var updated := UpdatedRule(Preferred(rules, identity), identity, name, edit);
    Others(rules, identity) + if updated.Some? then [updated.value] else []
  }

  function WithDirection(
      rules: seq<DeviceRule>, identity: DeviceIdentity, name: Option<string>, selection: Option<bool>)
    : seq<DeviceRule>
  {
    Edited(rules, identity, name, SetDirection(selection))
  }

  function WithAlias(rules: seq<DeviceRule>, identity: DeviceIdentity, name: Option<string>, alias: Option<string>)
    : seq<DeviceRule>
  {
    Edited(rules, identity, name, SetAlias(alias))
  }

  /** Whether the rule that edits for `identity` write also applies to `other`. */
  predicate Reaches(identity: DeviceIdentity, other: DeviceIdentity) {
    Matches(InheritingFor(identity, None), other)
  }

  function Narrowness(identity: DeviceIdentity): nat {
    Specificity(InheritingFor(identity, None))
  }

  // ---------------------------------------------------------------------
  // The pieces of an edited list
  // ---------------------------------------------------------------------

  /** Being preferred for an identity is carrying exactly the selector its edits write. */
  lemma PreferredIsSelector(rule: DeviceRule, identity: DeviceIdentity)
    ensures IsPreferredFor(rule, identity) <==> SameSelector(rule, InheritingFor(identity, None))
  {
  }

  lemma SelectorDecides(a: DeviceRule, b: DeviceRule, identity: DeviceIdentity)
    requires SameSelector(a, b)
    ensures Matches(a, identity) == Matches(b, identity) && Specificity(a) == Specificity(b)
    ensures SourceForRule(a) == SourceForRule(b) && IsPreferredFor(a, identity) == IsPreferredFor(b, identity)
  {
  }

  lemma UpdatedIsPreferred(rules: seq<DeviceRule>, identity: DeviceIdentity, name: Option<string>, edit: Edit)
    ensures var updated := UpdatedRule(Preferred(rules, identity), identity, name, edit);
            updated.Some? ==> IsPreferredFor(updated.value, identity) && HasOverrides(updated.value)
  {
    PreferredIsSelector(InheritingFor(identity, name), identity);
  }

  lemma {:induction false} OthersOfOthers(rules: seq<DeviceRule>, identity: DeviceIdentity)
    ensures Others(Others(rules, identity), identity) == Others(rules, identity)
  {
    hide IsPreferredFor;
    if rules == [] {
    } else {
      var init, last := rules[..|rules| - 1], rules[|rules| - 1];
      OthersOfOthers(init, identity);
      if !IsPreferredFor(last, identity) {
        var others := Others(init, identity);
        assert (others + [last])[..|others|] == others;
      }
    }
  }

  lemma {:induction false} PreferredAfter(others: seq<DeviceRule>, rule: DeviceRule, identity: DeviceIdentity)
    requires forall k :: 0 <= k < |others| ==> !IsPreferredFor(others[k], identity)
    requires IsPreferredFor(rule, identity)
    ensures Preferred(others + [rule], identity) == Some(rule)
  {
    hide IsPreferredFor;
    if others == [] {
    } else {
      assert (others + [rule])[1..] == others[1..] + [rule];
      PreferredAfter(others[1..], rule, identity);
    }
  }

  /** Editing again with the same values changes nothing. */
  lemma EditIsIdempotent(rules: seq<DeviceRule>, identity: DeviceIdentity, name: Option<string>, edit: Edit)
    ensures Edited(Edited(rules, identity, name, edit), identity, name, edit) == Edited(rules, identity, name, edit)
  {
    hide IsPreferredFor, Preferred;
    var others := Others(rules, identity);
    var updated := UpdatedRule(Preferred(rules, identity), identity, name, edit);
    UpdatedIsPreferred(rules, identity, name, edit);
    OthersOfOthers(rules, identity);
    if updated.Some? {
      PreferredAfter(others, updated.value, identity);
      assert (others + [updated.value])[..|others|] == others;
    } else {
      assert others + [] == others;
    }
  }
}
