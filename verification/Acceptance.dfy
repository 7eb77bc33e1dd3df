/**
  Which rulesets may be published, and which failure is reported for the
  others, without the code that validates them.
 */
module Acceptance {
  import opened Results
  import opened Text
  import opened Domain
  import opened Rollouts

  /** One payload, of this type and within its bound. */
  ghost predicate Typed(valueType: ValueType, value: ValueRecord) {
    && value.valueType == valueType
    && match valueType
       case Boolean =>
         value.boolean.Some? && value == ValueRecord(Boolean, value.boolean, None, None, None, None)
       case String =>
         value.text.Some? && |value.text.value| <= 4000
           && value == ValueRecord(String, None, value.text, None, None, None)
       case Integer =>
         && value.integer.Some? && value == ValueRecord(Integer, None, None, value.integer, None, None)
         && exists n | -0x8000_0000_0000_0000 <= n <= 0x7FFF_FFFF_FFFF_FFFF :: Reads(value.integer.value, n)
       case Double =>
         && value.double.Some? && value.double.value.Finite?
         && value == ValueRecord(Double, None, None, None, value.double, None)
       case Json =>
         value.json.Some? && |value.json.value| <= 16384
           && value == ValueRecord(Json, None, None, None, None, value.json)
       case UnknownType(_) => false
  }

  ghost predicate NamesVariant(d: RulesetDefinition, key: Text) {
    exists i :: 0 <= i < |d.variants| && d.variants[i].variantKey == key
  }

  /** At least one variant, no key twice, and a fallthrough among them. */
  ghost predicate KeysRight(d: RulesetDefinition) {
    && d.variants != [] && NamesVariant(d, d.fallthroughVariant)
    && forall i, j | 0 <= i < j < |d.variants| :: d.variants[i].variantKey != d.variants[j].variantKey
  }

  ghost predicate AllTyped(valueType: ValueType, d: RulesetDefinition) {
    forall i | 0 <= i < |d.variants| :: Typed(valueType, d.variants[i].value)
  }

  /** A known operator with its number of values. */
  predicate RightValues(rule: TargetingRule) {
    match rule.operator
    case OneOf => |rule.comparisonValues| >= 1
    case UnknownOperator(_) => false
    case _ => |rule.comparisonValues| == 1
  }

  ghost predicate RulesRight(d: RulesetDefinition) {
    && (forall i, j | 0 <= i < j < |d.targetingRules| :: d.targetingRules[i].ruleId != d.targetingRules[j].ruleId)
    && forall i | 0 <= i < |d.targetingRules| ::
         NamesVariant(d, d.targetingRules[i].variantKey) && RightValues(d.targetingRules[i])
  }

  /** The true sum, as a signed 64-bit integer holds it, is at most 10 000. */
  predicate TotalFits(rollout: seq<Rollout>) {
    (Shares(rollout) + 0x8000_0000_0000_0000) % 0x1_0000_0000_0000_0000 - 0x8000_0000_0000_0000 <= 10000
  }

  ghost predicate RolloutRight(d: RulesetDefinition) {
    && TotalFits(d.percentageRollout)
    && (forall i, j | 0 <= i < j < |d.percentageRollout| ::
          d.percentageRollout[i].variantKey != d.percentageRollout[j].variantKey)
    && forall i | 0 <= i < |d.percentageRollout| ::
         d.percentageRollout[i].basisPoints > 0 && NamesVariant(d, d.percentageRollout[i].variantKey)
  }

  // -------------------------------------------------------------------- values

  lemma ValidValueIff(valueType: ValueType, value: ValueRecord)
    ensures ValidValue(valueType, value) <==> Typed(valueType, value)
  {
    if value.integer.Some? {
      if ParseI64(value.integer.value).Some? {
        ParseI64Iff(value.integer.value, ParseI64(value.integer.value).value);
      } else {
        ParseI64Iff(value.integer.value, 0);
      }
    }
  }

  lemma AllTypedIff(valueType: ValueType, d: RulesetDefinition)
    ensures AllTyped(valueType, d)
            <==> forall i | 0 <= i < |d.variants| :: ValidValue(valueType, d.variants[i].value)
  {
    forall i | 0 <= i < |d.variants|
      ensures ValidValue(valueType, d.variants[i].value) <==> Typed(valueType, d.variants[i].value)
    {
      ValidValueIff(valueType, d.variants[i].value);
    }
  }

  // ---------------------------------------------------------------------- keys

  lemma NamesVariantIff(d: RulesetDefinition, key: Text)
    ensures key in VariantKeys(d.variants) <==> NamesVariant(d, key)
  {
    var keys := VariantKeys(d.variants);
    assert forall i | 0 <= i < |d.variants| :: keys[i] == d.variants[i].variantKey;
  }

  lemma KeysRightIff(d: RulesetDefinition)
    ensures KeysRight(d) <==> && d.variants != []
                              && Distinct(VariantKeys(d.variants))
                              && d.fallthroughVariant in VariantKeys(d.variants)
  {
    var keys := VariantKeys(d.variants);
    DistinctIff(keys);
    NamesVariantIff(d, d.fallthroughVariant);
    assert forall i | 0 <= i < |d.variants| :: keys[i] == d.variants[i].variantKey;
  }

  lemma RulesRightIff(d: RulesetDefinition)
    ensures RulesRight(d)
            <==> && Distinct(RuleIds(d.targetingRules))
                 && forall i | 0 <= i < |d.targetingRules| :: ValidRule(d.targetingRules[i], VariantKeys(d.variants))
  {
    var ids := RuleIds(d.targetingRules);
    DistinctIff(ids);
    assert forall i | 0 <= i < |d.targetingRules| :: ids[i] == d.targetingRules[i].ruleId;
    forall i | 0 <= i < |d.targetingRules|
      ensures ValidRule(d.targetingRules[i], VariantKeys(d.variants))
              <==> NamesVariant(d, d.targetingRules[i].variantKey) && RightValues(d.targetingRules[i])
    {
      NamesVariantIff(d, d.targetingRules[i].variantKey);
    }
  }

  // -------------------------------------------------------------------- totals

  /** Adding up with wrap-around is wrapping the true sum. */
  lemma {:induction false} WrappedTotalIs(rollout: seq<Rollout>, n: nat)
    requires n <= |rollout|
    ensures WrappedTotal(rollout[..n]) == WrapI64(SharesTo(rollout, n))
  {
    if n > 0 {
      WrappedTotalIs(rollout, n - 1);
      assert rollout[..n][..n - 1] == rollout[..n - 1];
      WrapAdds(SharesTo(rollout, n - 1), rollout[n - 1].basisPoints);
    }
  }

  lemma WrapAdds(a: int, b: int)
    ensures WrapI64(WrapI64(a) + b) == WrapI64(a + b)
  {
    var q := (a - I64_MIN) / U64_MODULUS;
    assert WrapI64(a) == a - q * U64_MODULUS;
  }

  lemma TotalFitsIff(rollout: seq<Rollout>)
    ensures TotalFits(rollout) <==> WrappedTotal(rollout) <= 10000
  {
    WrappedTotalIs(rollout, |rollout|);
    assert rollout[..|rollout|] == rollout;
  }

  /** Within the bounds of the wire schema the total fits exactly if it is at most 10 000. */
  lemma TotalFitsWithinBounds(rollout: seq<Rollout>)
    requires |rollout| <= 32 && forall i | 0 <= i < |rollout| :: 0 < rollout[i].basisPoints <= 10000
    ensures TotalFits(rollout) <==> Shares(rollout) <= 10000
  {
    TotalDoesNotWrap(rollout, |rollout|);
  }

  lemma RolloutRightIff(d: RulesetDefinition)
    ensures RolloutRight(d)
            <==> && Distinct(RolloutKeys(d.percentageRollout)) && WrappedTotal(d.percentageRollout) <= 10000
                 && forall i | 0 <= i < |d.percentageRollout| ::
                      d.percentageRollout[i].basisPoints > 0
                        && d.percentageRollout[i].variantKey in VariantKeys(d.variants)
  {
    var keys := RolloutKeys(d.percentageRollout);
    DistinctIff(keys);
    TotalFitsIff(d.percentageRollout);
    assert forall i | 0 <= i < |d.percentageRollout| :: keys[i] == d.percentageRollout[i].variantKey;
    forall i | 0 <= i < |d.percentageRollout|
      ensures d.percentageRollout[i].variantKey in VariantKeys(d.variants)
              <==> NamesVariant(d, d.percentageRollout[i].variantKey)
    {
      NamesVariantIff(d, d.percentageRollout[i].variantKey);
    }
  }

  // ------------------------------------------------------------------- verdict

  /** Every ruleset and type: what is accepted, and what is answered otherwise. */
  lemma ValidateIff(valueType: ValueType, d: RulesetDefinition)
    ensures Validate(valueType, d)
            == if !KeysRight(d) then Some(InvalidRuleset)
               else if !AllTyped(valueType, d) then Some(TypeMismatch)
               else if RulesRight(d) && RolloutRight(d) then None
               else Some(InvalidRuleset)
  {
    KeysRightIff(d);
    AllTypedIff(valueType, d);
    RulesRightIff(d);
    RolloutRightIff(d);
  }
}
