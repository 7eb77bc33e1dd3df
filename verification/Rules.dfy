/**
  What the operators of a targeting rule mean, without the code that matches
  them.
 */
module Rules {
  import opened Results
  import opened Text
  import opened Domain

  function TextOf(value: Attribute): Text {
    match value
    case StringAttribute(text) => text
    case RenderedAttribute(text) => text
  }

  /** The attribute is present and its text is, is not, contains or is one of the values. */
  ghost predicate Applies(rule: TargetingRule, attributes: Attributes) {
    && rule.attribute in attributes && rule.comparisonValues != []
    && var text, value := TextOf(attributes[rule.attribute]), rule.comparisonValues[0];
       match rule.operator
       case Equals => text == value
       case NotEquals => text != value
       case Contains => exists before, after :: text == before + value + after
       case OneOf => exists i :: 0 <= i < |rule.comparisonValues| && rule.comparisonValues[i] == text
       case UnknownOperator(_) => false
  }

  lemma {:induction false} OccursIff(needle: Text, text: Text)
    ensures Occurs(needle, text) <==> exists before, after :: text == before + needle + after
  {
    if needle <= text {
      assert text == [] + needle + text[|needle|..];
    } else if text != [] {
      OccursIff(needle, text[1..]);
      if before, after :| text == before + needle + after {
        assert before != [] by {
          assert before == [] ==> text == needle + after;
        }
        assert text[1..] == before[1..] + needle + after;
      }
      if before, after :| text[1..] == before + needle + after {
        assert text == ([text[0]] + before) + needle + after;
      }
    } else {
      forall before, after ensures text != before + needle + after {
        assert |before + needle + after| > 0;
      }
    }
  }

  /** A rule with a value to compare matches as its operator means. */
  lemma RuleAppliesIff(rule: TargetingRule, attributes: Attributes)
    requires rule.comparisonValues != []
    ensures RuleApplies(rule, attributes) <==> Applies(rule, attributes)
  {
    if rule.attribute in attributes {
      OccursIff(rule.comparisonValues[0], TextOf(attributes[rule.attribute]));
    }
  }

  /** All rules of an accepted ruleset do. */
  lemma AcceptedRulesApply(valueType: ValueType, definition: RulesetDefinition, attributes: Attributes)
    requires Validate(valueType, definition).None?
    ensures forall rule <- definition.targetingRules :: RuleApplies(rule, attributes) <==> Applies(rule, attributes)
  {
    forall rule <- definition.targetingRules ensures RuleApplies(rule, attributes) <==> Applies(rule, attributes) {
      assert ValidRule(rule, VariantKeys(definition.variants));
      RuleAppliesIff(rule, attributes);
    }
  }
}
