/**
  What `choose_variant` promises about an accepted ruleset: it never fails, it
  implements a declarative rule, each rollout entry gets exactly its share of
  the buckets, and growing a rollout moves nobody who was already in it.
 */
module Rollouts {
  import opened Results
  import opened Text
  import opened Domain
  import opened Rules

  const BUCKETS: nat := 10000
  const MAX_ROLLOUT: nat := 32

  // ---------------------------------------------------------------- lookup

  predicate Unrepeated(s: seq<Text>) {
    forall i, j | 0 <= i < j < |s| :: s[i] != s[j]
  }

  lemma UnrepeatedLast(init: seq<Text>, last: Text)
    ensures Unrepeated(init + [last]) <==> Unrepeated(init) && last !in init
  {
    var s := init + [last];
    assert forall i | 0 <= i < |init| :: s[i] == init[i];
    if last in init {
      var i :| 0 <= i < |init| && init[i] == last;
      assert s[i] == s[|init|];
    }
    if !Unrepeated(init) {
      var i, j :| 0 <= i < j < |init| && init[i] == init[j];
      assert s[i] == s[j];
    }
  }

  /** Comparing the size of a set with the number of entries finds duplicates. */
  lemma {:induction false} DistinctIff(s: seq<Text>)
    ensures |ToSet(s)| <= |s|
    ensures Distinct(s) <==> Unrepeated(s)
  {
    if s != [] {
      var init, last := s[..|s| - 1], s[|s| - 1];
      DistinctIff(init);
      assert s == init + [last];
      UnrepeatedLast(init, last);
      if last in init {
        assert ToSet(s) == ToSet(init);
      } else {
        assert ToSet(s) == ToSet(init) + {last};
      }
    }
  }

  predicate Named(definition: RulesetDefinition, variant: VariantRecord, key: Text) {
    variant in definition.variants && variant.variantKey == key
  }

  lemma {:induction false} FindVariantFinds(variants: seq<VariantRecord>, key: Text)
    ensures FindVariant(variants, key).Success? <==> key in VariantKeys(variants)
    ensures FindVariant(variants, key).Success? ==>
              FindVariant(variants, key).value in variants && FindVariant(variants, key).value.variantKey == key
    ensures FindVariant(variants, key).Failure? ==> FindVariant(variants, key).error == Domain(InvalidRuleset)
  {
    var keys := VariantKeys(variants);
    if variants != [] {
      FindVariantFinds(variants[1..], key);
      var rest := VariantKeys(variants[1..]);
      assert forall i | 0 <= i < |rest| :: rest[i] == keys[i + 1];
      assert keys[0] == variants[0].variantKey;
      assert keys == [keys[0]] + rest;
    }
  }

  lemma AcceptedDistinct(valueType: ValueType, definition: RulesetDefinition)
    requires Validate(valueType, definition).None?
    ensures Unrepeated(VariantKeys(definition.variants)) && Positive(definition.percentageRollout)
  {
    DistinctIff(VariantKeys(definition.variants));
  }

  lemma SameKeySameVariant(definition: RulesetDefinition, a: VariantRecord, b: VariantRecord)
    requires Unrepeated(VariantKeys(definition.variants))
    requires a in definition.variants && b in definition.variants && a.variantKey == b.variantKey
    ensures a == b
  {
    var keys := VariantKeys(definition.variants);
    var i :| 0 <= i < |definition.variants| && definition.variants[i] == a;
    var j :| 0 <= j < |definition.variants| && definition.variants[j] == b;
    assert keys[i] == keys[j];
  }

  /** The keys that a ruleset's rules, rollout and fallthrough refer to. */
  ghost predicate RefersTo(definition: RulesetDefinition, key: Text) {
    || key == definition.fallthroughVariant
    || (exists i: nat :: i < |definition.targetingRules| && definition.targetingRules[i].variantKey == key)
    || (exists i: nat :: i < |definition.percentageRollout| && definition.percentageRollout[i].variantKey == key)
  }

  /**
    In an accepted ruleset every key that is referred to names exactly one
    variant, and the lookup returns it.
   */
  lemma VariantUnique(valueType: ValueType, definition: RulesetDefinition, key: Text)
    requires Validate(valueType, definition).None? && RefersTo(definition, key)
    ensures var found := FindVariant(definition.variants, key);
            && found.Success?
            && forall v :: Named(definition, v, key) <==> v == found.value
  {
    AcceptedDistinct(valueType, definition);
    ReferencesResolve(valueType, definition, key);
    FindVariantFinds(definition.variants, key);
    var found := FindVariant(definition.variants, key).value;
    forall v | Named(definition, v, key) ensures v == found {
      SameKeySameVariant(definition, v, found);
    }
  }

  lemma ReferencesResolve(valueType: ValueType, definition: RulesetDefinition, key: Text)
    requires Validate(valueType, definition).None? && RefersTo(definition, key)
    ensures key in VariantKeys(definition.variants)
  {
    var keys := VariantKeys(definition.variants);
    if i: nat :| i < |definition.targetingRules| && definition.targetingRules[i].variantKey == key {
      assert ValidRule(definition.targetingRules[i], keys);
    }
  }

  // ------------------------------------------------------------ never failing

  predicate Positive(rollout: seq<Rollout>) {
    forall i | 0 <= i < |rollout| :: rollout[i].basisPoints > 0
  }

  lemma {:induction false} PickNeverFails(rollout: seq<Rollout>, bucket: int, i: nat, upper: int)
    requires i <= |rollout| && Positive(rollout)
    ensures PickRollout(rollout, bucket, i, upper).Success?
    ensures var pick := PickRollout(rollout, bucket, i, upper).value; pick.Some? ==> i <= pick.value < |rollout|
    decreases |rollout| - i
  {
    if i < |rollout| {
      PickNeverFails(rollout, bucket, i + 1, (upper + rollout[i].basisPoints) % U64_MODULUS);
    }
  }

  /** Evaluating an accepted ruleset succeeds, and yields one payload of the flag's type. */
  lemma AcceptedNeverFails(valueType: ValueType, definition: RulesetDefinition, attributes: Attributes, bucket: int)
    requires Validate(valueType, definition).None?
    ensures var r := ChooseInBucket(attributes, definition, bucket);
            && r.Success?
            && r.value.variant in definition.variants
            && ValidValue(valueType, r.value.variant.value)
  {
    var keys := VariantKeys(definition.variants);
    var rules, rollout := definition.targetingRules, definition.percentageRollout;
    PickNeverFails(rollout, bucket, 0, 0);
    FindVariantFinds(definition.variants, definition.fallthroughVariant);
    var rule := FirstRule(rules, attributes, 0);
    if rule < |rules| {
      assert ValidRule(rules[rule], keys);
      FindVariantFinds(definition.variants, rules[rule].variantKey);
    }
    var pick := PickRollout(rollout, bucket, 0, 0).value;
    if pick.Some? {
      FindVariantFinds(definition.variants, rollout[pick.value].variantKey);
    }
    assert forall v | v in definition.variants :: ValidValue(valueType, v.value);
  }

  // ---------------------------------------------------------------- intervals

  /** The true sum of the first `n` shares. */
  function SharesTo(rollout: seq<Rollout>, n: nat): int
    requires n <= |rollout|
  {
    if n == 0 then 0 else SharesTo(rollout, n - 1) + rollout[n - 1].basisPoints
  }

  function Shares(rollout: seq<Rollout>): int {
    SharesTo(rollout, |rollout|)
  }

  predicate InInterval(rollout: seq<Rollout>, j: nat, bucket: int)
    requires j < |rollout|
  {
    SharesTo(rollout, j) <= bucket < SharesTo(rollout, j + 1)
  }

  lemma {:induction false} SharesMonotone(rollout: seq<Rollout>, i: nat, j: nat)
    requires i <= j <= |rollout| && Positive(rollout)
    ensures SharesTo(rollout, i) + (j - i) <= SharesTo(rollout, j)
    decreases j - i
  {
    if i < j {
      SharesMonotone(rollout, i, j - 1);
    }
  }

  /**
    The loop finds the interval that holds the bucket, or none: whatever the
    shares add up to, the running bound cannot wrap before it passes a bucket.
   */
  lemma {:induction false} PickIsInterval(rollout: seq<Rollout>, bucket: int, i: nat)
    requires i <= |rollout| && Positive(rollout) && bucket < BUCKETS
    requires SharesTo(rollout, i) <= bucket
    ensures var r := PickRollout(rollout, bucket, i, SharesTo(rollout, i));
            && r.Success?
            && (r.value.Some? ==> r.value.value < |rollout| && InInterval(rollout, r.value.value, bucket))
            && (r.value.None? ==> Shares(rollout) <= bucket)
    decreases |rollout| - i
  {
    if i < |rollout| {
      SharesMonotone(rollout, 0, i);
      var upper := SharesTo(rollout, i) + rollout[i].basisPoints;
      assert upper < BUCKETS + I64_MAX < U64_MODULUS;
      assert upper % U64_MODULUS == upper == SharesTo(rollout, i + 1);
      if bucket >= upper {
        PickIsInterval(rollout, bucket, i + 1);
      }
    }
  }

  lemma IntervalsDisjoint(rollout: seq<Rollout>, j: nat, k: nat, bucket: int)
    requires j < |rollout| && k < |rollout| && Positive(rollout)
    requires InInterval(rollout, j, bucket) && InInterval(rollout, k, bucket)
    ensures j == k
  {
    if j + 1 <= k {
      SharesMonotone(rollout, j + 1, k);
    }
    if k + 1 <= j {
      SharesMonotone(rollout, k + 1, j);
    }
  }

  lemma PickIff(rollout: seq<Rollout>, bucket: nat, j: nat)
    requires j < |rollout| && Positive(rollout) && bucket < BUCKETS
    ensures PickRollout(rollout, bucket, 0, 0) == Success(Some(j)) <==> InInterval(rollout, j, bucket)
    ensures PickRollout(rollout, bucket, 0, 0) == Success(None) <==> Shares(rollout) <= bucket
  {
    PickIsInterval(rollout, bucket, 0);
    SharesMonotone(rollout, j + 1, |rollout|);
    var r := PickRollout(rollout, bucket, 0, 0);
    if r.value.Some? {
      SharesMonotone(rollout, r.value.value + 1, |rollout|);
      if InInterval(rollout, j, bucket) {
        IntervalsDisjoint(rollout, j, r.value.value, bucket);
      }
    }
  }

  // ------------------------------------------------------- declarative meaning

  /** What a context should get, without loops or running bounds. */
  ghost predicate Intended(attributes: Attributes, definition: RulesetDefinition, bucket: int, s: Selection) {
    var rules, rollout := definition.targetingRules, definition.percentageRollout;
    match s.reason
    case TargetMatch =>
      exists r: nat | r < |rules| ::
        && Applies(rules[r], attributes)
        && (forall q: nat | q < r :: !Applies(rules[q], attributes))
        && Named(definition, s.variant, rules[r].variantKey)
    case PercentageRollout =>
      && (forall q: nat | q < |rules| :: !Applies(rules[q], attributes))
      && exists j: nat | j < |rollout| ::
           InInterval(rollout, j, bucket) && Named(definition, s.variant, rollout[j].variantKey)
    case Fallthrough =>
      && (forall q: nat | q < |rules| :: !Applies(rules[q], attributes))
      && Shares(rollout) <= bucket
      && Named(definition, s.variant, definition.fallthroughVariant)
  }

  /** On accepted rulesets the loops compute the one selection that is intended. */
  lemma ChooseIffIntended(valueType: ValueType, definition: RulesetDefinition, attributes: Attributes, bucket: nat,
                          s: Selection)
    requires Validate(valueType, definition).None? && bucket < BUCKETS
    ensures ChooseInBucket(attributes, definition, bucket) == Success(s)
            <==> Intended(attributes, definition, bucket, s)
  {
    ChooseIntended(valueType, definition, attributes, bucket);
    var chosen := ChooseInBucket(attributes, definition, bucket).value;
    if Intended(attributes, definition, bucket, s) {
      AcceptedDistinct(valueType, definition);
      IntendedUnique(attributes, definition, bucket, s, chosen);
    }
  }

  /** The same for the bucket of a subject. */
  lemma ChooseVariantIffIntended(sha: Sha256, org: Text, environment: Text, flag: Text, targeting: Text,
                                 attributes: Attributes, valueType: ValueType, definition: RulesetDefinition,
                                 s: Selection)
    requires Validate(valueType, definition).None?
    ensures ChooseVariant(sha, org, environment, flag, targeting, attributes, definition) == Success(s)
            <==> Intended(attributes, definition, Bucket(sha, org, environment, flag, targeting), s)
  {
    ChooseIffIntended(valueType, definition, attributes, Bucket(sha, org, environment, flag, targeting), s);
  }

  lemma ChooseIntended(valueType: ValueType, definition: RulesetDefinition, attributes: Attributes, bucket: nat)
    requires Validate(valueType, definition).None? && bucket < BUCKETS
    ensures var r := ChooseInBucket(attributes, definition, bucket);
            r.Success? && Intended(attributes, definition, bucket, r.value)
  {
    AcceptedNeverFails(valueType, definition, attributes, bucket);
    AcceptedRulesApply(valueType, definition, attributes);
    var rules, rollout := definition.targetingRules, definition.percentageRollout;
    var rule := FirstRule(rules, attributes, 0);
    if rule < |rules| {
      FindVariantFinds(definition.variants, rules[rule].variantKey);
    } else {
      PickIsInterval(rollout, bucket, 0);
      var pick := PickRollout(rollout, bucket, 0, 0).value;
      if pick.Some? {
        FindVariantFinds(definition.variants, rollout[pick.value].variantKey);
      } else {
        FindVariantFinds(definition.variants, definition.fallthroughVariant);
      }
    }
  }

  lemma ReasonUnique(attributes: Attributes, definition: RulesetDefinition, bucket: int, s: Selection, t: Selection)
    requires Positive(definition.percentageRollout)
    requires Intended(attributes, definition, bucket, s) && Intended(attributes, definition, bucket, t)
    requires s.reason == PercentageRollout
    ensures t.reason == PercentageRollout
  {
    var rollout := definition.percentageRollout;
    var j: nat :| j < |rollout| && InInterval(rollout, j, bucket)
      && Named(definition, s.variant, rollout[j].variantKey);
    SharesMonotone(rollout, j + 1, |rollout|);
  }

  lemma RolloutKeyUnique(attributes: Attributes, definition: RulesetDefinition, bucket: int, s: Selection, t: Selection)
    requires Positive(definition.percentageRollout)
    requires Intended(attributes, definition, bucket, s) && Intended(attributes, definition, bucket, t)
    requires s.reason == t.reason == PercentageRollout
    ensures s.variant.variantKey == t.variant.variantKey
  {
    var rollout := definition.percentageRollout;
    var j: nat :| j < |rollout| && InInterval(rollout, j, bucket)
      && Named(definition, s.variant, rollout[j].variantKey);
    var k: nat :| k < |rollout| && InInterval(rollout, k, bucket)
      && Named(definition, t.variant, rollout[k].variantKey);
    IntervalsDisjoint(rollout, j, k, bucket);
  }

  lemma RuleKeyUnique(attributes: Attributes, definition: RulesetDefinition, bucket: int, s: Selection, t: Selection)
    requires Intended(attributes, definition, bucket, s) && Intended(attributes, definition, bucket, t)
    requires s.reason == t.reason == TargetMatch
    ensures s.variant.variantKey == t.variant.variantKey
  {
    var rules := definition.targetingRules;
    var q: nat :| q < |rules| && Applies(rules[q], attributes)
                  && (forall i: nat | i < q :: !Applies(rules[i], attributes))
                     && Named(definition, s.variant, rules[q].variantKey);
    var r: nat :| r < |rules| && Applies(rules[r], attributes)
                  && (forall i: nat | i < r :: !Applies(rules[i], attributes))
                     && Named(definition, t.variant, rules[r].variantKey);
    assert q == r;
  }

  lemma IntendedUnique(attributes: Attributes, definition: RulesetDefinition, bucket: int, s: Selection, t: Selection)
    requires Unrepeated(VariantKeys(definition.variants)) && Positive(definition.percentageRollout)
    requires Intended(attributes, definition, bucket, s) && Intended(attributes, definition, bucket, t)
    ensures s == t
  {
    if s.reason == PercentageRollout {
      ReasonUnique(attributes, definition, bucket, s, t);
      RolloutKeyUnique(attributes, definition, bucket, s, t);
    } else if t.reason == PercentageRollout {
      ReasonUnique(attributes, definition, bucket, t, s);
    } else if s.reason == t.reason == TargetMatch {
      RuleKeyUnique(attributes, definition, bucket, s, t);
    }
    SameKeySameVariant(definition, s.variant, t.variant);
  }

  // ------------------------------------------------------------ exact shares

  function BucketRange(lo: int, hi: int): (s: set<int>)
    ensures forall b :: b in s <==> lo <= b < hi
    decreases hi - lo
  {
    if lo >= hi then {} else BucketRange(lo, hi - 1) + {hi - 1}
  }

  lemma {:induction false} RangeSize(lo: int, hi: int)
    requires lo <= hi
    ensures |BucketRange(lo, hi)| == hi - lo
    decreases hi - lo
  {
    if lo < hi {
      RangeSize(lo, hi - 1);
    }
  }

  /** The buckets that the rollout loop sends to `target`. */
  function BucketsOf(rollout: seq<Rollout>, target: Option<nat>): set<int> {
    set b | b in BucketRange(0, BUCKETS) && PickRollout(rollout, b, 0, 0) == Success(target)
  }

  /** Every entry gets its share of the 10 000 buckets, fallthrough the rest. */
  ghost predicate Exact(rollout: seq<Rollout>) {
    && (forall j: nat | j < |rollout| :: |BucketsOf(rollout, Some(j))| == rollout[j].basisPoints)
    && |BucketsOf(rollout, None)| == BUCKETS - Shares(rollout)
  }

  predicate WithinWireBounds(rollout: seq<Rollout>) {
    forall i | 0 <= i < |rollout| :: rollout[i].basisPoints <= BUCKETS
  }

  lemma {:induction false} TotalDoesNotWrap(rollout: seq<Rollout>, n: nat)
    requires n <= |rollout| && n <= MAX_ROLLOUT && Positive(rollout) && WithinWireBounds(rollout)
    ensures WrappedTotal(rollout[..n]) == SharesTo(rollout, n)
    ensures 0 <= SharesTo(rollout, n) <= n * BUCKETS
  {
    if n > 0 {
      TotalDoesNotWrap(rollout, n - 1);
      assert rollout[..n][..n - 1] == rollout[..n - 1];
    }
  }

  /**
    The publisher's check on shares: an accepted rollout is exact if and only
    if no single entry exceeds 10 000, the bound of the wire schema. The Rust
    types do not enforce that bound, and the i64 total wraps without it.
   */
  lemma RolloutExactIff(valueType: ValueType, definition: RulesetDefinition)
    requires Validate(valueType, definition).None?
    requires |definition.percentageRollout| <= MAX_ROLLOUT
    ensures Exact(definition.percentageRollout) <==> WithinWireBounds(definition.percentageRollout)
  {
    var rollout := definition.percentageRollout;
    RangeSize(0, BUCKETS);
    if WithinWireBounds(rollout) {
      TotalDoesNotWrap(rollout, |rollout|);
      assert rollout[..|rollout|] == rollout;
      SharesAreExact(rollout);
    } else {
      var j: nat :| j < |rollout| && rollout[j].basisPoints > BUCKETS;
      SubsetSize(BucketsOf(rollout, Some(j)), BucketRange(0, BUCKETS));
    }
  }

  lemma SharesAreExact(rollout: seq<Rollout>)
    requires Positive(rollout) && Shares(rollout) <= BUCKETS
    ensures Exact(rollout)
  {
    SharesMonotone(rollout, 0, |rollout|);
    forall j: nat | j < |rollout| ensures |BucketsOf(rollout, Some(j))| == rollout[j].basisPoints {
      SharesMonotone(rollout, 0, j);
      SharesMonotone(rollout, j + 1, |rollout|);
      forall b | b in BucketRange(0, BUCKETS)
        ensures b in BucketsOf(rollout, Some(j)) <==> InInterval(rollout, j, b)
      {
        PickIff(rollout, b, j);
      }
      assert BucketsOf(rollout, Some(j)) == BucketRange(SharesTo(rollout, j), SharesTo(rollout, j + 1));
      RangeSize(SharesTo(rollout, j), SharesTo(rollout, j + 1));
    }
    forall b: int
      ensures b in BucketsOf(rollout, None) <==> b in BucketRange(Shares(rollout), BUCKETS)
    {
      if 0 <= b < BUCKETS && rollout != [] {
        PickIff(rollout, b, 0);
      }
    }
    assert BucketsOf(rollout, None) == BucketRange(Shares(rollout), BUCKETS);
    RangeSize(Shares(rollout), BUCKETS);
  }

  lemma SubsetSize(a: set<int>, b: set<int>)
    requires a <= b
    ensures |a| <= |b|
  {
    assert b == a + (b - a);
  }

  function WrappingRollout(): seq<Rollout> {
    [Rollout([97], I64_MAX), Rollout([98], I64_MAX), Rollout([99], 10)]
  }

  function WrappingRuleset(): RulesetDefinition {
    var value := ValueRecord(Boolean, Some(true), None, None, None, None);
    RulesetDefinition([VariantRecord([97], value), VariantRecord([98], value), VariantRecord([99], value)],
                      [], WrappingRollout(), [97])
  }

  lemma WrappingTotal()
    ensures WrappedTotal(WrappingRollout()) == 8
  {
    var r := WrappingRollout();
    assert r[..2] == [r[0], r[1]] && r[..2][..1] == [r[0]] && [r[0]][..0] == [];
    assert WrappedTotal([r[0]]) == WrapI64(WrappedTotal([]) + I64_MAX) == I64_MAX;
    assert WrappedTotal(r[..2]) == WrapI64(I64_MAX + I64_MAX) == -2;
  }

  /** Three shares whose i64 total wraps to 8: accepted, yet not exact. */
  lemma WrappedTotalIsAccepted()
    ensures Validate(Boolean, WrappingRuleset()).None?
    ensures !Exact(WrappingRuleset().percentageRollout)
  {
    var definition := WrappingRuleset();
    var keys := VariantKeys(definition.variants);
    assert keys == [[97], [98], [99]];
    assert keys[0][0] != keys[1][0] && keys[0][0] != keys[2][0] && keys[1][0] != keys[2][0];
    DistinctIff(keys);
    assert RolloutKeys(definition.percentageRollout) == keys;
    DistinctIff(RuleIds([]));
    WrappingTotal();
    assert keys[0] in keys && keys[1] in keys && keys[2] in keys;
    assert definition.percentageRollout[0].basisPoints > BUCKETS;
    RolloutExactIff(Boolean, definition);
  }

  // -------------------------------------------------------------- stability

  /** `after` appends entries to `before`, or raises the share of its last entry. */
  ghost predicate Grown(before: seq<Rollout>, after: seq<Rollout>) {
    || before <= after
    || (&& 0 < |before| == |after|
        && before[..|before| - 1] == after[..|after| - 1]
        && before[|before| - 1].variantKey == after[|after| - 1].variantKey
        && before[|before| - 1].basisPoints <= after[|after| - 1].basisPoints)
  }

  lemma {:induction false} SharesAgree(a: seq<Rollout>, b: seq<Rollout>, n: nat)
    requires n <= |a| && n <= |b| && a[..n] == b[..n]
    ensures SharesTo(a, n) == SharesTo(b, n)
  {
    if n > 0 {
      assert a[n - 1] == a[..n][n - 1] == b[..n][n - 1] == b[n - 1];
      assert a[..n - 1] == a[..n][..n - 1] == b[..n][..n - 1] == b[..n - 1];
      SharesAgree(a, b, n - 1);
    }
  }

  /** Entries keep their keys and places, and no share shrinks. */
  lemma GrownEntry(before: seq<Rollout>, after: seq<Rollout>, j: nat)
    requires Grown(before, after) && j < |before|
    ensures j < |after| && before[..j] == after[..j]
    ensures before[j].variantKey == after[j].variantKey && before[j].basisPoints <= after[j].basisPoints
  {
    if before <= after {
      assert before == after[..|before|];
    } else {
      var init := before[..|before| - 1];
      assert before[..j] == init[..j] == after[..j];
      if j < |init| {
        assert before[j] == init[j] == after[j];
      }
    }
  }

  /** A bucket that was in the rollout stays with its entry; only fallthrough moves. */
  lemma GrowthIsStable(before: seq<Rollout>, after: seq<Rollout>, bucket: nat)
    requires Positive(before) && Positive(after) && Grown(before, after) && bucket < BUCKETS
    ensures PickRollout(before, bucket, 0, 0).Success?
    ensures PickRollout(before, bucket, 0, 0).value.Some? ==>
              && PickRollout(after, bucket, 0, 0) == PickRollout(before, bucket, 0, 0)
              && var j := PickRollout(before, bucket, 0, 0).value.value;
                 j < |before| && j < |after| && after[j].variantKey == before[j].variantKey
  {
    PickIsInterval(before, bucket, 0);
    var pick := PickRollout(before, bucket, 0, 0).value;
    if pick.Some? {
      GrownEntry(before, after, pick.value);
      SharesAgree(before, after, pick.value);
      PickIff(after, bucket, pick.value);
    }
  }
}
