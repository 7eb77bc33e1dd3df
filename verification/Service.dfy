/**
  What the shared service layer admits before it calls a store, and what its
  checks buy: an exact rollout, an unambiguous bucket, a usable revision.
 */
module Service {
  import opened Results
  import opened Text
  import opened Domain
  import opened Rollouts
  import opened Buckets
  import opened SequentialStore
  import opened Invariants

  const MAX_VARIANTS: nat := 32
  const MAX_TARGETING_RULES: nat := 100
  const MAX_COMPARISON_VALUES: nat := 32

  predicate ValidBoundedValue(s: Text, max: nat) {
    |s| <= max && 0 !in s && forall i | 0 <= i < |s| :: !ControlAt(s, i)
  }

  predicate AdmittedRule(rule: TargetingRule) {
    && ValidKey(rule.ruleId, 128) && ValidKey(rule.attribute, 128) && ValidKey(rule.variantKey, 128)
    && |rule.comparisonValues| <= MAX_COMPARISON_VALUES
    && forall i | 0 <= i < |rule.comparisonValues| :: ValidBoundedValue(rule.comparisonValues[i], 512)
  }

  /** `ruleset_definition`: bounds on sizes and keys; the records are copied. */
  function RulesetDefinitionOf(request: RulesetDefinition): Result<RulesetDefinition, ()> {
    if !(1 <= |request.variants| <= MAX_VARIANTS) || |request.targetingRules| > MAX_TARGETING_RULES
       || |request.percentageRollout| > MAX_VARIANTS || !ValidKey(request.fallthroughVariant, 128) then Failure(())
    else if exists i | 0 <= i < |request.variants| :: !ValidKey(request.variants[i].variantKey, 128) then Failure(())
    else if exists i | 0 <= i < |request.targetingRules| :: !AdmittedRule(request.targetingRules[i]) then Failure(())
    else if exists i | 0 <= i < |request.percentageRollout| ::
              !ValidKey(request.percentageRollout[i].variantKey, 128) then Failure(())
    else Success(request)
  }

  /** A rule whose keys are keys and whose values are bounded. */
  ghost predicate OrdinaryRule(rule: TargetingRule) {
    && ValidKey(rule.ruleId, 128) && ValidKey(rule.attribute, 128) && ValidKey(rule.variantKey, 128)
    && |rule.comparisonValues| <= 32
    && forall value | value in rule.comparisonValues ::
         |value| <= 512 && 0 !in value && forall i | 0 <= i < |value| :: !ControlAt(value, i)
  }

  /** Exactly the definitions within these limits are admitted, and they are copied unchanged. */
  lemma RulesetDefinitionIff(request: RulesetDefinition)
    ensures RulesetDefinitionOf(request).Success? <==>
              && 1 <= |request.variants| <= 32 && |request.targetingRules| <= 100 && |request.percentageRollout| <= 32
              && ValidKey(request.fallthroughVariant, 128)
              && (forall v | v in request.variants :: ValidKey(v.variantKey, 128))
              && (forall rule | rule in request.targetingRules :: OrdinaryRule(rule))
              && (forall entry | entry in request.percentageRollout :: ValidKey(entry.variantKey, 128))
    ensures RulesetDefinitionOf(request).Success? ==> RulesetDefinitionOf(request).value == request
  {
    forall i | 0 <= i < |request.targetingRules|
      ensures AdmittedRule(request.targetingRules[i]) <==> OrdinaryRule(request.targetingRules[i])
    {
    }
  }

  /**
    A published rollout is exact if and only if no entry exceeds 10 000 basis
    points; the service's size limit is what makes the other checks suffice.
   */
  lemma PublishedRolloutExactIff(valueType: ValueType, request: RulesetDefinition)
    requires RulesetDefinitionOf(request).Success?
    requires Validate(valueType, RulesetDefinitionOf(request).value).None?
    ensures Exact(request.percentageRollout) <==> WithinWireBounds(request.percentageRollout)
  {
    RolloutExactIff(valueType, request);
  }

  /** An inexact rollout gets through all checks of the service and the store. */
  lemma InexactRolloutIsPublished()
    ensures RulesetDefinitionOf(WrappingRuleset()) == Success(WrappingRuleset())
    ensures Validate(Boolean, WrappingRuleset()).None? && !Exact(WrappingRuleset().percentageRollout)
  {
    WrappedTotalIsAccepted();
    assert forall b: byte | 97 <= b <= 99 :: ValidKey([b], 128);
  }

  /** The revision that the service shows for a flag is the one it accepts back. */
  lemma ShownRevisionIsAccepted(store: Store, id: FlagId, key: Text)
    requires FlagsInv(store) && id in store.flags && ValidKey(key, 200) && ValidKey(id.flagKey, 128)
    ensures ValidMutation(key, id.flagKey, Decimal(store.flags[id].revision)) == Some(store.flags[id].revision)
  {
    RevisionRoundTrip(store.flags[id].revision);
  }

  /** The admission checks of `evaluate_batch`, for the configured maximum. */
  predicate AdmittedBatch(batchId: Text, r: Request, maxBatch: nat)
    requires r.EvaluateBatch?
  {
    && ValidKey(batchId, 200) && ValidKey(r.environmentKey, 128)
    && r.flagKeys != [] && |r.flagKeys| <= maxBatch && Distinct(r.flagKeys)
    && (forall i | 0 <= i < |r.flagKeys| :: ValidKey(r.flagKeys[i], 128))
    && ValidOpaqueId(r.context.targetingKey)
  }

  /**
    Two evaluations of admitted batches share their bucket under every hash only
    for the same organization, environment, flag and subject, so flags roll out
    independently; and one batch never evaluates the same bucket twice.
   */
  lemma AdmittedBucketsAreDistinct(a: Request, b: Request, batchA: Text, batchB: Text, max: nat, i: nat, j: nat)
    requires a.EvaluateBatch? && b.EvaluateBatch? && ValidOpaqueId(a.org) && ValidOpaqueId(b.org)
    requires AdmittedBatch(batchA, a, max) && AdmittedBatch(batchB, b, max) && i < |a.flagKeys| && j < |b.flagKeys|
    requires forall sha: Sha256 ::
               Bucket(sha, a.org, a.environmentKey, a.flagKeys[i], a.context.targetingKey)
               == Bucket(sha, b.org, b.environmentKey, b.flagKeys[j], b.context.targetingKey)
    ensures a.org == b.org && a.environmentKey == b.environmentKey && a.flagKeys[i] == b.flagKeys[j]
    ensures a.context.targetingKey == b.context.targetingKey
    ensures a == b ==> i == j
  {
    var s := Subject(a.org, a.environmentKey, a.flagKeys[i], a.context.targetingKey);
    var t := Subject(b.org, b.environmentKey, b.flagKeys[j], b.context.targetingKey);
    assert forall sha: Sha256 :: BucketOf(sha, s) == BucketOf(sha, t);
    SameBucketMeansSameSubject(s, t);
    DistinctIff(a.flagKeys);
  }
}
