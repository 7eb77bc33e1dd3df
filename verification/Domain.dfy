/**
  Rulesets and their evaluation: `validate_ruleset` decides what may be
  published, `choose_variant` what a context gets. Arithmetic wraps as it does
  in a release build.
 */
module Domain {
  import opened Results
  import opened Text

  // ----------------------------------------------------------------- records

  type Time = int

  datatype ValueType = Boolean | String | Integer | Double | Json | UnknownType(name: Text)

  datatype Float = Finite(value: real) | NonFinite

  /** `json` holds the encoded object, whose length `valid_value` bounds. */
  datatype ValueRecord = ValueRecord(
    valueType: ValueType,
    boolean: Option<bool>,
    text: Option<Text>,
    integer: Option<Text>,
    double: Option<Float>,
    json: Option<Text>)

  datatype VariantRecord = VariantRecord(variantKey: Text, value: ValueRecord)

  datatype Operator = Equals | NotEquals | Contains | OneOf | UnknownOperator(name: Text)

  datatype TargetingRule = TargetingRule(
    ruleId: Text,
    attribute: Text,
    operator: Operator,
    comparisonValues: seq<Text>,
    variantKey: Text)

  datatype Rollout = Rollout(variantKey: Text, basisPoints: I64)

  datatype RulesetDefinition = RulesetDefinition(
    variants: seq<VariantRecord>,
    targetingRules: seq<TargetingRule>,
    percentageRollout: seq<Rollout>,
    fallthroughVariant: Text)

  /** A context attribute: a JSON string, or another value as serde renders it. */
  datatype Attribute = StringAttribute(value: Text) | RenderedAttribute(rendering: Text)

  type Attributes = map<Text, Attribute>

  datatype Reason = TargetMatch | PercentageRollout | Fallthrough

  datatype Selection = Selection(variant: VariantRecord, reason: Reason)

  datatype DomainFailure =
    | NotFound
    | FlagNotFound
    | EnvironmentNotFound
    | NoPublishedRuleset
    | Archived
    | RevisionConflict
    | IdempotencyConflict
    | OperationInProgress
    | AlreadyExists
    | TypeMismatch
    | InvalidRuleset

  /** `Backend` stands for every error that is not a domain failure. */
  datatype StorageError = Domain(failure: DomainFailure) | Backend

  type StorageResult<+T> = Result<T, StorageError>

  // -------------------------------------------------------------- validation

  function ToSet(s: seq<Text>): set<Text> {
    set x | x in s
  }

  /** The source compares the size of a `BTreeSet` with the number of entries. */
  predicate Distinct(s: seq<Text>) {
    |ToSet(s)| == |s|
  }

  function VariantKeys(variants: seq<VariantRecord>): seq<Text> {
    seq(|variants|, i requires 0 <= i < |variants| => variants[i].variantKey)
  }

  function RuleIds(rules: seq<TargetingRule>): seq<Text> {
    seq(|rules|, i requires 0 <= i < |rules| => rules[i].ruleId)
  }

  function RolloutKeys(rollout: seq<Rollout>): seq<Text> {
    seq(|rollout|, i requires 0 <= i < |rollout| => rollout[i].variantKey)
  }

  function Count(present: bool): nat {
    if present then 1 else 0
  }

  function Payloads(value: ValueRecord): nat {
    Count(value.boolean.Some?) + Count(value.text.Some?) + Count(value.integer.Some?)
    + Count(value.double.Some?) + Count(value.json.Some?)
  }

  predicate ValidValue(expected: ValueType, value: ValueRecord) {
    && Payloads(value) == 1
    && value.valueType == expected
    && match expected
       case Boolean => value.boolean.Some?
       case String => value.text.Some? && |value.text.value| <= 4000
       case Integer => value.integer.Some? && ParseI64(value.integer.value).Some?
       case Double => value.double.Some? && value.double.value.Finite?
       case Json => value.json.Some? && |value.json.value| <= 16384
       case UnknownType(_) => false
  }

  predicate ValidRule(rule: TargetingRule, keys: seq<Text>) {
    && rule.variantKey in keys
    && match rule.operator
       case Equals => |rule.comparisonValues| == 1
       case NotEquals => |rule.comparisonValues| == 1
       case Contains => |rule.comparisonValues| == 1
       case OneOf => rule.comparisonValues != []
       case UnknownOperator(_) => false
  }

  function WrapI64(x: int): int {
    (x - I64_MIN) % U64_MODULUS + I64_MIN
  }

  /** `iter().sum::<i64>()` without overflow checks. */
  function WrappedTotal(rollout: seq<Rollout>): int {
    if rollout == [] then 0
    else WrapI64(WrappedTotal(rollout[..|rollout| - 1]) + rollout[|rollout| - 1].basisPoints)
  }

  /** `validate_ruleset`; `None` is acceptance. */
  function Validate(valueType: ValueType, definition: RulesetDefinition): Option<DomainFailure> {
    var keys := VariantKeys(definition.variants);
    if definition.variants == [] || !Distinct(keys) || definition.fallthroughVariant !in keys then
      Some(InvalidRuleset)
    else if exists i | 0 <= i < |definition.variants| :: !ValidValue(valueType, definition.variants[i].value) then
      Some(TypeMismatch)
    else if !Distinct(RuleIds(definition.targetingRules))
            || exists i | 0 <= i < |definition.targetingRules| :: !ValidRule(definition.targetingRules[i], keys) then
      Some(InvalidRuleset)
    else if !Distinct(RolloutKeys(definition.percentageRollout))
            || WrappedTotal(definition.percentageRollout) > 10000
            || exists i | 0 <= i < |definition.percentageRollout| ::
                 definition.percentageRollout[i].basisPoints <= 0
                 || definition.percentageRollout[i].variantKey !in keys then
      Some(InvalidRuleset)
    else
      None
  }

  // -------------------------------------------------------------- evaluation

  predicate Occurs(needle: Text, text: Text) {
    needle <= text || (text != [] && Occurs(needle, text[1..]))
  }

  function Rendered(value: Attribute): Text {
    match value
    case StringAttribute(text) => text
    case RenderedAttribute(text) => text
  }

  predicate RuleMatches(value: Attribute, rule: TargetingRule) {
    var rendered := Rendered(value);
    var expected := rule.comparisonValues;
    match rule.operator
    case Equals => expected != [] && expected[0] == rendered
    case NotEquals => expected == [] || expected[0] != rendered
    case Contains => expected != [] && Occurs(expected[0], rendered)
    case OneOf => rendered in expected
    case UnknownOperator(_) => false
  }

  predicate RuleApplies(rule: TargetingRule, attributes: Attributes) {
    rule.attribute in attributes && RuleMatches(attributes[rule.attribute], rule)
  }

  /** The first applicable rule at or after `from`, or the number of rules. */
  function FirstRule(rules: seq<TargetingRule>, attributes: Attributes, from: nat): (r: nat)
    requires from <= |rules|
    ensures from <= r <= |rules|
    ensures r < |rules| ==> RuleApplies(rules[r], attributes)
    ensures forall q | from <= q < r :: !RuleApplies(rules[q], attributes)
    decreases |rules| - from
  {
    if from == |rules| || RuleApplies(rules[from], attributes) then from
    else FirstRule(rules, attributes, from + 1)
  }

  /** The rollout loop from entry `i` on, with the running bound `upper`. */
  function PickRollout(rollout: seq<Rollout>, bucket: int, i: nat, upper: int): StorageResult<Option<nat>>
    requires i <= |rollout|
    decreases |rollout| - i
  {
    if i == |rollout| then Success(None)
    else if rollout[i].basisPoints < 0 then Failure(Domain(InvalidRuleset))
    else
      var upper' := (upper + rollout[i].basisPoints) % U64_MODULUS;
      if bucket < upper' then Success(Some(i)) else PickRollout(rollout, bucket, i + 1, upper')
  }

  function FindVariant(variants: seq<VariantRecord>, key: Text): StorageResult<VariantRecord> {
    if variants == [] then Failure(Domain(InvalidRuleset))
    else if variants[0].variantKey == key then Success(variants[0])
    else FindVariant(variants[1..], key)
  }

  /** `choose_variant` for a context that falls in `bucket`. */
  function ChooseInBucket(attributes: Attributes, definition: RulesetDefinition,
                          bucket: int): StorageResult<Selection> {
    var rules, rollout := definition.targetingRules, definition.percentageRollout;
    var rule := FirstRule(rules, attributes, 0);
    if rule < |rules| then
      var variant :- FindVariant(definition.variants, rules[rule].variantKey);
      Success(Selection(variant, TargetMatch))
    else
      var entry :- PickRollout(rollout, bucket, 0, 0);
      if entry.Some? && entry.value < |rollout| then
        var variant :- FindVariant(definition.variants, rollout[entry.value].variantKey);
        Success(Selection(variant, PercentageRollout))
      else
        var variant :- FindVariant(definition.variants, definition.fallthroughVariant);
        Success(Selection(variant, Fallthrough))
  }

  type Digest = d: seq<byte> | |d| == 32 witness seq(32, _ => 0)
  /** SHA-256 as an arbitrary function. */
  type Sha256 = Text -> Digest

  function BigEndian(bytes: seq<byte>): nat {
    if bytes == [] then 0 else 256 * BigEndian(bytes[..|bytes| - 1]) + bytes[|bytes| - 1]
  }

  function Bucket(sha: Sha256, org: Text, environment: Text, flag: Text, targeting: Text): (b: nat)
    ensures b < 10000
  {
    BigEndian(sha(Preimage([org, environment, flag, targeting]))[..8]) % 10000
  }

  function ChooseVariant(sha: Sha256, org: Text, environment: Text, flag: Text, targeting: Text,
                         attributes: Attributes, definition: RulesetDefinition): StorageResult<Selection>
  {
    ChooseInBucket(attributes, definition, Bucket(sha, org, environment, flag, targeting))
  }

  // -------------------------------------------------------- the source's loops

  /** The hasher is fed part by part, each part followed by a zero byte. */
  method DeterministicBucket(sha: Sha256, org: Text, environment: Text, flag: Text, targeting: Text)
    returns (bucket: nat)
    ensures bucket == Bucket(sha, org, environment, flag, targeting)
  {
    var parts := [org, environment, flag, targeting];
    var fed: Text := [];
    for i := 0 to |parts|
      invariant Preimage(parts) == fed + Preimage(parts[i..])
    {
      assert parts[i..][0] == parts[i] && parts[i..][1..] == parts[i + 1..];
      fed := fed + parts[i];
      fed := fed + [0];
    }
    assert fed == Preimage(parts);
    var digest := sha(fed);
    bucket := BigEndian(digest[..8]) % 10000;
  }

  method ChooseVariantByLoops(sha: Sha256, org: Text, environment: Text, flag: Text, targeting: Text,
                              attributes: Attributes, definition: RulesetDefinition)
    returns (r: StorageResult<Selection>)
    ensures r == ChooseVariant(sha, org, environment, flag, targeting, attributes, definition)
  {
    var rules, rollout := definition.targetingRules, definition.percentageRollout;
    for i := 0 to |rules|
      invariant FirstRule(rules, attributes, 0) == FirstRule(rules, attributes, i)
    {
      if RuleApplies(rules[i], attributes) {
        var variant :- FindVariant(definition.variants, rules[i].variantKey);
        return Success(Selection(variant, TargetMatch));
      }
    }
    var bucket := DeterministicBucket(sha, org, environment, flag, targeting);
    var upper := 0;
    for i := 0 to |rollout|
      invariant PickRollout(rollout, bucket, 0, 0) == PickRollout(rollout, bucket, i, upper)
    {
      if rollout[i].basisPoints < 0 {
        return Failure(Domain(InvalidRuleset));
      }
      upper := (upper + rollout[i].basisPoints) % U64_MODULUS;
      if bucket < upper {
        var variant :- FindVariant(definition.variants, rollout[i].variantKey);
        return Success(Selection(variant, PercentageRollout));
      }
    }
    var variant :- FindVariant(definition.variants, definition.fallthroughVariant);
    return Success(Selection(variant, Fallthrough));
  }
}
