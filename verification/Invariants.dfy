/**
  What every reachable store satisfies. The invariant is what the SQL schema
  demands (keys, foreign keys, uniqueness) plus what it cannot say: published
  rulesets stay valid, revisions have no gaps, receipts belong to commands.
 */
module Invariants {
  import opened Results
  import opened Text
  import opened Domain
  import opened Rollouts
  import opened SequentialStore

  ghost predicate FlagsInv(store: Store) {
    forall id | id in store.flags ::
      var flag := store.flags[id];
      FlagId(flag.org, flag.flagKey) == id && 1 <= flag.revision <= I64_MAX
  }

  ghost predicate EnvironmentsInv(store: Store) {
    forall id | id in store.environments ::
      var environment := store.environments[id];
      EnvironmentId(environment.org, environment.environmentKey) == id && 1 <= environment.revision <= I64_MAX
  }

  /** Every stored ruleset is valid for its flag, and so is its place in the numbering. */
  ghost predicate RulesetInv(store: Store, id: RulesetId)
    requires id in store.rulesets
  {
    && 1 <= id.revision <= I64_MAX
    && FlagId(id.org, id.flagKey) in store.flags
    && EnvironmentId(id.org, id.environmentKey) in store.environments
    && Validate(store.flags[FlagId(id.org, id.flagKey)].valueType, store.rulesets[id].definition).None?
    && (id.revision > 1 ==> id.(revision := id.revision - 1) in store.rulesets)
  }

  ghost predicate RulesetsInv(store: Store) {
    forall id | id in store.rulesets :: RulesetInv(store, id)
  }

  ghost predicate CommandsInv(store: Store) {
    forall id | id in store.commands :: Decodes(id.operation, store.commands[id].response)
  }

  /** The command whose evaluation number `index` this receipt records. */
  ghost predicate OwnedBy(commands: Commands, row: ReceiptRow, key: Text, index: nat) {
    && CommandId(row.caller, row.actor, row.operation, key) in commands
    && (row.operation == EvaluateOp || row.operation == EvaluateBatchOp)
    && row.receipt.evaluationId == EvaluationName(row.operation, key, index)
  }

  ghost predicate Owned(commands: Commands, row: ReceiptRow) {
    exists key, index :: OwnedBy(commands, row, key, index)
  }

  ghost predicate ReceiptInv(store: Store, row: ReceiptRow) {
    && Owned(store.commands, row)
    && FlagId(row.org, row.receipt.flagKey) in store.flags
    && RulesetId(row.org, row.receipt.flagKey, row.receipt.environmentKey,
                 row.receipt.rulesetRevision) in store.rulesets
  }

  /** UNIQUE(caller, actor, operation, evaluation_id, flag_key). */
  predicate SameEvaluation(a: ReceiptRow, b: ReceiptRow) {
    && a.caller == b.caller && a.actor == b.actor && a.operation == b.operation
    && a.receipt.evaluationId == b.receipt.evaluationId && a.receipt.flagKey == b.receipt.flagKey
  }

  predicate Clash(a: ReceiptRow, b: ReceiptRow) {
    a.receipt.receiptId == b.receipt.receiptId || SameEvaluation(a, b)
  }

  predicate NoClashes(rows: seq<ReceiptRow>) {
    forall i, j | 0 <= i < j < |rows| :: !Clash(rows[i], rows[j])
  }

  ghost predicate ReceiptsInv(store: Store) {
    && (forall i | 0 <= i < |store.receipts| :: ReceiptInv(store, store.receipts[i]))
    && NoClashes(store.receipts)
  }

  ghost predicate StoreInv(store: Store) {
    FlagsInv(store) && EnvironmentsInv(store) && RulesetsInv(store) && CommandsInv(store) && ReceiptsInv(store)
  }

  // ----------------------------------------------------------- plans are facts

  /** A plan repeats what the store says about the rows it will touch. */
  ghost predicate PlanHolds(sha: Sha256, store: Store, request: Request, plan: Plan) {
    match request
    case CreateFlag(org, flagKey, _, _, _) =>
      plan.FlagCreation? && FlagId(org, flagKey) !in store.flags
    case UpdateFlag(org, flagKey, expected, _, _) =>
      plan.FlagChange? && Writable(store, FlagId(org, flagKey), expected, plan.flag)
    case ArchiveFlag(org, flagKey, expected) =>
      plan.FlagChange? && Writable(store, FlagId(org, flagKey), expected, plan.flag)
    case PutEnvironment(org, environmentKey, _, expected) =>
      var id := EnvironmentId(org, environmentKey);
      if expected.None? then plan.EnvironmentCreation? && id !in store.environments
      else plan.EnvironmentChange? && Renamable(store, id, expected.value, plan.environment)
    case PublishRuleset(org, flagKey, environmentKey, expected, expectedEnvironment, definition) =>
      && plan.Publication?
      && Writable(store, FlagId(org, flagKey), expected, plan.flag)
      && Renamable(store, EnvironmentId(org, environmentKey), expectedEnvironment, plan.environment)
      && Validate(plan.flag.valueType, definition).None?
      && plan.latest == Latest(store.rulesets, org, flagKey, environmentKey) < I64_MAX
    case Evaluate(org, environmentKey, flagKey, context) =>
      plan.Evaluations? && Pointwise(sha, store, org, environmentKey, [flagKey], context, plan.evaluated)
    case EvaluateBatch(org, environmentKey, flagKeys, context) =>
      plan.Evaluations? && Pointwise(sha, store, org, environmentKey, flagKeys, context, plan.evaluated)
  }

  ghost predicate Writable(store: Store, id: FlagId, expected: int, flag: FlagRecord) {
    id in store.flags && flag == store.flags[id] && !flag.archived && flag.revision == expected < I64_MAX
  }

  ghost predicate Renamable(store: Store, id: EnvironmentId, expected: int, environment: EnvironmentRecord) {
    id in store.environments && environment == store.environments[id] && environment.revision == expected < I64_MAX
  }

  ghost predicate Pointwise(sha: Sha256, store: Store, org: Text, environmentKey: Text, keys: seq<Text>,
                            context: Context, evaluated: seq<Evaluated>)
  {
    && |evaluated| == |keys|
    && forall i | 0 <= i < |keys| ::
         EvaluateKey(sha, store, org, environmentKey, keys[i], context) == Success(evaluated[i])
  }

  lemma PointwiseLast(sha: Sha256, store: Store, org: Text, environmentKey: Text, keys: seq<Text>, context: Context,
                      init: seq<Evaluated>, last: Evaluated)
    requires keys != [] && Pointwise(sha, store, org, environmentKey, keys[..|keys| - 1], context, init)
    requires EvaluateKey(sha, store, org, environmentKey, keys[|keys| - 1], context) == Success(last)
    ensures Pointwise(sha, store, org, environmentKey, keys, context, init + [last])
  {
    forall i | 0 <= i < |keys| - 1
      ensures EvaluateKey(sha, store, org, environmentKey, keys[i], context) == Success(init[i])
    {
      assert keys[i] == keys[..|keys| - 1][i];
    }
  }

  lemma {:induction false} BatchSucceeds(sha: Sha256, store: Store, org: Text, environmentKey: Text, keys: seq<Text>,
                                         context: Context)
    requires EvaluateKeys(sha, store, org, environmentKey, keys, context).Success?
    ensures Pointwise(sha, store, org, environmentKey, keys, context,
                      EvaluateKeys(sha, store, org, environmentKey, keys, context).value)
  {
    if keys != [] {
      var n := |keys| - 1;
      BatchSucceeds(sha, store, org, environmentKey, keys[..n], context);
      PointwiseLast(sha, store, org, environmentKey, keys, context,
                    EvaluateKeys(sha, store, org, environmentKey, keys[..n], context).value,
                    EvaluateKey(sha, store, org, environmentKey, keys[n], context).value);
    }
  }

  lemma {:induction false} BatchFails(sha: Sha256, store: Store, org: Text, environmentKey: Text, keys: seq<Text>,
                                      context: Context)
    returns (i: nat)
    requires EvaluateKeys(sha, store, org, environmentKey, keys, context).Failure?
    ensures FirstFailure(sha, store, org, environmentKey, keys, context, i,
                         EvaluateKeys(sha, store, org, environmentKey, keys, context).error)
  {
    var n := |keys| - 1;
    var init := EvaluateKeys(sha, store, org, environmentKey, keys[..n], context);
    if init.Failure? {
      i := BatchFails(sha, store, org, environmentKey, keys[..n], context);
      assert keys[i] == keys[..n][i];
      forall j | 0 <= j < i ensures EvaluateKey(sha, store, org, environmentKey, keys[j], context).Success? {
        assert keys[j] == keys[..n][j];
      }
    } else {
      BatchSucceeds(sha, store, org, environmentKey, keys[..n], context);
      i := n;
      forall j | 0 <= j < i ensures EvaluateKey(sha, store, org, environmentKey, keys[j], context).Success? {
        assert keys[j] == keys[..n][j];
      }
    }
  }

  /**
    A batch is pointwise: it succeeds exactly when every single evaluation
    does, with the same answers, and otherwise reports the first failure.
   */
  lemma BatchIsPointwise(sha: Sha256, store: Store, org: Text, environmentKey: Text, keys: seq<Text>, context: Context)
    ensures var r := EvaluateKeys(sha, store, org, environmentKey, keys, context);
            && (r.Success? ==> Pointwise(sha, store, org, environmentKey, keys, context, r.value))
            && (r.Failure? ==> exists i :: FirstFailure(sha, store, org, environmentKey, keys, context, i, r.error))
  {
    if EvaluateKeys(sha, store, org, environmentKey, keys, context).Success? {
      BatchSucceeds(sha, store, org, environmentKey, keys, context);
    } else {
      var i := BatchFails(sha, store, org, environmentKey, keys, context);
    }
  }

  ghost predicate FirstFailure(sha: Sha256, store: Store, org: Text, environmentKey: Text, keys: seq<Text>,
                               context: Context,
                               i: nat, error: StorageError)
  {
    && i < |keys|
    && EvaluateKey(sha, store, org, environmentKey, keys[i], context) == Failure(error)
    && forall j | 0 <= j < i :: EvaluateKey(sha, store, org, environmentKey, keys[j], context).Success?
  }

  lemma DecideHolds(sha: Sha256, store: Store, request: Request)
    requires Decide(sha, store, request).Success?
    ensures PlanHolds(sha, store, request, Decide(sha, store, request).value)
  {
    match request
    case Evaluate(org, environmentKey, flagKey, context) =>
      BatchIsPointwise(sha, store, org, environmentKey, [flagKey], context);
    case EvaluateBatch(org, environmentKey, flagKeys, context) =>
      BatchIsPointwise(sha, store, org, environmentKey, flagKeys, context);
    case _ =>
  }

  // ------------------------------------------------------------ ruleset numbers

  lemma LatestIs(rulesets: Rulesets, org: Text, flagKey: Text, environmentKey: Text)
    ensures var latest := Latest(rulesets, org, flagKey, environmentKey);
            && (forall n :: RulesetId(org, flagKey, environmentKey, n) in rulesets ==>
                  RulesetId(org, flagKey, environmentKey, latest) in rulesets && n <= latest)
            && (RulesetId(org, flagKey, environmentKey, latest) !in rulesets ==> latest == 0)
  {
    var revisions := Revisions(rulesets, org, flagKey, environmentKey);
    forall n | RulesetId(org, flagKey, environmentKey, n) in rulesets
      ensures n in revisions
    {
      assert RulesetId(org, flagKey, environmentKey, n)
             == RulesetId(org, flagKey, environmentKey, RulesetId(org, flagKey, environmentKey, n).revision);
    }
  }

  /** A witness determines the highest revision. */
  lemma LatestUnique(rulesets: Rulesets, org: Text, flagKey: Text, environmentKey: Text, n: int)
    requires RulesetId(org, flagKey, environmentKey, n) in rulesets
    requires forall m :: RulesetId(org, flagKey, environmentKey, m) in rulesets ==> m <= n
    ensures Latest(rulesets, org, flagKey, environmentKey) == n
  {
    LatestIs(rulesets, org, flagKey, environmentKey);
  }

  ghost predicate NoHoles(rulesets: Rulesets) {
    forall id | id in rulesets && id.revision > 1 :: id.(revision := id.revision - 1) in rulesets
  }

  lemma RulesetsHaveNoHoles(store: Store)
    requires RulesetsInv(store)
    ensures NoHoles(store.rulesets)
  {
    forall id | id in store.rulesets && id.revision > 1 ensures id.(revision := id.revision - 1) in store.rulesets {
      assert RulesetInv(store, id);
    }
  }

  /** Ruleset revisions are exactly 1, 2, ..., latest. */
  lemma NoGaps(store: Store, org: Text, flagKey: Text, environmentKey: Text, n: int)
    requires RulesetsInv(store)
    ensures RulesetId(org, flagKey, environmentKey, n) in store.rulesets
            <==> 1 <= n <= Latest(store.rulesets, org, flagKey, environmentKey)
  {
    LatestIs(store.rulesets, org, flagKey, environmentKey);
    var latest := Latest(store.rulesets, org, flagKey, environmentKey);
    if RulesetId(org, flagKey, environmentKey, n) in store.rulesets {
      assert RulesetInv(store, RulesetId(org, flagKey, environmentKey, n));
    }
    if 1 <= n <= latest {
      RulesetsHaveNoHoles(store);
      Downward(store.rulesets, org, flagKey, environmentKey, n, latest);
    }
  }

  lemma {:induction false} Downward(rulesets: Rulesets, org: Text, flagKey: Text, environmentKey: Text, n: int,
                                    top: int)
    requires NoHoles(rulesets) && 1 <= n <= top
    requires RulesetId(org, flagKey, environmentKey, top) in rulesets
    ensures RulesetId(org, flagKey, environmentKey, n) in rulesets
    decreases top - n
  {
    if n < top {
      var id := RulesetId(org, flagKey, environmentKey, top);
      assert id.(revision := top - 1) == RulesetId(org, flagKey, environmentKey, top - 1);
      Downward(rulesets, org, flagKey, environmentKey, n, top - 1);
    }
  }

  // -------------------------------------------------- evaluation cannot go wrong

  /**
    No stored ruleset can make an evaluation fail: the re-validation passes,
    and a returned value carries one payload, of the flag's type.
   */
  lemma EvaluationIsWellTyped(sha: Sha256, store: Store, org: Text, environmentKey: Text, flagKey: Text,
                              context: Context)
    requires StoreInv(store)
    ensures match EvaluateKey(sha, store, org, environmentKey, flagKey, context)
            case Failure(error) =>
              error == Domain(FlagNotFound) || error == Domain(Archived) || error == Domain(EnvironmentNotFound)
              || error == Domain(NoPublishedRuleset)
            case Success(e) =>
              FlagId(org, flagKey) in store.flags
              && ValidValue(store.flags[FlagId(org, flagKey)].valueType, e.selection.variant.value)
  {
    var id := RulesetId(org, flagKey, environmentKey, Latest(store.rulesets, org, flagKey, environmentKey));
    if id in store.rulesets {
      assert RulesetInv(store, id);
      AcceptedNeverFails(store.flags[FlagId(org, flagKey)].valueType, store.rulesets[id].definition, context.attributes,
                         Bucket(sha, org, environmentKey, flagKey, context.targetingKey));
    }
  }

  // -------------------------------------------------------------- preservation

  predicate FreshDraws(receipts: seq<ReceiptRow>, draws: seq<Draw>) {
    && (forall i, j | 0 <= i < j < |draws| :: draws[i].receiptId != draws[j].receiptId)
    && (forall i, j | 0 <= i < |receipts| && 0 <= j < |draws| :: receipts[i].receipt.receiptId != draws[j].receiptId)
  }

  /** A command that has not been seen, whose plan succeeds and whose ids are fresh. */
  ghost predicate Admissible(sha: Sha256, store: Store, call: Call, stamp: Stamp) {
    && |stamp.draws| == |EvaluatedKeys(call.request)|
    && Verdict(sha, store, call).None?
    && FreshDraws(store.receipts, stamp.draws)
  }

  function After(sha: Sha256, store: Store, call: Call, stamp: Stamp): Store
    requires |stamp.draws| == |EvaluatedKeys(call.request)|
  {
    Apply(sha, store, call, stamp).0
  }

  /** Rows are only added or changed in the ways the operations allow. */
  ghost predicate Extends(a: Store, b: Store) {
    && (forall id | id in a.flags :: id in b.flags && FlagEvolves(a.flags[id], b.flags[id]))
    && (forall id | id in a.environments ::
          id in b.environments && a.environments[id].revision <= b.environments[id].revision)
    && (forall id | id in a.rulesets :: id in b.rulesets && b.rulesets[id] == a.rulesets[id])
    && (forall id | id in a.commands :: id in b.commands && b.commands[id] == a.commands[id])
    && a.receipts <= b.receipts
  }

  predicate FlagEvolves(a: FlagRecord, b: FlagRecord) {
    && a.valueType == b.valueType && a.rowSeq == b.rowSeq && a.createdAt == b.createdAt
    && a.revision <= b.revision
    && (a.revision == b.revision || a.archived ==> a == b)
  }

  lemma ExtendsTransitive(a: Store, b: Store, c: Store)
    requires Extends(a, b) && Extends(b, c)
    ensures Extends(a, c)
  {
  }

  lemma AppliedIsCommit(sha: Sha256, store: Store, call: Call, stamp: Stamp) returns (plan: Plan, effect: Effect)
    requires Admissible(sha, store, call, stamp)
    ensures PlanHolds(sha, store, call.request, plan) && Fits(call.request, plan, stamp)
    ensures effect == Enact(call, plan, stamp) && IdOf(call) !in store.commands
    ensures Apply(sha, store, call, stamp) == (Commit(store, call, effect), Success(effect.response))
    ensures After(sha, store, call, stamp) == Commit(store, call, effect)
  {
    plan := Decide(sha, store, call.request).value;
    DecideHolds(sha, store, call.request);
    effect := Enact(call, plan, stamp);
  }

  lemma FlagsEvolve(sha: Sha256, store: Store, call: Call, plan: Plan, stamp: Stamp)
    requires FlagsInv(store) && PlanHolds(sha, store, call.request, plan) && Fits(call.request, plan, stamp)
    ensures var after := Commit(store, call, Enact(call, plan, stamp)).flags;
            forall id | id in store.flags :: id in after && FlagEvolves(store.flags[id], after[id])
  {
  }

  lemma EnvironmentsEvolve(sha: Sha256, store: Store, call: Call, plan: Plan, stamp: Stamp)
    requires EnvironmentsInv(store) && PlanHolds(sha, store, call.request, plan) && Fits(call.request, plan, stamp)
    ensures var after := Commit(store, call, Enact(call, plan, stamp)).environments;
            forall id | id in store.environments :: id in after && store.environments[id].revision <= after[id].revision
  {
  }

  lemma RulesetsStay(sha: Sha256, store: Store, call: Call, plan: Plan, stamp: Stamp)
    requires PlanHolds(sha, store, call.request, plan) && Fits(call.request, plan, stamp)
    ensures var after := Commit(store, call, Enact(call, plan, stamp)).rulesets;
            forall id | id in store.rulesets :: id in after && after[id] == store.rulesets[id]
  {
    if call.request.PublishRuleset? {
      LatestIs(store.rulesets, call.request.org, call.request.flagKey, call.request.environmentKey);
    }
  }

  lemma CommitExtends(sha: Sha256, store: Store, call: Call, plan: Plan, stamp: Stamp)
    requires FlagsInv(store) && EnvironmentsInv(store) && IdOf(call) !in store.commands
    requires PlanHolds(sha, store, call.request, plan) && Fits(call.request, plan, stamp)
    ensures Extends(store, Commit(store, call, Enact(call, plan, stamp)))
  {
    FlagsEvolve(sha, store, call, plan, stamp);
    EnvironmentsEvolve(sha, store, call, plan, stamp);
    RulesetsStay(sha, store, call, plan, stamp);
  }

  lemma AppliedExtends(sha: Sha256, store: Store, call: Call, stamp: Stamp)
    requires FlagsInv(store) && EnvironmentsInv(store) && Admissible(sha, store, call, stamp)
    ensures Extends(store, After(sha, store, call, stamp))
  {
    var plan, effect := AppliedIsCommit(sha, store, call, stamp);
    CommitExtends(sha, store, call, plan, stamp);
  }

  lemma FlagsKept(sha: Sha256, store: Store, call: Call, plan: Plan, stamp: Stamp)
    requires StoreInv(store) && PlanHolds(sha, store, call.request, plan) && Fits(call.request, plan, stamp)
    ensures FlagsInv(Commit(store, call, Enact(call, plan, stamp)))
    ensures EnvironmentsInv(Commit(store, call, Enact(call, plan, stamp)))
  {
  }

  lemma CommandsKept(sha: Sha256, store: Store, call: Call, plan: Plan, stamp: Stamp)
    requires CommandsInv(store) && Fits(call.request, plan, stamp)
    ensures CommandsInv(Commit(store, call, Enact(call, plan, stamp)))
  {
  }

  lemma RulesetsKept(sha: Sha256, store: Store, call: Call, stamp: Stamp)
    requires StoreInv(store) && Admissible(sha, store, call, stamp)
    ensures RulesetsInv(After(sha, store, call, stamp))
  {
    var after := After(sha, store, call, stamp);
    var plan := Decide(sha, store, call.request).value;
    DecideHolds(sha, store, call.request);
    AppliedExtends(sha, store, call, stamp);
    forall id | id in after.rulesets ensures RulesetInv(after, id) {
      if id in store.rulesets {
        assert RulesetInv(store, id);
      } else {
        var r := call.request;
        assert id == RulesetId(r.org, r.flagKey, r.environmentKey, plan.latest + 1);
        LatestIs(store.rulesets, r.org, r.flagKey, r.environmentKey);
        NoGaps(store, r.org, r.flagKey, r.environmentKey, plan.latest);
        assert id.(revision := id.revision - 1) == RulesetId(r.org, r.flagKey, r.environmentKey, plan.latest);
        if plan.latest != 0 {
          assert RulesetInv(store, id.(revision := id.revision - 1));
        }
      }
    }
  }

  /** Evaluation number `i` of a call has left its receipt as row `row`. */
  ghost predicate Recorded(after: Store, call: Call, draw: Draw, i: nat, row: ReceiptRow) {
    && CommandId(row.caller, row.actor, row.operation, call.command.key) == IdOf(call)
    && OwnedBy(after.commands, row, call.command.key, i)
    && row.receipt.receiptId == draw.receiptId
    && ReceiptInv(after, row)
  }

  /** The receipts of a call are appended, one for every evaluated key. */
  ghost predicate Appended(store: Store, after: Store, call: Call, draws: seq<Draw>) {
    var n := |store.receipts|;
    && |after.receipts| == n + |draws| && after.receipts[..n] == store.receipts
    && forall i: nat | i < |draws| :: Recorded(after, call, draws[i], i, after.receipts[n + i])
  }

  /** What a successful evaluation rests on. */
  ghost predicate Supported(sha: Sha256, store: Store, org: Text, environmentKey: Text, flagKey: Text, context: Context,
                            e: Evaluated) {
    var id := RulesetId(org, flagKey, environmentKey, e.rulesetRevision);
    && e.flagKey == flagKey
    && FlagId(org, flagKey) in store.flags && !store.flags[FlagId(org, flagKey)].archived
    && EnvironmentId(org, environmentKey) in store.environments
    && e.rulesetRevision == Latest(store.rulesets, org, flagKey, environmentKey)
    && id in store.rulesets
    && ChooseVariant(sha, org, environmentKey, flagKey, context.targetingKey, context.attributes,
                     store.rulesets[id].definition) == Success(e.selection)
  }

  lemma EvaluateKeyMeans(sha: Sha256, store: Store, org: Text, environmentKey: Text, flagKey: Text, context: Context)
    requires EvaluateKey(sha, store, org, environmentKey, flagKey, context).Success?
    ensures Supported(sha, store, org, environmentKey, flagKey, context,
                      EvaluateKey(sha, store, org, environmentKey, flagKey, context).value)
  {
  }

  lemma ReceiptRecorded(sha: Sha256, store: Store, call: Call, plan: Plan, stamp: Stamp, i: nat)
    requires PlanHolds(sha, store, call.request, plan) && Fits(call.request, plan, stamp)
    requires plan.Evaluations? && i < |plan.evaluated| && |plan.evaluated| == |stamp.draws|
    ensures var effect := Enact(call, plan, stamp);
            && |effect.receipts| == |stamp.draws|
            && Recorded(Commit(store, call, effect), call, stamp.draws[i], i, effect.receipts[i])
  {
    var r, effect := call.request, Enact(call, plan, stamp);
    EvaluateKeyMeans(sha, store, r.org, r.environmentKey, EvaluatedKeys(r)[i], r.context);
    assert Supported(sha, store, r.org, r.environmentKey, EvaluatedKeys(r)[i], r.context, plan.evaluated[i]);
    assert OwnedBy(Commit(store, call, effect).commands, effect.receipts[i], call.command.key, i);
  }

  lemma ReceiptCount(sha: Sha256, store: Store, call: Call, stamp: Stamp)
    requires Admissible(sha, store, call, stamp)
    ensures |After(sha, store, call, stamp).receipts| == |store.receipts| + |EvaluatedKeys(call.request)|
  {
    var plan, effect := AppliedIsCommit(sha, store, call, stamp);
  }

  lemma ReceiptsAppended(sha: Sha256, store: Store, call: Call, stamp: Stamp)
    requires Admissible(sha, store, call, stamp)
    ensures Appended(store, After(sha, store, call, stamp), call, stamp.draws)
  {
    var plan, effect := AppliedIsCommit(sha, store, call, stamp);
    var after, n := Commit(store, call, effect), |store.receipts|;
    forall i: nat | i < |stamp.draws| ensures Recorded(after, call, stamp.draws[i], i, after.receipts[n + i]) {
      ReceiptRecorded(sha, store, call, plan, stamp, i);
    }
    assert |effect.receipts| == |stamp.draws|;
  }

  lemma ReceiptsOwned(store: Store, after: Store, call: Call, draws: seq<Draw>)
    requires ReceiptsInv(store) && Extends(store, after) && Appended(store, after, call, draws)
    ensures forall i | 0 <= i < |after.receipts| :: ReceiptInv(after, after.receipts[i])
  {
    var n := |store.receipts|;
    forall i | 0 <= i < |after.receipts| ensures ReceiptInv(after, after.receipts[i]) {
      if i < n {
        var row := store.receipts[i];
        assert ReceiptInv(store, row);
        var key, index :| OwnedBy(store.commands, row, key, index);
        assert OwnedBy(after.commands, row, key, index);
        assert row == after.receipts[..n][i];
      } else {
        assert Recorded(after, call, draws[i - n], i - n, after.receipts[n + (i - n)]);
      }
    }
  }

  lemma ReceiptsDistinct(store: Store, after: Store, call: Call, draws: seq<Draw>)
    requires ReceiptsInv(store) && Appended(store, after, call, draws) && FreshDraws(store.receipts, draws)
    requires IdOf(call) !in store.commands && (IdOf(call).operation == EvaluateOp ==> |draws| == 1)
    ensures NoClashes(after.receipts)
  {
    var n := |store.receipts|;
    forall i, j | 0 <= i < j < |after.receipts| ensures !Clash(after.receipts[i], after.receipts[j]) {
      var a, b := after.receipts[i], after.receipts[j];
      if j < n {
        assert a == after.receipts[..n][i] && b == after.receipts[..n][j];
      } else {
        assert Recorded(after, call, draws[j - n], j - n, after.receipts[n + (j - n)]);
        if i < n {
          assert a == after.receipts[..n][i];
          assert ReceiptInv(store, store.receipts[i]);
          OldAndNewDiffer(store.commands, a, b, call.command.key, j - n);
        } else {
          assert Recorded(after, call, draws[i - n], i - n, after.receipts[n + (i - n)]);
          NewAndNewDiffer(a, b, call.command.key, i - n, j - n);
        }
      }
    }
  }

  lemma ReceiptsKept(sha: Sha256, store: Store, call: Call, stamp: Stamp)
    requires StoreInv(store) && Admissible(sha, store, call, stamp)
    ensures ReceiptsInv(After(sha, store, call, stamp))
  {
    var after := After(sha, store, call, stamp);
    ReceiptsAppended(sha, store, call, stamp);
    AppliedExtends(sha, store, call, stamp);
    ReceiptsOwned(store, after, call, stamp.draws);
    ReceiptsDistinct(store, after, call, stamp.draws);
  }

  lemma OldAndNewDiffer(commands: Commands, a: ReceiptRow, b: ReceiptRow, key: Text, index: nat)
    requires Owned(commands, a)
    requires CommandId(b.caller, b.actor, b.operation, key) !in commands
    requires b.receipt.evaluationId == EvaluationName(b.operation, key, index)
    ensures !SameEvaluation(a, b)
  {
    var key', index' :| OwnedBy(commands, a, key', index');
    if SameEvaluation(a, b) {
      SameNameSameKey(a.operation, key', index', key, index);
    }
  }

  lemma NewAndNewDiffer(a: ReceiptRow, b: ReceiptRow, key: Text, i: nat, j: nat)
    requires a.receipt.evaluationId == EvaluationName(a.operation, key, i)
    requires b.receipt.evaluationId == EvaluationName(b.operation, key, j)
    requires i != j && a.operation != EvaluateOp
    ensures !SameEvaluation(a, b)
  {
    if SameEvaluation(a, b) {
      EvaluationIdInjective(key, i, key, j);
    }
  }

  lemma SameNameSameKey(operation: Operation, key: Text, index: nat, key': Text, index': nat)
    requires EvaluationName(operation, key, index) == EvaluationName(operation, key', index')
    ensures key == key'
  {
    if operation != EvaluateOp {
      EvaluationIdInjective(key, index, key', index');
    }
  }

  /** Every admissible command keeps the invariant. */
  lemma InvariantKept(sha: Sha256, store: Store, call: Call, stamp: Stamp)
    requires StoreInv(store) && Admissible(sha, store, call, stamp)
    ensures StoreInv(After(sha, store, call, stamp)) && Extends(store, After(sha, store, call, stamp))
  {
    var plan, effect := AppliedIsCommit(sha, store, call, stamp);
    FlagsKept(sha, store, call, plan, stamp);
    CommandsKept(sha, store, call, plan, stamp);
    RulesetsKept(sha, store, call, stamp);
    ReceiptsKept(sha, store, call, stamp);
    AppliedExtends(sha, store, call, stamp);
  }

  lemma EmptyInv()
    ensures StoreInv(EMPTY)
  {
  }
}
