/**
  What each operation of the sequential store promises its caller: which error
  it gives when, which rows it changes and in what way, and that everything else
  stays. Both backends refine the store, so these are their promises too.
 */
module Operations {
  import opened Results
  import opened Text
  import opened Domain
  import opened SequentialStore
  import opened Invariants
  import opened History
  import opened Rollouts

  /** A command that has not been seen before. */
  predicate Unseen(store: Store, call: Call) {
    IdOf(call) !in store.commands
  }

  /** The command failed with this error, and nothing has changed. */
  predicate Refused(store: Store, outcome: (Store, StorageResult<Response>), error: StorageError) {
    outcome == (store, Failure(error))
  }

  /** The command succeeded; its response is stored under its key and hash, and nothing else in the table changed. */
  predicate Answered(store: Store, outcome: (Store, StorageResult<Response>), call: Call) {
    && outcome.1.Success?
    && outcome.0.commands == store.commands[IdOf(call) := CommandRow(call.command.hash, outcome.1.value)]
  }

  /** Only this flag was written. */
  predicate OnlyFlag(a: Store, b: Store, id: FlagId) {
    && b.environments == a.environments && b.rulesets == a.rulesets && b.receipts == a.receipts
    && b.flags.Keys == a.flags.Keys + {id} && forall other | other in a.flags
       && other != id :: b.flags[other] == a.flags[other]
  }

  /** Only this environment was written. */
  predicate OnlyEnvironment(a: Store, b: Store, id: EnvironmentId) {
    && b.flags == a.flags && b.rulesets == a.rulesets && b.receipts == a.receipts
    && b.environments.Keys == a.environments.Keys + {id}
    && forall other | other in a.environments && other != id :: b.environments[other] == a.environments[other]
  }

  /** A repeated command gets its stored response or a conflict, and changes nothing. */
  lemma RepeatMeans(sha: Sha256, store: Store, call: Call, stamp: Stamp)
    requires |stamp.draws| == |EvaluatedKeys(call.request)| && CommandsInv(store) && !Unseen(store, call)
    ensures var row := store.commands[IdOf(call)];
            Apply(sha, store, call, stamp)
            == (store, if row.hash == call.command.hash then Success(row.response)
                else Failure(Domain(IdempotencyConflict)))
  {
  }

  lemma CreateFlagMeans(sha: Sha256, store: Store, call: Call, stamp: Stamp)
    requires call.request.CreateFlag? && Unseen(store, call) && stamp.draws == []
    ensures var r, outcome := call.request, Apply(sha, store, call, stamp);
            var id := FlagId(r.org, r.flagKey);
            if id in store.flags then Refused(store, outcome, Domain(AlreadyExists))
            else
              && Answered(store, outcome, call) && OnlyFlag(store, outcome.0, id)
              && var flag := outcome.0.flags[id];
                 && outcome.1.value == FlagResponse(flag)
                 && flag.org == r.org && flag.flagKey == r.flagKey && flag.name == r.name
                 && flag.description == r.description && flag.valueType == r.valueType
                 && flag.revision == 1 && !flag.archived && flag.archivedAt == None
  {
  }

  /** Whether a flag may be written by a caller who expects this revision. */
  ghost predicate FlagRefusal(store: Store, id: FlagId, expected: int, error: StorageError) {
    || (id !in store.flags && error == Domain(NotFound))
    || (id in store.flags && store.flags[id].archived && error == Domain(Archived))
    || (id in store.flags && !store.flags[id].archived && store.flags[id].revision != expected
        && error == Domain(RevisionConflict))
  }

  predicate FlagOpen(store: Store, id: FlagId, expected: int) {
    id in store.flags && !store.flags[id].archived && store.flags[id].revision == expected
  }

  /** What a write to a flag leaves alone. */
  predicate SameFlagOtherwise(before: FlagRecord, after: FlagRecord) {
    && after.org == before.org && after.flagKey == before.flagKey && after.valueType == before.valueType
    && after.createdAt == before.createdAt && after.rowSeq == before.rowSeq
  }

  lemma UpdateFlagMeans(sha: Sha256, store: Store, call: Call, stamp: Stamp)
    requires call.request.UpdateFlag? && Unseen(store, call) && stamp.draws == []
    ensures var r, outcome := call.request, Apply(sha, store, call, stamp);
            var id := FlagId(r.org, r.flagKey);
            && (!FlagOpen(store, id, r.expectedRevision) ==>
                  exists error :: FlagRefusal(store, id, r.expectedRevision, error) && Refused(store, outcome, error))
            && (FlagOpen(store, id, r.expectedRevision) && store.flags[id].revision >= I64_MAX ==>
                  Refused(store, outcome, Backend))
            && (FlagOpen(store, id, r.expectedRevision) && store.flags[id].revision < I64_MAX && FlagsInv(store) ==>
                  && Answered(store, outcome, call) && OnlyFlag(store, outcome.0, id)
                  && var before, after := store.flags[id], outcome.0.flags[id];
                     && outcome.1.value == FlagResponse(after) && SameFlagOtherwise(before, after)
                     && after.name == r.name && after.description == r.description
                     && after.revision == before.revision + 1
                     && after.archived == before.archived && after.archivedAt == before.archivedAt)
  {
    FlagWriteRefused(sha, store, call, stamp, FlagId(call.request.org, call.request.flagKey),
                     call.request.expectedRevision);
  }

  lemma FlagWriteRefused(sha: Sha256, store: Store, call: Call, stamp: Stamp, id: FlagId, expected: int)
    requires Unseen(store, call) && |stamp.draws| == |EvaluatedKeys(call.request)|
    requires call.request.UpdateFlag? || call.request.ArchiveFlag? || call.request.PublishRuleset?
    requires id == FlagId(call.request.org, call.request.flagKey) && expected == call.request.expectedRevision
    ensures !FlagOpen(store, id, expected) ==>
              exists error :: FlagRefusal(store, id, expected, error)
                && Refused(store, Apply(sha, store, call, stamp), error)
  {
    if id !in store.flags {
      assert FlagRefusal(store, id, expected, Domain(NotFound));
    } else if store.flags[id].archived {
      assert FlagRefusal(store, id, expected, Domain(Archived));
    } else if store.flags[id].revision != expected {
      assert FlagRefusal(store, id, expected, Domain(RevisionConflict));
    }
  }

  lemma ArchiveFlagMeans(sha: Sha256, store: Store, call: Call, stamp: Stamp)
    requires call.request.ArchiveFlag? && Unseen(store, call) && stamp.draws == []
    ensures var r, outcome := call.request, Apply(sha, store, call, stamp);
            var id := FlagId(r.org, r.flagKey);
            && (!FlagOpen(store, id, r.expectedRevision) ==>
                  exists error :: FlagRefusal(store, id, r.expectedRevision, error) && Refused(store, outcome, error))
            && (FlagOpen(store, id, r.expectedRevision) && store.flags[id].revision >= I64_MAX ==>
                  Refused(store, outcome, Backend))
            && (FlagOpen(store, id, r.expectedRevision) && store.flags[id].revision < I64_MAX && FlagsInv(store) ==>
                  && Answered(store, outcome, call) && OnlyFlag(store, outcome.0, id)
                  && var before, after := store.flags[id], outcome.0.flags[id];
                     && outcome.1.value == FlagResponse(after) && SameFlagOtherwise(before, after)
                     && after.name == before.name && after.description == before.description
                     && after.revision == before.revision + 1 && after.archived && after.archivedAt.Some?)
  {
    FlagWriteRefused(sha, store, call, stamp, FlagId(call.request.org, call.request.flagKey),
                     call.request.expectedRevision);
  }

  lemma PutEnvironmentMeans(sha: Sha256, store: Store, call: Call, stamp: Stamp)
    requires call.request.PutEnvironment? && Unseen(store, call) && stamp.draws == []
    ensures var r, outcome := call.request, Apply(sha, store, call, stamp);
            var id := EnvironmentId(r.org, r.environmentKey);
            && (id in store.environments && r.expected == None ==> Refused(store, outcome, Domain(AlreadyExists)))
            && (id !in store.environments && r.expected != None ==> Refused(store, outcome, Domain(NotFound)))
            && (id in store.environments && r.expected.Some? && r.expected.value != store.environments[id].revision ==>
                  Refused(store, outcome, Domain(RevisionConflict)))
            && (id !in store.environments && r.expected == None ==>
                  && Answered(store, outcome, call) && OnlyEnvironment(store, outcome.0, id)
                  && var environment := outcome.0.environments[id];
                     && outcome.1.value == EnvironmentResponse(environment)
                     && environment.org == r.org && environment.environmentKey == r.environmentKey
                     && environment.name == r.name && environment.revision == 1)
  {
  }

  lemma RenameEnvironmentMeans(sha: Sha256, store: Store, call: Call, stamp: Stamp)
    requires call.request.PutEnvironment? && Unseen(store, call) && stamp.draws == [] && EnvironmentsInv(store)
    requires var r := call.request;
             var id := EnvironmentId(r.org, r.environmentKey);
             id in store.environments && r.expected == Some(store.environments[id].revision)
    ensures var r, outcome := call.request, Apply(sha, store, call, stamp);
            var id := EnvironmentId(r.org, r.environmentKey);
            if store.environments[id].revision >= I64_MAX then Refused(store, outcome, Backend)
            else
              && Answered(store, outcome, call) && OnlyEnvironment(store, outcome.0, id)
              && var before, after := store.environments[id], outcome.0.environments[id];
                 && outcome.1.value == EnvironmentResponse(after)
                 && after.org == before.org && after.environmentKey == before.environmentKey
                 && after.createdAt == before.createdAt && after.name == r.name
                 && after.revision == before.revision + 1
  {
  }

  // -------------------------------------------------------------------- publishing

  /** The first reason to refuse a publication, in the order in which they are looked for. */
  ghost predicate PublicationRefusal(store: Store, r: Request, error: StorageError)
    requires r.PublishRuleset?
  {
    var flag, environment := FlagId(r.org, r.flagKey), EnvironmentId(r.org, r.environmentKey);
    if !FlagOpen(store, flag, r.expectedRevision) then FlagRefusal(store, flag, r.expectedRevision, error)
    else if Validate(store.flags[flag].valueType, r.definition).Some? then
      error == Domain(Validate(store.flags[flag].valueType, r.definition).value)
    else if environment !in store.environments then error == Domain(NotFound)
    else if store.environments[environment].revision != r.expectedEnvironmentRevision then error
      == Domain(RevisionConflict)
    else
      && error == Backend
      && (store.flags[flag].revision >= I64_MAX || store.environments[environment].revision >= I64_MAX
          || Latest(store.rulesets, r.org, r.flagKey, r.environmentKey) >= I64_MAX)
  }

  lemma PublishRulesetRefusals(sha: Sha256, store: Store, call: Call, stamp: Stamp)
    requires call.request.PublishRuleset? && Unseen(store, call) && stamp.draws == []
    ensures forall error :: Refused(store, Apply(sha, store, call, stamp), error)
                            <==> PublicationRefusal(store, call.request, error)
  {
  }

  /** The ruleset that a publication adds. */
  function PublishedRuleset(store: Store, r: Request): RulesetId
    requires r.PublishRuleset?
  {
    RulesetId(r.org, r.flagKey, r.environmentKey, Latest(store.rulesets, r.org, r.flagKey, r.environmentKey) + 1)
  }

  /** A publication adds one ruleset, under the next revision, and moves flag and environment on by one. */
  lemma PublishRulesetMeans(sha: Sha256, store: Store, call: Call, stamp: Stamp)
    requires call.request.PublishRuleset? && Unseen(store, call) && stamp.draws == []
    requires FlagsInv(store) && EnvironmentsInv(store) && Apply(sha, store, call, stamp).1.Success?
    ensures var r, after := call.request, Apply(sha, store, call, stamp).0;
            && after.receipts == store.receipts
            && FlagMoved(store, after, FlagId(r.org, r.flagKey), r.expectedRevision)
            && EnvironmentMoved(store, after, EnvironmentId(r.org, r.environmentKey), r.expectedEnvironmentRevision)
            && RulesetAdded(store, after, PublishedRuleset(store, r), r.definition, call.command.actor)
  {
    DecideHolds(sha, store, call.request);
    LatestIs(store.rulesets, call.request.org, call.request.flagKey, call.request.environmentKey);
  }

  /** Only the revision of this flag, and the time of its update, have changed. */
  ghost predicate FlagMoved(a: Store, b: Store, id: FlagId, expected: int) {
    && id in a.flags && id in b.flags && b.flags == a.flags[id := b.flags[id]]
    && var before, after := a.flags[id], b.flags[id];
       && after == before.(revision := after.revision, updatedAt := after.updatedAt)
       && !before.archived && before.revision == expected && after.revision == expected + 1
  }

  ghost predicate EnvironmentMoved(a: Store, b: Store, id: EnvironmentId, expected: int) {
    && id in a.environments && id in b.environments && b.environments == a.environments[id := b.environments[id]]
    && var before, after := a.environments[id], b.environments[id];
       && after == before.(revision := after.revision, updatedAt := after.updatedAt)
       && before.revision == expected && after.revision == expected + 1
  }

  ghost predicate RulesetAdded(a: Store, b: Store, id: RulesetId, definition: RulesetDefinition, actor: Text) {
    && id !in a.rulesets && id in b.rulesets && b.rulesets == a.rulesets[id := b.rulesets[id]]
    && b.rulesets[id].definition == definition && b.rulesets[id].publishedBy == actor
  }

  /** The response names the new revisions. */
  lemma PublicationIs(sha: Sha256, store: Store, call: Call, stamp: Stamp)
    requires call.request.PublishRuleset? && Unseen(store, call) && stamp.draws == []
    requires Apply(sha, store, call, stamp).1.Success?
    ensures var r, outcome := call.request, Apply(sha, store, call, stamp);
            && Answered(store, outcome, call) && outcome.1.value.PublishResponse?
            && var p := outcome.1.value.publication;
               && p.org == r.org && p.flagKey == r.flagKey && p.environmentKey == r.environmentKey
               && p.rulesetRevision == PublishedRuleset(store, r).revision
               && p.flagRevision == r.expectedRevision + 1
               && p.environmentRevision == r.expectedEnvironmentRevision + 1 && p.publishedBy == call.command.actor
  {
  }

  // -------------------------------------------------------------------- evaluating

  /** The first reason why a key cannot be evaluated, in the order in which they are looked for. */
  ghost predicate EvaluationRefusal(store: Store, org: Text, environmentKey: Text, flagKey: Text, error: StorageError) {
    var flag, environment := FlagId(org, flagKey), EnvironmentId(org, environmentKey);
    if flag !in store.flags then error == Domain(FlagNotFound)
    else if store.flags[flag].archived then error == Domain(Archived)
    else if environment !in store.environments then error == Domain(EnvironmentNotFound)
    else
      && error == Domain(NoPublishedRuleset)
      && forall n :: RulesetId(org, flagKey, environmentKey, n) !in store.rulesets
  }

  lemma EvaluationRefusedIff(sha: Sha256, store: Store, org: Text, environmentKey: Text, flagKey: Text,
                             context: Context)
    requires StoreInv(store)
    ensures forall error :: EvaluateKey(sha, store, org, environmentKey, flagKey, context) == Failure(error)
                            <==> EvaluationRefusal(store, org, environmentKey, flagKey, error)
  {
    LatestIs(store.rulesets, org, flagKey, environmentKey);
    if RulesetId(org, flagKey, environmentKey, Latest(store.rulesets, org, flagKey, environmentKey)) in store.rulesets {
      PublishedIsServed(sha, store, org, environmentKey, flagKey, context);
    }
  }

  /** A live flag with a published ruleset always has an evaluation. */
  lemma PublishedIsServed(sha: Sha256, store: Store, org: Text, environmentKey: Text, flagKey: Text, context: Context)
    requires StoreInv(store)
    requires RulesetId(org, flagKey, environmentKey,
                       Latest(store.rulesets, org, flagKey, environmentKey)) in store.rulesets
    ensures FlagId(org, flagKey) in store.flags && EnvironmentId(org, environmentKey) in store.environments
    ensures var outcome := EvaluateKey(sha, store, org, environmentKey, flagKey, context);
            if store.flags[FlagId(org, flagKey)].archived then outcome == Failure(Domain(Archived))
              else outcome.Success?
  {
    var id := RulesetId(org, flagKey, environmentKey, Latest(store.rulesets, org, flagKey, environmentKey));
    assert RulesetInv(store, id);
    AcceptedNeverFails(store.flags[FlagId(org, flagKey)].valueType, store.rulesets[id].definition, context.attributes,
                       Bucket(sha, org, environmentKey, flagKey, context.targetingKey));
  }

  /** The selection of the flag's highest published ruleset for this context. */
  ghost predicate Selects(sha: Sha256, store: Store, org: Text, environmentKey: Text, flagKey: Text, context: Context,
                          revision: int, selection: Selection)
  {
    var id := RulesetId(org, flagKey, environmentKey, revision);
    && id in store.rulesets
    && (forall n :: RulesetId(org, flagKey, environmentKey, n) in store.rulesets ==> n <= revision)
    && ChooseVariant(sha, org, environmentKey, flagKey, context.targetingKey, context.attributes,
                     store.rulesets[id].definition) == Success(selection)
  }

  /** Record and receipt of entry `k` say what was selected, for whom, by which command. */
  ghost predicate Reports(call: Call, k: nat, revision: int, selection: Selection, draw: Draw, record: EvaluationRecord,
                          row: ReceiptRow)
    requires k < |EvaluatedKeys(call.request)| && (call.request.Evaluate? || call.request.EvaluateBatch?)
  {
    var r := call.request;
    && record.flagKey == EvaluatedKeys(r)[k] == row.receipt.flagKey
    && record.environmentKey == r.environmentKey == row.receipt.environmentKey
    && record.variantKey == selection.variant.variantKey == row.receipt.variantKey
    && record.value == selection.variant.value
    && record.reason == selection.reason == row.receipt.reason
    && record.rulesetRevision == revision == row.receipt.rulesetRevision
    && record.receiptId == draw.receiptId == row.receipt.receiptId
    && record.evaluatedAt == draw.evaluatedAt == row.receipt.evaluatedAt
    && row.receipt.contextHash == r.context.hash
    && row.org == r.org && row.caller == call.command.caller && row.actor == call.command.actor
    && (row.operation == EvaluateOp <==> r.Evaluate?)
  }

  /** The keys of a request, in their order. */
  lemma EvaluatedKeysAre(r: Request)
    ensures r.Evaluate? ==> EvaluatedKeys(r) == [r.flagKey]
    ensures r.EvaluateBatch? ==> EvaluatedKeys(r) == r.flagKeys
  {
  }

  /** An evaluation stores one receipt per key, in order, changes nothing else, and returns the records. */
  lemma EvaluateMeans(sha: Sha256, store: Store, call: Call, stamp: Stamp, k: nat)
    requires call.request.Evaluate? || call.request.EvaluateBatch?
    requires Unseen(store, call) && |stamp.draws| == |EvaluatedKeys(call.request)| && k < |stamp.draws|
    requires Apply(sha, store, call, stamp).1.Success?
    ensures var r, outcome, n := call.request, Apply(sha, store, call, stamp), |store.receipts|;
            && Answered(store, outcome, call)
            && outcome.0.flags == store.flags && outcome.0.environments == store.environments
            && outcome.0.rulesets == store.rulesets
            && |outcome.0.receipts| == n + |EvaluatedKeys(r)| && outcome.0.receipts[..n] == store.receipts
            && RecordIn(outcome.1.value, k).Some?
            && exists revision, selection ::
                 && Selects(sha, store, r.org, r.environmentKey, EvaluatedKeys(r)[k], r.context, revision, selection)
                 && Reports(call, k, revision, selection, stamp.draws[k], RecordIn(outcome.1.value, k).value,
                            outcome.0.receipts[n + k])
  {
    var r := call.request;
    var plan := Decide(sha, store, r).value;
    DecideHolds(sha, store, r);
    RecordsMirror(call, plan, stamp, k);
    var e := plan.evaluated[k];
    SelectionIs(sha, store, r, k, e);
    assert Reports(call, k, e.rulesetRevision, e.selection, stamp.draws[k],
                   RecordIn(Enact(call, plan, stamp).response, k).value, Enact(call, plan, stamp).receipts[k]);
  }

  lemma SelectionIs(sha: Sha256, store: Store, r: Request, k: nat, e: Evaluated)
    requires (r.Evaluate? || r.EvaluateBatch?) && k < |EvaluatedKeys(r)|
    requires EvaluateKey(sha, store, r.org, r.environmentKey, EvaluatedKeys(r)[k], r.context) == Success(e)
    ensures Selects(sha, store, r.org, r.environmentKey, EvaluatedKeys(r)[k], r.context, e.rulesetRevision, e.selection)
  {
    EvaluateKeyMeans(sha, store, r.org, r.environmentKey, EvaluatedKeys(r)[k], r.context);
    LatestIs(store.rulesets, r.org, EvaluatedKeys(r)[k], r.environmentKey);
  }
}
