/**
  The D1 client: one snapshot batch, a local decision, one guarded write
  batch, and a read-only reconciliation when the batch reports an error.
 */
module D1Store {
  import opened Results
  import opened Text
  import opened Domain
  import opened SequentialStore
  import opened D1Tables

  // ---------------------------------------------------------------- snapshots

  datatype Published = Published(revision: int, definition: RulesetDefinition)

  datatype Snapshot = Snapshot(
    epoch: int,
    command: seq<CommandRow>,
    flags: map<Text, FlagRecord>,
    environment: Option<EnvironmentRecord>,
    rulesets: map<Text, Published>)

  /** The flags and the environment an operation reads. */
  function SnapshotKeys(request: Request): seq<Text> {
    match request
    case PutEnvironment(_, _, _, _) => []
    case EvaluateBatch(_, _, flagKeys, _) => flagKeys
    case _ => [request.flagKey]
  }

  function SnapshotEnvironment(request: Request): Text {
    match request
    case CreateFlag(_, _, _, _, _) => []
    case UpdateFlag(_, _, _, _, _) => []
    case ArchiveFlag(_, _, _) => []
    case _ => request.environmentKey
  }

  /** `revision`: a stored revision is a positive i64, or the row is unusable. */
  function Revision(value: int): StorageResult<int> {
    if 0 < value <= I64_MAX then Success(value) else Failure(Backend)
  }

  function SelectCommand(t: Tables, call: Call): seq<CommandRow> {
    if IdOf(call) in t.commands then [t.commands[IdOf(call)]] else []
  }

  function SelectFlags(t: Tables, org: Text, keys: seq<Text>): map<Text, FlagRecord> {
    map key | key in keys && FlagId(org, key) in t.flags :: t.flags[FlagId(org, key)].record
  }

  function SelectEnvironment(t: Tables, id: EnvironmentId): Option<EnvironmentRecord> {
    if id in t.environments then Some(t.environments[id]) else None
  }

  /** The ruleset with the highest revision, for every key that has one. */
  function SelectRulesets(t: Tables, org: Text, environmentKey: Text, keys: seq<Text>): map<Text, Published> {
    map key | key in keys && LatestId(t.rulesets, org, key, environmentKey) in t.rulesets ::
      Published(Latest(t.rulesets, org, key, environmentKey),
                t.rulesets[LatestId(t.rulesets, org, key, environmentKey)].definition)
  }

  /** Five SELECTs in one batch: all of them see the same tables. */
  function TakeSnapshot(t: Tables, call: Call): StorageResult<Snapshot> {
    var org, keys, environmentKey := call.request.org, SnapshotKeys(call.request), SnapshotEnvironment(call.request);
    var epoch :- Revision(t.epoch);
    Success(Snapshot(epoch, SelectCommand(t, call), SelectFlags(t, org, keys),
                     SelectEnvironment(t, EnvironmentId(org, environmentKey)),
                     SelectRulesets(t, org, environmentKey, keys)))
  }

  // ---------------------------------------------------------------- decisions

  /** The clock and the UUID generator, for one operation. */
  datatype Drawn = Drawn(receiptId: Text, evaluatedAt: Time)

  datatype Inputs = Inputs(now: Time, drawn: seq<Drawn>)

  datatype Writes = Writes(statements: seq<Statement>, response: Response)

  /** Nothing to write, or a batch to submit with the response it stores. */
  datatype Decision =
    | Answer(result: StorageResult<Response>)
    | Submit(writes: Writes)

  function ReplayRows(rows: seq<CommandRow>, call: Call): StorageResult<Option<Response>> {
    if rows == [] then Success(None)
    else if |rows| == 1 then
      if rows[0].hash != call.command.hash then Failure(Domain(IdempotencyConflict))
      else if !Decodes(OperationOf(call.request), rows[0].response) then Failure(Backend)
      else Success(Some(rows[0].response))
    else Failure(Backend)
  }

  function BumpRevision(value: int): StorageResult<int> {
    var revision :- Revision(value);
    if revision == I64_MAX then Failure(Backend) else Success(revision + 1)
  }

  function RequireFlagRevision(flag: FlagRecord, expected: int): StorageResult<()> {
    if flag.archived then Failure(Domain(Archived))
    else
      var revision :- Revision(flag.revision);
      if revision != expected then Failure(Domain(RevisionConflict)) else Success(())
  }

  function CreateFlagWrites(snapshot: Snapshot, request: Request, now: Time): StorageResult<Writes>
    requires request.CreateFlag?
  {
    if request.flagKey in snapshot.flags then Failure(Domain(AlreadyExists))
    else
      var record := FlagRecord(request.org, request.flagKey, request.name, request.description, request.valueType,
                               false, 1, now, now, None, snapshot.epoch);
      Success(Writes([InsertFlag(record)], FlagResponse(record)))
  }

  function UpdateFlagWrites(snapshot: Snapshot, request: Request, now: Time): StorageResult<Writes>
    requires request.UpdateFlag?
  {
    if request.flagKey !in snapshot.flags then Failure(Domain(NotFound))
    else
      var record := snapshot.flags[request.flagKey];
      var _ :- RequireFlagRevision(record, request.expectedRevision);
      var revision :- BumpRevision(record.revision);
      var updated := record.(name := request.name, description := request.description, revision := revision,
                             updatedAt := now);
      Success(Writes([WriteFlag(updated)], FlagResponse(updated)))
  }

  function ArchiveFlagWrites(snapshot: Snapshot, request: Request, now: Time): StorageResult<Writes>
    requires request.ArchiveFlag?
  {
    if request.flagKey !in snapshot.flags then Failure(Domain(NotFound))
    else
      var record := snapshot.flags[request.flagKey];
      var _ :- RequireFlagRevision(record, request.expectedRevision);
      var revision :- BumpRevision(record.revision);
      var archived := record.(revision := revision, updatedAt := now, archived := true, archivedAt := Some(now));
      Success(Writes([WriteFlag(archived)], FlagResponse(archived)))
  }

  function PutEnvironmentWrites(snapshot: Snapshot, request: Request, now: Time): StorageResult<Writes>
    requires request.PutEnvironment?
  {
    match (snapshot.environment, request.expected)
    case (None, None) =>
      var record := EnvironmentRecord(request.org, request.environmentKey, request.name, 1, now, now);
      Success(Writes([UpsertEnvironment(record)], EnvironmentResponse(record)))
    case (Some(current), Some(expected)) =>
      var revision :- Revision(current.revision);
      if revision != expected then Failure(Domain(RevisionConflict))
      else
        var next :- BumpRevision(current.revision);
        var record := current.(name := request.name, revision := next, updatedAt := now);
        Success(Writes([UpsertEnvironment(record)], EnvironmentResponse(record)))
    case (None, Some(_)) => Failure(Domain(NotFound))
    case (Some(_), None) => Failure(Domain(AlreadyExists))
  }

  function PublishRulesetWrites(snapshot: Snapshot, call: Call, now: Time): StorageResult<Writes>
    requires call.request.PublishRuleset?
  {
    var request := call.request;
    if request.flagKey !in snapshot.flags then Failure(Domain(NotFound))
    else
      var flag := snapshot.flags[request.flagKey];
      var _ :- RequireFlagRevision(flag, request.expectedRevision);
      match Validate(flag.valueType, request.definition)
      case Some(failure) => Failure(Domain(failure))
      case None =>
        if snapshot.environment.None? then Failure(Domain(NotFound))
        else
          var environment := snapshot.environment.value;
          var current :- Revision(environment.revision);
          if current != request.expectedEnvironmentRevision then Failure(Domain(RevisionConflict))
          else
            var flagRevision :- BumpRevision(flag.revision);
            var environmentRevision :- BumpRevision(environment.revision);
            var next :-
              if request.flagKey in snapshot.rulesets then BumpRevision(snapshot.rulesets[request.flagKey].revision)
              else Success(1);
            var record := PublishRecord(request.org, request.flagKey, request.environmentKey, next, flagRevision,
                                        environmentRevision, call.command.actor, now);
            var id := RulesetId(request.org, request.flagKey, request.environmentKey, next);
            Success(Writes([WriteFlag(flag.(revision := flagRevision, updatedAt := now)),
                            UpsertEnvironment(environment.(revision := environmentRevision, updatedAt := now)),
                            InsertRuleset(id, request.definition, record)],
                           PublishResponse(record)))
  }

  function EvaluateInSnapshot(sha: Sha256, snapshot: Snapshot, request: Request, key: Text): StorageResult<Evaluated>
    requires request.Evaluate? || request.EvaluateBatch?
  {
    if key !in snapshot.flags then Failure(Domain(FlagNotFound))
    else if snapshot.flags[key].archived then Failure(Domain(Archived))
    else if snapshot.environment.None? then Failure(Domain(EnvironmentNotFound))
    else if key !in snapshot.rulesets then Failure(Domain(NoPublishedRuleset))
    else
      var published := snapshot.rulesets[key];
      match Validate(snapshot.flags[key].valueType, published.definition)
      case Some(failure) => Failure(Domain(failure))
      case None =>
        var selection :- ChooseVariant(sha, request.org, request.environmentKey, key, request.context.targetingKey,
                                       request.context.attributes, published.definition);
        Success(Evaluated(key, selection, published.revision))
  }

  /** The records and receipts the loop of `evaluations` has built after some keys. */
  datatype Evaluation = Evaluation(records: seq<EvaluationRecord>, receipts: seq<Receipt>)

  function EvaluateAll(sha: Sha256, snapshot: Snapshot, call: Call, drawn: seq<Drawn>,
                       keys: seq<Text>): (r: StorageResult<Evaluation>)
    requires call.request.Evaluate? || call.request.EvaluateBatch?
    requires |keys| <= |drawn|
    ensures r.Success? ==> |r.value.records| == |r.value.receipts| == |keys|
  {
    if keys == [] then Success(Evaluation([], []))
    else
      var n := |keys| - 1;
      var before :- EvaluateAll(sha, snapshot, call, drawn, keys[..n]);
      var e :- EvaluateInSnapshot(sha, snapshot, call.request, keys[n]);
      var environment, variant := call.request.environmentKey, e.selection.variant;
      var record := EvaluationRecord(keys[n], environment, variant.variantKey, variant.value, e.selection.reason,
                                     e.rulesetRevision, drawn[n].receiptId, drawn[n].evaluatedAt);
      var id := EvaluationName(OperationOf(call.request), call.command.key, n);
      var receipt := Receipt(record.receiptId, id, keys[n], environment, record.variantKey, record.reason,
                             e.rulesetRevision, call.request.context.hash, record.evaluatedAt);
      Success(Evaluation(before.records + [record], before.receipts + [receipt]))
  }

  function EvaluationWrites(sha: Sha256, snapshot: Snapshot, call: Call, drawn: seq<Drawn>): StorageResult<Writes>
    requires call.request.Evaluate? || call.request.EvaluateBatch?
    requires |drawn| == |EvaluatedKeys(call.request)|
  {
    var evaluation :- EvaluateAll(sha, snapshot, call, drawn, EvaluatedKeys(call.request));
    var statement := InsertReceipts(call.request.org, call.command.caller, call.command.actor,
                                    OperationOf(call.request),
                                    evaluation.receipts);
    Success(Writes([statement],
                   if call.request.Evaluate? then EvaluationResponse(evaluation.records[0])
                   else BatchResponse(evaluation.records)))
  }

  function OperationWrites(sha: Sha256, snapshot: Snapshot, call: Call, inputs: Inputs): StorageResult<Writes>
    requires |inputs.drawn| == |EvaluatedKeys(call.request)|
  {
    match call.request
    case CreateFlag(_, _, _, _, _) => CreateFlagWrites(snapshot, call.request, inputs.now)
    case UpdateFlag(_, _, _, _, _) => UpdateFlagWrites(snapshot, call.request, inputs.now)
    case ArchiveFlag(_, _, _) => ArchiveFlagWrites(snapshot, call.request, inputs.now)
    case PutEnvironment(_, _, _, _) => PutEnvironmentWrites(snapshot, call.request, inputs.now)
    case PublishRuleset(_, _, _, _, _, _) => PublishRulesetWrites(snapshot, call, inputs.now)
    case Evaluate(_, _, _, _) => EvaluationWrites(sha, snapshot, call, inputs.drawn)
    case EvaluateBatch(_, _, _, _) => EvaluationWrites(sha, snapshot, call, inputs.drawn)
  }

  function DecideLocally(sha: Sha256, snapshot: Snapshot, call: Call, inputs: Inputs): Decision
    requires |inputs.drawn| == |EvaluatedKeys(call.request)|
  {
    match ReplayRows(snapshot.command, call)
    case Failure(error) => Answer(Failure(error))
    case Success(Some(response)) => Answer(Success(response))
    case Success(None) =>
      match OperationWrites(sha, snapshot, call, inputs)
      case Failure(error) => Answer(Failure(error))
      case Success(writes) => Submit(writes)
  }

  /** Guard, command row with the exact response, facts, epoch, and guard removal. */
  function CommitBatch(epoch: int, call: Call, writes: Writes): seq<Statement> {
    [InsertGuard(epoch), InsertCommand(IdOf(call), call.command.hash, writes.response)]
    + writes.statements
    + [AdvanceEpoch, ClearGuard]
  }

  // ------------------------------------------------------ the loop of evaluations

  method EvaluateByLoop(sha: Sha256, snapshot: Snapshot, call: Call, drawn: seq<Drawn>)
    returns (r: StorageResult<Writes>)
    requires call.request.Evaluate? || call.request.EvaluateBatch?
    requires |drawn| == |EvaluatedKeys(call.request)|
    ensures r == EvaluationWrites(sha, snapshot, call, drawn)
  {
    var request, keys := call.request, EvaluatedKeys(call.request);
    var records: seq<EvaluationRecord>, receipts: seq<Receipt> := [], [];
    for i := 0 to |keys|
      invariant EvaluateAll(sha, snapshot, call, drawn, keys[..i]) == Success(Evaluation(records, receipts))
    {
      var key := keys[i];
      assert keys[..i + 1][..i] == keys[..i];
      var evaluated := EvaluateKeyByLoop(sha, snapshot, request, key);
      if evaluated.Failure? {
        FailureStays(sha, snapshot, call, drawn, i + 1);
        return Failure(evaluated.error);
      }
      var e := evaluated.value;
      var variant := e.selection.variant;
      var record := EvaluationRecord(key, request.environmentKey, variant.variantKey, variant.value, e.selection.reason,
                                     e.rulesetRevision, drawn[i].receiptId, drawn[i].evaluatedAt);
      var id := if request.Evaluate? then call.command.key else EvaluationId(call.command.key, i);
      receipts := receipts + [Receipt(record.receiptId, id, key, request.environmentKey, record.variantKey,
                                      e.selection.reason, e.rulesetRevision, request.context.hash, record.evaluatedAt)];
      records := records + [record];
    }
    assert keys[..|keys|] == keys;
    var writes := [InsertReceipts(request.org, call.command.caller, call.command.actor, OperationOf(request),
                                  receipts)];
    if request.Evaluate? {
      var record := records[|records| - 1];
      return Success(Writes(writes, EvaluationResponse(record)));
    }
    return Success(Writes(writes, BatchResponse(records)));
  }

  method EvaluateKeyByLoop(sha: Sha256, snapshot: Snapshot, request: Request, key: Text)
    returns (r: StorageResult<Evaluated>)
    requires request.Evaluate? || request.EvaluateBatch?
    ensures r == EvaluateInSnapshot(sha, snapshot, request, key)
  {
    if key !in snapshot.flags {
      return Failure(Domain(FlagNotFound));
    }
    var flag := snapshot.flags[key];
    if flag.archived {
      return Failure(Domain(Archived));
    }
    if snapshot.environment.None? {
      return Failure(Domain(EnvironmentNotFound));
    }
    if key !in snapshot.rulesets {
      return Failure(Domain(NoPublishedRuleset));
    }
    var published := snapshot.rulesets[key];
    var invalid := Validate(flag.valueType, published.definition);
    if invalid.Some? {
      return Failure(Domain(invalid.value));
    }
    var selection :- ChooseVariantByLoops(sha, request.org, request.environmentKey, key, request.context.targetingKey,
                                          request.context.attributes, published.definition);
    return Success(Evaluated(key, selection, published.revision));
  }

  /** The first failing key decides the answer. */
  lemma {:induction false} FailureStays(sha: Sha256, snapshot: Snapshot, call: Call, drawn: seq<Drawn>, n: nat)
    requires call.request.Evaluate? || call.request.EvaluateBatch?
    requires n <= |EvaluatedKeys(call.request)| == |drawn|
    requires EvaluateAll(sha, snapshot, call, drawn, EvaluatedKeys(call.request)[..n]).Failure?
    ensures EvaluateAll(sha, snapshot, call, drawn, EvaluatedKeys(call.request))
            == EvaluateAll(sha, snapshot, call, drawn, EvaluatedKeys(call.request)[..n])
    decreases |drawn| - n
  {
    var keys := EvaluatedKeys(call.request);
    if n == |keys| {
      assert keys[..n] == keys;
    } else {
      assert keys[..n + 1][..n] == keys[..n];
      FailureStays(sha, snapshot, call, drawn, n + 1);
    }
  }
}
