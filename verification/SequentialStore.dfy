/**
  The sequential store: one command at a time on plain tables. Both backends
  are proved to refine it. `Decide` says what a command would do, without
  timestamps or ids; `Enact` stamps the decision and `Apply` commits it.
 */
module SequentialStore {
  import opened Results
  import opened Text
  import opened Domain

  // ------------------------------------------------------------------ tables

  datatype FlagId = FlagId(org: Text, flagKey: Text)

  datatype EnvironmentId = EnvironmentId(org: Text, environmentKey: Text)

  datatype RulesetId = RulesetId(org: Text, flagKey: Text, environmentKey: Text, revision: int)

  datatype Operation =
    | CreateFlagOp | UpdateFlagOp | ArchiveFlagOp | PutEnvironmentOp | PublishRulesetOp | EvaluateOp | EvaluateBatchOp

  datatype CommandId = CommandId(caller: Text, actor: Text, operation: Operation, key: Text)

  /** Revisions are the integers whose decimal text the source stores. */
  datatype FlagRecord = FlagRecord(
    org: Text,
    flagKey: Text,
    name: Text,
    description: Option<Text>,
    valueType: ValueType,
    archived: bool,
    revision: int,
    createdAt: Time,
    updatedAt: Time,
    archivedAt: Option<Time>,
    rowSeq: int)

  datatype EnvironmentRecord = EnvironmentRecord(
    org: Text,
    environmentKey: Text,
    name: Text,
    revision: int,
    createdAt: Time,
    updatedAt: Time)

  datatype PublishRecord = PublishRecord(
    org: Text,
    flagKey: Text,
    environmentKey: Text,
    rulesetRevision: int,
    flagRevision: int,
    environmentRevision: int,
    publishedBy: Text,
    publishedAt: Time)

  datatype EvaluationRecord = EvaluationRecord(
    flagKey: Text,
    environmentKey: Text,
    variantKey: Text,
    value: ValueRecord,
    reason: Reason,
    rulesetRevision: int,
    receiptId: Text,
    evaluatedAt: Time)

  datatype RulesetRow = RulesetRow(definition: RulesetDefinition, publishedBy: Text, publishedAt: Time)

  datatype Response =
    | FlagResponse(flag: FlagRecord)
    | EnvironmentResponse(environment: EnvironmentRecord)
    | PublishResponse(publication: PublishRecord)
    | EvaluationResponse(evaluation: EvaluationRecord)
    | BatchResponse(evaluations: seq<EvaluationRecord>)

  datatype CommandRow = CommandRow(hash: Text, response: Response)

  /** The public audit record of one evaluation. */
  datatype Receipt = Receipt(
    receiptId: Text,
    evaluationId: Text,
    flagKey: Text,
    environmentKey: Text,
    variantKey: Text,
    reason: Reason,
    rulesetRevision: int,
    contextHash: Text,
    evaluatedAt: Time)

  datatype ReceiptRow = ReceiptRow(
    rowSeq: int, org: Text, caller: Text, actor: Text, operation: Operation, receipt: Receipt)

  type Rulesets = map<RulesetId, RulesetRow>

  type Commands = map<CommandId, CommandRow>

  /** Receipts are listed in commit order. */
  datatype Store = Store(
    flags: map<FlagId, FlagRecord>,
    environments: map<EnvironmentId, EnvironmentRecord>,
    rulesets: Rulesets,
    commands: Commands,
    receipts: seq<ReceiptRow>)

  const EMPTY: Store := Store(map[], map[], map[], map[], [])

  // ---------------------------------------------------------------- commands

  datatype Context = Context(targetingKey: Text, attributes: Attributes, hash: Text)

  datatype Request =
    | CreateFlag(org: Text, flagKey: Text, name: Text, description: Option<Text>, valueType: ValueType)
    | UpdateFlag(org: Text, flagKey: Text, expectedRevision: int, name: Text, description: Option<Text>)
    | ArchiveFlag(org: Text, flagKey: Text, expectedRevision: int)
    | PutEnvironment(org: Text, environmentKey: Text, name: Text, expected: Option<int>)
    | PublishRuleset(org: Text, flagKey: Text, environmentKey: Text, expectedRevision: int,
                     expectedEnvironmentRevision: int, definition: RulesetDefinition)
    | Evaluate(org: Text, environmentKey: Text, flagKey: Text, context: Context)
    | EvaluateBatch(org: Text, environmentKey: Text, flagKeys: seq<Text>, context: Context)

  datatype Command = Command(caller: Text, actor: Text, key: Text, hash: Text)

  datatype Call = Call(command: Command, request: Request)

  function OperationOf(request: Request): Operation {
    match request
    case CreateFlag(_, _, _, _, _) => CreateFlagOp
    case UpdateFlag(_, _, _, _, _) => UpdateFlagOp
    case ArchiveFlag(_, _, _) => ArchiveFlagOp
    case PutEnvironment(_, _, _, _) => PutEnvironmentOp
    case PublishRuleset(_, _, _, _, _, _) => PublishRulesetOp
    case Evaluate(_, _, _, _) => EvaluateOp
    case EvaluateBatch(_, _, _, _) => EvaluateBatchOp
  }

  function IdOf(call: Call): CommandId {
    CommandId(call.command.caller, call.command.actor, OperationOf(call.request), call.command.key)
  }

  /** The type a stored response must decode to. */
  predicate Decodes(operation: Operation, response: Response) {
    match operation
    case CreateFlagOp => response.FlagResponse?
    case UpdateFlagOp => response.FlagResponse?
    case ArchiveFlagOp => response.FlagResponse?
    case PutEnvironmentOp => response.EnvironmentResponse?
    case PublishRulesetOp => response.PublishResponse?
    case EvaluateOp => response.EvaluationResponse?
    case EvaluateBatchOp => response.BatchResponse?
  }

  /** The flags a request evaluates, in order. */
  function EvaluatedKeys(request: Request): seq<Text> {
    match request
    case Evaluate(_, _, flagKey, _) => [flagKey]
    case EvaluateBatch(_, _, flagKeys, _) => flagKeys
    case _ => []
  }

  function EvaluationName(operation: Operation, key: Text, index: nat): Text {
    if operation == EvaluateOp then key else EvaluationId(key, index)
  }

  // --------------------------------------------------------------- decisions

  /** One evaluated flag, before it gets a receipt id and a time. */
  datatype Evaluated = Evaluated(flagKey: Text, selection: Selection, rulesetRevision: int)

  datatype Plan =
    | FlagCreation
    | FlagChange(flag: FlagRecord)
    | EnvironmentCreation
    | EnvironmentChange(environment: EnvironmentRecord)
    | Publication(flag: FlagRecord, environment: EnvironmentRecord, latest: int)
    | Evaluations(evaluated: seq<Evaluated>)

  function Bump(revision: int): StorageResult<int> {
    if revision >= I64_MAX then Failure(Backend) else Success(revision + 1)
  }

  function RequireFlag(flag: FlagRecord, expected: int): StorageResult<()> {
    if flag.archived then Failure(Domain(Archived))
    else if flag.revision != expected then Failure(Domain(RevisionConflict))
    else Success(())
  }

  function Revisions<V>(rulesets: map<RulesetId, V>, org: Text, flagKey: Text, environmentKey: Text): set<int> {
    set id | id in rulesets && id == RulesetId(org, flagKey, environmentKey, id.revision) :: id.revision
  }

  lemma Pick<T>(s: set<T>) returns (x: T)
    requires s != {}
    ensures x in s
  {
    x :| x in s;
  }

  lemma {:induction false} MaximumExists(s: set<int>)
    requires s != {}
    ensures exists m :: m in s && forall y | y in s :: y <= m
    decreases |s|
  {
    var x := Pick(s);
    var rest := s - {x};
    assert forall y | y in s :: y in rest || y == x;
    if rest != {} {
      MaximumExists(rest);
      var m :| m in rest && forall y | y in rest :: y <= m;
      var top := if x <= m then m else x;
      assert top in s && forall y | y in s :: y <= top;
    } else {
      assert x in s && forall y | y in s :: y <= x;
    }
  }

  function Maximum(s: set<int>): (m: int)
    requires s != {}
    ensures m in s && forall y | y in s :: y <= m
  {
    MaximumExists(s);
    var m :| m in s && forall y | y in s :: y <= m;
    m
  }

  /** The highest published revision, or 0. */
  function Latest<V>(rulesets: map<RulesetId, V>, org: Text, flagKey: Text, environmentKey: Text): int {
    var revisions := Revisions(rulesets, org, flagKey, environmentKey);
    if revisions == {} then 0 else Maximum(revisions)
  }

  function LatestId<V>(rulesets: map<RulesetId, V>, org: Text, flagKey: Text, environmentKey: Text): RulesetId {
    RulesetId(org, flagKey, environmentKey, Latest(rulesets, org, flagKey, environmentKey))
  }

  function EvaluateKey(sha: Sha256, store: Store, org: Text, environmentKey: Text, flagKey: Text,
                       context: Context): StorageResult<Evaluated>
  {
    var id := FlagId(org, flagKey);
    if id !in store.flags then Failure(Domain(FlagNotFound))
    else if store.flags[id].archived then Failure(Domain(Archived))
    else if EnvironmentId(org, environmentKey) !in store.environments then Failure(Domain(EnvironmentNotFound))
    else
      var latest := Latest(store.rulesets, org, flagKey, environmentKey);
      var rulesetId := RulesetId(org, flagKey, environmentKey, latest);
      if rulesetId !in store.rulesets then Failure(Domain(NoPublishedRuleset))
      else
        var definition := store.rulesets[rulesetId].definition;
        match Validate(store.flags[id].valueType, definition)
        case Some(failure) => Failure(Domain(failure))
        case None =>
          var selection :- ChooseVariant(sha, org, environmentKey, flagKey, context.targetingKey,
                                         context.attributes, definition);
          Success(Evaluated(flagKey, selection, latest))
  }

  /** Keys are evaluated in order; the first failure is the answer. */
  function EvaluateKeys(sha: Sha256, store: Store, org: Text, environmentKey: Text, flagKeys: seq<Text>,
                        context: Context): (r: StorageResult<seq<Evaluated>>)
    ensures r.Success? ==> |r.value| == |flagKeys|
  {
    if flagKeys == [] then Success([])
    else
      var n := |flagKeys| - 1;
      var init :- EvaluateKeys(sha, store, org, environmentKey, flagKeys[..n], context);
      var last :- EvaluateKey(sha, store, org, environmentKey, flagKeys[n], context);
      Success(init + [last])
  }

  function WritableFlag(store: Store, id: FlagId, expected: int): StorageResult<FlagRecord> {
    if id !in store.flags then Failure(Domain(NotFound))
    else
      var _ :- RequireFlag(store.flags[id], expected);
      Success(store.flags[id])
  }

  function DecidePublication(store: Store, request: Request): StorageResult<Plan>
    requires request.PublishRuleset?
  {
    var flag :- WritableFlag(store, FlagId(request.org, request.flagKey), request.expectedRevision);
    match Validate(flag.valueType, request.definition)
    case Some(failure) => Failure(Domain(failure))
    case None =>
      var id := EnvironmentId(request.org, request.environmentKey);
      if id !in store.environments then Failure(Domain(NotFound))
      else
        var environment := store.environments[id];
        if environment.revision != request.expectedEnvironmentRevision then Failure(Domain(RevisionConflict))
        else
          var latest := Latest(store.rulesets, request.org, request.flagKey, request.environmentKey);
          var _ :- Bump(flag.revision);
          var _ :- Bump(environment.revision);
          var _ :- Bump(latest);
          Success(Publication(flag, environment, latest))
  }

  function DecideEnvironment(store: Store, request: Request): StorageResult<Plan>
    requires request.PutEnvironment?
  {
    var id := EnvironmentId(request.org, request.environmentKey);
    if id in store.environments then
      if request.expected.None? then Failure(Domain(AlreadyExists))
      else if store.environments[id].revision != request.expected.value then Failure(Domain(RevisionConflict))
      else
        var _ :- Bump(store.environments[id].revision);
        Success(EnvironmentChange(store.environments[id]))
    else if request.expected.Some? then Failure(Domain(NotFound))
    else Success(EnvironmentCreation)
  }

  function DecideFlagChange(store: Store, id: FlagId, expected: int): StorageResult<Plan> {
    var flag :- WritableFlag(store, id, expected);
    var _ :- Bump(flag.revision);
    Success(FlagChange(flag))
  }

  /** What a command that has not been seen before would do. */
  function Decide(sha: Sha256, store: Store, request: Request): StorageResult<Plan> {
    match request
    case CreateFlag(org, flagKey, _, _, _) =>
      if FlagId(org, flagKey) in store.flags then Failure(Domain(AlreadyExists)) else Success(FlagCreation)
    case UpdateFlag(org, flagKey, expected, _, _) =>
      DecideFlagChange(store, FlagId(org, flagKey), expected)
    case ArchiveFlag(org, flagKey, expected) =>
      DecideFlagChange(store, FlagId(org, flagKey), expected)
    case PutEnvironment(_, _, _, _) => DecideEnvironment(store, request)
    case PublishRuleset(_, _, _, _, _, _) => DecidePublication(store, request)
    case Evaluate(org, environmentKey, flagKey, context) =>
      var evaluated :- EvaluateKeys(sha, store, org, environmentKey, [flagKey], context);
      Success(Evaluations(evaluated))
    case EvaluateBatch(org, environmentKey, flagKeys, context) =>
      var evaluated :- EvaluateKeys(sha, store, org, environmentKey, flagKeys, context);
      Success(Evaluations(evaluated))
  }

  // ----------------------------------------------------------------- effects

  /** A fresh receipt id, a time and a table sequence number for one receipt. */
  datatype Draw = Draw(receiptId: Text, evaluatedAt: Time, rowSeq: int)

  /** Everything a commit takes from clocks, the UUID generator and sequences. */
  datatype Stamp = Stamp(
    createdAt: Time,
    updatedAt: Time,
    archivedAt: Time,
    environmentAt: Time,
    publishedAt: Time,
    rowSeq: int,
    draws: seq<Draw>)

  datatype NewRuleset = NewRuleset(id: RulesetId, row: RulesetRow)

  datatype Effect = Effect(
    flag: Option<FlagRecord>,
    environment: Option<EnvironmentRecord>,
    ruleset: Option<NewRuleset>,
    receipts: seq<ReceiptRow>,
    response: Response)

  predicate Fits(request: Request, plan: Plan, stamp: Stamp) {
    match request
    case CreateFlag(_, _, _, _, _) => plan.FlagCreation?
    case UpdateFlag(_, _, _, _, _) => plan.FlagChange?
    case ArchiveFlag(_, _, _) => plan.FlagChange?
    case PutEnvironment(_, _, _, _) => plan.EnvironmentCreation? || plan.EnvironmentChange?
    case PublishRuleset(_, _, _, _, _, _) => plan.Publication?
    case Evaluate(_, _, _, _) => plan.Evaluations? && |plan.evaluated| == 1 == |stamp.draws|
    case EvaluateBatch(_, _, _, _) => plan.Evaluations? && |plan.evaluated| == |stamp.draws|
  }

  function RecordOf(environmentKey: Text, e: Evaluated, draw: Draw): EvaluationRecord {
    EvaluationRecord(e.flagKey, environmentKey, e.selection.variant.variantKey, e.selection.variant.value,
                     e.selection.reason, e.rulesetRevision, draw.receiptId, draw.evaluatedAt)
  }

  function ReceiptOf(call: Call, environmentKey: Text, contextHash: Text, index: nat, e: Evaluated,
                     draw: Draw): Receipt {
    Receipt(draw.receiptId, EvaluationName(OperationOf(call.request), call.command.key, index), e.flagKey,
            environmentKey, e.selection.variant.variantKey, e.selection.reason, e.rulesetRevision,
            contextHash, draw.evaluatedAt)
  }

  function Records(environmentKey: Text, evaluated: seq<Evaluated>, draws: seq<Draw>): seq<EvaluationRecord>
    requires |evaluated| == |draws|
  {
    seq(|evaluated|, i requires 0 <= i < |evaluated| => RecordOf(environmentKey, evaluated[i], draws[i]))
  }

  function ReceiptRows(call: Call, environmentKey: Text, contextHash: Text, evaluated: seq<Evaluated>,
                       draws: seq<Draw>): seq<ReceiptRow>
    requires |evaluated| == |draws|
  {
    seq(|evaluated|, i requires 0 <= i < |evaluated| =>
      ReceiptRow(draws[i].rowSeq, call.request.org, call.command.caller, call.command.actor, OperationOf(call.request),
                 ReceiptOf(call, environmentKey, contextHash, i, evaluated[i], draws[i])))
  }

  function FlagEffect(flag: FlagRecord): Effect {
    Effect(Some(flag), None, None, [], FlagResponse(flag))
  }

  function Enact(call: Call, plan: Plan, stamp: Stamp): Effect
    requires Fits(call.request, plan, stamp)
  {
    match call.request
    case CreateFlag(org, flagKey, name, description, valueType) =>
      FlagEffect(FlagRecord(org, flagKey, name, description, valueType, false, 1, stamp.createdAt, stamp.updatedAt,
                            None, stamp.rowSeq))
    case UpdateFlag(_, _, _, name, description) =>
      FlagEffect(plan.flag.(name := name, description := description, revision := plan.flag.revision + 1,
                            updatedAt := stamp.updatedAt))
    case ArchiveFlag(_, _, _) =>
      FlagEffect(plan.flag.(archived := true, revision := plan.flag.revision + 1, updatedAt := stamp.updatedAt,
                            archivedAt := Some(stamp.archivedAt)))
    case PutEnvironment(org, environmentKey, name, _) =>
      var environment :=
        if plan.EnvironmentCreation? then
          EnvironmentRecord(org, environmentKey, name, 1, stamp.createdAt, stamp.environmentAt)
        else
          plan.environment.(name := name, revision := plan.environment.revision + 1, updatedAt := stamp.environmentAt);
      Effect(None, Some(environment), None, [], EnvironmentResponse(environment))
    case PublishRuleset(org, flagKey, environmentKey, _, _, definition) =>
      var flag := plan.flag.(revision := plan.flag.revision + 1, updatedAt := stamp.updatedAt);
      var environment := plan.environment.(revision := plan.environment.revision + 1, updatedAt := stamp.environmentAt);
      var next := plan.latest + 1;
      Effect(Some(flag), Some(environment),
             Some(NewRuleset(RulesetId(org, flagKey, environmentKey, next),
                             RulesetRow(definition, call.command.actor, stamp.publishedAt))),
             [],
             PublishResponse(PublishRecord(org, flagKey, environmentKey, next, flag.revision, environment.revision,
                                           call.command.actor, stamp.publishedAt)))
    case Evaluate(_, environmentKey, _, context) =>
      Effect(None, None, None, ReceiptRows(call, environmentKey, context.hash, plan.evaluated, stamp.draws),
             EvaluationResponse(RecordOf(environmentKey, plan.evaluated[0], stamp.draws[0])))
    case EvaluateBatch(_, environmentKey, _, context) =>
      Effect(None, None, None, ReceiptRows(call, environmentKey, context.hash, plan.evaluated, stamp.draws),
             BatchResponse(Records(environmentKey, plan.evaluated, stamp.draws)))
  }

  /** All rows of an effect and its command row, at once. */
  function Commit(store: Store, call: Call, effect: Effect): Store {
    Store(
      if effect.flag.Some? then
        store.flags[FlagId(effect.flag.value.org, effect.flag.value.flagKey) := effect.flag.value]
      else store.flags,
      if effect.environment.Some? then
        store.environments[EnvironmentId(effect.environment.value.org, effect.environment.value.environmentKey)
                           := effect.environment.value]
      else store.environments,
      if effect.ruleset.Some? then store.rulesets[effect.ruleset.value.id := effect.ruleset.value.row]
      else store.rulesets,
      store.commands[IdOf(call) := CommandRow(call.command.hash, effect.response)],
      store.receipts + effect.receipts)
  }

  // ------------------------------------------------------------- one command

  /** The stored answer to a repeated command, if there is one. */
  function Replay(commands: Commands, call: Call): Option<StorageResult<Response>> {
    var id := IdOf(call);
    if id !in commands then None
    else if commands[id].hash != call.command.hash then Some(Failure(Domain(IdempotencyConflict)))
    else if !Decodes(id.operation, commands[id].response) then Some(Failure(Backend))
    else Some(Success(commands[id].response))
  }

  /** The answer of a command that changes nothing: a replay or an error. */
  function Verdict(sha: Sha256, store: Store, call: Call): Option<StorageResult<Response>> {
    match Replay(store.commands, call)
    case Some(answer) => Some(answer)
    case None =>
      match Decide(sha, store, call.request)
      case Failure(error) => Some(Failure(error))
      case Success(_) => None
  }

  function Apply(sha: Sha256, store: Store, call: Call, stamp: Stamp): (Store, StorageResult<Response>)
    requires |stamp.draws| == |EvaluatedKeys(call.request)|
  {
    match Verdict(sha, store, call)
    case Some(answer) => (store, answer)
    case None =>
      var effect := Enact(call, Decide(sha, store, call.request).value, stamp);
      (Commit(store, call, effect), Success(effect.response))
  }
}
