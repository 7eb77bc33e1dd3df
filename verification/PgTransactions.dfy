/**
  One PostgreSQL transaction, statement by statement: what each statement of an
  operation reads from the committed rows, which row locks it takes, and which
  rows it leaves uncommitted. READ COMMITTED: every statement sees the rows
  committed when it runs.
 */
module PgTransactions {
  import opened Results
  import opened Text
  import opened Domain
  import opened JsonText
  import opened SequentialStore
  import opened Invariants

  /** Committed rows; the hashes of command rows without a response are kept apart. */
  datatype Tables = Tables(store: Store, unanswered: map<CommandId, Text>)

  /** Row locks, held to the end of the transaction; an inserted row is locked. */
  datatype Lock =
    | FlagLock(flagId: FlagId)
    | EnvironmentLock(environmentId: EnvironmentId)
    | CommandLock(commandId: CommandId)

  /** The statement a transaction runs next. */
  datatype Phase =
    | LookUp
    | Admit
    | First
    | FlagLocked
    | EnvironmentRead(found: bool)
    | EnvironmentLocked
    | Numbered(next: int)
    | RulesetInserted
    | FlagBumped
    | FlagShared(valueType: ValueType)
    | EnvironmentSeen(valueType: ValueType)
    | Chosen(evaluated: Evaluated)
    | Written
    | Answered(response: Response)
    | Replayed(response: Response)

  /** The command row of a transaction; its response is written last. */
  datatype CommandState = CommandState(hash: Text, response: Option<Response>)

  /**
    A running transaction with its locks and its uncommitted rows. `looked` and
    `stamp` are kept only for the proof.
   */
  datatype Tx = Tx(
    call: Call,
    phase: Phase,
    looked: nat,
    exclusive: set<Lock>,
    shared: set<Lock>,
    command: Option<CommandState>,
    flag: Option<FlagRecord>,
    environment: Option<EnvironmentRecord>,
    ruleset: Option<NewRuleset>,
    receipts: seq<ReceiptRow>,
    evaluated: seq<Evaluated>,
    records: seq<EvaluationRecord>,
    stamp: Stamp)

  /** Clock readings, a sequence number and a fresh UUID for one statement. */
  datatype Tick = Tick(at: Time, later: Time, rowSeq: int, receiptId: Text)

  datatype Outcome = Continue(tx: Tx) | Stop(error: StorageError)

  const UNSTAMPED: Stamp := Stamp(0, 0, 0, 0, 0, 0, [])

  function Opened(call: Call): Tx {
    Tx(call, LookUp, 0, {}, {}, None, None, None, None, [], [], [], UNSTAMPED)
  }

  function FlagOf(r: Request): FlagId
    requires r.CreateFlag? || r.UpdateFlag? || r.ArchiveFlag? || r.PublishRuleset? || r.Evaluate?
  {
    FlagId(r.org, r.flagKey)
  }

  function EnvironmentOf(r: Request): EnvironmentId
    requires r.PutEnvironment? || r.PublishRuleset? || r.Evaluate? || r.EvaluateBatch?
  {
    EnvironmentId(r.org, r.environmentKey)
  }

  predicate Evaluates(r: Request) {
    r.Evaluate? || r.EvaluateBatch?
  }

  predicate WritesOneFlag(r: Request) {
    r.UpdateFlag? || r.ArchiveFlag? || r.PublishRuleset?
  }

  // --------------------------------------------------------------- storable text

  predicate ValueHasNul(value: ValueRecord) {
    || (value.valueType.UnknownType? && 0 in value.valueType.name)
    || (value.text.Some? && 0 in value.text.value)
    || (value.integer.Some? && 0 in value.integer.value)
    || (value.json.Some? && EscapesNul(value.json.value))
  }

  predicate RuleHasNul(rule: TargetingRule) {
    || 0 in rule.ruleId || 0 in rule.attribute || 0 in rule.variantKey
    || (rule.operator.UnknownOperator? && 0 in rule.operator.name)
    || exists i :: 0 <= i < |rule.comparisonValues| && 0 in rule.comparisonValues[i]
  }

  /** Some string of the definition contains U+0000. */
  predicate HasNul(d: RulesetDefinition) {
    || (exists i :: 0 <= i < |d.variants| && (0 in d.variants[i].variantKey || ValueHasNul(d.variants[i].value)))
    || (exists i :: 0 <= i < |d.targetingRules| && RuleHasNul(d.targetingRules[i]))
    || (exists i :: 0 <= i < |d.percentageRollout| && 0 in d.percentageRollout[i].variantKey)
    || 0 in d.fallthroughVariant
  }

  // ---------------------------------------------------------------- statements

  /** The first half of `admit_command`: SELECT ... FOR UPDATE. */
  function LookUpStatement(t: Tables, tx: Tx, position: nat): Outcome {
    var id := IdOf(tx.call);
    if id in t.unanswered then
      if t.unanswered[id] != tx.call.command.hash then Stop(Domain(IdempotencyConflict))
      else Stop(Domain(OperationInProgress))
    else
      match Replay(t.store.commands, tx.call)
      case None => Continue(tx.(phase := Admit, looked := position))
      case Some(Success(response)) => Continue(tx.(phase := Replayed(response), looked := position))
      case Some(Failure(error)) => Stop(error)
  }

  /** The second half: INSERT, where a duplicate key means a concurrent twin. */
  function AdmitStatement(t: Tables, tx: Tx): Outcome {
    var id := IdOf(tx.call);
    if id in t.unanswered || id in t.store.commands then Stop(Domain(OperationInProgress))
    else Continue(tx.(phase := First, command := Some(CommandState(tx.call.command.hash, None))))
  }

  /** `lock_flag` and `require_flag_revision`, and validation before publishing. */
  function LockFlagStatement(t: Tables, tx: Tx): Outcome
    requires WritesOneFlag(tx.call.request)
  {
    var r := tx.call.request;
    match WritableFlag(t.store, FlagOf(r), r.expectedRevision)
    case Failure(error) => Stop(error)
    case Success(flag) =>
      if r.PublishRuleset? && Validate(flag.valueType, r.definition).Some? then
        Stop(Domain(Validate(flag.valueType, r.definition).value))
      else Continue(tx.(phase := FlagLocked))
  }

  function InsertFlagStatement(t: Tables, tx: Tx, tick: Tick): Outcome
    requires tx.call.request.CreateFlag?
  {
    var r := tx.call.request;
    // CHECK(value_type IN ...) is evaluated before the primary key.
    if r.valueType.UnknownType? then Stop(Backend)
    else if FlagOf(r) in t.store.flags then Stop(Domain(AlreadyExists))
    else
      var flag := FlagRecord(r.org, r.flagKey, r.name, r.description, r.valueType, false, 1, tick.at, tick.later, None,
                             tick.rowSeq);
      Continue(tx.(phase := Written, flag := Some(flag),
                   stamp := tx.stamp.(createdAt := tick.at, updatedAt := tick.later, rowSeq := tick.rowSeq)))
  }

  /** SELECT ... FOR UPDATE, and the match on what exists and what is expected. */
  function ReadEnvironmentStatement(t: Tables, tx: Tx): Outcome
    requires tx.call.request.PutEnvironment?
  {
    var r := tx.call.request;
    var id := EnvironmentOf(r);
    if id !in t.store.environments then
      if r.expected.Some? then Stop(Domain(NotFound)) else Continue(tx.(phase := EnvironmentRead(false)))
    else if r.expected.None? then Stop(Domain(AlreadyExists))
    else if t.store.environments[id].revision != r.expected.value then Stop(Domain(RevisionConflict))
    else Continue(tx.(phase := EnvironmentRead(true)))
  }

  function WriteEnvironmentStatement(t: Tables, tx: Tx, tick: Tick, found: bool): Outcome
    requires tx.call.request.PutEnvironment?
  {
    var r := tx.call.request;
    var id := EnvironmentOf(r);
    if !found then
      if id in t.store.environments then Stop(Domain(AlreadyExists))
      else
        var environment := EnvironmentRecord(r.org, r.environmentKey, r.name, 1, tick.at, tick.later);
        Continue(tx.(phase := Written, environment := Some(environment),
                     stamp := tx.stamp.(createdAt := tick.at, environmentAt := tick.later)))
    else if id !in t.store.environments then Stop(Domain(NotFound))
    else
      var current := t.store.environments[id];
      if current.revision >= I64_MAX then Stop(Backend)
      else
        var environment := current.(name := r.name, revision := current.revision + 1, updatedAt := tick.at);
        Continue(tx.(phase := Written, environment := Some(environment), stamp := tx.stamp.(environmentAt := tick.at)))
  }

  /** UPDATE ... SET revision=revision+1 on the row as it is committed now. */
  function UpdateFlagStatement(t: Tables, tx: Tx, tick: Tick): Outcome
    requires tx.call.request.UpdateFlag? || tx.call.request.ArchiveFlag?
  {
    var r := tx.call.request;
    if FlagOf(r) !in t.store.flags then Stop(Domain(NotFound))
    else
      var current := t.store.flags[FlagOf(r)];
      if current.revision >= I64_MAX then Stop(Backend)
      else if r.UpdateFlag? then
        var flag := current.(name := r.name, description := r.description, revision := current.revision + 1,
                             updatedAt := tick.at);
        Continue(tx.(phase := Written, flag := Some(flag), stamp := tx.stamp.(updatedAt := tick.at)))
      else
        var flag := current.(archived := true, archivedAt := Some(tick.at), revision := current.revision + 1,
                             updatedAt := tick.later);
        Continue(tx.(phase := Written, flag := Some(flag),
                     stamp := tx.stamp.(archivedAt := tick.at, updatedAt := tick.later)))
  }

  function LockEnvironmentStatement(t: Tables, tx: Tx): Outcome
    requires tx.call.request.PublishRuleset?
  {
    var r := tx.call.request;
    var id := EnvironmentOf(r);
    if id !in t.store.environments then Stop(Domain(NotFound))
    else if t.store.environments[id].revision != r.expectedEnvironmentRevision then Stop(Domain(RevisionConflict))
    else Continue(tx.(phase := EnvironmentLocked))
  }

  /** SELECT COALESCE(MAX(ruleset_revision),0)+1. */
  function NumberStatement(t: Tables, tx: Tx): Outcome
    requires tx.call.request.PublishRuleset?
  {
    var r := tx.call.request;
    var latest := Latest(t.store.rulesets, r.org, r.flagKey, r.environmentKey);
    if latest >= I64_MAX then Stop(Backend) else Continue(tx.(phase := Numbered(latest + 1)))
  }

  function InsertRulesetStatement(t: Tables, tx: Tx, tick: Tick, next: int): Outcome
    requires tx.call.request.PublishRuleset?
  {
    var r := tx.call.request;
    var id := RulesetId(r.org, r.flagKey, r.environmentKey, next);
    // A jsonb column takes no U+0000.
    if HasNul(r.definition) then Stop(Backend)
    else if id in t.store.rulesets || next <= 0 || FlagOf(r) !in t.store.flags
      || EnvironmentOf(r) !in t.store.environments then
      Stop(Backend)
    else
      Continue(tx.(phase := RulesetInserted,
                   ruleset := Some(NewRuleset(id, RulesetRow(r.definition, tx.call.command.actor, tick.at))),
                   stamp := tx.stamp.(publishedAt := tick.at)))
  }

  function BumpFlagStatement(t: Tables, tx: Tx, tick: Tick): Outcome
    requires tx.call.request.PublishRuleset?
  {
    var id := FlagOf(tx.call.request);
    if id !in t.store.flags || t.store.flags[id].revision >= I64_MAX then Stop(Backend)
    else
      var current := t.store.flags[id];
      Continue(tx.(phase := FlagBumped, flag := Some(current.(revision := current.revision + 1, updatedAt := tick.at)),
                   stamp := tx.stamp.(updatedAt := tick.at)))
  }

  function BumpEnvironmentStatement(t: Tables, tx: Tx, tick: Tick): Outcome
    requires tx.call.request.PublishRuleset?
  {
    var id := EnvironmentOf(tx.call.request);
    if id !in t.store.environments || t.store.environments[id].revision >= I64_MAX then Stop(Backend)
    else
      var current := t.store.environments[id];
      Continue(tx.(phase := Written,
                   environment := Some(current.(revision := current.revision + 1, updatedAt := tick.at)),
                   stamp := tx.stamp.(environmentAt := tick.at)))
  }

  /** The key that `evaluate_one` is working on. */
  function CurrentKey(tx: Tx): Text
    requires |tx.evaluated| < |EvaluatedKeys(tx.call.request)|
  {
    EvaluatedKeys(tx.call.request)[|tx.evaluated|]
  }

  /** The next turn of the loop: SELECT ... FOR SHARE, or the end of the loop. */
  function ShareFlagStatement(t: Tables, tx: Tx): Outcome
    requires Evaluates(tx.call.request)
  {
    var r := tx.call.request;
    if |tx.evaluated| >= |EvaluatedKeys(r)| then Continue(tx.(phase := Written))
    else
      var id := FlagId(r.org, CurrentKey(tx));
      if id !in t.store.flags then Stop(Domain(FlagNotFound))
      else if t.store.flags[id].archived then Stop(Domain(Archived))
      else Continue(tx.(phase := FlagShared(t.store.flags[id].valueType)))
  }

  function SeeEnvironmentStatement(t: Tables, tx: Tx, valueType: ValueType): Outcome
    requires Evaluates(tx.call.request)
  {
    if EnvironmentOf(tx.call.request) !in t.store.environments then Stop(Domain(EnvironmentNotFound))
    else Continue(tx.(phase := EnvironmentSeen(valueType)))
  }

  /** SELECT the latest ruleset, validate it again, and choose. */
  function ChooseStatement(sha: Sha256, t: Tables, tx: Tx, valueType: ValueType): Outcome
    requires Evaluates(tx.call.request) && |tx.evaluated| < |EvaluatedKeys(tx.call.request)|
  {
    var r, key := tx.call.request, CurrentKey(tx);
    var id := LatestId(t.store.rulesets, r.org, key, r.environmentKey);
    if id !in t.store.rulesets then Stop(Domain(NoPublishedRuleset))
    else
      var definition := t.store.rulesets[id].definition;
      match Validate(valueType, definition)
      case Some(failure) => Stop(Domain(failure))
      case None =>
        match ChooseVariant(sha, r.org, r.environmentKey, key, r.context.targetingKey, r.context.attributes, definition)
        case Failure(error) => Stop(error)
        case Success(selection) => Continue(tx.(phase := Chosen(Evaluated(key, selection, id.revision))))
  }

  function NewReceipt(tx: Tx, tick: Tick, e: Evaluated): ReceiptRow
    requires Evaluates(tx.call.request)
  {
    var call, variant := tx.call, e.selection.variant;
    ReceiptRow(tick.rowSeq, call.request.org, call.command.caller, call.command.actor, OperationOf(call.request),
               Receipt(tick.receiptId, EvaluationName(OperationOf(call.request), call.command.key, |tx.evaluated|),
                       e.flagKey,
                       call.request.environmentKey, variant.variantKey, e.selection.reason, e.rulesetRevision,
                       call.request.context.hash, tick.at))
  }

  predicate Collides(rows: seq<ReceiptRow>, row: ReceiptRow) {
    exists i :: 0 <= i < |rows| && Clash(rows[i], row)
  }

  /** INSERT the receipt and push the record. */
  function InsertReceiptStatement(t: Tables, tx: Tx, tick: Tick, e: Evaluated): Outcome
    requires Evaluates(tx.call.request)
  {
    var row := NewReceipt(tx, tick, e);
    if Collides(t.store.receipts, row) || Collides(tx.receipts, row) then Stop(Backend)
    else
      var variant := e.selection.variant;
      var record := EvaluationRecord(e.flagKey, tx.call.request.environmentKey, variant.variantKey, variant.value,
                                     e.selection.reason, e.rulesetRevision, tick.receiptId, tick.at);
      Continue(tx.(phase := First, receipts := tx.receipts + [row], evaluated := tx.evaluated + [e],
                   records := tx.records + [record],
                   stamp := tx.stamp.(draws := tx.stamp.draws + [Draw(tick.receiptId, tick.at, tick.rowSeq)])))
  }

  /** The record that the operation returns, read back from its own rows. */
  function ResponseOf(tx: Tx): Option<Response> {
    var r := tx.call.request;
    if r.PutEnvironment? then
      if tx.environment.Some? then Some(EnvironmentResponse(tx.environment.value)) else None
    else if r.PublishRuleset? then
      if tx.ruleset.Some? && tx.flag.Some? && tx.environment.Some? then
        var ruleset := tx.ruleset.value;
        Some(PublishResponse(PublishRecord(r.org, r.flagKey, r.environmentKey, ruleset.id.revision,
                                           tx.flag.value.revision, tx.environment.value.revision,
                                           tx.call.command.actor, ruleset.row.publishedAt)))
      else None
    else if r.Evaluate? then
      if tx.records != [] then Some(EvaluationResponse(tx.records[0])) else None
    else if r.EvaluateBatch? then Some(BatchResponse(tx.records))
    else if tx.flag.Some? then Some(FlagResponse(tx.flag.value))
    else None
  }

  /** `finish_command`: UPDATE the command row. */
  function FinishStatement(tx: Tx): Outcome {
    match ResponseOf(tx)
    case None => Stop(Backend)
    case Some(response) =>
      var command := if tx.command.Some? then Some(tx.command.value.(response := Some(response))) else None;
      Continue(tx.(phase := Answered(response), command := command))
  }

  function FirstStatement(t: Tables, tx: Tx, tick: Tick): Outcome {
    var r := tx.call.request;
    if r.CreateFlag? then InsertFlagStatement(t, tx, tick)
    else if r.PutEnvironment? then ReadEnvironmentStatement(t, tx)
    else if Evaluates(r) then ShareFlagStatement(t, tx)
    else LockFlagStatement(t, tx)
  }

  /** A phase belongs to an operation that reaches it. */
  predicate PhaseFits(tx: Tx) {
    var r := tx.call.request;
    match tx.phase
    case FlagLocked => WritesOneFlag(r)
    case EnvironmentRead(_) => r.PutEnvironment?
    case EnvironmentLocked => r.PublishRuleset?
    case Numbered(_) => r.PublishRuleset?
    case RulesetInserted => r.PublishRuleset?
    case FlagBumped => r.PublishRuleset?
    case FlagShared(_) => Evaluates(r) && |tx.evaluated| < |EvaluatedKeys(r)|
    case EnvironmentSeen(_) => Evaluates(r) && |tx.evaluated| < |EvaluatedKeys(r)|
    case Chosen(_) => Evaluates(r) && |tx.evaluated| < |EvaluatedKeys(r)|
    case _ => true
  }

  /** The next statement of a transaction that has not reached its COMMIT. */
  function Statement(sha: Sha256, t: Tables, tx: Tx, tick: Tick, position: nat): Outcome
    requires PhaseFits(tx) && !tx.phase.Answered? && !tx.phase.Replayed?
  {
    match tx.phase
    case LookUp => LookUpStatement(t, tx, position)
    case Admit => AdmitStatement(t, tx)
    case First => FirstStatement(t, tx, tick)
    case FlagLocked =>
      if tx.call.request.PublishRuleset? then LockEnvironmentStatement(t, tx) else UpdateFlagStatement(t, tx, tick)
    case EnvironmentRead(found) => WriteEnvironmentStatement(t, tx, tick, found)
    case EnvironmentLocked => NumberStatement(t, tx)
    case Numbered(next) => InsertRulesetStatement(t, tx, tick, next)
    case RulesetInserted => BumpFlagStatement(t, tx, tick)
    case FlagBumped => BumpEnvironmentStatement(t, tx, tick)
    case FlagShared(valueType) => SeeEnvironmentStatement(t, tx, valueType)
    case EnvironmentSeen(valueType) => ChooseStatement(sha, t, tx, valueType)
    case Chosen(e) => InsertReceiptStatement(t, tx, tick, e)
    case Written => FinishStatement(tx)
  }

  // --------------------------------------------------------------------- locks

  /**
    The exclusive lock the next statement needs: FOR UPDATE locks the row it
    finds, and an INSERT locks a key that is not committed. A key already
    committed, or a row not found, needs no waiting.
   */
  function Wants(t: Tables, tx: Tx): set<Lock> {
    var r := tx.call.request;
    match tx.phase
    case Admit =>
      if IdOf(tx.call) in t.unanswered || IdOf(tx.call) in t.store.commands then {}
      else {CommandLock(IdOf(tx.call))}
    case First =>
      if r.CreateFlag? then (if FlagOf(r) in t.store.flags then {} else {FlagLock(FlagOf(r))})
      else if WritesOneFlag(r) then (if FlagOf(r) in t.store.flags then {FlagLock(FlagOf(r))} else {})
      else if r.PutEnvironment? then
        (if EnvironmentOf(r) in t.store.environments then {EnvironmentLock(EnvironmentOf(r))} else {})
      else {}
    case FlagLocked =>
      if r.PublishRuleset? && EnvironmentOf(r) in t.store.environments then {EnvironmentLock(EnvironmentOf(r))} else {}
    case EnvironmentRead(found) =>
      if r.PutEnvironment? && !found && EnvironmentOf(r) !in t.store.environments
      then {EnvironmentLock(EnvironmentOf(r))}
      else {}
    case _ => {}
  }

  /** The shared lock of FOR SHARE. */
  function WantsShared(t: Tables, tx: Tx): set<Lock> {
    var r := tx.call.request;
    if tx.phase.First? && Evaluates(r) && |tx.evaluated| < |EvaluatedKeys(r)|
      && FlagId(r.org, CurrentKey(tx)) in t.store.flags
    then {FlagLock(FlagId(r.org, CurrentKey(tx)))}
    else {}
  }

  /** The statement together with the locks it takes. */
  function Locked(t: Tables, before: Tx, after: Tx): Tx {
    after.(exclusive := before.exclusive + Wants(t, before), shared := before.shared + WantsShared(t, before))
  }

  /** COMMIT makes the transaction's rows visible at once, the command row as it is. */
  function CommitRows(t: Tables, tx: Tx): Tables {
    match tx.command
    case None => t
    case Some(row) =>
      var response := if row.response.Some? then row.response.value else BatchResponse([]);
      var store := Commit(t.store, tx.call, Effect(tx.flag, tx.environment, tx.ruleset, tx.receipts, response));
      if row.response.Some? then t.(store := store)
      else Tables(store.(commands := t.store.commands), t.unanswered[IdOf(tx.call) := row.hash])
  }
}
