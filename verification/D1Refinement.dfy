/**
  One D1 command refines one sequential command: the snapshot is a view of the
  store, the local decision is the store's decision, and the guarded batch is
  the store's commit. Only the epoch guard can make the batch fail.
 */
module D1Refinement {
  import opened Results
  import opened Text
  import opened Domain
  import opened SequentialStore
  import opened Invariants
  import opened D1Tables
  import opened D1Store

  // ---------------------------------------------------------------- snapshots

  /** The snapshot shows the flag `key` as the store has it. */
  ghost predicate ShowsFlag(store: Store, snapshot: Snapshot, org: Text, key: Text) {
    && (key in snapshot.flags <==> FlagId(org, key) in store.flags)
    && (key in snapshot.flags ==> snapshot.flags[key] == store.flags[FlagId(org, key)])
  }

  ghost predicate ShowsEnvironment(store: Store, snapshot: Snapshot, org: Text, key: Text) {
    var id := EnvironmentId(org, key);
    snapshot.environment == if id in store.environments then Some(store.environments[id]) else None
  }

  ghost predicate ShowsRuleset(store: Store, snapshot: Snapshot, org: Text, key: Text, environmentKey: Text) {
    var id := LatestId(store.rulesets, org, key, environmentKey);
    && (key in snapshot.rulesets <==> id in store.rulesets)
    && (key in snapshot.rulesets ==> snapshot.rulesets[key] == Published(id.revision, store.rulesets[id].definition))
  }

  ghost predicate ShowsKey(store: Store, snapshot: Snapshot, org: Text, key: Text, environmentKey: Text) {
    ShowsFlag(store, snapshot, org, key) && ShowsRuleset(store, snapshot, org, key, environmentKey)
  }

  /** A snapshot for `call` shows one state of the store, at one epoch. */
  ghost predicate Shows(store: Store, epoch: int, call: Call, snapshot: Snapshot) {
    var org, environmentKey := call.request.org, SnapshotEnvironment(call.request);
    && snapshot.epoch == epoch <= I64_MAX
    && snapshot.command == (if IdOf(call) in store.commands then [store.commands[IdOf(call)]] else [])
    && ShowsEnvironment(store, snapshot, org, environmentKey)
    && forall key | key in SnapshotKeys(call.request) :: ShowsKey(store, snapshot, org, key, environmentKey)
  }

  lemma KeyShown(t: Tables, org: Text, keys: seq<Text>, key: Text, environmentKey: Text, snapshot: Snapshot)
    requires key in keys
    requires snapshot.flags == SelectFlags(t, org, keys)
    requires snapshot.rulesets == SelectRulesets(t, org, environmentKey, keys)
    ensures ShowsKey(Abs(t), snapshot, org, key, environmentKey)
  {
    LatestAbs(t, org, key, environmentKey);
  }

  lemma KeysShown(t: Tables, org: Text, keys: seq<Text>, environmentKey: Text, snapshot: Snapshot)
    requires snapshot.flags == SelectFlags(t, org, keys)
    requires snapshot.rulesets == SelectRulesets(t, org, environmentKey, keys)
    ensures forall key | key in keys :: ShowsKey(Abs(t), snapshot, org, key, environmentKey)
  {
    forall key | key in keys ensures ShowsKey(Abs(t), snapshot, org, key, environmentKey) {
      KeyShown(t, org, keys, key, environmentKey, snapshot);
    }
  }

  /** The snapshot batch shows the tables at one instant; a used-up epoch is unreadable. */
  lemma SnapshotShows(t: Tables, call: Call)
    requires 1 <= t.epoch
    ensures match TakeSnapshot(t, call)
            case Success(snapshot) => t.epoch <= I64_MAX && Shows(Abs(t), t.epoch, call, snapshot)
            case Failure(error) => t.epoch > I64_MAX && error == Backend
  {
    if t.epoch <= I64_MAX {
      KeysShown(t, call.request.org, SnapshotKeys(call.request), SnapshotEnvironment(call.request),
                TakeSnapshot(t, call).value);
    }
  }

  // ---------------------------------------------------------------- decisions

  /** The stamp that D1's single clock reading, ids and row numbers amount to. */
  function StampOf(inputs: Inputs, epoch: int, sequence: int): Stamp {
    Stamp(inputs.now, inputs.now, inputs.now, inputs.now, inputs.now, epoch,
          seq(|inputs.drawn|, i requires 0 <= i < |inputs.drawn| =>
            Draw(inputs.drawn[i].receiptId, inputs.drawn[i].evaluatedAt, sequence + 1 + i)))
  }

  function ReceiptsIn(rows: seq<ReceiptRow>): seq<Receipt> {
    seq(|rows|, i requires 0 <= i < |rows| => rows[i].receipt)
  }

  predicate Complete(request: Request, effect: Effect) {
    && (request.CreateFlag? || request.UpdateFlag? || request.ArchiveFlag? || request.PublishRuleset?
        ==> effect.flag.Some?)
    && (request.PutEnvironment? || request.PublishRuleset? ==> effect.environment.Some?)
    && (request.PublishRuleset? ==> effect.ruleset.Some? && effect.response.PublishResponse?)
  }

  /** The statements that write an effect. */
  function StatementsOf(call: Call, effect: Effect): seq<Statement>
    requires Complete(call.request, effect)
  {
    match call.request
    case CreateFlag(_, _, _, _, _) => [InsertFlag(effect.flag.value)]
    case UpdateFlag(_, _, _, _, _) => [WriteFlag(effect.flag.value)]
    case ArchiveFlag(_, _, _) => [WriteFlag(effect.flag.value)]
    case PutEnvironment(_, _, _, _) => [UpsertEnvironment(effect.environment.value)]
    case PublishRuleset(_, _, _, _, _, _) =>
      [WriteFlag(effect.flag.value), UpsertEnvironment(effect.environment.value),
       InsertRuleset(effect.ruleset.value.id, effect.ruleset.value.row.definition, effect.response.publication)]
    case _ =>
      [InsertReceipts(call.request.org, call.command.caller, call.command.actor, OperationOf(call.request),
                      ReceiptsIn(effect.receipts))]
  }

  /** The local decision is the store's, error for error and row for row. */
  ghost predicate Matches(call: Call, stamp: Stamp, decided: StorageResult<Plan>, writes: StorageResult<Writes>) {
    match decided
    case Failure(error) => writes == Failure(error)
    case Success(plan) =>
      Fits(call.request, plan, stamp)
      && var effect := Enact(call, plan, stamp);
         writes == Success(Writes(StatementsOf(call, effect), effect.response))
  }

  lemma CreateFlagRefines(sha: Sha256, store: Store, snapshot: Snapshot, call: Call, stamp: Stamp)
    requires call.request.CreateFlag? && ShowsFlag(store, snapshot, call.request.org, call.request.flagKey)
    requires stamp.createdAt == stamp.updatedAt && stamp.rowSeq == snapshot.epoch
    ensures Matches(call, stamp, Decide(sha, store, call.request),
                    CreateFlagWrites(snapshot, call.request, stamp.updatedAt))
  {
  }

  lemma UpdateFlagRefines(store: Store, snapshot: Snapshot, call: Call, stamp: Stamp)
    requires call.request.UpdateFlag? && ShowsFlag(store, snapshot, call.request.org, call.request.flagKey)
             && FlagsInv(store)
    ensures Matches(call, stamp,
                    DecideFlagChange(store, FlagId(call.request.org, call.request.flagKey),
                                     call.request.expectedRevision),
                    UpdateFlagWrites(snapshot, call.request, stamp.updatedAt))
  {
  }

  lemma ArchiveFlagRefines(store: Store, snapshot: Snapshot, call: Call, stamp: Stamp)
    requires call.request.ArchiveFlag? && ShowsFlag(store, snapshot, call.request.org, call.request.flagKey)
             && FlagsInv(store)
    requires stamp.archivedAt == stamp.updatedAt
    ensures Matches(call, stamp,
                    DecideFlagChange(store, FlagId(call.request.org, call.request.flagKey),
                                     call.request.expectedRevision),
                    ArchiveFlagWrites(snapshot, call.request, stamp.updatedAt))
  {
  }

  lemma PutEnvironmentRefines(store: Store, snapshot: Snapshot, call: Call, stamp: Stamp)
    requires call.request.PutEnvironment? && EnvironmentsInv(store)
    requires ShowsEnvironment(store, snapshot, call.request.org, call.request.environmentKey)
    requires stamp.createdAt == stamp.environmentAt
    ensures Matches(call, stamp, DecideEnvironment(store, call.request),
                    PutEnvironmentWrites(snapshot, call.request, stamp.environmentAt))
  {
  }

  /** The publication passes every check but, perhaps, an overflow. */
  predicate Publishable(snapshot: Snapshot, request: Request)
    requires request.PublishRuleset?
  {
    && request.flagKey in snapshot.flags
    && !snapshot.flags[request.flagKey].archived
    && snapshot.flags[request.flagKey].revision == request.expectedRevision
    && Validate(snapshot.flags[request.flagKey].valueType, request.definition).None?
    && snapshot.environment.Some?
    && snapshot.environment.value.revision == request.expectedEnvironmentRevision
  }

  lemma PublicationRefused(store: Store, snapshot: Snapshot, call: Call, now: Time)
    requires call.request.PublishRuleset? && FlagsInv(store) && EnvironmentsInv(store)
    requires ShowsFlag(store, snapshot, call.request.org, call.request.flagKey)
    requires ShowsEnvironment(store, snapshot, call.request.org, call.request.environmentKey)
    requires !Publishable(snapshot, call.request)
    ensures DecidePublication(store, call.request).Failure?
    ensures PublishRulesetWrites(snapshot, call, now) == Failure(DecidePublication(store, call.request).error)
  {
  }

  predicate Overflows(flagRevision: int, environmentRevision: int, latest: int) {
    flagRevision >= I64_MAX || environmentRevision >= I64_MAX || latest >= I64_MAX
  }

  /** The revision that the next publication builds on. */
  function LatestIn(snapshot: Snapshot, flagKey: Text): int {
    if flagKey in snapshot.rulesets then snapshot.rulesets[flagKey].revision else 0
  }

  lemma PublicationDecided(store: Store, snapshot: Snapshot, request: Request)
    requires request.PublishRuleset? && FlagsInv(store) && EnvironmentsInv(store) && Publishable(snapshot, request)
    requires ShowsFlag(store, snapshot, request.org, request.flagKey)
    requires ShowsEnvironment(store, snapshot, request.org, request.environmentKey)
    ensures var flag, environment := snapshot.flags[request.flagKey], snapshot.environment.value;
            var latest := Latest(store.rulesets, request.org, request.flagKey, request.environmentKey);
            DecidePublication(store, request)
            == if Overflows(flag.revision, environment.revision, latest) then Failure(Backend)
               else Success(Publication(flag, environment, latest))
  {
  }

  lemma PublicationWritten(snapshot: Snapshot, call: Call, now: Time)
    requires call.request.PublishRuleset? && Publishable(snapshot, call.request)
    requires 1 <= snapshot.flags[call.request.flagKey].revision <= I64_MAX
    requires 1 <= snapshot.environment.value.revision <= I64_MAX
    requires 0 <= LatestIn(snapshot, call.request.flagKey) <= I64_MAX
    requires call.request.flagKey in snapshot.rulesets ==> LatestIn(snapshot, call.request.flagKey) > 0
    ensures var r, flag, environment := call.request, snapshot.flags[call.request.flagKey], snapshot.environment.value;
            var latest := LatestIn(snapshot, r.flagKey);
            PublishRulesetWrites(snapshot, call, now)
            == if Overflows(flag.revision, environment.revision, latest) then Failure(Backend)
               else Success(PublicationWrites(call, flag, environment, latest, now))
  {
  }

  function PublicationWrites(call: Call, flag: FlagRecord, environment: EnvironmentRecord, latest: int,
                             now: Time): Writes
    requires call.request.PublishRuleset?
  {
    var r := call.request;
    var record := PublishRecord(r.org, r.flagKey, r.environmentKey, latest + 1, flag.revision + 1,
                                environment.revision + 1, call.command.actor, now);
    Writes(
      [WriteFlag(flag.(revision := flag.revision + 1, updatedAt := now)),
       UpsertEnvironment(environment.(revision := environment.revision + 1, updatedAt := now)),
       InsertRuleset(RulesetId(r.org, r.flagKey, r.environmentKey, latest + 1), r.definition, record)],
      PublishResponse(record))
  }

  lemma PublicationMatches(call: Call, stamp: Stamp, flag: FlagRecord, environment: EnvironmentRecord, latest: int)
    requires call.request.PublishRuleset? && stamp.updatedAt == stamp.environmentAt == stamp.publishedAt
    ensures Matches(call, stamp, Success(Publication(flag, environment, latest)),
                    Success(PublicationWrites(call, flag, environment, latest, stamp.updatedAt)))
  {
  }

  lemma LatestShown(store: Store, snapshot: Snapshot, org: Text, flagKey: Text, environmentKey: Text)
    requires RulesetsInv(store) && ShowsRuleset(store, snapshot, org, flagKey, environmentKey)
    ensures LatestIn(snapshot, flagKey) == Latest(store.rulesets, org, flagKey, environmentKey)
    ensures 0 <= LatestIn(snapshot, flagKey) <= I64_MAX
    ensures flagKey in snapshot.rulesets ==> LatestIn(snapshot, flagKey) > 0
  {
    var id := LatestId(store.rulesets, org, flagKey, environmentKey);
    LatestIs(store.rulesets, org, flagKey, environmentKey);
    if id in store.rulesets {
      assert RulesetInv(store, id);
    }
  }

  lemma PublicationAccepted(store: Store, snapshot: Snapshot, call: Call, stamp: Stamp)
    requires call.request.PublishRuleset? && FlagsInv(store) && EnvironmentsInv(store) && RulesetsInv(store)
    requires ShowsFlag(store, snapshot, call.request.org, call.request.flagKey)
    requires ShowsEnvironment(store, snapshot, call.request.org, call.request.environmentKey)
    requires ShowsRuleset(store, snapshot, call.request.org, call.request.flagKey, call.request.environmentKey)
    requires stamp.updatedAt == stamp.environmentAt == stamp.publishedAt && Publishable(snapshot, call.request)
    ensures Matches(call, stamp, DecidePublication(store, call.request),
                    PublishRulesetWrites(snapshot, call, stamp.updatedAt))
  {
    var r := call.request;
    LatestShown(store, snapshot, r.org, r.flagKey, r.environmentKey);
    PublicationDecided(store, snapshot, r);
    PublicationWritten(snapshot, call, stamp.updatedAt);
    PublicationMatches(call, stamp, snapshot.flags[r.flagKey], snapshot.environment.value,
                       LatestIn(snapshot, r.flagKey));
  }

  lemma PublishRulesetRefines(store: Store, snapshot: Snapshot, call: Call, stamp: Stamp)
    requires call.request.PublishRuleset? && FlagsInv(store) && EnvironmentsInv(store) && RulesetsInv(store)
    requires ShowsFlag(store, snapshot, call.request.org, call.request.flagKey)
    requires ShowsEnvironment(store, snapshot, call.request.org, call.request.environmentKey)
    requires ShowsRuleset(store, snapshot, call.request.org, call.request.flagKey, call.request.environmentKey)
    requires stamp.updatedAt == stamp.environmentAt == stamp.publishedAt
    ensures Matches(call, stamp, DecidePublication(store, call.request),
                    PublishRulesetWrites(snapshot, call, stamp.updatedAt))
  {
    if Publishable(snapshot, call.request) {
      PublicationAccepted(store, snapshot, call, stamp);
    } else {
      PublicationRefused(store, snapshot, call, stamp.updatedAt);
    }
  }

  lemma EvaluateInView(sha: Sha256, store: Store, snapshot: Snapshot, request: Request, key: Text)
    requires request.Evaluate? || request.EvaluateBatch?
    requires ShowsFlag(store, snapshot, request.org, key)
    requires ShowsEnvironment(store, snapshot, request.org, request.environmentKey)
    requires ShowsRuleset(store, snapshot, request.org, key, request.environmentKey)
    ensures EvaluateInSnapshot(sha, snapshot, request, key)
            == EvaluateKey(sha, store, request.org, request.environmentKey, key, request.context)
  {
  }

  /** Evaluations in a view agree with evaluations in the store. */
  ghost predicate Agrees(sha: Sha256, store: Store, snapshot: Snapshot, request: Request, key: Text)
    requires request.Evaluate? || request.EvaluateBatch?
  {
    EvaluateInSnapshot(sha, snapshot, request, key)
    == EvaluateKey(sha, store, request.org, request.environmentKey, key, request.context)
  }

  ghost predicate SameDraws(drawn: seq<Drawn>, draws: seq<Draw>) {
    && |drawn| == |draws|
    && forall i | 0 <= i < |drawn| ::
         draws[i].receiptId == drawn[i].receiptId && draws[i].evaluatedAt == drawn[i].evaluatedAt
  }

  ghost predicate SameEvaluations(call: Call, evaluated: StorageResult<seq<Evaluated>>, draws: seq<Draw>,
                                  all: StorageResult<Evaluation>)
    requires call.request.Evaluate? || call.request.EvaluateBatch?
  {
    var environmentKey, hash := call.request.environmentKey, call.request.context.hash;
    match evaluated
    case Failure(error) => all == Failure(error)
    case Success(es) =>
      && |es| == |draws|
      && all == Success(Evaluation(Records(environmentKey, es, draws),
                                   ReceiptsIn(ReceiptRows(call, environmentKey, hash, es, draws))))
  }

  lemma {:induction false} EvaluateAllRefines(sha: Sha256, store: Store, snapshot: Snapshot, call: Call,
                                              drawn: seq<Drawn>,
                                              draws: seq<Draw>, keys: seq<Text>)
    requires call.request.Evaluate? || call.request.EvaluateBatch?
    requires |keys| <= |drawn| && SameDraws(drawn, draws)
    requires forall key | key in keys :: Agrees(sha, store, snapshot, call.request, key)
    ensures SameEvaluations(call,
                            EvaluateKeys(sha, store, call.request.org, call.request.environmentKey, keys,
                                         call.request.context),
                            draws[..|keys|], EvaluateAll(sha, snapshot, call, drawn, keys))
  {
    var r, n := call.request, |keys|;
    if n > 0 {
      EvaluateAllRefines(sha, store, snapshot, call, drawn, draws, keys[..n - 1]);
      assert keys[n - 1] in keys;
      assert Agrees(sha, store, snapshot, r, keys[n - 1]);
      var before := EvaluateKeys(sha, store, r.org, r.environmentKey, keys[..n - 1], r.context);
      var last := EvaluateKey(sha, store, r.org, r.environmentKey, keys[n - 1], r.context);
      if before.Success? && last.Success? {
        EvaluateKeyMeans(sha, store, r.org, r.environmentKey, keys[n - 1], r.context);
        assert draws[..|keys[..n - 1]|] == draws[..n - 1];
        RecordsGrow(call, r.environmentKey, r.context.hash, before.value, last.value, draws, n);
        var prior := EvaluateAll(sha, snapshot, call, drawn, keys[..n - 1]).value;
        var all := EvaluateAll(sha, snapshot, call, drawn, keys).value;
        assert last.value.flagKey == keys[n - 1];
        assert all.records == prior.records + [RecordOf(r.environmentKey, last.value, draws[n - 1])];
        assert all.receipts
               == prior.receipts + [ReceiptOf(call, r.environmentKey, r.context.hash, n - 1, last.value, draws[n - 1])];
      }
    } else {
      assert Records(r.environmentKey, [], draws[..0]) == [];
      assert ReceiptsIn(ReceiptRows(call, r.environmentKey, r.context.hash, [], draws[..0])) == [];
    }
  }

  lemma RecordsGrow(call: Call, environmentKey: Text, hash: Text, before: seq<Evaluated>, last: Evaluated,
                    draws: seq<Draw>, n: nat)
    requires 0 < n <= |draws| && |before| == n - 1
    ensures Records(environmentKey, before + [last], draws[..n])
            == Records(environmentKey, before, draws[..n - 1]) + [RecordOf(environmentKey, last, draws[n - 1])]
    ensures ReceiptsIn(ReceiptRows(call, environmentKey, hash, before + [last], draws[..n]))
            == ReceiptsIn(ReceiptRows(call, environmentKey, hash, before, draws[..n - 1]))
               + [ReceiptOf(call, environmentKey, hash, n - 1, last, draws[n - 1])]
  {
  }

  lemma EvaluationRefines(sha: Sha256, store: Store, snapshot: Snapshot, call: Call, drawn: seq<Drawn>, stamp: Stamp)
    requires call.request.Evaluate? || call.request.EvaluateBatch?
    requires |drawn| == |EvaluatedKeys(call.request)| && SameDraws(drawn, stamp.draws)
    requires forall key | key in EvaluatedKeys(call.request) :: Agrees(sha, store, snapshot, call.request, key)
    ensures Matches(call, stamp, Decide(sha, store, call.request), EvaluationWrites(sha, snapshot, call, drawn))
  {
    var keys := EvaluatedKeys(call.request);
    EvaluateAllRefines(sha, store, snapshot, call, drawn, stamp.draws, keys);
    assert stamp.draws[..|keys|] == stamp.draws;
  }

  lemma OperationRefines(sha: Sha256, store: Store, snapshot: Snapshot, sequence: int, call: Call, inputs: Inputs)
    requires StoreInv(store) && |inputs.drawn| == |EvaluatedKeys(call.request)|
    requires Shows(store, snapshot.epoch, call, snapshot)
    ensures Matches(call, StampOf(inputs, snapshot.epoch, sequence), Decide(sha, store, call.request),
                    OperationWrites(sha, snapshot, call, inputs))
  {
    var stamp, r := StampOf(inputs, snapshot.epoch, sequence), call.request;
    match r {
      case CreateFlag(org, flagKey, _, _, _) =>
        assert ShowsKey(store, snapshot, org, flagKey, []);
        CreateFlagRefines(sha, store, snapshot, call, stamp);
      case UpdateFlag(org, flagKey, _, _, _) =>
        assert ShowsKey(store, snapshot, org, flagKey, []);
        UpdateFlagRefines(store, snapshot, call, stamp);
      case ArchiveFlag(org, flagKey, _) =>
        assert ShowsKey(store, snapshot, org, flagKey, []);
        ArchiveFlagRefines(store, snapshot, call, stamp);
      case PutEnvironment(_, _, _, _) =>
        PutEnvironmentRefines(store, snapshot, call, stamp);
      case PublishRuleset(org, flagKey, environmentKey, _, _, _) =>
        assert ShowsKey(store, snapshot, org, flagKey, environmentKey);
        PublishRulesetRefines(store, snapshot, call, stamp);
      case _ =>
        EvaluationsRefine(sha, store, snapshot, call, inputs.drawn, stamp);
    }
  }

  lemma EvaluationsRefine(sha: Sha256, store: Store, snapshot: Snapshot, call: Call, drawn: seq<Drawn>, stamp: Stamp)
    requires call.request.Evaluate? || call.request.EvaluateBatch?
    requires |drawn| == |EvaluatedKeys(call.request)| && SameDraws(drawn, stamp.draws)
    requires Shows(store, snapshot.epoch, call, snapshot)
    ensures Matches(call, stamp, Decide(sha, store, call.request), EvaluationWrites(sha, snapshot, call, drawn))
  {
    var r := call.request;
    forall key | key in EvaluatedKeys(r) ensures Agrees(sha, store, snapshot, r, key) {
      assert ShowsKey(store, snapshot, r.org, key, r.environmentKey);
      EvaluateInView(sha, store, snapshot, r, key);
    }
    EvaluationRefines(sha, store, snapshot, call, drawn, stamp);
  }

  lemma ReplayInSnapshot(store: Store, call: Call, command: seq<CommandRow>)
    requires command == if IdOf(call) in store.commands then [store.commands[IdOf(call)]] else []
    ensures ReplayRows(command, call)
            == match Replay(store.commands, call)
               case None => Success(None)
               case Some(Success(response)) => Success(Some(response))
               case Some(Failure(error)) => Failure(error)
  {
  }

  /**
    The decision on a snapshot: an answer is the store's verdict, and a
    submission is the store's effect written out as statements.
   */
  lemma DecisionRefines(sha: Sha256, store: Store, snapshot: Snapshot, sequence: int, call: Call, inputs: Inputs)
    requires StoreInv(store) && |inputs.drawn| == |EvaluatedKeys(call.request)|
    requires Shows(store, snapshot.epoch, call, snapshot)
    ensures match DecideLocally(sha, snapshot, call, inputs)
            case Answer(result) => Verdict(sha, store, call) == Some(result)
            case Submit(writes) =>
              && Verdict(sha, store, call).None?
              && Matches(call, StampOf(inputs, snapshot.epoch, sequence), Decide(sha, store, call.request),
                         Success(writes))
  {
    ReplayInSnapshot(store, call, snapshot.command);
    OperationRefines(sha, store, snapshot, sequence, call, inputs);
  }
}
