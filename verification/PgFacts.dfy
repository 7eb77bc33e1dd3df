/**
  What a running transaction may rely on. Every fact is about rows it has
  locked, so it is still true after other transactions commit; when the
  transaction is ready to commit, the facts add up to the sequential decision
  on the rows committed at that moment.
 */
module PgFacts {
  import opened Results
  import opened Text
  import opened Domain
  import opened SequentialStore
  import opened Invariants
  import opened PgTransactions

  predicate NoRows(tx: Tx) {
    && tx.flag.None? && tx.environment.None? && tx.ruleset.None?
    && tx.receipts == [] && tx.evaluated == [] && tx.records == [] && tx.stamp.draws == []
  }

  /** The command row is inserted, and nobody else has committed it. */
  ghost predicate Claimed(store: Store, tx: Tx) {
    && CommandLock(IdOf(tx.call)) in tx.exclusive && IdOf(tx.call) !in store.commands
    && tx.command == Some(CommandState(tx.call.command.hash,
                                       if tx.phase.Answered? then Some(tx.phase.response) else None))
  }

  ghost predicate SharesFlag(tx: Tx, k: nat)
    requires k < |EvaluatedKeys(tx.call.request)|
  {
    FlagLock(FlagId(tx.call.request.org, EvaluatedKeys(tx.call.request)[k])) in tx.shared
  }

  /** The keys evaluated so far would be evaluated to the same again. */
  ghost predicate Progress(sha: Sha256, store: Store, tx: Tx) {
    var r, n := tx.call.request, |tx.evaluated|;
    && Evaluates(r) && n <= |EvaluatedKeys(r)| && |tx.stamp.draws| == n
    && tx.flag.None? && tx.environment.None? && tx.ruleset.None?
    && EvaluateKeys(sha, store, r.org, r.environmentKey, EvaluatedKeys(r)[..n], r.context) == Success(tx.evaluated)
    && (forall k: nat | k < n :: SharesFlag(tx, k))
    && tx.receipts == ReceiptRows(tx.call, r.environmentKey, r.context.hash, tx.evaluated, tx.stamp.draws)
    && tx.records == Records(r.environmentKey, tx.evaluated, tx.stamp.draws)
  }

  /** The flag of the current turn of the loop. */
  ghost predicate HoldsKey(store: Store, tx: Tx, valueType: ValueType) {
    var r := tx.call.request;
    && |tx.evaluated| < |EvaluatedKeys(r)| && SharesFlag(tx, |tx.evaluated|)
    && FlagId(r.org, CurrentKey(tx)) in store.flags
    && !store.flags[FlagId(r.org, CurrentKey(tx))].archived
    && store.flags[FlagId(r.org, CurrentKey(tx))].valueType == valueType
  }

  ghost predicate FlagHeld(store: Store, tx: Tx) {
    var r := tx.call.request;
    && WritesOneFlag(r) && FlagLock(FlagOf(r)) in tx.exclusive
    && WritableFlag(store, FlagOf(r), r.expectedRevision).Success?
    && (r.PublishRuleset? ==> Validate(store.flags[FlagOf(r)].valueType, r.definition).None?)
  }

  ghost predicate EnvironmentHeld(store: Store, tx: Tx) {
    var r := tx.call.request;
    && r.PublishRuleset? && EnvironmentLock(EnvironmentOf(r)) in tx.exclusive
    && EnvironmentOf(r) in store.environments
    && store.environments[EnvironmentOf(r)].revision == r.expectedEnvironmentRevision
  }

  ghost predicate RulesetPending(store: Store, tx: Tx) {
    var r := tx.call.request;
    && r.PublishRuleset? && Latest(store.rulesets, r.org, r.flagKey, r.environmentKey) < I64_MAX
    && tx.ruleset == Some(NewRuleset(
         RulesetId(r.org, r.flagKey, r.environmentKey, Latest(store.rulesets, r.org, r.flagKey, r.environmentKey) + 1),
         RulesetRow(r.definition, tx.call.command.actor, tx.stamp.publishedAt)))
    && tx.environment.None? && tx.receipts == [] && tx.stamp.draws == []
  }

  ghost predicate BumpPending(store: Store, tx: Tx)
    requires FlagHeld(store, tx)
  {
    var current := store.flags[FlagOf(tx.call.request)];
    && current.revision < I64_MAX
    && tx.flag == Some(current.(revision := current.revision + 1, updatedAt := tx.stamp.updatedAt))
  }

  /** The locks an operation holds when all of its rows are written. */
  ghost predicate AllLocked(tx: Tx) {
    var r := tx.call.request;
    && (r.CreateFlag? || WritesOneFlag(r) ==> FlagLock(FlagOf(r)) in tx.exclusive)
    && (r.PutEnvironment? || r.PublishRuleset? ==> EnvironmentLock(EnvironmentOf(r)) in tx.exclusive)
    && (Evaluates(r) ==> forall k: nat | k < |EvaluatedKeys(r)| :: SharesFlag(tx, k))
  }

  /** The uncommitted rows are the effect of the sequential decision of this moment. */
  ghost predicate RowsReady(sha: Sha256, store: Store, tx: Tx, response: Response) {
    && AllLocked(tx)
    && Decide(sha, store, tx.call.request).Success?
    && RowsMatch(tx, Decide(sha, store, tx.call.request).value, response)
  }

  ghost predicate RowsMatch(tx: Tx, plan: Plan, response: Response) {
    && |tx.stamp.draws| == |EvaluatedKeys(tx.call.request)|
    && Fits(tx.call.request, plan, tx.stamp)
    && Enact(tx.call, plan, tx.stamp) == Effect(tx.flag, tx.environment, tx.ruleset, tx.receipts, response)
  }

  ghost predicate Facts(sha: Sha256, store: Store, tx: Tx) {
    match tx.phase
    case LookUp => NoRows(tx) && tx.command.None?
    case Admit => NoRows(tx) && tx.command.None?
    case First => Claimed(store, tx) && if Evaluates(tx.call.request) then Progress(sha, store, tx) else NoRows(tx)
    case FlagLocked => Claimed(store, tx) && NoRows(tx) && FlagHeld(store, tx)
    case EnvironmentRead(found) => Claimed(store, tx) && NoRows(tx) && EnvironmentFacts(store, tx, found)
    case EnvironmentLocked => Claimed(store, tx) && NoRows(tx) && FlagHeld(store, tx) && EnvironmentHeld(store, tx)
    case Numbered(next) =>
      && Claimed(store, tx) && NoRows(tx) && FlagHeld(store, tx) && EnvironmentHeld(store, tx)
      && var r := tx.call.request;
         next == Latest(store.rulesets, r.org, r.flagKey, r.environmentKey) + 1 <= I64_MAX
    case RulesetInserted =>
      Claimed(store, tx) && FlagHeld(store, tx) && EnvironmentHeld(store, tx) && RulesetPending(store, tx)
    case FlagBumped =>
      Claimed(store, tx) && FlagHeld(store, tx) && EnvironmentHeld(store, tx) && RulesetPending(store, tx)
        && BumpPending(store, tx)
    case FlagShared(valueType) => Claimed(store, tx) && Progress(sha, store, tx) && HoldsKey(store, tx, valueType)
    case EnvironmentSeen(valueType) =>
      && Claimed(store, tx) && Progress(sha, store, tx) && HoldsKey(store, tx, valueType)
      && EnvironmentOf(tx.call.request) in store.environments
    case Chosen(e) => Claimed(store, tx) && Progress(sha, store, tx) && KeyChosen(sha, store, tx, e)
    case Written => Claimed(store, tx) && ResponseOf(tx).Some? && RowsReady(sha, store, tx, ResponseOf(tx).value)
    case Answered(response) => Claimed(store, tx) && RowsReady(sha, store, tx, response)
    case Replayed(_) => tx.command.None?
  }

  ghost predicate EnvironmentFacts(store: Store, tx: Tx, found: bool) {
    var r := tx.call.request;
    && r.PutEnvironment?
    && if found then
         && EnvironmentLock(EnvironmentOf(r)) in tx.exclusive && EnvironmentOf(r) in store.environments
         && r.expected == Some(store.environments[EnvironmentOf(r)].revision)
       else r.expected.None?
  }

  ghost predicate KeyChosen(sha: Sha256, store: Store, tx: Tx, e: Evaluated) {
    var r := tx.call.request;
    && Evaluates(r) && |tx.evaluated| < |EvaluatedKeys(r)| && SharesFlag(tx, |tx.evaluated|)
    && EvaluateKey(sha, store, r.org, r.environmentKey, CurrentKey(tx), r.context) == Success(e)
  }

  // ----------------------------------------------------------- statements keep them

  lemma FlagRowsReady(sha: Sha256, store: Store, tx: Tx)
    requires tx.call.request.CreateFlag? || tx.call.request.UpdateFlag? || tx.call.request.ArchiveFlag?
    requires AllLocked(tx) && tx.flag.Some? && Decide(sha, store, tx.call.request).Success?
    requires tx.environment.None? && tx.ruleset.None? && tx.receipts == [] && tx.stamp.draws == []
    requires var plan := Decide(sha, store, tx.call.request).value;
             Fits(tx.call.request, plan, tx.stamp) && Enact(tx.call, plan, tx.stamp).flag == tx.flag
    ensures RowsReady(sha, store, tx, FlagResponse(tx.flag.value))
  {
  }

  lemma InsertFlagKeeps(sha: Sha256, t: Tables, tx: Tx, tick: Tick)
    requires Facts(sha, t.store, tx) && tx.phase.First? && tx.call.request.CreateFlag?
    requires InsertFlagStatement(t, tx, tick).Continue?
    ensures Facts(sha, t.store, Locked(t, tx, InsertFlagStatement(t, tx, tick).tx))
  {
    var after := Locked(t, tx, InsertFlagStatement(t, tx, tick).tx);
    FlagRowsReady(sha, t.store, after);
  }

  lemma UpdateFlagKeeps(sha: Sha256, t: Tables, tx: Tx, tick: Tick)
    requires Facts(sha, t.store, tx) && tx.phase.FlagLocked? && !tx.call.request.PublishRuleset?
    requires UpdateFlagStatement(t, tx, tick).Continue?
    ensures Facts(sha, t.store, Locked(t, tx, UpdateFlagStatement(t, tx, tick).tx))
  {
    var after := Locked(t, tx, UpdateFlagStatement(t, tx, tick).tx);
    FlagRowsReady(sha, t.store, after);
  }

  lemma WriteEnvironmentKeeps(sha: Sha256, t: Tables, tx: Tx, tick: Tick, found: bool)
    requires Facts(sha, t.store, tx) && tx.phase == EnvironmentRead(found)
    requires WriteEnvironmentStatement(t, tx, tick, found).Continue?
    ensures Facts(sha, t.store, Locked(t, tx, WriteEnvironmentStatement(t, tx, tick, found).tx))
  {
    var after := Locked(t, tx, WriteEnvironmentStatement(t, tx, tick, found).tx);
    assert RowsReady(sha, t.store, after, EnvironmentResponse(after.environment.value));
  }

  lemma PublicationDecided(sha: Sha256, store: Store, tx: Tx)
    requires FlagHeld(store, tx) && EnvironmentHeld(store, tx) && RulesetPending(store, tx) && BumpPending(store, tx)
    requires store.environments[EnvironmentOf(tx.call.request)].revision < I64_MAX
    ensures var r := tx.call.request;
            Decide(sha, store, r)
            == Success(Publication(store.flags[FlagOf(r)], store.environments[EnvironmentOf(r)],
                                   Latest(store.rulesets, r.org, r.flagKey, r.environmentKey)))
  {
  }

  lemma PublicationRowsMatch(tx: Tx, flag: FlagRecord, environment: EnvironmentRecord, latest: int)
    requires tx.call.request.PublishRuleset? && tx.receipts == [] && tx.stamp.draws == []
    requires tx.flag == Some(flag.(revision := flag.revision + 1, updatedAt := tx.stamp.updatedAt))
    requires tx.environment
             == Some(environment.(revision := environment.revision + 1, updatedAt := tx.stamp.environmentAt))
    requires var r := tx.call.request;
             tx.ruleset == Some(NewRuleset(RulesetId(r.org, r.flagKey, r.environmentKey, latest + 1),
                                           RulesetRow(r.definition, tx.call.command.actor, tx.stamp.publishedAt)))
    ensures ResponseOf(tx).Some? && RowsMatch(tx, Publication(flag, environment, latest), ResponseOf(tx).value)
  {
  }

  lemma PublicationReady(sha: Sha256, store: Store, tx: Tx, after: Tx, at: Time)
    requires FlagHeld(store, tx) && EnvironmentHeld(store, tx) && RulesetPending(store, tx) && BumpPending(store, tx)
    requires var current := store.environments[EnvironmentOf(tx.call.request)];
             && current.revision < I64_MAX
             && after == tx.(phase := Written,
                             environment := Some(current.(revision := current.revision + 1, updatedAt := at)),
                             stamp := tx.stamp.(environmentAt := at))
    ensures ResponseOf(after).Some? && RowsReady(sha, store, after, ResponseOf(after).value)
  {
    var r := tx.call.request;
    PublicationDecided(sha, store, tx);
    PublicationRowsMatch(after, store.flags[FlagOf(r)], store.environments[EnvironmentOf(r)],
                         Latest(store.rulesets, r.org, r.flagKey, r.environmentKey));
  }

  lemma WrittenFacts(sha: Sha256, store: Store, tx: Tx, after: Tx)
    requires Claimed(store, tx) && !tx.phase.Answered? && after.phase.Written? && after.command == tx.command
    requires after.call == tx.call && tx.exclusive <= after.exclusive
    requires ResponseOf(after).Some? && RowsReady(sha, store, after, ResponseOf(after).value)
    ensures Facts(sha, store, after)
  {
  }

  lemma BumpEnvironmentKeeps(sha: Sha256, t: Tables, tx: Tx, tick: Tick)
    requires Claimed(t.store, tx) && FlagHeld(t.store, tx) && EnvironmentHeld(t.store, tx)
    requires RulesetPending(t.store, tx) && BumpPending(t.store, tx) && tx.phase.FlagBumped?
    requires BumpEnvironmentStatement(t, tx, tick).Continue?
    ensures Facts(sha, t.store, Locked(t, tx, BumpEnvironmentStatement(t, tx, tick).tx))
  {
    var after := Locked(t, tx, BumpEnvironmentStatement(t, tx, tick).tx);
    assert after.exclusive == tx.exclusive && after.shared == tx.shared;
    PublicationReady(sha, t.store, tx, after, tick.at);
    WrittenFacts(sha, t.store, tx, after);
  }

  lemma LockEnvironmentKeeps(sha: Sha256, t: Tables, tx: Tx)
    requires Claimed(t.store, tx) && NoRows(tx) && FlagHeld(t.store, tx) && tx.phase.FlagLocked?
             && tx.call.request.PublishRuleset?
    requires LockEnvironmentStatement(t, tx).Continue?
    ensures Facts(sha, t.store, Locked(t, tx, LockEnvironmentStatement(t, tx).tx))
  {
  }

  lemma NumberKeeps(sha: Sha256, t: Tables, tx: Tx)
    requires Claimed(t.store, tx) && NoRows(tx) && FlagHeld(t.store, tx) && EnvironmentHeld(t.store, tx)
             && tx.phase.EnvironmentLocked?
    requires NumberStatement(t, tx).Continue?
    ensures Facts(sha, t.store, Locked(t, tx, NumberStatement(t, tx).tx))
  {
  }

  lemma InsertRulesetKeeps(sha: Sha256, t: Tables, tx: Tx, tick: Tick, next: int)
    requires Facts(sha, t.store, tx) && tx.phase == Numbered(next)
             && InsertRulesetStatement(t, tx, tick, next).Continue?
    ensures Facts(sha, t.store, Locked(t, tx, InsertRulesetStatement(t, tx, tick, next).tx))
  {
  }

  lemma BumpFlagKeeps(sha: Sha256, t: Tables, tx: Tx, tick: Tick)
    requires Claimed(t.store, tx) && FlagHeld(t.store, tx) && EnvironmentHeld(t.store, tx)
             && RulesetPending(t.store, tx)
    requires tx.phase.RulesetInserted? && BumpFlagStatement(t, tx, tick).Continue?
    ensures Facts(sha, t.store, Locked(t, tx, BumpFlagStatement(t, tx, tick).tx))
  {
    var after := Locked(t, tx, BumpFlagStatement(t, tx, tick).tx);
    assert after.exclusive == tx.exclusive && after.shared == tx.shared && after.ruleset == tx.ruleset;
    assert Claimed(t.store, after) && FlagHeld(t.store, after) && EnvironmentHeld(t.store, after);
    assert BumpPending(t.store, after);
  }

  /** The current key reads the same as `EvaluateKey` on the rows of this moment. */
  lemma ChooseKeeps(sha: Sha256, t: Tables, tx: Tx, valueType: ValueType)
    requires Facts(sha, t.store, tx) && tx.phase == EnvironmentSeen(valueType)
    ensures match ChooseStatement(sha, t, tx, valueType)
            case Continue(after) => after.phase.Chosen? && KeyChosen(sha, t.store, tx, after.phase.evaluated)
            case Stop(error) =>
              EvaluateKey(sha, t.store, tx.call.request.org, tx.call.request.environmentKey, CurrentKey(tx),
                          tx.call.request.context) == Failure(error)
  {
  }

  lemma KeysExtend(sha: Sha256, store: Store, r: Request, n: nat, evaluated: seq<Evaluated>, e: Evaluated)
    requires Evaluates(r) && n < |EvaluatedKeys(r)|
    requires EvaluateKeys(sha, store, r.org, r.environmentKey, EvaluatedKeys(r)[..n], r.context) == Success(evaluated)
    requires EvaluateKey(sha, store, r.org, r.environmentKey, EvaluatedKeys(r)[n], r.context) == Success(e)
    ensures EvaluateKeys(sha, store, r.org, r.environmentKey, EvaluatedKeys(r)[..n + 1], r.context)
            == Success(evaluated + [e])
  {
    OneMoreKey(sha, store, r.org, r.environmentKey, EvaluatedKeys(r), r.context, n);
  }

  function WithKey(init: StorageResult<seq<Evaluated>>, last: StorageResult<Evaluated>): StorageResult<seq<Evaluated>> {
    var evaluated :- init;
    var e :- last;
    Success(evaluated + [e])
  }

  /** One more key, after the first `n`. */
  lemma OneMoreKey(sha: Sha256, store: Store, org: Text, environmentKey: Text, keys: seq<Text>, context: Context,
                   n: nat)
    requires n < |keys|
    ensures EvaluateKeys(sha, store, org, environmentKey, keys[..n + 1], context)
            == WithKey(EvaluateKeys(sha, store, org, environmentKey, keys[..n], context),
                       EvaluateKey(sha, store, org, environmentKey, keys[n], context))
  {
    PrefixGrows(keys, n);
    LastKey(sha, store, org, environmentKey, keys[..n], context, keys[n]);
  }

  lemma PrefixGrows(keys: seq<Text>, n: nat)
    requires n < |keys|
    ensures keys[..n + 1] == keys[..n] + [keys[n]]
  {
  }

  lemma LastKey(sha: Sha256, store: Store, org: Text, environmentKey: Text, init: seq<Text>, context: Context,
                key: Text)
    ensures EvaluateKeys(sha, store, org, environmentKey, init + [key], context)
            == WithKey(EvaluateKeys(sha, store, org, environmentKey, init, context),
                       EvaluateKey(sha, store, org, environmentKey, key, context))
  {
    assert (init + [key])[..|init|] == init;
  }

  lemma SharesExtend(tx: Tx, after: Tx, n: nat)
    requires after.call == tx.call && tx.shared <= after.shared && n < |EvaluatedKeys(tx.call.request)|
    requires (forall k: nat | k < n :: SharesFlag(tx, k)) && SharesFlag(tx, n)
    ensures forall k: nat | k < n + 1 :: SharesFlag(after, k)
  {
    forall k: nat | k < n + 1 ensures SharesFlag(after, k) {
      assert SharesFlag(tx, k);
    }
  }

  lemma ProgressExtends(sha: Sha256, store: Store, tx: Tx, after: Tx, e: Evaluated, tick: Tick)
    requires Progress(sha, store, tx) && KeyChosen(sha, store, tx, e)
    requires after.call == tx.call && tx.shared <= after.shared
    requires after.flag.None? && after.environment.None? && after.ruleset.None?
    requires after.evaluated == tx.evaluated + [e]
    requires after.stamp.draws == tx.stamp.draws + [Draw(tick.receiptId, tick.at, tick.rowSeq)]
    requires after.receipts == tx.receipts + [NewReceipt(tx, tick, e)]
    requires after.records
             == tx.records + [RecordOf(tx.call.request.environmentKey, e, Draw(tick.receiptId, tick.at, tick.rowSeq))]
    ensures Progress(sha, store, after)
  {
    var r, n := tx.call.request, |tx.evaluated|;
    KeysExtend(sha, store, r, n, tx.evaluated, e);
    SharesExtend(tx, after, n);
    ReceiptRowsGrow(tx.call, r.environmentKey, r.context.hash, tx.evaluated, tx.stamp.draws, e,
                    Draw(tick.receiptId, tick.at, tick.rowSeq));
  }

  lemma ReceiptRowsGrow(call: Call, environmentKey: Text, hash: Text, evaluated: seq<Evaluated>, draws: seq<Draw>,
                        e: Evaluated, draw: Draw)
    requires |evaluated| == |draws|
    ensures Records(environmentKey, evaluated + [e], draws + [draw])
            == Records(environmentKey, evaluated, draws) + [RecordOf(environmentKey, e, draw)]
    ensures ReceiptRows(call, environmentKey, hash, evaluated + [e], draws + [draw])
            == ReceiptRows(call, environmentKey, hash, evaluated, draws)
               + [ReceiptRow(draw.rowSeq, call.request.org, call.command.caller, call.command.actor,
                             OperationOf(call.request),
                             ReceiptOf(call, environmentKey, hash, |evaluated|, e, draw))]
  {
  }

  lemma InsertReceiptKeeps(sha: Sha256, t: Tables, tx: Tx, tick: Tick, e: Evaluated)
    requires Facts(sha, t.store, tx) && tx.phase == Chosen(e)
    requires InsertReceiptStatement(t, tx, tick, e).Continue?
    ensures Facts(sha, t.store, Locked(t, tx, InsertReceiptStatement(t, tx, tick, e).tx))
  {
    ProgressExtends(sha, t.store, tx, Locked(t, tx, InsertReceiptStatement(t, tx, tick, e).tx), e, tick);
  }

  /** At the end of the loop the evaluations are the sequential decision. */
  lemma LoopEnds(sha: Sha256, store: Store, tx: Tx)
    requires Progress(sha, store, tx) && |tx.evaluated| == |EvaluatedKeys(tx.call.request)|
    ensures ResponseOf(tx).Some? && RowsReady(sha, store, tx, ResponseOf(tx).value)
  {
    var r := tx.call.request;
    assert EvaluatedKeys(r)[..|tx.evaluated|] == EvaluatedKeys(r);
    assert Decide(sha, store, r) == Success(Evaluations(tx.evaluated));
  }

  lemma ProgressUnlocked(sha: Sha256, store: Store, tx: Tx, after: Tx)
    requires Progress(sha, store, tx) && tx.shared <= after.shared
    requires after.(phase := tx.phase, exclusive := tx.exclusive, shared := tx.shared) == tx
    ensures Progress(sha, store, after)
  {
    forall k: nat | k < |after.evaluated| ensures SharesFlag(after, k) {
      assert SharesFlag(tx, k);
    }
  }

  lemma ShareFlagKeeps(sha: Sha256, t: Tables, tx: Tx)
    requires Facts(sha, t.store, tx) && tx.phase.First? && Evaluates(tx.call.request)
    requires ShareFlagStatement(t, tx).Continue?
    ensures Facts(sha, t.store, Locked(t, tx, ShareFlagStatement(t, tx).tx))
  {
    var after := Locked(t, tx, ShareFlagStatement(t, tx).tx);
    ProgressUnlocked(sha, t.store, tx, after);
    if after.phase.Written? {
      LoopEnds(sha, t.store, after);
    }
  }

  lemma EvaluationStatementKeeps(sha: Sha256, t: Tables, tx: Tx, tick: Tick)
    requires Facts(sha, t.store, tx) && PhaseFits(tx)
    requires tx.phase.FlagShared? || tx.phase.EnvironmentSeen? || tx.phase.Chosen?
    requires Statement(sha, t, tx, tick, 0).Continue?
    ensures Facts(sha, t.store, Locked(t, tx, Statement(sha, t, tx, tick, 0).tx))
  {
    var after := Locked(t, tx, Statement(sha, t, tx, tick, 0).tx);
    if tx.phase.Chosen? {
      InsertReceiptKeeps(sha, t, tx, tick, tx.phase.evaluated);
    } else {
      ProgressUnlocked(sha, t.store, tx, after);
      if tx.phase.EnvironmentSeen? {
        ChooseKeeps(sha, t, tx, tx.phase.valueType);
      }
    }
  }

  lemma FirstStatementKeeps(sha: Sha256, t: Tables, tx: Tx, tick: Tick)
    requires Facts(sha, t.store, tx) && tx.phase.First? && FirstStatement(t, tx, tick).Continue?
    ensures Facts(sha, t.store, Locked(t, tx, FirstStatement(t, tx, tick).tx))
  {
    var r := tx.call.request;
    if r.CreateFlag? {
      InsertFlagKeeps(sha, t, tx, tick);
    } else if Evaluates(r) {
      ShareFlagKeeps(sha, t, tx);
    }
  }

  lemma AdmitKeeps(sha: Sha256, t: Tables, tx: Tx)
    requires Facts(sha, t.store, tx) && tx.phase.Admit? && AdmitStatement(t, tx).Continue?
    ensures Facts(sha, t.store, Locked(t, tx, AdmitStatement(t, tx).tx))
  {
    var r := tx.call.request;
    assert EvaluatedKeys(r)[..0] == [];
  }

  lemma PublicationStatementKeeps(sha: Sha256, t: Tables, tx: Tx, tick: Tick)
    requires Facts(sha, t.store, tx) && tx.call.request.PublishRuleset? && PhaseFits(tx)
    requires tx.phase.FlagLocked? || tx.phase.EnvironmentLocked? || tx.phase.Numbered? || tx.phase.RulesetInserted?
             || tx.phase.FlagBumped?
    requires Statement(sha, t, tx, tick, 0).Continue?
    ensures Facts(sha, t.store, Locked(t, tx, Statement(sha, t, tx, tick, 0).tx))
  {
    match tx.phase
    case FlagLocked => LockEnvironmentKeeps(sha, t, tx);
    case EnvironmentLocked => NumberKeeps(sha, t, tx);
    case Numbered(next) => InsertRulesetKeeps(sha, t, tx, tick, next);
    case RulesetInserted => BumpFlagKeeps(sha, t, tx, tick);
    case FlagBumped => BumpEnvironmentKeeps(sha, t, tx, tick);
  }

  lemma WriteStatementKeeps(sha: Sha256, t: Tables, tx: Tx, tick: Tick)
    requires Facts(sha, t.store, tx) && PhaseFits(tx)
    requires tx.phase.FlagLocked? || tx.phase.EnvironmentRead? || tx.phase.EnvironmentLocked? || tx.phase.Numbered?
             || tx.phase.RulesetInserted? || tx.phase.FlagBumped?
    requires Statement(sha, t, tx, tick, 0).Continue?
    ensures Facts(sha, t.store, Locked(t, tx, Statement(sha, t, tx, tick, 0).tx))
  {
    if tx.phase.EnvironmentRead? {
      WriteEnvironmentKeeps(sha, t, tx, tick, tx.phase.found);
    } else if tx.call.request.PublishRuleset? {
      PublicationStatementKeeps(sha, t, tx, tick);
    } else {
      UpdateFlagKeeps(sha, t, tx, tick);
    }
  }

  lemma StatementFits(sha: Sha256, t: Tables, tx: Tx, tick: Tick, position: nat)
    requires PhaseFits(tx) && !tx.phase.Answered? && !tx.phase.Replayed?
    requires Statement(sha, t, tx, tick, position).Continue?
    ensures PhaseFits(Statement(sha, t, tx, tick, position).tx)
  {
  }

  lemma FinishKeeps(sha: Sha256, t: Tables, tx: Tx)
    requires Facts(sha, t.store, tx) && tx.phase.Written?
    ensures FinishStatement(tx).Continue? && Facts(sha, t.store, Locked(t, tx, FinishStatement(tx).tx))
  {
    var after := Locked(t, tx, FinishStatement(tx).tx);
    assert after.exclusive == tx.exclusive && after.shared == tx.shared;
    ReadyAnyPhase(sha, t.store, tx, after, after.phase.response);
  }

  lemma ReadyAnyPhase(sha: Sha256, store: Store, tx: Tx, after: Tx, response: Response)
    requires RowsReady(sha, store, tx, response) && after.(phase := tx.phase, command := tx.command) == tx
    ensures RowsReady(sha, store, after, response)
  {
    assert AllLocked(after) by {
      forall k: nat | Evaluates(tx.call.request) && k < |EvaluatedKeys(tx.call.request)| ensures SharesFlag(after, k) {
        assert SharesFlag(tx, k);
      }
    }
  }

  lemma LookUpKeeps(sha: Sha256, t: Tables, tx: Tx, position: nat)
    requires Facts(sha, t.store, tx) && tx.phase.LookUp? && LookUpStatement(t, tx, position).Continue?
    ensures Facts(sha, t.store, Locked(t, tx, LookUpStatement(t, tx, position).tx))
  {
  }

  /** A statement that goes on leaves its transaction with facts again. */
  lemma StatementKeeps(sha: Sha256, t: Tables, tx: Tx, tick: Tick, position: nat)
    requires Facts(sha, t.store, tx) && PhaseFits(tx) && !tx.phase.Answered? && !tx.phase.Replayed?
    requires Statement(sha, t, tx, tick, position).Continue?
    ensures Facts(sha, t.store, Locked(t, tx, Statement(sha, t, tx, tick, position).tx))
  {
    match tx.phase
    case LookUp => LookUpKeeps(sha, t, tx, position);
    case Admit => AdmitKeeps(sha, t, tx);
    case First => FirstStatementKeeps(sha, t, tx, tick);
    case Written => FinishKeeps(sha, t, tx);
    case FlagShared(_) => EvaluationStatementKeeps(sha, t, tx, tick);
    case EnvironmentSeen(_) => EvaluationStatementKeeps(sha, t, tx, tick);
    case Chosen(_) => EvaluationStatementKeeps(sha, t, tx, tick);
    case _ => WriteStatementKeeps(sha, t, tx, tick);
  }

  lemma SameCall(sha: Sha256, t: Tables, tx: Tx, tick: Tick, position: nat)
    requires PhaseFits(tx) && !tx.phase.Answered? && !tx.phase.Replayed?
    requires Statement(sha, t, tx, tick, position).Continue?
    ensures var after := Statement(sha, t, tx, tick, position).tx;
            && after.call == tx.call
            && |after.evaluated| == |tx.evaluated| + (if tx.phase.Chosen? then 1 else 0)
            && after.stamp.draws == if tx.phase.Chosen?
                                    then tx.stamp.draws + [Draw(tick.receiptId, tick.at, tick.rowSeq)]
                                    else tx.stamp.draws
  {
  }

  /** A row that may stand beside these: its id and its use are new. */
  ghost predicate NewUse(rows: seq<ReceiptRow>, row: ReceiptRow) {
    forall i | 0 <= i < |rows| ::
      && rows[i].receipt.receiptId != row.receipt.receiptId
      && (rows[i].caller, rows[i].actor, rows[i].operation, rows[i].receipt.evaluationId, rows[i].receipt.flagKey)
         != (row.caller, row.actor, row.operation, row.receipt.evaluationId, row.receipt.flagKey)
  }

  /** A statement that goes on has inserted nothing that the schema forbids beside the committed rows. */
  lemma StatementsObeySchema(sha: Sha256, t: Tables, tx: Tx, tick: Tick, position: nat)
    requires PhaseFits(tx) && !tx.phase.Answered? && !tx.phase.Replayed?
    requires Statement(sha, t, tx, tick, position).Continue?
    ensures var r, after := tx.call.request, Statement(sha, t, tx, tick, position).tx;
            && (tx.phase.Admit? ==> IdOf(tx.call) !in t.store.commands && IdOf(tx.call) !in t.unanswered)
            && (tx.phase.First? && r.CreateFlag? ==>
                  && FlagId(r.org, r.flagKey) !in t.store.flags
                  && r.valueType in {Boolean, String, Integer, Double, Json})
            && (tx.phase == EnvironmentRead(false) ==> EnvironmentId(r.org, r.environmentKey) !in t.store.environments)
            && (tx.phase.Numbered? && after.ruleset.Some? ==>
                  var id := after.ruleset.value.id;
                  && id !in t.store.rulesets && id.revision > 0 && !HasNul(after.ruleset.value.row.definition)
                  && FlagId(id.org, id.flagKey) in t.store.flags
                  && EnvironmentId(id.org, id.environmentKey) in t.store.environments)
            && (tx.phase.Chosen? ==>
                  && |after.receipts| == |tx.receipts| + 1
                  && NewUse(t.store.receipts, after.receipts[|tx.receipts|])
                  && NewUse(tx.receipts, after.receipts[|tx.receipts|]))
  {
  }

  // ------------------------------------------------ errors are sequential answers

  /** What the columns of PostgreSQL refuse; the sequential store does not look at it. */
  predicate Unsupported(r: Request) {
    || (r.CreateFlag? && r.valueType.UnknownType?)
    || (r.PublishRuleset? && HasNul(r.definition))
  }

  /**
    PostgreSQL refuses a command that the sequential store would carry out: a
    new flag is refused before its key is looked at, a ruleset after all checks.
   */
  ghost predicate Refused(sha: Sha256, store: Store, call: Call) {
    && Replay(store.commands, call).None? && Unsupported(call.request)
    && (call.request.PublishRuleset? ==> Decide(sha, store, call.request).Success?)
  }

  /** The error is what the sequential store would say on the rows of this moment. */
  ghost predicate Sequential(sha: Sha256, store: Store, call: Call, error: StorageError) {
    || Verdict(sha, store, call) == Some(Failure(error))
    || (Refused(sha, store, call) && error == Backend)
  }

  lemma RefusedNow(sha: Sha256, store: Store, tx: Tx, error: StorageError)
    requires Claimed(store, tx) && Decide(sha, store, tx.call.request) == Failure(error)
    ensures Sequential(sha, store, tx.call, error)
  {
  }

  lemma LockFlagStops(sha: Sha256, t: Tables, tx: Tx)
    requires Claimed(t.store, tx) && WritesOneFlag(tx.call.request) && LockFlagStatement(t, tx).Stop?
    ensures Sequential(sha, t.store, tx.call, LockFlagStatement(t, tx).error)
  {
    RefusedNow(sha, t.store, tx, LockFlagStatement(t, tx).error);
  }

  lemma InsertFlagStops(sha: Sha256, t: Tables, tx: Tx, tick: Tick)
    requires Claimed(t.store, tx) && tx.call.request.CreateFlag? && InsertFlagStatement(t, tx, tick).Stop?
    ensures Sequential(sha, t.store, tx.call, InsertFlagStatement(t, tx, tick).error)
  {
  }

  lemma ReadEnvironmentStops(sha: Sha256, t: Tables, tx: Tx)
    requires Claimed(t.store, tx) && tx.call.request.PutEnvironment? && ReadEnvironmentStatement(t, tx).Stop?
    ensures Sequential(sha, t.store, tx.call, ReadEnvironmentStatement(t, tx).error)
  {
    RefusedNow(sha, t.store, tx, ReadEnvironmentStatement(t, tx).error);
  }

  lemma WriteEnvironmentStops(sha: Sha256, t: Tables, tx: Tx, tick: Tick, found: bool)
    requires Claimed(t.store, tx) && EnvironmentFacts(t.store, tx, found)
    requires WriteEnvironmentStatement(t, tx, tick, found).Stop?
    ensures Sequential(sha, t.store, tx.call, WriteEnvironmentStatement(t, tx, tick, found).error)
  {
  }

  lemma LockEnvironmentStops(sha: Sha256, t: Tables, tx: Tx)
    requires Claimed(t.store, tx) && FlagHeld(t.store, tx) && tx.call.request.PublishRuleset?
    requires LockEnvironmentStatement(t, tx).Stop?
    ensures Sequential(sha, t.store, tx.call, LockEnvironmentStatement(t, tx).error)
  {
    RefusedNow(sha, t.store, tx, LockEnvironmentStatement(t, tx).error);
  }

  /** The first key that fails decides the whole batch. */
  lemma KeyFails(sha: Sha256, store: Store, tx: Tx, error: StorageError)
    requires Claimed(store, tx) && Progress(sha, store, tx) && |tx.evaluated| < |EvaluatedKeys(tx.call.request)|
    requires EvaluateKey(sha, store, tx.call.request.org, tx.call.request.environmentKey, CurrentKey(tx),
                         tx.call.request.context)
             == Failure(error)
    ensures Sequential(sha, store, tx.call, error)
  {
    var r, n := tx.call.request, |tx.evaluated|;
    KeysFail(sha, store, r, n, error);
    FailureStays(sha, store, r, n + 1);
    RefusedNow(sha, store, tx, error);
  }

  lemma KeysFail(sha: Sha256, store: Store, r: Request, n: nat, error: StorageError)
    requires Evaluates(r) && n < |EvaluatedKeys(r)|
    requires EvaluateKeys(sha, store, r.org, r.environmentKey, EvaluatedKeys(r)[..n], r.context).Success?
    requires EvaluateKey(sha, store, r.org, r.environmentKey, EvaluatedKeys(r)[n], r.context) == Failure(error)
    ensures EvaluateKeys(sha, store, r.org, r.environmentKey, EvaluatedKeys(r)[..n + 1], r.context) == Failure(error)
  {
    OneMoreKey(sha, store, r.org, r.environmentKey, EvaluatedKeys(r), r.context, n);
  }

  lemma {:induction false} FailureStays(sha: Sha256, store: Store, r: Request, n: nat)
    requires Evaluates(r) && n <= |EvaluatedKeys(r)|
    requires EvaluateKeys(sha, store, r.org, r.environmentKey, EvaluatedKeys(r)[..n], r.context).Failure?
    ensures EvaluateKeys(sha, store, r.org, r.environmentKey, EvaluatedKeys(r), r.context)
            == EvaluateKeys(sha, store, r.org, r.environmentKey, EvaluatedKeys(r)[..n], r.context)
    decreases |EvaluatedKeys(r)| - n
  {
    if n == |EvaluatedKeys(r)| {
      assert EvaluatedKeys(r)[..n] == EvaluatedKeys(r);
    } else {
      OneMoreKey(sha, store, r.org, r.environmentKey, EvaluatedKeys(r), r.context, n);
      FailureStays(sha, store, r, n + 1);
    }
  }

  /** No receipt has the id that is about to be used. */
  predicate FreshId(store: Store, tx: Tx, receiptId: Text) {
    && (forall i | 0 <= i < |store.receipts| :: store.receipts[i].receipt.receiptId != receiptId)
    && (forall i | 0 <= i < |tx.stamp.draws| :: tx.stamp.draws[i].receiptId != receiptId)
  }

  /** Neither the primary key nor the UNIQUE constraint of receipts can fail. */
  lemma ReceiptsNeverCollide(sha: Sha256, store: Store, tx: Tx, tick: Tick, e: Evaluated)
    requires Claimed(store, tx) && Progress(sha, store, tx) && ReceiptsInv(store) && FreshId(store, tx, tick.receiptId)
    requires |tx.evaluated| < |EvaluatedKeys(tx.call.request)|
    ensures !Collides(store.receipts, NewReceipt(tx, tick, e)) && !Collides(tx.receipts, NewReceipt(tx, tick, e))
  {
    var row, key := NewReceipt(tx, tick, e), tx.call.command.key;
    forall i | 0 <= i < |store.receipts| ensures !Clash(store.receipts[i], row) {
      assert ReceiptInv(store, store.receipts[i]);
      OldAndNewDiffer(store.commands, store.receipts[i], row, key, |tx.evaluated|);
    }
    forall i | 0 <= i < |tx.receipts| ensures !Clash(tx.receipts[i], row) {
      NewAndNewDiffer(tx.receipts[i], row, key, i, |tx.evaluated|);
    }
  }

  lemma EvaluationStops(sha: Sha256, t: Tables, tx: Tx, tick: Tick)
    requires Facts(sha, t.store, tx) && PhaseFits(tx)
    requires tx.phase.FlagShared? || tx.phase.EnvironmentSeen?
    requires Statement(sha, t, tx, tick, 0).Stop?
    ensures Sequential(sha, t.store, tx.call, Statement(sha, t, tx, tick, 0).error)
  {
    if tx.phase.EnvironmentSeen? {
      ChooseKeeps(sha, t, tx, tx.phase.valueType);
    }
    KeyFails(sha, t.store, tx, Statement(sha, t, tx, tick, 0).error);
  }

  lemma UpdateFlagStops(sha: Sha256, t: Tables, tx: Tx, tick: Tick)
    requires Claimed(t.store, tx) && FlagHeld(t.store, tx) && !tx.call.request.PublishRuleset?
    requires UpdateFlagStatement(t, tx, tick).Stop?
    ensures Sequential(sha, t.store, tx.call, UpdateFlagStatement(t, tx, tick).error)
  {
    RefusedNow(sha, t.store, tx, Backend);
  }

  lemma PublicationUsedUp(sha: Sha256, store: Store, tx: Tx)
    requires Claimed(store, tx) && FlagHeld(store, tx) && EnvironmentHeld(store, tx)
    requires var r := tx.call.request;
             || store.flags[FlagOf(r)].revision >= I64_MAX
             || store.environments[EnvironmentOf(r)].revision >= I64_MAX
             || Latest(store.rulesets, r.org, r.flagKey, r.environmentKey) >= I64_MAX
    ensures Sequential(sha, store, tx.call, Backend)
  {
    RefusedNow(sha, store, tx, Backend);
  }

  lemma NumberStops(sha: Sha256, t: Tables, tx: Tx)
    requires Claimed(t.store, tx) && FlagHeld(t.store, tx) && EnvironmentHeld(t.store, tx)
             && NumberStatement(t, tx).Stop?
    ensures Sequential(sha, t.store, tx.call, NumberStatement(t, tx).error)
  {
    PublicationUsedUp(sha, t.store, tx);
  }

  lemma BumpStops(sha: Sha256, t: Tables, tx: Tx, tick: Tick)
    requires Claimed(t.store, tx) && FlagHeld(t.store, tx) && EnvironmentHeld(t.store, tx)
    ensures BumpFlagStatement(t, tx, tick).Stop?
            ==> Sequential(sha, t.store, tx.call, BumpFlagStatement(t, tx, tick).error)
    ensures BumpEnvironmentStatement(t, tx, tick).Stop? ==>
              Sequential(sha, t.store, tx.call, BumpEnvironmentStatement(t, tx, tick).error)
  {
    if BumpFlagStatement(t, tx, tick).Stop? || BumpEnvironmentStatement(t, tx, tick).Stop? {
      PublicationUsedUp(sha, t.store, tx);
    }
  }

  lemma InsertRulesetStops(sha: Sha256, t: Tables, tx: Tx, tick: Tick, next: int)
    requires Claimed(t.store, tx) && FlagHeld(t.store, tx) && EnvironmentHeld(t.store, tx) && RulesetsInv(t.store)
    requires var r := tx.call.request;
             next == Latest(t.store.rulesets, r.org, r.flagKey, r.environmentKey) + 1 <= I64_MAX
    requires InsertRulesetStatement(t, tx, tick, next).Stop?
    ensures Sequential(sha, t.store, tx.call, InsertRulesetStatement(t, tx, tick, next).error)
  {
    var r := tx.call.request;
    RulesetNumberFree(t.store, r.org, r.flagKey, r.environmentKey);
    assert HasNul(r.definition);
    PublicationRefused(sha, t.store, tx);
  }

  /** A ruleset that jsonb refuses: either the sequential store refuses too, or only PostgreSQL does. */
  lemma PublicationRefused(sha: Sha256, store: Store, tx: Tx)
    requires Claimed(store, tx) && FlagHeld(store, tx) && EnvironmentHeld(store, tx)
             && HasNul(tx.call.request.definition)
    ensures Sequential(sha, store, tx.call, Backend)
  {
    var r := tx.call.request;
    if store.flags[FlagOf(r)].revision >= I64_MAX || store.environments[EnvironmentOf(r)].revision >= I64_MAX
       || Latest(store.rulesets, r.org, r.flagKey, r.environmentKey) >= I64_MAX {
      PublicationUsedUp(sha, store, tx);
    } else {
      assert Decide(sha, store, r).Success?;
    }
  }

  /** Publishing fails only when a revision is used up or the ruleset cannot be stored. */
  lemma PublicationStops(sha: Sha256, t: Tables, tx: Tx, tick: Tick)
    requires Facts(sha, t.store, tx) && PhaseFits(tx) && RulesetsInv(t.store)
    requires tx.phase.EnvironmentLocked? || tx.phase.Numbered? || tx.phase.RulesetInserted? || tx.phase.FlagBumped?
    requires Statement(sha, t, tx, tick, 0).Stop?
    ensures Sequential(sha, t.store, tx.call, Statement(sha, t, tx, tick, 0).error)
  {
    if tx.phase.EnvironmentLocked? {
      NumberStops(sha, t, tx);
    } else if tx.phase.Numbered? {
      InsertRulesetStops(sha, t, tx, tick, tx.phase.next);
    } else {
      BumpStops(sha, t, tx, tick);
    }
  }

  lemma RulesetNumberFree(store: Store, org: Text, flagKey: Text, environmentKey: Text)
    requires RulesetsInv(store)
    ensures var latest := Latest(store.rulesets, org, flagKey, environmentKey);
            latest >= 0 && RulesetId(org, flagKey, environmentKey, latest + 1) !in store.rulesets
  {
    LatestIs(store.rulesets, org, flagKey, environmentKey);
    NoGaps(store, org, flagKey, environmentKey, Latest(store.rulesets, org, flagKey, environmentKey));
  }

  lemma FirstStops(sha: Sha256, t: Tables, tx: Tx, tick: Tick)
    requires Facts(sha, t.store, tx) && tx.phase.First? && FirstStatement(t, tx, tick).Stop?
    ensures Sequential(sha, t.store, tx.call, FirstStatement(t, tx, tick).error)
  {
    var r := tx.call.request;
    if r.CreateFlag? {
      InsertFlagStops(sha, t, tx, tick);
    } else if r.PutEnvironment? {
      ReadEnvironmentStops(sha, t, tx);
    } else if Evaluates(r) {
      KeyFails(sha, t.store, tx, ShareFlagStatement(t, tx).error);
    } else {
      LockFlagStops(sha, t, tx);
    }
  }

  lemma LookUpStops(sha: Sha256, t: Tables, tx: Tx, position: nat)
    requires t.unanswered == map[] && LookUpStatement(t, tx, position).Stop?
    ensures Replay(t.store.commands, tx.call) == Some(Failure(LookUpStatement(t, tx, position).error))
    ensures Sequential(sha, t.store, tx.call, LookUpStatement(t, tx, position).error)
  {
  }

  /**
    A statement other than the INSERT of the command stops only with the
    sequential answer: no constraint of the schema is ever violated.
   */
  lemma StatementStops(sha: Sha256, t: Tables, tx: Tx, tick: Tick, position: nat)
    requires Facts(sha, t.store, tx) && PhaseFits(tx) && t.unanswered == map[] && StoreInv(t.store)
    requires tx.phase.Chosen? ==> FreshId(t.store, tx, tick.receiptId)
    requires !tx.phase.Answered? && !tx.phase.Replayed? && !tx.phase.Admit?
    requires Statement(sha, t, tx, tick, position).Stop?
    ensures Sequential(sha, t.store, tx.call, Statement(sha, t, tx, tick, position).error)
  {
    match tx.phase
    case LookUp => LookUpStops(sha, t, tx, position);
    case First => FirstStops(sha, t, tx, tick);
    case FlagLocked =>
      if tx.call.request.PublishRuleset? {
        LockEnvironmentStops(sha, t, tx);
      } else {
        UpdateFlagStops(sha, t, tx, tick);
      }
    case EnvironmentRead(found) => WriteEnvironmentStops(sha, t, tx, tick, found);
    case FlagShared(_) => EvaluationStops(sha, t, tx, tick);
    case EnvironmentSeen(_) => EvaluationStops(sha, t, tx, tick);
    case Chosen(e) => ReceiptsNeverCollide(sha, t.store, tx, tick, e);
    case Written =>
    case _ => PublicationStops(sha, t, tx, tick);
  }

  // --------------------------------------------------- commits of other transactions

  /** Rows change only under an exclusive lock in `locks`; nothing is removed. */
  ghost predicate ChangedUnder(a: Store, b: Store, locks: set<Lock>) {
    && Extends(a, b)
    && (forall id | id in b.flags && FlagLock(id) !in locks :: id in a.flags && a.flags[id] == b.flags[id])
    && (forall id | id in b.environments && EnvironmentLock(id) !in locks ::
          id in a.environments && a.environments[id] == b.environments[id])
    && (forall id | id in b.rulesets && FlagLock(FlagId(id.org, id.flagKey)) !in locks :: id in a.rulesets)
    && (forall id | id in b.commands && CommandLock(id) !in locks :: id in a.commands)
  }

  lemma SameFlag(a: Store, b: Store, locks: set<Lock>, id: FlagId)
    requires ChangedUnder(a, b, locks) && FlagLock(id) !in locks
    ensures (id in a.flags <==> id in b.flags) && (id in a.flags ==> a.flags[id] == b.flags[id])
  {
  }

  lemma SameEnvironment(a: Store, b: Store, locks: set<Lock>, id: EnvironmentId)
    requires ChangedUnder(a, b, locks) && EnvironmentLock(id) !in locks
    ensures (id in a.environments <==> id in b.environments)
    ensures id in a.environments ==> a.environments[id] == b.environments[id]
  {
  }

  lemma SameLatest(a: Store, b: Store, locks: set<Lock>, org: Text, flagKey: Text, environmentKey: Text)
    requires ChangedUnder(a, b, locks) && FlagLock(FlagId(org, flagKey)) !in locks
    ensures Latest(a.rulesets, org, flagKey, environmentKey) == Latest(b.rulesets, org, flagKey, environmentKey)
  {
    assert Revisions(a.rulesets, org, flagKey, environmentKey) == Revisions(b.rulesets, org, flagKey, environmentKey);
  }

  /** While the flag is share-locked, its evaluation cannot change. */
  lemma SameEvaluationOfKey(sha: Sha256, a: Store, b: Store, locks: set<Lock>, r: Request, key: Text)
    requires Evaluates(r) && ChangedUnder(a, b, locks) && FlagLock(FlagId(r.org, key)) !in locks
    requires EvaluateKey(sha, a, r.org, r.environmentKey, key, r.context).Success?
    ensures EvaluateKey(sha, b, r.org, r.environmentKey, key, r.context)
            == EvaluateKey(sha, a, r.org, r.environmentKey, key, r.context)
  {
    SameFlag(a, b, locks, FlagId(r.org, key));
    SameLatest(a, b, locks, r.org, key, r.environmentKey);
  }

  lemma {:induction false} SameEvaluations(sha: Sha256, a: Store, b: Store, locks: set<Lock>, r: Request,
                                           keys: seq<Text>)
    requires Evaluates(r) && ChangedUnder(a, b, locks)
    requires forall k: nat | k < |keys| :: FlagLock(FlagId(r.org, keys[k])) !in locks
    requires EvaluateKeys(sha, a, r.org, r.environmentKey, keys, r.context).Success?
    ensures EvaluateKeys(sha, b, r.org, r.environmentKey, keys, r.context)
            == EvaluateKeys(sha, a, r.org, r.environmentKey, keys, r.context)
  {
    if keys != [] {
      var n := |keys| - 1;
      SameEvaluations(sha, a, b, locks, r, keys[..n]);
      SameEvaluationOfKey(sha, a, b, locks, r, keys[n]);
    }
  }

  ghost predicate Disjoint(tx: Tx, locks: set<Lock>) {
    tx.exclusive !! locks && tx.shared !! locks
  }

  lemma ClaimStays(a: Store, b: Store, tx: Tx, locks: set<Lock>)
    requires ChangedUnder(a, b, locks) && Disjoint(tx, locks) && Claimed(a, tx)
    ensures Claimed(b, tx)
  {
  }

  lemma SharedIsFree(tx: Tx, locks: set<Lock>, k: nat)
    requires Disjoint(tx, locks) && k < |EvaluatedKeys(tx.call.request)| && SharesFlag(tx, k)
    ensures FlagLock(FlagId(tx.call.request.org, EvaluatedKeys(tx.call.request)[k])) !in locks
  {
  }

  lemma ProgressStays(sha: Sha256, a: Store, b: Store, tx: Tx, locks: set<Lock>)
    requires ChangedUnder(a, b, locks) && Disjoint(tx, locks) && Progress(sha, a, tx)
    ensures Progress(sha, b, tx)
  {
    var r, n := tx.call.request, |tx.evaluated|;
    forall k: nat | k < n ensures FlagLock(FlagId(r.org, EvaluatedKeys(r)[..n][k])) !in locks {
      SharedIsFree(tx, locks, k);
    }
    SameEvaluations(sha, a, b, locks, r, EvaluatedKeys(r)[..n]);
  }

  lemma FlagHeldStays(a: Store, b: Store, tx: Tx, locks: set<Lock>)
    requires ChangedUnder(a, b, locks) && Disjoint(tx, locks) && FlagHeld(a, tx)
    ensures FlagHeld(b, tx) && b.flags[FlagOf(tx.call.request)] == a.flags[FlagOf(tx.call.request)]
  {
    SameFlag(a, b, locks, FlagOf(tx.call.request));
  }

  lemma EnvironmentHeldStays(a: Store, b: Store, tx: Tx, locks: set<Lock>)
    requires ChangedUnder(a, b, locks) && Disjoint(tx, locks) && EnvironmentHeld(a, tx)
    ensures EnvironmentHeld(b, tx)
  {
    SameEnvironment(a, b, locks, EnvironmentOf(tx.call.request));
  }

  lemma LatestStays(a: Store, b: Store, tx: Tx, locks: set<Lock>)
    requires ChangedUnder(a, b, locks) && Disjoint(tx, locks) && FlagHeld(a, tx) && tx.call.request.PublishRuleset?
    ensures var r := tx.call.request;
            Latest(b.rulesets, r.org, r.flagKey, r.environmentKey)
              == Latest(a.rulesets, r.org, r.flagKey, r.environmentKey)
  {
    SameLatest(a, b, locks, tx.call.request.org, tx.call.request.flagKey, tx.call.request.environmentKey);
  }

  /** What the decision read is locked, so the decision stands. */
  lemma DecisionStays(sha: Sha256, a: Store, b: Store, tx: Tx, locks: set<Lock>)
    requires ChangedUnder(a, b, locks) && Disjoint(tx, locks) && AllLocked(tx)
    requires Decide(sha, a, tx.call.request).Success?
    ensures Decide(sha, b, tx.call.request) == Decide(sha, a, tx.call.request)
  {
    var r := tx.call.request;
    if Evaluates(r) {
      forall k: nat | k < |EvaluatedKeys(r)| ensures FlagLock(FlagId(r.org, EvaluatedKeys(r)[k])) !in locks {
        SharedIsFree(tx, locks, k);
      }
      SameEvaluations(sha, a, b, locks, r, EvaluatedKeys(r));
    } else if r.PutEnvironment? {
      SameEnvironment(a, b, locks, EnvironmentOf(r));
    } else {
      SameFlag(a, b, locks, FlagOf(r));
      if r.PublishRuleset? {
        SameEnvironment(a, b, locks, EnvironmentOf(r));
        SameLatest(a, b, locks, r.org, r.flagKey, r.environmentKey);
      }
    }
  }

  lemma RowsStay(sha: Sha256, a: Store, b: Store, tx: Tx, locks: set<Lock>, response: Response)
    requires ChangedUnder(a, b, locks) && Disjoint(tx, locks) && RowsReady(sha, a, tx, response)
    ensures RowsReady(sha, b, tx, response)
  {
    DecisionStays(sha, a, b, tx, locks);
  }

  lemma EvaluationFactsStay(sha: Sha256, a: Store, b: Store, tx: Tx, locks: set<Lock>)
    requires ChangedUnder(a, b, locks) && Disjoint(tx, locks) && Facts(sha, a, tx)
    requires tx.phase.FlagShared? || tx.phase.EnvironmentSeen? || tx.phase.Chosen?
    ensures Facts(sha, b, tx)
  {
    var r := tx.call.request;
    ClaimStays(a, b, tx, locks);
    ProgressStays(sha, a, b, tx, locks);
    SharedIsFree(tx, locks, |tx.evaluated|);
    SameFlag(a, b, locks, FlagId(r.org, CurrentKey(tx)));
    if tx.phase.Chosen? {
      SameEvaluationOfKey(sha, a, b, locks, r, CurrentKey(tx));
    }
  }

  lemma RulesetPendingStays(a: Store, b: Store, tx: Tx, locks: set<Lock>)
    requires ChangedUnder(a, b, locks) && Disjoint(tx, locks) && FlagHeld(a, tx) && RulesetPending(a, tx)
    ensures RulesetPending(b, tx)
  {
    LatestStays(a, b, tx, locks);
  }

  lemma BumpPendingStays(a: Store, b: Store, tx: Tx, locks: set<Lock>)
    requires ChangedUnder(a, b, locks) && Disjoint(tx, locks) && FlagHeld(a, tx) && BumpPending(a, tx)
    ensures FlagHeld(b, tx) && BumpPending(b, tx)
  {
    FlagHeldStays(a, b, tx, locks);
  }

  lemma PublicationFactsStay(sha: Sha256, a: Store, b: Store, tx: Tx, locks: set<Lock>)
    requires ChangedUnder(a, b, locks) && Disjoint(tx, locks) && Facts(sha, a, tx)
    requires tx.phase.EnvironmentLocked? || tx.phase.Numbered? || tx.phase.RulesetInserted? || tx.phase.FlagBumped?
    ensures Facts(sha, b, tx)
  {
    ClaimStays(a, b, tx, locks);
    FlagHeldStays(a, b, tx, locks);
    EnvironmentHeldStays(a, b, tx, locks);
    if tx.phase.Numbered? {
      LatestStays(a, b, tx, locks);
    } else if !tx.phase.EnvironmentLocked? {
      RulesetPendingStays(a, b, tx, locks);
      if tx.phase.FlagBumped? {
        BumpPendingStays(a, b, tx, locks);
      }
    }
  }

  lemma EnvironmentFactsStay(a: Store, b: Store, tx: Tx, locks: set<Lock>, found: bool)
    requires ChangedUnder(a, b, locks) && Disjoint(tx, locks) && EnvironmentFacts(a, tx, found)
    ensures EnvironmentFacts(b, tx, found)
  {
    if found {
      SameEnvironment(a, b, locks, EnvironmentOf(tx.call.request));
    }
  }

  lemma EarlyFactsStay(sha: Sha256, a: Store, b: Store, tx: Tx, locks: set<Lock>)
    requires ChangedUnder(a, b, locks) && Disjoint(tx, locks) && Facts(sha, a, tx)
    requires tx.phase.First? || tx.phase.FlagLocked? || tx.phase.EnvironmentRead?
    ensures Facts(sha, b, tx)
  {
    ClaimStays(a, b, tx, locks);
    if tx.phase.FlagLocked? {
      FlagHeldStays(a, b, tx, locks);
    } else if tx.phase.EnvironmentRead? {
      EnvironmentFactsStay(a, b, tx, locks, tx.phase.found);
    } else if Evaluates(tx.call.request) {
      ProgressStays(sha, a, b, tx, locks);
    }
  }

  lemma FinishedFactsStay(sha: Sha256, a: Store, b: Store, tx: Tx, locks: set<Lock>)
    requires ChangedUnder(a, b, locks) && Disjoint(tx, locks) && Facts(sha, a, tx)
    requires tx.phase.Written? || tx.phase.Answered?
    ensures Facts(sha, b, tx)
  {
    ClaimStays(a, b, tx, locks);
    RowsStay(sha, a, b, tx, locks, if tx.phase.Answered? then tx.phase.response else ResponseOf(tx).value);
  }

  /** The facts of a transaction survive the commits of all others. */
  lemma FactsStay(sha: Sha256, a: Store, b: Store, tx: Tx, locks: set<Lock>)
    requires ChangedUnder(a, b, locks) && Disjoint(tx, locks) && Facts(sha, a, tx)
    ensures Facts(sha, b, tx)
  {
    var phase := tx.phase;
    if phase.First? || phase.FlagLocked? || phase.EnvironmentRead? {
      EarlyFactsStay(sha, a, b, tx, locks);
    } else if phase.FlagShared? || phase.EnvironmentSeen? || phase.Chosen? {
      EvaluationFactsStay(sha, a, b, tx, locks);
    } else if phase.Written? || phase.Answered? {
      FinishedFactsStay(sha, a, b, tx, locks);
    } else if !phase.LookUp? && !phase.Admit? && !phase.Replayed? {
      PublicationFactsStay(sha, a, b, tx, locks);
    }
  }

  // -------------------------------------------------------------------- the commit

  /** A commit is one sequential command on the rows committed at that moment. */
  lemma CommitApplies(sha: Sha256, t: Tables, tx: Tx, response: Response)
    requires Claimed(t.store, tx) && RowsReady(sha, t.store, tx, response) && tx.phase == Answered(response)
    requires FreshDraws(t.store.receipts, tx.stamp.draws)
    ensures Admissible(sha, t.store, tx.call, tx.stamp)
    ensures Apply(sha, t.store, tx.call, tx.stamp) == (CommitRows(t, tx).store, Success(response))
  {
  }

  /** The rows of an effect are locked exclusively. */
  ghost predicate EffectLocked(call: Call, effect: Effect, locks: set<Lock>) {
    && CommandLock(IdOf(call)) in locks
    && (effect.flag.Some? ==> FlagLock(FlagId(effect.flag.value.org, effect.flag.value.flagKey)) in locks)
    && (effect.environment.Some? ==>
          EnvironmentLock(EnvironmentId(effect.environment.value.org,
                                        effect.environment.value.environmentKey)) in locks)
    && (effect.ruleset.Some?
        ==> FlagLock(FlagId(effect.ruleset.value.id.org, effect.ruleset.value.id.flagKey)) in locks)
  }

  lemma LockedEffectChanges(store: Store, call: Call, effect: Effect, locks: set<Lock>)
    requires EffectLocked(call, effect, locks) && Extends(store, Commit(store, call, effect))
    ensures ChangedUnder(store, Commit(store, call, effect), locks)
  {
  }

  lemma RowsAreLocked(sha: Sha256, store: Store, tx: Tx, response: Response)
    requires Claimed(store, tx) && RowsReady(sha, store, tx, response) && FlagsInv(store) && EnvironmentsInv(store)
    ensures EffectLocked(tx.call, Effect(tx.flag, tx.environment, tx.ruleset, tx.receipts, response), tx.exclusive)
  {
    DecideHolds(sha, store, tx.call.request);
  }

  /** It changes rows only under the transaction's own exclusive locks. */
  lemma CommitChanges(sha: Sha256, t: Tables, tx: Tx, response: Response)
    requires Claimed(t.store, tx) && RowsReady(sha, t.store, tx, response) && tx.phase == Answered(response)
    requires FreshDraws(t.store.receipts, tx.stamp.draws) && FlagsInv(t.store) && EnvironmentsInv(t.store)
    ensures ChangedUnder(t.store, CommitRows(t, tx).store, tx.exclusive)
  {
    CommitApplies(sha, t, tx, response);
    AppliedExtends(sha, t.store, tx.call, tx.stamp);
    RowsAreLocked(sha, t.store, tx, response);
    LockedEffectChanges(t.store, tx.call, Effect(tx.flag, tx.environment, tx.ruleset, tx.receipts, response),
                        tx.exclusive);
  }
}
