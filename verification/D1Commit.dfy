/**
  The write batch. If the epoch has moved since the snapshot, the guard
  rejects it; otherwise no key, UNIQUE, CHECK or foreign-key constraint can,
  and the batch commits exactly the sequential store's next state.
 */
module D1Commit {
  import opened Results
  import opened Text
  import opened Domain
  import opened SequentialStore
  import opened Invariants
  import opened D1Tables
  import opened D1Store
  import opened D1Refinement

  /** A batch from an older snapshot is rejected as a whole. */
  lemma GuardRejects(t: Tables, epoch: int, call: Call, writes: Writes)
    requires t.epoch != epoch
    ensures ExecBatch(t, CommitBatch(epoch, call, writes)).None?
  {
    var rest := [InsertCommand(IdOf(call), call.command.hash, writes.response)] + writes.statements
                + [AdvanceEpoch, ClearGuard];
    assert CommitBatch(epoch, call, writes) == [InsertGuard(epoch)] + rest;
    ExecConcat(t, [InsertGuard(epoch)], rest);
    ExecSingle(t, InsertGuard(epoch));
  }

  /** The tables after the first two statements of a batch. */
  function Admitted(t: Tables, call: Call, response: Response): Tables {
    t.(guard := t.guard + [1], commands := t.commands[IdOf(call) := CommandRow(call.command.hash, response)])
  }

  lemma HeadRuns(t: Tables, call: Call, response: Response)
    requires IdOf(call) !in t.commands
    ensures ExecBatch(t, [InsertGuard(t.epoch), InsertCommand(IdOf(call), call.command.hash, response)])
            == Some(Admitted(t, call, response))
  {
    var guard, command := InsertGuard(t.epoch), InsertCommand(IdOf(call), call.command.hash, response);
    ExecSingle(t, guard);
    ExecLast(t, [guard], command);
    assert [guard] + [command] == [guard, command];
  }

  lemma AdvanceRuns(u: Tables)
    ensures ExecBatch(u, [AdvanceEpoch]) == if u.epoch + 1 <= 0 then None else Some(u.(epoch := u.epoch + 1))
  {
    ExecSingle(u, AdvanceEpoch);
  }

  lemma TailRuns(u: Tables)
    ensures ExecBatch(u, [AdvanceEpoch, ClearGuard])
            == if u.epoch + 1 <= 0 then None else Some(u.(epoch := u.epoch + 1, guard := []))
  {
    AdvanceRuns(u);
    ExecConcat(u, [AdvanceEpoch], [ClearGuard]);
    assert [AdvanceEpoch] + [ClearGuard] == [AdvanceEpoch, ClearGuard];
    if u.epoch + 1 > 0 {
      ExecSingle(u.(epoch := u.epoch + 1), ClearGuard);
    }
  }

  lemma BatchShape(t: Tables, call: Call, writes: Writes)
    requires IdOf(call) !in t.commands
    ensures ExecBatch(t, CommitBatch(t.epoch, call, writes))
            == match ExecBatch(Admitted(t, call, writes.response), writes.statements)
               case None => None
               case Some(u) => if u.epoch + 1 <= 0 then None else Some(u.(epoch := u.epoch + 1, guard := []))
  {
    var head := [InsertGuard(t.epoch), InsertCommand(IdOf(call), call.command.hash, writes.response)];
    var tail := [AdvanceEpoch, ClearGuard];
    HeadRuns(t, call, writes.response);
    ExecConcat(t, head, writes.statements);
    ExecConcat(t, head + writes.statements, tail);
    var u := ExecBatch(Admitted(t, call, writes.response), writes.statements);
    if u.Some? {
      TailRuns(u.value);
    }
  }

  // -------------------------------------------------------------- the commit

  function CommittedFlags(t: Tables, effect: Effect): map<FlagId, FlagRow> {
    if effect.flag.Some? then t.flags[KeyOf(effect.flag.value) := FlagRow(effect.flag.value.rowSeq, effect.flag.value)]
    else t.flags
  }

  function CommittedEnvironments(t: Tables, effect: Effect): map<EnvironmentId, EnvironmentRecord> {
    if effect.environment.Some? then
      t.environments[EnvironmentId(effect.environment.value.org, effect.environment.value.environmentKey)
                     := effect.environment.value]
    else t.environments
  }

  function CommittedRulesets(t: Tables, effect: Effect): map<RulesetId, StoredRuleset> {
    if effect.ruleset.Some? && effect.response.PublishResponse? then
      t.rulesets[effect.ruleset.value.id := StoredRuleset(effect.ruleset.value.row.definition,
                                                          effect.response.publication)]
    else t.rulesets
  }

  /** The tables with an effect, apart from epoch, guard and command row. */
  function Written(t: Tables, effect: Effect): Tables {
    t.(flags := CommittedFlags(t, effect),
       environments := CommittedEnvironments(t, effect),
       rulesets := CommittedRulesets(t, effect),
       receipts := t.receipts + effect.receipts,
       sequence := t.sequence + |effect.receipts|)
  }

  predicate Room(t: Tables, effect: Effect) {
    t.sequence + |effect.receipts| <= I64_MAX
  }

  /** The preconditions under which the statements of an effect cannot fail. */
  ghost predicate Writeable(u: Tables, call: Call, effect: Effect) {
    && Complete(call.request, effect)
    && match call.request
       case CreateFlag(_, _, _, _, _) =>
         && KeyOf(effect.flag.value) !in u.flags
            && forall id | id in u.flags :: u.flags[id].rowSeq != effect.flag.value.rowSeq
       case UpdateFlag(_, _, _, _, _) => FlagReplaced(u, effect.flag.value)
       case ArchiveFlag(_, _, _) => FlagReplaced(u, effect.flag.value)
       case PutEnvironment(_, _, _, _) => true
       case PublishRuleset(_, _, _, _, _, _) =>
         && FlagReplaced(u, effect.flag.value)
         && effect.ruleset.value.id !in u.rulesets
         && effect.ruleset.value.id.revision > 0
         && FlagId(effect.ruleset.value.id.org, effect.ruleset.value.id.flagKey) == KeyOf(effect.flag.value)
         && effect.environment.value.org == effect.ruleset.value.id.org
         && effect.environment.value.environmentKey == effect.ruleset.value.id.environmentKey
       case _ =>
         && NumberedReceipts(u.sequence, call.request.org, call.command.caller, call.command.actor,
                             OperationOf(call.request), ReceiptsIn(effect.receipts)) == effect.receipts
         && NewRowsUnique(u.receipts, effect.receipts)
  }

  predicate FlagReplaced(u: Tables, flag: FlagRecord) {
    KeyOf(flag) in u.flags && u.flags[KeyOf(flag)].rowSeq == flag.rowSeq
  }

  /** Rows an operation does not write are absent from its effect. */
  predicate Only(request: Request, effect: Effect) {
    && (effect.flag.Some? ==>
          request.CreateFlag? || request.UpdateFlag? || request.ArchiveFlag? || request.PublishRuleset?)
    && (effect.environment.Some? ==> request.PutEnvironment? || request.PublishRuleset?)
    && (effect.ruleset.Some? ==> request.PublishRuleset?)
    && (effect.receipts != [] ==> request.Evaluate? || request.EvaluateBatch?)
  }

  lemma SingleWriteRuns(u: Tables, call: Call, effect: Effect)
    requires Writeable(u, call, effect) && Only(call.request, effect)
    requires call.request.CreateFlag? || call.request.UpdateFlag? || call.request.ArchiveFlag?
             || call.request.PutEnvironment?
    ensures ExecBatch(u, StatementsOf(call, effect)) == Some(Written(u, effect))
  {
    var statement := StatementsOf(call, effect)[0];
    assert StatementsOf(call, effect) == [statement];
    ExecSingle(u, statement);
    assert u.receipts + [] == u.receipts;
  }

  lemma ReceiptsRun(u: Tables, call: Call, effect: Effect)
    requires Writeable(u, call, effect) && Only(call.request, effect)
    requires call.request.Evaluate? || call.request.EvaluateBatch?
    ensures ExecBatch(u, StatementsOf(call, effect)) == if Room(u, effect) then Some(Written(u, effect)) else None
  {
    var statement := StatementsOf(call, effect)[0];
    assert StatementsOf(call, effect) == [statement];
    ExecSingle(u, statement);
  }

  lemma PublicationRuns(u: Tables, call: Call, effect: Effect)
    requires Writeable(u, call, effect) && Only(call.request, effect) && call.request.PublishRuleset?
    ensures ExecBatch(u, StatementsOf(call, effect)) == Some(Written(u, effect))
  {
    var flag, environment, ruleset := effect.flag.value, effect.environment.value, effect.ruleset.value;
    var a, b := WriteFlag(flag), UpsertEnvironment(environment);
    var c := InsertRuleset(ruleset.id, ruleset.row.definition, effect.response.publication);
    ExecSingle(u, a);
    ExecLast(u, [a], b);
    assert [a] + [b] == [a, b];
    ExecLast(u, [a, b], c);
    assert [a, b] + [c] == [a, b, c];
    assert u.receipts + [] == u.receipts;
  }

  lemma StatementsRun(u: Tables, call: Call, effect: Effect)
    requires Writeable(u, call, effect) && Only(call.request, effect)
    requires u.sequence <= I64_MAX
    ensures ExecBatch(u, StatementsOf(call, effect)) == if Room(u, effect) then Some(Written(u, effect)) else None
  {
    if call.request.Evaluate? || call.request.EvaluateBatch? {
      ReceiptsRun(u, call, effect);
    } else if call.request.PublishRuleset? {
      PublicationRuns(u, call, effect);
    } else {
      SingleWriteRuns(u, call, effect);
    }
  }

  /** The tables after a whole write batch. */
  function Committed(t: Tables, call: Call, effect: Effect): Tables {
    Written(t, effect).(
      commands := t.commands[IdOf(call) := CommandRow(call.command.hash, effect.response)],
      epoch := t.epoch + 1,
      guard := [])
  }

  lemma BatchCommits(t: Tables, call: Call, effect: Effect)
    requires 1 <= t.epoch && IdOf(call) !in t.commands && t.sequence <= I64_MAX
    requires Writeable(t, call, effect) && Only(call.request, effect)
    ensures ExecBatch(t, CommitBatch(t.epoch, call, Writes(StatementsOf(call, effect), effect.response)))
            == if Room(t, effect) then Some(Committed(t, call, effect)) else None
  {
    BatchShape(t, call, Writes(StatementsOf(call, effect), effect.response));
    AdmittedWriteable(t, call, effect);
    StatementsRun(Admitted(t, call, effect.response), call, effect);
    WrittenAdmitted(t, call, effect);
  }

  lemma AdmittedWriteable(t: Tables, call: Call, effect: Effect)
    requires Writeable(t, call, effect)
    ensures Writeable(Admitted(t, call, effect.response), call, effect)
    ensures Room(Admitted(t, call, effect.response), effect) <==> Room(t, effect)
  {
  }

  lemma WrittenAdmitted(t: Tables, call: Call, effect: Effect)
    ensures var u := Written(Admitted(t, call, effect.response), effect);
            u.epoch == t.epoch && u.(epoch := t.epoch + 1, guard := []) == Committed(t, call, effect)
  {
  }

  // ------------------------------------------------- effects of admissible plans

  /** Plans only touch what the operation may touch. */
  lemma EffectShape(sha: Sha256, store: Store, call: Call, plan: Plan, stamp: Stamp)
    requires PlanHolds(sha, store, call.request, plan) && Fits(call.request, plan, stamp)
    ensures Complete(call.request, Enact(call, plan, stamp)) && Only(call.request, Enact(call, plan, stamp))
  {
  }

  lemma AdminEffectWriteable(sha: Sha256, t: Tables, call: Call, plan: Plan, stamp: Stamp)
    requires TablesInv(t) && PlanHolds(sha, Abs(t), call.request, plan) && Fits(call.request, plan, stamp)
    requires stamp.rowSeq == t.epoch && !call.request.Evaluate? && !call.request.EvaluateBatch?
    ensures Writeable(t, call, Enact(call, plan, stamp))
  {
    var r := call.request;
    if r.PublishRuleset? {
      LatestIs(Abs(t).rulesets, r.org, r.flagKey, r.environmentKey);
      assert RulesetId(r.org, r.flagKey, r.environmentKey, plan.latest + 1) !in Abs(t).rulesets;
      NoGaps(Abs(t), r.org, r.flagKey, r.environmentKey, plan.latest);
    }
  }

  predicate Numbered(rows: seq<ReceiptRow>, sequence: int) {
    forall i | 0 <= i < |rows| :: rows[i].rowSeq == sequence + 1 + i
  }

  lemma ReceiptsNumbered(call: Call, plan: Plan, inputs: Inputs, epoch: int, sequence: int)
    requires Fits(call.request, plan, StampOf(inputs, epoch, sequence))
    ensures Numbered(Enact(call, plan, StampOf(inputs, epoch, sequence)).receipts, sequence)
  {
  }

  lemma RowsRebuilt(call: Call, plan: Plan, stamp: Stamp, sequence: int)
    requires Fits(call.request, plan, stamp) && plan.Evaluations?
    requires Numbered(Enact(call, plan, stamp).receipts, sequence)
    ensures var rows := Enact(call, plan, stamp).receipts;
            NumberedReceipts(sequence, call.request.org, call.command.caller, call.command.actor,
                             OperationOf(call.request), ReceiptsIn(rows)) == rows
  {
  }

  lemma ReceiptEffectWriteable(sha: Sha256, t: Tables, call: Call, plan: Plan, stamp: Stamp)
    requires TablesInv(t) && IdOf(call) !in t.commands
    requires PlanHolds(sha, Abs(t), call.request, plan) && Fits(call.request, plan, stamp)
    requires call.request.Evaluate? || call.request.EvaluateBatch?
    requires FreshDraws(t.receipts, stamp.draws) && Numbered(Enact(call, plan, stamp).receipts, t.sequence)
    ensures Writeable(t, call, Enact(call, plan, stamp))
  {
    NewRowsDiffer(sha, Abs(t), call, plan, stamp);
    RowsRebuilt(call, plan, stamp, t.sequence);
  }

  lemma NewRowsDiffer(sha: Sha256, store: Store, call: Call, plan: Plan, stamp: Stamp)
    requires ReceiptsInv(store) && IdOf(call) !in store.commands
    requires PlanHolds(sha, store, call.request, plan) && Fits(call.request, plan, stamp) && plan.Evaluations?
    requires FreshDraws(store.receipts, stamp.draws)
    ensures NewRowsUnique(store.receipts, Enact(call, plan, stamp).receipts)
  {
    var effect := Enact(call, plan, stamp);
    var after := Commit(store, call, effect);
    var n := |store.receipts|;
    forall i: nat | i < |stamp.draws| ensures Recorded(after, call, stamp.draws[i], i, after.receipts[n + i]) {
      ReceiptRecorded(sha, store, call, plan, stamp, i);
    }
    assert |effect.receipts| == |stamp.draws|;
    ReceiptsDistinct(store, after, call, stamp.draws);
    UniqueParts(store.receipts, effect.receipts);
  }

  lemma UniqueParts(existing: seq<ReceiptRow>, added: seq<ReceiptRow>)
    requires NoClashes(existing + added)
    ensures NewRowsUnique(existing, added)
  {
    var all := existing + added;
    forall i, j | 0 <= i < j < |added| ensures !Clash(added[i], added[j]) {
      assert added[i] == all[|existing| + i] && added[j] == all[|existing| + j];
    }
    forall i, j | 0 <= i < |existing| && 0 <= j < |added| ensures !Clash(existing[i], added[j]) {
      assert existing[i] == all[i] && added[j] == all[|existing| + j];
    }
  }

  // ---------------------------------------------------------------- abstraction

  lemma AbsFlags(t: Tables, call: Call, effect: Effect)
    ensures Abs(Committed(t, call, effect)).flags == Commit(Abs(t), call, effect).flags
  {
  }

  lemma AbsRulesets(t: Tables, call: Call, effect: Effect)
    requires effect.ruleset.Some? ==>
               effect.response.PublishResponse?
                 && effect.ruleset.value.row.publishedBy == effect.response.publication.publishedBy
               && effect.ruleset.value.row.publishedAt == effect.response.publication.publishedAt
    ensures Abs(Committed(t, call, effect)).rulesets == Commit(Abs(t), call, effect).rulesets
  {
  }

  lemma AbsCommitted(sha: Sha256, t: Tables, call: Call, plan: Plan, stamp: Stamp)
    requires PlanHolds(sha, Abs(t), call.request, plan) && Fits(call.request, plan, stamp)
    ensures Abs(Committed(t, call, Enact(call, plan, stamp))) == Commit(Abs(t), call, Enact(call, plan, stamp))
  {
    AbsFlags(t, call, Enact(call, plan, stamp));
    AbsRulesets(t, call, Enact(call, plan, stamp));
  }

  ghost predicate FlagNumbers(flags: map<FlagId, FlagRow>, epoch: int) {
    && (forall id | id in flags :: flags[id].rowSeq == flags[id].record.rowSeq && 1 <= flags[id].rowSeq < epoch)
    && (forall a, b | a in flags && b in flags && a != b :: flags[a].rowSeq != flags[b].rowSeq)
  }

  ghost predicate ReceiptNumbers(rows: seq<ReceiptRow>, sequence: int) {
    && 0 <= sequence
    && (forall i | 0 <= i < |rows| :: 1 <= rows[i].rowSeq <= sequence)
    && (forall i, j | 0 <= i < j < |rows| :: rows[i].rowSeq < rows[j].rowSeq)
  }

  lemma FlagNumbersKept(t: Tables, effect: Effect)
    requires 1 <= t.epoch && FlagNumbers(t.flags, t.epoch)
    requires effect.flag.Some? ==>
               FlagReplaced(t, effect.flag.value)
                 || (KeyOf(effect.flag.value) !in t.flags && effect.flag.value.rowSeq == t.epoch)
    ensures FlagNumbers(CommittedFlags(t, effect), t.epoch + 1)
  {
  }

  lemma ReceiptNumbersKept(t: Tables, rows: seq<ReceiptRow>)
    requires ReceiptNumbers(t.receipts, t.sequence) && Numbered(rows, t.sequence)
    ensures ReceiptNumbers(t.receipts + rows, t.sequence + |rows|)
  {
  }

  lemma FlagFromPlan(sha: Sha256, t: Tables, call: Call, plan: Plan, stamp: Stamp)
    requires FlagNumbers(t.flags, t.epoch) && FlagsInv(Abs(t)) && stamp.rowSeq == t.epoch
    requires PlanHolds(sha, Abs(t), call.request, plan) && Fits(call.request, plan, stamp)
    ensures var flag := Enact(call, plan, stamp).flag;
            flag.Some? ==>
              FlagReplaced(t, flag.value) || (KeyOf(flag.value) !in t.flags && flag.value.rowSeq == t.epoch)
  {
  }

  /** Row numbers stay unique and increasing. */
  lemma NumbersKept(sha: Sha256, t: Tables, call: Call, plan: Plan, stamp: Stamp)
    requires TablesInv(t) && PlanHolds(sha, Abs(t), call.request, plan) && Fits(call.request, plan, stamp)
    requires stamp.rowSeq == t.epoch && Numbered(Enact(call, plan, stamp).receipts, t.sequence)
    ensures FlagNumbers(CommittedFlags(t, Enact(call, plan, stamp)), t.epoch + 1)
    ensures ReceiptNumbers(t.receipts + Enact(call, plan, stamp).receipts,
                           t.sequence + |Enact(call, plan, stamp).receipts|)
  {
    assert FlagNumbers(t.flags, t.epoch) && ReceiptNumbers(t.receipts, t.sequence);
    FlagFromPlan(sha, t, call, plan, stamp);
    FlagNumbersKept(t, Enact(call, plan, stamp));
    ReceiptNumbersKept(t, Enact(call, plan, stamp).receipts);
  }

  // ---------------------------------------------------------------- the theorem

  /** A submission whose snapshot is still current. */
  ghost predicate Current(sha: Sha256, t: Tables, call: Call, inputs: Inputs, snapshot: Snapshot) {
    && TablesInv(t) && t.sequence <= I64_MAX
    && |inputs.drawn| == |EvaluatedKeys(call.request)|
    && snapshot.epoch == t.epoch && Shows(Abs(t), t.epoch, call, snapshot)
    && DecideLocally(sha, snapshot, call, inputs).Submit?
    && FreshDraws(t.receipts, StampOf(inputs, t.epoch, t.sequence).draws)
  }

  lemma CurrentBatch(sha: Sha256, t: Tables, call: Call, inputs: Inputs, snapshot: Snapshot)
    returns (plan: Plan, effect: Effect)
    requires Current(sha, t, call, inputs, snapshot)
    ensures Admissible(sha, Abs(t), call, StampOf(inputs, t.epoch, t.sequence))
    ensures PlanHolds(sha, Abs(t), call.request, plan) && Fits(call.request, plan, StampOf(inputs, t.epoch, t.sequence))
    ensures effect == Enact(call, plan, StampOf(inputs, t.epoch, t.sequence))
    ensures After(sha, Abs(t), call, StampOf(inputs, t.epoch, t.sequence)) == Commit(Abs(t), call, effect)
    ensures Apply(sha, Abs(t), call, StampOf(inputs, t.epoch, t.sequence)).1 == Success(effect.response)
    ensures IdOf(call) !in t.commands && Complete(call.request, effect)
    ensures DecideLocally(sha, snapshot, call, inputs).writes == Writes(StatementsOf(call, effect), effect.response)
  {
    var stamp := StampOf(inputs, t.epoch, t.sequence);
    DecisionRefines(sha, Abs(t), snapshot, t.sequence, call, inputs);
    plan := Decide(sha, Abs(t), call.request).value;
    DecideHolds(sha, Abs(t), call.request);
    effect := Enact(call, plan, stamp);
    EffectShape(sha, Abs(t), call, plan, stamp);
  }

  lemma CurrentIsWriteable(sha: Sha256, t: Tables, call: Call, plan: Plan, stamp: Stamp)
    requires TablesInv(t) && IdOf(call) !in t.commands && PlanHolds(sha, Abs(t), call.request, plan)
    requires Fits(call.request, plan, stamp) && stamp.rowSeq == t.epoch
    requires FreshDraws(t.receipts, stamp.draws) && Numbered(Enact(call, plan, stamp).receipts, t.sequence)
    ensures Writeable(t, call, Enact(call, plan, stamp))
  {
    if call.request.Evaluate? || call.request.EvaluateBatch? {
      ReceiptEffectWriteable(sha, t, call, plan, stamp);
    } else {
      AdminEffectWriteable(sha, t, call, plan, stamp);
    }
  }

  /** Room for the receipts of a call in the AUTOINCREMENT column. */
  predicate RoomFor(t: Tables, call: Call) {
    t.sequence + |EvaluatedKeys(call.request)| <= I64_MAX
  }

  /**
    A batch whose snapshot is current violates no constraint: it commits if
    the receipt numbers are not used up, and the tables then represent the
    sequential store after the command, which also determines the response.
   */
  lemma CurrentBatchCommits(sha: Sha256, t: Tables, call: Call, inputs: Inputs, snapshot: Snapshot)
    requires Current(sha, t, call, inputs, snapshot)
    ensures var writes := DecideLocally(sha, snapshot, call, inputs).writes;
            var stamp := StampOf(inputs, t.epoch, t.sequence);
            && Admissible(sha, Abs(t), call, stamp)
            && Apply(sha, Abs(t), call, stamp).1 == Success(writes.response)
            && match ExecBatch(t, CommitBatch(snapshot.epoch, call, writes))
               case None => !RoomFor(t, call)
               case Some(after) =>
                 && RoomFor(t, call)
                 && Abs(after) == After(sha, Abs(t), call, stamp)
                 && TablesInv(after) && after.sequence <= I64_MAX
                 && after.epoch == t.epoch + 1
  {
    var stamp := StampOf(inputs, t.epoch, t.sequence);
    var plan, effect := CurrentBatch(sha, t, call, inputs, snapshot);
    ReceiptsNumbered(call, plan, inputs, t.epoch, t.sequence);
    CurrentIsWriteable(sha, t, call, plan, stamp);
    EffectShape(sha, Abs(t), call, plan, stamp);
    BatchCommits(t, call, effect);
    ReceiptsCounted(sha, Abs(t), call, plan, stamp);
    InvariantKept(sha, Abs(t), call, stamp);
    CommittedIsNext(sha, t, call, plan, stamp);
  }

  /** The tables after the batch represent the store after the command. */
  lemma CommittedIsNext(sha: Sha256, t: Tables, call: Call, plan: Plan, stamp: Stamp)
    requires TablesInv(t) && stamp.rowSeq == t.epoch
    requires PlanHolds(sha, Abs(t), call.request, plan) && Fits(call.request, plan, stamp)
    requires Numbered(Enact(call, plan, stamp).receipts, t.sequence)
    requires StoreInv(Commit(Abs(t), call, Enact(call, plan, stamp)))
    ensures Abs(Committed(t, call, Enact(call, plan, stamp))) == Commit(Abs(t), call, Enact(call, plan, stamp))
    ensures TablesInv(Committed(t, call, Enact(call, plan, stamp)))
  {
    AbsCommitted(sha, t, call, plan, stamp);
    NumbersKept(sha, t, call, plan, stamp);
    CommittedInv(t, call, Enact(call, plan, stamp));
  }

  /** The same, naming the rows that are written. */
  lemma CurrentBatchResult(sha: Sha256, t: Tables, call: Call, inputs: Inputs, snapshot: Snapshot)
    returns (effect: Effect)
    requires Current(sha, t, call, inputs, snapshot) && RoomFor(t, call)
    ensures ExecBatch(t, CommitBatch(snapshot.epoch, call, DecideLocally(sha, snapshot, call, inputs).writes))
            == Some(Committed(t, call, effect))
    ensures Numbered(effect.receipts, t.sequence)
    ensures effect.flag.Some? ==>
              FlagReplaced(t, effect.flag.value)
                || (KeyOf(effect.flag.value) !in t.flags && effect.flag.value.rowSeq == t.epoch)
  {
    var stamp := StampOf(inputs, t.epoch, t.sequence);
    var plan;
    plan, effect := CurrentBatch(sha, t, call, inputs, snapshot);
    ReceiptsNumbered(call, plan, inputs, t.epoch, t.sequence);
    CurrentIsWriteable(sha, t, call, plan, stamp);
    EffectShape(sha, Abs(t), call, plan, stamp);
    BatchCommits(t, call, effect);
    ReceiptsCounted(sha, Abs(t), call, plan, stamp);
    assert FlagNumbers(t.flags, t.epoch);
    FlagFromPlan(sha, t, call, plan, stamp);
  }

  lemma ReceiptsCounted(sha: Sha256, store: Store, call: Call, plan: Plan, stamp: Stamp)
    requires PlanHolds(sha, store, call.request, plan) && Fits(call.request, plan, stamp)
    requires |stamp.draws| == |EvaluatedKeys(call.request)|
    ensures |Enact(call, plan, stamp).receipts| == |EvaluatedKeys(call.request)|
  {
  }

  lemma CommittedInv(t: Tables, call: Call, effect: Effect)
    requires 1 <= t.epoch && StoreInv(Abs(Committed(t, call, effect)))
    requires FlagNumbers(CommittedFlags(t, effect), t.epoch + 1)
    requires ReceiptNumbers(t.receipts + effect.receipts, t.sequence + |effect.receipts|)
    ensures TablesInv(Committed(t, call, effect))
  {
  }
}
