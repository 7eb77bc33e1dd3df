/**
  The D1 database: tables with their constraints, statements, and atomic
  batches. A batch applies all of its statements or none.
 */
module D1Tables {
  import opened Results
  import opened Text
  import opened Domain
  import opened SequentialStore
  import opened Invariants

  datatype FlagRow = FlagRow(rowSeq: int, record: FlagRecord)

  datatype StoredRuleset = StoredRuleset(definition: RulesetDefinition, publication: PublishRecord)

  /** `sequence` is the AUTOINCREMENT high-water mark of the receipts table. */
  datatype Tables = Tables(
    epoch: int,
    guard: seq<int>,
    flags: map<FlagId, FlagRow>,
    environments: map<EnvironmentId, EnvironmentRecord>,
    rulesets: map<RulesetId, StoredRuleset>,
    commands: Commands,
    receipts: seq<ReceiptRow>,
    sequence: int)

  /** The tables right after the migration. */
  const MIGRATED: Tables := Tables(1, [], map[], map[], map[], map[], [], 0)

  datatype Statement =
    | InsertGuard(expected: int)
    | InsertCommand(id: CommandId, hash: Text, response: Response)
    | InsertFlag(flag: FlagRecord)
    | WriteFlag(flag: FlagRecord)
    | UpsertEnvironment(environment: EnvironmentRecord)
    | InsertRuleset(rulesetId: RulesetId, definition: RulesetDefinition, publication: PublishRecord)
    | InsertReceipts(org: Text, caller: Text, actor: Text, operation: Operation, receipts: seq<Receipt>)
    | AdvanceEpoch
    | ClearGuard

  function KeyOf(flag: FlagRecord): FlagId {
    FlagId(flag.org, flag.flagKey)
  }

  function NumberedReceipts(sequence: int, org: Text, caller: Text, actor: Text, operation: Operation,
                            receipts: seq<Receipt>): seq<ReceiptRow>
  {
    seq(|receipts|, i requires 0 <= i < |receipts| =>
      ReceiptRow(sequence + 1 + i, org, caller, actor, operation, receipts[i]))
  }

  /** The receipt ids and (caller, actor, operation, evaluation, flag) stay unique. */
  predicate NewRowsUnique(existing: seq<ReceiptRow>, added: seq<ReceiptRow>) {
    NoClashes(added) && forall i, j | 0 <= i < |existing| && 0 <= j < |added| :: !Clash(existing[i], added[j])
  }

  /** One statement; `None` is a violated constraint. */
  function Exec(t: Tables, s: Statement): Option<Tables> {
    match s
    // CHECK(value=1) rejects the row of a stale snapshot.
    case InsertGuard(expected) => if t.epoch == expected then Some(t.(guard := t.guard + [1])) else None
    case InsertCommand(id, hash, response) =>
      if id in t.commands then None else Some(t.(commands := t.commands[id := CommandRow(hash, response)]))
    case InsertFlag(flag) =>
      if KeyOf(flag) in t.flags || exists id | id in t.flags :: t.flags[id].rowSeq == flag.rowSeq then None
      else Some(t.(flags := t.flags[KeyOf(flag) := FlagRow(flag.rowSeq, flag)]))
    case WriteFlag(flag) =>
      if KeyOf(flag) !in t.flags then Some(t)
      else Some(t.(flags := t.flags[KeyOf(flag) := FlagRow(t.flags[KeyOf(flag)].rowSeq, flag)]))
    case UpsertEnvironment(environment) =>
      Some(t.(environments :=
              t.environments[EnvironmentId(environment.org, environment.environmentKey) := environment]))
    case InsertRuleset(id, definition, publication) =>
      if id in t.rulesets || id.revision <= 0 || FlagId(id.org, id.flagKey) !in t.flags
         || EnvironmentId(id.org, id.environmentKey) !in t.environments then None
      else Some(t.(rulesets := t.rulesets[id := StoredRuleset(definition, publication)]))
    case InsertReceipts(org, caller, actor, operation, receipts) =>
      var rows := NumberedReceipts(t.sequence, org, caller, actor, operation, receipts);
      if t.sequence + |receipts| > I64_MAX || !NewRowsUnique(t.receipts, rows) then None
      else Some(t.(receipts := t.receipts + rows, sequence := t.sequence + |receipts|))
    case AdvanceEpoch => if t.epoch + 1 <= 0 then None else Some(t.(epoch := t.epoch + 1))
    case ClearGuard => Some(t.(guard := []))
  }

  /** All statements in order, or nothing. */
  function ExecBatch(t: Tables, statements: seq<Statement>): Option<Tables> {
    if statements == [] then Some(t)
    else
      match ExecBatch(t, statements[..|statements| - 1])
      case None => None
      case Some(before) => Exec(before, statements[|statements| - 1])
  }

  function Then(first: Option<Tables>, b: seq<Statement>): Option<Tables> {
    if first.None? then None else ExecBatch(first.value, b)
  }

  lemma ExecLast(t: Tables, a: seq<Statement>, s: Statement)
    ensures ExecBatch(t, a + [s]) == if ExecBatch(t, a).None? then None else Exec(ExecBatch(t, a).value, s)
  {
    assert (a + [s])[..|a|] == a;
  }

  lemma ExecSingle(t: Tables, s: Statement)
    ensures ExecBatch(t, [s]) == Exec(t, s)
  {
    ExecLast(t, [], s);
    assert [] + [s] == [s];
  }

  /** Running two lists of statements is running them one after the other. */
  lemma {:induction false} ExecConcat(t: Tables, a: seq<Statement>, b: seq<Statement>)
    ensures ExecBatch(t, a + b) == Then(ExecBatch(t, a), b)
  {
    if b == [] {
      assert a + b == a;
    } else {
      var n := |b| - 1;
      ExecConcat(t, a, b[..n]);
      ExecLast(t, a + b[..n], b[n]);
      assert a + b == (a + b[..n]) + [b[n]];
    }
  }

  // -------------------------------------------------------------------- the schema

  /** What the constraints of the migration say about the rows that are stored. */
  ghost predicate Schema(t: Tables) {
    && t.epoch > 0 && (forall i | 0 <= i < |t.guard| :: t.guard[i] == 1)
    && (forall a, b | a in t.flags && b in t.flags && a != b :: t.flags[a].rowSeq != t.flags[b].rowSeq)
    && (forall id | id in t.rulesets ::
          && id.revision > 0 && FlagId(id.org, id.flagKey) in t.flags
          && EnvironmentId(id.org, id.environmentKey) in t.environments)
    && ReceiptSchema(t.receipts, t.sequence)
  }

  ghost predicate ReceiptSchema(rows: seq<ReceiptRow>, sequence: int) {
    && (forall i | 0 <= i < |rows| :: rows[i].rowSeq <= sequence <= 0x7FFF_FFFF_FFFF_FFFF)
    && (forall i, j | 0 <= i < j < |rows| :: rows[i].rowSeq < rows[j].rowSeq)
    && (forall i, j | 0 <= i < j < |rows| ::
          rows[i].receipt.receiptId != rows[j].receipt.receiptId && !SameUse(rows[i], rows[j]))
  }

  /** UNIQUE(caller,actor,operation,evaluation_id,flag_key). */
  predicate SameUse(a: ReceiptRow, b: ReceiptRow) {
    (a.caller, a.actor, a.operation, a.receipt.evaluationId, a.receipt.flagKey)
    == (b.caller, b.actor, b.operation, b.receipt.evaluationId, b.receipt.flagKey)
  }

  lemma ReceiptsKeepSchema(rows: seq<ReceiptRow>, sequence: int, org: Text, caller: Text, actor: Text,
                           operation: Operation, receipts: seq<Receipt>)
    requires ReceiptSchema(rows, sequence) && sequence + |receipts| <= I64_MAX
    requires NewRowsUnique(rows, NumberedReceipts(sequence, org, caller, actor, operation, receipts))
    ensures ReceiptSchema(rows + NumberedReceipts(sequence, org, caller, actor, operation, receipts),
                          sequence + |receipts|)
  {
    var added := NumberedReceipts(sequence, org, caller, actor, operation, receipts);
    var all := rows + added;
    forall i, j | 0 <= i < j < |all|
      ensures all[i].rowSeq < all[j].rowSeq
      ensures all[i].receipt.receiptId != all[j].receipt.receiptId && !SameUse(all[i], all[j])
    {
      assert !Clash(all[i], all[j]) || j < |rows|;
    }
  }

  /** No statement, whatever it says, breaks the schema. */
  lemma ExecKeepsSchema(t: Tables, s: Statement)
    requires Schema(t) && Exec(t, s).Some?
    ensures Schema(Exec(t, s).value)
  {
    if s.InsertReceipts? {
      ReceiptsKeepSchema(t.receipts, t.sequence, s.org, s.caller, s.actor, s.operation, s.receipts);
    }
  }

  /** Only UPDATE and upsert touch a stored row: an INSERT of a taken key fails. */
  lemma InsertsOverwriteNothing(t: Tables, s: Statement)
    requires Exec(t, s).Some?
    ensures var t' := Exec(t, s).value;
            && (forall id | id in t.commands :: id in t'.commands && t'.commands[id] == t.commands[id])
            && (forall id | id in t.rulesets :: id in t'.rulesets && t'.rulesets[id] == t.rulesets[id])
            && t.receipts <= t'.receipts
            && (!s.WriteFlag? ==> forall id | id in t.flags :: id in t'.flags && t'.flags[id] == t.flags[id])
            && (!s.UpsertEnvironment? ==>
                  forall id | id in t.environments :: id in t'.environments
                    && t'.environments[id] == t.environments[id])
  {
  }

  /** Whatever a client sends, a batch keeps the schema. */
  lemma {:induction false} BatchKeepsSchema(t: Tables, statements: seq<Statement>)
    requires Schema(t) && ExecBatch(t, statements).Some?
    ensures Schema(ExecBatch(t, statements).value)
  {
    if statements != [] {
      var init := statements[..|statements| - 1];
      BatchKeepsSchema(t, init);
      ExecKeepsSchema(ExecBatch(t, init).value, statements[|statements| - 1]);
    }
  }

  // ------------------------------------------------------------- abstraction

  /** The sequential store that these tables represent. */
  function Abs(t: Tables): Store {
    Store(
      map id | id in t.flags :: t.flags[id].record,
      t.environments,
      map id | id in t.rulesets ::
        RulesetRow(t.rulesets[id].definition, t.rulesets[id].publication.publishedBy,
                   t.rulesets[id].publication.publishedAt),
      t.commands,
      t.receipts)
  }

  /** What holds between any two batches. */
  ghost predicate TablesInv(t: Tables) {
    && StoreInv(Abs(t))
    && t.guard == []
    && 1 <= t.epoch
    && (forall id | id in t.flags ::
          t.flags[id].rowSeq == t.flags[id].record.rowSeq && 1 <= t.flags[id].rowSeq < t.epoch)
    && (forall a, b | a in t.flags && b in t.flags && a != b :: t.flags[a].rowSeq != t.flags[b].rowSeq)
    && 0 <= t.sequence
    && (forall i | 0 <= i < |t.receipts| :: 1 <= t.receipts[i].rowSeq <= t.sequence)
    && (forall i, j | 0 <= i < j < |t.receipts| :: t.receipts[i].rowSeq < t.receipts[j].rowSeq)
  }

  lemma LatestAbs(t: Tables, org: Text, flagKey: Text, environmentKey: Text)
    ensures Latest(Abs(t).rulesets, org, flagKey, environmentKey) == Latest(t.rulesets, org, flagKey, environmentKey)
  {
    assert Revisions(Abs(t).rulesets, org, flagKey, environmentKey)
           == Revisions(t.rulesets, org, flagKey, environmentKey);
  }
}
