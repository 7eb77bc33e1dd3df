/**
  The numbers of `bigserial` columns: every committed row has a number of its
  own, a positive i64, although numbers may be committed in any order.
 */
module PgNumbers {
  import opened Results
  import opened Text
  import opened Domain
  import opened SequentialStore
  import opened Invariants
  import opened PgTransactions
  import opened PgMachine

  predicate OwnsFlagNumber(s: System, flag: FlagRecord) {
    flag.rowSeq in s.flagNumbers && s.flagNumbers[flag.rowSeq] == FlagId(flag.org, flag.flagKey)
  }

  predicate OwnsReceiptNumber(s: System, row: ReceiptRow) {
    row.rowSeq in s.receiptNumbers && s.receiptNumbers[row.rowSeq] == row.receipt.receiptId
  }

  ghost predicate RowsOwnNumbers(s: System, rows: seq<ReceiptRow>) {
    forall i | 0 <= i < |rows| :: OwnsReceiptNumber(s, rows[i])
  }

  /** The uncommitted rows of a transaction own their numbers. */
  ghost predicate PendingOwned(s: System, tx: Tx) {
    (tx.flag.Some? ==> OwnsFlagNumber(s, tx.flag.value)) && RowsOwnNumbers(s, tx.receipts)
  }

  ghost predicate StoredOwned(s: System, store: Store) {
    (forall id | id in store.flags :: OwnsFlagNumber(s, store.flags[id])) && RowsOwnNumbers(s, store.receipts)
  }

  predicate InRange<V>(numbers: map<int, V>) {
    forall n | n in numbers :: 0 < n <= I64_MAX
  }

  ghost predicate NumbersInv(s: System) {
    && InRange(s.flagNumbers) && InRange(s.receiptNumbers)
    && StoredOwned(s, s.tables.store)
    && (forall op | op in s.clients :: PendingOwned(s, s.clients[op].tx))
  }

  /** Numbers that have been handed out stay handed out. */
  predicate NumbersGrow(s: System, s': System) {
    && (forall n | n in s.flagNumbers :: n in s'.flagNumbers && s'.flagNumbers[n] == s.flagNumbers[n])
    && (forall n | n in s.receiptNumbers :: n in s'.receiptNumbers && s'.receiptNumbers[n] == s.receiptNumbers[n])
  }

  lemma PendingStays(s: System, s': System, tx: Tx)
    requires NumbersGrow(s, s') && PendingOwned(s, tx)
    ensures PendingOwned(s', tx)
  {
  }

  lemma StoredStays(s: System, s': System, store: Store)
    requires NumbersGrow(s, s') && StoredOwned(s, store)
    ensures StoredOwned(s', store)
  {
  }

  /** A flag row is new with the drawn number, or a stored row with its own. */
  lemma StatementFlag(sha: Sha256, t: Tables, tx: Tx, tick: Tick, position: nat)
    requires PhaseFits(tx) && !tx.phase.Answered? && !tx.phase.Replayed? && FlagsInv(t.store)
    requires Statement(sha, t, tx, tick, position).Continue?
    ensures var after := Statement(sha, t, tx, tick, position).tx;
            || after.flag == tx.flag
            || (after.flag.Some? && DrawsFlagNumber(tx) && after.flag.value.rowSeq == tick.rowSeq
                && FlagId(after.flag.value.org, after.flag.value.flagKey) == FlagOf(tx.call.request))
            || (after.flag.Some?
                && var id := FlagId(after.flag.value.org, after.flag.value.flagKey);
                   id in t.store.flags && after.flag.value.rowSeq == t.store.flags[id].rowSeq)
  {
  }

  lemma StatementReceipts(sha: Sha256, t: Tables, tx: Tx, tick: Tick, position: nat)
    requires PhaseFits(tx) && !tx.phase.Answered? && !tx.phase.Replayed?
    requires Statement(sha, t, tx, tick, position).Continue?
    ensures var after := Statement(sha, t, tx, tick, position).tx;
            || after.receipts == tx.receipts
            || (tx.phase.Chosen? && |after.receipts| == |tx.receipts| + 1
                && after.receipts[..|tx.receipts|] == tx.receipts
                && after.receipts[|tx.receipts|].rowSeq == tick.rowSeq
                && after.receipts[|tx.receipts|].receipt.receiptId == tick.receiptId)
  {
  }

  lemma StatementKeepsOwner(sha: Sha256, s: System, op: nat, tick: Tick)
    requires Enabled(s, op, tick) && NumbersInv(s) && FlagsInv(s.tables.store)
    requires Statement(sha, s.tables, s.clients[op].tx, tick, |s.log|).Continue?
    ensures PendingOwned(StatementStep(sha, s, op, tick), StatementStep(sha, s, op, tick).clients[op].tx)
  {
    var tx, s' := s.clients[op].tx, StatementStep(sha, s, op, tick);
    StatementFlag(sha, s.tables, tx, tick, |s.log|);
    StatementReceipts(sha, s.tables, tx, tick, |s.log|);
    PendingStays(s, s', tx);
    var after := s'.clients[op].tx;
    forall i | 0 <= i < |after.receipts| ensures OwnsReceiptNumber(s', after.receipts[i]) {
      assert i < |tx.receipts| ==> after.receipts[i] == tx.receipts[i];
    }
  }

  /** The drawn number goes to one row, and nothing else changes hands. */
  lemma NumberDrawn(sha: Sha256, s: System, op: nat, tick: Tick)
    requires Enabled(s, op, tick) && InRange(s.flagNumbers) && InRange(s.receiptNumbers)
    ensures var s' := StatementStep(sha, s, op, tick);
            && InRange(s'.flagNumbers) && InRange(s'.receiptNumbers) && NumbersGrow(s, s')
            && s'.tables == s.tables && s'.clients.Keys == s.clients.Keys
            && forall other | other in s.clients && other != op :: s'.clients[other] == s.clients[other]
  {
  }

  lemma StatementKeepsNumbers(sha: Sha256, s: System, op: nat, tick: Tick)
    requires Enabled(s, op, tick) && NumbersInv(s) && FlagsInv(s.tables.store)
    ensures NumbersInv(StatementStep(sha, s, op, tick))
  {
    var s' := StatementStep(sha, s, op, tick);
    NumberDrawn(sha, s, op, tick);
    StoredStays(s, s', s.tables.store);
    if Statement(sha, s.tables, s.clients[op].tx, tick, |s.log|).Continue? {
      StatementKeepsOwner(sha, s, op, tick);
    }
    forall other | other in s'.clients ensures PendingOwned(s', s'.clients[other].tx) {
      if other != op {
        PendingStays(s, s', s.clients[other].tx);
      }
    }
  }

  /** Committed rows keep the numbers they had before they were committed. */
  lemma CommittedOwned(s: System, t: Tables, tx: Tx)
    requires StoredOwned(s, t.store) && PendingOwned(s, tx)
    ensures StoredOwned(s, CommitRows(t, tx).store)
  {
    var after := CommitRows(t, tx).store;
    assert after.receipts == t.store.receipts || after.receipts == t.store.receipts + tx.receipts;
  }

  lemma CommitKeepsNumbers(s: System, op: nat, delivered: bool)
    requires Running(s, op) && (s.clients[op].tx.phase.Answered? || s.clients[op].tx.phase.Replayed?) && NumbersInv(s)
    ensures NumbersInv(CommitStep(s, op, delivered))
  {
    var tx, s' := s.clients[op].tx, CommitStep(s, op, delivered);
    CommittedOwned(s, s.tables, tx);
    StoredStays(s, s', CommitRows(s.tables, tx).store);
    forall other | other in s'.clients ensures PendingOwned(s', s'.clients[other].tx) {
      PendingStays(s, s', s.clients[other].tx);
    }
  }

  lemma StepKeepsNumbers(sha: Sha256, s: System, action: Action)
    requires NumbersInv(s) && FlagsInv(s.tables.store)
    ensures NumbersInv(Perform(sha, s, action))
  {
    match action
    case RunStatement(op, tick) =>
      if Enabled(s, op, tick) {
        StatementKeepsNumbers(sha, s, op, tick);
      }
    case CommitTransaction(op, delivered) =>
      if Running(s, op) && (s.clients[op].tx.phase.Answered? || s.clients[op].tx.phase.Replayed?) {
        CommitKeepsNumbers(s, op, delivered);
      }
    case _ =>
      QuietStepKeepsNumbers(sha, s, action);
  }

  lemma QuietStepKeepsNumbers(sha: Sha256, s: System, action: Action)
    requires NumbersInv(s) && !action.RunStatement? && !action.CommitTransaction?
    ensures NumbersInv(Perform(sha, s, action))
  {
    var s' := Perform(sha, s, action);
    forall other | other in s'.clients ensures PendingOwned(s', s'.clients[other].tx) {
      assert other in s.clients ==> PendingOwned(s, s.clients[other].tx);
    }
  }

  lemma {:induction false} RunKeepsNumbers(sha: Sha256, actions: seq<Action>)
    ensures NumbersInv(Execute(sha, actions))
  {
    if actions != [] {
      RunKeepsNumbers(sha, actions[..|actions| - 1]);
      ExecutionInv(sha, actions[..|actions| - 1]);
      StepKeepsNumbers(sha, Execute(sha, actions[..|actions| - 1]), actions[|actions| - 1]);
    }
  }

  /** The UNIQUE constraints on row numbers can never fail, and a row number is a usable cursor. */
  lemma {:induction false} PgRowNumbersAreUnique(sha: Sha256, actions: seq<Action>)
    ensures var store := Execute(sha, actions).tables.store;
            && (forall id | id in store.flags :: 0 < store.flags[id].rowSeq <= I64_MAX)
            && (forall i | 0 <= i < |store.receipts| :: 0 < store.receipts[i].rowSeq <= I64_MAX)
            && (forall a, b | a in store.flags && b in store.flags && a != b ::
                  store.flags[a].rowSeq != store.flags[b].rowSeq)
            && (forall i, j | 0 <= i < j < |store.receipts| :: store.receipts[i].rowSeq != store.receipts[j].rowSeq)
  {
    RunKeepsNumbers(sha, actions);
    ExecutionInv(sha, actions);
    var s := Execute(sha, actions);
    forall a, b | a in s.tables.store.flags && b in s.tables.store.flags && a != b
      ensures s.tables.store.flags[a].rowSeq != s.tables.store.flags[b].rowSeq
    {
      assert OwnsFlagNumber(s, s.tables.store.flags[a]) && OwnsFlagNumber(s, s.tables.store.flags[b]);
    }
    var rows := s.tables.store.receipts;
    forall i, j | 0 <= i < j < |rows| ensures rows[i].rowSeq != rows[j].rowSeq {
      assert OwnsReceiptNumber(s, rows[i]) && OwnsReceiptNumber(s, rows[j]) && !Clash(rows[i], rows[j]);
    }
  }
}
