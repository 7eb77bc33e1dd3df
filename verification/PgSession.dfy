/**
  The operations of the PostgreSQL store as the program writes them: each one
  drives a mutable transaction through its statements and commits it. Run alone
  on a quiescent database, every operation gives exactly the sequential answer.
 */
module PgSession {
  import opened Results
  import opened Text
  import opened Domain
  import opened SequentialStore
  import opened Invariants
  import opened PgTransactions
  import opened PgFacts

  /**
    The operation has answered as the sequential store does, unless a column of
    PostgreSQL refused, and left the rows that the sequential store leaves.
   */
  ghost predicate Answers(sha: Sha256, before: Store, call: Call, stamp: Stamp, after: Store,
                          r: StorageResult<Response>) {
    if Refused(sha, before, call) then after == before && r == Failure(Backend)
    else
      match Verdict(sha, before, call)
      case Some(answer) => after == before && r == answer
      case None => |stamp.draws| == |EvaluatedKeys(call.request)| && (after, r) == Apply(sha, before, call, stamp)
  }

  class Postgres {
    var tables: Tables

    ghost predicate Valid()
      reads this
    {
      StoreInv(tables.store) && tables.unanswered == map[]
    }

    constructor ()
      ensures Valid() && tables.store == EMPTY
    {
      tables := Tables(EMPTY, map[]);
      new;
      EmptyInv();
    }
  }

  /** Dropping a transaction without a commit rolls it back. */
  class Transaction {
    const sha: Sha256
    const postgres: Postgres
    var tx: Tx

    ghost predicate Valid()
      reads this, postgres
    {
      && postgres.Valid() && PhaseFits(tx) && Facts(sha, postgres.tables.store, tx)
      && FreshDraws(postgres.tables.store.receipts, tx.stamp.draws)
    }

    constructor (sha: Sha256, postgres: Postgres, call: Call)
      requires postgres.Valid()
      ensures this.sha == sha && this.postgres == postgres && tx == Opened(call) && Valid()
    {
      this.sha, this.postgres, tx := sha, postgres, Opened(call);
    }

    /** A stored response, or the command row inserted. */
    method AdmitCommand() returns (r: StorageResult<Option<Response>>)
      requires Valid() && tx.phase.LookUp?
      modifies this
      ensures Valid() && tx.call == old(tx.call) && tx.stamp.draws == old(tx.stamp.draws)
              && tx.evaluated == old(tx.evaluated)
      ensures r.Failure? ==> Answers(sha, postgres.tables.store, tx.call, UNSTAMPED, postgres.tables.store,
                                     Failure(r.error))
      ensures r.Success? && r.value.Some? ==>
                Answers(sha, postgres.tables.store, tx.call, UNSTAMPED, postgres.tables.store, Success(r.value.value))
      ensures r.Success? && r.value.None? ==> tx.phase.First?
    {
      var lookUp := LookUpStatement(postgres.tables, tx, 0);
      if lookUp.Stop? {
        LookUpStops(sha, postgres.tables, tx, 0);
        return Failure(lookUp.error);
      }
      LookUpKeeps(sha, postgres.tables, tx, 0);
      tx := Locked(postgres.tables, tx, lookUp.tx);
      if tx.phase.Replayed? {
        return Success(Some(tx.phase.response));
      }
      var admission := AdmitStatement(postgres.tables, tx);
      AdmitKeeps(sha, postgres.tables, tx);
      tx := Locked(postgres.tables, tx, admission.tx);
      return Success(None);
    }

    /** The next statement of the operation, with the checks that follow it. */
    method Execute(tick: Tick) returns (r: StorageResult<()>)
      requires Valid() && !tx.phase.LookUp? && !tx.phase.Admit? && !tx.phase.Answered? && !tx.phase.Replayed?
      requires tx.phase.Chosen? ==> FreshId(postgres.tables.store, tx, tick.receiptId)
      modifies this
      ensures r.Failure? ==> Answers(sha, postgres.tables.store, old(tx.call), UNSTAMPED, postgres.tables.store,
                                     Failure(r.error))
      ensures r.Success? ==> Valid() && Follows(old(tx), tx, tick)
    {
      var outcome := Statement(sha, postgres.tables, tx, tick, 0);
      if outcome.Stop? {
        StopAnswers(sha, postgres.tables, tx, tick);
        return Failure(outcome.error);
      }
      StatementKeeps(sha, postgres.tables, tx, tick, 0);
      StatementFits(sha, postgres.tables, tx, tick, 0);
      DrawsStayFresh(sha, postgres.tables, tx, tick);
      SameCall(sha, postgres.tables, tx, tick, 0);
      StatementFollows(sha, postgres.tables, tx, tick);
      tx := Locked(postgres.tables, tx, outcome.tx);
      return Success(());
    }

    method Commit() returns (response: Response)
      requires Valid() && tx.phase.Answered? && !Unsupported(tx.call.request)
      modifies postgres
      ensures postgres.Valid()
      ensures Answers(sha, old(postgres.tables.store), tx.call, tx.stamp, postgres.tables.store, Success(response))
    {
      response := tx.phase.response;
      CommitApplies(sha, postgres.tables, tx, response);
      InvariantKept(sha, postgres.tables.store, tx.call, tx.stamp);
      postgres.tables := CommitRows(postgres.tables, tx);
    }
  }

  /** The order of an operation's statements. */
  predicate Follows(a: Tx, b: Tx, tick: Tick) {
    var r := a.call.request;
    && b.call == a.call
    && |b.evaluated| == |a.evaluated| + (if a.phase.Chosen? then 1 else 0)
    && b.stamp.draws == (if a.phase.Chosen? then a.stamp.draws + [Draw(tick.receiptId, tick.at, tick.rowSeq)]
                         else a.stamp.draws)
    && match a.phase
       case First =>
         if r.CreateFlag? then b.phase.Written? && !Unsupported(r)
         else if r.PutEnvironment? then b.phase.EnvironmentRead?
         else if WritesOneFlag(r) then b.phase.FlagLocked?
         else if |a.evaluated| < |EvaluatedKeys(r)| then b.phase.FlagShared? else b.phase.Written?
       case FlagLocked => if r.PublishRuleset? then b.phase.EnvironmentLocked? else b.phase.Written?
       case EnvironmentRead(_) => b.phase.Written?
       case EnvironmentLocked => b.phase.Numbered?
       case Numbered(_) => b.phase.RulesetInserted? && !Unsupported(r)
       case RulesetInserted => b.phase.FlagBumped?
       case FlagBumped => b.phase.Written?
       case FlagShared(_) => b.phase.EnvironmentSeen?
       case EnvironmentSeen(_) => b.phase.Chosen?
       case Chosen(_) => b.phase.First?
       case Written => b.phase.Answered?
       case _ => true
  }

  lemma StatementFollows(sha: Sha256, t: Tables, tx: Tx, tick: Tick)
    requires PhaseFits(tx) && !tx.phase.Answered? && !tx.phase.Replayed?
    requires Statement(sha, t, tx, tick, 0).Continue?
    ensures Follows(tx, Locked(t, tx, Statement(sha, t, tx, tick, 0).tx), tick)
  {
    SameCall(sha, t, tx, tick, 0);
  }

  lemma StopAnswers(sha: Sha256, t: Tables, tx: Tx, tick: Tick)
    requires StoreInv(t.store) && t.unanswered == map[] && Facts(sha, t.store, tx) && PhaseFits(tx)
    requires !tx.phase.LookUp? && !tx.phase.Admit? && !tx.phase.Answered? && !tx.phase.Replayed?
    requires tx.phase.Chosen? ==> FreshId(t.store, tx, tick.receiptId)
    requires Statement(sha, t, tx, tick, 0).Stop?
    ensures Answers(sha, t.store, tx.call, UNSTAMPED, t.store, Failure(Statement(sha, t, tx, tick, 0).error))
  {
    StatementStops(sha, t, tx, tick, 0);
    if Unsupported(tx.call.request) && tx.call.request.CreateFlag? {
      UnsupportedStops(sha, t, tx, tick);
    }
  }

  lemma UnsupportedStops(sha: Sha256, t: Tables, tx: Tx, tick: Tick)
    requires Unsupported(tx.call.request) && tx.call.request.CreateFlag? && Facts(sha, t.store, tx) && PhaseFits(tx)
    requires !tx.phase.LookUp? && !tx.phase.Admit? && !tx.phase.Answered? && !tx.phase.Replayed?
    requires Statement(sha, t, tx, tick, 0).Stop?
    ensures Statement(sha, t, tx, tick, 0).error == Backend
  {
  }

  lemma DrawsStayFresh(sha: Sha256, t: Tables, tx: Tx, tick: Tick)
    requires PhaseFits(tx) && !tx.phase.LookUp? && !tx.phase.Admit? && !tx.phase.Answered? && !tx.phase.Replayed?
    requires FreshDraws(t.store.receipts, tx.stamp.draws)
    requires tx.phase.Chosen? ==> FreshId(t.store, tx, tick.receiptId)
    requires Statement(sha, t, tx, tick, 0).Continue?
    ensures FreshDraws(t.store.receipts, Statement(sha, t, tx, tick, 0).tx.stamp.draws)
    ensures Statement(sha, t, tx, tick, 0).tx.call == tx.call
  {
  }

  class PostgresStore {
    const sha: Sha256
    const postgres: Postgres

    constructor (sha: Sha256, postgres: Postgres)
      ensures this.sha == sha && this.postgres == postgres
    {
      this.sha, this.postgres := sha, postgres;
    }

    method CreateFlag(call: Call, tick: Tick) returns (r: StorageResult<Response>, ghost stamp: Stamp)
      requires call.request.CreateFlag? && postgres.Valid()
      modifies postgres
      ensures postgres.Valid() && Answers(sha, old(postgres.tables.store), call, stamp, postgres.tables.store, r)
    {
      stamp := UNSTAMPED;
      var transaction := new Transaction(sha, postgres, call);
      var replay :- transaction.AdmitCommand();
      if replay.Some? {
        return Success(replay.value), stamp;
      }
      var _ :- transaction.Execute(tick); // INSERT the flag
      var _ :- transaction.Execute(tick); // store the response
      var response := transaction.Commit();
      return Success(response), transaction.tx.stamp;
    }

    method UpdateFlag(call: Call, tick: Tick) returns (r: StorageResult<Response>, ghost stamp: Stamp)
      requires call.request.UpdateFlag? && postgres.Valid()
      modifies postgres
      ensures postgres.Valid() && Answers(sha, old(postgres.tables.store), call, stamp, postgres.tables.store, r)
    {
      stamp := UNSTAMPED;
      var transaction := new Transaction(sha, postgres, call);
      var replay :- transaction.AdmitCommand();
      if replay.Some? {
        return Success(replay.value), stamp;
      }
      var _ :- transaction.Execute(tick); // lock the flag
      var _ :- transaction.Execute(tick); // UPDATE it
      var _ :- transaction.Execute(tick); // store the response
      var response := transaction.Commit();
      return Success(response), transaction.tx.stamp;
    }

    method ArchiveFlag(call: Call, tick: Tick) returns (r: StorageResult<Response>, ghost stamp: Stamp)
      requires call.request.ArchiveFlag? && postgres.Valid()
      modifies postgres
      ensures postgres.Valid() && Answers(sha, old(postgres.tables.store), call, stamp, postgres.tables.store, r)
    {
      stamp := UNSTAMPED;
      var transaction := new Transaction(sha, postgres, call);
      var replay :- transaction.AdmitCommand();
      if replay.Some? {
        return Success(replay.value), stamp;
      }
      var _ :- transaction.Execute(tick); // lock the flag
      var _ :- transaction.Execute(tick); // UPDATE it
      var _ :- transaction.Execute(tick); // store the response
      var response := transaction.Commit();
      return Success(response), transaction.tx.stamp;
    }

    method PutEnvironment(call: Call, tick: Tick) returns (r: StorageResult<Response>, ghost stamp: Stamp)
      requires call.request.PutEnvironment? && postgres.Valid()
      modifies postgres
      ensures postgres.Valid() && Answers(sha, old(postgres.tables.store), call, stamp, postgres.tables.store, r)
    {
      stamp := UNSTAMPED;
      var transaction := new Transaction(sha, postgres, call);
      var replay :- transaction.AdmitCommand();
      if replay.Some? {
        return Success(replay.value), stamp;
      }
      var _ :- transaction.Execute(tick); // lock the environment
      var _ :- transaction.Execute(tick); // INSERT or UPDATE it
      var _ :- transaction.Execute(tick); // store the response
      var response := transaction.Commit();
      return Success(response), transaction.tx.stamp;
    }

    method LockForPublication(transaction: Transaction, tick: Tick) returns (r: StorageResult<()>)
      requires transaction.Valid() && transaction.tx.phase.First? && transaction.tx.call.request.PublishRuleset?
      modifies transaction
      ensures var store := transaction.postgres.tables.store;
              r.Failure? ==> Answers(transaction.sha, store, old(transaction.tx.call), UNSTAMPED, store,
                                     Failure(r.error))
      ensures r.Success? ==>
                transaction.Valid() && transaction.tx.phase.Numbered? && transaction.tx.call == old(transaction.tx.call)
    {
      var _ :- transaction.Execute(tick); // lock the flag and validate
      var _ :- transaction.Execute(tick); // lock the environment
      r := transaction.Execute(tick);     // SELECT MAX + 1
    }

    /** Each statement reads the clock for itself. */
    method WritePublication(transaction: Transaction, ticks: seq<Tick>) returns (r: StorageResult<()>)
      requires transaction.Valid() && transaction.tx.phase.Numbered? && transaction.tx.call.request.PublishRuleset?
               && |ticks| == 3
      modifies transaction
      ensures var store := transaction.postgres.tables.store;
              r.Failure? ==> Answers(transaction.sha, store, old(transaction.tx.call), UNSTAMPED, store,
                                     Failure(r.error))
      ensures r.Success? ==>
                && transaction.Valid() && transaction.tx.phase.Written?
                && transaction.tx.call == old(transaction.tx.call) && !Unsupported(transaction.tx.call.request)
    {
      var _ :- transaction.Execute(ticks[0]); // INSERT the ruleset
      var _ :- transaction.Execute(ticks[1]); // bump the flag
      r := transaction.Execute(ticks[2]);     // bump the environment
    }

    method PublishRuleset(call: Call, ticks: seq<Tick>) returns (r: StorageResult<Response>, ghost stamp: Stamp)
      requires call.request.PublishRuleset? && postgres.Valid() && |ticks| == 3
      modifies postgres
      ensures postgres.Valid() && Answers(sha, old(postgres.tables.store), call, stamp, postgres.tables.store, r)
    {
      stamp := UNSTAMPED;
      var transaction := new Transaction(sha, postgres, call);
      var replay :- transaction.AdmitCommand();
      if replay.Some? {
        return Success(replay.value), stamp;
      }
      var _ :- LockForPublication(transaction, ticks[0]);
      var _ :- WritePublication(transaction, ticks);
      var _ :- transaction.Execute(ticks[0]); // store the response
      var response := transaction.Commit();
      return Success(response), transaction.tx.stamp;
    }

    method EvaluateOne(transaction: Transaction, tick: Tick) returns (r: StorageResult<()>)
      requires transaction.Valid() && transaction.tx.phase.First? && Evaluates(transaction.tx.call.request)
      requires |transaction.tx.evaluated| < |EvaluatedKeys(transaction.tx.call.request)|
      requires FreshId(transaction.postgres.tables.store, transaction.tx, tick.receiptId)
      modifies transaction
      ensures var store := transaction.postgres.tables.store;
              r.Failure? ==> Answers(transaction.sha, store, old(transaction.tx.call), UNSTAMPED, store,
                                     Failure(r.error))
      ensures r.Success? ==>
                && transaction.Valid() && transaction.tx.phase.First? && transaction.tx.call == old(transaction.tx.call)
                && |transaction.tx.evaluated| == |old(transaction.tx.evaluated)| + 1
                && transaction.tx.stamp.draws
                   == old(transaction.tx.stamp.draws) + [Draw(tick.receiptId, tick.at, tick.rowSeq)]
    {
      var _ :- transaction.Execute(tick); // SELECT the flag FOR SHARE
      var _ :- transaction.Execute(tick); // SELECT the environment
      var _ :- transaction.Execute(tick); // SELECT the latest ruleset and choose
      r := transaction.Execute(tick);     // INSERT the receipt
    }

    method FinishEvaluation(transaction: Transaction) returns (r: StorageResult<Response>)
      requires transaction.Valid() && transaction.postgres == postgres && transaction.sha == sha
      requires transaction.tx.phase.First? && Evaluates(transaction.tx.call.request)
      requires |transaction.tx.evaluated| == |EvaluatedKeys(transaction.tx.call.request)|
      modifies transaction, postgres
      ensures postgres.Valid()
      ensures r.Failure? ==>
                && postgres.tables == old(postgres.tables)
                && Answers(sha, postgres.tables.store, old(transaction.tx.call), UNSTAMPED, postgres.tables.store, r)
      ensures r.Success? ==>
                Answers(sha, old(postgres.tables.store), old(transaction.tx.call), transaction.tx.stamp,
                        postgres.tables.store, r)
    {
      var tick := Tick(0, 0, 0, []);
      var _ :- transaction.Execute(tick); // the loop is over
      var _ :- transaction.Execute(tick); // store the response
      var response := transaction.Commit();
      return Success(response);
    }

    method Evaluate(call: Call, tick: Tick) returns (r: StorageResult<Response>, ghost stamp: Stamp)
      requires call.request.Evaluate? && postgres.Valid()
               && FreshId(postgres.tables.store, Opened(call), tick.receiptId)
      modifies postgres
      ensures postgres.Valid() && Answers(sha, old(postgres.tables.store), call, stamp, postgres.tables.store, r)
    {
      stamp := UNSTAMPED;
      var transaction := new Transaction(sha, postgres, call);
      var replay :- transaction.AdmitCommand();
      if replay.Some? {
        return Success(replay.value), stamp;
      }
      var _ :- EvaluateOne(transaction, tick);
      var response :- FinishEvaluation(transaction);
      return Success(response), transaction.tx.stamp;
    }

    method EvaluateBatch(call: Call, ticks: seq<Tick>) returns (r: StorageResult<Response>, ghost stamp: Stamp)
      requires call.request.EvaluateBatch? && postgres.Valid()
      requires |ticks| == |call.request.flagKeys| && FreshTicks(postgres.tables.store, ticks)
      modifies postgres
      ensures postgres.Valid() && Answers(sha, old(postgres.tables.store), call, stamp, postgres.tables.store, r)
    {
      stamp := UNSTAMPED;
      var transaction := new Transaction(sha, postgres, call);
      var replay :- transaction.AdmitCommand();
      if replay.Some? {
        return Success(replay.value), stamp;
      }
      for i := 0 to |ticks|
        invariant transaction.Valid() && fresh(transaction) && transaction.sha == sha
                  && transaction.postgres == postgres
        invariant transaction.tx.phase.First? && transaction.tx.call == call && |transaction.tx.evaluated| == i
        invariant postgres.tables == old(postgres.tables) && DrawnFrom(transaction.tx.stamp.draws, ticks[..i])
      {
        NextIdIsFresh(postgres.tables.store, transaction.tx, ticks, i);
        var _ :- EvaluateOne(transaction, ticks[i]);
      }
      var response :- FinishEvaluation(transaction);
      return Success(response), transaction.tx.stamp;
    }
  }

  lemma NextIdIsFresh(store: Store, tx: Tx, ticks: seq<Tick>, i: nat)
    requires i < |ticks| && FreshTicks(store, ticks) && DrawnFrom(tx.stamp.draws, ticks[..i])
    ensures FreshId(store, tx, ticks[i].receiptId)
  {
  }

  /** Fresh UUIDs. */
  predicate FreshTicks(store: Store, ticks: seq<Tick>) {
    && (forall i, j | 0 <= i < |store.receipts| && 0 <= j < |ticks| ::
          store.receipts[i].receipt.receiptId != ticks[j].receiptId)
    && (forall i, j | 0 <= i < j < |ticks| :: ticks[i].receiptId != ticks[j].receiptId)
  }

  predicate DrawnFrom(draws: seq<Draw>, ticks: seq<Tick>) {
    |draws| == |ticks| && forall i | 0 <= i < |draws| :: draws[i].receiptId == ticks[i].receiptId
  }
}
