/** What every PostgreSQL run guarantees, whatever is aborted and whichever replies are lost. */
module PgTheorems {
  import opened Results
  import opened Text
  import opened Domain
  import opened SequentialStore
  import opened Invariants
  import opened History
  import opened PgTransactions
  import opened PgFacts
  import opened PgMachine

  predicate Finished(s: System, op: nat, result: StorageResult<Response>) {
    op in s.clients && s.clients[op].reply.Some? && s.clients[op].reply.value.result == result
  }

  /**
    Refinement. The committed rows are those of a sequential run in commit
    order, every command row has its response, and every answer other than a
    backend error or OperationInProgress is the sequential answer at a point
    within the operation's own interval.
   */
  lemma {:induction false} PgLinearizable(sha: Sha256, actions: seq<Action>)
    ensures var s := Execute(sha, actions);
            && Legal(sha, s.log)
            && s.tables == Tables(Run(sha, s.log), map[])
            && |s.tables.store.commands| == |s.log|
            && forall op, result | Finished(s, op, result) && result != Failure(Backend)
                                   && result != Failure(Domain(OperationInProgress)) ::
                 Linearized(sha, s.log, s.clients[op].start, op, s.clients[op].tx.call, result,
                            s.clients[op].reply.value.point)
  {
    ExecutionInv(sha, actions);
    var s := Execute(sha, actions);
    CommandsConserved(sha, s.log);
    forall op, result | Finished(s, op, result) && result != Failure(Backend)
      && result != Failure(Domain(OperationInProgress))
      ensures Linearized(sha, s.log, s.clients[op].start, op, s.clients[op].tx.call, result,
                         s.clients[op].reply.value.point)
    {
      assert ClientInv(sha, s.tables.store, s.log, op, s.clients[op]);
    }
  }

  /**
    OperationInProgress is only ever returned when another transaction has
    committed the same command between this one's lookup and its insert.
   */
  lemma {:induction false} PgInProgressMeansTwin(sha: Sha256, actions: seq<Action>, op: nat) returns (p: nat)
    requires Finished(Execute(sha, actions), op, Failure(Domain(OperationInProgress)))
    ensures var s := Execute(sha, actions);
            TwinCommitted(s.log, op, s.clients[op].start, s.clients[op].tx, p, s.clients[op].reply.value.point)
  {
    ExecutionInv(sha, actions);
    var s := Execute(sha, actions);
    var c := s.clients[op];
    assert ClientInv(sha, s.tables.store, s.log, op, c);
    if Linearized(sha, s.log, c.start, op, c.tx.call, c.reply.value.result, c.reply.value.point) {
      NotSequential(sha, s.log, c.start, op, c.tx.call, c.reply.value.point);
    }
    p :| TwinCommitted(s.log, op, c.start, c.tx, p, c.reply.value.point);
  }

  lemma NotSequential(sha: Sha256, log: Log, start: nat, op: nat, call: Call, point: nat)
    requires Legal(sha, log)
    ensures !Linearized(sha, log, start, op, call, Failure(Domain(OperationInProgress)), point)
  {
    if point <= |log| {
      Reachable(sha, log, point);
      NeverInProgress(sha, At(sha, log, point), call);
      if point < |log| {
        AnswerIsKept(sha, log, point, |log|);
      }
    }
  }

  /**
    A statement stops its transaction only with the sequential answer on the
    rows of that moment, or because a twin has just committed: no key, UNIQUE,
    CHECK or foreign-key constraint is ever violated otherwise.
   */
  lemma {:induction false} PgStopsOnlyWithReason(sha: Sha256, actions: seq<Action>, op: nat, tick: Tick)
    requires Enabled(Execute(sha, actions), op, tick)
    ensures var s := Execute(sha, actions);
            var outcome := Statement(sha, s.tables, s.clients[op].tx, tick, |s.log|);
            outcome.Stop? ==>
              || Sequential(sha, s.tables.store, s.clients[op].tx.call, outcome.error)
              || (outcome.error == Domain(OperationInProgress)
                  && IdOf(s.clients[op].tx.call) in s.tables.store.commands)
  {
    ExecutionInv(sha, actions);
    var s := Execute(sha, actions);
    assert ClientInv(sha, s.tables.store, s.log, op, s.clients[op]);
    if Statement(sha, s.tables, s.clients[op].tx, tick, |s.log|).Stop? && !s.clients[op].tx.phase.Admit? {
      TickIsFresh(s, op, tick);
      StatementStops(sha, s.tables, s.clients[op].tx, tick, |s.log|);
    }
  }

  // ----------------------------------------------------------------- evaluations

  /**
    Evaluations are serializable in commit order: when an evaluation is about to
    commit, every record of its response still names the flag's highest
    published revision, and no flag in it is archived.
   */
  lemma {:induction false} PgEvaluationsAreCurrent(sha: Sha256, actions: seq<Action>, op: nat, k: nat)
    requires ReadyToCommit(Execute(sha, actions), op)
    requires k < |EvaluatedKeys(Execute(sha, actions).clients[op].tx.call.request)|
    ensures var s := Execute(sha, actions);
            var record := RecordIn(s.clients[op].tx.phase.response, k);
            record.Some? && CurrentRecord(s.tables.store, s.clients[op].tx.call.request, k, record.value)
  {
    ExecutionInv(sha, actions);
    var s := Execute(sha, actions);
    CommitExtendsLog(sha, s, op);
    EvaluationsAreCurrent(sha, s.log + [EntryOf(s, op)], |s.log|, k);
    AtAppend(sha, s.log, EntryOf(s, op), |s.log|);
    AtEnd(sha, s.log);
  }

  // --------------------------------------------------------------- exactly once

  /** Every successful answer is the stored one, for the stored hash. */
  lemma {:induction false} PgAnswersAreStored(sha: Sha256, actions: seq<Action>, op: nat, response: Response)
    requires Finished(Execute(sha, actions), op, Success(response))
    ensures var s := Execute(sha, actions);
            var call := s.clients[op].tx.call;
            && IdOf(call) in s.tables.store.commands
            && s.tables.store.commands[IdOf(call)] == CommandRow(call.command.hash, response)
  {
    PgLinearizable(sha, actions);
    var s := Execute(sha, actions);
    var c := s.clients[op];
    AnswerIsStoredAt(sha, s.log, c.start, op, c.tx.call, response, c.reply.value.point);
  }

  /** A transaction that has inserted its command row. */
  predicate Admitted(s: System, op: nat) {
    Running(s, op) && !s.clients[op].tx.phase.LookUp? && !s.clients[op].tx.phase.Admit?
      && !s.clients[op].tx.phase.Replayed?
  }

  /**
    An aborted transaction leaves no row and no lock: its twin, which had to
    wait for the key, is admitted.
   */
  lemma {:induction false} PgAbortFreesKey(sha: Sha256, actions: seq<Action>, op: nat, twin: nat)
    requires Admitted(Execute(sha, actions), op)
    requires Running(Execute(sha, actions), twin) && Execute(sha, actions).clients[twin].tx.phase.Admit?
    requires IdOf(Execute(sha, actions).clients[op].tx.call) == IdOf(Execute(sha, actions).clients[twin].tx.call)
    ensures var s := Execute(sha, actions);
            var s' := Perform(sha, s, AbortTransaction(op));
            && !Unblocked(s, twin)
            && s'.tables == s.tables && s'.log == s.log
            && Unblocked(s', twin) && AdmitStatement(s'.tables, s'.clients[twin].tx).Continue?
  {
    ExecutionInv(sha, actions);
    AbortFreesKey(sha, Execute(sha, actions), op, twin);
  }

  lemma AbortFreesKey(sha: Sha256, s: System, op: nat, twin: nat)
    requires Inv(sha, s) && Admitted(s, op) && Running(s, twin) && s.clients[twin].tx.phase.Admit?
    requires IdOf(s.clients[op].tx.call) == IdOf(s.clients[twin].tx.call)
    ensures var s' := Perform(sha, s, AbortTransaction(op));
            && !Unblocked(s, twin)
            && s'.tables == s.tables && s'.log == s.log
            && Unblocked(s', twin) && AdmitStatement(s'.tables, s'.clients[twin].tx).Continue?
  {
    assert ClientInv(sha, s.tables.store, s.log, op, s.clients[op]);
    AdmittedClaims(sha, s.tables.store, s.clients[op].tx);
    OneHolder(s, op, twin);
    KeyIsFree(s.tables, s.clients[op].tx, s.clients[twin].tx);
  }

  lemma KeyIsFree(t: Tables, tx: Tx, twin: Tx)
    requires Claimed(t.store, tx) && t.unanswered == map[] && IdOf(tx.call) == IdOf(twin.call)
    ensures AdmitStatement(t, twin).Continue?
  {
  }

  /** Only `op` can keep its twin waiting. */
  lemma OneHolder(s: System, op: nat, twin: nat)
    requires Running(s, op) && Running(s, twin) && LocksInv(s) && s.tables.unanswered == map[]
    requires s.clients[twin].tx.phase.Admit? && IdOf(s.clients[op].tx.call) == IdOf(s.clients[twin].tx.call)
    requires !s.clients[op].tx.phase.Admit? && Claimed(s.tables.store, s.clients[op].tx)
    ensures !Unblocked(s, twin) && Unblocked(End(s, op, Failure(Backend), |s.log|), twin)
  {
    var s' := End(s, op, Failure(Backend), |s.log|);
    assert Wants(s.tables, s.clients[twin].tx) == {CommandLock(IdOf(s.clients[op].tx.call))};
    forall other | other in s'.clients && Running(s', other) && other != twin
      ensures Wants(s.tables, s.clients[twin].tx) !! s.clients[other].tx.exclusive + s.clients[other].tx.shared
    {
      assert Compatible(s.clients[op].tx, s.clients[other].tx);
    }
  }

  lemma AdmittedClaims(sha: Sha256, store: Store, tx: Tx)
    requires Facts(sha, store, tx) && !tx.phase.LookUp? && !tx.phase.Admit? && !tx.phase.Replayed?
    ensures Claimed(store, tx)
  {
  }

  // ------------------------------------------- no lost update, final archival

  lemma {:induction false} PgNoLostUpdate(sha: Sha256, actions: seq<Action>, i: nat, j: nat, id: FlagId)
    requires i < j < |Execute(sha, actions).log|
    requires WritesFlag(Execute(sha, actions).log[i].call.request, id)
             && WritesFlag(Execute(sha, actions).log[j].call.request, id)
    ensures var log := Execute(sha, actions).log;
            ExpectedRevision(log[i].call.request) < ExpectedRevision(log[j].call.request)
  {
    ExecutionInv(sha, actions);
    NoLostUpdate(sha, Execute(sha, actions).log, i, j, id);
  }

  lemma {:induction false} PgArchivalIsFinal(sha: Sha256, actions: seq<Action>, i: nat, j: nat, id: FlagId)
    requires i < j < |Execute(sha, actions).log|
    requires Execute(sha, actions).log[i].call.request.ArchiveFlag?
             && WritesFlag(Execute(sha, actions).log[i].call.request, id)
    ensures !Concerns(Execute(sha, actions).log[j].call.request, id)
    ensures id in Execute(sha, actions).tables.store.flags && Execute(sha, actions).tables.store.flags[id].archived
  {
    ExecutionInv(sha, actions);
    var log := Execute(sha, actions).log;
    ArchivalIsFinal(sha, log, i, j, id);
    ArchivedStays(sha, log, i, |log|, id);
    AtEnd(sha, log);
  }

  // ------------------------------------------------------------ real-time order

  /** Logs grow; operations keep their call and start; answers are final. */
  ghost predicate Later(s: System, s': System) {
    && s.log <= s'.log
    && forall op | op in s.clients ::
         && op in s'.clients && s'.clients[op].start == s.clients[op].start
         && (s.clients[op].reply.Some? ==> s'.clients[op] == s.clients[op])
  }

  lemma StatementIsLater(sha: Sha256, s: System, op: nat, tick: Tick)
    requires Enabled(s, op, tick)
    ensures Later(s, StatementStep(sha, s, op, tick)) && StatementStep(sha, s, op, tick).clients.Keys == s.clients.Keys
  {
  }

  lemma CommitIsLater(s: System, op: nat, delivered: bool)
    requires Running(s, op) && (s.clients[op].tx.phase.Answered? || s.clients[op].tx.phase.Replayed?)
    ensures Later(s, CommitStep(s, op, delivered)) && CommitStep(s, op, delivered).clients.Keys == s.clients.Keys
  {
  }

  lemma StepIsLater(sha: Sha256, s: System, action: Action)
    ensures Later(s, Perform(sha, s, action))
    ensures forall op | op in Perform(sha, s, action).clients && op !in s.clients ::
              Perform(sha, s, action).clients[op].start == |s.log|
  {
    match action
    case RunStatement(op, tick) =>
      if Enabled(s, op, tick) {
        StatementIsLater(sha, s, op, tick);
        assert Perform(sha, s, action).clients.Keys == s.clients.Keys;
      }
    case CommitTransaction(op, delivered) =>
      if Running(s, op) && (s.clients[op].tx.phase.Answered? || s.clients[op].tx.phase.Replayed?) {
        CommitIsLater(s, op, delivered);
        assert Perform(sha, s, action).clients.Keys == s.clients.Keys;
      }
    case _ =>
  }

  lemma {:induction false} RunIsLater(sha: Sha256, actions: seq<Action>, n: nat)
    requires n <= |actions|
    ensures Later(Execute(sha, actions[..n]), Execute(sha, actions))
    ensures forall op | op in Execute(sha, actions).clients && op !in Execute(sha, actions[..n]).clients ::
              |Execute(sha, actions[..n]).log| <= Execute(sha, actions).clients[op].start
    decreases |actions|
  {
    if n == |actions| {
      assert actions[..n] == actions;
    } else {
      var init := actions[..|actions| - 1];
      RunIsLater(sha, init, n);
      assert init[..n] == actions[..n];
      StepIsLater(sha, Execute(sha, init), actions[|actions| - 1]);
    }
  }

  /** An operation that finishes before another begins also comes first in commit order. */
  lemma {:induction false} PgRespectsRealTime(sha: Sha256, actions: seq<Action>, n: nat, a: nat, b: nat,
                                              result: StorageResult<Response>)
    requires n <= |actions| && Finished(Execute(sha, actions[..n]), a, result)
    requires result != Failure(Backend) && result != Failure(Domain(OperationInProgress))
    requires b !in Execute(sha, actions[..n]).clients && b in Execute(sha, actions).clients
    ensures Finished(Execute(sha, actions), a, result)
    ensures Execute(sha, actions).clients[a].reply.value.point <= Execute(sha, actions).clients[b].start
  {
    RunIsLater(sha, actions, n);
    PgLinearizable(sha, actions[..n]);
    assert Finished(Execute(sha, actions[..n]), a, result);
  }
}
