/** What every D1 run guarantees, whatever the transport does. */
module D1Theorems {
  import opened Results
  import opened Text
  import opened Domain
  import opened SequentialStore
  import opened Invariants
  import opened History
  import opened D1Tables
  import opened D1Store
  import opened D1Commit
  import opened D1Machine

  predicate Finished(s: System, op: nat, result: StorageResult<Response>) {
    op in s.clients && s.clients[op].phase.Done? && s.clients[op].phase.result == result
  }

  /**
    Refinement. The tables are those of a sequential run of the committed
    commands, and every answer other than an indeterminate backend error is the
    sequential answer at a point within the operation's own interval.
   */
  lemma {:induction false} D1Linearizable(sha: Sha256, actions: seq<Action>)
    ensures var s := Execute(sha, actions);
            && Legal(sha, s.log)
            && Abs(s.tables) == Run(sha, s.log)
            && forall op, result | Finished(s, op, result) && result != Failure(Backend) ::
                 Linearized(sha, s.log, s.clients[op].start, op, s.clients[op].call, result, s.clients[op].phase.point)
  {
    ExecutionInv(sha, actions);
    var s := Execute(sha, actions);
    forall op, result | Finished(s, op, result) && result != Failure(Backend)
      ensures Linearized(sha, s.log, s.clients[op].start, op, s.clients[op].call, result, s.clients[op].phase.point)
    {
      assert PhaseInv(sha, s, op);
    }
  }

  /** In any reachable state only a newer commit can make a batch under way fail. */
  lemma {:induction false} D1RejectsOnlyStaleBatches(sha: Sha256, actions: seq<Action>, op: nat)
    requires op in Execute(sha, actions).flights
    ensures var s := Execute(sha, actions);
            && op in s.clients
            && (ExecBatch(s.tables, s.flights[op].batch).Some?
                <==> s.flights[op].snapshot.epoch == s.tables.epoch && RoomFor(s.tables, s.clients[op].call))
  {
    ExecutionInv(sha, actions);
    var s := Execute(sha, actions);
    assert FlightInv(sha, s, op);
    GuardIsTheOnlyReason(sha, s, op);
  }

  /** The epoch is 1 plus the number of stored commands, which is the number of commits. */
  lemma {:induction false} D1EpochConserved(sha: Sha256, actions: seq<Action>)
    ensures var s := Execute(sha, actions);
            s.tables.epoch == 1 + |s.tables.commands| && |s.tables.commands| == |s.log|
  {
    ExecutionInv(sha, actions);
    CommandsConserved(sha, Execute(sha, actions).log);
  }

  // --------------------------------------------------------------- exactly once

  /** One operation commits at most one batch, and so does one command key. */
  lemma {:induction false} D1CommitsAtMostOnce(sha: Sha256, actions: seq<Action>, i: nat, j: nat)
    requires i < |Execute(sha, actions).log| && j < |Execute(sha, actions).log|
    requires var log := Execute(sha, actions).log;
             log[i].op == log[j].op || IdOf(log[i].call) == IdOf(log[j].call)
    ensures i == j
  {
    ExecutionInv(sha, actions);
    var log := Execute(sha, actions).log;
    if IdOf(log[i].call) == IdOf(log[j].call) {
      AtMostOnce(sha, log, i, j);
    }
  }

  /** Every successful answer ever given for a key is the stored one, for the stored hash. */
  lemma {:induction false} D1AnswersAreStored(sha: Sha256, actions: seq<Action>, op: nat, response: Response)
    requires Finished(Execute(sha, actions), op, Success(response))
    ensures var s := Execute(sha, actions);
            var call := s.clients[op].call;
            IdOf(call) in s.tables.commands && s.tables.commands[IdOf(call)] == CommandRow(call.command.hash, response)
  {
    D1Linearizable(sha, actions);
    ExecutionInv(sha, actions);
    var s := Execute(sha, actions);
    var c := s.clients[op];
    AnswerIsStoredAt(sha, s.log, c.start, op, c.call, response, c.phase.point);
  }

  /** Retries and racing clients of one key agree; another request never gets its answer. */
  lemma {:induction false} D1AnswersAgree(sha: Sha256, actions: seq<Action>, a: nat, b: nat, response: Response,
                                          response': Response)
    requires Finished(Execute(sha, actions), a, Success(response))
             && Finished(Execute(sha, actions), b, Success(response'))
    requires IdOf(Execute(sha, actions).clients[a].call) == IdOf(Execute(sha, actions).clients[b].call)
    ensures response == response'
    ensures Execute(sha, actions).clients[a].call.command.hash == Execute(sha, actions).clients[b].call.command.hash
  {
    D1AnswersAreStored(sha, actions, a, response);
    D1AnswersAreStored(sha, actions, b, response');
  }

  // ------------------------------------------- no lost update, final archival

  lemma {:induction false} D1NoLostUpdate(sha: Sha256, actions: seq<Action>, i: nat, j: nat, id: FlagId)
    requires i < j < |Execute(sha, actions).log|
    requires WritesFlag(Execute(sha, actions).log[i].call.request, id)
             && WritesFlag(Execute(sha, actions).log[j].call.request, id)
    ensures var log := Execute(sha, actions).log;
            ExpectedRevision(log[i].call.request) < ExpectedRevision(log[j].call.request)
  {
    ExecutionInv(sha, actions);
    NoLostUpdate(sha, Execute(sha, actions).log, i, j, id);
  }

  lemma {:induction false} D1ArchivalIsFinal(sha: Sha256, actions: seq<Action>, i: nat, j: nat, id: FlagId)
    requires i < j < |Execute(sha, actions).log|
    requires Execute(sha, actions).log[i].call.request.ArchiveFlag?
             && WritesFlag(Execute(sha, actions).log[i].call.request, id)
    ensures !Concerns(Execute(sha, actions).log[j].call.request, id)
    ensures id in Execute(sha, actions).tables.flags && Execute(sha, actions).tables.flags[id].record.archived
  {
    ExecutionInv(sha, actions);
    var s := Execute(sha, actions);
    ArchivalIsFinal(sha, s.log, i, j, id);
    ArchivedStays(sha, s.log, i, |s.log|, id);
    AtEnd(sha, s.log);
    assert id in Abs(s.tables).flags;
  }

  /** Every receipt row of the tables is reproducible and mirrors its command's stored response. */
  lemma {:induction false} D1ReceiptsReproducible(sha: Sha256, actions: seq<Action>, p: nat)
    requires p < |Execute(sha, actions).tables.receipts|
    ensures var s := Execute(sha, actions);
            exists i: nat, k: nat :: Origin(sha, s.log, i, k, p) && Accounted(sha, Abs(s.tables), s.log[i].call, k, p)
  {
    ExecutionInv(sha, actions);
    var s := Execute(sha, actions);
    assert Abs(s.tables).receipts == s.tables.receipts;
    ReceiptsHaveOrigins(sha, s.log, p);
    var i: nat, k: nat :| Origin(sha, s.log, i, k, p);
    ReceiptsReproducible(sha, s.log, i, k, p);
  }

  // ------------------------------------------------------------ real-time order

  /** Logs grow; operations keep their call and start; answers are final. */
  ghost predicate Later(s: System, s': System) {
    && s.log <= s'.log
    && forall op | op in s.clients ::
         && op in s'.clients && s'.clients[op].call == s.clients[op].call && s'.clients[op].start == s.clients[op].start
         && (s.clients[op].phase.Done? ==> s'.clients[op] == s.clients[op])
  }

  lemma ApplicationIsLater(s: System, op: nat)
    requires op in s.flights && op in s.clients
    ensures Later(s, ApplyStep(s, op)) && ApplyStep(s, op).clients == s.clients
  {
  }

  lemma DecisionIsLater(sha: Sha256, s: System, op: nat, inputs: Inputs)
    requires Holds(s, op) && |inputs.drawn| == |EvaluatedKeys(s.clients[op].call.request)|
    ensures Later(s, DecideStep(sha, s, op, inputs)) && DecideStep(sha, s, op, inputs).clients.Keys == s.clients.Keys
  {
  }

  lemma MoveIsLater(s: System, op: nat, phase: Phase)
    requires op in s.clients && !s.clients[op].phase.Done?
    ensures Later(s, Move(s, op, phase)) && Move(s, op, phase).clients.Keys == s.clients.Keys
  {
  }

  lemma MessageIsLater(sha: Sha256, s: System, action: Action)
    requires !action.Invoke? && !action.ApplyBatch? && !action.MakeDecision?
    ensures Later(s, Perform(sha, s, action)) && Perform(sha, s, action).clients.Keys == s.clients.Keys
  {
    var op := action.op;
    if op in s.clients && !s.clients[op].phase.Done? {
      match action
      case ReadSnapshot(_) => MoveIsLater(s, op, SnapshotPhase(s, s.clients[op].call));
      case LoseSnapshot(_) => MoveIsLater(s, op, Done(Failure(Backend), |s.log|));
      case DeliverReply(_) =>
        if s.clients[op].phase.Awaiting? && op in s.applied {
          MoveIsLater(s, op, Done(Success(s.clients[op].phase.response), s.applied[op]));
        }
      case DeliverError(_) => MoveIsLater(s, op, Reconciling);
      case ReadCommand(_) => MoveIsLater(s, op, ReconciledPhase(s, s.clients[op].call));
      case LoseCommand(_) => MoveIsLater(s, op, Done(Failure(Backend), |s.log|));
    }
  }

  lemma StepIsLater(sha: Sha256, s: System, action: Action)
    ensures Later(s, Perform(sha, s, action))
    ensures forall op | op in Perform(sha, s, action).clients && op !in s.clients ::
              Perform(sha, s, action).clients[op].start == |s.log|
  {
    match action
    case Invoke(_, _) =>
    case ApplyBatch(op) =>
      if op in s.flights && op in s.clients {
        ApplicationIsLater(s, op);
      }
    case MakeDecision(op, inputs) =>
      if Holds(s, op) && |inputs.drawn| == |EvaluatedKeys(s.clients[op].call.request)| {
        DecisionIsLater(sha, s, op, inputs);
      }
    case _ =>
      MessageIsLater(sha, s, action);
      assert Perform(sha, s, action).clients.Keys == s.clients.Keys;
  }

  lemma {:induction false} RunIsLater(sha: Sha256, actions: seq<Action>, n: nat)
    requires n <= |actions|
    ensures Later(Execute(sha, actions[..n]), Execute(sha, actions))
    ensures forall op | op in Execute(sha, actions).clients && op !in Execute(sha, actions[..n]).clients ::
              |Execute(sha, actions[..n]).log| <= Execute(sha, actions).clients[op].start
    decreases |actions|
  {
    if n == |actions| {
      assert actions[..n] == actions;
    } else {
      var init := actions[..|actions| - 1];
      RunIsLater(sha, init, n);
      assert init[..n] == actions[..n];
      StepIsLater(sha, Execute(sha, init), actions[|actions| - 1]);
    }
  }

  /**
    An operation that finishes before another begins also comes first in the
    sequential order.
   */
  lemma {:induction false} D1RespectsRealTime(sha: Sha256, actions: seq<Action>, n: nat, a: nat, b: nat,
                                              result: StorageResult<Response>)
    requires n <= |actions| && Finished(Execute(sha, actions[..n]), a, result) && result != Failure(Backend)
    requires b !in Execute(sha, actions[..n]).clients && b in Execute(sha, actions).clients
    ensures Finished(Execute(sha, actions), a, result)
    ensures Execute(sha, actions).clients[a].phase.point <= Execute(sha, actions).clients[b].start
  {
    RunIsLater(sha, actions, n);
    D1Linearizable(sha, actions[..n]);
    assert Finished(Execute(sha, actions[..n]), a, result);
  }

  // ------------------------------------------------------------ growing tables

  /** New rows get numbers above all numbers in use. */
  ghost predicate GrowsUpward(t: Tables, t': Tables) {
    && t.epoch <= t'.epoch && t.sequence <= t'.sequence
    && t.receipts <= t'.receipts
    && (forall i | |t.receipts| <= i < |t'.receipts| :: t'.receipts[i].rowSeq > t.sequence)
    && (forall id | id in t.flags :: id in t'.flags && t'.flags[id].rowSeq == t.flags[id].rowSeq)
    && (forall id | id in t'.flags && id !in t.flags :: t'.flags[id].rowSeq >= t.epoch)
  }

  lemma OnlyBatchesChangeTables(sha: Sha256, s: System, action: Action)
    requires !action.ApplyBatch?
    ensures Perform(sha, s, action).tables == s.tables
  {
  }

  lemma D1StepGrowsUpward(sha: Sha256, s: System, action: Action)
    requires Inv(sha, s)
    ensures GrowsUpward(s.tables, Perform(sha, s, action).tables)
  {
    if !action.ApplyBatch? {
      OnlyBatchesChangeTables(sha, s, action);
    } else if action.op in s.flights && action.op in s.clients {
      ApplicationGrowsUpward(sha, s, action.op);
    }
  }

  lemma ApplicationGrowsUpward(sha: Sha256, s: System, op: nat)
    requires Inv(sha, s) && op in s.flights && op in s.clients
    ensures GrowsUpward(s.tables, ApplyStep(s, op).tables)
  {
    if ExecBatch(s.tables, s.flights[op].batch).Some? {
      CommitGrowsUpward(sha, s, op);
    } else {
      assert GrowsUpward(s.tables, s.tables);
    }
  }

  lemma {:induction false} D1RunGrowsUpward(sha: Sha256, actions: seq<Action>, n: nat)
    requires n <= |actions|
    ensures GrowsUpward(Execute(sha, actions[..n]).tables, Execute(sha, actions).tables)
    decreases |actions|
  {
    if n == |actions| {
      assert actions[..n] == actions;
    } else {
      var init := actions[..|actions| - 1];
      D1RunGrowsUpward(sha, init, n);
      assert init[..n] == actions[..n];
      ExecutionInv(sha, init);
      D1StepGrowsUpward(sha, Execute(sha, init), actions[|actions| - 1]);
      GrowsUpwardTransitive(Execute(sha, actions[..n]).tables, Execute(sha, init).tables, Execute(sha, actions).tables);
    }
  }

  lemma GrowsUpwardTransitive(a: Tables, b: Tables, c: Tables)
    requires GrowsUpward(a, b) && GrowsUpward(b, c)
    ensures GrowsUpward(a, c)
  {
    forall i | |a.receipts| <= i < |c.receipts| ensures c.receipts[i].rowSeq > a.sequence {
      if i < |b.receipts| {
        assert c.receipts[i] == b.receipts[i];
      }
    }
  }

  lemma CommitGrowsUpward(sha: Sha256, s: System, op: nat)
    requires Inv(sha, s) && op in s.flights && op in s.clients && ExecBatch(s.tables, s.flights[op].batch).Some?
    ensures GrowsUpward(s.tables, ExecBatch(s.tables, s.flights[op].batch).value)
  {
    GuardIsTheOnlyReason(sha, s, op);
    assert FlightInv(sha, s, op);
    EpochIdentifiesStore(sha, s, op);
    CommittedGrowsUpward(sha, s.tables, s.clients[op].call, s.flights[op].inputs, s.flights[op].snapshot);
  }

  lemma CommittedGrowsUpward(sha: Sha256, t: Tables, call: Call, inputs: Inputs, snapshot: Snapshot)
    requires Current(sha, t, call, inputs, snapshot) && RoomFor(t, call)
    ensures ExecBatch(t, CommitBatch(snapshot.epoch, call, DecideLocally(sha, snapshot, call, inputs).writes)).Some?
    ensures GrowsUpward(t,
                        ExecBatch(t, CommitBatch(snapshot.epoch, call,
                                                 DecideLocally(sha, snapshot, call, inputs).writes)).value)
  {
    var after := CurrentBatchResult(sha, t, call, inputs, snapshot);
  }
}
