/**
  The D1 store as the program writes it: operations clone and change records,
  push statements and drive one shared database. The wire may lose every
  message; a lost reply is reconciled by a read, and nothing is sent twice.
 */
module D1Client {
  import opened Results
  import opened Text
  import opened Domain
  import opened SequentialStore
  import opened Invariants
  import opened D1Tables
  import opened D1Store
  import opened D1Refinement
  import opened D1Commit

  class Database {
    var tables: Tables

    constructor ()
      ensures tables == MIGRATED && TablesInv(tables)
    {
      tables := MIGRATED;
      new;
      EmptyInv();
      assert Abs(MIGRATED) == EMPTY;
    }

    /** Statement by statement; a violated constraint rolls everything back. */
    method Batch(statements: seq<Statement>) returns (ok: bool)
      modifies this
      ensures ok <==> ExecBatch(old(tables), statements).Some?
      ensures tables == if ok then ExecBatch(old(tables), statements).value else old(tables)
    {
      var before := tables;
      for i := 0 to |statements|
        invariant ExecBatch(before, statements[..i]) == Some(tables)
      {
        assert statements[..i + 1] == statements[..i] + [statements[i]];
        ExecLast(before, statements[..i], statements[i]);
        match Exec(tables, statements[i])
        case None =>
          tables := before;
          RejectedEarly(before, statements, i + 1);
          return false;
        case Some(next) =>
          tables := next;
      }
      assert statements[..|statements|] == statements;
      return true;
    }
  }

  lemma {:induction false} RejectedEarly(t: Tables, statements: seq<Statement>, n: nat)
    requires n <= |statements| && ExecBatch(t, statements[..n]).None?
    ensures ExecBatch(t, statements).None?
    decreases |statements| - n
  {
    if n == |statements| {
      assert statements[..n] == statements;
    } else {
      assert statements[..n + 1] == statements[..n] + [statements[n]];
      ExecLast(t, statements[..n], statements[n]);
      RejectedEarly(t, statements, n + 1);
    }
  }

  /** Which messages get through. */
  datatype Wire = Wire(snapshot: bool, batch: bool, reply: bool, reconciliation: bool)

  predicate Reliable(wire: Wire) {
    wire.snapshot && wire.batch && (wire.reply || wire.reconciliation)
  }

  /** The sequential command that an operation on these tables stands for. */
  function SequentialAnswer(sha: Sha256, t: Tables, call: Call, inputs: Inputs): (Store, StorageResult<Response>)
    requires |inputs.drawn| == |EvaluatedKeys(call.request)|
  {
    Apply(sha, Abs(t), call, StampOf(inputs, t.epoch, t.sequence))
  }

  /**
    The database is unchanged or has applied the sequential command once; the
    result is the sequential answer or an indeterminate backend error; and as
    long as either the reply or the reconciliation gets through, it is the
    sequential answer and the command has been applied.
   */
  ghost predicate Served(sha: Sha256, before: Tables, call: Call, inputs: Inputs, wire: Wire, after: Tables,
                         r: StorageResult<Response>)
    requires |inputs.drawn| == |EvaluatedKeys(call.request)|
  {
    var (store, answer) := SequentialAnswer(sha, before, call, inputs);
    && TablesInv(after) && after.sequence <= I64_MAX
    && (after == before || (wire.batch && answer.Success? && Abs(after) == store && after.epoch == before.epoch + 1))
    && (r == Failure(Backend) || (r == answer && Abs(after) == store))
    && (Reliable(wire) && before.epoch <= I64_MAX && RoomFor(before, call) ==> r == answer && Abs(after) == store)
  }

  ghost predicate Ready(t: Tables, call: Call, inputs: Inputs) {
    && TablesInv(t) && t.sequence <= I64_MAX
    && |inputs.drawn| == |EvaluatedKeys(call.request)|
    && FreshDraws(t.receipts, StampOf(inputs, t.epoch, t.sequence).draws)
  }

  // ------------------------------------------------------------- from local to shared

  /** The snapshot was taken from these tables. */
  ghost predicate Seen(t: Tables, call: Call, snapshot: Snapshot) {
    snapshot.epoch == t.epoch && Shows(Abs(t), t.epoch, call, snapshot)
  }

  lemma SnapshotIsSeen(t: Tables, call: Call, snapshot: Snapshot)
    requires 1 <= t.epoch && TakeSnapshot(t, call) == Success(snapshot)
    ensures Seen(t, call, snapshot)
  {
    SnapshotShows(t, call);
  }

  lemma VerdictServed(sha: Sha256, t: Tables, call: Call, inputs: Inputs, wire: Wire, result: StorageResult<Response>)
    requires Ready(t, call, inputs) && Verdict(sha, Abs(t), call) == Some(result)
    ensures Served(sha, t, call, inputs, wire, t, result)
  {
  }

  lemma AnsweredLocally(sha: Sha256, t: Tables, call: Call, inputs: Inputs, wire: Wire, snapshot: Snapshot,
                        result: StorageResult<Response>)
    requires Ready(t, call, inputs) && Seen(t, call, snapshot)
    requires DecideLocally(sha, snapshot, call, inputs) == Answer(result)
    ensures Served(sha, t, call, inputs, wire, t, result)
  {
    DecisionRefines(sha, Abs(t), snapshot, t.sequence, call, inputs);
    VerdictServed(sha, t, call, inputs, wire, result);
  }

  lemma Replays(sha: Sha256, t: Tables, call: Call, inputs: Inputs, wire: Wire, snapshot: Snapshot)
    requires Ready(t, call, inputs) && Seen(t, call, snapshot)
    ensures match ReplayRows(snapshot.command, call)
            case Failure(error) => Served(sha, t, call, inputs, wire, t, Failure(error))
            case Success(Some(response)) => Served(sha, t, call, inputs, wire, t, Success(response))
            case Success(None) => true
  {
    match ReplayRows(snapshot.command, call)
    case Failure(error) => AnsweredLocally(sha, t, call, inputs, wire, snapshot, Failure(error));
    case Success(Some(response)) => AnsweredLocally(sha, t, call, inputs, wire, snapshot, Success(response));
    case Success(None) =>
  }

  lemma LocalAnswer(sha: Sha256, snapshot: Snapshot, call: Call, inputs: Inputs)
    requires |inputs.drawn| == |EvaluatedKeys(call.request)| && ReplayRows(snapshot.command, call) == Success(None)
    ensures DecideLocally(sha, snapshot, call, inputs)
            == match OperationWrites(sha, snapshot, call, inputs)
               case Failure(error) => Answer(Failure(error))
               case Success(writes) => Submit(writes)
  {
  }

  lemma Refused(sha: Sha256, t: Tables, call: Call, inputs: Inputs, wire: Wire, snapshot: Snapshot, error: StorageError)
    requires Ready(t, call, inputs) && Seen(t, call, snapshot)
    requires ReplayRows(snapshot.command, call) == Success(None)
    requires OperationWrites(sha, snapshot, call, inputs) == Failure(error)
    ensures Served(sha, t, call, inputs, wire, t, Failure(error))
  {
    LocalAnswer(sha, snapshot, call, inputs);
    AnsweredLocally(sha, t, call, inputs, wire, snapshot, Failure(error));
  }

  lemma NotServed(sha: Sha256, t: Tables, call: Call, inputs: Inputs, wire: Wire)
    requires Ready(t, call, inputs) && (!Reliable(wire) || t.epoch > I64_MAX || !RoomFor(t, call))
    ensures Served(sha, t, call, inputs, wire, t, Failure(Backend))
  {
  }

  /** The tables after exactly one application of the command. */
  ghost predicate AppliedOnce(sha: Sha256, before: Tables, call: Call, inputs: Inputs, after: Tables,
                              response: Response)
    requires |inputs.drawn| == |EvaluatedKeys(call.request)|
  {
    && TablesInv(after) && after.sequence <= I64_MAX && after.epoch == before.epoch + 1
    && SequentialAnswer(sha, before, call, inputs) == (Abs(after), Success(response))
  }

  lemma ServedOnce(sha: Sha256, before: Tables, call: Call, inputs: Inputs, wire: Wire, after: Tables,
                   response: Response, r: StorageResult<Response>)
    requires Ready(before, call, inputs) && AppliedOnce(sha, before, call, inputs, after, response) && wire.batch
    requires r == Success(response) || (r == Failure(Backend) && !Reliable(wire))
    ensures Served(sha, before, call, inputs, wire, after, r)
  {
  }

  /** A batch made from this snapshot applies the command, or receipt numbers are used up. */
  lemma SubmissionApplies(sha: Sha256, t: Tables, call: Call, inputs: Inputs, snapshot: Snapshot, writes: Writes)
    requires Ready(t, call, inputs) && Seen(t, call, snapshot)
    requires DecideLocally(sha, snapshot, call, inputs) == Submit(writes)
    ensures match ExecBatch(t, CommitBatch(snapshot.epoch, call, writes))
            case None => !RoomFor(t, call)
            case Some(after) => AppliedOnce(sha, t, call, inputs, after, writes.response)
  {
    CurrentBatchCommits(sha, t, call, inputs, snapshot);
  }

  /** After a commit the reconciliation finds the response. */
  lemma Reconciled(sha: Sha256, t: Tables, call: Call, inputs: Inputs, after: Tables, response: Response)
    requires |inputs.drawn| == |EvaluatedKeys(call.request)| && IdOf(call) !in t.commands
    requires AppliedOnce(sha, t, call, inputs, after, response)
    ensures ReplayRows(SelectCommand(after, call), call) == Success(Some(response))
  {
    var stamp := StampOf(inputs, t.epoch, t.sequence);
    assert Verdict(sha, Abs(t), call).None?;
    var plan := Decide(sha, Abs(t), call.request).value;
    DecideHolds(sha, Abs(t), call.request);
    assert Decodes(OperationOf(call.request), Enact(call, plan, stamp).response);
    assert after.commands == Abs(after).commands;
  }

  /** What the tables are after a batch was sent. */
  function Landed(t: Tables, batch: seq<Statement>, wire: Wire): Tables {
    if wire.batch && ExecBatch(t, batch).Some? then ExecBatch(t, batch).value else t
  }

  function Reconciliation(t: Tables, call: Call, wire: Wire): StorageResult<Response> {
    if !wire.reconciliation then Failure(Backend)
    else
      match ReplayRows(SelectCommand(t, call), call)
      case Success(Some(stored)) => Success(stored)
      case Success(None) => Failure(Backend)
      case Failure(error) => Failure(error)
  }

  /** What the client answers after a batch was sent. */
  function Replied(t: Tables, batch: seq<Statement>, call: Call, response: Response,
                   wire: Wire): StorageResult<Response> {
    if wire.batch && wire.reply && ExecBatch(t, batch).Some? then Success(response)
    else Reconciliation(Landed(t, batch, wire), call, wire)
  }

  lemma LandedServes(sha: Sha256, t: Tables, call: Call, inputs: Inputs, wire: Wire, batch: seq<Statement>,
                     response: Response)
    requires Ready(t, call, inputs) && IdOf(call) !in t.commands
    requires match ExecBatch(t, batch)
             case None => !RoomFor(t, call)
             case Some(after) => AppliedOnce(sha, t, call, inputs, after, response)
    ensures Served(sha, t, call, inputs, wire, Landed(t, batch, wire), Replied(t, batch, call, response, wire))
  {
    if wire.batch && ExecBatch(t, batch).Some? {
      var after := ExecBatch(t, batch).value;
      Reconciled(sha, t, call, inputs, after, response);
      ServedOnce(sha, t, call, inputs, wire, after, response, Replied(t, batch, call, response, wire));
    } else {
      NotServed(sha, t, call, inputs, wire);
    }
  }

  lemma NotYetStored(t: Tables, call: Call, snapshot: Snapshot)
    requires Seen(t, call, snapshot) && ReplayRows(snapshot.command, call) == Success(None)
    ensures IdOf(call) !in t.commands
  {
    ReplayInSnapshot(Abs(t), call, snapshot.command);
  }

  /** A decision that writes is served, whatever the wire does to the batch. */
  lemma SubmissionServes(sha: Sha256, t: Tables, call: Call, inputs: Inputs, wire: Wire, snapshot: Snapshot,
                         writes: Writes)
    requires Ready(t, call, inputs) && Seen(t, call, snapshot)
    requires ReplayRows(snapshot.command, call) == Success(None)
             && OperationWrites(sha, snapshot, call, inputs) == Success(writes)
    ensures var batch := CommitBatch(snapshot.epoch, call, writes);
            Served(sha, t, call, inputs, wire, Landed(t, batch, wire), Replied(t, batch, call, writes.response, wire))
  {
    NotYetStored(t, call, snapshot);
    LocalAnswer(sha, snapshot, call, inputs);
    SubmissionApplies(sha, t, call, inputs, snapshot, writes);
    LandedServes(sha, t, call, inputs, wire, CommitBatch(snapshot.epoch, call, writes), writes.response);
  }

  /** What the local decision leads to, whichever way it goes. */
  lemma DecisionServes(sha: Sha256, t: Tables, call: Call, inputs: Inputs, wire: Wire, snapshot: Snapshot,
                       decided: StorageResult<Writes>)
    requires Ready(t, call, inputs) && Seen(t, call, snapshot)
    requires ReplayRows(snapshot.command, call) == Success(None)
             && decided == OperationWrites(sha, snapshot, call, inputs)
    ensures decided.Failure? ==> Served(sha, t, call, inputs, wire, t, Failure(decided.error))
    ensures decided.Success? ==>
              var batch := CommitBatch(snapshot.epoch, call, decided.value);
              Served(sha, t, call, inputs, wire, Landed(t, batch, wire),
                     Replied(t, batch, call, decided.value.response, wire))
  {
    if decided.Failure? {
      Refused(sha, t, call, inputs, wire, snapshot, decided.error);
    } else {
      SubmissionServes(sha, t, call, inputs, wire, snapshot, decided.value);
    }
  }

  class Client {
    const sha: Sha256
    const database: Database

    constructor (sha: Sha256, database: Database)
      ensures this.sha == sha && this.database == database
    {
      this.sha, this.database := sha, database;
    }

    method Snapshot(call: Call, inputs: Inputs, wire: Wire) returns (r: StorageResult<Snapshot>)
      requires Ready(database.tables, call, inputs)
      ensures r.Success? ==> Seen(database.tables, call, r.value)
      ensures r.Failure? ==> Served(sha, database.tables, call, inputs, wire, database.tables, Failure(r.error))
    {
      SnapshotShows(database.tables, call);
      if !wire.snapshot || database.tables.epoch > I64_MAX {
        NotServed(sha, database.tables, call, inputs, wire);
      }
      if !wire.snapshot {
        return Failure(Backend);
      }
      r := TakeSnapshot(database.tables, call);
      if r.Success? {
        SnapshotIsSeen(database.tables, call, r.value);
      }
    }

    /** The stored answer; otherwise the decision on the snapshot settles the rest. */
    method Replay(snapshot: Snapshot, call: Call, inputs: Inputs, wire: Wire)
      returns (r: StorageResult<Option<Response>>)
      requires Ready(database.tables, call, inputs) && Seen(database.tables, call, snapshot)
      ensures r == ReplayRows(snapshot.command, call)
      ensures match r
              case Failure(error) => Served(sha, database.tables, call, inputs, wire, database.tables, Failure(error))
              case Success(Some(response)) =>
                Served(sha, database.tables, call, inputs, wire, database.tables, Success(response))
              case Success(None) => true
    {
      Replays(sha, database.tables, call, inputs, wire, snapshot);
      r := ReplayRows(snapshot.command, call);
    }

    /** Guard first, then the command with its response, the facts, and the epoch. */
    method Commit(snapshot: Snapshot, call: Call, writes: seq<Statement>, response: Response, wire: Wire)
      returns (r: StorageResult<Response>)
      modifies database
      ensures var batch := CommitBatch(snapshot.epoch, call, Writes(writes, response));
              && database.tables == Landed(old(database.tables), batch, wire)
              && r == Replied(old(database.tables), batch, call, response, wire)
    {
      var batch := [InsertGuard(snapshot.epoch)];
      batch := batch + [InsertCommand(IdOf(call), call.command.hash, response)];
      batch := batch + writes;
      batch := batch + [AdvanceEpoch];
      batch := batch + [ClearGuard];
      assert batch == CommitBatch(snapshot.epoch, call, Writes(writes, response));
      var applied := false;
      if wire.batch {
        applied := database.Batch(batch);
      }
      if applied && wire.reply {
        return Success(response);
      }
      // Read-only reconciliation: the batch is never submitted again.
      if !wire.reconciliation {
        return Failure(Backend);
      }
      var stored :- ReplayRows(SelectCommand(database.tables, call), call);
      if stored.Some? {
        return Success(stored.value);
      }
      return Failure(Backend);
    }

    method CreateFlag(call: Call, inputs: Inputs, wire: Wire) returns (r: StorageResult<Response>)
      requires call.request.CreateFlag? && Ready(database.tables, call, inputs)
      modifies database
      ensures Served(sha, old(database.tables), call, inputs, wire, database.tables, r)
    {
      var request := call.request;
      var snapshot :- Snapshot(call, inputs, wire);
      var replay :- Replay(snapshot, call, inputs, wire);
      if replay.Some? {
        return Success(replay.value);
      }
      DecisionServes(sha, database.tables, call, inputs, wire, snapshot, OperationWrites(sha, snapshot, call, inputs));
      if request.flagKey in snapshot.flags {
        return Failure(Domain(AlreadyExists));
      }
      var now := inputs.now;
      var record := FlagRecord(request.org, request.flagKey, request.name, request.description, request.valueType,
                               false, 1, now, now, None, snapshot.epoch);
      r := Commit(snapshot, call, [InsertFlag(record)], FlagResponse(record), wire);
    }

    method UpdateFlag(call: Call, inputs: Inputs, wire: Wire) returns (r: StorageResult<Response>)
      requires call.request.UpdateFlag? && Ready(database.tables, call, inputs)
      modifies database
      ensures Served(sha, old(database.tables), call, inputs, wire, database.tables, r)
    {
      var request := call.request;
      var snapshot :- Snapshot(call, inputs, wire);
      var replay :- Replay(snapshot, call, inputs, wire);
      if replay.Some? {
        return Success(replay.value);
      }
      DecisionServes(sha, database.tables, call, inputs, wire, snapshot, OperationWrites(sha, snapshot, call, inputs));
      if request.flagKey !in snapshot.flags {
        return Failure(Domain(NotFound));
      }
      var record := snapshot.flags[request.flagKey];
      var _ :- RequireFlagRevision(record, request.expectedRevision);
      record := record.(name := request.name);
      record := record.(description := request.description);
      var revision :- BumpRevision(record.revision);
      record := record.(revision := revision);
      record := record.(updatedAt := inputs.now);
      r := Commit(snapshot, call, [WriteFlag(record)], FlagResponse(record), wire);
    }

    method ArchiveFlag(call: Call, inputs: Inputs, wire: Wire) returns (r: StorageResult<Response>)
      requires call.request.ArchiveFlag? && Ready(database.tables, call, inputs)
      modifies database
      ensures Served(sha, old(database.tables), call, inputs, wire, database.tables, r)
    {
      var request := call.request;
      var snapshot :- Snapshot(call, inputs, wire);
      var replay :- Replay(snapshot, call, inputs, wire);
      if replay.Some? {
        return Success(replay.value);
      }
      DecisionServes(sha, database.tables, call, inputs, wire, snapshot, OperationWrites(sha, snapshot, call, inputs));
      if request.flagKey !in snapshot.flags {
        return Failure(Domain(NotFound));
      }
      var record := snapshot.flags[request.flagKey];
      var _ :- RequireFlagRevision(record, request.expectedRevision);
      var revision :- BumpRevision(record.revision);
      record := record.(revision := revision);
      record := record.(updatedAt := inputs.now);
      record := record.(archived := true);
      record := record.(archivedAt := Some(record.updatedAt));
      r := Commit(snapshot, call, [WriteFlag(record)], FlagResponse(record), wire);
    }

    method PutEnvironment(call: Call, inputs: Inputs, wire: Wire) returns (r: StorageResult<Response>)
      requires call.request.PutEnvironment? && Ready(database.tables, call, inputs)
      modifies database
      ensures Served(sha, old(database.tables), call, inputs, wire, database.tables, r)
    {
      var request := call.request;
      var snapshot :- Snapshot(call, inputs, wire);
      var replay :- Replay(snapshot, call, inputs, wire);
      if replay.Some? {
        return Success(replay.value);
      }
      DecisionServes(sha, database.tables, call, inputs, wire, snapshot, OperationWrites(sha, snapshot, call, inputs));
      var now := inputs.now;
      var record: EnvironmentRecord;
      match (snapshot.environment, request.expected) {
        case (None, None) =>
          record := EnvironmentRecord(request.org, request.environmentKey, request.name, 1, now, now);
        case (Some(current), Some(expected)) =>
          var revision :- Revision(current.revision);
          if revision != expected {
            return Failure(Domain(RevisionConflict));
          }
          record := current.(name := request.name);
          var next :- BumpRevision(record.revision);
          record := record.(revision := next);
          record := record.(updatedAt := now);
        case (None, Some(_)) =>
          return Failure(Domain(NotFound));
        case (Some(_), None) =>
          return Failure(Domain(AlreadyExists));
      }
      r := Commit(snapshot, call, [UpsertEnvironment(record)], EnvironmentResponse(record), wire);
    }

    method PublishRuleset(call: Call, inputs: Inputs, wire: Wire) returns (r: StorageResult<Response>)
      requires call.request.PublishRuleset? && Ready(database.tables, call, inputs)
      modifies database
      ensures Served(sha, old(database.tables), call, inputs, wire, database.tables, r)
    {
      var snapshot :- Snapshot(call, inputs, wire);
      var replay :- Replay(snapshot, call, inputs, wire);
      if replay.Some? {
        return Success(replay.value);
      }
      DecisionServes(sha, database.tables, call, inputs, wire, snapshot, OperationWrites(sha, snapshot, call, inputs));
      var writes :- Publication(snapshot, call, inputs.now);
      r := Commit(snapshot, call, writes.statements, writes.response, wire);
    }

    method Publication(snapshot: Snapshot, call: Call, now: Time) returns (r: StorageResult<Writes>)
      requires call.request.PublishRuleset?
      ensures r == PublishRulesetWrites(snapshot, call, now)
    {
      var request := call.request;
      if request.flagKey !in snapshot.flags {
        return Failure(Domain(NotFound));
      }
      var flag := snapshot.flags[request.flagKey];
      var _ :- RequireFlagRevision(flag, request.expectedRevision);
      var invalid := Validate(flag.valueType, request.definition);
      if invalid.Some? {
        return Failure(Domain(invalid.value));
      }
      if snapshot.environment.None? {
        return Failure(Domain(NotFound));
      }
      var environment := snapshot.environment.value;
      var current :- Revision(environment.revision);
      if current != request.expectedEnvironmentRevision {
        return Failure(Domain(RevisionConflict));
      }
      var flagRevision :- BumpRevision(flag.revision);
      flag := flag.(revision := flagRevision);
      var environmentRevision :- BumpRevision(environment.revision);
      environment := environment.(revision := environmentRevision);
      flag := flag.(updatedAt := now);
      environment := environment.(updatedAt := flag.updatedAt);
      var next := 1;
      if request.flagKey in snapshot.rulesets {
        next :- BumpRevision(snapshot.rulesets[request.flagKey].revision);
      }
      var record := PublishRecord(request.org, request.flagKey, request.environmentKey, next, flag.revision,
                                  environment.revision, call.command.actor, flag.updatedAt);
      var writes := [WriteFlag(flag)];
      writes := writes + [UpsertEnvironment(environment)];
      writes := writes + [InsertRuleset(RulesetId(request.org, request.flagKey, request.environmentKey, next),
                                        request.definition, record)];
      assert writes == [writes[0], writes[1], writes[2]];
      return Success(Writes(writes, PublishResponse(record)));
    }

    /** `evaluate` and `evaluate_batch` share the loop of `evaluations`. */
    method Evaluations(call: Call, inputs: Inputs, wire: Wire) returns (r: StorageResult<Response>)
      requires (call.request.Evaluate? || call.request.EvaluateBatch?) && Ready(database.tables, call, inputs)
      modifies database
      ensures Served(sha, old(database.tables), call, inputs, wire, database.tables, r)
    {
      var snapshot :- Snapshot(call, inputs, wire);
      var replay :- Replay(snapshot, call, inputs, wire);
      if replay.Some? {
        return Success(replay.value);
      }
      DecisionServes(sha, database.tables, call, inputs, wire, snapshot, OperationWrites(sha, snapshot, call, inputs));
      var writes :- EvaluateByLoop(sha, snapshot, call, inputs.drawn);
      r := Commit(snapshot, call, writes.statements, writes.response, wire);
    }
  }
}
