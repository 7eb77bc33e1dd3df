/**
  Any number of D1 clients over an adversarial transport. A submitted batch is
  applied atomically at most once, at any later moment or never; the caller may
  get an error in every case. Every interleaving refines the sequential store.
 */
module D1Machine {
  import opened Results
  import opened Text
  import opened Domain
  import opened SequentialStore
  import opened Invariants
  import opened History
  import opened D1Tables
  import opened D1Store
  import opened D1Refinement
  import opened D1Commit

  // ------------------------------------------------------------------- states

  /** `at` and `point` are positions in the log, kept only for the proof. */
  datatype Phase =
    | Begun
    | Holding(snapshot: Snapshot, at: nat)
    | Awaiting(response: Response)
    | Reconciling
    | Done(result: StorageResult<Response>, point: nat)

  /** `start` is the length of the log when the operation was invoked. */
  datatype Client = Client(call: Call, start: nat, phase: Phase)

  /** A batch under way, and the snapshot and inputs it was made from. */
  datatype Flight = Flight(snapshot: Snapshot, at: nat, inputs: Inputs, batch: seq<Statement>)

  datatype System = System(
    tables: Tables,
    log: Log,
    clients: map<nat, Client>,
    flights: map<nat, Flight>,
    applied: map<nat, nat>,
    issued: set<Text>)

  const INITIAL: System := System(MIGRATED, [], map[], map[], map[], {})

  datatype Action =
    | Invoke(op: nat, call: Call)
    | ReadSnapshot(op: nat)
    | LoseSnapshot(op: nat)
    | MakeDecision(op: nat, inputs: Inputs)
    | ApplyBatch(op: nat)
    | DeliverReply(op: nat)
    | DeliverError(op: nat)
    | ReadCommand(op: nat)
    | LoseCommand(op: nat)

  function IdsOf(drawn: seq<Drawn>): set<Text> {
    set d | d in drawn :: d.receiptId
  }

  predicate DistinctIds(drawn: seq<Drawn>) {
    forall i, j | 0 <= i < j < |drawn| :: drawn[i].receiptId != drawn[j].receiptId
  }

  function Move(s: System, op: nat, phase: Phase): System
    requires op in s.clients
  {
    s.(clients := s.clients[op := s.clients[op].(phase := phase)])
  }

  function Finish(s: System, op: nat, result: StorageResult<Response>, point: nat): System
    requires op in s.clients
  {
    Move(s, op, Done(result, point))
  }

  predicate Holds(s: System, op: nat) {
    op in s.clients && s.clients[op].phase.Holding?
  }

  function DecideStep(sha: Sha256, s: System, op: nat, inputs: Inputs): System
    requires Holds(s, op) && |inputs.drawn| == |EvaluatedKeys(s.clients[op].call.request)|
  {
    var call, snapshot, at := s.clients[op].call, s.clients[op].phase.snapshot, s.clients[op].phase.at;
    match DecideLocally(sha, snapshot, call, inputs)
    case Answer(result) => Finish(s, op, result, at)
    case Submit(writes) =>
      var flight := Flight(snapshot, at, inputs, CommitBatch(snapshot.epoch, call, writes));
      Move(s, op, Awaiting(writes.response)).(flights := s.flights[op := flight],
                                              issued := s.issued + IdsOf(inputs.drawn))
  }

  function ApplyStep(s: System, op: nat): System
    requires op in s.flights && op in s.clients
  {
    var flight, landed := s.flights[op], s.(flights := s.flights - {op});
    match ExecBatch(s.tables, flight.batch)
    case None => landed
    case Some(tables) =>
      var stamp := StampOf(flight.inputs, s.tables.epoch, s.tables.sequence);
      landed.(tables := tables, log := s.log + [Entry(op, s.clients[op].call, stamp)],
              applied := s.applied[op := |s.log|])
  }

  function SnapshotPhase(s: System, call: Call): Phase {
    match TakeSnapshot(s.tables, call)
    case Success(snapshot) => Holding(snapshot, |s.log|)
    case Failure(error) => Done(Failure(error), |s.log|)
  }

  function ReconciledPhase(s: System, call: Call): Phase {
    match ReplayRows(SelectCommand(s.tables, call), call)
    case Failure(error) => Done(Failure(error), |s.log|)
    case Success(None) => Done(Failure(Backend), |s.log|)
    case Success(Some(response)) => Done(Success(response), |s.log|)
  }

  /** One step; an action that is not enabled changes nothing. */
  function Perform(sha: Sha256, s: System, action: Action): System {
    match action
    case Invoke(op, call) =>
      if op in s.clients then s else s.(clients := s.clients[op := Client(call, |s.log|, Begun)])
    case ReadSnapshot(op) =>
      if op in s.clients && s.clients[op].phase.Begun? then
        Move(s, op, SnapshotPhase(s, s.clients[op].call))
      else s
    case LoseSnapshot(op) =>
      if op in s.clients && s.clients[op].phase.Begun? then Finish(s, op, Failure(Backend), |s.log|) else s
    // Fresh UUIDs have never been drawn before.
    case MakeDecision(op, inputs) =>
      if Holds(s, op) && |inputs.drawn| == |EvaluatedKeys(s.clients[op].call.request)|
         && DistinctIds(inputs.drawn) && IdsOf(inputs.drawn) !! s.issued
      then DecideStep(sha, s, op, inputs)
      else s
    case ApplyBatch(op) =>
      if op in s.flights && op in s.clients then ApplyStep(s, op) else s
    case DeliverReply(op) =>
      if op in s.clients && s.clients[op].phase.Awaiting? && op in s.applied then
        Finish(s, op, Success(s.clients[op].phase.response), s.applied[op])
      else s
    // A lost reply, a rejected batch, a batch still under way, or a reply of the wrong length.
    case DeliverError(op) =>
      if op in s.clients && s.clients[op].phase.Awaiting? then Move(s, op, Reconciling) else s
    case ReadCommand(op) =>
      if op in s.clients && s.clients[op].phase.Reconciling? then
        Move(s, op, ReconciledPhase(s, s.clients[op].call))
      else s
    case LoseCommand(op) =>
      if op in s.clients && s.clients[op].phase.Reconciling? then Finish(s, op, Failure(Backend), |s.log|) else s
  }

  function Execute(sha: Sha256, actions: seq<Action>): System {
    if actions == [] then INITIAL
    else Perform(sha, Execute(sha, actions[..|actions| - 1]), actions[|actions| - 1])
  }

  // ---------------------------------------------------------------- invariants

  /** The snapshot is what the store was at position `at`; the epoch names the position. */
  ghost predicate Snapped(sha: Sha256, log: Log, start: nat, at: nat, call: Call, snapshot: Snapshot) {
    start <= at <= |log| && snapshot.epoch == at + 1 && Shows(At(sha, log, at), at + 1, call, snapshot)
  }

  /** A batch under way is the decision on its snapshot, with ids nobody else has. */
  ghost predicate Prepared(sha: Sha256, log: Log, start: nat, call: Call, flight: Flight) {
    && Snapped(sha, log, start, flight.at, call, flight.snapshot)
    && |flight.inputs.drawn| == |EvaluatedKeys(call.request)|
    && DistinctIds(flight.inputs.drawn)
    && DecideLocally(sha, flight.snapshot, call, flight.inputs).Submit?
    && flight.batch == CommitBatch(flight.snapshot.epoch, call,
                                   DecideLocally(sha, flight.snapshot, call, flight.inputs).writes)
  }

  ghost predicate PhaseInv(sha: Sha256, s: System, op: nat)
    requires Legal(sha, s.log) && op in s.clients
  {
    var c := s.clients[op];
    && c.start <= |s.log|
    && match c.phase
       case Begun => op !in s.flights && op !in s.applied
       case Holding(snapshot, at) =>
         op !in s.flights && op !in s.applied && Snapped(sha, s.log, c.start, at, c.call, snapshot)
       case Awaiting(response) =>
         && (op in s.flights ==> WillAnswer(sha, c.call, s.flights[op], response))
         && (op in s.applied ==> s.applied[op] < |s.log| && ResponseAt(sha, s.log, s.applied[op]) == Success(response))
       case Reconciling => true
       case Done(result, point) =>
         result == Failure(Backend) || Linearized(sha, s.log, c.start, op, c.call, result, point)
  }

  ghost predicate WillAnswer(sha: Sha256, call: Call, flight: Flight, response: Response) {
    && |flight.inputs.drawn| == |EvaluatedKeys(call.request)|
    && DecideLocally(sha, flight.snapshot, call, flight.inputs).Submit?
    && DecideLocally(sha, flight.snapshot, call, flight.inputs).writes.response == response
  }

  ghost predicate FlightInv(sha: Sha256, s: System, op: nat)
    requires op in s.flights
  {
    && op in s.clients && op !in s.applied
    && Prepared(sha, s.log, s.clients[op].start, s.clients[op].call, s.flights[op])
    && IdsOf(s.flights[op].inputs.drawn) <= s.issued
    && (forall i | 0 <= i < |s.tables.receipts| ::
          s.tables.receipts[i].receipt.receiptId !in IdsOf(s.flights[op].inputs.drawn))
  }

  ghost predicate AppliedInv(s: System, op: nat)
    requires op in s.applied
  {
    && op in s.clients && s.applied[op] < |s.log|
    && s.clients[op].start <= s.applied[op]
    && s.log[s.applied[op]].op == op && s.log[s.applied[op]].call == s.clients[op].call
  }

  ghost predicate StoreMatches(sha: Sha256, s: System) {
    && Legal(sha, s.log)
    && TablesInv(s.tables) && s.tables.sequence <= I64_MAX
    && Abs(s.tables) == Run(sha, s.log)
    && s.tables.epoch == |s.log| + 1 <= I64_MAX + 1
  }

  ghost predicate ClientsInv(sha: Sha256, s: System)
    requires Legal(sha, s.log)
  {
    forall op | op in s.clients :: PhaseInv(sha, s, op)
  }

  ghost predicate FlightsInv(sha: Sha256, s: System) {
    forall op | op in s.flights :: FlightInv(sha, s, op)
  }

  /** Applied operations and log entries correspond one to one. */
  ghost predicate EntriesInv(s: System) {
    && (forall op | op in s.applied :: AppliedInv(s, op))
    && (forall i: nat | i < |s.log| :: s.log[i].op in s.applied && s.applied[s.log[i].op] == i)
  }

  ghost predicate IdsInv(s: System) {
    && (forall a, b | a in s.flights && b in s.flights && a != b ::
          IdsOf(s.flights[a].inputs.drawn) !! IdsOf(s.flights[b].inputs.drawn))
    && (forall i | 0 <= i < |s.tables.receipts| :: s.tables.receipts[i].receipt.receiptId in s.issued)
  }

  ghost predicate Inv(sha: Sha256, s: System) {
    StoreMatches(sha, s) && ClientsInv(sha, s) && FlightsInv(sha, s) && EntriesInv(s) && IdsInv(s)
  }

  lemma InitialInv(sha: Sha256)
    ensures Inv(sha, INITIAL)
  {
    EmptyInv();
    assert Abs(MIGRATED) == EMPTY;
  }

  // -------------------------------------------------------- facts that stay true

  lemma SnappedStays(sha: Sha256, log: Log, entry: Entry, start: nat, at: nat, call: Call, snapshot: Snapshot)
    requires Snapped(sha, log, start, at, call, snapshot)
    ensures Snapped(sha, log + [entry], start, at, call, snapshot)
  {
    AtAppend(sha, log, entry, at);
  }

  // --------------------------------------------------------------------- steps

  /** Moves that change one client's phase and nothing else. */
  lemma MoveKeeps(sha: Sha256, s: System, op: nat, phase: Phase)
    requires Inv(sha, s) && op in s.clients && PhaseInv(sha, Move(s, op, phase), op)
    ensures Inv(sha, Move(s, op, phase))
  {
    var s' := Move(s, op, phase);
    RestKept(sha, s, s');
    forall other | other in s'.clients ensures PhaseInv(sha, s', other) {
      assert PhaseInv(sha, s, other);
    }
  }

  /** Nothing changes but the clients, and those with a batch stay what they are. */
  ghost predicate OnlyClients(s: System, s': System) {
    && s'.tables == s.tables && s'.log == s.log && s'.applied == s.applied && s'.flights == s.flights
       && s'.issued == s.issued
    && forall op | op in s.clients ::
         op in s'.clients && s'.clients[op].call == s.clients[op].call && s'.clients[op].start == s.clients[op].start
  }

  lemma RestKept(sha: Sha256, s: System, s': System)
    requires FlightsInv(sha, s) && EntriesInv(s) && OnlyClients(s, s')
    ensures FlightsInv(sha, s') && EntriesInv(s')
  {
    forall op | op in s'.flights ensures FlightInv(sha, s', op) {
      assert FlightInv(sha, s, op);
    }
    forall op | op in s'.applied ensures AppliedInv(s', op) {
      assert AppliedInv(s, op);
    }
  }

  lemma InvokeKeeps(sha: Sha256, s: System, op: nat, call: Call)
    requires Inv(sha, s) && op !in s.clients
    ensures Inv(sha, s.(clients := s.clients[op := Client(call, |s.log|, Begun)]))
  {
    var s' := s.(clients := s.clients[op := Client(call, |s.log|, Begun)]);
    assert op !in s.flights && op !in s.applied by {
      assert op in s.flights ==> FlightInv(sha, s, op);
      assert op in s.applied ==> AppliedInv(s, op);
    }
    RestKept(sha, s, s');
    forall other | other in s'.clients ensures PhaseInv(sha, s', other) {
      assert other != op ==> PhaseInv(sha, s, other);
    }
  }

  lemma SnapshotSnapped(sha: Sha256, s: System, start: nat, call: Call, snapshot: Snapshot)
    requires StoreMatches(sha, s) && start <= |s.log| && TakeSnapshot(s.tables, call) == Success(snapshot)
    ensures Snapped(sha, s.log, start, |s.log|, call, snapshot)
  {
    SnapshotShows(s.tables, call);
    AtEnd(sha, s.log);
  }

  /** A snapshot can only fail by an unreadable epoch. */
  lemma SnapshotFails(s: System, call: Call)
    requires 1 <= s.tables.epoch && TakeSnapshot(s.tables, call).Failure?
    ensures TakeSnapshot(s.tables, call).error == Backend
  {
    SnapshotShows(s.tables, call);
  }

  lemma SnapshotKeeps(sha: Sha256, s: System, op: nat)
    requires Inv(sha, s) && op in s.clients && s.clients[op].phase.Begun?
    ensures Inv(sha, Perform(sha, s, ReadSnapshot(op)))
  {
    var call := s.clients[op].call;
    assert PhaseInv(sha, s, op);
    match TakeSnapshot(s.tables, call)
    case Success(snapshot) =>
      SnapshotSnapped(sha, s, s.clients[op].start, call, snapshot);
      MoveKeeps(sha, s, op, Holding(snapshot, |s.log|));
    case Failure(error) =>
      SnapshotFails(s, call);
      MoveKeeps(sha, s, op, Done(Failure(Backend), |s.log|));
  }

  lemma DecisionKeeps(sha: Sha256, s: System, op: nat, inputs: Inputs)
    requires Inv(sha, s) && Holds(s, op)
    requires |inputs.drawn| == |EvaluatedKeys(s.clients[op].call.request)|
    requires DistinctIds(inputs.drawn) && IdsOf(inputs.drawn) !! s.issued
    ensures Inv(sha, DecideStep(sha, s, op, inputs))
  {
    var c, snapshot, at := s.clients[op], s.clients[op].phase.snapshot, s.clients[op].phase.at;
    assert PhaseInv(sha, s, op);
    Reachable(sha, s.log, at);
    DecisionRefines(sha, At(sha, s.log, at), snapshot, 0, c.call, inputs);
    match DecideLocally(sha, snapshot, c.call, inputs)
    case Answer(result) => MoveKeeps(sha, s, op, Done(result, at));
    case Submit(writes) => SubmissionKeeps(sha, s, op, inputs, writes);
  }

  lemma SubmissionKeeps(sha: Sha256, s: System, op: nat, inputs: Inputs, writes: Writes)
    requires Inv(sha, s) && Holds(s, op)
    requires |inputs.drawn| == |EvaluatedKeys(s.clients[op].call.request)|
    requires DistinctIds(inputs.drawn) && IdsOf(inputs.drawn) !! s.issued
    requires DecideLocally(sha, s.clients[op].phase.snapshot, s.clients[op].call, inputs) == Submit(writes)
    ensures Inv(sha, DecideStep(sha, s, op, inputs))
  {
    var flight := Flight(s.clients[op].phase.snapshot, s.clients[op].phase.at, inputs,
                         CommitBatch(s.clients[op].phase.snapshot.epoch, s.clients[op].call, writes));
    assert PhaseInv(sha, s, op);
    SubmissionKeepsClients(sha, s, op, flight, writes);
    SubmissionKeepsFlights(sha, s, op, flight, writes);
    SubmissionKeepsIds(sha, s, op, flight, writes);
  }

  function Submitted(s: System, op: nat, flight: Flight, writes: Writes): System
    requires op in s.clients
  {
    Move(s, op, Awaiting(writes.response)).(flights := s.flights[op := flight],
                                            issued := s.issued + IdsOf(flight.inputs.drawn))
  }

  lemma SubmissionKeepsClients(sha: Sha256, s: System, op: nat, flight: Flight, writes: Writes)
    requires Legal(sha, s.log) && ClientsInv(sha, s) && Holds(s, op)
             && WillAnswer(sha, s.clients[op].call, flight, writes.response)
    ensures ClientsInv(sha, Submitted(s, op, flight, writes))
  {
    var s' := Submitted(s, op, flight, writes);
    assert PhaseInv(sha, s, op);
    forall other | other in s'.clients ensures PhaseInv(sha, s', other) {
      assert PhaseInv(sha, s, other);
    }
  }

  lemma SubmissionKeepsFlights(sha: Sha256, s: System, op: nat, flight: Flight, writes: Writes)
    requires FlightsInv(sha, s) && EntriesInv(s) && IdsInv(s) && op in s.clients && op !in s.applied
    requires Prepared(sha, s.log, s.clients[op].start, s.clients[op].call, flight)
    requires IdsOf(flight.inputs.drawn) !! s.issued
    ensures FlightsInv(sha, Submitted(s, op, flight, writes)) && EntriesInv(Submitted(s, op, flight, writes))
  {
    var s' := Submitted(s, op, flight, writes);
    forall other | other in s'.flights ensures FlightInv(sha, s', other) {
      assert other != op ==> FlightInv(sha, s, other);
    }
    forall other | other in s'.applied ensures AppliedInv(s', other) {
      assert AppliedInv(s, other);
    }
  }

  lemma SubmissionKeepsIds(sha: Sha256, s: System, op: nat, flight: Flight, writes: Writes)
    requires FlightsInv(sha, s) && IdsInv(s) && op in s.clients && op !in s.flights
    requires IdsOf(flight.inputs.drawn) !! s.issued
    ensures IdsInv(Submitted(s, op, flight, writes))
  {
    var s' := Submitted(s, op, flight, writes);
    forall a, b | a in s'.flights && b in s'.flights && a != b
      ensures IdsOf(s'.flights[a].inputs.drawn) !! IdsOf(s'.flights[b].inputs.drawn)
    {
      assert a != op ==> FlightInv(sha, s, a);
      assert b != op ==> FlightInv(sha, s, b);
    }
  }

  // ----------------------------------------------------------- applying a batch

  /** An equal epoch means that the tables are those of the snapshot. */
  lemma EpochIdentifiesStore(sha: Sha256, s: System, op: nat)
    requires Inv(sha, s) && op in s.flights && s.tables.epoch == s.flights[op].snapshot.epoch
    ensures Current(sha, s.tables, s.clients[op].call, s.flights[op].inputs, s.flights[op].snapshot)
    ensures s.flights[op].at == |s.log|
  {
    var flight := s.flights[op];
    assert FlightInv(sha, s, op);
    AtEnd(sha, s.log);
    DrawsAreFresh(s.tables.receipts, flight.inputs, s.tables.epoch, s.tables.sequence);
  }

  lemma DrawsAreFresh(rows: seq<ReceiptRow>, inputs: Inputs, epoch: int, sequence: int)
    requires DistinctIds(inputs.drawn)
    requires forall i | 0 <= i < |rows| :: rows[i].receipt.receiptId !in IdsOf(inputs.drawn)
    ensures FreshDraws(rows, StampOf(inputs, epoch, sequence).draws)
  {
    var draws := StampOf(inputs, epoch, sequence).draws;
    forall i, j | 0 <= i < |rows| && 0 <= j < |draws| ensures rows[i].receipt.receiptId != draws[j].receiptId {
      assert inputs.drawn[j].receiptId in IdsOf(inputs.drawn);
    }
  }

  /**
    The guard is the only reason for a rejection: in every reachable state a
    batch under way would be applied exactly when no other batch has committed
    since its snapshot (and receipt numbers are not used up).
   */
  lemma GuardIsTheOnlyReason(sha: Sha256, s: System, op: nat)
    requires Inv(sha, s) && op in s.flights
    ensures op in s.clients
    ensures ExecBatch(s.tables, s.flights[op].batch).Some?
            <==> s.flights[op].at == |s.log| && RoomFor(s.tables, s.clients[op].call)
  {
    assert FlightInv(sha, s, op);
    var flight, call := s.flights[op], s.clients[op].call;
    if s.tables.epoch == flight.snapshot.epoch {
      EpochIdentifiesStore(sha, s, op);
      CurrentBatchCommits(sha, s.tables, call, flight.inputs, flight.snapshot);
    } else {
      GuardRejects(s.tables, flight.snapshot.epoch, call,
                   DecideLocally(sha, flight.snapshot, call, flight.inputs).writes);
    }
  }

  lemma RejectionKeeps(sha: Sha256, s: System, op: nat)
    requires Inv(sha, s) && op in s.flights
    ensures Inv(sha, s.(flights := s.flights - {op}))
  {
    var s' := s.(flights := s.flights - {op});
    forall other | other in s'.clients ensures PhaseInv(sha, s', other) {
      assert PhaseInv(sha, s, other);
    }
    forall other | other in s'.flights ensures FlightInv(sha, s', other) {
      assert FlightInv(sha, s, other);
    }
    forall other | other in s'.applied ensures AppliedInv(s', other) {
      assert AppliedInv(s, other);
    }
  }

  /** `s'` is `s` after the batch of `op` has committed as `entry`. */
  ghost predicate CommitStep(sha: Sha256, s: System, op: nat, entry: Entry, s': System) {
    && op in s.flights && op in s.clients
    && s'.log == s.log + [entry] && entry.op == op && entry.call == s.clients[op].call
    && s'.clients == s.clients && s'.flights == s.flights - {op}
    && s'.applied == s.applied[op := |s.log|] && s'.issued == s.issued
    && Legal(sha, s.log) && StoreMatches(sha, s')
    && SameDraws(s.flights[op].inputs.drawn, entry.stamp.draws)
    && FreshRows(s.tables.receipts, s'.tables.receipts, s.flights[op].inputs.drawn)
  }

  /** New receipts carry ids drawn for the batch. */
  ghost predicate FreshRows(before: seq<ReceiptRow>, after: seq<ReceiptRow>, drawn: seq<Drawn>) {
    forall i | 0 <= i < |after| ::
      (i < |before| && after[i] == before[i]) || after[i].receipt.receiptId in IdsOf(drawn)
  }

  lemma RowsAreFresh(store: Store, after: Store, call: Call, draws: seq<Draw>, drawn: seq<Drawn>)
    requires Appended(store, after, call, draws) && SameDraws(drawn, draws)
    ensures FreshRows(store.receipts, after.receipts, drawn)
  {
    var n := |store.receipts|;
    forall i | 0 <= i < |after.receipts|
      ensures (i < n && after.receipts[i] == store.receipts[i]) || after.receipts[i].receipt.receiptId in IdsOf(drawn)
    {
      if i < n {
        assert after.receipts[..n][i] == store.receipts[i];
      } else {
        assert Recorded(after, call, draws[i - n], i - n, after.receipts[n + (i - n)]);
        assert drawn[i - n].receiptId in IdsOf(drawn);
      }
    }
  }

  /** A successful batch extends the log by the command it stands for. */
  lemma BatchExtendsLog(sha: Sha256, t: Tables, log: Log, op: nat, call: Call, inputs: Inputs, snapshot: Snapshot)
    returns (entry: Entry, after: Tables)
    requires Current(sha, t, call, inputs, snapshot) && Legal(sha, log) && Abs(t) == Run(sha, log)
    requires ExecBatch(t, CommitBatch(snapshot.epoch, call, DecideLocally(sha, snapshot, call, inputs).writes)).Some?
    ensures after == ExecBatch(t,
                               CommitBatch(snapshot.epoch, call,
                                           DecideLocally(sha, snapshot, call, inputs).writes)).value
    ensures entry == Entry(op, call, StampOf(inputs, t.epoch, t.sequence))
    ensures Legal(sha, log + [entry]) && Run(sha, log + [entry]) == Abs(after)
    ensures TablesInv(after) && after.sequence <= I64_MAX && after.epoch == t.epoch + 1
    ensures ResponseAt(sha, log + [entry], |log|) == Success(DecideLocally(sha, snapshot, call, inputs).writes.response)
    ensures Admissible(sha, Abs(t), call, entry.stamp) && Abs(after) == After(sha, Abs(t), call, entry.stamp)
  {
    CurrentBatchCommits(sha, t, call, inputs, snapshot);
    after := ExecBatch(t, CommitBatch(snapshot.epoch, call, DecideLocally(sha, snapshot, call, inputs).writes)).value;
    entry := Entry(op, call, StampOf(inputs, t.epoch, t.sequence));
    LegalAppend(sha, log, entry);
    AtEnd(sha, log);
  }

  lemma CommittedRowsAreFresh(sha: Sha256, t: Tables, after: Tables, call: Call, inputs: Inputs)
    requires var stamp := StampOf(inputs, t.epoch, t.sequence);
             Admissible(sha, Abs(t), call, stamp) && Abs(after) == After(sha, Abs(t), call, stamp)
    ensures FreshRows(t.receipts, after.receipts, inputs.drawn)
  {
    var stamp := StampOf(inputs, t.epoch, t.sequence);
    ReceiptsAppended(sha, Abs(t), call, stamp);
    RowsAreFresh(Abs(t), Abs(after), call, stamp.draws, inputs.drawn);
  }

  /** A batch that goes through was made from a snapshot that is still current. */
  lemma FlightIsCurrent(sha: Sha256, s: System, op: nat)
    requires Inv(sha, s) && op in s.flights && op in s.clients && ExecBatch(s.tables, s.flights[op].batch).Some?
    ensures Current(sha, s.tables, s.clients[op].call, s.flights[op].inputs, s.flights[op].snapshot)
    ensures s.flights[op].batch
            == CommitBatch(s.flights[op].snapshot.epoch, s.clients[op].call,
                           DecideLocally(sha, s.flights[op].snapshot, s.clients[op].call, s.flights[op].inputs).writes)
  {
    GuardIsTheOnlyReason(sha, s, op);
    assert FlightInv(sha, s, op);
    EpochIdentifiesStore(sha, s, op);
  }

  lemma StepCommits(sha: Sha256, s: System, op: nat, entry: Entry, after: Tables)
    requires op in s.flights && op in s.clients && ExecBatch(s.tables, s.flights[op].batch) == Some(after)
    requires entry == Entry(op, s.clients[op].call, StampOf(s.flights[op].inputs, s.tables.epoch, s.tables.sequence))
    requires Legal(sha, s.log) && Legal(sha, s.log + [entry]) && Run(sha, s.log + [entry]) == Abs(after)
    requires TablesInv(after) && after.sequence <= I64_MAX
             && after.epoch == s.tables.epoch + 1 == |s.log| + 2 <= I64_MAX + 1
    requires FreshRows(s.tables.receipts, after.receipts, s.flights[op].inputs.drawn)
    ensures CommitStep(sha, s, op, entry, ApplyStep(s, op))
  {
  }

  lemma ApplicationCommits(sha: Sha256, s: System, op: nat) returns (entry: Entry, response: Response)
    requires Inv(sha, s) && op in s.flights && op in s.clients && ExecBatch(s.tables, s.flights[op].batch).Some?
    ensures CommitStep(sha, s, op, entry, ApplyStep(s, op))
    ensures ResponseAt(sha, s.log + [entry], |s.log|) == Success(response)
    ensures WillAnswer(sha, s.clients[op].call, s.flights[op], response)
  {
    FlightIsCurrent(sha, s, op);
    var after;
    entry, after := BatchExtendsLog(sha, s.tables, s.log, op, s.clients[op].call, s.flights[op].inputs,
                                    s.flights[op].snapshot);
    CommittedRowsAreFresh(sha, s.tables, after, s.clients[op].call, s.flights[op].inputs);
    response := DecideLocally(sha, s.flights[op].snapshot, s.clients[op].call, s.flights[op].inputs).writes.response;
    StepCommits(sha, s, op, entry, after);
  }

  lemma OtherPhaseStays(sha: Sha256, s: System, op: nat, entry: Entry, s': System, other: nat)
    requires CommitStep(sha, s, op, entry, s') && other in s.clients && other != op && PhaseInv(sha, s, other)
    ensures PhaseInv(sha, s', other)
  {
    var c := s.clients[other];
    match c.phase {
      case Holding(snapshot, at) => SnappedStays(sha, s.log, entry, c.start, at, c.call, snapshot);
      case Awaiting(response) =>
        if other in s.applied {
          ResponseStays(sha, s.log, entry, s.applied[other]);
        }
      case Done(result, point) =>
        if result != Failure(Backend) {
          LinearizedStays(sha, s.log, entry, c.start, other, c.call, result, point);
        }
      case _ =>
    }
  }

  lemma OwnPhaseStays(sha: Sha256, s: System, op: nat, entry: Entry, s': System, response: Response)
    requires CommitStep(sha, s, op, entry, s') && PhaseInv(sha, s, op)
    requires ResponseAt(sha, s'.log, |s.log|) == Success(response)
    requires WillAnswer(sha, s.clients[op].call, s.flights[op], response)
    ensures PhaseInv(sha, s', op)
  {
    var c := s.clients[op];
    if c.phase.Done? && c.phase.result != Failure(Backend) {
      LinearizedStays(sha, s.log, entry, c.start, op, c.call, c.phase.result, c.phase.point);
    }
  }

  lemma OtherFlightStays(sha: Sha256, s: System, op: nat, entry: Entry, s': System, other: nat)
    requires CommitStep(sha, s, op, entry, s') && other in s.flights && other != op && FlightInv(sha, s, other)
    requires IdsOf(s.flights[op].inputs.drawn) !! IdsOf(s.flights[other].inputs.drawn)
    ensures FlightInv(sha, s', other)
  {
    var c, flight := s.clients[other], s.flights[other];
    SnappedStays(sha, s.log, entry, c.start, flight.at, c.call, flight.snapshot);
  }

  lemma CommitKeepsClients(sha: Sha256, s: System, op: nat, entry: Entry, s': System)
    requires CommitStep(sha, s, op, entry, s') && ClientsInv(sha, s) && PhaseInv(sha, s', op)
    ensures ClientsInv(sha, s')
  {
    forall other | other in s'.clients ensures PhaseInv(sha, s', other) {
      if other != op {
        assert PhaseInv(sha, s, other);
        OtherPhaseStays(sha, s, op, entry, s', other);
      }
    }
  }

  lemma CommitKeepsFlights(sha: Sha256, s: System, op: nat, entry: Entry, s': System)
    requires CommitStep(sha, s, op, entry, s') && FlightsInv(sha, s) && IdsInv(s)
    ensures FlightsInv(sha, s') && IdsInv(s')
  {
    assert FlightInv(sha, s, op);
    forall other | other in s'.flights ensures FlightInv(sha, s', other) {
      assert FlightInv(sha, s, other);
      OtherFlightStays(sha, s, op, entry, s', other);
    }
  }

  lemma CommitKeepsEntries(sha: Sha256, s: System, op: nat, entry: Entry, s': System)
    requires CommitStep(sha, s, op, entry, s') && EntriesInv(s) && op !in s.applied && s.clients[op].start <= |s.log|
    ensures EntriesInv(s')
  {
    forall other | other in s'.applied ensures AppliedInv(s', other) {
      assert other != op ==> AppliedInv(s, other);
    }
    forall i: nat | i < |s'.log| ensures s'.log[i].op in s'.applied && s'.applied[s'.log[i].op] == i {
      assert i < |s.log| ==> s'.log[i] == s.log[i];
    }
  }

  lemma ApplicationKeeps(sha: Sha256, s: System, op: nat)
    requires Inv(sha, s) && op in s.flights && op in s.clients
    ensures Inv(sha, ApplyStep(s, op))
  {
    if ExecBatch(s.tables, s.flights[op].batch).None? {
      RejectionKeeps(sha, s, op);
    } else {
      var entry, response := ApplicationCommits(sha, s, op);
      assert FlightInv(sha, s, op);
      assert PhaseInv(sha, s, op);
      OwnPhaseStays(sha, s, op, entry, ApplyStep(s, op), response);
      CommitKeepsClients(sha, s, op, entry, ApplyStep(s, op));
      CommitKeepsFlights(sha, s, op, entry, ApplyStep(s, op));
      CommitKeepsEntries(sha, s, op, entry, ApplyStep(s, op));
    }
  }

  // -------------------------------------------------------------------- replies

  lemma ReplyKeeps(sha: Sha256, s: System, op: nat)
    requires Inv(sha, s) && op in s.clients && s.clients[op].phase.Awaiting? && op in s.applied
    ensures Inv(sha, Finish(s, op, Success(s.clients[op].phase.response), s.applied[op]))
  {
    assert PhaseInv(sha, s, op);
    assert AppliedInv(s, op);
    MoveKeeps(sha, s, op, Done(Success(s.clients[op].phase.response), s.applied[op]));
  }

  lemma ReconciliationKeeps(sha: Sha256, s: System, op: nat)
    requires Inv(sha, s) && op in s.clients && s.clients[op].phase.Reconciling?
    ensures Inv(sha, Perform(sha, s, ReadCommand(op)))
  {
    var call := s.clients[op].call;
    assert PhaseInv(sha, s, op);
    AtEnd(sha, s.log);
    ReplayInSnapshot(Run(sha, s.log), call, SelectCommand(s.tables, call));
    match ReplayRows(SelectCommand(s.tables, call), call)
    case Failure(error) => MoveKeeps(sha, s, op, Done(Failure(error), |s.log|));
    case Success(None) => MoveKeeps(sha, s, op, Done(Failure(Backend), |s.log|));
    case Success(Some(response)) => MoveKeeps(sha, s, op, Done(Success(response), |s.log|));
  }

  lemma StepKeeps(sha: Sha256, s: System, action: Action)
    requires Inv(sha, s)
    ensures Inv(sha, Perform(sha, s, action))
  {
    var op := action.op;
    if op in s.clients {
      assert PhaseInv(sha, s, op);
    }
    match action
    case Invoke(_, call) =>
      if op !in s.clients {
        InvokeKeeps(sha, s, op, call);
      }
    case ReadSnapshot(_) =>
      if op in s.clients && s.clients[op].phase.Begun? {
        SnapshotKeeps(sha, s, op);
      }
    case LoseSnapshot(_) =>
      if op in s.clients && s.clients[op].phase.Begun? {
        MoveKeeps(sha, s, op, Done(Failure(Backend), |s.log|));
      }
    case MakeDecision(_, inputs) =>
      if Perform(sha, s, action) != s {
        DecisionKeeps(sha, s, op, inputs);
      }
    case ApplyBatch(_) =>
      if op in s.flights && op in s.clients {
        ApplicationKeeps(sha, s, op);
      }
    case DeliverReply(_) =>
      if op in s.clients && s.clients[op].phase.Awaiting? && op in s.applied {
        ReplyKeeps(sha, s, op);
      }
    case DeliverError(_) =>
      if op in s.clients && s.clients[op].phase.Awaiting? {
        MoveKeeps(sha, s, op, Reconciling);
      }
    case ReadCommand(_) =>
      if op in s.clients && s.clients[op].phase.Reconciling? {
        ReconciliationKeeps(sha, s, op);
      }
    case LoseCommand(_) =>
      if op in s.clients && s.clients[op].phase.Reconciling? {
        MoveKeeps(sha, s, op, Done(Failure(Backend), |s.log|));
      }
  }

  lemma {:induction false} ExecutionInv(sha: Sha256, actions: seq<Action>)
    ensures Inv(sha, Execute(sha, actions))
  {
    if actions == [] {
      InitialInv(sha);
    } else {
      ExecutionInv(sha, actions[..|actions| - 1]);
      StepKeeps(sha, Execute(sha, actions[..|actions| - 1]), actions[|actions| - 1]);
    }
  }
}
