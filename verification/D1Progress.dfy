/**
  The protocol gets somewhere: from every reachable state, however disturbed,
  a client that is not disturbed itself obtains the sequential answer and leaves
  the sequential store.
 */
module D1Progress {
  import opened Results
  import opened Text
  import opened Domain
  import opened SequentialStore
  import opened Invariants
  import opened D1Tables
  import opened D1Store
  import opened D1Refinement
  import opened D1Commit
  import opened D1Machine
  import opened D1Theorems
  import opened D1Client

  function Messages(op: nat, replied: bool): seq<Action> {
    if replied then [DeliverReply(op)] else [DeliverError(op), ReadCommand(op)]
  }

  /** An operation whose batch arrives; its reply arrives, or is lost and reconciled. */
  function Undisturbed(op: nat, call: Call, inputs: Inputs, replied: bool): seq<Action> {
    [Invoke(op, call), ReadSnapshot(op), MakeDecision(op, inputs), ApplyBatch(op)] + Messages(op, replied)
  }

  function Asked(sha: Sha256, s: System, op: nat, call: Call): System {
    Perform(sha, Perform(sha, s, Invoke(op, call)), ReadSnapshot(op))
  }

  function Written(sha: Sha256, s: System, op: nat, inputs: Inputs): System {
    Perform(sha, Perform(sha, s, MakeDecision(op, inputs)), ApplyBatch(op))
  }

  function Told(sha: Sha256, s: System, op: nat, replied: bool): System {
    if replied then Perform(sha, s, DeliverReply(op))
    else Perform(sha, Perform(sha, s, DeliverError(op)), ReadCommand(op))
  }

  lemma {:induction false} ExecuteOne(sha: Sha256, actions: seq<Action>, a: Action, s: System)
    requires s == Execute(sha, actions)
    ensures Execute(sha, actions + [a]) == Perform(sha, s, a)
  {
    assert (actions + [a])[..|actions|] == actions;
  }

  lemma {:induction false} ExecuteTwo(sha: Sha256, actions: seq<Action>, a: Action, b: Action, s: System, s': System)
    requires s == Execute(sha, actions) && s' == Perform(sha, s, a)
    ensures Execute(sha, actions + [a, b]) == Perform(sha, s', b)
  {
    ExecuteOne(sha, actions, a, s);
    ExecuteOne(sha, actions + [a], b, s');
    assert actions + [a, b] == (actions + [a]) + [b];
  }

  lemma {:induction false} AskedOut(sha: Sha256, actions: seq<Action>, op: nat, call: Call, s: System)
    requires s == Execute(sha, actions)
    ensures Execute(sha, actions + [Invoke(op, call), ReadSnapshot(op)]) == Asked(sha, s, op, call)
  {
    ExecuteTwo(sha, actions, Invoke(op, call), ReadSnapshot(op), s, Perform(sha, s, Invoke(op, call)));
  }

  lemma {:induction false} WrittenOut(sha: Sha256, actions: seq<Action>, op: nat, inputs: Inputs, s: System)
    requires s == Execute(sha, actions)
    ensures Execute(sha, actions + [MakeDecision(op, inputs), ApplyBatch(op)]) == Written(sha, s, op, inputs)
  {
    ExecuteTwo(sha, actions, MakeDecision(op, inputs), ApplyBatch(op), s, Perform(sha, s, MakeDecision(op, inputs)));
  }

  lemma {:induction false} ToldOut(sha: Sha256, actions: seq<Action>, op: nat, replied: bool, s: System)
    requires s == Execute(sha, actions)
    ensures Execute(sha, actions + Messages(op, replied)) == Told(sha, s, op, replied)
  {
    if replied {
      ExecuteOne(sha, actions, DeliverReply(op), s);
    } else {
      ExecuteTwo(sha, actions, DeliverError(op), ReadCommand(op), s, Perform(sha, s, DeliverError(op)));
    }
  }

  lemma Regrouped<T>(s: seq<T>, a: T, b: T, c: T, d: T, t: seq<T>)
    ensures s + ([a, b, c, d] + t) == ((s + [a, b]) + [c, d]) + t
  {
  }

  lemma {:induction false} PlayedOut(sha: Sha256, actions: seq<Action>, op: nat, call: Call, inputs: Inputs,
                                     replied: bool,
                  asked: System, written: System)
    requires asked == Asked(sha, Execute(sha, actions), op, call) && written == Written(sha, asked, op, inputs)
    ensures Execute(sha, actions + Undisturbed(op, call, inputs, replied)) == Told(sha, written, op, replied)
  {
    var two := actions + [Invoke(op, call), ReadSnapshot(op)];
    var four := two + [MakeDecision(op, inputs), ApplyBatch(op)];
    AskedOut(sha, actions, op, call, Execute(sha, actions));
    WrittenOut(sha, two, op, inputs, asked);
    ToldOut(sha, four, op, replied, written);
    Regrouped(actions, Invoke(op, call), ReadSnapshot(op), MakeDecision(op, inputs), ApplyBatch(op),
              Messages(op, replied));
  }

  /** The operation is new, its ids are fresh, and no counter is used up. */
  ghost predicate CanStart(s: System, op: nat, call: Call, inputs: Inputs) {
    && op !in s.clients
    && |inputs.drawn| == |EvaluatedKeys(call.request)| && DistinctIds(inputs.drawn) && IdsOf(inputs.drawn) !! s.issued
    && s.tables.epoch <= I64_MAX && RoomFor(s.tables, call)
  }

  /** The client holds a snapshot of the tables as they are, and nothing is under way for it. */
  ghost predicate Poised(s: System, op: nat, call: Call, inputs: Inputs) {
    && Holds(s, op) && s.clients[op].call == call && op !in s.flights
    && DistinctIds(inputs.drawn) && IdsOf(inputs.drawn) !! s.issued
    && Ready(s.tables, call, inputs) && RoomFor(s.tables, call)
    && Seen(s.tables, call, s.clients[op].phase.snapshot)
  }

  /** The result and the tables are those of the sequential command. */
  ghost predicate AnsweredFrom(sha: Sha256, t: Tables, call: Call, inputs: Inputs, s: System, op: nat)
    requires |inputs.drawn| == |EvaluatedKeys(call.request)|
  {
    Finished(s, op, SequentialAnswer(sha, t, call, inputs).1)
      && Abs(s.tables) == SequentialAnswer(sha, t, call, inputs).0
  }

  lemma StartsReady(sha: Sha256, s: System, op: nat, call: Call, inputs: Inputs)
    requires Inv(sha, s) && CanStart(s, op, call, inputs)
    ensures Ready(s.tables, call, inputs) && op !in s.flights
  {
    D1Machine.DrawsAreFresh(s.tables.receipts, inputs, s.tables.epoch, s.tables.sequence);
    assert op in s.flights ==> FlightInv(sha, s, op);
  }

  lemma Invokes(sha: Sha256, s: System, op: nat, call: Call)
    requires op !in s.clients
    ensures var s' := Perform(sha, s, Invoke(op, call));
            && op in s'.clients && s'.clients[op].call == call && s'.clients[op].phase.Begun?
            && s'.tables == s.tables && s'.flights == s.flights && s'.issued == s.issued
  {
  }

  lemma Reads(sha: Sha256, s: System, op: nat, snapshot: Snapshot)
    requires op in s.clients && s.clients[op].phase.Begun?
             && TakeSnapshot(s.tables, s.clients[op].call) == Success(snapshot)
    ensures var s' := Perform(sha, s, ReadSnapshot(op));
            && Holds(s', op) && s'.clients[op].call == s.clients[op].call && s'.clients[op].phase.snapshot == snapshot
            && s'.tables == s.tables && s'.flights == s.flights && s'.issued == s.issued
  {
  }

  lemma SnapshotPoises(sha: Sha256, s: System, op: nat, call: Call, inputs: Inputs, snapshot: Snapshot)
    requires CanStart(s, op, call, inputs) && Ready(s.tables, call, inputs) && op !in s.flights
    requires TakeSnapshot(s.tables, call) == Success(snapshot) && Seen(s.tables, call, snapshot)
    ensures Poised(Asked(sha, s, op, call), op, call, inputs) && Asked(sha, s, op, call).tables == s.tables
  {
    Invokes(sha, s, op, call);
    Reads(sha, Perform(sha, s, Invoke(op, call)), op, snapshot);
  }

  lemma Refuses(sha: Sha256, s: System, op: nat, call: Call, inputs: Inputs, replied: bool,
                result: StorageResult<Response>)
    requires Poised(s, op, call, inputs)
    requires DecideLocally(sha, s.clients[op].phase.snapshot, call, inputs) == Answer(result)
    ensures AnsweredFrom(sha, s.tables, call, inputs, Told(sha, Written(sha, s, op, inputs), op, replied), op)
  {
    DecisionRefines(sha, Abs(s.tables), s.clients[op].phase.snapshot, s.tables.sequence, call, inputs);
    var decided := Perform(sha, s, MakeDecision(op, inputs));
    assert decided == Finish(s, op, result, s.clients[op].phase.at);
    NothingMore(sha, decided, op);
  }

  /** Messages for an operation that has answered, and has no batch, change nothing. */
  lemma NothingMore(sha: Sha256, s: System, op: nat)
    requires op in s.clients && s.clients[op].phase.Done? && op !in s.flights
    ensures Perform(sha, s, ApplyBatch(op)) == s && Perform(sha, s, DeliverReply(op)) == s
    ensures Perform(sha, s, DeliverError(op)) == s && Perform(sha, s, ReadCommand(op)) == s
  {
  }

  lemma Sends(sha: Sha256, s: System, op: nat, call: Call, inputs: Inputs, writes: Writes)
    requires Poised(s, op, call, inputs)
    requires DecideLocally(sha, s.clients[op].phase.snapshot, call, inputs) == Submit(writes)
    ensures var s' := Perform(sha, s, MakeDecision(op, inputs));
            && op in s'.clients && s'.clients[op].call == call && s'.clients[op].phase == Awaiting(writes.response)
            && op in s'.flights && s'.tables == s.tables
            && s'.flights[op].batch == CommitBatch(s.clients[op].phase.snapshot.epoch, call, writes)
  {
  }

  lemma Lands(sha: Sha256, s: System, op: nat, after: Tables)
    requires op in s.clients && op in s.flights && ExecBatch(s.tables, s.flights[op].batch) == Some(after)
    ensures var s' := Perform(sha, s, ApplyBatch(op));
            s'.tables == after && s'.clients == s.clients && op in s'.applied
  {
  }

  lemma Submits(sha: Sha256, s: System, op: nat, call: Call, inputs: Inputs, writes: Writes)
    requires Poised(s, op, call, inputs)
    requires DecideLocally(sha, s.clients[op].phase.snapshot, call, inputs) == Submit(writes)
    ensures var s' := Written(sha, s, op, inputs);
            && op in s'.clients && op in s'.applied && s'.clients[op].call == call
            && s'.clients[op].phase == Awaiting(writes.response)
            && AppliedOnce(sha, s.tables, call, inputs, s'.tables, writes.response)
  {
    var snapshot := s.clients[op].phase.snapshot;
    SubmissionApplies(sha, s.tables, call, inputs, snapshot, writes);
    Sends(sha, s, op, call, inputs, writes);
    Lands(sha, Perform(sha, s, MakeDecision(op, inputs)), op,
          ExecBatch(s.tables, CommitBatch(snapshot.epoch, call, writes)).value);
  }

  lemma Tells(sha: Sha256, s: System, op: nat, call: Call, response: Response, replied: bool)
    requires op in s.clients && op in s.applied && s.clients[op].call == call
             && s.clients[op].phase == Awaiting(response)
    requires ReplayRows(SelectCommand(s.tables, call), call) == Success(Some(response))
    ensures Finished(Told(sha, s, op, replied), op, Success(response)) && Told(sha, s, op, replied).tables == s.tables
  {
  }

  lemma Serves(sha: Sha256, s: System, op: nat, call: Call, inputs: Inputs, replied: bool, writes: Writes)
    requires Poised(s, op, call, inputs)
    requires DecideLocally(sha, s.clients[op].phase.snapshot, call, inputs) == Submit(writes)
    ensures AnsweredFrom(sha, s.tables, call, inputs, Told(sha, Written(sha, s, op, inputs), op, replied), op)
  {
    var s' := Written(sha, s, op, inputs);
    Submits(sha, s, op, call, inputs, writes);
    DecisionRefines(sha, Abs(s.tables), s.clients[op].phase.snapshot, s.tables.sequence, call, inputs);
    Reconciled(sha, s.tables, call, inputs, s'.tables, writes.response);
    Tells(sha, s', op, call, writes.response, replied);
  }

  /**
    Whatever has happened before, and whatever is still under way: a client whose
    own messages get through, but perhaps the reply to its batch, is answered as
    the sequential store would, and its command is applied exactly once.
   */
  lemma {:induction false} D1UndisturbedIsServed(sha: Sha256, actions: seq<Action>, op: nat, call: Call, inputs: Inputs,
                                                 replied: bool)
    requires CanStart(Execute(sha, actions), op, call, inputs)
    ensures AnsweredFrom(sha, Execute(sha, actions).tables, call, inputs,
                         Execute(sha, actions + Undisturbed(op, call, inputs, replied)), op)
  {
    var s := Execute(sha, actions);
    ExecutionInv(sha, actions);
    StartsReady(sha, s, op, call, inputs);
    SnapshotShows(s.tables, call);
    SnapshotPoises(sha, s, op, call, inputs, TakeSnapshot(s.tables, call).value);
    var asked := Asked(sha, s, op, call);
    PlayedOut(sha, actions, op, call, inputs, replied, asked, Written(sha, asked, op, inputs));
    match DecideLocally(sha, asked.clients[op].phase.snapshot, call, inputs)
    case Answer(result) => Refuses(sha, asked, op, call, inputs, replied, result);
    case Submit(writes) => Serves(sha, asked, op, call, inputs, replied, writes);
  }
}
