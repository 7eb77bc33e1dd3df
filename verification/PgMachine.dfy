/**
  Any number of concurrent PostgreSQL transactions. A statement waits while its
  lock conflicts with another transaction; a transaction may be aborted at any
  moment, and the reply to a COMMIT may be lost. Every interleaving refines the
  sequential store, in commit order.
 */
module PgMachine {
  import opened Results
  import opened Text
  import opened Domain
  import opened SequentialStore
  import opened Invariants
  import opened History
  import opened PgTransactions
  import opened PgFacts

  /** `point` is a position in the log, kept only for the proof. */
  datatype Reply = Reply(result: StorageResult<Response>, point: nat)

  /** `start` is the length of the log when the operation was invoked. */
  datatype Client = Client(start: nat, tx: Tx, reply: Option<Reply>)

  /**
    `drawn` says which operation drew a receipt id, `flagNumbers` and
    `receiptNumbers` for which row a `bigserial` column has drawn a number.
   */
  datatype System = System(
    tables: Tables,
    log: Log,
    clients: map<nat, Client>,
    drawn: map<Text, nat>,
    flagNumbers: map<int, FlagId>,
    receiptNumbers: map<int, Text>)

  const INITIAL: System := System(Tables(EMPTY, map[]), [], map[], map[], map[], map[])

  datatype Action =
    | Begin(op: nat, call: Call)
    | RunStatement(op: nat, tick: Tick)
    | CommitTransaction(op: nat, delivered: bool)
    | AbortTransaction(op: nat)

  predicate Running(s: System, op: nat) {
    op in s.clients && s.clients[op].reply.None?
  }

  /** The locks that the next statement of `op` takes conflict with nobody's. */
  predicate Unblocked(s: System, op: nat)
    requires op in s.clients
  {
    var wants, shares := Wants(s.tables, s.clients[op].tx), WantsShared(s.tables, s.clients[op].tx);
    forall other | other in s.clients && Running(s, other) && other != op ::
      wants !! s.clients[other].tx.exclusive && wants !! s.clients[other].tx.shared
        && shares !! s.clients[other].tx.exclusive
  }

  /**
    A sequence hands out no number twice. A statement that waits for a lock has
    drawn its number before, so numbers appear in any order.
   */
  predicate FreshNumber<V>(numbers: map<int, V>, n: int) {
    0 < n <= I64_MAX && n !in numbers
  }

  predicate DrawsFlagNumber(tx: Tx) {
    tx.phase.First? && tx.call.request.CreateFlag?
  }

  predicate Enabled(s: System, op: nat, tick: Tick) {
    && Running(s, op) && Unblocked(s, op)
    && PhaseFits(s.clients[op].tx) && !s.clients[op].tx.phase.Answered? && !s.clients[op].tx.phase.Replayed?
    && (DrawsFlagNumber(s.clients[op].tx) ==> FreshNumber(s.flagNumbers, tick.rowSeq))
    && (s.clients[op].tx.phase.Chosen? ==> tick.receiptId !in s.drawn && FreshNumber(s.receiptNumbers, tick.rowSeq))
  }

  /** The transaction ends, and its locks with it. */
  function End(s: System, op: nat, result: StorageResult<Response>, point: nat): System
    requires op in s.clients
  {
    s.(clients := s.clients[op := s.clients[op].(reply := Some(Reply(result, point)))])
  }

  function StatementStep(sha: Sha256, s: System, op: nat, tick: Tick): System
    requires Enabled(s, op, tick)
  {
    var tx := s.clients[op].tx;
    match Statement(sha, s.tables, tx, tick, |s.log|)
    case Stop(error) => End(s, op, Failure(error), |s.log|)
    case Continue(after) =>
      s.(clients := s.clients[op := s.clients[op].(tx := Locked(s.tables, tx, after))],
         drawn := if tx.phase.Chosen? then s.drawn[tick.receiptId := op] else s.drawn,
         flagNumbers := if DrawsFlagNumber(tx) then s.flagNumbers[tick.rowSeq := FlagOf(tx.call.request)]
                        else s.flagNumbers,
         receiptNumbers := if tx.phase.Chosen? then s.receiptNumbers[tick.rowSeq := tick.receiptId]
                           else s.receiptNumbers)
  }

  function CommitStep(s: System, op: nat, delivered: bool): System
    requires Running(s, op) && (s.clients[op].tx.phase.Answered? || s.clients[op].tx.phase.Replayed?)
  {
    var tx := s.clients[op].tx;
    var result := if delivered then Success(tx.phase.response) else Failure(Backend);
    var committed := s.(tables := CommitRows(s.tables, tx));
    if tx.phase.Replayed? then End(committed, op, result, tx.looked)
    else End(committed, op, result, |s.log|).(log := s.log + [Entry(op, tx.call, tx.stamp)])
  }

  /** One step; an action that is not enabled changes nothing. */
  function Perform(sha: Sha256, s: System, action: Action): System {
    match action
    case Begin(op, call) =>
      if op in s.clients then s else s.(clients := s.clients[op := Client(|s.log|, Opened(call), None)])
    case RunStatement(op, tick) => if Enabled(s, op, tick) then StatementStep(sha, s, op, tick) else s
    case CommitTransaction(op, delivered) =>
      if Running(s, op) && (s.clients[op].tx.phase.Answered? || s.clients[op].tx.phase.Replayed?)
      then CommitStep(s, op, delivered)
      else s
    case AbortTransaction(op) => if Running(s, op) then End(s, op, Failure(Backend), |s.log|) else s
  }

  function Execute(sha: Sha256, actions: seq<Action>): System {
    if actions == [] then INITIAL
    else Perform(sha, Execute(sha, actions[..|actions| - 1]), actions[|actions| - 1])
  }

  // ---------------------------------------------------------------- invariants

  ghost predicate StoreMatches(sha: Sha256, s: System) {
    && Legal(sha, s.log) && s.tables.store == Run(sha, s.log) && StoreInv(s.tables.store)
       && s.tables.unanswered == map[]
  }

  /** What a transaction knows about the log. */
  ghost predicate Positioned(sha: Sha256, log: Log, op: nat, c: Client)
    requires Legal(sha, log)
  {
    && (!c.tx.phase.LookUp? ==> c.start <= c.tx.looked <= |log|)
    && (c.tx.phase.Admit? ==> c.tx.looked <= |log| && IdOf(c.tx.call) !in At(sha, log, c.tx.looked).commands)
    && (c.tx.phase.Replayed?
        ==> Linearized(sha, log, c.start, op, c.tx.call, Success(c.tx.phase.response), c.tx.looked))
  }

  /** Another transaction committed the same command since this one looked it up. */
  ghost predicate TwinCommitted(log: Log, op: nat, start: nat, tx: Tx, p: nat, point: nat) {
    && start <= tx.looked <= p < point <= |log|
    && IdOf(log[p].call) == IdOf(tx.call) && log[p].op != op
  }

  ghost predicate Justified(sha: Sha256, log: Log, op: nat, start: nat, tx: Tx, reply: Reply)
    requires Legal(sha, log)
  {
    || reply.result == Failure(Backend)
    || (reply.result == Failure(Domain(OperationInProgress))
        && exists p :: TwinCommitted(log, op, start, tx, p, reply.point))
    || Linearized(sha, log, start, op, tx.call, reply.result, reply.point)
  }

  ghost predicate ClientInv(sha: Sha256, store: Store, log: Log, op: nat, c: Client)
    requires Legal(sha, log)
  {
    && c.start <= |log| && PhaseFits(c.tx)
    && match c.reply
       case None => Facts(sha, store, c.tx) && Positioned(sha, log, op, c)
       case Some(reply) => Justified(sha, log, op, c.start, c.tx, reply)
  }

  ghost predicate ClientsInv(sha: Sha256, s: System)
    requires Legal(sha, s.log)
  {
    forall op | op in s.clients :: ClientInv(sha, s.tables.store, s.log, op, s.clients[op])
  }

  predicate Compatible(a: Tx, b: Tx) {
    a.exclusive !! b.exclusive && a.exclusive !! b.shared && a.shared !! b.exclusive
  }

  ghost predicate LocksInv(s: System) {
    forall a, b | Running(s, a) && Running(s, b) && a != b :: Compatible(s.clients[a].tx, s.clients[b].tx)
  }

  ghost predicate DrawsOf(drawn: map<Text, nat>, op: nat, draws: seq<Draw>) {
    && (forall i | 0 <= i < |draws| :: draws[i].receiptId in drawn && drawn[draws[i].receiptId] == op)
    && (forall i, j | 0 <= i < j < |draws| :: draws[i].receiptId != draws[j].receiptId)
  }

  /** Ids of committed receipts were drawn by operations that have ended. */
  ghost predicate ReceiptIdsInv(s: System) {
    forall i | 0 <= i < |s.tables.store.receipts| ::
      var id := s.tables.store.receipts[i].receipt.receiptId;
      id in s.drawn && s.drawn[id] in s.clients && !Running(s, s.drawn[id])
  }

  ghost predicate DrawnInv(s: System) {
    && (forall op | Running(s, op) :: DrawsOf(s.drawn, op, s.clients[op].tx.stamp.draws))
    && (forall id | id in s.drawn :: s.drawn[id] in s.clients)
    && ReceiptIdsInv(s)
  }

  /** Committed operations have ended. */
  ghost predicate EntriesInv(s: System) {
    forall i | 0 <= i < |s.log| :: s.log[i].op in s.clients && !Running(s, s.log[i].op)
  }

  ghost predicate Inv(sha: Sha256, s: System) {
    StoreMatches(sha, s) && ClientsInv(sha, s) && LocksInv(s) && DrawnInv(s) && EntriesInv(s)
  }

  lemma InitialInv(sha: Sha256)
    ensures Inv(sha, INITIAL)
  {
    EmptyInv();
  }

  // ----------------------------------------------- steps that change one client

  /** Nothing is committed, and `op` holds no more than it could get. */
  ghost predicate Local(s: System, op: nat, s': System) {
    && s'.tables == s.tables && s'.log == s.log
    && op in s'.clients && s'.clients.Keys == s.clients.Keys + {op}
    && (forall other | other in s.clients && other != op :: s'.clients[other] == s.clients[other])
    && (op in s.clients && !Running(s, op) ==> !Running(s', op))
    && (Running(s', op) ==>
          && (forall other | Running(s, other) && other != op :: Compatible(s'.clients[op].tx, s.clients[other].tx))
          && DrawsOf(s'.drawn, op, s'.clients[op].tx.stamp.draws))
    && (forall id | id in s.drawn :: id in s'.drawn && s'.drawn[id] == s.drawn[id])
    && (forall id | id in s'.drawn && id !in s.drawn :: s'.drawn[id] == op)
  }

  lemma LocalLocks(s: System, op: nat, s': System)
    requires Local(s, op, s') && LocksInv(s)
    ensures LocksInv(s')
  {
    forall a, b | Running(s', a) && Running(s', b) && a != b
      ensures Compatible(s'.clients[a].tx, s'.clients[b].tx)
    {
      if a == op {
        assert Running(s, b);
      } else if b == op {
        assert Running(s, a);
      } else {
        assert Running(s, a) && Running(s, b);
      }
    }
  }

  lemma LocalDrawn(s: System, op: nat, s': System)
    requires Local(s, op, s') && DrawnInv(s) && EntriesInv(s)
    ensures DrawnInv(s') && EntriesInv(s')
  {
    forall other | Running(s', other) ensures DrawsOf(s'.drawn, other, s'.clients[other].tx.stamp.draws) {
      if other != op {
        assert Running(s, other);
      }
    }
  }

  lemma LocalKeeps(sha: Sha256, s: System, op: nat, s': System)
    requires Inv(sha, s) && Local(s, op, s')
    requires ClientInv(sha, s.tables.store, s.log, op, s'.clients[op])
    ensures Inv(sha, s')
  {
    LocalLocks(s, op, s');
    LocalDrawn(s, op, s');
  }

  lemma EndKeeps(sha: Sha256, s: System, op: nat, result: StorageResult<Response>, point: nat)
    requires Inv(sha, s) && op in s.clients
    requires Justified(sha, s.log, op, s.clients[op].start, s.clients[op].tx, Reply(result, point))
    ensures Inv(sha, End(s, op, result, point))
  {
    var s' := End(s, op, result, point);
    assert ClientInv(sha, s.tables.store, s.log, op, s.clients[op]);
    assert ClientInv(sha, s.tables.store, s.log, op, s'.clients[op]);
    LocalKeeps(sha, s, op, s');
  }

  lemma BeginKeeps(sha: Sha256, s: System, op: nat, call: Call)
    requires Inv(sha, s) && op !in s.clients
    ensures Inv(sha, Perform(sha, s, Begin(op, call)))
  {
    LocalKeeps(sha, s, op, Perform(sha, s, Begin(op, call)));
  }

  // -------------------------------------------------------------- one statement

  /** INSERT into commands found the key committed: a twin was faster. */
  lemma AdmissionRefused(sha: Sha256, s: System, op: nat) returns (p: nat)
    requires Inv(sha, s) && Running(s, op) && s.clients[op].tx.phase.Admit?
    requires IdOf(s.clients[op].tx.call) in s.tables.store.commands
    ensures TwinCommitted(s.log, op, s.clients[op].start, s.clients[op].tx, p, |s.log|)
  {
    var c := s.clients[op];
    assert ClientInv(sha, s.tables.store, s.log, op, c);
    AtEnd(sha, s.log);
    p := CommandOrigin(sha, s.log, c.tx.looked, |s.log|, IdOf(c.tx.call));
  }

  lemma StopJustified(sha: Sha256, s: System, op: nat, tick: Tick)
    requires Inv(sha, s) && Enabled(s, op, tick)
    requires Statement(sha, s.tables, s.clients[op].tx, tick, |s.log|).Stop?
    ensures Justified(sha, s.log, op, s.clients[op].start, s.clients[op].tx,
                      Reply(Failure(Statement(sha, s.tables, s.clients[op].tx, tick, |s.log|).error), |s.log|))
  {
    var c := s.clients[op];
    assert ClientInv(sha, s.tables.store, s.log, op, c);
    if c.tx.phase.Admit? {
      var p := AdmissionRefused(sha, s, op);
    } else {
      TickIsFresh(s, op, tick);
      StatementStops(sha, s.tables, c.tx, tick, |s.log|);
      AtEnd(sha, s.log);
    }
  }

  lemma TickIsFresh(s: System, op: nat, tick: Tick)
    requires DrawnInv(s) && Enabled(s, op, tick)
    ensures s.clients[op].tx.phase.Chosen? ==> FreshId(s.tables.store, s.clients[op].tx, tick.receiptId)
  {
    assert DrawsOf(s.drawn, op, s.clients[op].tx.stamp.draws);
  }

  lemma LooksUp(sha: Sha256, s: System, op: nat, tick: Tick)
    requires StoreMatches(sha, s) && Enabled(s, op, tick) && s.clients[op].start <= |s.log|
    requires s.clients[op].tx.phase.LookUp? && LookUpStatement(s.tables, s.clients[op].tx, |s.log|).Continue?
    ensures Positioned(sha, s.log, op, s.clients[op].(tx := LookUpStatement(s.tables, s.clients[op].tx, |s.log|).tx))
  {
    AtEnd(sha, s.log);
  }

  /** Only the lookup changes what a transaction knows about the log. */
  lemma LaterPhases(sha: Sha256, t: Tables, tx: Tx, tick: Tick, position: nat)
    requires PhaseFits(tx) && !tx.phase.Answered? && !tx.phase.Replayed? && !tx.phase.LookUp?
    requires Statement(sha, t, tx, tick, position).Continue?
    ensures var after := Statement(sha, t, tx, tick, position).tx;
            after.looked == tx.looked && !after.phase.LookUp? && !after.phase.Admit? && !after.phase.Replayed?
  {
  }

  lemma ContinuePositioned(sha: Sha256, s: System, op: nat, tick: Tick)
    requires Inv(sha, s) && Enabled(s, op, tick)
    requires Statement(sha, s.tables, s.clients[op].tx, tick, |s.log|).Continue?
    ensures Positioned(sha, s.log, op, StatementStep(sha, s, op, tick).clients[op])
  {
    var c := s.clients[op];
    assert ClientInv(sha, s.tables.store, s.log, op, c);
    SameCall(sha, s.tables, c.tx, tick, |s.log|);
    if c.tx.phase.LookUp? {
      LooksUp(sha, s, op, tick);
    } else {
      LaterPhases(sha, s.tables, c.tx, tick, |s.log|);
    }
  }

  lemma ContinueLocal(sha: Sha256, s: System, op: nat, tick: Tick)
    requires LocksInv(s) && DrawnInv(s) && Enabled(s, op, tick)
    requires Statement(sha, s.tables, s.clients[op].tx, tick, |s.log|).Continue?
    ensures Local(s, op, StatementStep(sha, s, op, tick))
  {
    var tx, s' := s.clients[op].tx, StatementStep(sha, s, op, tick);
    SameCall(sha, s.tables, tx, tick, |s.log|);
    var after := s'.clients[op].tx;
    assert after.exclusive == tx.exclusive + Wants(s.tables, tx)
           && after.shared == tx.shared + WantsShared(s.tables, tx);
    forall other | Running(s, other) && other != op ensures Compatible(after, s.clients[other].tx) {
      assert Compatible(tx, s.clients[other].tx);
    }
    assert DrawsOf(s.drawn, op, tx.stamp.draws);
    assert DrawsOf(s'.drawn, op, after.stamp.draws);
  }

  lemma StatementStepKeeps(sha: Sha256, s: System, op: nat, tick: Tick)
    requires Inv(sha, s) && Enabled(s, op, tick)
    ensures Inv(sha, StatementStep(sha, s, op, tick))
  {
    var c := s.clients[op];
    assert ClientInv(sha, s.tables.store, s.log, op, c);
    match Statement(sha, s.tables, c.tx, tick, |s.log|)
    case Stop(error) =>
      StopJustified(sha, s, op, tick);
      EndKeeps(sha, s, op, Failure(error), |s.log|);
    case Continue(after) =>
      ContinueLocal(sha, s, op, tick);
      ContinuePositioned(sha, s, op, tick);
      StatementKeeps(sha, s.tables, c.tx, tick, |s.log|);
      StatementFits(sha, s.tables, c.tx, tick, |s.log|);
      LocalKeeps(sha, s, op, StatementStep(sha, s, op, tick));
  }

  // -------------------------------------------------------------------- commits

  ghost predicate ReadyToCommit(s: System, op: nat) {
    Running(s, op) && s.clients[op].tx.phase.Answered?
  }

  function EntryOf(s: System, op: nat): Entry
    requires op in s.clients
  {
    Entry(op, s.clients[op].tx.call, s.clients[op].tx.stamp)
  }

  lemma DrawsAreFresh(s: System, op: nat)
    requires DrawnInv(s) && Running(s, op)
    ensures FreshDraws(s.tables.store.receipts, s.clients[op].tx.stamp.draws)
  {
    assert DrawsOf(s.drawn, op, s.clients[op].tx.stamp.draws);
  }

  /** A commit is the next entry of the sequential log. */
  lemma CommitExtendsLog(sha: Sha256, s: System, op: nat)
    requires Inv(sha, s) && ReadyToCommit(s, op)
    ensures var store, store' := s.tables.store, CommitRows(s.tables, s.clients[op].tx).store;
            var log' := s.log + [EntryOf(s, op)];
            && Admissible(sha, store, s.clients[op].tx.call, s.clients[op].tx.stamp)
            && store' == After(sha, store, s.clients[op].tx.call, s.clients[op].tx.stamp)
            && Legal(sha, log') && store' == Run(sha, log') && StoreInv(store')
            && ResponseAt(sha, log', |s.log|) == Success(s.clients[op].tx.phase.response)
            && ChangedUnder(store, store', s.clients[op].tx.exclusive)
  {
    var tx := s.clients[op].tx;
    assert ClientInv(sha, s.tables.store, s.log, op, s.clients[op]);
    DrawsAreFresh(s, op);
    CommitApplies(sha, s.tables, tx, tx.phase.response);
    CommitChanges(sha, s.tables, tx, tx.phase.response);
    InvariantKept(sha, s.tables.store, tx.call, tx.stamp);
    LegalAppend(sha, s.log, EntryOf(s, op));
    AtEnd(sha, s.log);
  }

  lemma JustifiedStays(sha: Sha256, log: Log, entry: Entry, op: nat, start: nat, tx: Tx, reply: Reply)
    requires Legal(sha, log) && Legal(sha, log + [entry]) && Justified(sha, log, op, start, tx, reply)
    ensures Justified(sha, log + [entry], op, start, tx, reply)
  {
    if Linearized(sha, log, start, op, tx.call, reply.result, reply.point) {
      LinearizedStays(sha, log, entry, start, op, tx.call, reply.result, reply.point);
    } else if reply.result == Failure(Domain(OperationInProgress)) {
      var p :| TwinCommitted(log, op, start, tx, p, reply.point);
      assert TwinCommitted(log + [entry], op, start, tx, p, reply.point);
    }
  }

  lemma PositionedStays(sha: Sha256, log: Log, entry: Entry, op: nat, c: Client)
    requires Legal(sha, log) && Legal(sha, log + [entry]) && Positioned(sha, log, op, c)
    ensures Positioned(sha, log + [entry], op, c)
  {
    if c.tx.phase.Admit? {
      AtAppend(sha, log, entry, c.tx.looked);
    }
    if c.tx.phase.Replayed? {
      LinearizedStays(sha, log, entry, c.start, op, c.tx.call, Success(c.tx.phase.response), c.tx.looked);
    }
  }

  lemma OtherClientStays(sha: Sha256, a: Store, b: Store, log: Log, entry: Entry, locks: set<Lock>, op: nat, c: Client)
    requires Legal(sha, log) && Legal(sha, log + [entry]) && ClientInv(sha, a, log, op, c)
    requires ChangedUnder(a, b, locks) && (c.reply.None? ==> Disjoint(c.tx, locks))
    ensures ClientInv(sha, b, log + [entry], op, c)
  {
    match c.reply
    case None =>
      FactsStay(sha, a, b, c.tx, locks);
      PositionedStays(sha, log, entry, op, c);
    case Some(reply) => JustifiedStays(sha, log, entry, op, c.start, c.tx, reply);
  }

  lemma CommitKeepsClients(sha: Sha256, s: System, op: nat, delivered: bool)
    requires Inv(sha, s) && ReadyToCommit(s, op)
    ensures StoreMatches(sha, CommitStep(s, op, delivered)) && ClientsInv(sha, CommitStep(s, op, delivered))
  {
    var s', entry := CommitStep(s, op, delivered), EntryOf(s, op);
    CommitExtendsLog(sha, s, op);
    assert ClientInv(sha, s.tables.store, s.log, op, s.clients[op]);
    assert s'.log == s.log + [entry];
    forall other | other in s'.clients ensures ClientInv(sha, s'.tables.store, s'.log, other, s'.clients[other]) {
      if other != op {
        assert ClientInv(sha, s.tables.store, s.log, other, s.clients[other]);
        assert Running(s, other) ==> Compatible(s.clients[op].tx, s.clients[other].tx);
        OtherClientStays(sha, s.tables.store, s'.tables.store, s.log, entry, s.clients[op].tx.exclusive, other,
                         s.clients[other]);
      }
    }
  }

  lemma CommitKeepsReceiptIds(sha: Sha256, s: System, op: nat, delivered: bool)
    requires Inv(sha, s) && ReadyToCommit(s, op)
    ensures ReceiptIdsInv(CommitStep(s, op, delivered))
  {
    var tx := s.clients[op].tx;
    CommitExtendsLog(sha, s, op);
    ReceiptsAppended(sha, s.tables.store, tx.call, tx.stamp);
    CommittedIds(s, op, delivered);
  }

  lemma CommittedIds(s: System, op: nat, delivered: bool)
    requires DrawnInv(s) && ReadyToCommit(s, op)
    requires Appended(s.tables.store, CommitRows(s.tables, s.clients[op].tx).store, s.clients[op].tx.call,
                      s.clients[op].tx.stamp.draws)
    ensures ReceiptIdsInv(CommitStep(s, op, delivered))
  {
    NewIdsDrawn(s, op, CommitRows(s.tables, s.clients[op].tx).store);
  }

  lemma NewIdsDrawn(s: System, op: nat, after: Store)
    requires DrawnInv(s) && Running(s, op)
    requires Appended(s.tables.store, after, s.clients[op].tx.call, s.clients[op].tx.stamp.draws)
    ensures forall i | 0 <= i < |after.receipts| ::
              var id := after.receipts[i].receipt.receiptId;
              id in s.drawn && s.drawn[id] in s.clients && (s.drawn[id] == op || !Running(s, s.drawn[id]))
  {
    var n, draws := |s.tables.store.receipts|, s.clients[op].tx.stamp.draws;
    assert DrawsOf(s.drawn, op, draws);
    forall i | 0 <= i < |after.receipts|
      ensures var id := after.receipts[i].receipt.receiptId;
              id in s.drawn && s.drawn[id] in s.clients && (s.drawn[id] == op || !Running(s, s.drawn[id]))
    {
      if i < n {
        assert after.receipts[..n][i] == s.tables.store.receipts[i];
      } else {
        assert Recorded(after, s.clients[op].tx.call, draws[i - n], i - n, after.receipts[n + (i - n)]);
      }
    }
  }

  lemma CommitKeepsRest(s: System, op: nat, delivered: bool)
    requires LocksInv(s) && DrawnInv(s) && EntriesInv(s) && ReadyToCommit(s, op)
    requires ReceiptIdsInv(CommitStep(s, op, delivered))
    ensures LocksInv(CommitStep(s, op, delivered)) && DrawnInv(CommitStep(s, op, delivered))
    ensures EntriesInv(CommitStep(s, op, delivered))
  {
    var s' := CommitStep(s, op, delivered);
    forall a, b | Running(s', a) && Running(s', b) && a != b
      ensures Compatible(s'.clients[a].tx, s'.clients[b].tx)
    {
      assert Running(s, a) && Running(s, b);
    }
    forall other | Running(s', other) ensures DrawsOf(s'.drawn, other, s'.clients[other].tx.stamp.draws) {
      assert Running(s, other);
    }
  }

  lemma CommitStepKeeps(sha: Sha256, s: System, op: nat, delivered: bool)
    requires Inv(sha, s) && Running(s, op) && (s.clients[op].tx.phase.Answered? || s.clients[op].tx.phase.Replayed?)
    ensures Inv(sha, CommitStep(s, op, delivered))
  {
    assert ClientInv(sha, s.tables.store, s.log, op, s.clients[op]);
    if ReadyToCommit(s, op) {
      CommitKeepsClients(sha, s, op, delivered);
      CommitKeepsReceiptIds(sha, s, op, delivered);
      CommitKeepsRest(s, op, delivered);
    } else {
      var tx := s.clients[op].tx;
      EndKeeps(sha, s, op, if delivered then Success(tx.phase.response) else Failure(Backend), tx.looked);
    }
  }

  lemma StepKeeps(sha: Sha256, s: System, action: Action)
    requires Inv(sha, s)
    ensures Inv(sha, Perform(sha, s, action))
  {
    var op := action.op;
    match action
    case Begin(_, call) =>
      if op !in s.clients {
        BeginKeeps(sha, s, op, call);
      }
    case RunStatement(_, tick) =>
      if Enabled(s, op, tick) {
        StatementStepKeeps(sha, s, op, tick);
      }
    case CommitTransaction(_, delivered) =>
      if Running(s, op) && (s.clients[op].tx.phase.Answered? || s.clients[op].tx.phase.Replayed?) {
        CommitStepKeeps(sha, s, op, delivered);
      }
    case AbortTransaction(_) =>
      if Running(s, op) {
        EndKeeps(sha, s, op, Failure(Backend), |s.log|);
      }
  }

  lemma {:induction false} ExecutionInv(sha: Sha256, actions: seq<Action>)
    ensures Inv(sha, Execute(sha, actions))
  {
    if actions == [] {
      InitialInv(sha);
    } else {
      ExecutionInv(sha, actions[..|actions| - 1]);
      StepKeeps(sha, Execute(sha, actions[..|actions| - 1]), actions[|actions| - 1]);
    }
  }
}
