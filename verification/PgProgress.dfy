/**
  Transactions get somewhere: from every reachable state in which nothing else
  is running, an operation runs through to its reply, which is the sequential
  answer, and leaves the sequential rows.
 */
module PgProgress {
  import opened Results
  import opened Text
  import opened Domain
  import opened SequentialStore
  import opened Invariants
  import opened PgTransactions
  import opened PgFacts
  import opened PgMachine
  import opened PgSession

  /** How many steps an operation has left at most. */
  function Remaining(tx: Tx): int {
    var left := 4 * (|EvaluatedKeys(tx.call.request)| - |tx.evaluated|);
    match tx.phase
    case LookUp => left + 9
    case Admit => left + 8
    case First => left + 7
    case FlagLocked => left + 6
    case EnvironmentRead(_) => left + 6
    case EnvironmentLocked => left + 5
    case Numbered(_) => left + 4
    case RulesetInserted => left + 3
    case FlagBumped => left + 2
    case FlagShared(_) => left + 6
    case EnvironmentSeen(_) => left + 5
    case Chosen(_) => left + 4
    case Written => left + 1
    case Answered(_) => left
    case Replayed(_) => left
  }

  lemma LengthAtMost(s: set<Text>) returns (n: nat)
    ensures forall t | t in s :: |t| <= n
    decreases |s|
  {
    if s == {} {
      n := 0;
    } else {
      var x: Text := Pick(s);
      var m := LengthAtMost(s - {x});
      n := if m < |x| then |x| else m;
      forall t | t in s ensures |t| <= n {
        assert t == x || t in s - {x};
      }
    }
  }

  /** There is always another id. */
  lemma FreshText(s: set<Text>) returns (t: Text)
    ensures t !in s
  {
    var n := LengthAtMost(s);
    t := seq(n + 1, _ => 0);
  }

  lemma MissingNumber(used: set<int>, n: nat) returns (k: int)
    requires |used| < n
    ensures 1 <= k <= n && k !in used
    decreases n
  {
    if n !in used {
      k := n;
    } else {
      k := MissingNumber(used - {n}, n - 1);
    }
  }

  /** A sequence that is not used up has another number. */
  lemma NextNumber<V>(numbers: map<int, V>) returns (k: int)
    requires |numbers| < I64_MAX
    ensures FreshNumber(numbers, k)
  {
    assert |numbers.Keys| == |numbers|;
    k := MissingNumber(numbers.Keys, I64_MAX);
  }

  /** The sequences have enough numbers for what the operation still inserts. */
  predicate HasNumbers(s: System, tx: Tx) {
    && (tx.call.request.CreateFlag? && (tx.phase.LookUp? || tx.phase.Admit? || tx.phase.First?)
        ==> |s.flagNumbers| < I64_MAX)
    && |s.receiptNumbers| + |EvaluatedKeys(tx.call.request)| - |tx.evaluated| <= I64_MAX
  }

  /** Only `op` is running, on rows that are those of `store`. */
  ghost predicate Alone(sha: Sha256, s: System, op: nat, store: Store, call: Call) {
    && Running(s, op) && s.clients[op].tx.call == call && s.tables.store == store
    && (forall other | Running(s, other) :: other == op)
    && Consistent(sha, store, s.clients[op].tx) && HasNumbers(s, s.clients[op].tx)
  }

  ghost predicate Consistent(sha: Sha256, store: Store, tx: Tx) {
    && |tx.evaluated| <= |EvaluatedKeys(tx.call.request)|
    && (tx.phase.Admit? ==> IdOf(tx.call) !in store.commands)
    && (tx.phase.Replayed? ==> Verdict(sha, store, tx.call) == Some(Success(tx.phase.response)))
    && (Unsupported(tx.call.request) ==>
          !tx.phase.RulesetInserted? && !tx.phase.FlagBumped? && !tx.phase.Written? && !tx.phase.Answered?)
  }

  lemma StepConsistent(sha: Sha256, t: Tables, tx: Tx, tick: Tick, position: nat)
    requires PhaseFits(tx) && !tx.phase.Answered? && !tx.phase.Replayed? && t.unanswered == map[]
    requires Consistent(sha, t.store, tx) && Statement(sha, t, tx, tick, position).Continue?
    ensures Consistent(sha, t.store, Locked(t, tx, Statement(sha, t, tx, tick, position).tx))
  {
  }

  lemma AdmissionShortens(t: Tables, tx: Tx, position: nat)
    ensures tx.phase.LookUp? && LookUpStatement(t, tx, position).Continue? ==>
              Remaining(LookUpStatement(t, tx, position).tx) < Remaining(tx)
    ensures tx.phase.Admit? && AdmitStatement(t, tx).Continue? ==> Remaining(AdmitStatement(t, tx).tx) < Remaining(tx)
  {
  }

  lemma FollowingShortens(a: Tx, b: Tx, tick: Tick)
    requires PhaseFits(a) && Follows(a, b, tick)
    requires !a.phase.LookUp? && !a.phase.Admit? && !a.phase.Answered? && !a.phase.Replayed?
    ensures Remaining(b) < Remaining(a)
  {
  }

  lemma StepShortens(sha: Sha256, t: Tables, tx: Tx, tick: Tick, position: nat)
    requires PhaseFits(tx) && !tx.phase.Answered? && !tx.phase.Replayed?
    requires Statement(sha, t, tx, tick, position).Continue?
    ensures Remaining(Locked(t, tx, Statement(sha, t, tx, tick, position).tx)) < Remaining(tx)
  {
    if tx.phase.LookUp? || tx.phase.Admit? {
      AdmissionShortens(t, tx, position);
    } else {
      StatementFollows(sha, t, tx, tick);
      FollowingShortens(tx, Locked(t, tx, Statement(sha, t, tx, tick, position).tx), tick);
    }
  }

  /** A statement that stops a lone transaction gives the sequential answer. */
  lemma StopIsAnswer(sha: Sha256, s: System, op: nat, store: Store, call: Call, tick: Tick)
    requires Inv(sha, s) && Alone(sha, s, op, store, call) && Enabled(s, op, tick)
    requires Statement(sha, s.tables, s.clients[op].tx, tick, |s.log|).Stop?
    ensures Answers(sha, store, call, UNSTAMPED, store,
                    Failure(Statement(sha, s.tables, s.clients[op].tx, tick, |s.log|).error))
  {
    var tx := s.clients[op].tx;
    assert ClientInv(sha, s.tables.store, s.log, op, s.clients[op]);
    TickIsFresh(s, op, tick);
    if tx.phase.LookUp? {
      LookUpStops(sha, s.tables, tx, |s.log|);
    } else {
      StopAnswers(sha, s.tables, tx, tick);
    }
  }

  lemma BoundedBelow(sha: Sha256, store: Store, tx: Tx)
    requires Consistent(sha, store, tx)
    ensures 0 <= Remaining(tx)
  {
  }

  /** Replacing the transaction of the only one running leaves it the only one. */
  lemma StillAlone(sha: Sha256, s: System, op: nat, store: Store, call: Call, after: Tx, s': System)
    requires Alone(sha, s, op, store, call) && s'.tables == s.tables
    requires s'.clients == s.clients[op := s.clients[op].(tx := after)]
    requires after.call == call && Consistent(sha, store, after) && HasNumbers(s', after)
    ensures Alone(sha, s', op, store, call)
  {
    forall other | Running(s', other) ensures other == op {
      assert other != op ==> Running(s, other);
    }
  }

  lemma NumbersSuffice(sha: Sha256, s: System, op: nat, tick: Tick)
    requires Enabled(s, op, tick) && HasNumbers(s, s.clients[op].tx)
    requires Statement(sha, s.tables, s.clients[op].tx, tick, |s.log|).Continue?
    ensures HasNumbers(StatementStep(sha, s, op, tick), StatementStep(sha, s, op, tick).clients[op].tx)
  {
    var tx, s' := s.clients[op].tx, StatementStep(sha, s, op, tick);
    SameCall(sha, s.tables, tx, tick, |s.log|);
    if tx.call.request.CreateFlag? {
      CreationGoesOn(sha, s.tables, tx, tick, |s.log|);
    }
    assert |s'.flagNumbers| == |s.flagNumbers| + if DrawsFlagNumber(tx) then 1 else 0;
    assert |s'.receiptNumbers| == |s.receiptNumbers| + if tx.phase.Chosen? then 1 else 0;
  }

  lemma CreationGoesOn(sha: Sha256, t: Tables, tx: Tx, tick: Tick, position: nat)
    requires PhaseFits(tx) && !tx.phase.Answered? && !tx.phase.Replayed? && tx.call.request.CreateFlag?
    requires Statement(sha, t, tx, tick, position).Continue?
    ensures var phase := Statement(sha, t, tx, tick, position).tx.phase;
            phase.LookUp? || phase.Admit? || phase.First? ==> tx.phase.LookUp? || tx.phase.Admit?
  {
  }

  lemma AloneSteps(sha: Sha256, s: System, op: nat, store: Store, call: Call, tick: Tick)
    requires Inv(sha, s) && Alone(sha, s, op, store, call) && Enabled(s, op, tick)
    requires Statement(sha, s.tables, s.clients[op].tx, tick, |s.log|).Continue?
    ensures Alone(sha, StatementStep(sha, s, op, tick), op, store, call)
    ensures 0 <= Remaining(StatementStep(sha, s, op, tick).clients[op].tx) < Remaining(s.clients[op].tx)
  {
    var tx := s.clients[op].tx;
    var after := Locked(s.tables, tx, Statement(sha, s.tables, tx, tick, |s.log|).tx);
    StepConsistent(sha, s.tables, tx, tick, |s.log|);
    StepShortens(sha, s.tables, tx, tick, |s.log|);
    SameCall(sha, s.tables, tx, tick, |s.log|);
    BoundedBelow(sha, store, after);
    NumbersSuffice(sha, s, op, tick);
    StillAlone(sha, s, op, store, call, after, StatementStep(sha, s, op, tick));
  }

  lemma CommitIsAnswer(sha: Sha256, s: System, op: nat, store: Store, call: Call)
    requires Inv(sha, s) && Alone(sha, s, op, store, call) && s.clients[op].tx.phase.Answered?
    ensures Answers(sha, store, call, s.clients[op].tx.stamp, CommitRows(s.tables, s.clients[op].tx).store,
                    Success(s.clients[op].tx.phase.response))
  {
    var tx := s.clients[op].tx;
    assert ClientInv(sha, s.tables.store, s.log, op, s.clients[op]);
    PgMachine.DrawsAreFresh(s, op);
    CommitApplies(sha, s.tables, tx, tx.phase.response);
  }

  lemma {:induction false} ExecuteOne(sha: Sha256, actions: seq<Action>, a: Action, s: System)
    requires s == Execute(sha, actions)
    ensures Execute(sha, actions + [a]) == Perform(sha, s, a)
  {
    assert (actions + [a])[..|actions|] == actions;
  }

  lemma Regrouped<T>(s: seq<T>, x: T, t: seq<T>)
    ensures (s + [x]) + t == s + ([x] + t)
  {
  }

  ghost predicate Replied(sha: Sha256, store: Store, s: System, op: nat, call: Call, stamp: Stamp) {
    && op in s.clients && s.clients[op].reply.Some?
    && Answers(sha, store, call, stamp, s.tables.store, s.clients[op].reply.value.result)
  }

  lemma AnsweredCommits(sha: Sha256, s: System, op: nat, store: Store, call: Call)
    requires Inv(sha, s) && Alone(sha, s, op, store, call) && s.clients[op].tx.phase.Answered?
    ensures Replied(sha, store, CommitStep(s, op, true), op, call, s.clients[op].tx.stamp)
  {
    CommitIsAnswer(sha, s, op, store, call);
  }

  lemma ReplayCommits(sha: Sha256, s: System, op: nat, store: Store, call: Call)
    requires Inv(sha, s) && Alone(sha, s, op, store, call) && s.clients[op].tx.phase.Replayed?
    ensures Replied(sha, store, CommitStep(s, op, true), op, call, s.clients[op].tx.stamp)
  {
    assert ClientInv(sha, s.tables.store, s.log, op, s.clients[op]);
    assert CommitRows(s.tables, s.clients[op].tx) == s.tables;
  }

  lemma Commits(sha: Sha256, s: System, op: nat, store: Store, call: Call)
    requires Inv(sha, s) && Alone(sha, s, op, store, call)
    requires s.clients[op].tx.phase.Answered? || s.clients[op].tx.phase.Replayed?
    ensures Replied(sha, store, Perform(sha, s, CommitTransaction(op, true)), op, call, s.clients[op].tx.stamp)
  {
    if s.clients[op].tx.phase.Answered? {
      AnsweredCommits(sha, s, op, store, call);
    } else {
      ReplayCommits(sha, s, op, store, call);
    }
  }

  lemma Stops(sha: Sha256, s: System, op: nat, store: Store, call: Call, tick: Tick)
    requires Inv(sha, s) && Alone(sha, s, op, store, call) && Enabled(s, op, tick)
    requires Statement(sha, s.tables, s.clients[op].tx, tick, |s.log|).Stop?
    ensures Replied(sha, store, Perform(sha, s, RunStatement(op, tick)), op, call, UNSTAMPED)
  {
    StopIsAnswer(sha, s, op, store, call, tick);
  }

  lemma AloneIsEnabled(sha: Sha256, s: System, op: nat, store: Store, call: Call) returns (tick: Tick)
    requires Inv(sha, s) && Alone(sha, s, op, store, call)
    requires !s.clients[op].tx.phase.Answered? && !s.clients[op].tx.phase.Replayed?
    ensures Enabled(s, op, tick)
  {
    assert ClientInv(sha, s.tables.store, s.log, op, s.clients[op]);
    var id := FreshText(s.drawn.Keys);
    var number := 0;
    if DrawsFlagNumber(s.clients[op].tx) {
      number := NextNumber(s.flagNumbers);
    } else if s.clients[op].tx.phase.Chosen? {
      number := NextNumber(s.receiptNumbers);
    }
    tick := Tick(0, 0, number, id);
  }

  /** One more step answers the lone operation, or brings it closer to its end. */
  lemma NextStep(sha: Sha256, s: System, op: nat, store: Store, call: Call) returns (a: Action, stamp: Stamp)
    requires Inv(sha, s) && Alone(sha, s, op, store, call)
    ensures || Replied(sha, store, Perform(sha, s, a), op, call, stamp)
            || (Alone(sha, Perform(sha, s, a), op, store, call)
                && 0 <= Remaining(Perform(sha, s, a).clients[op].tx) < Remaining(s.clients[op].tx))
  {
    stamp := s.clients[op].tx.stamp;
    if s.clients[op].tx.phase.Answered? || s.clients[op].tx.phase.Replayed? {
      a := CommitTransaction(op, true);
      Commits(sha, s, op, store, call);
    } else {
      var tick := AloneIsEnabled(sha, s, op, store, call);
      a := RunStatement(op, tick);
      if Statement(sha, s.tables, s.clients[op].tx, tick, |s.log|).Stop? {
        stamp := UNSTAMPED;
        Stops(sha, s, op, store, call, tick);
      } else {
        AloneSteps(sha, s, op, store, call, tick);
        assert Perform(sha, s, a) == StatementStep(sha, s, op, tick);
      }
    }
  }

  /** A lone transaction runs to its end. */
  lemma {:induction false} RunsToEnd(sha: Sha256, actions: seq<Action>, op: nat, store: Store, call: Call, steps: nat)
    returns (more: seq<Action>, stamp: Stamp)
    requires Alone(sha, Execute(sha, actions), op, store, call)
    requires Remaining(Execute(sha, actions).clients[op].tx) <= steps
    ensures Replied(sha, store, Execute(sha, actions + more), op, call, stamp)
    decreases steps
  {
    ExecutionInv(sha, actions);
    var a;
    a, stamp := NextStep(sha, Execute(sha, actions), op, store, call);
    ExecuteOne(sha, actions, a, Execute(sha, actions));
    more := [a];
    if !Replied(sha, store, Execute(sha, actions + [a]), op, call, stamp) {
      var rest;
      rest, stamp := RunsToEnd(sha, actions + [a], op, store, call, steps - 1);
      Regrouped(actions, a, rest);
      more := [a] + rest;
    }
  }

  /** Nothing is running, and no sequence is used up. */
  ghost predicate Quiescent(s: System, op: nat, call: Call) {
    && op !in s.clients && (forall other :: !Running(s, other))
    && |s.flagNumbers| < I64_MAX && |s.receiptNumbers| + |EvaluatedKeys(call.request)| <= I64_MAX
  }

  /**
    Whatever was committed, aborted or lost before: once nothing else is running,
    a new operation can be run to a reply that is the sequential answer (unless a
    column refuses), leaving the sequential rows.
   */
  lemma {:induction false} PgAloneIsServed(sha: Sha256, actions: seq<Action>, op: nat, call: Call)
    returns (more: seq<Action>, stamp: Stamp)
    requires Quiescent(Execute(sha, actions), op, call)
    ensures Replied(sha, Execute(sha, actions).tables.store, Execute(sha, actions + more), op, call, stamp)
  {
    var s := Execute(sha, actions);
    ExecuteOne(sha, actions, Begin(op, call), s);
    var s' := Execute(sha, actions + [Begin(op, call)]);
    forall other | Running(s', other) ensures other == op {
      assert other != op ==> Running(s, other);
    }
    var rest;
    rest, stamp := RunsToEnd(sha, actions + [Begin(op, call)], op, s.tables.store, call, Remaining(Opened(call)));
    more := [Begin(op, call)] + rest;
    Regrouped(actions, Begin(op, call), rest);
  }
}
