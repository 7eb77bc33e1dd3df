/**
  Whole runs of the sequential store. A log lists the committed commands in
  order; `Run` is the store they leave. The laws below hold of every legal
  log, and therefore of every reachable state of both backends, but that the
  times of receipts are exact only in D1: a PostgreSQL receipt keeps microseconds
  where the stored response keeps the full reading of the clock.
 */
module History {
  import opened Results
  import opened Text
  import opened Domain
  import opened SequentialStore
  import opened Invariants

  /** A committed command; `op` is the client operation that submitted it. */
  datatype Entry = Entry(op: nat, call: Call, stamp: Stamp)

  type Log = seq<Entry>

  function Step(sha: Sha256, store: Store, entry: Entry): Store {
    if |entry.stamp.draws| == |EvaluatedKeys(entry.call.request)| then After(sha, store, entry.call, entry.stamp)
    else store
  }

  function Run(sha: Sha256, log: Log): Store {
    if log == [] then EMPTY else Step(sha, Run(sha, log[..|log| - 1]), log[|log| - 1])
  }

  /** The store before entry `i`. */
  function At(sha: Sha256, log: Log, i: nat): Store
    requires i <= |log|
  {
    Run(sha, log[..i])
  }

  ghost predicate LegalAt(sha: Sha256, log: Log, i: nat)
    requires i < |log|
  {
    Admissible(sha, At(sha, log, i), log[i].call, log[i].stamp)
  }

  ghost predicate Legal(sha: Sha256, log: Log) {
    forall i: nat | i < |log| :: LegalAt(sha, log, i)
  }

  lemma AtNext(sha: Sha256, log: Log, i: nat)
    requires i < |log|
    ensures At(sha, log, i + 1) == Step(sha, At(sha, log, i), log[i])
  {
    assert log[..i + 1][..i] == log[..i];
  }

  lemma AtPrefix(sha: Sha256, log: Log, n: nat, i: nat)
    requires i <= n <= |log|
    ensures At(sha, log[..n], i) == At(sha, log, i)
  {
    assert log[..n][..i] == log[..i];
  }

  lemma AtEnd(sha: Sha256, log: Log)
    ensures At(sha, log, |log|) == Run(sha, log)
  {
    assert log[..|log|] == log;
  }

  lemma LegalPrefix(sha: Sha256, log: Log, n: nat)
    requires Legal(sha, log) && n <= |log|
    ensures Legal(sha, log[..n])
  {
    forall i: nat | i < n ensures LegalAt(sha, log[..n], i) {
      assert LegalAt(sha, log, i);
      AtPrefix(sha, log, n, i);
    }
  }

  /** Appending an admissible command keeps a log legal. */
  lemma LegalAppend(sha: Sha256, log: Log, entry: Entry)
    requires Legal(sha, log) && Admissible(sha, Run(sha, log), entry.call, entry.stamp)
    ensures Legal(sha, log + [entry])
    ensures Run(sha, log + [entry]) == After(sha, Run(sha, log), entry.call, entry.stamp)
    ensures forall i: nat | i <= |log| :: At(sha, log + [entry], i) == At(sha, log, i)
  {
    var longer := log + [entry];
    assert longer[..|log|] == log;
    AtEnd(sha, log);
    forall i: nat | i <= |log| ensures At(sha, longer, i) == At(sha, log, i) {
      assert longer[..i] == log[..i];
    }
    forall i: nat | i < |longer| ensures LegalAt(sha, longer, i) {
      assert i < |log| ==> LegalAt(sha, log, i);
    }
  }

  /** What the store was at a position does not depend on later entries. */
  lemma AtAppend(sha: Sha256, log: Log, entry: Entry, i: nat)
    requires i <= |log|
    ensures At(sha, log + [entry], i) == At(sha, log, i)
  {
    assert (log + [entry])[..i] == log[..i];
  }

  // -------------------------------------------------------------- reachability

  lemma {:induction false} Reachable(sha: Sha256, log: Log, i: nat)
    requires Legal(sha, log) && i <= |log|
    ensures StoreInv(At(sha, log, i))
  {
    if i == 0 {
      EmptyInv();
    } else {
      Reachable(sha, log, i - 1);
      StepIsAfter(sha, log, i - 1);
      InvariantKept(sha, At(sha, log, i - 1), log[i - 1].call, log[i - 1].stamp);
    }
  }

  lemma GrowsOnce(sha: Sha256, log: Log, i: nat)
    requires Legal(sha, log) && i < |log|
    ensures Extends(At(sha, log, i), At(sha, log, i + 1))
  {
    Reachable(sha, log, i);
    StepIsAfter(sha, log, i);
    InvariantKept(sha, At(sha, log, i), log[i].call, log[i].stamp);
  }

  /** Rulesets, responses and receipts are never changed; flags only evolve. */
  lemma {:induction false} Grows(sha: Sha256, log: Log, i: nat, j: nat)
    requires Legal(sha, log) && i <= j <= |log|
    ensures Extends(At(sha, log, i), At(sha, log, j))
    decreases j - i
  {
    if i < j {
      Grows(sha, log, i, j - 1);
      GrowsOnce(sha, log, j - 1);
      ExtendsTransitive(At(sha, log, i), At(sha, log, j - 1), At(sha, log, j));
    }
  }

  // --------------------------------------------------------------- exactly once

  /** The answer a committed command was given. */
  ghost function ResponseAt(sha: Sha256, log: Log, i: nat): StorageResult<Response>
    requires Legal(sha, log) && i < |log|
  {
    assert LegalAt(sha, log, i);
    Apply(sha, At(sha, log, i), log[i].call, log[i].stamp).1
  }

  lemma AnswerIsStored(sha: Sha256, store: Store, call: Call, stamp: Stamp)
    requires Admissible(sha, store, call, stamp)
    ensures var answer := Apply(sha, store, call, stamp).1;
            && answer.Success?
            && IdOf(call) !in store.commands
            && IdOf(call) in After(sha, store, call, stamp).commands
            && After(sha, store, call, stamp).commands[IdOf(call)] == CommandRow(call.command.hash, answer.value)
            && Decodes(OperationOf(call.request), answer.value)
  {
    var plan, effect := AppliedIsCommit(sha, store, call, stamp);
    assert Apply(sha, store, call, stamp).1 == Success(effect.response);
  }

  /** The answer is stored with the command and stays what a replay returns. */
  lemma AnswerIsKept(sha: Sha256, log: Log, i: nat, j: nat)
    requires Legal(sha, log) && i < j <= |log|
    ensures ResponseAt(sha, log, i).Success?
    ensures IdOf(log[i].call) in At(sha, log, j).commands
    ensures At(sha, log, j).commands[IdOf(log[i].call)]
            == CommandRow(log[i].call.command.hash, ResponseAt(sha, log, i).value)
    ensures Replay(At(sha, log, j).commands, log[i].call) == Some(ResponseAt(sha, log, i))
  {
    StepIsAfter(sha, log, i);
    AnswerIsStored(sha, At(sha, log, i), log[i].call, log[i].stamp);
    Grows(sha, log, i + 1, j);
  }

  lemma StepIsAfter(sha: Sha256, log: Log, i: nat)
    requires Legal(sha, log) && i < |log|
    ensures Admissible(sha, At(sha, log, i), log[i].call, log[i].stamp)
    ensures At(sha, log, i + 1) == After(sha, At(sha, log, i), log[i].call, log[i].stamp)
  {
    assert LegalAt(sha, log, i);
    AtNext(sha, log, i);
  }

  /** At most one commit per caller, actor, operation and key. */
  lemma AtMostOnce(sha: Sha256, log: Log, i: nat, j: nat)
    requires Legal(sha, log) && i < |log| && j < |log| && IdOf(log[i].call) == IdOf(log[j].call)
    ensures i == j
  {
    if i < j {
      AnswerIsKept(sha, log, i, j);
      StepIsAfter(sha, log, j);
    } else if j < i {
      AnswerIsKept(sha, log, j, i);
      StepIsAfter(sha, log, i);
    }
  }

  /** Whoever repeats a command gets the first answer, or a conflict for another request. */
  lemma ReplaysAgree(sha: Sha256, log: Log, i: nat, j: nat, call: Call)
    requires Legal(sha, log) && i < j <= |log| && IdOf(call) == IdOf(log[i].call)
    ensures Verdict(sha, At(sha, log, j), call)
            == Some(if call.command.hash == log[i].call.command.hash then ResponseAt(sha, log, i)
                    else Failure(Domain(IdempotencyConflict)))
  {
    AnswerIsKept(sha, log, i, j);
    assert Replay(At(sha, log, j).commands, log[i].call).Some?;
  }

  // ----------------------------------------------------- conservation of revisions

  predicate WritesFlag(request: Request, id: FlagId) {
    match request
    case UpdateFlag(org, flagKey, _, _, _) => FlagId(org, flagKey) == id
    case ArchiveFlag(org, flagKey, _) => FlagId(org, flagKey) == id
    case PublishRuleset(org, flagKey, _, _, _, _) => FlagId(org, flagKey) == id
    case _ => false
  }

  predicate WritesEnvironment(request: Request, id: EnvironmentId) {
    match request
    case PutEnvironment(org, environmentKey, _, expected) => expected.Some? && EnvironmentId(org, environmentKey) == id
    case PublishRuleset(org, _, environmentKey, _, _, _) => EnvironmentId(org, environmentKey) == id
    case _ => false
  }

  predicate PublishesTo(request: Request, org: Text, flagKey: Text, environmentKey: Text) {
    request.PublishRuleset? && request.org == org && request.flagKey == flagKey
      && request.environmentKey == environmentKey
  }

  function FlagWrites(log: Log, id: FlagId): nat {
    if log == [] then 0
    else FlagWrites(log[..|log| - 1], id) + Count(WritesFlag(log[|log| - 1].call.request, id))
  }

  function EnvironmentWrites(log: Log, id: EnvironmentId): nat {
    if log == [] then 0
    else EnvironmentWrites(log[..|log| - 1], id) + Count(WritesEnvironment(log[|log| - 1].call.request, id))
  }

  function Publications(log: Log, org: Text, flagKey: Text, environmentKey: Text): nat {
    if log == [] then 0
    else Publications(log[..|log| - 1], org, flagKey, environmentKey)
         + Count(PublishesTo(log[|log| - 1].call.request, org, flagKey, environmentKey))
  }

  /** The last step of a nonempty legal log. */
  lemma LastStep(sha: Sha256, log: Log) returns (store: Store, plan: Plan, effect: Effect)
    requires Legal(sha, log) && log != []
    ensures Legal(sha, log[..|log| - 1]) && store == Run(sha, log[..|log| - 1]) && StoreInv(store)
    ensures Admissible(sha, store, log[|log| - 1].call, log[|log| - 1].stamp)
    ensures PlanHolds(sha, store, log[|log| - 1].call.request, plan)
    ensures Fits(log[|log| - 1].call.request, plan, log[|log| - 1].stamp)
    ensures effect == Enact(log[|log| - 1].call, plan, log[|log| - 1].stamp)
    ensures Run(sha, log) == Commit(store, log[|log| - 1].call, effect)
  {
    var n := |log| - 1;
    LegalPrefix(sha, log, n);
    Reachable(sha, log, n);
    StepIsAfter(sha, log, n);
    store := At(sha, log, n);
    plan, effect := AppliedIsCommit(sha, store, log[n].call, log[n].stamp);
  }

  /** A flag's revision is 1 plus its updates, archives and publications. */
  lemma {:induction false} FlagRevisionsConserved(sha: Sha256, log: Log, id: FlagId)
    requires Legal(sha, log)
    ensures if id in Run(sha, log).flags then Run(sha, log).flags[id].revision == 1 + FlagWrites(log, id)
            else FlagWrites(log, id) == 0
  {
    if log != [] {
      var store, plan, effect := LastStep(sha, log);
      FlagRevisionsConserved(sha, log[..|log| - 1], id);
    }
  }

  /** An environment's revision is 1 plus its renames and publications. */
  lemma {:induction false} EnvironmentRevisionsConserved(sha: Sha256, log: Log, id: EnvironmentId)
    requires Legal(sha, log)
    ensures if id in Run(sha, log).environments
            then Run(sha, log).environments[id].revision == 1 + EnvironmentWrites(log, id)
            else EnvironmentWrites(log, id) == 0
  {
    if log != [] {
      var store, plan, effect := LastStep(sha, log);
      EnvironmentRevisionsConserved(sha, log[..|log| - 1], id);
    }
  }

  /** Ruleset revisions of a flag and environment are exactly 1..n for n publications. */
  lemma RulesetsConserved(sha: Sha256, log: Log, org: Text, flagKey: Text, environmentKey: Text, n: int)
    requires Legal(sha, log)
    ensures RulesetId(org, flagKey, environmentKey, n) in Run(sha, log).rulesets
            <==> 1 <= n <= Publications(log, org, flagKey, environmentKey)
  {
    Reachable(sha, log, |log|);
    AtEnd(sha, log);
    LatestIsPublications(sha, log, org, flagKey, environmentKey);
    NoGaps(Run(sha, log), org, flagKey, environmentKey, n);
  }

  lemma {:induction false} LatestIsPublications(sha: Sha256, log: Log, org: Text, flagKey: Text, environmentKey: Text)
    requires Legal(sha, log)
    ensures Latest(Run(sha, log).rulesets, org, flagKey, environmentKey)
            == Publications(log, org, flagKey, environmentKey)
  {
    LatestIs(Run(sha, log).rulesets, org, flagKey, environmentKey);
    if log != [] {
      var store, plan, effect := LastStep(sha, log);
      LatestIsPublications(sha, log[..|log| - 1], org, flagKey, environmentKey);
      LatestAfter(sha, store, log[|log| - 1].call, plan, log[|log| - 1].stamp, org, flagKey, environmentKey);
    }
  }

  lemma LatestAfter(sha: Sha256, store: Store, call: Call, plan: Plan, stamp: Stamp, org: Text, flagKey: Text,
                    environmentKey: Text)
    requires PlanHolds(sha, store, call.request, plan) && Fits(call.request, plan, stamp)
    ensures Latest(Commit(store, call, Enact(call, plan, stamp)).rulesets, org, flagKey, environmentKey)
            == Latest(store.rulesets, org, flagKey, environmentKey)
               + Count(PublishesTo(call.request, org, flagKey, environmentKey))
  {
    var before, after := store.rulesets, Commit(store, call, Enact(call, plan, stamp)).rulesets;
    LatestIs(before, org, flagKey, environmentKey);
    if PublishesTo(call.request, org, flagKey, environmentKey) {
      LatestUnique(after, org, flagKey, environmentKey, plan.latest + 1);
    } else {
      forall n | RulesetId(org, flagKey, environmentKey, n) in after
        ensures RulesetId(org, flagKey, environmentKey, n) in before
      {
      }
      assert Revisions(after, org, flagKey, environmentKey) == Revisions(before, org, flagKey, environmentKey);
    }
  }

  /** One command row per committed command. */
  lemma {:induction false} CommandsConserved(sha: Sha256, log: Log)
    requires Legal(sha, log)
    ensures |Run(sha, log).commands| == |log|
  {
    if log != [] {
      var n := |log| - 1;
      LegalPrefix(sha, log, n);
      CommandsConserved(sha, log[..n]);
      var store := Run(sha, log[..n]);
      StepIsAfter(sha, log, n);
      CommandAdded(sha, store, log[n].call, log[n].stamp);
    }
  }

  lemma CommandAdded(sha: Sha256, store: Store, call: Call, stamp: Stamp)
    requires Admissible(sha, store, call, stamp)
    ensures |After(sha, store, call, stamp).commands| == |store.commands| + 1
  {
    AnswerIsStored(sha, store, call, stamp);
    var plan, effect := AppliedIsCommit(sha, store, call, stamp);
    var before, after := store.commands, Commit(store, call, effect).commands;
    assert after.Keys == before.Keys + {IdOf(call)};
    assert |after| == |after.Keys| && |before| == |before.Keys|;
  }

  // ------------------------------------------------ no lost update, final archival

  function ExpectedRevision(request: Request): int {
    match request
    case UpdateFlag(_, _, expected, _, _) => expected
    case ArchiveFlag(_, _, expected) => expected
    case PublishRuleset(_, _, _, expected, _, _) => expected
    case _ => 0
  }

  /** The flag just before and just after a committed write to it. */
  lemma WriteAdvances(sha: Sha256, log: Log, i: nat, id: FlagId)
    requires Legal(sha, log) && i < |log| && WritesFlag(log[i].call.request, id)
    ensures id in At(sha, log, i).flags && id in At(sha, log, i + 1).flags
    ensures At(sha, log, i).flags[id].revision == ExpectedRevision(log[i].call.request)
    ensures At(sha, log, i + 1).flags[id].revision == ExpectedRevision(log[i].call.request) + 1
    ensures log[i].call.request.ArchiveFlag? ==> At(sha, log, i + 1).flags[id].archived
    ensures !At(sha, log, i).flags[id].archived
  {
    StepIsAfter(sha, log, i);
    Reachable(sha, log, i);
    var plan, effect := AppliedIsCommit(sha, At(sha, log, i), log[i].call, log[i].stamp);
  }

  /** Of all writers that expect one revision of a flag, at most one commits. */
  lemma NoLostUpdate(sha: Sha256, log: Log, i: nat, j: nat, id: FlagId)
    requires Legal(sha, log) && i < |log| && j < |log|
    requires WritesFlag(log[i].call.request, id) && WritesFlag(log[j].call.request, id)
    ensures ExpectedRevision(log[i].call.request) < ExpectedRevision(log[j].call.request) <==> i < j
  {
    WriteAdvances(sha, log, i, id);
    WriteAdvances(sha, log, j, id);
    if i < j {
      Grows(sha, log, i + 1, j);
    } else if j < i {
      Grows(sha, log, j + 1, i);
    }
  }

  /** Commands that create, change, publish or evaluate a flag. */
  predicate Concerns(request: Request, id: FlagId) {
    || WritesFlag(request, id)
    || (request.CreateFlag? && FlagId(request.org, request.flagKey) == id)
    || exists k: nat :: k < |EvaluatedKeys(request)| && id == FlagId(request.org, EvaluatedKeys(request)[k])
  }

  /** A command that concerns an existing flag commits only while the flag is live. */
  lemma ConcernsLive(sha: Sha256, store: Store, call: Call, stamp: Stamp, id: FlagId)
    requires Admissible(sha, store, call, stamp) && Concerns(call.request, id) && id in store.flags
    ensures !store.flags[id].archived
  {
    var r := call.request;
    var plan, effect := AppliedIsCommit(sha, store, call, stamp);
    if k: nat :| k < |EvaluatedKeys(r)| && id == FlagId(r.org, EvaluatedKeys(r)[k]) {
      assert EvaluateKey(sha, store, r.org, r.environmentKey, EvaluatedKeys(r)[k], r.context)
             == Success(plan.evaluated[k]);
      EvaluateKeyMeans(sha, store, r.org, r.environmentKey, EvaluatedKeys(r)[k], r.context);
    }
  }

  lemma ArchivedStays(sha: Sha256, log: Log, i: nat, j: nat, id: FlagId)
    requires Legal(sha, log) && i < j <= |log|
    requires log[i].call.request.ArchiveFlag? && WritesFlag(log[i].call.request, id)
    ensures id in At(sha, log, i + 1).flags && id in At(sha, log, j).flags
    ensures At(sha, log, j).flags[id] == At(sha, log, i + 1).flags[id]
    ensures At(sha, log, j).flags[id].archived
  {
    WriteAdvances(sha, log, i, id);
    Grows(sha, log, i + 1, j);
  }

  lemma ArchivedIsLeftAlone(sha: Sha256, log: Log, j: nat, id: FlagId)
    requires Legal(sha, log) && j < |log|
    requires id in At(sha, log, j).flags && At(sha, log, j).flags[id].archived
    ensures !Concerns(log[j].call.request, id)
  {
    StepIsAfter(sha, log, j);
    if Concerns(log[j].call.request, id) {
      ConcernsLive(sha, At(sha, log, j), log[j].call, log[j].stamp, id);
    }
  }

  /** Nothing happens to an archived flag any more. */
  lemma ArchivalIsFinal(sha: Sha256, log: Log, i: nat, j: nat, id: FlagId)
    requires Legal(sha, log) && i < j < |log|
    requires log[i].call.request.ArchiveFlag? && WritesFlag(log[i].call.request, id)
    ensures !Concerns(log[j].call.request, id)
    ensures id in At(sha, log, i + 1).flags && id in At(sha, log, j + 1).flags
    ensures At(sha, log, j + 1).flags[id] == At(sha, log, i + 1).flags[id]
  {
    ArchivedStays(sha, log, i, j, id);
    ArchivedStays(sha, log, i, j + 1, id);
    ArchivedIsLeftAlone(sha, log, j, id);
  }

  // --------------------------------------------------------- reproducible receipts

  /** Record `k` of a stored response. */
  function RecordIn(response: Response, k: nat): Option<EvaluationRecord> {
    match response
    case EvaluationResponse(record) => if k == 0 then Some(record) else None
    case BatchResponse(records) => if k < |records| then Some(records[k]) else None
    case _ => None
  }

  predicate Mirrors(receipt: Receipt, record: EvaluationRecord) {
    && receipt.receiptId == record.receiptId && receipt.flagKey == record.flagKey
    && receipt.environmentKey == record.environmentKey && receipt.variantKey == record.variantKey
    && receipt.reason == record.reason && receipt.rulesetRevision == record.rulesetRevision
    && receipt.evaluatedAt == record.evaluatedAt
  }

  /** Evaluating the named ruleset on the original context gives the recorded outcome. */
  ghost predicate Reproducible(sha: Sha256, store: Store, org: Text, context: Context, receipt: Receipt) {
    var id := RulesetId(org, receipt.flagKey, receipt.environmentKey, receipt.rulesetRevision);
    && id in store.rulesets
    && receipt.contextHash == context.hash
    && var r := ChooseVariant(sha, org, receipt.environmentKey, receipt.flagKey, context.targetingKey,
                              context.attributes, store.rulesets[id].definition);
       r.Success? && r.value.variant.variantKey == receipt.variantKey && r.value.reason == receipt.reason
  }

  /** Row `p` of the receipts table is evaluation `k` of log entry `i`. */
  ghost predicate Origin(sha: Sha256, log: Log, i: nat, k: nat, p: nat) {
    i < |log| && k < |EvaluatedKeys(log[i].call.request)| && p == |At(sha, log, i).receipts| + k
  }

  /** Row `p` and record `k` of the response stored for `call` say the same, reproducibly. */
  ghost predicate Accounted(sha: Sha256, store: Store, call: Call, k: nat, p: nat) {
    && k < |EvaluatedKeys(call.request)|
    && p < |store.receipts|
    && IdOf(call) in store.commands
    && store.receipts[p].receipt.flagKey == EvaluatedKeys(call.request)[k]
    && Reproducible(sha, store, call.request.org, call.request.context, store.receipts[p].receipt)
    && RecordIn(store.commands[IdOf(call)].response, k).Some?
    && Mirrors(store.receipts[p].receipt, RecordIn(store.commands[IdOf(call)].response, k).value)
  }

  lemma NewReceiptReproducible(sha: Sha256, store: Store, call: Call, plan: Plan, stamp: Stamp, k: nat)
    requires PlanHolds(sha, store, call.request, plan) && Fits(call.request, plan, stamp)
    requires plan.Evaluations? && k < |plan.evaluated|
    ensures var effect := Enact(call, plan, stamp);
            && k < |EvaluatedKeys(call.request)| && |effect.receipts| == |plan.evaluated|
            && effect.receipts[k].receipt.flagKey == EvaluatedKeys(call.request)[k]
            && Reproducible(sha, Commit(store, call, effect), call.request.org, call.request.context,
                            effect.receipts[k].receipt)
  {
    var r := call.request;
    EvaluateKeyMeans(sha, store, r.org, r.environmentKey, EvaluatedKeys(r)[k], r.context);
    assert Supported(sha, store, r.org, r.environmentKey, EvaluatedKeys(r)[k], r.context, plan.evaluated[k]);
  }

  lemma RecordsMirror(call: Call, plan: Plan, stamp: Stamp, k: nat)
    requires Fits(call.request, plan, stamp) && plan.Evaluations? && k < |plan.evaluated|
    ensures var effect := Enact(call, plan, stamp);
            && RecordIn(effect.response, k)
               == Some(RecordOf(call.request.environmentKey, plan.evaluated[k], stamp.draws[k]))
            && Mirrors(effect.receipts[k].receipt, RecordIn(effect.response, k).value)
  {
  }

  lemma CommittedAccounted(sha: Sha256, store: Store, call: Call, effect: Effect, k: nat)
    requires k < |EvaluatedKeys(call.request)| && k < |effect.receipts|
    requires effect.receipts[k].receipt.flagKey == EvaluatedKeys(call.request)[k]
    requires Reproducible(sha, Commit(store, call, effect), call.request.org, call.request.context,
                          effect.receipts[k].receipt)
    requires RecordIn(effect.response, k).Some?
             && Mirrors(effect.receipts[k].receipt, RecordIn(effect.response, k).value)
    ensures Accounted(sha, Commit(store, call, effect), call, k, |store.receipts| + k)
  {
  }

  lemma NewReceiptAccounted(sha: Sha256, store: Store, call: Call, plan: Plan, stamp: Stamp, k: nat)
    requires PlanHolds(sha, store, call.request, plan) && Fits(call.request, plan, stamp)
    requires plan.Evaluations? && k < |plan.evaluated|
    ensures Accounted(sha, Commit(store, call, Enact(call, plan, stamp)), call, k, |store.receipts| + k)
  {
    NewReceiptReproducible(sha, store, call, plan, stamp, k);
    RecordsMirror(call, plan, stamp, k);
    CommittedAccounted(sha, store, call, Enact(call, plan, stamp), k);
  }

  lemma AccountedStays(sha: Sha256, a: Store, b: Store, call: Call, k: nat, p: nat)
    requires Accounted(sha, a, call, k, p) && Extends(a, b)
    ensures Accounted(sha, b, call, k, p)
  {
    assert b.receipts[p] == a.receipts[p];
  }

  /**
    Receipts stay reproducible for ever: whatever has been committed since,
    receipt `p` still names a stored ruleset that reproduces it, and mirrors
    record `k` of the command's stored response.
   */
  lemma ReceiptsReproducible(sha: Sha256, log: Log, i: nat, k: nat, p: nat)
    requires Legal(sha, log) && Origin(sha, log, i, k, p)
    ensures Accounted(sha, Run(sha, log), log[i].call, k, p)
  {
    StepIsAfter(sha, log, i);
    var plan, effect := AppliedIsCommit(sha, At(sha, log, i), log[i].call, log[i].stamp);
    NewReceiptAccounted(sha, At(sha, log, i), log[i].call, plan, log[i].stamp, k);
    Grows(sha, log, i + 1, |log|);
    AccountedStays(sha, At(sha, log, i + 1), At(sha, log, |log|), log[i].call, k, p);
    AtEnd(sha, log);
  }

  /** Every receipt has exactly one origin, and origins are in commit order. */
  lemma {:induction false} ReceiptsHaveOrigins(sha: Sha256, log: Log, p: nat)
    requires Legal(sha, log) && p < |Run(sha, log).receipts|
    ensures exists i, k :: Origin(sha, log, i, k, p)
  {
    var n := |log| - 1;
    var store, plan, effect := LastStep(sha, log);
    if p < |store.receipts| {
      ReceiptsHaveOrigins(sha, log[..n], p);
      var i, k :| Origin(sha, log[..n], i, k, p);
      AtPrefix(sha, log, n, i);
      assert Origin(sha, log, i, k, p);
    } else {
      assert Origin(sha, log, n, p - |store.receipts|, p);
    }
  }

  lemma OriginsInOrder(sha: Sha256, log: Log, i: nat, k: nat, p: nat, i': nat, k': nat, p': nat)
    requires Legal(sha, log) && Origin(sha, log, i, k, p) && Origin(sha, log, i', k', p')
    ensures p < p' <==> i < i' || (i == i' && k < k')
  {
    if i < i' {
      OriginBounds(sha, log, i, k, i');
    } else if i' < i {
      OriginBounds(sha, log, i', k', i);
    }
  }

  lemma OriginBounds(sha: Sha256, log: Log, i: nat, k: nat, j: nat)
    requires Legal(sha, log) && i < j <= |log| && k < |EvaluatedKeys(log[i].call.request)|
    ensures |At(sha, log, i).receipts| + k < |At(sha, log, j).receipts|
  {
    StepIsAfter(sha, log, i);
    ReceiptCount(sha, At(sha, log, i), log[i].call, log[i].stamp);
    Grows(sha, log, i + 1, j);
  }

  // ------------------------------------------------------------- linearizability

  /**
    The result is the sequential store's answer at position `point`, which lies
    within the operation's interval: a verdict that changes nothing, or the
    answer of this operation's own committed entry.
   */
  ghost predicate Linearized(sha: Sha256, log: Log, start: nat, op: nat, call: Call,
                             result: StorageResult<Response>, point: nat)
    requires Legal(sha, log)
  {
    && start <= point <= |log|
    && (|| Verdict(sha, At(sha, log, point), call) == Some(result)
        || (point < |log| && log[point].op == op && log[point].call == call && ResponseAt(sha, log, point) == result))
  }

  lemma ResponseStays(sha: Sha256, log: Log, entry: Entry, i: nat)
    requires Legal(sha, log) && Legal(sha, log + [entry]) && i < |log|
    ensures ResponseAt(sha, log + [entry], i) == ResponseAt(sha, log, i)
  {
    AtAppend(sha, log, entry, i);
  }

  lemma LinearizedStays(sha: Sha256, log: Log, entry: Entry, start: nat, op: nat, call: Call,
                        result: StorageResult<Response>, point: nat)
    requires Legal(sha, log) && Legal(sha, log + [entry])
    requires Linearized(sha, log, start, op, call, result, point)
    ensures Linearized(sha, log + [entry], start, op, call, result, point)
  {
    AtAppend(sha, log, entry, point);
    if point < |log| {
      ResponseStays(sha, log, entry, point);
    }
  }

  lemma AnswerIsStoredAt(sha: Sha256, log: Log, start: nat, op: nat, call: Call, response: Response, point: nat)
    requires Legal(sha, log) && Linearized(sha, log, start, op, call, Success(response), point)
    ensures IdOf(call) in Run(sha, log).commands
    ensures Run(sha, log).commands[IdOf(call)] == CommandRow(call.command.hash, response)
  {
    AtEnd(sha, log);
    if Verdict(sha, At(sha, log, point), call) == Some(Success(response)) {
      assert Replay(At(sha, log, point).commands, call) == Some(Success(response));
      Grows(sha, log, point, |log|);
    } else {
      AnswerIsKept(sha, log, point, |log|);
    }
  }

  /** The sequential store never says that an operation is in progress. */
  lemma NeverInProgress(sha: Sha256, store: Store, call: Call)
    requires StoreInv(store)
    ensures Verdict(sha, store, call) != Some(Failure(Domain(OperationInProgress)))
  {
    var r := call.request;
    if EvaluatedKeys(r) != []
      && EvaluateKeys(sha, store, r.org, r.environmentKey, EvaluatedKeys(r), r.context).Failure? {
      var i := BatchFails(sha, store, r.org, r.environmentKey, EvaluatedKeys(r), r.context);
      EvaluationIsWellTyped(sha, store, r.org, r.environmentKey, EvaluatedKeys(r)[i], r.context);
    }
  }

  // ------------------------------------------------- what transactions may rely on

  /** A command row that appeared between two positions was committed between them. */
  lemma {:induction false} CommandOrigin(sha: Sha256, log: Log, early: nat, late: nat, id: CommandId) returns (p: nat)
    requires Legal(sha, log) && early <= late <= |log|
    requires id !in At(sha, log, early).commands && id in At(sha, log, late).commands
    ensures early <= p < late && IdOf(log[p].call) == id
    decreases late
  {
    StepIsAfter(sha, log, late - 1);
    var plan, effect := AppliedIsCommit(sha, At(sha, log, late - 1), log[late - 1].call, log[late - 1].stamp);
    if id in At(sha, log, late - 1).commands {
      p := CommandOrigin(sha, log, early, late - 1, id);
    } else {
      p := late - 1;
    }
  }

  /**
    Evaluations are current when they commit: every returned record names the
    highest ruleset revision of its flag and environment, and the flag is live.
   */
  lemma EvaluationsAreCurrent(sha: Sha256, log: Log, i: nat, k: nat)
    requires Legal(sha, log) && i < |log| && k < |EvaluatedKeys(log[i].call.request)|
    ensures ResponseAt(sha, log, i).Success? && RecordIn(ResponseAt(sha, log, i).value, k).Some?
    ensures var record := RecordIn(ResponseAt(sha, log, i).value, k).value;
            && CurrentRecord(At(sha, log, i), log[i].call.request, k, record)
            && CurrentRecord(At(sha, log, i + 1), log[i].call.request, k, record)
  {
    var plan, effect := EntryIsEffect(sha, log, i);
    NewRecordIsCurrent(sha, At(sha, log, i), log[i].call, plan, log[i].stamp, k);
  }

  lemma EntryIsEffect(sha: Sha256, log: Log, i: nat) returns (plan: Plan, effect: Effect)
    requires Legal(sha, log) && i < |log|
    ensures PlanHolds(sha, At(sha, log, i), log[i].call.request, plan) && Fits(log[i].call.request, plan, log[i].stamp)
    ensures effect == Enact(log[i].call, plan, log[i].stamp)
    ensures At(sha, log, i + 1) == Commit(At(sha, log, i), log[i].call, effect)
    ensures ResponseAt(sha, log, i) == Success(effect.response)
  {
    StepIsAfter(sha, log, i);
    plan, effect := AppliedIsCommit(sha, At(sha, log, i), log[i].call, log[i].stamp);
  }

  /** The record names the highest revision of flag `k` of the request, and the flag is live. */
  ghost predicate CurrentRecord(store: Store, r: Request, k: nat, record: EvaluationRecord)
    requires k < |EvaluatedKeys(r)|
  {
    var key := EvaluatedKeys(r)[k];
    && record.flagKey == key
    && record.rulesetRevision == Latest(store.rulesets, r.org, key, record.environmentKey)
    && FlagId(r.org, key) in store.flags && !store.flags[FlagId(r.org, key)].archived
  }

  lemma NewRecordIsCurrent(sha: Sha256, store: Store, call: Call, plan: Plan, stamp: Stamp, k: nat)
    requires PlanHolds(sha, store, call.request, plan) && Fits(call.request, plan, stamp)
    requires k < |EvaluatedKeys(call.request)|
    ensures var effect := Enact(call, plan, stamp);
            && RecordIn(effect.response, k).Some?
            && CurrentRecord(store, call.request, k, RecordIn(effect.response, k).value)
            && CurrentRecord(Commit(store, call, effect), call.request, k, RecordIn(effect.response, k).value)
  {
    var r := call.request;
    RecordsMirror(call, plan, stamp, k);
    EvaluateKeyMeans(sha, store, r.org, r.environmentKey, EvaluatedKeys(r)[k], r.context);
    assert Supported(sha, store, r.org, r.environmentKey, EvaluatedKeys(r)[k], r.context, plan.evaluated[k]);
  }

  // ------------------------------------------------------------- receipt names

  /** `name` is the key, a colon, and the numeral of `k` without superfluous zeros. */
  ghost predicate NamesEntry(name: Text, key: Text, k: nat) {
    && |key| + 1 < |name| && name[..|key|] == key && name[|key|] == 58
    && AllDigits(name[|key| + 1..]) && DigitsValue(name[|key| + 1..]) == k
    && (name[|key| + 1] == 48 ==> |name| == |key| + 2)
  }

  lemma EvaluationIdNames(key: Text, k: nat)
    ensures NamesEntry(EvaluationId(key, k), key, k)
  {
    var name := EvaluationId(key, k);
    assert name[|key| + 1..] == Decimal(k);
    DecimalValue(k);
    DecimalIsCanonical(k);
  }

  lemma ReceiptStays(sha: Sha256, log: Log, i: nat, p: nat)
    requires Legal(sha, log) && i <= |log| && p < |At(sha, log, i).receipts|
    ensures p < |Run(sha, log).receipts| && Run(sha, log).receipts[p] == At(sha, log, i).receipts[p]
  {
    Grows(sha, log, i, |log|);
    AtEnd(sha, log);
  }

  /**
    Receipts are named after their command: the receipt of a single evaluation
    has the key of the command, entry `k` of a batch the key, a colon and `k`.
   */
  lemma ReceiptsAreNamed(sha: Sha256, log: Log, i: nat, k: nat, p: nat)
    requires Legal(sha, log) && Origin(sha, log, i, k, p)
    ensures p < |Run(sha, log).receipts|
    ensures var name, key := Run(sha, log).receipts[p].receipt.evaluationId, log[i].call.command.key;
            if log[i].call.request.EvaluateBatch? then NamesEntry(name, key, k) else name == key
  {
    StepIsAfter(sha, log, i);
    NewReceiptNamed(sha, At(sha, log, i), At(sha, log, i + 1), log[i].call, log[i].stamp, k);
    ReceiptStays(sha, log, i + 1, p);
  }

  lemma NewReceiptNamed(sha: Sha256, store: Store, after: Store, call: Call, stamp: Stamp, k: nat)
    requires Admissible(sha, store, call, stamp) && after == After(sha, store, call, stamp)
    requires k < |EvaluatedKeys(call.request)|
    ensures |store.receipts| + k < |after.receipts|
    ensures var name, key := after.receipts[|store.receipts| + k].receipt.evaluationId, call.command.key;
            if call.request.EvaluateBatch? then NamesEntry(name, key, k) else name == key
  {
    ReceiptsAppended(sha, store, call, stamp);
    assert Recorded(after, call, stamp.draws[k], k, after.receipts[|store.receipts| + k]);
    EvaluationIdNames(call.command.key, k);
  }

  // ------------------------------------------------------------------ identities

  /** Calls share an identity only if they are the same operation of one caller, actor and key. */
  lemma SameIdSameOperation(a: Call, b: Call)
    ensures IdOf(a) == IdOf(b) <==>
              && a.command.caller == b.command.caller && a.command.actor == b.command.actor
              && a.command.key == b.command.key
              && a.request.CreateFlag? == b.request.CreateFlag? && a.request.UpdateFlag? == b.request.UpdateFlag?
              && a.request.ArchiveFlag? == b.request.ArchiveFlag?
              && a.request.PutEnvironment? == b.request.PutEnvironment?
              && a.request.PublishRuleset? == b.request.PublishRuleset?
              && a.request.Evaluate? == b.request.Evaluate? && a.request.EvaluateBatch? == b.request.EvaluateBatch?
  {
  }

  /** What is stored for a committed command is what its operation returns. */
  lemma StoredResponsesFit(sha: Sha256, log: Log, i: nat)
    requires Legal(sha, log) && i < |log|
    ensures var r, stored := log[i].call.request, Run(sha, log).commands;
            && IdOf(log[i].call) in stored
            && var response := stored[IdOf(log[i].call)].response;
               && (r.CreateFlag? || r.UpdateFlag? || r.ArchiveFlag? <==> response.FlagResponse?)
               && (r.PutEnvironment? <==> response.EnvironmentResponse?)
               && (r.PublishRuleset? <==> response.PublishResponse?)
               && (r.Evaluate? <==> response.EvaluationResponse?)
               && (r.EvaluateBatch? <==> response.BatchResponse?)
  {
    AnswerIsKept(sha, log, i, |log|);
    var plan, effect := EntryIsEffect(sha, log, i);
    AtEnd(sha, log);
  }
}
