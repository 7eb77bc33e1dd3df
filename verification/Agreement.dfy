/**
  The two backends agree. Clocks, receipt ids and row numbers do not influence
  any decision, so two databases that have committed the same commands in the
  same order hold the same rows and give the same answers, apart from those.
 */
module Agreement {
  import opened Results
  import opened Text
  import opened Domain
  import opened SequentialStore
  import opened Invariants
  import opened History
  import D1Tables
  import D1Machine
  import PgMachine
  import D1Store
  import D1Refinement
  import D1Progress
  import PgFacts
  import PgTransactions
  import JsonText
  import Rollouts
  import Service
  import PgProgress
  import PgSession

  // ------------------------------------------------------- erasing what may differ

  function PlainFlag(f: FlagRecord): FlagRecord {
    f.(createdAt := 0, updatedAt := 0, archivedAt := if f.archivedAt.Some? then Some(0) else None, rowSeq := 0)
  }

  function PlainEnvironment(e: EnvironmentRecord): EnvironmentRecord {
    e.(createdAt := 0, updatedAt := 0)
  }

  function PlainRuleset(row: RulesetRow): RulesetRow {
    row.(publishedAt := 0)
  }

  function PlainRecord(e: EvaluationRecord): EvaluationRecord {
    e.(receiptId := [], evaluatedAt := 0)
  }

  function PlainReceipt(row: ReceiptRow): ReceiptRow {
    row.(rowSeq := 0, receipt := row.receipt.(receiptId := [], evaluatedAt := 0))
  }

  function PlainRecords(records: seq<EvaluationRecord>): seq<EvaluationRecord> {
    seq(|records|, i requires 0 <= i < |records| => PlainRecord(records[i]))
  }

  function PlainReceipts(rows: seq<ReceiptRow>): seq<ReceiptRow> {
    seq(|rows|, i requires 0 <= i < |rows| => PlainReceipt(rows[i]))
  }

  function PlainResponse(response: Response): Response {
    match response
    case FlagResponse(flag) => FlagResponse(PlainFlag(flag))
    case EnvironmentResponse(environment) => EnvironmentResponse(PlainEnvironment(environment))
    case PublishResponse(publication) => PublishResponse(publication.(publishedAt := 0))
    case EvaluationResponse(evaluation) => EvaluationResponse(PlainRecord(evaluation))
    case BatchResponse(evaluations) => BatchResponse(PlainRecords(evaluations))
  }

  function PlainResult(result: StorageResult<Response>): StorageResult<Response> {
    match result
    case Success(response) => Success(PlainResponse(response))
    case Failure(error) => Failure(error)
  }

  function PlainPlan(plan: Plan): Plan {
    match plan
    case FlagChange(flag) => FlagChange(PlainFlag(flag))
    case EnvironmentChange(environment) => EnvironmentChange(PlainEnvironment(environment))
    case Publication(flag, environment, latest) => Publication(PlainFlag(flag), PlainEnvironment(environment), latest)
    case _ => plan
  }

  function PlainEffect(effect: Effect): Effect {
    Effect(if effect.flag.Some? then Some(PlainFlag(effect.flag.value)) else None,
           if effect.environment.Some? then Some(PlainEnvironment(effect.environment.value)) else None,
           if effect.ruleset.Some? then
             Some(NewRuleset(effect.ruleset.value.id, PlainRuleset(effect.ruleset.value.row)))
           else None,
           PlainReceipts(effect.receipts),
           PlainResponse(effect.response))
  }

  // -------------------------------------------------------------- stores alike

  ghost predicate FlagsAlike(a: Store, b: Store) {
    forall id :: (id in a.flags <==> id in b.flags)
      && (id in a.flags ==> PlainFlag(a.flags[id]) == PlainFlag(b.flags[id]))
  }

  ghost predicate EnvironmentsAlike(a: Store, b: Store) {
    forall id ::
      && (id in a.environments <==> id in b.environments)
      && (id in a.environments ==> PlainEnvironment(a.environments[id]) == PlainEnvironment(b.environments[id]))
  }

  ghost predicate RulesetsAlike(a: Store, b: Store) {
    forall id ::
      (id in a.rulesets <==> id in b.rulesets)
        && (id in a.rulesets ==> PlainRuleset(a.rulesets[id]) == PlainRuleset(b.rulesets[id]))
  }

  ghost predicate CommandsAlike(a: Store, b: Store) {
    forall id ::
      && (id in a.commands <==> id in b.commands)
      && (id in a.commands ==>
            && a.commands[id].hash == b.commands[id].hash
            && PlainResponse(a.commands[id].response) == PlainResponse(b.commands[id].response))
  }

  ghost predicate Alike(a: Store, b: Store) {
    && FlagsAlike(a, b) && EnvironmentsAlike(a, b) && RulesetsAlike(a, b) && CommandsAlike(a, b)
    && PlainReceipts(a.receipts) == PlainReceipts(b.receipts)
  }

  // --------------------------------------------------------------- decisions agree

  lemma LatestAgrees(a: Store, b: Store, org: Text, flagKey: Text, environmentKey: Text)
    requires RulesetsAlike(a, b)
    ensures Latest(a.rulesets, org, flagKey, environmentKey) == Latest(b.rulesets, org, flagKey, environmentKey)
  {
    assert Revisions(a.rulesets, org, flagKey, environmentKey) == Revisions(b.rulesets, org, flagKey, environmentKey);
  }

  lemma EvaluateKeyAgrees(sha: Sha256, a: Store, b: Store, org: Text, environmentKey: Text, flagKey: Text,
                          context: Context)
    requires Alike(a, b)
    ensures EvaluateKey(sha, a, org, environmentKey, flagKey, context)
            == EvaluateKey(sha, b, org, environmentKey, flagKey, context)
  {
    LatestAgrees(a, b, org, flagKey, environmentKey);
    var id := LatestId(a.rulesets, org, flagKey, environmentKey);
    if id in a.rulesets {
      assert PlainRuleset(a.rulesets[id]).definition == PlainRuleset(b.rulesets[id]).definition;
    }
    if FlagId(org, flagKey) in a.flags {
      var f, g := PlainFlag(a.flags[FlagId(org, flagKey)]), PlainFlag(b.flags[FlagId(org, flagKey)]);
      assert f.archived == g.archived && f.valueType == g.valueType;
    }
  }

  lemma {:induction false} EvaluateKeysAgree(sha: Sha256, a: Store, b: Store, org: Text, environmentKey: Text,
                                             keys: seq<Text>, context: Context)
    requires Alike(a, b)
    ensures EvaluateKeys(sha, a, org, environmentKey, keys, context)
            == EvaluateKeys(sha, b, org, environmentKey, keys, context)
  {
    if keys != [] {
      EvaluateKeysAgree(sha, a, b, org, environmentKey, keys[..|keys| - 1], context);
      EvaluateKeyAgrees(sha, a, b, org, environmentKey, keys[|keys| - 1], context);
    }
  }

  ghost predicate PlansAgree(a: StorageResult<Plan>, b: StorageResult<Plan>) {
    match (a, b)
    case (Success(p), Success(q)) => PlainPlan(p) == PlainPlan(q)
    case (Failure(e), Failure(f)) => e == f
    case _ => false
  }

  lemma PlainFlagKeeps(f: FlagRecord, g: FlagRecord)
    requires PlainFlag(f) == PlainFlag(g)
    ensures f.org == g.org && f.flagKey == g.flagKey && f.name == g.name && f.description == g.description
    ensures f.valueType == g.valueType && f.archived == g.archived && f.revision == g.revision
  {
    assert PlainFlag(f).org == f.org && PlainFlag(f).flagKey == f.flagKey && PlainFlag(f).name == f.name;
    assert PlainFlag(f).description == f.description && PlainFlag(f).valueType == f.valueType;
    assert PlainFlag(f).archived == f.archived && PlainFlag(f).revision == f.revision;
  }

  lemma PlainEnvironmentKeeps(e: EnvironmentRecord, f: EnvironmentRecord)
    requires PlainEnvironment(e) == PlainEnvironment(f)
    ensures e.org == f.org && e.environmentKey == f.environmentKey && e.name == f.name && e.revision == f.revision
  {
    assert PlainEnvironment(e).org == e.org && PlainEnvironment(e).environmentKey == e.environmentKey;
    assert PlainEnvironment(e).name == e.name && PlainEnvironment(e).revision == e.revision;
  }

  lemma FlagChangeAgrees(a: Store, b: Store, id: FlagId, expected: int)
    requires FlagsAlike(a, b)
    ensures PlansAgree(DecideFlagChange(a, id, expected), DecideFlagChange(b, id, expected))
  {
    if id in a.flags {
      PlainFlagKeeps(a.flags[id], b.flags[id]);
    }
  }

  lemma EnvironmentAgrees(a: Store, b: Store, request: Request)
    requires EnvironmentsAlike(a, b) && request.PutEnvironment?
    ensures PlansAgree(DecideEnvironment(a, request), DecideEnvironment(b, request))
  {
    var id := EnvironmentId(request.org, request.environmentKey);
    if id in a.environments {
      PlainEnvironmentKeeps(a.environments[id], b.environments[id]);
    }
  }

  lemma PublicationAgrees(a: Store, b: Store, request: Request)
    requires FlagsAlike(a, b) && EnvironmentsAlike(a, b) && RulesetsAlike(a, b) && request.PublishRuleset?
    ensures PlansAgree(DecidePublication(a, request), DecidePublication(b, request))
  {
    var f, e := FlagId(request.org, request.flagKey), EnvironmentId(request.org, request.environmentKey);
    LatestAgrees(a, b, request.org, request.flagKey, request.environmentKey);
    if f in a.flags {
      PlainFlagKeeps(a.flags[f], b.flags[f]);
    }
    if e in a.environments {
      PlainEnvironmentKeeps(a.environments[e], b.environments[e]);
    }
  }

  /** The same error wins, or the plans touch the same rows in the same way. */
  lemma DecideAgrees(sha: Sha256, a: Store, b: Store, request: Request)
    requires Alike(a, b)
    ensures PlansAgree(Decide(sha, a, request), Decide(sha, b, request))
  {
    match request
    case CreateFlag(_, _, _, _, _) =>
    case UpdateFlag(org, flagKey, expected, _, _) => FlagChangeAgrees(a, b, FlagId(org, flagKey), expected);
    case ArchiveFlag(org, flagKey, expected) => FlagChangeAgrees(a, b, FlagId(org, flagKey), expected);
    case PutEnvironment(_, _, _, _) => EnvironmentAgrees(a, b, request);
    case PublishRuleset(_, _, _, _, _, _) => PublicationAgrees(a, b, request);
    case Evaluate(org, environmentKey, flagKey, context) =>
      EvaluateKeysAgree(sha, a, b, org, environmentKey, [flagKey], context);
    case EvaluateBatch(org, environmentKey, flagKeys, context) =>
      EvaluateKeysAgree(sha, a, b, org, environmentKey, flagKeys, context);
  }

  lemma ReplayAgrees(a: Store, b: Store, call: Call)
    requires CommandsAlike(a, b)
    ensures Replay(a.commands, call).Some? <==> Replay(b.commands, call).Some?
    ensures Replay(a.commands, call).Some? ==>
              PlainResult(Replay(a.commands, call).value) == PlainResult(Replay(b.commands, call).value)
  {
    var id := IdOf(call);
    if id in a.commands {
      var p, q := a.commands[id].response, b.commands[id].response;
      assert PlainResponse(p).FlagResponse? == p.FlagResponse? && PlainResponse(q).FlagResponse? == q.FlagResponse?;
      assert PlainResponse(p).EnvironmentResponse? == p.EnvironmentResponse?;
      assert PlainResponse(p).PublishResponse? == p.PublishResponse?;
      assert PlainResponse(p).EvaluationResponse? == p.EvaluationResponse?;
      assert PlainResponse(p).BatchResponse? == p.BatchResponse?;
    }
  }

  // ----------------------------------------------------------------- effects agree

  lemma FlagEffectAgrees(call: Call, p: Plan, q: Plan, s: Stamp, t: Stamp)
    requires Fits(call.request, p, s) && Fits(call.request, q, t) && PlainPlan(p) == PlainPlan(q)
    requires call.request.CreateFlag? || call.request.UpdateFlag? || call.request.ArchiveFlag?
    ensures PlainEffect(Enact(call, p, s)) == PlainEffect(Enact(call, q, t))
  {
    if !call.request.CreateFlag? {
      PlainFlagKeeps(p.flag, q.flag);
      assert p.flag.archivedAt.Some? == PlainFlag(p.flag).archivedAt.Some?;
      assert q.flag.archivedAt.Some? == PlainFlag(q.flag).archivedAt.Some?;
    }
  }

  lemma EnvironmentEffectAgrees(call: Call, p: Plan, q: Plan, s: Stamp, t: Stamp)
    requires Fits(call.request, p, s) && Fits(call.request, q, t) && PlainPlan(p) == PlainPlan(q)
    requires call.request.PutEnvironment?
    ensures PlainEffect(Enact(call, p, s)) == PlainEffect(Enact(call, q, t))
  {
    if p.EnvironmentChange? {
      PlainEnvironmentKeeps(p.environment, q.environment);
    }
  }

  lemma PublicationEffectAgrees(call: Call, p: Plan, q: Plan, s: Stamp, t: Stamp)
    requires Fits(call.request, p, s) && Fits(call.request, q, t) && PlainPlan(p) == PlainPlan(q)
    requires call.request.PublishRuleset?
    ensures PlainEffect(Enact(call, p, s)) == PlainEffect(Enact(call, q, t))
  {
    PlainFlagKeeps(p.flag, q.flag);
    PlainEnvironmentKeeps(p.environment, q.environment);
    assert p.flag.archivedAt.Some? == PlainFlag(p.flag).archivedAt.Some?;
    assert q.flag.archivedAt.Some? == PlainFlag(q.flag).archivedAt.Some?;
  }

  lemma EvaluationEffectAgrees(call: Call, evaluated: seq<Evaluated>, s: Stamp, t: Stamp)
    requires Fits(call.request, Evaluations(evaluated), s) && Fits(call.request, Evaluations(evaluated), t)
    requires call.request.Evaluate? || call.request.EvaluateBatch?
    ensures PlainEffect(Enact(call, Evaluations(evaluated), s)) == PlainEffect(Enact(call, Evaluations(evaluated), t))
  {
    var e, f := Enact(call, Evaluations(evaluated), s), Enact(call, Evaluations(evaluated), t);
    assert PlainReceipts(e.receipts) == PlainReceipts(f.receipts);
    if call.request.EvaluateBatch? {
      assert PlainRecords(e.response.evaluations) == PlainRecords(f.response.evaluations);
    }
  }

  lemma EffectAgrees(call: Call, p: Plan, q: Plan, s: Stamp, t: Stamp)
    requires Fits(call.request, p, s) && Fits(call.request, q, t) && PlainPlan(p) == PlainPlan(q)
    ensures PlainEffect(Enact(call, p, s)) == PlainEffect(Enact(call, q, t))
  {
    var r := call.request;
    if r.Evaluate? || r.EvaluateBatch? {
      assert p == q;
      EvaluationEffectAgrees(call, p.evaluated, s, t);
    } else if r.PutEnvironment? {
      EnvironmentEffectAgrees(call, p, q, s, t);
    } else if r.PublishRuleset? {
      PublicationEffectAgrees(call, p, q, s, t);
    } else {
      FlagEffectAgrees(call, p, q, s, t);
    }
  }

  lemma PlainConcat(a: seq<ReceiptRow>, b: seq<ReceiptRow>)
    ensures PlainReceipts(a + b) == PlainReceipts(a) + PlainReceipts(b)
  {
  }

  lemma FlagsCommitAlike(a: Store, b: Store, call: Call, e: Effect, f: Effect)
    requires FlagsAlike(a, b) && PlainEffect(e).flag == PlainEffect(f).flag
    ensures FlagsAlike(Commit(a, call, e), Commit(b, call, f))
  {
    if e.flag.Some? {
      PlainFlagKeeps(e.flag.value, f.flag.value);
    }
  }

  lemma EnvironmentsCommitAlike(a: Store, b: Store, call: Call, e: Effect, f: Effect)
    requires EnvironmentsAlike(a, b) && PlainEffect(e).environment == PlainEffect(f).environment
    ensures EnvironmentsAlike(Commit(a, call, e), Commit(b, call, f))
  {
    if e.environment.Some? {
      PlainEnvironmentKeeps(e.environment.value, f.environment.value);
    }
  }

  lemma RulesetsCommitAlike(a: Store, b: Store, call: Call, e: Effect, f: Effect)
    requires RulesetsAlike(a, b) && PlainEffect(e).ruleset == PlainEffect(f).ruleset
    ensures RulesetsAlike(Commit(a, call, e), Commit(b, call, f))
  {
  }

  lemma CommandsCommitAlike(a: Store, b: Store, call: Call, e: Effect, f: Effect)
    requires CommandsAlike(a, b) && PlainEffect(e).response == PlainEffect(f).response
    ensures CommandsAlike(Commit(a, call, e), Commit(b, call, f))
  {
  }

  lemma CommitAgrees(a: Store, b: Store, call: Call, e: Effect, f: Effect)
    requires Alike(a, b) && PlainEffect(e) == PlainEffect(f)
    ensures Alike(Commit(a, call, e), Commit(b, call, f))
  {
    FlagsCommitAlike(a, b, call, e, f);
    EnvironmentsCommitAlike(a, b, call, e, f);
    RulesetsCommitAlike(a, b, call, e, f);
    CommandsCommitAlike(a, b, call, e, f);
    ReceiptsCommitAlike(a, b, call, e, f);
  }

  lemma ReceiptsCommitAlike(a: Store, b: Store, call: Call, e: Effect, f: Effect)
    requires PlainReceipts(a.receipts) == PlainReceipts(b.receipts)
    requires PlainEffect(e).receipts == PlainEffect(f).receipts
    ensures PlainReceipts(Commit(a, call, e).receipts) == PlainReceipts(Commit(b, call, f).receipts)
  {
    PlainConcat(a.receipts, e.receipts);
    PlainConcat(b.receipts, f.receipts);
  }

  // ------------------------------------------------------------------- the theorems

  /** Clocks, ids and row numbers never decide anything. */
  lemma ApplyAgrees(sha: Sha256, a: Store, b: Store, call: Call, s: Stamp, t: Stamp)
    requires Alike(a, b) && |s.draws| == |EvaluatedKeys(call.request)| == |t.draws|
    ensures Alike(Apply(sha, a, call, s).0, Apply(sha, b, call, t).0)
    ensures PlainResult(Apply(sha, a, call, s).1) == PlainResult(Apply(sha, b, call, t).1)
    ensures Verdict(sha, a, call).None? <==> Verdict(sha, b, call).None?
  {
    ReplayAgrees(a, b, call);
    if Replay(a.commands, call).None? {
      DecideAgrees(sha, a, b, call.request);
      if Decide(sha, a, call.request).Success? {
        CommitsAgree(sha, a, b, call, s, t);
      }
    }
  }

  lemma CommitsAgree(sha: Sha256, a: Store, b: Store, call: Call, s: Stamp, t: Stamp)
    requires Alike(a, b) && |s.draws| == |EvaluatedKeys(call.request)| == |t.draws|
    requires Verdict(sha, a, call).None? && Verdict(sha, b, call).None?
    requires PlansAgree(Decide(sha, a, call.request), Decide(sha, b, call.request))
    ensures Alike(Apply(sha, a, call, s).0, Apply(sha, b, call, t).0)
    ensures PlainResult(Apply(sha, a, call, s).1) == PlainResult(Apply(sha, b, call, t).1)
  {
    var p, q := Decide(sha, a, call.request).value, Decide(sha, b, call.request).value;
    DecideHolds(sha, a, call.request);
    DecideHolds(sha, b, call.request);
    EffectAgrees(call, p, q, s, t);
    CommitAgrees(a, b, call, Enact(call, p, s), Enact(call, q, t));
    assert PlainEffect(Enact(call, p, s)).response == PlainResponse(Enact(call, p, s).response);
    assert PlainEffect(Enact(call, q, t)).response == PlainResponse(Enact(call, q, t).response);
  }

  predicate SameCalls(a: Log, b: Log) {
    |a| == |b| && forall i | 0 <= i < |a| :: a[i].call == b[i].call
  }

  lemma {:induction false} RunsAgree(sha: Sha256, a: Log, b: Log)
    requires Legal(sha, a) && Legal(sha, b) && SameCalls(a, b)
    ensures Alike(Run(sha, a), Run(sha, b))
  {
    if a != [] {
      var n := |a| - 1;
      LegalPrefix(sha, a, n);
      LegalPrefix(sha, b, n);
      RunsAgree(sha, a[..n], b[..n]);
      StepIsAfter(sha, a, n);
      StepIsAfter(sha, b, n);
      ApplyAgrees(sha, Run(sha, a[..n]), Run(sha, b[..n]), a[n].call, a[n].stamp, b[n].stamp);
    }
  }

  /**
    Whatever interleaving, faults and aborts led there: a D1 database and a
    PostgreSQL database that have committed the same commands in the same order
    hold the same rows, and have stored the same responses.
   */
  lemma {:induction false} BackendsAgree(sha: Sha256, d1: seq<D1Machine.Action>, pg: seq<PgMachine.Action>)
    requires SameCalls(D1Machine.Execute(sha, d1).log, PgMachine.Execute(sha, pg).log)
    ensures Alike(D1Tables.Abs(D1Machine.Execute(sha, d1).tables), PgMachine.Execute(sha, pg).tables.store)
  {
    D1Machine.ExecutionInv(sha, d1);
    PgMachine.ExecutionInv(sha, pg);
    RunsAgree(sha, D1Machine.Execute(sha, d1).log, PgMachine.Execute(sha, pg).log);
  }

  /** One command on corresponding stores, answered as a PostgreSQL transaction answers. */
  lemma AnswersAgreeIff(sha: Sha256, a: Store, b: Store, call: Call, s: Stamp, t: Stamp, after: Store,
                        r: StorageResult<Response>)
    requires Alike(a, b) && |s.draws| == |EvaluatedKeys(call.request)|
    requires PgSession.Answers(sha, b, call, t, after, r)
    ensures (PlainResult(r) == PlainResult(Apply(sha, a, call, s).1) && Alike(Apply(sha, a, call, s).0, after))
            <==> !PgFacts.Refused(sha, b, call)
  {
    var u := if |t.draws| == |EvaluatedKeys(call.request)| then t else s;
    ApplyAgrees(sha, a, b, call, s, u);
    if PgFacts.Refused(sha, b, call) {
      RefusedIsNotSequential(sha, b, call, u);
    }
  }

  /** What PostgreSQL refuses, the sequential store does not answer with a backend error. */
  lemma RefusedIsNotSequential(sha: Sha256, store: Store, call: Call, stamp: Stamp)
    requires PgFacts.Refused(sha, store, call) && |stamp.draws| == |EvaluatedKeys(call.request)|
    ensures Apply(sha, store, call, stamp).1 != Failure(Backend)
  {
  }

  /** The results of a D1 operation and a PostgreSQL operation, and their databases, correspond. */
  ghost predicate Corresponding(d: D1Machine.System, op: nat, p: PgMachine.System, op': nat) {
    && op in d.clients && d.clients[op].phase.Done? && op' in p.clients && p.clients[op'].reply.Some?
    && PlainResult(d.clients[op].phase.result) == PlainResult(p.clients[op'].reply.value.result)
    && Alike(D1Tables.Abs(d.tables), p.tables.store)
  }

  /**
    One more command on both backends, after any two runs that have committed
    the same commands: an undisturbed D1 client and a PostgreSQL transaction run
    alone both answer, and they agree if and only if no column of PostgreSQL
    refuses the command.
   */
  lemma {:induction false} BackendsAgreeIff(sha: Sha256, d1: seq<D1Machine.Action>, pg: seq<PgMachine.Action>, op: nat,
                                            op': nat,
                         call: Call, inputs: D1Store.Inputs, replied: bool)
    returns (more: seq<PgMachine.Action>)
    requires SameCalls(D1Machine.Execute(sha, d1).log, PgMachine.Execute(sha, pg).log)
    requires D1Progress.CanStart(D1Machine.Execute(sha, d1), op, call, inputs)
    requires PgProgress.Quiescent(PgMachine.Execute(sha, pg), op', call)
    ensures var d := D1Machine.Execute(sha, d1 + D1Progress.Undisturbed(op, call, inputs, replied));
            var p := PgMachine.Execute(sha, pg + more);
            && op in d.clients && d.clients[op].phase.Done? && op' in p.clients && p.clients[op'].reply.Some?
            && (Corresponding(d, op, p, op') <==> !PgFacts.Refused(sha, PgMachine.Execute(sha, pg).tables.store, call))
  {
    var d, p := D1Machine.Execute(sha, d1), PgMachine.Execute(sha, pg);
    BackendsAgree(sha, d1, pg);
    D1Progress.D1UndisturbedIsServed(sha, d1, op, call, inputs, replied);
    var stamp;
    more, stamp := PgProgress.PgAloneIsServed(sha, pg, op', call);
    var p' := PgMachine.Execute(sha, pg + more);
    AnswersAgreeIff(sha, D1Tables.Abs(d.tables), p.tables.store, call,
                    D1Refinement.StampOf(inputs, d.tables.epoch, d.tables.sequence), stamp,
                    p'.tables.store, p'.clients[op'].reply.value.result);
  }

  // ------------------------------------------------------------ what is refused

  function StoredFlag(): FlagRecord {
    FlagRecord([111], [102], [102], None, String, false, 1, 0, 0, None, 1)
  }

  function StoredEnvironment(): EnvironmentRecord {
    EnvironmentRecord([111], [101], [101], 1, 0, 0)
  }

  /** A flag and an environment, and no rulesets. */
  function TwoRows(): Store {
    EMPTY.(flags := map[FlagId([111], [102]) := StoredFlag()],
           environments := map[EnvironmentId([111], [101]) := StoredEnvironment()])
  }

  /** One variant, whose string value is U+0000. */
  function NulRuleset(): RulesetDefinition {
    RulesetDefinition([VariantRecord([118], ValueRecord(String, None, Some([0]), None, None, None))], [], [], [118])
  }

  function PublishNul(): Call {
    Call(Command([1], [2], [3], [4]), PublishRuleset([111], [102], [101], 1, 1, NulRuleset()))
  }

  function CreateUnknown(): Call {
    Call(Command([1], [2], [3], [4]), CreateFlag([111], [102], [102], None, UnknownType([120])))
  }

  lemma NulRulesetIsAccepted()
    ensures Service.RulesetDefinitionOf(NulRuleset()) == Success(NulRuleset())
    ensures Validate(String, NulRuleset()).None? && PgTransactions.HasNul(NulRuleset())
  {
    var d := NulRuleset();
    assert VariantKeys(d.variants) == [[118]] && d.variants[0].variantKey == [118];
    assert RuleIds(d.targetingRules) == [] && RolloutKeys(d.percentageRollout) == [];
    Rollouts.DistinctIff(VariantKeys(d.variants));
    Rollouts.DistinctIff([]);
    assert [118] in VariantKeys(d.variants) && ValidKey([118], 128);
    assert d.variants[0].value.text.value[0] == 0;
  }

  /** The service admits a ruleset that D1 stores and PostgreSQL refuses. */
  lemma NulRulesetIsRefused(sha: Sha256)
    ensures Service.RulesetDefinitionOf(NulRuleset()).Success?
    ensures StoreInv(TwoRows()) && Verdict(sha, TwoRows(), PublishNul()).None?
    ensures PgFacts.Refused(sha, TwoRows(), PublishNul())
  {
    NulRulesetIsAccepted();
  }

  /** A flag of an unknown type is refused on any store that has not seen the command. */
  lemma UnknownTypeIsRefused(sha: Sha256, store: Store)
    requires IdOf(CreateUnknown()) !in store.commands
    ensures PgFacts.Refused(sha, store, CreateUnknown())
  {
  }

  lemma NumberHasNoNul(text: Text)
    requires ParseI64(text).Some?
    ensures 0 !in text
  {
    assert IsDigit(text[0]) || text[0] == PLUS || text[0] == MINUS;
    forall i | 0 < i < |text| ensures text[i] != 0 {
      assert text[i] == text[1..][i - 1];
    }
  }

  lemma KeyHasNoNul(key: Text, max: nat)
    requires ValidKey(key, max)
    ensures 0 !in key
  {
  }

  /** A value that jsonb refuses. */
  ghost predicate NulValue(value: ValueRecord) {
    (value.text.Some? && 0 in value.text.value)
      || (value.json.Some? && exists i: nat :: JsonText.NulAt(value.json.value, i))
  }

  lemma AcceptedValueHasNul(valueType: ValueType, value: ValueRecord)
    requires ValidValue(valueType, value)
    ensures PgTransactions.ValueHasNul(value) <==> NulValue(value)
  {
    if value.integer.Some? {
      NumberHasNoNul(value.integer.value);
    }
    if value.json.Some? {
      JsonText.EscapesNulIff(value.json.value);
    }
  }

  /** Of the rulesets that are admitted and accepted, exactly those with such a value cannot be stored. */
  lemma UnstorableIff(valueType: ValueType, d: RulesetDefinition)
    requires Service.RulesetDefinitionOf(d).Success? && Validate(valueType, d).None?
    ensures PgTransactions.HasNul(d) <==> exists i :: 0 <= i < |d.variants| && NulValue(d.variants[i].value)
  {
    forall i | 0 <= i < |d.variants|
      ensures 0 !in d.variants[i].variantKey
      ensures PgTransactions.ValueHasNul(d.variants[i].value) <==> NulValue(d.variants[i].value)
    {
      KeyHasNoNul(d.variants[i].variantKey, 128);
      AcceptedValueHasNul(valueType, d.variants[i].value);
    }
    forall i | 0 <= i < |d.targetingRules| ensures !PgTransactions.RuleHasNul(d.targetingRules[i]) {
      RuleHasNoNul(d.targetingRules[i], VariantKeys(d.variants));
    }
    forall i | 0 <= i < |d.percentageRollout| ensures 0 !in d.percentageRollout[i].variantKey {
      KeyHasNoNul(d.percentageRollout[i].variantKey, 128);
    }
    KeyHasNoNul(d.fallthroughVariant, 128);
  }

  lemma RuleHasNoNul(rule: TargetingRule, keys: seq<Text>)
    requires Service.AdmittedRule(rule) && ValidRule(rule, keys)
    ensures !PgTransactions.RuleHasNul(rule)
  {
    KeyHasNoNul(rule.ruleId, 128);
    KeyHasNoNul(rule.attribute, 128);
    KeyHasNoNul(rule.variantKey, 128);
  }
}
