# Feature flags: one store, two protocols

This project models a feature-flag service and proves what its two storage
backends promise. Flags, environments, immutable rulesets, idempotent commands
and evaluation receipts are kept by one abstract store. D1 implements it with an
epoch-fenced optimistic protocol, PostgreSQL with row locks in READ COMMITTED
transactions, and both share validation, evaluation and paging.

Check everything with `dafny verify dfyconfig.toml`.

## Layout

| file | content |
|---|---|
| `Results.dfy`, `Text.dfy` | wrappers; bytes, decimals, admission of keys, derived keys |
| `Domain.dfy`, `JsonText.dfy` | rulesets, validation, `choose_variant`, the bucket; U+0000 in JSON texts |
| `Rules.dfy`, `Acceptance.dfy`, `Buckets.dfy`, `Rollouts.dfy` | what rules, validation and buckets mean, and the laws of rollouts |
| `Service.dfy`, `Paging.dfy` | what the service layer admits; cursor scans of growing tables |
| `SequentialStore.dfy` | the specification: one command at a time on plain tables |
| `Invariants.dfy`, `History.dfy`, `Operations.dfy` | what every reachable store satisfies; laws of whole runs; what each operation promises |
| `D1Tables.dfy`, `D1Store.dfy` | D1 tables with constraints and atomic batches; snapshot, decision, batch |
| `D1Refinement.dfy`, `D1Commit.dfy` | one D1 command refines one sequential command |
| `D1Machine.dfy`, `D1Theorems.dfy`, `D1Progress.dfy` | interleaved clients over an adversarial transport; an undisturbed client is served |
| `D1Listing.dfy` | scans of the D1 tables while clients commit |
| `D1Client.dfy` | the D1 operations in the program's own imperative form |
| `PgTransactions.dfy`, `PgFacts.dfy` | PostgreSQL statements and locks; what a transaction may rely on |
| `PgMachine.dfy`, `PgTheorems.dfy`, `PgProgress.dfy` | interleaved transactions with waits, aborts and lost replies; a lone one is served |
| `PgNumbers.dfy`, `PgListing.dfy`, `PgSkip.dfy` | `bigserial` numbers, and scans while transactions commit |
| `PgSession.dfy` | the PostgreSQL operations in the program's own imperative form |
| `Agreement.dfy` | the two backends agree |

## How it fits together

`SequentialStore.Apply` is the specification. `Decide` says what a command would
do, as a function of the rows alone; a `Stamp` carries clock readings, fresh
receipt ids and row numbers; `Enact` and `Commit` write the stamped rows. A run
is a log of commands, each admissible where it stands, and the laws of
`History.dfy` hold of every such log.

Both machines keep a log next to their tables, and both main theorems say that
the tables are those of the log and that every answer is the sequential one at a
point inside its operation. For D1 the key fact is that the epoch never repeats:
a snapshot with the current epoch still shows the current tables, so a batch
that passes the guard is the decision of this moment. For PostgreSQL it is that
every fact a transaction has read is about a row it has locked, or about a row
that is never removed, so at its commit the facts still add up to the sequential
decision.

Findings of the model, each with an exact condition:

* `validate_ruleset` sums basis points in i64 without a bound on single entries.
  In a release build the sum wraps, and a rollout with two huge entries is
  accepted (`InexactRolloutIsPublished`). Exactness holds if and only if no
  entry exceeds 10 000, the bound of the wire schema (`PublishedRolloutExactIff`).
* For texts that text columns can hold, the backends differ for exactly two kinds
  of command (`BackendsAgreeIff`). A flag of a type outside the five known ones is
  refused by a CHECK in PostgreSQL and accepted by D1 (`UnknownTypeIsRefused`). A
  ruleset with U+0000 in a string or JSON value, which the service admits, is
  refused by `jsonb` and stored by D1 (`NulRulesetIsRefused`, `UnstorableIff`).
* A scan is exact if and only if no row appears behind its cursor while it goes on
  (`ScanIsExactIff`). D1 guarantees that (`D1ScanIsExact`). PostgreSQL does not:
  `bigserial` numbers are committed in any order, and there is a run in which a
  scan skips a flag (`PgScanCanSkip`).

## Model

| member | source | states |
|---|---|---|
| D1Theorems.D1Linearizable | crates/lenso-feature-flag-d1-plugin/src/storage.rs:150-247 | For every sequence of steps of any number of clients, with snapshots, batches, replies and reconciliations lost, late or reported as errors: the tables are those of a sequential run of the committed commands, and every answer other than an indeterminate backend error is the sequential answer at a point between the start and the end of that operation |
| D1Machine.ExecutionInv | crates/lenso-feature-flag-d1-plugin/src/storage.rs:150-247 | The invariant of the protocol holds after every sequence of steps: the log is legal, the tables represent it, the epoch is its length plus one, a snapshot shows the store at the position its epoch names, a batch under way is the decision on its snapshot |
| D1Machine.EpochIdentifiesStore | crates/lenso-feature-flag-d1-plugin/src/storage.rs:158-173 | Equal epochs mean that no batch has committed since the snapshot, so the snapshot still shows the current tables |
| D1Machine.GuardIsTheOnlyReason | crates/lenso-feature-flag-d1-plugin/src/storage.rs:220-236 | In every reachable state a batch under way is applied if and only if no other batch has committed since its snapshot and receipt numbers are left: no key, UNIQUE, CHECK or foreign-key constraint can fail behind the guard |
| D1Theorems.D1RejectsOnlyStaleBatches | crates/lenso-feature-flag-d1-plugin/migrations/001_feature_flags.sql:1-9 | The same over whole runs, in terms of the epoch: the batch passes all constraints exactly when its epoch is the stored one and receipt numbers are left |
| D1Theorems.D1EpochConserved | crates/lenso-feature-flag-d1-plugin/src/storage.rs:231-235 | The epoch is 1 plus the number of stored commands, which is the number of commits |
| D1Theorems.D1CommitsAtMostOnce | crates/lenso-feature-flag-d1-plugin/src/storage.rs:224-246 | At most one batch of one operation, and of one caller, actor, operation and key, ever commits |
| D1Theorems.D1AnswersAreStored | crates/lenso-feature-flag-d1-plugin/src/storage.rs:51-65 | A successful answer is the response stored for the command, and the stored hash is the hash of that request |
| D1Theorems.D1AnswersAgree | crates/lenso-feature-flag-d1-plugin/src/storage.rs:236-246 | All successful answers ever given for one key are equal and belong to requests with one hash |
| D1Theorems.D1RespectsRealTime | crates/lenso-feature-flag-d1-plugin/src/storage.rs:150-247 | An operation that finishes before another begins comes before it in the sequential order |
| D1Progress.D1UndisturbedIsServed | crates/lenso-feature-flag-d1-plugin/src/storage.rs:150-247 | From every reachable state, whatever else is under way, a client whose snapshot and batch get through, and either its reply or its reconciliation, is answered as the sequential store answers, and the tables represent the sequential store after the command |
| D1Theorems.D1NoLostUpdate | crates/lenso-feature-flag-d1-plugin/src/storage.rs:94-102 | Of two committed writes to one flag the later one expects a larger revision, so of all writers that expect one revision at most one commits |
| D1Theorems.D1ArchivalIsFinal | crates/lenso-feature-flag-d1-plugin/src/storage.rs:441-478 | After an archive has committed, no later commit creates, changes, publishes to or evaluates the flag, and it stays archived |
| D1Theorems.D1ReceiptsReproducible | crates/lenso-feature-flag-d1-plugin/src/storage.rs:286-305 | In every reachable state every receipt row has an evaluation it came from, names a stored ruleset that gives its variant and reason again for the original context, and mirrors its record in the stored response of its command |
| D1Refinement.SnapshotShows | crates/lenso-feature-flag-d1-plugin/src/storage.rs:150-211 | The snapshot batch shows the flags, environment, latest rulesets and command of one state, or fails when the epoch has outgrown i64 |
| D1Refinement.DecisionRefines | crates/lenso-feature-flag-d1-plugin/src/storage.rs:248-602 | For all seven writing operations the local decision on a snapshot is the sequential one: the same answer or error, or exactly the statements that write the sequential effect |
| D1Refinement.PublishRulesetRefines | crates/lenso-feature-flag-d1-plugin/src/storage.rs:553-600 | Publishing checks, in this order, flag, archival, flag revision, ruleset, environment, environment revision and overflow, and writes the flag, the environment and the next ruleset, as the sequential store does |
| D1Refinement.ReplayInSnapshot | crates/lenso-feature-flag-d1-plugin/src/storage.rs:51-65 | A stored command is answered from its row, and a different hash is an idempotency conflict |
| D1Commit.CurrentBatchCommits | crates/lenso-feature-flag-d1-plugin/src/storage.rs:220-236 | A batch whose snapshot is current turns tables that represent a store into tables that represent the store after the command, and keeps every schema invariant |
| D1Commit.GuardRejects | crates/lenso-feature-flag-d1-plugin/src/storage.rs:220-223 | A batch from an older epoch is rejected as a whole |
| D1Tables.ExecConcat | crates/lenso-feature-flag-d1-plugin/src/storage.rs:136-146 | A batch is its statements one after the other, and one that fails leaves nothing |
| D1Tables.BatchKeepsSchema | crates/lenso-feature-flag-d1-plugin/migrations/001_feature_flags.sql:1-9 | Whatever batch passes the constraints, row numbers stay distinct, rulesets keep a positive revision, a flag and an environment, receipts keep ascending numbers and both uniqueness constraints, and the epoch stays positive |
| D1Tables.InsertsOverwriteNothing | crates/lenso-feature-flag-d1-plugin/migrations/001_feature_flags.sql:4-9 | No statement changes a stored command, ruleset or receipt, and only UPDATE and upsert change a flag or an environment |
| D1Store.EvaluateByLoop | crates/lenso-feature-flag-d1-plugin/src/storage.rs:270-328 | The loop over the flags computes the records, receipts and statement of the specification, and stops at the first key that fails |
| D1Refinement.EvaluateInView | crates/lenso-feature-flag-d1-plugin/src/storage.rs:273-287 | One turn of the loop on a snapshot that shows the store is the evaluation of that key on the store: the same first error among missing flag, archival, missing environment, missing ruleset and re-validation, or the same variant, value, reason and ruleset revision |
| D1Client.Database.Batch | crates/lenso-feature-flag-d1-plugin/migrations/001_feature_flags.sql:1-10 | The statements are executed in order; a violated constraint rolls all of them back |
| D1Client.Client.Commit | crates/lenso-feature-flag-d1-plugin/src/storage.rs:212-247 | Guard, command, facts and epoch are sent as one batch; an error leads to one read of the command row and never to a second batch |
| D1Client.Client.CreateFlag | crates/lenso-feature-flag-d1-plugin/src/storage.rs:333-378 | The operation leaves the tables as they were or with the sequential command applied once; its result is the sequential answer or an indeterminate error, and is the sequential answer if either the reply or the reconciliation gets through |
| D1Client.Client.UpdateFlag | crates/lenso-feature-flag-d1-plugin/src/storage.rs:401-440 | The same guarantee for an update of a cloned record |
| D1Client.Client.ArchiveFlag | crates/lenso-feature-flag-d1-plugin/src/storage.rs:441-478 | The same guarantee for an archive of a cloned record |
| D1Client.Client.PutEnvironment | crates/lenso-feature-flag-d1-plugin/src/storage.rs:479-530 | The same guarantee for the four cases of existing and expected |
| D1Client.Client.PublishRuleset | crates/lenso-feature-flag-d1-plugin/src/storage.rs:531-602 | The same guarantee for three writes in one batch |
| D1Client.Client.Evaluations | crates/lenso-feature-flag-d1-plugin/src/storage.rs:249-329 | The same guarantee for one evaluation and for a batch |
| D1Client.SubmissionServes | crates/lenso-feature-flag-d1-plugin/src/storage.rs:212-247 | Whatever is lost on the way of a batch made from a current snapshot, the command is applied at most once and the reconciliation returns its stored answer |
| Invariants.InvariantKept | crates/lenso-feature-flag-d1-plugin/migrations/001_feature_flags.sql:4-9 | Every command keeps keys, foreign keys, uniqueness, the validity of stored rulesets, numbering without gaps and the link from receipts to commands; and only grows the store |
| Invariants.EvaluationIsWellTyped | crates/lenso-feature-flag-d1-plugin/src/storage.rs:281-287 | On an invariant store an evaluation never reports TypeMismatch, InvalidRuleset or a backend error, and a value it returns has exactly one payload, of the type of the flag |
| Invariants.BatchIsPointwise | crates/lenso-feature-flag-d1-plugin/src/storage.rs:270-306 | A batch succeeds exactly when every key would alone, with the same outcomes in order, and otherwise reports the first failing key |
| Invariants.NoGaps | crates/lenso-feature-flag-d1-plugin/src/storage.rs:571-574 | The ruleset revisions of a flag and environment are exactly 1 to the latest |
| Invariants.ReceiptsDistinct | crates/lenso-feature-flag-d1-plugin/migrations/001_feature_flags.sql:9 | Fresh ids and an unused command key are enough for both uniqueness constraints of receipts |
| History.Grows | crates/lenso-feature-flag-d1-plugin/migrations/001_feature_flags.sql:4-9 | Between any two positions of a run rulesets, responses and receipts are unchanged, flags keep type and row number, and archived flags are unchanged |
| History.AtMostOnce | crates/lenso-feature-flag-d1-plugin/src/storage.rs:224-229 | One commit per caller, actor, operation and key in every legal run |
| History.ReplaysAgree | crates/lenso-feature-flag-d1-plugin/src/storage.rs:51-65 | From its commit on, a repeated command gets the first answer, and another request under its key gets an idempotency conflict |
| History.FlagRevisionsConserved | crates/lenso-feature-flag-d1-plugin/src/storage.rs:88-102 | The revision of a flag is 1 plus its committed updates, archives and publications |
| History.EnvironmentRevisionsConserved | crates/lenso-feature-flag-d1-plugin/src/storage.rs:509-518 | The revision of an environment is 1 plus its committed renames and publications |
| History.RulesetsConserved | crates/lenso-feature-flag-d1-plugin/src/storage.rs:571-600 | The ruleset revisions of a flag and environment are exactly 1 to n after n publications |
| History.CommandsConserved | crates/lenso-feature-flag-d1-plugin/src/storage.rs:224-229 | There is one command row per committed command |
| History.NoLostUpdate | crates/lenso-feature-flag-postgres-plugin/src/storage.rs:392-422 | Commit order of writes to one flag is the order of the revisions they expect |
| History.ArchivalIsFinal | crates/lenso-feature-flag-postgres-plugin/src/storage.rs:98-119 | After an archive nothing concerns the flag any more and its record is unchanged |
| History.ReceiptsReproducible | crates/lenso-feature-flag-d1-plugin/src/storage.rs:286-305 | A receipt stays reproducible, and equal to its record in the stored response, for ever |
| History.ReceiptsHaveOrigins | crates/lenso-feature-flag-d1-plugin/src/storage.rs:298-305 | Every receipt row is evaluation k of some committed command |
| History.OriginsInOrder | crates/lenso-feature-flag-d1-plugin/src/storage.rs:302-305 | Receipt rows are in the order of commits and, within a command, in the order of its records |
| History.EvaluationsAreCurrent | crates/lenso-feature-flag-postgres-plugin/src/storage.rs:253-290 | Before and after its own commit, every record of an evaluation names the latest ruleset revision of a flag that is not archived |
| History.ReceiptsAreNamed | crates/lenso-feature-flag-d1-plugin/src/storage.rs:298-305 | The stored receipt of entry k of a batch is named by the key of its command, a colon and the digits of k without leading zeros; that of a single evaluation by the key itself |
| History.SameIdSameOperation | crates/lenso-feature-flag-d1-plugin/src/storage.rs:224-229 | Two calls are the same command if and only if caller, actor, key and operation agree |
| History.StoredResponsesFit | crates/lenso-feature-flag-d1-plugin/src/storage.rs:51-65 | The response stored for a command is of the kind of its operation |
| History.NeverInProgress | crates/lenso-feature-flag-postgres-plugin/src/storage.rs:505-520 | The sequential store has no OperationInProgress |
| PgTheorems.PgLinearizable | crates/lenso-feature-flag-postgres-plugin/src/storage.rs:15-290 | For every interleaving of statements, waits, aborts, commits and lost replies: the committed rows are those of a sequential run in commit order, no row without a response is ever committed, although command rows are inserted without one, and every answer other than a backend error or OperationInProgress is the sequential answer at a point within the operation |
| PgTheorems.PgInProgressMeansTwin | crates/lenso-feature-flag-postgres-plugin/src/storage.rs:494-521 | OperationInProgress is returned only when another transaction has committed the same command between the lookup and the insert |
| PgTheorems.PgStopsOnlyWithReason | crates/lenso-feature-flag-postgres-plugin/migrations/001_create_feature_flags.sql:1-77 | In every reachable state a statement ends its transaction only with the sequential answer on the rows of that moment, or because a twin has committed, or because a column refuses a command that the sequential store would carry out: an unknown value type, or U+0000 in a published ruleset. No other constraint is ever violated |
| PgTheorems.PgEvaluationsAreCurrent | crates/lenso-feature-flag-postgres-plugin/src/storage.rs:307-354 | When an evaluation is about to commit, all of its records still name the latest ruleset revision and no flag in it is archived |
| PgTheorems.PgAnswersAreStored | crates/lenso-feature-flag-postgres-plugin/src/storage.rs:494-533 | A successful answer is the stored response, for the stored hash |
| PgTheorems.PgAbortFreesKey | crates/lenso-feature-flag-postgres-plugin/src/storage.rs:514-520 | An admitted transaction makes its twin wait for the key; when it is aborted no row is left and the twin is admitted |
| PgProgress.PgAloneIsServed | crates/lenso-feature-flag-postgres-plugin/src/storage.rs:15-290 | From every reachable state in which nothing is running, a new operation can be run to a reply; it is the sequential answer, or a backend error where only PostgreSQL refuses, and the sequential rows are left |
| PgTheorems.PgNoLostUpdate | crates/lenso-feature-flag-postgres-plugin/src/storage.rs:73-96 | Of two committed writes to one flag the later one expects a larger revision |
| PgTheorems.PgArchivalIsFinal | crates/lenso-feature-flag-postgres-plugin/src/storage.rs:98-119 | After a committed archive no commit concerns the flag, and it stays archived |
| PgTheorems.PgRespectsRealTime | crates/lenso-feature-flag-postgres-plugin/src/storage.rs:15-290 | An operation that finishes before another begins comes before it in commit order |
| PgMachine.ExecutionInv | crates/lenso-feature-flag-postgres-plugin/src/storage.rs:15-533 | The invariant of the locking protocol holds after every sequence of steps: locks of running transactions are compatible, and each transaction knows what its phase needs about rows it has locked |
| PgMachine.CommitExtendsLog | crates/lenso-feature-flag-postgres-plugin/src/storage.rs:485-492 | A commit is the next sequential command on the rows committed at that moment |
| PgFacts.StatementKeeps | crates/lenso-feature-flag-postgres-plugin/src/storage.rs:15-383 | Each statement establishes what the next one relies on |
| PgFacts.StatementsObeySchema | crates/lenso-feature-flag-postgres-plugin/migrations/001_create_feature_flags.sql:1-77 | A statement that goes on has inserted nothing that the schema forbids beside the committed rows: no taken key, unknown type, dangling reference, U+0000 in jsonb, or repeated receipt |
| PgFacts.StatementStops | crates/lenso-feature-flag-postgres-plugin/src/storage.rs:307-422 | A statement that ends its transaction with an error gives the sequential error, with the same precedence |
| PgFacts.FactsStay | crates/lenso-feature-flag-postgres-plugin/src/storage.rs:311-350 | Because of the shared flag lock, the exclusive locks and the inserted command row, what a transaction knows survives the commits of all others |
| PgFacts.CommitApplies | crates/lenso-feature-flag-postgres-plugin/src/storage.rs:523-533 | The uncommitted rows at COMMIT are the effect of the sequential decision on the rows committed then |
| PgFacts.ReceiptsNeverCollide | crates/lenso-feature-flag-postgres-plugin/migrations/001_create_feature_flags.sql:45-62 | Neither uniqueness constraint of receipts can fail for a fresh id |
| PgFacts.DecisionStays | crates/lenso-feature-flag-postgres-plugin/src/storage.rs:392-412 | What a decision has read is locked, so the decision stands until commit |
| PgSession.Transaction.AdmitCommand | crates/lenso-feature-flag-postgres-plugin/src/storage.rs:494-521 | A stored response is returned for the same hash, a different hash is a conflict, and otherwise the command row is inserted |
| PgSession.Transaction.Commit | crates/lenso-feature-flag-postgres-plugin/src/storage.rs:485-492 | The committed rows and the response are those of the sequential command |
| PgSession.PostgresStore.CreateFlag | crates/lenso-feature-flag-postgres-plugin/src/storage.rs:15-42 | Run alone, exactly the sequential answer and rows, except that an unknown value type is a backend error |
| PgSession.PostgresStore.UpdateFlag | crates/lenso-feature-flag-postgres-plugin/src/storage.rs:73-96 | Run alone, exactly the sequential answer and rows |
| PgSession.PostgresStore.ArchiveFlag | crates/lenso-feature-flag-postgres-plugin/src/storage.rs:98-119 | Run alone, exactly the sequential answer and rows |
| PgSession.PostgresStore.PutEnvironment | crates/lenso-feature-flag-postgres-plugin/src/storage.rs:121-161 | Run alone, exactly the sequential answer and rows |
| PgSession.PostgresStore.PublishRuleset | crates/lenso-feature-flag-postgres-plugin/src/storage.rs:164-216 | Run alone, exactly the sequential answer and rows, over seven statements, except that a ruleset with U+0000 that passes all checks is a backend error |
| PgSession.PostgresStore.EvaluateOne | crates/lenso-feature-flag-postgres-plugin/src/storage.rs:307-383 | One key: share the flag, see the environment, choose from the latest ruleset, insert the receipt; a failure is the sequential answer of the whole operation |
| PgSession.PostgresStore.Evaluate | crates/lenso-feature-flag-postgres-plugin/src/storage.rs:219-250 | Run alone, exactly the sequential answer and rows |
| PgSession.PostgresStore.EvaluateBatch | crates/lenso-feature-flag-postgres-plugin/src/storage.rs:253-290 | The loop over the keys, run alone, gives exactly the sequential answer and rows |
| Agreement.BackendsAgree | crates/lenso-feature-flag-core/src/store.rs:8-92 | Whatever happened on the way, a D1 and a PostgreSQL database that have committed the same commands in the same order hold the same rows, responses and receipts apart from times, receipt ids and row numbers |
| Agreement.BackendsAgreeIff | crates/lenso-feature-flag-core/src/store.rs:8-92 | After any D1 run and any PostgreSQL run that have committed the same commands, with nothing running in PostgreSQL: one more command, by an undisturbed D1 client and by a transaction run alone, is answered by both, and answers and rows correspond if and only if it is not one that only PostgreSQL refuses: a first attempt to create a flag of an unknown type, or to publish a ruleset with U+0000 that passes all checks |
| Agreement.NulRulesetIsRefused | crates/lenso-feature-flag-core/src/lib.rs:796-806 | The service admits, and validation accepts, a string value of U+0000; the sequential store publishes it and PostgreSQL refuses it |
| Agreement.UnknownTypeIsRefused | crates/lenso-feature-flag-postgres-plugin/migrations/001_create_feature_flags.sql:14 | A flag of an unknown type is refused by PostgreSQL on every store that has not seen the command |
| Agreement.UnstorableIff | crates/lenso-feature-flag-core/src/lib.rs:729-806 | Of the rulesets that the service admits and validation accepts, exactly those with U+0000 in a string value or escaped in a JSON value cannot be stored as jsonb |
| Agreement.ApplyAgrees | crates/lenso-feature-flag-core/src/store.rs:8-92 | Times, receipt ids and row numbers never decide anything: corresponding stores give corresponding answers, with the same error winning |
| Operations.RepeatMeans | crates/lenso-feature-flag-d1-plugin/src/storage.rs:51-65 | A command seen before changes nothing and gets its stored response, or a conflict for another hash |
| Operations.CreateFlagMeans | crates/lenso-feature-flag-d1-plugin/src/storage.rs:333-378 | AlreadyExists for a key that is taken; otherwise exactly that flag is added, live, with revision 1 and the fields of the request |
| Operations.UpdateFlagMeans | crates/lenso-feature-flag-d1-plugin/src/storage.rs:401-440 | Missing flag, archival and revision are refused in this order; otherwise only name, description, revision and time of this one flag change, and an exhausted revision is a backend error |
| Operations.ArchiveFlagMeans | crates/lenso-feature-flag-postgres-plugin/src/storage.rs:98-119 | The same refusals; otherwise the flag becomes archived with a time, and nothing else but its revision and time of update changes |
| Operations.PutEnvironmentMeans | crates/lenso-feature-flag-postgres-plugin/src/storage.rs:121-161 | The three refusals of existing and expected, and what a creation adds |
| Operations.RenameEnvironmentMeans | crates/lenso-feature-flag-d1-plugin/src/storage.rs:479-530 | A rename changes only name, revision and time of that environment |
| Operations.PublishRulesetRefusals | crates/lenso-feature-flag-d1-plugin/src/storage.rs:553-580 | For every error, a publication is refused with it if and only if it is the first reason in the order flag, archival, flag revision, ruleset, environment, environment revision, overflow |
| Operations.PublishRulesetMeans | crates/lenso-feature-flag-d1-plugin/src/storage.rs:571-600 | A publication adds one ruleset under the next revision, moves the revisions of flag and environment on by one, and leaves everything else |
| Operations.PublicationIs | crates/lenso-feature-flag-postgres-plugin/src/storage.rs:196-216 | The response names the three new revisions and the actor |
| Operations.EvaluationRefusedIff | crates/lenso-feature-flag-postgres-plugin/src/storage.rs:307-350 | For every error, a key is refused with it if and only if it is the first of missing flag, archival, missing environment and no published ruleset |
| Operations.EvaluateMeans | crates/lenso-feature-flag-postgres-plugin/src/storage.rs:253-290 | An evaluation adds one receipt per key, in order, and nothing else; record and receipt name the key, the highest published revision, and the variant, value and reason that it selects, with the context hash, organization, caller and actor |
| Rules.RuleAppliesIff | crates/lenso-feature-flag-core/src/domain.rs:273-288 | A rule with a value applies if and only if its attribute is present and the text of the attribute is, is not, contains (text = before + value + after) or is one of the values |
| Acceptance.ValidateIff | crates/lenso-feature-flag-core/src/domain.rs:147-210 | A ruleset is accepted if and only if it has variants, no key, rule id or rollout key twice, every reference named, one payload of the type within its bound in every variant, the right number of values in every rule, positive shares, and a true sum that as i64 is at most 10 000; TypeMismatch is reported if and only if keys and fallthrough are right and some value is not of the type, and InvalidRuleset for all else |
| Acceptance.TotalFitsWithinBounds | crates/lenso-feature-flag-core/src/domain.rs:191-199 | Within the wire bounds that sum is fine if and only if the shares add up to at most 10 000 |
| Buckets.BucketIs | crates/lenso-feature-flag-core/src/domain.rs:290-307 | The bucket is the number in the first eight bytes of the digest of organization, environment, flag and subject, each followed by a zero byte, modulo 10 000 |
| Buckets.BigEndianIsPositional | crates/lenso-feature-flag-core/src/domain.rs:302-307 | The first byte is the most significant one |
| Buckets.BucketsAreIndependent | crates/lenso-feature-flag-core/src/domain.rs:290-307 | For two different admitted subjects and any two buckets there is a hash that gives them these buckets |
| Buckets.SameBucketMeansSameSubject | crates/lenso-feature-flag-core/src/domain.rs:290-307 | Two admitted subjects share their bucket under every hash if and only if all four parts agree |
| Domain.ChooseVariantByLoops | crates/lenso-feature-flag-core/src/domain.rs:234-260 | The two loops with their running bound compute the recursive definition |
| Domain.DeterministicBucket | crates/lenso-feature-flag-core/src/domain.rs:290-307 | Feeding the hasher part by part computes `Bucket`, which `Buckets.BucketIs` gives byte by byte |
| Rollouts.ChooseIffIntended | crates/lenso-feature-flag-core/src/domain.rs:234-288 | On every accepted ruleset, whatever its shares add up to, and for every bucket the loops return a selection if and only if it is the intended one: the variant of the first rule whose attribute is present with a text that is, is not, contains or is one of the comparison values, otherwise of the interval that contains the bucket, otherwise the fallthrough |
| Rollouts.ChooseVariantIffIntended | crates/lenso-feature-flag-core/src/domain.rs:234-307 | The same for the bucket that the subject hashes to |
| Rollouts.AcceptedNeverFails | crates/lenso-feature-flag-core/src/domain.rs:262-271 | On an accepted ruleset the choice never fails and returns one of its variants with a value of the type of the flag |
| Rollouts.VariantUnique | crates/lenso-feature-flag-core/src/domain.rs:151-163 | In an accepted ruleset every key that a rule, a rollout entry or the fallthrough refers to names exactly one variant, and the lookup returns it |
| Rollouts.DistinctIff | crates/lenso-feature-flag-core/src/domain.rs:151-163 | Comparing the size of a set with the number of entries detects exactly the duplicates |
| Rollouts.PickIff | crates/lenso-feature-flag-core/src/domain.rs:250-259 | For positive i64 shares of any total, an entry is chosen if and only if the bucket lies in its interval of cumulative shares, and none if and only if the bucket is above all of them; the running bound never wraps before that |
| Rollouts.RolloutExactIff | crates/lenso-feature-flag-core/src/domain.rs:186-204 | An accepted rollout of at most 32 entries gives every entry exactly its share of the 10 000 buckets, and the rest to fallthrough, if and only if no entry exceeds 10 000 |
| Rollouts.WrappedTotalIsAccepted | crates/lenso-feature-flag-core/src/domain.rs:191-199 | Two entries of the largest i64 make the total wrap: the rollout is accepted and not exact |
| Rollouts.TotalDoesNotWrap | crates/lenso-feature-flag-core/src/domain.rs:191-199 | Within the wire bounds the i64 total is the true total |
| Rollouts.GrowthIsStable | crates/lenso-feature-flag-core/src/domain.rs:250-259 | Raising the last share or appending entries changes the outcome only of buckets that fell through |
| Service.PublishedRolloutExactIff | crates/lenso-feature-flag-core/src/lib.rs:729-794 | With the limits of the service, a published rollout is exact if and only if no entry exceeds 10 000 basis points |
| Service.InexactRolloutIsPublished | crates/lenso-feature-flag-core/src/lib.rs:774-787 | The wrapping rollout passes all checks of the service and the store |
| Service.ShownRevisionIsAccepted | crates/lenso-feature-flag-core/src/lib.rs:871-879 | The revision shown for a flag is accepted back as its expected revision |
| Service.AdmittedBucketsAreDistinct | crates/lenso-feature-flag-core/src/lib.rs:320-332 | Evaluations admitted in batches share their `Bucket` under every hash only for the same organization, environment, flag and subject, and no two of one batch do |
| Text.RevisionRoundTrip | crates/lenso-feature-flag-core/src/lib.rs:877-885 | A number written in decimal reads back as itself exactly if it is a positive i64 |
| Text.EvaluationIdInjective | crates/lenso-feature-flag-d1-plugin/src/storage.rs:298-302 | The id of an entry of a batch determines key and index, although keys may contain colons and digits |
| Text.PreimageInjective | crates/lenso-feature-flag-core/src/domain.rs:296-300 | Zero-terminated parts without zero bytes are determined by their preimage |
| Text.BucketKeyInjective | crates/lenso-feature-flag-core/src/lib.rs:899-911 | The admission checks on keys and ids make the bucket preimage unambiguous |
| Text.ParseI64Iff | crates/lenso-feature-flag-core/src/domain.rs:221-225 | Exactly the numerals of i64 values are parsed, with an optional sign, and to their values |
| Text.ParseCursorIff | crates/lenso-feature-flag-core/src/lib.rs:877-885 | A revision or cursor is accepted if and only if it is a numeral of a positive i64 |
| Text.DigitsAreDecimal | crates/lenso-feature-flag-core/src/lib.rs:877-879 | The value of a numeral is positional, the first digit being the most significant |
| Text.ValidOpaqueIdIff | crates/lenso-feature-flag-core/src/lib.rs:907-912 | Exactly the texts of 1 to 512 bytes without a C0 control, DEL or an encoded C1 control are opaque ids |
| Text.ValidMutationIff | crates/lenso-feature-flag-core/src/lib.rs:871-875 | A mutation is admitted with revision n if and only if key and resource are keys and the text is a numeral of n, a positive i64 |
| Service.RulesetDefinitionIff | crates/lenso-feature-flag-core/src/lib.rs:729-794 | A definition is admitted, and copied unchanged, if and only if its sizes, keys and comparison values are within the limits of the service |
| JsonText.EscapesNulIff | crates/lenso-feature-flag-postgres-plugin/migrations/001_create_feature_flags.sql:32-44 | A JSON text escapes U+0000 if and only if the six characters of that escape stand somewhere behind an even number of backslashes |
| Paging.ServeIff | crates/lenso-feature-flag-core/src/lib.rs:450-468 | A page is served if and only if the limit is 1 to 200 and the cursor, if there is one, is a numeral of a positive i64 |
| Paging.PageIs | crates/lenso-feature-flag-core/src/lib.rs:450-468 | That page holds the first rows above the cursor, at most limit of them, and has a cursor, the numeral of its last row, if and only if rows are left |
| D1Listing.D1LiveFlagScan | crates/lenso-feature-flag-d1-plugin/src/storage.rs:392-400 | A complete scan of live flags is strictly increasing, returns every flag of the organization that is there at its start and live at its end, and only rows that were live flags of the organization when a page was served |
| PgListing.PgLiveFlagScan | crates/lenso-feature-flag-postgres-plugin/src/storage.rs:59-71 | The same for PostgreSQL |
| Paging.ListPage | crates/lenso-feature-flag-core/src/lib.rs:687-706 | Asking for one row more and dropping it serves the records of the first rows after the cursor, and the number of the last one as a cursor exactly if more rows follow |
| Paging.ScanIsExactIff | crates/lenso-feature-flag-core/src/lib.rs:687-706 | On a table that only gains rows, a scan that follows its cursors returns exactly the rows present when its last page is served, if and only if no row appears behind the cursor while it goes on |
| Paging.ScanIsExact | crates/lenso-feature-flag-core/src/lib.rs:687-706 | On a table whose new rows come above all others the scan is exact |
| Paging.FollowIncreasing | crates/lenso-feature-flag-core/src/lib.rs:450-468 | A scan is strictly increasing, so it returns no row twice |
| Paging.FollowKeepsPresentRows | crates/lenso-feature-flag-core/src/lib.rs:450-468 | A row that matches whenever a page is served is returned, whatever rows come and go |
| Paging.ScanTerminates | crates/lenso-feature-flag-core/src/lib.rs:687-706 | Once appends stop, a scan ends after at most one page per remaining row and one more |
| PgListing.PgScanIsExactIff | crates/lenso-feature-flag-postgres-plugin/src/storage.rs:292-305 | In every PostgreSQL run a complete scan of the receipts, or of the flags with archived ones, is strictly increasing and returns every matching row that is committed when it starts, while transactions commit between pages; it returns exactly the stored rows of that organization, flag and environment present at its end if and only if none is committed behind its cursor |
| PgSkip.PgScanCanSkip | crates/lenso-feature-flag-postgres-plugin/src/storage.rs:59-71 | There is a run in which a scan is not exact: three transactions create flags with the numbers 1, 2 and 3, the first commits last, and the scan ends without it although it is stored then |
| PgNumbers.PgRowNumbersAreUnique | crates/lenso-feature-flag-postgres-plugin/migrations/001_create_feature_flags.sql:12-59 | In every PostgreSQL run committed flags, and committed receipts, have distinct positive i64 row numbers |
| D1Listing.D1ScanIsExact | crates/lenso-feature-flag-d1-plugin/src/storage.rs:649-676 | In every D1 run a complete scan of the receipts, or of the flags with archived ones, is strictly increasing and returns exactly the row numbers of the stored rows of that organization, and of that flag and environment where they are given, that are present at its end, while clients commit between pages |
| D1Theorems.D1RunGrowsUpward | crates/lenso-feature-flag-d1-plugin/src/storage.rs:357-368 | Rows committed later have larger row numbers, for receipts and for flags |

## Left out

- Authorization, caller lists, membership and the host life cycle: a command starts already authorized.
- SHA-256, UUIDs, clocks and RFC 3339 text: an arbitrary function, fresh ids and arbitrary times.
- Agreement.BackendsAgreeIff: text columns of PostgreSQL refuse U+0000 too; the service admits it in no organization, key, name, description, rule or comparison value (`crates/lenso-feature-flag-core/src/lib.rs:899-920`), so only values of rulesets are modelled with it.
- History.ReceiptsReproducible: a PostgreSQL receipt column keeps microseconds of the evaluation time, the stored response the full reading; the times are equal in D1 only.
- JSON: an exact encoding is assumed, but for U+0000 in `jsonb`; attributes carry their rendered text, JSON values their encoded text, and doubles are finite reals or not finite.
- SQL text: every SELECT of a snapshot is modelled as a direct read of the same tables, and stored decimal revisions as integers.
- D1 limits of 128 statements and 100 parameters per batch: every batch of these operations has at most seven statements.
- SQLite arithmetic beyond i64: an epoch above the largest i64 is only known to be unreadable.
- PostgreSQL deadlock detection, fairness and liveness under contention: a statement that can never run is a transaction that stays open until it is aborted.
- PostgreSQL statements that only read back a row of their own transaction are merged with the statement that stores the response.
- Lock on a stored command row by its lookup: the row never changes again, so the lock only delays.
- The order in which `bigserial` sequences hand out numbers: the model only says that none is handed out twice.
- `get_flag`, configuration, agent tools, transport, generated wire types and error mapping: forwarding.
- Validity checks of the optional filters of `list_evaluation_receipts`: simple bounds on keys.
- Debug builds, where the overflow of the total of basis points panics: arithmetic wraps as in a release build.
- D1Client.Client.Commit: one client at a time on its database; interleaving is the subject of D1Machine.
- PgSession.PostgresStore.EvaluateBatch: one transaction at a time on its database; interleaving is the subject of PgMachine.
- PgTheorems.PgLinearizable: says nothing about a backend error, which may hide a commit whose reply was lost.
- D1Theorems.D1Linearizable: says nothing about a backend error, which the source documents as possibly committed.
