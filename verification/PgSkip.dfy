/**
  A run in which a scan skips a committed flag: three transactions draw the
  numbers 1, 2 and 3, the first commits last, and the scan is past its number
  by then.
 */
module PgSkip {
  import opened Results
  import opened Text
  import opened Domain
  import opened SequentialStore
  import opened PgTransactions
  import opened PgMachine
  import opened PgProgress
  import opened PgListing
  import opened Paging

  /** The client creates a boolean flag that is named by one byte. */
  function Creation(name: byte): Call {
    Call(Command([1], [2], [name], [3]), CreateFlag([111], [name], [name], None, Boolean))
  }

  function Created(name: byte, n: int): FlagRecord {
    FlagRecord([111], [name], [name], None, Boolean, false, 1, 0, 0, None, n)
  }

  function Numbered(n: int): Tick {
    Tick(0, 0, n, [])
  }

  /** All of the operation but its COMMIT. */
  function Preparation(op: nat, name: byte, n: int): seq<Action> {
    var step := RunStatement(op, Numbered(n));
    [Begin(op, Creation(name)), step, step, step, step]
  }

  function LocksOf(name: byte): set<Lock> {
    {CommandLock(IdOf(Creation(name))), FlagLock(FlagId([111], [name]))}
  }

  /** Nobody has stored or locked the flag and the command, and the number is free. */
  ghost predicate Free(s: System, op: nat, name: byte, n: int) {
    && s.tables.unanswered == map[]
    && IdOf(Creation(name)) !in s.tables.store.commands && FlagId([111], [name]) !in s.tables.store.flags
    && (forall other | Running(s, other) && other != op ::
          LocksOf(name) !! s.clients[other].tx.exclusive && LocksOf(name) !! s.clients[other].tx.shared)
    && FreshNumber(s.flagNumbers, n)
  }

  /** Nothing but this operation has moved. */
  ghost predicate Beside(s: System, op: nat, s': System) {
    && s'.tables == s.tables && s'.log == s.log
    && s'.clients.Keys == s.clients.Keys + {op}
    && forall other | other in s.clients && other != op :: s'.clients[other] == s.clients[other]
  }

  ghost predicate At(s: System, op: nat, tx: Tx) {
    op in s.clients && s.clients[op].reply.None? && s.clients[op].tx == tx
  }

  function Looked(name: byte, position: nat): Tx {
    Opened(Creation(name)).(phase := Admit, looked := position)
  }

  function Admitted(name: byte, position: nat): Tx {
    Looked(name, position).(phase := First, command := Some(CommandState([3], None)),
                            exclusive := {CommandLock(IdOf(Creation(name)))})
  }

  function Inserted(name: byte, n: int, position: nat): Tx {
    Admitted(name, position).(phase := Written, flag := Some(Created(name, n)), exclusive := LocksOf(name),
                              stamp := UNSTAMPED.(rowSeq := n))
  }

  function Finished(name: byte, n: int, position: nat): Tx {
    var response := FlagResponse(Created(name, n));
    Inserted(name, n, position).(phase := Answered(response), command := Some(CommandState([3], Some(response))))
  }

  lemma LooksUp(sha: Sha256, s: System, op: nat, name: byte, n: int)
    requires Free(s, op, name, n) && At(s, op, Opened(Creation(name)))
    ensures var s' := Perform(sha, s, RunStatement(op, Numbered(n)));
            At(s', op, Looked(name, |s.log|)) && Beside(s, op, s') && s'.flagNumbers == s.flagNumbers
  {
    assert Unblocked(s, op);
  }

  lemma Admits(sha: Sha256, s: System, op: nat, name: byte, n: int, position: nat)
    requires Free(s, op, name, n) && At(s, op, Looked(name, position))
    ensures var s' := Perform(sha, s, RunStatement(op, Numbered(n)));
            At(s', op, Admitted(name, position)) && Beside(s, op, s') && s'.flagNumbers == s.flagNumbers
  {
    assert Unblocked(s, op);
  }

  lemma Inserts(sha: Sha256, s: System, op: nat, name: byte, n: int, position: nat)
    requires Free(s, op, name, n) && At(s, op, Admitted(name, position))
    ensures var s' := Perform(sha, s, RunStatement(op, Numbered(n)));
            && At(s', op, Inserted(name, n, position)) && Beside(s, op, s')
            && s'.flagNumbers == s.flagNumbers[n := FlagId([111], [name])]
  {
    assert Unblocked(s, op);
  }

  lemma Finishes(sha: Sha256, s: System, op: nat, name: byte, n: int, position: nat)
    requires At(s, op, Inserted(name, n, position))
    ensures var s' := Perform(sha, s, RunStatement(op, Numbered(n)));
            At(s', op, Finished(name, n, position)) && Beside(s, op, s') && s'.flagNumbers == s.flagNumbers
  {
    assert Unblocked(s, op);
  }

  lemma Commits(sha: Sha256, s: System, op: nat, name: byte, n: int, position: nat)
    requires At(s, op, Finished(name, n, position))
    ensures var s' := Perform(sha, s, CommitTransaction(op, true));
            && s'.tables.store.flags == s.tables.store.flags[FlagId([111], [name]) := Created(name, n)]
            && s'.tables.store.commands.Keys == s.tables.store.commands.Keys + {IdOf(Creation(name))}
            && s'.tables.unanswered == s.tables.unanswered && s'.flagNumbers == s.flagNumbers
            && s'.clients.Keys == s.clients.Keys && !Running(s', op)
            && forall other | other in s.clients && other != op :: s'.clients[other] == s.clients[other]
  {
  }

  lemma BesideTransitive(a: System, op: nat, b: System, c: System)
    requires Beside(a, op, b) && Beside(b, op, c)
    ensures Beside(a, op, c)
  {
  }

  lemma StillFree(s: System, op: nat, name: byte, n: int, s': System)
    requires Free(s, op, name, n) && Beside(s, op, s') && s'.flagNumbers == s.flagNumbers
    ensures Free(s', op, name, n)
  {
    forall other | Running(s', other) && other != op
      ensures LocksOf(name) !! s'.clients[other].tx.exclusive && LocksOf(name) !! s'.clients[other].tx.shared
    {
      assert Running(s, other);
    }
  }

  lemma Begins(sha: Sha256, s: System, op: nat, name: byte)
    requires op !in s.clients
    ensures var s' := Perform(sha, s, Begin(op, Creation(name)));
            At(s', op, Opened(Creation(name))) && Beside(s, op, s') && s'.flagNumbers == s.flagNumbers
  {
  }

  /** The operation is ready to commit its flag with the number `n`. */
  ghost predicate Prepared(s: System, op: nat, name: byte, n: int) {
    exists position :: At(s, op, Finished(name, n, position))
  }

  /** The first half: the key is free, and the command row is inserted. */
  lemma AdmittedByThen(sha: Sha256, s: System, op: nat, name: byte, n: int, s1: System, s2: System, s3: System)
    requires op !in s.clients && Free(s, op, name, n)
    requires s1 == Perform(sha, s, Begin(op, Creation(name)))
    requires s2 == Perform(sha, s1, RunStatement(op, Numbered(n)))
             && s3 == Perform(sha, s2, RunStatement(op, Numbered(n)))
    ensures At(s3, op, Admitted(name, |s.log|)) && Beside(s, op, s3) && s3.flagNumbers == s.flagNumbers
            && Free(s3, op, name, n)
  {
    Begins(sha, s, op, name);
    StillFree(s, op, name, n, s1);
    LooksUp(sha, s1, op, name, n);
    BesideTransitive(s, op, s1, s2);
    StillFree(s, op, name, n, s2);
    Admits(sha, s2, op, name, n, |s.log|);
    BesideTransitive(s, op, s2, s3);
    StillFree(s, op, name, n, s3);
  }

  lemma PreparedByThen(sha: Sha256, s: System, op: nat, name: byte, n: int, position: nat, s1: System, s2: System)
    requires Free(s, op, name, n) && At(s, op, Admitted(name, position))
    requires s1 == Perform(sha, s, RunStatement(op, Numbered(n)))
             && s2 == Perform(sha, s1, RunStatement(op, Numbered(n)))
    ensures Prepared(s2, op, name, n) && Beside(s, op, s2)
            && s2.flagNumbers == s.flagNumbers[n := FlagId([111], [name])]
  {
    Inserts(sha, s, op, name, n, position);
    Finishes(sha, s1, op, name, n, position);
    BesideTransitive(s, op, s1, s2);
  }

  lemma {:induction false} Prepares(sha: Sha256, actions: seq<Action>, op: nat, name: byte, n: int)
    requires op !in Execute(sha, actions).clients && Free(Execute(sha, actions), op, name, n)
    ensures var s, s' := Execute(sha, actions), Execute(sha, actions + Preparation(op, name, n));
            && Prepared(s', op, name, n) && Beside(s, op, s')
            && s'.flagNumbers == s.flagNumbers[n := FlagId([111], [name])]
  {
    var step := RunStatement(op, Numbered(n));
    var a1 := actions + [Begin(op, Creation(name))];
    var a2 := a1 + [step];
    var a3 := a2 + [step];
    var a4 := a3 + [step];
    var a5 := a4 + [step];
    assert a5 == actions + Preparation(op, name, n);
    var s := Execute(sha, actions);
    ExecuteOne(sha, actions, Begin(op, Creation(name)), s);
    ExecuteOne(sha, a1, step, Execute(sha, a1));
    ExecuteOne(sha, a2, step, Execute(sha, a2));
    ExecuteOne(sha, a3, step, Execute(sha, a3));
    ExecuteOne(sha, a4, step, Execute(sha, a4));
    AdmittedByThen(sha, s, op, name, n, Execute(sha, a1), Execute(sha, a2), Execute(sha, a3));
    PreparedByThen(sha, Execute(sha, a3), op, name, n, |s.log|, Execute(sha, a4), Execute(sha, a5));
    BesideTransitive(s, op, Execute(sha, a3), Execute(sha, a5));
  }

  // -------------------------------------------------------------------- the run

  /** A flag by its name and number. */
  datatype Draft = Draft(name: byte, number: int)

  /**
    The operations `waiting` are ready to commit their drafts, the flags
    `stored` are committed with their numbers, and `numbers` are handed out.
   */
  ghost predicate Stage(s: System, waiting: map<nat, Draft>, stored: map<byte, int>, numbers: set<int>) {
    && s.tables.unanswered == map[]
    && (forall id | id in s.tables.store.commands :: exists name | name in stored :: id == IdOf(Creation(name)))
    && (forall id | id in s.tables.store.flags :: exists name | name in stored :: id == FlagId([111], [name]))
    && (forall name | name in stored ::
          && FlagId([111], [name]) in s.tables.store.flags
          && s.tables.store.flags[FlagId([111], [name])] == Created(name, stored[name]))
    && (forall op | Running(s, op) :: op in waiting)
    && (forall op | op in waiting :: Prepared(s, op, waiting[op].name, waiting[op].number))
    && s.flagNumbers.Keys == numbers
  }

  lemma InitialStage()
    ensures Stage(INITIAL, map[], map[], {})
  {
  }

  lemma LocksDiffer(a: byte, b: byte)
    requires a != b
    ensures LocksOf(a) !! LocksOf(b)
  {
    assert [a][0] != [b][0];
  }

  lemma StageIsFree(s: System, waiting: map<nat, Draft>, stored: map<byte, int>, numbers: set<int>, op: nat, name: byte,
                    n: int)
    requires Stage(s, waiting, stored, numbers) && op !in s.clients
    requires name !in stored && (forall other | other in waiting :: waiting[other].name != name)
    requires 0 < n <= I64_MAX && n !in numbers
    ensures Free(s, op, name, n)
  {
    forall id | id in s.tables.store.flags ensures id != FlagId([111], [name]) {
      var other :| other in stored && id == FlagId([111], [other]);
      assert [other][0] != [name][0];
    }
    forall id | id in s.tables.store.commands ensures id != IdOf(Creation(name)) {
      var other :| other in stored && id == IdOf(Creation(other));
      assert [other][0] != [name][0];
    }
    forall other | Running(s, other) && other != op
      ensures LocksOf(name) !! s.clients[other].tx.exclusive && LocksOf(name) !! s.clients[other].tx.shared
    {
      LocksDiffer(name, waiting[other].name);
    }
  }

  lemma StageAfterPreparation(s: System, s': System, waiting: map<nat, Draft>, stored: map<byte, int>,
                              numbers: set<int>, op: nat, draft: Draft)
    requires Stage(s, waiting, stored, numbers) && op !in s.clients && Beside(s, op, s')
    requires Prepared(s', op, draft.name, draft.number)
             && s'.flagNumbers == s.flagNumbers[draft.number := FlagId([111], [draft.name])]
    ensures Stage(s', waiting[op := draft], stored, numbers + {draft.number})
  {
    forall other | Running(s', other) ensures other in waiting[op := draft] {
      assert other != op ==> Running(s, other);
    }
    forall other | other in waiting && other != op
      ensures Prepared(s', other, waiting[other].name, waiting[other].number)
    {
      StillPrepared(s, other, waiting[other].name, waiting[other].number, s');
    }
  }

  lemma {:induction false} StagePrepares(sha: Sha256, actions: seq<Action>, waiting: map<nat, Draft>, stored: map<byte,
                                         int>,
                      numbers: set<int>, op: nat, draft: Draft)
    requires Stage(Execute(sha, actions), waiting, stored, numbers) && op !in Execute(sha, actions).clients
    requires draft.name !in stored && (forall other | other in waiting :: waiting[other].name != draft.name)
    requires 0 < draft.number <= I64_MAX && draft.number !in numbers
    ensures var s' := Execute(sha, actions + Preparation(op, draft.name, draft.number));
            && Stage(s', waiting[op := draft], stored, numbers + {draft.number})
            && s'.clients.Keys == Execute(sha, actions).clients.Keys + {op}
  {
    var s := Execute(sha, actions);
    StageIsFree(s, waiting, stored, numbers, op, draft.name, draft.number);
    Prepares(sha, actions, op, draft.name, draft.number);
    StageAfterPreparation(s, Execute(sha, actions + Preparation(op, draft.name, draft.number)), waiting, stored,
                          numbers, op, draft);
  }

  lemma StillPrepared(s: System, op: nat, name: byte, n: int, s': System)
    requires Prepared(s, op, name, n) && op in s'.clients && s'.clients[op] == s.clients[op]
    ensures Prepared(s', op, name, n)
  {
    var position :| At(s, op, Finished(name, n, position));
    assert At(s', op, Finished(name, n, position));
  }

  /** The flag of a prepared operation is stored, and others are as they were. */
  ghost predicate StoresDraft(s: System, s': System, op: nat, draft: Draft) {
    && s'.tables.store.flags == s.tables.store.flags[FlagId([111], [draft.name]) := Created(draft.name, draft.number)]
    && s'.tables.store.commands.Keys == s.tables.store.commands.Keys + {IdOf(Creation(draft.name))}
    && s'.tables.unanswered == s.tables.unanswered && s'.flagNumbers == s.flagNumbers
    && s'.clients.Keys == s.clients.Keys && !Running(s', op)
    && forall other | other in s.clients && other != op :: s'.clients[other] == s.clients[other]
  }

  lemma StoredAfterCommit(s: System, s': System, stored: map<byte, int>, op: nat, draft: Draft, name: byte)
    requires StoresDraft(s, s', op, draft) && name in stored[draft.name := draft.number]
    requires name in stored ==>
               && FlagId([111], [name]) in s.tables.store.flags
               && s.tables.store.flags[FlagId([111], [name])] == Created(name, stored[name])
    ensures FlagId([111], [name]) in s'.tables.store.flags
    ensures s'.tables.store.flags[FlagId([111], [name])] == Created(name, stored[draft.name := draft.number][name])
  {
    if name != draft.name {
      assert [name][0] != [draft.name][0];
    }
  }

  lemma StageAfterCommit(s: System, s': System, waiting: map<nat, Draft>, stored: map<byte, int>, numbers: set<int>,
                         op: nat)
    requires Stage(s, waiting, stored, numbers) && op in waiting && StoresDraft(s, s', op, waiting[op])
    ensures Stage(s', waiting - {op}, stored[waiting[op].name := waiting[op].number], numbers)
  {
    var stored' := stored[waiting[op].name := waiting[op].number];
    forall other | Running(s', other) ensures other in waiting - {op} {
      assert Running(s, other);
    }
    forall other | other in waiting - {op} ensures Prepared(s', other, waiting[other].name, waiting[other].number) {
      StillPrepared(s, other, waiting[other].name, waiting[other].number, s');
    }
    forall name | name in stored'
      ensures FlagId([111], [name]) in s'.tables.store.flags
      ensures s'.tables.store.flags[FlagId([111], [name])] == Created(name, stored'[name])
    {
      StoredAfterCommit(s, s', stored, op, waiting[op], name);
    }
    KeysAfterCommit(s, s', waiting, stored, numbers, op);
  }

  lemma KeysAfterCommit(s: System, s': System, waiting: map<nat, Draft>, stored: map<byte, int>, numbers: set<int>,
                        op: nat)
    requires Stage(s, waiting, stored, numbers) && op in waiting && StoresDraft(s, s', op, waiting[op])
    ensures var stored' := stored[waiting[op].name := waiting[op].number];
            && (forall id | id in s'.tables.store.commands ::
                  exists name | name in stored' :: id == IdOf(Creation(name)))
            && (forall id | id in s'.tables.store.flags :: exists name | name in stored' :: id == FlagId([111], [name]))
  {
    var stored' := stored[waiting[op].name := waiting[op].number];
    forall id | id in s'.tables.store.commands ensures exists name | name in stored' :: id == IdOf(Creation(name)) {
      if id in s.tables.store.commands {
        var name :| name in stored && id == IdOf(Creation(name));
        assert name in stored';
      } else {
        assert waiting[op].name in stored';
      }
    }
    forall id | id in s'.tables.store.flags ensures exists name | name in stored' :: id == FlagId([111], [name]) {
      if id in s.tables.store.flags {
        var name :| name in stored && id == FlagId([111], [name]);
        assert name in stored';
      } else {
        assert waiting[op].name in stored';
      }
    }
  }

  /** After the COMMIT of a prepared operation its flag is stored. */
  lemma {:induction false} PreparedCommits(sha: Sha256, actions: seq<Action>, op: nat, draft: Draft)
    requires Prepared(Execute(sha, actions), op, draft.name, draft.number)
    ensures StoresDraft(Execute(sha, actions), Execute(sha, actions + [CommitTransaction(op, true)]), op, draft)
  {
    var position :| At(Execute(sha, actions), op, Finished(draft.name, draft.number, position));
    ExecuteOne(sha, actions, CommitTransaction(op, true), Execute(sha, actions));
    Commits(sha, Execute(sha, actions), op, draft.name, draft.number, position);
  }

  lemma {:induction false} StageCommits(sha: Sha256, actions: seq<Action>, waiting: map<nat, Draft>, stored: map<byte,
                                        int>,
                     numbers: set<int>, op: nat)
    requires Stage(Execute(sha, actions), waiting, stored, numbers) && op in waiting
    ensures var s' := Execute(sha, actions + [CommitTransaction(op, true)]);
            && Stage(s', waiting - {op}, stored[waiting[op].name := waiting[op].number], numbers)
            && s'.clients.Keys == Execute(sha, actions).clients.Keys
  {
    var s := Execute(sha, actions);
    PreparedCommits(sha, actions, op, waiting[op]);
    StageAfterCommit(s, Execute(sha, actions + [CommitTransaction(op, true)]), waiting, stored, numbers, op);
  }

  /** What the listing of flags shows at a stage. */
  lemma StageView(s: System, waiting: map<nat, Draft>, stored: map<byte, int>, numbers: set<int>)
    requires Stage(s, waiting, stored, numbers)
    ensures View(s.tables.store, Flags([111], true)) == stored.Values
  {
    forall k | k in View(s.tables.store, Flags([111], true)) ensures k in stored.Values {
      var id :| id in s.tables.store.flags && id.org == [111] && s.tables.store.flags[id].rowSeq == k;
      var name :| name in stored && id == FlagId([111], [name]);
    }
    forall k | k in stored.Values ensures k in View(s.tables.store, Flags([111], true)) {
      var name :| name in stored && stored[name] == k;
      assert FlagId([111], [name]) in s.tables.store.flags;
    }
  }

  // ------------------------------------------------------------------- the actions

  function FirstPrepared(): seq<Action> {
    Preparation(1, 97, 1)
  }

  function SecondPrepared(): seq<Action> {
    FirstPrepared() + Preparation(2, 98, 2)
  }

  function SecondCommitted(): seq<Action> {
    SecondPrepared() + [CommitTransaction(2, true)]
  }

  function ThirdPrepared(): seq<Action> {
    SecondCommitted() + Preparation(3, 99, 3)
  }

  /** Flags b and c are committed while a, with the first number, is not. */
  function ThirdCommitted(): seq<Action> {
    ThirdPrepared() + [CommitTransaction(3, true)]
  }

  function FirstCommitted(): seq<Action> {
    ThirdCommitted() + [CommitTransaction(1, true)]
  }

  lemma DraftMaps()
    ensures map[1 := Draft(97, 1), 3 := Draft(99, 3)] - {3} == map[1 := Draft(97, 1)]
    ensures map[1 := Draft(97, 1)][2 := Draft(98, 2)] == map[1 := Draft(97, 1), 2 := Draft(98, 2)]
    ensures map[1 := Draft(97, 1), 2 := Draft(98, 2)] - {2} == map[1 := Draft(97, 1)]
    ensures map[1 := Draft(97, 1)][3 := Draft(99, 3)] == map[1 := Draft(97, 1), 3 := Draft(99, 3)]
    ensures map[98 := 2][99 := 3] == map[98 := 2, 99 := 3]
    ensures map[98 := 2, 99 := 3].Values == {2, 3}
    ensures map[98 := 2, 99 := 3][97 := 1].Values == {1, 2, 3}
  {
    var late := map[98 := 2, 99 := 3][97 := 1];
    assert late[98] == 2 && late[99] == 3 && late[97] == 1;
    var early := map[98 := 2, 99 := 3];
    assert early[98] == 2 && early[99] == 3;
  }

  lemma Stage1(sha: Sha256)
    ensures Stage(Execute(sha, FirstPrepared()), map[1 := Draft(97, 1)], map[], {1})
    ensures Execute(sha, FirstPrepared()).clients.Keys == {1}
  {
    InitialStage();
    StagePrepares(sha, [], map[], map[], {}, 1, Draft(97, 1));
    assert [] + FirstPrepared() == FirstPrepared();
    assert {} + {1} == {1};
  }

  lemma Stage2(sha: Sha256)
    ensures Stage(Execute(sha, SecondPrepared()), map[1 := Draft(97, 1), 2 := Draft(98, 2)], map[], {1, 2})
    ensures Execute(sha, SecondPrepared()).clients.Keys == {1, 2}
  {
    Stage1(sha);
    StagePrepares(sha, FirstPrepared(), map[1 := Draft(97, 1)], map[], {1}, 2, Draft(98, 2));
    DraftMaps();
    assert {1} + {2} == {1, 2};
  }

  lemma Stage3(sha: Sha256)
    ensures Stage(Execute(sha, SecondCommitted()), map[1 := Draft(97, 1)], map[98 := 2], {1, 2})
    ensures Execute(sha, SecondCommitted()).clients.Keys == {1, 2}
  {
    Stage2(sha);
    StageCommits(sha, SecondPrepared(), map[1 := Draft(97, 1), 2 := Draft(98, 2)], map[], {1, 2}, 2);
    DraftMaps();
  }

  lemma Stage4(sha: Sha256)
    ensures Stage(Execute(sha, ThirdPrepared()), map[1 := Draft(97, 1), 3 := Draft(99, 3)], map[98 := 2], {1, 2, 3})
  {
    Stage3(sha);
    StagePrepares(sha, SecondCommitted(), map[1 := Draft(97, 1)], map[98 := 2], {1, 2}, 3, Draft(99, 3));
    DraftMaps();
    assert {1, 2} + {3} == {1, 2, 3};
  }

  lemma Stage5(sha: Sha256)
    ensures Stage(Execute(sha, ThirdCommitted()), map[1 := Draft(97, 1)], map[98 := 2, 99 := 3], {1, 2, 3})
  {
    Stage4(sha);
    StageCommits(sha, ThirdPrepared(), map[1 := Draft(97, 1), 3 := Draft(99, 3)], map[98 := 2], {1, 2, 3}, 3);
    DraftMaps();
  }

  lemma EarlyView(sha: Sha256)
    ensures View(Execute(sha, ThirdCommitted()).tables.store, Flags([111], true)) == {2, 3}
  {
    Stage5(sha);
    StageView(Execute(sha, ThirdCommitted()), map[1 := Draft(97, 1)], map[98 := 2, 99 := 3], {1, 2, 3});
    DraftMaps();
  }

  lemma LateView(sha: Sha256)
    ensures View(Execute(sha, FirstCommitted()).tables.store, Flags([111], true)) == {1, 2, 3}
  {
    Stage5(sha);
    StageCommits(sha, ThirdCommitted(), map[1 := Draft(97, 1)], map[98 := 2, 99 := 3], {1, 2, 3}, 1);
    StageView(Execute(sha, FirstCommitted()), map[1 := Draft(97, 1)] - {1}, map[98 := 2, 99 := 3][97 := 1], {1, 2, 3});
    DraftMaps();
  }

  lemma {:induction false} SkippingViews(sha: Sha256, actions: seq<Action>, moments: seq<nat>)
    requires actions == FirstCommitted() && moments == [|ThirdCommitted()|, |actions|]
    ensures Moments(moments, actions) && Views(sha, actions, moments, Flags([111], true)) == [{2, 3}, {1, 2, 3}]
  {
    assert actions[..|ThirdCommitted()|] == ThirdCommitted() && actions[..|actions|] == actions;
    EarlyView(sha);
    LateView(sha);
  }

  /** The scan ends without a row that is stored then. */
  ghost predicate Skips(views: seq<set<int>>, limit: int, k: int) {
    && views != [] && (forall v | v in views :: RowNumbers(v))
    && EndsWith(views, None, limit) && !NothingBehind(views, None, limit)
    && k in views[|views| - 1] && k !in Follow(views, None, limit)
  }

  lemma TheseViewsSkip()
    ensures Skips([{2, 3}, {1, 2, 3}], 1, 1)
  {
    LateRowIsSkipped();
  }

  /**
    A scan in pages of one flag, whose second page is served after the last
    commit, ends without the flag that was committed behind its cursor.
   */
  lemma PgScanCanSkip(sha: Sha256) returns (actions: seq<Action>, moments: seq<nat>)
    ensures Moments(moments, actions) && moments != []
    ensures Skips(Views(sha, actions, moments, Flags([111], true)), 1, 1)
    ensures HasFlag(StoreAt(sha, actions, moments, |moments| - 1).flags, [111], true, 1)
  {
    actions := FirstCommitted();
    moments := [|ThirdCommitted()|, |actions|];
    SkippingViews(sha, actions, moments);
    TheseViewsSkip();
    ViewAtMeans(sha, actions, moments, Flags([111], true), 1, 1);
  }
}
