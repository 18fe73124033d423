/** Runs that reach what the theorems speak of: a full topic, and a recoverable start that misses what
    happened between its two reads. */
module Example {
  import opened Rows
  import opened Transactions
  import opened System
  import opened Safety

  const TOPIC := "t"
  const SPEC := ActivitySpec(Definition("a", 1), TOPIC, 3, 100, 200, true)
  const MADE := NewWorkflow(Definition("w", 1), None, None, 0, None, 0)
  const LEASED := ClaimedRow(MADE, 7, 6000)
  const WAITS := Waiting(LEASED, LEASED, 1, WaitingActivity, OnActivity(1), AskActivity(SPEC.definition))
  const PENDING := NewActivity(Origin(1, 1, 0, SPEC), 0)
  const TAKE := Take(1, 1, 8)

  const OPEN := Db(map[1 := WAITS], map[1 := PENDING], map[])

  /** A coordinator started a workflow, claimed it, loaded its event and asked for an activity. */
  function Coordinated(k: nat): Sys
    requires k <= 4
  {
    var s := Sys(Db(map[], map[], map[]), 5_000_000, map[TOPIC := 1], {}, map[], map[], map[], map[], map[], {});
    if k == 0 then s
    else if k == 1 then s.(db := Db(map[1 := MADE], map[], map[]))
    else if k == 2 then s.(db := Db(map[1 := LEASED], map[], map[]), issued := {7},
                           claims := map[7 := WorkflowClaim(1, LEASED, 7, None)])
    else if k == 3 then s.(db := Db(map[1 := LEASED], map[], map[]), issued := {7},
                           claims := map[7 := WorkflowClaim(1, LEASED, 7, Some(1))])
    else s.(db := OPEN, issued := {7}, claims := map[7 := WorkflowClaim(1, LEASED, 7, Some(1))])
  }

  function BatchAt(k: nat): Batch
    requires k <= 3
  {
    Batch({TOPIC}, 4_999_000, 5000,
          if k == 0 then Between
          else if k == 1 then Reconciling(TOPIC, {}, {})
          else if k == 2 then Taking(TOPIC, 1)
          else Taking(TOPIC, 0),
          if k < 3 then [] else [TAKE])
  }

  function Batching(k: nat): Sys
    requires k <= 3
  {
    Coordinated(4).(batches := map[1 := BatchAt(k)], issued := if k < 3 then {7} else {7, 8})
  }

  // ---- Reaching a state -----------------------------------------------------------------------

  ghost predicate Reachable(s: Sys) {
    exists states, steps :: Run(states, steps) && states[|steps|] == s
  }

  lemma InitIsReachable(s: Sys)
    requires Init(s)
    ensures Reachable(s)
  {
    var states, steps: seq<Step> := [s], [];
    assert Run(states, steps) && states[|steps|] == s;
  }

  lemma NextIsReachable(s: Sys, step: Step, s': Sys)
    requires Reachable(s) && Next(s, step, s')
    ensures Reachable(s')
  {
    var states, steps :| Run(states, steps) && states[|steps|] == s;
    var states', steps' := states + [s'], steps + [step];
    forall i | 0 <= i < |steps'| ensures Next(states'[i], steps'[i], states'[i + 1]) {
      if i < |steps| { assert Next(states[i], steps[i], states[i + 1]); }
    }
    assert Run(states', steps') && states'[|steps'|] == s';
  }

  // ---- Steps --------------------------------------------------------------------------------------

  lemma Starts()
    ensures Next(Coordinated(0), Act(DoStart(1, Definition("w", 1), None, 0), 5000), Coordinated(1))
  {
    assert Start(Coordinated(0).db, 1, Definition("w", 1), None, 0) == Commit(Coordinated(1).db);
  }

  lemma Claims()
    ensures Next(Coordinated(1), ClaimStep(1, 7, 1000, 5000), Coordinated(2))
  {
    assert ClaimWorkflow(Coordinated(1).db, 1, 7, 1000, 5000) == Commit(Coordinated(2).db);
  }

  lemma Loads()
    ensures Next(Coordinated(2), LoadStep(7), Coordinated(3))
  {
    assert [Delivery(1, Started)][1..] == [];
    assert NextDelivery([Delivery(1, Started)], 0) == Some(1);
  }

  lemma Asks()
    ensures Next(Coordinated(3), TransitionStep(7, RunActivity(1, SPEC, 0), 5000), Coordinated(4))
  {
    var claim := Coordinated(3).claims[7];
    assert CommitTransition(Coordinated(3).db, claim, 1, RunActivity(1, SPEC, 0), 5000) == Commit(OPEN);
  }

  lemma Begins()
    ensures Next(Coordinated(4), BeginBatch(1, {TOPIC}, 4_999_000, 5000), Batching(0))
  {
  }

  lemma Scans()
    ensures Next(Batching(0), BatchStatement(1, BatchAt(1), None), Batching(1))
  {
    assert View(OPEN, BatchAt(0)) == OPEN;
    assert ExpiredOf(OPEN, TOPIC, 5000) == {};
    assert Scan(OPEN, BatchAt(0), BatchAt(1), TOPIC);
  }

  lemma Counts()
    ensures Next(Batching(1), BatchStatement(1, BatchAt(2), None), Batching(2))
  {
    assert View(OPEN, BatchAt(1)) == OPEN;
    assert InFlight(OPEN, TOPIC, 5000, {}) == {};
    assert Count(OPEN, map[TOPIC := 1], BatchAt(1), BatchAt(2), 1);
  }

  lemma Takes()
    ensures Next(Batching(2), BatchStatement(1, BatchAt(3), Some(8)), Batching(3))
  {
    assert View(OPEN, BatchAt(2)) == OPEN;
    assert OpEnabled(OPEN, TAKE, 5000);
    assert TakeRow(OPEN, BatchAt(2), BatchAt(3), TAKE);
  }

  function Full(): Sys {
    CommitOp(Batching(3), BatchAt(3), TAKE).(batches := map[])
  }

  lemma CommitsBatch()
    ensures Next(Batching(3), CommitBatch(1), Full())
    ensures FillsTopic(Full())
  {
    var b := BatchAt(3);
    assert b.ops[1..] == [];
    assert OpEnabled(OPEN, TAKE, 5000) && OpsEnabled(OPEN, b.ops, 5000);
    assert CommitOps(Batching(3), b, b.ops) == CommitOp(Batching(3), b, TAKE);
    assert Batching(3).batches - {1} == map[];
    assert Slots(Full().db, TOPIC) == {1};
  }

  /** Every slot of the topic is taken, and a handler executes. */
  ghost predicate FillsTopic(s: Sys) {
    TOPIC in s.caps && |Slots(s.db, TOPIC)| == s.caps[TOPIC] == 1 && Executing(s, 8)
  }

  lemma CoordinatorReaches()
    ensures Reachable(Coordinated(4))
  {
    assert Init(Coordinated(0));
    InitIsReachable(Coordinated(0));
    Starts();
    NextIsReachable(Coordinated(0), Act(DoStart(1, Definition("w", 1), None, 0), 5000), Coordinated(1));
    Claims();
    NextIsReachable(Coordinated(1), ClaimStep(1, 7, 1000, 5000), Coordinated(2));
    Loads();
    NextIsReachable(Coordinated(2), LoadStep(7), Coordinated(3));
    Asks();
    NextIsReachable(Coordinated(3), TransitionStep(7, RunActivity(1, SPEC, 0), 5000), Coordinated(4));
  }

  /** Some run takes every slot of a topic and executes a handler. */
  lemma CapIsReached()
    ensures Reachable(Full()) && FillsTopic(Full())
  {
    CoordinatorReaches();
    Begins();
    NextIsReachable(Coordinated(4), BeginBatch(1, {TOPIC}, 4_999_000, 5000), Batching(0));
    Scans();
    NextIsReachable(Batching(0), BatchStatement(1, BatchAt(1), None), Batching(1));
    Counts();
    NextIsReachable(Batching(1), BatchStatement(1, BatchAt(2), None), Batching(2));
    Takes();
    NextIsReachable(Batching(2), BatchStatement(1, BatchAt(3), Some(8)), Batching(3));
    CommitsBatch();
    NextIsReachable(Batching(3), CommitBatch(1), Full());
  }

  // ---- A recoverable start that misses a failure and a restart -------------------------------------

  const KEYED := Definition("k", 1)
  const THEKEY := DomainKey("x")
  const FIRST := NewWorkflow(KEYED, Some(THEKEY), None, 0, None, 0)
  const FIRSTLEASED := ClaimedRow(FIRST, 7, 6000)
  const FIRSTFAILED :=
    FIRSTLEASED.(status := Failed, lease := None, counters := Counters(1, 0, 1, DEFAULT_MAX_ACTIVATION, 0))
  const SECOND := NewWorkflow(KEYED, None, None, 0, Some(1), 5000)

  /** One process looks for the key; others start it, claim it, fail it and restart it. */
  function Racing(k: nat): Sys
    requires k <= 5
  {
    var s := Coordinated(0);
    if k == 0 then s
    else
      var looked := s.(missed := {(KEYED.kind, THEKEY)});
      if k == 1 then looked
      else if k == 2 then looked.(db := Db(map[1 := FIRST], map[], map[]))
      else
        var claimed := looked.(issued := {7}, claims := map[7 := WorkflowClaim(1, FIRSTLEASED, 7, None)]);
        if k == 3 then claimed.(db := Db(map[1 := FIRSTLEASED], map[], map[]))
        else if k == 4 then claimed.(db := Db(map[1 := FIRSTFAILED], map[], map[]))
        else claimed.(db := Db(map[1 := FIRSTFAILED, 2 := SECOND], map[], map[]))
  }

  lemma Looks()
    ensures Next(Racing(0), LookUp(KEYED.kind, THEKEY), Racing(1))
  {
  }

  lemma StartsKeyed()
    ensures Next(Racing(1), Act(DoStart(1, KEYED, Some(THEKEY), 0), 5000), Racing(2))
  {
    assert Start(Racing(1).db, 1, KEYED, Some(THEKEY), 0) == Commit(Racing(2).db);
  }

  lemma ClaimsKeyed()
    ensures Next(Racing(2), ClaimStep(1, 7, 1000, 5000), Racing(3))
  {
    assert ClaimWorkflow(Racing(2).db, 1, 7, 1000, 5000) == Commit(Racing(3).db);
  }

  lemma FailsKeyed()
    ensures Next(Racing(3), FailureStep(7, 1, 0, 5000), Racing(4))
  {
    var ws := WakeParents(map[1 := FIRSTFAILED], 1, KEYED, ChildFailed("activation"), 5000);
    assert ws == map[1 := FIRSTFAILED];
    assert ActivationFailure(Racing(3).db, Racing(3).claims[7], 1, 0, 5000) == Commit(Racing(4).db);
  }

  lemma RestartsKeyed()
    ensures Next(Racing(4), Act(DoRestart(1, 2, 1, []), 5000), Racing(5))
  {
    assert Successor(Racing(4).db.workflows, 1).None?;
    assert Racing(4).db.workflows[2 := SECOND] == Racing(5).db.workflows;
    assert Restart(Racing(4).db, 1, 2, 1, [], 5000) == Commit(Racing(5).db);
  }

  lemma RaceReaches()
    ensures Reachable(Racing(4)) && Reachable(Racing(5))
  {
    InitIsReachable(Racing(0));
    Looks();
    NextIsReachable(Racing(0), LookUp(KEYED.kind, THEKEY), Racing(1));
    StartsKeyed();
    NextIsReachable(Racing(1), Act(DoStart(1, KEYED, Some(THEKEY), 0), 5000), Racing(2));
    ClaimsKeyed();
    NextIsReachable(Racing(2), ClaimStep(1, 7, 1000, 5000), Racing(3));
    FailsKeyed();
    NextIsReachable(Racing(3), FailureStep(7, 1, 0, 5000), Racing(4));
    RestartsKeyed();
    NextIsReachable(Racing(4), Act(DoRestart(1, 2, 1, []), 5000), Racing(5));
  }

  /** In a reachable state the start that missed the failure names the failed row 1, and recovers nothing. */
  lemma MissedFailureExample()
    ensures Reachable(Racing(4)) && (KEYED.kind, THEKEY) in Racing(4).missed
    ensures RecoverableStart(Racing(4).db, None, 2, KEYED, THEKEY, [], 5000) == (1, Commit(Racing(4).db))
    ensures Racing(4).db.workflows[1].status.Failed?
  {
    RaceReaches();
    var ws := Racing(4).db.workflows;
    assert HasKey(ws[1], KEYED.kind, THEKEY);
    assert FindByKey(ws, KEYED.kind, THEKEY) == Some(1);
  }

  /** One restart later, the same start names row 1 although row 2 is the newest generation. */
  lemma MissedRestartExample()
    ensures Reachable(Racing(5)) && (KEYED.kind, THEKEY) in Racing(5).missed
    ensures RecoverableStart(Racing(5).db, None, 3, KEYED, THEKEY, [], 5000) == (1, Commit(Racing(5).db))
    ensures Newest(Racing(5).db.workflows, 1) == 2
  {
    RaceReaches();
    var ws := Racing(5).db.workflows;
    assert HasKey(ws[1], KEYED.kind, THEKEY) && !HasKey(ws[2], KEYED.kind, THEKEY);
    assert FindByKey(ws, KEYED.kind, THEKEY) == Some(1);
    assert ws[2].identity.restartedFrom == Some(1) && Successor(ws, 1) == Some(2);
    assert Successor(ws, 2).None?;
    assert Newest(ws, 2) == 2;
  }
}
