/** Every transaction keeps the invariant. */
module Preservation {
  import opened Rows
  import opened Transactions
  import opened Invariant
  import opened Evolution

  // ---- Changes of the rows of one live workflow -------------------------------

  ghost predicate LocalStep(db: Db, db': Db, w: nat) {
    && LocalChange(db, db', w)
    && WorkflowEvolves(db.workflows[w], db'.workflows[w])
    && ActivitiesEvolve(db, db')
  }

  lemma LocalStepKeeps(db: Db, db': Db, w: nat)
    requires Inv(db) && LocalStep(db, db', w) && OwnRowsOk(db', w)
    ensures Inv(db')
  {
    LocalChangeKeepsRows(db, db', w);
    forall v | v in db.workflows ensures WorkflowEvolves(db.workflows[v], db'.workflows[v]) {
    }
    EvolveKeepsLineage(db.workflows, db'.workflows);
    EvolveKeepsReplacements(db, db');
  }

  /** Only the row of `w` changes, and neither before nor after does it wait on an activity. */
  lemma RowStepKeeps(db: Db, w: nat, r': Workflow)
    requires Inv(db) && Live(db.workflows, w)
    requires !r'.status.Terminal() && r'.wait.NoWait? && !db.workflows[w].wait.OnActivity?
    requires r'.identity == db.workflows[w].identity && r'.command == db.workflows[w].command
    requires WorkflowOk(r')
    ensures Inv(db.(workflows := db.workflows[w := r']))
  {
    var db' := db.(workflows := db.workflows[w := r']);
    forall a | a in db'.activities && db'.activities[a].origin.workflow == w
      ensures ActivityOk(db'.activities[a]) && CoupledOk(db', a)
    {
      assert CoupledOk(db, a);
    }
    LocalStepKeeps(db, db', w);
  }

  lemma RecoverLeaseKeeps(db: Db, w: nat, now: int)
    requires Inv(db) && RecoverLease(db, w, now).Commit?
    ensures Inv(RecoverLease(db, w, now).db)
  {
    var r := db.workflows[w];
    assert WorkflowOk(r);
    RowStepKeeps(db, w, r.(status := Ready, counters := r.counters.(availableAt := now), lease := None));
  }

  lemma ClaimWorkflowKeeps(db: Db, w: nat, token: nat, leaseMillis: int, now: int)
    requires Inv(db) && ClaimWorkflow(db, w, token, leaseMillis, now).Commit?
    ensures Inv(ClaimWorkflow(db, w, token, leaseMillis, now).db)
  {
    assert WorkflowOk(db.workflows[w]);
    RowStepKeeps(db, w, ClaimedRow(db.workflows[w], token, now + leaseMillis));
  }

  lemma FireTimerKeeps(db: Db, w: nat, now: int)
    requires Inv(db) && FireTimer(db, w, now).Commit?
    ensures Inv(FireTimer(db, w, now).db)
  {
    var r := db.workflows[w];
    assert WorkflowOk(r);
    WokenOk(r, TimerFired(r.command), now);
    RowStepKeeps(db, w, Woken(r, TimerFired(r.command), now));
  }

  // ---- Activities -------------------------------------------------------------

  /** Activity `a` of `w` changes, and the row of `w` with it. */
  lemma ActivityStepKeeps(db: Db, w: nat, r': Workflow, a: nat, a': Activity)
    requires Inv(db) && w in db.workflows && a in db.activities
    requires db.activities[a].origin.workflow == w
    requires r'.identity == db.workflows[w].identity && r'.command == db.workflows[w].command
    requires db.workflows[w].status.Terminal() ==> r' == db.workflows[w]
    requires r'.status.Terminal() ==> db.workflows[w].status.Terminal()
    requires WorkflowOk(r') && ActivityOk(a') && ActivityEvolves(db.activities[a], a')
    requires r' == db.workflows[w] || db.workflows[w].wait == OnActivity(a)
    requires r'.wait == db.workflows[w].wait || r'.wait == NoWait
    requires var db' := PairSet(db, w, r', a, a'); WaitOk(db', w) && CoupledOk(db', a)
    ensures Inv(PairSet(db, w, r', a, a'))
  {
    var db' := PairSet(db, w, r', a, a');
    forall b | b in db'.activities && db'.activities[b].origin.workflow == w
      ensures ActivityOk(db'.activities[b]) && CoupledOk(db', b)
    {
      if b != a {
        assert CoupledOk(db, b) && ActivityOk(db.activities[b]);
        SiblingCoupledKept(db, w, r', a, a', b);
      }
    }
    assert OwnRowsOk(db', w);
    PairSetIsLocal(db, w, r', a, a');
    LocalStepKeeps(db, db', w);
  }

  function PairSet(db: Db, w: nat, r': Workflow, a: nat, a': Activity): Db {
    db.(workflows := db.workflows[w := r'], activities := db.activities[a := a'])
  }

  lemma SiblingCoupledKept(db: Db, w: nat, r': Workflow, a: nat, a': Activity, b: nat)
    requires b in db.activities && b != a && db.activities[b].origin.workflow == w
    requires w in db.workflows && CoupledOk(db, b)
    requires r'.command == db.workflows[w].command
    requires db.workflows[w].status.Terminal() ==> r' == db.workflows[w]
    requires r' == db.workflows[w] || db.workflows[w].wait == OnActivity(a)
    ensures CoupledOk(PairSet(db, w, r', a, a'), b)
  {
  }

  lemma PairSetIsLocal(db: Db, w: nat, r': Workflow, a: nat, a': Activity)
    requires w in db.workflows && a in db.activities && db.activities[a].origin.workflow == w
    requires r'.identity == db.workflows[w].identity && r'.command == db.workflows[w].command
    requires db.workflows[w].status.Terminal() ==> r' == db.workflows[w]
    requires r'.status.Terminal() ==> db.workflows[w].status.Terminal()
    requires ActivityEvolves(db.activities[a], a')
    requires r'.wait == db.workflows[w].wait || r'.wait == NoWait
    ensures LocalStep(db, PairSet(db, w, r', a, a'), w)
  {
  }

  lemma CloseAttemptOk(r: Activity, status: ActivityStatus, outcome: AttemptOutcome)
    requires ActivityOk(r) && r.status.HoldsSlot() && !status.HoldsSlot()
    requires status.ActPending? ==> r.attemptCount < r.maxAttempts
    ensures ActivityOk(CloseAttempt(r, status, outcome))
  {
  }

  lemma TakenRowOk(r: Activity, token: nat, now: int)
    requires ActivityOk(r) && r.status.ActPending?
    ensures ActivityOk(TakenRow(r, token, now))
  {
  }

  lemma SameActivityOk(r: Activity, r': Activity)
    requires ActivityOk(r)
    requires r'.attempts == r.attempts && r'.attemptCount == r.attemptCount && r'.origin == r.origin
    requires r'.lease.Some? <==> r.lease.Some?
    requires r.lease.Some? ==> r'.lease.value.token == r.lease.value.token
    requires r'.status.HoldsSlot() <==> r.status.HoldsSlot()
    requires BudgetOk(r')
    ensures ActivityOk(r')
  {
  }

  lemma HeartbeatKeeps(db: Db, claim: ActivityClaim, sampled: int)
    requires Inv(db) && Heartbeat(db, claim, sampled).Commit?
    ensures Inv(Heartbeat(db, claim, sampled).db)
  {
    var r := db.activities[claim.activity];
    var r' := r.(lease := Some(Lease(claim.token, sampled + claim.leaseMillis)));
    assert CoupledOk(db, claim.activity) && ActivityOk(r);
    var w := r.origin.workflow;
    assert WaitOk(db, w);
    SameActivityOk(r, r');
    assert PairSet(db, w, db.workflows[w], claim.activity, r').workflows == db.workflows;
    ActivityStepKeeps(db, w, db.workflows[w], claim.activity, r');
  }

  lemma SettleRevokedKeeps(db: Db, a: nat, outcome: AttemptOutcome, now: int)
    requires Inv(db) && a in db.activities && db.activities[a].status.ActCancelling?
    ensures SettleRevoked(db, a, outcome, now).Commit?
    ensures Inv(SettleRevoked(db, a, outcome, now).db)
  {
    var r := db.activities[a];
    assert CoupledOk(db, a) && ActivityOk(r);
    var w := r.origin.workflow;
    assert WaitOk(db, w);
    var status := if db.workflows[w].status.Terminal() then ActCancelled else ActPending;
    CloseAttemptOk(r, status, outcome);
    var r' := SettleRevoked(db, a, outcome, now).db.activities[a];
    SameActivityOk(CloseAttempt(r, status, outcome), r');
    assert PairSet(db, w, db.workflows[w], a, r').workflows == db.workflows;
    ActivityStepKeeps(db, w, db.workflows[w], a, r');
  }

  lemma BlockedOk(r: Workflow)
    requires WorkflowOk(r) && r.status.WaitingActivity?
    ensures WorkflowOk(r.(status := Blocked))
  {
  }

  /** Dead-letters the activity its workflow waits on. */
  lemma DeadLetterStepKeeps(db: Db, w: nat, a: nat, a': Activity)
    requires Inv(db) && a in db.activities && db.activities[a].origin.workflow == w
    requires WaitsOnActivity(db, w, a)
    requires a'.status.ActDeadLettered? && a'.origin == db.activities[a].origin && ActivityOk(a')
    ensures Inv(Block(db.(activities := db.activities[a := a']), w))
  {
    assert CoupledOk(db, a) && WaitOk(db, w) && WorkflowOk(db.workflows[w]);
    BlockedOk(db.workflows[w]);
    ActivityStepKeeps(db, w, db.workflows[w].(status := Blocked), a, a');
  }

  lemma FinishKeeps(db: Db, claim: ActivityClaim, outcome: HandlerOutcome, now: int)
    requires Inv(db) && Finish(db, claim, outcome, now).Commit?
    requires ClaimAgrees(db, claim)
    ensures Inv(Finish(db, claim, outcome, now).db)
  {
    var a, w := claim.activity, claim.workflow;
    var r := db.activities[a];
    assert CoupledOk(db, a) && ActivityOk(r);
    if r.status.ActCancelling? {
      SettleRevokedKeeps(db, a, r.revoked.value, now);
    } else if outcome.HandlerSucceeded? {
      assert WaitOk(db, w) && WorkflowOk(db.workflows[w]);
      CloseAttemptOk(r, ActSucceeded, AttemptSucceeded);
      var event := ActivityDone(claim.command, claim.definition);
      WokenOk(db.workflows[w], event, now);
      ActivityStepKeeps(db, w, Woken(db.workflows[w], event, now), a, CloseAttempt(r, ActSucceeded, AttemptSucceeded));
    } else if outcome.HandlerRetryable? && claim.attempt < claim.maxAttempts {
      assert WaitOk(db, w) && WorkflowOk(db.workflows[w]);
      CloseAttemptOk(r, ActPending, AttemptRetryable);
      var r' := CloseAttempt(r, ActPending, AttemptRetryable).(availableAt := outcome.availableAt);
      SameActivityOk(CloseAttempt(r, ActPending, AttemptRetryable), r');
      assert PairSet(db, w, db.workflows[w], a, r').workflows == db.workflows;
      ActivityStepKeeps(db, w, db.workflows[w], a, r');
    } else {
      CloseAttemptOk(r, ActDeadLettered, AttemptDeadLettered);
      DeadLetterStepKeeps(db, w, a, CloseAttempt(r, ActDeadLettered, AttemptDeadLettered));
    }
  }

  /** What a worker remembers of a claim is what the leased row says. */
  ghost predicate ClaimAgrees(db: Db, claim: ActivityClaim) {
    Leased(db, claim) ==>
      var r := db.activities[claim.activity];
      && r.origin.workflow == claim.workflow && r.origin.command == claim.command
      && r.origin.spec.definition == claim.definition && r.origin.spec.leaseMillis == claim.leaseMillis
      && (r.status.ActRunning? ==> r.maxAttempts == claim.maxAttempts)
  }

  /** Under the invariant a claim batch that finds its rows can write them. */
  lemma ApplyOpKeeps(db: Db, op: RowOp, now: int)
    requires Inv(db) && OpEnabled(db, op, now)
    ensures Inv(ApplyOp(db, op, now))
  {
    var a, w := op.activity, op.workflow;
    var r := db.activities[a];
    assert CoupledOk(db, a) && ActivityOk(r);
    match op {
      case Settle(_, _, availableAt) =>
        if r.status.ActCancelling? {
          SettleRevokedKeeps(db, a, AttemptLeaseExpired, now);
        } else if r.attemptCount >= r.maxAttempts {
          CloseAttemptOk(r, ActDeadLettered, AttemptLeaseExpired);
          var r' := CloseAttempt(r, ActDeadLettered, AttemptLeaseExpired).(availableAt := now);
          SameActivityOk(CloseAttempt(r, ActDeadLettered, AttemptLeaseExpired), r');
          DeadLetterStepKeeps(db, w, a, r');
        } else {
          CloseAttemptOk(r, ActPending, AttemptLeaseExpired);
          var r' := CloseAttempt(r, ActPending, AttemptLeaseExpired).(availableAt := availableAt);
          SameActivityOk(CloseAttempt(r, ActPending, AttemptLeaseExpired), r');
          KeepWorkflowStepKeeps(db, w, a, r');
        }
      case Take(_, _, token) =>
        TakenRowOk(r, token, now);
        KeepWorkflowStepKeeps(db, w, a, TakenRow(r, token, now));
      case Quarantine(_, _) =>
        SameActivityOk(r, r.(status := ActDeadLettered));
        DeadLetterStepKeeps(db, w, a, r.(status := ActDeadLettered));
    }
  }

  /** A running or pending activity becomes pending or running; its workflow goes on waiting. */
  lemma KeepWorkflowStepKeeps(db: Db, w: nat, a: nat, a': Activity)
    requires Inv(db) && a in db.activities && db.activities[a].origin.workflow == w
    requires WaitsOnActivity(db, w, a)
    requires db.activities[a].status.ActRunning? || db.activities[a].status.ActPending?
    requires a'.status.ActRunning? || a'.status.ActPending?
    requires a'.origin == db.activities[a].origin && ActivityOk(a')
    ensures Inv(db.(activities := db.activities[a := a']))
  {
    assert CoupledOk(db, a) && WaitOk(db, w) && WorkflowOk(db.workflows[w]);
    assert PairSet(db, w, db.workflows[w], a, a').workflows == db.workflows;
    ActivityStepKeeps(db, w, db.workflows[w], a, a');
  }

  // ---- Operator controls, timers and approvals --------------------------------

  lemma PausedRowOk(r: Workflow)
    requires WorkflowOk(r) && !r.status.Terminal()
    ensures WorkflowOk(r.(status := Paused, lease := None))
  {
  }

  lemma PausedActivityOk(r: Activity)
    requires ActivityOk(r)
    ensures ActivityOk(PausedActivity(r)) && ActivityEvolves(r, PausedActivity(r))
  {
    if r.status.ActRunning? { SameActivityOk(r, PausedActivity(r)); }
  }

  lemma PauseKeeps(db: Db, w: nat)
    requires Inv(db) && Pause(db, w).Commit?
    ensures Inv(Pause(db, w).db)
  {
    var r := db.workflows[w];
    assert WorkflowOk(r) && WaitOk(db, w);
    PausedRowOk(r);
    if r.wait.OnActivity? {
      var a := r.wait.activity;
      assert CoupledOk(db, a) && ActivityOk(db.activities[a]);
      PausedActivityOk(db.activities[a]);
      ActivityStepKeeps(db, w, r.(status := Paused, lease := None), a, PausedActivity(db.activities[a]));
    } else {
      SameWaitStepKeeps(db, w, r.(status := Paused, lease := None));
    }
  }

  /** Only the row of `w` changes; its wait stays and is not on an activity. */
  lemma SameWaitStepKeeps(db: Db, w: nat, r': Workflow)
    requires Inv(db) && Live(db.workflows, w)
    requires !r'.status.Terminal() && r'.wait == db.workflows[w].wait && !r'.wait.OnActivity?
    requires r'.identity == db.workflows[w].identity && r'.command == db.workflows[w].command
    requires r'.asked == db.workflows[w].asked
    requires WorkflowOk(r')
    ensures Inv(db.(workflows := db.workflows[w := r']))
  {
    var db' := db.(workflows := db.workflows[w := r']);
    assert WaitOk(db, w);
    forall a | a in db'.activities && db'.activities[a].origin.workflow == w
      ensures ActivityOk(db'.activities[a]) && CoupledOk(db', a)
    {
      assert CoupledOk(db, a);
    }
    LocalStepKeeps(db, db', w);
  }

  /** The paused row and what it waits on decide the resumed status; no branch that gives up is reachable. */
  lemma ResumeNeverStuck(db: Db, w: nat)
    requires Inv(db) && w in db.workflows && db.workflows[w].status.Paused?
    ensures ResumeStatus(db, db.workflows[w]).ResumeTo?
    ensures match db.workflows[w].wait
            case OnActivity(a) => !db.activities[a].status.ActSucceeded? && !db.activities[a].status.ActCancelled?
            case OnChild(c) => Live(db.workflows, c)
            case OnApproval(p) => db.approvals[p].status.ApprovalPending?
            case NoWait => true
            case OnTimer(_) => true
  {
    assert WaitOk(db, w);
  }

  lemma ResumeKeeps(db: Db, w: nat, now: int)
    requires Inv(db) && Resume(db, w, now).Commit?
    ensures Inv(Resume(db, w, now).db)
  {
    var r := db.workflows[w];
    assert WorkflowOk(r) && WaitOk(db, w);
    ResumeNeverStuck(db, w);
    var status := ResumeStatus(db, r).status;
    var r' := r.(status := status, lease := None,
                 counters := if status.Ready? then r.counters.(availableAt := now) else r.counters);
    assert WorkflowOk(r');
    if r.wait.OnActivity? {
      var a := r.wait.activity;
      assert CoupledOk(db, a) && ActivityOk(db.activities[a]);
      assert PairSet(db, w, r', a, db.activities[a]).activities == db.activities;
      ActivityStepKeeps(db, w, r', a, db.activities[a]);
    } else {
      SameWaitStepKeeps(db, w, r');
    }
  }

  /** A wake that answers an approval changes the waiter and the approval. */
  lemma ApprovalWakeKeeps(db: Db, w: nat, p: nat, event: Event, status: ApprovalStatus, now: int)
    requires Inv(db) && Live(db.workflows, w) && p in db.approvals && db.approvals[p].workflow == w
    requires db.workflows[w].wait == OnApproval(p) && db.workflows[w].status.AwaitsApproval()
    requires Answers(event, db.workflows[w])
    ensures Inv(Db(db.workflows[w := Woken(db.workflows[w], event, now)], db.activities,
                   db.approvals[p := db.approvals[p].(status := status)]))
  {
    var r' := Woken(db.workflows[w], event, now);
    assert WorkflowOk(db.workflows[w]);
    WokenOk(db.workflows[w], event, now);
    var db1 := db.(workflows := db.workflows[w := r']);
    RowStepKeeps(db, w, r');
    var db' := Db(db1.workflows, db1.activities, db1.approvals[p := db.approvals[p].(status := status)]);
    ApprovalOnlyKeeps(db1, db', w);
  }

  /** Approvals of a workflow that does not wait on one may change. */
  lemma ApprovalOnlyKeeps(db: Db, db': Db, w: nat)
    requires Inv(db) && w in db.workflows && !db.workflows[w].wait.OnApproval?
    requires db'.workflows == db.workflows && db'.activities == db.activities && ApprovalsOf(db, db', w)
    ensures Inv(db')
  {
    assert WorkflowOk(db.workflows[w]) && WaitOk(db, w);
    forall a | a in db'.activities && db'.activities[a].origin.workflow == w
      ensures ActivityOk(db'.activities[a]) && CoupledOk(db', a)
    {
      assert CoupledOk(db, a) && ActivityOk(db.activities[a]);
    }
    LocalStepKeeps(db, db', w);
  }

  lemma ResolveApprovalKeeps(db: Db, p: nat, now: int)
    requires Inv(db) && ResolveApproval(db, p, now).Commit?
    ensures Inv(ResolveApproval(db, p, now).db)
  {
    var w := db.approvals[p].workflow;
    assert WaitOk(db, w) && WorkflowOk(db.workflows[w]);
    ApprovalWakeKeeps(db, w, p, ApprovalGiven(db.approvals[p].command), ApprovalResolved, now);
  }

  lemma ExpireApprovalKeeps(db: Db, p: nat, now: int)
    requires Inv(db) && ExpireApproval(db, p, now).Commit?
    ensures Inv(ExpireApproval(db, p, now).db)
  {
    if ExpireApproval(db, p, now).db != db {
      var w := db.approvals[p].workflow;
      assert WaitOk(db, w) && WorkflowOk(db.workflows[w]);
      ApprovalWakeKeeps(db, w, p, ApprovalLapsed(db.approvals[p].command), ApprovalExpired, now);
    }
  }

  // ---- A new activity ----------------------------------------------------------

  lemma NewActivityOk(origin: Origin, availableAt: int)
    requires origin.spec.maxAttempts >= 1
    ensures ActivityOk(NewActivity(origin, availableAt))
  {
  }

  /** `w` begins to wait on the new activity `id`; it waited on nothing that can run. */
  lemma NewActivityStepKeeps(db: Db, w: nat, r': Workflow, id: nat, a': Activity)
    requires Inv(db) && Live(db.workflows, w) && id !in db.activities
    requires r'.identity == db.workflows[w].identity && r'.status.WaitingActivity? && r'.wait == OnActivity(id)
    requires WorkflowOk(r') && ActivityOk(a') && a'.status.ActPending?
    requires r'.command >= db.workflows[w].command
    requires a'.origin.workflow == w && a'.origin.command == r'.command
    requires r'.asked == AskActivity(a'.origin.spec.definition) || r'.corrected
    requires !db.workflows[w].status.Paused? && !db.workflows[w].status.WaitingActivity?
    requires forall a :: a in db.activities ==> GivesWayTo(db.activities[a], a')
    ensures Inv(PairSet(db, w, r', id, a'))
  {
    var db' := PairSet(db, w, r', id, a');
    forall b | b in db'.activities && db'.activities[b].origin.workflow == w
      ensures ActivityOk(db'.activities[b]) && CoupledOk(db', b)
    {
      if b != id { assert CoupledOk(db, b) && ActivityOk(db.activities[b]); }
    }
    assert OwnRowsOk(db', w);
    LocalChangeKeepsRows(db, db', w);
    forall v | v in db.workflows ensures WorkflowEvolves(db.workflows[v], db'.workflows[v]) {
    }
    EvolveKeepsLineage(db.workflows, db'.workflows);
    InsertKeepsReplacements(db, db', w, id);
  }

  lemma RetryKeeps(db: Db, a: nat, id: nat, spec: ActivitySpec, now: int)
    requires Inv(db) && Retry(db, a, id, spec, now).Commit? && id !in db.activities && spec.maxAttempts >= 1
    ensures Inv(Retry(db, a, id, spec, now).db)
  {
    var source := db.activities[a];
    var w := source.origin.workflow;
    var r := db.workflows[w];
    assert WorkflowOk(r) && WaitOk(db, w);
    var a' := Retry(db, a, id, spec, now).db.activities[id];
    NewActivityOk(a'.origin, now);
    var r' := Retry(db, a, id, spec, now).db.workflows[w];
    assert WorkflowOk(r');
    forall b | b in db.activities ensures GivesWayTo(db.activities[b], a') {
      if b != a && db.activities[b].origin.workflow == w && db.activities[b].origin.command == r.command {
        assert WaitsOnLastOf(db, w, b);
        assert SiblingsOk(db.activities[b], db.activities[a]);
      }
    }
    NewActivityStepKeeps(db, w, r', id, a');
  }
}
