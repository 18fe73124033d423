/** Every step of a run only adds to the history of the rows. */
module Advance {
  import opened Rows
  import opened Transactions
  import opened Invariant
  import opened Preservation
  import opened Commits
  import opened System
  import opened Batches
  import opened Protocol
  import opened Safety
  import opened Runs
  import opened History
  import opened Attempts

  // ---- History -----------------------------------------------------------------------------

  /** What one step may do to the rows. */
  ghost predicate Advances(db: Db, db': Db) {
    Serves(db.workflows, db'.workflows) && AttemptsFollow(db.activities, db'.activities)
  }

  lemma ActAdvances(db: Db, action: Action, now: int)
    requires Inv(db) && Allowed(db, action, now) && Perform(db, action, now).Commit?
    ensures Advances(db, Perform(db, action, now).db)
  {
    SameFollow(db.activities);
    match action
    case DoStart(id, definition, key, availableAt) => StartServes(db, id, definition, key, availableAt);
    case DoRecoverableStart(lookup, id, definition, key, order) =>
      RecoverableStartServes(db, lookup, id, definition, key, order, now);
      RecoverableStartAttempts(db, lookup, id, definition, key, order, now);
    case DoCancel(w, order, outcome) =>
      CancelServes(db, w, order, outcome, now);
      CancelAttempts(db, w, order, outcome, now);
    case DoRestart(w, id, version, order) =>
      RestartServes(db, w, id, version, order, now);
      RestartAttempts(db, w, id, version, order, now);
    case DoRecoverLease(w) => ControlServes(db, w, now);
    case DoPause(w) =>
      ControlServes(db, w, now);
      PauseAttempts(db, w);
    case DoResume(w) => ControlServes(db, w, now);
    case DoRetry(a, id, spec) =>
      RetryServes(db, a, id, spec, now);
      var source := db.activities[a].origin;
      InsertAttempts(db.activities, id, Origin(source.workflow, source.command, source.replacement + 1, spec), now);
    case DoFireTimer(w) => ControlServes(db, w, now);
    case DoExpireApproval(p) => ApprovalServes(db, p, now);
    case DoResolveApproval(p) => ApprovalServes(db, p, now);
  }

  lemma TransitionAdvances(db: Db, claim: WorkflowClaim, consumed: nat, t: Transition, now: int)
    requires Inv(db) && CacheAgrees(db, claim, consumed) && TransitionAllowed(db, claim, t)
    requires CommitTransition(db, claim, consumed, t, now).Commit?
    ensures Advances(db, CommitTransition(db, claim, consumed, t, now).db)
  {
    SameFollow(db.activities);
    if t.RunChild? {
      ChildServes(db, claim, consumed, t, now);
    } else {
      TransitionServes(db, claim, consumed, t, now);
      if t.RunActivity? {
        InsertAttempts(db.activities, t.id, Origin(claim.id, claim.row.command + 1, 0, t.spec), t.availableAt);
      }
    }
  }

  /** A change that advances the rows and grants no workflow lease. */
  ghost predicate CalmAdvance(db: Db, db': Db) {
    Advances(db, db') && WorkflowsCalm(db.workflows, db'.workflows)
  }

  lemma SameAdvances(db: Db)
    ensures CalmAdvance(db, db)
  {
    SameFollow(db.activities);
    SameServes(db.workflows);
  }

  /** The rows of a batch block workflows and touch no waiter of a child. */
  ghost predicate OpsChange(db: Db, db': Db) {
    && Follows(db.workflows, db'.workflows) && AttemptsFollow(db.activities, db'.activities)
    && (forall w :: w in db.workflows && !db.workflows[w].wait.OnActivity? ==> db'.workflows[w] == db.workflows[w])
    && WorkflowsCalm(db.workflows, db'.workflows)
  }

  lemma OpChanges(db: Db, op: RowOp, now: int)
    requires Inv(db) && OpEnabled(db, op, now)
    ensures OpsChange(db, ApplyOp(db, op, now))
    ensures forall w :: w in db.workflows ==> ApplyOp(db, op, now).workflows[w].wait == db.workflows[w].wait
  {
    OpServes(db, op, now);
    OpAttempts(db, op, now);
  }

  lemma OpsChangeTransitive(a: Db, b: Db, c: Db)
    requires OpsChange(a, b) && OpsChange(b, c)
    requires (forall w :: w in a.workflows ==> b.workflows[w].wait == a.workflows[w].wait)
    ensures OpsChange(a, c)
  {
    FollowsTransitive(a.workflows, b.workflows, c.workflows);
    AttemptsTransitive(a.activities, b.activities, c.activities);
  }

  lemma {:induction false} OpsAdvance(db: Db, ops: seq<RowOp>, now: int)
    requires Inv(db) && OpsEnabled(db, ops, now)
    ensures OpsChange(db, ApplyOps(db, ops, now))
    decreases |ops|
  {
    if ops == [] {
      SameAdvances(db);
    } else {
      var db1 := ApplyOp(db, ops[0], now);
      ApplyOpKeeps(db, ops[0], now);
      OpChanges(db, ops[0], now);
      OpsAdvance(db1, ops[1..], now);
      OpsChangeTransitive(db, db1, ApplyOps(db1, ops[1..], now));
    }
  }

  lemma OpsChangeAdvances(db: Db, db': Db)
    requires OpsChange(db, db')
    ensures CalmAdvance(db, db')
  {
  }

  lemma CommitBatchAdvances(s: Sys, id: nat, s': Sys)
    requires SysInv(s) && CommitNext(s, id, s')
    ensures CalmAdvance(s.db, s'.db)
  {
    var b := s.batches[id];
    CommitIsApply(s, b, b.ops);
    OpsAdvance(s.db, b.ops, b.now);
    OpsChangeAdvances(s.db, s'.db);
  }

  lemma {:induction false} CommitIsApply(s: Sys, b: Batch, ops: seq<RowOp>)
    requires OpsEnabled(s.db, ops, b.now)
    ensures CommitOps(s, b, ops).db == ApplyOps(s.db, ops, b.now)
    decreases |ops|
  {
    if ops != [] { CommitIsApply(CommitOp(s, b, ops[0]), b, ops[1..]); }
  }

  lemma ActStepAdvances(s: Sys, action: Action, now: int, s': Sys)
    requires Inv(s.db) && ActNext(s, action, now, s')
    ensures CalmAdvance(s.db, s'.db)
  {
    if Perform(s.db, action, now).Commit? {
      ActAdvances(s.db, action, now);
      PerformCalm(s.db, action, now);
    } else {
      SameAdvances(s.db);
    }
  }

  lemma TransitionStepAdvances(s: Sys, token: nat, t: Transition, now: int, s': Sys)
    requires Inv(s.db) && ClaimsOk(s) && TransitionNext(s, token, t, now, s')
    ensures CalmAdvance(s.db, s'.db)
  {
    var claim := s.claims[token];
    if CommitTransition(s.db, claim, claim.loaded.value, t, now).Commit? {
      FencedClaimAgrees(s, token);
      TransitionAdvances(s.db, claim, claim.loaded.value, t, now);
      TransitionCalm(s.db, claim, claim.loaded.value, t, now);
    } else {
      SameAdvances(s.db);
    }
  }

  lemma FailureStepAdvances(s: Sys, token: nat, configuredMax: nat, availableAt: int, now: int, s': Sys)
    requires FailureNext(s, token, configuredMax, availableAt, now, s')
    ensures CalmAdvance(s.db, s'.db)
  {
    SameAdvances(s.db);
    if ActivationFailure(s.db, s.claims[token], configuredMax, availableAt, now).Commit? {
      FailureServes(s.db, s.claims[token], configuredMax, availableAt, now);
      FailureCalm(s.db, s.claims[token], configuredMax, availableAt, now);
    }
  }

  lemma FinishStepAdvances(s: Sys, token: nat, outcome: HandlerOutcome, now: int, s': Sys)
    requires Inv(s.db) && LeasesOk(s) && FinishNext(s, token, outcome, now, s')
    ensures CalmAdvance(s.db, s'.db)
  {
    if Finish(s.db, s.leases[token], outcome, now).Commit? {
      LeasedClaimAgrees(s, token);
      FinishServes(s.db, s.leases[token], outcome, now);
      FinishAttempts(s.db, s.leases[token], outcome, now);
      FinishCalm(s.db, s.leases[token], outcome, now);
    } else {
      SameAdvances(s.db);
    }
  }

  lemma LandStepAdvances(s: Sys, token: nat, s': Sys)
    requires LandNext(s, token, s')
    ensures CalmAdvance(s.db, s'.db)
  {
    SameAdvances(s.db);
    if Heartbeat(s.db, s.leases[token], s.renewals[token].sampled).Commit? {
      HeartbeatAttempts(s.db, s.leases[token], s.renewals[token].sampled);
    }
  }

  lemma ClaimStepAdvances(s: Sys, w: nat, token: nat, leaseMillis: int, now: int, s': Sys)
    requires ClaimNext(s, w, token, leaseMillis, now, s')
    ensures Advances(s.db, s'.db)
  {
    SameAdvances(s.db);
    if ClaimWorkflow(s.db, w, token, leaseMillis, now).Commit? {
      ClaimServes(s.db, w, token, leaseMillis, now);
    }
  }

  lemma CoordinatorStepAdvances(s: Sys, step: Step, s': Sys)
    requires SysInv(s) && Next(s, step, s') && OfCoordinator(step)
    ensures Advances(s.db, s'.db)
    ensures step.ClaimStep? || WorkflowsCalm(s.db.workflows, s'.db.workflows)
  {
    match step
    case ClaimStep(w, token, leaseMillis, now) => ClaimStepAdvances(s, w, token, leaseMillis, now, s');
    case LoadStep(_) => SameAdvances(s.db);
    case TransitionStep(token, t, now) => TransitionStepAdvances(s, token, t, now, s');
    case FailureStep(token, configuredMax, availableAt, now) =>
      FailureStepAdvances(s, token, configuredMax, availableAt, now, s');
  }

  lemma OtherStepAdvances(s: Sys, step: Step, s': Sys)
    requires SysInv(s) && Next(s, step, s') && !OfCoordinator(step)
    ensures CalmAdvance(s.db, s'.db)
  {
    if step.Act? {
      ActStepAdvances(s, step.action, step.now, s');
    } else if step.LandRenewal? {
      LandStepAdvances(s, step.token, s');
    } else if step.FinishStep? {
      FinishStepAdvances(s, step.token, step.outcome, step.now, s');
    } else if step.CommitBatch? {
      CommitBatchAdvances(s, step.batch, s');
    } else {
      SameAdvances(s.db);
    }
  }

  lemma NextAdvances(s: Sys, step: Step, s': Sys)
    requires SysInv(s) && Next(s, step, s')
    ensures Advances(s.db, s'.db)
    ensures step.ClaimStep? || WorkflowsCalm(s.db.workflows, s'.db.workflows)
  {
    if OfCoordinator(step) {
      CoordinatorStepAdvances(s, step, s');
    } else {
      OtherStepAdvances(s, step, s');
    }
  }
}
