/** Transitions that coordinators commit, and every way a workflow can end,
    keep the invariant. */
module Commits {
  import opened Rows
  import opened Transactions
  import opened Invariant
  import opened Evolution
  import opened Preservation

  /** The cached row of a claim that holds the fence is the stored row, and the
      event it consumes is the next one. */
  ghost predicate CacheAgrees(db: Db, claim: WorkflowClaim, consumed: nat) {
    Fenced(db, claim) ==>
      claim.row == db.workflows[claim.id] && consumed == claim.row.delivered + 1
  }

  // ---- Transitions that stay ----------------------------------------------------

  lemma ContinuedRowOk(r: Workflow, maxStreak: nat, availableAt: int)
    requires WorkflowOk(r) && r.status.Running?
    ensures WorkflowOk(ContinuedRow(r, r, r.delivered + 1, maxStreak, availableAt))
  {
  }

  lemma WaitingRowOk(r: Workflow, status: WorkflowStatus, wait: Wait, asked: Ask)
    requires WorkflowOk(r) && r.status.Running?
    requires || (status.WaitingActivity? && wait.OnActivity? && asked.AskActivity?)
             || (status.WaitingChild? && wait.OnChild? && asked.AskChild?)
             || (status.WaitingApproval? && wait.OnApproval? && asked.AskApproval?)
             || (status.Sleeping? && wait == OnTimer(r.command + 1) && asked.AskTimer?)
    ensures WorkflowOk(Waiting(r, r, r.delivered + 1, status, wait, asked))
  {
  }

  /** The activities of a running workflow have all ended. */
  lemma RunningHasNoActivity(db: Db, w: nat, a: nat)
    requires Inv(db) && w in db.workflows && db.workflows[w].status.Running?
    requires a in db.activities && db.activities[a].origin.workflow == w
    ensures !db.activities[a].status.ActPending? && !db.activities[a].status.HoldsSlot()
    ensures db.activities[a].origin.command <= db.workflows[w].command
  {
    assert CoupledOk(db, a) && WorkflowOk(db.workflows[w]);
  }

  /** A running row issues a command and waits on no activity; approvals of its own may be added. */
  lemma CommandStepKeeps(db: Db, db': Db, w: nat)
    requires Inv(db) && w in db.workflows && db.workflows[w].status.Running?
    requires SameOthers(db.workflows, db'.workflows, w) && db'.activities == db.activities && ApprovalsOf(db, db', w)
    requires var r' := db'.workflows[w];
      && r'.identity == db.workflows[w].identity && !r'.status.Terminal()
      && r'.command >= db.workflows[w].command && !r'.wait.OnActivity? && !r'.wait.OnChild?
      && WorkflowOk(r') && WaitOk(db', w)
    ensures Inv(db')
  {
    forall a | a in db'.activities && db'.activities[a].origin.workflow == w
      ensures ActivityOk(db'.activities[a]) && CoupledOk(db', a)
    {
      assert CoupledOk(db, a) && ActivityOk(db.activities[a]);
      RunningHasNoActivity(db, w, a);
    }
    LocalStepKeeps(db, db', w);
  }

  lemma RunActivityKeeps(db: Db, claim: WorkflowClaim, consumed: nat, t: Transition, now: int)
    requires Inv(db) && CacheAgrees(db, claim, consumed) && t.RunActivity?
    requires t.id !in db.activities && t.spec.maxAttempts >= 1
    requires CommitTransition(db, claim, consumed, t, now).Commit?
    ensures Inv(CommitTransition(db, claim, consumed, t, now).db)
  {
    var w := claim.id;
    var r := db.workflows[w];
    assert WorkflowOk(r);
    WaitingRowOk(r, WaitingActivity, OnActivity(t.id), AskActivity(t.spec.definition));
    var a' := NewActivity(Origin(w, r.command + 1, 0, t.spec), t.availableAt);
    NewActivityOk(a'.origin, t.availableAt);
    forall b | b in db.activities ensures GivesWayTo(db.activities[b], a') {
      if db.activities[b].origin.workflow == w { RunningHasNoActivity(db, w, b); }
    }
    NewActivityStepKeeps(db, w,
                         Waiting(r, r, consumed, WaitingActivity, OnActivity(t.id), AskActivity(t.spec.definition)),
                         t.id, a');
  }

  lemma ContinueKeeps(db: Db, claim: WorkflowClaim, consumed: nat, t: Transition, now: int)
    requires Inv(db) && CacheAgrees(db, claim, consumed) && t.Continue?
    requires CommitTransition(db, claim, consumed, t, now).Commit?
    ensures Inv(CommitTransition(db, claim, consumed, t, now).db)
  {
    var r := db.workflows[claim.id];
    assert WorkflowOk(r);
    ContinuedRowOk(r, t.maxStreak, t.availableAt);
    QuietRowKeeps(db, claim.id, ContinuedRow(r, r, consumed, t.maxStreak, t.availableAt));
  }

  lemma SleepKeeps(db: Db, claim: WorkflowClaim, consumed: nat, t: Transition, now: int)
    requires Inv(db) && CacheAgrees(db, claim, consumed) && t.SleepUntil?
    requires CommitTransition(db, claim, consumed, t, now).Commit?
    ensures Inv(CommitTransition(db, claim, consumed, t, now).db)
  {
    var r := db.workflows[claim.id];
    assert WorkflowOk(r);
    WaitingRowOk(r, Sleeping, OnTimer(r.command + 1), AskTimer);
    QuietRowKeeps(db, claim.id,
                  Waiting(r, r, consumed, Sleeping, OnTimer(r.command + 1), AskTimer)
                  .(counters := Counters(r.counters.stateVersion + 1, 0, 0, r.counters.maxActivation, t.at)));
  }

  lemma AskApprovalKeeps(db: Db, claim: WorkflowClaim, consumed: nat, t: Transition, now: int)
    requires Inv(db) && CacheAgrees(db, claim, consumed) && t.WaitForApproval? && t.id !in db.approvals
    requires CommitTransition(db, claim, consumed, t, now).Commit?
    ensures Inv(CommitTransition(db, claim, consumed, t, now).db)
  {
    var r := db.workflows[claim.id];
    assert WorkflowOk(r);
    WaitingRowOk(r, WaitingApproval, OnApproval(t.id), AskApproval);
    ApprovalAskKeeps(db, claim.id, t.id, t.expiresAt);
  }

  /** A running row becomes ready or sleeps. */
  lemma QuietRowKeeps(db: Db, w: nat, r': Workflow)
    requires Inv(db) && w in db.workflows && db.workflows[w].status.Running?
    requires r'.identity == db.workflows[w].identity && !r'.status.Terminal() && r'.command >= db.workflows[w].command
    requires (r'.wait.NoWait? || r'.wait.OnTimer?) && WorkflowOk(r')
    ensures Inv(db.(workflows := db.workflows[w := r']))
  {
    CommandStepKeeps(db, db.(workflows := db.workflows[w := r']), w);
  }

  lemma ApprovalAskKeeps(db: Db, w: nat, id: nat, expiresAt: Option<int>)
    requires Inv(db) && w in db.workflows && db.workflows[w].status.Running? && id !in db.approvals
    requires var r := db.workflows[w];
      WorkflowOk(Waiting(r, r, r.delivered + 1, WaitingApproval, OnApproval(id), AskApproval))
    ensures var r := db.workflows[w];
      Inv(Db(db.workflows[w := Waiting(r, r, r.delivered + 1, WaitingApproval, OnApproval(id), AskApproval)],
             db.activities,
             db.approvals[id := Approval(w, r.command + 1, r.identity.definition, ApprovalPending, expiresAt)]))
  {
    var r := db.workflows[w];
    var db' := Db(db.workflows[w := Waiting(r, r, r.delivered + 1, WaitingApproval, OnApproval(id), AskApproval)],
                  db.activities,
                  db.approvals[id := Approval(w, r.command + 1, r.identity.definition, ApprovalPending, expiresAt)]);
    CommandStepKeeps(db, db', w);
  }

  // ---- Ends -----------------------------------------------------------------------

  ghost predicate ActivitiesSettle(db: Db, db': Db) {
    && db'.activities.Keys == db.activities.Keys
    && (forall a :: a in db.activities ==> ActivityEvolves(db.activities[a], db'.activities[a]))
  }

  /** Any end of `w` that leaves its own rows right keeps the invariant. */
  lemma EndsKeeps(db: Db, db': Db, w: nat, outcome: ChildOutcome, now: int)
    requires Inv(db) && Ends(db, db', w, outcome, now) && OwnRowsOk(db', w) && ActivitiesSettle(db, db')
    ensures Inv(db')
  {
    EndsKeepsRows(db, db', w, outcome, now);
    forall v | v in db.workflows ensures WorkflowEvolves(db.workflows[v], db'.workflows[v]) {
    }
    EvolveKeepsLineage(db.workflows, db'.workflows);
    EvolveKeepsReplacements(db, db');
  }

  /** A running row ends; none of its activities can still run. */
  lemma RunningEndsKeeps(db: Db, w: nat, r': Workflow, outcome: ChildOutcome, now: int)
    requires Inv(db) && w in db.workflows && db.workflows[w].status.Running?
    requires r'.status.Terminal() && r'.identity == db.workflows[w].identity && r'.command == db.workflows[w].command
    requires WorkflowOk(r')
    ensures Inv(db.(workflows := WakeParents(db.workflows[w := r'], w, r'.identity.definition, outcome, now)))
  {
    var db' := db.(workflows := WakeParents(db.workflows[w := r'], w, r'.identity.definition, outcome, now));
    assert db'.workflows[w] == r';
    forall a | a in db'.activities && db'.activities[a].origin.workflow == w
      ensures ActivityOk(db'.activities[a]) && CoupledOk(db', a)
    {
      assert CoupledOk(db, a) && ActivityOk(db.activities[a]);
      RunningHasNoActivity(db, w, a);
    }
    EndsKeeps(db, db', w, outcome, now);
  }

  lemma CompleteKeeps(db: Db, claim: WorkflowClaim, consumed: nat, now: int)
    requires Inv(db) && CacheAgrees(db, claim, consumed)
    requires CommitTransition(db, claim, consumed, Complete, now).Commit?
    ensures Inv(CommitTransition(db, claim, consumed, Complete, now).db)
  {
    var r := db.workflows[claim.id];
    assert WorkflowOk(r);
    RunningEndsKeeps(db, claim.id, Stepped(r, consumed).(status := Succeeded), ChildSucceeded, now);
  }

  lemma ActivationFailureKeeps(db: Db, claim: WorkflowClaim, configuredMax: nat, availableAt: int, now: int)
    requires Inv(db) && ActivationFailure(db, claim, configuredMax, availableAt, now).Commit?
    ensures Inv(ActivationFailure(db, claim, configuredMax, availableAt, now).db)
  {
    var r := db.workflows[claim.id];
    assert WorkflowOk(r);
    var attempt := r.counters.activationAttempts + 1;
    var counters := r.counters.(activationAttempts := attempt, availableAt := availableAt);
    var limit := if r.counters.maxActivation < configuredMax then r.counters.maxActivation else configuredMax;
    if attempt >= limit {
      RunningEndsKeeps(db, claim.id, r.(status := Failed, lease := None, counters := counters),
                       ChildFailed("activation"), now);
    } else {
      RowStepKeeps(db, claim.id, r.(status := Ready, lease := None, counters := counters));
    }
  }

  lemma CancelledActivityOk(r: Activity, outcome: AttemptOutcome)
    requires ActivityOk(r)
    ensures ActivityOk(CancelledActivity(r, outcome)) && ActivityEvolves(r, CancelledActivity(r, outcome))
  {
    SameActivityOk(r, CancelledActivity(r, outcome));
  }

  /** The activities of a row that is cancelled with them. */
  lemma CancelledOwnRows(db: Db, db': Db, w: nat, clearWait: bool, outcome: AttemptOutcome)
    requires RowsOk(db) && Live(db.workflows, w) && w in db'.workflows
    requires db'.workflows[w] == CancelledRow(db.workflows[w], clearWait)
    requires db'.activities == CancelActivities(db.activities, w, outcome)
    ensures OwnRowsOk(db', w) && ActivitiesSettle(db, db')
  {
    assert WorkflowOk(db.workflows[w]);
    forall a | a in db.activities
      ensures ActivityOk(db'.activities[a]) && ActivityEvolves(db.activities[a], db'.activities[a])
    {
      assert ActivityOk(db.activities[a]);
      CancelledActivityOk(db.activities[a], outcome);
    }
    forall a | a in db'.activities && db'.activities[a].origin.workflow == w ensures CoupledOk(db', a) {
      assert CoupledOk(db, a);
      CancelledCoupled(db, db', w, a, outcome);
    }
  }

  lemma CancelledCoupled(db: Db, db': Db, w: nat, a: nat, outcome: AttemptOutcome)
    requires a in db.activities && db.activities[a].origin.workflow == w && CoupledOk(db, a)
    requires a in db'.activities && db'.activities[a] == CancelledActivity(db.activities[a], outcome)
    requires w in db'.workflows && db'.workflows[w].status.Terminal()
    requires db'.workflows[w].command == db.workflows[w].command
    ensures CoupledOk(db', a)
  {
  }

  lemma CancelOneKeeps(db: Db, w: nat, outcome: AttemptOutcome, now: int)
    requires Inv(db) && Live(db.workflows, w)
    ensures Inv(CancelOne(db, w, outcome, now))
  {
    var db' := CancelOne(db, w, outcome, now);
    assert db'.workflows[w] == CancelledRow(db.workflows[w], true);
    CancelledOwnRows(db, db', w, true, outcome);
    CancelOneEnds(db, w, outcome, now);
    EndsKeeps(db, db', w, ChildFailed("child_cancelled"), now);
  }

  lemma CancelOneEnds(db: Db, w: nat, outcome: AttemptOutcome, now: int)
    requires Live(db.workflows, w)
    ensures Ends(db, CancelOne(db, w, outcome, now), w, ChildFailed("child_cancelled"), now)
  {
  }

  lemma {:induction false} CancelAllKeeps(db: Db, order: seq<nat>, outcome: AttemptOutcome, now: int)
    requires Inv(db)
    ensures Inv(CancelAll(db, order, outcome, now))
    decreases |order|
  {
    if order != [] {
      if Live(db.workflows, order[0]) {
        CancelOneKeeps(db, order[0], outcome, now);
        CancelAllKeeps(CancelOne(db, order[0], outcome, now), order[1..], outcome, now);
      } else {
        CancelAllKeeps(db, order[1..], outcome, now);
      }
    }
  }

  lemma CancelKeeps(db: Db, w: nat, order: seq<nat>, outcome: AttemptOutcome, now: int)
    requires Inv(db) && Cancel(db, w, order, outcome, now).Commit?
    ensures Inv(Cancel(db, w, order, outcome, now).db)
  {
    CancelOneKeeps(db, w, outcome, now);
    CancelAllKeeps(CancelOne(db, w, outcome, now), order, outcome, now);
  }
}
