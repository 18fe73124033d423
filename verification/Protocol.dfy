/** Every transaction but a claim leaves the leases of others alone, and keeps the
    database invariant. */
module Protocol {
  import opened Rows
  import opened Transactions
  import opened Invariant
  import opened Preservation
  import opened Commits
  import opened Lineage
  import opened System

  // ---- What transactions other than claims do to leased rows ---------------------------

  /** The row keeps its lease: it enters no slot, and leaves one only if it is released here. */
  ghost predicate SlotKept(r: Activity, r': Activity, released: bool) {
    && r'.origin == r.origin
    && (r'.status.HoldsSlot() ==>
          && r.status.HoldsSlot() && r'.lease == r.lease && r'.attemptCount == r.attemptCount
          && (r'.status.ActRunning? ==> r.status.ActRunning? && r'.maxAttempts == r.maxAttempts))
    && (r.status.HoldsSlot() && !released ==> r'.status.HoldsSlot())
  }

  ghost predicate ActivitiesCalm(db: Db, db': Db, released: set<nat>) {
    && (forall a :: a in db.activities ==>
          a in db'.activities && SlotKept(db.activities[a], db'.activities[a], a in released))
    && (forall a :: a in db'.activities && a !in db.activities ==> !db'.activities[a].status.HoldsSlot())
  }

  /** A row that is running was running and has not changed. */
  ghost predicate WorkflowsCalm(ws: map<nat, Workflow>, ws': map<nat, Workflow>) {
    forall w :: w in ws' && ws'[w].status.Running? ==> w in ws && ws[w] == ws'[w]
  }

  /** Nothing was claimed. */
  ghost predicate Calm(db: Db, db': Db, released: set<nat>) {
    ActivitiesCalm(db, db', released) && WorkflowsCalm(db.workflows, db'.workflows)
  }

  lemma CalmTransitive(a: Db, b: Db, c: Db)
    requires Calm(a, b, {}) && Calm(b, c, {})
    ensures Calm(a, c, {})
  {
    forall x | x in a.activities ensures x in c.activities && SlotKept(a.activities[x], c.activities[x], x in {}) {
      assert SlotKept(a.activities[x], b.activities[x], x in {}) && SlotKept(b.activities[x], c.activities[x], x in {});
    }
  }

  lemma CancelOneCalm(db: Db, w: nat, outcome: AttemptOutcome, now: int)
    requires w in db.workflows
    ensures Calm(db, CancelOne(db, w, outcome, now), {})
  {
    CancelActivitiesCalm(db.activities, w, outcome);
    var ws' := CancelOne(db, w, outcome, now).workflows;
    forall v | v in ws' && ws'[v].status.Running? ensures v in db.workflows && db.workflows[v] == ws'[v] {
    }
  }

  lemma CancelActivitiesCalm(acts: map<nat, Activity>, w: nat, outcome: AttemptOutcome)
    ensures forall a :: a in acts ==>
      SlotKept(acts[a], CancelActivities(acts, w, outcome)[a], a in {})
  {
    forall a | a in acts ensures SlotKept(acts[a], CancelActivities(acts, w, outcome)[a], a in {}) {
      assert CancelActivities(acts, w, outcome)[a] ==
        if acts[a].origin.workflow == w then CancelledActivity(acts[a], outcome) else acts[a];
    }
  }

  lemma {:induction false} CancelAllCalm(db: Db, order: seq<nat>, outcome: AttemptOutcome, now: int)
    ensures Calm(db, CancelAll(db, order, outcome, now), {})
    decreases |order|
  {
    if order != [] {
      if Live(db.workflows, order[0]) {
        var db1 := CancelOne(db, order[0], outcome, now);
        CancelOneCalm(db, order[0], outcome, now);
        CancelAllCalm(db1, order[1..], outcome, now);
        CalmTransitive(db, db1, CancelAll(db1, order[1..], outcome, now));
      } else {
        CancelAllCalm(db, order[1..], outcome, now);
      }
    }
  }

  lemma SupersedeCalm(db: Db, w: nat, id: nat, definition: Definition, now: int)
    requires w in db.workflows && id !in db.workflows
    ensures Calm(db, Supersede(db, w, id, definition, now), {})
  {
  }

  lemma RecoverCalm(db: Db, latest: nat, id: nat, definition: Definition, now: int)
    requires latest in db.workflows && id !in db.workflows
    ensures Calm(db, Recover(db, latest, id, definition, now), {})
  {
    DeadLettersCalm(db.activities, latest);
    var ws' := Recover(db, latest, id, definition, now).workflows;
    forall w | w in ws' && ws'[w].status.Running? ensures w in db.workflows && db.workflows[w] == ws'[w] {
    }
  }

  lemma DeadLettersCalm(acts: map<nat, Activity>, w: nat)
    ensures forall a :: a in acts ==> SlotKept(acts[a], CancelDeadLetters(acts, w)[a], a in {})
  {
  }

  /** A cascade after a calm change. */
  lemma ThenCancelAllCalm(db: Db, db1: Db, order: seq<nat>, outcome: AttemptOutcome, now: int)
    requires Calm(db, db1, {})
    ensures Calm(db, CancelAll(db1, order, outcome, now), {})
  {
    CancelAllCalm(db1, order, outcome, now);
    CalmTransitive(db, db1, CancelAll(db1, order, outcome, now));
  }

  lemma RecoverableStartCalm(db: Db, lookup: Option<nat>, id: nat, definition: Definition, key: Key,
                             order: seq<nat>, now: int)
    requires id !in db.workflows && (lookup.Some? ==> lookup.value in db.workflows)
    ensures var (_, tx) := RecoverableStart(db, lookup, id, definition, key, order, now);
      tx.Commit? && Calm(db, tx.db, {})
  {
    if lookup.Some? {
      var latest := Newest(db.workflows, lookup.value);
      RecoverCalm(db, latest, id, definition, now);
      ThenCancelAllCalm(db, Recover(db, latest, id, definition, now), order, AttemptApplicationCancelled, now);
    }
  }

  lemma CancelCalm(db: Db, w: nat, order: seq<nat>, outcome: AttemptOutcome, now: int)
    requires Cancel(db, w, order, outcome, now).Commit?
    ensures Calm(db, Cancel(db, w, order, outcome, now).db, {})
  {
    CancelOneCalm(db, w, outcome, now);
    ThenCancelAllCalm(db, CancelOne(db, w, outcome, now), order, outcome, now);
  }

  lemma RestartCalm(db: Db, w: nat, id: nat, version: int, order: seq<nat>, now: int)
    requires Restart(db, w, id, version, order, now).Commit? && id !in db.workflows
    ensures Calm(db, Restart(db, w, id, version, order, now).db, {})
  {
    var definition := Definition(db.workflows[w].identity.definition.kind, version);
    SupersedeCalm(db, w, id, definition, now);
    ThenCancelAllCalm(db, Supersede(db, w, id, definition, now), order, AttemptOperatorCancelled, now);
  }

  lemma PauseCalm(db: Db, w: nat)
    requires Pause(db, w).Commit?
    ensures Calm(db, Pause(db, w).db, {})
  {
  }

  lemma ControlCalm(db: Db, w: nat, now: int)
    ensures Resume(db, w, now).Commit? ==> Calm(db, Resume(db, w, now).db, {})
    ensures RecoverLease(db, w, now).Commit? ==> Calm(db, RecoverLease(db, w, now).db, {})
    ensures FireTimer(db, w, now).Commit? ==> Calm(db, FireTimer(db, w, now).db, {})
  {
  }

  lemma ApprovalCalm(db: Db, p: nat, now: int)
    ensures ExpireApproval(db, p, now).Commit? ==> Calm(db, ExpireApproval(db, p, now).db, {})
    ensures ResolveApproval(db, p, now).Commit? ==> Calm(db, ResolveApproval(db, p, now).db, {})
  {
  }

  lemma StartCalm(db: Db, id: nat, definition: Definition, key: Option<Key>, availableAt: int)
    requires id !in db.workflows
    ensures Calm(db, Start(db, id, definition, key, availableAt).db, {})
  {
  }

  lemma RetryCalm(db: Db, a: nat, id: nat, spec: ActivitySpec, now: int)
    requires Retry(db, a, id, spec, now).Commit? && id !in db.activities
    ensures Calm(db, Retry(db, a, id, spec, now).db, {})
  {
  }

  lemma PerformCalm(db: Db, action: Action, now: int)
    requires Inv(db) && Allowed(db, action, now) && Perform(db, action, now).Commit?
    ensures Calm(db, Perform(db, action, now).db, {})
  {
    match action
    case DoStart(id, definition, key, availableAt) => StartCalm(db, id, definition, key, availableAt);
    case DoRecoverableStart(lookup, id, definition, key, order) =>
      RecoverableStartCalm(db, lookup, id, definition, key, order, now);
    case DoCancel(w, order, outcome) => CancelCalm(db, w, order, outcome, now);
    case DoRestart(w, id, version, order) => RestartCalm(db, w, id, version, order, now);
    case DoRecoverLease(w) => ControlCalm(db, w, now);
    case DoPause(w) => PauseCalm(db, w);
    case DoResume(w) => ControlCalm(db, w, now);
    case DoRetry(a, id, spec) => RetryCalm(db, a, id, spec, now);
    case DoFireTimer(w) => ControlCalm(db, w, now);
    case DoExpireApproval(p) => ApprovalCalm(db, p, now);
    case DoResolveApproval(p) => ApprovalCalm(db, p, now);
  }

  lemma PerformKeeps(db: Db, action: Action, now: int)
    requires Inv(db) && Allowed(db, action, now) && Perform(db, action, now).Commit?
    ensures Inv(Perform(db, action, now).db)
  {
    match action
    case DoStart(id, definition, key, availableAt) => StartKeeps(db, id, definition, key, availableAt);
    case DoRecoverableStart(lookup, id, definition, key, order) =>
      RecoverableStartKeeps(db, lookup, id, definition, key, order, now);
    case DoCancel(w, order, outcome) => CancelKeeps(db, w, order, outcome, now);
    case DoRestart(w, id, version, order) => RestartKeeps(db, w, id, version, order, now);
    case DoRecoverLease(w) => RecoverLeaseKeeps(db, w, now);
    case DoPause(w) => PauseKeeps(db, w);
    case DoResume(w) => ResumeKeeps(db, w, now);
    case DoRetry(a, id, spec) => RetryKeeps(db, a, id, spec, now);
    case DoFireTimer(w) => FireTimerKeeps(db, w, now);
    case DoExpireApproval(p) => ExpireApprovalKeeps(db, p, now);
    case DoResolveApproval(p) => ResolveApprovalKeeps(db, p, now);
  }

  lemma TransitionKeeps(db: Db, claim: WorkflowClaim, consumed: nat, t: Transition, now: int)
    requires Inv(db) && CacheAgrees(db, claim, consumed) && TransitionAllowed(db, claim, t)
    requires CommitTransition(db, claim, consumed, t, now).Commit?
    ensures Inv(CommitTransition(db, claim, consumed, t, now).db)
  {
    match t
    case RunChild(_, _, _) => RunChildKeeps(db, claim, consumed, t, now);
    case RunActivity(_, _, _) => RunActivityKeeps(db, claim, consumed, t, now);
    case Complete => CompleteKeeps(db, claim, consumed, now);
    case Continue(_, _) => ContinueKeeps(db, claim, consumed, t, now);
    case SleepUntil(_) => SleepKeeps(db, claim, consumed, t, now);
    case WaitForApproval(_, _) => AskApprovalKeeps(db, claim, consumed, t, now);
  }

  lemma TransitionCalm(db: Db, claim: WorkflowClaim, consumed: nat, t: Transition, now: int)
    requires TransitionAllowed(db, claim, t)
    requires CommitTransition(db, claim, consumed, t, now).Commit?
    ensures Calm(db, CommitTransition(db, claim, consumed, t, now).db, {})
  {
    if t.RunChild? { ChildCalm(db, claim, consumed, t, now); }
  }

  lemma ChildCalm(db: Db, claim: WorkflowClaim, consumed: nat, t: Transition, now: int)
    requires t.RunChild? && t.id !in db.workflows && CommitChild(db, claim, consumed, t, now).Commit?
    ensures Calm(db, CommitChild(db, claim, consumed, t, now).db, {})
  {
    var db' := CommitChild(db, claim, consumed, t, now).db;
    assert db'.activities == db.activities;
    forall w | w in db'.workflows && db'.workflows[w].status.Running?
      ensures w in db.workflows && db.workflows[w] == db'.workflows[w]
    {
    }
  }

  lemma FailureCalm(db: Db, claim: WorkflowClaim, configuredMax: nat, availableAt: int, now: int)
    requires ActivationFailure(db, claim, configuredMax, availableAt, now).Commit?
    ensures Calm(db, ActivationFailure(db, claim, configuredMax, availableAt, now).db, {})
  {
  }

  lemma FinishCalm(db: Db, claim: ActivityClaim, outcome: HandlerOutcome, now: int)
    requires Finish(db, claim, outcome, now).Commit?
    ensures Calm(db, Finish(db, claim, outcome, now).db, {claim.activity})
  {
  }
}
