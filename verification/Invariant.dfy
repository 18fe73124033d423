/** What every reachable database satisfies, and what follows from it. */
module Invariant {
  import opened Rows
  import opened Transactions

  // ---- Workflow rows on their own -------------------------------------------

  /** The event a row has not consumed answers the command the row issued last. */
  ghost predicate Answers(e: Event, r: Workflow) {
    match e
    case Started => r.command == 0
    case Continued => true
    case ActivityDone(c, d) => c == r.command && r.asked.AskActivity? && (d == r.asked.definition || r.corrected)
    case ChildDone(c, d, _) => c == r.command && r.asked == AskChild(d)
    case TimerFired(c) => c == r.command && r.asked.AskTimer?
    case ApprovalGiven(c) => c == r.command && r.asked.AskApproval?
    case ApprovalLapsed(c) => c == r.command && r.asked.AskApproval?
  }

  /** The wait columns fit the status. Terminal rows may keep stale ones. */
  ghost predicate WaitFits(r: Workflow) {
    match r.status
    case Ready | Running => r.wait.NoWait?
    case WaitingActivity | Blocked => r.wait.OnActivity?
    case WaitingChild => r.wait.OnChild?
    case Sleeping => r.wait == OnTimer(r.command)
    case WaitingApproval => r.wait.OnApproval?
    case Paused => r.wait.OnTimer? ==> r.wait == OnTimer(r.command)
    case Succeeded | Failed | Cancelled => true
  }

  /** A row waits on what its last command asked for. */
  ghost predicate AskFits(r: Workflow) {
    match r.wait
    case NoWait => true
    case OnTimer(_) => r.asked.AskTimer?
    case OnActivity(_) => r.asked.AskActivity?
    case OnChild(_) => r.asked.AskChild?
    case OnApproval(_) => r.asked.AskApproval?
  }

  /** Deliveries are numbered 1, 2, ... without gaps, and the row has consumed
      all of them but the one its status expects. */
  ghost predicate InboxFits(r: Workflow) {
    && (forall i :: 0 <= i < |r.inbox| ==> r.inbox[i].sequence == i + 1)
    && (if r.status.Terminal() then r.delivered <= |r.inbox| <= r.delivered + 1
        else |r.inbox| == r.delivered + (if r.Expecting() then 1 else 0))
    && (|r.inbox| == r.delivered + 1 ==> Answers(r.inbox[r.delivered].event, r))
  }

  ghost predicate WorkflowOk(r: Workflow) {
    && (r.status.Running? <==> r.lease.Some?)
    && WaitFits(r)
    && (!r.status.Terminal() ==> AskFits(r))
    && InboxFits(r)
  }

  ghost predicate WorkflowsOk(db: Db) {
    forall w {:trigger WorkflowOk(db.workflows[w])} :: w in db.workflows ==> WorkflowOk(db.workflows[w])
  }

  // ---- Links ---------------------------------------------------------------

  /** Links name older rows; a restarted row is terminal and of the same kind. */
  ghost predicate LinkOk(workflows: map<nat, Workflow>, w: nat)
    requires w in workflows
  {
    var r := workflows[w].identity;
    && (r.parent.Some? ==> r.parent.value in workflows && r.parent.value < w)
    && (r.restartedFrom.Some? ==>
          && r.restartedFrom.value in workflows
          && r.restartedFrom.value < w
          && r.parent.None? && r.key.None?
          && workflows[r.restartedFrom.value].status.Terminal()
          && workflows[r.restartedFrom.value].identity.definition.kind == r.definition.kind)
  }

  ghost predicate LinksOk(workflows: map<nat, Workflow>) {
    forall w {:trigger LinkOk(workflows, w)} :: w in workflows ==> LinkOk(workflows, w)
  }

  ghost predicate DistinctKeys(i: Identity, j: Identity) {
    && (i.key.Some? && i.key == j.key ==> i.definition.kind != j.definition.kind)
    && (i.restartedFrom.Some? ==> i.restartedFrom != j.restartedFrom)
  }

  /** `(kind, key)` and the restart source are unique. */
  ghost predicate KeysUnique(workflows: map<nat, Workflow>) {
    forall v, w {:trigger DistinctKeys(workflows[v].identity, workflows[w].identity)} ::
      v in workflows && w in workflows && v != w ==>
      DistinctKeys(workflows[v].identity, workflows[w].identity)
  }

  // ---- Waits ---------------------------------------------------------------

  ghost predicate ActivityWaitOk(db: Db, w: nat, a: nat)
    requires w in db.workflows
  {
    var r := db.workflows[w];
    && a in db.activities
    && db.activities[a].origin.workflow == w
    && db.activities[a].origin.command == r.command
    && (r.asked == AskActivity(db.activities[a].origin.spec.definition) || r.corrected)
    && (r.status.Blocked? ==> db.activities[a].status.ActDeadLettered?)
    && (r.status.WaitingActivity? ==>
          db.activities[a].status.ActPending? || db.activities[a].status.HoldsSlot())
    && (r.status.Paused? ==>
          || db.activities[a].status.ActPending?
          || db.activities[a].status.ActCancelling?
          || db.activities[a].status.ActDeadLettered?)
  }

  /** A live row waits on what can still answer it. */
  ghost predicate WaitOk(db: Db, w: nat)
    requires w in db.workflows
  {
    var r := db.workflows[w];
    r.status.Terminal() ||
    match r.wait
    case NoWait => true
    case OnTimer(_) => true
    case OnActivity(a) => ActivityWaitOk(db, w, a)
    case OnChild(c) =>
      Live(db.workflows, c) && r.asked == AskChild(db.workflows[c].identity.definition)
    case OnApproval(p) =>
      && p in db.approvals
      && db.approvals[p].workflow == w
      && db.approvals[p].command == r.command
      && db.approvals[p].definition == r.identity.definition
      && db.approvals[p].status.ApprovalPending?
  }

  ghost predicate WaitsOk(db: Db) {
    forall w {:trigger WaitOk(db, w)} :: w in db.workflows ==> WaitOk(db, w)
  }

  /** Neither a live row nor a paused one waits on itself or on a row above it. */
  ghost predicate NoAncestorWaits(workflows: map<nat, Workflow>) {
    forall w :: w in workflows && !workflows[w].status.Terminal() && workflows[w].wait.OnChild? ==>
      !Reaches(workflows, w, workflows[w].wait.child)
  }

  // ---- Activities ----------------------------------------------------------

  /** Attempts are numbered 1 to `attemptCount`; one is open exactly while the
      row holds a lease, it is the last one and carries the lease token. */
  ghost predicate AttemptsOk(r: Activity) {
    && (r.status.HoldsSlot() <==> r.lease.Some?)
    && (forall n :: n in r.attempts <==> 1 <= n <= r.attemptCount)
    && (forall n :: n in r.attempts && r.attempts[n].finished.None? ==> r.lease.Some? && n == r.attemptCount)
    && (r.lease.Some? ==> r.OpenAttempt(r.attemptCount, r.lease.value.token))
  }

  /** A pause grants the attempt it revoked. */
  ghost predicate BudgetOk(r: Activity) {
    && r.maxAttempts == r.origin.spec.maxAttempts + r.pauses
    && (r.status.ActPending? ==> r.attemptCount < r.maxAttempts)
    && (r.status.HoldsSlot() ==> 1 <= r.attemptCount <= r.maxAttempts)
    && (r.status.ActCancelling? ==> r.revoked.Some?)
  }

  ghost predicate ActivityOk(r: Activity) {
    AttemptsOk(r) && BudgetOk(r)
  }

  ghost predicate ActivitiesOk(activities: map<nat, Activity>) {
    forall a {:trigger ActivityOk(activities[a])} :: a in activities ==> ActivityOk(activities[a])
  }

  /** A row that can still run is the one its workflow waits on; one that was
      revoked may outlive its workflow. */
  ghost predicate CoupledOk(db: Db, a: nat)
    requires a in db.activities
  {
    var r := db.activities[a];
    && r.origin.workflow in db.workflows
    && r.origin.command <= db.workflows[r.origin.workflow].command
    && (r.status.ActRunning? ==> WaitsOnActivity(db, r.origin.workflow, a))
    && (r.status.ActPending? || (r.status.ActCancelling? && !db.workflows[r.origin.workflow].status.Terminal()) ==>
          && (db.workflows[r.origin.workflow].status.WaitingActivity? || db.workflows[r.origin.workflow].status.Paused?)
          && db.workflows[r.origin.workflow].wait == OnActivity(a))
    && (r.status.ActCancelling? && !db.workflows[r.origin.workflow].status.Terminal() ==>
          r.attemptCount < r.maxAttempts)
  }

  ghost predicate CouplingOk(db: Db) {
    forall a {:trigger CoupledOk(db, a)} :: a in db.activities ==> CoupledOk(db, a)
  }

  /** Two rows of one command have different replacement numbers, and the earlier one gave up. */
  ghost predicate SiblingsOk(a: Activity, b: Activity) {
    a.origin.workflow == b.origin.workflow && a.origin.command == b.origin.command ==>
      && a.origin.replacement != b.origin.replacement
      && (a.origin.replacement < b.origin.replacement ==> a.status.ActDeadLettered? || a.status.ActCancelled?)
  }

  /** The rows of one command are its replacements in order: each earlier one
      gave up, and a waiting workflow waits on the last. */
  ghost predicate ReplacementsOk(db: Db) {
    && (forall a, b {:trigger SiblingsOk(db.activities[a], db.activities[b])} ::
          a in db.activities && b in db.activities && a != b ==>
          SiblingsOk(db.activities[a], db.activities[b]))
    && (forall w, a {:trigger WaitsOnLastOf(db, w, a)} ::
          w in db.workflows && a in db.activities && WaitsOnLastOf(db, w, a) ==>
          db.activities[a].origin.replacement <= db.activities[db.workflows[w].wait.activity].origin.replacement)
  }

  /** `a` is a row of the command that the live row `w` waits for an activity of. */
  ghost predicate WaitsOnLastOf(db: Db, w: nat, a: nat)
    requires w in db.workflows && a in db.activities
  {
    && !db.workflows[w].status.Terminal()
    && db.workflows[w].wait.OnActivity?
    && db.workflows[w].wait.activity in db.activities
    && db.activities[a].origin.workflow == w
    && db.activities[a].origin.command == db.workflows[w].command
  }

  /** What concerns rows and the rows they wait on. */
  ghost predicate RowsOk(db: Db) {
    && WorkflowsOk(db)
    && WaitsOk(db)
    && ActivitiesOk(db.activities)
    && CouplingOk(db)
  }

  /** What concerns parents, generations and keys. */
  ghost predicate LineageOk(workflows: map<nat, Workflow>) {
    && LinksOk(workflows)
    && KeysUnique(workflows)
    && NoAncestorWaits(workflows)
  }

  ghost predicate Inv(db: Db) {
    && RowsOk(db)
    && LineageOk(db.workflows)
    && ReplacementsOk(db)
  }
}
