/** The transactions of the engine, each as a function from the database it
    sees to what it commits. A transaction that fails commits nothing.

    Identifiers of new rows and lease tokens are arguments (the database and
    the random source choose them), and so are sampled clock values, delays
    and the decisions of user code. */
module Transactions {
  import opened Rows

  const DEFAULT_MAX_ACTIVATION := 8

  // ---- Lineage -------------------------------------------------------------

  predicate HasKey(r: Workflow, kind: string, key: Key) {
    r.identity.definition.kind == kind && r.identity.key == Some(key)
  }

  /** The row that holds `(kind, key)`. */
  ghost function FindByKey(workflows: map<nat, Workflow>, kind: string, key: Key): (hit: Option<nat>)
    ensures hit.Some? ==> hit.value in workflows && HasKey(workflows[hit.value], kind, key)
    ensures hit.None? ==> forall w :: w in workflows ==> !HasKey(workflows[w], kind, key)
  {
    if w :| w in workflows && HasKey(workflows[w], kind, key) then Some(w) else None
  }

  /** The generation that restarted `w`. */
  ghost function Successor(workflows: map<nat, Workflow>, w: nat): (s: Option<nat>)
    ensures s.Some? ==> s.value in workflows && workflows[s.value].identity.restartedFrom == Some(w)
    ensures s.None? ==> forall v :: v in workflows ==> workflows[v].identity.restartedFrom != Some(w)
  {
    if v :| v in workflows && workflows[v].identity.restartedFrom == Some(w) then Some(v) else None
  }

  function Younger(workflows: map<nat, Workflow>, w: nat): set<nat> {
    set v | v in workflows && v > w
  }

  /** The newest generation of the restart chain through `w`. Links name
      older rows, so the walk from a row leads to ever younger rows. */
  ghost function Newest(workflows: map<nat, Workflow>, w: nat): (n: nat)
    ensures w in workflows ==> n in workflows
    decreases |Younger(workflows, w)|
  {
    var s := Successor(workflows, w);
    if s.Some? && s.value > w then
      assert Younger(workflows, s.value) < Younger(workflows, w) by {
        assert s.value in Younger(workflows, w);
      }
      ProperSubsetIsSmaller(Younger(workflows, s.value), Younger(workflows, w));
      Newest(workflows, s.value)
    else w
  }

  lemma ProperSubsetIsSmaller(a: set<nat>, b: set<nat>)
    requires a < b
    ensures |a| < |b|
  {
    var extra := b - a;
    assert b == a + extra;
    assert extra != {};
  }

  /** Whether `target` is `w` or a row above it. */
  predicate Reaches(workflows: map<nat, Workflow>, w: nat, target: nat)
    decreases w
  {
    || w == target
    || (&& w in workflows
        && workflows[w].identity.Above().Some?
        && workflows[w].identity.Above().value < w
        && Reaches(workflows, workflows[w].identity.Above().value, target))
  }

  // ---- Starting ------------------------------------------------------------

  function NewWorkflow(definition: Definition, key: Option<Key>, parent: Option<nat>,
                       parentCommand: nat, restartedFrom: Option<nat>, availableAt: int): Workflow
  {
    Workflow(Identity(definition, key, parent, parentCommand, restartedFrom), Ready, NoWait, 0, 0,
             [Delivery(1, Started)], None, Counters(1, 0, 0, DEFAULT_MAX_ACTIVATION, availableAt), AskNothing, false)
  }

  function InsertWorkflow(db: Db, id: nat, row: Workflow): Db {
    db.(workflows := db.workflows[id := row])
  }

  /** A start by an application: the row that already holds the key, or a new one. */
  ghost function Start(db: Db, id: nat, definition: Definition, key: Option<Key>, availableAt: int): Tx {
    if key.Some? && FindByKey(db.workflows, definition.kind, key.value).Some? then
      Commit(db)
    else
      Commit(InsertWorkflow(db, id, NewWorkflow(definition, key, None, 0, None, availableAt)))
  }

  // ---- Waking parents ------------------------------------------------------

  /** The row of a waiter that received `event` and stopped waiting. A paused
      waiter stays paused. */
  function Woken(r: Workflow, event: Event, now: int): Workflow {
    r.(inbox := r.inbox + [Delivery(r.delivered + 1, event)],
       status := if r.status.Paused? then Paused else Ready,
       wait := NoWait,
       counters := r.counters.(availableAt := now))
  }

  function WokenByChild(r: Workflow, child: Definition, outcome: ChildOutcome, now: int): Workflow {
    Woken(r, ChildDone(r.command, child, outcome), now)
  }

  /** Delivers the outcome of `child`, whose definition is `definition`, to every row waiting on it. */
  function WakeParents(workflows: map<nat, Workflow>, child: nat, definition: Definition,
                       outcome: ChildOutcome, now: int): map<nat, Workflow>
  {
    map w | w in workflows ::
      if workflows[w].WaitsOnChild(child)
      then WokenByChild(workflows[w], definition, outcome, now)
      else workflows[w]
  }

  /** Moves the waiters of `superseded` to `successor`. */
  function RepointParents(workflows: map<nat, Workflow>, superseded: nat, successor: nat): map<nat, Workflow> {
    map w | w in workflows ::
      if workflows[w].WaitsOnChild(superseded)
      then workflows[w].(wait := OnChild(successor))
      else workflows[w]
  }

  // ---- Cancelling ----------------------------------------------------------

  function CancelledActivity(r: Activity, outcome: AttemptOutcome): Activity {
    match r.status
    case ActRunning | ActCancelling => r.(status := ActCancelling, revoked := Some(outcome))
    case ActPending => r.(status := ActCancelled, lease := None)
    case ActSucceeded | ActDeadLettered | ActCancelled => r
  }

  function CancelActivities(activities: map<nat, Activity>, w: nat, outcome: AttemptOutcome): map<nat, Activity> {
    map a | a in activities ::
      if activities[a].origin.workflow == w then CancelledActivity(activities[a], outcome) else activities[a]
  }

  function CancelApprovals(approvals: map<nat, Approval>, w: nat): map<nat, Approval> {
    map p | p in approvals ::
      if approvals[p].workflow == w && approvals[p].status.ApprovalPending?
      then approvals[p].(status := ApprovalCancelled)
      else approvals[p]
  }

  /** Ends `w` as cancelled. Only a plain cancel clears its wait columns. */
  function CancelledRow(r: Workflow, clearWait: bool): Workflow {
    r.(status := Cancelled, wait := if clearWait then NoWait else r.wait, lease := None)
  }

  /** Cancels `w` alone: its activities, its approvals, its row, and the wake of its waiters. */
  function CancelOne(db: Db, w: nat, outcome: AttemptOutcome, now: int): Db
    requires w in db.workflows
  {
    Db(WakeParents(db.workflows[w := CancelledRow(db.workflows[w], true)], w, db.workflows[w].identity.definition,
                   ChildFailed("child_cancelled"), now),
       CancelActivities(db.activities, w, outcome),
       CancelApprovals(db.approvals, w))
  }

  predicate Live(workflows: map<nat, Workflow>, w: nat) {
    w in workflows && !workflows[w].status.Terminal()
  }

  /** Cancels the live rows of `order` one after another. */
  function CancelAll(db: Db, order: seq<nat>, outcome: AttemptOutcome, now: int): (r: Db)
    ensures r.workflows.Keys == db.workflows.Keys
    decreases |order|
  {
    if order == [] then db
    else if Live(db.workflows, order[0]) then
      CancelAll(CancelOne(db, order[0], outcome, now), order[1..], outcome, now)
    else CancelAll(db, order[1..], outcome, now)
  }

  /** A child started by `p` under the key the engine generates. */
  predicate OwnedBy(r: Workflow, p: nat) {
    r.identity.parent == Some(p) && r.identity.key == Some(AutoChild(p, r.identity.parentCommand))
  }

  /** `g` is on the restart chain that starts at an owned child of `p`. */
  predicate OwnedGeneration(workflows: map<nat, Workflow>, p: nat, g: nat)
    decreases g
  {
    && g in workflows
    && (|| OwnedBy(workflows[g], p)
        || (&& workflows[g].identity.restartedFrom.Some?
            && workflows[g].identity.restartedFrom.value < g
            && OwnedGeneration(workflows, p, workflows[g].identity.restartedFrom.value)))
  }

  /** `g` is a live generation of an owned child of `p`. */
  predicate LiveOwned(workflows: map<nat, Workflow>, p: nat, g: nat) {
    OwnedGeneration(workflows, p, g) && !workflows[g].status.Terminal()
  }

  /** `chosen` holds every live owned generation of `root` and of its own members. */
  ghost predicate Closed(workflows: map<nat, Workflow>, root: nat, chosen: set<nat>) {
    forall p, g :: (p == root || p in chosen) && LiveOwned(workflows, p, g) ==> g in chosen
  }

  /** `chosen` is the least closed set. */
  ghost predicate LeastClosed(workflows: map<nat, Workflow>, root: nat, chosen: set<nat>) {
    && Closed(workflows, root, chosen)
    && forall other: set<nat> :: Closed(workflows, root, other) ==> chosen <= other
  }

  /** `order` lists the cascade of `root`: each member of the least closed set once. */
  ghost predicate CascadeOrder(workflows: map<nat, Workflow>, root: nat, order: seq<nat>) {
    && LeastClosed(workflows, root, set i | 0 <= i < |order| :: order[i])
    && forall i, j :: 0 <= i < j < |order| ==> order[i] != order[j]
  }

  /** An operator or application cancel. `order` lists the rows the cascade visits. */
  function Cancel(db: Db, w: nat, order: seq<nat>, outcome: AttemptOutcome, now: int): Tx {
    if w !in db.workflows then Abort(NotFound)
    else if db.workflows[w].status.Terminal() then Abort(Conflict)
    else Commit(CancelAll(CancelOne(db, w, outcome, now), order, outcome, now))
  }

  // ---- Recovery and restart ------------------------------------------------

  function CancelDeadLetters(activities: map<nat, Activity>, w: nat): map<nat, Activity> {
    map a | a in activities ::
      if activities[a].origin.workflow == w && activities[a].status.ActDeadLettered?
      then activities[a].(status := ActCancelled, lease := None)
      else activities[a]
  }

  /** A recovery generation `id` of `latest` under `definition`, before the cascade. */
  function Recover(db: Db, latest: nat, id: nat, definition: Definition, now: int): Db
    requires latest in db.workflows
  {
    var source := db.workflows[latest];
    var inserted := db.workflows[id := NewWorkflow(definition, None, None, 0, Some(latest), now)];
    var activities := CancelDeadLetters(db.activities, latest);
    if source.status.Blocked? then
      var ended := inserted[latest := CancelledRow(source, false)];
      var handed := if definition.version == source.identity.definition.version
                    then RepointParents(ended, latest, id)
                    else WakeParents(ended, latest, source.identity.definition, ChildFailed("child_superseded"), now);
      Db(handed, activities, db.approvals)
    else
      Db(inserted, activities, db.approvals)
  }

  /** A recoverable start. `lookup` is the keyed row its first locking read
      found; the row stays locked from there on. Without one, the insert reads
      the key again. Returns the row it names and what it commits. */
  ghost function RecoverableStart(db: Db, lookup: Option<nat>, id: nat, definition: Definition, key: Key,
                                  order: seq<nat>, now: int): (r: (nat, Tx))
    requires lookup.Some? ==> lookup.value in db.workflows
  {
    if lookup.None? then
      var hit := FindByKey(db.workflows, definition.kind, key);
      (if hit.Some? then hit.value else id, Start(db, id, definition, Some(key), now))
    else
      var latest := Newest(db.workflows, lookup.value);
      if !db.workflows[latest].status.StartRecoverable() then (latest, Commit(db))
      else
        var db1 := Recover(db, latest, id, definition, now);
        (id, Commit(if db.workflows[latest].status.Blocked?
                    then CancelAll(db1, order, AttemptApplicationCancelled, now)
                    else db1))
  }

  /** The restart of `w` as `id` under `definition`, before the cascade. */
  function Supersede(db: Db, w: nat, id: nat, definition: Definition, now: int): Db
    requires w in db.workflows
  {
    var source := db.workflows[w];
    var inserted := db.workflows[id := NewWorkflow(definition, None, None, 0, Some(w), now)];
    if source.status.Terminal() then Db(inserted, db.activities, db.approvals)
    else
      Db(WakeParents(inserted[w := CancelledRow(source, false)], w, source.identity.definition,
                     ChildFailed("child_superseded"), now),
         CancelActivities(db.activities, w, AttemptOperatorCancelled),
         CancelApprovals(db.approvals, w))
  }

  /** An operator restart. A correction may change the version, never the kind. */
  ghost function Restart(db: Db, w: nat, id: nat, version: int, order: seq<nat>, now: int): Tx {
    if w !in db.workflows then Abort(NotFound)
    else if !db.workflows[w].status.Restartable() then Abort(Conflict)
    else if Successor(db.workflows, w).Some? then Abort(Conflict)
    else
      var db1 := Supersede(db, w, id, Definition(db.workflows[w].identity.definition.kind, version), now);
      Commit(if db.workflows[w].status.Terminal()
             then db1
             else CancelAll(db1, order, AttemptOperatorCancelled, now))
  }

  // ---- Coordinator ---------------------------------------------------------

  /** Returns an expired lease to the ready queue. */
  function RecoverLease(db: Db, w: nat, now: int): Tx {
    if w !in db.workflows then Abort(NotFound)
    else
      var r := db.workflows[w];
      if r.status.Running? && r.lease.Some? && r.lease.value.expires <= now then
        Commit(db.(workflows := db.workflows[w :=
          r.(status := Ready, counters := r.counters.(availableAt := now), lease := None)]))
      else Abort(FencedWrite)
  }

  function ClaimedRow(r: Workflow, token: nat, expires: int): Workflow {
    r.(status := Running, lease := Some(Lease(token, expires)))
  }

  /** Leases a ready workflow. */
  function ClaimWorkflow(db: Db, w: nat, token: nat, leaseMillis: int, now: int): Tx {
    if w !in db.workflows then Abort(NotFound)
    else
      var r := db.workflows[w];
      if r.status.Ready? && r.counters.availableAt <= now then
        Commit(db.(workflows := db.workflows[w := ClaimedRow(r, token, now + leaseMillis)]))
      else Abort(FencedWrite)
  }

  /** What a coordinator keeps of a claim: the row as it read it, and the
      delivery sequence of the event it loaded since. */
  datatype WorkflowClaim = WorkflowClaim(id: nat, row: Workflow, token: nat, loaded: Option<nat>)

  /** The first delivery after `delivered`. */
  function NextDelivery(inbox: seq<Delivery>, delivered: nat): Option<nat> {
    if inbox == [] then None
    else
      var rest := NextDelivery(inbox[1..], delivered);
      if inbox[0].sequence <= delivered then rest
      else if rest.Some? && rest.value < inbox[0].sequence then rest
      else Some(inbox[0].sequence)
  }

  function NewActivity(origin: Origin, availableAt: int): Activity {
    Activity(origin, ActPending, availableAt, 0, origin.spec.maxAttempts, None, None, map[], 0)
  }

  /** The transition user code asked for. */
  datatype Transition =
    | Continue(maxStreak: nat, availableAt: int)
    | Complete
    | SleepUntil(at: int)
    | WaitForApproval(id: nat, expiresAt: Option<int>)
    | RunActivity(id: nat, spec: ActivitySpec, availableAt: int)
    | RunChild(id: nat, definition: Definition, key: Option<Key>)

  predicate Fenced(db: Db, claim: WorkflowClaim) {
    && claim.id in db.workflows
    && db.workflows[claim.id].status.Running?
    && db.workflows[claim.id].lease.Some?
    && db.workflows[claim.id].lease.value.token == claim.token
  }

  /** The columns every committed transition resets. */
  function Stepped(r: Workflow, consumed: nat): Workflow {
    r.(delivered := consumed, lease := None, counters := r.counters.(streak := 0, activationAttempts := 0))
  }

  function ContinuedRow(r: Workflow, cached: Workflow, consumed: nat, maxStreak: nat, availableAt: int): Workflow {
    var streak := cached.counters.streak + 1;
    r.(status := Ready, delivered := consumed, lease := None,
       inbox := r.inbox + [Delivery(consumed + 1, Continued)],
       counters := Counters(cached.counters.stateVersion + 1, if streak >= maxStreak then 0 else streak, 0,
                            r.counters.maxActivation, availableAt))
  }

  /** The row after a transition that issues a command and waits. */
  function Waiting(r: Workflow, cached: Workflow, consumed: nat, status: WorkflowStatus, wait: Wait,
                   asked: Ask): Workflow
  {
    r.(status := status, wait := wait, command := cached.command + 1, delivered := consumed, lease := None,
       counters := Counters(cached.counters.stateVersion + 1, 0, 0, r.counters.maxActivation, r.counters.availableAt),
       asked := asked, corrected := false)
  }

  /** The outcome stored with a row that has ended. Only activation failures fail a workflow. */
  function TerminalOutcome(r: Workflow): Option<ChildOutcome> {
    match r.status
    case Succeeded => Some(ChildSucceeded)
    case Failed => Some(ChildFailed("activation"))
    case Cancelled => Some(ChildFailed("child_cancelled"))
    case Ready | Running | WaitingActivity | WaitingChild | Sleeping | WaitingApproval | Paused | Blocked => None
  }

  ghost function CommitChild(db: Db, claim: WorkflowClaim, consumed: nat, t: Transition, now: int): Tx
    requires t.RunChild?
  {
    var command := claim.row.command + 1;
    var key := if t.key.Some? then t.key.value else AutoChild(claim.id, command);
    var hit := FindByKey(db.workflows, t.definition.kind, key);
    if hit.None? then
      if !Fenced(db, claim) then Abort(FencedWrite)
      else
        var child := NewWorkflow(t.definition, Some(key), Some(claim.id), command, None, now);
        Commit(db.(workflows := db.workflows
          [t.id := child]
          [claim.id := Waiting(db.workflows[claim.id], claim.row, consumed, WaitingChild, OnChild(t.id),
                               AskChild(t.definition))]))
    else
      var existing := Newest(db.workflows, hit.value);
      var child := db.workflows[existing];
      if child.identity.definition.version != t.definition.version then Abort(DefinitionMismatch)
      else if Reaches(db.workflows, claim.id, existing) then Abort(InvalidDefinition)
      else if !Fenced(db, claim) then Abort(FencedWrite)
      else
        var waiting := db.workflows[claim.id :=
          Waiting(db.workflows[claim.id], claim.row, consumed, WaitingChild, OnChild(existing),
                  AskChild(t.definition))];
        var outcome := TerminalOutcome(child);
        Commit(db.(workflows :=
          if outcome.Some?
          then WakeParents(waiting, existing, child.identity.definition, outcome.value, now)
          else waiting))
  }

  /** Commits the transition of a claimed workflow that consumed delivery `consumed`. */
  ghost function CommitTransition(db: Db, claim: WorkflowClaim, consumed: nat, t: Transition, now: int): Tx {
    if t.RunChild? then CommitChild(db, claim, consumed, t, now)
    else if !Fenced(db, claim) then Abort(FencedWrite)
    else
      var r := db.workflows[claim.id];
      match t
      case Continue(maxStreak, availableAt) =>
        Commit(db.(workflows := db.workflows[claim.id := ContinuedRow(r, claim.row, consumed, maxStreak, availableAt)]))
      case Complete =>
        Commit(db.(workflows :=
          WakeParents(db.workflows[claim.id := Stepped(r, consumed).(status := Succeeded)],
                      claim.id, r.identity.definition, ChildSucceeded, now)))
      case SleepUntil(at) =>
        Commit(db.(workflows := db.workflows[claim.id :=
          Waiting(r, claim.row, consumed, Sleeping, OnTimer(claim.row.command + 1), AskTimer)
          .(counters := Counters(claim.row.counters.stateVersion + 1, 0, 0, r.counters.maxActivation, at))]))
      case WaitForApproval(id, expiresAt) =>
        Commit(Db(db.workflows[claim.id :=
                    Waiting(r, claim.row, consumed, WaitingApproval, OnApproval(id), AskApproval)],
                  db.activities,
                  db.approvals[id := Approval(claim.id, claim.row.command + 1, claim.row.identity.definition,
                                              ApprovalPending, expiresAt)]))
      case RunActivity(id, spec, availableAt) =>
        Commit(Db(db.workflows[claim.id :=
                    Waiting(r, claim.row, consumed, WaitingActivity, OnActivity(id), AskActivity(spec.definition))],
                  db.activities[id := NewActivity(Origin(claim.id, claim.row.command + 1, 0, spec), availableAt)],
                  db.approvals))
  }

  /** Records a failed activation: a later retry, or the end of the workflow. */
  function ActivationFailure(db: Db, claim: WorkflowClaim, configuredMax: nat, availableAt: int, now: int): Tx {
    if !Fenced(db, claim) then Abort(FencedWrite)
    else
      var r := db.workflows[claim.id];
      var attempt := r.counters.activationAttempts + 1;
      var limit := if r.counters.maxActivation < configuredMax then r.counters.maxActivation else configuredMax;
      var ended := r.(status := if attempt >= limit then Failed else Ready, lease := None,
                      counters := r.counters.(activationAttempts := attempt, availableAt := availableAt));
      var workflows := db.workflows[claim.id := ended];
      Commit(db.(workflows :=
        if attempt >= limit
        then WakeParents(workflows, claim.id, r.identity.definition, ChildFailed("activation"), now)
        else workflows))
  }

  // ---- Activities ----------------------------------------------------------

  /** What a worker keeps of an activity claim. */
  datatype ActivityClaim = ActivityClaim(
    activity: nat, workflow: nat, attempt: nat, token: nat, maxAttempts: nat,
    command: nat, definition: Definition, leaseMillis: int)

  predicate Leased(db: Db, claim: ActivityClaim) {
    && claim.activity in db.activities
    && db.activities[claim.activity].status.HoldsSlot()
    && db.activities[claim.activity].attemptCount == claim.attempt
    && db.activities[claim.activity].lease.Some?
    && db.activities[claim.activity].lease.value.token == claim.token
  }

  /** Renews a lease from a clock value sampled when the renewal was sent. */
  function Heartbeat(db: Db, claim: ActivityClaim, sampled: int): Tx {
    if !Leased(db, claim) || !db.activities[claim.activity].OpenAttempt(claim.attempt, claim.token)
    then Abort(FencedWrite)
    else
      Commit(db.(activities := db.activities[claim.activity :=
        db.activities[claim.activity].(lease := Some(Lease(claim.token, sampled + claim.leaseMillis)))]))
  }

  /** The row with attempt `attemptCount` closed and its lease released. */
  function CloseAttempt(r: Activity, status: ActivityStatus, outcome: AttemptOutcome): Activity
    requires r.attemptCount in r.attempts
  {
    r.(status := status, lease := None,
       attempts := r.attempts[r.attemptCount := r.attempts[r.attemptCount].(finished := Some(outcome))])
  }

  predicate HasOpenAttempt(r: Activity) {
    r.lease.Some? && r.OpenAttempt(r.attemptCount, r.lease.value.token)
  }

  /** Ends a revoked attempt: cancelled under a terminal workflow, else claimable at once. */
  function SettleRevoked(db: Db, a: nat, outcome: AttemptOutcome, now: int): Tx
    requires a in db.activities
  {
    var r := db.activities[a];
    if !HasOpenAttempt(r) || r.origin.workflow !in db.workflows then Abort(InvalidState)
    else
      var settled := if db.workflows[r.origin.workflow].status.Terminal()
                     then CloseAttempt(r, ActCancelled, outcome)
                     else CloseAttempt(r, ActPending, outcome).(availableAt := now);
      Commit(db.(activities := db.activities[a := settled]))
  }

  predicate WaitsOnActivity(db: Db, w: nat, a: nat) {
    w in db.workflows && db.workflows[w].status.WaitingActivity? && db.workflows[w].wait == OnActivity(a)
  }

  /** Blocks the workflow of a dead-lettered activity. */
  function Block(db: Db, w: nat): Db
    requires w in db.workflows
  {
    db.(workflows := db.workflows[w := db.workflows[w].(status := Blocked)])
  }

  datatype HandlerOutcome = HandlerSucceeded | HandlerRetryable(availableAt: int) | HandlerPermanent | HandlerRevoked

  /** Dead-letters a running activity and blocks its workflow. */
  function DeadLetter(db: Db, a: nat, outcome: AttemptOutcome): Tx
    requires a in db.activities && db.activities[a].attemptCount in db.activities[a].attempts
  {
    var r := db.activities[a];
    if !WaitsOnActivity(db, r.origin.workflow, a) then Abort(FencedWrite)
    else Commit(Block(db.(activities := db.activities[a := CloseAttempt(r, ActDeadLettered, outcome)]),
                      r.origin.workflow))
  }

  /** Applies the outcome of an attempt whose handler has stopped. */
  function Finish(db: Db, claim: ActivityClaim, outcome: HandlerOutcome, now: int): Tx {
    if claim.workflow !in db.workflows || !Leased(db, claim) then Abort(FencedWrite)
    else
      var r := db.activities[claim.activity];
      if r.status.ActCancelling? then
        if r.revoked.None? then Abort(InvalidState)
        else SettleRevoked(db, claim.activity, r.revoked.value, now)
      else if !r.OpenAttempt(claim.attempt, claim.token) then Abort(FencedWrite)
      else
        match outcome
        case HandlerRevoked => Abort(InvalidState)
        case HandlerSucceeded =>
          if !WaitsOnActivity(db, claim.workflow, claim.activity) then Abort(FencedWrite)
          else
            Commit(Db(db.workflows[claim.workflow :=
                        Woken(db.workflows[claim.workflow], ActivityDone(claim.command, claim.definition), now)],
                      db.activities[claim.activity := CloseAttempt(r, ActSucceeded, AttemptSucceeded)],
                      db.approvals))
        case HandlerRetryable(availableAt) =>
          if claim.attempt >= claim.maxAttempts then DeadLetter(db, claim.activity, AttemptDeadLettered)
          else
            Commit(db.(activities := db.activities[claim.activity :=
              CloseAttempt(r, ActPending, AttemptRetryable).(availableAt := availableAt)]))
        case HandlerPermanent => DeadLetter(db, claim.activity, AttemptDeadLettered)
  }

  // ---- Rows a claim batch writes ------------------------------------------

  /** One row of a claim batch: an expired lease it settles, a pending row it
      leases, or a pending row it cannot run. */
  datatype RowOp =
    | Settle(activity: nat, workflow: nat, availableAt: int)
    | Take(activity: nat, workflow: nat, token: nat)
    | Quarantine(activity: nat, workflow: nat)

  predicate Expired(r: Activity, now: int) {
    r.status.HoldsSlot() && (r.lease.None? || r.lease.value.expires <= now)
  }

  predicate Claimable(db: Db, op: RowOp, now: int) {
    && op.activity in db.activities
    && db.activities[op.activity].origin.workflow == op.workflow
    && db.activities[op.activity].status.ActPending?
    && db.activities[op.activity].availableAt <= now
    && WaitsOnActivity(db, op.workflow, op.activity)
  }

  /** What the batch checks under the locks of the activity and its workflow. */
  predicate OpEnabled(db: Db, op: RowOp, now: int) {
    match op
    case Settle(a, w, _) =>
      && a in db.activities && w in db.workflows
      && db.activities[a].origin.workflow == w
      && Expired(db.activities[a], now)
      && HasOpenAttempt(db.activities[a])
    case Take(a, _, _) =>
      && Claimable(db, op, now)
      && db.activities[a].attemptCount < db.activities[a].maxAttempts
      && db.activities[a].ValidBounds()
      && db.activities[a].attemptCount + 1 !in db.activities[a].attempts
    case Quarantine(a, _) =>
      && Claimable(db, op, now)
      && (db.activities[a].attemptCount >= db.activities[a].maxAttempts || !db.activities[a].ValidBounds())
  }

  function TakenRow(r: Activity, token: nat, now: int): Activity {
    r.(status := ActRunning, attemptCount := r.attemptCount + 1,
       lease := Some(Lease(token, now + r.origin.spec.leaseMillis)),
       attempts := r.attempts[r.attemptCount + 1 := Attempt(token, None)])
  }

  /** The database after one row of a claim batch. */
  function ApplyOp(db: Db, op: RowOp, now: int): Db
    requires OpEnabled(db, op, now)
  {
    var r := db.activities[op.activity];
    match op
    case Settle(a, w, availableAt) =>
      if r.status.ActCancelling? then SettleRevoked(db, a, AttemptLeaseExpired, now).db
      else if r.attemptCount >= r.maxAttempts then
        var closed := db.(activities := db.activities[a := CloseAttempt(r, ActDeadLettered, AttemptLeaseExpired)
                                                           .(availableAt := now)]);
        if WaitsOnActivity(db, w, a) then Block(closed, w) else closed
      else
        db.(activities := db.activities[a :=
          CloseAttempt(r, ActPending, AttemptLeaseExpired).(availableAt := availableAt)])
    case Take(a, w, token) => db.(activities := db.activities[a := TakenRow(r, token, now)])
    case Quarantine(a, w) => Block(db.(activities := db.activities[a := r.(status := ActDeadLettered)]), w)
  }

  // ---- Operator controls, timers and approvals -----------------------------

  function PausedActivity(r: Activity): Activity {
    if r.status.ActRunning? then
      r.(status := ActCancelling, maxAttempts := r.maxAttempts + 1, revoked := Some(AttemptOperatorPaused),
         pauses := r.pauses + 1)
    else r
  }

  function Pause(db: Db, w: nat): Tx {
    if w !in db.workflows then Abort(NotFound)
    else
      var r := db.workflows[w];
      if r.status.Paused? || r.status.Terminal() then Abort(Conflict)
      else
        Commit(Db(db.workflows[w := r.(status := Paused, lease := None)],
                  if r.wait.OnActivity? && r.wait.activity in db.activities
                  then db.activities[r.wait.activity := PausedActivity(db.activities[r.wait.activity])]
                  else db.activities,
                  db.approvals))
  }

  datatype Resumed = ResumeTo(status: WorkflowStatus) | CannotResume(failure: Failure)

  /** The status a paused workflow returns to. */
  function ResumeStatus(db: Db, r: Workflow): Resumed {
    match r.wait
    case NoWait => ResumeTo(Ready)
    case OnTimer(_) => ResumeTo(Sleeping)
    case OnActivity(a) =>
      if a !in db.activities then CannotResume(InvalidState)
      else (
        match db.activities[a].status
        case ActPending | ActRunning | ActCancelling => ResumeTo(WaitingActivity)
        case ActDeadLettered => ResumeTo(Blocked)
        case ActSucceeded => ResumeTo(Ready)
        case ActCancelled => CannotResume(Conflict))
    case OnChild(c) =>
      if c !in db.workflows then CannotResume(InvalidState)
      else if db.workflows[c].status.Terminal() then CannotResume(Conflict)
      else ResumeTo(WaitingChild)
    case OnApproval(p) =>
      if p !in db.approvals then CannotResume(InvalidState)
      else if db.approvals[p].status.ApprovalPending? then ResumeTo(WaitingApproval)
      else ResumeTo(Ready)
  }

  function Resume(db: Db, w: nat, now: int): Tx {
    if w !in db.workflows then Abort(NotFound)
    else if !db.workflows[w].status.Paused? then Abort(Conflict)
    else
      var r := db.workflows[w];
      var resumed := ResumeStatus(db, r);
      if resumed.CannotResume? then Abort(resumed.failure)
      else
        Commit(db.(workflows := db.workflows[w :=
          r.(status := resumed.status, lease := None,
             counters := if resumed.status.Ready? then r.counters.(availableAt := now) else r.counters)]))
  }

  /** Replaces the dead-lettered activity that blocks its workflow. */
  function Retry(db: Db, a: nat, id: nat, spec: ActivitySpec, now: int): Tx {
    if a !in db.activities || db.activities[a].origin.workflow !in db.workflows then Abort(NotFound)
    else
      var source := db.activities[a];
      var r := db.workflows[source.origin.workflow];
      if !r.status.Blocked? || r.wait != OnActivity(a) || !source.status.ActDeadLettered? then Abort(Conflict)
      else
        Commit(Db(db.workflows[source.origin.workflow :=
                    r.(status := WaitingActivity, wait := OnActivity(id), counters := r.counters.(availableAt := now),
                       corrected := r.corrected || spec.definition != source.origin.spec.definition)],
                  db.activities[id :=
                    NewActivity(source.origin.(replacement := source.origin.replacement + 1, spec := spec), now)],
                  db.approvals))
  }

  /** The command a timer or approval wake answers. */
  function WaitCommand(r: Workflow): Option<nat> {
    match r.wait
    case OnTimer(command) => if command == r.command then Some(command) else None
    case OnApproval(_) => Some(r.command)
    case NoWait | OnActivity(_) | OnChild(_) => None
  }

  function FireTimer(db: Db, w: nat, now: int): Tx {
    if w !in db.workflows then Abort(NotFound)
    else
      var r := db.workflows[w];
      if !r.status.Sleeping? || !r.wait.OnTimer? || r.counters.availableAt > now then Abort(Conflict)
      else if WaitCommand(r).None? then Abort(InvalidState)
      else Commit(db.(workflows := db.workflows[w := Woken(r, TimerFired(WaitCommand(r).value), now)]))
  }

  predicate ApprovalMatches(db: Db, p: nat)
    requires p in db.approvals
  {
    var approval := db.approvals[p];
    && approval.workflow in db.workflows
    && db.workflows[approval.workflow].status.AwaitsApproval()
    && db.workflows[approval.workflow].wait == OnApproval(p)
    && db.workflows[approval.workflow].identity.definition == approval.definition
  }

  function ExpireApproval(db: Db, p: nat, now: int): Tx {
    if p !in db.approvals || db.approvals[p].workflow !in db.workflows then Abort(NotFound)
    else
      var approval := db.approvals[p];
      if !approval.status.ApprovalPending? || approval.expiresAt.None? || approval.expiresAt.value > now then
        Commit(db)
      else if !ApprovalMatches(db, p) then Abort(InvalidState)
      else
        var r := db.workflows[approval.workflow];
        if WaitCommand(r) != Some(approval.command) then Abort(InvalidState)
        else
          Commit(Db(db.workflows[approval.workflow := Woken(r, ApprovalLapsed(approval.command), now)],
                    db.activities,
                    db.approvals[p := approval.(status := ApprovalExpired)]))
  }

  function ResolveApproval(db: Db, p: nat, now: int): Tx {
    if p !in db.approvals || db.approvals[p].workflow !in db.workflows then Abort(NotFound)
    else
      var approval := db.approvals[p];
      if !approval.status.ApprovalPending? then Abort(Conflict)
      else if approval.expiresAt.Some? && approval.expiresAt.value <= now then Abort(Conflict)
      else if !ApprovalMatches(db, p) then Abort(Conflict)
      else
        var r := db.workflows[approval.workflow];
        Commit(Db(db.workflows[approval.workflow := Woken(r, ApprovalGiven(approval.command), now)],
                  db.activities,
                  db.approvals[p := approval.(status := ApprovalResolved)]))
  }
}
