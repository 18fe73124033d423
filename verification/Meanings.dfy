/** What the transactions promise about the rows they leave: when they commit,
    what the columns hold, and from when on the next transaction can follow. */
module Meanings {
  import opened Rows
  import opened Transactions
  import opened Invariant
  import opened Preservation
  import opened Commits
  import opened Lineage
  import opened Generations
  import opened Effects
  import opened History

  // ---- Frames -------------------------------------------------------------------------------

  /** No workflow but `w` changed. */
  ghost predicate OnlyWorkflow(db: Db, db': Db, w: nat) {
    && db'.workflows.Keys == db.workflows.Keys
    && forall v :: v in db.workflows && v != w ==> db'.workflows[v] == db.workflows[v]
  }

  /** No activity but `a` changed, and `a` belongs to the same command. */
  ghost predicate OnlyActivity(db: Db, db': Db, a: nat) {
    && db'.activities.Keys == db.activities.Keys && a in db.activities
    && db'.activities[a].origin == db.activities[a].origin
    && forall b :: b in db.activities && b != a ==> db'.activities[b] == db.activities[b]
  }

  /** The workflow can be claimed exactly from `at` on. */
  ghost predicate ReadyFrom(db: Db, w: nat, at: int) {
    forall token, leaseMillis, now :: ClaimWorkflow(db, w, token, leaseMillis, now).Commit? <==> at <= now
  }

  /** The activity can be claimed exactly from `at` on. */
  ghost predicate ClaimableFrom(db: Db, a: nat, at: int) {
    && a in db.activities
    && forall now :: Claimable(db, Quarantine(a, db.activities[a].origin.workflow), now) <==> at <= now
  }

  /** The row got one delivery, the next one, and no longer waits; it is due at `now`. A paused row stays paused. */
  ghost predicate Got(r: Workflow, r': Workflow, e: Event, now: int) {
    && r'.identity == r.identity && r'.command == r.command && r'.delivered == r.delivered && r'.asked == r.asked
    && r'.inbox == r.inbox + [Delivery(r.delivered + 1, e)] && r'.wait.NoWait?
    && r'.status == (if r.status.Paused? then Paused else Ready) && r'.counters.availableAt == now
  }

  /** The waiters of `w` got its outcome; the other rows, but for `w`, are as they were. */
  ghost predicate Tells(ws: map<nat, Workflow>, ws': map<nat, Workflow>, w: nat, outcome: ChildOutcome, now: int)
    requires w in ws
  {
    forall v :: v in ws && v != w ==>
      && v in ws'
      && if ws[v].WaitsOnChild(w)
         then Got(ws[v], ws'[v], ChildDone(ws[v].command, ws[w].identity.definition, outcome), now)
         else ws'[v] == ws[v]
  }

  // ---- Leases ---------------------------------------------------------------------------------

  /** The row runs under the token, and its lease can be recovered exactly from `expires` on. */
  ghost predicate RunsUntil(db: Db, w: nat, token: nat, expires: int) {
    && w in db.workflows && db.workflows[w].status.Running?
    && db.workflows[w].lease.Some? && db.workflows[w].lease.value.token == token
    && forall now :: RecoverLease(db, w, now).Commit? <==> expires <= now
  }

  /** The activity holds its lease, and counts as expired exactly from `expires` on. */
  ghost predicate HeldUntil(r: Activity, token: nat, expires: int) {
    && r.status.HoldsSlot() && r.lease.Some? && r.lease.value.token == token
    && forall now :: Expired(r, now) <==> expires <= now
  }

  // ---- Failed activations -----------------------------------------------------------------------

  /** One more activation failed. The workflow ends exactly when that makes as many as the row or the
      coordinator allows; else it is ready from `availableAt` on, with the same delivery to consume. */
  ghost predicate ActivationFailed(r: Workflow, r': Workflow, configuredMax: nat, availableAt: int) {
    && r'.counters == r.counters.(activationAttempts := r.counters.activationAttempts + 1, availableAt := availableAt)
    && r'.identity == r.identity && r'.inbox == r.inbox && r'.delivered == r.delivered
    && r'.command == r.command && r'.asked == r.asked && r'.wait == r.wait && r'.lease.None?
    && (r'.status.Failed? <==>
          || r.counters.activationAttempts + 1 >= r.counters.maxActivation
          || r.counters.activationAttempts + 1 >= configuredMax)
    && (r'.status.Failed? || r'.status.Ready?)
  }

  /** The waiters of a workflow that fails are told; a retried one leaves all other rows. */
  ghost predicate FailureRecorded(db: Db, db': Db, claim: WorkflowClaim, configuredMax: nat, availableAt: int,
                                  now: int)
  {
    var w := claim.id;
    && w in db.workflows && db'.workflows.Keys == db.workflows.Keys
    && db'.activities == db.activities && db'.approvals == db.approvals
    && ActivationFailed(db.workflows[w], db'.workflows[w], configuredMax, availableAt)
    && (db'.workflows[w].status.Ready? ==> OnlyWorkflow(db, db', w) && ReadyFrom(db', w, availableAt))
    && (db'.workflows[w].status.Failed? ==>
          Tells(db.workflows, db'.workflows, w, ChildFailed("activation"), now))
  }

  lemma FailureMeans(db: Db, claim: WorkflowClaim, configuredMax: nat, availableAt: int, now: int)
    ensures var tx := ActivationFailure(db, claim, configuredMax, availableAt, now);
      && (tx.Commit? <==> Fenced(db, claim))
      && (tx.Commit? ==> FailureRecorded(db, tx.db, claim, configuredMax, availableAt, now))
  {
  }

  // ---- Transitions ------------------------------------------------------------------------------

  /** What every committed transition does to its row: it consumes the delivery, gives up the lease and
      starts to count failed activations anew. */
  ghost predicate SteppedRow(r: Workflow, r': Workflow, consumed: nat) {
    && r'.identity == r.identity && r'.delivered == consumed && r'.lease.None?
    && r'.counters.activationAttempts == 0 && r'.counters.maxActivation == r.counters.maxActivation
  }

  /** The row issued the next command and waits for `wait`. */
  ghost predicate Asked(r: Workflow, r': Workflow, cached: Workflow, status: WorkflowStatus, wait: Wait, asked: Ask) {
    && r'.command == cached.command + 1 && r'.status == status && r'.wait == wait && r'.asked == asked
    && !r'.corrected && r'.inbox == r.inbox
    && r'.counters.stateVersion == cached.counters.stateVersion + 1 && r'.counters.streak == 0
  }

  /** Only the workflow row of the claim changed. */
  ghost predicate OnlyRow(db: Db, db': Db, w: nat) {
    OnlyWorkflow(db, db', w) && db'.activities == db.activities && db'.approvals == db.approvals
  }

  /** A continuation is delivered to the row itself, which is due at `availableAt`. */
  ghost predicate ContinueDone(db: Db, db': Db, claim: WorkflowClaim, consumed: nat, maxStreak: nat, availableAt: int)
    requires claim.id in db.workflows && claim.id in db'.workflows
  {
    var w := claim.id;
    var r, r', cached := db.workflows[w], db'.workflows[w], claim.row.counters;
    && OnlyRow(db, db', w)
    && r'.command == r.command && r'.wait == r.wait && r'.inbox == r.inbox + [Delivery(consumed + 1, Continued)]
    && r'.counters.stateVersion == cached.stateVersion + 1
    && r'.counters.streak == (if cached.streak + 1 < maxStreak then cached.streak + 1 else 0)
    && ReadyFrom(db', w, availableAt)
  }

  /** The workflow succeeded, and its waiters know. */
  ghost predicate CompleteDone(db: Db, db': Db, claim: WorkflowClaim, now: int)
    requires claim.id in db.workflows && claim.id in db'.workflows
  {
    var r, r' := db.workflows[claim.id], db'.workflows[claim.id];
    && db'.activities == db.activities && db'.approvals == db.approvals && db'.workflows.Keys == db.workflows.Keys
    && r'.status.Succeeded? && r'.command == r.command && r'.inbox == r.inbox
    && Tells(db.workflows, db'.workflows, claim.id, ChildSucceeded, now)
  }

  /** The row sleeps under its new command, and its timer can fire exactly from `at` on. */
  ghost predicate SleepDone(db: Db, db': Db, claim: WorkflowClaim, at: int)
    requires claim.id in db.workflows && claim.id in db'.workflows
  {
    var w, command := claim.id, claim.row.command + 1;
    && OnlyRow(db, db', w)
    && Asked(db.workflows[w], db'.workflows[w], claim.row, Sleeping, OnTimer(command), AskTimer)
    && (forall now :: FireTimer(db', w, now).Commit? <==> at <= now)
  }

  /** A new approval of the command is open: it can be resolved exactly before its expiry, and lapses
      exactly from then on. */
  ghost predicate ApprovalDone(db: Db, db': Db, claim: WorkflowClaim, id: nat, expiresAt: Option<int>)
    requires claim.id in db.workflows && claim.id in db'.workflows
  {
    var w := claim.id;
    && OnlyWorkflow(db, db', w) && db'.activities == db.activities
    && Asked(db.workflows[w], db'.workflows[w], claim.row, WaitingApproval, OnApproval(id), AskApproval)
    && id in db'.approvals && db'.approvals == db.approvals[id := db'.approvals[id]]
    && db'.approvals[id].workflow == w && db'.approvals[id].command == db'.workflows[w].command
    && (claim.row.identity == db.workflows[w].identity ==>
          && (forall now :: ResolveApproval(db', id, now).Commit? <==> expiresAt.None? || now < expiresAt.value)
          && (forall now :: Lapses(db', id, now) <==> expiresAt.Some? && expiresAt.value <= now))
  }

  /** A new activity of the command, the first, has all its attempts and can be claimed exactly from
      `availableAt` on. */
  ghost predicate ActivityAsked(db: Db, db': Db, claim: WorkflowClaim, id: nat, spec: ActivitySpec, availableAt: int)
    requires claim.id in db.workflows && claim.id in db'.workflows
  {
    var w := claim.id;
    && OnlyWorkflow(db, db', w) && db'.approvals == db.approvals
    && Asked(db.workflows[w], db'.workflows[w], claim.row, WaitingActivity, OnActivity(id),
             AskActivity(spec.definition))
    && id in db'.activities && db'.activities == db.activities[id := db'.activities[id]]
    && db'.activities[id].origin == Origin(w, db'.workflows[w].command, 0, spec)
    && AttemptsLeft(db'.activities[id]) == spec.maxAttempts && db'.activities[id].attempts == map[]
    && ClaimableFrom(db', id, availableAt)
  }

  /** The row after each kind of transition, and when the engine goes on with it. */
  ghost predicate TransitionDone(db: Db, db': Db, claim: WorkflowClaim, consumed: nat, t: Transition, now: int)
    requires !t.RunChild?
  {
    && claim.id in db.workflows && claim.id in db'.workflows
    && SteppedRow(db.workflows[claim.id], db'.workflows[claim.id], consumed)
    && match t
       case Continue(maxStreak, availableAt) => ContinueDone(db, db', claim, consumed, maxStreak, availableAt)
       case Complete => CompleteDone(db, db', claim, now)
       case SleepUntil(at) => SleepDone(db, db', claim, at)
       case WaitForApproval(id, expiresAt) => ApprovalDone(db, db', claim, id, expiresAt)
       case RunActivity(id, spec, availableAt) => ActivityAsked(db, db', claim, id, spec, availableAt)
  }

  /** The expiry of the approval can be materialized. */
  ghost predicate Lapses(db: Db, p: nat, now: int) {
    && ExpireApproval(db, p, now).Commit? && p in ExpireApproval(db, p, now).db.approvals
    && ExpireApproval(db, p, now).db.approvals[p].status.ApprovalExpired?
  }

  lemma TransitionMeans(db: Db, claim: WorkflowClaim, consumed: nat, t: Transition, now: int)
    requires !t.RunChild?
    ensures CommitTransition(db, claim, consumed, t, now).Commit? <==> Fenced(db, claim)
    ensures Fenced(db, claim) ==>
      TransitionDone(db, CommitTransition(db, claim, consumed, t, now).db, claim, consumed, t, now)
  {
    if Fenced(db, claim) {
      match t
      case Continue(_, _) =>
      case Complete =>
      case SleepUntil(_) =>
      case WaitForApproval(_, _) => ApprovalMeans(db, claim, consumed, t, now);
      case RunActivity(_, _, _) => ActivityMeans(db, claim, consumed, t, now);
    }
  }

  lemma ApprovalMeans(db: Db, claim: WorkflowClaim, consumed: nat, t: Transition, now: int)
    requires t.WaitForApproval? && Fenced(db, claim)
    ensures ApprovalDone(db, CommitTransition(db, claim, consumed, t, now).db, claim, t.id, t.expiresAt)
  {
  }

  lemma ActivityMeans(db: Db, claim: WorkflowClaim, consumed: nat, t: Transition, now: int)
    requires t.RunActivity? && Fenced(db, claim)
    ensures ActivityAsked(db, CommitTransition(db, claim, consumed, t, now).db, claim, t.id, t.spec, t.availableAt)
  {
  }

  // ---- Children -----------------------------------------------------------------------------------

  ghost predicate KeyFree(ws: map<nat, Workflow>, kind: string, key: Key) {
    forall v :: v in ws ==> !HasKey(ws[v], kind, key)
  }

  /** `g` ends the restart chain of the row that holds the key. */
  ghost predicate EndsChainOf(ws: map<nat, Workflow>, kind: string, key: Key, g: nat) {
    && g in ws && (forall v :: v in ws ==> ws[v].identity.restartedFrom != Some(g))
    && exists v :: v in ws && HasKey(ws[v], kind, key) && Generation(ws, v, g)
  }

  /** The child is new: ready at once, known to its parent by key, and waited on. */
  ghost predicate ChildInserted(db: Db, db': Db, claim: WorkflowClaim, consumed: nat, t: Transition, now: int)
    requires t.RunChild?
  {
    var w := claim.id;
    && w in db.workflows && w in db'.workflows && t.id in db'.workflows
    && db'.workflows == db.workflows[t.id := db'.workflows[t.id]][w := db'.workflows[w]]
    && db'.activities == db.activities && db'.approvals == db.approvals
    && SteppedRow(db.workflows[w], db'.workflows[w], consumed)
    && Asked(db.workflows[w], db'.workflows[w], claim.row, WaitingChild, OnChild(t.id), AskChild(t.definition))
    && db'.workflows[t.id].identity
       == Identity(t.definition, Some(ChildKey(claim, t)), Some(w), db'.workflows[w].command, None)
    && (t.key.None? ==> OwnedBy(db'.workflows[t.id], w))
    && JustReady(db', t.id, now)
  }

  /** A row as a start leaves it: it expects its first delivery, has no command, and can be claimed from `at` on. */
  ghost predicate JustReady(db: Db, w: nat, at: int) {
    && w in db.workflows
    && db.workflows[w].inbox == [Delivery(1, Started)] && db.workflows[w].delivered == 0
    && db.workflows[w].command == 0 && db.workflows[w].counters.activationAttempts == 0
    && db.workflows[w].counters.maxActivation == DEFAULT_MAX_ACTIVATION
    && db.workflows[w].wait.NoWait? && db.workflows[w].lease.None?
    && ReadyFrom(db, w, at)
  }

  /** The workflow waits on the existing generation `g`, or, if that has ended, was told how it is stored. */
  ghost predicate ChildAttached(db: Db, db': Db, claim: WorkflowClaim, consumed: nat, t: Transition, g: nat, now: int)
    requires t.RunChild? && g in db.workflows
  {
    var w := claim.id;
    && w in db.workflows && w in db'.workflows && OnlyRow(db, db', w)
    && var r, r', child := db.workflows[w], db'.workflows[w], db.workflows[g];
    && SteppedRow(r, r', consumed)
    && r'.command == claim.row.command + 1 && r'.asked == AskChild(t.definition)
    && if !child.status.Terminal() then Asked(r, r', claim.row, WaitingChild, OnChild(g), AskChild(t.definition))
       else
         && r'.status.Ready? && r'.wait.NoWait? && ReadyFrom(db', w, now)
         && |r'.inbox| == |r.inbox| + 1 && r'.inbox[..|r.inbox|] == r.inbox
         && r'.inbox[|r.inbox|].sequence == consumed + 1
         && r'.inbox[|r.inbox|].event.ChildDone? && r'.inbox[|r.inbox|].event.command == r'.command
         && r'.inbox[|r.inbox|].event.definition == child.identity.definition
         && OutcomeFits(child.status, r'.inbox[|r.inbox|].event.outcome)
         && (child.status.Cancelled? ==> r'.inbox[|r.inbox|].event.outcome == ChildFailed("child_cancelled"))
  }

  /** A child transition under a free key. */
  lemma NewChildMeans(db: Db, claim: WorkflowClaim, consumed: nat, t: Transition, now: int)
    requires t.RunChild? && t.id != claim.id && KeyFree(db.workflows, t.definition.kind, ChildKey(claim, t))
    ensures var tx := CommitTransition(db, claim, consumed, t, now);
      if Fenced(db, claim) then tx.Commit? && ChildInserted(db, tx.db, claim, consumed, t, now)
      else tx == Abort(FencedWrite)
  {
  }

  /** What keeps a child transition from attaching to `g`: another version, a caller that is `g` or below it, or
      a lost fence, in this order. */
  function AttachFailure(db: Db, claim: WorkflowClaim, t: Transition, g: nat): Option<Failure>
    requires t.RunChild? && g in db.workflows
  {
    if db.workflows[g].identity.definition.version != t.definition.version then Some(DefinitionMismatch)
    else if Reaches(db.workflows, claim.id, g) then Some(InvalidDefinition)
    else if !Fenced(db, claim) then Some(FencedWrite)
    else None
  }

  /** Both cases of a child transition. */
  lemma ChildMeans(db: Db, claim: WorkflowClaim, consumed: nat, t: Transition, now: int)
    requires t.RunChild?
    ensures var tx := CommitTransition(db, claim, consumed, t, now);
      && (t.id != claim.id && KeyFree(db.workflows, t.definition.kind, ChildKey(claim, t)) ==>
            if Fenced(db, claim) then tx.Commit? && ChildInserted(db, tx.db, claim, consumed, t, now)
            else tx == Abort(FencedWrite))
      && (Inv(db) && CacheAgrees(db, claim, consumed) ==>
            forall g :: EndsChainOf(db.workflows, t.definition.kind, ChildKey(claim, t), g) ==>
              if AttachFailure(db, claim, t, g).Some? then tx == Abort(AttachFailure(db, claim, t, g).value)
              else tx.Commit? && ChildAttached(db, tx.db, claim, consumed, t, g, now))
  {
    if t.id != claim.id && KeyFree(db.workflows, t.definition.kind, ChildKey(claim, t)) {
      NewChildMeans(db, claim, consumed, t, now);
    }
    if Inv(db) && CacheAgrees(db, claim, consumed) {
      forall g | EndsChainOf(db.workflows, t.definition.kind, ChildKey(claim, t), g)
        ensures var tx, failure := CommitTransition(db, claim, consumed, t, now), AttachFailure(db, claim, t, g);
          if failure.Some? then tx == Abort(failure.value)
          else tx.Commit? && ChildAttached(db, tx.db, claim, consumed, t, g, now)
      {
        AttachMeans(db, claim, consumed, t, g, now);
      }
    }
  }

  /** A child transition whose key a row holds attaches to the end `g` of its chain. */
  lemma AttachMeans(db: Db, claim: WorkflowClaim, consumed: nat, t: Transition, g: nat, now: int)
    requires Inv(db) && CacheAgrees(db, claim, consumed) && t.RunChild?
    requires EndsChainOf(db.workflows, t.definition.kind, ChildKey(claim, t), g)
    ensures var tx, failure := CommitTransition(db, claim, consumed, t, now), AttachFailure(db, claim, t, g);
      if failure.Some? then tx == Abort(failure.value)
      else tx.Commit? && ChildAttached(db, tx.db, claim, consumed, t, g, now)
  {
    ChainEndIsFound(db.workflows, t.definition.kind, ChildKey(claim, t), g);
    if CommitTransition(db, claim, consumed, t, now).Commit? {
      ChildCases(db, claim, consumed, t, now);
      AttachedDone(db, claim, consumed, t, g, now);
    }
  }

  lemma ChainEndIsFound(ws: map<nat, Workflow>, kind: string, key: Key, g: nat)
    requires LinksOk(ws) && KeysUnique(ws) && EndsChainOf(ws, kind, key, g)
    ensures FindByKey(ws, kind, key).Some? && Newest(ws, FindByKey(ws, kind, key).value) == g
  {
    var v :| v in ws && HasKey(ws[v], kind, key) && Generation(ws, v, g);
    FoundIsUnique(ws, v, kind, key);
    LastIsNewest(ws, v, g);
  }

  lemma AttachedDone(db: Db, claim: WorkflowClaim, consumed: nat, t: Transition, g: nat, now: int)
    requires Inv(db) && CacheAgrees(db, claim, consumed) && Fenced(db, claim) && t.RunChild? && g in db.workflows
    requires g != claim.id
    ensures var db' := db.(workflows := Attached(db.workflows, claim.id, g, t.definition, now));
      ChildAttached(db, db', claim, consumed, t, g, now)
  {
    var ws, w := db.workflows, claim.id;
    var r' := Waiting(ws[w], ws[w], consumed, WaitingChild, OnChild(g), AskChild(t.definition));
    if ws[g].status.Terminal() { WakeOnlyWaiter(db, w, r', g, TerminalOutcome(ws[g]).value, now); }
  }

  // ---- Timers and approvals -------------------------------------------------------------------------

  /** A timer fires exactly if the row sleeps and its wake time has come: never early, and whenever it is due. */
  lemma TimerMeans(db: Db, w: nat, now: int)
    requires Inv(db)
    ensures var tx := FireTimer(db, w, now);
      && (tx.Commit? <==>
            w in db.workflows && db.workflows[w].status.Sleeping? && db.workflows[w].counters.availableAt <= now)
      && (tx.Commit? ==>
            && OnlyRow(db, tx.db, w)
            && Got(db.workflows[w], tx.db.workflows[w], TimerFired(db.workflows[w].command), now))
  {
    if w in db.workflows { assert WorkflowOk(db.workflows[w]); }
  }

  /** The approval is open, and its workflow waits for it. */
  ghost predicate Awaited(db: Db, p: nat) {
    && p in db.approvals && db.approvals[p].status.ApprovalPending?
    && var w := db.approvals[p].workflow;
    && w in db.workflows && db.workflows[w].wait == OnApproval(p)
    && (db.workflows[w].status.WaitingApproval? || db.workflows[w].status.Paused?)
  }

  predicate PastExpiry(approval: Approval, now: int) {
    approval.expiresAt.Some? && approval.expiresAt.value <= now
  }

  /** The approval is closed with this status, and its workflow got `e`; nothing else changed. */
  ghost predicate Closes(db: Db, db': Db, p: nat, status: ApprovalStatus, e: Event, now: int) {
    && p in db.approvals && db'.approvals == db.approvals[p := db.approvals[p].(status := status)]
    && db'.activities == db.activities && OnlyWorkflow(db, db', db.approvals[p].workflow)
    && db.approvals[p].workflow in db.workflows
    && Got(db.workflows[db.approvals[p].workflow], db'.workflows[db.approvals[p].workflow], e, now)
  }

  /** Exactly the approvals that are waited for end: they lapse at or after their expiry and not before, and
      they can be resolved before it and not after. */
  lemma ApprovalEndMeans(db: Db, p: nat, now: int)
    ensures Inv(db) ==>
      var lapse, give := ExpireApproval(db, p, now), ResolveApproval(db, p, now);
      && (lapse.Commit? && lapse.db != db ==> Awaited(db, p) && PastExpiry(db.approvals[p], now))
      && (Awaited(db, p) && PastExpiry(db.approvals[p], now) ==>
            && lapse.Commit?
            && Closes(db, lapse.db, p, ApprovalExpired, ApprovalLapsed(db.approvals[p].command), now))
      && (give.Commit? <==> Awaited(db, p) && !PastExpiry(db.approvals[p], now))
      && (give.Commit? ==> Closes(db, give.db, p, ApprovalResolved, ApprovalGiven(db.approvals[p].command), now))
  {
    if Inv(db) && Awaited(db, p) { assert WaitOk(db, db.approvals[p].workflow); }
  }

  // ---- Rows of a claim batch ------------------------------------------------------------------------

  /** An expired lease is settled: the attempt is closed as expired; a revoked row goes with its workflow, a
      row with attempts left waits until `availableAt`, and one without gives up and blocks its workflow. */
  ghost predicate ExpirySettled(db: Db, db': Db, a: nat, availableAt: int, now: int) {
    && OnlyActivity(db, db', a) && db'.approvals == db.approvals
    && db.activities[a].origin.workflow in db.workflows
    && var r, r', w := db.activities[a], db'.activities[a], db.activities[a].origin.workflow;
    && ClosedAs(r, r', AttemptLeaseExpired)
    && (if r.status.ActCancelling? then
          && db'.workflows == db.workflows
          && (if db.workflows[w].status.Terminal() then r'.status.ActCancelled?
              else r'.status.ActPending? && r'.availableAt == now)
        else if r.attemptCount < r.maxAttempts then
          db'.workflows == db.workflows && r'.status.ActPending? && r'.availableAt == availableAt
        else
          && r'.status.ActDeadLettered?
          && db'.workflows == (if WaitsOnActivity(db, w, a)
                               then db.workflows[w := db.workflows[w].(status := Blocked)] else db.workflows))
  }

  /** A pending row runs its next attempt under the token, for exactly its lease. */
  ghost predicate Taken(db: Db, db': Db, a: nat, token: nat, now: int) {
    && OnlyActivity(db, db', a) && db'.workflows == db.workflows && db'.approvals == db.approvals
    && var r, r' := db.activities[a], db'.activities[a];
    && r'.status.ActRunning? && r'.attemptCount == r.attemptCount + 1 && r'.maxAttempts == r.maxAttempts
    && r'.OpenAttempt(r'.attemptCount, token) && r'.attempts == r.attempts[r'.attemptCount := Attempt(token, None)]
    && HeldUntil(r', token, now + r.origin.spec.leaseMillis)
  }

  /** A row that cannot run gives up without an attempt and blocks its workflow. */
  ghost predicate Quarantined(db: Db, db': Db, a: nat) {
    && OnlyActivity(db, db', a) && db'.approvals == db.approvals
    && var r, r', w := db.activities[a], db'.activities[a], db.activities[a].origin.workflow;
    && r'.status.ActDeadLettered? && r'.attempts == r.attempts && r'.attemptCount == r.attemptCount
    && w in db.workflows && db'.workflows == db.workflows[w := db.workflows[w].(status := Blocked)]
  }

  lemma OpMeans(db: Db, op: RowOp, now: int)
    requires OpEnabled(db, op, now)
    ensures var db' := ApplyOp(db, op, now);
      match op
      case Settle(a, _, availableAt) => ExpirySettled(db, db', a, availableAt, now)
      case Take(a, _, token) => Taken(db, db', a, token, now)
      case Quarantine(a, _) => Quarantined(db, db', a)
  {
    var a := op.activity;
    match op
    case Settle(_, _, _) => assert ClosedAs(db.activities[a], ApplyOp(db, op, now).activities[a], AttemptLeaseExpired);
    case Take(_, _, _) =>
    case Quarantine(_, _) =>
  }
}
