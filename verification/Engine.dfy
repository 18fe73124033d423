/** The transactions as they are written: each checks its fence under row
    locks, updates rows in place and commits, or fails and leaves every row. */
module Engine {
  import opened Rows
  import opened Transactions
  import opened Invariant
  import opened Preservation
  import opened Commits
  import opened Lineage
  import opened Generations
  import opened Store
  import opened System
  import opened Effects
  import opened Meanings
  import opened Endings

  /** The method did what `tx` specifies. */
  ghost predicate Did(tx: Tx, before: Db, after: Db, failure: Option<Failure>) {
    match tx
    case Commit(db) => failure.None? && after == db
    case Abort(reason) => failure == Some(reason) && after == before
  }

  // ---- Coordinator ---------------------------------------------------------------------------

  /** Returns an expired lease to the ready queue. */
  method RecoverExpiredLease(db: Database, w: nat, now: int) returns (failure: Option<Failure>)
    modifies db
    ensures Did(RecoverLease(old(db.Snapshot()), w, now), old(db.Snapshot()), db.Snapshot(), failure)
    ensures failure.None? ==> LeaseRecovered(old(db.Snapshot()), db.Snapshot(), w, now)
    ensures failure.None? <==> old(w in db.workflows && db.workflows[w].status.Running?
      && db.workflows[w].lease.Some? && db.workflows[w].lease.value.expires <= now)
  {
    if w !in db.workflows { return Some(NotFound); }
    var r := db.workflows[w];
    if !r.status.Running? || r.lease.None? || r.lease.value.expires > now { return Some(FencedWrite); }
    RecoverLeaseMeans(db.Snapshot(), w, now);
    db.workflows := db.workflows[w := r.(status := Ready, counters := r.counters.(availableAt := now), lease := None)];
    return None;
  }

  /** Leases a ready workflow and keeps the row as it was read. */
  method ClaimRow(db: Database, w: nat, token: nat, leaseMillis: int, now: int)
    returns (failure: Option<Failure>, claim: Option<WorkflowClaim>)
    modifies db
    ensures Did(ClaimWorkflow(old(db.Snapshot()), w, token, leaseMillis, now), old(db.Snapshot()), db.Snapshot(),
                failure)
    ensures failure.None? ==>
      && w in db.workflows && claim == Some(WorkflowClaim(w, db.workflows[w], token, None))
      && Fenced(db.Snapshot(), claim.value)
    ensures failure.None? <==> old(w in db.workflows && db.workflows[w].status.Ready?
      && db.workflows[w].counters.availableAt <= now)
    ensures failure.None? ==>
      && OnlyRow(old(db.Snapshot()), db.Snapshot(), w) && RunsUntil(db.Snapshot(), w, token, now + leaseMillis)
  {
    if w !in db.workflows { return Some(NotFound), None; }
    var r := db.workflows[w];
    if !r.status.Ready? || r.counters.availableAt > now { return Some(FencedWrite), None; }
    db.workflows := db.workflows[w := r.(status := Running, lease := Some(Lease(token, now + leaseMillis)))];
    return None, Some(WorkflowClaim(w, db.workflows[w], token, None));
  }

  /** Records a failed activation. */
  method RecordActivationFailure(db: Database, claim: WorkflowClaim, configuredMax: nat, availableAt: int, now: int)
    returns (failure: Option<Failure>)
    modifies db
    ensures Did(ActivationFailure(old(db.Snapshot()), claim, configuredMax, availableAt, now),
                old(db.Snapshot()), db.Snapshot(), failure)
    ensures failure.None? <==> old(Fenced(db.Snapshot(), claim))
    ensures failure.None? ==>
      FailureRecorded(old(db.Snapshot()), db.Snapshot(), claim, configuredMax, availableAt, now)
  {
    FailureMeans(db.Snapshot(), claim, configuredMax, availableAt, now);
    if !Fenced(Db(db.workflows, db.activities, db.approvals), claim) { return Some(FencedWrite); }
    var r := db.workflows[claim.id];
    var attempt := r.counters.activationAttempts + 1;
    var limit := if r.counters.maxActivation < configuredMax then r.counters.maxActivation else configuredMax;
    var counters := r.counters.(activationAttempts := attempt, availableAt := availableAt);
    if attempt >= limit {
      db.workflows := db.workflows[claim.id := r.(status := Failed, lease := None, counters := counters)];
      db.WakeWaitingParents(claim.id, r.identity.definition, ChildFailed("activation"), now);
    } else {
      db.workflows := db.workflows[claim.id := r.(status := Ready, lease := None, counters := counters)];
    }
    return None;
  }

  /** Commits any transition but a child. */
  method CommitOnConnection(db: Database, claim: WorkflowClaim, consumed: nat, t: Transition, now: int)
    returns (failure: Option<Failure>)
    requires !t.RunChild?
    modifies db
    ensures Did(CommitTransition(old(db.Snapshot()), claim, consumed, t, now), old(db.Snapshot()), db.Snapshot(),
                failure)
    ensures failure.None? <==> old(Fenced(db.Snapshot(), claim))
    ensures failure.None? ==> TransitionDone(old(db.Snapshot()), db.Snapshot(), claim, consumed, t, now)
  {
    TransitionMeans(db.Snapshot(), claim, consumed, t, now);
    if !Fenced(Db(db.workflows, db.activities, db.approvals), claim) { return Some(FencedWrite); }
    var r := db.workflows[claim.id];
    match t {
      case Continue(maxStreak, availableAt) =>
        db.workflows := db.workflows[claim.id := ContinuedRow(r, claim.row, consumed, maxStreak, availableAt)];
      case Complete =>
        db.workflows := db.workflows[claim.id := Stepped(r, consumed).(status := Succeeded)];
        db.WakeWaitingParents(claim.id, r.identity.definition, ChildSucceeded, now);
      case SleepUntil(at) =>
        var row := Waiting(r, claim.row, consumed, Sleeping, OnTimer(claim.row.command + 1), AskTimer);
        db.workflows := db.workflows[claim.id := row.(counters := row.counters.(availableAt := at))];
      case WaitForApproval(id, expiresAt) =>
        db.approvals := db.approvals[id := Approval(claim.id, claim.row.command + 1, claim.row.identity.definition,
                                                    ApprovalPending, expiresAt)];
        db.workflows := db.workflows[claim.id :=
          Waiting(r, claim.row, consumed, WaitingApproval, OnApproval(id), AskApproval)];
      case RunActivity(id, spec, availableAt) =>
        db.activities := db.activities[id :=
          NewActivity(Origin(claim.id, claim.row.command + 1, 0, spec), availableAt)];
        db.workflows := db.workflows[claim.id :=
          Waiting(r, claim.row, consumed, WaitingActivity, OnActivity(id), AskActivity(spec.definition))];
    }
    return None;
  }

  /** The row that holds `(kind, key)`. */
  method LookUpKey(db: Database, kind: string, key: Key) returns (hit: Option<nat>)
    requires KeysUnique(db.workflows)
    ensures hit == FindByKey(db.workflows, kind, key)
  {
    if w :| w in db.workflows && HasKey(db.workflows[w], kind, key) {
      FoundIsUnique(db.workflows, w, kind, key);
      return Some(w);
    }
    return None;
  }

  /** Commits a child transition: inserts the child, or attaches to the newest generation of its key. */
  method CommitChildTransition(db: Database, claim: WorkflowClaim, consumed: nat, t: Transition, now: int)
    returns (failure: Option<Failure>)
    requires t.RunChild? && LinksOk(db.workflows) && KeysUnique(db.workflows) && claim.id in db.workflows
    modifies db
    ensures Did(CommitTransition(old(db.Snapshot()), claim, consumed, t, now), old(db.Snapshot()), db.Snapshot(),
                failure)
    ensures t.id != claim.id && old(KeyFree(db.workflows, t.definition.kind, ChildKey(claim, t))) ==>
      && (failure == if old(Fenced(db.Snapshot(), claim)) then None else Some(FencedWrite))
      && (failure.None? ==> ChildInserted(old(db.Snapshot()), db.Snapshot(), claim, consumed, t, now))
    ensures forall g :: old(Inv(db.Snapshot()) && CacheAgrees(db.Snapshot(), claim, consumed)
                            && EndsChainOf(db.workflows, t.definition.kind, ChildKey(claim, t), g)) ==>
      && failure == AttachFailure(old(db.Snapshot()), claim, t, g)
      && (failure.None? ==> ChildAttached(old(db.Snapshot()), db.Snapshot(), claim, consumed, t, g, now))
  {
    ChildMeans(db.Snapshot(), claim, consumed, t, now);
    var command := claim.row.command + 1;
    var key := if t.key.Some? then t.key.value else AutoChild(claim.id, command);
    var hit := LookUpKey(db, t.definition.kind, key);
    if hit.None? {
      if !Fenced(Db(db.workflows, db.activities, db.approvals), claim) { return Some(FencedWrite); }
      var r := db.workflows[claim.id];
      db.workflows := db.workflows[t.id := NewWorkflow(t.definition, Some(key), Some(claim.id), command, None, now)];
      db.workflows := db.workflows[claim.id :=
        Waiting(r, claim.row, consumed, WaitingChild, OnChild(t.id), AskChild(t.definition))];
      return None;
    }
    var existing := db.LockNewestGeneration(hit.value);
    var child := db.workflows[existing];
    if child.identity.definition.version != t.definition.version { return Some(DefinitionMismatch); }
    var cycle := db.IsCallerOrAncestor(claim.id, existing);
    if cycle { return Some(InvalidDefinition); }
    if !Fenced(Db(db.workflows, db.activities, db.approvals), claim) { return Some(FencedWrite); }
    db.workflows := db.workflows[claim.id :=
      Waiting(db.workflows[claim.id], claim.row, consumed, WaitingChild, OnChild(existing), AskChild(t.definition))];
    var outcome := TerminalOutcome(child);
    if outcome.Some? { db.WakeWaitingParents(existing, child.identity.definition, outcome.value, now); }
    return None;
  }

  // ---- Workers ---------------------------------------------------------------------------------

  /** Renews a lease. */
  method HeartbeatOnce(db: Database, claim: ActivityClaim, sampled: int) returns (failure: Option<Failure>)
    modifies db
    ensures Did(Heartbeat(old(db.Snapshot()), claim, sampled), old(db.Snapshot()), db.Snapshot(), failure)
    ensures failure.None? ==> Renewed(old(db.Snapshot()), db.Snapshot(), claim, sampled)
    ensures old(Inv(db.Snapshot())) ==> (failure.None? <==> old(Leased(db.Snapshot(), claim)))
  {
    HeartbeatMeans(db.Snapshot(), claim, sampled);
    if !Leased(Db(db.workflows, db.activities, db.approvals), claim) { return Some(FencedWrite); }
    var r := db.activities[claim.activity];
    if !r.OpenAttempt(claim.attempt, claim.token) { return Some(FencedWrite); }
    var renewed := Lease(claim.token, sampled + claim.leaseMillis);
    db.activities := db.activities[claim.activity := r.(lease := Some(renewed))];
    return None;
  }

  /** Closes a revoked attempt: cancelled with its workflow, or claimable at once. */
  method SettleRevokedAttempt(db: Database, a: nat, outcome: AttemptOutcome, now: int)
    returns (failure: Option<Failure>)
    requires a in db.activities
    modifies db
    ensures Did(SettleRevoked(old(db.Snapshot()), a, outcome, now), old(db.Snapshot()), db.Snapshot(), failure)
    ensures failure.None? ==> Settled(old(db.Snapshot()), db.Snapshot(), a, outcome, now)
    ensures old(Inv(db.Snapshot()) && db.activities[a].status.ActCancelling?) ==> failure.None?
  {
    SettleRevokedMeans(db.Snapshot(), a, outcome, now);
    var r := db.activities[a];
    if !HasOpenAttempt(r) || r.origin.workflow !in db.workflows { return Some(InvalidState); }
    if db.workflows[r.origin.workflow].status.Terminal() {
      db.activities := db.activities[a := CloseAttempt(r, ActCancelled, outcome)];
    } else {
      db.activities := db.activities[a := CloseAttempt(r, ActPending, outcome).(availableAt := now)];
    }
    return None;
  }

  /** Closes the attempt, then blocks the workflow. */
  method DeadLetterActivity(db: Database, a: nat, outcome: AttemptOutcome) returns (failure: Option<Failure>)
    requires a in db.activities && db.activities[a].attemptCount in db.activities[a].attempts
    modifies db
    ensures Did(DeadLetter(old(db.Snapshot()), a, outcome), old(db.Snapshot()), db.Snapshot(), failure)
    ensures failure.None? ==> Blocks(old(db.Snapshot()), db.Snapshot(), a, outcome)
    ensures old(Inv(db.Snapshot()) && db.activities[a].status.ActRunning?) ==> failure.None?
  {
    DeadLetterMeans(db.Snapshot(), a, outcome);
    var r := db.activities[a];
    var w := r.origin.workflow;
    if !WaitsOnActivity(Db(db.workflows, db.activities, db.approvals), w, a) { return Some(FencedWrite); }
    db.activities := db.activities[a := CloseAttempt(r, ActDeadLettered, outcome)];
    db.workflows := db.workflows[w := db.workflows[w].(status := Blocked)];
    return None;
  }

  /** Applies the outcome of an attempt. */
  method FinishOnConnection(db: Database, claim: ActivityClaim, outcome: HandlerOutcome, now: int)
    returns (failure: Option<Failure>)
    modifies db
    ensures Did(Finish(old(db.Snapshot()), claim, outcome, now), old(db.Snapshot()), db.Snapshot(), failure)
    ensures failure.None? ==> FreesSlot(old(db.Snapshot()), db.Snapshot(), claim.activity)
    ensures old(Inv(db.Snapshot()) && ClaimAgrees(db.Snapshot(), claim)) ==>
      && (failure.None? ==> Finished(old(db.Snapshot()), db.Snapshot(), claim, outcome, now))
      && (failure.None? <==> old(Leased(db.Snapshot(), claim)
            && !(db.activities[claim.activity].status.ActRunning? && outcome.HandlerRevoked?)))
  {
    if Finish(db.Snapshot(), claim, outcome, now).Commit? { FinishFrees(db.Snapshot(), claim, outcome, now); }
    if Inv(db.Snapshot()) && ClaimAgrees(db.Snapshot(), claim) { FinishMeans(db.Snapshot(), claim, outcome, now); }
    var w, a := claim.workflow, claim.activity;
    if w !in db.workflows || !Leased(Db(db.workflows, db.activities, db.approvals), claim) { return Some(FencedWrite); }
    var r := db.activities[a];
    if r.status.ActCancelling? {
      if r.revoked.None? { return Some(InvalidState); }
      failure := SettleRevokedAttempt(db, a, r.revoked.value, now);
      return;
    }
    if !r.OpenAttempt(claim.attempt, claim.token) { return Some(FencedWrite); }
    match outcome {
      case HandlerRevoked => return Some(InvalidState);
      case HandlerSucceeded =>
        if !WaitsOnActivity(Db(db.workflows, db.activities, db.approvals), w, a) { return Some(FencedWrite); }
        db.activities := db.activities[a := CloseAttempt(r, ActSucceeded, AttemptSucceeded)];
        db.workflows := db.workflows[w :=
          Woken(db.workflows[w], ActivityDone(claim.command, claim.definition), now)];
        return None;
      case HandlerRetryable(availableAt) =>
        if claim.attempt >= claim.maxAttempts {
          failure := DeadLetterActivity(db, a, AttemptDeadLettered);
          return;
        }
        db.activities := db.activities[a := CloseAttempt(r, ActPending, AttemptRetryable).(availableAt := availableAt)];
        return None;
      case HandlerPermanent =>
        failure := DeadLetterActivity(db, a, AttemptDeadLettered);
    }
  }

  // ---- Operators ---------------------------------------------------------------------------------

  method PauseWorkflow(db: Database, w: nat) returns (failure: Option<Failure>)
    modifies db
    ensures Did(Pause(old(db.Snapshot()), w), old(db.Snapshot()), db.Snapshot(), failure)
    ensures failure.None? ==> PausedNow(old(db.Snapshot()), db.Snapshot(), w)
    ensures failure.None? <==> old(Live(db.workflows, w) && !db.workflows[w].status.Paused?)
  {
    if w !in db.workflows { return Some(NotFound); }
    var r := db.workflows[w];
    if r.status.Paused? || r.status.Terminal() { return Some(Conflict); }
    PauseMeans(db.Snapshot(), w);
    if r.wait.OnActivity? && r.wait.activity in db.activities {
      var a := db.activities[r.wait.activity];
      if a.status.ActRunning? {
        db.activities := db.activities[r.wait.activity :=
          a.(status := ActCancelling, maxAttempts := a.maxAttempts + 1, revoked := Some(AttemptOperatorPaused),
             pauses := a.pauses + 1)];
      }
    }
    db.workflows := db.workflows[w := r.(status := Paused, lease := None)];
    return None;
  }

  method ResumeWorkflow(db: Database, w: nat, now: int) returns (failure: Option<Failure>)
    modifies db
    ensures Did(Resume(old(db.Snapshot()), w, now), old(db.Snapshot()), db.Snapshot(), failure)
    ensures old(Inv(db.Snapshot())) ==>
      && (failure.None? <==> old(w in db.workflows && db.workflows[w].status.Paused?))
      && (failure.None? ==> ResumedNow(old(db.Snapshot()), db.Snapshot(), w, now))
      && (failure.Some? ==> failure.value in {NotFound, Conflict})
  {
    if Inv(db.Snapshot()) { ResumeMeans(db.Snapshot(), w, now); }
    if w !in db.workflows { return Some(NotFound); }
    var r := db.workflows[w];
    if !r.status.Paused? { return Some(Conflict); }
    var resumed := ResumeStatus(Db(db.workflows, db.activities, db.approvals), r);
    match resumed {
      case CannotResume(reason) => return Some(reason);
      case ResumeTo(status) =>
        db.workflows := db.workflows[w := r.(status := status, lease := None)];
        if status.Ready? {
          db.workflows := db.workflows[w := db.workflows[w].(counters := r.counters.(availableAt := now))];
        }
        return None;
    }
  }

  method CancelWorkflow(db: Database, w: nat, outcome: AttemptOutcome, now: int)
    returns (failure: Option<Failure>, ghost order: seq<nat>)
    requires Inv(db.Snapshot())
    modifies db
    ensures Did(Cancel(old(db.Snapshot()), w, order, outcome, now), old(db.Snapshot()), db.Snapshot(), failure)
    ensures failure.None? ==>
      w in old(db.workflows) && CascadeOrder(CancelOne(old(db.Snapshot()), w, outcome, now).workflows, w, order)
    ensures Inv(db.Snapshot())
    ensures failure.None? <==> old(Live(db.workflows, w))
    ensures failure.None? ==> Cancels(old(db.Snapshot()), db.Snapshot(), {w} + Members(order), outcome, now)
  {
    order := [];
    if w !in db.workflows { return Some(NotFound), []; }
    if db.workflows[w].status.Terminal() { return Some(Conflict), []; }
    CancelOneKeeps(db.Snapshot(), w, outcome, now);
    db.CancelOneWorkflow(w, outcome, now);
    CancelAllKeepsFor(db, outcome, now);
    order := db.CancelOwnedDescendants(w, outcome, now);
    CancelMeans(old(db.Snapshot()), w, order, outcome, now);
    failure := None;
  }

  /** Whatever rows a cascade visits, it keeps the invariant. */
  lemma CancelAllKeepsFor(db: Database, outcome: AttemptOutcome, now: int)
    requires Inv(db.Snapshot())
    ensures forall order :: Inv(CancelAll(db.Snapshot(), order, outcome, now))
  {
    forall order ensures Inv(CancelAll(db.Snapshot(), order, outcome, now)) {
      CancelAllKeeps(db.Snapshot(), order, outcome, now);
    }
  }

  /** Starts a successor of a terminal, paused or blocked workflow; a live one is cancelled with what it owns. */
  method RestartWorkflow(db: Database, w: nat, id: nat, version: int, now: int)
    returns (failure: Option<Failure>, ghost order: seq<nat>)
    requires Inv(db.Snapshot()) && id !in db.workflows && w < id
    modifies db
    ensures Did(Restart(old(db.Snapshot()), w, id, version, order, now), old(db.Snapshot()), db.Snapshot(), failure)
    ensures failure.None? ==> w in old(db.workflows) && w in db.workflows && db.workflows[w].status.Terminal()
    ensures failure.None? && !old(db.workflows)[w].status.Terminal() ==>
      CascadeOrder(Supersede(old(db.Snapshot()), w, id,
                             Definition(old(db.workflows)[w].identity.definition.kind, version), now).workflows,
                   w, order)
    ensures failure.None? <==> old(w in db.workflows
      && (db.workflows[w].status.Terminal() || db.workflows[w].status.Paused? || db.workflows[w].status.Blocked?)
      && forall v :: v in db.workflows ==> db.workflows[v].identity.restartedFrom != Some(w))
    ensures failure.None? ==>
      var definition := Definition(old(db.workflows)[w].identity.definition.kind, version);
      var mid := Supersede(old(db.Snapshot()), w, id, definition, now);
      && Superseded(old(db.Snapshot()), mid, w, id, definition, now)
      && NextGeneration(db.Snapshot(), w, id, definition, now)
      && (if old(Live(db.workflows, w))
          then Cancels(mid, db.Snapshot(), Members(order), AttemptOperatorCancelled, now) else db.Snapshot() == mid)
  {
    order := [];
    if w !in db.workflows { return Some(NotFound), []; }
    var source := db.workflows[w];
    if !source.status.Restartable() { return Some(Conflict), []; }
    var taken := db.LockSuccessor(w);
    if taken.Some? { return Some(Conflict), []; }
    var definition := Definition(source.identity.definition.kind, version);
    ghost var before := db.Snapshot();
    SupersedeKeeps(before, w, id, definition, now);
    SupersedeEndsRow(before, w, id, definition, now);
    db.workflows := db.workflows[id := NewWorkflow(definition, None, None, 0, Some(w), now)];
    if !source.status.Terminal() {
      db.CancelOwnActivities(w, AttemptOperatorCancelled);
      db.CancelPendingApprovals(w);
      db.workflows := db.workflows[w := source.(status := Cancelled, lease := None)];
      db.WakeWaitingParents(w, source.identity.definition, ChildFailed("child_superseded"), now);
      assert db.Snapshot() == Supersede(before, w, id, definition, now);
      order := db.CancelOwnedDescendants(w, AttemptOperatorCancelled, now);
      CancelAllEnds(Supersede(before, w, id, definition, now), order, AttemptOperatorCancelled, now);
    }
    RestartMeans(before, w, id, version, order, now);
    failure := None;
  }

  lemma SupersedeEndsRow(db: Db, w: nat, id: nat, definition: Definition, now: int)
    requires w in db.workflows && id !in db.workflows && w < id
    ensures w in Supersede(db, w, id, definition, now).workflows
    ensures Supersede(db, w, id, definition, now).workflows[w].status.Terminal()
  {
    if Live(db.workflows, w) { SupersedeEnds(db, w, id, definition, now); }
  }

  /** Replaces a dead-lettered activity that blocks its workflow. */
  method RetryActivity(db: Database, a: nat, id: nat, spec: ActivitySpec, now: int) returns (failure: Option<Failure>)
    modifies db
    ensures Did(Retry(old(db.Snapshot()), a, id, spec, now), old(db.Snapshot()), db.Snapshot(), failure)
    ensures failure.None? ==> Replaced(old(db.Snapshot()), db.Snapshot(), a, id, spec, now)
    ensures failure.None? <==> old(a in db.activities && db.activities[a].origin.workflow in db.workflows
      && db.activities[a].status.ActDeadLettered? && db.workflows[db.activities[a].origin.workflow].status.Blocked?
      && db.workflows[db.activities[a].origin.workflow].wait == OnActivity(a))
  {
    if a !in db.activities || db.activities[a].origin.workflow !in db.workflows { return Some(NotFound); }
    var source := db.activities[a];
    var w := source.origin.workflow;
    var r := db.workflows[w];
    if !r.status.Blocked? || r.wait != OnActivity(a) || !source.status.ActDeadLettered? { return Some(Conflict); }
    RetryMeans(db.Snapshot(), a, id, spec, now);
    db.activities := db.activities[id :=
      NewActivity(Origin(w, source.origin.command, source.origin.replacement + 1, spec), now)];
    db.workflows := db.workflows[w :=
      r.(status := WaitingActivity, wait := OnActivity(id), counters := r.counters.(availableAt := now),
         corrected := r.corrected || spec.definition != source.origin.spec.definition)];
    return None;
  }

  // ---- Timers and approvals ------------------------------------------------------------------------

  method MaterializeTimer(db: Database, w: nat, now: int) returns (failure: Option<Failure>)
    modifies db
    ensures Did(FireTimer(old(db.Snapshot()), w, now), old(db.Snapshot()), db.Snapshot(), failure)
    ensures old(Inv(db.Snapshot())) ==>
      (failure.None? <==> old(w in db.workflows && db.workflows[w].status.Sleeping?
                              && db.workflows[w].counters.availableAt <= now))
    ensures old(Inv(db.Snapshot())) && failure.None? ==>
      && OnlyRow(old(db.Snapshot()), db.Snapshot(), w)
      && Got(old(db.workflows)[w], db.workflows[w], TimerFired(old(db.workflows)[w].command), now)
  {
    if Inv(db.Snapshot()) { TimerMeans(db.Snapshot(), w, now); }
    if w !in db.workflows { return Some(NotFound); }
    var r := db.workflows[w];
    if !r.status.Sleeping? || !r.wait.OnTimer? || r.counters.availableAt > now { return Some(Conflict); }
    var command := WaitCommand(r);
    if command.None? { return Some(InvalidState); }
    AppendDelivery(db, w, TimerFired(command.value));
    ClearWait(db, w, now);
    return None;
  }

  method AppendDelivery(db: Database, w: nat, event: Event)
    requires w in db.workflows
    modifies db`workflows
    ensures db.workflows == old(db.workflows)[w := old(db.workflows)[w].(inbox :=
      old(db.workflows)[w].inbox + [Delivery(old(db.workflows)[w].delivered + 1, event)])]
    ensures old(Consumed(db.workflows[w])) ==>
      NextDelivery(db.workflows[w].inbox, db.workflows[w].delivered) == Some(db.workflows[w].delivered + 1)
  {
    if Consumed(db.workflows[w]) { AppendIsNext(db.workflows[w].inbox, event); }
    var r := db.workflows[w];
    db.workflows := db.workflows[w := r.(inbox := r.inbox + [Delivery(r.delivered + 1, event)])];
  }

  /** Every delivery of the row was consumed. */
  ghost predicate Consumed(r: Workflow) {
    |r.inbox| == r.delivered && forall i :: 0 <= i < |r.inbox| ==> r.inbox[i].sequence == i + 1
  }

  method ClearWait(db: Database, w: nat, now: int)
    requires w in db.workflows
    modifies db`workflows
    ensures var r := old(db.workflows)[w];
      db.workflows == old(db.workflows)[w := r.(status := if r.status.Paused? then Paused else Ready, wait := NoWait,
                                                counters := r.counters.(availableAt := now))]
    ensures db.workflows[w].Expecting()
    ensures !old(db.workflows)[w].status.Paused? ==>
      forall token, leaseMillis :: ClaimWorkflow(db.Snapshot(), w, token, leaseMillis, now).Commit?
  {
    var r := db.workflows[w];
    var status := if r.status.Paused? then Paused else Ready;
    db.workflows := db.workflows[w := r.(status := status, wait := NoWait,
                                         counters := r.counters.(availableAt := now))];
  }

  method MaterializeExpiry(db: Database, p: nat, now: int) returns (failure: Option<Failure>)
    modifies db
    ensures Did(ExpireApproval(old(db.Snapshot()), p, now), old(db.Snapshot()), db.Snapshot(), failure)
    ensures old(Inv(db.Snapshot())) && db.Snapshot() != old(db.Snapshot()) ==>
      && old(Awaited(db.Snapshot(), p) && PastExpiry(db.approvals[p], now))
      && Closes(old(db.Snapshot()), db.Snapshot(), p, ApprovalExpired, ApprovalLapsed(old(db.approvals)[p].command),
                now)
    ensures old(Inv(db.Snapshot()) && Awaited(db.Snapshot(), p) && PastExpiry(db.approvals[p], now)) ==>
      failure.None? && p in db.approvals && db.approvals[p].status.ApprovalExpired?
  {
    ApprovalEndMeans(db.Snapshot(), p, now);
    if p !in db.approvals || db.approvals[p].workflow !in db.workflows { return Some(NotFound); }
    var approval := db.approvals[p];
    var w := approval.workflow;
    if !approval.status.ApprovalPending? || approval.expiresAt.None? || approval.expiresAt.value > now { return None; }
    if !ApprovalMatches(Db(db.workflows, db.activities, db.approvals), p) { return Some(InvalidState); }
    if WaitCommand(db.workflows[w]) != Some(approval.command) { return Some(InvalidState); }
    db.approvals := db.approvals[p := approval.(status := ApprovalExpired)];
    AppendDelivery(db, w, ApprovalLapsed(approval.command));
    ClearWait(db, w, now);
    return None;
  }

  method ResolvePendingApproval(db: Database, p: nat, now: int) returns (failure: Option<Failure>)
    modifies db
    ensures Did(ResolveApproval(old(db.Snapshot()), p, now), old(db.Snapshot()), db.Snapshot(), failure)
    ensures old(Inv(db.Snapshot())) ==>
      (failure.None? <==> old(Awaited(db.Snapshot(), p) && !PastExpiry(db.approvals[p], now)))
    ensures old(Inv(db.Snapshot())) && failure.None? ==>
      Closes(old(db.Snapshot()), db.Snapshot(), p, ApprovalResolved, ApprovalGiven(old(db.approvals)[p].command), now)
  {
    ApprovalEndMeans(db.Snapshot(), p, now);
    if p !in db.approvals || db.approvals[p].workflow !in db.workflows { return Some(NotFound); }
    var approval := db.approvals[p];
    var w := approval.workflow;
    if !approval.status.ApprovalPending? { return Some(Conflict); }
    if approval.expiresAt.Some? && approval.expiresAt.value <= now { return Some(Conflict); }
    if !ApprovalMatches(Db(db.workflows, db.activities, db.approvals), p) { return Some(Conflict); }
    db.approvals := db.approvals[p := approval.(status := ApprovalResolved)];
    AppendDelivery(db, w, ApprovalGiven(approval.command));
    ClearWait(db, w, now);
    return None;
  }

  // ---- Recoverable starts ----------------------------------------------------------------------------

  /** Other transactions commit; callers know only that they keep the invariant and leave `id` unused. */
  method OthersCommit(db: Database, ghost id: nat)
    requires Inv(db.Snapshot()) && id !in db.workflows && (forall w :: w in db.workflows ==> w < id)
    modifies db
    ensures Inv(db.Snapshot()) && id !in db.workflows && (forall w :: w in db.workflows ==> w < id)
  {
  }

  /** Starts the key, returns its newest generation, or starts a generation that replaces a failed or
      blocked one. A row that the first read finds stays locked; if it finds none, others may commit before
      the insert reads the key again. `seen` is the database the transaction acts on. */
  method RecoverableStartIn(db: Database, id: nat, definition: Definition, key: Key, now: int)
    returns (named: nat, ghost lookup: Option<nat>, ghost seen: Db, ghost order: seq<nat>)
    requires Inv(db.Snapshot()) && id !in db.workflows && (forall w :: w in db.workflows ==> w < id)
    modifies db
    ensures lookup == FindByKey(old(db.workflows), definition.kind, key)
    ensures lookup.Some? ==> seen == old(db.Snapshot())
    ensures Inv(seen) && Allowed(seen, DoRecoverableStart(lookup, id, definition, key, order), now)
    ensures (named, Commit(db.Snapshot())) == RecoverableStart(seen, lookup, id, definition, key, order, now)
    ensures Inv(db.Snapshot())
    ensures named == id <==> NeedsNewRow(seen, lookup, definition.kind, key)
    ensures named != id ==> db.Snapshot() == seen
    ensures named == id ==> StartedRow(seen, db.Snapshot(), lookup, id, definition, key, order, now)
  {
    order := [];
    seen := db.Snapshot();
    var found := LookUpKey(db, definition.kind, key);
    lookup := found;
    if found.None? {
      OthersCommit(db, id);
      seen := db.Snapshot();
      RecoverableStartKeeps(seen, None, id, definition, key, [], now);
      var appeared := LookUpKey(db, definition.kind, key);
      RecoverableStartRecovers(seen, None, id, definition, key, [], now);
      if appeared.Some? { return appeared.value, lookup, seen, []; }
      RecoverableStartMeans(seen, None, id, definition, key, [], now);
      db.workflows := db.workflows[id := NewWorkflow(definition, Some(key), None, 0, None, now)];
      return id, lookup, seen, [];
    }
    var latest := db.LockNewestGeneration(found.value);
    var source := db.workflows[latest];
    if source.status != Failed && source.status != Blocked { return latest, lookup, seen, []; }
    order := StartNextGeneration(db, found.value, latest, id, definition, key, now);
    named := id;
  }

  /** Starts the generation that replaces `latest`, the newest one of the keyed row, which failed or is blocked. */
  method StartNextGeneration(db: Database, keyed: nat, latest: nat, id: nat, definition: Definition, key: Key, now: int)
    returns (ghost order: seq<nat>)
    requires Inv(db.Snapshot()) && keyed in db.workflows && HasKey(db.workflows[keyed], definition.kind, key)
    requires latest == Newest(db.workflows, keyed) && latest < id && id !in db.workflows
    requires db.workflows[latest].status.Failed? || db.workflows[latest].status.Blocked?
    modifies db
    ensures Allowed(old(db.Snapshot()), DoRecoverableStart(Some(keyed), id, definition, key, order), now)
    ensures (id, Commit(db.Snapshot()))
         == RecoverableStart(old(db.Snapshot()), Some(keyed), id, definition, key, order, now)
    ensures Inv(db.Snapshot())
    ensures StartedRow(old(db.Snapshot()), db.Snapshot(), Some(keyed), id, definition, key, order, now)
  {
    order := [];
    var source := db.workflows[latest];
    ghost var before := db.Snapshot();
    NewestIsLast(before.workflows, keyed);
    RecoverKeeps(before, latest, id, definition, now);
    db.workflows := db.workflows[id := NewWorkflow(definition, None, None, 0, Some(latest), now)];
    db.CancelDeadLettered(latest);
    if source.status.Blocked? {
      db.workflows := db.workflows[latest := source.(status := Cancelled, lease := None)];
      if definition.version != source.identity.definition.version {
        db.WakeWaitingParents(latest, source.identity.definition, ChildFailed("child_superseded"), now);
      } else {
        db.HandWaitingParents(latest, id);
      }
      assert db.Snapshot() == Recover(before, latest, id, definition, now);
      order := db.CancelOwnedDescendants(latest, AttemptApplicationCancelled, now);
    }
    RecoverableStartKeeps(before, Some(keyed), id, definition, key, order, now);
    RecoverableStartMeans(before, Some(keyed), id, definition, key, order, now);
  }
}
