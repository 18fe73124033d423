/** What the transactions of workers and operators mean to the rest of the
    engine: which fences they close, which slots they free, what can follow. */
module Effects {
  import opened Rows
  import opened Transactions
  import opened Invariant
  import opened Preservation
  import opened System
  import opened Safety

  /** No claim of workflow `w` passes its fence. */
  ghost predicate Unfenced(db: Db, w: nat) {
    forall claim: WorkflowClaim :: claim.id == w ==> !Fenced(db, claim)
  }

  /** No claim of activity `a` passes its fence. */
  ghost predicate Unleased(db: Db, a: nat) {
    forall claim: ActivityClaim :: claim.activity == a ==> !Leased(db, claim)
  }

  ghost predicate SameSlots(db: Db, db': Db) {
    forall topic :: Slots(db', topic) == Slots(db, topic)
  }

  /** `a` leaves its slot, and no other row enters or leaves one. */
  ghost predicate FreesSlot(db: Db, db': Db, a: nat) {
    Unleased(db', a) && forall topic :: Slots(db', topic) == Slots(db, topic) - {a}
  }

  ghost predicate Runs(db: Db, a: nat) { a in db.activities && db.activities[a].status.ActRunning? }

  /** The attempts that are left to claim. */
  function AttemptsLeft(r: Activity): int { r.maxAttempts - r.attemptCount }

  // ---- Coordinators ---------------------------------------------------------------------------

  /** The old holder is fenced out, and another one can claim the row at once and finds the same delivery. */
  ghost predicate LeaseRecovered(db: Db, db': Db, w: nat, now: int) {
    && w in db.workflows && w in db'.workflows
    && Unfenced(db', w)
    && (forall token, leaseMillis :: ClaimWorkflow(db', w, token, leaseMillis, now).Commit?)
    && NextDelivery(db'.workflows[w].inbox, db'.workflows[w].delivered)
       == NextDelivery(db.workflows[w].inbox, db.workflows[w].delivered)
    && (Inv(db) ==> Inv(db') && NextDelivery(db'.workflows[w].inbox, db'.workflows[w].delivered).Some?)
  }

  lemma RecoverLeaseMeans(db: Db, w: nat, now: int)
    requires RecoverLease(db, w, now).Commit?
    ensures LeaseRecovered(db, RecoverLease(db, w, now).db, w, now)
  {
    if Inv(db) {
      RecoverLeaseKeeps(db, w, now);
      var r := db.workflows[w];
      assert WorkflowOk(r);
      NextDeliveryIs(r.inbox, 1, r.delivered);
    }
  }

  // ---- Workers ----------------------------------------------------------------------------------

  /** The lease is still held, expires exactly one lease after the sample, covers every deadline computed
      from it, the latest of them to the microsecond, and nothing else changed. */
  ghost predicate Renewed(db: Db, db': Db, claim: ActivityClaim, sampled: int) {
    && Leased(db, claim) && Leased(db', claim)
    && db'.workflows == db.workflows && db'.approvals == db.approvals && db'.activities.Keys == db.activities.Keys
    && (forall a :: a in db.activities && a != claim.activity ==> db'.activities[a] == db.activities[a])
    && (forall started :: started < (sampled + 1) * 1000 && claim.leaseMillis >= 1 ==>
          LocalDeadline(started, claim.leaseMillis) <= db'.activities[claim.activity].lease.value.expires * 1000)
    && (claim.leaseMillis >= 1 ==>
          LocalDeadline(sampled * 1000 + 999, claim.leaseMillis) + 1
          == db'.activities[claim.activity].lease.value.expires * 1000)
    && (forall now :: Expired(db'.activities[claim.activity], now) <==> sampled + claim.leaseMillis <= now)
    && SameSlots(db, db')
    && (Inv(db) ==> Inv(db'))
  }

  lemma HeartbeatMeans(db: Db, claim: ActivityClaim, sampled: int)
    ensures Heartbeat(db, claim, sampled).Commit? ==> Renewed(db, Heartbeat(db, claim, sampled).db, claim, sampled)
    ensures Inv(db) ==> (Heartbeat(db, claim, sampled).Commit? <==> Leased(db, claim))
  {
    if Inv(db) {
      if Heartbeat(db, claim, sampled).Commit? { HeartbeatKeeps(db, claim, sampled); }
      if Leased(db, claim) { assert ActivityOk(db.activities[claim.activity]); }
    }
  }

  lemma ClosedFreesSlot(db: Db, db': Db, a: nat)
    requires a in db.activities && db'.activities.Keys == db.activities.Keys
    requires forall b :: b in db.activities && b != a ==> db'.activities[b] == db.activities[b]
    requires !db'.activities[a].status.HoldsSlot()
    ensures FreesSlot(db, db', a)
  {
  }

  /** The last attempt is closed as `outcome`, and nothing else about attempts changed. */
  ghost predicate ClosedAs(r: Activity, r': Activity, outcome: AttemptOutcome) {
    && r'.lease.None? && r'.attemptCount == r.attemptCount && r'.maxAttempts == r.maxAttempts
    && r.attemptCount in r.attempts && r'.attempts.Keys == r.attempts.Keys
    && r'.attempts[r.attemptCount] == Attempt(r.attempts[r.attemptCount].token, Some(outcome))
    && (forall n :: n in r.attempts && n != r.attemptCount ==> r'.attempts[n] == r.attempts[n])
  }

  /** The activity gave up, and its workflow is blocked on it. */
  ghost predicate GaveUp(db: Db, db': Db, a: nat, outcome: AttemptOutcome)
    requires a in db.activities && a in db'.activities
  {
    var w := db.activities[a].origin.workflow;
    && db'.activities[a].status.ActDeadLettered? && ClosedAs(db.activities[a], db'.activities[a], outcome)
    && w in db.workflows && w in db'.workflows
    && db'.workflows[w] == db.workflows[w].(status := Blocked) && db.workflows[w].wait == OnActivity(a)
  }

  /** The slot is free and the attempt closed: the row is cancelled with its workflow, or a live workflow can
      have it claimed again, at once. */
  ghost predicate Settled(db: Db, db': Db, a: nat, outcome: AttemptOutcome, now: int) {
    && a in db.activities && a in db'.activities && db.activities[a].origin.workflow in db.workflows
    && FreesSlot(db, db', a) && db'.workflows == db.workflows
    && ClosedAs(db.activities[a], db'.activities[a], outcome)
    && (if db.workflows[db.activities[a].origin.workflow].status.Terminal()
        then db'.activities[a].status.ActCancelled?
        else db'.activities[a].status.ActPending? && db'.activities[a].availableAt == now)
    && (Inv(db) && db.activities[a].status.ActCancelling? ==>
          && Inv(db')
          && (WaitsOnActivity(db, db.activities[a].origin.workflow, a) ==>
                && Claimable(db', Quarantine(a, db.activities[a].origin.workflow), now)
                && AttemptsLeft(db'.activities[a]) > 0))
  }

  lemma SettleRevokedMeans(db: Db, a: nat, outcome: AttemptOutcome, now: int)
    requires a in db.activities
    ensures var tx := SettleRevoked(db, a, outcome, now); tx.Commit? ==> Settled(db, tx.db, a, outcome, now)
    ensures Inv(db) && db.activities[a].status.ActCancelling? ==> SettleRevoked(db, a, outcome, now).Commit?
  {
    var tx := SettleRevoked(db, a, outcome, now);
    if Inv(db) && db.activities[a].status.ActCancelling? { RevokedCanSettle(db, a, outcome, now); }
    if tx.Commit? {
      ClosedFreesSlot(db, tx.db, a);
      assert ClosedAs(db.activities[a], tx.db.activities[a], outcome);
    }
  }

  lemma RevokedCanSettle(db: Db, a: nat, outcome: AttemptOutcome, now: int)
    requires Inv(db) && a in db.activities && db.activities[a].status.ActCancelling?
    ensures SettleRevoked(db, a, outcome, now).Commit?
    ensures var db' := SettleRevoked(db, a, outcome, now).db;
      && Inv(db')
      && (WaitsOnActivity(db, db.activities[a].origin.workflow, a) ==>
            && Claimable(db', Quarantine(a, db.activities[a].origin.workflow), now)
            && AttemptsLeft(db'.activities[a]) > 0)
  {
    SettleRevokedKeeps(db, a, outcome, now);
    assert CoupledOk(db, a) && ActivityOk(SettleRevoked(db, a, outcome, now).db.activities[a]);
  }

  /** The slot is free, and the workflow is blocked until an operator retries this activity, which can be done. */
  ghost predicate Blocks(db: Db, db': Db, a: nat, outcome: AttemptOutcome) {
    && a in db.activities && a in db'.activities && db.activities[a].origin.workflow in db'.workflows
    && FreesSlot(db, db', a) && GaveUp(db, db', a, outcome)
    && (forall id, spec, now :: Retry(db', a, id, spec, now).Commit?)
    && (forall w :: w in db.workflows && w != db.activities[a].origin.workflow ==>
          w in db'.workflows && db'.workflows[w] == db.workflows[w])
    && (Inv(db) && db.activities[a].status.ActRunning? ==> Inv(db'))
  }

  lemma DeadLetterMeans(db: Db, a: nat, outcome: AttemptOutcome)
    requires a in db.activities && db.activities[a].attemptCount in db.activities[a].attempts
    ensures var tx := DeadLetter(db, a, outcome); tx.Commit? ==> Blocks(db, tx.db, a, outcome)
    ensures Inv(db) && db.activities[a].status.ActRunning? ==> DeadLetter(db, a, outcome).Commit?
  {
    var tx := DeadLetter(db, a, outcome);
    if Inv(db) && db.activities[a].status.ActRunning? { RunningCanGiveUp(db, a, outcome); }
    if tx.Commit? {
      ClosedFreesSlot(db, tx.db, a);
      assert ClosedAs(db.activities[a], tx.db.activities[a], outcome);
    }
  }

  lemma RunningCanGiveUp(db: Db, a: nat, outcome: AttemptOutcome)
    requires Inv(db) && a in db.activities && db.activities[a].status.ActRunning?
    requires db.activities[a].attemptCount in db.activities[a].attempts
    ensures DeadLetter(db, a, outcome).Commit? && Inv(DeadLetter(db, a, outcome).db)
  {
    var r := db.activities[a];
    assert ActivityOk(r) && CoupledOk(db, a);
    CloseAttemptOk(r, ActDeadLettered, outcome);
    DeadLetterStepKeeps(db, r.origin.workflow, a, CloseAttempt(r, ActDeadLettered, outcome));
  }

  /** The workflow row got exactly one delivery, the result of its current command, and is ready for it; no
      other row changed. */
  ghost predicate Answered(db: Db, db': Db, w: nat, definition: Definition, now: int) {
    && w in db.workflows && w in db'.workflows
    && db'.workflows[w].status.Ready? && db'.workflows[w].wait.NoWait? && db'.workflows[w].counters.availableAt == now
    && db'.workflows[w].command == db.workflows[w].command && db'.workflows[w].delivered == db.workflows[w].delivered
    && db'.workflows[w].inbox == db.workflows[w].inbox
       + [Delivery(db.workflows[w].delivered + 1, ActivityDone(db.workflows[w].command, definition))]
    && (db.workflows[w].asked == AskActivity(definition) || db.workflows[w].corrected)
    && (forall v :: v in db.workflows && v != w ==> v in db'.workflows && db'.workflows[v] == db.workflows[v])
  }

  /** What became of an attempt that ran: a success answers the workflow; a retryable failure waits until
      exactly the given time, while attempts are left; any other failure blocks the workflow at once. */
  ghost predicate FinishedRunning(db: Db, db': Db, a: nat, outcome: HandlerOutcome, now: int)
    requires a in db.activities && a in db'.activities
  {
    var r, r', w := db.activities[a], db'.activities[a], db.activities[a].origin.workflow;
    match outcome
    case HandlerSucceeded =>
      && r'.status.ActSucceeded? && ClosedAs(r, r', AttemptSucceeded)
      && Answered(db, db', w, r.origin.spec.definition, now)
    case HandlerRetryable(availableAt) =>
      if r.attemptCount < r.maxAttempts then
        && r'.status.ActPending? && r'.availableAt == availableAt && ClosedAs(r, r', AttemptRetryable)
        && db'.workflows == db.workflows
        && (forall later :: Claimable(db', Quarantine(a, w), later) <==> availableAt <= later)
      else GaveUp(db, db', a, AttemptDeadLettered)
    case HandlerPermanent => GaveUp(db, db', a, AttemptDeadLettered)
    case HandlerRevoked => false
  }

  /** What became of a revoked attempt, whatever its handler reported: it is closed as it was revoked, and the
      row is cancelled with its workflow, or pending again from `now` on. */
  ghost predicate FinishedRevoked(db: Db, db': Db, a: nat, now: int)
    requires a in db.activities && a in db'.activities
  {
    var r, r', w := db.activities[a], db'.activities[a], db.activities[a].origin.workflow;
    && r.revoked.Some? && ClosedAs(r, r', r.revoked.value)
    && w in db.workflows && db'.workflows == db.workflows
    && (if db.workflows[w].status.Terminal() then r'.status.ActCancelled?
        else r'.status.ActPending? && r'.availableAt == now)
  }

  /** A finished attempt frees its slot and loses its fence, and no other activity changes. */
  ghost predicate Finished(db: Db, db': Db, claim: ActivityClaim, outcome: HandlerOutcome, now: int) {
    && Inv(db') && FreesSlot(db, db', claim.activity)
    && claim.activity in db.activities && db'.activities.Keys == db.activities.Keys
    && (forall b :: b in db.activities && b != claim.activity ==> db'.activities[b] == db.activities[b])
    && (if Runs(db, claim.activity) then FinishedRunning(db, db', claim.activity, outcome, now)
        else FinishedRevoked(db, db', claim.activity, now))
  }

  /** Under the invariant, finishing fails only without the lease, or if a running attempt reports a revocation. */
  lemma FinishMeans(db: Db, claim: ActivityClaim, outcome: HandlerOutcome, now: int)
    requires Inv(db) && ClaimAgrees(db, claim)
    ensures Finish(db, claim, outcome, now).Commit? <==>
      Leased(db, claim) && !(db.activities[claim.activity].status.ActRunning? && outcome.HandlerRevoked?)
    ensures var tx := Finish(db, claim, outcome, now); tx.Commit? ==> Finished(db, tx.db, claim, outcome, now)
  {
    var tx := Finish(db, claim, outcome, now);
    if Leased(db, claim) {
      var a, w := claim.activity, claim.workflow;
      assert ActivityOk(db.activities[a]) && CoupledOk(db, a) && WaitOk(db, w);
    }
    if tx.Commit? {
      FinishKeeps(db, claim, outcome, now);
      FinishFrees(db, claim, outcome, now);
      FinishCloses(db, claim, outcome, now);
    }
  }

  lemma FinishCloses(db: Db, claim: ActivityClaim, outcome: HandlerOutcome, now: int)
    requires Inv(db) && ClaimAgrees(db, claim) && Finish(db, claim, outcome, now).Commit?
    ensures var db' := Finish(db, claim, outcome, now).db;
      if Runs(db, claim.activity) then FinishedRunning(db, db', claim.activity, outcome, now)
      else FinishedRevoked(db, db', claim.activity, now)
  {
    var a, w := claim.activity, claim.workflow;
    assert ActivityOk(db.activities[a]) && CoupledOk(db, a) && WaitOk(db, w);
  }

  lemma FinishFrees(db: Db, claim: ActivityClaim, outcome: HandlerOutcome, now: int)
    requires Finish(db, claim, outcome, now).Commit?
    ensures FreesSlot(db, Finish(db, claim, outcome, now).db, claim.activity)
  {
    ClosedFreesSlot(db, Finish(db, claim, outcome, now).db, claim.activity);
  }

  // ---- Operators ------------------------------------------------------------------------------------

  /** What a pause leaves: the coordinator that ran the row and the handler of its activity cannot change
      its result any more, the revoked attempt is granted back, and the row can be resumed. */
  ghost predicate PausedNow(db: Db, db': Db, w: nat) {
    && w in db.workflows && db'.workflows == db.workflows[w := db.workflows[w].(status := Paused, lease := None)]
    && Unfenced(db', w)
    && SameSlots(db, db')
    && db'.approvals == db.approvals && db'.activities.Keys == db.activities.Keys
    && (forall a :: a in db.activities ==>
          if db.workflows[w].wait == OnActivity(a) && Runs(db, a)
          then RevokedByPause(db.activities[a], db'.activities[a])
          else db'.activities[a] == db.activities[a])
    && (Inv(db) ==>
          && Inv(db')
          && (forall a :: a in db'.activities && db'.activities[a].origin.workflow == w ==> !Runs(db', a))
          && (forall now :: Resume(db', w, now).Commit?))
  }

  /** The attempt goes on to hold its slot and lease until it is settled as paused, and one more is granted. */
  ghost predicate RevokedByPause(r: Activity, r': Activity) {
    && r'.status.ActCancelling? && r'.revoked == Some(AttemptOperatorPaused)
    && r'.lease == r.lease && r'.attempts == r.attempts && r'.origin == r.origin
    && AttemptsLeft(r') == AttemptsLeft(r) + 1 && r'.attemptCount == r.attemptCount && r'.pauses == r.pauses + 1
  }

  /** A claim that a pause revokes costs no attempt: once settled, the row has the attempts left that it
      had before the claim. */
  lemma PauseGrantsBack(r: Activity, token: nat, now: int)
    ensures AttemptsLeft(PausedActivity(TakenRow(r, token, now))) == AttemptsLeft(r)
  {
  }

  lemma PauseMeans(db: Db, w: nat)
    requires Pause(db, w).Commit?
    ensures PausedNow(db, Pause(db, w).db, w)
  {
    var db' := Pause(db, w).db;
    if Inv(db) {
      PauseKeeps(db, w);
      forall a | a in db'.activities && db'.activities[a].origin.workflow == w
        ensures !Runs(db', a)
      {
        assert CoupledOk(db', a);
      }
      ResumeNeverStuck(db', w);
    }
  }

  /** The status a paused row came from, once its interrupted activation is retried. */
  function Resting(status: WorkflowStatus): WorkflowStatus { if status.Running? then Ready else status }

  /** Resuming a row that was just paused puts it back: same wait, inbox and command, and the status it
      had, or ready if it was running. */
  lemma PauseThenResume(db: Db, w: nat, now: int)
    requires Inv(db) && Pause(db, w).Commit?
    ensures Resume(Pause(db, w).db, w, now).Commit?
    ensures var r, r' := db.workflows[w], Resume(Pause(db, w).db, w, now).db.workflows[w];
      && r'.status == Resting(r.status)
      && r' == r.(status := r'.status, lease := None, counters := r'.counters)
  {
    assert WorkflowOk(db.workflows[w]) && WaitOk(db, w);
    PauseKeeps(db, w);
    ResumeNeverStuck(Pause(db, w).db, w);
  }

  /** The row waits on what it waited on, no longer paused. */
  ghost predicate ResumedNow(db: Db, db': Db, w: nat, now: int) {
    && w in db.workflows && w in db'.workflows
    && !db'.workflows[w].status.Paused? && db'.workflows[w].wait == db.workflows[w].wait
    && db'.workflows[w].inbox == db.workflows[w].inbox && db'.workflows[w].command == db.workflows[w].command
    && (db'.workflows[w].status.Ready? <==> db.workflows[w].wait.NoWait?)
    && db'.workflows[w].counters
       == (if db'.workflows[w].status.Ready? then db.workflows[w].counters.(availableAt := now)
           else db.workflows[w].counters)
    && db'.activities == db.activities && SameSlots(db, db')
    && Inv(db')
  }

  /** Under the invariant a resume succeeds exactly for paused rows. */
  lemma ResumeMeans(db: Db, w: nat, now: int)
    requires Inv(db)
    ensures Resume(db, w, now).Commit? <==> w in db.workflows && db.workflows[w].status.Paused?
    ensures Resume(db, w, now).Commit? ==> ResumedNow(db, Resume(db, w, now).db, w, now)
    ensures Resume(db, w, now).Abort? ==> Resume(db, w, now).failure in {NotFound, Conflict}
  {
    if w in db.workflows && db.workflows[w].status.Paused? {
      assert WorkflowOk(db.workflows[w]) && WaitOk(db, w);
      ResumeNeverStuck(db, w);
      ResumeKeeps(db, w, now);
    }
  }

  /** The workflow waits on the new row, the last of its command, which has all its attempts. */
  ghost predicate Replaced(db: Db, db': Db, a: nat, id: nat, spec: ActivitySpec, now: int) {
    && a in db.activities && a in db'.activities && id in db'.activities
    && var w := db.activities[a].origin.workflow;
    && WaitsOnActivity(db', w, id)
    && db'.activities[id].origin
       == Origin(w, db.activities[a].origin.command, db.activities[a].origin.replacement + 1, spec)
    && (forall later :: Claimable(db', Quarantine(id, w), later) <==> now <= later)
    && AttemptsLeft(db'.activities[id]) == spec.maxAttempts
    && (id !in db.activities ==> db'.activities[a] == db.activities[a] && SameSlots(db, db'))
    && (Inv(db) && id !in db.activities && spec.maxAttempts >= 1 ==>
          && Inv(db')
          && (forall b :: b in db.activities && SameCommandRow(db, a, b) ==>
                db.activities[b].origin.replacement < db'.activities[id].origin.replacement))
  }

  ghost predicate SameCommandRow(db: Db, a: nat, b: nat)
    requires a in db.activities && b in db.activities
  {
    && db.activities[b].origin.workflow == db.activities[a].origin.workflow
    && db.activities[b].origin.command == db.activities[a].origin.command
  }

  lemma RetryMeans(db: Db, a: nat, id: nat, spec: ActivitySpec, now: int)
    requires Retry(db, a, id, spec, now).Commit?
    ensures Replaced(db, Retry(db, a, id, spec, now).db, a, id, spec, now)
  {
    var w := db.activities[a].origin.workflow;
    if Inv(db) && id !in db.activities && spec.maxAttempts >= 1 {
      RetryKeeps(db, a, id, spec, now);
      assert WaitOk(db, w);
      forall b | b in db.activities && SameCommandRow(db, a, b)
        ensures db.activities[b].origin.replacement <= db.activities[a].origin.replacement
      {
        assert WaitsOnLastOf(db, w, b);
      }
    }
  }

  // ---- Rows --------------------------------------------------------------------------------------------

  /** A revoked row keeps its slot, its lease and its attempts, and can neither be claimed nor succeed. */
  lemma RevokedKeeps(r: Activity, outcome: AttemptOutcome)
    ensures var r' := CancelledActivity(r, outcome);
      && (r'.status.HoldsSlot() <==> r.status.HoldsSlot())
      && !r'.status.ActPending? && !r'.status.ActRunning?
      && r'.attempts == r.attempts && (r.status.HoldsSlot() ==> r'.lease == r.lease)
      && (ActivityOk(r) ==> ActivityOk(r'))
  {
    if ActivityOk(r) { SameActivityOk(r, CancelledActivity(r, outcome)); }
  }

  /** Appending to an inbox that is numbered and consumed leaves one delivery, the next one. */
  lemma AppendIsNext(inbox: seq<Delivery>, event: Event)
    requires forall i :: 0 <= i < |inbox| ==> inbox[i].sequence == i + 1
    ensures NextDelivery(inbox + [Delivery(|inbox| + 1, event)], |inbox|) == Some(|inbox| + 1)
  {
    NextDeliveryIs(inbox + [Delivery(|inbox| + 1, event)], 1, |inbox|);
  }
}
