/** Attempt rows are a log: attempts are only added, a finished one never
    changes, and success or cancellation of an activity is final. */
module Attempts {
  import opened Rows
  import opened Transactions
  import opened Invariant
  import opened Preservation

  ghost predicate AttemptKept(r: Activity, r': Activity, n: nat)
    requires n in r.attempts
  {
    && n in r'.attempts && r'.attempts[n].token == r.attempts[n].token
    && (r.attempts[n].finished.Some? ==> r'.attempts[n] == r.attempts[n])
  }

  /** What any transaction keeps of an activity. */
  ghost predicate ActivityFollows(r: Activity, r': Activity) {
    && r'.origin == r.origin
    && r.attemptCount <= r'.attemptCount && r.pauses <= r'.pauses
    && (forall n {:trigger AttemptKept(r, r', n)} :: n in r.attempts ==> AttemptKept(r, r', n))
    && (r.status.ActSucceeded? || r.status.ActCancelled? ==> r' == r)
    && (r.status.ActDeadLettered? ==> r'.status.ActDeadLettered? || r'.status.ActCancelled?)
  }

  ghost predicate AttemptsFollow(acts: map<nat, Activity>, acts': map<nat, Activity>) {
    && (forall a :: a in acts ==> a in acts')
    && (forall a {:trigger ActivityFollows(acts[a], acts'[a])} :: a in acts ==> ActivityFollows(acts[a], acts'[a]))
  }

  lemma SameRowFollows(r: Activity)
    ensures ActivityFollows(r, r)
  {
    forall n | n in r.attempts ensures AttemptKept(r, r, n) {
    }
  }

  lemma SameFollow(acts: map<nat, Activity>)
    ensures AttemptsFollow(acts, acts)
  {
    forall a | a in acts ensures ActivityFollows(acts[a], acts[a]) { SameRowFollows(acts[a]); }
  }

  lemma RowTransitive(a: Activity, b: Activity, c: Activity)
    requires ActivityFollows(a, b) && ActivityFollows(b, c)
    ensures ActivityFollows(a, c)
  {
    forall n | n in a.attempts ensures AttemptKept(a, c, n) {
      assert AttemptKept(a, b, n) && AttemptKept(b, c, n);
    }
  }

  lemma AttemptsTransitive(a: map<nat, Activity>, b: map<nat, Activity>, c: map<nat, Activity>)
    requires AttemptsFollow(a, b) && AttemptsFollow(b, c)
    ensures AttemptsFollow(a, c)
  {
    forall x | x in a ensures ActivityFollows(a[x], c[x]) {
      assert ActivityFollows(a[x], b[x]) && ActivityFollows(b[x], c[x]);
      RowTransitive(a[x], b[x], c[x]);
    }
  }

  // ---- Shapes ---------------------------------------------------------------------------

  lemma OneFollows(acts: map<nat, Activity>, a: nat, r': Activity)
    requires a in acts ==> ActivityFollows(acts[a], r')
    ensures AttemptsFollow(acts, acts[a := r'])
  {
    forall x | x in acts ensures ActivityFollows(acts[x], acts[a := r'][x]) { SameRowFollows(acts[x]); }
  }

  /** Status columns change, the attempts do not. */
  lemma SameAttempts(r: Activity, r': Activity)
    requires r'.origin == r.origin && r'.attempts == r.attempts && r'.attemptCount == r.attemptCount
    requires r.pauses <= r'.pauses
    requires || r' == r || r.status.ActPending? || r.status.HoldsSlot()
             || (r.status.ActDeadLettered? && r'.status.ActCancelled?)
    ensures ActivityFollows(r, r')
  {
    forall n | n in r.attempts ensures AttemptKept(r, r', n) {
    }
  }

  lemma ClosedFollows(r: Activity, status: ActivityStatus, outcome: AttemptOutcome, availableAt: int)
    requires ActivityOk(r) && r.status.HoldsSlot()
    ensures ActivityFollows(r, CloseAttempt(r, status, outcome).(availableAt := availableAt))
  {
    var r' := CloseAttempt(r, status, outcome).(availableAt := availableAt);
    forall n | n in r.attempts ensures AttemptKept(r, r', n) {
    }
  }

  lemma TakenFollows(r: Activity, token: nat, now: int)
    requires ActivityOk(r) && r.status.ActPending?
    ensures ActivityFollows(r, TakenRow(r, token, now))
  {
    var r' := TakenRow(r, token, now);
    forall n | n in r.attempts ensures AttemptKept(r, r', n) {
    }
  }

  // ---- Transactions -----------------------------------------------------------------------

  lemma CancelActivitiesFollow(acts: map<nat, Activity>, w: nat, outcome: AttemptOutcome)
    ensures AttemptsFollow(acts, CancelActivities(acts, w, outcome))
  {
    forall a | a in acts ensures ActivityFollows(acts[a], CancelActivities(acts, w, outcome)[a]) {
      SameAttempts(acts[a], CancelActivities(acts, w, outcome)[a]);
    }
  }

  lemma CancelDeadLettersFollow(acts: map<nat, Activity>, w: nat)
    ensures AttemptsFollow(acts, CancelDeadLetters(acts, w))
  {
    forall a | a in acts ensures ActivityFollows(acts[a], CancelDeadLetters(acts, w)[a]) {
      SameAttempts(acts[a], CancelDeadLetters(acts, w)[a]);
    }
  }

  lemma {:induction false} CancelAllAttempts(db: Db, order: seq<nat>, outcome: AttemptOutcome, now: int)
    ensures AttemptsFollow(db.activities, CancelAll(db, order, outcome, now).activities)
    decreases |order|
  {
    if order == [] {
      SameFollow(db.activities);
    } else if Live(db.workflows, order[0]) {
      var db1 := CancelOne(db, order[0], outcome, now);
      CancelActivitiesFollow(db.activities, order[0], outcome);
      CancelAllAttempts(db1, order[1..], outcome, now);
      AttemptsTransitive(db.activities, db1.activities, CancelAll(db1, order[1..], outcome, now).activities);
    } else {
      CancelAllAttempts(db, order[1..], outcome, now);
    }
  }

  lemma ThenCancelAllAttempts(db: Db, db1: Db, order: seq<nat>, outcome: AttemptOutcome, now: int)
    requires AttemptsFollow(db.activities, db1.activities)
    ensures AttemptsFollow(db.activities, CancelAll(db1, order, outcome, now).activities)
  {
    CancelAllAttempts(db1, order, outcome, now);
    AttemptsTransitive(db.activities, db1.activities, CancelAll(db1, order, outcome, now).activities);
  }

  lemma CancelAttempts(db: Db, w: nat, order: seq<nat>, outcome: AttemptOutcome, now: int)
    requires Cancel(db, w, order, outcome, now).Commit?
    ensures AttemptsFollow(db.activities, Cancel(db, w, order, outcome, now).db.activities)
  {
    CancelActivitiesFollow(db.activities, w, outcome);
    ThenCancelAllAttempts(db, CancelOne(db, w, outcome, now), order, outcome, now);
  }

  lemma RestartAttempts(db: Db, w: nat, id: nat, version: int, order: seq<nat>, now: int)
    requires Restart(db, w, id, version, order, now).Commit?
    ensures AttemptsFollow(db.activities, Restart(db, w, id, version, order, now).db.activities)
  {
    SameFollow(db.activities);
    CancelActivitiesFollow(db.activities, w, AttemptOperatorCancelled);
    var definition := Definition(db.workflows[w].identity.definition.kind, version);
    ThenCancelAllAttempts(db, Supersede(db, w, id, definition, now), order, AttemptOperatorCancelled, now);
  }

  lemma RecoverableStartAttempts(db: Db, lookup: Option<nat>, id: nat, definition: Definition, key: Key,
                                 order: seq<nat>, now: int)
    requires lookup.Some? ==> lookup.value in db.workflows
    ensures AttemptsFollow(db.activities, RecoverableStart(db, lookup, id, definition, key, order, now).1.db.activities)
  {
    SameFollow(db.activities);
    if lookup.Some? {
      var latest := Newest(db.workflows, lookup.value);
      CancelDeadLettersFollow(db.activities, latest);
      ThenCancelAllAttempts(db, Recover(db, latest, id, definition, now), order, AttemptApplicationCancelled, now);
    }
  }

  lemma PauseAttempts(db: Db, w: nat)
    requires Pause(db, w).Commit?
    ensures AttemptsFollow(db.activities, Pause(db, w).db.activities)
  {
    SameFollow(db.activities);
    var r := db.workflows[w];
    if r.wait.OnActivity? && r.wait.activity in db.activities {
      SameAttempts(db.activities[r.wait.activity], PausedActivity(db.activities[r.wait.activity]));
      OneFollows(db.activities, r.wait.activity, PausedActivity(db.activities[r.wait.activity]));
    }
  }

  lemma InsertAttempts(acts: map<nat, Activity>, id: nat, origin: Origin, availableAt: int)
    requires id !in acts
    ensures AttemptsFollow(acts, acts[id := NewActivity(origin, availableAt)])
  {
    OneFollows(acts, id, NewActivity(origin, availableAt));
  }

  lemma HeartbeatAttempts(db: Db, claim: ActivityClaim, sampled: int)
    requires Heartbeat(db, claim, sampled).Commit?
    ensures AttemptsFollow(db.activities, Heartbeat(db, claim, sampled).db.activities)
  {
    var r' := Heartbeat(db, claim, sampled).db.activities[claim.activity];
    SameAttempts(db.activities[claim.activity], r');
    OneFollows(db.activities, claim.activity, r');
  }

  lemma FinishAttempts(db: Db, claim: ActivityClaim, outcome: HandlerOutcome, now: int)
    requires Inv(db) && Finish(db, claim, outcome, now).Commit?
    ensures AttemptsFollow(db.activities, Finish(db, claim, outcome, now).db.activities)
  {
    var a := claim.activity;
    var r, r' := db.activities[a], Finish(db, claim, outcome, now).db.activities[a];
    assert ActivityOk(r);
    var closed := r'.attempts[r.attemptCount].finished;
    assert closed.Some?;
    assert r' == CloseAttempt(r, r'.status, closed.value).(availableAt := r'.availableAt);
    ClosedFollows(r, r'.status, closed.value, r'.availableAt);
    OneFollows(db.activities, a, r');
  }

  lemma OpAttempts(db: Db, op: RowOp, now: int)
    requires Inv(db) && OpEnabled(db, op, now)
    ensures AttemptsFollow(db.activities, ApplyOp(db, op, now).activities)
  {
    var a := op.activity;
    var r, r' := db.activities[a], ApplyOp(db, op, now).activities[a];
    assert ActivityOk(r);
    match op
    case Settle(_, _, _) =>
      assert r' == CloseAttempt(r, r'.status, AttemptLeaseExpired).(availableAt := r'.availableAt);
      ClosedFollows(r, r'.status, AttemptLeaseExpired, r'.availableAt);
    case Take(_, _, token) => TakenFollows(r, token, now);
    case Quarantine(_, _) => SameAttempts(r, r');
    OneFollows(db.activities, a, r');
  }
}
