/** What the invariant means for users of the engine, over every run. */
module Theorems {
  import opened Rows
  import opened Transactions
  import opened Invariant
  import opened Preservation
  import opened Commits
  import opened Evolution
  import opened Lineage
  import opened System
  import opened Batches
  import opened Safety
  import opened Runs
  import opened History
  import opened Attempts
  import opened Advance

  // ---- Topic caps and leases --------------------------------------------------------------

  /** In every state of every run, at most `cap` activities of a topic run or wait to be cancelled. */
  lemma TopicCap(states: seq<Sys>, steps: seq<Step>, i: nat, topic: string)
    requires Run(states, steps) && i < |states| && topic in states[i].caps
    ensures |Slots(states[i].db, topic)| <= states[i].caps[topic]
  {
    RunSafe(states, steps, i);
  }

  /** The handlers of the topic that execute. */
  ghost function ExecutingOn(s: Sys, topic: string): set<nat> {
    set t | t in s.handlers && Executing(s, t) && s.handlers[t].activity in s.db.activities
      && s.db.activities[s.handlers[t].activity].origin.spec.topic == topic
  }

  /** Each executing handler occupies a slot of its own. */
  lemma {:induction false} HandlersFillSlots(s: Sys, tokens: set<nat>, slots: set<nat>)
    requires forall t :: t in tokens ==> t in s.handlers && s.handlers[t].activity in slots
    requires forall t, u :: t in tokens && u in tokens && s.handlers[t].activity == s.handlers[u].activity ==> t == u
    ensures |tokens| <= |slots|
    decreases |tokens|
  {
    if tokens != {} {
      var t :| t in tokens;
      var a := s.handlers[t].activity;
      HandlersFillSlots(s, tokens - {t}, slots - {a});
    }
  }

  /** A lease holder never executes more handlers of a topic than its cap, whatever was revoked,
      settled or leased again meanwhile. */
  lemma ExecutionCap(states: seq<Sys>, steps: seq<Step>, i: nat, topic: string)
    requires Run(states, steps) && i < |states| && topic in states[i].caps
    ensures |ExecutingOn(states[i], topic)| <= states[i].caps[topic]
  {
    var s := states[i];
    RunSafe(states, steps, i);
    forall t | t in ExecutingOn(s, topic)
      ensures s.handlers[t].activity in Slots(s.db, topic) && s.db.activities[s.handlers[t].activity].lease.Some?
        && s.db.activities[s.handlers[t].activity].lease.value.token == t
    {
      assert HandlerOk(s, t) && ActivityOk(s.db.activities[s.handlers[t].activity]);
    }
    HandlersFillSlots(s, ExecutingOn(s, topic), Slots(s.db, topic));
  }

  /** Every deadline is at or before the stored expiry of the lease it stands for. */
  lemma DeadlineWithinLease(states: seq<Sys>, steps: seq<Step>, i: nat, t: nat)
    requires Run(states, steps) && i < |states| && Executing(states[i], t)
    ensures var s := states[i];
      var a := s.handlers[t].activity;
      && a in s.db.activities && s.db.activities[a].lease.Some? && s.db.activities[a].lease.value.token == t
      && s.handlers[t].deadline <= s.db.activities[a].lease.value.expires * 1000
  {
    RunSafe(states, steps, i);
    assert HandlerOk(states[i], t);
  }

  /** A row that a batch settles had expired before the batch touched it. */
  lemma {:induction false} SettledHadExpired(db: Db, ops: seq<RowOp>, now: int, k: nat)
    requires OpsEnabled(db, ops, now) && k < |ops| && ops[k].Settle?
    ensures ops[k].activity in db.activities && Expired(db.activities[ops[k].activity], now)
    decreases |ops|
  {
    if k > 0 {
      assert ops[1..][k - 1] == ops[k];
      SettledHadExpired(ApplyOp(db, ops[0], now), ops[1..], now, k - 1);
      ApplyOpTouches(db, ops[0], now);
    }
  }

  /** When a batch settles an attempt, the handler of that attempt has passed its deadline. */
  lemma SettledHandlerIsPast(states: seq<Sys>, steps: seq<Step>, i: nat, id: nat, k: nat, t: nat)
    requires Run(states, steps) && i < |steps| && steps[i] == CommitBatch(id) && id in states[i].batches
    requires k < |states[i].batches[id].ops| && states[i].batches[id].ops[k].Settle?
    requires t in states[i].handlers && states[i].handlers[t].activity == states[i].batches[id].ops[k].activity
    ensures states[i].handlers[t].deadline <= states[i].clock
  {
    var s := states[i];
    var b := s.batches[id];
    RunSafe(states, steps, i);
    assert Next(s, steps[i], states[i + 1]);
    assert BatchOk(s.db, s.clock, s.caps, b);
    SettledHadExpired(s.db, b.ops, b.now, k);
    assert HandlerOk(s, t);
  }

  // ---- Deliveries --------------------------------------------------------------------------

  /** Deliveries are numbered without gaps; a live row has exactly one it has not consumed, the next
      one, if it is ready, running or paused without a wait, and none otherwise. */
  lemma Deliveries(states: seq<Sys>, steps: seq<Step>, i: nat, w: nat)
    requires Run(states, steps) && i < |states| && w in states[i].db.workflows
    ensures var r := states[i].db.workflows[w];
      && (forall k :: 0 <= k < |r.inbox| ==> r.inbox[k].sequence == k + 1)
      && (!r.status.Terminal() ==>
            && |r.inbox| == r.delivered + (if r.Expecting() then 1 else 0)
            && NextDelivery(r.inbox, r.delivered) == if r.Expecting() then Some(r.delivered + 1) else None)
  {
    RunSafe(states, steps, i);
    var r := states[i].db.workflows[w];
    assert WorkflowOk(r);
    NextDeliveryIs(r.inbox, 1, r.delivered);
  }

  /** A coordinator that holds a claim finds its event. */
  lemma ClaimFindsEvent(states: seq<Sys>, steps: seq<Step>, i: nat, t: nat)
    requires Run(states, steps) && i < |states| && t in states[i].claims && Fenced(states[i].db, states[i].claims[t])
    ensures var claim := states[i].claims[t];
      NextDelivery(states[i].db.workflows[claim.id].inbox, claim.row.delivered) == Some(claim.row.delivered + 1)
  {
    RunSafe(states, steps, i);
    FencedClaimAgrees(states[i], t);
    Deliveries(states, steps, i, states[i].claims[t].id);
  }

  // ---- Fencing ------------------------------------------------------------------------------

  /** The row runs under the claim `t`, and the claim remembers it as it is stored. */
  ghost predicate Holds(s: Sys, t: nat) {
    && t in s.claims
    && var claim := s.claims[t];
    && claim.id in s.db.workflows && s.db.workflows[claim.id].status.Running?
    && s.db.workflows[claim.id].lease.Some? && s.db.workflows[claim.id].lease.value.token == t
    && claim.row == s.db.workflows[claim.id]
  }

  lemma TransitionNeedsFence(s: Sys, t: nat, transition: Transition, now: int, s': Sys)
    requires Inv(s.db) && ClaimsOk(s) && TransitionNext(s, t, transition, now, s') && s'.db != s.db
    ensures Holds(s, t) && s.claims[t].loaded == Some(s.claims[t].row.delivered + 1)
    ensures var claim := s.claims[t];
      && claim.id in s'.db.workflows
      && s'.db.workflows[claim.id].delivered == claim.row.delivered + 1
      && s'.db.workflows[claim.id].command
         == claim.row.command + (if transition.Continue? || transition.Complete? then 0 else 1)
  {
    FencedClaimAgrees(s, t);
  }

  lemma FailureNeedsFence(s: Sys, t: nat, max: nat, availableAt: int, now: int, s': Sys)
    requires Inv(s.db) && ClaimsOk(s) && FailureNext(s, t, max, availableAt, now, s') && s'.db != s.db
    ensures Holds(s, t)
  {
    FencedClaimAgrees(s, t);
  }

  /** A transition commits only under the lease its claim was given; then the cached row is the stored
      one, and the command advances by one exactly when the transition issues a command. */
  lemma FencedTransition(states: seq<Sys>, steps: seq<Step>, i: nat, t: nat, transition: Transition, now: int)
    requires Run(states, steps) && i < |steps| && steps[i] == TransitionStep(t, transition, now)
    requires states[i + 1].db != states[i].db
    ensures Holds(states[i], t)
    ensures var claim, ws' := states[i].claims[t], states[i + 1].db.workflows;
      && claim.loaded == Some(claim.row.delivered + 1)
      && claim.id in ws' && ws'[claim.id].delivered == claim.row.delivered + 1
      && ws'[claim.id].command == claim.row.command + (if transition.Continue? || transition.Complete? then 0 else 1)
  {
    RunSafe(states, steps, i);
    assert Next(states[i], steps[i], states[i + 1]);
    TransitionNeedsFence(states[i], t, transition, now, states[i + 1]);
  }

  /** The same for a recorded activation failure. */
  lemma FencedFailure(states: seq<Sys>, steps: seq<Step>, i: nat, t: nat, max: nat, availableAt: int, now: int)
    requires Run(states, steps) && i < |steps| && steps[i] == FailureStep(t, max, availableAt, now)
    requires states[i + 1].db != states[i].db
    ensures Holds(states[i], t)
  {
    RunSafe(states, steps, i);
    assert Next(states[i], steps[i], states[i + 1]);
    FailureNeedsFence(states[i], t, max, availableAt, now, states[i + 1]);
  }

  /** No row is running under `t`. */
  ghost predicate Stale(s: Sys, t: nat) {
    forall w :: w in s.db.workflows && s.db.workflows[w].status.Running? ==>
      s.db.workflows[w].lease.Some? && s.db.workflows[w].lease.value.token != t
  }

  lemma StaleStep(s: Sys, step: Step, s': Sys, t: nat)
    requires SysInv(s) && Next(s, step, s') && t in s.issued && Stale(s, t)
    ensures t in s'.issued && Stale(s', t)
  {
    NextAdvances(s, step, s');
    IssuedGrows(s, step, s');
  }

  lemma IssuedGrows(s: Sys, step: Step, s': Sys)
    requires SysInv(s) && Next(s, step, s')
    ensures s.issued <= s'.issued
  {
    if step.CommitBatch? { CommitGrows(s, step.batch, s'); }
  }

  lemma CommitGrows(s: Sys, id: nat, s': Sys)
    requires SysInv(s) && CommitNext(s, id, s')
    ensures s.issued <= s'.issued
  {
    var b := s.batches[id];
    assert BatchOk(s.db, s.clock, s.caps, b);
    assert NewTokens(s.leases.Keys, b.ops);
    CommitOpsKeeps(s, b, b.ops);
  }

  ghost predicate KeepsStale(s: Sys, s': Sys, t: nat) {
    t in s.issued && Stale(s, t) ==> t in s'.issued && Stale(s', t)
  }

  lemma {:induction false} StaysStale(states: seq<Sys>, i: nat, j: nat, t: nat)
    requires i <= j < |states| && t in states[i].issued && Stale(states[i], t)
    requires forall k :: i <= k < j ==> KeepsStale(states[k], states[k + 1], t)
    ensures t in states[j].issued && Stale(states[j], t)
    decreases j
  {
    if i < j {
      StaysStale(states, i, j - 1, t);
      assert KeepsStale(states[j - 1], states[j - 1 + 1], t);
    }
  }

  /** A token whose row stopped running never fences again: all later commits under it change nothing. */
  lemma StaleForever(states: seq<Sys>, steps: seq<Step>, i: nat, j: nat, t: nat)
    requires Run(states, steps) && i <= j < |steps| && t in states[i].issued && Stale(states[i], t)
    requires steps[j].TransitionStep? || steps[j].FailureStep?
    requires steps[j].token == t
    ensures states[j + 1].db == states[j].db
  {
    forall k | i <= k < j ensures KeepsStale(states[k], states[k + 1], t) {
      RunSafe(states, steps, k);
      if t in states[k].issued && Stale(states[k], t) { StaleStep(states[k], steps[k], states[k + 1], t); }
    }
    StaysStale(states, i, j, t);
    if states[j + 1].db != states[j].db {
      if steps[j].TransitionStep? {
        FencedTransition(states, steps, j, t, steps[j].transition, steps[j].now);
      } else {
        FencedFailure(states, steps, j, t, steps[j].configuredMax, steps[j].availableAt, steps[j].now);
      }
    }
  }

  // ---- Waiting parents ------------------------------------------------------------------------

  /** A row that waits on a child, paused or not, waits on a live one. */
  lemma NoStrandedParent(states: seq<Sys>, steps: seq<Step>, i: nat, w: nat, c: nat)
    requires Run(states, steps) && i < |states| && w in states[i].db.workflows
    requires states[i].db.workflows[w].WaitsOnChild(c)
    ensures Live(states[i].db.workflows, c)
    ensures !Reaches(states[i].db.workflows, w, c)
  {
    RunSafe(states, steps, i);
    assert WaitOk(states[i].db, w);
  }

  /** Whatever ends a child, each of its waiters ends in the same step, or receives exactly one event under
      its current command, which tells how the child is now stored to have ended, or waits on the
      generation that replaced the child under the same definition. */
  lemma WaitersServed(states: seq<Sys>, steps: seq<Step>, i: nat, w: nat, c: nat)
    requires Run(states, steps) && i < |steps|
    requires Waits(states[i].db.workflows, w, c)
    ensures w in states[i + 1].db.workflows && c in states[i + 1].db.workflows
    ensures states[i + 1].db.workflows[c].status.Terminal() ==>
      var ws, ws' := states[i].db.workflows, states[i + 1].db.workflows;
      || ws'[w].status.Terminal()
      || ToldOf(ws[w], ws'[w], ws'[c])
      || (ws'[w].wait.OnChild? && ws'[w] == ws[w].(wait := ws'[w].wait) && Replaces(ws', ws'[w].wait.child, c))
  {
    var s, s' := states[i], states[i + 1];
    RunSafe(states, steps, i);
    RunSafe(states, steps, i + 1);
    assert Next(s, steps[i], s');
    NextAdvances(s, steps[i], s');
    assert RowFollows(s.db.workflows[c], s'.db.workflows[c]);
    assert Served(s.db.workflows, s'.db.workflows, w, c);
    assert WaitOk(s'.db, w);
  }

  // ---- History ---------------------------------------------------------------------------------

  lemma StepAdvances(states: seq<Sys>, steps: seq<Step>, j: nat)
    requires Run(states, steps) && j < |steps|
    ensures Advances(states[j].db, states[j + 1].db)
  {
    RunSafe(states, steps, j);
    NextAdvances(states[j], steps[j], states[j + 1]);
  }

  lemma {:induction false} AdvancesGrow(states: seq<Sys>, i: nat, j: nat)
    requires i <= j < |states| && (forall k :: i <= k < j ==> Advances(states[k].db, states[k + 1].db))
    ensures Follows(states[i].db.workflows, states[j].db.workflows)
    ensures AttemptsFollow(states[i].db.activities, states[j].db.activities)
    decreases j
  {
    if i == j {
      SameAdvances(states[i].db);
    } else {
      AdvancesGrow(states, i, j - 1);
      var last := j - 1;
      assert Advances(states[last].db, states[last + 1].db);
      FollowsTransitive(states[i].db.workflows, states[last].db.workflows, states[j].db.workflows);
      AttemptsTransitive(states[i].db.activities, states[last].db.activities, states[j].db.activities);
    }
  }

  /** Over a run, rows only gain deliveries, commands and attempts, and an end is final. */
  lemma HistoryGrows(states: seq<Sys>, steps: seq<Step>, i: nat, j: nat)
    requires Run(states, steps) && i <= j < |states|
    ensures Follows(states[i].db.workflows, states[j].db.workflows)
    ensures AttemptsFollow(states[i].db.activities, states[j].db.activities)
  {
    forall k | i <= k < j ensures Advances(states[k].db, states[k + 1].db) {
      StepAdvances(states, steps, k);
    }
    AdvancesGrow(states, i, j);
  }

  /** No command is answered twice: of two answers in an inbox, the later one answers a later command. */
  lemma CommandAnsweredOnce(states: seq<Sys>, steps: seq<Step>, i: nat, w: nat, k: nat, l: nat)
    requires Run(states, steps) && i < |states| && w in states[i].db.workflows
    requires k < l < |states[i].db.workflows[w].inbox|
    requires CommandOf(states[i].db.workflows[w].inbox[k].event).Some?
    requires CommandOf(states[i].db.workflows[w].inbox[l].event).Some?
    ensures CommandOf(states[i].db.workflows[w].inbox[k].event).value
          < CommandOf(states[i].db.workflows[w].inbox[l].event).value
  {
    HistoryGrows(states, steps, 0, i);
    var r := states[i].db.workflows[w];
    assert AnsweredOnce(r);
    assert Below(r.inbox[k].event, CommandOf(r.inbox[l].event).value);
  }

  lemma Siblings(db: Db, a: nat, b: nat)
    requires ReplacementsOk(db) && a in db.activities && b in db.activities && a != b
    ensures SiblingsOk(db.activities[a], db.activities[b]) && SiblingsOk(db.activities[b], db.activities[a])
  {
  }

  /** Two activities that succeeded for the same command, whenever each did, are one activity. */
  lemma CommandSucceedsOnce(states: seq<Sys>, steps: seq<Step>, i: nat, j: nat, a: nat, b: nat)
    requires Run(states, steps) && i <= j < |states|
    requires a in states[i].db.activities && b in states[j].db.activities
    requires states[i].db.activities[a].status.ActSucceeded? && states[j].db.activities[b].status.ActSucceeded?
    requires states[i].db.activities[a].origin.workflow == states[j].db.activities[b].origin.workflow
    requires states[i].db.activities[a].origin.command == states[j].db.activities[b].origin.command
    ensures a == b
  {
    HistoryGrows(states, steps, i, j);
    RunSafe(states, steps, j);
    var acts := states[j].db.activities;
    assert ActivityFollows(states[i].db.activities[a], acts[a]);
    if a != b { Siblings(states[j].db, a, b); }
  }

  /** The replacements of a command are numbered apart. */
  lemma ReplacementsDistinct(states: seq<Sys>, steps: seq<Step>, i: nat, a: nat, b: nat)
    requires Run(states, steps) && i < |states| && a in states[i].db.activities && b in states[i].db.activities
    requires var x, y := states[i].db.activities[a].origin, states[i].db.activities[b].origin;
      x.workflow == y.workflow && x.command == y.command && x.replacement == y.replacement
    ensures a == b
  {
    RunSafe(states, steps, i);
    if a != b { Siblings(states[i].db, a, b); }
  }

  // ---- Activities ---------------------------------------------------------------------------------

  /** A row holds a slot exactly while it has a lease, and exactly while one attempt is open: the last
      one, under the token of the lease. Pauses grant what they revoke. */
  lemma AttemptsConserved(states: seq<Sys>, steps: seq<Step>, i: nat, a: nat)
    requires Run(states, steps) && i < |states| && a in states[i].db.activities
    ensures var r := states[i].db.activities[a];
      && (r.status.HoldsSlot() <==> r.lease.Some?)
      && (forall n :: n in r.attempts && r.attempts[n].finished.None? <==>
            && r.lease.Some? && n == r.attemptCount && n in r.attempts
            && r.attempts[n] == Attempt(r.lease.value.token, None))
      && (r.lease.Some? ==> r.attemptCount in r.attempts && r.attempts[r.attemptCount].finished.None?)
      && r.maxAttempts == r.origin.spec.maxAttempts + r.pauses
      && (r.status.ActPending? ==> r.attemptCount < r.maxAttempts)
  {
    RunSafe(states, steps, i);
    assert ActivityOk(states[i].db.activities[a]);
  }

  /** What an activity does depends on its workflow, and the other way round. */
  lemma Coupling(states: seq<Sys>, steps: seq<Step>, i: nat, a: nat)
    requires Run(states, steps) && i < |states| && a in states[i].db.activities
    ensures var db := states[i].db;
      var r, w := db.activities[a], db.activities[a].origin.workflow;
      && w in db.workflows
      && (r.status.ActRunning? ==> db.workflows[w].status.WaitingActivity? && db.workflows[w].wait == OnActivity(a))
      && (r.status.ActPending? ==>
            && (db.workflows[w].status.WaitingActivity? || db.workflows[w].status.Paused?)
            && db.workflows[w].wait == OnActivity(a))
      && (db.workflows[w].status.Blocked? && db.workflows[w].wait == OnActivity(a) ==> r.status.ActDeadLettered?)
  {
    RunSafe(states, steps, i);
    assert CoupledOk(states[i].db, a) && WaitOk(states[i].db, states[i].db.activities[a].origin.workflow);
  }

  /** A blocked workflow waits on a dead-lettered activity of its own, and a paused one can be resumed. */
  lemma BlockedAndPaused(states: seq<Sys>, steps: seq<Step>, i: nat, w: nat)
    requires Run(states, steps) && i < |states| && w in states[i].db.workflows
    ensures var db := states[i].db;
      var r := db.workflows[w];
      && (r.status.Blocked? ==>
            && r.wait.OnActivity? && r.wait.activity in db.activities
            && db.activities[r.wait.activity].status.ActDeadLettered?
            && db.activities[r.wait.activity].origin.workflow == w)
      && (r.status.Paused? ==>
            && ResumeStatus(db, r).ResumeTo?
            && (r.wait.OnActivity? && r.wait.activity in db.activities ==>
                  && !db.activities[r.wait.activity].status.ActSucceeded?
                  && !db.activities[r.wait.activity].status.ActCancelled?))
  {
    RunSafe(states, steps, i);
    var db := states[i].db;
    assert WorkflowOk(db.workflows[w]) && WaitOk(db, w);
    if db.workflows[w].status.Paused? { ResumeNeverStuck(db, w); }
  }

  /** A batch quarantines a row for its bounds, never for its attempts. */
  lemma QuarantineIsForBounds(states: seq<Sys>, steps: seq<Step>, i: nat, id: nat, op: RowOp)
    requires Run(states, steps) && i < |states| && id in states[i].batches && op.Quarantine?
    requires var b := states[i].batches[id]; OpEnabled(View(states[i].db, b), op, b.now)
    ensures var b := states[i].batches[id]; !View(states[i].db, b).activities[op.activity].ValidBounds()
  {
    var s := states[i];
    var b := s.batches[id];
    RunSafe(states, steps, i);
    assert BatchOk(s.db, s.clock, s.caps, b);
    ViewKeepsInv(s.db, b.ops, b.now);
    assert ActivityOk(View(s.db, b).activities[op.activity]);
  }

  /** A retryable failure dead-letters exactly when the attempts the command asked for, not counting
      those that pauses revoked, are used up. */
  lemma PauseCostsNoRetry(states: seq<Sys>, steps: seq<Step>, i: nat, t: nat, availableAt: int, now: int)
    requires Run(states, steps) && i < |steps| && steps[i] == FinishStep(t, HandlerRetryable(availableAt), now)
    requires t in states[i].leases && Leased(states[i].db, states[i].leases[t])
    requires states[i].db.activities[states[i].leases[t].activity].status.ActRunning?
    requires states[i + 1].db != states[i].db
    ensures var a := states[i].leases[t].activity;
      var r := states[i].db.activities[a];
      && a in states[i + 1].db.activities
      && (states[i + 1].db.activities[a].status.ActDeadLettered?
          <==> r.attemptCount - r.pauses == r.origin.spec.maxAttempts)
  {
    var s := states[i];
    var a := s.leases[t].activity;
    RunSafe(states, steps, i);
    assert Next(s, steps[i], states[i + 1]);
    LeasedClaimAgrees(s, t);
    assert ActivityOk(s.db.activities[a]) && LeaseOk(s, a);
  }
}
