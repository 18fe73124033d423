/** Only the commit of a transition moves a workflow to its next command or
    consumes a delivery, and only a recorded failure counts one; everything else
    at most answers the command the workflow has. */
module Steady {
  import opened Rows
  import opened Transactions
  import opened Invariant
  import opened Evolution
  import opened Commits
  import opened Lineage
  import opened System
  import opened Runs
  import opened Safety
  import opened Meanings

  /** The row has the same command and consumed the same deliveries; what was added answers a command. */
  ghost predicate SameDelivery(r: Workflow, r': Workflow) {
    && r'.command == r.command && r'.delivered == r.delivered && r'.asked == r.asked
    && |r.inbox| <= |r'.inbox| && r'.inbox[..|r.inbox|] == r.inbox
    && (forall k :: |r.inbox| <= k < |r'.inbox| ==> !r'.inbox[k].event.Continued?)
    && (r.status.Terminal() ==> r' == r)
  }

  /** Besides, it counts as many failed activations, has not ended by success or failure, and if it sleeps,
      it slept before, until the same time. */
  ghost predicate SameCommand(r: Workflow, r': Workflow) {
    && SameDelivery(r, r')
    && r'.counters.activationAttempts == r.counters.activationAttempts
    && r'.counters.maxActivation == r.counters.maxActivation
    && (r'.status.Succeeded? || r'.status.Failed? ==> r' == r)
    && (r'.wait.OnTimer? ==> r'.wait == r.wait && r'.counters.availableAt == r.counters.availableAt)
  }

  lemma SameCommandTransitive(a: Workflow, b: Workflow, c: Workflow)
    requires SameCommand(a, b) && SameCommand(b, c)
    ensures SameCommand(a, c)
  {
    forall k | |a.inbox| <= k < |c.inbox| ensures !c.inbox[k].event.Continued? {
      if k < |b.inbox| { assert c.inbox[k] == c.inbox[..|b.inbox|][k]; }
    }
    assert c.inbox[..|a.inbox|] == c.inbox[..|b.inbox|][..|a.inbox|];
  }

  /** All rows but those of `except`. */
  ghost predicate SteadyBut(ws: map<nat, Workflow>, ws': map<nat, Workflow>, except: set<nat>) {
    && (forall w :: w in ws ==> w in ws')
    && (forall w {:trigger SameCommand(ws[w], ws'[w])} :: w in ws && w !in except ==> SameCommand(ws[w], ws'[w]))
  }

  lemma SteadyTransitive(a: map<nat, Workflow>, b: map<nat, Workflow>, c: map<nat, Workflow>)
    requires SteadyBut(a, b, {}) && SteadyBut(b, c, {})
    ensures SteadyBut(a, c, {})
  {
    forall w | w in a ensures SameCommand(a[w], c[w]) {
      assert SameCommand(a[w], b[w]) && SameCommand(b[w], c[w]);
      SameCommandTransitive(a[w], b[w], c[w]);
    }
  }

  // ---- Rows ----------------------------------------------------------------------------------

  lemma SameRow(r: Workflow)
    ensures SameCommand(r, r)
  {
  }

  lemma WokenSteady(r: Workflow, e: Event, now: int)
    requires !e.Continued? && !r.status.Terminal()
    ensures SameCommand(r, Woken(r, e, now))
  {
  }

  lemma OneRowSteady(ws: map<nat, Workflow>, w: nat, r': Workflow)
    requires w in ws ==> SameCommand(ws[w], r')
    ensures SteadyBut(ws, ws[w := r'], {})
  {
    forall v | v in ws ensures SameCommand(ws[v], ws[w := r'][v]) { SameRow(ws[v]); }
  }

  lemma WakeSteady(ws: map<nat, Workflow>, child: nat, definition: Definition, outcome: ChildOutcome, now: int)
    ensures SteadyBut(ws, WakeParents(ws, child, definition, outcome, now), {})
  {
    var ws' := WakeParents(ws, child, definition, outcome, now);
    forall v | v in ws ensures SameCommand(ws[v], ws'[v]) {
      SameRow(ws[v]);
      if ws[v].WaitsOnChild(child) { WokenSteady(ws[v], ChildDone(ws[v].command, definition, outcome), now); }
    }
  }

  lemma RepointSteady(ws: map<nat, Workflow>, superseded: nat, successor: nat)
    ensures SteadyBut(ws, RepointParents(ws, superseded, successor), {})
  {
    var ws' := RepointParents(ws, superseded, successor);
    forall v | v in ws ensures SameCommand(ws[v], ws'[v]) { SameRow(ws[v]); }
  }

  /** A live row ends and its waiters are told. */
  lemma EndSteady(ws: map<nat, Workflow>, w: nat, r': Workflow, definition: Definition, outcome: ChildOutcome, now: int)
    requires w in ws && SameCommand(ws[w], r')
    ensures SteadyBut(ws, WakeParents(ws[w := r'], w, definition, outcome, now), {})
  {
    OneRowSteady(ws, w, r');
    WakeSteady(ws[w := r'], w, definition, outcome, now);
    SteadyTransitive(ws, ws[w := r'], WakeParents(ws[w := r'], w, definition, outcome, now));
  }

  // ---- Transactions ------------------------------------------------------------------------------

  lemma {:induction false} CancelAllSteady(db: Db, order: seq<nat>, outcome: AttemptOutcome, now: int)
    ensures SteadyBut(db.workflows, CancelAll(db, order, outcome, now).workflows, {})
    decreases |order|
  {
    if order == [] {
      forall v | v in db.workflows ensures SameCommand(db.workflows[v], db.workflows[v]) { SameRow(db.workflows[v]); }
    } else if Live(db.workflows, order[0]) {
      var w := order[0];
      var db1 := CancelOne(db, w, outcome, now);
      EndSteady(db.workflows, w, CancelledRow(db.workflows[w], true), db.workflows[w].identity.definition,
                ChildFailed("child_cancelled"), now);
      CancelAllSteady(db1, order[1..], outcome, now);
      SteadyTransitive(db.workflows, db1.workflows, CancelAll(db1, order[1..], outcome, now).workflows);
    } else {
      CancelAllSteady(db, order[1..], outcome, now);
    }
  }

  lemma ThenCancelAllSteady(ws: map<nat, Workflow>, db1: Db, order: seq<nat>, outcome: AttemptOutcome, now: int)
    requires SteadyBut(ws, db1.workflows, {})
    ensures SteadyBut(ws, CancelAll(db1, order, outcome, now).workflows, {})
  {
    CancelAllSteady(db1, order, outcome, now);
    SteadyTransitive(ws, db1.workflows, CancelAll(db1, order, outcome, now).workflows);
  }

  lemma CancelSteady(db: Db, w: nat, order: seq<nat>, outcome: AttemptOutcome, now: int)
    requires Cancel(db, w, order, outcome, now).Commit?
    ensures SteadyBut(db.workflows, Cancel(db, w, order, outcome, now).db.workflows, {})
  {
    EndSteady(db.workflows, w, CancelledRow(db.workflows[w], true), db.workflows[w].identity.definition,
              ChildFailed("child_cancelled"), now);
    ThenCancelAllSteady(db.workflows, CancelOne(db, w, outcome, now), order, outcome, now);
  }

  lemma SupersedeSteady(db: Db, w: nat, id: nat, definition: Definition, now: int)
    requires w in db.workflows && id !in db.workflows
    ensures SteadyBut(db.workflows, Supersede(db, w, id, definition, now).workflows, {})
  {
    var source := db.workflows[w];
    var inserted := db.workflows[id := NewWorkflow(definition, None, None, 0, Some(w), now)];
    OneRowSteady(db.workflows, id, inserted[id]);
    if !source.status.Terminal() {
      EndSteady(inserted, w, CancelledRow(source, false), source.identity.definition, ChildFailed("child_superseded"),
                now);
      SteadyTransitive(db.workflows, inserted, Supersede(db, w, id, definition, now).workflows);
    }
  }

  lemma RestartSteady(db: Db, w: nat, id: nat, version: int, order: seq<nat>, now: int)
    requires Restart(db, w, id, version, order, now).Commit? && id !in db.workflows
    ensures SteadyBut(db.workflows, Restart(db, w, id, version, order, now).db.workflows, {})
  {
    var definition := Definition(db.workflows[w].identity.definition.kind, version);
    SupersedeSteady(db, w, id, definition, now);
    ThenCancelAllSteady(db.workflows, Supersede(db, w, id, definition, now), order, AttemptOperatorCancelled, now);
  }

  lemma RecoverSteady(db: Db, latest: nat, id: nat, definition: Definition, now: int)
    requires latest in db.workflows && id !in db.workflows
    ensures SteadyBut(db.workflows, Recover(db, latest, id, definition, now).workflows, {})
  {
    var source := db.workflows[latest];
    var inserted := db.workflows[id := NewWorkflow(definition, None, None, 0, Some(latest), now)];
    OneRowSteady(db.workflows, id, inserted[id]);
    if source.status.Blocked? {
      var ended := inserted[latest := CancelledRow(source, false)];
      OneRowSteady(inserted, latest, CancelledRow(source, false));
      SteadyTransitive(db.workflows, inserted, ended);
      RepointSteady(ended, latest, id);
      WakeSteady(ended, latest, source.identity.definition, ChildFailed("child_superseded"), now);
      SteadyTransitive(db.workflows, ended, Recover(db, latest, id, definition, now).workflows);
    }
  }

  lemma RecoverableStartSteady(db: Db, lookup: Option<nat>, id: nat, definition: Definition, key: Key,
                               order: seq<nat>, now: int)
    requires id !in db.workflows && (lookup.Some? ==> lookup.value in db.workflows)
    ensures SteadyBut(db.workflows, RecoverableStart(db, lookup, id, definition, key, order, now).1.db.workflows, {})
  {
    SameSteady(db.workflows);
    if lookup.None? {
      OneRowSteady(db.workflows, id, NewWorkflow(definition, Some(key), None, 0, None, now));
    } else {
      var latest := Newest(db.workflows, lookup.value);
      RecoverSteady(db, latest, id, definition, now);
      ThenCancelAllSteady(db.workflows, Recover(db, latest, id, definition, now), order, AttemptApplicationCancelled,
                          now);
    }
  }

  lemma SameSteady(ws: map<nat, Workflow>)
    ensures SteadyBut(ws, ws, {})
  {
    forall v | v in ws ensures SameCommand(ws[v], ws[v]) { SameRow(ws[v]); }
  }

  lemma StartSteady(db: Db, id: nat, definition: Definition, key: Option<Key>, availableAt: int)
    requires id !in db.workflows
    ensures SteadyBut(db.workflows, Start(db, id, definition, key, availableAt).db.workflows, {})
  {
    SameSteady(db.workflows);
    OneRowSteady(db.workflows, id, NewWorkflow(definition, key, None, 0, None, availableAt));
  }

  lemma ControlSteady(db: Db, w: nat, now: int)
    requires w in db.workflows ==> WorkflowOk(db.workflows[w])
    ensures Pause(db, w).Commit? ==> SteadyBut(db.workflows, Pause(db, w).db.workflows, {})
    ensures Resume(db, w, now).Commit? ==> SteadyBut(db.workflows, Resume(db, w, now).db.workflows, {})
    ensures RecoverLease(db, w, now).Commit? ==> SteadyBut(db.workflows, RecoverLease(db, w, now).db.workflows, {})
    ensures FireTimer(db, w, now).Commit? ==> SteadyBut(db.workflows, FireTimer(db, w, now).db.workflows, {})
  {
    if Pause(db, w).Commit? { OneRowSteady(db.workflows, w, Pause(db, w).db.workflows[w]); }
    if Resume(db, w, now).Commit? { OneRowSteady(db.workflows, w, Resume(db, w, now).db.workflows[w]); }
    if RecoverLease(db, w, now).Commit? { OneRowSteady(db.workflows, w, RecoverLease(db, w, now).db.workflows[w]); }
    if FireTimer(db, w, now).Commit? {
      WokenSteady(db.workflows[w], TimerFired(WaitCommand(db.workflows[w]).value), now);
      OneRowSteady(db.workflows, w, FireTimer(db, w, now).db.workflows[w]);
    }
  }

  lemma ApprovalSteady(db: Db, p: nat, now: int)
    ensures ExpireApproval(db, p, now).Commit? ==> SteadyBut(db.workflows, ExpireApproval(db, p, now).db.workflows, {})
    ensures ResolveApproval(db, p, now).Commit? ==>
      SteadyBut(db.workflows, ResolveApproval(db, p, now).db.workflows, {})
  {
    SameSteady(db.workflows);
    if p in db.approvals && db.approvals[p].workflow in db.workflows && ApprovalMatches(db, p) {
      var w, c := db.approvals[p].workflow, db.approvals[p].command;
      WokenSteady(db.workflows[w], ApprovalLapsed(c), now);
      WokenSteady(db.workflows[w], ApprovalGiven(c), now);
      OneRowSteady(db.workflows, w, Woken(db.workflows[w], ApprovalLapsed(c), now));
      OneRowSteady(db.workflows, w, Woken(db.workflows[w], ApprovalGiven(c), now));
    }
  }

  lemma RetrySteady(db: Db, a: nat, id: nat, spec: ActivitySpec, now: int)
    requires Retry(db, a, id, spec, now).Commit?
    ensures SteadyBut(db.workflows, Retry(db, a, id, spec, now).db.workflows, {})
  {
    var w := db.activities[a].origin.workflow;
    OneRowSteady(db.workflows, w, Retry(db, a, id, spec, now).db.workflows[w]);
  }

  lemma PerformSteady(db: Db, action: Action, now: int)
    requires Inv(db) && Allowed(db, action, now) && Perform(db, action, now).Commit?
    ensures SteadyBut(db.workflows, Perform(db, action, now).db.workflows, {})
  {
    match action
    case DoStart(id, definition, key, availableAt) => StartSteady(db, id, definition, key, availableAt);
    case DoRecoverableStart(lookup, id, definition, key, order) =>
      RecoverableStartSteady(db, lookup, id, definition, key, order, now);
    case DoCancel(w, order, outcome) => CancelSteady(db, w, order, outcome, now);
    case DoRestart(w, id, version, order) => RestartSteady(db, w, id, version, order, now);
    case DoRecoverLease(w) => ControlSteady(db, w, now);
    case DoPause(w) => ControlSteady(db, w, now);
    case DoResume(w) => ControlSteady(db, w, now);
    case DoRetry(a, id, spec) => RetrySteady(db, a, id, spec, now);
    case DoFireTimer(w) => ControlSteady(db, w, now);
    case DoExpireApproval(p) => ApprovalSteady(db, p, now);
    case DoResolveApproval(p) => ApprovalSteady(db, p, now);
  }

  lemma FinishSteady(db: Db, claim: ActivityClaim, outcome: HandlerOutcome, now: int)
    requires Finish(db, claim, outcome, now).Commit?
    ensures SteadyBut(db.workflows, Finish(db, claim, outcome, now).db.workflows, {})
  {
    SameSteady(db.workflows);
    var db' := Finish(db, claim, outcome, now).db;
    if db'.workflows != db.workflows {
      if outcome.HandlerSucceeded? {
        WokenSteady(db.workflows[claim.workflow], ActivityDone(claim.command, claim.definition), now);
        OneRowSteady(db.workflows, claim.workflow, db'.workflows[claim.workflow]);
      } else {
        var w := db.activities[claim.activity].origin.workflow;
        OneRowSteady(db.workflows, w, db'.workflows[w]);
      }
    }
  }

  /** A recorded failure changes its own row, and tells its waiters if it ends it. */
  lemma FailureSteady(db: Db, claim: WorkflowClaim, configuredMax: nat, availableAt: int, now: int)
    requires ActivationFailure(db, claim, configuredMax, availableAt, now).Commit?
    ensures var ws' := ActivationFailure(db, claim, configuredMax, availableAt, now).db.workflows;
      && SteadyBut(db.workflows, ws', {claim.id})
      && ActivationFailed(db.workflows[claim.id], ws'[claim.id], configuredMax, availableAt)
  {
    var ws := db.workflows;
    var ws' := ActivationFailure(db, claim, configuredMax, availableAt, now).db.workflows;
    FailureMeans(db, claim, configuredMax, availableAt, now);
    forall v | v in ws && v != claim.id ensures SameCommand(ws[v], ws'[v]) {
      SameRow(ws[v]);
      if ws[v].WaitsOnChild(claim.id) {
        WokenSteady(ws[v], ChildDone(ws[v].command, ws[claim.id].identity.definition, ChildFailed("activation")), now);
      }
    }
  }

  lemma {:induction false} OpsSteady(db: Db, ops: seq<RowOp>, now: int)
    requires OpsEnabled(db, ops, now)
    ensures SteadyBut(db.workflows, ApplyOps(db, ops, now).workflows, {})
    decreases |ops|
  {
    SameSteady(db.workflows);
    if ops != [] {
      var db1 := ApplyOp(db, ops[0], now);
      if db1.workflows != db.workflows { OneRowSteady(db.workflows, ops[0].workflow, db1.workflows[ops[0].workflow]); }
      OpsSteady(db1, ops[1..], now);
      SteadyTransitive(db.workflows, db1.workflows, ApplyOps(db1, ops[1..], now).workflows);
    }
  }

  // ---- Transitions ----------------------------------------------------------------------------------

  /** What a committed transition asks for. */
  function AskedBy(t: Transition): Ask
    requires !t.Continue? && !t.Complete?
  {
    match t
    case SleepUntil(_) => AskTimer
    case WaitForApproval(_, _) => AskApproval
    case RunActivity(_, spec, _) => AskActivity(spec.definition)
    case RunChild(_, definition, _) => AskChild(definition)
  }

  /** How a transition changes its own row: it consumes one delivery and either ends the row, continues,
      or issues the next command; only a child may be answered at once. */
  ghost predicate Moved(r: Workflow, r': Workflow, t: Transition) {
    && r'.delivered == r.delivered + 1
    && |r.inbox| <= |r'.inbox| && r'.inbox[..|r.inbox|] == r.inbox
    && r'.counters.activationAttempts == 0 && r'.counters.maxActivation == r.counters.maxActivation
    && (r'.status.Terminal() <==> t.Complete?)
    && (r'.wait.OnTimer? <==> t.SleepUntil?)
    && (t.SleepUntil? ==> r'.wait.command == r'.command && r'.counters.availableAt == t.at)
    && match t
       case Continue(_, _) =>
         r'.command == r.command && |r'.inbox| == |r.inbox| + 1 && r'.inbox[|r.inbox|].event.Continued?
       case Complete => r'.status.Succeeded? && r'.command == r.command && r'.inbox == r.inbox
       case SleepUntil(_) => r'.command == r.command + 1 && r'.asked == AskedBy(t) && r'.inbox == r.inbox
       case WaitForApproval(_, _) => r'.command == r.command + 1 && r'.asked == AskedBy(t) && r'.inbox == r.inbox
       case RunActivity(_, _, _) => r'.command == r.command + 1 && r'.asked == AskedBy(t) && r'.inbox == r.inbox
       case RunChild(_, _, _) =>
         && r'.command == r.command + 1 && r'.asked == AskedBy(t)
         && (forall k :: |r.inbox| <= k < |r'.inbox| ==> !r'.inbox[k].event.Continued?)
  }

  lemma AttachedSteady(ws: map<nat, Workflow>, w: nat, existing: nat, definition: Definition, now: int)
    requires w in ws && existing in ws
    ensures SteadyBut(ws, Attached(ws, w, existing, definition, now), {w})
    ensures var r, r' := ws[w], Attached(ws, w, existing, definition, now)[w];
      && r'.delivered == r.delivered + 1 && r'.command == r.command + 1 && r'.asked == AskChild(definition)
      && |r.inbox| <= |r'.inbox| && r'.inbox[..|r.inbox|] == r.inbox
      && (forall k :: |r.inbox| <= k < |r'.inbox| ==> !r'.inbox[k].event.Continued?)
      && r'.counters.activationAttempts == 0 && r'.counters.maxActivation == r.counters.maxActivation
      && !r'.status.Terminal() && !r'.wait.OnTimer?
  {
    var waiting := ws[w := Waiting(ws[w], ws[w], ws[w].delivered + 1, WaitingChild, OnChild(existing),
                                   AskChild(definition))];
    var ws' := Attached(ws, w, existing, definition, now);
    var child := ws[existing];
    SameSteady(waiting);
    if TerminalOutcome(child).Some? {
      WakeSteady(waiting, existing, child.identity.definition, TerminalOutcome(child).value, now);
    }
    assert SameCommand(waiting[w], ws'[w]);
    forall v | v in ws && v != w ensures SameCommand(ws[v], ws'[v]) { assert SameCommand(waiting[v], ws'[v]); }
  }

  lemma ChildMoves(db: Db, claim: WorkflowClaim, consumed: nat, t: Transition, now: int)
    requires CacheAgrees(db, claim, consumed) && t.RunChild? && t.id !in db.workflows && t.id != claim.id
    requires CommitChild(db, claim, consumed, t, now).Commit?
    ensures var ws' := CommitChild(db, claim, consumed, t, now).db.workflows;
      && Fenced(db, claim) && SteadyBut(db.workflows, ws', {claim.id})
      && Moved(db.workflows[claim.id], ws'[claim.id], t)
  {
    ChildCases(db, claim, consumed, t, now);
    var hit := FindByKey(db.workflows, t.definition.kind, ChildKey(claim, t));
    if hit.None? {
      var ws' := WithChild(db.workflows, claim.id, t.id, t.definition, ChildKey(claim, t), now);
      forall v | v in db.workflows && v != claim.id ensures SameCommand(db.workflows[v], ws'[v]) {
        SameRow(db.workflows[v]);
      }
    } else {
      AttachedSteady(db.workflows, claim.id, Newest(db.workflows, hit.value), t.definition, now);
    }
  }

  lemma CompleteMoves(db: Db, claim: WorkflowClaim, consumed: nat, now: int)
    requires Fenced(db, claim) && CacheAgrees(db, claim, consumed) && WorkflowOk(db.workflows[claim.id])
    ensures var ws' := CommitTransition(db, claim, consumed, Complete, now).db.workflows;
      SteadyBut(db.workflows, ws', {claim.id}) && Moved(db.workflows[claim.id], ws'[claim.id], Complete)
  {
    var w := claim.id;
    var r' := Stepped(db.workflows[w], consumed).(status := Succeeded);
    var ended := db.workflows[w := r'];
    WakeSteady(ended, w, r'.identity.definition, ChildSucceeded, now);
    var ws' := WakeParents(ended, w, r'.identity.definition, ChildSucceeded, now);
    assert ws'[w] == r';
    forall v | v in db.workflows && v != w ensures SameCommand(db.workflows[v], ws'[v]) {
      assert SameCommand(ended[v], ws'[v]);
    }
  }

  lemma PlainMoves(db: Db, claim: WorkflowClaim, consumed: nat, t: Transition, now: int)
    requires Fenced(db, claim) && CacheAgrees(db, claim, consumed) && !t.RunChild? && !t.Complete?
    requires WorkflowOk(db.workflows[claim.id])
    ensures var ws' := CommitTransition(db, claim, consumed, t, now).db.workflows;
      SteadyBut(db.workflows, ws', {claim.id}) && Moved(db.workflows[claim.id], ws'[claim.id], t)
  {
    var ws' := CommitTransition(db, claim, consumed, t, now).db.workflows;
    assert ws' == db.workflows[claim.id := ws'[claim.id]];
    forall v | v in db.workflows && v != claim.id ensures SameCommand(db.workflows[v], ws'[v]) {
      SameRow(db.workflows[v]);
    }
  }

  // ---- Steps of the system -----------------------------------------------------------------------------

  /** The workflow whose transition a step commits. */
  function Moving(s: Sys, step: Step): set<nat> {
    if step.TransitionStep? && step.token in s.claims then {s.claims[step.token].id} else {}
  }

  /** The workflow whose failed activation a step records. */
  function Failing(s: Sys, step: Step): set<nat> {
    if step.FailureStep? && step.token in s.claims then {s.claims[step.token].id} else {}
  }

  /** A transition that changes the database moves the row of its claim. */
  lemma TransitionMoves(s: Sys, token: nat, t: Transition, now: int, s': Sys)
    requires Inv(s.db) && ClaimsOk(s) && TransitionNext(s, token, t, now, s')
    ensures SteadyBut(s.db.workflows, s'.db.workflows, {s.claims[token].id})
    ensures s'.db != s.db ==>
      && Fenced(s.db, s.claims[token])
      && s.claims[token].id in s'.db.workflows
      && Moved(s.db.workflows[s.claims[token].id], s'.db.workflows[s.claims[token].id], t)
  {
    var claim := s.claims[token];
    var consumed := claim.loaded.value;
    SameSteady(s.db.workflows);
    if CommitTransition(s.db, claim, consumed, t, now).Commit? {
      FencedClaimAgrees(s, token);
      assert t.RunChild? || WorkflowOk(s.db.workflows[claim.id]);
      if t.RunChild? {
        ChildMoves(s.db, claim, consumed, t, now);
      } else if t.Complete? {
        CompleteMoves(s.db, claim, consumed, now);
      } else {
        PlainMoves(s.db, claim, consumed, t, now);
      }
    }
  }

  lemma CommitBatchSteady(s: Sys, id: nat, s': Sys)
    requires CommitNext(s, id, s')
    ensures SteadyBut(s.db.workflows, s'.db.workflows, {})
  {
    var b := s.batches[id];
    CommitIsOps(s, b, b.ops);
    OpsSteady(s.db, b.ops, b.now);
  }

  lemma {:induction false} CommitIsOps(s: Sys, b: Batch, ops: seq<RowOp>)
    requires OpsEnabled(s.db, ops, b.now)
    ensures CommitOps(s, b, ops).db == ApplyOps(s.db, ops, b.now)
    decreases |ops|
  {
    if ops != [] { CommitIsOps(CommitOp(s, b, ops[0]), b, ops[1..]); }
  }

  // ---- New rows ------------------------------------------------------------------------------------------

  /** A row that was just started. */
  ghost predicate JustStarted(r: Workflow) {
    && r.command == 0 && r.delivered == 0 && r.inbox == [Delivery(1, Started)] && r.wait.NoWait?
    && r.counters.activationAttempts == 0 && r.counters.maxActivation == DEFAULT_MAX_ACTIVATION
    && !r.status.Succeeded? && !r.status.Failed?
  }

  ghost predicate OnlyStarts(ws: map<nat, Workflow>, ws': map<nat, Workflow>) {
    forall w :: w in ws' && w !in ws ==> JustStarted(ws'[w])
  }

  /** A cascade tells nothing to a row that waits for nothing. */
  lemma {:induction false} CancelAllIdle(db: Db, order: seq<nat>, outcome: AttemptOutcome, now: int, w: nat)
    requires w in db.workflows && JustStarted(db.workflows[w])
    ensures JustStarted(CancelAll(db, order, outcome, now).workflows[w])
    decreases |order|
  {
    if order != [] {
      if Live(db.workflows, order[0]) {
        CancelAllIdle(CancelOne(db, order[0], outcome, now), order[1..], outcome, now, w);
      } else {
        CancelAllIdle(db, order[1..], outcome, now, w);
      }
    }
  }

  lemma ThenCancelAllStarts(ws: map<nat, Workflow>, db1: Db, order: seq<nat>, outcome: AttemptOutcome, now: int)
    requires OnlyStarts(ws, db1.workflows)
    ensures OnlyStarts(ws, CancelAll(db1, order, outcome, now).workflows)
  {
    var ws' := CancelAll(db1, order, outcome, now).workflows;
    forall w | w in ws' && w !in ws ensures JustStarted(ws'[w]) { CancelAllIdle(db1, order, outcome, now, w); }
  }

  lemma RestartStarts(db: Db, w: nat, id: nat, version: int, order: seq<nat>, now: int)
    requires Restart(db, w, id, version, order, now).Commit? && id !in db.workflows
    ensures OnlyStarts(db.workflows, Restart(db, w, id, version, order, now).db.workflows)
  {
    var db1 := Supersede(db, w, id, Definition(db.workflows[w].identity.definition.kind, version), now);
    assert db1.workflows.Keys == db.workflows.Keys + {id} && JustStarted(db1.workflows[id]);
    ThenCancelAllStarts(db.workflows, db1, order, AttemptOperatorCancelled, now);
  }

  lemma RecoverableStartStarts(db: Db, lookup: Option<nat>, id: nat, definition: Definition, key: Key,
                               order: seq<nat>, now: int)
    requires id !in db.workflows && (lookup.Some? ==> lookup.value in db.workflows)
    ensures OnlyStarts(db.workflows, RecoverableStart(db, lookup, id, definition, key, order, now).1.db.workflows)
  {
    if lookup.Some? {
      var latest := Newest(db.workflows, lookup.value);
      RecoverStarts(db, latest, id, definition, now);
      ThenCancelAllStarts(db.workflows, Recover(db, latest, id, definition, now), order, AttemptApplicationCancelled,
                          now);
    }
  }

  lemma RecoverStarts(db: Db, latest: nat, id: nat, definition: Definition, now: int)
    requires latest in db.workflows && id !in db.workflows
    ensures OnlyStarts(db.workflows, Recover(db, latest, id, definition, now).workflows)
  {
    var ws' := Recover(db, latest, id, definition, now).workflows;
    assert ws'.Keys == db.workflows.Keys + {id} && JustStarted(ws'[id]);
  }

  lemma CancelStarts(db: Db, w: nat, order: seq<nat>, outcome: AttemptOutcome, now: int)
    requires Cancel(db, w, order, outcome, now).Commit?
    ensures OnlyStarts(db.workflows, Cancel(db, w, order, outcome, now).db.workflows)
  {
    assert CancelOne(db, w, outcome, now).workflows.Keys == db.workflows.Keys;
  }

  lemma PerformStarts(db: Db, action: Action, now: int)
    requires Allowed(db, action, now) && Perform(db, action, now).Commit?
    ensures OnlyStarts(db.workflows, Perform(db, action, now).db.workflows)
  {
    match action
    case DoRecoverableStart(lookup, id, definition, key, order) =>
      RecoverableStartStarts(db, lookup, id, definition, key, order, now);
    case DoCancel(w, order, outcome) => CancelStarts(db, w, order, outcome, now);
    case DoRestart(w, id, version, order) => RestartStarts(db, w, id, version, order, now);
    case DoStart(_, _, _, _) =>
    case DoRecoverLease(_) =>
    case DoPause(_) =>
    case DoResume(_) =>
    case DoRetry(_, _, _) =>
    case DoFireTimer(_) =>
    case DoExpireApproval(_) =>
    case DoResolveApproval(_) =>
  }

  lemma TransitionStarts(s: Sys, token: nat, t: Transition, now: int, s': Sys)
    requires Inv(s.db) && ClaimsOk(s) && TransitionNext(s, token, t, now, s')
    ensures OnlyStarts(s.db.workflows, s'.db.workflows)
  {
    var claim := s.claims[token];
    if t.RunChild? && CommitChild(s.db, claim, claim.loaded.value, t, now).Commit? {
      FencedClaimAgrees(s, token);
      ChildCases(s.db, claim, claim.loaded.value, t, now);
    }
  }

  lemma {:induction false} OpsStart(db: Db, ops: seq<RowOp>, now: int)
    requires OpsEnabled(db, ops, now)
    ensures ApplyOps(db, ops, now).workflows.Keys == db.workflows.Keys
    decreases |ops|
  {
    if ops != [] { OpsStart(ApplyOp(db, ops[0], now), ops[1..], now); }
  }

  /** A row that a step adds was just started. */
  lemma NextStarts(s: Sys, step: Step, s': Sys)
    requires SysInv(s) && Next(s, step, s')
    ensures OnlyStarts(s.db.workflows, s'.db.workflows)
  {
    if step.Act? && Perform(s.db, step.action, step.now).Commit? {
      PerformStarts(s.db, step.action, step.now);
    } else if step.TransitionStep? {
      TransitionStarts(s, step.token, step.transition, step.now, s');
    } else if step.CommitBatch? {
      var b := s.batches[step.batch];
      CommitIsOps(s, b, b.ops);
      OpsStart(s.db, b.ops, b.now);
    } else {
      SameKeys(s, step, s');
    }
  }

  lemma FinishKeys(db: Db, claim: ActivityClaim, outcome: HandlerOutcome, now: int)
    requires Finish(db, claim, outcome, now).Commit?
    ensures Finish(db, claim, outcome, now).db.workflows.Keys == db.workflows.Keys
  {
  }

  lemma FailureKeys(db: Db, claim: WorkflowClaim, configuredMax: nat, availableAt: int, now: int)
    requires ActivationFailure(db, claim, configuredMax, availableAt, now).Commit?
    ensures ActivationFailure(db, claim, configuredMax, availableAt, now).db.workflows.Keys == db.workflows.Keys
  {
  }

  /** The other steps add no row. */
  lemma SameKeys(s: Sys, step: Step, s': Sys)
    requires Next(s, step, s') && !step.TransitionStep? && !step.CommitBatch?
    requires step.Act? ==> Perform(s.db, step.action, step.now).Abort?
    ensures s'.db.workflows.Keys == s.db.workflows.Keys
  {
    if step.FinishStep? && Finish(s.db, s.leases[step.token], step.outcome, step.now).Commit? {
      FinishKeys(s.db, s.leases[step.token], step.outcome, step.now);
    } else if step.FailureStep?
      && ActivationFailure(s.db, s.claims[step.token], step.configuredMax, step.availableAt, step.now).Commit?
    {
      FailureKeys(s.db, s.claims[step.token], step.configuredMax, step.availableAt, step.now);
    }
  }

  lemma CoordinatorSteady(s: Sys, step: Step, s': Sys)
    requires Inv(s.db) && ClaimsOk(s) && Next(s, step, s') && OfCoordinator(step)
    ensures SteadyBut(s.db.workflows, s'.db.workflows, Moving(s, step) + Failing(s, step))
  {
    match step
    case ClaimStep(w, token, leaseMillis, now) => ClaimStepSteady(s, w, token, leaseMillis, now, s');
    case LoadStep(_) => SameSteady(s.db.workflows);
    case TransitionStep(token, t, now) => TransitionMoves(s, token, t, now, s');
    case FailureStep(token, configuredMax, availableAt, now) =>
      FailureMoves(s, token, configuredMax, availableAt, now, s');
  }

  lemma ClaimStepSteady(s: Sys, w: nat, token: nat, leaseMillis: int, now: int, s': Sys)
    requires ClaimNext(s, w, token, leaseMillis, now, s')
    ensures SteadyBut(s.db.workflows, s'.db.workflows, {})
  {
    SameSteady(s.db.workflows);
    if ClaimWorkflow(s.db, w, token, leaseMillis, now).Commit? {
      OneRowSteady(s.db.workflows, w, ClaimedRow(s.db.workflows[w], token, now + leaseMillis));
    }
  }

  /** A failure that changes the database is counted on the row of its claim. */
  lemma FailureMoves(s: Sys, token: nat, configuredMax: nat, availableAt: int, now: int, s': Sys)
    requires FailureNext(s, token, configuredMax, availableAt, now, s')
    ensures SteadyBut(s.db.workflows, s'.db.workflows, {s.claims[token].id})
    ensures s'.db != s.db ==>
      && Fenced(s.db, s.claims[token])
      && s.claims[token].id in s'.db.workflows
      && ActivationFailed(s.db.workflows[s.claims[token].id], s'.db.workflows[s.claims[token].id], configuredMax,
                          availableAt)
  {
    SameSteady(s.db.workflows);
    if ActivationFailure(s.db, s.claims[token], configuredMax, availableAt, now).Commit? {
      FailureSteady(s.db, s.claims[token], configuredMax, availableAt, now);
    }
  }

  lemma OtherSteady(s: Sys, step: Step, s': Sys)
    requires Inv(s.db) && Next(s, step, s') && !OfCoordinator(step)
    ensures SteadyBut(s.db.workflows, s'.db.workflows, {})
  {
    if step.Act? && Perform(s.db, step.action, step.now).Commit? {
      PerformSteady(s.db, step.action, step.now);
    } else if step.FinishStep? && Finish(s.db, s.leases[step.token], step.outcome, step.now).Commit? {
      FinishSteady(s.db, s.leases[step.token], step.outcome, step.now);
    } else if step.CommitBatch? {
      CommitBatchSteady(s, step.batch, s');
    } else {
      SameSteady(s.db.workflows);
    }
  }

  /** Every step but a transition of a row keeps its command and its consumed deliveries, and every step but a
      recorded failure its count of failures. */
  lemma NextSteady(s: Sys, step: Step, s': Sys)
    requires SysInv(s) && Next(s, step, s')
    ensures SteadyBut(s.db.workflows, s'.db.workflows, Moving(s, step) + Failing(s, step))
  {
    if OfCoordinator(step) {
      CoordinatorSteady(s, step, s');
    } else {
      OtherSteady(s, step, s');
    }
  }

  // ---- Runs ------------------------------------------------------------------------------------------------

  /** The step at `i` commits a transition of `w`. */
  ghost predicate Transitions(states: seq<Sys>, steps: seq<Step>, i: nat, w: nat)
    requires |states| == |steps| + 1 && i < |steps|
  {
    && steps[i].TransitionStep? && steps[i].token in states[i].claims && states[i].claims[steps[i].token].id == w
    && states[i + 1].db != states[i].db
  }

  /** The step at `i` records a failed activation of `w`. */
  ghost predicate Fails(states: seq<Sys>, steps: seq<Step>, i: nat, w: nat)
    requires |states| == |steps| + 1 && i < |steps|
  {
    && steps[i].FailureStep? && steps[i].token in states[i].claims && states[i].claims[steps[i].token].id == w
    && states[i + 1].db != states[i].db
  }

  /** What a step of a run does to a workflow row: it is a transition of the row, a failed activation of it,
      or keeps its command. */
  lemma RowsInRun(states: seq<Sys>, steps: seq<Step>, i: nat, w: nat)
    requires Run(states, steps) && i < |steps| && w in states[i].db.workflows
    ensures w in states[i + 1].db.workflows
    ensures WorkflowOk(states[i].db.workflows[w]) && WorkflowOk(states[i + 1].db.workflows[w])
    ensures var r, r' := states[i].db.workflows[w], states[i + 1].db.workflows[w];
      if Transitions(states, steps, i, w) then Moved(r, r', steps[i].transition) && r.status.Running?
      else if Fails(states, steps, i, w)
      then ActivationFailed(r, r', steps[i].configuredMax, steps[i].availableAt) && r.status.Running?
      else SameCommand(r, r')
  {
    RunSafe(states, steps, i);
    RunSafe(states, steps, i + 1);
    RowMoves(states[i], steps[i], states[i + 1], w);
  }

  lemma RowMoves(s: Sys, step: Step, s': Sys, w: nat)
    requires SysInv(s) && Next(s, step, s') && w in s.db.workflows
    ensures w in s'.db.workflows
    ensures var r, r' := s.db.workflows[w], s'.db.workflows[w];
      if w in Moving(s, step) && s'.db != s.db then Moved(r, r', step.transition) && r.status.Running?
      else if w in Failing(s, step) && s'.db != s.db
      then ActivationFailed(r, r', step.configuredMax, step.availableAt) && r.status.Running?
      else SameCommand(r, r')
  {
    SameRow(s.db.workflows[w]);
    NextSteady(s, step, s');
    if w in Moving(s, step) && s'.db != s.db {
      TransitionMoves(s, step.token, step.transition, step.now, s');
    } else if w in Failing(s, step) && s'.db != s.db {
      FailureMoves(s, step.token, step.configuredMax, step.availableAt, step.now, s');
    }
  }
}
