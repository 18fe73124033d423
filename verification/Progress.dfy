/** How workflows end and wake, over every run: by how many failed activations,
    by which transition, and not before which time. */
module Progress {
  import opened Rows
  import opened Transactions
  import opened Invariant
  import opened Commits
  import opened Lineage
  import opened Generations
  import opened System
  import opened Safety
  import opened Runs
  import opened History
  import opened Advance
  import opened Meanings
  import opened Steady

  // ---- Since the last transition -----------------------------------------------------------------

  /** The failed activations of `w` recorded before the state at `i`, since its last committed transition or
      its start. */
  ghost function FailuresSince(states: seq<Sys>, steps: seq<Step>, w: nat, i: nat): nat
    requires |states| == |steps| + 1 && i < |states|
  {
    if i == 0 || w !in states[i - 1].db.workflows || Transitions(states, steps, i - 1, w) then 0
    else FailuresSince(states, steps, w, i - 1) + (if Fails(states, steps, i - 1, w) then 1 else 0)
  }

  /** The last step before the state at `i` that committed a transition of `w`. */
  ghost function LastTransition(states: seq<Sys>, steps: seq<Step>, w: nat, i: nat): (k: Option<nat>)
    requires |states| == |steps| + 1 && i < |states|
    ensures k.Some? ==> k.value < i && Transitions(states, steps, k.value, w)
    ensures forall j :: 0 <= j < i && Transitions(states, steps, j, w) ==> k.Some? && j <= k.value
  {
    if i == 0 then None
    else if Transitions(states, steps, i - 1, w) then Some(i - 1)
    else LastTransition(states, steps, w, i - 1)
  }

  // ---- Failed activations ---------------------------------------------------------------------------

  /** The step at `i` counts what it should: a new row starts at none, a transition starts anew, a failed
      activation is one more. */
  ghost predicate StepCounts(states: seq<Sys>, steps: seq<Step>, w: nat, i: nat)
    requires |states| == |steps| + 1 && i < |steps|
  {
    w in states[i + 1].db.workflows ==>
      var c' := states[i + 1].db.workflows[w].counters;
      if w !in states[i].db.workflows
      then c'.activationAttempts == 0 && c'.maxActivation == DEFAULT_MAX_ACTIVATION
      else
        var c := states[i].db.workflows[w].counters;
        && c'.maxActivation == c.maxActivation
        && c'.activationAttempts == (if Transitions(states, steps, i, w) then 0
                                     else if Fails(states, steps, i, w) then c.activationAttempts + 1
                                     else c.activationAttempts)
  }

  lemma OneStepCounts(states: seq<Sys>, steps: seq<Step>, w: nat, i: nat)
    requires Run(states, steps) && i < |steps|
    ensures StepCounts(states, steps, w, i)
  {
    if w in states[i].db.workflows {
      RowsInRun(states, steps, i, w);
    } else if w in states[i + 1].db.workflows {
      AddedRow(states, steps, i, w);
    }
  }

  lemma {:induction false} StepsCount(states: seq<Sys>, steps: seq<Step>, w: nat, i: nat)
    requires |states| == |steps| + 1 && i < |states| && w !in states[0].db.workflows && w in states[i].db.workflows
    requires forall k :: 0 <= k < |steps| ==> StepCounts(states, steps, w, k)
    ensures states[i].db.workflows[w].counters.activationAttempts == FailuresSince(states, steps, w, i)
    ensures states[i].db.workflows[w].counters.maxActivation == DEFAULT_MAX_ACTIVATION
  {
    assert StepCounts(states, steps, w, i - 1);
    if w in states[i - 1].db.workflows { StepsCount(states, steps, w, i - 1); }
  }

  /** In every state a row counts the failed activations since its last transition. */
  lemma FailuresCounted(states: seq<Sys>, steps: seq<Step>, w: nat, i: nat)
    requires Run(states, steps) && i < |states| && w in states[i].db.workflows
    ensures states[i].db.workflows[w].counters.activationAttempts == FailuresSince(states, steps, w, i)
    ensures states[i].db.workflows[w].counters.maxActivation == DEFAULT_MAX_ACTIVATION
  {
    forall k | 0 <= k < |steps| ensures StepCounts(states, steps, w, k) { OneStepCounts(states, steps, w, k); }
    StepsCount(states, steps, w, i);
  }

  lemma AddedRow(states: seq<Sys>, steps: seq<Step>, i: nat, w: nat)
    requires Run(states, steps) && i < |steps|
    requires w in states[i + 1].db.workflows && w !in states[i].db.workflows
    ensures JustStarted(states[i + 1].db.workflows[w])
  {
    RunSafe(states, steps, i);
    NextStarts(states[i], steps[i], states[i + 1]);
  }

  /** A live workflow fails exactly with the failed activation that makes as many in a row as the row allows,
      or as its coordinator does. After any other one it is ready at the given time, with the same
      deliveries. */
  lemma FailsAtLimit(states: seq<Sys>, steps: seq<Step>, w: nat, i: nat)
    requires Run(states, steps) && i < |steps| && Live(states[i].db.workflows, w)
    ensures w in states[i + 1].db.workflows
    ensures var r, r' := states[i].db.workflows[w], states[i + 1].db.workflows[w];
      && (r'.status.Failed? <==>
            && Fails(states, steps, i, w)
            && (|| FailuresSince(states, steps, w, i + 1) >= DEFAULT_MAX_ACTIVATION
                || FailuresSince(states, steps, w, i + 1) >= steps[i].configuredMax))
      && (Fails(states, steps, i, w) && !r'.status.Failed? ==>
            && r'.status.Ready? && r'.counters.availableAt == steps[i].availableAt
            && r'.inbox == r.inbox && r'.delivered == r.delivered && r'.command == r.command)
  {
    FailuresCounted(states, steps, w, i);
    RowsInRun(states, steps, i, w);
  }

  /** A live workflow succeeds exactly with a committed completion. */
  lemma SucceedsByCompletion(states: seq<Sys>, steps: seq<Step>, w: nat, i: nat)
    requires Run(states, steps) && i < |steps| && Live(states[i].db.workflows, w)
    ensures w in states[i + 1].db.workflows
    ensures states[i + 1].db.workflows[w].status.Succeeded? <==>
      Transitions(states, steps, i, w) && steps[i].transition.Complete?
  {
    RowsInRun(states, steps, i, w);
  }

  // ---- Timers -----------------------------------------------------------------------------------------

  /** The step at `i` leaves `w` waiting for a timer only if it is the sleep that set it, or `w` was waiting for
      it before, under the same command. */
  ghost predicate StepSleeps(states: seq<Sys>, steps: seq<Step>, w: nat, i: nat)
    requires |states| == |steps| + 1 && i < |steps|
  {
    w in states[i + 1].db.workflows && states[i + 1].db.workflows[w].wait.OnTimer? ==>
      var r' := states[i + 1].db.workflows[w];
      if Transitions(states, steps, i, w) then steps[i].transition == SleepUntil(r'.counters.availableAt)
      else
        && w in states[i].db.workflows
        && var r := states[i].db.workflows[w];
        && r.wait.OnTimer? && r.counters.availableAt == r'.counters.availableAt && r.command == r'.command
  }

  lemma OneStepSleeps(states: seq<Sys>, steps: seq<Step>, w: nat, i: nat)
    requires Run(states, steps) && i < |steps|
    ensures StepSleeps(states, steps, w, i)
  {
    if w in states[i].db.workflows {
      RowsInRun(states, steps, i, w);
    } else if w in states[i + 1].db.workflows {
      AddedRow(states, steps, i, w);
    }
  }

  lemma {:induction false} StepsSleep(states: seq<Sys>, steps: seq<Step>, w: nat, i: nat)
    requires |states| == |steps| + 1 && i < |states| && w !in states[0].db.workflows && w in states[i].db.workflows
    requires forall k :: 0 <= k < |steps| ==> StepSleeps(states, steps, w, k)
    requires states[i].db.workflows[w].wait.OnTimer?
    ensures var r, k := states[i].db.workflows[w], LastTransition(states, steps, w, i);
      && k.Some? && steps[k.value].transition == SleepUntil(r.counters.availableAt)
      && w in states[k.value + 1].db.workflows && r.command == states[k.value + 1].db.workflows[w].command
  {
    assert StepSleeps(states, steps, w, i - 1);
    if !Transitions(states, steps, i - 1, w) { StepsSleep(states, steps, w, i - 1); }
  }

  /** A row that waits for a timer waits until the time of its last transition, a sleep. */
  lemma SleepsUntil(states: seq<Sys>, steps: seq<Step>, w: nat, i: nat)
    requires Run(states, steps) && i < |states| && w in states[i].db.workflows
    requires states[i].db.workflows[w].wait.OnTimer?
    ensures var r, k := states[i].db.workflows[w], LastTransition(states, steps, w, i);
      && k.Some? && steps[k.value].transition == SleepUntil(r.counters.availableAt)
      && w in states[k.value + 1].db.workflows && r.command == states[k.value + 1].db.workflows[w].command
  {
    forall k | 0 <= k < |steps| ensures StepSleeps(states, steps, w, k) { OneStepSleeps(states, steps, w, k); }
    StepsSleep(states, steps, w, i);
  }

  /** The timer of a sleeping workflow can fire exactly from the time on that its last transition gave, and
      then answers the command of that transition. */
  lemma TimerFiresWhenDue(states: seq<Sys>, steps: seq<Step>, w: nat, i: nat, now: int)
    requires Run(states, steps) && i < |states| && w in states[i].db.workflows
    requires states[i].db.workflows[w].status.Sleeping?
    ensures var k := LastTransition(states, steps, w, i);
      && k.Some? && steps[k.value].transition.SleepUntil?
      && var tx := FireTimer(states[i].db, w, now);
      && (tx.Commit? <==> steps[k.value].transition.at <= now)
      && (tx.Commit? ==>
            && w in tx.db.workflows && w in states[k.value + 1].db.workflows
            && Got(states[i].db.workflows[w], tx.db.workflows[w],
                   TimerFired(states[k.value + 1].db.workflows[w].command), now))
  {
    RunSafe(states, steps, i);
    assert WorkflowOk(states[i].db.workflows[w]);
    SleepsUntil(states, steps, w, i);
    TimerMeans(states[i].db, w, now);
  }

  // ---- Outcomes of children ------------------------------------------------------------------------------

  /** The child `c` is what `w` waited on, or the end of the chain that its child transition named. */
  ghost predicate AskedFor(states: seq<Sys>, steps: seq<Step>, i: nat, w: nat, c: nat)
    requires |states| == |steps| + 1 && i < |steps|
  {
    || Waits(states[i].db.workflows, w, c)
    || (&& Transitions(states, steps, i, w) && steps[i].transition.RunChild?
        && EndsChainOf(states[i].db.workflows, steps[i].transition.definition.kind,
                       ChildKey(states[i].claims[steps[i].token], steps[i].transition), c))
  }

  /** The last delivery of `r` tells how `child` is stored to have ended. */
  ghost predicate TellsOf(r: Workflow, child: Workflow) {
    && r.inbox != [] && r.inbox[|r.inbox| - 1].event.ChildDone?
    && r.inbox[|r.inbox| - 1].event.definition == child.identity.definition
    && OutcomeFits(child.status, r.inbox[|r.inbox| - 1].event.outcome)
  }

  /** Whenever a live workflow is told the outcome of a child, whether the child ended just now or had ended
      before the workflow asked for it, that outcome is the one stored with the child. */
  lemma OutcomeIsStored(states: seq<Sys>, steps: seq<Step>, i: nat, w: nat)
    requires Run(states, steps) && i < |steps| && w in states[i].db.workflows
    requires w in states[i + 1].db.workflows && Live(states[i + 1].db.workflows, w)
    requires |states[i + 1].db.workflows[w].inbox| > |states[i].db.workflows[w].inbox|
    requires var inbox := states[i + 1].db.workflows[w].inbox; inbox[|inbox| - 1].event.ChildDone?
    ensures exists c :: c in states[i + 1].db.workflows && AskedFor(states, steps, i, w, c)
                        && TellsOf(states[i + 1].db.workflows[w], states[i + 1].db.workflows[c])
  {
    RowsInRun(states, steps, i, w);
    if Transitions(states, steps, i, w) {
      var c := AttacherTold(states, steps, i, w);
    } else {
      var c := AnsweredChild(states[i].db.workflows[w], states[i + 1].db.workflows[w]);
      WaiterTold(states, steps, i, w, c);
      assert AskedFor(states, steps, i, w, c);
    }
  }

  /** A row that is answered about a child was waiting on one. */
  lemma AnsweredChild(r: Workflow, r': Workflow) returns (c: nat)
    requires WorkflowOk(r) && WorkflowOk(r') && SameDelivery(r, r') && !r'.status.Terminal()
    requires |r'.inbox| > |r.inbox| && r'.inbox[|r'.inbox| - 1].event.ChildDone?
    ensures r.WaitsOnChild(c)
  {
    assert Answers(r'.inbox[r'.delivered].event, r');
    c := r.wait.child;
  }

  lemma AttacherTold(states: seq<Sys>, steps: seq<Step>, i: nat, w: nat) returns (c: nat)
    requires Run(states, steps) && i < |steps| && Transitions(states, steps, i, w) && steps[i].transition.RunChild?
    requires w in states[i].db.workflows && w in states[i + 1].db.workflows
    requires |states[i + 1].db.workflows[w].inbox| > |states[i].db.workflows[w].inbox|
    ensures c in states[i + 1].db.workflows && AskedFor(states, steps, i, w, c)
    ensures TellsOf(states[i + 1].db.workflows[w], states[i + 1].db.workflows[c])
  {
    RunSafe(states, steps, i);
    c := AttachTells(states[i], steps[i].token, steps[i].transition, steps[i].now, states[i + 1]);
  }

  lemma WaiterTold(states: seq<Sys>, steps: seq<Step>, i: nat, w: nat, c: nat)
    requires Run(states, steps) && i < |steps|
    requires w in states[i].db.workflows && states[i].db.workflows[w].WaitsOnChild(c)
    requires w in states[i + 1].db.workflows && Live(states[i + 1].db.workflows, w)
    requires |states[i + 1].db.workflows[w].inbox| > |states[i].db.workflows[w].inbox|
    ensures Waits(states[i].db.workflows, w, c) && c in states[i + 1].db.workflows
    ensures TellsOf(states[i + 1].db.workflows[w], states[i + 1].db.workflows[c])
  {
    RunSafe(states, steps, i);
    assert WaitOk(states[i].db, w);
    NextAdvances(states[i], steps[i], states[i + 1]);
    assert Served(states[i].db.workflows, states[i + 1].db.workflows, w, c);
  }

  lemma AttachTells(s: Sys, token: nat, t: Transition, now: int, s': Sys) returns (c: nat)
    requires Inv(s.db) && ClaimsOk(s) && TransitionNext(s, token, t, now, s') && s'.db != s.db && t.RunChild?
    requires s.claims[token].id in s.db.workflows && s.claims[token].id in s'.db.workflows
    requires |s'.db.workflows[s.claims[token].id].inbox| > |s.db.workflows[s.claims[token].id].inbox|
    ensures c in s'.db.workflows
    ensures EndsChainOf(s.db.workflows, t.definition.kind, ChildKey(s.claims[token], t), c)
    ensures TellsOf(s'.db.workflows[s.claims[token].id], s'.db.workflows[c])
  {
    FencedClaimAgrees(s, token);
    c := AttachedIsTold(s.db, s.claims[token], s.claims[token].loaded.value, t, now);
  }

  lemma AttachedIsTold(db: Db, claim: WorkflowClaim, consumed: nat, t: Transition, now: int) returns (c: nat)
    requires Inv(db) && CacheAgrees(db, claim, consumed) && t.RunChild? && t.id != claim.id && Fenced(db, claim)
    requires CommitTransition(db, claim, consumed, t, now).Commit?
    requires var ws' := CommitTransition(db, claim, consumed, t, now).db.workflows;
      claim.id in ws' && |ws'[claim.id].inbox| > |db.workflows[claim.id].inbox|
    ensures c in CommitTransition(db, claim, consumed, t, now).db.workflows
    ensures EndsChainOf(db.workflows, t.definition.kind, ChildKey(claim, t), c)
    ensures var ws' := CommitTransition(db, claim, consumed, t, now).db.workflows; TellsOf(ws'[claim.id], ws'[c])
  {
    var kind, key := t.definition.kind, ChildKey(claim, t);
    if KeyFree(db.workflows, kind, key) { NewChildMeans(db, claim, consumed, t, now); }
    c := ChainEnd(db.workflows, kind, key);
    AttachMeans(db, claim, consumed, t, c, now);
  }

  lemma ChainEnd(ws: map<nat, Workflow>, kind: string, key: Key) returns (c: nat)
    requires LinksOk(ws) && !KeyFree(ws, kind, key)
    ensures EndsChainOf(ws, kind, key, c)
  {
    var hit := FindByKey(ws, kind, key);
    c := Newest(ws, hit.value);
    NewestIsLast(ws, hit.value);
  }
}
