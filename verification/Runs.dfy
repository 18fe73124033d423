/** The commit of a claim batch, and the theorem that every state of every run
    satisfies the invariant of the system. */
module Runs {
  import opened Rows
  import opened Transactions
  import opened Invariant
  import opened Preservation
  import opened System
  import opened Batches
  import opened Safety

  // ---- The rows of a batch, one by one ----------------------------------------------------

  /** A settled or quarantined row loses a lease that has expired, and no other lease changes. */
  lemma ReleaseFrame(db: Db, op: RowOp, now: int)
    requires Inv(db) && OpEnabled(db, op, now) && !op.Take?
    ensures var db' := ApplyOp(db, op, now);
      && (forall w :: w in db'.workflows && db'.workflows[w].lease.Some? ==>
            w in db.workflows && db'.workflows[w] == db.workflows[w])
      && (forall a :: a in db'.activities && db'.activities[a].lease.Some? ==>
            a in db.activities && a != op.activity && db'.activities[a] == db.activities[a])
      && (forall a :: a in db.activities && a != op.activity ==>
            a in db'.activities && db'.activities[a] == db.activities[a])
      && (db.activities[op.activity].lease.Some? ==> db.activities[op.activity].lease.value.expires <= now)
  {
    assert ActivityOk(db.activities[op.activity]) && WorkflowOk(db.workflows[op.workflow]);
    assert CoupledOk(db, op.activity);
    ApplyOpTouches(db, op, now);
  }

  /** No executing handler relies on an expired lease. */
  lemma ReleaseKeepsHolders(s: Sys, db': Db, released: nat, now: int)
    requires HoldersOk(s) && now <= Millis(s.clock) && released in s.db.activities
    requires forall w :: w in db'.workflows && db'.workflows[w].lease.Some? ==>
      w in s.db.workflows && db'.workflows[w] == s.db.workflows[w]
    requires forall a :: a in db'.activities && db'.activities[a].lease.Some? ==>
      a in s.db.activities && a != released && db'.activities[a] == s.db.activities[a]
    requires forall a :: a in s.db.activities && a != released ==>
      a in db'.activities && db'.activities[a] == s.db.activities[a]
    requires s.db.activities[released].lease.Some? ==> s.db.activities[released].lease.value.expires <= now
    ensures HoldersOk(s.(db := db'))
  {
    var s' := s.(db := db');
    forall w | w in db'.workflows ensures WorkflowClaimOk(s', w) {
      if db'.workflows[w].lease.Some? { assert WorkflowClaimOk(s, w); }
    }
    forall a | a in db'.activities ensures LeaseOk(s', a) {
      if db'.activities[a].lease.Some? { assert LeaseOk(s, a); }
    }
    forall t | t in s'.handlers ensures HandlerOk(s', t) { assert HandlerOk(s, t); }
  }

  /** A leased row starts a handler whose deadline is not after the lease. */
  lemma TakeKeepsHolders(s: Sys, a: nat, t: nat, started: int, now: int)
    requires HoldersOk(s) && now <= Millis(s.clock) && started < (now + 1) * 1000 && t !in s.leases
    requires a in s.db.activities && s.db.activities[a].lease.None? && s.db.activities[a].origin.spec.leaseMillis >= 1
    ensures var r := TakenRow(s.db.activities[a], t, now);
      HoldersOk(s.(db := s.db.(activities := s.db.activities[a := r]),
                   leases := s.leases[t := ClaimOf(a, r)],
                   handlers := s.handlers[t := Handler(a, LocalDeadline(started, r.origin.spec.leaseMillis))]))
  {
    var r := TakenRow(s.db.activities[a], t, now);
    var s' := s.(db := s.db.(activities := s.db.activities[a := r]),
                 leases := s.leases[t := ClaimOf(a, r)],
                 handlers := s.handlers[t := Handler(a, LocalDeadline(started, r.origin.spec.leaseMillis))]);
    forall w | w in s'.db.workflows ensures WorkflowClaimOk(s', w) { assert WorkflowClaimOk(s, w); }
    forall c | c in s'.db.activities ensures LeaseOk(s', c) { assert LeaseOk(s, c); }
    forall u | u in s'.handlers ensures HandlerOk(s', u) {
      if u != t { assert HandlerOk(s, u); }
    }
  }

  lemma CommitOpKeeps(s: Sys, b: Batch, op: RowOp)
    requires Inv(s.db) && HoldersOk(s) && OpEnabled(s.db, op, b.now) && (op.Take? ==> op.token !in s.leases)
    requires b.now <= Millis(s.clock) && b.started < (b.now + 1) * 1000
    ensures Inv(CommitOp(s, b, op).db) && HoldersOk(CommitOp(s, b, op))
  {
    ApplyOpKeeps(s.db, op, b.now);
    if op.Take? {
      assert ActivityOk(s.db.activities[op.activity]);
      TakeKeepsHolders(s, op.activity, op.token, b.started, b.now);
    } else {
      ReleaseFrame(s.db, op, b.now);
      ReleaseKeepsHolders(s, ApplyOp(s.db, op, b.now), op.activity, b.now);
    }
  }

  /** The tokens of `ops` are new and differ from each other. */
  ghost predicate NewTokens(leases: set<nat>, ops: seq<RowOp>) {
    && (forall i :: 0 <= i < |ops| && ops[i].Take? ==> ops[i].token !in leases)
    && (forall i, j :: 0 <= i < j < |ops| ==> DifferentTokens(ops[i], ops[j]))
  }

  ghost predicate TokenOf(ops: seq<RowOp>, t: nat) {
    exists i :: 0 <= i < |ops| && ops[i].Take? && ops[i].token == t
  }

  lemma TokenOfTail(ops: seq<RowOp>, t: nat)
    requires ops != []
    ensures TokenOf(ops, t) <== (ops[0].Take? && ops[0].token == t) || TokenOf(ops[1..], t)
  {
    if TokenOf(ops[1..], t) {
      var i :| 0 <= i < |ops[1..]| && ops[1..][i].Take? && ops[1..][i].token == t;
      assert ops[i + 1] == ops[1..][i];
    }
  }

  lemma {:induction false} CommitOpsKeeps(s: Sys, b: Batch, ops: seq<RowOp>)
    requires Inv(s.db) && HoldersOk(s) && OpsEnabled(s.db, ops, b.now) && NewTokens(s.leases.Keys, ops)
    requires b.now <= Millis(s.clock) && b.started < (b.now + 1) * 1000
    ensures var s' := CommitOps(s, b, ops);
      && s' == s.(db := ApplyOps(s.db, ops, b.now), leases := s'.leases, handlers := s'.handlers)
      && Inv(s'.db) && HoldersOk(s')
    decreases |ops|
  {
    if ops != [] {
      var s1 := CommitOp(s, b, ops[0]);
      CommitOpKeeps(s, b, ops[0]);
      TailIsNew(s, b, ops);
      CommitOpsKeeps(s1, b, ops[1..]);
    }
  }

  /** A commit adds the leases of its own tokens only. */
  lemma {:induction false} CommitOpsLeases(s: Sys, b: Batch, ops: seq<RowOp>)
    requires OpsEnabled(s.db, ops, b.now)
    ensures forall t :: t in CommitOps(s, b, ops).leases ==> t in s.leases || TokenOf(ops, t)
    decreases |ops|
  {
    if ops != [] {
      CommitOpsLeases(CommitOp(s, b, ops[0]), b, ops[1..]);
      forall t | t in CommitOps(s, b, ops).leases ensures t in s.leases || TokenOf(ops, t) {
        TokenOfTail(ops, t);
      }
    }
  }

  lemma TailIsNew(s: Sys, b: Batch, ops: seq<RowOp>)
    requires ops != [] && OpEnabled(s.db, ops[0], b.now) && NewTokens(s.leases.Keys, ops)
    ensures NewTokens(CommitOp(s, b, ops[0]).leases.Keys, ops[1..])
  {
    forall i | 0 <= i < |ops[1..]| && ops[1..][i].Take? ensures ops[1..][i].token !in CommitOp(s, b, ops[0]).leases {
      assert ops[1..][i] == ops[i + 1] && DifferentTokens(ops[0], ops[i + 1]);
    }
    forall i, j | 0 <= i < j < |ops[1..]| ensures DifferentTokens(ops[1..][i], ops[1..][j]) {
      assert DifferentTokens(ops[i + 1], ops[j + 1]);
    }
  }

  // ---- The commit of a batch ------------------------------------------------------------------

  /** A batch changes the slots of its own topics only. */
  lemma BatchSlots(db: Db, clock: int, caps: map<string, nat>, b: Batch, topic: string)
    requires BatchOk(db, clock, caps, b) && topic !in b.topics
    ensures Slots(ApplyOps(db, b.ops, b.now), topic) == Slots(db, topic)
  {
    ViewOrigins(db, b.ops, b.now);
    forall a | a in db.activities && db.activities[a].origin.spec.topic == topic
      ensures ApplyOps(db, b.ops, b.now).activities[a] == db.activities[a]
    {
      Unlocked(db, b.ops, b.now, a);
    }
  }

  lemma {:induction false} UnlockedWorkflow(db: Db, ops: seq<RowOp>, now: int, w: nat)
    requires OpsEnabled(db, ops, now) && (forall i :: 0 <= i < |ops| ==> ops[i].workflow != w)
    ensures w in ApplyOps(db, ops, now).workflows <==> w in db.workflows
    ensures w in db.workflows ==> ApplyOps(db, ops, now).workflows[w] == db.workflows[w]
    decreases |ops|
  {
    if ops != [] {
      ApplyOpTouches(db, ops[0], now);
      forall i | 0 <= i < |ops[1..]| ensures ops[1..][i].workflow != w { assert ops[1..][i] == ops[i + 1]; }
      UnlockedWorkflow(ApplyOp(db, ops[0], now), ops[1..], now, w);
    }
  }

  /** To another batch, a commit looks like any other transaction. */
  lemma CommitRelies(db: Db, clock: int, caps: map<string, nat>, b: Batch, c: Batch)
    requires Inv(db) && BatchOk(db, clock, caps, b) && Apart(b, c)
    ensures RespectsLocks(db, ApplyOps(db, b.ops, b.now), c) && Rely(db, ApplyOps(db, b.ops, b.now), c.topics)
  {
    var db' := ApplyOps(db, b.ops, b.now);
    forall i | 0 <= i < |c.ops| ensures SameRows(db, db', c.ops[i]) {
      Unlocked(db, b.ops, b.now, c.ops[i].activity);
      UnlockedWorkflow(db, b.ops, b.now, c.ops[i].workflow);
    }
    ViewOrigins(db, b.ops, b.now);
    forall a | a in db'.activities && HoldsSlotOf(db'.activities[a], c.topics) ensures HeldBefore(db, db', a) {
      Unlocked(db, b.ops, b.now, a);
      assert ActivityOk(db.activities[a]);
    }
  }

  lemma CommitKeepsBatches(s: Sys, id: nat, s': Sys)
    requires Inv(s.db) && BatchesOk(s) && id in s.batches && OpsEnabled(s.db, s.batches[id].ops, s.batches[id].now)
    requires s'.db == ApplyOps(s.db, s.batches[id].ops, s.batches[id].now) && Inv(s'.db)
    requires s'.clock == s.clock && s'.caps == s.caps && s'.batches == s.batches - {id}
    ensures BatchesOk(s')
  {
    assert BatchOk(s.db, s.clock, s.caps, s.batches[id]);
    forall jd | jd in s'.batches ensures BatchOk(s'.db, s'.clock, s'.caps, s'.batches[jd]) {
      assert BatchOk(s.db, s.clock, s.caps, s.batches[jd]) && Apart(s.batches[id], s.batches[jd]);
      CommitRelies(s.db, s.clock, s.caps, s.batches[id], s.batches[jd]);
      BatchFrame(s.db, s'.db, s.clock, s.clock, s.caps, s.batches[jd]);
    }
    forall jd, kd | jd in s'.batches && kd in s'.batches && jd != kd ensures Apart(s'.batches[jd], s'.batches[kd]) {
      assert Apart(s.batches[jd], s.batches[kd]);
    }
  }

  lemma CommitKeepsCaps(s: Sys, id: nat, s': Sys)
    requires BatchesOk(s) && CapsOk(s) && id in s.batches && OpsEnabled(s.db, s.batches[id].ops, s.batches[id].now)
    requires s'.db == ApplyOps(s.db, s.batches[id].ops, s.batches[id].now) && s'.caps == s.caps
    ensures CapsOk(s')
  {
    var b := s.batches[id];
    assert BatchOk(s.db, s.clock, s.caps, b);
    forall topic | topic in s'.caps ensures |Slots(s'.db, topic)| <= s'.caps[topic] {
      if topic !in b.topics { BatchSlots(s.db, s.clock, s.caps, b, topic); }
    }
  }

  lemma CommitKeepsTokens(s: Sys, id: nat, s': Sys)
    requires TokensOk(s) && TokensDistinct(s.batches) && id in s.batches
    requires s'.claims == s.claims && s'.issued == s.issued && s'.batches == s.batches - {id}
    requires forall t :: t in s'.leases ==> t in s.leases || TokenOf(s.batches[id].ops, t)
    ensures TokensOk(s') && TokensDistinct(s'.batches)
  {
    var ops := s.batches[id].ops;
    forall jd, j | jd in s'.batches && 0 <= j < |s'.batches[jd].ops| && s'.batches[jd].ops[j].Take?
      ensures s'.batches[jd].ops[j].token !in s'.leases
    {
      forall i | 0 <= i < |ops| ensures DifferentTokens(ops[i], s.batches[jd].ops[j]) {
      }
    }
  }

  lemma CommitKeeps(s: Sys, id: nat, s': Sys)
    requires SysInv(s) && CommitNext(s, id, s')
    ensures SysInv(s')
  {
    var b := s.batches[id];
    assert BatchOk(s.db, s.clock, s.caps, b);
    assert NewTokens(s.leases.Keys, b.ops);
    CommitOpsKeeps(s, b, b.ops);
    CommitOpsLeases(s, b, b.ops);
    SameHolders(CommitOps(s, b, b.ops), s');
    CommitKeepsBatches(s, id, s');
    CommitKeepsCaps(s, id, s');
    CommitKeepsTokens(s, id, s');
  }

  // ---- Runs --------------------------------------------------------------------------------------

  lemma InitOk(s: Sys)
    requires Init(s)
    ensures SysInv(s)
  {
    forall topic | topic in s.caps ensures |Slots(s.db, topic)| <= s.caps[topic] {
      assert Slots(s.db, topic) == {};
    }
  }

  /** A step of a claim batch. */
  predicate OfBatch(step: Step) {
    step.BeginBatch? || step.BatchStatement? || step.CommitBatch? || step.AbortBatch?
  }

  lemma BatchStepKeeps(s: Sys, step: Step, s': Sys)
    requires SysInv(s) && Next(s, step, s') && OfBatch(step)
    ensures SysInv(s')
  {
    match step
    case BeginBatch(id, topics, started, now) => BeginKeeps(s, id, topics, started, now, s');
    case BatchStatement(id, next, taken) => StatementKeeps(s, id, next, taken, s');
    case CommitBatch(id) => CommitKeeps(s, id, s');
    case AbortBatch(id) => AbortKeeps(s, id, s');
  }

  /** A step of a coordinator. */
  predicate OfCoordinator(step: Step) {
    step.ClaimStep? || step.LoadStep? || step.TransitionStep? || step.FailureStep?
  }

  lemma CoordinatorStepKeeps(s: Sys, step: Step, s': Sys)
    requires SysInv(s) && Next(s, step, s') && OfCoordinator(step)
    ensures SysInv(s')
  {
    match step
    case ClaimStep(w, token, leaseMillis, now) => ClaimStepKeeps(s, w, token, leaseMillis, now, s');
    case LoadStep(token) => LoadStepKeeps(s, token, s');
    case TransitionStep(token, t, now) => TransitionStepKeeps(s, token, t, now, s');
    case FailureStep(token, configuredMax, availableAt, now) =>
      FailureStepKeeps(s, token, configuredMax, availableAt, now, s');
  }

  /** Every step keeps the invariant. */
  lemma NextKeeps(s: Sys, step: Step, s': Sys)
    requires SysInv(s) && Next(s, step, s')
    ensures SysInv(s')
  {
    if OfBatch(step) {
      BatchStepKeeps(s, step, s');
    } else if OfCoordinator(step) {
      CoordinatorStepKeeps(s, step, s');
    } else {
      OtherStepKeeps(s, step, s');
    }
  }

  lemma OtherStepKeeps(s: Sys, step: Step, s': Sys)
    requires SysInv(s) && Next(s, step, s') && !OfBatch(step) && !OfCoordinator(step)
    ensures SysInv(s')
  {
    match step
    case Tick(_) => QuietKeeps(s, s');
    case LookUp(_, _) => QuietKeeps(s, s');
    case Act(action, now) => ActKeeps(s, action, now, s');
    case SendRenewal(token, started) => SendRenewalKeeps(s, token, started, s');
    case LandRenewal(token) => LandKeeps(s, token, s');
    case StopHandler(_) => QuietKeeps(s, s');
    case FinishStep(token, outcome, now) => FinishStepKeeps(s, token, outcome, now, s');
  }

  /** Every state of every run satisfies the invariant. */
  lemma {:induction false} RunSafe(states: seq<Sys>, steps: seq<Step>, i: nat)
    requires Run(states, steps) && i < |states|
    ensures SysInv(states[i])
  {
    if i == 0 {
      InitOk(states[0]);
    } else {
      RunSafe(states, steps, i - 1);
      NextKeeps(states[i - 1], steps[i - 1], states[i]);
    }
  }
}
