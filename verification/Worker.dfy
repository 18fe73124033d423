/** The activity claim batch as it is written: reconcile a topic, count its
    slot holders, lease pending rows, topic after topic. Other transactions
    commit between any two of its statements.

    `Interleave` stands for those transactions: callers know nothing of it but
    its contract, which every step of the system meets (`StepIsOthers`). Each
    statement is one of the batch statements of the system model, and the log
    of a run lists them. */
module Worker {
  import opened Rows
  import opened Transactions
  import opened Invariant
  import opened Preservation
  import opened System
  import opened Batches
  import opened Safety
  import opened Runs
  import opened Protocol
  import opened Commits
  import opened Store
  import opened Meanings
  import opened Pages

  // ---- Other transactions --------------------------------------------------------------------

  /** What the transactions of others may do while the batch `b` runs. */
  ghost predicate Others(db: Db, db': Db, b: Batch) {
    Inv(db') && RespectsLocks(db, db', b) && Rely(db, db', b.topics)
  }

  lemma NothingHappened(db: Db, b: Batch)
    requires Inv(db)
    ensures Others(db, db, b)
  {
    forall a | a in db.activities && HoldsSlotOf(db.activities[a], b.topics) ensures HeldBefore(db, db, a) {
      assert ActivityOk(db.activities[a]);
    }
  }

  lemma OthersTransitive(x: Db, y: Db, z: Db, b: Batch)
    requires Others(x, y, b) && Others(y, z, b)
    ensures Others(x, z, b)
  {
    forall i | 0 <= i < |b.ops| ensures SameRows(x, z, b.ops[i]) {
      assert SameRows(x, y, b.ops[i]) && SameRows(y, z, b.ops[i]);
    }
    forall a | a in z.activities && HoldsSlotOf(z.activities[a], b.topics) ensures HeldBefore(x, z, a) {
      assert HeldBefore(y, z, a);
      assert HeldBefore(x, y, a);
    }
  }

  /** Whatever the system does in one step, but for a step of the batch itself, is such a change. */
  lemma StepIsOthers(s: Sys, step: Step, s': Sys, id: nat)
    requires SysInv(s) && Next(s, step, s') && id in s.batches
    requires OfBatch(step) ==> step.batch != id
    ensures Others(s.db, s'.db, s.batches[id])
  {
    NextKeeps(s, step, s');
    if s'.db == s.db {
      NothingHappened(s.db, s.batches[id]);
    } else if OfCoordinator(step) {
      CoordinatorIsOthers(s, step, s', id);
    } else if step.CommitBatch? {
      BatchIsOthers(s, step.batch, s', id);
    } else {
      RestIsOthers(s, step, s', id);
    }
  }

  lemma RestIsOthers(s: Sys, step: Step, s': Sys, id: nat)
    requires Inv(s.db) && HoldersOk(s) && Inv(s'.db) && Next(s, step, s') && id in s.batches && s'.db != s.db
    requires step.Act? || step.FinishStep? || step.LandRenewal?
    ensures Others(s.db, s'.db, s.batches[id])
  {
    var topics := s.batches[id].topics;
    if step.Act? {
      PerformCalm(s.db, step.action, step.now);
      CalmRelies(s.db, s'.db, {}, topics);
    } else if step.FinishStep? {
      FinishCalm(s.db, s.leases[step.token], step.outcome, step.now);
      CalmRelies(s.db, s'.db, {s.leases[step.token].activity}, topics);
    } else {
      LandRelies(s, step.token, topics);
    }
  }

  lemma BatchIsOthers(s: Sys, other: nat, s': Sys, id: nat)
    requires SysInv(s) && CommitNext(s, other, s') && id in s.batches && other != id && Inv(s'.db)
    ensures Others(s.db, s'.db, s.batches[id])
  {
    var b := s.batches[other];
    assert BatchOk(s.db, s.clock, s.caps, b) && Apart(b, s.batches[id]);
    CommitWrites(s, b, b.ops);
    CommitRelies(s.db, s.clock, s.caps, b, s.batches[id]);
  }

  lemma {:induction false} CommitWrites(s: Sys, b: Batch, ops: seq<RowOp>)
    requires OpsEnabled(s.db, ops, b.now)
    ensures CommitOps(s, b, ops).db == ApplyOps(s.db, ops, b.now)
    decreases |ops|
  {
    if ops != [] { CommitWrites(CommitOp(s, b, ops[0]), b, ops[1..]); }
  }

  lemma CoordinatorIsOthers(s: Sys, step: Step, s': Sys, id: nat)
    requires SysInv(s) && SysInv(s') && Next(s, step, s') && OfCoordinator(step) && id in s.batches
    ensures Others(s.db, s'.db, s.batches[id])
  {
    var topics := s.batches[id].topics;
    if s'.db == s.db {
      NothingHappened(s.db, s.batches[id]);
    } else if step.ClaimStep? {
      NothingHappened(s.db, s.batches[id]);
      assert s'.db.activities == s.db.activities;
      forall a | a in s'.db.activities && HoldsSlotOf(s'.db.activities[a], topics) ensures HeldBefore(s.db, s'.db, a) {
        assert HeldBefore(s.db, s.db, a);
      }
    } else if step.TransitionStep? {
      TransitionCalm(s.db, s.claims[step.token], s.claims[step.token].loaded.value, step.transition, step.now);
      CalmRelies(s.db, s'.db, {}, topics);
    } else {
      FailureCalm(s.db, s.claims[step.token], step.configuredMax, step.availableAt, step.now);
      CalmRelies(s.db, s'.db, {}, topics);
    }
  }

  // ---- The log ------------------------------------------------------------------------------------

  /** One statement: the committed database it ran on, and the batch before and after it. */
  datatype Entry = Entry(base: Db, before: Batch, after: Batch)

  /** The statement is one of those of the system model. */
  ghost predicate IsStatement(e: Entry, caps: map<string, nat>) {
    var view := View(e.base, e.before);
    || (exists topic :: Scan(view, e.before, e.after, topic))
    || (exists a :: Skip(view, e.before, e.after, a))
    || (exists op :: SettleRow(view, e.before, e.after, op))
    || (exists wanted :: Count(view, caps, e.before, e.after, wanted))
    || (exists op :: TakeRow(view, e.before, e.after, op))
    || (exists op :: QuarantineRow(view, e.before, e.after, op))
    || (e.before.phase.Taking? && e.after == e.before.(phase := Between))
  }

  /** Each entry is a statement and starts from what the one before left and others did to it since. */
  ghost predicate LogOk(log: seq<Entry>, caps: map<string, nat>) {
    && (forall i {:trigger IsStatement(log[i], caps)} :: 0 <= i < |log| ==> IsStatement(log[i], caps))
    && (forall i {:trigger Follows(log[i], log[i + 1])} :: 0 <= i < |log| - 1 ==> Follows(log[i], log[i + 1]))
  }

  ghost predicate Follows(e: Entry, next: Entry) {
    next.before == e.after && Others(e.base, next.base, e.after)
  }

  lemma LogGrows(log: seq<Entry>, e: Entry, caps: map<string, nat>)
    requires LogOk(log, caps) && IsStatement(e, caps) && (log != [] ==> Follows(log[|log| - 1], e))
    ensures LogOk(log + [e], caps)
  {
    var more := log + [e];
    forall i | 0 <= i < |more| ensures IsStatement(more[i], caps) {
      if i < |log| { assert IsStatement(log[i], caps); }
    }
    forall i | 0 <= i < |more| - 1 ensures Follows(more[i], more[i + 1]) {
      if i < |log| - 1 { assert Follows(log[i], log[i + 1]); }
    }
  }

  /** The batch shows its new row, and stays right. */
  ghost predicate Wrote(base: Db, clock: int, caps: map<string, nat>, b: Batch, b': Batch, op: RowOp)
    requires OpEnabled(View(base, b), op, b.now)
  {
    && BatchOk(base, clock, caps, b') && IsStatement(Entry(base, b, b'), caps)
    && View(base, b') == ApplyOp(View(base, b), op, b.now)
  }

  lemma SettleIsStatement(base: Db, clock: int, caps: map<string, nat>, b: Batch, b': Batch, op: RowOp)
    requires BatchOk(base, clock, caps, b) && SettleRow(View(base, b), b, b', op)
    ensures Wrote(base, clock, caps, b, b', op)
  {
    SettleKeepsBatch(base, clock, caps, b, b', op);
    AppendOp(base, b.ops, op, b.now);
  }

  lemma TakeIsStatement(base: Db, clock: int, caps: map<string, nat>, b: Batch, b': Batch, op: RowOp)
    requires BatchOk(base, clock, caps, b) && TakeRow(View(base, b), b, b', op)
    ensures Wrote(base, clock, caps, b, b', op)
  {
    TakeKeepsBatch(base, clock, caps, b, b', op);
    AppendOp(base, b.ops, op, b.now);
  }

  lemma QuarantineIsStatement(base: Db, clock: int, caps: map<string, nat>, b: Batch, b': Batch, op: RowOp)
    requires BatchOk(base, clock, caps, b) && QuarantineRow(View(base, b), b, b', op)
    ensures Wrote(base, clock, caps, b, b', op)
  {
    QuarantineKeepsBatch(base, clock, caps, b, b', op);
    AppendOp(base, b.ops, op, b.now);
  }

  // ---- What a batch does ---------------------------------------------------------------------------

  /** A pending row of the topic that is due and that its workflow waits on. */
  ghost predicate Due(db: Db, topic: string, a: nat, now: int) {
    && a in db.activities
    && var r := db.activities[a];
    && r.origin.spec.topic == topic && r.status.ActPending? && r.availableAt <= now
    && r.origin.workflow in db.workflows
    && db.workflows[r.origin.workflow].status.WaitingActivity?
    && db.workflows[r.origin.workflow].wait == OnActivity(a)
  }

  /** A row that a claim may run: an attempt is left, and its timeout is positive and below its lease. */
  ghost predicate CanRun(r: Activity) {
    && r.attemptCount < r.maxAttempts && r.origin.spec.policyDecodes
    && 0 < r.origin.spec.timeoutMillis < r.origin.spec.leaseMillis
  }

  datatype Verdict = WasTaken | WasQuarantined | WasLocked | WasGone

  /** The visit of one candidate, and what the batch saw when it came to it. */
  datatype Visit = Visit(activity: nat, seen: Db, verdict: Verdict)

  /** A candidate is passed over only if others hold its rows or it is no longer due; it is leased if it can
      run, and quarantined if not. */
  ghost predicate VisitOk(v: Visit, topic: string, now: int, locked: set<nat>) {
    match v.verdict
    case WasLocked => v.activity in locked
    case WasGone => v.activity !in locked && !Due(v.seen, topic, v.activity, now)
    case WasQuarantined =>
      v.activity !in locked && Due(v.seen, topic, v.activity, now) && !CanRun(v.seen.activities[v.activity])
    case WasTaken =>
      v.activity !in locked && Due(v.seen, topic, v.activity, now) && CanRun(v.seen.activities[v.activity])
  }

  /** What the visit leaves of the database it saw. */
  ghost predicate VisitLeaves(v: Visit, db': Db, token: nat, now: int) {
    match v.verdict
    case WasLocked => db' == v.seen
    case WasGone => db' == v.seen
    case WasQuarantined => Quarantined(v.seen, db', v.activity)
    case WasTaken => Taken(v.seen, db', v.activity, token, now)
  }

  /** The activities that the visits leased, in order. */
  ghost function TakenBy(visits: seq<Visit>): seq<nat> {
    if visits == [] then []
    else
      var last := visits[|visits| - 1];
      TakenBy(visits[..|visits| - 1]) + (if last.verdict.WasTaken? then [last.activity] else [])
  }

  lemma TakenByMore(visits: seq<Visit>, v: Visit)
    ensures TakenBy(visits + [v]) == TakenBy(visits) + (if v.verdict.WasTaken? then [v.activity] else [])
  {
    assert (visits + [v])[..|visits|] == visits;
  }

  ghost predicate VisitsOk(visits: seq<Visit>, topic: string, now: int, locked: set<nat>) {
    forall k {:trigger VisitOk(visits[k], topic, now, locked)} :: 0 <= k < |visits| ==>
      VisitOk(visits[k], topic, now, locked)
  }

  lemma VisitsMore(visits: seq<Visit>, v: Visit, topic: string, now: int, locked: set<nat>)
    requires VisitsOk(visits, topic, now, locked) && VisitOk(v, topic, now, locked)
    ensures VisitsOk(visits + [v], topic, now, locked)
  {
    forall k | 0 <= k <= |visits| ensures VisitOk((visits + [v])[k], topic, now, locked) {
      assert k < |visits| ==> VisitOk(visits[k], topic, now, locked);
    }
  }

  /** Activities that a command made available at once are at time zero and go by workflow; the others go by
      identifier. */
  const CONTINUATION_READY := 0

  function RankOf(a: nat, r: Activity): Rank {
    Rank(r.availableAt, if r.availableAt == CONTINUATION_READY then r.origin.workflow else a, a)
  }

  /** A due row that this process has code for. */
  ghost predicate Offered(db: Db, topic: string, definitions: set<Definition>, a: nat, now: int) {
    Due(db, topic, a, now) && db.activities[a].origin.spec.definition in definitions
  }

  /** The first due rows in order; only a full page leaves out others, which all come later. */
  ghost predicate FirstDue(db: Db, topic: string, definitions: set<Definition>, page: seq<nat>, now: int) {
    && |page| <= PAGE
    && (forall i :: 0 <= i < |page| ==> Offered(db, topic, definitions, page[i], now))
    && (forall i, j :: 0 <= i < j < |page| ==>
          && page[i] in db.activities && page[j] in db.activities
          && Before(RankOf(page[i], db.activities[page[i]]), RankOf(page[j], db.activities[page[j]])))
    && (forall a :: Offered(db, topic, definitions, a, now) && a !in page ==>
          && |page| == PAGE
          && forall i :: 0 <= i < |page| ==>
               && page[i] in db.activities
               && Before(RankOf(page[i], db.activities[page[i]]), RankOf(a, db.activities[a])))
  }

  /** The visits go down the page in order. */
  ghost predicate InPageOrder(visits: seq<Visit>, page: seq<nat>) {
    |visits| <= |page| && forall k :: 0 <= k < |visits| ==> visits[k].activity == page[k]
  }

  /** The claims name the leased rows. */
  ghost predicate ClaimsOf(claims: seq<ActivityClaim>, visits: seq<Visit>) {
    && |claims| == |TakenBy(visits)|
    && forall k :: 0 <= k < |claims| ==> claims[k].activity == TakenBy(visits)[k]
  }

  /** What the batch did for one topic: the slot holders it counted, what it read when it looked for due rows,
      the page it found, and its visits. */
  datatype TopicRun = TopicRun(
    topic: string, capacity: nat, limit: nat, slots: nat, wanted: nat, read: Db, page: seq<nat>, visits: seq<Visit>)

  /** The smallest of the free slots, the local capacity and the limit. */
  ghost predicate Wants(wanted: nat, cap: nat, slots: nat, capacity: nat, limit: nat) {
    var free := if slots < cap then cap - slots else 0;
    && wanted <= free && wanted <= capacity && wanted <= limit
    && (wanted == free || wanted == capacity || wanted == limit)
  }

  /** The batch leased as many rows of the topic as it wanted, or came to every row of its page. */
  ghost predicate TopicOk(run: TopicRun, cap: nat, definitions: set<Definition>, now: int, locked: set<nat>) {
    && Wants(run.wanted, cap, run.slots, run.capacity, run.limit)
    && (run.wanted > 0 ==> FirstDue(run.read, run.topic, definitions, run.page, now))
    && VisitsOk(run.visits, run.topic, now, locked) && InPageOrder(run.visits, run.page)
    && |TakenBy(run.visits)| <= run.wanted
    && (|TakenBy(run.visits)| == run.wanted || |run.visits| == |run.page|)
  }

  /** A topic with a free slot, local capacity and limit leases something if a row of its page was held by
      nobody and was still due and could run when the batch came to it. */
  lemma IdleTopicLeases(run: TopicRun, cap: nat, definitions: set<Definition>, now: int, locked: set<nat>, k: nat)
    requires TopicOk(run, cap, definitions, now, locked) && run.slots < cap && run.capacity > 0 && run.limit > 0
    requires k < |run.page| && run.page[k] !in locked
    requires k < |run.visits| ==>
      Due(run.visits[k].seen, run.topic, run.page[k], now) && CanRun(run.visits[k].seen.activities[run.page[k]])
    ensures TakenBy(run.visits) != []
  {
    if TakenBy(run.visits) == [] {
      assert VisitOk(run.visits[k], run.topic, now, locked);
      TakenIsListed(run.visits, k);
    }
  }

  lemma {:induction false} TakenIsListed(visits: seq<Visit>, k: nat)
    requires k < |visits| && visits[k].verdict.WasTaken?
    ensures TakenBy(visits) != []
    decreases |visits|
  {
    if k < |visits| - 1 { TakenIsListed(visits[..|visits| - 1], k); }
  }

  /** How many rows the first `k` topics leased. */
  ghost function LeasedBefore(runs: seq<TopicRun>, k: nat): nat
    requires k <= |runs|
  {
    if k == 0 then 0 else LeasedBefore(runs, k - 1) + |TakenBy(runs[k - 1].visits)|
  }

  /** The k-th topic had the limit that those before it left. */
  ghost predicate RunAt(runs: seq<TopicRun>, k: nat, topic: string, caps: map<string, nat>,
                        localCapacity: map<string, nat>, limit: nat, definitions: set<Definition>, now: int,
                        locked: set<nat>)
    requires k < |runs|
  {
    && runs[k].topic == topic && topic in caps && LeasedBefore(runs, k) + runs[k].limit == limit
    && runs[k].capacity == (if topic in localCapacity then localCapacity[topic] else 0)
    && TopicOk(runs[k], caps[topic], definitions, now, locked)
  }

  /** The batch claimed from the first topics, one after another. */
  ghost predicate BatchDone(runs: seq<TopicRun>, topics: seq<string>, caps: map<string, nat>,
                            localCapacity: map<string, nat>, limit: nat, definitions: set<Definition>, now: int,
                            locked: set<nat>)
  {
    && |runs| <= |topics|
    && forall k {:trigger RunAt(runs, k, topics[k], caps, localCapacity, limit, definitions, now, locked)} ::
         0 <= k < |runs| ==> RunAt(runs, k, topics[k], caps, localCapacity, limit, definitions, now, locked)
  }

  // ---- The transaction ------------------------------------------------------------------------------

  class ClaimTransaction {
    const db: Database
    const caps: map<string, nat>
    const now: int
    /** The activities this process has code for. */
    const definitions: set<Definition>
    /** The candidates whose rows others hold when the batch comes to settle them, and to lease them. */
    const busy: set<nat>
    const locked: set<nat>
    /** When the retry policy makes a settled activity available again. */
    const retryAt: nat -> int
    ghost const clock: int
    ghost var base: Db
    ghost var batch: Batch
    ghost var log: seq<Entry>

    /** The database shows the batch its own writes over what is committed. */
    ghost predicate Valid()
      reads this, db
    {
      && Inv(base) && batch.now == now
      && BatchOk(base, clock, caps, batch)
      && db.Snapshot() == View(base, batch)
      && LogOk(log, caps)
      && (log != [] ==> log[|log| - 1].after == batch && Others(log[|log| - 1].base, base, batch))
    }

    /** Locks the topics and samples the clock. */
    constructor (db: Database, caps: map<string, nat>, definitions: set<Definition>, started: int, now: int,
                 busy: set<nat>, locked: set<nat>, retryAt: nat -> int, ghost clock: int)
      requires Inv(db.Snapshot()) && now <= Millis(clock) && started < (now + 1) * 1000
      requires forall t :: t in caps ==> |Slots(db.Snapshot(), t)| <= caps[t]
      ensures Valid() && this.db == db && this.caps == caps && this.now == now && batch.phase.Between?
      ensures batch.ops == [] && this.definitions == definitions
      ensures this.busy == busy && this.locked == locked && this.retryAt == retryAt
      ensures batch.topics == caps.Keys && base == db.Snapshot() && log == []
    {
      this.db, this.caps, this.now, this.clock := db, caps, now, clock;
      this.definitions, this.busy, this.locked, this.retryAt := definitions, busy, locked, retryAt;
      base := db.Snapshot();
      batch := Batch(caps.Keys, started, now, Between, []);
      log := [];
    }

    /** Other transactions commit. */
    method Interleave()
      requires Valid()
      modifies this`base, db
      ensures Valid() && Others(old(base), base, batch)
    {
      NothingHappened(base, batch);
      if log != [] { OthersTransitive(log[|log| - 1].base, base, base, batch); }
    }

    /** Records a statement that kept the batch right. */
    ghost method Record(next: Batch)
      requires Inv(base) && batch.now == now && next.now == now && LogOk(log, caps)
      requires log != [] ==> log[|log| - 1].after == batch && Others(log[|log| - 1].base, base, batch)
      requires IsStatement(Entry(base, batch, next), caps)
      modifies this`batch, this`log
      ensures batch == next && LogOk(log, caps)
      ensures log == old(log) + [Entry(base, old(batch), next)]
      ensures log[|log| - 1].after == batch && Others(log[|log| - 1].base, base, batch)
    {
      var e := Entry(base, batch, next);
      LogGrows(log, e, caps);
      NothingHappened(base, next);
      log := log + [e];
      batch := next;
    }

    // ---- Statements -----------------------------------------------------------------------------------

    /** Reads the expired lease holders of a topic. */
    method ScanExpired(topic: string) returns (todo: set<nat>)
      requires Valid() && batch.phase.Between? && topic in caps
      requires batch.topics == caps.Keys
      modifies this`batch, this`log
      ensures Valid() && batch == old(batch).(phase := Reconciling(topic, todo, {}))
    {
      todo := set a: nat | a in db.activities && db.activities[a].origin.spec.topic == topic
        && db.activities[a].status.HoldsSlot() && Expired(db.activities[a], now);
      assert todo == ExpiredOf(db.Snapshot(), topic, now);
      ghost var next := batch.(phase := Reconciling(topic, todo, {}));
      assert Scan(View(base, batch), batch, next, topic);
      ScanKeepsBatch(base, clock, caps, batch, next, topic);
      Record(next);
    }

    /** Leaves a candidate: its workflow row is held elsewhere, or it is no longer expired. */
    method SkipRow(a: nat, held: bool)
      requires Valid() && batch.phase.Reconciling? && a in batch.phase.todo
      requires held || !(a in db.activities && Expired(db.activities[a], now))
      modifies this`batch, this`log
      ensures Valid()
      ensures batch == old(batch).(phase := old(batch).phase.(
        todo := old(batch).phase.todo - {a},
        unsettled := if held then old(batch).phase.unsettled + {a} else old(batch).phase.unsettled))
    {
      ghost var p := batch.phase;
      ghost var next := batch.(phase := p.(todo := p.todo - {a},
                                           unsettled := if held then p.unsettled + {a} else p.unsettled));
      assert Skip(View(base, batch), batch, next, a);
      SkipKeepsBatch(base, clock, caps, batch, next, a);
      Record(next);
    }

    /** Settles one expired lease under its locks: claimable again, dead-lettered, or cancelled with its
        workflow. The delay of a retry is the policy's choice. */
    method SettleExpired(a: nat, availableAt: int)
      requires Valid() && batch.phase.Reconciling? && a in batch.phase.todo
      requires a in db.activities && Expired(db.activities[a], now)
      modifies this`batch, this`log, db
      ensures Valid()
      ensures batch == old(batch).(phase := old(batch).phase.(todo := old(batch).phase.todo - {a}), ops := batch.ops)
      ensures ExpirySettled(old(db.Snapshot()), db.Snapshot(), a, availableAt, now)
    {
      ghost var view, op := db.Snapshot(), Settle(a, db.activities[a].origin.workflow, availableAt);
      ViewKeepsInv(base, batch.ops, now);
      ExpiredCanSettle(view, a, availableAt, now);
      ghost var next := batch.(phase := batch.phase.(todo := batch.phase.todo - {a}), ops := batch.ops + [op]);
      SettleIsStatement(base, clock, caps, batch, next, op);
      WriteSettled(a, availableAt);
      Record(next);
    }

    method WriteSettled(a: nat, availableAt: int)
      requires a in db.activities
      requires OpEnabled(db.Snapshot(), Settle(a, db.activities[a].origin.workflow, availableAt), now)
      modifies db
      ensures db.Snapshot()
        == ApplyOp(old(db.Snapshot()), Settle(a, old(db.activities)[a].origin.workflow, availableAt), now)
      ensures ExpirySettled(old(db.Snapshot()), db.Snapshot(), a, availableAt, now)
    {
      OpMeans(db.Snapshot(), Settle(a, db.activities[a].origin.workflow, availableAt), now);
      var r := db.activities[a];
      var w := r.origin.workflow;
      if r.status.ActCancelling? {
        if db.workflows[w].status.Terminal() {
          db.activities := db.activities[a := CloseAttempt(r, ActCancelled, AttemptLeaseExpired)];
        } else {
          db.activities := db.activities[a := CloseAttempt(r, ActPending, AttemptLeaseExpired).(availableAt := now)];
        }
        return;
      }
      var exhausted := r.attemptCount >= r.maxAttempts;
      var status := if exhausted then ActDeadLettered else ActPending;
      db.activities := db.activities[a :=
        CloseAttempt(r, status, AttemptLeaseExpired).(availableAt := if exhausted then now else availableAt)];
      if exhausted && db.workflows[w].status.WaitingActivity? && db.workflows[w].wait == OnActivity(a) {
        db.workflows := db.workflows[w := db.workflows[w].(status := Blocked)];
      }
    }

    /** Counts the slot holders of the topic and decides how many rows to take. The count misses no
        slot holder, whatever committed since the scan. */
    method CountSlots(topic: string, unsettled: set<nat>, localCapacity: nat, limit: nat) returns (wanted: nat)
      requires Valid() && batch.phase == Reconciling(topic, {}, unsettled) && topic in caps
      modifies this`batch, this`log
      ensures Valid() && batch == old(batch).(phase := Taking(topic, wanted))
      ensures Wants(wanted, caps[topic], |Slots(db.Snapshot(), topic)|, localCapacity, limit)
    {
      CountSeesAll(base, clock, caps, batch);
      var inFlight := |InFlight(Db(db.workflows, db.activities, db.approvals), topic, now, unsettled)|;
      wanted := if caps[topic] > inFlight then caps[topic] - inFlight else 0;
      if localCapacity < wanted { wanted := localCapacity; }
      if limit < wanted { wanted := limit; }
      ghost var next := batch.(phase := Taking(topic, wanted));
      assert Count(View(base, batch), caps, batch, next, wanted);
      CountKeepsBatch(base, clock, caps, batch, next, wanted);
      Record(next);
    }

    /** Reads the first page of the due rows of a topic. */
    method PageOf(topic: string) returns (page: seq<nat>)
      ensures FirstDue(db.Snapshot(), topic, definitions, page, now)
    {
      var ranks := map a | a in db.activities && db.activities[a].origin.spec.topic == topic
        && db.activities[a].origin.spec.definition in definitions
        && Claimable(Db(db.workflows, db.activities, db.approvals),
                     Quarantine(a, db.activities[a].origin.workflow), now)
        :: RankOf(a, db.activities[a]);
      page := SelectFirst(ranks, PAGE);
      ghost var view := db.Snapshot();
      assert forall a :: a in ranks <==> Offered(view, topic, definitions, a, now);
      FirstIsDue(view, topic, definitions, ranks, page, now);
    }

    /** A pending row that is due, of the topic that is being claimed. */
    ghost predicate Candidate(topic: string, a: nat)
      reads this, db
    {
      && batch.phase.Taking? && batch.phase.topic == topic && batch.phase.wanted > 0
      && a in db.activities && db.activities[a].origin.spec.topic == topic
      && Claimable(db.Snapshot(), Quarantine(a, db.activities[a].origin.workflow), now)
    }

    /** Quarantines a candidate that cannot run. */
    method QuarantineCandidate(topic: string, a: nat)
      requires Valid() && Candidate(topic, a)
      requires db.activities[a].attemptCount >= db.activities[a].maxAttempts || !db.activities[a].ValidBounds()
      modifies this`batch, this`log, db
      ensures Valid() && batch == old(batch).(ops := batch.ops)
      ensures db.Snapshot() == ApplyOp(old(db.Snapshot()), Quarantine(a, old(db.activities)[a].origin.workflow), now)
    {
      ghost var op := Quarantine(a, db.activities[a].origin.workflow);
      ghost var next := batch.(ops := batch.ops + [op]);
      QuarantineIsStatement(base, clock, caps, batch, next, op);
      WriteQuarantined(a);
      Record(next);
    }

    /** Leases a candidate under the next attempt number. */
    method TakeCandidate(topic: string, a: nat, token: nat) returns (claim: ActivityClaim)
      requires Valid() && Candidate(topic, a)
      requires db.activities[a].attemptCount < db.activities[a].maxAttempts && db.activities[a].ValidBounds()
      modifies this`batch, this`log, db
      ensures Valid() && batch == old(batch).(phase := Taking(topic, old(batch).phase.wanted - 1), ops := batch.ops)
      ensures claim.token == token && claim.activity == a
      ensures Leased(db.Snapshot(), claim) && ClaimAgrees(db.Snapshot(), claim)
      ensures OpEnabled(old(db.Snapshot()), Take(a, old(db.activities)[a].origin.workflow, token), now)
      ensures db.Snapshot() == ApplyOp(old(db.Snapshot()), Take(a, old(db.activities)[a].origin.workflow, token), now)
    {
      ghost var op := Take(a, db.activities[a].origin.workflow, token);
      ghost var next := batch.(phase := batch.phase.(wanted := batch.phase.wanted - 1), ops := batch.ops + [op]);
      PendingCanTake(base, batch.ops, now, a);
      TakeIsStatement(base, clock, caps, batch, next, op);
      WriteTaken(a, token);
      Record(next);
      return ClaimOf(a, db.activities[a]);
    }

    /** Leases a pending row under its locks, or quarantines a row that cannot run. */
    method ClaimCandidate(topic: string, a: nat, token: nat) returns (claim: Option<ActivityClaim>)
      requires Valid() && Candidate(topic, a)
      modifies this`batch, this`log, db
      ensures Valid()
      ensures batch == old(batch).(phase := Taking(topic, old(batch).phase.wanted - (if claim.Some? then 1 else 0)),
                                   ops := batch.ops)
      ensures claim.Some? <==> old(CanRun(db.activities[a]))
      ensures claim.Some? ==>
        && claim.value.token == token && claim.value.activity == a
        && Leased(db.Snapshot(), claim.value) && ClaimAgrees(db.Snapshot(), claim.value)
        && Taken(old(db.Snapshot()), db.Snapshot(), a, token, now)
      ensures claim.None? ==> Quarantined(old(db.Snapshot()), db.Snapshot(), a)
    {
      var r := db.activities[a];
      ghost var before := db.Snapshot();
      if r.attemptCount >= r.maxAttempts || !r.ValidBounds() {
        QuarantineCandidate(topic, a);
        OpMeans(before, Quarantine(a, r.origin.workflow), now);
        return None;
      }
      var taken := TakeCandidate(topic, a, token);
      OpMeans(before, Take(a, r.origin.workflow, token), now);
      return Some(taken);
    }

    method WriteQuarantined(a: nat)
      requires a in db.activities && OpEnabled(db.Snapshot(), Quarantine(a, db.activities[a].origin.workflow), now)
      modifies db
      ensures db.Snapshot() == ApplyOp(old(db.Snapshot()), Quarantine(a, old(db.activities)[a].origin.workflow), now)
    {
      var r := db.activities[a];
      db.activities := db.activities[a := r.(status := ActDeadLettered)];
      db.workflows := db.workflows[r.origin.workflow := db.workflows[r.origin.workflow].(status := Blocked)];
    }

    method WriteTaken(a: nat, token: nat)
      requires a in db.activities && OpEnabled(db.Snapshot(), Take(a, db.activities[a].origin.workflow, token), now)
      modifies db
      ensures db.Snapshot() == ApplyOp(old(db.Snapshot()), Take(a, old(db.activities)[a].origin.workflow, token), now)
      ensures a in db.activities && db.activities[a].lease.Some? && db.activities[a].status.ActRunning?
      ensures db.activities[a].lease.value.token == token
    {
      var r := db.activities[a];
      var attempt := r.attemptCount + 1;
      db.activities := db.activities[a :=
        r.(status := ActRunning, attemptCount := attempt,
           lease := Some(Lease(token, now + r.origin.spec.leaseMillis)))];
      db.activities := db.activities[a := db.activities[a].(attempts := r.attempts[attempt := Attempt(token, None)])];
    }

    method EndTopic()
      requires Valid() && batch.phase.Taking?
      modifies this`batch, this`log
      ensures Valid() && batch == old(batch).(phase := Between)
    {
      ghost var next := batch.(phase := Between);
      assert View(base, next) == View(base, batch);
      Record(next);
    }

    // ---- The loops ---------------------------------------------------------------------------------------

    /** Visits one expired holder after others may have changed it. */
    method ReconcileOne(topic: string, a: nat) returns (held: bool)
      requires Valid() && batch.phase.Reconciling? && a in batch.phase.todo
      modifies this, db
      ensures Valid() && held == (a in busy)
      ensures batch == old(batch).(phase := old(batch).phase.(
        todo := old(batch).phase.todo - {a},
        unsettled := if held then old(batch).phase.unsettled + {a} else old(batch).phase.unsettled), ops := batch.ops)
    {
      Interleave();
      held := a in busy;
      if held {
        SkipRow(a, true);
      } else if a in db.activities && Expired(db.activities[a], now) {
        SettleExpired(a, retryAt(a));
      } else {
        SkipRow(a, false);
      }
    }

    /** Settles the expired lease holders of a topic; those whose workflow is locked elsewhere stay unsettled. */
    method ReconcileExpired(topic: string) returns (unsettled: set<nat>)
      requires Valid() && batch.phase.Between? && topic in caps && batch.topics == caps.Keys
      modifies this, db
      ensures Valid() && batch.topics == caps.Keys && batch.phase == Reconciling(topic, {}, unsettled)
      ensures unsettled <= busy
    {
      unsettled := {};
      var todo := ScanExpired(topic);
      while |todo| > 0
        invariant Valid() && batch.topics == caps.Keys && batch.phase == Reconciling(topic, todo, unsettled)
        invariant unsettled <= busy
        decreases |todo|
      {
        var a :| a in todo;
        var held := ReconcileOne(topic, a);
        todo := todo - {a};
        if held { unsettled := unsettled + {a}; }
      }
      assert todo == {};
    }

    /** Claims one candidate after others may have changed it, unless its rows are held elsewhere. */
    method TryCandidate(topic: string, a: nat, token: nat, wanted: nat)
      returns (claim: Option<ActivityClaim>, left: nat, ghost visit: Visit)
      requires Valid() && batch.phase == Taking(topic, wanted) && wanted > 0
      modifies this, db
      ensures Valid() && batch.topics == old(batch).topics && batch.phase == Taking(topic, left)
      ensures left == wanted - (if claim.Some? then 1 else 0)
      ensures claim.Some? ==> claim.value.token == token && claim.value.activity == a
      ensures claim.Some? <==> visit.verdict.WasTaken?
      ensures visit.activity == a && VisitOk(visit, topic, now, locked)
      ensures VisitLeaves(visit, db.Snapshot(), token, now)
    {
      Interleave();
      if a in locked {
        claim, left, visit := None, wanted, Visit(a, db.Snapshot(), WasLocked);
      } else {
        claim, left, visit := ClaimIfDue(topic, a, token, wanted);
      }
    }

    /** Claims a candidate whose rows are locked now, if it is still due. */
    method ClaimIfDue(topic: string, a: nat, token: nat, wanted: nat)
      returns (claim: Option<ActivityClaim>, left: nat, ghost visit: Visit)
      requires Valid() && batch.phase == Taking(topic, wanted) && wanted > 0 && a !in locked
      modifies this`batch, this`log, db
      ensures Valid() && batch.topics == old(batch).topics && batch.phase == Taking(topic, left)
      ensures left == wanted - (if claim.Some? then 1 else 0)
      ensures claim.Some? ==> claim.value.token == token && claim.value.activity == a
      ensures claim.Some? <==> visit.verdict.WasTaken?
      ensures visit.activity == a && VisitOk(visit, topic, now, locked)
      ensures VisitLeaves(visit, db.Snapshot(), token, now)
    {
      visit := Visit(a, db.Snapshot(), WasGone);
      if a !in db.activities || db.activities[a].origin.spec.topic != topic
        || !Claimable(Db(db.workflows, db.activities, db.approvals), Quarantine(a, db.activities[a].origin.workflow),
                      now)
      {
        return None, wanted, visit;
      }
      assert Due(db.Snapshot(), topic, a, now);
      claim := ClaimCandidate(topic, a, token);
      left := if claim.Some? then wanted - 1 else wanted;
      visit := visit.(verdict := if claim.Some? then WasTaken else WasQuarantined);
    }

    /** Visits the next row of the page, and adds its claim, if it can be had. */
    method TakeNext(topic: string, page: seq<nat>, claims: seq<ActivityClaim>, nextToken: nat, wanted: nat, k: nat,
                    ghost visits: seq<Visit>)
      returns (more: seq<ActivityClaim>, left: nat, ghost visits': seq<Visit>)
      requires Valid() && batch.phase == Taking(topic, wanted) && wanted > 0 && Numbered(claims, nextToken)
      requires ClaimsOf(claims, visits) && VisitsOk(visits, topic, now, locked)
      requires k == |visits| < |page| && InPageOrder(visits, page)
      modifies this, db
      ensures Valid() && batch.topics == old(batch).topics && batch.phase == Taking(topic, left)
      ensures left + |more| == wanted + |claims| && Numbered(more, nextToken)
      ensures ClaimsOf(more, visits') && VisitsOk(visits', topic, now, locked)
      ensures |visits'| == k + 1 && InPageOrder(visits', page)
    {
      var claim;
      ghost var visit;
      claim, left, visit := TryCandidate(topic, page[k], nextToken + |claims|, wanted);
      more := if claim.Some? then claims + [claim.value] else claims;
      visits' := visits + [visit];
      VisitJoins(claims, claim, page, visits, visit, topic, nextToken, now, locked);
    }

    /** Leases up to `wanted` rows of the page, in order; rows that are locked or no longer claimable are passed
        over. It stops early only at the end of the page. */
    method ClaimFrom(topic: string, page: seq<nat>, wanted: nat, nextToken: nat)
      returns (claims: seq<ActivityClaim>, ghost visits: seq<Visit>)
      requires Valid() && batch.topics == caps.Keys && batch.phase == Taking(topic, wanted)
      modifies this, db
      ensures Valid() && batch.topics == caps.Keys && batch.phase.Taking?
      ensures Numbered(claims, nextToken) && ClaimsOf(claims, visits)
      ensures VisitsOk(visits, topic, now, locked) && InPageOrder(visits, page)
      ensures |claims| <= wanted && (|claims| == wanted || |visits| == |page|)
    {
      claims, visits := [], [];
      var k: nat, left: nat := 0, wanted;
      while k < |page| && left > 0
        invariant left + |claims| == wanted && k == |visits|
        invariant Valid() && batch.topics == caps.Keys && batch.phase == Taking(topic, left)
        invariant Numbered(claims, nextToken) && ClaimsOf(claims, visits)
        invariant VisitsOk(visits, topic, now, locked) && InPageOrder(visits, page)
        decreases |page| - k
      {
        claims, left, visits := TakeNext(topic, page, claims, nextToken, left, k, visits);
        k := k + 1;
      }
    }

    /** Reads the first due rows of the topic and leases up to `wanted` of them. */
    method ClaimCandidates(topic: string, wanted: nat, nextToken: nat)
      returns (claims: seq<ActivityClaim>, ghost page: seq<nat>, ghost visits: seq<Visit>)
      requires Valid() && batch.topics == caps.Keys && batch.phase == Taking(topic, wanted)
      modifies this, db
      ensures Valid() && batch.topics == caps.Keys && batch.phase.Taking?
      ensures FirstDue(old(db.Snapshot()), topic, definitions, page, now)
      ensures Numbered(claims, nextToken) && ClaimsOf(claims, visits)
      ensures VisitsOk(visits, topic, now, locked) && InPageOrder(visits, page)
      ensures |claims| <= wanted && (|claims| == wanted || |visits| == |page|)
    {
      var candidates := PageOf(topic);
      page := candidates;
      claims, visits := ClaimFrom(topic, candidates, wanted, nextToken);
    }

    /** Reconciles, counts and claims one topic: it leases the smallest of the free slots, the local capacity
        and the limit, unless it came to the end of its page before. */
    method ClaimTopic(topic: string, localCapacity: nat, limit: nat, nextToken: nat)
      returns (claims: seq<ActivityClaim>, wanted: nat, ghost run: TopicRun)
      requires Valid() && batch.phase.Between? && topic in caps && batch.topics == caps.Keys
      modifies this, db
      ensures Valid() && batch.phase.Between? && batch.topics == caps.Keys
      ensures Numbered(claims, nextToken) && ClaimsOf(claims, run.visits)
      ensures run.topic == topic && run.capacity == localCapacity && run.limit == limit && run.wanted == wanted
      ensures TopicOk(run, caps[topic], definitions, now, locked)
    {
      Interleave();
      var unsettled := ReconcileExpired(topic);
      Interleave();
      wanted := CountSlots(topic, unsettled, localCapacity, limit);
      ghost var slots := |Slots(db.Snapshot(), topic)|;
      claims := [];
      run := TopicRun(topic, localCapacity, limit, slots, wanted, db.Snapshot(), [], []);
      if wanted > 0 {
        Interleave();
        run := run.(read := db.Snapshot());
        ghost var page, visits;
        claims, page, visits := ClaimCandidates(topic, wanted, nextToken);
        run := run.(page := page, visits := visits);
      }
      EndTopic();
    }

    /** Claims from every topic in turn, up to `limit` rows, unless there is nothing it could claim. Whatever
        commits between its statements, the batch can commit at the end, and then no topic exceeds its cap. */
    method ClaimBatch(topics: seq<string>, localCapacity: map<string, nat>, limit: nat, nextToken: nat)
      returns (claims: seq<ActivityClaim>, ghost runs: seq<TopicRun>)
      requires Valid() && batch.phase.Between? && batch.topics == caps.Keys
      requires forall i :: 0 <= i < |topics| ==> topics[i] in caps
      modifies this, db
      ensures Valid() && |claims| <= limit && |claims| == LeasedBefore(runs, |runs|)
      ensures Numbered(claims, nextToken)
      ensures BatchDone(runs, topics, caps, localCapacity, limit, definitions, now, locked)
      ensures |runs| == |topics| || definitions == {} || limit == 0 || Idle(localCapacity)
      ensures OpsEnabled(base, batch.ops, now) && db.Snapshot() == ApplyOps(base, batch.ops, now) && Inv(db.Snapshot())
      ensures forall t :: t in caps ==> |Slots(db.Snapshot(), t)| <= caps[t]
    {
      claims, runs := [], [];
      if limit == 0 || (forall topic :: topic in localCapacity ==> localCapacity[topic] == 0) {
        BeforeCommit();
        return;
      }
      claims, runs := ClaimTopics(topics, localCapacity, limit, nextToken);
      BeforeCommit();
    }

    /** Claims from topic after topic, until one wants rows but this process has code for none. */
    method ClaimTopics(topics: seq<string>, localCapacity: map<string, nat>, limit: nat, nextToken: nat)
      returns (claims: seq<ActivityClaim>, ghost runs: seq<TopicRun>)
      requires Valid() && batch.phase.Between? && batch.topics == caps.Keys
      requires forall i :: 0 <= i < |topics| ==> topics[i] in caps
      modifies this, db
      ensures Valid() && batch.topics == caps.Keys && |claims| <= limit && |claims| == LeasedBefore(runs, |runs|)
      ensures Numbered(claims, nextToken)
      ensures |runs| == |topics| || definitions == {}
      ensures BatchDone(runs, topics, caps, localCapacity, limit, definitions, now, locked)
    {
      claims, runs := [], [];
      for k := 0 to |topics|
        invariant |runs| == k
        invariant Valid() && batch.phase.Between? && batch.topics == caps.Keys
        invariant |claims| <= limit && |claims| == LeasedBefore(runs, |runs|)
        invariant Numbered(claims, nextToken)
        invariant BatchDone(runs, topics, caps, localCapacity, limit, definitions, now, locked)
      {
        var wanted;
        claims, wanted, runs := ClaimNextTopic(topics, k, localCapacity, limit, nextToken, claims, runs);
        if wanted > 0 && definitions == {} { break; }
      }
    }

    /** Claims from the k-th topic what the limit leaves. */
    method ClaimNextTopic(topics: seq<string>, k: nat, localCapacity: map<string, nat>, limit: nat, nextToken: nat,
                          claims: seq<ActivityClaim>, ghost runs: seq<TopicRun>)
      returns (claims': seq<ActivityClaim>, wanted: nat, ghost runs': seq<TopicRun>)
      requires Valid() && batch.phase.Between? && batch.topics == caps.Keys && k < |topics| && topics[k] in caps
      requires |claims| <= limit && |claims| == LeasedBefore(runs, |runs|) && Numbered(claims, nextToken) && |runs| == k
      requires BatchDone(runs, topics, caps, localCapacity, limit, definitions, now, locked)
      modifies this, db
      ensures Valid() && batch.phase.Between? && batch.topics == caps.Keys
      ensures |claims'| <= limit && |claims'| == LeasedBefore(runs', |runs'|) && Numbered(claims', nextToken)
      ensures |runs'| == k + 1
      ensures BatchDone(runs', topics, caps, localCapacity, limit, definitions, now, locked)
    {
      var topic := topics[k];
      var capacity := if topic in localCapacity then localCapacity[topic] else 0;
      var more;
      ghost var run;
      more, wanted, run := ClaimTopic(topic, capacity, limit - |claims|, nextToken + |claims|);
      TopicJoins(claims, more, runs, run, topics, k, caps, localCapacity, limit, nextToken, definitions,
                 now, locked);
      claims', runs' := claims + more, runs + [run];
    }

    /** Others commit once more; what the batch wrote can still be committed. */
    method BeforeCommit()
      requires Valid() && batch.topics == caps.Keys
      modifies this`base, db
      ensures Valid()
      ensures OpsEnabled(base, batch.ops, now) && db.Snapshot() == ApplyOps(base, batch.ops, now) && Inv(db.Snapshot())
      ensures forall t :: t in caps ==> |Slots(db.Snapshot(), t)| <= caps[t]
    {
      Interleave();
      ViewKeepsInv(base, batch.ops, now);
    }
  }

  lemma {:induction false} LeasedBeforeSame(runs: seq<TopicRun>, run: TopicRun, k: nat)
    requires k <= |runs|
    ensures LeasedBefore(runs + [run], k) == LeasedBefore(runs, k)
  {
    if k > 0 { LeasedBeforeSame(runs, run, k - 1); }
  }

  /** One more topic was claimed. */
  lemma BatchGrows(runs: seq<TopicRun>, run: TopicRun, topics: seq<string>, caps: map<string, nat>,
                   localCapacity: map<string, nat>, limit: nat, definitions: set<Definition>, now: int,
                   locked: set<nat>)
    requires BatchDone(runs, topics, caps, localCapacity, limit, definitions, now, locked)
    requires |runs| < |topics|
    requires RunAt(runs + [run], |runs|, topics[|runs|], caps, localCapacity, limit, definitions, now, locked)
    ensures BatchDone(runs + [run], topics, caps, localCapacity, limit, definitions, now, locked)
  {
    var more := runs + [run];
    forall k | 0 <= k < |runs|
      ensures RunAt(more, k, topics[k], caps, localCapacity, limit, definitions, now, locked)
    {
      LeasedBeforeSame(runs, run, k);
      assert RunAt(runs, k, topics[k], caps, localCapacity, limit, definitions, now, locked);
      assert more[k] == runs[k];
    }
  }

  lemma TopicJoins(claims: seq<ActivityClaim>, more: seq<ActivityClaim>, runs: seq<TopicRun>, run: TopicRun,
                   topics: seq<string>, k: nat, caps: map<string, nat>, localCapacity: map<string, nat>, limit: nat,
                   nextToken: nat, definitions: set<Definition>, now: int, locked: set<nat>)
    requires |runs| == k < |topics| && BatchDone(runs, topics, caps, localCapacity, limit, definitions, now, locked)
    requires |claims| <= limit && |claims| == LeasedBefore(runs, |runs|) && Numbered(claims, nextToken)
    requires Numbered(more, nextToken + |claims|) && ClaimsOf(more, run.visits)
    requires run.topic == topics[k] && topics[k] in caps && |claims| + run.limit == limit
    requires run.capacity == (if topics[k] in localCapacity then localCapacity[topics[k]] else 0)
    requires TopicOk(run, caps[topics[k]], definitions, now, locked)
    ensures |claims + more| <= limit && |claims + more| == LeasedBefore(runs + [run], |runs + [run]|)
    ensures Numbered(claims + more, nextToken)
    ensures BatchDone(runs + [run], topics, caps, localCapacity, limit, definitions, now, locked)
  {
    NumberedJoin(claims, more, nextToken);
    LeasedBeforeSame(runs, run, k);
    BatchGrows(runs, run, topics, caps, localCapacity, limit, definitions, now, locked);
  }

  lemma VisitJoins(claims: seq<ActivityClaim>, claim: Option<ActivityClaim>, page: seq<nat>, visits: seq<Visit>,
                   visit: Visit, topic: string, nextToken: nat, now: int, locked: set<nat>)
    requires |visits| < |page| && visit.activity == page[|visits|] && InPageOrder(visits, page)
    requires Numbered(claims, nextToken) && ClaimsOf(claims, visits) && VisitsOk(visits, topic, now, locked)
    requires VisitOk(visit, topic, now, locked) && (claim.Some? <==> visit.verdict.WasTaken?)
    requires claim.Some? ==> claim.value.token == nextToken + |claims| && claim.value.activity == visit.activity
    ensures var more := if claim.Some? then claims + [claim.value] else claims;
      Numbered(more, nextToken) && ClaimsOf(more, visits + [visit])
    ensures VisitsOk(visits + [visit], topic, now, locked) && InPageOrder(visits + [visit], page)
  {
    VisitsMore(visits, visit, topic, now, locked);
    TakenByMore(visits, visit);
    if claim.Some? { NumberedJoin(claims, [claim.value], nextToken); }
  }

  /** The first rows by rank are the first due rows. */
  lemma FirstIsDue(db: Db, topic: string, definitions: set<Definition>, ranks: map<nat, Rank>, page: seq<nat>, now: int)
    requires forall a :: a in ranks <==> Offered(db, topic, definitions, a, now)
    requires forall a :: a in ranks ==> a in db.activities && ranks[a] == RankOf(a, db.activities[a])
    requires |page| <= PAGE && InOrder(ranks, page) && AllBefore(ranks, page, OffPage(ranks, page))
    requires forall a :: a in ranks && a !in page ==> |page| == PAGE
    ensures FirstDue(db, topic, definitions, page, now)
  {
    forall a, i | Offered(db, topic, definitions, a, now) && a !in page && 0 <= i < |page|
      ensures page[i] in db.activities && Before(RankOf(page[i], db.activities[page[i]]), RankOf(a, db.activities[a]))
    {
      ComesAfter(ranks, page, i, a);
    }
  }

  /** No topic has local capacity. */
  ghost predicate Idle(localCapacity: map<string, nat>) {
    forall topic :: topic in localCapacity ==> localCapacity[topic] == 0
  }

  /** The claims carry tokens of their own, counted from `first`. */
  ghost predicate Numbered(claims: seq<ActivityClaim>, first: nat) {
    forall i :: 0 <= i < |claims| ==> claims[i].token == first + i
  }

  lemma NumberedJoin(claims: seq<ActivityClaim>, more: seq<ActivityClaim>, first: nat)
    requires Numbered(claims, first) && Numbered(more, first + |claims|)
    ensures Numbered(claims + more, first)
  {
  }

  lemma PendingCanTake(base: Db, ops: seq<RowOp>, now: int, a: nat)
    requires Inv(base) && OpsEnabled(base, ops, now)
    requires var view := ApplyOps(base, ops, now); a in view.activities && view.activities[a].status.ActPending?
    ensures var r := ApplyOps(base, ops, now).activities[a]; r.attemptCount + 1 !in r.attempts
  {
    ViewKeepsInv(base, ops, now);
    assert ActivityOk(ApplyOps(base, ops, now).activities[a]);
  }

  lemma ExpiredCanSettle(db: Db, a: nat, availableAt: int, now: int)
    requires Inv(db) && a in db.activities && Expired(db.activities[a], now)
    ensures OpEnabled(db, Settle(a, db.activities[a].origin.workflow, availableAt), now)
  {
    assert ActivityOk(db.activities[a]) && CoupledOk(db, a);
  }
}
