/** Claim batches under READ COMMITTED: whatever commits between two statements
    of a batch, its count never misses a slot holder, so no topic exceeds its
    cap when it commits. */
module Batches {
  import opened Rows
  import opened Transactions
  import opened Invariant
  import opened Preservation
  import opened System

  // ---- Views -----------------------------------------------------------------------

  /** One row of a batch touches its own activity and workflow only. */
  lemma ApplyOpTouches(db: Db, op: RowOp, now: int)
    requires OpEnabled(db, op, now)
    ensures var db' := ApplyOp(db, op, now);
      && db'.activities.Keys == db.activities.Keys && db'.workflows.Keys == db.workflows.Keys
      && db'.activities[op.activity].origin == db.activities[op.activity].origin
      && (forall a :: a in db.activities && a != op.activity ==> db'.activities[a] == db.activities[a])
      && (forall w :: w in db.workflows && w != op.workflow ==> db'.workflows[w] == db.workflows[w])
      && (db'.activities[op.activity].status.HoldsSlot() <==> op.Take?)
  {
  }

  /** Two databases that agree on the rows of `op` go on agreeing on the rows of `other`. */
  lemma ApplyOpAgrees(db: Db, db': Db, op: RowOp, other: RowOp, now: int)
    requires OpEnabled(db, op, now) && SameRows(db, db', op) && SameRows(db, db', other)
    ensures OpEnabled(db', op, now) && SameRows(ApplyOp(db, op, now), ApplyOp(db', op, now), other)
    ensures ApplyOp(db', op, now).activities[op.activity] == ApplyOp(db, op, now).activities[op.activity]
  {
  }

  ghost predicate Locked(ops: seq<RowOp>, a: nat) {
    exists i :: 0 <= i < |ops| && ops[i].activity == a
  }

  /** The rows a batch wrote are the same in both views; elsewhere each view shows its database. */
  lemma {:induction false} ViewFrame(db: Db, db': Db, ops: seq<RowOp>, now: int)
    requires OpsEnabled(db, ops, now)
    requires forall i :: 0 <= i < |ops| ==> SameRows(db, db', ops[i])
    ensures OpsEnabled(db', ops, now)
    ensures forall a :: Locked(ops, a) ==>
      && a in ApplyOps(db, ops, now).activities && a in ApplyOps(db', ops, now).activities
      && ApplyOps(db', ops, now).activities[a] == ApplyOps(db, ops, now).activities[a]
    decreases |ops|
  {
    if ops != [] {
      var d, d' := ApplyOp(db, ops[0], now), db';
      forall i | 0 <= i < |ops|
        ensures OpEnabled(db', ops[0], now) && SameRows(d, ApplyOp(db', ops[0], now), ops[i])
      {
        ApplyOpAgrees(db, db', ops[0], ops[i], now);
      }
      d' := ApplyOp(db', ops[0], now);
      forall i | 0 <= i < |ops[1..]| ensures SameRows(d, d', ops[1..][i]) {
        assert ops[1..][i] == ops[i + 1];
      }
      ViewFrame(d, d', ops[1..], now);
      forall a | Locked(ops, a)
        ensures a in ApplyOps(db, ops, now).activities && a in ApplyOps(db', ops, now).activities
          && ApplyOps(db', ops, now).activities[a] == ApplyOps(db, ops, now).activities[a]
      {
        if !Locked(ops[1..], a) {
          LockedTail(ops, a);
          ApplyOpAgrees(db, db', ops[0], ops[0], now);
          Unlocked(d, ops[1..], now, a);
          Unlocked(d', ops[1..], now, a);
        }
      }
    }
  }

  lemma LockedTail(ops: seq<RowOp>, a: nat)
    requires ops != []
    ensures Locked(ops, a) <==> a == ops[0].activity || Locked(ops[1..], a)
  {
    if Locked(ops, a) && a != ops[0].activity {
      var i :| 0 <= i < |ops| && ops[i].activity == a;
      assert ops[1..][i - 1] == ops[i];
    }
    if Locked(ops[1..], a) {
      var i :| 0 <= i < |ops[1..]| && ops[1..][i].activity == a;
      assert ops[i + 1] == ops[1..][i];
    }
  }

  /** A row that no row of the batch names shows as it is stored. */
  lemma {:induction false} Unlocked(db: Db, ops: seq<RowOp>, now: int, a: nat)
    requires OpsEnabled(db, ops, now) && !Locked(ops, a)
    ensures a in ApplyOps(db, ops, now).activities <==> a in db.activities
    ensures a in db.activities ==> ApplyOps(db, ops, now).activities[a] == db.activities[a]
    decreases |ops|
  {
    if ops != [] {
      ApplyOpTouches(db, ops[0], now);
      LockedTail(ops, a);
      Unlocked(ApplyOp(db, ops[0], now), ops[1..], now, a);
    }
  }

  /** Rows keep their origin in the view. */
  lemma {:induction false} ViewOrigins(db: Db, ops: seq<RowOp>, now: int)
    requires OpsEnabled(db, ops, now)
    ensures ApplyOps(db, ops, now).activities.Keys == db.activities.Keys
    ensures forall a :: a in db.activities ==> ApplyOps(db, ops, now).activities[a].origin == db.activities[a].origin
    decreases |ops|
  {
    if ops != [] {
      ApplyOpTouches(db, ops[0], now);
      ViewOrigins(ApplyOp(db, ops[0], now), ops[1..], now);
    }
  }

  lemma {:induction false} AppendOp(db: Db, ops: seq<RowOp>, op: RowOp, now: int)
    requires OpsEnabled(db, ops, now) && OpEnabled(ApplyOps(db, ops, now), op, now)
    ensures OpsEnabled(db, ops + [op], now)
    ensures ApplyOps(db, ops + [op], now) == ApplyOp(ApplyOps(db, ops, now), op, now)
    decreases |ops|
  {
    if ops == [] {
      assert ops + [op] == [op];
      assert [op][1..] == [];
    } else {
      assert (ops + [op])[1..] == ops[1..] + [op];
      AppendOp(ApplyOp(db, ops[0], now), ops[1..], op, now);
    }
  }

  lemma {:induction false} ViewKeepsInv(db: Db, ops: seq<RowOp>, now: int)
    requires Inv(db) && OpsEnabled(db, ops, now)
    ensures Inv(ApplyOps(db, ops, now))
    decreases |ops|
  {
    if ops != [] {
      ApplyOpKeeps(db, ops[0], now);
      ViewKeepsInv(ApplyOp(db, ops[0], now), ops[1..], now);
    }
  }

  // ---- The invariant of a batch -------------------------------------------------------

  ghost predicate BatchOk(db: Db, clock: int, caps: map<string, nat>, b: Batch) {
    && b.topics <= caps.Keys
    && b.now <= Millis(clock) && b.started < (b.now + 1) * 1000
    && OpsEnabled(db, b.ops, b.now)
    && (forall i :: 0 <= i < |b.ops| ==>
          b.ops[i].activity in db.activities && db.activities[b.ops[i].activity].origin.spec.topic in b.topics)
    && (forall t :: t in b.topics ==> |Slots(View(db, b), t)| <= caps[t])
    && match b.phase
       case Between => true
       case Reconciling(t, todo, unsettled) =>
         && t in b.topics && ExpiredOf(View(db, b), t, b.now) <= todo + unsettled
         && (forall a :: a in todo ==> a in db.activities && db.activities[a].origin.spec.topic == t)
       case Taking(t, wanted) => t in b.topics && |Slots(View(db, b), t)| + wanted <= caps[t]
  }

  /** What may happen to the rows of some topics while a batch holds them: no row enters a slot and no
      lease moves back. */
  ghost predicate Rely(db: Db, db': Db, topics: set<string>) {
    && (forall a :: a in db.activities ==> a in db'.activities && db'.activities[a].origin == db.activities[a].origin)
    && (forall a :: a in db'.activities && HoldsSlotOf(db'.activities[a], topics) ==> HeldBefore(db, db', a))
  }

  ghost predicate HoldsSlotOf(r: Activity, topics: set<string>) {
    r.origin.spec.topic in topics && r.status.HoldsSlot()
  }

  ghost predicate HeldBefore(db: Db, db': Db, a: nat)
    requires a in db'.activities
  {
    && a in db.activities && db.activities[a].origin == db'.activities[a].origin
    && db.activities[a].status.HoldsSlot()
    && db.activities[a].lease.Some? && db'.activities[a].lease.Some?
    && db.activities[a].lease.value.expires <= db'.activities[a].lease.value.expires
  }

  lemma ViewRely(db: Db, db': Db, b: Batch)
    requires OpsEnabled(db, b.ops, b.now) && RespectsLocks(db, db', b) && Rely(db, db', b.topics)
    requires Inv(db')
    ensures OpsEnabled(db', b.ops, b.now)
    ensures forall t :: t in b.topics ==> Slots(View(db', b), t) <= Slots(View(db, b), t)
    ensures forall t :: t in b.topics ==> ExpiredOf(View(db', b), t, b.now) <= ExpiredOf(View(db, b), t, b.now)
  {
    ViewFrame(db, db', b.ops, b.now);
    ViewOrigins(db, b.ops, b.now);
    ViewOrigins(db', b.ops, b.now);
    forall t, a | t in b.topics && a in Slots(View(db', b), t)
      ensures a in Slots(View(db, b), t)
      ensures a in ExpiredOf(View(db', b), t, b.now) ==> a in ExpiredOf(View(db, b), t, b.now)
    {
      if !Locked(b.ops, a) {
        Unlocked(db, b.ops, b.now, a);
        Unlocked(db', b.ops, b.now, a);
        assert HeldBefore(db, db', a);
      }
    }
  }

  lemma SubsetIsNoLarger(a: set<nat>, b: set<nat>)
    requires a <= b
    ensures |a| <= |b|
  {
    assert b == a + (b - a);
  }

  /** Whatever other transactions do between two statements, the batch stays right. */
  lemma BatchFrame(db: Db, db': Db, clock: int, clock': int, caps: map<string, nat>, b: Batch)
    requires BatchOk(db, clock, caps, b) && RespectsLocks(db, db', b) && Rely(db, db', b.topics)
    requires Inv(db') && clock <= clock'
    ensures BatchOk(db', clock', caps, b)
  {
    ViewRely(db, db', b);
    forall t | t in b.topics ensures |Slots(View(db', b), t)| <= |Slots(View(db, b), t)| {
      SubsetIsNoLarger(Slots(View(db', b), t), Slots(View(db, b), t));
    }
    forall i | 0 <= i < |b.ops|
      ensures b.ops[i].activity in db'.activities && db'.activities[b.ops[i].activity].origin.spec.topic in b.topics
    {
      assert SameRows(db, db', b.ops[i]);
    }
  }

  // ---- Statements ------------------------------------------------------------------------

  lemma SlotsAfterRelease(db: Db, op: RowOp, now: int, t: string)
    requires OpEnabled(db, op, now) && !op.Take?
    ensures Slots(ApplyOp(db, op, now), t) == Slots(db, t) - {op.activity}
  {
    ApplyOpTouches(db, op, now);
  }

  lemma SlotsAfterTake(db: Db, op: RowOp, now: int, t: string)
    requires OpEnabled(db, op, now) && op.Take?
    ensures Slots(ApplyOp(db, op, now), t)
         == Slots(db, t) + (if db.activities[op.activity].origin.spec.topic == t then {op.activity} else {})
    ensures op.activity !in Slots(db, t)
  {
    ApplyOpTouches(db, op, now);
  }

  lemma TakeCounts(db: Db, op: RowOp, now: int, t: string)
    requires OpEnabled(db, op, now) && op.Take?
    ensures |Slots(ApplyOp(db, op, now), t)|
         == |Slots(db, t)| + (if db.activities[op.activity].origin.spec.topic == t then 1 else 0)
  {
    SlotsAfterTake(db, op, now, t);
    if db.activities[op.activity].origin.spec.topic != t {
      assert Slots(ApplyOp(db, op, now), t) == Slots(db, t);
    }
  }

  lemma ReleaseCounts(db: Db, op: RowOp, now: int, t: string)
    requires OpEnabled(db, op, now) && !op.Take?
    ensures |Slots(ApplyOp(db, op, now), t)| <= |Slots(db, t)|
  {
    SlotsAfterRelease(db, op, now, t);
    SubsetIsNoLarger(Slots(ApplyOp(db, op, now), t), Slots(db, t));
  }

  /** The batch writes one more row. */
  lemma AppendKeepsBatch(db: Db, clock: int, caps: map<string, nat>, b: Batch, op: RowOp, phase: Phase)
    requires BatchOk(db, clock, caps, b) && OpEnabled(View(db, b), op, b.now)
    requires View(db, b).activities[op.activity].origin.spec.topic in b.topics
    requires var b' := b.(ops := b.ops + [op], phase := phase);
      var view' := ApplyOp(View(db, b), op, b.now);
      && (forall t :: t in b.topics ==> |Slots(view', t)| <= caps[t])
      && (phase.Reconciling? ==>
            && phase.topic in b.topics && ExpiredOf(view', phase.topic, b.now) <= phase.todo + phase.unsettled
            && (forall a :: a in phase.todo ==>
                  a in db.activities && db.activities[a].origin.spec.topic == phase.topic))
      && (phase.Taking? ==> phase.topic in b.topics && |Slots(view', phase.topic)| + phase.wanted <= caps[phase.topic])
    ensures BatchOk(db, clock, caps, b.(ops := b.ops + [op], phase := phase))
  {
    AppendOp(db, b.ops, op, b.now);
    ViewOrigins(db, b.ops, b.now);
  }

  lemma SettleKeepsBatch(db: Db, clock: int, caps: map<string, nat>, b: Batch, b': Batch, op: RowOp)
    requires BatchOk(db, clock, caps, b) && SettleRow(View(db, b), b, b', op)
    ensures BatchOk(db, clock, caps, b')
  {
    ViewOrigins(db, b.ops, b.now);
    var view := View(db, b);
    var view' := ApplyOp(view, op, b.now);
    ApplyOpTouches(view, op, b.now);
    forall t | t in b.topics ensures |Slots(view', t)| <= caps[t] {
      ReleaseCounts(view, op, b.now, t);
    }
    SlotsAfterRelease(view, op, b.now, b.phase.topic);
    forall a | a in ExpiredOf(view', b.phase.topic, b.now)
      ensures a in (b.phase.todo - {op.activity}) + b.phase.unsettled
    {
      assert a in ExpiredOf(view, b.phase.topic, b.now);
    }
    AppendKeepsBatch(db, clock, caps, b, op, b'.phase);
  }

  /** After reconciliation the count statement sees every slot holder of the topic. */
  lemma CountSeesAll(db: Db, clock: int, caps: map<string, nat>, b: Batch)
    requires BatchOk(db, clock, caps, b) && b.phase.Reconciling? && b.phase.todo == {}
    ensures InFlight(View(db, b), b.phase.topic, b.now, b.phase.unsettled) == Slots(View(db, b), b.phase.topic)
  {
    var view := View(db, b);
    forall a | a in Slots(view, b.phase.topic)
      ensures a in InFlight(view, b.phase.topic, b.now, b.phase.unsettled)
    {
      if !(view.activities[a].lease.Some? && view.activities[a].lease.value.expires > b.now) {
        assert a in ExpiredOf(view, b.phase.topic, b.now);
      }
    }
  }

  lemma TakeKeepsBatch(db: Db, clock: int, caps: map<string, nat>, b: Batch, b': Batch, op: RowOp)
    requires BatchOk(db, clock, caps, b) && TakeRow(View(db, b), b, b', op)
    ensures BatchOk(db, clock, caps, b')
  {
    var view := View(db, b);
    var view' := ApplyOp(view, op, b.now);
    forall t | t in b.topics ensures |Slots(view', t)| <= caps[t] {
      TakeCounts(view, op, b.now, t);
    }
    TakeCounts(view, op, b.now, b.phase.topic);
    AppendKeepsBatch(db, clock, caps, b, op, b'.phase);
  }

  lemma QuarantineKeepsBatch(db: Db, clock: int, caps: map<string, nat>, b: Batch, b': Batch, op: RowOp)
    requires BatchOk(db, clock, caps, b) && QuarantineRow(View(db, b), b, b', op)
    ensures BatchOk(db, clock, caps, b')
  {
    var view := View(db, b);
    var view' := ApplyOp(view, op, b.now);
    forall t | t in b.topics ensures |Slots(view', t)| <= |Slots(view, t)| {
      ReleaseCounts(view, op, b.now, t);
    }
    AppendKeepsBatch(db, clock, caps, b, op, b.phase);
  }

  lemma ScanKeepsBatch(db: Db, clock: int, caps: map<string, nat>, b: Batch, b': Batch, topic: string)
    requires BatchOk(db, clock, caps, b) && Scan(View(db, b), b, b', topic)
    ensures BatchOk(db, clock, caps, b')
  {
    ViewOrigins(db, b.ops, b.now);
    assert View(db, b') == View(db, b);
  }

  lemma SkipKeepsBatch(db: Db, clock: int, caps: map<string, nat>, b: Batch, b': Batch, a: nat)
    requires BatchOk(db, clock, caps, b) && Skip(View(db, b), b, b', a)
    ensures BatchOk(db, clock, caps, b')
  {
    assert View(db, b') == View(db, b);
  }

  lemma CountKeepsBatch(db: Db, clock: int, caps: map<string, nat>, b: Batch, b': Batch, wanted: nat)
    requires BatchOk(db, clock, caps, b) && Count(View(db, b), caps, b, b', wanted)
    ensures BatchOk(db, clock, caps, b')
  {
    CountSeesAll(db, clock, caps, b);
    assert View(db, b') == View(db, b);
  }

  /** Every statement keeps the batch right. */
  lemma StatementKeepsBatch(s: Sys, id: nat, b: Batch, b': Batch, token: Option<nat>)
    requires BatchOk(s.db, s.clock, s.caps, b) && Statement(s, id, b, b', token)
    ensures BatchOk(s.db, s.clock, s.caps, b')
  {
    var view := View(s.db, b);
    if topic :| Scan(view, b, b', topic) {
      ScanKeepsBatch(s.db, s.clock, s.caps, b, b', topic);
    } else if a :| Skip(view, b, b', a) {
      SkipKeepsBatch(s.db, s.clock, s.caps, b, b', a);
    } else if op :| SettleRow(view, b, b', op) {
      SettleKeepsBatch(s.db, s.clock, s.caps, b, b', op);
    } else if wanted :| Count(view, s.caps, b, b', wanted) {
      CountKeepsBatch(s.db, s.clock, s.caps, b, b', wanted);
    } else if op :| TakeRow(view, b, b', op) {
      TakeKeepsBatch(s.db, s.clock, s.caps, b, b', op);
    } else if op :| QuarantineRow(view, b, b', op) {
      QuarantineKeepsBatch(s.db, s.clock, s.caps, b, b', op);
    } else {
      assert View(s.db, b') == view;
    }
  }
}
