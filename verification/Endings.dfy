/** What ending workflows does to the rows of the whole database: the rows that
    end, their activities and approvals, and the rows that waited on them. */
module Endings {
  import opened Rows
  import opened Transactions
  import opened Invariant
  import opened Lineage
  import opened Generations
  import opened System
  import opened Meanings

  /** A pending activity is cancelled; one that holds a slot keeps it until its attempt is settled as `outcome`;
      one that has ended stays. */
  ghost predicate RevokedAs(r: Activity, r': Activity, outcome: AttemptOutcome) {
    && r'.origin == r.origin && r'.attempts == r.attempts && r'.attemptCount == r.attemptCount
    && r'.maxAttempts == r.maxAttempts
    && match r.status
       case ActPending => r'.status.ActCancelled?
       case ActRunning | ActCancelling =>
         r'.status.ActCancelling? && r'.revoked == Some(outcome) && r'.lease == r.lease
       case ActSucceeded | ActDeadLettered | ActCancelled => r' == r
  }

  /** A row after the rows of `chosen` were cancelled: it is one of them, or was told of the one it waited on,
      or is as it was. */
  ghost predicate RowAfter(ws: map<nat, Workflow>, r': Workflow, v: nat, chosen: set<nat>, now: int)
    requires v in ws
  {
    var r := ws[v];
    if v in chosen then r'.status.Cancelled? && r'.lease.None? && r'.identity == r.identity && r'.command == r.command
    else if r.wait.OnChild? && r.status.AwaitsChild() && r.wait.child in chosen && r.wait.child in ws then
      Got(r, r', ChildDone(r.command, ws[r.wait.child].identity.definition, ChildFailed("child_cancelled")), now)
    else r' == r
  }

  ghost predicate ActivityAfter(r: Activity, r': Activity, chosen: set<nat>, outcome: AttemptOutcome) {
    if r.origin.workflow in chosen then RevokedAs(r, r', outcome) else r' == r
  }

  ghost predicate ApprovalAfter(p: Approval, p': Approval, chosen: set<nat>) {
    p' == if p.workflow in chosen && p.status.ApprovalPending? then p.(status := ApprovalCancelled) else p
  }

  /** The rows of `chosen` were cancelled, with what belongs to them, and those who waited on them know. */
  ghost predicate Cancels(db: Db, db': Db, chosen: set<nat>, outcome: AttemptOutcome, now: int) {
    && db'.workflows.Keys == db.workflows.Keys
    && (forall v {:trigger db'.workflows[v]} :: v in db.workflows ==>
          RowAfter(db.workflows, db'.workflows[v], v, chosen, now))
    && db'.activities.Keys == db.activities.Keys
    && (forall a {:trigger db'.activities[a]} :: a in db.activities ==>
          ActivityAfter(db.activities[a], db'.activities[a], chosen, outcome))
    && db'.approvals.Keys == db.approvals.Keys
    && (forall p {:trigger db'.approvals[p]} :: p in db.approvals ==>
          ApprovalAfter(db.approvals[p], db'.approvals[p], chosen))
  }

  lemma CancelOneCancels(db: Db, w: nat, outcome: AttemptOutcome, now: int)
    requires Live(db.workflows, w)
    ensures Cancels(db, CancelOne(db, w, outcome, now), {w}, outcome, now)
  {
    var db' := CancelOne(db, w, outcome, now);
    forall v | v in db.workflows ensures RowAfter(db.workflows, db'.workflows[v], v, {w}, now) {
      RowAfterCancel(db, w, outcome, now, v);
    }
    forall a | a in db.activities ensures ActivityAfter(db.activities[a], db'.activities[a], {w}, outcome) {
      assert db'.activities[a]
        == if db.activities[a].origin.workflow == w then CancelledActivity(db.activities[a], outcome)
           else db.activities[a];
    }
  }

  lemma RowAfterCancel(db: Db, w: nat, outcome: AttemptOutcome, now: int, v: nat)
    requires Live(db.workflows, w) && v in db.workflows
    ensures RowAfter(db.workflows, CancelOne(db, w, outcome, now).workflows[v], v, {w}, now)
  {
  }

  lemma CancelsCompose(db: Db, db1: Db, db2: Db, w: nat, rest: set<nat>, outcome: AttemptOutcome, now: int)
    requires Cancels(db, db1, {w}, outcome, now) && Cancels(db1, db2, rest, outcome, now) && w !in rest
    ensures Cancels(db, db2, {w} + rest, outcome, now)
  {
    forall v | v in db.workflows ensures RowAfter(db.workflows, db2.workflows[v], v, {w} + rest, now) {
      assert RowAfter(db.workflows, db1.workflows[v], v, {w}, now);
      assert RowAfter(db1.workflows, db2.workflows[v], v, rest, now);
      if v in db.workflows && db.workflows[v].wait.OnChild? && db.workflows[v].wait.child in db.workflows {
        var c := db.workflows[v].wait.child;
        assert RowAfter(db.workflows, db1.workflows[c], c, {w}, now);
      }
    }
    forall a | a in db.activities ensures ActivityAfter(db.activities[a], db2.activities[a], {w} + rest, outcome) {
      assert ActivityAfter(db.activities[a], db1.activities[a], {w}, outcome);
      assert ActivityAfter(db1.activities[a], db2.activities[a], rest, outcome);
    }
    forall p | p in db.approvals ensures ApprovalAfter(db.approvals[p], db2.approvals[p], {w} + rest) {
      assert ApprovalAfter(db.approvals[p], db1.approvals[p], {w});
      assert ApprovalAfter(db1.approvals[p], db2.approvals[p], rest);
    }
  }

  ghost predicate AllLive(ws: map<nat, Workflow>, order: seq<nat>) {
    && (forall k :: 0 <= k < |order| ==> Live(ws, order[k]))
    && (forall i, j :: 0 <= i < j < |order| ==> order[i] != order[j])
  }

  /** Cancelling live rows one after another cancels exactly them. */
  lemma {:induction false} CancelAllCancels(db: Db, order: seq<nat>, outcome: AttemptOutcome, now: int)
    requires AllLive(db.workflows, order)
    ensures Cancels(db, CancelAll(db, order, outcome, now), Members(order), outcome, now)
    decreases |order|
  {
    if order != [] {
      var db1 := CancelOne(db, order[0], outcome, now);
      CancelOneCancels(db, order[0], outcome, now);
      CancelOneLives(db, order[0], outcome, now);
      assert AllLive(db1.workflows, order[1..]);
      CancelAllCancels(db1, order[1..], outcome, now);
      MembersTail(order);
      assert order[0] !in Members(order[1..]);
      CancelsCompose(db, db1, CancelAll(db1, order[1..], outcome, now), order[0], Members(order[1..]), outcome, now);
    } else {
      NothingCancelled(db, outcome, now);
    }
  }

  lemma NothingCancelled(db: Db, outcome: AttemptOutcome, now: int)
    ensures Cancels(db, db, {}, outcome, now)
  {
  }

  lemma CascadeAllLive(ws: map<nat, Workflow>, root: nat, order: seq<nat>)
    requires CascadeOrder(ws, root, order)
    ensures AllLive(ws, order)
  {
    forall k | 0 <= k < |order| ensures Live(ws, order[k]) { CascadeIsLive(ws, root, order, k); }
  }

  // ---- Cancel ---------------------------------------------------------------------------------------

  /** A live workflow is cancelled together with its cascade, and no other row. */
  lemma CancelMeans(db: Db, w: nat, order: seq<nat>, outcome: AttemptOutcome, now: int)
    requires w in db.workflows ==> CascadeOrder(CancelOne(db, w, outcome, now).workflows, w, order)
    ensures var tx := Cancel(db, w, order, outcome, now);
      && (tx.Commit? <==> Live(db.workflows, w))
      && (tx.Commit? ==> Cancels(db, tx.db, {w} + Members(order), outcome, now))
  {
    if Live(db.workflows, w) {
      var db1 := CancelOne(db, w, outcome, now);
      CancelOneCancels(db, w, outcome, now);
      CancelOneLives(db, w, outcome, now);
      CascadeAllLive(db1.workflows, w, order);
      CancelAllCancels(db1, order, outcome, now);
      CancelsCompose(db, db1, CancelAll(db1, order, outcome, now), w, Members(order), outcome, now);
    }
  }

  // ---- Start ------------------------------------------------------------------------------------------

  /** A start changes nothing if a row holds the key; else it adds a row that is ready at `availableAt`. */
  lemma StartMeans(db: Db, id: nat, definition: Definition, key: Option<Key>, availableAt: int)
    requires id !in db.workflows
    ensures var tx := Start(db, id, definition, key, availableAt);
      && tx.Commit?
      && if key.Some? && !KeyFree(db.workflows, definition.kind, key.value) then tx.db == db
         else
           && JustReady(tx.db, id, availableAt) && tx.db == db.(workflows := db.workflows[id := tx.db.workflows[id]])
           && tx.db.workflows[id].identity == Identity(definition, key, None, 0, None)
  {
  }

  // ---- New generations ---------------------------------------------------------------------------------

  /** Owners are older than what they own. */
  lemma {:induction false} OwnedIsYounger(ws: map<nat, Workflow>, p: nat, g: nat)
    requires LinksOk(ws) && OwnedGeneration(ws, p, g)
    ensures p < g
    decreases g
  {
    assert LinkOk(ws, g);
    if !OwnedBy(ws[g], p) { OwnedIsYounger(ws, p, ws[g].identity.restartedFrom.value); }
  }

  /** The cascade of a row does not reach the generation that replaces it. */
  lemma SuccessorSurvives(ws: map<nat, Workflow>, root: nat, id: nat, order: seq<nat>)
    requires LinksOk(ws) && CascadeOrder(ws, root, order)
    requires id in ws && ws[id].identity.restartedFrom == Some(root) && ws[id].identity.parent.None?
    ensures id !in Members(order)
  {
    var below := set x | x in Members(order) && x > root && x != id;
    forall p, g | (p == root || p in below) && LiveOwned(ws, p, g) ensures g in below {
      OwnedIsYounger(ws, p, g);
      if g == id { OwnedIsYounger(ws, p, root); }
      assert g in Members(order);
    }
    assert Closed(ws, root, below);
  }

  /** `id` is the next generation of `w`, under `definition`, and nothing has happened to it yet. */
  ghost predicate NextGeneration(db: Db, w: nat, id: nat, definition: Definition, now: int) {
    && JustReady(db, id, now)
    && db.workflows[id].identity == Identity(definition, None, None, 0, Some(w))
  }

  /** A row that waits for nothing and is not cancelled itself is left alone. */
  lemma GenerationStays(db: Db, db': Db, w: nat, id: nat, definition: Definition, chosen: set<nat>,
                        outcome: AttemptOutcome, now: int)
    requires NextGeneration(db, w, id, definition, now) && Cancels(db, db', chosen, outcome, now) && id !in chosen
    ensures NextGeneration(db', w, id, definition, now)
  {
    assert RowAfter(db.workflows, db'.workflows[id], id, chosen, now);
    assert db'.workflows[id] == db.workflows[id];
    forall token, leaseMillis, at
      ensures ClaimWorkflow(db', id, token, leaseMillis, at).Commit? <==> now <= at
    {
      assert ClaimWorkflow(db, id, token, leaseMillis, at).Commit? <==> now <= at;
    }
  }

  // ---- Restart --------------------------------------------------------------------------------------

  /** The next generation is inserted. A source that has ended stays as it is; a live one is cancelled with
      its activities and approvals, and its waiters are told that it was superseded. */
  ghost predicate Superseded(db: Db, db': Db, w: nat, id: nat, definition: Definition, now: int)
    requires w in db.workflows
  {
    && w in db'.workflows && id in db'.workflows && NextGeneration(db', w, id, definition, now)
    && if db.workflows[w].status.Terminal()
       then db' == db.(workflows := db.workflows[id := db'.workflows[id]])
       else
         && db'.workflows.Keys == db.workflows.Keys + {id}
         && db'.workflows[w].status.Cancelled? && db'.workflows[w].lease.None?
         && db'.workflows[w].identity == db.workflows[w].identity
         && Tells(db.workflows, db'.workflows, w, ChildFailed("child_superseded"), now)
         && db'.activities.Keys == db.activities.Keys && db'.approvals.Keys == db.approvals.Keys
         && (forall a {:trigger db'.activities[a]} :: a in db.activities ==>
               ActivityAfter(db.activities[a], db'.activities[a], {w}, AttemptOperatorCancelled))
         && (forall p {:trigger db'.approvals[p]} :: p in db.approvals ==>
               ApprovalAfter(db.approvals[p], db'.approvals[p], {w}))
  }

  lemma WakeTells(ws: map<nat, Workflow>, w: nat, r': Workflow, id: nat, row: Workflow, outcome: ChildOutcome, now: int)
    requires w in ws && id !in ws
    ensures Tells(ws, WakeParents(ws[id := row][w := r'], w, ws[w].identity.definition, outcome, now), w, outcome, now)
  {
  }

  lemma SupersedeMeans(db: Db, w: nat, id: nat, definition: Definition, now: int)
    requires w in db.workflows && id !in db.workflows
    ensures Superseded(db, Supersede(db, w, id, definition, now), w, id, definition, now)
  {
    var db' := Supersede(db, w, id, definition, now);
    assert db'.workflows[id] == NewWorkflow(definition, None, None, 0, Some(w), now);
    assert JustReady(db', id, now);
    if !db.workflows[w].status.Terminal() {
      WakeTells(db.workflows, w, CancelledRow(db.workflows[w], false), id, db'.workflows[id],
                ChildFailed("child_superseded"), now);
    }
  }

  /** A restart needs a row that has ended, is paused or is blocked, and that no row has restarted yet. */
  lemma RestartMeans(db: Db, w: nat, id: nat, version: int, order: seq<nat>, now: int)
    requires Inv(db) && id !in db.workflows && w < id
    requires Live(db.workflows, w) ==>
      var definition := Definition(db.workflows[w].identity.definition.kind, version);
      CascadeOrder(Supersede(db, w, id, definition, now).workflows, w, order)
    ensures var tx := Restart(db, w, id, version, order, now);
      && (tx.Commit? <==>
            && w in db.workflows
            && (db.workflows[w].status.Terminal() || db.workflows[w].status.Paused? || db.workflows[w].status.Blocked?)
            && (forall v :: v in db.workflows ==> db.workflows[v].identity.restartedFrom != Some(w)))
      && (tx.Commit? ==>
            var definition := Definition(db.workflows[w].identity.definition.kind, version);
            var db1 := Supersede(db, w, id, definition, now);
            && Superseded(db, db1, w, id, definition, now)
            && NextGeneration(tx.db, w, id, definition, now)
            && (if Live(db.workflows, w) then Cancels(db1, tx.db, Members(order), AttemptOperatorCancelled, now)
                else tx.db == db1))
  {
    var tx := Restart(db, w, id, version, order, now);
    if tx.Commit? {
      var definition := Definition(db.workflows[w].identity.definition.kind, version);
      SupersedeMeans(db, w, id, definition, now);
      if Live(db.workflows, w) { RestartCascade(db, w, id, definition, order, now); }
    }
  }

  lemma RestartCascade(db: Db, w: nat, id: nat, definition: Definition, order: seq<nat>, now: int)
    requires Inv(db) && Live(db.workflows, w) && id !in db.workflows && w < id
    requires definition.kind == db.workflows[w].identity.definition.kind && Successor(db.workflows, w).None?
    requires Superseded(db, Supersede(db, w, id, definition, now), w, id, definition, now)
    requires CascadeOrder(Supersede(db, w, id, definition, now).workflows, w, order)
    ensures var db1 := Supersede(db, w, id, definition, now);
      var db' := CancelAll(db1, order, AttemptOperatorCancelled, now);
      Cancels(db1, db', Members(order), AttemptOperatorCancelled, now) && NextGeneration(db', w, id, definition, now)
  {
    var db1 := Supersede(db, w, id, definition, now);
    SupersedeKeeps(db, w, id, definition, now);
    CascadeAllLive(db1.workflows, w, order);
    CancelAllCancels(db1, order, AttemptOperatorCancelled, now);
    SuccessorSurvives(db1.workflows, w, id, order);
    GenerationStays(db1, CancelAll(db1, order, AttemptOperatorCancelled, now), w, id, definition, Members(order),
                    AttemptOperatorCancelled, now);
  }

  // ---- Recovery -------------------------------------------------------------------------------------

  /** The next generation of a failed or blocked row is inserted, and its dead letters can no longer be
      retried. A failed source stays; a blocked one is cancelled, and its waiters wait on the new generation
      if that has the version they asked for, else they are told that the source was superseded. */
  ghost predicate Recovered(db: Db, db': Db, w: nat, id: nat, definition: Definition, now: int)
    requires w in db.workflows
  {
    && w in db'.workflows && id in db'.workflows && NextGeneration(db', w, id, definition, now)
    && db'.workflows.Keys == db.workflows.Keys + {id} && db'.approvals == db.approvals
    && db'.activities.Keys == db.activities.Keys
    && (forall a :: a in db.activities ==>
          if db.activities[a].origin.workflow == w && db.activities[a].status.ActDeadLettered?
          then db'.activities[a].status.ActCancelled? && db'.activities[a].attempts == db.activities[a].attempts
          else db'.activities[a] == db.activities[a])
    && (if !db.workflows[w].status.Blocked?
        then (forall v :: v in db.workflows ==> db'.workflows[v] == db.workflows[v])
        else
          && db'.workflows[w].status.Cancelled? && db'.workflows[w].identity == db.workflows[w].identity
          && if definition.version == db.workflows[w].identity.definition.version
             then Hands(db.workflows, db'.workflows, w, id)
             else Tells(db.workflows, db'.workflows, w, ChildFailed("child_superseded"), now))
  }

  /** The waiters of `w` wait on `id`; the other rows, but for `w`, are as they were. */
  ghost predicate Hands(ws: map<nat, Workflow>, ws': map<nat, Workflow>, w: nat, id: nat) {
    forall v :: v in ws && v != w ==>
      v in ws' && ws'[v] == if ws[v].WaitsOnChild(w) then ws[v].(wait := OnChild(id)) else ws[v]
  }

  lemma RecoverMeans(db: Db, w: nat, id: nat, definition: Definition, now: int)
    requires w in db.workflows && id !in db.workflows
    ensures Recovered(db, Recover(db, w, id, definition, now), w, id, definition, now)
  {
    var db' := Recover(db, w, id, definition, now);
    assert db'.workflows.Keys == db.workflows.Keys + {id};
    assert db'.workflows[id] == NewWorkflow(definition, None, None, 0, Some(w), now);
    assert JustReady(db', id, now);
    if db.workflows[w].status.Blocked? && definition.version != db.workflows[w].identity.definition.version {
      WakeTells(db.workflows, w, CancelledRow(db.workflows[w], false), id, db'.workflows[id],
                ChildFailed("child_superseded"), now);
    }
  }

  /** What a recoverable start leaves when it starts a row: a new one under a free key, or the next generation
      of the newest one, with the cascade of a blocked source. */
  ghost predicate StartedRow(db: Db, db': Db, lookup: Option<nat>, id: nat, definition: Definition, key: Key,
                             order: seq<nat>, now: int)
    requires lookup.Some? ==> lookup.value in db.workflows
  {
    if lookup.None? then
      && JustReady(db', id, now) && db' == db.(workflows := db.workflows[id := db'.workflows[id]])
      && db'.workflows[id].identity == Identity(definition, Some(key), None, 0, None)
    else
      var w := Newest(db.workflows, lookup.value);
      var mid := Recover(db, w, id, definition, now);
      && Recovered(db, mid, w, id, definition, now) && NextGeneration(db', w, id, definition, now)
      && if db.workflows[w].status.Blocked?
         then Cancels(mid, db', Members(order), AttemptApplicationCancelled, now)
         else db' == mid
  }

  lemma RecoverableStartMeans(db: Db, lookup: Option<nat>, id: nat, definition: Definition, key: Key,
                              order: seq<nat>, now: int)
    requires Inv(db) && Allowed(db, DoRecoverableStart(lookup, id, definition, key, order), now)
    requires NeedsNewRow(db, lookup, definition.kind, key)
    ensures var (named, tx) := RecoverableStart(db, lookup, id, definition, key, order, now);
      named == id && tx.Commit? && StartedRow(db, tx.db, lookup, id, definition, key, order, now)
  {
    if lookup.Some? {
      var w := Newest(db.workflows, lookup.value);
      NewestIsLast(db.workflows, lookup.value);
      RecoverMeans(db, w, id, definition, now);
      if db.workflows[w].status.Blocked? { RecoverCascade(db, w, id, definition, order, now); }
    }
  }

  lemma RecoverCascade(db: Db, w: nat, id: nat, definition: Definition, order: seq<nat>, now: int)
    requires Inv(db) && w in db.workflows && db.workflows[w].status.Blocked? && id !in db.workflows && w < id
    requires definition.kind == db.workflows[w].identity.definition.kind && Successor(db.workflows, w).None?
    requires Recovered(db, Recover(db, w, id, definition, now), w, id, definition, now)
    requires CascadeOrder(Recover(db, w, id, definition, now).workflows, w, order)
    ensures var db1 := Recover(db, w, id, definition, now);
      var db' := CancelAll(db1, order, AttemptApplicationCancelled, now);
      Cancels(db1, db', Members(order), AttemptApplicationCancelled, now) && NextGeneration(db', w, id, definition, now)
  {
    var db1 := Recover(db, w, id, definition, now);
    RecoverKeeps(db, w, id, definition, now);
    CascadeAllLive(db1.workflows, w, order);
    CancelAllCancels(db1, order, AttemptApplicationCancelled, now);
    SuccessorSurvives(db1.workflows, w, id, order);
    GenerationStays(db1, CancelAll(db1, order, AttemptApplicationCancelled, now), w, id, definition, Members(order),
                    AttemptApplicationCancelled, now);
  }
}
