/** Frame rules: what a change of a few rows leaves true of all others.

    Each transaction is an instance of one of these rules. */
module Evolution {
  import opened Rows
  import opened Transactions
  import opened Invariant

  // ---- Rules for rows and waits ---------------------------------------------

  /** Activities change only if they belong to `w`; new ones belong to `w`. */
  ghost predicate ActivitiesOf(db: Db, db': Db, w: nat) {
    && (forall a :: a in db.activities ==> a in db'.activities && db'.activities[a].origin == db.activities[a].origin)
    && (forall a :: a in db'.activities && db'.activities[a].origin.workflow != w ==>
          a in db.activities && db'.activities[a] == db.activities[a])
  }

  ghost predicate ApprovalsOf(db: Db, db': Db, w: nat) {
    forall p :: p in db.approvals && db.approvals[p].workflow != w ==>
      p in db'.approvals && db'.approvals[p] == db.approvals[p]
  }

  /** The rows of `w` in `db'` are right. */
  ghost predicate OwnRowsOk(db: Db, w: nat) {
    && w in db.workflows
    && WorkflowOk(db.workflows[w])
    && WaitOk(db, w)
    && (forall a :: a in db.activities && db.activities[a].origin.workflow == w ==>
          ActivityOk(db.activities[a]) && CoupledOk(db, a))
  }

  ghost predicate SameOthers(ws: map<nat, Workflow>, ws': map<nat, Workflow>, w: nat) {
    && ws'.Keys == ws.Keys
    && (forall v :: v in ws && v != w ==> ws'[v] == ws[v])
  }

  /** A change of the rows of one workflow that stays live (or was terminal and stays as it is). */
  ghost predicate LocalChange(db: Db, db': Db, w: nat) {
    && w in db.workflows
    && SameOthers(db.workflows, db'.workflows, w)
    && ActivitiesOf(db, db', w)
    && ApprovalsOf(db, db', w)
    && db'.workflows[w].identity == db.workflows[w].identity
    && (db.workflows[w].status.Terminal() ==> db'.workflows[w] == db.workflows[w])
    && (db'.workflows[w].status.Terminal() ==> db.workflows[w].status.Terminal())
  }

  /** Other workflows do not wait on the activities or approvals of `w`. */
  lemma OtherWaitKept(db: Db, db': Db, w: nat, v: nat)
    requires v in db.workflows && v in db'.workflows && v != w
    requires db'.workflows[v] == db.workflows[v] && WaitOk(db, v)
    requires ActivitiesOf(db, db', w) && ApprovalsOf(db, db', w)
    requires forall c :: Live(db.workflows, v) && Live(db.workflows, c) && db.workflows[v].wait == OnChild(c) ==>
      Live(db'.workflows, c) && db'.workflows[c].identity == db.workflows[c].identity
    ensures WaitOk(db', v)
  {
  }

  /** The row is unchanged, or it waited on a child and stays live. */
  ghost predicate NoActivityTouched(r: Workflow, r': Workflow) {
    || r' == r
    || (r.wait.OnChild? && r'.command == r.command && !r'.status.Terminal() && !r.status.Terminal())
  }

  lemma OtherCoupledKept(db: Db, db': Db, w: nat, a: nat)
    requires a in db.activities && a in db'.activities && db'.activities[a] == db.activities[a]
    requires CoupledOk(db, a)
    requires var v := db.activities[a].origin.workflow;
      v in db'.workflows && NoActivityTouched(db.workflows[v], db'.workflows[v])
    ensures CoupledOk(db', a)
  {
  }

  /** Activities of workflows other than `w` stay as they are. */
  lemma OtherActivitiesKept(db: Db, db': Db, w: nat)
    requires ActivitiesOk(db.activities) && CouplingOk(db) && ActivitiesOf(db, db', w) && OwnRowsOk(db', w)
    requires forall v :: v in db.workflows && v != w ==>
      v in db'.workflows && NoActivityTouched(db.workflows[v], db'.workflows[v])
    ensures ActivitiesOk(db'.activities) && CouplingOk(db')
  {
    forall a | a in db'.activities ensures CoupledOk(db', a) && ActivityOk(db'.activities[a]) {
      if db'.activities[a].origin.workflow != w {
        assert CoupledOk(db, a) && ActivityOk(db.activities[a]);
        OtherCoupledKept(db, db', w, a);
      }
    }
  }

  lemma LocalChangeKeepsRows(db: Db, db': Db, w: nat)
    requires RowsOk(db) && LocalChange(db, db', w) && OwnRowsOk(db', w)
    ensures RowsOk(db')
  {
    forall v | v in db'.workflows ensures WaitOk(db', v) {
      if v != w {
        assert WaitOk(db, v);
        OtherWaitKept(db, db', w, v);
      }
    }
    OtherActivitiesKept(db, db', w);
  }

  lemma WokenOk(r: Workflow, e: Event, now: int)
    requires WorkflowOk(r) && !r.status.Terminal() && !r.Expecting() && Answers(e, r)
    ensures WorkflowOk(Woken(r, e, now))
  {
  }

  /** `w` ends, and every row waiting on it is told. */
  ghost predicate Ends(db: Db, db': Db, w: nat, outcome: ChildOutcome, now: int) {
    && w in db.workflows
    && !db.workflows[w].status.Terminal()
    && db'.workflows.Keys == db.workflows.Keys
    && db'.workflows[w].status.Terminal()
    && db'.workflows[w].identity == db.workflows[w].identity
    && ActivitiesOf(db, db', w)
    && ApprovalsOf(db, db', w)
    && (forall v :: v in db.workflows && v != w ==>
          db'.workflows[v] == if db.workflows[v].WaitsOnChild(w)
                              then WokenByChild(db.workflows[v], db.workflows[w].identity.definition, outcome, now)
                              else db.workflows[v])
  }

  lemma EndsKeepsRows(db: Db, db': Db, w: nat, outcome: ChildOutcome, now: int)
    requires RowsOk(db) && Ends(db, db', w, outcome, now) && OwnRowsOk(db', w)
    ensures RowsOk(db')
  {
    forall v | v in db'.workflows ensures WorkflowOk(db'.workflows[v]) && WaitOk(db', v) {
      if v != w {
        assert WaitOk(db, v) && WorkflowOk(db.workflows[v]);
        EndsKeepsOther(db, db', w, v, outcome, now);
      }
    }
    OtherActivitiesKept(db, db', w);
  }

  lemma EndsKeepsOther(db: Db, db': Db, w: nat, v: nat, outcome: ChildOutcome, now: int)
    requires v in db.workflows && v != w && WorkflowOk(db.workflows[v]) && WaitOk(db, v)
    requires Ends(db, db', w, outcome, now)
    ensures WorkflowOk(db'.workflows[v]) && WaitOk(db', v)
  {
    if db.workflows[v].WaitsOnChild(w) {
      WokenOk(db.workflows[v],
              ChildDone(db.workflows[v].command, db.workflows[w].identity.definition, outcome), now);
    } else {
      OtherWaitKept(db, db', w, v);
    }
  }

  /** A new workflow disturbs no other row. */
  lemma InsertKeepsRows(db: Db, id: nat, definition: Definition, key: Option<Key>, parent: Option<nat>,
                        parentCommand: nat, restartedFrom: Option<nat>, availableAt: int)
    requires RowsOk(db) && id !in db.workflows
    ensures RowsOk(InsertWorkflow(db, id,
      NewWorkflow(definition, key, parent, parentCommand, restartedFrom, availableAt)))
  {
    var db' := InsertWorkflow(db, id, NewWorkflow(definition, key, parent, parentCommand, restartedFrom, availableAt));
    assert WorkflowOk(db'.workflows[id]);
    forall v | v in db'.workflows ensures WaitOk(db', v) {
      if v != id {
        assert WaitOk(db, v);
        OtherWaitKept(db, db', id, v);
      }
    }
    forall a | a in db'.activities ensures CoupledOk(db', a) {
      assert CoupledOk(db, a);
    }
  }

  // ---- Rules for the lineage -------------------------------------------------

  /** No row is inserted; identity columns stay, terminal rows stay, and a live wait on a child is old. */
  ghost predicate WorkflowEvolves(r: Workflow, r': Workflow) {
    && r'.identity == r.identity
    && (r.status.Terminal() ==> r'.status.Terminal())
    && (!r'.status.Terminal() && r'.wait.OnChild? ==> !r.status.Terminal() && r'.wait == r.wait)
  }

  ghost predicate WorkflowsEvolve(ws: map<nat, Workflow>, ws': map<nat, Workflow>) {
    && ws'.Keys == ws.Keys
    && (forall w :: w in ws ==> WorkflowEvolves(ws[w], ws'[w]))
  }

  ghost predicate SameLinks(ws: map<nat, Workflow>, ws': map<nat, Workflow>) {
    forall w :: w in ws ==> w in ws' && ws'[w].identity == ws[w].identity
  }

  lemma {:induction false} ReachesFrame(ws: map<nat, Workflow>, ws': map<nat, Workflow>, w: nat, target: nat)
    requires SameLinks(ws, ws') && LinksOk(ws) && w in ws
    ensures Reaches(ws', w, target) == Reaches(ws, w, target)
    decreases w
  {
    if ws[w].identity.Above().Some? {
      assert LinkOk(ws, w);
      ReachesFrame(ws, ws', ws[w].identity.Above().value, target);
    }
  }

  /** From a row, only existing rows are reached. */
  lemma {:induction false} ReachesExisting(ws: map<nat, Workflow>, w: nat, target: nat)
    requires LinksOk(ws) && w in ws && Reaches(ws, w, target)
    ensures target in ws
    decreases w
  {
    if w != target {
      assert LinkOk(ws, w);
      ReachesExisting(ws, ws[w].identity.Above().value, target);
    }
  }

  lemma EvolveKeepsLineage(ws: map<nat, Workflow>, ws': map<nat, Workflow>)
    requires LineageOk(ws) && WorkflowsEvolve(ws, ws')
    ensures LineageOk(ws')
  {
    forall w | w in ws' ensures LinkOk(ws', w) {
      assert LinkOk(ws, w) && WorkflowEvolves(ws[w], ws'[w]);
    }
    forall v, w | v in ws' && w in ws' && v != w ensures DistinctKeys(ws'[v].identity, ws'[w].identity) {
      assert WorkflowEvolves(ws[v], ws'[v]) && WorkflowEvolves(ws[w], ws'[w]);
      assert DistinctKeys(ws[v].identity, ws[w].identity);
    }
    forall w | w in ws' && !ws'[w].status.Terminal() && ws'[w].wait.OnChild?
      ensures !Reaches(ws', w, ws'[w].wait.child)
    {
      assert WorkflowEvolves(ws[w], ws'[w]);
      ReachesFrame(ws, ws', w, ws'[w].wait.child);
    }
  }

  /** How an old row may change when `id` is inserted: a live wait on a child is old or names `id`. */
  ghost predicate Carried(r: Workflow, r': Workflow, id: nat) {
    && r'.identity == r.identity
    && (r.status.Terminal() ==> r'.status.Terminal())
    && (!r'.status.Terminal() && r'.wait.OnChild? ==>
          r'.wait.child == id || (!r.status.Terminal() && r'.wait == r.wait))
    && (!r'.status.Terminal() && r'.wait.OnActivity? ==> r' == r)
  }

  ghost predicate WorkflowsGrow(ws: map<nat, Workflow>, ws': map<nat, Workflow>, id: nat) {
    && id !in ws
    && ws'.Keys == ws.Keys + {id}
    && ws'[id].wait.NoWait?
    && (forall w {:trigger Carried(ws[w], ws'[w], id)} :: w in ws ==> Carried(ws[w], ws'[w], id))
  }

  lemma GrowKeepsLineage(ws: map<nat, Workflow>, ws': map<nat, Workflow>, id: nat)
    requires LineageOk(ws) && WorkflowsGrow(ws, ws', id)
    requires LinkOk(ws', id)
    requires forall v :: v in ws ==>
      DistinctKeys(ws[v].identity, ws'[id].identity) && DistinctKeys(ws'[id].identity, ws[v].identity)
    ensures LineageOk(ws')
  {
    forall w | w in ws ensures ws'[w].identity == ws[w].identity {
      assert Carried(ws[w], ws'[w], id);
    }
    forall w | w in ws' ensures LinkOk(ws', w) {
      if w != id {
        assert LinkOk(ws, w);
        if ws[w].identity.restartedFrom.Some? {
          var from := ws[w].identity.restartedFrom.value;
          assert Carried(ws[from], ws'[from], id);
        }
      }
    }
    forall v, w | v in ws' && w in ws' && v != w ensures DistinctKeys(ws'[v].identity, ws'[w].identity) {
      if v != id && w != id { assert DistinctKeys(ws[v].identity, ws[w].identity); }
    }
    forall w | w in ws' && !ws'[w].status.Terminal() && ws'[w].wait.OnChild?
      ensures !Reaches(ws', w, ws'[w].wait.child)
    {
      assert Carried(ws[w], ws'[w], id);
      ReachesFrame(ws, ws', w, ws'[w].wait.child);
      if ws'[w].wait.child == id && Reaches(ws, w, id) {
        ReachesExisting(ws, w, id);
      }
    }
  }

  // ---- Rules for replacements -------------------------------------------------

  ghost predicate ActivityEvolves(r: Activity, r': Activity) {
    && r'.origin == r.origin
    && (r.status.ActSucceeded? ==> r'.status.ActSucceeded?)
    && (r.status.ActCancelled? ==> r'.status.ActCancelled?)
    && (r.status.ActDeadLettered? ==> r'.status.ActDeadLettered? || r'.status.ActCancelled?)
  }

  /** Activities keep their command, finished ones stay finished, and a live wait on an activity is old. */
  ghost predicate ActivitiesEvolve(db: Db, db': Db) {
    && db'.activities.Keys == db.activities.Keys
    && (forall a :: a in db.activities ==> ActivityEvolves(db.activities[a], db'.activities[a]))
    && (forall w :: w in db'.workflows && !db'.workflows[w].status.Terminal() && db'.workflows[w].wait.OnActivity? ==>
          && w in db.workflows && !db.workflows[w].status.Terminal()
          && db'.workflows[w].wait == db.workflows[w].wait
          && db'.workflows[w].command == db.workflows[w].command)
  }

  lemma EvolveKeepsReplacements(db: Db, db': Db)
    requires ReplacementsOk(db) && ActivitiesEvolve(db, db')
    ensures ReplacementsOk(db')
  {
    forall a, b | a in db'.activities && b in db'.activities && a != b
      ensures SiblingsOk(db'.activities[a], db'.activities[b])
    {
      assert ActivityEvolves(db.activities[a], db'.activities[a]);
      assert ActivityEvolves(db.activities[b], db'.activities[b]);
      assert SiblingsOk(db.activities[a], db.activities[b]);
    }
    forall w, a | w in db'.workflows && a in db'.activities && WaitsOnLastOf(db', w, a)
      ensures db'.activities[a].origin.replacement
              <= db'.activities[db'.workflows[w].wait.activity].origin.replacement
    {
      assert ActivityEvolves(db.activities[a], db'.activities[a]);
      assert WaitsOnLastOf(db, w, a);
    }
  }

  /** An earlier row of the same command as `last` gave up. */
  ghost predicate GivesWayTo(r: Activity, last: Activity) {
    r.origin.workflow == last.origin.workflow && r.origin.command == last.origin.command ==>
      && r.origin.replacement < last.origin.replacement
      && (r.status.ActDeadLettered? || r.status.ActCancelled?)
  }

  /** `w` begins to wait on a new activity, the last of its command. */
  ghost predicate ActivityInserted(db: Db, db': Db, w: nat, id: nat) {
    && w in db.workflows && w in db'.workflows
    && id !in db.activities
    && db'.activities.Keys == db.activities.Keys + {id}
    && SameOthers(db.workflows, db'.workflows, w)
    && (forall a :: a in db.activities ==> db'.activities[a] == db.activities[a])
    && db'.workflows[w].wait == OnActivity(id)
    && db'.activities[id].origin.workflow == w
    && db'.activities[id].origin.command == db'.workflows[w].command
    && (forall a :: a in db.activities ==> GivesWayTo(db.activities[a], db'.activities[id]))
  }

  lemma InsertKeepsReplacements(db: Db, db': Db, w: nat, id: nat)
    requires WaitsOk(db) && ReplacementsOk(db) && ActivityInserted(db, db', w, id)
    ensures ReplacementsOk(db')
  {
    forall a, b | a in db'.activities && b in db'.activities && a != b
      ensures SiblingsOk(db'.activities[a], db'.activities[b])
    {
      if a != id && b != id { assert SiblingsOk(db.activities[a], db.activities[b]); }
    }
    forall v, a | v in db'.workflows && a in db'.activities && WaitsOnLastOf(db', v, a)
      ensures db'.activities[a].origin.replacement
              <= db'.activities[db'.workflows[v].wait.activity].origin.replacement
    {
      if v != w {
        assert WaitOk(db, v);
        assert WaitsOnLastOf(db, v, a);
      }
    }
  }
}
