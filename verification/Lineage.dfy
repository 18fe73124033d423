/** Starts, children, recovery generations and restarts keep the invariant. */
module Lineage {
  import opened Rows
  import opened Transactions
  import opened Invariant
  import opened Evolution
  import opened Preservation
  import opened Commits

  // ---- Restart chains ------------------------------------------------------------

  /** `n` is on the restart chain that starts at `w`. */
  ghost predicate Generation(ws: map<nat, Workflow>, w: nat, n: nat)
    decreases n
  {
    || n == w
    || (&& n in ws && ws[n].identity.restartedFrom.Some? && ws[n].identity.restartedFrom.value < n
        && Generation(ws, w, ws[n].identity.restartedFrom.value))
  }

  /** The walk ends at the one row of the chain that was not restarted. */
  lemma {:induction false} NewestIsLast(ws: map<nat, Workflow>, w: nat)
    requires LinksOk(ws) && w in ws
    ensures Newest(ws, w) in ws && Successor(ws, Newest(ws, w)).None?
    ensures ws[Newest(ws, w)].identity.definition.kind == ws[w].identity.definition.kind
    ensures Generation(ws, w, Newest(ws, w)) && Newest(ws, w) >= w
    decreases |Younger(ws, w)|
  {
    var s := Successor(ws, w);
    if s.Some? {
      assert LinkOk(ws, s.value);
      assert s.value in Younger(ws, w) && s.value !in Younger(ws, s.value);
      assert Younger(ws, s.value) < Younger(ws, w);
      ProperSubsetIsSmaller(Younger(ws, s.value), Younger(ws, w));
      NewestIsLast(ws, s.value);
      GenerationExtends(ws, w, s.value, Newest(ws, s.value));
    }
  }

  lemma {:induction false} GenerationExtends(ws: map<nat, Workflow>, w: nat, s: nat, n: nat)
    requires LinksOk(ws) && s in ws && ws[s].identity.restartedFrom == Some(w) && Generation(ws, s, n)
    ensures Generation(ws, w, n)
    decreases n
  {
    if n != s {
      GenerationExtends(ws, w, s, ws[n].identity.restartedFrom.value);
    } else {
      assert LinkOk(ws, s);
    }
  }

  /** At most one generation of a chain is live, and it is the newest. */
  lemma {:induction false} LiveGenerationIsNewest(ws: map<nat, Workflow>, w: nat, n: nat)
    requires LinksOk(ws) && KeysUnique(ws) && w in ws && Generation(ws, w, n) && Live(ws, n)
    ensures n == Newest(ws, w)
    decreases n
  {
    NewestIsLast(ws, w);
    GenerationsMeet(ws, w, n, Newest(ws, w));
    var top := Newest(ws, w);
    if n != top {
      if Generation(ws, n, top) {
        LastLink(ws, n, top);
      } else {
        LastLink(ws, top, n);
      }
    }
  }

  /** A proper later generation makes the earlier one terminal, and the earlier one has a successor. */
  lemma {:induction false} LastLink(ws: map<nat, Workflow>, w: nat, n: nat)
    requires LinksOk(ws) && Generation(ws, w, n) && n != w
    ensures w in ws && ws[w].status.Terminal() && Successor(ws, w).Some?
    decreases n
  {
    assert LinkOk(ws, n);
    var before := ws[n].identity.restartedFrom.value;
    if before != w { LastLink(ws, w, before); }
  }

  /** Of two generations of one chain, one is a generation of the other: chains are linear. */
  lemma {:induction false} GenerationsMeet(ws: map<nat, Workflow>, w: nat, m: nat, n: nat)
    requires LinksOk(ws) && KeysUnique(ws) && Generation(ws, w, m) && Generation(ws, w, n)
    ensures Generation(ws, m, n) || Generation(ws, n, m)
    decreases m + n
  {
    if m != w && n != w {
      var bm, bn := ws[m].identity.restartedFrom.value, ws[n].identity.restartedFrom.value;
      GenerationsMeet(ws, w, bm, bn);
      if Generation(ws, bm, bn) {
        StepUp(ws, m, bm, n);
      } else {
        StepUp(ws, n, bn, m);
      }
    }
  }

  /** A generation of the predecessor of `m` other than that predecessor is a generation of `m`. */
  lemma {:induction false} StepUp(ws: map<nat, Workflow>, m: nat, before: nat, n: nat)
    requires LinksOk(ws) && KeysUnique(ws) && m in ws && n in ws
    requires ws[m].identity.restartedFrom == Some(before) && before < m
    requires ws[n].identity.restartedFrom.Some? && ws[n].identity.restartedFrom.value < n
    requires Generation(ws, before, ws[n].identity.restartedFrom.value)
    ensures Generation(ws, m, n)
    decreases n
  {
    if m != n {
      var bn := ws[n].identity.restartedFrom.value;
      assert DistinctKeys(ws[m].identity, ws[n].identity);
      assert LinkOk(ws, bn) by { assert LinkOk(ws, n); }
      StepUp(ws, m, before, bn);
    }
  }

  // ---- New rows -------------------------------------------------------------------

  /** A new row that carries a free key or none, and no restart source. */
  lemma InsertKeeps(db: Db, id: nat, definition: Definition, key: Option<Key>, parent: Option<nat>,
                    parentCommand: nat, availableAt: int)
    requires Inv(db) && id !in db.workflows
    requires key.Some? ==> FindByKey(db.workflows, definition.kind, key.value).None?
    requires parent.Some? ==> parent.value in db.workflows && parent.value < id
    ensures Inv(InsertWorkflow(db, id, NewWorkflow(definition, key, parent, parentCommand, None, availableAt)))
  {
    var db' := InsertWorkflow(db, id, NewWorkflow(definition, key, parent, parentCommand, None, availableAt));
    InsertKeepsRows(db, id, definition, key, parent, parentCommand, None, availableAt);
    GrowKeepsLineage(db.workflows, db'.workflows, id);
    EvolveKeepsReplacements(db, db');
  }

  lemma StartKeeps(db: Db, id: nat, definition: Definition, key: Option<Key>, availableAt: int)
    requires Inv(db) && id !in db.workflows
    ensures Start(db, id, definition, key, availableAt).Commit?
    ensures Inv(Start(db, id, definition, key, availableAt).db)
  {
    if key.None? || FindByKey(db.workflows, definition.kind, key.value).None? {
      InsertKeeps(db, id, definition, key, None, 0, availableAt);
    }
  }

  // ---- Waiting on a child -----------------------------------------------------------

  /** A running row begins to wait on a live child that is neither it nor above it. */
  lemma ChildWaitKeeps(db: Db, w: nat, r': Workflow, c: nat)
    requires Inv(db) && w in db.workflows && db.workflows[w].status.Running?
    requires r'.identity == db.workflows[w].identity && r'.status.WaitingChild? && r'.wait == OnChild(c)
    requires r'.command >= db.workflows[w].command && WorkflowOk(r')
    requires Live(db.workflows, c) && r'.asked == AskChild(db.workflows[c].identity.definition)
    requires !Reaches(db.workflows, w, c)
    ensures Inv(db.(workflows := db.workflows[w := r']))
  {
    var db' := db.(workflows := db.workflows[w := r']);
    forall a | a in db'.activities && db'.activities[a].origin.workflow == w
      ensures ActivityOk(db'.activities[a]) && CoupledOk(db', a)
    {
      assert CoupledOk(db, a) && ActivityOk(db.activities[a]);
      RunningHasNoActivity(db, w, a);
    }
    LocalChangeKeepsRows(db, db', w);
    ChildWaitKeepsLineage(db.workflows, w, r', c);
    EvolveKeepsReplacements(db, db');
  }

  lemma ChildWaitKeepsLineage(ws: map<nat, Workflow>, w: nat, r': Workflow, c: nat)
    requires LineageOk(ws) && w in ws && !ws[w].status.Terminal()
    requires r'.identity == ws[w].identity && !r'.status.Terminal() && r'.wait == OnChild(c)
    requires !Reaches(ws, w, c)
    ensures LineageOk(ws[w := r'])
  {
    var quiet := ws[w := r'.(wait := NoWait)];
    EvolveKeepsLineage(ws, quiet);
    var ws' := ws[w := r'];
    forall v | v in ws' ensures LinkOk(ws', v) {
      assert LinkOk(quiet, v);
    }
    forall u, v | u in ws' && v in ws' && u != v ensures DistinctKeys(ws'[u].identity, ws'[v].identity) {
      assert DistinctKeys(quiet[u].identity, quiet[v].identity);
    }
    forall v | v in ws' && !ws'[v].status.Terminal() && ws'[v].wait.OnChild?
      ensures !Reaches(ws', v, ws'[v].wait.child)
    {
      ReachesFrame(ws, ws', v, ws'[v].wait.child);
    }
  }

  /** Nobody waits on a terminal child, so only the new waiter is woken. */
  lemma WakeOnlyWaiter(db: Db, w: nat, r': Workflow, c: nat, outcome: ChildOutcome, now: int)
    requires Inv(db) && w in db.workflows && c in db.workflows && db.workflows[c].status.Terminal()
    requires r'.WaitsOnChild(c)
    ensures WakeParents(db.workflows[w := r'], c, db.workflows[c].identity.definition, outcome, now)
         == db.workflows[w := WokenByChild(r', db.workflows[c].identity.definition, outcome, now)]
  {
    forall v | v in db.workflows && v != w ensures !db.workflows[v].WaitsOnChild(c) {
      assert WaitOk(db, v);
    }
  }

  function ChildKey(claim: WorkflowClaim, t: Transition): Key
    requires t.RunChild?
  {
    if t.key.Some? then t.key.value else AutoChild(claim.id, claim.row.command + 1)
  }

  /** `w` waits on the new child `id`. */
  function WithChild(ws: map<nat, Workflow>, w: nat, id: nat, definition: Definition, key: Key,
                     now: int): map<nat, Workflow>
    requires w in ws
  {
    ws[id := NewWorkflow(definition, Some(key), Some(w), ws[w].command + 1, None, now)]
      [w := Waiting(ws[w], ws[w], ws[w].delivered + 1, WaitingChild, OnChild(id), AskChild(definition))]
  }

  /** `w` waits on the existing child, or has its outcome. */
  function Attached(ws: map<nat, Workflow>, w: nat, existing: nat, definition: Definition, now: int): map<nat, Workflow>
    requires w in ws && existing in ws
  {
    var child := ws[existing];
    var waiting := ws[w := Waiting(ws[w], ws[w], ws[w].delivered + 1, WaitingChild, OnChild(existing),
                                   AskChild(definition))];
    if TerminalOutcome(child).Some?
    then WakeParents(waiting, existing, child.identity.definition, TerminalOutcome(child).value, now)
    else waiting
  }

  /** A child transition that commits does one of two things. */
  lemma ChildCases(db: Db, claim: WorkflowClaim, consumed: nat, t: Transition, now: int)
    requires CacheAgrees(db, claim, consumed) && t.RunChild? && CommitChild(db, claim, consumed, t, now).Commit?
    ensures Fenced(db, claim)
    ensures var hit := FindByKey(db.workflows, t.definition.kind, ChildKey(claim, t));
      CommitChild(db, claim, consumed, t, now).db == db.(workflows :=
        if hit.None? then WithChild(db.workflows, claim.id, t.id, t.definition, ChildKey(claim, t), now)
        else Attached(db.workflows, claim.id, Newest(db.workflows, hit.value), t.definition, now))
    ensures var hit := FindByKey(db.workflows, t.definition.kind, ChildKey(claim, t));
      hit.Some? ==>
        var existing := Newest(db.workflows, hit.value);
        && db.workflows[existing].identity.definition.version == t.definition.version
        && !Reaches(db.workflows, claim.id, existing)
  {
  }

  lemma RunChildKeeps(db: Db, claim: WorkflowClaim, consumed: nat, t: Transition, now: int)
    requires Inv(db) && CacheAgrees(db, claim, consumed) && t.RunChild?
    requires t.id !in db.workflows && t.id > claim.id
    requires CommitTransition(db, claim, consumed, t, now).Commit?
    ensures Inv(CommitTransition(db, claim, consumed, t, now).db)
  {
    ChildCases(db, claim, consumed, t, now);
    var hit := FindByKey(db.workflows, t.definition.kind, ChildKey(claim, t));
    if hit.None? {
      NewChildKeeps(db, claim.id, t.id, t.definition, ChildKey(claim, t), now);
    } else {
      AttachKeeps(db, claim.id, hit.value, t.definition, now);
    }
  }

  /** The key is free: the caller waits on the new child. */
  lemma NewChildKeeps(db: Db, w: nat, id: nat, definition: Definition, key: Key, now: int)
    requires Inv(db) && w in db.workflows && db.workflows[w].status.Running? && id !in db.workflows && w < id
    requires FindByKey(db.workflows, definition.kind, key).None?
    ensures Inv(db.(workflows := WithChild(db.workflows, w, id, definition, key, now)))
  {
    var r := db.workflows[w];
    assert WorkflowOk(r);
    InsertKeeps(db, id, definition, Some(key), Some(w), r.command + 1, now);
    var db1 := InsertWorkflow(db, id, NewWorkflow(definition, Some(key), Some(w), r.command + 1, None, now));
    WaitingRowOk(r, WaitingChild, OnChild(id), AskChild(definition));
    FreshNotReached(db.workflows, db1.workflows, w, id);
    ChildWaitKeeps(db1, w, Waiting(r, r, r.delivered + 1, WaitingChild, OnChild(id), AskChild(definition)), id);
  }

  lemma FreshNotReached(ws: map<nat, Workflow>, ws': map<nat, Workflow>, w: nat, id: nat)
    requires LinksOk(ws) && SameLinks(ws, ws') && w in ws && id !in ws
    ensures !Reaches(ws', w, id)
  {
    ReachesFrame(ws, ws', w, id);
    if Reaches(ws, w, id) { ReachesExisting(ws, w, id); }
  }

  /** The key exists: the caller waits on its newest generation, or gets the outcome at once. */
  lemma AttachKeeps(db: Db, w: nat, keyed: nat, definition: Definition, now: int)
    requires Inv(db) && w in db.workflows && db.workflows[w].status.Running?
    requires keyed in db.workflows && db.workflows[keyed].identity.definition.kind == definition.kind
    requires var existing := Newest(db.workflows, keyed);
      db.workflows[existing].identity.definition.version == definition.version && !Reaches(db.workflows, w, existing)
    ensures Inv(db.(workflows := Attached(db.workflows, w, Newest(db.workflows, keyed), definition, now)))
  {
    var r := db.workflows[w];
    var existing := Newest(db.workflows, keyed);
    NewestIsLast(db.workflows, keyed);
    assert WorkflowOk(r);
    var child := db.workflows[existing];
    assert child.identity.definition == definition;
    WaitingRowOk(r, WaitingChild, OnChild(existing), AskChild(definition));
    var r' := Waiting(r, r, r.delivered + 1, WaitingChild, OnChild(existing), AskChild(definition));
    if TerminalOutcome(child).Some? {
      TerminalAttachKeeps(db, w, r', existing, TerminalOutcome(child).value, now);
    } else {
      ChildWaitKeeps(db, w, r', existing);
    }
  }

  /** A terminal child answers its new waiter at once. */
  lemma TerminalAttachKeeps(db: Db, w: nat, r': Workflow, existing: nat, outcome: ChildOutcome, now: int)
    requires Inv(db) && w in db.workflows && db.workflows[w].status.Running? && existing in db.workflows
    requires db.workflows[existing].status.Terminal()
    requires WorkflowOk(r') && r'.status.WaitingChild? && r'.wait == OnChild(existing)
    requires r'.asked == AskChild(db.workflows[existing].identity.definition)
    requires r'.identity == db.workflows[w].identity && r'.command >= db.workflows[w].command
    ensures Inv(db.(workflows :=
      WakeParents(db.workflows[w := r'], existing, db.workflows[existing].identity.definition, outcome, now)))
  {
    var d := db.workflows[existing].identity.definition;
    WakeOnlyWaiter(db, w, r', existing, outcome, now);
    WokenOk(r', ChildDone(r'.command, d, outcome), now);
    CommandStepKeeps(db, db.(workflows := db.workflows[w := WokenByChild(r', d, outcome, now)]), w);
  }

  // ---- Restarts ---------------------------------------------------------------------

  /** What a restart of `w` as `id` does to the workflow rows: `w` is terminal, and a row
      that waited on it waits on nothing or on `id`. */
  ghost predicate Restarted(ws: map<nat, Workflow>, ws': map<nat, Workflow>, w: nat, id: nat) {
    && w in ws && w < id
    && WorkflowsGrow(ws, ws', id)
    && ws'[w].status.Terminal()
    && ws'[id].identity.restartedFrom == Some(w) && ws'[id].identity.key.None? && ws'[id].identity.parent.None?
    && ws'[id].identity.definition.kind == ws[w].identity.definition.kind
  }

  lemma RestartedKeepsLineage(ws: map<nat, Workflow>, ws': map<nat, Workflow>, w: nat, id: nat)
    requires LineageOk(ws) && Restarted(ws, ws', w, id) && Successor(ws, w).None?
    ensures LineageOk(ws')
  {
    assert Carried(ws[w], ws'[w], id);
    GrowKeepsLineage(ws, ws', id);
  }

  lemma RestartedKeepsReplacements(db: Db, db': Db, w: nat, id: nat)
    requires ReplacementsOk(db) && Restarted(db.workflows, db'.workflows, w, id) && ActivitiesSettle(db, db')
    ensures ReplacementsOk(db')
  {
    forall v | v in db.workflows
      ensures !db'.workflows[v].status.Terminal() && db'.workflows[v].wait.OnActivity? ==>
        db'.workflows[v] == db.workflows[v]
    {
      assert Carried(db.workflows[v], db'.workflows[v], id);
    }
    EvolveKeepsReplacements(db, db');
  }

  lemma SupersedeKeeps(db: Db, w: nat, id: nat, definition: Definition, now: int)
    requires Inv(db) && w in db.workflows && id !in db.workflows && w < id
    requires Successor(db.workflows, w).None? && definition.kind == db.workflows[w].identity.definition.kind
    ensures Inv(Supersede(db, w, id, definition, now))
  {
    SupersedeKeepsRows(db, w, id, definition, now);
    SupersedeRestarts(db, w, id, definition, now);
    RestartedKeepsLineage(db.workflows, Supersede(db, w, id, definition, now).workflows, w, id);
    RestartedKeepsReplacements(db, Supersede(db, w, id, definition, now), w, id);
  }

  lemma SupersedeRestarts(db: Db, w: nat, id: nat, definition: Definition, now: int)
    requires w in db.workflows && id !in db.workflows && w < id
    requires definition.kind == db.workflows[w].identity.definition.kind
    ensures Restarted(db.workflows, Supersede(db, w, id, definition, now).workflows, w, id)
  {
    if !db.workflows[w].status.Terminal() {
      SupersedeEnds(db, w, id, definition, now);
      EndRestarts(db, Supersede(db, w, id, definition, now), w, id, definition, now);
    }
  }

  /** The end of a generation `w` whose successor `id` was inserted first is a restart. */
  lemma EndRestarts(db: Db, db2: Db, w: nat, id: nat, definition: Definition, now: int)
    requires w in db.workflows && id !in db.workflows && w < id
    requires definition.kind == db.workflows[w].identity.definition.kind
    requires var db1 := InsertWorkflow(db, id, NewWorkflow(definition, None, None, 0, Some(w), now));
      HandsOver(db1, db2, w, id) || Ends(db1, db2, w, ChildFailed("child_superseded"), now)
    ensures Restarted(db.workflows, db2.workflows, w, id)
  {
    forall v | v in db.workflows ensures Carried(db.workflows[v], db2.workflows[v], id) {
    }
  }

  lemma SupersedeKeepsRows(db: Db, w: nat, id: nat, definition: Definition, now: int)
    requires RowsOk(db) && w in db.workflows && id !in db.workflows
    ensures RowsOk(Supersede(db, w, id, definition, now))
    ensures ActivitiesSettle(db, Supersede(db, w, id, definition, now))
  {
    var db1 := InsertWorkflow(db, id, NewWorkflow(definition, None, None, 0, Some(w), now));
    var db2 := Supersede(db, w, id, definition, now);
    InsertKeepsRows(db, id, definition, None, None, 0, Some(w), now);
    if !db.workflows[w].status.Terminal() {
      SupersedeEnds(db, w, id, definition, now);
      CancelledOwnRows(db1, db2, w, false, AttemptOperatorCancelled);
      EndsKeepsRows(db1, db2, w, ChildFailed("child_superseded"), now);
    }
  }

  lemma SupersedeEnds(db: Db, w: nat, id: nat, definition: Definition, now: int)
    requires Live(db.workflows, w) && id !in db.workflows
    ensures Ends(InsertWorkflow(db, id, NewWorkflow(definition, None, None, 0, Some(w), now)),
                 Supersede(db, w, id, definition, now), w, ChildFailed("child_superseded"), now)
    ensures Supersede(db, w, id, definition, now).workflows[w] == CancelledRow(db.workflows[w], false)
  {
  }

  lemma RestartKeeps(db: Db, w: nat, id: nat, version: int, order: seq<nat>, now: int)
    requires Inv(db) && Restart(db, w, id, version, order, now).Commit? && id !in db.workflows && w < id
    ensures Inv(Restart(db, w, id, version, order, now).db)
  {
    var definition := Definition(db.workflows[w].identity.definition.kind, version);
    SupersedeKeeps(db, w, id, definition, now);
    CancelAllKeeps(Supersede(db, w, id, definition, now), order, AttemptOperatorCancelled, now);
  }

  // ---- Recovery generations -----------------------------------------------------------

  /** `w` ends, and every row waiting on it waits on its successor `id` instead. */
  ghost predicate HandsOver(db: Db, db': Db, w: nat, id: nat) {
    && w in db.workflows && id in db.workflows && w != id
    && !db.workflows[w].status.Terminal() && !db.workflows[id].status.Terminal()
    && db.workflows[id].wait.NoWait?
    && db'.workflows.Keys == db.workflows.Keys
    && db'.workflows[w].status.Terminal()
    && db'.workflows[w].identity == db.workflows[w].identity
    && ActivitiesOf(db, db', w) && ApprovalsOf(db, db', w)
    && (forall v :: v in db.workflows && v != w ==>
          db'.workflows[v] == if db.workflows[v].WaitsOnChild(w)
                              then db.workflows[v].(wait := OnChild(id))
                              else db.workflows[v])
  }

  lemma HandsOverKeepsOther(db: Db, db': Db, w: nat, id: nat, v: nat)
    requires v in db.workflows && v != w && WorkflowOk(db.workflows[v]) && WaitOk(db, v)
    requires HandsOver(db, db', w, id)
    requires db.workflows[id].identity.definition == db.workflows[w].identity.definition
    ensures WorkflowOk(db'.workflows[v]) && WaitOk(db', v)
  {
    if !db.workflows[v].WaitsOnChild(w) { OtherWaitKept(db, db', w, v); }
  }

  lemma HandsOverKeepsRows(db: Db, db': Db, w: nat, id: nat)
    requires RowsOk(db) && HandsOver(db, db', w, id) && OwnRowsOk(db', w)
    requires db.workflows[id].identity.definition == db.workflows[w].identity.definition
    ensures RowsOk(db')
  {
    forall v | v in db'.workflows ensures WorkflowOk(db'.workflows[v]) && WaitOk(db', v) {
      if v != w {
        assert WaitOk(db, v) && WorkflowOk(db.workflows[v]);
        HandsOverKeepsOther(db, db', w, id, v);
      }
    }
    OtherActivitiesKept(db, db', w);
  }

  /** The activities of a blocked or failed row once its dead letters are cancelled. */
  lemma DeadLettersCancelled(db: Db, db': Db, w: nat)
    requires RowsOk(db) && w in db.workflows && db.workflows[w].status.StartRecoverable()
    requires db'.activities == CancelDeadLetters(db.activities, w)
    requires w in db'.workflows && WorkflowOk(db'.workflows[w]) && db'.workflows[w].status.Terminal()
    requires db'.workflows[w].command == db.workflows[w].command
    ensures OwnRowsOk(db', w) && ActivitiesSettle(db, db')
  {
    assert WorkflowOk(db.workflows[w]) && WaitOk(db, w);
    forall a | a in db.activities
      ensures ActivityOk(db'.activities[a]) && ActivityEvolves(db.activities[a], db'.activities[a])
    {
      assert ActivityOk(db.activities[a]);
      SameActivityOk(db.activities[a], db'.activities[a]);
    }
    forall a | a in db'.activities && db'.activities[a].origin.workflow == w ensures CoupledOk(db', a) {
      assert CoupledOk(db, a);
    }
  }

  lemma RecoverKeeps(db: Db, latest: nat, id: nat, definition: Definition, now: int)
    requires Inv(db) && latest in db.workflows && db.workflows[latest].status.StartRecoverable()
    requires id !in db.workflows && latest < id && Successor(db.workflows, latest).None?
    requires definition.kind == db.workflows[latest].identity.definition.kind
    ensures Inv(Recover(db, latest, id, definition, now))
  {
    RecoverKeepsRows(db, latest, id, definition, now);
    RecoverRestarts(db, latest, id, definition, now);
    RestartedKeepsLineage(db.workflows, Recover(db, latest, id, definition, now).workflows, latest, id);
    RestartedKeepsReplacements(db, Recover(db, latest, id, definition, now), latest, id);
  }

  lemma RecoverRestarts(db: Db, latest: nat, id: nat, definition: Definition, now: int)
    requires latest in db.workflows && db.workflows[latest].status.StartRecoverable()
    requires id !in db.workflows && latest < id
    requires definition.kind == db.workflows[latest].identity.definition.kind
    ensures Restarted(db.workflows, Recover(db, latest, id, definition, now).workflows, latest, id)
  {
    if db.workflows[latest].status.Blocked? {
      RecoverBlocked(db, latest, id, definition, now);
      EndRestarts(db, Recover(db, latest, id, definition, now), latest, id, definition, now);
    }
  }

  /** The rows after a blocked generation was replaced. */
  lemma RecoverBlocked(db: Db, latest: nat, id: nat, definition: Definition, now: int)
    requires latest in db.workflows && db.workflows[latest].status.Blocked? && id !in db.workflows
    ensures var db1 := InsertWorkflow(db, id, NewWorkflow(definition, None, None, 0, Some(latest), now));
      var db2 := Recover(db, latest, id, definition, now);
      && db2.workflows[latest] == CancelledRow(db.workflows[latest], false)
      && if definition.version == db.workflows[latest].identity.definition.version
         then HandsOver(db1, db2, latest, id)
         else Ends(db1, db2, latest, ChildFailed("child_superseded"), now)
  {
  }

  /** The activities after a recovery. */
  lemma RecoverActivities(db: Db, latest: nat, id: nat, definition: Definition, now: int)
    requires RowsOk(db) && latest in db.workflows && db.workflows[latest].status.StartRecoverable()
    requires id !in db.workflows
    ensures var db1 := InsertWorkflow(db, id, NewWorkflow(definition, None, None, 0, Some(latest), now));
      var db2 := Recover(db, latest, id, definition, now);
      RowsOk(db1) && OwnRowsOk(db2, latest) && ActivitiesSettle(db, db2)
  {
    InsertKeepsRows(db, id, definition, None, None, 0, Some(latest), now);
    assert WorkflowOk(db.workflows[latest]);
    if db.workflows[latest].status.Blocked? { RecoverBlocked(db, latest, id, definition, now); }
    DeadLettersCancelled(db, Recover(db, latest, id, definition, now), latest);
  }

  lemma RecoverKeepsRows(db: Db, latest: nat, id: nat, definition: Definition, now: int)
    requires RowsOk(db) && latest in db.workflows && db.workflows[latest].status.StartRecoverable()
    requires id !in db.workflows && definition.kind == db.workflows[latest].identity.definition.kind
    ensures RowsOk(Recover(db, latest, id, definition, now))
    ensures ActivitiesSettle(db, Recover(db, latest, id, definition, now))
  {
    var db1 := InsertWorkflow(db, id, NewWorkflow(definition, None, None, 0, Some(latest), now));
    var db2 := Recover(db, latest, id, definition, now);
    RecoverActivities(db, latest, id, definition, now);
    if db.workflows[latest].status.Failed? {
      LocalChangeKeepsRows(db1, db2, latest);
    } else {
      RecoverBlocked(db, latest, id, definition, now);
      if definition.version == db.workflows[latest].identity.definition.version {
        HandsOverKeepsRows(db1, db2, latest, id);
      } else {
        EndsKeepsRows(db1, db2, latest, ChildFailed("child_superseded"), now);
      }
    }
  }

  lemma RecoverableStartKeeps(db: Db, lookup: Option<nat>, id: nat, definition: Definition, key: Key,
                              order: seq<nat>, now: int)
    requires Inv(db) && id !in db.workflows
    requires lookup.Some? ==>
      lookup.value in db.workflows && HasKey(db.workflows[lookup.value], definition.kind, key)
      && Newest(db.workflows, lookup.value) < id
    ensures var (_, tx) := RecoverableStart(db, lookup, id, definition, key, order, now);
      tx.Commit? && Inv(tx.db)
  {
    if lookup.None? {
      StartKeeps(db, id, definition, Some(key), now);
    } else {
      var latest := Newest(db.workflows, lookup.value);
      NewestIsLast(db.workflows, lookup.value);
      if db.workflows[latest].status.StartRecoverable() {
        RecoverKeeps(db, latest, id, definition, now);
        CancelAllKeeps(Recover(db, latest, id, definition, now), order, AttemptApplicationCancelled, now);
      }
    }
  }
}
