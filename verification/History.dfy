/** How rows may change: deliveries, commands and attempts are only ever
    added, an end is final, and no command is answered twice. */
module History {
  import opened Rows
  import opened Transactions
  import opened Invariant
  import opened Evolution
  import opened Preservation
  import opened Commits
  import opened Lineage

  // ---- Workflow rows ----------------------------------------------------------------

  /** The command an event answers. */
  function CommandOf(e: Event): Option<nat> {
    match e
    case Started => None
    case Continued => None
    case ActivityDone(c, _) => Some(c)
    case ChildDone(c, _, _) => Some(c)
    case TimerFired(c) => Some(c)
    case ApprovalGiven(c) => Some(c)
    case ApprovalLapsed(c) => Some(c)
  }

  ghost predicate Below(e: Event, limit: int) {
    CommandOf(e).Some? ==> CommandOf(e).value < limit
  }

  ghost predicate AllBelow(inbox: seq<Delivery>, limit: int) {
    forall i :: 0 <= i < |inbox| ==> Below(inbox[i].event, limit)
  }

  /** Answers come in the order of the commands, at most one each; a row that waits has no answer yet. */
  ghost predicate AnsweredOnce(r: Workflow) {
    && (forall i, j :: 0 <= i < j < |r.inbox| && CommandOf(r.inbox[j].event).Some? ==>
          Below(r.inbox[i].event, CommandOf(r.inbox[j].event).value))
    && AllBelow(r.inbox, r.command + 1)
    && (!r.status.Terminal() && !r.wait.NoWait? ==> AllBelow(r.inbox, r.command))
  }

  /** What any transaction keeps of a row. */
  ghost predicate RowFollows(r: Workflow, r': Workflow) {
    && r'.identity == r.identity
    && r.command <= r'.command && r.delivered <= r'.delivered
    && |r.inbox| <= |r'.inbox| && r'.inbox[..|r.inbox|] == r.inbox
    && (r.status.Terminal() ==> r' == r)
    && (AnsweredOnce(r) ==> AnsweredOnce(r'))
  }

  ghost predicate Follows(ws: map<nat, Workflow>, ws': map<nat, Workflow>) {
    && (forall w :: w in ws ==> w in ws')
    && (forall w {:trigger RowFollows(ws[w], ws'[w])} :: w in ws ==> RowFollows(ws[w], ws'[w]))
    && (forall w :: w in ws' && w !in ws ==> AnsweredOnce(ws'[w]))
  }

  lemma FollowsTransitive(a: map<nat, Workflow>, b: map<nat, Workflow>, c: map<nat, Workflow>)
    requires Follows(a, b) && Follows(b, c)
    ensures Follows(a, c)
  {
    forall w | w in a ensures w in c && RowFollows(a[w], c[w]) {
      assert RowFollows(a[w], b[w]) && RowFollows(b[w], c[w]);
    }
    forall w | w in c && w !in a ensures AnsweredOnce(c[w]) {
      if w in b { assert RowFollows(b[w], c[w]); }
    }
  }

  lemma RowFollowsTransitive(a: Workflow, b: Workflow, c: Workflow)
    requires RowFollows(a, b) && RowFollows(b, c)
    ensures RowFollows(a, c)
  {
  }

  lemma Unchanged(r: Workflow)
    ensures RowFollows(r, r)
  {
  }

  /** The row keeps its inbox; if it waits now, it waited before for the same command, or it issued a new one. */
  lemma QuietFollows(r: Workflow, r': Workflow)
    requires !r.status.Terminal() && r'.identity == r.identity && r'.inbox == r.inbox && r.delivered <= r'.delivered
    requires || r'.command > r.command
             || (r'.command == r.command && (r'.status.Terminal() || r'.wait.NoWait? || !r.wait.NoWait?))
    ensures RowFollows(r, r')
  {
  }

  /** A waiting row gets the answer to its command and stops waiting. */
  lemma WokenFollows(r: Workflow, e: Event, now: int)
    requires !r.status.Terminal() && !r.wait.NoWait? && CommandOf(e) == Some(r.command)
    ensures RowFollows(r, Woken(r, e, now))
  {
    var r' := Woken(r, e, now);
    if AnsweredOnce(r) {
      forall i, j | 0 <= i < j < |r'.inbox| && CommandOf(r'.inbox[j].event).Some?
        ensures Below(r'.inbox[i].event, CommandOf(r'.inbox[j].event).value)
      {
        assert r'.inbox[i] == r.inbox[i];
        if j < |r.inbox| { assert r'.inbox[j] == r.inbox[j]; }
      }
    }
  }

  /** A running row continues without a command. */
  lemma ContinuedFollows(r: Workflow, maxStreak: nat, availableAt: int)
    requires r.status.Running? && r.wait.NoWait?
    ensures RowFollows(r, ContinuedRow(r, r, r.delivered + 1, maxStreak, availableAt))
  {
    var r' := ContinuedRow(r, r, r.delivered + 1, maxStreak, availableAt);
    if AnsweredOnce(r) {
      forall i, j | 0 <= i < j < |r'.inbox| && CommandOf(r'.inbox[j].event).Some?
        ensures Below(r'.inbox[i].event, CommandOf(r'.inbox[j].event).value)
      {
        assert r'.inbox[i] == r.inbox[i] && r'.inbox[j] == r.inbox[j];
      }
    }
  }

  // ---- Waiters ------------------------------------------------------------------------

  /** What may be told of a child with this status: a success exactly of one that succeeded, and nothing of
      one that has not ended. A cancelled child was cancelled, or superseded by a new generation. */
  ghost predicate OutcomeFits(status: WorkflowStatus, outcome: ChildOutcome) {
    match status
    case Succeeded => outcome == ChildSucceeded
    case Failed => outcome == ChildFailed("activation")
    case Cancelled => outcome == ChildFailed("child_cancelled") || outcome == ChildFailed("child_superseded")
    case Ready | Running | WaitingActivity | WaitingChild | Sleeping | WaitingApproval | Paused | Blocked => false
  }

  /** The waiter `r` received one event under its current command: how `child`, as it is stored, ended. */
  ghost predicate ToldOf(r: Workflow, r': Workflow, child: Workflow) {
    && |r'.inbox| == |r.inbox| + 1 && r'.inbox[|r.inbox|].event.ChildDone?
    && var outcome := r'.inbox[|r.inbox|].event.outcome;
    && var event := ChildDone(r.command, child.identity.definition, outcome);
    && OutcomeFits(child.status, outcome)
    && r' == r.(inbox := r.inbox + [Delivery(r.delivered + 1, event)],
                status := if r.status.Paused? then Paused else Ready,
                wait := NoWait,
                counters := r.counters.(availableAt := r'.counters.availableAt))
  }

  /** `w` waits on the child `c`. */
  ghost predicate Waits(ws: map<nat, Workflow>, w: nat, c: nat) {
    w in ws && c in ws && ws[w].WaitsOnChild(c)
  }

  /** A waiter is as it was, or ended, or was told. */
  ghost predicate Informed(ws: map<nat, Workflow>, ws': map<nat, Workflow>, w: nat, c: nat)
    requires w in ws && c in ws
  {
    && w in ws' && c in ws'
    && (ws'[w] == ws[w] || ws'[w].status.Terminal() || ToldOf(ws[w], ws'[w], ws'[c]))
  }

  ghost predicate Informs(ws: map<nat, Workflow>, ws': map<nat, Workflow>) {
    forall w, c {:trigger Informed(ws, ws', w, c)} :: Waits(ws, w, c) ==> Informed(ws, ws', w, c)
  }

  lemma InformsTransitive(a: map<nat, Workflow>, b: map<nat, Workflow>, c: map<nat, Workflow>)
    requires Informs(a, b) && Informs(b, c) && Follows(a, b) && Follows(b, c)
    requires forall w :: w in b && w in c && b[w].wait.NoWait? ==> c[w] == b[w] || c[w].status.Terminal()
    ensures Informs(a, c)
  {
    forall w, child | Waits(a, w, child) ensures Informed(a, c, w, child) {
      assert Informed(a, b, w, child);
      assert RowFollows(a[w], b[w]) && RowFollows(b[w], c[w]);
      assert RowFollows(a[child], b[child]) && RowFollows(b[child], c[child]);
      if b[w] == a[w] { assert Informed(b, c, w, child); }
    }
  }

  /** `g` is the generation that restarted `c`, under the same definition. */
  ghost predicate Replaces(ws: map<nat, Workflow>, g: nat, c: nat) {
    && g in ws && c in ws
    && ws[g].identity.restartedFrom == Some(c) && ws[g].identity.definition == ws[c].identity.definition
  }

  /** What may happen to a waiter of `c` in one transaction: besides, it may be paused or resumed, or
      handed to the generation that replaces `c`. */
  ghost predicate Served(ws: map<nat, Workflow>, ws': map<nat, Workflow>, w: nat, c: nat)
    requires w in ws && c in ws
  {
    && w in ws' && c in ws'
    && var r, r' := ws[w], ws'[w];
       || r'.status.Terminal()
       || ToldOf(r, r', ws'[c])
       || r' == r.(status := r'.status, counters := r'.counters, lease := r'.lease)
       || (r'.wait.OnChild? && r' == r.(wait := r'.wait) && Replaces(ws', r'.wait.child, c))
  }

  ghost predicate Serves(ws: map<nat, Workflow>, ws': map<nat, Workflow>) {
    && Follows(ws, ws')
    && (forall w, c {:trigger Served(ws, ws', w, c)} :: Waits(ws, w, c) ==> Served(ws, ws', w, c))
  }

  lemma InformsServes(ws: map<nat, Workflow>, ws': map<nat, Workflow>)
    requires Follows(ws, ws') && Informs(ws, ws')
    ensures Serves(ws, ws')
  {
    forall w, c | Waits(ws, w, c) ensures Served(ws, ws', w, c) {
      assert Informed(ws, ws', w, c);
    }
  }

  // ---- Shapes of transactions ------------------------------------------------------------

  /** One row changes, and it was no waiter, or ended, or kept its wait. */
  lemma OneRowServes(ws: map<nat, Workflow>, w: nat, r': Workflow)
    requires w in ws && RowFollows(ws[w], r')
    requires || !ws[w].wait.OnChild? || r'.status.Terminal()
             || r' == ws[w].(status := r'.status, counters := r'.counters, lease := r'.lease)
    ensures Serves(ws, ws[w := r'])
  {
    forall v | v in ws ensures RowFollows(ws[v], ws[w := r'][v]) { Unchanged(ws[v]); }
  }

  lemma SameServes(ws: map<nat, Workflow>)
    ensures Serves(ws, ws)
  {
    forall v | v in ws ensures RowFollows(ws[v], ws[v]) { Unchanged(ws[v]); }
  }

  lemma InsertServes(ws: map<nat, Workflow>, id: nat, r: Workflow)
    requires id !in ws && AnsweredOnce(r)
    ensures Follows(ws, ws[id := r]) && Informs(ws, ws[id := r]) && Serves(ws, ws[id := r])
  {
    forall v | v in ws ensures RowFollows(ws[v], ws[id := r][v]) { Unchanged(ws[v]); }
  }

  /** A row ends and its waiters are told. */
  lemma EndsFollows(db: Db, db': Db, w: nat, outcome: ChildOutcome, now: int)
    requires Ends(db, db', w, outcome, now) && RowFollows(db.workflows[w], db'.workflows[w])
    requires OutcomeFits(db'.workflows[w].status, outcome)
    ensures Follows(db.workflows, db'.workflows) && Informs(db.workflows, db'.workflows)
    ensures forall v :: v in db.workflows && db.workflows[v].wait.NoWait? ==>
      db'.workflows[v] == db.workflows[v] || db'.workflows[v].status.Terminal()
  {
    forall v | v in db.workflows ensures RowFollows(db.workflows[v], db'.workflows[v]) {
      if v != w {
        Unchanged(db.workflows[v]);
        if db.workflows[v].WaitsOnChild(w) {
          WokenFollows(db.workflows[v],
                       ChildDone(db.workflows[v].command, db.workflows[w].identity.definition, outcome), now);
        }
      }
    }
    forall v, c | Waits(db.workflows, v, c) ensures Informed(db.workflows, db'.workflows, v, c) {
    }
  }

  lemma {:induction false} CancelAllFollows(db: Db, order: seq<nat>, outcome: AttemptOutcome, now: int)
    ensures var ws' := CancelAll(db, order, outcome, now).workflows;
      && Follows(db.workflows, ws') && Informs(db.workflows, ws')
      && (forall v :: v in db.workflows && db.workflows[v].wait.NoWait? ==>
            ws'[v] == db.workflows[v] || ws'[v].status.Terminal())
    decreases |order|
  {
    if order == [] {
      SameServes(db.workflows);
    } else if Live(db.workflows, order[0]) {
      var db1 := CancelOne(db, order[0], outcome, now);
      CancelOneEnds(db, order[0], outcome, now);
      QuietFollows(db.workflows[order[0]], CancelledRow(db.workflows[order[0]], true));
      EndsFollows(db, db1, order[0], ChildFailed("child_cancelled"), now);
      CancelAllFollows(db1, order[1..], outcome, now);
      ThenFollows(db.workflows, db1.workflows, CancelAll(db1, order[1..], outcome, now).workflows);
    } else {
      CancelAllFollows(db, order[1..], outcome, now);
    }
  }

  lemma CancelOneCancels(db: Db, w: nat, outcome: AttemptOutcome, now: int, v: nat)
    requires Live(db.workflows, w) && v in db.workflows
    ensures var ws' := CancelOne(db, w, outcome, now).workflows;
      && v in ws' && (db.workflows[v].status.Terminal() ==> ws'[v] == db.workflows[v])
      && (!db.workflows[v].status.Terminal() ==> !ws'[v].status.Terminal() || ws'[v].status.Cancelled?)
  {
  }

  /** A row that ends in a cascade ends as cancelled, and a row that has ended stays as it is. */
  lemma {:induction false} CancelAllCancels(db: Db, order: seq<nat>, outcome: AttemptOutcome, now: int, v: nat)
    requires v in db.workflows
    ensures var ws' := CancelAll(db, order, outcome, now).workflows;
      && (db.workflows[v].status.Terminal() ==> ws'[v] == db.workflows[v])
      && (!db.workflows[v].status.Terminal() ==> !ws'[v].status.Terminal() || ws'[v].status.Cancelled?)
    decreases |order|
  {
    if order != [] {
      if Live(db.workflows, order[0]) {
        CancelOneCancels(db, order[0], outcome, now, v);
        CancelAllCancels(CancelOne(db, order[0], outcome, now), order[1..], outcome, now, v);
      } else {
        CancelAllCancels(db, order[1..], outcome, now, v);
      }
    }
  }

  lemma ThenFollows(a: map<nat, Workflow>, b: map<nat, Workflow>, c: map<nat, Workflow>)
    requires Follows(a, b) && Informs(a, b) && Follows(b, c) && Informs(b, c)
    requires forall w :: w in a && a[w].wait.NoWait? ==> b[w] == a[w] || b[w].status.Terminal()
    requires forall w :: w in b && b[w].wait.NoWait? ==> w in c && (c[w] == b[w] || c[w].status.Terminal())
    ensures Follows(a, c) && Informs(a, c)
    ensures forall w :: w in a && a[w].wait.NoWait? ==> c[w] == a[w] || c[w].status.Terminal()
  {
    FollowsTransitive(a, b, c);
    InformsTransitive(a, b, c);
    forall w | w in a && a[w].wait.NoWait? ensures c[w] == a[w] || c[w].status.Terminal() {
      assert RowFollows(a[w], b[w]) && RowFollows(b[w], c[w]);
    }
  }

  // ---- Transactions ------------------------------------------------------------------------

  lemma NewRowAnswered(definition: Definition, key: Option<Key>, parent: Option<nat>, parentCommand: nat,
                       restartedFrom: Option<nat>, availableAt: int)
    ensures AnsweredOnce(NewWorkflow(definition, key, parent, parentCommand, restartedFrom, availableAt))
  {
  }

  lemma StartServes(db: Db, id: nat, definition: Definition, key: Option<Key>, availableAt: int)
    requires id !in db.workflows
    ensures Serves(db.workflows, Start(db, id, definition, key, availableAt).db.workflows)
  {
    SameServes(db.workflows);
    NewRowAnswered(definition, key, None, 0, None, availableAt);
    InsertServes(db.workflows, id, NewWorkflow(definition, key, None, 0, None, availableAt));
  }

  lemma CancelServes(db: Db, w: nat, order: seq<nat>, outcome: AttemptOutcome, now: int)
    requires Cancel(db, w, order, outcome, now).Commit?
    ensures Serves(db.workflows, Cancel(db, w, order, outcome, now).db.workflows)
  {
    var db1 := CancelOne(db, w, outcome, now);
    CancelOneEnds(db, w, outcome, now);
    QuietFollows(db.workflows[w], CancelledRow(db.workflows[w], true));
    EndsFollows(db, db1, w, ChildFailed("child_cancelled"), now);
    CancelAllFollows(db1, order, outcome, now);
    ThenFollows(db.workflows, db1.workflows, CancelAll(db1, order, outcome, now).workflows);
    InformsServes(db.workflows, CancelAll(db1, order, outcome, now).workflows);
  }

  /** A new generation `id` of `w` is inserted, `w` ends and its waiters are told. */
  lemma EndWithSuccessorFollows(db: Db, db2: Db, w: nat, id: nat, definition: Definition, now: int)
    requires Live(db.workflows, w) && id !in db.workflows
    requires Ends(InsertWorkflow(db, id, NewWorkflow(definition, None, None, 0, Some(w), now)),
                  db2, w, ChildFailed("child_superseded"), now)
    requires db2.workflows[w] == CancelledRow(db.workflows[w], false)
    ensures Follows(db.workflows, db2.workflows) && Informs(db.workflows, db2.workflows)
  {
    var db1 := InsertWorkflow(db, id, NewWorkflow(definition, None, None, 0, Some(w), now));
    NewRowAnswered(definition, None, None, 0, Some(w), now);
    InsertServes(db.workflows, id, db1.workflows[id]);
    QuietFollows(db.workflows[w], CancelledRow(db.workflows[w], false));
    EndsFollows(db1, db2, w, ChildFailed("child_superseded"), now);
    ThenFollows(db.workflows, db1.workflows, db2.workflows);
  }

  lemma RestartServes(db: Db, w: nat, id: nat, version: int, order: seq<nat>, now: int)
    requires Restart(db, w, id, version, order, now).Commit? && id !in db.workflows
    ensures Serves(db.workflows, Restart(db, w, id, version, order, now).db.workflows)
  {
    var definition := Definition(db.workflows[w].identity.definition.kind, version);
    var db1 := Supersede(db, w, id, definition, now);
    if db.workflows[w].status.Terminal() {
      NewRowAnswered(definition, None, None, 0, Some(w), now);
      InsertServes(db.workflows, id, db1.workflows[id]);
    } else {
      SupersedeEnds(db, w, id, definition, now);
      EndWithSuccessorFollows(db, db1, w, id, definition, now);
      ThenCancelAllServes(db, db1, order, AttemptOperatorCancelled, now);
    }
  }

  lemma ThenCancelAllServes(db: Db, db1: Db, order: seq<nat>, outcome: AttemptOutcome, now: int)
    requires Follows(db.workflows, db1.workflows) && Informs(db.workflows, db1.workflows)
    ensures Serves(db.workflows, CancelAll(db1, order, outcome, now).workflows)
  {
    var ws' := CancelAll(db1, order, outcome, now).workflows;
    CancelAllFollows(db1, order, outcome, now);
    FollowsTransitive(db.workflows, db1.workflows, ws');
    InformsTransitive(db.workflows, db1.workflows, ws');
    InformsServes(db.workflows, ws');
  }

  /** The waiters of `w` are handed to `id`. */
  lemma HandsOverServes(db: Db, db2: Db, w: nat, id: nat, definition: Definition, now: int)
    requires Live(db.workflows, w) && id !in db.workflows && definition == db.workflows[w].identity.definition
    requires HandsOver(InsertWorkflow(db, id, NewWorkflow(definition, None, None, 0, Some(w), now)), db2, w, id)
    requires db2.workflows[w] == CancelledRow(db.workflows[w], false)
    ensures Serves(db.workflows, db2.workflows)
    ensures forall v, c :: Waits(db.workflows, v, c) ==> HandedOrSame(db.workflows, db2.workflows, v, c)
  {
    NewRowAnswered(definition, None, None, 0, Some(w), now);
    forall v | v in db.workflows ensures RowFollows(db.workflows[v], db2.workflows[v]) {
      Unchanged(db.workflows[v]);
      if v == w {
        QuietFollows(db.workflows[w], db2.workflows[w]);
      } else if db.workflows[v].WaitsOnChild(w) {
        QuietFollows(db.workflows[v], db2.workflows[v]);
      }
    }
    assert Follows(db.workflows, db2.workflows);
    forall v, c | Waits(db.workflows, v, c) ensures HandedOrSame(db.workflows, db2.workflows, v, c) {
    }
  }

  ghost predicate HandedOrSame(ws: map<nat, Workflow>, ws': map<nat, Workflow>, w: nat, c: nat)
    requires w in ws && c in ws
  {
    && w in ws' && c in ws'
    && (|| ws'[w] == ws[w]
        || ws'[w].status.Terminal()
        || (&& ws'[w].wait.OnChild? && ws'[w] == ws[w].(wait := ws'[w].wait) && Replaces(ws', ws'[w].wait.child, c)
            && ws'[c].status.Cancelled? && !ws'[ws'[w].wait.child].status.Terminal()))
  }

  lemma HandedThenCancelAllServes(db: Db, db1: Db, order: seq<nat>, outcome: AttemptOutcome, now: int)
    requires Follows(db.workflows, db1.workflows)
    requires forall v, c :: Waits(db.workflows, v, c) ==> HandedOrSame(db.workflows, db1.workflows, v, c)
    ensures Serves(db.workflows, CancelAll(db1, order, outcome, now).workflows)
  {
    var ws, ws1, ws' := db.workflows, db1.workflows, CancelAll(db1, order, outcome, now).workflows;
    CancelAllFollows(db1, order, outcome, now);
    FollowsTransitive(ws, ws1, ws');
    forall g | g in ws1 && !ws1[g].status.Terminal() && ws'[g].status.Terminal() ensures ws'[g].status.Cancelled? {
      CancelAllCancels(db1, order, outcome, now, g);
    }
    forall v, c | Waits(ws, v, c) ensures Served(ws, ws', v, c) {
      HandedThenInformed(ws, ws1, ws', v, c);
    }
  }

  lemma HandedThenInformed(ws: map<nat, Workflow>, ws1: map<nat, Workflow>, ws': map<nat, Workflow>, v: nat, c: nat)
    requires Waits(ws, v, c) && HandedOrSame(ws, ws1, v, c)
    requires Follows(ws, ws1) && Follows(ws1, ws') && Informs(ws1, ws')
    requires forall g :: g in ws1 && !ws1[g].status.Terminal() && ws'[g].status.Terminal() ==> ws'[g].status.Cancelled?
    ensures Served(ws, ws', v, c)
  {
    assert RowFollows(ws[c], ws1[c]) && RowFollows(ws1[c], ws'[c]) && RowFollows(ws1[v], ws'[v]);
    if ws1[v] == ws[v] {
      assert Informed(ws1, ws', v, c);
    } else if !ws1[v].status.Terminal() {
      var g := ws1[v].wait.child;
      assert Waits(ws1, v, g) && Informed(ws1, ws', v, g);
      assert RowFollows(ws1[g], ws'[g]);
    }
  }

  lemma RecoverableStartServes(db: Db, lookup: Option<nat>, id: nat, definition: Definition, key: Key,
                               order: seq<nat>, now: int)
    requires Inv(db) && id !in db.workflows
    requires lookup.Some? ==> lookup.value in db.workflows && HasKey(db.workflows[lookup.value], definition.kind, key)
    ensures Serves(db.workflows, RecoverableStart(db, lookup, id, definition, key, order, now).1.db.workflows)
  {
    if lookup.None? {
      StartServes(db, id, definition, Some(key), now);
    } else {
      var latest := Newest(db.workflows, lookup.value);
      NewestIsLast(db.workflows, lookup.value);
      if db.workflows[latest].status.StartRecoverable() {
        RecoverServes(db, latest, id, definition, order, now);
      } else {
        SameServes(db.workflows);
      }
    }
  }

  lemma RecoverServes(db: Db, latest: nat, id: nat, definition: Definition, order: seq<nat>, now: int)
    requires latest in db.workflows && db.workflows[latest].status.StartRecoverable() && id !in db.workflows
    requires definition.kind == db.workflows[latest].identity.definition.kind
    ensures var db1 := Recover(db, latest, id, definition, now);
      Serves(db.workflows,
             (if db.workflows[latest].status.Blocked?
              then CancelAll(db1, order, AttemptApplicationCancelled, now)
              else db1).workflows)
  {
    var db1 := Recover(db, latest, id, definition, now);
    if db.workflows[latest].status.Blocked? {
      RecoverBlocked(db, latest, id, definition, now);
      if definition.version == db.workflows[latest].identity.definition.version {
        HandsOverServes(db, db1, latest, id, definition, now);
        HandedThenCancelAllServes(db, db1, order, AttemptApplicationCancelled, now);
      } else {
        EndWithSuccessorFollows(db, db1, latest, id, definition, now);
        ThenCancelAllServes(db, db1, order, AttemptApplicationCancelled, now);
      }
    } else {
      NewRowAnswered(definition, None, None, 0, Some(latest), now);
      InsertServes(db.workflows, id, db1.workflows[id]);
    }
  }

  /** Pause, resume, lease recovery, claims and timers touch one row. */
  lemma ControlServes(db: Db, w: nat, now: int)
    requires Inv(db)
    ensures Pause(db, w).Commit? ==> Serves(db.workflows, Pause(db, w).db.workflows)
    ensures Resume(db, w, now).Commit? ==> Serves(db.workflows, Resume(db, w, now).db.workflows)
    ensures RecoverLease(db, w, now).Commit? ==> Serves(db.workflows, RecoverLease(db, w, now).db.workflows)
    ensures FireTimer(db, w, now).Commit? ==> Serves(db.workflows, FireTimer(db, w, now).db.workflows)
  {
    if w in db.workflows {
      var r := db.workflows[w];
      assert WorkflowOk(r);
      if Pause(db, w).Commit? { OneStepServes(db.workflows, w, Pause(db, w).db.workflows[w]); }
      if Resume(db, w, now).Commit? { OneStepServes(db.workflows, w, Resume(db, w, now).db.workflows[w]); }
      if RecoverLease(db, w, now).Commit? { OneStepServes(db.workflows, w, RecoverLease(db, w, now).db.workflows[w]); }
      if FireTimer(db, w, now).Commit? {
        WokenFollows(r, TimerFired(r.command), now);
        OneRowServes(db.workflows, w, Woken(r, TimerFired(r.command), now));
      }
    }
  }

  lemma OneStepServes(ws: map<nat, Workflow>, w: nat, r': Workflow)
    requires w in ws && !ws[w].status.Terminal()
    requires r' == ws[w].(status := r'.status, counters := r'.counters, lease := r'.lease)
    ensures Serves(ws, ws[w := r'])
  {
    QuietFollows(ws[w], r');
    OneRowServes(ws, w, r');
  }

  lemma ClaimServes(db: Db, w: nat, token: nat, leaseMillis: int, now: int)
    requires ClaimWorkflow(db, w, token, leaseMillis, now).Commit?
    ensures Serves(db.workflows, ClaimWorkflow(db, w, token, leaseMillis, now).db.workflows)
  {
    OneStepServes(db.workflows, w, ClaimedRow(db.workflows[w], token, now + leaseMillis));
  }

  lemma ApprovalServes(db: Db, p: nat, now: int)
    requires Inv(db)
    ensures ExpireApproval(db, p, now).Commit? ==> Serves(db.workflows, ExpireApproval(db, p, now).db.workflows)
    ensures ResolveApproval(db, p, now).Commit? ==> Serves(db.workflows, ResolveApproval(db, p, now).db.workflows)
  {
    SameServes(db.workflows);
    if p in db.approvals && db.approvals[p].workflow in db.workflows && ApprovalMatches(db, p) {
      var w := db.approvals[p].workflow;
      var r, command := db.workflows[w], db.approvals[p].command;
      assert WaitOk(db, w);
      WokenFollows(r, ApprovalLapsed(command), now);
      WokenFollows(r, ApprovalGiven(command), now);
      OneRowServes(db.workflows, w, Woken(r, ApprovalLapsed(command), now));
      OneRowServes(db.workflows, w, Woken(r, ApprovalGiven(command), now));
    }
  }

  lemma RetryServes(db: Db, a: nat, id: nat, spec: ActivitySpec, now: int)
    requires Retry(db, a, id, spec, now).Commit?
    ensures Serves(db.workflows, Retry(db, a, id, spec, now).db.workflows)
  {
    var w := db.activities[a].origin.workflow;
    var r' := Retry(db, a, id, spec, now).db.workflows[w];
    QuietFollows(db.workflows[w], r');
    OneRowServes(db.workflows, w, r');
  }

  lemma FinishServes(db: Db, claim: ActivityClaim, outcome: HandlerOutcome, now: int)
    requires Inv(db) && Finish(db, claim, outcome, now).Commit? && ClaimAgrees(db, claim)
    ensures Serves(db.workflows, Finish(db, claim, outcome, now).db.workflows)
  {
    var db' := Finish(db, claim, outcome, now).db;
    var w := claim.workflow;
    var r := db.workflows[w];
    SameServes(db.workflows);
    assert WaitOk(db, w);
    if db'.workflows != db.workflows {
      if outcome.HandlerSucceeded? {
        WokenFollows(r, ActivityDone(claim.command, claim.definition), now);
        OneRowServes(db.workflows, w, Woken(r, ActivityDone(claim.command, claim.definition), now));
      } else {
        OneStepServes(db.workflows, w, r.(status := Blocked));
      }
    }
  }

  lemma OpServes(db: Db, op: RowOp, now: int)
    requires OpEnabled(db, op, now)
    ensures Serves(db.workflows, ApplyOp(db, op, now).workflows)
  {
    SameServes(db.workflows);
    if ApplyOp(db, op, now).workflows != db.workflows {
      OneStepServes(db.workflows, op.workflow, db.workflows[op.workflow].(status := Blocked));
    }
  }

  // ---- Transitions ---------------------------------------------------------------------------

  lemma FailureServes(db: Db, claim: WorkflowClaim, configuredMax: nat, availableAt: int, now: int)
    requires ActivationFailure(db, claim, configuredMax, availableAt, now).Commit?
    ensures Serves(db.workflows, ActivationFailure(db, claim, configuredMax, availableAt, now).db.workflows)
  {
    var r := db.workflows[claim.id];
    var attempt := r.counters.activationAttempts + 1;
    var counters := r.counters.(activationAttempts := attempt, availableAt := availableAt);
    var limit := if r.counters.maxActivation < configuredMax then r.counters.maxActivation else configuredMax;
    var ws' := ActivationFailure(db, claim, configuredMax, availableAt, now).db.workflows;
    if attempt >= limit {
      var ended := r.(status := Failed, lease := None, counters := counters);
      assert ws' == WakeParents(db.workflows[claim.id := ended], claim.id, r.identity.definition,
                                ChildFailed("activation"), now);
      EndServes(db, claim.id, ended, ChildFailed("activation"), now);
    } else {
      var ready := r.(status := Ready, lease := None, counters := counters);
      assert ws' == db.workflows[claim.id := ready];
      OneStepServes(db.workflows, claim.id, ready);
    }
  }

  lemma EndServes(db: Db, w: nat, r': Workflow, outcome: ChildOutcome, now: int)
    requires Live(db.workflows, w) && r'.status.Terminal() && r'.identity == db.workflows[w].identity
    requires r'.command == db.workflows[w].command && r'.inbox == db.workflows[w].inbox
    requires r'.delivered >= db.workflows[w].delivered && OutcomeFits(r'.status, outcome)
    ensures Serves(db.workflows, WakeParents(db.workflows[w := r'], w, r'.identity.definition, outcome, now))
  {
    var db' := db.(workflows := WakeParents(db.workflows[w := r'], w, r'.identity.definition, outcome, now));
    assert db'.workflows[w] == r';
    QuietFollows(db.workflows[w], r');
    EndsFollows(db, db', w, outcome, now);
    InformsServes(db.workflows, db'.workflows);
  }

  /** A running row issues a command. */
  lemma WaitingServes(db: Db, w: nat, r': Workflow)
    requires w in db.workflows && db.workflows[w].status.Running? && WorkflowOk(db.workflows[w])
    requires r'.identity == db.workflows[w].identity && r'.inbox == db.workflows[w].inbox
    requires r'.command == db.workflows[w].command + 1 && r'.delivered == db.workflows[w].delivered + 1
    ensures Serves(db.workflows, db.workflows[w := r'])
  {
    QuietFollows(db.workflows[w], r');
    OneRowServes(db.workflows, w, r');
  }

  lemma TransitionServes(db: Db, claim: WorkflowClaim, consumed: nat, t: Transition, now: int)
    requires Inv(db) && Fenced(db, claim) && CacheAgrees(db, claim, consumed) && !t.RunChild?
    ensures Serves(db.workflows, CommitTransition(db, claim, consumed, t, now).db.workflows)
  {
    var w := claim.id;
    var r := db.workflows[w];
    assert WorkflowOk(r);
    var ws' := CommitTransition(db, claim, consumed, t, now).db.workflows;
    match t
    case Continue(maxStreak, availableAt) =>
      ContinuedFollows(r, maxStreak, availableAt);
      OneRowServes(db.workflows, w, ContinuedRow(r, r, consumed, maxStreak, availableAt));
    case Complete =>
      var ended := Stepped(r, consumed).(status := Succeeded);
      assert ws' == WakeParents(db.workflows[w := ended], w, r.identity.definition, ChildSucceeded, now);
      EndServes(db, w, ended, ChildSucceeded, now);
    case SleepUntil(_) => WaitingServes(db, w, ws'[w]);
    case WaitForApproval(_, _) => WaitingServes(db, w, ws'[w]);
    case RunActivity(_, _, _) => WaitingServes(db, w, ws'[w]);
  }

  lemma ChildServes(db: Db, claim: WorkflowClaim, consumed: nat, t: Transition, now: int)
    requires Inv(db) && CacheAgrees(db, claim, consumed) && t.RunChild? && t.id !in db.workflows && t.id != claim.id
    requires CommitChild(db, claim, consumed, t, now).Commit?
    ensures Serves(db.workflows, CommitChild(db, claim, consumed, t, now).db.workflows)
  {
    var w := claim.id;
    ChildCases(db, claim, consumed, t, now);
    var key := ChildKey(claim, t);
    var hit := FindByKey(db.workflows, t.definition.kind, key);
    assert WorkflowOk(db.workflows[w]);
    if hit.None? {
      NewChildServes(db, w, t.id, t.definition, key, now);
    } else {
      AttachServes(db, w, Newest(db.workflows, hit.value), t.definition, now);
    }
  }

  lemma NewChildServes(db: Db, w: nat, id: nat, definition: Definition, key: Key, now: int)
    requires w in db.workflows && db.workflows[w].status.Running? && db.workflows[w].wait.NoWait? && id !in db.workflows
    ensures Serves(db.workflows, WithChild(db.workflows, w, id, definition, key, now))
  {
    var r := db.workflows[w];
    var r' := Waiting(r, r, r.delivered + 1, WaitingChild, OnChild(id), AskChild(definition));
    NewRowAnswered(definition, Some(key), Some(w), r.command + 1, None, now);
    QuietFollows(r, r');
    ChildInsertServes(db.workflows, w, r', id, NewWorkflow(definition, Some(key), Some(w), r.command + 1, None, now));
  }

  lemma ChildInsertServes(ws: map<nat, Workflow>, w: nat, r': Workflow, id: nat, child: Workflow)
    requires w in ws && id !in ws && RowFollows(ws[w], r') && ws[w].wait.NoWait? && AnsweredOnce(child)
    ensures Serves(ws, ws[id := child][w := r'])
  {
    forall v | v in ws ensures RowFollows(ws[v], ws[id := child][w := r'][v]) { Unchanged(ws[v]); }
  }

  lemma AttachServes(db: Db, w: nat, existing: nat, definition: Definition, now: int)
    requires Inv(db) && w in db.workflows && existing in db.workflows && db.workflows[w].status.Running?
    requires db.workflows[w].wait.NoWait?
    ensures Serves(db.workflows, Attached(db.workflows, w, existing, definition, now))
  {
    var r, child := db.workflows[w], db.workflows[existing];
    var r' := Waiting(r, r, r.delivered + 1, WaitingChild, OnChild(existing), AskChild(definition));
    QuietFollows(r, r');
    var ws' := Attached(db.workflows, w, existing, definition, now);
    if TerminalOutcome(child).Some? {
      var outcome := TerminalOutcome(child).value;
      TerminalAttachServes(db, w, r', existing, outcome, now);
      assert ws' == WakeParents(db.workflows[w := r'], existing, child.identity.definition, outcome, now);
    } else {
      OneRowServes(db.workflows, w, r');
      assert ws' == db.workflows[w := r'];
    }
  }

  lemma TerminalAttachServes(db: Db, w: nat, r': Workflow, existing: nat, outcome: ChildOutcome, now: int)
    requires Inv(db) && w in db.workflows && db.workflows[w].wait.NoWait? && existing in db.workflows
    requires db.workflows[existing].status.Terminal() && r'.WaitsOnChild(existing)
    requires RowFollows(db.workflows[w], r') && !db.workflows[w].status.Terminal()
    ensures Serves(db.workflows,
      WakeParents(db.workflows[w := r'], existing, db.workflows[existing].identity.definition, outcome, now))
  {
    var d := db.workflows[existing].identity.definition;
    WakeOnlyWaiter(db, w, r', existing, outcome, now);
    WokenFollows(r', ChildDone(r'.command, d, outcome), now);
    RowFollowsTransitive(db.workflows[w], r', WokenByChild(r', d, outcome, now));
    OneRowServes(db.workflows, w, WokenByChild(r', d, outcome, now));
  }
}
