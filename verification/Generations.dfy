/** Parents, generations and the cancel cascade: which row is newest, who is an
    ancestor, and what a cancel ends. */
module Generations {
  import opened Rows
  import opened Transactions
  import opened Invariant
  import opened Evolution
  import opened Commits
  import opened Lineage
  import opened System
  import opened Runs
  import opened Safety

  // ---- Ancestors ------------------------------------------------------------------------

  /** `path` leads from its first row to its last along parent links, else restart links. */
  ghost predicate UpwardPath(ws: map<nat, Workflow>, path: seq<nat>) {
    && |path| > 0
    && (forall k :: 0 <= k < |path| - 1 ==> path[k] in ws && ws[path[k]].identity.Above() == Some(path[k + 1]))
  }

  /** The ancestor walk answers for every row the links lead to, and for no other. */
  lemma {:induction false} WalkFindsAncestors(ws: map<nat, Workflow>, w: nat, target: nat)
    requires LinksOk(ws) && w in ws
    ensures Reaches(ws, w, target) <==>
      exists path :: UpwardPath(ws, path) && path[0] == w && path[|path| - 1] == target
    decreases w
  {
    assert LinkOk(ws, w);
    var above := ws[w].identity.Above();
    if w == target {
      assert UpwardPath(ws, [w]);
    } else {
      if above.Some? { WalkFindsAncestors(ws, above.value, target); }
      if Reaches(ws, w, target) {
        var path :| UpwardPath(ws, path) && path[0] == above.value && path[|path| - 1] == target;
        ExtendPath(ws, w, path);
      }
      if path :| UpwardPath(ws, path) && path[0] == w && path[|path| - 1] == target {
        assert above == Some(path[1]);
        assert UpwardPath(ws, path[1..]) by {
          forall k | 0 <= k < |path[1..]| - 1
            ensures path[1..][k] in ws && ws[path[1..][k]].identity.Above() == Some(path[1..][k + 1])
          {
            assert path[1..][k] == path[k + 1];
          }
        }
        assert path[1..][0] == above.value && path[1..][|path[1..]| - 1] == target;
      }
    }
  }

  lemma ExtendPath(ws: map<nat, Workflow>, w: nat, path: seq<nat>)
    requires w in ws && UpwardPath(ws, path) && ws[w].identity.Above() == Some(path[0])
    ensures UpwardPath(ws, [w] + path)
    ensures ([w] + path)[|path|] == path[|path| - 1]
  {
    var longer := [w] + path;
    forall k | 0 <= k < |longer| - 1 ensures longer[k] in ws && ws[longer[k]].identity.Above() == Some(longer[k + 1]) {
      if k > 0 { assert longer[k] == path[k - 1] && longer[k + 1] == path[k]; }
    }
  }

  // ---- Generations ------------------------------------------------------------------------

  /** In every state of every run, restart chains are linear, ids increase along them, only the newest
      generation can be live, and it alone has no successor. */
  lemma ChainsAreLinear(states: seq<Sys>, steps: seq<Step>, i: nat, w: nat, m: nat, n: nat)
    requires Run(states, steps) && i < |states| && w in states[i].db.workflows
    requires Generation(states[i].db.workflows, w, m) && Generation(states[i].db.workflows, w, n)
    ensures var ws := states[i].db.workflows;
      && (Generation(ws, m, n) || Generation(ws, n, m))
      && (m < n ==> m in ws && ws[m].status.Terminal() && Successor(ws, m).Some?)
      && (Live(ws, n) ==> n == Newest(ws, w))
      && (m in ws && Successor(ws, m).None? ==> m == Newest(ws, w))
  {
    RunSafe(states, steps, i);
    LinearChain(states[i].db.workflows, w, m, n);
  }

  lemma {:induction false} GenerationIsYounger(ws: map<nat, Workflow>, w: nat, n: nat)
    requires Generation(ws, w, n)
    ensures n >= w
    decreases n
  {
    if n != w { GenerationIsYounger(ws, w, ws[n].identity.restartedFrom.value); }
  }

  lemma LinearChain(ws: map<nat, Workflow>, w: nat, m: nat, n: nat)
    requires LineageOk(ws) && w in ws && Generation(ws, w, m) && Generation(ws, w, n)
    ensures Generation(ws, m, n) || Generation(ws, n, m)
    ensures m < n ==> m in ws && ws[m].status.Terminal() && Successor(ws, m).Some?
    ensures Live(ws, n) ==> n == Newest(ws, w)
    ensures m in ws && Successor(ws, m).None? ==> m == Newest(ws, w)
  {
    GenerationsMeet(ws, w, m, n);
    if m < n {
      if Generation(ws, n, m) { GenerationIsYounger(ws, n, m); }
      LastLink(ws, m, n);
    }
    if Live(ws, n) { LiveGenerationIsNewest(ws, w, n); }
    if m in ws && Successor(ws, m).None? { LastIsNewest(ws, w, m); }
  }

  /** A generation without a successor is the newest. */
  lemma LastIsNewest(ws: map<nat, Workflow>, w: nat, m: nat)
    requires LinksOk(ws) && KeysUnique(ws) && w in ws && Generation(ws, w, m) && m in ws && Successor(ws, m).None?
    ensures m == Newest(ws, w)
  {
    var top := Newest(ws, w);
    NewestIsLast(ws, w);
    GenerationsMeet(ws, w, m, top);
    if m != top {
      if Generation(ws, m, top) { LastLink(ws, m, top); } else { LastLink(ws, top, m); }
    }
  }

  // ---- Recoverable starts --------------------------------------------------------------------

  /** Identities stay, rows are added. */
  lemma {:induction false} GenerationFrame(ws: map<nat, Workflow>, ws': map<nat, Workflow>, w: nat, n: nat)
    requires SameLinks(ws, ws') && Generation(ws, w, n)
    ensures Generation(ws', w, n)
    decreases n
  {
    if n != w { GenerationFrame(ws, ws', w, ws[n].identity.restartedFrom.value); }
  }

  lemma {:induction false} CancelAllSameLinks(db: Db, order: seq<nat>, outcome: AttemptOutcome, now: int)
    ensures SameLinks(db.workflows, CancelAll(db, order, outcome, now).workflows)
    decreases |order|
  {
    if order != [] {
      if Live(db.workflows, order[0]) {
        CancelOneLives(db, order[0], outcome, now);
        CancelAllSameLinks(CancelOne(db, order[0], outcome, now), order[1..], outcome, now);
      } else {
        CancelAllSameLinks(db, order[1..], outcome, now);
      }
    }
  }

  /** A recovery generation is the newest of its chain once it is committed. */
  lemma RecoveredIsNewest(ws: map<nat, Workflow>, ws': map<nat, Workflow>, keyed: nat, id: nat)
    requires LineageOk(ws) && LineageOk(ws') && keyed in ws && id !in ws && SameLinks(ws, ws')
    requires id in ws' && ws'.Keys == ws.Keys + {id} && ws'[id].identity.restartedFrom == Some(Newest(ws, keyed))
    ensures Newest(ws', keyed) == id
  {
    NewestIsLast(ws, keyed);
    GenerationFrame(ws, ws', keyed, Newest(ws, keyed));
    assert LinkOk(ws', id);
    assert Successor(ws', id).None? by {
      forall v | v in ws' ensures ws'[v].identity.restartedFrom != Some(id) {
        if v in ws { assert LinkOk(ws, v); }
      }
    }
    LastIsNewest(ws', keyed, id);
  }

  /** The first locking read missed the key, and by the second read the keyed row had been restarted. */
  ghost predicate MissedRestart(db: Db, lookup: Option<nat>, kind: string, key: Key) {
    && lookup.None?
    && var hit := FindByKey(db.workflows, kind, key);
    && hit.Some? && Successor(db.workflows, hit.value).Some?
  }

  lemma FoundIsUnique(ws: map<nat, Workflow>, w: nat, kind: string, key: Key)
    requires KeysUnique(ws) && w in ws && HasKey(ws[w], kind, key)
    ensures FindByKey(ws, kind, key) == Some(w)
  {
    var hit := FindByKey(ws, kind, key);
    assert hit.Some? && hit.value != w ==> DistinctKeys(ws[hit.value].identity, ws[w].identity);
  }

  lemma RecoverSameLinks(db: Db, latest: nat, id: nat, definition: Definition, now: int)
    requires latest in db.workflows && id !in db.workflows
    ensures var ws' := Recover(db, latest, id, definition, now).workflows;
      && SameLinks(db.workflows, ws') && ws'.Keys == db.workflows.Keys + {id}
      && ws'[id].identity.restartedFrom == Some(latest)
  {
    var ws' := Recover(db, latest, id, definition, now).workflows;
    assert ws'.Keys == db.workflows.Keys + {id};
    forall w | w in db.workflows ensures ws'[w].identity == db.workflows[w].identity {
    }
  }

  lemma RecoverLinks(db: Db, latest: nat, id: nat, definition: Definition, order: seq<nat>, now: int)
    requires latest in db.workflows && id !in db.workflows
    ensures var db1 := Recover(db, latest, id, definition, now);
      var ws' := CancelAll(db1, order, AttemptApplicationCancelled, now).workflows;
      && SameLinks(db.workflows, db1.workflows) && SameLinks(db.workflows, ws')
      && db1.workflows.Keys == db.workflows.Keys + {id} && ws'.Keys == db.workflows.Keys + {id}
      && db1.workflows[id].identity.restartedFrom == Some(latest) && ws'[id].identity.restartedFrom == Some(latest)
  {
    RecoverSameLinks(db, latest, id, definition, now);
    CancelAllSameLinks(Recover(db, latest, id, definition, now), order, AttemptApplicationCancelled, now);
  }

  /** With a keyed row found and locked, a recoverable start names the newest generation. */
  lemma FoundStartIsNewest(db: Db, keyed: nat, id: nat, definition: Definition, key: Key, order: seq<nat>, now: int)
    requires Inv(db) && id !in db.workflows && keyed in db.workflows
    requires HasKey(db.workflows[keyed], definition.kind, key)
    requires Newest(db.workflows, keyed) < id
    ensures var (named, tx) := RecoverableStart(db, Some(keyed), id, definition, key, order, now);
      tx.Commit? && keyed in tx.db.workflows && named == Newest(tx.db.workflows, keyed)
      && HasKey(tx.db.workflows[keyed], definition.kind, key)
  {
    var latest := Newest(db.workflows, keyed);
    RecoverableStartKeeps(db, Some(keyed), id, definition, key, order, now);
    if db.workflows[latest].status.StartRecoverable() {
      RecoverLinks(db, latest, id, definition, order, now);
      var ws' := RecoverableStart(db, Some(keyed), id, definition, key, order, now).1.db.workflows;
      assert SameLinks(db.workflows, ws');
      RecoveredIsNewest(db.workflows, ws', keyed, id);
    }
  }

  /** A recoverable start names the newest generation of the key, in every branch but one: exactly
      when it missed a restart, it names an older one. */
  lemma RecoverableStartNamesNewest(db: Db, lookup: Option<nat>, id: nat, definition: Definition, key: Key,
                                    order: seq<nat>, now: int)
    requires Inv(db) && Allowed(db, DoRecoverableStart(lookup, id, definition, key, order), now)
    ensures var (named, tx) := RecoverableStart(db, lookup, id, definition, key, order, now);
      && tx.Commit?
      && var hit := FindByKey(tx.db.workflows, definition.kind, key);
      && hit.Some?
      && (named == Newest(tx.db.workflows, hit.value) <==> !MissedRestart(db, lookup, definition.kind, key))
  {
    var (named, tx) := RecoverableStart(db, lookup, id, definition, key, order, now);
    RecoverableStartKeeps(db, lookup, id, definition, key, order, now);
    var ws' := tx.db.workflows;
    if lookup.Some? {
      FoundStartIsNewest(db, lookup.value, id, definition, key, order, now);
      FoundIsUnique(ws', lookup.value, definition.kind, key);
    } else {
      var hit := FindByKey(db.workflows, definition.kind, key);
      if hit.None? {
        FoundIsUnique(ws', id, definition.kind, key);
        NewRowIsNewest(db.workflows, ws', id);
      } else {
        NewestIsLast(db.workflows, hit.value);
      }
    }
  }

  lemma NewRowIsNewest(ws: map<nat, Workflow>, ws': map<nat, Workflow>, id: nat)
    requires LinksOk(ws) && id !in ws && id in ws' && ws' == ws[id := ws'[id]] && ws'[id].identity.restartedFrom.None?
    ensures Newest(ws', id) == id
  {
    forall v | v in ws' ensures ws'[v].identity.restartedFrom != Some(id) {
      if v in ws { assert LinkOk(ws, v); }
    }
  }

  /** The first locking read missed the key, and by the second read the keyed row had failed or blocked. */
  ghost predicate MissedFailure(db: Db, lookup: Option<nat>, kind: string, key: Key) {
    && lookup.None?
    && var hit := FindByKey(db.workflows, kind, key);
    && hit.Some? && (db.workflows[hit.value].status.Failed? || db.workflows[hit.value].status.Blocked?)
  }

  /** The key is free, or the newest generation that the first read leads to has failed or is blocked. */
  ghost predicate NeedsNewRow(db: Db, lookup: Option<nat>, kind: string, key: Key)
    requires lookup.Some? ==> lookup.value in db.workflows
  {
    if lookup.None? then forall w :: w in db.workflows ==> !HasKey(db.workflows[w], kind, key)
    else
      var latest := Newest(db.workflows, lookup.value);
      db.workflows[latest].status.Failed? || db.workflows[latest].status.Blocked?
  }

  lemma CancelOneFailsNone(db: Db, v: nat, outcome: AttemptOutcome, now: int, w: nat)
    requires v in db.workflows && w in db.workflows && !db.workflows[w].status.StartRecoverable()
    ensures var ws' := CancelOne(db, v, outcome, now).workflows; w in ws' && !ws'[w].status.StartRecoverable()
  {
  }

  /** A cascade fails and blocks no row. */
  lemma {:induction false} CancelAllFailsNone(db: Db, order: seq<nat>, outcome: AttemptOutcome, now: int, w: nat)
    requires w in db.workflows && !db.workflows[w].status.StartRecoverable()
    ensures !CancelAll(db, order, outcome, now).workflows[w].status.StartRecoverable()
    decreases |order|
  {
    if order != [] {
      if Live(db.workflows, order[0]) {
        CancelOneFailsNone(db, order[0], outcome, now, w);
        CancelAllFailsNone(CancelOne(db, order[0], outcome, now), order[1..], outcome, now, w);
      } else {
        CancelAllFailsNone(db, order[1..], outcome, now, w);
      }
    }
  }

  /** A recoverable start starts a row exactly if there is none that can go on, and changes nothing otherwise.
      It names a failed or blocked row exactly when it missed a failure. */
  lemma RecoverableStartRecovers(db: Db, lookup: Option<nat>, id: nat, definition: Definition, key: Key,
                                 order: seq<nat>, now: int)
    requires Inv(db) && Allowed(db, DoRecoverableStart(lookup, id, definition, key, order), now)
    ensures var (named, tx) := RecoverableStart(db, lookup, id, definition, key, order, now);
      && tx.Commit? && named in tx.db.workflows
      && (tx.db.workflows[named].status.Failed? || tx.db.workflows[named].status.Blocked?
          <==> MissedFailure(db, lookup, definition.kind, key))
      && (named == id <==> NeedsNewRow(db, lookup, definition.kind, key))
      && (named != id ==> tx.db == db)
  {
    if lookup.Some? {
      var latest := Newest(db.workflows, lookup.value);
      if db.workflows[latest].status.StartRecoverable() {
        var db1 := Recover(db, latest, id, definition, now);
        RecoverSameLinks(db, latest, id, definition, now);
        assert !db1.workflows[id].status.StartRecoverable();
        CancelAllFailsNone(db1, order, AttemptApplicationCancelled, now, id);
      }
    }
  }

  // ---- The cascade --------------------------------------------------------------------------------

  ghost function Members(order: seq<nat>): set<nat> { set k | 0 <= k < |order| :: order[k] }

  lemma MembersTail(order: seq<nat>)
    requires order != []
    ensures Members(order) == {order[0]} + Members(order[1..])
  {
    forall w | w in Members(order) ensures w in {order[0]} + Members(order[1..]) {
      var k :| 0 <= k < |order| && order[k] == w;
      if k > 0 { assert order[1..][k - 1] == w; }
    }
    forall w | w in Members(order[1..]) ensures w in Members(order) {
      var k :| 0 <= k < |order[1..]| && order[1..][k] == w;
      assert order[k + 1] == w;
    }
  }

  lemma CancelOneLives(db: Db, w: nat, outcome: AttemptOutcome, now: int)
    requires w in db.workflows
    ensures var ws' := CancelOne(db, w, outcome, now).workflows;
      && ws'.Keys == db.workflows.Keys && SameLinks(db.workflows, ws')
      && (forall v :: v in db.workflows ==> (Live(ws', v) <==> Live(db.workflows, v) && v != w))
  {
  }

  /** The cascade ends exactly the live rows it lists. */
  lemma {:induction false} CancelAllEnds(db: Db, order: seq<nat>, outcome: AttemptOutcome, now: int)
    ensures forall w :: w in db.workflows ==>
      (Live(CancelAll(db, order, outcome, now).workflows, w) <==> Live(db.workflows, w) && w !in Members(order))
    decreases |order|
  {
    if order != [] {
      MembersTail(order);
      if Live(db.workflows, order[0]) {
        CancelOneLives(db, order[0], outcome, now);
        CancelAllEnds(CancelOne(db, order[0], outcome, now), order[1..], outcome, now);
      } else {
        CancelAllEnds(db, order[1..], outcome, now);
      }
    }
  }

  lemma {:induction false} OwnedFrame(ws: map<nat, Workflow>, ws': map<nat, Workflow>, p: nat, g: nat)
    requires SameLinks(ws, ws') && ws'.Keys == ws.Keys
    ensures OwnedGeneration(ws', p, g) == OwnedGeneration(ws, p, g)
    decreases g
  {
    if g in ws && ws[g].identity.restartedFrom.Some? && ws[g].identity.restartedFrom.value < g {
      OwnedFrame(ws, ws', p, ws[g].identity.restartedFrom.value);
    }
  }

  /** After the cascade of `root`, the rows of the least closed set have ended, no other row has, and
      neither `root` nor a row of the set owns a live generation. */
  lemma CascadeEnds(db: Db, root: nat, order: seq<nat>, outcome: AttemptOutcome, now: int)
    requires CascadeOrder(db.workflows, root, order)
    ensures var ws' := CancelAll(db, order, outcome, now).workflows;
      && (forall w :: w in db.workflows ==> (Live(ws', w) <==> Live(db.workflows, w) && w !in Members(order)))
      && (forall p, g :: p == root || p in Members(order) ==> !LiveOwned(ws', p, g))
  {
    var ws' := CancelAll(db, order, outcome, now).workflows;
    CancelAllEnds(db, order, outcome, now);
    CancelAllSameLinks(db, order, outcome, now);
    forall p, g | p == root || p in Members(order) ensures !LiveOwned(ws', p, g) {
      OwnedFrame(db.workflows, ws', p, g);
      assert LiveOwned(ws', p, g) ==> LiveOwned(db.workflows, p, g);
    }
  }

  /** Every listed row is live, so the cascade cancels it, once. */
  lemma CascadeIsLive(ws: map<nat, Workflow>, root: nat, order: seq<nat>, k: nat)
    requires CascadeOrder(ws, root, order) && k < |order|
    ensures Live(ws, order[k])
  {
    var chosen := Members(order);
    var live := set w | w in chosen && Live(ws, w);
    assert Closed(ws, root, live);
    assert order[k] in chosen && chosen <= live;
  }

  /** A cancel ends the row, its owned live descendants, and nothing else. */
  lemma CancelEnds(db: Db, w: nat, order: seq<nat>, outcome: AttemptOutcome, now: int)
    requires Cancel(db, w, order, outcome, now).Commit? && Allowed(db, DoCancel(w, order, outcome), now)
    ensures var ws' := Cancel(db, w, order, outcome, now).db.workflows;
      && (forall v :: v in db.workflows ==> (Live(ws', v) <==> Live(db.workflows, v) && v != w && v !in Members(order)))
      && (forall p, g :: p == w || p in Members(order) ==> !LiveOwned(ws', p, g))
  {
    CancelOneLives(db, w, outcome, now);
    CascadeEnds(CancelOne(db, w, outcome, now), w, order, outcome, now);
  }
}
