/** The workflow claim as it is written: a paged scan for one expired lease to
    recover, then the first ready row that nobody holds. */
module Claims {
  import opened Rows
  import opened Transactions
  import opened Store
  import opened Engine
  import opened Effects
  import opened Meanings
  import opened Pages

  // ---- Expired leases -------------------------------------------------------------------------------

  /** Both scans order by time, then by identifier. */
  function ByTime(time: int, w: nat): Rank { Rank(time, w, w) }

  predicate LeaseExpired(r: Workflow, now: int) {
    r.status.Running? && r.lease.Some? && r.lease.value.expires <= now
  }

  /** The row is beyond the cursor of the scan. */
  predicate Beyond(cursor: Option<Rank>, expires: int, w: nat) {
    cursor.None? || Before(cursor.value, ByTime(expires, w))
  }

  /** The expired rows beyond the cursor, with their expiries. */
  function ExpiredAfter(ws: map<nat, Workflow>, cursor: Option<Rank>, now: int): map<nat, Rank> {
    map w | w in ws && LeaseExpired(ws[w], now) && Beyond(cursor, ws[w].lease.value.expires, w) ::
      ByTime(ws[w].lease.value.expires, w)
  }

  /** Looks through one page for a row that nobody holds. */
  method FirstFree(page: seq<nat>, held: set<nat>) returns (found: Option<nat>, ghost k: nat)
    ensures found.Some? ==> k < |page| && page[k] == found.value && found.value !in held
    ensures found.Some? ==> forall i :: 0 <= i < k ==> page[i] in held
    ensures found.None? ==> forall i :: 0 <= i < |page| ==> page[i] in held
  {
    for i := 0 to |page|
      invariant forall j :: 0 <= j < i ==> page[j] in held
    {
      if page[i] !in held { return Some(page[i]), i; }
    }
    return None, 0;
  }

  /** `w` is the first expired row that nobody holds. */
  ghost predicate FirstExpired(ws: map<nat, Workflow>, held: set<nat>, now: int, w: nat) {
    && w in ws && LeaseExpired(ws[w], now) && w !in held
    && forall v :: v in ws && LeaseExpired(ws[v], now) && v !in held && v != w ==>
         Before(ByTime(ws[w].lease.value.expires, w), ByTime(ws[v].lease.value.expires, v))
  }

  /** Every expired row up to the cursor is held. */
  ghost predicate HeldUpTo(ws: map<nat, Workflow>, held: set<nat>, now: int, cursor: Option<Rank>) {
    forall v :: v in ws && LeaseExpired(ws[v], now) && !Beyond(cursor, ws[v].lease.value.expires, v) ==> v in held
  }

  lemma FoundOnPage(ws: map<nat, Workflow>, held: set<nat>, now: int, cursor: Option<Rank>, page: seq<nat>,
                    k: nat)
    requires HeldUpTo(ws, held, now, cursor)
    requires var times := ExpiredAfter(ws, cursor, now);
      InOrder(times, page) && AllBefore(times, page, OffPage(times, page))
    requires k < |page| && page[k] !in held && (forall i :: 0 <= i < k ==> page[i] in held)
    ensures FirstExpired(ws, held, now, page[k])
  {
    var times := ExpiredAfter(ws, cursor, now);
    var w := page[k];
    forall v | v in ws && LeaseExpired(ws[v], now) && v !in held && v != w
      ensures Before(ByTime(ws[w].lease.value.expires, w), ByTime(ws[v].lease.value.expires, v))
    {
      assert v in times;
      if v in page {
        var j :| 0 <= j < |page| && page[j] == v;
        assert k < j;
      } else {
        ComesAfter(times, page, k, v);
      }
    }
  }

  /** After a page of held rows the cursor moves to its last row, and fewer rows are beyond it. */
  lemma PageWasHeld(ws: map<nat, Workflow>, held: set<nat>, now: int, cursor: Option<Rank>, page: seq<nat>)
    requires HeldUpTo(ws, held, now, cursor)
    requires var times := ExpiredAfter(ws, cursor, now);
      InOrder(times, page) && AllBefore(times, page, OffPage(times, page))
    requires page != [] && (forall i :: 0 <= i < |page| ==> page[i] in held)
    ensures var last := page[|page| - 1];
      var moved := Some(ExpiredAfter(ws, cursor, now)[last]);
      && HeldUpTo(ws, held, now, moved)
      && ExpiredAfter(ws, moved, now).Keys < ExpiredAfter(ws, cursor, now).Keys
  {
    var times := ExpiredAfter(ws, cursor, now);
    var top: nat := |page| - 1;
    var last := page[top];
    var moved := Some(times[last]);
    forall v | v in ws && LeaseExpired(ws[v], now) && !Beyond(moved, ws[v].lease.value.expires, v) ensures v in held {
      if Beyond(cursor, ws[v].lease.value.expires, v) {
        assert v in times;
        if v in page {
          var j :| 0 <= j < |page| && page[j] == v;
        } else {
          ComesAfter(times, page, top, v);
        }
      }
    }
    assert last in times && last !in ExpiredAfter(ws, moved, now);
  }

  /** Scans the expired leases page by page: it finds the first one that nobody holds, or every one is held. */
  method FindExpired(db: Database, held: set<nat>, now: int) returns (found: Option<nat>)
    ensures found.Some? ==> FirstExpired(db.workflows, held, now, found.value)
    ensures found.None? ==> forall v :: v in db.workflows && LeaseExpired(db.workflows[v], now) ==> v in held
  {
    var cursor: Option<Rank> := None;
    while true
      invariant HeldUpTo(db.workflows, held, now, cursor)
      decreases |ExpiredAfter(db.workflows, cursor, now).Keys|
    {
      var times := ExpiredAfter(db.workflows, cursor, now);
      var page := SelectFirst(times, PAGE);
      if page == [] {
        AllHeld(db.workflows, held, now, cursor, page);
        return None;
      }
      ghost var k;
      found, k := FirstFree(page, held);
      if found.Some? {
        FoundOnPage(db.workflows, held, now, cursor, page, k);
        return;
      }
      if |page| < PAGE {
        AllHeld(db.workflows, held, now, cursor, page);
        return None;
      }
      PageWasHeld(db.workflows, held, now, cursor, page);
      var last := page[|page| - 1];
      ghost var before := ExpiredAfter(db.workflows, cursor, now).Keys;
      cursor := Some(times[last]);
      ProperSubsetIsSmaller(ExpiredAfter(db.workflows, cursor, now).Keys, before);
    }
  }

  /** A page that is not full shows all there is. */
  lemma AllHeld(ws: map<nat, Workflow>, held: set<nat>, now: int, cursor: Option<Rank>, page: seq<nat>)
    requires HeldUpTo(ws, held, now, cursor) && (forall i :: 0 <= i < |page| ==> page[i] in held)
    requires forall id :: id in ExpiredAfter(ws, cursor, now) ==> id in page
    ensures forall v :: v in ws && LeaseExpired(ws[v], now) ==> v in held
  {
    forall v | v in ws && LeaseExpired(ws[v], now) ensures v in held {
      if Beyond(cursor, ws[v].lease.value.expires, v) {
        assert v in ExpiredAfter(ws, cursor, now);
        var j :| 0 <= j < |page| && page[j] == v;
      }
    }
  }

  // ---- Ready rows ---------------------------------------------------------------------------------------

  /** A row that this process could run now. */
  predicate Runnable(r: Workflow, definitions: set<Definition>, now: int) {
    r.status.Ready? && r.counters.availableAt <= now && r.identity.definition in definitions
  }

  function ReadyTimes(ws: map<nat, Workflow>, definitions: set<Definition>, now: int): map<nat, Rank> {
    map w | w in ws && Runnable(ws[w], definitions, now) :: ByTime(ws[w].counters.availableAt, w)
  }

  /** The claimed row was runnable and held by nobody, every runnable row before it is held, and its lease
      expires in exactly `leaseMillis`. Without a claim nothing changed, and all runnable rows are held, or at
      least a page of them. */
  ghost predicate ClaimedFirst(db: Db, db': Db, claim: Option<WorkflowClaim>, definitions: set<Definition>,
                               held: set<nat>, token: nat, leaseMillis: int, now: int)
  {
    match claim
    case None =>
      && db' == db
      && (|| (forall v :: v in db.workflows && Runnable(db.workflows[v], definitions, now) ==> v in held)
          || |held * ReadyTimes(db.workflows, definitions, now).Keys| >= PAGE)
    case Some(c) =>
      && c.id in db.workflows && Runnable(db.workflows[c.id], definitions, now) && c.id !in held
      && (forall v :: v in db.workflows && Runnable(db.workflows[v], definitions, now) ==>
            || v in held
            || !Before(ByTime(db.workflows[v].counters.availableAt, v),
                       ByTime(db.workflows[c.id].counters.availableAt, c.id)))
      && OnlyRow(db, db', c.id) && RunsUntil(db', c.id, token, now + leaseMillis)
      && c == WorkflowClaim(c.id, db'.workflows[c.id], token, None) && Fenced(db', c)
      && ClaimWorkflow(db, c.id, token, leaseMillis, now) == Commit(db')
  }

  /** Claims the first runnable row of the first page that nobody holds. */
  method ClaimFirst(db: Database, definitions: set<Definition>, held: set<nat>, token: nat, leaseMillis: int, now: int)
    returns (claim: Option<WorkflowClaim>)
    modifies db
    ensures ClaimedFirst(old(db.Snapshot()), db.Snapshot(), claim, definitions, held, token, leaseMillis, now)
  {
    var times := ReadyTimes(db.workflows, definitions, now);
    var page := SelectFirst(times, PAGE);
    var found;
    ghost var k;
    found, k := FirstFree(page, held);
    if found.None? {
      if |page| == PAGE { FullPageHeld(times, page, held); } else { ShortPageHeld(times, page, held); }
      return None;
    }
    EarlierHeld(times, page, held, k);
    var failure;
    failure, claim := ClaimRow(db, found.value, token, leaseMillis, now);
  }

  lemma EarlierHeld(times: map<nat, Rank>, page: seq<nat>, held: set<nat>, k: nat)
    requires InOrder(times, page) && AllBefore(times, page, OffPage(times, page))
    requires k < |page| && (forall i :: 0 <= i < k ==> page[i] in held)
    ensures forall v :: v in times && Before(times[v], times[page[k]]) ==> v in held
  {
    forall v | v in times && Before(times[v], times[page[k]]) ensures v in held {
      if v in page {
        var j :| 0 <= j < |page| && page[j] == v;
      } else {
        ComesAfter(times, page, k, v);
      }
    }
  }

  lemma ShortPageHeld(times: map<nat, Rank>, page: seq<nat>, held: set<nat>)
    requires (forall id :: id in times ==> id in page) && (forall i :: 0 <= i < |page| ==> page[i] in held)
    ensures forall v :: v in times ==> v in held
  {
  }

  lemma {:induction false} FullPageHeld(times: map<nat, Rank>, page: seq<nat>, held: set<nat>)
    requires InOrder(times, page) && (forall i :: 0 <= i < |page| ==> page[i] in held)
    ensures |held * times.Keys| >= |page|
  {
    var listed := set i | 0 <= i < |page| :: page[i];
    ListedCount(times, page);
    assert listed <= held * times.Keys;
    var rest := held * times.Keys - listed;
    assert held * times.Keys == listed + rest;
  }

  lemma {:induction false} ListedCount(times: map<nat, Rank>, page: seq<nat>)
    requires InOrder(times, page)
    ensures |set i | 0 <= i < |page| :: page[i]| == |page|
  {
    var listed := set i | 0 <= i < |page| :: page[i];
    if page != [] {
      var front, last := page[..|page| - 1], page[|page| - 1];
      ListedCount(times, front);
      var before := set i | 0 <= i < |front| :: front[i];
      assert listed == before + {last} by {
        forall x | x in listed ensures x in before + {last} {
          var i :| 0 <= i < |page| && page[i] == x;
          if i < |front| { assert front[i] == x; }
        }
        forall x | x in before ensures x in listed {
          var i :| 0 <= i < |front| && front[i] == x;
          assert page[i] == x;
        }
        assert page[|page| - 1] == last;
      }
      forall x | x in before ensures x != last {
        var i :| 0 <= i < |front| && front[i] == x;
        assert page[i] == x;
      }
    }
  }

  /** One claim transaction: recovers the first expired lease that nobody holds, then claims the first
      runnable row that nobody holds. */
  method ClaimNext(db: Database, definitions: set<Definition>, held: set<nat>, token: nat, leaseMillis: int, now: int)
    returns (recovered: Option<nat>, claim: Option<WorkflowClaim>, ghost middle: Db)
    modifies db
    ensures recovered.Some? ==>
      && FirstExpired(old(db.workflows), held, now, recovered.value)
      && RecoverLease(old(db.Snapshot()), recovered.value, now) == Commit(middle)
      && LeaseRecovered(old(db.Snapshot()), middle, recovered.value, now)
    ensures recovered.None? ==>
      && middle == old(db.Snapshot())
      && forall v :: v in old(db.workflows) && LeaseExpired(old(db.workflows)[v], now) ==> v in held
    ensures ClaimedFirst(middle, db.Snapshot(), claim, definitions, held, token, leaseMillis, now)
  {
    recovered := FindExpired(db, held, now);
    if recovered.Some? {
      var failure := RecoverExpiredLease(db, recovered.value, now);
    }
    middle := db.Snapshot();
    claim := ClaimFirst(db, definitions, held, token, leaseMillis, now);
  }
}
