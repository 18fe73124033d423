/** What the work list of a cancel cascade keeps while it runs. */
module Cascade {
  import opened Rows
  import opened Transactions
  import opened Invariant
  import opened Evolution
  import opened Lineage
  import opened Generations

  /** An owned generation descends from one owned child. */
  lemma {:induction false} OwnedRoot(ws: map<nat, Workflow>, p: nat, g: nat) returns (child: nat)
    requires OwnedGeneration(ws, p, g)
    ensures child in ws && OwnedBy(ws[child], p) && Generation(ws, child, g)
    decreases g
  {
    if OwnedBy(ws[g], p) {
      child := g;
    } else {
      child := OwnedRoot(ws, p, ws[g].identity.restartedFrom.value);
    }
  }

  /** Every generation of an owned child is owned. */
  lemma {:induction false} GenerationOwned(ws: map<nat, Workflow>, p: nat, child: nat, g: nat)
    requires child in ws && OwnedBy(ws[child], p) && Generation(ws, child, g)
    ensures OwnedGeneration(ws, p, g)
    decreases g
  {
    if g != child { GenerationOwned(ws, p, child, ws[g].identity.restartedFrom.value); }
  }

  lemma {:induction false} CancelAllSnoc(db: Db, order: seq<nat>, g: nat, outcome: AttemptOutcome, now: int)
    requires Live(CancelAll(db, order, outcome, now).workflows, g)
    ensures CancelAll(db, order + [g], outcome, now) == CancelOne(CancelAll(db, order, outcome, now), g, outcome, now)
    decreases |order|
  {
    if order == [] {
      assert [g][1..] == [] && order + [g] == [g];
      assert CancelAll(CancelOne(db, g, outcome, now), [], outcome, now) == CancelOne(db, g, outcome, now);
    } else {
      assert (order + [g])[1..] == order[1..] + [g];
      if Live(db.workflows, order[0]) {
        CancelAllSnoc(CancelOne(db, order[0], outcome, now), order[1..], g, outcome, now);
      } else {
        CancelAllSnoc(db, order[1..], g, outcome, now);
      }
    }
  }

  /** The rows of `order` belong to every closed set. */
  ghost predicate Necessary(ws: map<nat, Workflow>, root: nat, order: seq<nat>) {
    forall other: set<nat> :: Closed(ws, root, other) ==> Members(order) <= other
  }

  ghost predicate Distinct(order: seq<nat>) {
    forall i, j :: 0 <= i < j < |order| ==> order[i] != order[j]
  }

  /** The rows of `order` were cancelled, each once, and each had to be. */
  ghost predicate Cascading(db0: Db, db: Db, root: nat, order: seq<nat>, outcome: AttemptOutcome, now: int) {
    && db == CancelAll(db0, order, outcome, now)
    && Distinct(order)
    && Necessary(db0.workflows, root, order)
  }

  lemma MembersSnoc(order: seq<nat>, g: nat)
    ensures Members(order + [g]) == Members(order) + {g}
  {
    forall w | w in Members(order) + {g} ensures w in Members(order + [g]) {
      if w != g {
        var k :| 0 <= k < |order| && order[k] == w;
        assert (order + [g])[k] == w;
      } else {
        assert (order + [g])[|order|] == w;
      }
    }
  }

  lemma NecessarySnoc(ws: map<nat, Workflow>, root: nat, order: seq<nat>, p: nat, g: nat)
    requires Necessary(ws, root, order) && (p == root || p in Members(order)) && LiveOwned(ws, p, g)
    ensures Necessary(ws, root, order + [g])
  {
    MembersSnoc(order, g);
    forall other: set<nat> | Closed(ws, root, other) ensures Members(order + [g]) <= other {
      assert Members(order) <= other;
    }
  }

  /** The work list cancels one more row. */
  lemma CascadeStep(db0: Db, db: Db, root: nat, order: seq<nat>, p: nat, g: nat, outcome: AttemptOutcome, now: int)
    requires Cascading(db0, db, root, order, outcome, now) && Live(db.workflows, g)
    requires (p == root || p in Members(order)) && OwnedGeneration(db0.workflows, p, g)
    ensures Cascading(db0, CancelOne(db, g, outcome, now), root, order + [g], outcome, now)
    ensures Live(db0.workflows, g) && g !in Members(order)
  {
    CancelAllSnoc(db0, order, g, outcome, now);
    CancelAllEnds(db0, order, outcome, now);
    NecessarySnoc(db0.workflows, root, order, p, g);
    forall i, j | 0 <= i < j < |order + [g]| ensures (order + [g])[i] != (order + [g])[j] {
      assert order[i] in Members(order);
    }
  }

  /** The live rows the cascade has not cancelled. */
  ghost function Open(ws: map<nat, Workflow>, order: seq<nat>): set<nat> {
    set w | w in ws && Live(ws, w) && w !in Members(order)
  }

  lemma OpenShrinks(ws: map<nat, Workflow>, order: seq<nat>, g: nat)
    requires g in Open(ws, order)
    ensures Open(ws, order + [g]) < Open(ws, order) && |Open(ws, order + [g])| < |Open(ws, order)|
  {
    MembersSnoc(order, g);
    ProperSubsetIsSmaller(Open(ws, order + [g]), Open(ws, order));
  }

  /** What `p` owns is cancelled. */
  ghost predicate Swept(ws: map<nat, Workflow>, p: nat, order: seq<nat>) {
    forall g :: LiveOwned(ws, p, g) ==> g in Members(order)
  }

  /** Every cancelled row that is not on the work list is swept. */
  ghost predicate AllSwept(ws: map<nat, Workflow>, root: nat, order: seq<nat>, parents: seq<nat>) {
    forall p :: (p == root || p in Members(order)) && p !in parents ==> Swept(ws, p, order)
  }

  lemma CascadeDone(db0: Db, db: Db, root: nat, order: seq<nat>, outcome: AttemptOutcome, now: int)
    requires Cascading(db0, db, root, order, outcome, now) && AllSwept(db0.workflows, root, order, [])
    ensures CascadeOrder(db0.workflows, root, order)
  {
    forall p, g | (p == root || p in Members(order)) && LiveOwned(db0.workflows, p, g) ensures g in Members(order) {
      assert Swept(db0.workflows, p, order);
    }
    assert Members(order) == set i | 0 <= i < |order| :: order[i];
  }

  lemma KeysUniqueFrame(ws: map<nat, Workflow>, ws': map<nat, Workflow>)
    requires KeysUnique(ws) && SameLinks(ws, ws') && ws'.Keys == ws.Keys
    ensures KeysUnique(ws')
  {
    forall v, w | v in ws' && w in ws' && v != w ensures DistinctKeys(ws'[v].identity, ws'[w].identity) {
      assert DistinctKeys(ws[v].identity, ws[w].identity);
    }
  }

  // ---- The work list, chain by chain ---------------------------------------------------------

  /** The live generations of `child` are cancelled. */
  ghost predicate Covered(ws: map<nat, Workflow>, child: nat, order: seq<nat>) {
    forall g :: Generation(ws, child, g) && Live(ws, g) ==> g in Members(order)
  }

  /** Every child of `p` but those of `children` is covered. */
  ghost predicate CoveredBut(ws: map<nat, Workflow>, p: nat, children: set<nat>, order: seq<nat>) {
    forall c :: c in ws && OwnedBy(ws[c], p) && c !in children ==> Covered(ws, c, order)
  }

  lemma CoversChild(ws: map<nat, Workflow>, p: nat, children: set<nat>, child: nat, before: seq<nat>, order: seq<nat>)
    requires CoveredBut(ws, p, children, before) && Grown(ws, before, order) && Covered(ws, child, order)
    ensures CoveredBut(ws, p, children - {child}, order)
  {
    forall c | c in ws && OwnedBy(ws[c], p) && c !in children - {child} ensures Covered(ws, c, order) {
      if c != child { assert Covered(ws, c, before); }
    }
  }

  /** After the generations of `child`, the work list holds what was added since `order`. */
  lemma ChildIsCovered(ws: map<nat, Workflow>, p: nat, children: set<nat>, child: nat, parents: seq<nat>,
                       order: seq<nat>, so: seq<nat>, more: seq<nat>)
    requires Grown(ws, order, so) && Grown(ws, so, more)
    requires CoveredBut(ws, p, children, so) && Covered(ws, child, more)
    ensures Grown(ws, order, more) && CoveredBut(ws, p, children - {child}, more)
    ensures parents + so[|order|..] + more[|so|..] == parents + more[|order|..]
  {
    GrownTransitive(ws, order, so, more);
    CoversChild(ws, p, children, child, so, more);
  }

  lemma CascadeChildren(db0: Db, db: Db, root: nat, order: seq<nat>, outcome: AttemptOutcome, now: int, p: nat)
    requires Cascading(db0, db, root, order, outcome, now)
    ensures db.workflows.Keys == db0.workflows.Keys
    ensures forall c :: c in db0.workflows ==> OwnedBy(db.workflows[c], p) == OwnedBy(db0.workflows[c], p)
  {
    CancelAllSameLinks(db0, order, outcome, now);
  }

  lemma CoversOwned(ws: map<nat, Workflow>, p: nat, order: seq<nat>)
    requires CoveredBut(ws, p, {}, order)
    ensures Swept(ws, p, order)
  {
    forall g | LiveOwned(ws, p, g) ensures g in Members(order) {
      var child := OwnedRoot(ws, p, g);
      assert Covered(ws, child, order);
    }
  }

  lemma MembersSplit(before: seq<nat>, order: seq<nat>, p: nat)
    requires |before| <= |order| && order[..|before|] == before
    ensures p in Members(order) ==> p in Members(before) || p in order[|before|..]
  {
    if p in Members(order) {
      var k :| 0 <= k < |order| && order[k] == p;
      if k < |before| { assert before[k] == p; } else { assert order[|before|..][k - |before|] == p; }
    }
  }

  /** The last parent of `waiting` was swept, and the rows cancelled meanwhile were put on the list. */
  lemma SweptMore(ws: map<nat, Workflow>, root: nat, before: seq<nat>, order: seq<nat>, waiting: seq<nat>)
    requires |waiting| > 0 && AllSwept(ws, root, before, waiting) && Grown(ws, before, order)
    requires Swept(ws, waiting[|waiting| - 1], order)
    requires forall p :: p in waiting ==> p == root || p in Members(before)
    ensures var parents := waiting[..|waiting| - 1] + order[|before|..];
      && AllSwept(ws, root, order, parents)
      && (forall p :: p in parents ==> p == root || p in Members(order))
  {
    var parents := waiting[..|waiting| - 1] + order[|before|..];
    forall p | (p == root || p in Members(order)) && p !in parents ensures Swept(ws, p, order) {
      MembersSplit(before, order, p);
      if p in waiting {
        assert waiting == waiting[..|waiting| - 1] + [waiting[|waiting| - 1]];
      } else {
        assert Swept(ws, p, before);
      }
    }
    forall p | p in parents ensures p == root || p in Members(order) {
      if p in order[|before|..] {
        var k :| 0 <= k < |order[|before|..]| && order[|before|..][k] == p;
        assert order[|before| + k] == p;
      } else {
        assert p in waiting;
      }
    }
  }

  /** The links of the rows are the original ones. */
  lemma CascadeLinks(db0: Db, db: Db, root: nat, order: seq<nat>, outcome: AttemptOutcome, now: int, w: nat)
    requires LinksOk(db0.workflows) && KeysUnique(db0.workflows) && Cascading(db0, db, root, order, outcome, now)
    ensures KeysUnique(db.workflows) && db.workflows.Keys == db0.workflows.Keys
    ensures var s := Successor(db.workflows, w);
      if s.None? then Successor(db0.workflows, w).None?
      else
        && s.value in db0.workflows && db0.workflows[s.value].identity.restartedFrom == Some(w) && w < s.value
        && |Younger(db0.workflows, s.value)| < |Younger(db0.workflows, w)|
  {
    CancelAllSameLinks(db0, order, outcome, now);
    KeysUniqueFrame(db0.workflows, db.workflows);
    var s := Successor(db.workflows, w);
    if s.Some? {
      assert LinkOk(db0.workflows, s.value);
      assert s.value in Younger(db0.workflows, w);
      ProperSubsetIsSmaller(Younger(db0.workflows, s.value), Younger(db0.workflows, w));
    }
  }

  /** Only the last generation of a chain can be live, and it is terminal now. */
  lemma CoversChain(db0: Db, db: Db, root: nat, order: seq<nat>, outcome: AttemptOutcome, now: int, child: nat,
                    last: nat)
    requires LinksOk(db0.workflows) && KeysUnique(db0.workflows) && Cascading(db0, db, root, order, outcome, now)
    requires child in db0.workflows && last in db0.workflows && Generation(db0.workflows, child, last)
    requires Successor(db0.workflows, last).None? && last in db.workflows && db.workflows[last].status.Terminal()
    ensures Covered(db0.workflows, child, order)
  {
    CancelAllEnds(db0, order, outcome, now);
    LastIsNewest(db0.workflows, child, last);
    forall g | Generation(db0.workflows, child, g) && Live(db0.workflows, g) ensures g in Members(order) {
      LiveGenerationIsNewest(db0.workflows, child, g);
    }
  }

  lemma GrownTransitive(ws: map<nat, Workflow>, a: seq<nat>, b: seq<nat>, c: seq<nat>)
    requires Grown(ws, a, b) && Grown(ws, b, c)
    ensures Grown(ws, a, c) && c[|a|..] == b[|a|..] + c[|b|..]
  {
    assert c[..|a|] == b[..|a|];
    assert c == b + c[|b|..];
  }

  /** `more` is `order` with further live rows, each of them new. */
  ghost predicate Grown(ws: map<nat, Workflow>, order: seq<nat>, more: seq<nat>) {
    && |order| <= |more| && more[..|order|] == order
    && Members(order) <= Members(more)
    && (more == order || |Open(ws, more)| < |Open(ws, order)|)
  }

  lemma GrownSnoc(ws: map<nat, Workflow>, order: seq<nat>, more: seq<nat>, g: nat)
    requires Grown(ws, order, more) && Live(ws, g) && g !in Members(more)
    ensures Grown(ws, order, more + [g])
    ensures (more + [g])[|order|..] == more[|order|..] + [g]
  {
    MembersSnoc(more, g);
    OpenShrinks(ws, more, g);
    assert (more + [g])[..|order|] == more[..|order|];
  }
}
