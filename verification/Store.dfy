/** The engine as it is written: rows in a database that transactions update
    in place, statement by statement and row by row. Every method is proved
    equal to the transaction that specifies it. */
module Store {
  import opened Rows
  import opened Transactions
  import opened Invariant
  import opened Evolution
  import opened Lineage
  import opened Generations
  import opened Cascade
  import opened Effects

  class Database {
    var workflows: map<nat, Workflow>
    var activities: map<nat, Activity>
    var approvals: map<nat, Approval>

    /** The stored rows as a value. */
    ghost function Snapshot(): Db
      reads this
    {
      Db(workflows, activities, approvals)
    }

    constructor ()
      ensures Snapshot() == Db(map[], map[], map[])
    {
      workflows, activities, approvals := map[], map[], map[];
    }

    // ---- Loops over rows -----------------------------------------------------------------

    /** Delivers the outcome of a child to each of its waiters in turn. */
    method WakeWaitingParents(child: nat, definition: Definition, outcome: ChildOutcome, now: int)
      modifies this`workflows
      ensures workflows == WakeParents(old(workflows), child, definition, outcome, now)
    {
      var parents: set<nat> := set w: nat | w in workflows && workflows[w].WaitsOnChild(child);
      ghost var all := parents;
      while |parents| > 0
        invariant parents <= all && workflows.Keys == old(workflows).Keys
        invariant forall w :: w in workflows ==>
          workflows[w] == (if w in all && w !in parents
                           then WokenByChild(old(workflows)[w], definition, outcome, now)
                           else old(workflows)[w])
        decreases |parents|
      {
        var w :| w in parents;
        parents := parents - {w};
        WakeParent(w, child, definition, outcome, now);
      }
      assert workflows == WakeParents(old(workflows), child, definition, outcome, now);
    }

    method WakeParent(w: nat, child: nat, definition: Definition, outcome: ChildOutcome, now: int)
      requires w in workflows
      modifies this`workflows
      ensures workflows == old(workflows)[w :=
        if old(workflows)[w].WaitsOnChild(child)
        then WokenByChild(old(workflows)[w], definition, outcome, now)
        else old(workflows)[w]]
    {
      var r := workflows[w];
      if r.WaitsOnChild(child) {
        var event := ChildDone(r.command, definition, outcome);
        workflows := workflows[w := r.(inbox := r.inbox + [Delivery(r.delivered + 1, event)])];
        var status := if r.status.Paused? then Paused else Ready;
        workflows := workflows[w := workflows[w].(status := status, wait := NoWait,
                                                  counters := r.counters.(availableAt := now))];
      }
    }

    /** Moves each waiter of a superseded row to its successor. */
    method HandWaitingParents(superseded: nat, successor: nat)
      modifies this`workflows
      ensures workflows == RepointParents(old(workflows), superseded, successor)
    {
      var parents: set<nat> := set w: nat | w in workflows && workflows[w].WaitsOnChild(superseded);
      ghost var all := parents;
      while |parents| > 0
        invariant parents <= all && workflows.Keys == old(workflows).Keys
        invariant forall w :: w in workflows ==>
          workflows[w] == (if w in all && w !in parents
                           then old(workflows)[w].(wait := OnChild(successor))
                           else old(workflows)[w])
        decreases |parents|
      {
        var w :| w in parents;
        parents := parents - {w};
        workflows := workflows[w := workflows[w].(wait := OnChild(successor))];
      }
      assert workflows == RepointParents(old(workflows), superseded, successor);
    }

    /** Revokes the open activities of a workflow one by one. */
    method CancelOwnActivities(w: nat, outcome: AttemptOutcome)
      modifies this`activities
      ensures activities == CancelActivities(old(activities), w, outcome)
    {
      var open: set<nat> := set a: nat | a in activities && activities[a].origin.workflow == w
        && (activities[a].status.ActPending? || activities[a].status.HoldsSlot());
      ghost var all := open;
      while |open| > 0
        invariant open <= all
        invariant activities.Keys == old(activities).Keys
        invariant forall a :: a in activities ==>
          activities[a] == (if a in all && a !in open
                            then CancelledActivity(old(activities)[a], outcome)
                            else old(activities)[a])
        decreases |open|
      {
        var a :| a in open;
        open := open - {a};
        RevokeActivity(a, outcome);
      }
      assert activities == CancelActivities(old(activities), w, outcome);
    }

    method RevokeActivity(a: nat, outcome: AttemptOutcome)
      requires a in activities
      modifies this`activities
      ensures activities == old(activities)[a := CancelledActivity(old(activities)[a], outcome)]
      ensures activities[a].status.HoldsSlot() <==> old(activities)[a].status.HoldsSlot()
      ensures !activities[a].status.ActPending? && !activities[a].status.ActRunning?
      ensures activities[a].attempts == old(activities)[a].attempts
      ensures forall claim: ActivityClaim :: claim.activity == a ==>
        (Leased(Snapshot(), claim) <==> old(Leased(Snapshot(), claim)))
      ensures ActivityOk(old(activities)[a]) ==> ActivityOk(activities[a])
    {
      RevokedKeeps(activities[a], outcome);
      var r := activities[a];
      if r.status.HoldsSlot() {
        activities := activities[a := r.(status := ActCancelling, revoked := Some(outcome))];
      } else if r.status.ActPending? {
        activities := activities[a := r.(status := ActCancelled, lease := None)];
      }
    }

    /** Cancels one workflow: activities, approvals, the row, then its waiters. */
    method CancelOneWorkflow(w: nat, outcome: AttemptOutcome, now: int)
      requires w in workflows
      modifies this
      ensures Snapshot() == CancelOne(old(Snapshot()), w, outcome, now)
    {
      CancelOwnActivities(w, outcome);
      CancelPendingApprovals(w);
      var r := workflows[w];
      workflows := workflows[w := r.(status := Cancelled, wait := NoWait, lease := None)];
      WakeWaitingParents(w, r.identity.definition, ChildFailed("child_cancelled"), now);
    }

    /** Cancels the pending approvals of a workflow one by one: none is left to decide. */
    method CancelPendingApprovals(w: nat)
      modifies this`approvals
      ensures approvals == CancelApprovals(old(approvals), w)
      ensures forall p :: p in approvals && approvals[p].workflow == w ==> !approvals[p].status.ApprovalPending?
    {
      var pending: set<nat> := set p: nat |
        p in approvals && approvals[p].workflow == w && approvals[p].status.ApprovalPending?;
      ghost var all := pending;
      while |pending| > 0
        invariant pending <= all && approvals.Keys == old(approvals).Keys
        invariant forall p :: p in approvals ==>
          approvals[p] == (if p in all && p !in pending
                           then old(approvals)[p].(status := ApprovalCancelled)
                           else old(approvals)[p])
        decreases |pending|
      {
        var p :| p in pending;
        pending := pending - {p};
        approvals := approvals[p := approvals[p].(status := ApprovalCancelled)];
      }
      assert approvals == CancelApprovals(old(approvals), w);
    }

    /** One statement cancels the dead letters of a workflow: none can be retried, and no row that can
        still run changes. */
    method CancelDeadLettered(w: nat)
      modifies this`activities
      ensures activities == CancelDeadLetters(old(activities), w)
      ensures forall a :: a in activities && activities[a].origin.workflow == w ==>
        !activities[a].status.ActDeadLettered?
      ensures forall a :: a in activities && (activities[a].status.HoldsSlot() || activities[a].status.ActPending?) ==>
        a in old(activities) && activities[a] == old(activities)[a]
      ensures forall a, id, spec, now :: a in activities && activities[a].origin.workflow == w ==>
        Retry(Snapshot(), a, id, spec, now).Abort?
    {
      activities := map a | a in activities ::
        if activities[a].origin.workflow == w && activities[a].status.ActDeadLettered?
        then activities[a].(status := ActCancelled, lease := None)
        else activities[a];
    }

    // ---- Walks along links -------------------------------------------------------------------

    /** The generation that restarted `w`. */
    method LockSuccessor(w: nat) returns (s: Option<nat>)
      requires KeysUnique(workflows)
      ensures s == Successor(workflows, w)
      ensures s.Some? ==> s.value in workflows && workflows[s.value].identity.restartedFrom == Some(w)
    {
      if v :| v in workflows && workflows[v].identity.restartedFrom == Some(w) {
        s := Some(v);
        ghost var spec := Successor(workflows, w);
        assert spec.value != v ==> DistinctKeys(workflows[spec.value].identity, workflows[v].identity);
      } else {
        s := None;
      }
    }

    /** Follows successors to the newest generation. */
    method LockNewestGeneration(w: nat) returns (newest: nat)
      requires LinksOk(workflows) && KeysUnique(workflows) && w in workflows
      ensures newest == Newest(workflows, w)
    {
      newest := w;
      var s := LockSuccessor(newest);
      while s.Some?
        invariant newest in workflows && s == Successor(workflows, newest)
        invariant Newest(workflows, newest) == Newest(workflows, w)
        decreases |Younger(workflows, newest)| + (if s.Some? then 1 else 0)
      {
        assert LinkOk(workflows, s.value);
        assert s.value in Younger(workflows, newest);
        ProperSubsetIsSmaller(Younger(workflows, s.value), Younger(workflows, newest));
        newest := s.value;
        s := LockSuccessor(newest);
      }
    }

    /** Follows parent links, else restart links, from the caller upwards. */
    method IsCallerOrAncestor(caller: nat, target: nat) returns (found: bool)
      requires LinksOk(workflows) && caller in workflows
      ensures found == Reaches(workflows, caller, target)
      ensures found <==> exists path :: UpwardPath(workflows, path) && path[0] == caller && path[|path| - 1] == target
    {
      WalkFindsAncestors(workflows, caller, target);
      var current := Some(caller);
      while current.Some?
        invariant current.Some? ==> current.value in workflows
        invariant Reaches(workflows, caller, target) == (current.Some? && Reaches(workflows, current.value, target))
        decreases if current.Some? then current.value + 1 else 0
      {
        if current.value == target { return true; }
        assert LinkOk(workflows, current.value);
        var links := workflows[current.value].identity;
        current := if links.parent.Some? then links.parent else links.restartedFrom;
      }
      return false;
    }

    // ---- The cancel cascade ---------------------------------------------------------------------

    /** Cancels a generation unless it is terminal, and puts it on the work list. */
    method CancelGeneration(generation: nat, parents: seq<nat>, outcome: AttemptOutcome, now: int,
                            ghost db0: Db, ghost root: nat, ghost p: nat, ghost order: seq<nat>)
      returns (pushed: seq<nat>, ghost more: seq<nat>)
      requires generation in workflows && OwnedGeneration(db0.workflows, p, generation)
      requires Cascading(db0, Snapshot(), root, order, outcome, now) && (p == root || p in Members(order))
      modifies this
      ensures Cascading(db0, Snapshot(), root, more, outcome, now)
      ensures Grown(db0.workflows, order, more) && pushed == parents + more[|order|..]
      ensures generation in workflows && workflows[generation].status.Terminal()
    {
      pushed, more := parents, order;
      if !workflows[generation].status.Terminal() {
        CascadeStep(db0, Snapshot(), root, order, p, generation, outcome, now);
        GrownSnoc(db0.workflows, order, order, generation);
        CancelOneWorkflow(generation, outcome, now);
        pushed, more := parents + [generation], order + [generation];
      }
    }

    /** Cancels the live generations of a child of `p`, oldest first. */
    method CancelGenerations(child: nat, parents: seq<nat>, outcome: AttemptOutcome, now: int,
                             ghost db0: Db, ghost root: nat, ghost p: nat, ghost order: seq<nat>)
      returns (pushed: seq<nat>, ghost more: seq<nat>)
      requires LinksOk(db0.workflows) && KeysUnique(db0.workflows)
      requires Cascading(db0, Snapshot(), root, order, outcome, now) && (p == root || p in Members(order))
      requires child in db0.workflows && OwnedBy(db0.workflows[child], p)
      modifies this
      ensures Cascading(db0, Snapshot(), root, more, outcome, now)
      ensures Grown(db0.workflows, order, more) && pushed == parents + more[|order|..]
      ensures Covered(db0.workflows, child, more)
    {
      pushed, more := parents, order;
      var current := Some(child);
      ghost var last := child;
      while current.Some?
        invariant last in db0.workflows && Generation(db0.workflows, child, last)
        invariant current.Some? ==> current.value == last
        invariant current.None? ==>
          last in workflows && Successor(db0.workflows, last).None? && workflows[last].status.Terminal()
        invariant Cascading(db0, Snapshot(), root, more, outcome, now)
        invariant Grown(db0.workflows, order, more) && pushed == parents + more[|order|..]
        decreases current.Some?, |Younger(db0.workflows, last)|
      {
        GenerationOwned(db0.workflows, p, child, last);
        ghost var before := more;
        var generation := current.value;
        pushed, more := CancelGeneration(generation, pushed, outcome, now, db0, root, p, more);
        GrownTransitive(db0.workflows, order, before, more);
        CascadeLinks(db0, Snapshot(), root, more, outcome, now, last);
        current := LockSuccessor(generation);
        if current.Some? {
          last := current.value;
        }
      }
      CoversChain(db0, Snapshot(), root, more, outcome, now, child, last);
    }

    /** Cancels the generations of one of the children of `p` that are left. */
    method CancelChild(child: nat, parents: seq<nat>, before: seq<nat>, outcome: AttemptOutcome, now: int,
                       ghost db0: Db, ghost root: nat, ghost p: nat, ghost order: seq<nat>, ghost so: seq<nat>,
                       ghost children: set<nat>)
      returns (pushed: seq<nat>, ghost more: seq<nat>)
      requires LinksOk(db0.workflows) && KeysUnique(db0.workflows)
      requires Cascading(db0, Snapshot(), root, so, outcome, now) && (p == root || p in Members(so))
      requires child in db0.workflows && OwnedBy(db0.workflows[child], p)
      requires Grown(db0.workflows, order, so) && before == parents + so[|order|..]
      requires CoveredBut(db0.workflows, p, children, so)
      modifies this
      ensures Cascading(db0, Snapshot(), root, more, outcome, now)
      ensures Grown(db0.workflows, order, more) && pushed == parents + more[|order|..]
      ensures CoveredBut(db0.workflows, p, children - {child}, more)
    {
      pushed, more := CancelGenerations(child, before, outcome, now, db0, root, p, so);
      ChildIsCovered(db0.workflows, p, children, child, parents, order, so, more);
    }

    /** Cancels what `p` owns, child by child in id order. */
    method CancelChildren(p: nat, parents: seq<nat>, outcome: AttemptOutcome, now: int,
                          ghost db0: Db, ghost root: nat, ghost order: seq<nat>)
      returns (pushed: seq<nat>, ghost more: seq<nat>)
      requires LinksOk(db0.workflows) && KeysUnique(db0.workflows)
      requires Cascading(db0, Snapshot(), root, order, outcome, now) && (p == root || p in Members(order))
      modifies this
      ensures Cascading(db0, Snapshot(), root, more, outcome, now)
      ensures Grown(db0.workflows, order, more) && pushed == parents + more[|order|..]
      ensures Swept(db0.workflows, p, more)
    {
      pushed, more := parents, order;
      var children: set<nat> := set c: nat | c in workflows && OwnedBy(workflows[c], p);
      CascadeChildren(db0, Snapshot(), root, order, outcome, now, p);
      while |children| > 0
        invariant forall c :: c in children ==> c in db0.workflows && OwnedBy(db0.workflows[c], p)
        invariant CoveredBut(db0.workflows, p, children, more)
        invariant Cascading(db0, Snapshot(), root, more, outcome, now)
        invariant Grown(db0.workflows, order, more) && pushed == parents + more[|order|..]
        decreases |children|
      {
        var child := Least(children);
        pushed, more := CancelChild(child, parents, pushed, outcome, now, db0, root, p, order, more, children);
        children := children - {child};
      }
      assert children == {};
      CoversOwned(db0.workflows, p, more);
    }

    /** Cancels the owned descendants of `root` with a work list of parents. The rows it cancels are
        the least closed set, each once. */
    method CancelOwnedDescendants(root: nat, outcome: AttemptOutcome, now: int)
      returns (ghost order: seq<nat>)
      requires LinksOk(workflows) && KeysUnique(workflows)
      modifies this
      ensures CascadeOrder(old(workflows), root, order)
      ensures Snapshot() == CancelAll(old(Snapshot()), order, outcome, now)
    {
      ghost var db0 := Snapshot();
      var parents := [root];
      order := [];
      while |parents| > 0
        invariant Cascading(db0, Snapshot(), root, order, outcome, now)
        invariant forall p :: p in parents ==> p == root || p in Members(order)
        invariant AllSwept(db0.workflows, root, order, parents)
        decreases |Open(db0.workflows, order)|, |parents|
      {
        var p := parents[|parents| - 1];
        assert p in parents;
        ghost var waiting, before := parents, order;
        parents := parents[..|parents| - 1];
        parents, order := CancelChildren(p, parents, outcome, now, db0, root, order);
        SweptMore(db0.workflows, root, before, order, waiting);
      }
      CascadeDone(db0, Snapshot(), root, order, outcome, now);
    }
  }

  method Least(s: set<nat>) returns (m: nat)
    requires |s| > 0
    ensures m in s && forall x :: x in s ==> m <= x
  {
    m :| m in s;
    var rest := s - {m};
    while |rest| > 0
      invariant rest <= s && m in s
      invariant forall x :: x in s && x !in rest ==> m <= x
      decreases |rest|
    {
      var x :| x in rest;
      rest := rest - {x};
      if x < m { m := x; }
    }
  }
}
