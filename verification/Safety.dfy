/** The invariant of the whole system, kept by every step of every run, and
    what it means: fenced commits, leased handlers and topic caps. */
module Safety {
  import opened Rows
  import opened Transactions
  import opened Invariant
  import opened Preservation
  import opened Commits
  import opened System
  import opened Batches
  import opened Protocol

  // ---- The invariant ----------------------------------------------------------------

  /** The holder of the lease of a running workflow remembers the row as it is stored, and the event it
      loaded is the next one. */
  ghost predicate WorkflowClaimOk(s: Sys, w: nat)
    requires w in s.db.workflows
  {
    var r := s.db.workflows[w];
    r.lease.Some? ==>
      && r.lease.value.token in s.claims
      && var claim := s.claims[r.lease.value.token];
      && claim.id == w && claim.row == r
      && (claim.loaded.Some? ==> claim.loaded.value == r.delivered + 1)
  }

  ghost predicate ClaimsOk(s: Sys) {
    && (forall w {:trigger WorkflowClaimOk(s, w)} :: w in s.db.workflows ==> WorkflowClaimOk(s, w))
    && (forall t :: t in s.claims ==> s.claims[t].token == t)
  }

  /** The holder of an activity lease remembers the row, and no renewal in flight moves the lease back. */
  ghost predicate LeaseOk(s: Sys, a: nat)
    requires a in s.db.activities
  {
    var r := s.db.activities[a];
    r.lease.Some? ==>
      var t, expires, duration := r.lease.value.token, r.lease.value.expires, r.origin.spec.leaseMillis;
      && t in s.leases
      && Remembers(s.leases[t], a, r)
      && expires <= Millis(s.clock) + duration
      && (t in s.renewals ==> expires <= s.renewals[t].sampled + duration)
  }

  ghost predicate Remembers(claim: ActivityClaim, a: nat, r: Activity)
    requires r.lease.Some?
  {
    && claim == ClaimOf(a, r).(maxAttempts := claim.maxAttempts)
    && (r.status.ActRunning? ==> claim.maxAttempts == r.maxAttempts)
  }

  ghost predicate LeasesOk(s: Sys) {
    && (forall a {:trigger LeaseOk(s, a)} :: a in s.db.activities ==> LeaseOk(s, a))
    && (forall t :: t in s.leases ==> s.leases[t].token == t)
  }

  ghost predicate RenewalsOk(s: Sys) {
    forall t :: t in s.renewals ==>
      && t in s.leases
      && s.renewals[t].sampled <= Millis(s.clock)
      && s.renewals[t].started < (s.renewals[t].sampled + 1) * 1000
  }

  ghost predicate Executing(s: Sys, t: nat) {
    t in s.handlers && s.clock < s.handlers[t].deadline
  }

  /** An executing handler holds the lease of its activity, and its deadline is not after the lease. */
  ghost predicate HandlerOk(s: Sys, t: nat) {
    Executing(s, t) ==>
      var a := s.handlers[t].activity;
      && a in s.db.activities
      && s.db.activities[a].lease.Some?
      && s.db.activities[a].lease.value.token == t
      && s.handlers[t].deadline <= s.db.activities[a].lease.value.expires * 1000
  }

  ghost predicate HandlersOk(s: Sys) {
    forall t {:trigger HandlerOk(s, t)} :: t in s.handlers ==> HandlerOk(s, t)
  }

  ghost predicate CapsOk(s: Sys) {
    forall topic :: topic in s.caps ==> |Slots(s.db, topic)| <= s.caps[topic]
  }

  ghost predicate TokensOk(s: Sys) {
    && s.claims.Keys <= s.issued && s.leases.Keys <= s.issued
    && (forall id, i :: id in s.batches && 0 <= i < |s.batches[id].ops| && s.batches[id].ops[i].Take? ==>
          s.batches[id].ops[i].token in s.issued && s.batches[id].ops[i].token !in s.leases)
  }

  /** No two rows of batches carry the same token. */
  ghost predicate TokensDistinct(batches: map<nat, Batch>) {
    forall id, i, jd, j :: id in batches && jd in batches
      && 0 <= i < |batches[id].ops| && 0 <= j < |batches[jd].ops| && (id != jd || i != j)
      ==> DifferentTokens(batches[id].ops[i], batches[jd].ops[j])
  }

  ghost predicate DifferentTokens(op: RowOp, other: RowOp) {
    op.Take? && other.Take? ==> op.token != other.token
  }

  ghost predicate Apart(b: Batch, c: Batch) {
    && b.topics !! c.topics
    && (forall i, j :: 0 <= i < |b.ops| && 0 <= j < |c.ops| ==>
          b.ops[i].activity != c.ops[j].activity && b.ops[i].workflow != c.ops[j].workflow)
  }

  ghost predicate BatchesOk(s: Sys) {
    && (forall id {:trigger BatchOk(s.db, s.clock, s.caps, s.batches[id])} :: id in s.batches ==>
          BatchOk(s.db, s.clock, s.caps, s.batches[id]))
    && (forall id, jd {:trigger Apart(s.batches[id], s.batches[jd])} ::
          id in s.batches && jd in s.batches && id != jd ==> Apart(s.batches[id], s.batches[jd]))
  }

  /** What concerns one database state and the processes that hold leases of its rows. */
  ghost predicate HoldersOk(s: Sys) {
    ClaimsOk(s) && LeasesOk(s) && RenewalsOk(s) && HandlersOk(s)
  }

  ghost predicate SysInv(s: Sys) {
    && Inv(s.db)
    && HoldersOk(s)
    && CapsOk(s)
    && TokensOk(s) && TokensDistinct(s.batches)
    && BatchesOk(s)
  }

  // ---- Calm transactions ----------------------------------------------------------------

  lemma CalmRelies(db: Db, db': Db, released: set<nat>, topics: set<string>)
    requires Inv(db) && Inv(db') && Calm(db, db', released)
    ensures Rely(db, db', topics)
  {
    forall a | a in db'.activities && HoldsSlotOf(db'.activities[a], topics) ensures HeldBefore(db, db', a) {
      assert a in db.activities;
      assert ActivityOk(db.activities[a]) && ActivityOk(db'.activities[a]);
    }
  }

  lemma CalmKeepsCaps(db: Db, db': Db, released: set<nat>, topic: string)
    requires Calm(db, db', released)
    ensures |Slots(db', topic)| <= |Slots(db, topic)|
  {
    SubsetIsNoLarger(Slots(db', topic), Slots(db, topic));
  }

  lemma CalmKeepsBatches(s: Sys, db': Db, released: set<nat>)
    requires Inv(s.db) && BatchesOk(s) && Inv(db') && Calm(s.db, db', released) && RespectsAllLocks(s, db')
    ensures BatchesOk(s.(db := db'))
  {
    var s' := s.(db := db');
    forall id | id in s'.batches ensures BatchOk(s'.db, s'.clock, s'.caps, s'.batches[id]) {
      assert BatchOk(s.db, s.clock, s.caps, s.batches[id]);
      CalmRelies(s.db, db', released, s.batches[id].topics);
      BatchFrame(s.db, db', s.clock, s.clock, s.caps, s.batches[id]);
    }
    forall id, jd | id in s'.batches && jd in s'.batches && id != jd
      ensures Apart(s'.batches[id], s'.batches[jd])
    {
      assert Apart(s.batches[id], s.batches[jd]);
    }
  }

  /** A released row has no executing handler. */
  ghost predicate ReleasedIdle(s: Sys, released: set<nat>) {
    forall t :: Executing(s, t) ==> s.handlers[t].activity !in released
  }

  lemma CalmKeepsHolders(s: Sys, db': Db, released: set<nat>)
    requires Inv(s.db) && HoldersOk(s) && Inv(db') && Calm(s.db, db', released) && ReleasedIdle(s, released)
    ensures HoldersOk(s.(db := db'))
  {
    var s' := s.(db := db');
    forall w | w in db'.workflows ensures WorkflowClaimOk(s', w) {
      assert WorkflowOk(db'.workflows[w]);
      if db'.workflows[w].lease.Some? { assert WorkflowClaimOk(s, w); }
    }
    forall a | a in db'.activities ensures LeaseOk(s', a) {
      assert ActivityOk(db'.activities[a]);
      if db'.activities[a].lease.Some? {
        assert a in s.db.activities && LeaseOk(s, a);
      }
    }
    forall t | t in s'.handlers ensures HandlerOk(s', t) {
      assert HandlerOk(s, t);
      if Executing(s, t) {
        assert ActivityOk(s.db.activities[s.handlers[t].activity]);
        assert ActivityOk(db'.activities[s.handlers[t].activity]);
      }
    }
  }

  lemma CalmKeeps(s: Sys, tx: Tx, s': Sys, released: set<nat>)
    requires SysInv(s) && Committed(s, tx, s')
    requires tx.Commit? ==> Inv(tx.db) && Calm(s.db, tx.db, released) && ReleasedIdle(s, released)
    ensures SysInv(s')
  {
    if tx.Commit? {
      CalmKeepsHolders(s, tx.db, released);
      CalmKeepsBatches(s, tx.db, released);
      forall topic | topic in s'.caps ensures |Slots(s'.db, topic)| <= s'.caps[topic] {
        CalmKeepsCaps(s.db, tx.db, released, topic);
      }
    }
  }

  // ---- Steps -----------------------------------------------------------------------------

  lemma ActKeeps(s: Sys, action: Action, now: int, s': Sys)
    requires SysInv(s) && ActNext(s, action, now, s')
    ensures SysInv(s')
  {
    if Perform(s.db, action, now).Commit? {
      PerformKeeps(s.db, action, now);
      PerformCalm(s.db, action, now);
    }
    CalmKeeps(s, Perform(s.db, action, now), s', {});
  }

  /** The cached row of any claim agrees with the stored row while the claim holds the fence. */
  lemma FencedClaimAgrees(s: Sys, t: nat)
    requires Inv(s.db) && ClaimsOk(s) && t in s.claims && Fenced(s.db, s.claims[t])
    ensures s.claims[t].row == s.db.workflows[s.claims[t].id]
    ensures s.claims[t].loaded.Some? ==> CacheAgrees(s.db, s.claims[t], s.claims[t].loaded.value)
  {
    assert WorkflowClaimOk(s, s.claims[t].id);
  }

  lemma TransitionStepKeeps(s: Sys, t: nat, transition: Transition, now: int, s': Sys)
    requires SysInv(s) && TransitionNext(s, t, transition, now, s')
    ensures SysInv(s')
  {
    var claim := s.claims[t];
    var tx := CommitTransition(s.db, claim, claim.loaded.value, transition, now);
    if tx.Commit? {
      FencedClaimAgrees(s, t);
      TransitionKeeps(s.db, claim, claim.loaded.value, transition, now);
      TransitionCalm(s.db, claim, claim.loaded.value, transition, now);
    }
    CalmKeeps(s, tx, s', {});
  }

  lemma FailureStepKeeps(s: Sys, t: nat, configuredMax: nat, availableAt: int, now: int, s': Sys)
    requires SysInv(s) && FailureNext(s, t, configuredMax, availableAt, now, s')
    ensures SysInv(s')
  {
    var tx := ActivationFailure(s.db, s.claims[t], configuredMax, availableAt, now);
    if tx.Commit? {
      ActivationFailureKeeps(s.db, s.claims[t], configuredMax, availableAt, now);
      FailureCalm(s.db, s.claims[t], configuredMax, availableAt, now);
    }
    CalmKeeps(s, tx, s', {});
  }

  lemma FinishStepKeeps(s: Sys, t: nat, outcome: HandlerOutcome, now: int, s': Sys)
    requires SysInv(s) && FinishNext(s, t, outcome, now, s')
    ensures SysInv(s')
  {
    var claim := s.leases[t];
    var tx := Finish(s.db, claim, outcome, now);
    if tx.Commit? {
      assert LeaseOk(s, claim.activity) && ActivityOk(s.db.activities[claim.activity]);
      LeasedClaimAgrees(s, t);
      FinishKeeps(s.db, claim, outcome, now);
      FinishCalm(s.db, claim, outcome, now);
      assert ReleasedIdle(s, {claim.activity}) by {
        forall u | Executing(s, u) ensures s.handlers[u].activity != claim.activity {
          assert HandlerOk(s, u);
        }
      }
    }
    CalmKeeps(s, tx, s', {claim.activity});
  }

  /** What a worker remembers of a lease it still holds is what the row says. */
  lemma LeasedClaimAgrees(s: Sys, t: nat)
    requires Inv(s.db) && LeasesOk(s) && t in s.leases && Leased(s.db, s.leases[t])
    ensures ClaimAgrees(s.db, s.leases[t])
  {
    assert LeaseOk(s, s.leases[t].activity);
  }

  /** Time passes, handlers stop, renewals get lost. */
  lemma SameHolders(s: Sys, s': Sys)
    requires HoldersOk(s) && s'.db == s.db && s'.clock >= s.clock && s'.claims == s.claims && s'.leases == s.leases
    requires forall t :: t in s'.renewals ==> t in s.renewals && s'.renewals[t] == s.renewals[t]
    requires forall t :: t in s'.handlers ==> t in s.handlers && s'.handlers[t] == s.handlers[t]
    ensures HoldersOk(s')
  {
    forall w | w in s'.db.workflows ensures WorkflowClaimOk(s', w) { assert WorkflowClaimOk(s, w); }
    forall a | a in s'.db.activities ensures LeaseOk(s', a) { assert LeaseOk(s, a); }
    forall t | t in s'.handlers ensures HandlerOk(s', t) { assert HandlerOk(s, t); }
  }

  /** Steps that change neither the database nor a batch. */
  lemma SameDbKeepsBatches(s: Sys, s': Sys)
    requires BatchesOk(s) && s'.db == s.db && s'.clock >= s.clock && s'.caps == s.caps && s'.batches == s.batches
    ensures BatchesOk(s')
  {
    forall id | id in s'.batches ensures BatchOk(s'.db, s'.clock, s'.caps, s'.batches[id]) {
      assert BatchOk(s.db, s.clock, s.caps, s.batches[id]);
    }
    forall id, jd | id in s'.batches && jd in s'.batches && id != jd ensures Apart(s'.batches[id], s'.batches[jd]) {
      assert Apart(s.batches[id], s.batches[jd]);
    }
  }

  /** A numbered inbox shows the delivery after `delivered`. */
  lemma {:induction false} NextDeliveryIs(inbox: seq<Delivery>, first: nat, delivered: nat)
    requires forall i :: 0 <= i < |inbox| ==> inbox[i].sequence == first + i
    ensures NextDelivery(inbox, delivered) ==
      if delivered >= first + |inbox| - 1 || inbox == [] then None
      else Some(if delivered < first then first else delivered + 1)
  {
    if inbox != [] {
      forall i | 0 <= i < |inbox[1..]| ensures inbox[1..][i].sequence == first + 1 + i {
        assert inbox[1..][i] == inbox[i + 1];
      }
      NextDeliveryIs(inbox[1..], first + 1, delivered);
    }
  }

  lemma LoadStepKeeps(s: Sys, t: nat, s': Sys)
    requires SysInv(s) && LoadNext(s, t, s')
    ensures SysInv(s')
  {
    forall w | w in s'.db.workflows ensures WorkflowClaimOk(s', w) {
      assert WorkflowClaimOk(s, w);
      var r := s.db.workflows[w];
      if r.lease.Some? && r.lease.value.token == t {
        assert WorkflowOk(r);
        NextDeliveryIs(r.inbox, 1, r.delivered);
      }
    }
    forall a | a in s'.db.activities ensures LeaseOk(s', a) { assert LeaseOk(s, a); }
    forall u | u in s'.handlers ensures HandlerOk(s', u) { assert HandlerOk(s, u); }
    SameDbKeepsBatches(s, s');
  }

  lemma SendRenewalKeeps(s: Sys, t: nat, started: int, s': Sys)
    requires SysInv(s) && SendNext(s, t, started, s')
    ensures SysInv(s')
  {
    forall w | w in s'.db.workflows ensures WorkflowClaimOk(s', w) { assert WorkflowClaimOk(s, w); }
    forall a | a in s'.db.activities ensures LeaseOk(s', a) { assert LeaseOk(s, a); }
    forall u | u in s'.handlers ensures HandlerOk(s', u) { assert HandlerOk(s, u); }
    SameDbKeepsBatches(s, s');
  }

  /** Steps that only let time pass or forget something. */
  lemma QuietKeeps(s: Sys, s': Sys)
    requires SysInv(s) && s'.clock >= s.clock
    requires s' == s.(clock := s'.clock, handlers := s'.handlers, renewals := s'.renewals, missed := s'.missed)
    requires forall t :: t in s'.renewals ==> t in s.renewals && s'.renewals[t] == s.renewals[t]
    requires forall t :: t in s'.handlers ==> t in s.handlers && s'.handlers[t] == s.handlers[t]
    ensures SysInv(s')
  {
    SameHolders(s, s');
    SameDbKeepsBatches(s, s');
  }

  lemma ClaimStepKeeps(s: Sys, w: nat, t: nat, leaseMillis: int, now: int, s': Sys)
    requires SysInv(s) && ClaimNext(s, w, t, leaseMillis, now, s')
    ensures SysInv(s')
  {
    var tx := ClaimWorkflow(s.db, w, t, leaseMillis, now);
    if tx.Commit? {
      ClaimWorkflowKeeps(s.db, w, t, leaseMillis, now);
      ClaimKeepsHolders(s, w, t, leaseMillis, now, s');
      ClaimKeepsBatches(s, tx.db, s');
    }
  }

  lemma ClaimKeepsHolders(s: Sys, w: nat, t: nat, leaseMillis: int, now: int, s': Sys)
    requires Inv(s.db) && HoldersOk(s) && s.claims.Keys <= s.issued && ClaimNext(s, w, t, leaseMillis, now, s')
    requires ClaimWorkflow(s.db, w, t, leaseMillis, now).Commit?
    ensures HoldersOk(s')
  {
    forall v | v in s'.db.workflows ensures WorkflowClaimOk(s', v) {
      assert WorkflowClaimOk(s, v) && WorkflowOk(s.db.workflows[v]);
    }
    forall a | a in s'.db.activities ensures LeaseOk(s', a) { assert LeaseOk(s, a); }
    forall u | u in s'.handlers ensures HandlerOk(s', u) { assert HandlerOk(s, u); }
  }

  /** The activities of a batch's topics are as they were. */
  lemma ClaimKeepsBatches(s: Sys, db': Db, s': Sys)
    requires Inv(s.db) && BatchesOk(s) && Inv(db') && db'.activities == s.db.activities && RespectsAllLocks(s, db')
    requires s'.db == db' && s'.clock == s.clock && s'.caps == s.caps && s'.batches == s.batches
    ensures BatchesOk(s')
  {
    forall id | id in s'.batches ensures BatchOk(s'.db, s'.clock, s'.caps, s'.batches[id]) {
      assert BatchOk(s.db, s.clock, s.caps, s.batches[id]);
      forall a | a in db'.activities && HoldsSlotOf(db'.activities[a], s.batches[id].topics)
        ensures HeldBefore(s.db, db', a)
      {
        assert ActivityOk(s.db.activities[a]);
      }
      BatchFrame(s.db, db', s.clock, s.clock, s.caps, s.batches[id]);
    }
    forall id, jd | id in s'.batches && jd in s'.batches && id != jd ensures Apart(s'.batches[id], s'.batches[jd]) {
      assert Apart(s.batches[id], s.batches[jd]);
    }
  }

  // ---- Renewals ------------------------------------------------------------------------------

  lemma LandKeepsHolders(s: Sys, t: nat, s': Sys)
    requires Inv(s.db) && HoldersOk(s) && LandNext(s, t, s')
    requires Heartbeat(s.db, s.leases[t], s.renewals[t].sampled).Commit?
    ensures HoldersOk(s')
  {
    var a := s.leases[t].activity;
    assert LeaseOk(s, a);
    forall w | w in s'.db.workflows ensures WorkflowClaimOk(s', w) { assert WorkflowClaimOk(s, w); }
    forall b | b in s'.db.activities ensures LeaseOk(s', b) { assert LeaseOk(s, b); }
    forall u | u in s'.handlers ensures HandlerOk(s', u) {
      assert HandlerOk(s, u);
    }
  }

  /** A renewal moves a lease forward, never back. */
  lemma LandRelies(s: Sys, t: nat, topics: set<string>)
    requires Inv(s.db) && HoldersOk(s) && t in s.renewals && t in s.leases
    requires Heartbeat(s.db, s.leases[t], s.renewals[t].sampled).Commit?
    ensures Rely(s.db, Heartbeat(s.db, s.leases[t], s.renewals[t].sampled).db, topics)
  {
    var db' := Heartbeat(s.db, s.leases[t], s.renewals[t].sampled).db;
    forall b | b in db'.activities && HoldsSlotOf(db'.activities[b], topics) ensures HeldBefore(s.db, db', b) {
      assert ActivityOk(s.db.activities[b]) && LeaseOk(s, b);
    }
  }

  lemma LandKeepsBatches(s: Sys, t: nat, s': Sys)
    requires Inv(s.db) && HoldersOk(s) && BatchesOk(s) && LandNext(s, t, s')
    requires Heartbeat(s.db, s.leases[t], s.renewals[t].sampled).Commit? && Inv(s'.db)
    ensures BatchesOk(s')
  {
    forall id | id in s'.batches ensures BatchOk(s'.db, s'.clock, s'.caps, s'.batches[id]) {
      assert BatchOk(s.db, s.clock, s.caps, s.batches[id]);
      LandRelies(s, t, s.batches[id].topics);
      BatchFrame(s.db, s'.db, s.clock, s.clock, s.caps, s.batches[id]);
    }
    forall id, jd | id in s'.batches && jd in s'.batches && id != jd ensures Apart(s'.batches[id], s'.batches[jd]) {
      assert Apart(s.batches[id], s.batches[jd]);
    }
  }

  lemma LandKeepsCaps(s: Sys, t: nat, s': Sys)
    requires CapsOk(s) && LandNext(s, t, s') && Heartbeat(s.db, s.leases[t], s.renewals[t].sampled).Commit?
    ensures CapsOk(s')
  {
    forall topic | topic in s'.caps ensures |Slots(s'.db, topic)| <= s'.caps[topic] {
      assert Slots(s'.db, topic) == Slots(s.db, topic);
    }
  }

  lemma LandKeeps(s: Sys, t: nat, s': Sys)
    requires SysInv(s) && LandNext(s, t, s')
    ensures SysInv(s')
  {
    var tx := Heartbeat(s.db, s.leases[t], s.renewals[t].sampled);
    if tx.Commit? {
      HeartbeatKeeps(s.db, s.leases[t], s.renewals[t].sampled);
      LandKeepsHolders(s, t, s');
      LandKeepsBatches(s, t, s');
      LandKeepsCaps(s, t, s');
    } else {
      QuietKeeps(s, s');
    }
  }

  // ---- Batches ---------------------------------------------------------------------------------

  /** A statement keeps the locks and appends at most one row, whose locks were free. */
  ghost predicate Grows(s: Sys, id: nat, b: Batch, b': Batch, taken: Option<nat>) {
    && b'.topics == b.topics
    && (|| b'.ops == b.ops
        || (&& |b'.ops| == |b.ops| + 1 && b'.ops[..|b.ops|] == b.ops
            && LocksFree(s, id, b'.ops[|b.ops|])
            && (b'.ops[|b.ops|].Take? ==> taken == Some(b'.ops[|b.ops|].token))))
  }

  lemma StatementGrows(s: Sys, id: nat, b: Batch, b': Batch, taken: Option<nat>)
    requires Statement(s, id, b, b', taken)
    ensures Grows(s, id, b, b', taken)
  {
  }

  lemma GrowsApart(s: Sys, id: nat, b: Batch, b': Batch, taken: Option<nat>, other: nat)
    requires Grows(s, id, b, b', taken) && other in s.batches && other != id
    requires Apart(b, s.batches[other])
    ensures Apart(b', s.batches[other]) && Apart(s.batches[other], b')
  {
    var c := s.batches[other];
    forall i, j | 0 <= i < |b'.ops| && 0 <= j < |c.ops|
      ensures b'.ops[i].activity != c.ops[j].activity && b'.ops[i].workflow != c.ops[j].workflow
    {
      if i < |b.ops| {
        assert b'.ops[i] == b.ops[i];
      } else {
        assert !LocksActivity(c, b'.ops[i].activity) && !LocksWorkflow(c, b'.ops[i].workflow);
      }
    }
  }

  lemma GrowsTokens(s: Sys, id: nat, b': Batch, taken: Option<nat>, s': Sys)
    requires TokensOk(s) && TokensDistinct(s.batches) && id in s.batches
    requires Grows(s, id, s.batches[id], b', taken) && (taken.Some? ==> taken.value !in s.issued)
    requires s' == s.(batches := s.batches[id := b'],
                      issued := if taken.Some? then s.issued + {taken.value} else s.issued)
    ensures TokensOk(s') && TokensDistinct(s'.batches)
  {
    var b := s.batches[id];
    forall jd, i | jd in s'.batches && 0 <= i < |s'.batches[jd].ops|
      ensures jd != id || i < |b.ops| ==> i < |s.batches[jd].ops| && s'.batches[jd].ops[i] == s.batches[jd].ops[i]
    {
      if jd == id && i < |b.ops| { assert b'.ops[i] == b.ops[i]; }
    }
    forall id1, i, jd, j | id1 in s'.batches && jd in s'.batches
      && 0 <= i < |s'.batches[id1].ops| && 0 <= j < |s'.batches[jd].ops| && (id1 != jd || i != j)
      ensures DifferentTokens(s'.batches[id1].ops[i], s'.batches[jd].ops[j])
    {
      if (id1 != id || i < |b.ops|) && (jd != id || j < |b.ops|) {
        assert DifferentTokens(s.batches[id1].ops[i], s.batches[jd].ops[j]);
      }
    }
  }

  lemma StatementKeepsBatches(s: Sys, id: nat, next: Batch, taken: Option<nat>, s': Sys)
    requires BatchesOk(s) && StatementNext(s, id, next, taken, s')
    ensures BatchesOk(s')
  {
    assert BatchOk(s.db, s.clock, s.caps, s.batches[id]);
    StatementKeepsBatch(s, id, s.batches[id], next, taken);
    StatementGrows(s, id, s.batches[id], next, taken);
    ReplaceKeepsBatches(s, id, next, taken, s');
  }

  lemma ReplaceKeepsBatches(s: Sys, id: nat, next: Batch, taken: Option<nat>, s': Sys)
    requires BatchesOk(s) && id in s.batches && Grows(s, id, s.batches[id], next, taken)
    requires BatchOk(s.db, s.clock, s.caps, next)
    requires s'.db == s.db && s'.clock == s.clock && s'.caps == s.caps && s'.batches == s.batches[id := next]
    ensures BatchesOk(s')
  {
    forall jd | jd in s'.batches ensures BatchOk(s'.db, s'.clock, s'.caps, s'.batches[jd]) {
      assert jd != id ==> BatchOk(s.db, s.clock, s.caps, s.batches[jd]);
    }
    forall jd, kd | jd in s'.batches && kd in s'.batches && jd != kd ensures Apart(s'.batches[jd], s'.batches[kd]) {
      assert Apart(s.batches[jd], s.batches[kd]) && Apart(s.batches[kd], s.batches[jd]);
      if jd == id { GrowsApart(s, id, s.batches[id], next, taken, kd); }
      if kd == id { GrowsApart(s, id, s.batches[id], next, taken, jd); }
    }
  }

  lemma StatementKeeps(s: Sys, id: nat, next: Batch, taken: Option<nat>, s': Sys)
    requires SysInv(s) && StatementNext(s, id, next, taken, s')
    ensures SysInv(s')
  {
    StatementGrows(s, id, s.batches[id], next, taken);
    GrowsTokens(s, id, next, taken, s');
    SameHolders(s, s');
    StatementKeepsBatches(s, id, next, taken, s');
  }

  lemma BeginKeepsBatches(s: Sys, id: nat, topics: set<string>, started: int, now: int, s': Sys)
    requires CapsOk(s) && BatchesOk(s) && BeginNext(s, id, topics, started, now, s')
    ensures BatchesOk(s')
  {
    forall jd | jd in s'.batches ensures BatchOk(s'.db, s'.clock, s'.caps, s'.batches[jd]) {
      if jd != id { assert BatchOk(s.db, s.clock, s.caps, s.batches[jd]); }
    }
    forall jd, kd | jd in s'.batches && kd in s'.batches && jd != kd ensures Apart(s'.batches[jd], s'.batches[kd]) {
      if jd != id && kd != id { assert Apart(s.batches[jd], s.batches[kd]); }
    }
  }

  lemma BeginKeeps(s: Sys, id: nat, topics: set<string>, started: int, now: int, s': Sys)
    requires SysInv(s) && BeginNext(s, id, topics, started, now, s')
    ensures SysInv(s')
  {
    SameHolders(s, s');
    BeginKeepsBatches(s, id, topics, started, now, s');
  }

  lemma AbortKeeps(s: Sys, id: nat, s': Sys)
    requires SysInv(s) && s' == s.(batches := s.batches - {id})
    ensures SysInv(s')
  {
    SameHolders(s, s');
    forall jd | jd in s'.batches ensures BatchOk(s'.db, s'.clock, s'.caps, s'.batches[jd]) {
      assert BatchOk(s.db, s.clock, s.caps, s.batches[jd]);
    }
    forall jd, kd | jd in s'.batches && kd in s'.batches && jd != kd ensures Apart(s'.batches[jd], s'.batches[kd]) {
      assert Apart(s.batches[jd], s.batches[kd]);
    }
  }
}
