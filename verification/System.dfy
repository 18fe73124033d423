/** The distributed system: coordinators, workers, operators and applications
    that act on one database through transactions.

    Every transaction is one step, except the activity claim batch, which is
    modelled statement by statement: other transactions commit between its
    statements, a plain read sees what is committed plus the batch's own
    writes, and a row the batch has written is locked until it ends.

    Assumptions. The database clock does not go back. Local clocks advance at
    the rate of the database clock, so local instants are written in database
    time. Topic caps are fixed. A handler has at most one renewal in flight.
    Lease tokens and row identifiers are fresh, and a row that names another
    row has a larger identifier. Clocks are in microseconds; the database
    shows milliseconds. */
module System {
  import opened Rows
  import opened Transactions

  // ---- State --------------------------------------------------------------------

  /** A renewal that was sent: the local instant taken before the database clock was sampled, and the sample. */
  datatype Renewal = Renewal(started: int, sampled: int)

  /** A handler that runs until it stops or its local deadline passes. */
  datatype Handler = Handler(activity: nat, deadline: int)

  datatype Phase =
    | Between
    | Reconciling(topic: string, todo: set<nat>, unsettled: set<nat>)
    | Taking(topic: string, wanted: nat)

  /** A claim batch in progress: the topics whose lock rows it holds, its clock
      sample, and the rows it wrote and not yet committed. */
  datatype Batch = Batch(topics: set<string>, started: int, now: int, phase: Phase, ops: seq<RowOp>)

  datatype Sys = Sys(
    db: Db,
    clock: int,
    caps: map<string, nat>,
    issued: set<nat>,
    claims: map<nat, WorkflowClaim>,
    leases: map<nat, ActivityClaim>,
    renewals: map<nat, Renewal>,
    handlers: map<nat, Handler>,
    batches: map<nat, Batch>,
    missed: set<(string, Key)>)

  function Millis(clock: int): int { clock / 1000 }

  /** Never later than the lease: the database clock was read after `started` and shows whole milliseconds. */
  function LocalDeadline(started: int, leaseMillis: int): int {
    started + (if leaseMillis >= 1 then leaseMillis - 1 else 0) * 1000
  }

  /** The activities that occupy the topic. */
  function Slots(db: Db, topic: string): set<nat> {
    set a | a in db.activities && db.activities[a].origin.spec.topic == topic && db.activities[a].status.HoldsSlot()
  }

  // ---- Claim batches --------------------------------------------------------------

  /** Each row passed its check when it was locked, in the state its predecessors left. */
  predicate OpsEnabled(db: Db, ops: seq<RowOp>, now: int)
    decreases |ops|
  {
    ops == [] || (OpEnabled(db, ops[0], now) && OpsEnabled(ApplyOp(db, ops[0], now), ops[1..], now))
  }

  function ApplyOps(db: Db, ops: seq<RowOp>, now: int): Db
    requires OpsEnabled(db, ops, now)
    decreases |ops|
  {
    if ops == [] then db else ApplyOps(ApplyOp(db, ops[0], now), ops[1..], now)
  }

  /** What the statements of the batch see. */
  function View(db: Db, b: Batch): Db {
    if OpsEnabled(db, b.ops, b.now) then ApplyOps(db, b.ops, b.now) else db
  }

  ghost predicate LocksActivity(b: Batch, a: nat) {
    exists i :: 0 <= i < |b.ops| && b.ops[i].activity == a
  }

  ghost predicate LocksWorkflow(b: Batch, w: nat) {
    exists i :: 0 <= i < |b.ops| && b.ops[i].workflow == w
  }

  /** No other batch holds the rows of `op`. */
  ghost predicate LocksFree(s: Sys, id: nat, op: RowOp) {
    forall other :: other in s.batches && other != id ==>
      !LocksActivity(s.batches[other], op.activity) && !LocksWorkflow(s.batches[other], op.workflow)
  }

  /** A transaction does not write rows that a batch has locked. */
  ghost predicate RespectsLocks(db: Db, db': Db, b: Batch) {
    forall i :: 0 <= i < |b.ops| ==> SameRows(db, db', b.ops[i])
  }

  ghost predicate SameRows(db: Db, db': Db, op: RowOp) {
    && (op.activity in db.activities <==> op.activity in db'.activities)
    && (op.activity in db.activities ==> db'.activities[op.activity] == db.activities[op.activity])
    && (op.workflow in db.workflows <==> op.workflow in db'.workflows)
    && (op.workflow in db.workflows ==> db'.workflows[op.workflow] == db.workflows[op.workflow])
  }

  ghost predicate RespectsAllLocks(s: Sys, db': Db) {
    forall id :: id in s.batches ==> RespectsLocks(s.db, db', s.batches[id])
  }

  /** The slot holders of the topic that the count statement sees: a live lease, or left unsettled. */
  function InFlight(view: Db, topic: string, now: int, unsettled: set<nat>): set<nat> {
    set a | a in Slots(view, topic) &&
      ((view.activities[a].lease.Some? && view.activities[a].lease.value.expires > now) || a in unsettled)
  }

  function ExpiredOf(view: Db, topic: string, now: int): set<nat> {
    set a | a in Slots(view, topic) && Expired(view.activities[a], now)
  }

  /** What a worker keeps of the row it leased. */
  function ClaimOf(a: nat, r: Activity): ActivityClaim
    requires r.lease.Some?
  {
    ActivityClaim(a, r.origin.workflow, r.attemptCount, r.lease.value.token, r.maxAttempts, r.origin.command,
                  r.origin.spec.definition, r.origin.spec.leaseMillis)
  }

  /** The commit of one row of a batch: a leased row starts a handler. */
  function CommitOp(s: Sys, b: Batch, op: RowOp): Sys
    requires OpEnabled(s.db, op, b.now)
  {
    var db' := ApplyOp(s.db, op, b.now);
    if op.Take? then
      var r := db'.activities[op.activity];
      s.(db := db',
         leases := s.leases[op.token := ClaimOf(op.activity, r)],
         handlers := s.handlers[op.token :=
           Handler(op.activity, LocalDeadline(b.started, r.origin.spec.leaseMillis))])
    else s.(db := db')
  }

  function CommitOps(s: Sys, b: Batch, ops: seq<RowOp>): Sys
    requires OpsEnabled(s.db, ops, b.now)
    decreases |ops|
  {
    if ops == [] then s else CommitOps(CommitOp(s, b, ops[0]), b, ops[1..])
  }

  /** The statements of the batch `b`, which becomes `b'`. */
  ghost predicate Statement(s: Sys, id: nat, b: Batch, b': Batch, token: Option<nat>) {
    var view := View(s.db, b);
    || (exists topic :: Scan(view, b, b', topic) && token.None?)
    || (exists a :: Skip(view, b, b', a) && token.None?)
    || (exists op :: SettleRow(view, b, b', op) && LocksFree(s, id, op) && token.None?)
    || (exists wanted :: Count(view, s.caps, b, b', wanted) && token.None?)
    || (exists op :: TakeRow(view, b, b', op) && LocksFree(s, id, op) && token == Some(op.token))
    || (exists op :: QuarantineRow(view, b, b', op) && LocksFree(s, id, op) && token.None?)
    || (b.phase.Taking? && b' == b.(phase := Between) && token.None?)
  }

  /** Finds the expired lease holders of a topic. */
  ghost predicate Scan(view: Db, b: Batch, b': Batch, topic: string) {
    && b.phase.Between? && topic in b.topics
    && b' == b.(phase := Reconciling(topic, ExpiredOf(view, topic, b.now), {}))
  }

  /** A candidate whose workflow row another transaction holds stays unsettled; one that is no
      longer an expired holder is left alone. */
  ghost predicate Skip(view: Db, b: Batch, b': Batch, a: nat) {
    && b.phase.Reconciling? && a in b.phase.todo
    && (|| b' == b.(phase := b.phase.(todo := b.phase.todo - {a}, unsettled := b.phase.unsettled + {a}))
        || (&& !(a in view.activities && Expired(view.activities[a], b.now))
            && b' == b.(phase := b.phase.(todo := b.phase.todo - {a}))))
  }

  ghost predicate SettleRow(view: Db, b: Batch, b': Batch, op: RowOp) {
    && b.phase.Reconciling? && op.Settle? && op.activity in b.phase.todo
    && OpEnabled(view, op, b.now)
    && b' == b.(phase := b.phase.(todo := b.phase.todo - {op.activity}), ops := b.ops + [op])
  }

  /** Counts the slot holders once every candidate was visited, and decides how many rows to take. */
  ghost predicate Count(view: Db, caps: map<string, nat>, b: Batch, b': Batch, wanted: nat) {
    && b.phase.Reconciling? && b.phase.todo == {} && b.phase.topic in caps
    && var inFlight := |InFlight(view, b.phase.topic, b.now, b.phase.unsettled)|;
    && (wanted == 0 || wanted + inFlight <= caps[b.phase.topic])
    && b' == b.(phase := Taking(b.phase.topic, wanted))
  }

  ghost predicate TakeRow(view: Db, b: Batch, b': Batch, op: RowOp) {
    && b.phase.Taking? && op.Take? && b.phase.wanted > 0
    && OpEnabled(view, op, b.now)
    && view.activities[op.activity].origin.spec.topic == b.phase.topic
    && b' == b.(phase := b.phase.(wanted := b.phase.wanted - 1), ops := b.ops + [op])
  }

  ghost predicate QuarantineRow(view: Db, b: Batch, b': Batch, op: RowOp) {
    && b.phase.Taking? && op.Quarantine?
    && OpEnabled(view, op, b.now)
    && view.activities[op.activity].origin.spec.topic == b.phase.topic
    && b' == b.(ops := b.ops + [op])
  }

  // ---- Transactions of applications, operators and materializers --------------------

  datatype Action =
    | DoStart(id: nat, definition: Definition, key: Option<Key>, availableAt: int)
    | DoRecoverableStart(lookup: Option<nat>, id: nat, definition: Definition, domain: Key, order: seq<nat>)
    | DoCancel(workflow: nat, order: seq<nat>, outcome: AttemptOutcome)
    | DoRestart(workflow: nat, id: nat, version: int, order: seq<nat>)
    | DoRecoverLease(workflow: nat)
    | DoPause(workflow: nat)
    | DoResume(workflow: nat)
    | DoRetry(activity: nat, id: nat, spec: ActivitySpec)
    | DoFireTimer(workflow: nat)
    | DoExpireApproval(approval: nat)
    | DoResolveApproval(approval: nat)

  /** New identifiers are fresh and larger than those they name, specs are validated, and the
      cascade visits the rows it must. */
  ghost predicate Allowed(db: Db, action: Action, now: int) {
    match action
    case DoStart(id, _, _, _) => id !in db.workflows
    case DoRecoverableStart(lookup, id, definition, key, order) =>
      && id !in db.workflows
      && (lookup.Some? ==>
            && lookup.value in db.workflows && HasKey(db.workflows[lookup.value], definition.kind, key)
            && Newest(db.workflows, lookup.value) < id
            && (db.workflows[Newest(db.workflows, lookup.value)].status.Blocked? ==>
                  CascadeOrder(Recover(db, Newest(db.workflows, lookup.value), id, definition, now).workflows,
                               Newest(db.workflows, lookup.value), order)))
    case DoCancel(w, order, outcome) =>
      w in db.workflows ==> CascadeOrder(CancelOne(db, w, outcome, now).workflows, w, order)
    case DoRestart(w, id, version, order) =>
      && id !in db.workflows && w < id
      && (w in db.workflows && !db.workflows[w].status.Terminal() ==>
            var definition := Definition(db.workflows[w].identity.definition.kind, version);
            CascadeOrder(Supersede(db, w, id, definition, now).workflows, w, order))
    case DoRetry(_, id, spec) => id !in db.activities && spec.maxAttempts >= 1
    case DoRecoverLease(_) => true
    case DoPause(_) => true
    case DoResume(_) => true
    case DoFireTimer(_) => true
    case DoExpireApproval(_) => true
    case DoResolveApproval(_) => true
  }

  ghost function Perform(db: Db, action: Action, now: int): Tx
    requires Allowed(db, action, now)
  {
    match action
    case DoStart(id, definition, key, availableAt) => Start(db, id, definition, key, availableAt)
    case DoRecoverableStart(lookup, id, definition, key, order) =>
      RecoverableStart(db, lookup, id, definition, key, order, now).1
    case DoCancel(w, order, outcome) => Cancel(db, w, order, outcome, now)
    case DoRestart(w, id, version, order) => Restart(db, w, id, version, order, now)
    case DoRecoverLease(w) => RecoverLease(db, w, now)
    case DoPause(w) => Pause(db, w)
    case DoResume(w) => Resume(db, w, now)
    case DoRetry(a, id, spec) => Retry(db, a, id, spec, now)
    case DoFireTimer(w) => FireTimer(db, w, now)
    case DoExpireApproval(p) => ExpireApproval(db, p, now)
    case DoResolveApproval(p) => ResolveApproval(db, p, now)
  }

  ghost predicate TransitionAllowed(db: Db, claim: WorkflowClaim, t: Transition) {
    match t
    case WaitForApproval(id, _) => id !in db.approvals
    case RunActivity(id, spec, _) => id !in db.activities && spec.maxAttempts >= 1
    case RunChild(id, _, _) => id !in db.workflows && id > claim.id
    case Continue(_, _) => true
    case Complete => true
    case SleepUntil(_) => true
  }

  // ---- Steps ------------------------------------------------------------------------

  datatype Step =
    | Tick(clock: int)
    | LookUp(kind: string, key: Key)
    | Act(action: Action, now: int)
    | ClaimStep(workflow: nat, token: nat, leaseMillis: int, now: int)
    | LoadStep(token: nat)
    | TransitionStep(token: nat, transition: Transition, now: int)
    | FailureStep(token: nat, configuredMax: nat, availableAt: int, now: int)
    | SendRenewal(token: nat, started: int)
    | LandRenewal(token: nat)
    | StopHandler(token: nat)
    | FinishStep(token: nat, outcome: HandlerOutcome, now: int)
    | BeginBatch(batch: nat, topics: set<string>, started: int, now: int)
    | BatchStatement(batch: nat, next: Batch, taken: Option<nat>)
    | CommitBatch(batch: nat)
    | AbortBatch(batch: nat)

  /** A transaction commits `tx`, or aborts and changes nothing. */
  ghost predicate Committed(s: Sys, tx: Tx, s': Sys) {
    if tx.Commit? then RespectsAllLocks(s, tx.db) && s' == s.(db := tx.db) else s' == s
  }

  ghost predicate Next(s: Sys, step: Step, s': Sys) {
    match step
    case Tick(clock) => s.clock <= clock && s' == s.(clock := clock)
    case LookUp(kind, key) => LookUpNext(s, kind, key, s')
    case Act(action, now) => ActNext(s, action, now, s')
    case ClaimStep(w, token, leaseMillis, now) => ClaimNext(s, w, token, leaseMillis, now, s')
    case LoadStep(token) => LoadNext(s, token, s')
    case TransitionStep(token, t, now) => TransitionNext(s, token, t, now, s')
    case FailureStep(token, configuredMax, availableAt, now) =>
      FailureNext(s, token, configuredMax, availableAt, now, s')
    case SendRenewal(token, started) => SendNext(s, token, started, s')
    case LandRenewal(token) => LandNext(s, token, s')
    case StopHandler(token) => s' == s.(handlers := s.handlers - {token})
    case FinishStep(token, outcome, now) => FinishNext(s, token, outcome, now, s')
    case BeginBatch(id, topics, started, now) => BeginNext(s, id, topics, started, now, s')
    case BatchStatement(id, next, taken) => StatementNext(s, id, next, taken, s')
    case CommitBatch(id) => CommitNext(s, id, s')
    case AbortBatch(id) => s' == s.(batches := s.batches - {id})
  }

  /** A recoverable start whose first read finds no row of the key. */
  ghost predicate LookUpNext(s: Sys, kind: string, key: Key, s': Sys) {
    FindByKey(s.db.workflows, kind, key).None? && s' == s.(missed := s.missed + {(kind, key)})
  }

  /** A recoverable start without a row has looked for one before. */
  ghost predicate ActNext(s: Sys, action: Action, now: int, s': Sys) {
    && now <= Millis(s.clock) && Allowed(s.db, action, now)
    && (action.DoRecoverableStart? && action.lookup.None? ==> (action.definition.kind, action.domain) in s.missed)
    && Committed(s, Perform(s.db, action, now), s')
  }

  /** A coordinator loads the event its claim will consume. */
  ghost predicate LoadNext(s: Sys, token: nat, s': Sys) {
    && token in s.claims && s.claims[token].id in s.db.workflows
    && s' == s.(claims := s.claims[token := s.claims[token].(loaded :=
         NextDelivery(s.db.workflows[s.claims[token].id].inbox, s.claims[token].row.delivered))])
  }

  ghost predicate TransitionNext(s: Sys, token: nat, t: Transition, now: int, s': Sys) {
    && token in s.claims && s.claims[token].loaded.Some? && TransitionAllowed(s.db, s.claims[token], t)
    && Committed(s, CommitTransition(s.db, s.claims[token], s.claims[token].loaded.value, t, now), s')
  }

  ghost predicate FailureNext(s: Sys, token: nat, configuredMax: nat, availableAt: int, now: int, s': Sys) {
    && token in s.claims
    && Committed(s, ActivationFailure(s.db, s.claims[token], configuredMax, availableAt, now), s')
  }

  ghost predicate SendNext(s: Sys, token: nat, started: int, s': Sys) {
    && token in s.leases && token !in s.renewals && started <= s.clock
    && s' == s.(renewals := s.renewals[token := Renewal(started, Millis(s.clock))])
  }

  /** An attempt is finished only after its handler stopped. */
  ghost predicate FinishNext(s: Sys, token: nat, outcome: HandlerOutcome, now: int, s': Sys) {
    && token in s.leases && token !in s.handlers
    && Committed(s, Finish(s.db, s.leases[token], outcome, now), s')
  }

  /** A batch locks its topics and samples the clock. */
  ghost predicate BeginNext(s: Sys, id: nat, topics: set<string>, started: int, now: int, s': Sys) {
    && id !in s.batches && topics <= s.caps.Keys
    && (forall other :: other in s.batches ==> s.batches[other].topics !! topics)
    && now <= Millis(s.clock) && started < (now + 1) * 1000
    && s' == s.(batches := s.batches[id := Batch(topics, started, now, Between, [])])
  }

  ghost predicate StatementNext(s: Sys, id: nat, next: Batch, taken: Option<nat>, s': Sys) {
    && id in s.batches && Statement(s, id, s.batches[id], next, taken)
    && (taken.Some? ==> taken.value !in s.issued)
    && s' == s.(batches := s.batches[id := next],
                issued := if taken.Some? then s.issued + {taken.value} else s.issued)
  }

  ghost predicate CommitNext(s: Sys, id: nat, s': Sys) {
    && id in s.batches && OpsEnabled(s.db, s.batches[id].ops, s.batches[id].now)
    && s' == CommitOps(s, s.batches[id], s.batches[id].ops).(batches := s.batches - {id})
  }

  ghost predicate ClaimNext(s: Sys, w: nat, token: nat, leaseMillis: int, now: int, s': Sys) {
    && token !in s.issued
    && var tx := ClaimWorkflow(s.db, w, token, leaseMillis, now);
    if tx.Abort? then s' == s
    else
      && RespectsAllLocks(s, tx.db)
      && s' == s.(db := tx.db, issued := s.issued + {token},
                  claims := s.claims[token := WorkflowClaim(w, tx.db.workflows[w], token, None)])
  }

  /** A renewal commits or misses its fence; a handler past its deadline is not revived. */
  ghost predicate LandNext(s: Sys, token: nat, s': Sys) {
    && token in s.renewals && token in s.leases
    && var claim := s.leases[token];
    && var tx := Heartbeat(s.db, claim, s.renewals[token].sampled);
    if tx.Abort? then s' == s.(renewals := s.renewals - {token})
    else
      && RespectsAllLocks(s, tx.db)
      && s' == s.(db := tx.db, renewals := s.renewals - {token},
                  handlers :=
                    if token in s.handlers && s.clock < s.handlers[token].deadline
                    then s.handlers[token := s.handlers[token].(deadline :=
                           LocalDeadline(s.renewals[token].started, claim.leaseMillis))]
                    else s.handlers)
  }

  ghost predicate Init(s: Sys) {
    && s.db == Db(map[], map[], map[])
    && s.issued == {} && s.claims == map[] && s.leases == map[] && s.renewals == map[] && s.handlers == map[]
    && s.batches == map[] && s.missed == {}
  }

  /** A run: a start state, and a state after each step. */
  ghost predicate Run(states: seq<Sys>, steps: seq<Step>) {
    && |states| == |steps| + 1
    && Init(states[0])
    && forall i :: 0 <= i < |steps| ==> Next(states[i], steps[i], states[i + 1])
  }
}
