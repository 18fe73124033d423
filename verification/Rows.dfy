/** The rows the engine keeps in its database, as values.

    A row carries the columns that steer the protocol. Deliverable workflow
    events are grouped under their workflow (`inbox`, in insertion order) and
    attempt rows under their activity (`attempts`, keyed by attempt number).
    Columns that name no decision of the engine (payloads, error text, actors,
    audit history without a delivery sequence) are absent.

    Three columns are history that the database does not store and no
    transaction reads: `asked` and `corrected` (what the last command
    asked for, and whether an operator corrected its definition since) and
    `pauses` (the pauses that revoked a running attempt). Theorems speak
    about them. */
module Rows {

  datatype Option<+T> = None | Some(value: T)

  datatype WorkflowStatus =
    | Ready | Running | WaitingActivity | WaitingChild | Sleeping | WaitingApproval
    | Paused | Blocked | Succeeded | Failed | Cancelled
  {
    predicate Terminal() { Succeeded? || Failed? || Cancelled? }
    predicate AwaitsChild() { WaitingChild? || Paused? }
    predicate AwaitsApproval() { WaitingApproval? || Paused? }
    predicate Restartable() { Terminal() || Paused? || Blocked? }
    predicate StartRecoverable() { Failed? || Blocked? }
  }

  datatype ActivityStatus =
    | ActPending | ActRunning | ActCancelling | ActSucceeded | ActDeadLettered | ActCancelled
  {
    /** Running or cancelling: the row owns a lease, an open attempt and a topic slot. */
    predicate HoldsSlot() { ActRunning? || ActCancelling? }
  }

  datatype ApprovalStatus = ApprovalPending | ApprovalResolved | ApprovalExpired | ApprovalCancelled

  datatype AttemptOutcome =
    | AttemptSucceeded | AttemptRetryable | AttemptDeadLettered | AttemptLeaseExpired
    | AttemptOperatorPaused | AttemptOperatorCancelled | AttemptApplicationCancelled

  datatype Lease = Lease(token: nat, expires: int)

  datatype Definition = Definition(kind: string, version: int)

  /** A deduplication key: the key the engine generates for a child started
      without one, `child:{parent}:{command}`, or any other text. */
  datatype Key = AutoChild(parent: nat, command: nat) | DomainKey(text: string)

  datatype Wait =
    | NoWait
    | OnTimer(command: nat)
    | OnActivity(activity: nat)
    | OnChild(child: nat)
    | OnApproval(approval: nat)

  /** What a command asks for. */
  datatype Ask =
    | AskNothing | AskTimer | AskApproval
    | AskActivity(definition: Definition)
    | AskChild(definition: Definition)

  datatype ChildOutcome = ChildSucceeded | ChildFailed(category: string)

  datatype Event =
    | Started
    | Continued
    | ActivityDone(command: nat, definition: Definition)
    | ChildDone(command: nat, definition: Definition, outcome: ChildOutcome)
    | TimerFired(command: nat)
    | ApprovalGiven(command: nat)
    | ApprovalLapsed(command: nat)

  datatype Delivery = Delivery(sequence: nat, event: Event)

  /** The columns of a workflow that no transaction changes. */
  datatype Identity = Identity(
    definition: Definition,
    key: Option<Key>,
    parent: Option<nat>,
    parentCommand: nat,
    restartedFrom: Option<nat>)
  {
    /** The row one step above: the parent, else the generation this one restarted. */
    function Above(): Option<nat> {
      if parent.Some? then parent else restartedFrom
    }
  }

  datatype Counters = Counters(
    stateVersion: nat, streak: nat, activationAttempts: nat, maxActivation: nat, availableAt: int)

  datatype Workflow = Workflow(
    identity: Identity,
    status: WorkflowStatus,
    wait: Wait,
    command: nat,
    delivered: nat,
    inbox: seq<Delivery>,
    lease: Option<Lease>,
    counters: Counters,
    asked: Ask,
    corrected: bool)
  {
    /** A row that has an event it has not consumed yet, by its status alone. */
    predicate Expecting() {
      status.Ready? || status.Running? || (status.Paused? && wait.NoWait?)
    }

    predicate WaitsOnChild(child: nat) {
      status.AwaitsChild() && wait == OnChild(child)
    }
  }

  datatype Attempt = Attempt(token: nat, finished: Option<AttemptOutcome>)

  /** What an activity command asks for. */
  datatype ActivitySpec = ActivitySpec(
    definition: Definition, topic: string, maxAttempts: nat,
    timeoutMillis: int, leaseMillis: int, policyDecodes: bool)

  /** The columns of an activity that no transaction changes. */
  datatype Origin = Origin(workflow: nat, command: nat, replacement: nat, spec: ActivitySpec)

  datatype Activity = Activity(
    origin: Origin,
    status: ActivityStatus,
    availableAt: int,
    attemptCount: nat,
    maxAttempts: nat,
    lease: Option<Lease>,
    revoked: Option<AttemptOutcome>,
    attempts: map<nat, Attempt>,
    pauses: nat)
  {
    /** The bounds a claim checks before it runs the row. */
    predicate ValidBounds() {
      origin.spec.timeoutMillis > 0 && origin.spec.leaseMillis > origin.spec.timeoutMillis && origin.spec.policyDecodes
    }

    predicate OpenAttempt(number: nat, token: nat) {
      number in attempts && attempts[number] == Attempt(token, None)
    }
  }

  datatype Approval = Approval(
    workflow: nat,
    command: nat,
    definition: Definition,
    status: ApprovalStatus,
    expiresAt: Option<int>)

  datatype Db = Db(
    workflows: map<nat, Workflow>,
    activities: map<nat, Activity>,
    approvals: map<nat, Approval>)

  /** What a transaction does: it commits a new database, or it aborts and
      leaves the old one. */
  datatype Tx = Commit(db: Db) | Abort(failure: Failure)

  datatype Failure =
    | FencedWrite | Conflict | NotFound | InvalidState | InvalidDefinition | DefinitionMismatch
}
