/** Flows on the engine: the steps that a run of the system takes for one
    workflow are the moves of a durable flow run. */
module Projection {
  import opened Rows
  import opened Transactions
  import opened Invariant
  import opened System
  import opened Safety
  import opened Runs
  import opened Steady
  import F = Flow

  // ---- What the engine hands over -------------------------------------------------------------

  /** In every reachable state, the delivery that the holder of a workflow lease loads answers the row's
      current command: with the definition asked for, unless an operator corrected it. */
  lemma LoadedEventAnswers(states: seq<Sys>, steps: seq<Step>, i: nat, t: nat)
    requires Run(states, steps) && i < |states| && t in states[i].claims && Fenced(states[i].db, states[i].claims[t])
    ensures var r := states[i].db.workflows[states[i].claims[t].id];
      && NextDelivery(r.inbox, r.delivered) == Some(r.delivered + 1)
      && r.delivered < |r.inbox| && r.inbox[r.delivered].sequence == r.delivered + 1
      && match r.inbox[r.delivered].event
         case Started => r.command == 0
         case Continued => true
         case ActivityDone(c, d) => c == r.command && r.asked.AskActivity? && (d == r.asked.definition || r.corrected)
         case ChildDone(c, d, _) => c == r.command && r.asked == AskChild(d)
         case TimerFired(c) => c == r.command && r.asked == AskTimer
         case ApprovalGiven(c) => c == r.command && r.asked == AskApproval
         case ApprovalLapsed(c) => c == r.command && r.asked == AskApproval
  {
    RunSafe(states, steps, i);
    var r := states[i].db.workflows[states[i].claims[t].id];
    assert WorkflowOk(r);
    NextDeliveryIs(r.inbox, 1, r.delivered);
  }

  // ---- The flow row that follows a workflow ------------------------------------------------------

  /** The event a flow is activated with: what was delivered, and its payload. */
  function FlowEventOf(e: Event, payload: F.Outcome): F.FlowEvent {
    match e
    case Started => F.FlowStarted
    case Continued => F.FlowContinued
    case ActivityDone(c, d) => F.ActivityResult(c, d, if payload.Success? then payload.result else "")
    case ChildDone(c, d, _) => F.ChildResult(c, d, payload)
    case TimerFired(c) => F.TimerResult(c)
    case ApprovalGiven(c) => F.ApprovalEvent(c)
    case ApprovalLapsed(c) => F.ApprovalEvent(c)
  }

  /** An activity delivers a result, a child its outcome, a timer nothing. */
  predicate PayloadFits(e: Event, payload: F.Outcome) {
    match e
    case ActivityDone(_, _) => payload.Success?
    case ChildDone(_, _, outcome) => payload.Success? <==> outcome.ChildSucceeded?
    case TimerFired(_) => payload == F.Success("null")
    case Started => true
    case Continued => true
    case ApprovalGiven(_) => true
    case ApprovalLapsed(_) => true
  }

  function AskOf(step: F.Step): Ask {
    match step
    case Activity(d, _) => AskActivity(d)
    case Child(d, _) => AskChild(d)
    case Sleep(_) => AskTimer
  }

  /** The coordinator commits what the activation of the flow ended with. */
  predicate Does(ending: F.Ending, t: Transition) {
    match ending
    case Asks(step) =>
      (match step
       case Activity(d, _) => t.RunActivity? && t.spec.definition == d
       case Child(d, _) => t.RunChild? && t.definition == d
       case Sleep(at) => t == SleepUntil(at))
    case Completed(_) => t.Complete?
    case Raised(_, _) => false
    case Broken => false
  }

  /** The flow row after its activation was committed. */
  function Activated(flow: F.FlowCode, row: F.FlowRow): F.FlowRow {
    if !row.phase.Activating? then row
    else
      var (ending, journal) := F.FlowStep(flow, row.journal, row.phase.event);
      if ending.Asks?
      then row.(journal := journal, command := row.command + 1, phase := F.WaitingFor(ending.step),
                asked := row.asked + [ending.step])
      else row.(phase := F.Ended(ending))
  }

  /** The flow row after a delivery. Command and definition are those the engine wrote. */
  function Delivered(row: F.FlowRow, e: Event, payload: F.Outcome): F.FlowRow {
    row.(phase := F.Activating(FlowEventOf(e, payload)), outcomes := row.outcomes + [payload],
         corrected := row.corrected
           || (&& row.phase.WaitingFor? && row.phase.step.Activity?
               && e.ActivityDone? && e.definition != row.phase.step.definition))
  }

  /** Follows one change of the workflow row: a consumed delivery was an activation, a new one an answer. */
  function Followed(flow: F.FlowCode, row: F.FlowRow, r: Workflow, r': Workflow,
                    payloads: nat -> F.Outcome): F.FlowRow {
    var activated := if r'.delivered > r.delivered then Activated(flow, row) else row;
    if |r'.inbox| <= |r.inbox| then activated
    else Delivered(activated, r'.inbox[|r'.inbox| - 1].event, payloads(|r'.inbox|))
  }

  const FIRST := F.FlowRow([], 0, F.Activating(F.FlowStarted), [], [], false)

  /** The flow row of workflow `w` in the state at `i`. */
  ghost function FlowAt(flow: F.FlowCode, w: nat, states: seq<Sys>, payloads: nat -> F.Outcome, i: nat): F.FlowRow
    requires i < |states|
  {
    if i == 0 || w !in states[i - 1].db.workflows || w !in states[i].db.workflows then FIRST
    else
      Followed(flow, FlowAt(flow, w, states, payloads, i - 1), states[i - 1].db.workflows[w], states[i].db.workflows[w],
               payloads)
  }

  /** Coordinators run the code `flow` for `w`: what they commit is what the activation ended with. */
  ghost predicate RunsFlow(flow: F.FlowCode, w: nat, states: seq<Sys>, steps: seq<Step>, payloads: nat -> F.Outcome)
    requires |states| == |steps| + 1
  {
    forall i {:trigger Transitions(states, steps, i, w)} :: 0 <= i < |steps| && Transitions(states, steps, i, w) ==>
      var row := FlowAt(flow, w, states, payloads, i);
      row.phase.Activating? ==> Does(F.FlowStep(flow, row.journal, row.phase.event).0, steps[i].transition)
  }

  ghost predicate PayloadsFit(r: Workflow, payloads: nat -> F.Outcome) {
    forall k :: 0 <= k < |r.inbox| ==> PayloadFits(r.inbox[k].event, payloads(k + 1))
  }

  // ---- The link -----------------------------------------------------------------------------------

  /** The flow row agrees with the workflow row: the same command; an activation is under way or due
      while a delivery is unconsumed, and the row waits for what the flow asked otherwise. */
  ghost predicate Linked(r: Workflow, row: F.FlowRow, payloads: nat -> F.Outcome) {
    && row.command == r.command
    && match row.phase
       case Activating(event) =>
         |r.inbox| == r.delivered + 1 && event == FlowEventOf(r.inbox[r.delivered].event, payloads(r.delivered + 1))
       case WaitingFor(step) => |r.inbox| == r.delivered && r.asked == AskOf(step)
       case Ended(_) => r.status.Terminal()
  }

  /** No move, one move, or an activation answered at once. */
  ghost predicate Projects(flow: F.FlowCode, row: F.FlowRow, row': F.FlowRow) {
    || row' == row
    || (exists move :: F.FlowNext(flow, row, move, row'))
    || (exists mid, reply ::
          F.FlowNext(flow, row, F.CommitActivation, mid) && F.FlowNext(flow, mid, F.AnswerStep(reply), row'))
  }

  /** A delivery to a row that waits for a step is a reply to that step. */
  lemma DeliveryIsReply(row: F.FlowRow, r': Workflow, payloads: nat -> F.Outcome) returns (reply: F.Reply)
    requires row.phase.WaitingFor? && row.command == r'.command > 0 && r'.asked == AskOf(row.phase.step)
    requires InboxFits(r') && |r'.inbox| == r'.delivered + 1 && !r'.inbox[r'.delivered].event.Continued?
    requires PayloadFits(r'.inbox[r'.delivered].event, payloads(|r'.inbox|))
    ensures var e := r'.inbox[r'.delivered].event;
      && F.ReplyTo(row.phase.step, reply)
      && Delivered(row, e, payloads(|r'.inbox|))
         == row.(phase := F.Activating(F.EventFor(row.phase.step, row.command, reply)),
                 outcomes := row.outcomes + [reply.outcome],
                 corrected := row.corrected || F.Corrected(row.phase.step, reply))
  {
    var e, payload := r'.inbox[r'.delivered].event, payloads(|r'.inbox|);
    assert Answers(e, r');
    var d := match e
      case ActivityDone(_, d) => d
      case ChildDone(_, d, _) => d
      case _ => Definition("", 0);
    reply := F.Reply(d, payload);
  }

  /** The row gets a delivery: the flow is answered. */
  lemma AnswerProjects(flow: F.FlowCode, row: F.FlowRow, r': Workflow, payloads: nat -> F.Outcome)
    returns (reply: F.Reply)
    requires row.phase.WaitingFor? && row.command == r'.command > 0 && r'.asked == AskOf(row.phase.step)
    requires InboxFits(r') && |r'.inbox| == r'.delivered + 1 && !r'.inbox[r'.delivered].event.Continued?
    requires PayloadsFit(r', payloads)
    ensures var row' := Delivered(row, r'.inbox[|r'.inbox| - 1].event, payloads(|r'.inbox|));
      F.FlowNext(flow, row, F.AnswerStep(reply), row') && Linked(r', row', payloads)
  {
    reply := DeliveryIsReply(row, r', payloads);
  }

  /** A step that is not a transition of the row. */
  lemma SteadyProjects(flow: F.FlowCode, row: F.FlowRow, r: Workflow, r': Workflow, payloads: nat -> F.Outcome)
    requires Linked(r, row, payloads) && SameDelivery(r, r') && WorkflowOk(r) && WorkflowOk(r')
    requires F.InSequence(row) && PayloadsFit(r', payloads)
    ensures var row' := Followed(flow, row, r, r', payloads); Projects(flow, row, row') && Linked(r', row', payloads)
  {
    if |r'.inbox| > |r.inbox| {
      assert |r'.inbox| == r'.delivered + 1;
      var reply := AnswerProjects(flow, row, r', payloads);
    } else {
      assert r'.inbox == r.inbox;
    }
  }

  /** A committed transition of a row that runs the flow. */
  lemma TransitionProjects(flow: F.FlowCode, row: F.FlowRow, r: Workflow, r': Workflow, t: Transition,
                           payloads: nat -> F.Outcome)
    requires Linked(r, row, payloads) && row.phase.Activating? && F.InSequence(row)
    requires Moved(r, r', t) && Does(F.FlowStep(flow, row.journal, row.phase.event).0, t)
    requires WorkflowOk(r) && WorkflowOk(r') && PayloadsFit(r', payloads)
    ensures var row' := Followed(flow, row, r, r', payloads); Projects(flow, row, row') && Linked(r', row', payloads)
  {
    var activated := Activated(flow, row);
    assert F.FlowNext(flow, row, F.CommitActivation, activated);
    if t.RunChild? && |r'.inbox| > |r.inbox| {
      var reply := AnswerProjects(flow, activated, r', payloads);
      assert F.FlowNext(flow, activated, F.AnswerStep(reply), Followed(flow, row, r, r', payloads));
    }
  }

  // ---- Runs ---------------------------------------------------------------------------------------

  /** A durable flow run leads to the row. */
  ghost predicate FlowReachable(flow: F.FlowCode, row: F.FlowRow) {
    exists rows, moves :: F.FlowRun(flow, rows, moves) && rows[|moves|] == row
  }

  lemma FirstIsReachable(flow: F.FlowCode)
    ensures FlowReachable(flow, FIRST)
  {
    var rows, moves: seq<F.Move> := [FIRST], [];
    assert F.FlowRun(flow, rows, moves) && rows[|moves|] == FIRST;
  }

  lemma MoveIsReachable(flow: F.FlowCode, row: F.FlowRow, move: F.Move, row': F.FlowRow)
    requires FlowReachable(flow, row) && F.FlowNext(flow, row, move, row')
    ensures FlowReachable(flow, row')
  {
    var rows, moves :| F.FlowRun(flow, rows, moves) && rows[|moves|] == row;
    var rows', moves' := rows + [row'], moves + [move];
    forall i | 0 <= i < |moves'| ensures F.FlowNext(flow, rows'[i], moves'[i], rows'[i + 1]) {
      if i < |moves| { assert F.FlowNext(flow, rows[i], moves[i], rows[i + 1]); }
    }
    assert F.FlowRun(flow, rows', moves') && rows'[|moves'|] == row';
  }

  lemma ProjectsIsReachable(flow: F.FlowCode, row: F.FlowRow, row': F.FlowRow)
    requires FlowReachable(flow, row) && Projects(flow, row, row')
    ensures FlowReachable(flow, row')
  {
    if row' != row {
      if move :| F.FlowNext(flow, row, move, row') {
        MoveIsReachable(flow, row, move, row');
      } else {
        var mid, reply :|
          F.FlowNext(flow, row, F.CommitActivation, mid) && F.FlowNext(flow, mid, F.AnswerStep(reply), row');
        MoveIsReachable(flow, row, F.CommitActivation, mid);
        MoveIsReachable(flow, mid, F.AnswerStep(reply), row');
      }
    }
  }

  lemma ReachableInSequence(flow: F.FlowCode, row: F.FlowRow)
    requires FlowReachable(flow, row)
    ensures F.InSequence(row)
    ensures !row.corrected ==> F.Tracks(flow, row)
  {
    var rows, moves :| F.FlowRun(flow, rows, moves) && rows[|moves|] == row;
    F.SequenceNeverFails(flow, rows, moves, |moves|);
    if !row.corrected { F.ReplayRefinesDirect(flow, rows, moves, |moves|); }
  }

  /** In every state the payloads of the deliveries of `w` fit them. */
  ghost predicate AllPayloadsFit(w: nat, states: seq<Sys>, payloads: nat -> F.Outcome) {
    forall i :: 0 <= i < |states| && w in states[i].db.workflows ==> PayloadsFit(states[i].db.workflows[w], payloads)
  }

  lemma NewRowLinked(states: seq<Sys>, steps: seq<Step>, i: nat, w: nat, payloads: nat -> F.Outcome)
    requires Run(states, steps) && i < |states| && w in states[i].db.workflows
    requires i == 0 || w !in states[i - 1].db.workflows
    ensures Linked(states[i].db.workflows[w], FIRST, payloads)
  {
    if i > 0 {
      RunSafe(states, steps, i - 1);
      NextStarts(states[i - 1], steps[i - 1], states[i]);
    }
  }

  lemma OneStepProjects(flow: F.FlowCode, w: nat, states: seq<Sys>, steps: seq<Step>, payloads: nat -> F.Outcome,
                        i: nat)
    requires Run(states, steps) && RunsFlow(flow, w, states, steps, payloads) && AllPayloadsFit(w, states, payloads)
    requires i < |steps| && w in states[i].db.workflows
    requires Linked(states[i].db.workflows[w], FlowAt(flow, w, states, payloads, i), payloads)
    requires F.InSequence(FlowAt(flow, w, states, payloads, i))
    ensures w in states[i + 1].db.workflows
    ensures Projects(flow, FlowAt(flow, w, states, payloads, i), FlowAt(flow, w, states, payloads, i + 1))
    ensures Linked(states[i + 1].db.workflows[w], FlowAt(flow, w, states, payloads, i + 1), payloads)
  {
    RowsInRun(states, steps, i, w);
    var row, r, r' := FlowAt(flow, w, states, payloads, i), states[i].db.workflows[w], states[i + 1].db.workflows[w];
    if Transitions(states, steps, i, w) {
      TransitionProjects(flow, row, r, r', steps[i].transition, payloads);
    } else {
      SteadyProjects(flow, row, r, r', payloads);
    }
  }

  /** The steps that a run of the system takes for a workflow that runs a flow are moves of a durable
      run of that flow, and the workflow row agrees with the flow row in every state. */
  lemma {:induction false} EngineRunsFlow(flow: F.FlowCode, w: nat, states: seq<Sys>, steps: seq<Step>,
                                          payloads: nat -> F.Outcome, i: nat)
    requires Run(states, steps) && RunsFlow(flow, w, states, steps, payloads) && AllPayloadsFit(w, states, payloads)
    requires i < |states| && w in states[i].db.workflows
    ensures FlowReachable(flow, FlowAt(flow, w, states, payloads, i))
    ensures Linked(states[i].db.workflows[w], FlowAt(flow, w, states, payloads, i), payloads)
    ensures i > 0 && w in states[i - 1].db.workflows ==>
      Projects(flow, FlowAt(flow, w, states, payloads, i - 1), FlowAt(flow, w, states, payloads, i))
  {
    if i == 0 || w !in states[i - 1].db.workflows {
      NewRowLinked(states, steps, i, w, payloads);
      FirstIsReachable(flow);
    } else {
      EngineRunsFlow(flow, w, states, steps, payloads, i - 1);
      ReachableInSequence(flow, FlowAt(flow, w, states, payloads, i - 1));
      OneStepProjects(flow, w, states, steps, payloads, i - 1);
      ProjectsIsReachable(flow, FlowAt(flow, w, states, payloads, i - 1), FlowAt(flow, w, states, payloads, i));
    }
  }

  /** On the engine, too, the journal length matches the command of the row, so no activation fails its
      sequence check; and unless an operator corrected a definition, the flow has asked for the steps of
      a direct run, in order, and ends as it ends. */
  lemma EngineReplayIsDirect(flow: F.FlowCode, w: nat, states: seq<Sys>, steps: seq<Step>, payloads: nat -> F.Outcome,
                             i: nat)
    requires Run(states, steps) && RunsFlow(flow, w, states, steps, payloads) && AllPayloadsFit(w, states, payloads)
    requires i < |states| && w in states[i].db.workflows
    ensures var r, row := states[i].db.workflows[w], FlowAt(flow, w, states, payloads, i);
      && F.InSequence(row) && row.command == r.command
      && (row.phase.Activating? ==> F.ApplyEvent(row.journal, row.phase.event).Some?)
      && (row.phase.Activating? && r.command > 0 ==> |row.journal| + 1 == r.command)
      && (row.phase.WaitingFor? ==> |row.journal| + 1 == r.command)
      && (r.status.Running? ==> row.phase.Activating?)
      && (!row.corrected ==> F.Tracks(flow, row))
  {
    EngineRunsFlow(flow, w, states, steps, payloads, i);
    ReachableInSequence(flow, FlowAt(flow, w, states, payloads, i));
    RunSafe(states, steps, i);
    assert WorkflowOk(states[i].db.workflows[w]);
  }
}
