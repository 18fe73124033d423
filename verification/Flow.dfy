/** Journaled flows: code that is run from the top on every activation, over
    a journal of the steps it has completed.

    A flow is any deterministic function from the answers it has received to
    what it does next. It propagates suspension and definition errors. */
module Flow {
  import opened Rows

  // ---- Flows and journals -------------------------------------------------------------

  /** A durable step that flow code asks for. */
  datatype Step =
    | Activity(definition: Definition, key: Option<string>)
    | Child(definition: Definition, key: Option<string>)
    | Sleep(wakeAt: int)
  {
    function Kind(): string {
      match this
      case Activity(d, _) => "activity:" + d.kind
      case Child(d, _) => "child:" + d.kind
      case Sleep(_) => "timer"
    }

    function Version(): Option<int> {
      match this
      case Activity(d, _) => Some(d.version)
      case Child(d, _) => Some(d.version)
      case Sleep(_) => None
    }
  }

  datatype Outcome = Success(result: string) | Failure(category: string, message: string)

  datatype JournalEntry = JournalEntry(kind: string, version: Option<int>, outcome: Outcome)

  /** What an await returns to flow code: a decoded result, or the failure of a child. */
  datatype Answer = Value(result: string) | ChildFailure(kind: string, category: string, message: string)

  /** What flow code does next. */
  datatype Action = Ask(step: Step) | Return(output: string) | Raise(category: string, message: string)

  datatype FlowCode = FlowCode(next: seq<Answer> -> Action, decodes: (Step, string) -> bool)

  datatype WfError = Suspended | DefinitionError

  datatype Replay = Recorded(outcome: Outcome) | Unrecorded | Refused(error: WfError)

  datatype Awaited = Answered(answer: Answer) | Stopped(error: WfError)

  /** What a step makes of an outcome; none if the recorded outcome cannot be one of the step. */
  function AnswerTo(flow: FlowCode, step: Step, outcome: Outcome): Option<Answer> {
    match step
    case Activity(_, _) =>
      if outcome.Success? && flow.decodes(step, outcome.result) then Some(Value(outcome.result)) else None
    case Child(d, _) =>
      if outcome.Failure? then Some(ChildFailure(d.kind, outcome.category, outcome.message))
      else if flow.decodes(step, outcome.result) then Some(Value(outcome.result))
      else None
    case Sleep(_) => if outcome.Success? then Some(Value("null")) else None
  }

  // ---- The context of an activation ------------------------------------------------------

  class WfCtx {
    var steps: seq<JournalEntry>
    var cursor: nat
    var pending: Option<Step>

    constructor (journal: seq<JournalEntry>)
      ensures steps == journal && cursor == 0 && pending.None?
    {
      steps, cursor, pending := journal, 0, None;
    }

    /** The entry at the cursor if it records `step`; the first unresolved step wins. */
    method Look(step: Step) returns (found: Replay)
      modifies this`cursor
      ensures pending.Some? ==> found == Refused(Suspended)
      ensures pending.None? && old(cursor) >= |steps| ==> found == Unrecorded
      ensures pending.None? && old(cursor) < |steps| ==>
        found == if steps[old(cursor)].kind == step.Kind() && steps[old(cursor)].version == step.Version()
                 then Recorded(steps[old(cursor)].outcome)
                 else Refused(DefinitionError)
      ensures cursor == old(cursor) + (if found.Recorded? then 1 else 0)
    {
      if pending.Some? { return Refused(Suspended); }
      if cursor >= |steps| { return Unrecorded; }
      var entry := steps[cursor];
      if entry.kind != step.Kind() { return Refused(DefinitionError); }
      if entry.version != step.Version() { return Refused(DefinitionError); }
      cursor := cursor + 1;
      return Recorded(entry.outcome);
    }

    /** Awaits a step: replays its recorded result, or suspends with the step pending. */
    method Await(flow: FlowCode, step: Step) returns (r: Awaited)
      modifies this`cursor, this`pending
      ensures cursor == old(cursor)
        + (if old(pending).None? && old(cursor) < |steps| && Records(steps[old(cursor)], step) then 1 else 0)
      ensures old(pending).Some? ==> r == Stopped(Suspended) && pending == old(pending)
      ensures old(pending).None? && old(cursor) >= |steps| ==> r == Stopped(Suspended) && pending == Some(step)
      ensures old(pending).None? && old(cursor) < |steps| ==>
        && pending.None?
        && r == (if Records(steps[old(cursor)], step) && AnswerTo(flow, step, steps[old(cursor)].outcome).Some?
                 then Answered(AnswerTo(flow, step, steps[old(cursor)].outcome).value)
                 else Stopped(DefinitionError))
      ensures old(pending).None? && old(cursor) < |steps| && Records(steps[old(cursor)], step) ==>
        AnsweredAs(flow, step, steps[old(cursor)].outcome, r)
    {
      var found := Look(step);
      match found {
        case Refused(error) => return Stopped(error);
        case Unrecorded =>
          pending := Some(step);
          return Stopped(Suspended);
        case Recorded(outcome) =>
          match step {
            case Activity(_, _) =>
              if outcome.Failure? || !flow.decodes(step, outcome.result) { return Stopped(DefinitionError); }
              return Answered(Value(outcome.result));
            case Child(d, _) =>
              if outcome.Failure? { return Answered(ChildFailure(d.kind, outcome.category, outcome.message)); }
              if !flow.decodes(step, outcome.result) { return Stopped(DefinitionError); }
              return Answered(Value(outcome.result));
            case Sleep(_) =>
              if outcome.Failure? { return Stopped(DefinitionError); }
              return Answered(Value("null"));
          }
      }
    }
  }

  /** What flow code gets for a recorded outcome: a result as it was recorded, if it decodes; the failure of a
      child, with what it was; nothing from a timer. Anything else breaks the flow. */
  ghost predicate AnsweredAs(flow: FlowCode, step: Step, outcome: Outcome, r: Awaited) {
    match outcome
    case Failure(category, message) =>
      r == (if step.Child? then Answered(ChildFailure(step.definition.kind, category, message))
            else Stopped(DefinitionError))
    case Success(result) =>
      r == (if step.Sleep? then Answered(Value("null"))
            else if flow.decodes(step, result) then Answered(Value(result))
            else Stopped(DefinitionError))
  }

  /** The kind and the version of an entry tell which step it records. */
  lemma KindTellsStep(s: Step, t: Step)
    ensures s.Kind() == t.Kind() && s.Version() == t.Version() <==>
      || (s.Sleep? && t.Sleep?)
      || (s.Activity? && t.Activity? && s.definition == t.definition)
      || (s.Child? && t.Child? && s.definition == t.definition)
  {
    if s.Kind() == t.Kind() {
      assert s.Kind()[0] == t.Kind()[0];
      if s.Activity? && t.Activity? { PrefixedKinds("activity:", s.definition.kind, t.definition.kind); }
      if s.Child? && t.Child? { PrefixedKinds("child:", s.definition.kind, t.definition.kind); }
    }
  }

  predicate Records(entry: JournalEntry, step: Step) {
    entry.kind == step.Kind() && entry.version == step.Version()
  }

  // ---- Activations ------------------------------------------------------------------------

  /** How an activation ends: the next step, an output, an error of the flow, or a definition error. */
  datatype Ending = Asks(step: Step) | Completed(output: string) | Raised(category: string, message: string) | Broken

  /** The meaning of a run over a journal, from the `answers` it has replayed. */
  function Interpret(flow: FlowCode, journal: seq<JournalEntry>, answers: seq<Answer>): Ending
    requires |answers| <= |journal|
    decreases |journal| - |answers|
  {
    match flow.next(answers)
    case Return(output) => if |answers| == |journal| then Completed(output) else Broken
    case Raise(category, message) => Raised(category, message)
    case Ask(step) =>
      if |answers| == |journal| then Asks(step)
      else
        var entry := journal[|answers|];
        if !Records(entry, step) then Broken
        else
          var answer := AnswerTo(flow, step, entry.outcome);
          if answer.None? then Broken else Interpret(flow, journal, answers + [answer.value])
  }

  /** The flow asked for the step of each of the first entries and got these answers from them. */
  ghost predicate Replayed(flow: FlowCode, journal: seq<JournalEntry>, answers: seq<Answer>) {
    && |answers| <= |journal|
    && forall k {:trigger answers[k]} :: 0 <= k < |answers| ==>
         && flow.next(answers[..k]).Ask?
         && Records(journal[k], flow.next(answers[..k]).step)
         && AnsweredAs(flow, flow.next(answers[..k]).step, journal[k].outcome, Answered(answers[k]))
  }

  /** Replay is deterministic: the answers to fewer entries start those to more. */
  lemma {:induction false} ReplayedAlike(flow: FlowCode, journal: seq<JournalEntry>, a: seq<Answer>, b: seq<Answer>,
                                         n: nat)
    requires Replayed(flow, journal, a) && Replayed(flow, journal, b) && n <= |a| <= |b|
    ensures a[..n] == b[..n]
  {
    if n > 0 {
      ReplayedAlike(flow, journal, a, b, n - 1);
      var x, y := a[n - 1], b[n - 1];
      SameAnswer(flow, flow.next(a[..n - 1]).step, journal[n - 1].outcome, x, y);
      assert a[..n] == a[..n - 1] + [a[n - 1]] && b[..n] == b[..n - 1] + [b[n - 1]];
    }
  }

  lemma SameAnswer(flow: FlowCode, step: Step, outcome: Outcome, a: Answer, b: Answer)
    requires AnsweredAs(flow, step, outcome, Answered(a)) && AnsweredAs(flow, step, outcome, Answered(b))
    ensures a == b
  {
  }

  lemma ReplayedMore(flow: FlowCode, journal: seq<JournalEntry>, answers: seq<Answer>, answer: Answer)
    requires Replayed(flow, journal, answers) && |answers| < |journal| && flow.next(answers).Ask?
    requires Records(journal[|answers|], flow.next(answers).step)
    requires AnswerTo(flow, flow.next(answers).step, journal[|answers|].outcome) == Some(answer)
    ensures Replayed(flow, journal, answers + [answer])
  {
    var more := answers + [answer];
    forall k | 0 <= k < |more|
      ensures more[..k] == answers[..k] && more[k] == if k < |answers| then answers[k] else answer
    {
    }
    assert answers[..|answers|] == answers;
    forall k | 0 <= k < |answers|
      ensures flow.next(more[..k]).Ask? && Records(journal[k], flow.next(more[..k]).step)
        && AnsweredAs(flow, flow.next(more[..k]).step, journal[k].outcome, Answered(more[k]))
    {
      assert more[k] == answers[k];
    }
  }

  /** Where the replay stops: with all entries consumed, or with a flow that raised an error. */
  ghost predicate StopsAt(flow: FlowCode, journal: seq<JournalEntry>, answers: seq<Answer>, ending: Ending) {
    && Replayed(flow, journal, answers)
    && match ending
       case Asks(step) => |answers| == |journal| && flow.next(answers) == Ask(step)
       case Completed(output) => |answers| == |journal| && flow.next(answers) == Return(output)
       case Raised(category, message) => flow.next(answers) == Raise(category, message)
       case Broken => false
  }

  ghost predicate Stops(flow: FlowCode, journal: seq<JournalEntry>, ending: Ending) {
    exists answers :: StopsAt(flow, journal, answers, ending)
  }

  /** An activation ends as the flow does when it has replayed its journal: it completes or asks for a step
      only after every entry, and breaks exactly if the flow and the journal do not fit. */
  lemma ActivationMeans(flow: FlowCode, journal: seq<JournalEntry>, answers: seq<Answer>, ending: Ending)
    requires Replayed(flow, journal, answers)
    ensures ending != Broken ==>
      (Interpret(flow, journal, answers) == ending <==>
         exists all :: |answers| <= |all| && StopsAt(flow, journal, all, ending))
  {
    if ending != Broken {
      if Interpret(flow, journal, answers) == ending { EndingStops(flow, journal, answers, ending); }
      if all :| |answers| <= |all| && StopsAt(flow, journal, all, ending) {
        StopEnds(flow, journal, answers, all, ending);
      }
    }
  }

  /** The replay goes on from `answers` to where the activation ends. */
  lemma {:induction false} EndingStops(flow: FlowCode, journal: seq<JournalEntry>, answers: seq<Answer>, ending: Ending)
    requires Replayed(flow, journal, answers) && Interpret(flow, journal, answers) == ending && ending != Broken
    ensures exists all :: |answers| <= |all| && StopsAt(flow, journal, all, ending)
    decreases |journal| - |answers|
  {
    var next := flow.next(answers);
    if next.Ask? && |answers| < |journal| {
      var answer := AnswerTo(flow, next.step, journal[|answers|].outcome).value;
      ReplayedMore(flow, journal, answers, answer);
      EndingStops(flow, journal, answers + [answer], ending);
    } else {
      assert StopsAt(flow, journal, answers, ending);
    }
  }

  /** Where a replay that starts with `answers` stops, the activation ends. */
  lemma {:induction false} StopEnds(flow: FlowCode, journal: seq<JournalEntry>, answers: seq<Answer>, all: seq<Answer>,
                                    ending: Ending)
    requires Replayed(flow, journal, answers) && |answers| <= |all| && StopsAt(flow, journal, all, ending)
    ensures Interpret(flow, journal, answers) == ending
    decreases |journal| - |answers|
  {
    ReplayedAlike(flow, journal, answers, all, |answers|);
    assert answers[..|answers|] == answers;
    if |all| > |answers| {
      ReplayedMore(flow, journal, answers, all[|answers|]);
      StopEnds(flow, journal, answers + [all[|answers|]], all, ending);
    } else {
      assert all == answers;
    }
  }

  /** Runs the flow from the top over its journal. */
  method Activate(flow: FlowCode, journal: seq<JournalEntry>) returns (ending: Ending)
    ensures ending == Interpret(flow, journal, [])
    ensures forall e :: e != Broken ==> (ending == e <==> Stops(flow, journal, e))
  {
    forall e | e != Broken ensures Interpret(flow, journal, []) == e <==> Stops(flow, journal, e) {
      ActivationMeans(flow, journal, [], e);
    }
    var ctx := new WfCtx(journal);
    var answers := [];
    while true
      invariant ctx.steps == journal && ctx.cursor == |answers| <= |journal| && ctx.pending.None?
      invariant fresh(ctx)
      invariant Interpret(flow, journal, answers) == Interpret(flow, journal, [])
      decreases |journal| - |answers|
    {
      match flow.next(answers) {
        case Return(output) =>
          if ctx.cursor != |ctx.steps| { return Broken; }
          return Completed(output);
        case Raise(category, message) => return Raised(category, message);
        case Ask(step) =>
          var awaited := ctx.Await(flow, step);
          match awaited {
            case Answered(answer) => answers := answers + [answer];
            case Stopped(error) =>
              if error.DefinitionError? { return Broken; }
              if ctx.pending.None? { return Broken; }
              return Asks(ctx.pending.value);
          }
      }
    }
  }

  // ---- Events -------------------------------------------------------------------------------

  /** The events a flow can be activated with. */
  datatype FlowEvent =
    | FlowStarted
    | FlowContinued
    | ActivityResult(command: nat, definition: Definition, result: string)
    | ChildResult(command: nat, definition: Definition, outcome: Outcome)
    | TimerResult(command: nat)
    | ApprovalEvent(command: nat)

  /** The command that an event answers. */
  function CommandOf(event: FlowEvent): Option<nat> {
    if event.FlowStarted? || event.FlowContinued? then None else Some(event.command)
  }

  /** The entry records what the event brings, under the step that a flow asks for it with. */
  ghost predicate StoresEvent(entry: JournalEntry, event: FlowEvent) {
    match event
    case ActivityResult(_, d, result) => Records(entry, Step.Activity(d, None)) && entry.outcome == Success(result)
    case ChildResult(_, d, outcome) => Records(entry, Step.Child(d, None)) && entry.outcome == outcome
    case TimerResult(_) => Records(entry, Step.Sleep(0)) && entry.outcome == Success("null")
    case FlowStarted => false
    case FlowContinued => false
    case ApprovalEvent(_) => false
  }

  /** The journal after an event; none if the event is out of sequence or unsupported. */
  function ApplyEvent(journal: seq<JournalEntry>, event: FlowEvent): Option<seq<JournalEntry>> {
    match event
    case FlowStarted => Some(journal)
    case FlowContinued => Some(journal)
    case ActivityResult(command, d, result) =>
      if command != |journal| + 1 then None
      else Some(journal + [JournalEntry("activity:" + d.kind, Some(d.version), Success(result))])
    case ChildResult(command, d, outcome) =>
      if command != |journal| + 1 then None
      else Some(journal + [JournalEntry("child:" + d.kind, Some(d.version), outcome)])
    case TimerResult(command) =>
      if command != |journal| + 1 then None
      else Some(journal + [JournalEntry("timer", None, Success("null"))])
    case ApprovalEvent(_) => None
  }

  /** One activation: the journal it stores and how it ends. */
  function FlowStep(flow: FlowCode, journal: seq<JournalEntry>, event: FlowEvent): (Ending, seq<JournalEntry>) {
    var applied := ApplyEvent(journal, event);
    if applied.None? then (Broken, journal) else (Interpret(flow, applied.value, []), applied.value)
  }

  /** Pushes the result of an event to the journal and runs the flow over it. */
  method StepFlow(flow: FlowCode, journal: seq<JournalEntry>, event: FlowEvent)
    returns (ending: Ending, stored: seq<JournalEntry>)
    ensures (ending, stored) == FlowStep(flow, journal, event)
    ensures event.ApprovalEvent? || (CommandOf(event).Some? && CommandOf(event).value != |journal| + 1) ==>
      ending == Broken && stored == journal
    ensures event.FlowStarted? || event.FlowContinued? ==> stored == journal
    ensures !event.ApprovalEvent? && CommandOf(event) == Some(|journal| + 1) ==>
      stored == journal + [stored[|stored| - 1]] && StoresEvent(stored[|stored| - 1], event)
  {
    stored := journal;
    var expected := |journal| + 1;
    match event {
      case FlowStarted =>
      case FlowContinued =>
      case ActivityResult(command, d, result) =>
        if command != expected { return Broken, journal; }
        stored := stored + [JournalEntry("activity:" + d.kind, Some(d.version), Success(result))];
      case ChildResult(command, d, outcome) =>
        if command != expected { return Broken, journal; }
        stored := stored + [JournalEntry("child:" + d.kind, Some(d.version), outcome)];
      case TimerResult(command) =>
        if command != expected { return Broken, journal; }
        stored := stored + [JournalEntry("timer", None, Success("null"))];
      case ApprovalEvent(_) => return Broken, journal;
    }
    ending := Activate(flow, stored);
  }

  // ---- Direct execution -----------------------------------------------------------------------

  /** The flow run once, with no journal: the k-th request gets the k-th outcome. */
  function Direct(flow: FlowCode, outcomes: seq<Outcome>, answers: seq<Answer>): Ending
    requires |answers| <= |outcomes|
    decreases |outcomes| - |answers|
  {
    match flow.next(answers)
    case Return(output) => Completed(output)
    case Raise(category, message) => Raised(category, message)
    case Ask(step) =>
      if |answers| == |outcomes| then Asks(step)
      else
        var answer := AnswerTo(flow, step, outcomes[|answers|]);
        if answer.None? then Broken else Direct(flow, outcomes, answers + [answer.value])
  }

  /** The steps a direct run asks for. */
  function Asked(flow: FlowCode, outcomes: seq<Outcome>, answers: seq<Answer>): seq<Step>
    requires |answers| <= |outcomes|
    decreases |outcomes| - |answers|
  {
    var next := flow.next(answers);
    if !next.Ask? then []
    else if |answers| == |outcomes| then [next.step]
    else
      var answer := AnswerTo(flow, next.step, outcomes[|answers|]);
      if answer.None? then [next.step] else [next.step] + Asked(flow, outcomes, answers + [answer.value])
  }

  /** `journal` records the outcomes of the steps that a direct run asks for. */
  ghost predicate JournalOf(flow: FlowCode, outcomes: seq<Outcome>, journal: seq<JournalEntry>, answers: seq<Answer>)
    requires |answers| <= |outcomes|
    decreases |outcomes| - |answers|
  {
    && |journal| == |outcomes|
    && (|answers| < |outcomes| ==>
          var next := flow.next(answers);
          && next.Ask?
          && Records(journal[|answers|], next.step) && journal[|answers|].outcome == outcomes[|answers|]
          && var answer := AnswerTo(flow, next.step, outcomes[|answers|]);
             answer.Some? && JournalOf(flow, outcomes, journal, answers + [answer.value]))
  }

  /** Over such a journal, an activation means what the direct run means. */
  lemma {:induction false} ReplayIsDirect(flow: FlowCode, outcomes: seq<Outcome>, journal: seq<JournalEntry>,
                                          answers: seq<Answer>)
    requires |answers| <= |outcomes| && JournalOf(flow, outcomes, journal, answers)
    ensures Interpret(flow, journal, answers) == Direct(flow, outcomes, answers)
    ensures Direct(flow, outcomes, answers) != Broken
    decreases |outcomes| - |answers|
  {
    if |answers| < |outcomes| {
      var answer := AnswerTo(flow, flow.next(answers).step, outcomes[|answers|]);
      ReplayIsDirect(flow, outcomes, journal, answers + [answer.value]);
    }
  }

  /** One more outcome: the direct run goes on where it stopped, and so does the journal. */
  lemma {:induction false} OneMoreOutcome(flow: FlowCode, outcomes: seq<Outcome>, journal: seq<JournalEntry>,
                                          answers: seq<Answer>, outcome: Outcome, entry: JournalEntry)
    requires |answers| <= |outcomes| && JournalOf(flow, outcomes, journal, answers)
    requires Direct(flow, outcomes, answers).Asks?
    ensures var step := Direct(flow, outcomes, answers).step;
      && Asked(flow, outcomes, answers) != []
      && Asked(flow, outcomes, answers)[|Asked(flow, outcomes, answers)| - 1] == step
      && (AnswerTo(flow, step, outcome).None? ==>
            && Direct(flow, outcomes + [outcome], answers) == Broken
            && Asked(flow, outcomes + [outcome], answers) == Asked(flow, outcomes, answers))
      && (AnswerTo(flow, step, outcome).Some? && Records(entry, step) && entry.outcome == outcome ==>
            JournalOf(flow, outcomes + [outcome], journal + [entry], answers))
      && (!Records(entry, step) || AnswerTo(flow, step, entry.outcome).None? ==>
            Interpret(flow, journal + [entry], answers) == Broken)
    decreases |outcomes| - |answers|
  {
    var step := flow.next(answers).step;
    if |answers| < |outcomes| {
      var answer := AnswerTo(flow, step, outcomes[|answers|]);
      assert (outcomes + [outcome])[|answers|] == outcomes[|answers|];
      assert (journal + [entry])[|answers|] == journal[|answers|];
      OneMoreOutcome(flow, outcomes, journal, answers + [answer.value], outcome, entry);
    } else {
      assert (outcomes + [outcome])[|answers|] == outcome;
      assert (journal + [entry])[|answers|] == entry;
    }
  }

  /** The steps asked with one more outcome extend the steps asked before. */
  lemma {:induction false} AskedGrows(flow: FlowCode, outcomes: seq<Outcome>, journal: seq<JournalEntry>,
                                      answers: seq<Answer>, outcome: Outcome)
    requires |answers| <= |outcomes| && JournalOf(flow, outcomes, journal, answers)
    requires Direct(flow, outcomes, answers).Asks?
    requires AnswerTo(flow, Direct(flow, outcomes, answers).step, outcome).Some?
    ensures var after := Direct(flow, outcomes + [outcome], answers);
      Asked(flow, outcomes + [outcome], answers)
      == Asked(flow, outcomes, answers) + (if after.Asks? then [after.step] else [])
    decreases |outcomes| - |answers|
  {
    var step := flow.next(answers).step;
    var longer := outcomes + [outcome];
    if |answers| < |outcomes| {
      var more := answers + [AnswerTo(flow, step, outcomes[|answers|]).value];
      assert longer[|answers|] == outcomes[|answers|];
      AskedGrows(flow, outcomes, journal, more, outcome);
      assert Asked(flow, longer, answers) == [step] + Asked(flow, longer, more);
      assert Asked(flow, outcomes, answers) == [step] + Asked(flow, outcomes, more);
    } else {
      assert longer[|answers|] == outcome;
      var more := answers + [AnswerTo(flow, step, outcome).value];
      assert |more| == |longer|;
      assert Asked(flow, longer, answers) == [step] + Asked(flow, longer, more);
      assert Asked(flow, longer, more) == if flow.next(more).Ask? then [flow.next(more).step] else [];
    }
  }

  // ---- Durable runs -----------------------------------------------------------------------------

  /** What the engine got for a step: the definition that ran, and its outcome. */
  datatype Reply = Reply(definition: Definition, outcome: Outcome)

  /** An activity delivers successes only, a child runs the definition asked for, a timer has no result. */
  predicate ReplyTo(step: Step, reply: Reply) {
    match step
    case Activity(_, _) => reply.outcome.Success?
    case Child(d, _) => reply.definition == d
    case Sleep(_) => reply.outcome == Success("null")
  }

  /** An operator retried the activity under another definition. */
  predicate Corrected(step: Step, reply: Reply) {
    step.Activity? && reply.definition != step.definition
  }

  function EventFor(step: Step, command: nat, reply: Reply): FlowEvent
    requires ReplyTo(step, reply)
  {
    match step
    case Activity(_, _) => ActivityResult(command, reply.definition, reply.outcome.result)
    case Child(_, _) => ChildResult(command, reply.definition, reply.outcome)
    case Sleep(_) => TimerResult(command)
  }

  datatype Phase = Activating(event: FlowEvent) | WaitingFor(step: Step) | Ended(ending: Ending)

  /** The row of a flow. `asked` and `outcomes` are its history: the steps it asked for, their outcomes,
      and whether a reply was corrected. */
  datatype FlowRow = FlowRow(journal: seq<JournalEntry>, command: nat, phase: Phase,
                             asked: seq<Step>, outcomes: seq<Outcome>, corrected: bool)

  /** A coordinator activates the flow and crashes, or commits; the engine answers a step. */
  datatype Move = Crash | CommitActivation | AnswerStep(reply: Reply)

  ghost predicate FlowNext(flow: FlowCode, row: FlowRow, move: Move, row': FlowRow) {
    match move
    case Crash => row.phase.Activating? && row' == row
    case CommitActivation =>
      && row.phase.Activating?
      && var (ending, journal) := FlowStep(flow, row.journal, row.phase.event);
      && row' == (if ending.Asks?
                  then row.(journal := journal, command := row.command + 1, phase := WaitingFor(ending.step),
                            asked := row.asked + [ending.step])
                  else row.(phase := Ended(ending)))
    case AnswerStep(reply) =>
      && row.phase.WaitingFor? && ReplyTo(row.phase.step, reply)
      && row' == row.(phase := Activating(EventFor(row.phase.step, row.command, reply)),
                      outcomes := row.outcomes + [reply.outcome],
                      corrected := row.corrected || Corrected(row.phase.step, reply))
  }

  ghost predicate FlowRun(flow: FlowCode, rows: seq<FlowRow>, moves: seq<Move>) {
    && |rows| == |moves| + 1
    && rows[0] == FlowRow([], 0, Activating(FlowStarted), [], [], false)
    && (forall i :: 0 <= i < |moves| ==> FlowNext(flow, rows[i], moves[i], rows[i + 1]))
  }

  /** The journal has an entry for every command but the last, and an event answers the last command. */
  ghost predicate InSequence(row: FlowRow) {
    match row.phase
    case Activating(event) =>
      if event.FlowStarted? then row.journal == [] && row.command == 0
      else
        var applied := ApplyEvent(row.journal, event);
        row.command == |row.journal| + 1 && applied.Some? && |applied.value| == row.command
    case WaitingFor(_) => row.command == |row.journal| + 1
    case Ended(_) => true
  }

  /** No activation of any run fails its sequence check, repeated or not, corrected or not. */
  lemma {:induction false} SequenceNeverFails(flow: FlowCode, rows: seq<FlowRow>, moves: seq<Move>, i: nat)
    requires FlowRun(flow, rows, moves) && i < |rows|
    ensures InSequence(rows[i])
  {
    if i > 0 {
      SequenceNeverFails(flow, rows, moves, i - 1);
      assert FlowNext(flow, rows[i - 1], moves[i - 1], rows[i]);
    }
  }

  /** The row of a run that was not corrected is what the direct run makes of the outcomes so far. */
  ghost predicate Tracks(flow: FlowCode, row: FlowRow) {
    match row.phase
    case Activating(event) =>
      if event.FlowStarted? then row == FlowRow([], 0, Activating(FlowStarted), [], [], false)
      else
        && |row.outcomes| > 0
        && var before, outcome := row.outcomes[..|row.outcomes| - 1], row.outcomes[|row.outcomes| - 1];
        && JournalOf(flow, before, row.journal, [])
        && Direct(flow, before, []).Asks?
        && row.asked == Asked(flow, before, [])
        && var step := Direct(flow, before, []).step;
           exists reply :: ReplyTo(step, reply) && !Corrected(step, reply) && reply.outcome == outcome
             && event == EventFor(step, row.command, reply)
    case WaitingFor(step) =>
      && JournalOf(flow, row.outcomes, row.journal, [])
      && Direct(flow, row.outcomes, []) == Asks(step)
      && row.asked == Asked(flow, row.outcomes, [])
    case Ended(ending) =>
      && Direct(flow, row.outcomes, []) == ending && !ending.Asks?
      && row.asked == Asked(flow, row.outcomes, [])
  }

  function EntryFor(step: Step, reply: Reply): JournalEntry
    requires ReplyTo(step, reply)
  {
    match step
    case Activity(_, _) => JournalEntry("activity:" + reply.definition.kind, Some(reply.definition.version),
                                        reply.outcome)
    case Child(_, _) => JournalEntry("child:" + reply.definition.kind, Some(reply.definition.version), reply.outcome)
    case Sleep(_) => JournalEntry("timer", None, reply.outcome)
  }

  /** An entry records its step exactly when the reply was not corrected. */
  lemma CorrectionIsVisible(step: Step, reply: Reply)
    requires ReplyTo(step, reply)
    ensures Records(EntryFor(step, reply), step) <==> !Corrected(step, reply)
  {
    if step.Activity? && Records(EntryFor(step, reply), step) {
      PrefixedKinds("activity:", reply.definition.kind, step.definition.kind);
    }
  }

  lemma PrefixedKinds(prefix: string, k: string, l: string)
    requires prefix + k == prefix + l
    ensures k == l
  {
    assert (prefix + k)[|prefix|..] == k;
    assert (prefix + l)[|prefix|..] == l;
  }

  lemma EventRecords(journal: seq<JournalEntry>, step: Step, reply: Reply)
    requires ReplyTo(step, reply)
    ensures ApplyEvent(journal, EventFor(step, |journal| + 1, reply)) == Some(journal + [EntryFor(step, reply)])
  {
  }

  /** An activation that answers the step a direct run asks for next. */
  lemma ActivationIsDirect(flow: FlowCode, outcomes: seq<Outcome>, journal: seq<JournalEntry>, reply: Reply)
    requires JournalOf(flow, outcomes, journal, []) && Direct(flow, outcomes, []).Asks?
    requires ReplyTo(Direct(flow, outcomes, []).step, reply)
    ensures var step := Direct(flow, outcomes, []).step;
      var (ending, journal') := FlowStep(flow, journal, EventFor(step, |journal| + 1, reply));
      && (ending == Broken <==> Corrected(step, reply) || AnswerTo(flow, step, reply.outcome).None?)
      && (!Corrected(step, reply) ==>
            && ending == Direct(flow, outcomes + [reply.outcome], [])
            && Asked(flow, outcomes + [reply.outcome], [])
               == Asked(flow, outcomes, []) + (if ending.Asks? then [ending.step] else []))
      && (ending != Broken ==> JournalOf(flow, outcomes + [reply.outcome], journal', []))
  {
    var step := Direct(flow, outcomes, []).step;
    var entry := EntryFor(step, reply);
    EventRecords(journal, step, reply);
    CorrectionIsVisible(step, reply);
    OneMoreOutcome(flow, outcomes, journal, [], reply.outcome, entry);
    if !Corrected(step, reply) && AnswerTo(flow, step, reply.outcome).Some? {
      ReplayIsDirect(flow, outcomes + [reply.outcome], journal + [entry], []);
      AskedGrows(flow, outcomes, journal, [], reply.outcome);
    }
  }

  lemma TracksAnswer(flow: FlowCode, row: FlowRow, reply: Reply, row': FlowRow)
    requires Tracks(flow, row) && FlowNext(flow, row, AnswerStep(reply), row') && !row'.corrected
    ensures Tracks(flow, row')
  {
    assert row'.outcomes[..|row'.outcomes| - 1] == row.outcomes;
    var step := row.phase.step;
    assert ReplyTo(step, reply) && !Corrected(step, reply);
    assert row'.phase.event == EventFor(step, row.command, reply);
  }

  lemma TracksStart(flow: FlowCode, row: FlowRow, row': FlowRow)
    requires Tracks(flow, row) && FlowNext(flow, row, CommitActivation, row') && row.phase.event.FlowStarted?
    ensures Tracks(flow, row')
  {
    assert JournalOf(flow, [], [], []);
    ReplayIsDirect(flow, [], [], []);
  }

  /** The reply that an event of a tracked row delivers. */
  lemma ReplyOf(flow: FlowCode, row: FlowRow) returns (before: seq<Outcome>, reply: Reply)
    requires Tracks(flow, row) && row.phase.Activating? && !row.phase.event.FlowStarted?
    ensures row.outcomes == before + [reply.outcome]
    ensures JournalOf(flow, before, row.journal, []) && Direct(flow, before, []).Asks?
    ensures row.asked == Asked(flow, before, [])
    ensures var step := Direct(flow, before, []).step;
      ReplyTo(step, reply) && !Corrected(step, reply) && row.phase.event == EventFor(step, row.command, reply)
  {
    before := row.outcomes[..|row.outcomes| - 1];
    var step := Direct(flow, before, []).step;
    reply :| ReplyTo(step, reply) && !Corrected(step, reply)
      && reply.outcome == row.outcomes[|row.outcomes| - 1] && row.phase.event == EventFor(step, row.command, reply);
  }

  lemma TracksCommit(flow: FlowCode, row: FlowRow, row': FlowRow)
    requires Tracks(flow, row) && InSequence(row) && FlowNext(flow, row, CommitActivation, row')
    requires !row.phase.event.FlowStarted?
    ensures Tracks(flow, row')
  {
    var before, reply := ReplyOf(flow, row);
    ActivationIsDirect(flow, before, row.journal, reply);
  }

  lemma TracksNext(flow: FlowCode, row: FlowRow, move: Move, row': FlowRow)
    requires Tracks(flow, row) && InSequence(row) && FlowNext(flow, row, move, row') && !row'.corrected
    ensures Tracks(flow, row')
  {
    match move
    case Crash =>
    case AnswerStep(reply) => TracksAnswer(flow, row, reply, row');
    case CommitActivation =>
      if row.phase.event.FlowStarted? { TracksStart(flow, row, row'); } else { TracksCommit(flow, row, row'); }
  }

  /** A durable run, however often it crashes and replays, asks for the steps a direct run asks for, in
      the same order, and ends as the direct run ends, unless an operator corrected a definition. */
  lemma {:induction false} ReplayRefinesDirect(flow: FlowCode, rows: seq<FlowRow>, moves: seq<Move>, i: nat)
    requires FlowRun(flow, rows, moves) && i < |rows| && !rows[i].corrected
    ensures Tracks(flow, rows[i])
  {
    if i > 0 {
      assert FlowNext(flow, rows[i - 1], moves[i - 1], rows[i]);
      ReplayRefinesDirect(flow, rows, moves, i - 1);
      SequenceNeverFails(flow, rows, moves, i - 1);
      TracksNext(flow, rows[i - 1], moves[i - 1], rows[i]);
    }
  }

  /** The first correction of a run breaks the next activation, and nothing else does but a result that
      cannot be one of the step. */
  lemma CorrectionBreaks(flow: FlowCode, rows: seq<FlowRow>, moves: seq<Move>, i: nat, reply: Reply)
    requires FlowRun(flow, rows, moves) && i < |rows| && !rows[i].corrected
    requires rows[i].phase.WaitingFor? && ReplyTo(rows[i].phase.step, reply)
    ensures var row := rows[i];
      FlowStep(flow, row.journal, EventFor(row.phase.step, row.command, reply)).0 == Broken
      <==> Corrected(row.phase.step, reply) || AnswerTo(flow, row.phase.step, reply.outcome).None?
  {
    ReplayRefinesDirect(flow, rows, moves, i);
    SequenceNeverFails(flow, rows, moves, i);
    ActivationIsDirect(flow, rows[i].outcomes, rows[i].journal, reply);
  }
}
