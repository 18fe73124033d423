/** Materializing due occurrences: one run row each, under an overlap policy. */
module Overlap {
  import opened Rows
  import opened Calendar
  import opened Planner

  datatype OverlapPolicy = Allow | SkipIfActive | QueueOne

  datatype RunStatus = RunQueued | RunStarted | RunSkipped | RunCoalesced

  /** A run row: its occurrence key, and what became of it. */
  datatype Run = Run(local: int, at: int, status: RunStatus)

  datatype Report = Report(inspected: nat, started: nat, queued: nat, skipped: nat, coalesced: nat)
  {
    function Total(): nat { started + queued + skipped + coalesced }
  }

  datatype TickResult = Ticked(report: Report) | TickPaused | TickConflict | TickFailed(error: CalendarError)

  /** What becomes of one occurrence while `active` runs are active and one may be queued. */
  function Placed(outcome: Outcome, overlap: OverlapPolicy, active: nat, queued: bool): RunStatus {
    match outcome
    case Skip(_) => RunSkipped
    case Coalesce => RunCoalesced
    case Start =>
      if overlap.SkipIfActive? && active > 0 then RunSkipped
      else if overlap.QueueOne? && active > 0 then (if queued then RunSkipped else RunQueued)
      else RunStarted
  }

  /** The run rows of a chunk. */
  function RunRows(due: seq<Occurrence>, outcomes: seq<Outcome>, overlap: OverlapPolicy, active: nat,
                   queued: bool): seq<Run>
    requires |due| == |outcomes|
  {
    if due == [] then []
    else
      var status := Placed(outcomes[0], overlap, active, queued);
      [Run(due[0].local, due[0].at, status)]
      + RunRows(due[1..], outcomes[1..], overlap, if status.RunStarted? then active + 1 else active,
             queued || status.RunQueued?)
  }

  function CountStatus(runs: seq<Run>, status: RunStatus): nat {
    if runs == [] then 0 else (if runs[0].status == status then 1 else 0) + CountStatus(runs[1..], status)
  }

  lemma {:induction false} CountSplits(a: seq<Run>, b: seq<Run>, status: RunStatus)
    ensures CountStatus(a + b, status) == CountStatus(a, status) + CountStatus(b, status)
  {
    if a == [] {
      assert a + b == b;
    } else {
      assert (a + b)[1..] == a[1..] + b;
      CountSplits(a[1..], b, status);
    }
  }

  /** One row per due occurrence, with its key. */
  lemma {:induction false} OneRowEach(due: seq<Occurrence>, outcomes: seq<Outcome>, overlap: OverlapPolicy, active: nat,
                                      queued: bool)
    requires |due| == |outcomes|
    ensures var rows := RunRows(due, outcomes, overlap, active, queued);
      |rows| == |due| && forall i :: 0 <= i < |due| ==> rows[i].local == due[i].local && rows[i].at == due[i].at
  {
    if due != [] {
      var status := Placed(outcomes[0], overlap, active, queued);
      OneRowEach(due[1..], outcomes[1..], overlap, if status.RunStarted? then active + 1 else active,
                 queued || status.RunQueued?);
    }
  }

  /** What becomes of an occurrence that finds `active` runs active and one queued or not: an outcome other
      than a start is recorded as it is; a start happens whenever overlapping is allowed or nothing is
      active; else it is skipped, or queued while the queue of one is free. */
  ghost predicate PlacedWell(status: RunStatus, outcome: Outcome, overlap: OverlapPolicy, active: nat, queued: bool) {
    && (outcome.Skip? ==> status == RunSkipped)
    && (outcome.Coalesce? <==> status == RunCoalesced)
    && (outcome.Start? ==>
          && (status == RunStarted <==> overlap.Allow? || active == 0)
          && (status == RunQueued <==> overlap.QueueOne? && active > 0 && !queued)
          && (status == RunSkipped <==> active > 0 && (overlap.SkipIfActive? || (overlap.QueueOne? && queued))))
  }

  /** The i-th row of a chunk is placed by what was active and queued before the tick and what the rows
      before it started and queued. */
  lemma {:induction false} RowsPlaced(due: seq<Occurrence>, outcomes: seq<Outcome>, overlap: OverlapPolicy,
                                      active: nat, queued: bool, i: nat)
    requires |due| == |outcomes| && i < |due|
    ensures var rows := RunRows(due, outcomes, overlap, active, queued);
      && |rows| == |due|
      && PlacedWell(rows[i].status, outcomes[i], overlap, active + CountStatus(rows[..i], RunStarted),
                    queued || CountStatus(rows[..i], RunQueued) > 0)
  {
    OneRowEach(due, outcomes, overlap, active, queued);
    if i > 0 {
      var status := Placed(outcomes[0], overlap, active, queued);
      var active', queued' := if status.RunStarted? then active + 1 else active, queued || status.RunQueued?;
      var rows, rest := RunRows(due, outcomes, overlap, active, queued),
                        RunRows(due[1..], outcomes[1..], overlap, active', queued');
      RowsPlaced(due[1..], outcomes[1..], overlap, active', queued', i - 1);
      assert rows == [rows[0]] + rest && rest[i - 1] == rows[i] && rows[..i][1..] == rest[..i - 1];
    }
  }

  /** Every row is counted once. */
  lemma {:induction false} EveryRowCounted(runs: seq<Run>)
    ensures CountStatus(runs, RunStarted) + CountStatus(runs, RunQueued) + CountStatus(runs, RunSkipped)
          + CountStatus(runs, RunCoalesced) == |runs|
  {
    if runs != [] { EveryRowCounted(runs[1..]); }
  }

  /** Under skip-if-active or queue-one a chunk starts a run only while none is active, so at most one;
      queue-one queues at most one, and none if one is queued. */
  lemma {:induction false} OverlapHolds(due: seq<Occurrence>, outcomes: seq<Outcome>, overlap: OverlapPolicy,
                                        active: nat, queued: bool)
    requires |due| == |outcomes| && !overlap.Allow?
    ensures var rows := RunRows(due, outcomes, overlap, active, queued);
      && CountStatus(rows, RunStarted) <= (if active == 0 then 1 else 0)
      && CountStatus(rows, RunQueued) <= (if overlap.QueueOne? && !queued then 1 else 0)
  {
    if due != [] {
      var status := Placed(outcomes[0], overlap, active, queued);
      var rows := RunRows(due, outcomes, overlap, active, queued);
      var active' := if status.RunStarted? then active + 1 else active;
      assert rows[1..] == RunRows(due[1..], outcomes[1..], overlap, active', queued || status.RunQueued?);
      OverlapHolds(due[1..], outcomes[1..], overlap, active', queued || status.RunQueued?);
    }
  }

  /** A started row of a chunk found none active: none before the tick, and no row started before it. */
  lemma {:induction false} StartsWhenIdle(due: seq<Occurrence>, outcomes: seq<Outcome>, overlap: OverlapPolicy,
                                          active: nat, queued: bool, i: nat)
    requires |due| == |outcomes| && !overlap.Allow? && i < |due|
    requires |RunRows(due, outcomes, overlap, active, queued)| == |due|
    requires RunRows(due, outcomes, overlap, active, queued)[i].status.RunStarted?
    ensures active == 0
    ensures CountStatus(RunRows(due, outcomes, overlap, active, queued)[..i], RunStarted) == 0
  {
    var status := Placed(outcomes[0], overlap, active, queued);
    var rows := RunRows(due, outcomes, overlap, active, queued);
    if i > 0 {
      var active' := if status.RunStarted? then active + 1 else active;
      var rest := RunRows(due[1..], outcomes[1..], overlap, active', queued || status.RunQueued?);
      assert rows == [rows[0]] + rest && rest[i - 1] == rows[i];
      OneRowEach(due[1..], outcomes[1..], overlap, active', queued || status.RunQueued?);
      StartsWhenIdle(due[1..], outcomes[1..], overlap, active', queued || status.RunQueued?, i - 1);
      assert rows[..i][1..] == rest[..i - 1];
    }
  }

  class Schedule {
    const calendar: ScheduleCalendar
    const misfire: MisfirePolicy
    const grace: int
    const overlap: OverlapPolicy
    var runs: seq<Run>
    var cursor: Occurrence
    var version: int
    var paused: bool

    constructor (calendar: ScheduleCalendar, misfire: MisfirePolicy, grace: int, overlap: OverlapPolicy, version: int,
                 first: Occurrence)
      requires WellFormed(calendar) && Planner.Valid(calendar, first)
      ensures Valid() && runs == [] && cursor == first && this.version == version && !paused
    {
      this.calendar, this.misfire, this.grace, this.overlap := calendar, misfire, grace, overlap;
      runs, cursor, this.version, paused := [], first, version, false;
    }

    /** Rows are in wall-clock order, one per occurrence, and the cursor is after all of them; a queue of
        one holds at most one. */
    ghost predicate Valid()
      reads this
    {
      WellFormed(calendar) && Planner.Valid(calendar, cursor)
      && RunsOk(runs, cursor.local, overlap)
    }

    /** Starts the queued run that was scheduled first. */
    method PromoteQueued()
      requires CountStatus(runs, RunQueued) > 0
      modifies this`runs
      ensures Promoted(old(runs), runs)
    {
      var k := FirstQueued(runs);
      runs := runs[k := runs[k].(status := RunStarted)];
    }

    /** Inserts the run row of one occurrence. */
    method MaterializeOccurrence(o: Occurrence, outcome: Outcome, active: nat, queued: bool, report: Report)
      returns (active': nat, queued': bool, report': Report)
      modifies this`runs
      ensures var status := Placed(outcome, overlap, active, queued);
        && runs == old(runs) + [Run(o.local, o.at, status)]
        && active' == (if status.RunStarted? then active + 1 else active)
        && queued' == (queued || status.RunQueued?)
        && report' == Counted(report, status)
        && PlacedWell(status, outcome, overlap, active, queued)
    {
      active', queued', report' := active, queued, report;
      if outcome == Start && overlap == QueueOne && active > 0 && !queued {
        runs := runs + [Run(o.local, o.at, RunQueued)];
        queued' := true;
        report' := report.(queued := report.queued + 1);
        return;
      }
      var effective := outcome;
      if outcome == Start && active > 0 && overlap != Allow {
        effective := Skip(if overlap == QueueOne then OverlapQueueFull else OverlapActive);
      }
      match effective {
        case Start =>
          runs := runs + [Run(o.local, o.at, RunStarted)];
          active' := active + 1;
          report' := report.(started := report.started + 1);
        case Skip(_) =>
          runs := runs + [Run(o.local, o.at, RunSkipped)];
          report' := report.(skipped := report.skipped + 1);
        case Coalesce =>
          runs := runs + [Run(o.local, o.at, RunCoalesced)];
          report' := report.(coalesced := report.coalesced + 1);
      }
    }

    /** Materializes the occurrences of a chunk one after another. */
    method MaterializeChunk(due: seq<Occurrence>, outcomes: seq<Outcome>, activeRuns: nat, queuedRun: bool,
                            before: Report)
      returns (report: Report)
      requires |due| == |outcomes|
      modifies this`runs
      ensures runs == old(runs) + RunRows(due, outcomes, overlap, activeRuns, queuedRun)
      ensures report == Tally(before, runs[|old(runs)|..])
      ensures report.inspected == before.inspected && report.Total() == before.Total() + |due|
    {
      var active, queued := activeRuns, queuedRun;
      report := before;
      assert due[0..] == due && outcomes[0..] == outcomes;
      ghost var rows := RunRows(due, outcomes, overlap, activeRuns, queuedRun);
      OneRowEach(due, outcomes, overlap, activeRuns, queuedRun);
      for k := 0 to |due|
        invariant runs == old(runs) + rows[..k]
        invariant RunRows(due[k..], outcomes[k..], overlap, active, queued) == rows[k..]
        invariant Tally(report, rows[k..]) == Tally(before, rows)
      {
        RowsStep(due, outcomes, overlap, active, queued, k);
        assert rows[k..][1..] == rows[k + 1..];
        active, queued, report := MaterializeOccurrence(due[k], outcomes[k], active, queued, report);
      }
      assert runs[|old(runs)|..] == rows;
      TallyCounts(before, rows);
    }

    /** Whether a tick promotes a queued run. */
    ghost predicate Promotes(runs: seq<Run>, activeRuns: nat) {
      overlap.QueueOne? && activeRuns == 0 && CountStatus(runs, RunQueued) > 0
    }

    /** Promotes a queued run if none is active. */
    method PromoteIfIdle(activeRuns: nat) returns (active: nat, queued: bool, started: nat)
      requires overlap.QueueOne? ==> CountStatus(runs, RunQueued) <= 1
      modifies this`runs
      ensures if Promotes(old(runs), activeRuns)
        then Promoted(old(runs), runs) && active == 1 && !queued && started == 1
        else runs == old(runs) && active == activeRuns && queued == (CountStatus(runs, RunQueued) > 0) && started == 0
      ensures overlap.QueueOne? ==> CountStatus(runs, RunQueued) <= (if queued then 1 else 0)
      ensures |runs| == |old(runs)| && forall i :: 0 <= i < |runs| ==> runs[i].local == old(runs)[i].local
    {
      active, started := activeRuns, 0;
      queued := HasQueued(runs);
      if overlap == QueueOne && active == 0 && queued {
        PromoteQueued();
        PromotedKeeps(old(runs), runs);
        active, queued, started := 1, false, 1;
      }
    }

    /** The rows and the report of a tick that promotes and then materializes a chunk. */
    ghost predicate Materialized(before: seq<Run>, after: seq<Run>, promoted: seq<Run>, due: seq<Occurrence>,
                                 outcomes: seq<Outcome>, activeRuns: nat, report: Report)
      requires |due| == |outcomes|
    {
      var promotes := Promotes(before, activeRuns);
      && (if promotes then Promoted(before, promoted) else promoted == before)
      && after == promoted + RunRows(due, outcomes, overlap, if promotes then 1 else activeRuns,
                                     !promotes && CountStatus(before, RunQueued) > 0)
      && report == Tally(Report(|due|, if promotes then 1 else 0, 0, 0, 0), after[|promoted|..])
      && report.Total() == |due| + (if promotes then 1 else 0)
    }

    /** Promotes a queued run if none is active, then materializes the chunk. */
    method MaterializePlan(due: seq<Occurrence>, outcomes: seq<Outcome>, activeRuns: nat)
      returns (report: Report, ghost promoted: seq<Run>)
      requires |due| == |outcomes| && (overlap.QueueOne? ==> CountStatus(runs, RunQueued) <= 1)
      modifies this`runs
      ensures Materialized(old(runs), runs, promoted, due, outcomes, activeRuns, report)
      ensures report.inspected == |due|
      ensures Extends(old(runs), runs, due, overlap)
    {
      var active, queued, started := PromoteIfIdle(activeRuns);
      promoted := runs;
      RowsExtend(old(runs), promoted, due, outcomes, overlap, active, queued);
      report := MaterializeChunk(due, outcomes, active, queued, Report(|due|, started, 0, 0, 0));
    }

    /** The plan `plan` is a chunk that starts at the cursor. */
    ghost predicate StartsAtCursor(plan: Plan)
      reads this
    {
      Chained(calendar, cursor, plan.due, plan.next) && |plan.outcomes| == |plan.due|
    }

    /** Materializes a planned chunk and advances the cursor past it. */
    method ApplyPlan(plan: Plan, activeRuns: nat) returns (report: Report, ghost promoted: seq<Run>)
      requires Valid() && StartsAtCursor(plan)
      modifies this`runs, this`cursor
      ensures Valid()
      ensures |plan.due| == |plan.outcomes| == report.inspected
      ensures Materialized(old(runs), runs, promoted, plan.due, plan.outcomes, activeRuns, report)
      ensures if plan.due == [] then cursor == old(cursor) else cursor == plan.next && cursor.local > old(cursor).local
    {
      report, promoted := MaterializePlan(plan.due, plan.outcomes, activeRuns);
      ExtendsInOrder(calendar, cursor, plan.next, plan.due, overlap, old(runs), runs);
      if |plan.due| > 0 { cursor := plan.next; }
    }

    /** What a tick that plans and materializes a chunk does. */
    ghost predicate TickOk(before: seq<Run>, after: seq<Run>, o: Occurrence, next: Occurrence, now: int, plan: Plan,
                           promoted: seq<Run>, activeRuns: nat, report: Report)
      requires WellFormed(calendar)
    {
      && |plan.due| == |plan.outcomes| == report.inspected
      && Materialized(before, after, promoted, plan.due, plan.outcomes, activeRuns, report)
      && (if plan.due == [] then next == o else next == plan.next && next.local > o.local)
      && (plan.due == [] <==> o.at > now)
      && PlanOk(calendar, o, misfire, grace, now, plan)
    }

    /** Plans the chunk at the cursor. */
    method PlanTick(now: int) returns (r: Found<Plan>)
      requires Valid()
      ensures r.Err? ==> Backlog(calendar, cursor, now).failure == Some(r.error)
      ensures r.Ok? ==>
        && StartsAtCursor(r.value) && (r.value.due == [] <==> cursor.at > now)
        && PlanOk(calendar, cursor, misfire, grace, now, r.value)
    {
      r := PlanDueChunk(calendar, cursor, misfire, grace, now, MAX_DUE_OCCURRENCES_PER_TICK);
    }

    /** Plans a chunk, materializes it and advances the cursor, or fails where the calendar fails. */
    method RunTick(now: int, activeRuns: nat) returns (r: Found<Report>, ghost plan: Plan, ghost promoted: seq<Run>)
      requires Valid()
      modifies this`runs, this`cursor
      ensures Valid()
      ensures r.Err? ==> runs == old(runs) && cursor == old(cursor)
      ensures r.Err? ==> Backlog(calendar, old(cursor), now).failure == Some(r.error)
      ensures r.Ok? ==> TickOk(old(runs), runs, old(cursor), cursor, now, plan, promoted, activeRuns, r.value)
    {
      promoted, plan := runs, Plan([], cursor, []);
      var planned := PlanTick(now);
      if planned.Err? { return Err(planned.error), plan, promoted; }
      plan := planned.value;
      var report;
      report, promoted := ApplyPlan(planned.value, activeRuns);
      r := Ok(report);
    }

    /** One tick of the definition `registered`. A changed definition, a pause or an error of the calendar
        changes nothing. */
    method Tick(now: int, registered: int, activeRuns: nat)
      returns (r: TickResult, ghost plan: Plan, ghost promoted: seq<Run>)
      requires Valid()
      modifies this`runs, this`cursor
      ensures Valid()
      ensures !r.Ticked? ==> runs == old(runs) && cursor == old(cursor)
      ensures r.TickConflict? <==> version != registered
      ensures r.TickPaused? <==> version == registered && paused
      ensures r.TickFailed? ==> Backlog(calendar, old(cursor), now).failure == Some(r.error)
      ensures r.Ticked? ==> TickOk(old(runs), runs, old(cursor), cursor, now, plan, promoted, activeRuns, r.report)
      ensures r.Ticked? ==> OldRowsAfter(old(runs), runs, overlap, activeRuns)
    {
      promoted, plan := runs, Plan([], cursor, []);
      if version != registered { return TickConflict, plan, promoted; }
      if paused { return TickPaused, plan, promoted; }
      var ran;
      ran, plan, promoted := RunTick(now, activeRuns);
      if ran.Ok? { PromotionIsEarliest(old(runs), promoted, runs, overlap, activeRuns); }
      r := if ran.Ok? then Ticked(ran.value) else TickFailed(ran.error);
    }
  }

  /** `after` has the keys of `before` and one row per due occurrence, and a queue of one holds at most one. */
  ghost predicate Extends(before: seq<Run>, after: seq<Run>, due: seq<Occurrence>, overlap: OverlapPolicy) {
    && |after| == |before| + |due|
    && (forall i :: 0 <= i < |before| ==> after[i].local == before[i].local)
    && (forall i :: 0 <= i < |due| ==> after[|before| + i].local == due[i].local)
    && (overlap.QueueOne? ==> CountStatus(after, RunQueued) <= 1)
  }

  lemma RowsExtend(before: seq<Run>, promoted: seq<Run>, due: seq<Occurrence>, outcomes: seq<Outcome>,
                   overlap: OverlapPolicy, active: nat, queued: bool)
    requires |due| == |outcomes| && |promoted| == |before|
    requires forall i :: 0 <= i < |before| ==> promoted[i].local == before[i].local
    requires overlap.QueueOne? ==> CountStatus(promoted, RunQueued) <= (if queued then 1 else 0)
    ensures Extends(before, promoted + RunRows(due, outcomes, overlap, active, queued), due, overlap)
  {
    OneRowEach(due, outcomes, overlap, active, queued);
    CountSplits(promoted, RunRows(due, outcomes, overlap, active, queued), RunQueued);
    if overlap.QueueOne? { OverlapHolds(due, outcomes, overlap, active, queued); }
  }

  /** The rows of a chunk go after all others and before the new cursor. */
  lemma ExtendsInOrder(cal: ScheduleCalendar, o: Occurrence, next: Occurrence, due: seq<Occurrence>,
                       overlap: OverlapPolicy, before: seq<Run>, after: seq<Run>)
    requires Extends(before, after, due, overlap) && Chained(cal, o, due, next)
    requires RunsOk(before, o.local, overlap)
    ensures RunsOk(after, next.local, overlap) && (due == [] ==> RunsOk(after, o.local, overlap))
    ensures due != [] ==> o.local < next.local
  {
    assert due != [] ==> o.local <= due[0].local < next.local;
    forall i | 0 <= i < |after|
      ensures if i < |before| then after[i].local < o.local else after[i].local == due[i - |before|].local
    {
      if i >= |before| { assert after[|before| + (i - |before|)].local == due[i - |before|].local; }
    }
  }

  /** A report that counts further rows. */
  function Tally(report: Report, rows: seq<Run>): Report
    decreases |rows|
  {
    if rows == [] then report else Tally(Counted(report, rows[0].status), rows[1..])
  }

  /** Each counter of a report counts its rows. */
  lemma {:induction false} TallyCounts(report: Report, rows: seq<Run>)
    ensures Tally(report, rows) ==
      report.(started := report.started + CountStatus(rows, RunStarted),
              queued := report.queued + CountStatus(rows, RunQueued),
              skipped := report.skipped + CountStatus(rows, RunSkipped),
              coalesced := report.coalesced + CountStatus(rows, RunCoalesced))
    ensures Tally(report, rows).Total() == report.Total() + |rows|
    decreases |rows|
  {
    EveryRowCounted(rows);
    if rows != [] { TallyCounts(Counted(report, rows[0].status), rows[1..]); }
  }

  lemma RowsStep(due: seq<Occurrence>, outcomes: seq<Outcome>, overlap: OverlapPolicy, active: nat, queued: bool,
                 k: nat)
    requires |due| == |outcomes| && k < |due|
    ensures var status := Placed(outcomes[k], overlap, active, queued);
      RunRows(due[k..], outcomes[k..], overlap, active, queued)
      == [Run(due[k].local, due[k].at, status)]
         + RunRows(due[k + 1..], outcomes[k + 1..], overlap, if status.RunStarted? then active + 1 else active,
                   queued || status.RunQueued?)
  {
    assert due[k..][1..] == due[k + 1..] && outcomes[k..][1..] == outcomes[k + 1..];
  }

  function Counted(report: Report, status: RunStatus): Report {
    match status
    case RunStarted => report.(started := report.started + 1)
    case RunQueued => report.(queued := report.queued + 1)
    case RunSkipped => report.(skipped := report.skipped + 1)
    case RunCoalesced => report.(coalesced := report.coalesced + 1)
  }

  ghost predicate InOrder(runs: seq<Run>) {
    forall i, j :: 0 <= i < j < |runs| ==> runs[i].local < runs[j].local
  }

  ghost predicate RunsOk(runs: seq<Run>, limit: int, overlap: OverlapPolicy) {
    && InOrder(runs) && (forall i :: 0 <= i < |runs| ==> runs[i].local < limit)
    && (overlap.QueueOne? ==> CountStatus(runs, RunQueued) <= 1)
  }

  /** The queued run that was scheduled first, and of those the one inserted first. */
  ghost predicate EarliestQueued(runs: seq<Run>, k: int) {
    && 0 <= k < |runs| && runs[k].status.RunQueued?
    && forall i :: 0 <= i < |runs| && runs[i].status.RunQueued? ==>
         runs[k].at < runs[i].at || (runs[k].at == runs[i].at && k <= i)
  }

  /** The earliest queued row was started. */
  ghost predicate Promoted(runs: seq<Run>, runs': seq<Run>) {
    exists k :: EarliestQueued(runs, k) && runs' == runs[k := runs[k].(status := RunStarted)]
  }

  /** The rows before a tick: under queue-one with nothing active, the earliest queued one is started; no
      other row changes, and none without a queue of one or while a run is active. */
  ghost predicate OldRowsAfter(before: seq<Run>, after: seq<Run>, overlap: OverlapPolicy, activeRuns: nat) {
    && |before| <= |after|
    && forall k :: 0 <= k < |before| ==>
         after[k] == if overlap.QueueOne? && activeRuns == 0 && EarliestQueued(before, k)
                     then before[k].(status := RunStarted) else before[k]
  }

  lemma PromotionIsEarliest(before: seq<Run>, promoted: seq<Run>, after: seq<Run>, overlap: OverlapPolicy,
                            activeRuns: nat)
    requires promoted <= after
    requires if overlap.QueueOne? && activeRuns == 0 && CountStatus(before, RunQueued) > 0
      then Promoted(before, promoted) else promoted == before
    ensures OldRowsAfter(before, after, overlap, activeRuns)
  {
    assert forall k :: 0 <= k < |promoted| ==> after[k] == promoted[k];
    if overlap.QueueOne? && activeRuns == 0 && CountStatus(before, RunQueued) > 0 {
      var k :| EarliestQueued(before, k) && promoted == before[k := before[k].(status := RunStarted)];
      assert forall i :: EarliestQueued(before, i) ==> i == k;
    } else if k :| 0 <= k < |before| && before[k].status.RunQueued? {
      SomeQueued(before, k);
    }
  }

  lemma {:induction false} SomeQueued(runs: seq<Run>, k: nat)
    requires k < |runs| && runs[k].status.RunQueued?
    ensures CountStatus(runs, RunQueued) > 0
  {
    if k > 0 { SomeQueued(runs[1..], k - 1); }
  }

  lemma {:induction false} CountUpdate(runs: seq<Run>, k: nat)
    requires k < |runs| && runs[k].status.RunQueued?
    ensures CountStatus(runs[k := runs[k].(status := RunStarted)], RunQueued) == CountStatus(runs, RunQueued) - 1
  {
    var runs' := runs[k := runs[k].(status := RunStarted)];
    if k > 0 {
      assert runs'[1..] == runs[1..][k - 1 := runs[k].(status := RunStarted)];
      CountUpdate(runs[1..], k - 1);
    } else {
      assert runs'[1..] == runs[1..];
    }
  }

  lemma PromotedKeeps(runs: seq<Run>, runs': seq<Run>)
    requires Promoted(runs, runs')
    ensures |runs'| == |runs| && (forall i :: 0 <= i < |runs| ==> runs'[i].local == runs[i].local)
    ensures CountStatus(runs', RunQueued) == CountStatus(runs, RunQueued) - 1
  {
    var k :| EarliestQueued(runs, k) && runs' == runs[k := runs[k].(status := RunStarted)];
    CountUpdate(runs, k);
  }

  /** Finds the earliest queued run. */
  method FirstQueued(runs: seq<Run>) returns (k: nat)
    requires CountStatus(runs, RunQueued) > 0
    ensures EarliestQueued(runs, k)
  {
    var best: Option<nat> := None;
    for i := 0 to |runs|
      invariant best.Some? ==> best.value < i && runs[best.value].status.RunQueued?
      invariant forall j :: 0 <= j < i && runs[j].status.RunQueued? ==>
        best.Some? && (runs[best.value].at < runs[j].at || (runs[best.value].at == runs[j].at && best.value <= j))
    {
      if runs[i].status.RunQueued? && (best.None? || runs[i].at < runs[best.value].at) { best := Some(i); }
    }
    if best.None? { NoneQueued(runs); }
    return best.value;
  }

  lemma {:induction false} NoneQueued(runs: seq<Run>)
    requires forall i :: 0 <= i < |runs| ==> !runs[i].status.RunQueued?
    ensures CountStatus(runs, RunQueued) == 0
  {
    if runs != [] { NoneQueued(runs[1..]); }
  }

  method HasQueued(runs: seq<Run>) returns (found: bool)
    ensures found <==> CountStatus(runs, RunQueued) > 0
  {
    var count := 0;
    assert runs[0..] == runs;
    for i := 0 to |runs|
      invariant count + CountStatus(runs[i..], RunQueued) == CountStatus(runs, RunQueued)
    {
      assert runs[i..][1..] == runs[i + 1..];
      if runs[i].status.RunQueued? { count := count + 1; }
    }
    return count > 0;
  }
}
