/** Planning a backlog of due occurrences in bounded chunks. */
module Planner {
  import opened Rows
  import opened Zone
  import opened Calendar

  const MAX_DUE_OCCURRENCES_PER_TICK := 10_000

  datatype MisfirePolicy = SkipMissed | RunLatest | CatchUp(maxOccurrences: nat)
  {
    function Budget(): nat {
      match this
      case SkipMissed => 0
      case RunLatest => 1
      case CatchUp(max) => max
    }
  }

  datatype SkipReason = DstGap | MisfireSkip | CatchUpLimit | OverlapActive | OverlapQueueFull

  datatype Outcome = Start | Skip(reason: SkipReason) | Coalesce

  // ---- The whole backlog at once -----------------------------------------------------------------

  /** Occurrences in order, and the failure that ends the list, if the calendar fails. */
  datatype Listed = Listed(known: seq<Occurrence>, failure: Option<CalendarError>)

  /** The occurrences after the wall-clock time `l` that are due by `now`. */
  ghost function Rest(cal: ScheduleCalendar, l: int, now: int): Listed
    requires WellFormed(cal)
    decreases now + MaxOffset(cal.zone) - l
  {
    var next := NextAfterLocal(cal, l);
    if next.Err? then Listed([], Some(next.error))
    else if next.value.at > now then Listed([], None)
    else
      NextIsNext(cal, l);
      ReachedBounded(cal.zone, next.value.local, now);
      var rest := Rest(cal, next.value.local, now);
      Listed([next.value] + rest.known, rest.failure)
  }

  /** The wall-clock time at which a list of occurrences after `l` ends. */
  function EndOf(l: int, known: seq<Occurrence>): int {
    if known == [] then l else known[|known| - 1].local
  }

  ghost predicate DueAfter(cal: ScheduleCalendar, l: int, now: int, o: Occurrence) {
    o.local > l && cal.cron.fires(o.local) && Resolved(cal.zone, o.local) == Ok(o) && o.at <= now
  }

  ghost predicate Holds(known: seq<Occurrence>, m: int) { exists i :: 0 <= i < |known| && known[i].local == m }

  /** The list holds, in wall-clock order, exactly the occurrences after `l` up to where it ends, all of them
      due; it ends before the first that is not due yet, or where the calendar fails. */
  ghost predicate ListsDue(cal: ScheduleCalendar, l: int, now: int, listed: Listed) {
    var known := listed.known;
    && (forall i :: 0 <= i < |known| ==> DueAfter(cal, l, now, known[i]))
    && (forall i, j :: 0 <= i < j < |known| ==> known[i].local < known[j].local)
    && (forall m :: l < m <= EndOf(l, known) && cal.cron.fires(m) ==> Holds(known, m))
    && var next := NextAfterLocal(cal, EndOf(l, known));
       if listed.failure.Some? then next == Err(listed.failure.value) else next.Ok? && next.value.at > now
  }

  lemma {:induction false} RestMeans(cal: ScheduleCalendar, l: int, now: int)
    requires WellFormed(cal)
    ensures ListsDue(cal, l, now, Rest(cal, l, now))
    decreases now + MaxOffset(cal.zone) - l
  {
    var next := NextAfterLocal(cal, l);
    NextIsNext(cal, l);
    if next.Ok? && next.value.at <= now {
      ReachedBounded(cal.zone, next.value.local, now);
      RestMeans(cal, next.value.local, now);
      FirstThenRest(cal, l, now, next.value, Rest(cal, next.value.local, now));
    }
  }

  lemma FirstThenRest(cal: ScheduleCalendar, l: int, now: int, first: Occurrence, rest: Listed)
    requires DueAfter(cal, l, now, first) && (forall m :: l < m < first.local ==> !cal.cron.fires(m))
    requires ListsDue(cal, first.local, now, rest)
    ensures ListsDue(cal, l, now, Listed([first] + rest.known, rest.failure))
  {
    var known := [first] + rest.known;
    assert EndOf(l, known) == EndOf(first.local, rest.known);
    forall i | 0 <= i < |known| ensures DueAfter(cal, l, now, known[i]) {
      if i > 0 { DueEarlier(cal, l, first.local, now, rest.known[i - 1]); }
    }
    forall i, j | 0 <= i < j < |known| ensures known[i].local < known[j].local {
      assert known[j] == rest.known[j - 1] && rest.known[j - 1].local > first.local;
    }
    forall m | l < m <= EndOf(l, known) && cal.cron.fires(m) ensures Holds(known, m) {
      HoldsMore(first, rest.known, m);
    }
  }

  lemma DueEarlier(cal: ScheduleCalendar, l: int, k: int, now: int, o: Occurrence)
    requires DueAfter(cal, k, now, o) && l <= k
    ensures DueAfter(cal, l, now, o)
  {
  }

  lemma HoldsMore(first: Occurrence, known: seq<Occurrence>, m: int)
    requires m == first.local || Holds(known, m)
    ensures Holds([first] + known, m)
  {
    var more := [first] + known;
    if m == first.local {
      assert more[0].local == m;
    } else {
      var i :| 0 <= i < |known| && known[i].local == m;
      assert more[i + 1].local == m;
    }
  }

  /** The backlog that starts at `o`. */
  ghost function Backlog(cal: ScheduleCalendar, o: Occurrence, now: int): Listed
    requires WellFormed(cal)
  {
    if o.at > now then Listed([], None)
    else
      var rest := Rest(cal, o.local, now);
      Listed([o] + rest.known, rest.failure)
  }

  function CountRunnable(due: seq<Occurrence>): nat {
    if due == [] then 0 else (if due[0].disposition == Gap then 0 else 1) + CountRunnable(due[1..])
  }

  /** The outcome of an occurrence that `later` runnable due occurrences follow: gaps are skipped, and a
      policy keeps the occurrences in grace, the latest, or the latest few. */
  function OutcomeOf(o: Occurrence, later: nat, policy: MisfirePolicy, grace: int, now: int): Outcome {
    if o.disposition == Gap then Skip(DstGap)
    else
      match policy
      case SkipMissed => if o.at + grace < now then Skip(MisfireSkip) else Start
      case RunLatest => if later == 0 then Start else Coalesce
      case CatchUp(max) => if later < max then Start else Skip(CatchUpLimit)
  }

  /** The outcomes of `due` when `following` runnable occurrences come after it. */
  function Outcomes(due: seq<Occurrence>, following: nat, policy: MisfirePolicy, grace: int, now: int): seq<Outcome> {
    if due == [] then []
    else
      [OutcomeOf(due[0], CountRunnable(due[1..]) + following, policy, grace, now)]
      + Outcomes(due[1..], following, policy, grace, now)
  }

  lemma {:induction false} CountSplits(a: seq<Occurrence>, b: seq<Occurrence>)
    ensures CountRunnable(a + b) == CountRunnable(a) + CountRunnable(b)
  {
    if a == [] {
      assert a + b == b;
    } else {
      assert (a + b)[1..] == a[1..] + b;
      CountSplits(a[1..], b);
    }
  }

  /** Counting the followers beyond the budget changes nothing. */
  lemma BudgetSuffices(o: Occurrence, later: nat, more: nat, policy: MisfirePolicy, grace: int, now: int)
    ensures OutcomeOf(o, later + Capped(more, policy), policy, grace, now)
         == OutcomeOf(o, later + more, policy, grace, now)
  {
  }

  function Capped(more: nat, policy: MisfirePolicy): nat {
    if more < policy.Budget() then more else policy.Budget()
  }

  /** The outcomes of a whole backlog are those of a prefix that knows its followers, then those of the rest. */
  lemma {:induction false} OutcomesOfPrefix(due: seq<Occurrence>, after: seq<Occurrence>, policy: MisfirePolicy,
                                            grace: int, now: int)
    ensures Outcomes(due + after, 0, policy, grace, now)
         == Outcomes(due, Capped(CountRunnable(after), policy), policy, grace, now)
            + Outcomes(after, 0, policy, grace, now)
  {
    if due == [] {
      assert due + after == after;
    } else {
      assert (due + after)[1..] == due[1..] + after;
      CountSplits(due[1..], after);
      BudgetSuffices(due[0], CountRunnable(due[1..]), CountRunnable(after), policy, grace, now);
      OutcomesOfPrefix(due[1..], after, policy, grace, now);
    }
  }

  function CountStarts(outcomes: seq<Outcome>): nat {
    if outcomes == [] then 0 else (if outcomes[0] == Start then 1 else 0) + CountStarts(outcomes[1..])
  }

  /** Run-latest starts one occurrence of a backlog, and catch-up as many as its limit allows. */
  lemma {:induction false} StartsOfBacklog(due: seq<Occurrence>, policy: MisfirePolicy, grace: int, now: int)
    requires !policy.SkipMissed?
    ensures CountStarts(Outcomes(due, 0, policy, grace, now)) == Capped(CountRunnable(due), policy)
  {
    if due != [] {
      var all := Outcomes(due, 0, policy, grace, now);
      assert all[1..] == Outcomes(due[1..], 0, policy, grace, now);
      StartsOfBacklog(due[1..], policy, grace, now);
    }
  }

  // ---- Classifying a chunk ---------------------------------------------------------------------------

  /** How many runnable occurrences of `due` follow position `i`. */
  function Rank(due: seq<Occurrence>, i: nat): nat
    requires i < |due|
  {
    CountRunnable(due[i + 1..])
  }

  lemma CountFrom(due: seq<Occurrence>, i: nat)
    requires i < |due|
    ensures CountRunnable(due[i..]) == (if due[i].disposition == Gap then 0 else 1) + Rank(due, i)
  {
    assert due[i..][1..] == due[i + 1..];
  }

  lemma {:induction false} OutcomeAt(due: seq<Occurrence>, i: nat, following: nat, policy: MisfirePolicy, grace: int,
                                     now: int)
    requires i < |due|
    ensures |Outcomes(due, following, policy, grace, now)| == |due|
    ensures Outcomes(due, following, policy, grace, now)[i]
         == OutcomeOf(due[i], Rank(due, i) + following, policy, grace, now)
  {
    if i > 0 {
      assert due[1..][i - 1 + 1..] == due[i + 1..];
      OutcomeAt(due[1..], i - 1, following, policy, grace, now);
    } else if |due| > 1 {
      OutcomeAt(due[1..], 0, following, policy, grace, now);
    }
  }

  // ---- What the policies promise ---------------------------------------------------------------------

  /** The positions after `i` that are not in a gap. */
  ghost function LaterRunnable(due: seq<Occurrence>, i: nat): set<nat> {
    set k: nat | i < k < |due| && due[k].disposition != Gap
  }

  /** What becomes of position `i`, with `following` runnable occurrences behind `due`. A gap never runs.
      Skip-missed runs what is not later than its grace and skips the rest as misfires. Run-latest runs the
      last runnable occurrence of all and coalesces the others into it. Catch-up runs the last few and
      skips what its limit leaves out. */
  ghost predicate PolicyAt(due: seq<Occurrence>, i: nat, outcome: Outcome, following: nat, policy: MisfirePolicy,
                           grace: int, now: int)
    requires i < |due|
  {
    if due[i].disposition == Gap then outcome == Skip(DstGap)
    else
      match policy
      case SkipMissed =>
        && (outcome == Start <==> now <= due[i].at + grace)
        && (outcome != Start ==> outcome == Skip(MisfireSkip))
      case RunLatest =>
        && (outcome == Start <==> following == 0 && forall k :: i < k < |due| ==> due[k].disposition == Gap)
        && (outcome != Start ==> outcome == Coalesce)
      case CatchUp(max) =>
        && (outcome == Start <==> |LaterRunnable(due, i)| + following < max)
        && (outcome != Start ==> outcome == Skip(CatchUpLimit))
  }

  ghost predicate KeepsPolicy(due: seq<Occurrence>, outcomes: seq<Outcome>, following: nat, policy: MisfirePolicy,
                              grace: int, now: int)
  {
    && |outcomes| <= |due|
    && forall i :: 0 <= i < |outcomes| ==> PolicyAt(due, i, outcomes[i], following, policy, grace, now)
  }

  /** The rank of a position is the number of runnable positions after it. */
  lemma {:induction false} RankCounts(due: seq<Occurrence>, i: nat)
    requires i < |due|
    ensures Rank(due, i) == |LaterRunnable(due, i)|
    decreases |due| - i
  {
    if i + 1 < |due| {
      CountFrom(due, i + 1);
      RankCounts(due, i + 1);
      var here := if due[i + 1].disposition == Gap then {} else {i + 1};
      assert LaterRunnable(due, i) == here + LaterRunnable(due, i + 1);
    } else {
      assert due[i + 1..] == [] && LaterRunnable(due, i) == {};
    }
  }

  /** The outcomes keep the policy, position by position. */
  lemma OutcomesKeepPolicy(due: seq<Occurrence>, following: nat, policy: MisfirePolicy, grace: int, now: int)
    ensures |Outcomes(due, following, policy, grace, now)| == |due|
    ensures KeepsPolicy(due, Outcomes(due, following, policy, grace, now), following, policy, grace, now)
  {
    OutcomesLength(due, following, policy, grace, now);
    var outcomes := Outcomes(due, following, policy, grace, now);
    forall i | 0 <= i < |due| ensures PolicyAt(due, i, outcomes[i], following, policy, grace, now) {
      OutcomeAt(due, i, following, policy, grace, now);
      RankCounts(due, i);
      NoneLater(due, i);
    }
  }

  lemma NoneLater(due: seq<Occurrence>, i: nat)
    requires i < |due|
    ensures |LaterRunnable(due, i)| == 0 <==> forall k :: i < k < |due| ==> due[k].disposition == Gap
  {
    if k :| i < k < |due| && due[k].disposition != Gap {
      assert k in LaterRunnable(due, i);
    } else {
      assert LaterRunnable(due, i) == {};
    }
  }

  // ---- Classifying ----------------------------------------------------------------------------------

  /** The j-th of `total` runnable positions has `total - 1 - j` behind it. */
  ghost predicate Ranked(due: seq<Occurrence>, runnable: seq<nat>, total: nat) {
    forall j :: 0 <= j < |runnable| ==>
      && runnable[j] < |due| && due[runnable[j]].disposition != Gap
      && Rank(due, runnable[j]) == total - 1 - j
  }

  /** Lists the positions that are not in a gap, in order. */
  method RunnableOf(due: seq<Occurrence>) returns (runnable: seq<nat>)
    ensures Ranked(due, runnable, |runnable|)
    ensures forall i :: 0 <= i < |due| && due[i].disposition != Gap ==> i in runnable
  {
    runnable := [];
    ghost var total := CountRunnable(due);
    assert due[0..] == due;
    for i := 0 to |due|
      invariant Ranked(due, runnable, total)
      invariant |runnable| + CountRunnable(due[i..]) == total
      invariant forall k :: 0 <= k < i && due[k].disposition != Gap ==> k in runnable
    {
      CountFrom(due, i);
      if due[i].disposition != Gap { runnable := runnable + [i]; }
    }
  }

  /** Marks the starts: with `following` behind them, the last `starts` of the runnable positions. */
  function Starts(runnable: nat, following: nat, policy: MisfirePolicy): (starts: nat)
    ensures starts <= runnable
  {
    match policy
    case SkipMissed => 0
    case RunLatest => if following == 0 && runnable > 0 then 1 else 0
    case CatchUp(max) =>
      var left := if following < max then max - following else 0;
      if left < runnable then left else runnable
  }

  /** Those are the positions within the budget. */
  lemma StartsWithinBudget(runnable: nat, following: nat, policy: MisfirePolicy, rank: nat)
    requires !policy.SkipMissed? && rank < runnable
    ensures rank < Starts(runnable, following, policy) <==> rank + following < policy.Budget()
  {
  }

  /** Position `i` of `outcomes` is decided. */
  ghost predicate Decided(due: seq<Occurrence>, outcomes: seq<Outcome>, i: nat, following: nat, policy: MisfirePolicy,
                          grace: int, now: int)
    requires i < |due| == |outcomes|
  {
    outcomes[i] == OutcomeOf(due[i], Rank(due, i) + following, policy, grace, now)
  }

  /** Fills the outcomes of a chunk in place: gaps first, then each runnable position. */
  method Classify(due: seq<Occurrence>, policy: MisfirePolicy, grace: int, now: int, following: nat)
    returns (result: seq<Outcome>)
    ensures result == Outcomes(due, following, policy, grace, now)
    ensures |result| == |due| && KeepsPolicy(due, result, following, policy, grace, now)
  {
    var outcomes := new Outcome[|due|](_ => Skip(DstGap));
    var runnable := RunnableOf(due);
    var split := |runnable| - Starts(|runnable|, following, policy);
    for j := 0 to |runnable|
      invariant forall i :: 0 <= i < |due| && (due[i].disposition == Gap || i in runnable[..j]) ==>
        Decided(due, outcomes[..], i, following, policy, grace, now)
    {
      var i := runnable[j];
      ghost var before := outcomes[..];
      if !policy.SkipMissed? { StartsWithinBudget(|runnable|, following, policy, |runnable| - 1 - j); }
      match policy {
        case SkipMissed => outcomes[i] := if due[i].at + grace < now then Skip(MisfireSkip) else Start;
        case RunLatest => outcomes[i] := if j < split then Coalesce else Start;
        case CatchUp(_) => outcomes[i] := if j < split then Skip(CatchUpLimit) else Start;
      }
      assert outcomes[..] == before[i := outcomes[i]];
      assert runnable[..j + 1] == runnable[..j] + [i];
      assert Rank(due, i) == |runnable| - 1 - j;
      assert Decided(due, outcomes[..], i, following, policy, grace, now);
      forall k | 0 <= k < |due| && (due[k].disposition == Gap || k in runnable[..j + 1])
        ensures Decided(due, outcomes[..], k, following, policy, grace, now)
      {
        assert k != i ==> Decided(due, before, k, following, policy, grace, now);
      }
    }
    result := outcomes[..];
    assert runnable[..|runnable|] == runnable;
    SameOutcomes(due, result, following, policy, grace, now);
    OutcomesKeepPolicy(due, following, policy, grace, now);
  }

  lemma SameOutcomes(due: seq<Occurrence>, result: seq<Outcome>, following: nat, policy: MisfirePolicy, grace: int,
                     now: int)
    requires |result| == |due|
    requires forall i :: 0 <= i < |due| ==> Decided(due, result, i, following, policy, grace, now)
    ensures result == Outcomes(due, following, policy, grace, now)
  {
    if due != [] { OutcomeAt(due, 0, following, policy, grace, now); }
    forall i | 0 <= i < |due| ensures result[i] == Outcomes(due, following, policy, grace, now)[i] {
      assert Decided(due, result, i, following, policy, grace, now);
      OutcomeAt(due, i, following, policy, grace, now);
    }
  }

  // ---- Looking ahead --------------------------------------------------------------------------------

  /** The scan for a runnable occurrence finds the first one of the rest, and the rest goes on after it;
      without one, it ends as the list ends. */
  lemma {:induction false} ScanFindsRunnable(cal: ScheduleCalendar, l: int, now: int)
    requires WellFormed(cal)
    ensures var rest := Rest(cal, l, now);
      if CountRunnable(rest.known) == 0
      then Scan(cal, l, now) == (if rest.failure.Some? then Err(rest.failure.value) else Ok(None))
      else
        && Scan(cal, l, now).Ok? && Scan(cal, l, now).value.Some?
        && var o := Scan(cal, l, now).value.value;
        && o.local > l && o.at <= now
        && CountRunnable(Rest(cal, o.local, now).known) == CountRunnable(rest.known) - 1
        && Rest(cal, o.local, now).failure == rest.failure
    decreases now + MaxOffset(cal.zone) - l
  {
    var next := NextAfterLocal(cal, l);
    ScanStep(cal, l, now);
    if next.Ok? && next.value.at <= now {
      var rest := Rest(cal, next.value.local, now).known;
      assert ([next.value] + rest)[1..] == rest;
      if next.value.disposition == Gap { ScanFindsRunnable(cal, next.value.local, now); }
    }
  }

  /** Counts the runnable due occurrences after `l`, up to the budget; it fails exactly if the calendar
      fails before the budget is reached. */
  method CountFollowing(cal: ScheduleCalendar, l: int, budget: nat, now: int) returns (r: Found<nat>)
    requires WellFormed(cal)
    ensures var rest := Rest(cal, l, now);
      var n := CountRunnable(rest.known);
      r == (if n >= budget then Ok(budget) else if rest.failure.Some? then Err(rest.failure.value) else Ok(n))
  {
    var after, following := l, 0;
    ghost var rest := Rest(cal, l, now);
    while following < budget
      invariant following <= budget
      invariant CountRunnable(rest.known) == CountRunnable(Rest(cal, after, now).known) + following
      invariant Rest(cal, after, now).failure == rest.failure
      decreases budget - following
    {
      var next := NextRunnableThrough(cal, after, now);
      ScanFindsRunnable(cal, after, now);
      if next.Err? { return Err(next.error); }
      if next.value.None? { return Ok(following); }
      following := following + 1;
      after := next.value.value.local;
    }
    return Ok(following);
  }

  // ---- Planning a chunk -------------------------------------------------------------------------------

  datatype Plan = Plan(due: seq<Occurrence>, next: Occurrence, outcomes: seq<Outcome>)

  ghost predicate Valid(cal: ScheduleCalendar, o: Occurrence) {
    o.local % 1000 == 0 && Resolved(cal.zone, o.local) == Ok(o)
  }

  /** A due occurrence is the first of its backlog, and the backlog goes on with the next one or fails. */
  lemma BacklogStep(cal: ScheduleCalendar, o: Occurrence, now: int)
    requires WellFormed(cal) && Valid(cal, o) && o.at <= now
    ensures var next, backlog := NextAfterLocal(cal, o.local), Backlog(cal, o, now);
      && backlog.known != [] && backlog.known[0] == o
      && (next.Err? ==> backlog.known == [o] && backlog.failure == Some(next.error))
      && (next.Ok? ==>
            && Valid(cal, next.value) && next.value.local > o.local
            && Backlog(cal, next.value, now) == Listed(backlog.known[1..], backlog.failure)
            && Rest(cal, o.local, now) == Backlog(cal, next.value, now))
  {
    NextIsNext(cal, o.local);
  }

  /** The chunk `due` of a backlog ends before `next`. */
  ghost predicate Ends(cal: ScheduleCalendar, o: Occurrence, now: int, due: seq<Occurrence>, next: Occurrence)
    requires WellFormed(cal)
  {
    var backlog := Backlog(cal, o, now);
    && |due| <= |backlog.known| && due == backlog.known[..|due|]
    && Valid(cal, next) && Backlog(cal, next, now) == Listed(backlog.known[|due|..], backlog.failure)
    && (if due == [] then next == o
        else
          && next.local > o.local
          && Rest(cal, due[|due| - 1].local, now) == Listed(backlog.known[|due|..], backlog.failure))
  }

  lemma ChunkGrows(cal: ScheduleCalendar, o: Occurrence, now: int, due: seq<Occurrence>, next: Occurrence)
    requires WellFormed(cal) && Ends(cal, o, now, due, next) && next.at <= now
    ensures var after, backlog := NextAfterLocal(cal, next.local), Backlog(cal, o, now);
      && |due| < |backlog.known|
      && (after.Ok? ==> Ends(cal, o, now, due + [next], after.value))
      && (after.Err? ==> |backlog.known| == |due| + 1 && backlog.failure == Some(after.error))
  {
    var known := Backlog(cal, o, now).known;
    BacklogStep(cal, next, now);
    assert known[|due|] == known[|due|..][0] == next;
    assert known[|due|..][1..] == known[|due| + 1..];
  }

  /** Occurrences in wall-clock order from `o` on, all before `next`. */
  ghost predicate Chained(cal: ScheduleCalendar, o: Occurrence, due: seq<Occurrence>, next: Occurrence) {
    && Valid(cal, next)
    && (forall i :: 0 <= i < |due| ==> o.local <= due[i].local < next.local)
    && (forall i, j :: 0 <= i < j < |due| ==> due[i].local < due[j].local)
    && (due == [] ==> next == o)
  }

  lemma ChainGrows(cal: ScheduleCalendar, o: Occurrence, due: seq<Occurrence>, next: Occurrence)
    requires WellFormed(cal) && Chained(cal, o, due, next) && (due == [] || o.local < next.local)
    requires NextAfterLocal(cal, next.local).Ok?
    ensures Chained(cal, o, due + [next], NextAfterLocal(cal, next.local).value)
    ensures o.local < NextAfterLocal(cal, next.local).value.local
  {
    NextIsNext(cal, next.local);
  }

  /** Takes due occurrences up to the chunk bound; it fails exactly if the backlog ends in a failure
      within the bound. */
  method TakeDue(cal: ScheduleCalendar, o: Occurrence, now: int, bound: nat)
    returns (r: Found<(seq<Occurrence>, Occurrence)>)
    requires WellFormed(cal) && Valid(cal, o)
    ensures r.Ok? ==>
      && Chained(cal, o, r.value.0, r.value.1) && (r.value.0 == [] <==> o.at > now || bound == 0)
      && Ends(cal, o, now, r.value.0, r.value.1)
      && |r.value.0| <= bound && (|r.value.0| == bound || r.value.1.at > now)
    ensures r.Err? ==>
      Backlog(cal, o, now).failure == Some(r.error) && |Backlog(cal, o, now).known| <= bound
  {
    var due, next := [], o;
    while next.at <= now && |due| < bound
      invariant |due| <= bound && Chained(cal, o, due, next) && (due != [] ==> o.at <= now && o.local < next.local)
      invariant Ends(cal, o, now, due, next)
      decreases bound - |due|
    {
      ChunkGrows(cal, o, now, due, next);
      var following := FindNextAfterLocal(cal, next.local);
      if following.Err? { return Err(following.error); }
      ChainGrows(cal, o, due, next);
      due := due + [next];
      next := following.value;
    }
    return Ok((due, next));
  }

  /** A plan is right: its occurrences are the next of the backlog, its outcomes those that one look at
      the whole backlog gives, and the next chunk starts where it ends. */
  ghost predicate PlanOk(cal: ScheduleCalendar, o: Occurrence, policy: MisfirePolicy, grace: int, now: int, plan: Plan)
    requires WellFormed(cal)
  {
    var backlog := Backlog(cal, o, now);
    && |plan.due| <= |backlog.known| && plan.due == backlog.known[..|plan.due|]
    && Valid(cal, plan.next)
    && Backlog(cal, plan.next, now) == Listed(backlog.known[|plan.due|..], backlog.failure)
    && |plan.outcomes| == |plan.due|
    && Outcomes(backlog.known, 0, policy, grace, now)
       == plan.outcomes + Outcomes(backlog.known[|plan.due|..], 0, policy, grace, now)
    && KeepsPolicy(backlog.known, plan.outcomes, 0, policy, grace, now)
  }

  /** The start of outcomes that keep the policy keeps it. */
  lemma PrefixKeepsPolicy(known: seq<Occurrence>, outcomes: seq<Outcome>, rest: seq<Outcome>, policy: MisfirePolicy,
                          grace: int, now: int)
    requires Outcomes(known, 0, policy, grace, now) == outcomes + rest
    ensures KeepsPolicy(known, outcomes, 0, policy, grace, now)
  {
    OutcomesKeepPolicy(known, 0, policy, grace, now);
    forall i | 0 <= i < |outcomes| ensures PolicyAt(known, i, outcomes[i], 0, policy, grace, now) {
      assert (outcomes + rest)[i] == outcomes[i];
    }
  }

  lemma {:induction false} OutcomesLength(due: seq<Occurrence>, following: nat, policy: MisfirePolicy, grace: int,
                                          now: int)
    ensures |Outcomes(due, following, policy, grace, now)| == |due|
  {
    if due != [] { OutcomesLength(due[1..], following, policy, grace, now); }
  }

  lemma PlanIsOk(cal: ScheduleCalendar, o: Occurrence, policy: MisfirePolicy, grace: int, now: int, plan: Plan,
                 following: nat)
    requires WellFormed(cal) && Ends(cal, o, now, plan.due, plan.next)
    requires plan.outcomes == Outcomes(plan.due, following, policy, grace, now)
    requires following == Capped(CountRunnable(Backlog(cal, o, now).known[|plan.due|..]), policy)
    ensures PlanOk(cal, o, policy, grace, now, plan)
  {
    var known := Backlog(cal, o, now).known;
    SplitOutcomes(known, |plan.due|, following, policy, grace, now);
    PrefixKeepsPolicy(known, plan.outcomes, Outcomes(known[|plan.due|..], 0, policy, grace, now), policy, grace, now);
  }

  /** A backlog split after `n` occurrences. */
  lemma SplitOutcomes(known: seq<Occurrence>, n: nat, following: nat, policy: MisfirePolicy, grace: int, now: int)
    requires n <= |known| && following == Capped(CountRunnable(known[n..]), policy)
    ensures |Outcomes(known[..n], following, policy, grace, now)| == n
    ensures Outcomes(known, 0, policy, grace, now)
         == Outcomes(known[..n], following, policy, grace, now) + Outcomes(known[n..], 0, policy, grace, now)
  {
    assert known == known[..n] + known[n..];
    OutcomesOfPrefix(known[..n], known[n..], policy, grace, now);
    OutcomesLength(known[..n], following, policy, grace, now);
  }

  /** The calendar fails before the plan of the chunk is decided: within the chunk, or while it looks
      ahead for as many runnable occurrences as the policy can start. */
  ghost predicate FailsEarly(cal: ScheduleCalendar, o: Occurrence, policy: MisfirePolicy, now: int, bound: nat)
    requires WellFormed(cal)
  {
    var backlog := Backlog(cal, o, now);
    && backlog.failure.Some?
    && (|backlog.known| <= bound || CountRunnable(backlog.known[bound..]) < policy.Budget())
  }

  /** How many runnable due occurrences follow a chunk, up to what the policy can start. */
  method LookAhead(cal: ScheduleCalendar, o: Occurrence, policy: MisfirePolicy, now: int, due: seq<Occurrence>,
                   next: Occurrence)
    returns (r: Found<nat>)
    requires WellFormed(cal) && Ends(cal, o, now, due, next) && due != []
    ensures var backlog := Backlog(cal, o, now);
      && (r.Ok? ==> r.value == Capped(CountRunnable(backlog.known[|due|..]), policy))
      && (r.Err? ==> backlog.failure == Some(r.error) && CountRunnable(backlog.known[|due|..]) < policy.Budget())
      && (r.Ok? && backlog.failure.Some? && next.at <= now ==> CountRunnable(backlog.known[|due|..]) >= policy.Budget())
  {
    if next.at > now { return Ok(0); }
    r := CountFollowing(cal, due[|due| - 1].local, policy.Budget(), now);
  }

  /** Plans one chunk of at most `bound` occurrences. */
  method PlanDueChunk(cal: ScheduleCalendar, o: Occurrence, policy: MisfirePolicy, grace: int, now: int, bound: nat)
    returns (r: Found<Plan>)
    requires WellFormed(cal) && Valid(cal, o) && bound >= 1
    ensures r.Ok? ==>
      && Chained(cal, o, r.value.due, r.value.next) && |r.value.outcomes| == |r.value.due|
      && (r.value.due == [] <==> o.at > now)
      && PlanOk(cal, o, policy, grace, now, r.value)
      && |r.value.due| <= bound && (|r.value.due| < bound ==> r.value.next.at > now)
      && (o.at <= now ==> r.value.next.local > o.local)
    ensures r.Err? <==> FailsEarly(cal, o, policy, now, bound)
    ensures r.Err? ==> Backlog(cal, o, now).failure == Some(r.error)
  {
    var taken := TakeDue(cal, o, now, bound);
    if taken.Err? { return Err(taken.error); }
    var (due, next) := taken.value;
    var following := 0;
    if due != [] {
      var ahead := LookAhead(cal, o, policy, now, due, next);
      if ahead.Err? { return Err(ahead.error); }
      following := ahead.value;
    }
    var outcomes := Classify(due, policy, grace, now, following);
    OutcomesLength(due, following, policy, grace, now);
    r := Ok(Plan(due, next, outcomes));
    PlanIsOk(cal, o, policy, grace, now, r.value, following);
  }

  /** What the chunks so far have planned. */
  ghost predicate Planned(cal: ScheduleCalendar, o: Occurrence, policy: MisfirePolicy, grace: int, now: int,
                          due: seq<Occurrence>, outcomes: seq<Outcome>, next: Occurrence)
    requires WellFormed(cal)
  {
    var backlog := Backlog(cal, o, now);
    && |due| <= |backlog.known| && due == backlog.known[..|due|]
    && Valid(cal, next) && Backlog(cal, next, now) == Listed(backlog.known[|due|..], backlog.failure)
    && Outcomes(backlog.known, 0, policy, grace, now)
       == outcomes + Outcomes(backlog.known[|due|..], 0, policy, grace, now)
  }

  lemma PlannedMore(cal: ScheduleCalendar, o: Occurrence, policy: MisfirePolicy, grace: int, now: int,
                    due: seq<Occurrence>, outcomes: seq<Outcome>, next: Occurrence, plan: Plan)
    requires WellFormed(cal)
    requires Planned(cal, o, policy, grace, now, due, outcomes, next) && PlanOk(cal, next, policy, grace, now, plan)
    ensures Planned(cal, o, policy, grace, now, due + plan.due, outcomes + plan.outcomes, plan.next)
    ensures |due| + |plan.due| <= |Backlog(cal, o, now).known|
  {
    PiecesJoin(Backlog(cal, o, now).known, due, plan.due);
  }

  lemma PiecesJoin(all: seq<Occurrence>, due: seq<Occurrence>, more: seq<Occurrence>)
    requires |due| <= |all| && due == all[..|due|]
    requires |more| <= |all[|due|..]| && more == all[|due|..][..|more|]
    ensures |due + more| <= |all| && due + more == all[..|due + more|]
    ensures all[|due|..][|more|..] == all[|due + more|..]
  {
  }

  /** Ticks until nothing is due or the calendar fails: the chunks together are the whole backlog,
      classified at once, or as much of it as was planned before the failure. */
  method PlanInChunks(cal: ScheduleCalendar, o: Occurrence, policy: MisfirePolicy, grace: int, now: int, bound: nat)
    returns (due: seq<Occurrence>, outcomes: seq<Outcome>, next: Occurrence, failure: Option<CalendarError>)
    requires WellFormed(cal) && Valid(cal, o) && bound >= 1
    ensures failure == Backlog(cal, o, now).failure
    ensures |due| <= |Backlog(cal, o, now).known| && due == Backlog(cal, o, now).known[..|due|]
    ensures outcomes <= Outcomes(Backlog(cal, o, now).known, 0, policy, grace, now)
    ensures KeepsPolicy(Backlog(cal, o, now).known, outcomes, 0, policy, grace, now)
    ensures failure.None? ==>
      && due == Backlog(cal, o, now).known
      && outcomes == Outcomes(Backlog(cal, o, now).known, 0, policy, grace, now)
      && next.at > now && (o.at <= now ==> next.local > o.local)
  {
    due, outcomes, next := [], [], o;
    ghost var known := Backlog(cal, o, now).known;
    while next.at <= now
      invariant Planned(cal, o, policy, grace, now, due, outcomes, next)
      invariant next == o || next.local > o.local
      decreases |known| - |due|
    {
      var plan := PlanDueChunk(cal, next, policy, grace, now, bound);
      if plan.Err? {
        PrefixKeepsPolicy(known, outcomes, Outcomes(known[|due|..], 0, policy, grace, now), policy, grace, now);
        return due, outcomes, next, Some(plan.error);
      }
      PlannedMore(cal, o, policy, grace, now, due, outcomes, next, plan.value);
      due := due + plan.value.due;
      outcomes := outcomes + plan.value.outcomes;
      next := plan.value.next;
    }
    assert known[|due|..] == [];
    PrefixKeepsPolicy(known, outcomes, [], policy, grace, now);
    failure := None;
  }
}
