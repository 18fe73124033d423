/** Schedule calendars: a cron expression read on the wall clock of a zone. */
module Calendar {
  import opened Rows
  import opened Zone

  const MAX_GAP_SCAN_SECONDS := 86_400

  datatype Disposition = Exact | Gap | AmbiguousEarlier

  /** A wall-clock time of the schedule and the instant it is due. */
  datatype Occurrence = Occurrence(local: int, at: int, disposition: Disposition)

  datatype CalendarError = GapTooLong | NoNextOccurrence

  datatype Found<T> = Ok(value: T) | Err(error: CalendarError)

  /** The wall-clock times at which a cron expression fires, and the search for the next one. */
  datatype Cron = Cron(fires: int -> bool, next: int -> Option<int>)

  ghost predicate FindsNext(cron: Cron, l: int) {
    match cron.next(l)
    case Some(n) => n > l && cron.fires(n) && forall m :: l < m < n ==> !cron.fires(m)
    case None => forall m :: l < m ==> !cron.fires(m)
  }

  datatype ScheduleCalendar = ScheduleCalendar(cron: Cron, zone: TimeZone)

  /** Cron fires at whole seconds and finds its next time; the zone is well separated. */
  ghost predicate WellFormed(cal: ScheduleCalendar) {
    && WellSeparated(cal.zone)
    && (forall l {:trigger FindsNext(cal.cron, l)} :: FindsNext(cal.cron, l))
    && (forall l :: cal.cron.fires(l) ==> l % 1000 == 0)
  }

  // ---- Resolving a wall-clock time ------------------------------------------------------------

  /** What a wall-clock time means: due at the first instant that shows it or a later time. */
  function Resolved(z: TimeZone, l: int): Found<Occurrence> {
    var shown := |Instants(z, l)|;
    if shown == 1 then Ok(Occurrence(l, Earliest(z, l), Exact))
    else if shown > 1 then Ok(Occurrence(l, Earliest(z, l), AmbiguousEarlier))
    else if Local(z, Earliest(z, l)) - l <= MAX_GAP_SCAN_SECONDS * 1000 then Ok(Occurrence(l, Earliest(z, l), Gap))
    else Err(GapTooLong)
  }

  /** `t` is the first instant at which the wall clock shows `l` or a later time. */
  ghost predicate FirstToReach(z: TimeZone, l: int, t: int) {
    Local(z, t) >= l && forall u :: Local(z, u) >= l ==> t <= u
  }

  /** What a wall-clock time resolves to, on the clock itself: one that is shown once is exact, one that is
      shown more often is due at its first pass, and one that is never shown is due at the end of its gap,
      unless that is more than the bound away. */
  ghost predicate ResolvesTo(z: TimeZone, l: int, r: Found<Occurrence>) {
    match r
    case Ok(o) =>
      && o.local == l && FirstToReach(z, l, o.at)
      && (o.disposition == Gap <==> forall t :: Local(z, t) != l)
      && (o.disposition == AmbiguousEarlier <==> exists t, u :: t < u && Local(z, t) == l && Local(z, u) == l)
      && (o.disposition == Gap ==> Local(z, o.at) - l <= MAX_GAP_SCAN_SECONDS * 1000)
    case Err(error) =>
      && error == GapTooLong && (forall t :: Local(z, t) != l)
      && exists t :: FirstToReach(z, l, t) && Local(z, t) - l > MAX_GAP_SCAN_SECONDS * 1000
  }

  lemma ResolvedMeans(z: TimeZone, l: int)
    requires WellSeparated(z)
    ensures ResolvesTo(z, l, Resolved(z, l))
  {
    var shown, first := Instants(z, l), Earliest(z, l);
    EarliestIsFirst(z, l);
    InstantsExact(z, l);
    ReadsAs(z, l);
    assert FirstToReach(z, l, first);
    if |shown| == 0 {
      forall t ensures Local(z, t) != l { assert t !in shown; }
    } else {
      assert Local(z, shown[0]) == l by { assert shown[0] in shown; }
      if |shown| > 1 { assert shown[0] < shown[1] && Local(z, shown[1]) == l by { assert shown[1] in shown; } }
      if |shown| == 1 {
        forall t | Local(z, t) == l ensures t == shown[0] { assert t in shown; }
      }
    }
  }

  /** Reads the wall clock, or probes second by second for the end of a gap. */
  method Resolve(z: TimeZone, l: int) returns (r: Found<Occurrence>)
    requires WellSeparated(z) && l % 1000 == 0
    ensures r == Resolved(z, l)
    ensures ResolvesTo(z, l, r)
  {
    r := ReadOrProbe(z, l);
    ResolvedMeans(z, l);
  }

  method ReadOrProbe(z: TimeZone, l: int) returns (r: Found<Occurrence>)
    requires WellSeparated(z) && l % 1000 == 0
    ensures r == Resolved(z, l)
  {
    ReadsAs(z, l);
    var shown := Instants(z, l);
    if |shown| == 1 { return Ok(Occurrence(l, shown[0], Exact)); }
    if |shown| > 1 {
      InstantsExact(z, l);
      var first, second := shown[0], shown[|shown| - 1];
      return Ok(Occurrence(l, if first < second then first else second, AmbiguousEarlier));
    }
    GapEnd(z, l);
    ghost var end := Local(z, Earliest(z, l));
    for offset := 1 to MAX_GAP_SCAN_SECONDS + 1
      invariant l + (offset - 1) * 1000 < end
    {
      var probe := l + offset * 1000;
      var hits := Instants(z, probe);
      if probe <= end {
        GapShape(z, l, probe);
        ReadsAs(z, probe);
      }
      if |hits| == 1 { return Ok(Occurrence(l, hits[0], Gap)); }
    }
    return Err(GapTooLong);
  }

  /** The first occurrence after a wall-clock time. */
  function NextAfterLocal(cal: ScheduleCalendar, l: int): Found<Occurrence> {
    var n := cal.cron.next(l);
    if n.None? then Err(NoNextOccurrence) else Resolved(cal.zone, n.value)
  }

  method FindNextAfterLocal(cal: ScheduleCalendar, l: int) returns (r: Found<Occurrence>)
    requires WellFormed(cal)
    ensures r == NextAfterLocal(cal, l)
  {
    assert FindsNext(cal.cron, l);
    var n := cal.cron.next(l);
    if n.None? { return Err(NoNextOccurrence); }
    r := Resolve(cal.zone, n.value);
  }

  /** What a successful search found. */
  lemma NextIsNext(cal: ScheduleCalendar, l: int)
    requires WellFormed(cal)
    ensures var r := NextAfterLocal(cal, l);
      && (r.Ok? ==>
            && r.value.local > l && cal.cron.fires(r.value.local) && r.value.local % 1000 == 0
            && Resolved(cal.zone, r.value.local) == r && r.value.at == Earliest(cal.zone, r.value.local)
            && (forall m :: l < m < r.value.local ==> !cal.cron.fires(m)))
      && (r == Err(NoNextOccurrence) ==> forall m :: l < m ==> !cal.cron.fires(m))
      && (r == Err(GapTooLong) ==>
            exists m :: m > l && cal.cron.fires(m) && Resolved(cal.zone, m) == r
              && forall k :: l < k < m ==> !cal.cron.fires(k))
  {
    assert FindsNext(cal.cron, l);
  }

  // ---- The first occurrence after an instant ----------------------------------------------------

  /** Every occurrence before the wall-clock time `l` was due at `after` or earlier. */
  ghost predicate PastBefore(cal: ScheduleCalendar, after: int, l: int) {
    forall m :: m < l && cal.cron.fires(m) ==> Earliest(cal.zone, m) <= after
  }

  /** `o` is the first occurrence, in wall-clock order, that is due after `after`. */
  ghost predicate FirstAfter(cal: ScheduleCalendar, after: int, o: Occurrence) {
    && cal.cron.fires(o.local) && Resolved(cal.zone, o.local) == Ok(o)
    && o.at > after && PastBefore(cal, after, o.local)
  }

  /** Wall-clock times up to what `after` shows are past: a repeated hour counts at its first pass. */
  lemma ShownIsPast(cal: ScheduleCalendar, after: int)
    ensures PastBefore(cal, after, Local(cal.zone, after) + 1)
  {
    var shown := Local(cal.zone, after);
    EarliestIsFirst(cal.zone, shown);
    forall m | m < shown + 1 && cal.cron.fires(m) ensures Earliest(cal.zone, m) <= after {
      EarliestMonotone(cal.zone, m, shown);
    }
  }

  /** Finds the first occurrence strictly after an instant, and terminates. It fails only if no
      occurrence is left, or at a first occurrence that lies in a gap longer than the bound. */
  method NextAfter(cal: ScheduleCalendar, after: int) returns (r: Found<Occurrence>)
    requires WellFormed(cal)
    ensures r.Ok? ==> FirstAfter(cal, after, r.value)
    ensures r == Err(NoNextOccurrence) ==> forall m :: cal.cron.fires(m) ==> Earliest(cal.zone, m) <= after
    ensures r == Err(GapTooLong) ==>
      exists m :: cal.cron.fires(m) && Resolved(cal.zone, m) == r && PastBefore(cal, after, m)
  {
    ShownIsPast(cal, after);
    ghost var passed := Local(cal.zone, after);
    r := FindNextAfterLocal(cal, Local(cal.zone, after));
    while r.Ok? && r.value.at <= after
      invariant r == NextAfterLocal(cal, passed) && PastBefore(cal, after, passed + 1)
      decreases after + MaxOffset(cal.zone) - passed
    {
      NextIsNext(cal, passed);
      ReachedBounded(cal.zone, r.value.local, after);
      passed := r.value.local;
      r := FindNextAfterLocal(cal, r.value.local);
    }
    NextIsNext(cal, passed);
  }

  // ---- Runnable occurrences -----------------------------------------------------------------------

  /** One by one: the first occurrence after `l` that is not in a gap, if it is due by `through`. */
  ghost function Scan(cal: ScheduleCalendar, l: int, through: int): Found<Option<Occurrence>>
    requires WellFormed(cal)
    decreases through + MaxOffset(cal.zone) - l
  {
    var next := NextAfterLocal(cal, l);
    if next.Err? then Err(next.error)
    else if next.value.at > through then Ok(None)
    else if next.value.disposition != Gap then Ok(Some(next.value))
    else
      NextIsNext(cal, l);
      ReachedBounded(cal.zone, next.value.local, through);
      Scan(cal, next.value.local, through)
  }

  /** Every occurrence between `l` and `n` lies in a gap and is due by `through`. */
  ghost predicate OnlyGaps(cal: ScheduleCalendar, l: int, n: int, through: int) {
    forall m :: l < m < n && cal.cron.fires(m) ==>
      Resolved(cal.zone, m).Ok? && Resolved(cal.zone, m).value.disposition == Gap && Earliest(cal.zone, m) <= through
  }

  /** The occurrence at `n` is the first one after `l` that is not a due one in a gap. */
  ghost predicate EndsScan(cal: ScheduleCalendar, l: int, n: int, through: int) {
    n > l && cal.cron.fires(n) && OnlyGaps(cal, l, n, through)
  }

  /** What the scan found: the first occurrence after `l` that can run, if it is due by `through`; else the
      first one that is due later, or that the calendar cannot resolve; else none is left. */
  ghost predicate ScanFound(cal: ScheduleCalendar, l: int, through: int, r: Found<Option<Occurrence>>) {
    match r
    case Ok(Some(o)) =>
      && EndsScan(cal, l, o.local, through) && Resolved(cal.zone, o.local) == Ok(o)
      && o.disposition != Gap && o.at <= through
    case Ok(None) =>
      exists n :: EndsScan(cal, l, n, through) && Resolved(cal.zone, n).Ok? && Earliest(cal.zone, n) > through
    case Err(error) =>
      if error == NoNextOccurrence then forall n :: OnlyGaps(cal, l, n, through)
      else exists n :: EndsScan(cal, l, n, through) && Resolved(cal.zone, n) == Err(error)
  }

  lemma {:induction false} ScanMeans(cal: ScheduleCalendar, l: int, through: int)
    requires WellFormed(cal)
    ensures ScanFound(cal, l, through, Scan(cal, l, through))
    decreases through + MaxOffset(cal.zone) - l
  {
    var next := NextAfterLocal(cal, l);
    NextIsNext(cal, l);
    assert FindsNext(cal.cron, l);
    if next.Err? {
      if next.error == GapTooLong { assert EndsScan(cal, l, cal.cron.next(l).value, through); }
    } else if next.value.at > through || next.value.disposition != Gap {
      assert EndsScan(cal, l, next.value.local, through);
    } else {
      var n := next.value.local;
      ReachedBounded(cal.zone, n, through);
      ScanMeans(cal, n, through);
      forall m | OnlyGaps(cal, n, m, through) ensures OnlyGaps(cal, l, m, through) {
      }
      forall m | EndsScan(cal, n, m, through) ensures EndsScan(cal, l, m, through) {
        assert OnlyGaps(cal, l, m, through);
      }
    }
  }

  /** From one occurrence in a gap, every occurrence up to the end of the gap is discarded too. */
  lemma {:induction false} GapJump(cal: ScheduleCalendar, c: int, l: int, through: int)
    requires WellFormed(cal) && InGap(cal.zone, c) && c % 1000 == 0 && Earliest(cal.zone, c) <= through
    requires Local(cal.zone, Earliest(cal.zone, c)) - c <= MAX_GAP_SCAN_SECONDS * 1000
    requires c <= l <= Local(cal.zone, Earliest(cal.zone, c)) - 1000
    ensures Scan(cal, l, through) == Scan(cal, Local(cal.zone, Earliest(cal.zone, c)) - 1000, through)
    decreases Local(cal.zone, Earliest(cal.zone, c)) - l
  {
    var end := Local(cal.zone, Earliest(cal.zone, c));
    GapEnd(cal.zone, c);
    assert FindsNext(cal.cron, l) && FindsNext(cal.cron, end - 1000);
    var n := cal.cron.next(l);
    if n.Some? && n.value < end {
      assert n.value % 1000 == 0;
      GapShape(cal.zone, c, n.value);
      ReadsAs(cal.zone, n.value);
      assert NextAfterLocal(cal, l) == Ok(Occurrence(n.value, Earliest(cal.zone, c), Gap));
      GapJump(cal, c, n.value, through);
    } else {
      SameNext(cal, l, end - 1000, end);
    }
  }

  /** Two wall-clock times with no occurrence between them have the same next one. */
  lemma SameNext(cal: ScheduleCalendar, l: int, k: int, end: int)
    requires WellFormed(cal) && l <= k < end
    requires forall m :: l < m <= k ==> !cal.cron.fires(m)
    ensures cal.cron.next(l) == cal.cron.next(k)
  {
    assert FindsNext(cal.cron, l) && FindsNext(cal.cron, k);
  }

  /** An occurrence in a gap: when the gap ends, and how far that is. */
  lemma GapOccurrence(z: TimeZone, l: int)
    requires WellSeparated(z) && Resolved(z, l).Ok? && Resolved(z, l).value.disposition == Gap && l % 1000 == 0
    ensures InGap(z, l) && Resolved(z, l).value.at == Earliest(z, l)
    ensures l + 1000 <= Local(z, Earliest(z, l)) <= l + MAX_GAP_SCAN_SECONDS * 1000
  {
    ReadsAs(z, l);
    GapEnd(z, l);
  }

  /** One step of the scan. */
  lemma ScanStep(cal: ScheduleCalendar, l: int, through: int)
    requires WellFormed(cal)
    ensures var next := NextAfterLocal(cal, l);
      && (next.Err? ==> Scan(cal, l, through) == Err(next.error))
      && (next.Ok? && next.value.at > through ==> Scan(cal, l, through) == Ok(None))
      && (next.Ok? && next.value.at <= through ==>
            && l < next.value.local <= through + MaxOffset(cal.zone)
            && Scan(cal, l, through) == (if next.value.disposition != Gap then Ok(Some(next.value))
                                         else Scan(cal, next.value.local, through)))
  {
    NextIsNext(cal, l);
    var next := NextAfterLocal(cal, l);
    if next.Ok? && next.value.at <= through { ReachedBounded(cal.zone, next.value.local, through); }
  }

  /** The jump from an occurrence in a gap to the end of the gap moves on and skips nothing runnable. */
  lemma JumpIsScan(cal: ScheduleCalendar, l: int, through: int)
    requires WellFormed(cal)
    requires var next := NextAfterLocal(cal, l); next.Ok? && next.value.at <= through && next.value.disposition == Gap
    ensures var next := NextAfterLocal(cal, l).value;
      && l < Local(cal.zone, next.at) - 1000 && l < through + MaxOffset(cal.zone)
      && Scan(cal, l, through) == Scan(cal, Local(cal.zone, next.at) - 1000, through)
  {
    NextIsNext(cal, l);
    ScanStep(cal, l, through);
    GapFrom(cal, NextAfterLocal(cal, l).value.local, through);
  }

  /** From the occurrence at `c` in a gap, the scan goes on at the end of the gap. */
  lemma GapFrom(cal: ScheduleCalendar, c: int, through: int)
    requires WellFormed(cal) && c % 1000 == 0
    requires var o := Resolved(cal.zone, c); o.Ok? && o.value.disposition == Gap && o.value.at <= through
    ensures var at := Resolved(cal.zone, c).value.at;
      && c <= Local(cal.zone, at) - 1000
      && Scan(cal, c, through) == Scan(cal, Local(cal.zone, at) - 1000, through)
  {
    GapOccurrence(cal.zone, c);
    GapJump(cal, c, c, through);
  }

  /** One turn of the search after `l`: its answer, or the wall-clock time to go on from. */
  method ScanTurn(cal: ScheduleCalendar, l: int, through: int) returns (r: Option<Found<Option<Occurrence>>>, from: int)
    requires WellFormed(cal)
    ensures r.Some? ==> r.value == Scan(cal, l, through) && from == l
    ensures r.None? ==>
      Scan(cal, from, through) == Scan(cal, l, through) && l < from && l < through + MaxOffset(cal.zone)
  {
    ScanStep(cal, l, through);
    from := l;
    var next := FindNextAfterLocal(cal, l);
    if next.Err? { return Some(Err(next.error)), l; }
    if next.value.at > through { return Some(Ok(None)), l; }
    if next.value.disposition != Gap { return Some(Ok(Some(next.value))), l; }
    JumpIsScan(cal, l, through);
    return None, Local(cal.zone, next.value.at) - 1000;
  }

  /** With the jump over gaps: the same answer as the scan, for folds and gaps alike. */
  method NextRunnableThrough(cal: ScheduleCalendar, l: int, through: int) returns (r: Found<Option<Occurrence>>)
    requires WellFormed(cal)
    ensures r == Scan(cal, l, through)
    ensures ScanFound(cal, l, through, r)
  {
    ScanMeans(cal, l, through);
    var answer, after := ScanTurn(cal, l, through);
    while answer.None?
      invariant Scan(cal, after, through) == Scan(cal, l, through)
      invariant answer.Some? ==> answer.value == Scan(cal, l, through)
      decreases answer.None?, through + MaxOffset(cal.zone) - after
    {
      answer, after := ScanTurn(cal, after, through);
    }
    return answer.value;
  }
}
