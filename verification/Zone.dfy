/** Time zones: instants, wall clocks, and what lies between them. All times
    are milliseconds.

    A zone is a base offset and a list of transitions, each with the offset it
    starts. Transitions and offsets are whole seconds, and the wall-clock
    intervals that transitions skip or repeat neither touch nor overlap. */
module Zone {

  datatype Transition = Transition(at: int, offset: int)

  datatype TimeZone = TimeZone(base: int, transitions: seq<Transition>)
  {
    /** The zone without its last transition. */
    function Before(): TimeZone
      requires transitions != []
    {
      this.(transitions := transitions[..|transitions| - 1])
    }

    function Last(): Transition
      requires transitions != []
    {
      transitions[|transitions| - 1]
    }

    /** The offset after all transitions. */
    function FinalOffset(): int {
      if transitions == [] then base else Last().offset
    }

    /** The wall-clock interval that the last transition skips or repeats. */
    function Low(): int
      requires transitions != []
    {
      Last().at + (if Before().FinalOffset() < Last().offset then Before().FinalOffset() else Last().offset)
    }

    function High(): int
      requires transitions != []
    {
      Last().at + (if Before().FinalOffset() < Last().offset then Last().offset else Before().FinalOffset())
    }
  }

  ghost predicate WellSeparated(z: TimeZone)
    decreases |z.transitions|
  {
    if z.transitions == [] then z.base % 1000 == 0
    else
      && z.Last().at % 1000 == 0 && z.Last().offset % 1000 == 0
      && WellSeparated(z.Before())
      && (z.Before().transitions != [] ==>
            z.Before().Last().at < z.Last().at && z.Before().High() < z.Low())
  }

  function Offset(z: TimeZone, t: int): int
    decreases |z.transitions|
  {
    if z.transitions == [] then z.base
    else if t >= z.Last().at then z.Last().offset
    else Offset(z.Before(), t)
  }

  /** What the wall clock shows at `t`. */
  function Local(z: TimeZone, t: int): int { t + Offset(z, t) }

  // ---- Reading a wall clock ------------------------------------------------------------------

  /** The instants at which the wall clock shows `l`, in order. */
  function Instants(z: TimeZone, l: int): seq<int>
    decreases |z.transitions|
  {
    if z.transitions == [] then [l - z.base]
    else
      Until(Instants(z.Before(), l), z.Last().at)
      + (if l - z.Last().offset >= z.Last().at then [l - z.Last().offset] else [])
  }

  /** The members of `s` below `limit`. */
  function Until(s: seq<int>, limit: int): (r: seq<int>)
    ensures forall t :: t in r <==> t in s && t < limit
  {
    if s == [] then [] else (if s[0] < limit then [s[0]] else []) + Until(s[1..], limit)
  }

  ghost predicate Ascending(s: seq<int>) {
    forall i, j :: 0 <= i < j < |s| ==> s[i] < s[j]
  }

  lemma {:induction false} UntilAscends(s: seq<int>, limit: int)
    requires Ascending(s)
    ensures Ascending(Until(s, limit))
  {
    if s != [] {
      UntilAscends(s[1..], limit);
      var rest := Until(s[1..], limit);
      forall t | t in rest ensures s[0] < t {
        var k :| 0 <= k < |s[1..]| && s[1..][k] == t;
        assert s[k + 1] == t;
      }
      if s[0] < limit { JoinAscends([s[0]], rest); }
    }
  }

  lemma JoinAscends(a: seq<int>, b: seq<int>)
    requires Ascending(a) && Ascending(b) && (forall t, u :: t in a && u in b ==> t < u)
    ensures Ascending(a + b)
  {
    forall i, j | 0 <= i < j < |a + b| ensures (a + b)[i] < (a + b)[j] {
      if i < |a| <= j { assert a[i] in a && b[j - |a|] in b; }
    }
  }

  lemma {:induction false} InstantsAscend(z: TimeZone, l: int)
    ensures Ascending(Instants(z, l))
    decreases |z.transitions|
  {
    if z.transitions != [] {
      InstantsAscend(z.Before(), l);
      var earlier := Until(Instants(z.Before(), l), z.Last().at);
      UntilAscends(Instants(z.Before(), l), z.Last().at);
      if l - z.Last().offset >= z.Last().at { JoinAscends(earlier, [l - z.Last().offset]); }
    }
  }

  lemma {:induction false} ShowsIffMember(z: TimeZone, l: int, t: int)
    ensures t in Instants(z, l) <==> Local(z, t) == l
    decreases |z.transitions|
  {
    if z.transitions != [] { ShowsIffMember(z.Before(), l, t); }
  }

  /** They are exactly the instants that show `l`, each once. */
  lemma InstantsExact(z: TimeZone, l: int)
    ensures Ascending(Instants(z, l))
    ensures forall t :: t in Instants(z, l) <==> Local(z, t) == l
  {
    InstantsAscend(z, l);
    forall t ensures t in Instants(z, l) <==> Local(z, t) == l { ShowsIffMember(z, l, t); }
  }

  /** The first instant at which the wall clock shows `l` or later. */
  function Earliest(z: TimeZone, l: int): int
    decreases |z.transitions|
  {
    if z.transitions == [] then l - z.base
    else
      var e := Earliest(z.Before(), l);
      if e < z.Last().at then e
      else if l - z.Last().offset < z.Last().at then z.Last().at
      else l - z.Last().offset
  }

  lemma {:induction false} EarliestIsFirst(z: TimeZone, l: int)
    ensures Local(z, Earliest(z, l)) >= l
    ensures forall t :: t < Earliest(z, l) ==> Local(z, t) < l
    decreases |z.transitions|
  {
    if z.transitions != [] {
      EarliestIsFirst(z.Before(), l);
      forall t | t < Earliest(z, l) ensures Local(z, t) < l {
        if t < z.Last().at { assert Local(z, t) == Local(z.Before(), t); }
      }
    }
  }

  lemma EarliestMonotone(z: TimeZone, k: int, l: int)
    requires k <= l
    ensures Earliest(z, k) <= Earliest(z, l)
  {
    EarliestIsFirst(z, k);
    EarliestIsFirst(z, l);
  }

  /** The wall clock never shows `l`: a transition skips it. */
  ghost predicate InGap(z: TimeZone, l: int) { Local(z, Earliest(z, l)) > l }

  /** The end of a gap is at most the end of the last interval, and the gap ends at a whole second. */
  lemma {:induction false} GapEnd(z: TimeZone, l: int)
    requires WellSeparated(z) && InGap(z, l)
    ensures z.transitions != [] && l < Local(z, Earliest(z, l)) <= z.High()
    ensures Earliest(z, l) % 1000 == 0 && Local(z, Earliest(z, l)) % 1000 == 0
    decreases |z.transitions|
  {
    if z.transitions != [] && Earliest(z.Before(), l) < z.Last().at { GapEnd(z.Before(), l); }
  }

  /** After the end of a gap the wall clock does not return to it. */
  lemma {:induction false} AfterGap(z: TimeZone, l: int, t: int)
    requires WellSeparated(z) && InGap(z, l) && t > Earliest(z, l)
    ensures Local(z, t) > Local(z, Earliest(z, l))
    decreases |z.transitions|
  {
    GapEnd(z, l);
    if Earliest(z.Before(), l) < z.Last().at {
      GapEnd(z.Before(), l);
      if t < z.Last().at { AfterGap(z.Before(), l, t); }
    }
  }

  lemma HasMember(s: seq<int>)
    ensures s == [] || exists t :: t in s
  {
    if s != [] {
      var t := s[0];
      assert t in s;
    }
  }

  lemma FirstTwo(s: seq<int>)
    requires Ascending(s)
    ensures |s| > 1 ==> s[0] < s[1]
  {
  }

  lemma OneMember(s: seq<int>, e: int)
    requires Ascending(s) && e in s && (forall t :: t in s ==> t == e)
    ensures s == [e]
  {
    FirstTwo(s);
    forall i | 0 <= i < |s| ensures s[i] == e {
      var t := s[i];
      assert t in s;
    }
  }

  /** `l` is skipped exactly when no instant shows it; else the first instant that shows it is the earliest. */
  lemma ReadsAs(z: TimeZone, l: int)
    requires WellSeparated(z)
    ensures InGap(z, l) <==> Instants(z, l) == []
    ensures Instants(z, l) != [] ==> Instants(z, l)[0] == Earliest(z, l)
  {
    InstantsExact(z, l);
    EarliestIsFirst(z, l);
    var e := Earliest(z, l);
    if InGap(z, l) {
      forall t ensures Local(z, t) != l {
        if t > e { AfterGap(z, l, t); }
      }
      HasMember(Instants(z, l));
    } else {
      assert e in Instants(z, l);
      var k :| 0 <= k < |Instants(z, l)| && Instants(z, l)[k] == e;
      assert Instants(z, l)[0] in Instants(z, l);
    }
  }

  /** Inside a gap every wall-clock time is skipped; the end of the gap is shown once, when it ends. */
  lemma GapShape(z: TimeZone, l: int, p: int)
    requires WellSeparated(z) && InGap(z, l) && l <= p <= Local(z, Earliest(z, l))
    ensures Earliest(z, p) == Earliest(z, l)
    ensures InGap(z, p) <==> p < Local(z, Earliest(z, l))
    ensures p == Local(z, Earliest(z, l)) ==> Instants(z, p) == [Earliest(z, l)]
  {
    EarliestIsFirst(z, l);
    EarliestIsFirst(z, p);
    var e := Earliest(z, l);
    if p == Local(z, e) {
      InstantsExact(z, p);
      forall t | t in Instants(z, p) ensures t == e {
        if t > e { AfterGap(z, l, t); }
      }
      assert e in Instants(z, p);
      OneMember(Instants(z, p), e);
    }
  }

  /** The largest offset of the zone. */
  function MaxOffset(z: TimeZone): int
    decreases |z.transitions|
  {
    if z.transitions == [] then z.base
    else
      var m := MaxOffset(z.Before());
      if m < z.Last().offset then z.Last().offset else m
  }

  lemma {:induction false} OffsetBounded(z: TimeZone, t: int)
    ensures Offset(z, t) <= MaxOffset(z)
    decreases |z.transitions|
  {
    if z.transitions != [] { OffsetBounded(z.Before(), t); }
  }

  /** A wall-clock time that has been reached by `t` is bounded. */
  lemma ReachedBounded(z: TimeZone, l: int, t: int)
    requires Earliest(z, l) <= t
    ensures l <= t + MaxOffset(z)
  {
    EarliestIsFirst(z, l);
    OffsetBounded(z, Earliest(z, l));
  }
}
