/** The timeline of a workflow: five sources merged page by page. */
module Timeline {
  import opened Rows
  import opened TimelineKey

  const SOURCES := 5
  const MAX_TIMELINE_PAGE_SIZE := 200

  // ---- Lists in timeline order ------------------------------------------------------------

  ghost predicate Ascending(s: seq<Position>) {
    forall i, j :: 0 <= i < j < |s| ==> Less(s[i], s[j])
  }

  lemma LessIsOrder(p: Position, q: Position, r: Position)
    ensures !Less(p, p) && (Less(p, q) ==> !Less(q, p)) && (Less(p, q) && Less(q, r) ==> Less(p, r))
    ensures p == q || Less(p, q) || Less(q, p)
  {
  }

  ghost predicate ValidAll(s: seq<Position>) {
    forall i :: 0 <= i < |s| ==> ValidPosition(s[i])
  }

  lemma IndexOf(s: seq<Position>, p: Position) returns (k: nat)
    requires p in s
    ensures k < |s| && s[k] == p
  {
    k :| 0 <= k < |s| && s[k] == p;
  }

  /** Where two lists agree, neither holds the next entry of the other. */
  lemma NotBefore(a: seq<Position>, b: seq<Position>, n: nat, k: nat)
    requires Ascending(a) && k < n < |a| && n <= |b| && b[..n] == a[..n]
    ensures b[k] != a[n]
  {
    assert b[k] == b[..n][k] == a[..n][k] == a[k];
    assert Less(a[k], a[n]);
  }

  lemma LessIsBefore(s: seq<Position>, i: nat, j: nat)
    requires Ascending(s) && i < |s| && j < |s| && Less(s[i], s[j])
    ensures i < j
  {
    if j < i { LessIsOrder(s[j], s[i], s[j]); }
  }

  /** A list that contains only members of another, agrees with it so far and holds its next entry,
      goes on with that entry. */
  lemma NextSame(a: seq<Position>, b: seq<Position>, n: nat)
    requires Ascending(a) && Ascending(b) && n < |a| && n <= |b| && b[..n] == a[..n]
    requires a[n] in b && (forall p :: p in b ==> p in a)
    ensures n < |b| && b[n] == a[n]
  {
    var k := IndexOf(b, a[n]);
    if k < n {
      NotBefore(a, b, n, k);
    } else {
      var q := b[n];
      var j := IndexOf(a, q);
      if j < n {
        NotBefore(b, a, n, j);
      } else if n < j {
        assert Less(a[n], a[j]);
        LessIsBefore(b, k, n);
      }
    }
  }

  /** A list that contains only members of another, and all of its first `m`, starts with those. */
  lemma {:induction false} SameStart(a: seq<Position>, b: seq<Position>, m: nat)
    requires Ascending(a) && Ascending(b) && m <= |a|
    requires forall p :: p in b ==> p in a
    requires forall i :: 0 <= i < m ==> a[i] in b
    ensures |b| >= m && b[..m] == a[..m]
  {
    if m > 0 {
      SameStart(a, b, m - 1);
      NextSame(a, b, m - 1);
      assert b[..m] == b[..m - 1] + [b[m - 1]] && a[..m] == a[..m - 1] + [a[m - 1]];
    }
  }

  lemma IndicesOrder(s: seq<Position>)
    requires Ascending(s)
    ensures forall i, j :: 0 <= i < |s| && 0 <= j < |s| ==> (Less(s[i], s[j]) <==> i < j)
    ensures forall i, j :: 0 <= i < |s| && 0 <= j < |s| && s[i] == s[j] ==> i == j
  {
  }

  /** A member of a sublist is never later in it than in the whole list. */
  lemma {:induction false} IndexNoLater(sub: seq<Position>, all: seq<Position>, k: nat, i: nat)
    requires Ascending(sub) && Ascending(all) && (forall p :: p in sub ==> p in all)
    requires k < |sub| && i < |all| && sub[k] == all[i]
    ensures k <= i
  {
    if k > 0 {
      var before := sub[k - 1];
      assert before in all;
      var j :| 0 <= j < |all| && all[j] == before;
      IndicesOrder(all);
      IndexNoLater(sub, all, k - 1, j);
    }
  }

  // ---- Sorting --------------------------------------------------------------------------------

  /** Puts `p` into a list sorted by time and key text. */
  function Insert(s: seq<Position>, p: Position): seq<Position>
    requires p.rank <= 4 && forall i :: 0 <= i < |s| ==> s[i].rank <= 4
  {
    if s == [] then [p]
    else if KeyLess(p, s[0]) then [p] + s
    else [s[0]] + Insert(s[1..], p)
  }

  lemma {:induction false} InsertSorts(s: seq<Position>, p: Position)
    requires ValidAll(s) && ValidPosition(p) && Ascending(s) && p !in s
    ensures ValidAll(Insert(s, p)) && Ascending(Insert(s, p))
    ensures forall q :: q in Insert(s, p) <==> q == p || q in s
  {
    if s != [] {
      KeyOrders(p, s[0]);
      if KeyLess(p, s[0]) {
        FirstIsLess([p], s);
      } else {
        InsertSorts(s[1..], p);
        var rest := Insert(s[1..], p);
        forall q | q in rest ensures Less(s[0], q) {
          if q != p {
            var k :| 0 <= k < |s[1..]| && s[1..][k] == q;
            assert q == s[k + 1];
          } else {
            assert p != s[0];
          }
        }
        HeadAscends(s[0], rest);
      }
    }
  }

  lemma FirstIsLess(head: seq<Position>, s: seq<Position>)
    requires |head| == 1 && s != [] && Ascending(s) && Less(head[0], s[0])
    ensures Ascending(head + s)
  {
    forall j | 0 <= j < |s| ensures Less(head[0], s[j]) {
      if j > 0 { LessIsOrder(head[0], s[0], s[j]); }
    }
  }

  lemma HeadAscends(p: Position, s: seq<Position>)
    requires Ascending(s) && forall q :: q in s ==> Less(p, q)
    ensures Ascending([p] + s)
  {
    forall j | 0 <= j < |s| ensures Less(p, s[j]) {
      var q := s[j];
      assert q in s;
    }
  }

  ghost predicate NoDuplicates(s: seq<Position>) {
    forall i, j :: 0 <= i < j < |s| ==> s[i] != s[j]
  }

  /** Sorts entries by time and key text: timeline order. */
  method SortTimeline(entries: seq<Position>) returns (sorted: seq<Position>)
    requires ValidAll(entries) && NoDuplicates(entries)
    ensures ValidAll(sorted) && Ascending(sorted) && forall p :: p in sorted <==> p in entries
  {
    sorted := [];
    for i := 0 to |entries|
      invariant ValidAll(sorted) && Ascending(sorted)
      invariant forall p :: p in sorted <==> p in entries[..i]
    {
      assert entries[i] !in entries[..i];
      InsertSorts(sorted, entries[i]);
      sorted := Insert(sorted, entries[i]);
      assert entries[..i + 1] == entries[..i] + [entries[i]];
    }
    assert entries[..|entries|] == entries;
  }

  // ---- Sources -------------------------------------------------------------------------------------

  /** The cursor filter of each source. */
  predicate Passes(p: Position, cursor: Option<Position>) {
    cursor.None? ||
    var c := cursor.value;
    if p.rank < c.rank then p.time > c.time
    else if p.rank > c.rank then p.time >= c.time
    else
      || p.time > c.time
      || (p.time == c.time
          && (match p.rank
              case 2 => p.id > c.id || (p.id == c.id && p.attempt > c.attempt)
              case 3 =>
                || p.id > c.id
                || (p.id == c.id && (p.attempt > c.attempt || (p.attempt == c.attempt && p.sequence > c.sequence)))
              case _ => p.id > c.id))
  }

  /** The filters keep exactly what comes after the cursor. */
  lemma PassesIsAfter(p: Position, c: Position)
    requires ValidPosition(p) && ValidPosition(c)
    ensures Passes(p, Some(c)) <==> Less(c, p)
  {
  }

  /** Rows of one source, as the database returns them: filtered, ordered, at most `n`. */
  method LoadSource(rows: seq<Position>, cursor: Option<Position>, n: nat)
    returns (page: seq<Position>, ghost source: seq<Position>)
    requires ValidAll(rows) && NoDuplicates(rows)
    ensures Ascending(source) && (forall p :: p in source <==> p in rows && Passes(p, cursor))
    ensures page == source[..if n < |source| then n else |source|]
  {
    var kept := [];
    for i := 0 to |rows|
      invariant ValidAll(kept) && NoDuplicates(kept)
      invariant forall p :: p in kept <==> p in rows[..i] && Passes(p, cursor)
    {
      assert rows[..i + 1] == rows[..i] + [rows[i]];
      assert rows[i] !in rows[..i];
      if Passes(rows[i], cursor) {
        AppendDistinct(kept, rows[i]);
        kept := kept + [rows[i]];
      }
    }
    assert rows[..|rows|] == rows;
    var ordered := SortTimeline(kept);
    source := ordered;
    page := ordered[..if n < |ordered| then n else |ordered|];
  }

  lemma AppendDistinct(s: seq<Position>, p: Position)
    requires NoDuplicates(s) && p !in s
    ensures NoDuplicates(s + [p])
  {
    forall i | 0 <= i < |s| ensures s[i] != p {
      var q := s[i];
      assert q in s;
    }
  }

  // ---- Pages ---------------------------------------------------------------------------------------------

  /** The five tables of a workflow: rows of source `r` have rank `r` and are distinct. */
  ghost predicate ValidTables(tables: seq<seq<Position>>) {
    && |tables| == SOURCES
    && (forall r :: 0 <= r < SOURCES ==> ValidAll(tables[r]) && NoDuplicates(tables[r]))
    && (forall r, i :: 0 <= r < SOURCES && 0 <= i < |tables[r]| ==> tables[r][i].rank == r)
  }

  /** All rows, in any source. */
  ghost predicate Stored(tables: seq<seq<Position>>, p: Position)
    requires |tables| == SOURCES
  {
    p.rank < SOURCES && p in tables[p.rank]
  }

  /** `listing` is the rest of the timeline after the cursor. */
  ghost predicate ListsAfter(tables: seq<seq<Position>>, cursor: Option<Position>, listing: seq<Position>)
    requires |tables| == SOURCES
  {
    Ascending(listing) && forall p :: p in listing <==> Stored(tables, p) && Passes(p, cursor)
  }

  /** The first `m` rows of the merged sources are the first of the rest, if each source gave `m`. */
  lemma MergeStarts(tables: seq<seq<Position>>, cursor: Option<Position>, listing: seq<Position>,
                    sources: seq<seq<Position>>, merged: seq<Position>, n: nat)
    requires ValidTables(tables) && ListsAfter(tables, cursor, listing) && |sources| == SOURCES
    requires forall r :: 0 <= r < SOURCES ==>
      Ascending(sources[r]) && forall p :: p in sources[r] <==> p in tables[r] && Passes(p, cursor)
    requires Ascending(merged)
    requires forall p :: p in merged ==> Stored(tables, p) && Passes(p, cursor)
    requires forall r, k :: 0 <= r < SOURCES && 0 <= k < |sources[r]| && k < n ==> sources[r][k] in merged
    ensures var m := if n < |listing| then n else |listing|;
      |merged| >= m && merged[..m] == listing[..m]
    ensures |listing| <= n ==> merged == listing
  {
    var m := if n < |listing| then n else |listing|;
    forall i | 0 <= i < m ensures listing[i] in merged {
      var p := listing[i];
      assert p in listing;
      var source := sources[p.rank];
      assert p in source;
      var k :| 0 <= k < |source| && source[k] == p;
      forall q | q in source ensures q in listing {
        var j :| 0 <= j < |tables[p.rank]| && tables[p.rank][j] == q;
      }
      IndexNoLater(source, listing, k, i);
    }
    SameStart(listing, merged, m);
    if |listing| <= n {
      forall i | 0 <= i < |merged| ensures merged[i] in listing {
        var q := merged[i];
        assert q in merged;
      }
      forall p | p in listing ensures p in merged {
        var i :| 0 <= i < |listing| && listing[i] == p;
      }
      SameStart(merged, listing, |merged|);
      assert listing[..|listing|] == listing && merged[..|merged|] == merged;
    }
  }

  /** Loads every source, the first `n` rows each. */
  method LoadSources(tables: seq<seq<Position>>, cursor: Option<Position>, n: nat)
    returns (loaded: seq<Position>, ghost sources: seq<seq<Position>>)
    requires ValidTables(tables)
    ensures ValidAll(loaded) && NoDuplicates(loaded) && |sources| == SOURCES
    ensures forall r :: 0 <= r < SOURCES ==>
      Ascending(sources[r]) && forall p :: p in sources[r] <==> p in tables[r] && Passes(p, cursor)
    ensures forall p :: p in loaded ==> Stored(tables, p) && Passes(p, cursor)
    ensures forall r, k :: 0 <= r < SOURCES && 0 <= k < |sources[r]| && k < n ==> sources[r][k] in loaded
  {
    loaded, sources := [], [];
    for r := 0 to SOURCES
      invariant ValidAll(loaded) && NoDuplicates(loaded) && |sources| == r
      invariant forall s :: 0 <= s < r ==>
        Ascending(sources[s]) && forall p :: p in sources[s] <==> p in tables[s] && Passes(p, cursor)
      invariant forall p :: p in loaded ==> p.rank < r && Stored(tables, p) && Passes(p, cursor)
      invariant forall s, k :: 0 <= s < r && 0 <= k < |sources[s]| && k < n ==> sources[s][k] in loaded
    {
      ghost var source;
      var page;
      page, source := LoadSource(tables[r], cursor, n);
      PageOfSource(tables, r, cursor, source, page, n);
      JoinDistinct(loaded, page, r);
      loaded := loaded + page;
      sources := sources + [source];
    }
  }

  lemma PageOfSource(tables: seq<seq<Position>>, r: nat, cursor: Option<Position>, source: seq<Position>,
                     page: seq<Position>, n: nat)
    requires ValidTables(tables) && r < SOURCES && Ascending(source)
    requires forall p :: p in source <==> p in tables[r] && Passes(p, cursor)
    requires page == source[..if n < |source| then n else |source|]
    ensures ValidAll(page) && NoDuplicates(page)
    ensures forall p :: p in page ==> p.rank == r && Stored(tables, p) && Passes(p, cursor)
    ensures forall k :: 0 <= k < |source| && k < n ==> source[k] in page
  {
    forall i | 0 <= i < |page|
      ensures ValidPosition(page[i]) && page[i].rank == r && page[i] in tables[r] && Passes(page[i], cursor)
    {
      var p := page[i];
      assert p == source[i] && p in source;
      var j :| 0 <= j < |tables[r]| && tables[r][j] == p;
    }
    IndicesOrder(source);
    forall k | 0 <= k < |source| && k < n ensures source[k] in page { assert page[k] == source[k]; }
  }

  lemma JoinDistinct(a: seq<Position>, b: seq<Position>, r: nat)
    requires NoDuplicates(a) && NoDuplicates(b)
    requires (forall p :: p in a ==> p.rank < r) && (forall p :: p in b ==> p.rank == r)
    ensures NoDuplicates(a + b)
  {
    forall i, j | 0 <= i < |a| && 0 <= j < |b| ensures a[i] != b[j] {
      var p, q := a[i], b[j];
      assert p in a && q in b;
    }
  }

  datatype Cursor = Cursor(timestamp: int, tieBreaker: string)

  datatype PageError = InvalidLimit | InvalidCursor

  datatype PageResult = Page(items: seq<Position>, next: Option<Cursor>) | NoPage(error: PageError)

  /** The position a cursor names. */
  function At(cursor: Option<Cursor>): Option<Position> {
    if cursor.None? then None else DecodeKey(cursor.value.timestamp, cursor.value.tieBreaker)
  }

  /** One page: loads one row more than the limit from each source, sorts, truncates. It is the start of
      the rest of the timeline, and its cursor names its last entry exactly if more entries follow. */
  method WorkflowTimeline(tables: seq<seq<Position>>, cursor: Option<Cursor>, limit: nat, ghost listing: seq<Position>)
    returns (r: PageResult)
    requires ValidTables(tables) && ListsAfter(tables, At(cursor), listing)
    ensures r == NoPage(InvalidLimit) <==> limit == 0 || limit > MAX_TIMELINE_PAGE_SIZE
    ensures r == NoPage(InvalidCursor) <==> 1 <= limit <= MAX_TIMELINE_PAGE_SIZE && cursor.Some? && At(cursor).None?
    ensures r.Page? <==> 1 <= limit <= MAX_TIMELINE_PAGE_SIZE && (cursor.Some? ==> At(cursor).Some?)
    ensures r.Page? ==>
      && r.items == listing[..if limit < |listing| then limit else |listing|]
      && (r.next.Some? <==> |listing| > limit)
      && (r.next.Some? ==> At(r.next) == Some(listing[limit - 1]))
  {
    if limit == 0 || limit > MAX_TIMELINE_PAGE_SIZE { return NoPage(InvalidLimit); }
    var position: Option<Position> := None;
    if cursor.Some? {
      position := DecodeKey(cursor.value.timestamp, cursor.value.tieBreaker);
      if position.None? { return NoPage(InvalidCursor); }
    }
    var items, more := ReadPage(tables, position, limit, listing);
    if more {
      var last := items[limit - 1];
      KeyRoundTrips(last);
      return Page(items, Some(Cursor(last.time, KeyText(last))));
    }
    return Page(items, None);
  }

  /** Merges the sources after a position and truncates. */
  method ReadPage(tables: seq<seq<Position>>, position: Option<Position>, limit: nat, ghost listing: seq<Position>)
    returns (items: seq<Position>, more: bool)
    requires ValidTables(tables) && ListsAfter(tables, position, listing) && limit >= 1
    ensures items == listing[..if limit < |listing| then limit else |listing|]
    ensures more <==> |listing| > limit
    ensures ValidAll(items)
  {
    var loaded;
    ghost var sources;
    loaded, sources := LoadSources(tables, position, limit + 1);
    var timeline := SortTimeline(loaded);
    MergeStarts(tables, position, listing, sources, timeline, limit + 1);
    more := |timeline| > limit;
    items := if more then timeline[..limit] else timeline;
    assert more ==> items == timeline[..limit + 1][..limit];
  }

  // ---- Reading it all ------------------------------------------------------------------------------------

  /** After the entry at `k`, the rest of the timeline is what follows it. */
  lemma RestAfter(tables: seq<seq<Position>>, listing: seq<Position>, k: nat)
    requires ValidTables(tables) && ListsAfter(tables, None, listing) && k < |listing|
    ensures ListsAfter(tables, Some(listing[k]), listing[k + 1..])
  {
    var c := listing[k];
    var rest := listing[k + 1..];
    IndicesOrder(listing);
    assert c in listing;
    StoredIsValid(tables, c);
    forall p ensures p in rest <==> Stored(tables, p) && Passes(p, Some(c)) {
      if Stored(tables, p) {
        StoredIsValid(tables, p);
        PassesIsAfter(p, c);
        assert p in listing;
        var i :| 0 <= i < |listing| && listing[i] == p;
        if i > k { assert rest[i - k - 1] == p; }
      }
      if p in rest {
        var i :| 0 <= i < |rest| && rest[i] == p;
        assert listing[i + k + 1] == p && p in listing;
      }
    }
  }

  lemma StoredIsValid(tables: seq<seq<Position>>, p: Position)
    requires ValidTables(tables) && Stored(tables, p)
    ensures ValidPosition(p)
  {
    var i :| 0 <= i < |tables[p.rank]| && tables[p.rank][i] == p;
  }

  /** Follows the cursors from the first page to the last: every entry once, in timeline order. */
  method ReadTimeline(tables: seq<seq<Position>>, limit: nat, ghost listing: seq<Position>) returns (all: seq<Position>)
    requires ValidTables(tables) && 1 <= limit <= MAX_TIMELINE_PAGE_SIZE && ListsAfter(tables, None, listing)
    ensures all == listing
  {
    all := [];
    var cursor: Option<Cursor> := None;
    var more := true;
    while more
      invariant |all| <= |listing| && all == listing[..|all|]
      invariant more ==> ListsAfter(tables, At(cursor), listing[|all|..]) && (cursor.Some? ==> At(cursor).Some?)
      invariant !more ==> all == listing
      decreases more, |listing| - |all|
    {
      ghost var rest := listing[|all|..];
      var page := WorkflowTimeline(tables, cursor, limit, rest);
      var items := page.items;
      assert listing[..|all| + |items|] == all + items;
      all := all + items;
      cursor, more := page.next, page.next.Some?;
      if more {
        assert rest[limit - 1] == listing[|all| - 1];
        RestAfter(tables, listing, |all| - 1);
      }
    }
  }

  /** Every timeline has a listing: all rows, sorted. */
  method ListTimeline(tables: seq<seq<Position>>) returns (listing: seq<Position>)
    requires ValidTables(tables)
    ensures ListsAfter(tables, None, listing)
  {
    var rows := [];
    for r := 0 to SOURCES
      invariant ValidAll(rows) && NoDuplicates(rows)
      invariant forall p :: p in rows <==> p.rank < r && Stored(tables, p)
    {
      RowsOfSource(tables, r);
      JoinDistinct(rows, tables[r], r);
      rows := rows + tables[r];
    }
    listing := SortTimeline(rows);
  }

  lemma RowsOfSource(tables: seq<seq<Position>>, r: nat)
    requires ValidTables(tables) && r < SOURCES
    ensures forall p :: p in tables[r] <==> p.rank == r && Stored(tables, p)
  {
    forall p | p in tables[r] ensures p.rank == r {
      var i :| 0 <= i < |tables[r]| && tables[r][i] == p;
    }
  }
}
