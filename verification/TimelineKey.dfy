/** The text keys that order a timeline: a rank and zero-padded numbers. */
module TimelineKey {
  import opened Rows

  const MAX_I64: nat := 0x7FFF_FFFF_FFFF_FFFF
  const MAX_I32: nat := 0x7FFF_FFFF

  /** Where an entry stands in a timeline. Columns a source does not have are zero. */
  datatype Position = Position(time: int, rank: nat, id: nat, attempt: nat, sequence: nat)

  /** The numbers a source orders by: one id; an activity and its attempt; and a sequence within it. */
  function Components(p: Position): seq<nat> {
    match p.rank
    case 2 => [p.id, p.attempt]
    case 3 => [p.id, p.attempt, p.sequence]
    case _ => [p.id]
  }

  predicate ValidPosition(p: Position) {
    && p.rank <= 4
    && 1 <= p.id <= MAX_I64
    && (if p.rank == 2 || p.rank == 3 then 1 <= p.attempt <= MAX_I32 else p.attempt == 0)
    && (if p.rank == 3 then 1 <= p.sequence <= MAX_I32 else p.sequence == 0)
  }

  // ---- Numbers as digits ------------------------------------------------------------------

  function Digit(d: nat): char
    requires d < 10
  {
    '0' + d as char
  }

  function Pow10(k: nat): nat { if k == 0 then 1 else 10 * Pow10(k - 1) }

  /** `n` in `width` digits. */
  function Pad(width: nat, n: nat): (s: string)
    ensures |s| == width
  {
    if width == 0 then "" else Pad(width - 1, n / 10) + [Digit(n % 10)]
  }

  function JoinPadded(ns: seq<nat>): string {
    if ns == [] then "" else if |ns| == 1 then Pad(20, ns[0]) else Pad(20, ns[0]) + ":" + JoinPadded(ns[1..])
  }

  function KeyText(p: Position): string
    requires p.rank <= 4
  {
    [Digit(p.rank)] + ":" + JoinPadded(Components(p))
  }

  // ---- Order ------------------------------------------------------------------------------------

  predicate TextLess(a: string, b: string) {
    b != [] && (a == [] || a[0] < b[0] || (a[0] == b[0] && TextLess(a[1..], b[1..])))
  }

  predicate NumbersLess(a: seq<nat>, b: seq<nat>) {
    b != [] && (a == [] || a[0] < b[0] || (a[0] == b[0] && NumbersLess(a[1..], b[1..])))
  }

  /** Texts with heads of one length compare by their heads first. */
  lemma {:induction false} HeadsFirst(a: string, b: string, x: string, y: string)
    requires |a| == |b|
    ensures TextLess(a + x, b + y) <==> TextLess(a, b) || (a == b && TextLess(x, y))
  {
    if a == [] {
      assert a + x == x && b + y == y;
    } else {
      assert (a + x)[1..] == a[1..] + x && (b + y)[1..] == b[1..] + y;
      HeadsFirst(a[1..], b[1..], x, y);
      assert a == b <==> a[0] == b[0] && a[1..] == b[1..];
    }
  }

  /** Padded numbers order as numbers, and different numbers have different digits. */
  lemma {:induction false} PadOrders(width: nat, m: nat, n: nat)
    requires m < Pow10(width) && n < Pow10(width)
    ensures TextLess(Pad(width, m), Pad(width, n)) <==> m < n
    ensures Pad(width, m) == Pad(width, n) <==> m == n
  {
    if width > 0 {
      PadOrders(width - 1, m / 10, n / 10);
      HeadsFirst(Pad(width - 1, m / 10), Pad(width - 1, n / 10), [Digit(m % 10)], [Digit(n % 10)]);
      LastDigits(width, m, n);
      DigitOrders(m % 10, n % 10);
      assert m == 10 * (m / 10) + m % 10 && n == 10 * (n / 10) + n % 10;
    }
  }

  lemma LastDigits(width: nat, m: nat, n: nat)
    requires width > 0
    ensures Pad(width, m) == Pad(width, n) <==>
      Pad(width - 1, m / 10) == Pad(width - 1, n / 10) && Digit(m % 10) == Digit(n % 10)
  {
    var a, b := Pad(width - 1, m / 10), Pad(width - 1, n / 10);
    if Pad(width, m) == Pad(width, n) {
      assert (a + [Digit(m % 10)])[..width - 1] == a && (b + [Digit(n % 10)])[..width - 1] == b;
      assert (a + [Digit(m % 10)])[width - 1] == Digit(m % 10) && (b + [Digit(n % 10)])[width - 1] == Digit(n % 10);
    }
  }

  lemma DigitOrders(c: nat, d: nat)
    requires c < 10 && d < 10
    ensures TextLess([Digit(c)], [Digit(d)]) <==> c < d
    ensures Digit(c) == Digit(d) <==> c == d
  {
  }

  lemma FitsIn20(n: nat)
    requires n <= MAX_I64
    ensures n < Pow10(20)
  {
    assert Pow10(4) == 10_000;
    assert Pow10(8) == 100_000_000;
    assert Pow10(12) == 1_000_000_000_000;
    assert Pow10(16) == 10_000_000_000_000_000;
    assert Pow10(20) == 100_000_000_000_000_000_000;
  }

  /** What follows the first number. */
  function JoinTail(ns: seq<nat>): string
    requires ns != []
  {
    if |ns| == 1 then "" else ":" + JoinPadded(ns[1..])
  }

  lemma JoinHead(ns: seq<nat>)
    requires ns != []
    ensures JoinPadded(ns) == Pad(20, ns[0]) + JoinTail(ns)
  {
  }

  lemma TailOrders(a: seq<nat>, b: seq<nat>)
    requires |a| == |b| > 0
    requires TextLess(JoinPadded(a[1..]), JoinPadded(b[1..])) <==> NumbersLess(a[1..], b[1..])
    requires JoinPadded(a[1..]) == JoinPadded(b[1..]) <==> a[1..] == b[1..]
    ensures TextLess(JoinTail(a), JoinTail(b)) <==> NumbersLess(a[1..], b[1..])
    ensures JoinTail(a) == JoinTail(b) <==> a[1..] == b[1..]
  {
    if |a| > 1 {
      HeadsFirst(":", ":", JoinPadded(a[1..]), JoinPadded(b[1..]));
      SameHeads(":", ":", JoinPadded(a[1..]), JoinPadded(b[1..]));
      assert !TextLess(":", ":");
    }
  }

  /** Joined numbers order as sequences of numbers. */
  lemma {:induction false} JoinOrders(a: seq<nat>, b: seq<nat>)
    requires |a| == |b| && (forall i :: 0 <= i < |a| ==> a[i] <= MAX_I64 && b[i] <= MAX_I64)
    ensures TextLess(JoinPadded(a), JoinPadded(b)) <==> NumbersLess(a, b)
    ensures JoinPadded(a) == JoinPadded(b) <==> a == b
  {
    if a != [] {
      FirstOrders(a[0], b[0]);
      JoinHead(a);
      JoinHead(b);
      HeadsFirst(Pad(20, a[0]), Pad(20, b[0]), JoinTail(a), JoinTail(b));
      SameHeads(Pad(20, a[0]), Pad(20, b[0]), JoinTail(a), JoinTail(b));
      JoinOrders(a[1..], b[1..]);
      TailOrders(a, b);
      assert a == b <==> a[0] == b[0] && a[1..] == b[1..];
    }
  }

  lemma FirstOrders(m: nat, n: nat)
    requires m <= MAX_I64 && n <= MAX_I64
    ensures TextLess(Pad(20, m), Pad(20, n)) <==> m < n
    ensures Pad(20, m) == Pad(20, n) <==> m == n
  {
    FitsIn20(m);
    FitsIn20(n);
    PadOrders(20, m, n);
  }

  lemma SameHeads(a: string, b: string, x: string, y: string)
    requires |a| == |b|
    ensures a + x == b + y <==> a == b && x == y
  {
    if a + x == b + y {
      assert (a + x)[..|a|] == a && (b + y)[..|b|] == b;
      assert (a + x)[|a|..] == x && (b + y)[|b|..] == y;
    }
  }

  /** The numeric order of a timeline: time, rank, then the numbers of the source. */
  predicate Less(p: Position, q: Position) {
    || p.time < q.time
    || (p.time == q.time
        && (|| p.rank < q.rank
            || (p.rank == q.rank
                && (|| p.id < q.id
                    || (p.id == q.id
                        && (|| p.attempt < q.attempt
                            || (p.attempt == q.attempt && p.sequence < q.sequence)))))))
  }

  /** The order in which a page is sorted: time, then key text. */
  predicate KeyLess(p: Position, q: Position)
    requires p.rank <= 4 && q.rank <= 4
  {
    p.time < q.time || (p.time == q.time && TextLess(KeyText(p), KeyText(q)))
  }

  lemma ComponentsOrder(p: Position, q: Position)
    requires ValidPosition(p) && ValidPosition(q) && p.rank == q.rank && p.time == q.time
    ensures NumbersLess(Components(p), Components(q)) <==> Less(p, q)
    ensures Components(p) == Components(q) <==> p == q
  {
    var a, b := Components(p), Components(q);
    assert a[0] == p.id && b[0] == q.id && !NumbersLess([], []);
    if p.rank == 2 {
      assert a[1..] == [p.attempt] && b[1..] == [q.attempt];
      assert NumbersLess([p.attempt], [q.attempt]) <==> p.attempt < q.attempt;
      assert a[1] == p.attempt && b[1] == q.attempt;
    } else if p.rank == 3 {
      assert a[1..] == [p.attempt, p.sequence] && b[1..] == [q.attempt, q.sequence];
      assert a[1..][1..] == [p.sequence] && b[1..][1..] == [q.sequence];
      assert NumbersLess([p.sequence], [q.sequence]) <==> p.sequence < q.sequence;
      assert NumbersLess(a[1..], b[1..]) <==>
        p.attempt < q.attempt || (p.attempt == q.attempt && p.sequence < q.sequence);
      assert a[1] == p.attempt && b[1] == q.attempt && a[2] == p.sequence && b[2] == q.sequence;
    } else {
      assert a[1..] == [] && b[1..] == [];
    }
  }

  /** Key texts order entries as their numbers do. */
  lemma KeyOrders(p: Position, q: Position)
    requires ValidPosition(p) && ValidPosition(q)
    ensures KeyLess(p, q) <==> Less(p, q)
  {
    if p.time == q.time {
      RankFirst(p, q);
      if p.rank == q.rank {
        JoinOrders(Components(p), Components(q));
        ComponentsOrder(p, q);
      }
    }
  }

  /** Key texts compare by rank, then by their numbers. */
  lemma RankFirst(p: Position, q: Position)
    requires p.rank <= 4 && q.rank <= 4
    ensures TextLess(KeyText(p), KeyText(q)) <==>
      || p.rank < q.rank
      || (p.rank == q.rank && TextLess(JoinPadded(Components(p)), JoinPadded(Components(q))))
  {
    var m, n := JoinPadded(Components(p)), JoinPadded(Components(q));
    assert KeyText(p) == [Digit(p.rank)] + (":" + m) && KeyText(q) == [Digit(q.rank)] + (":" + n);
    HeadsFirst([Digit(p.rank)], [Digit(q.rank)], ":" + m, ":" + n);
    DigitOrders(p.rank, q.rank);
    HeadsFirst(":", ":", m, n);
    assert !TextLess(":", ":");
  }

  // ---- Decoding -------------------------------------------------------------------------------------

  /** Splits a text at every colon. */
  function Split(s: string): (parts: seq<string>)
    ensures parts != []
  {
    if s == "" then [""]
    else
      var rest := Split(s[1..]);
      if s[0] == ':' then [""] + rest else [[s[0]] + rest[0]] + rest[1..]
  }

  predicate IsDigit(c: char) { '0' <= c <= '9' }

  /** A decimal number, most significant digit first. */
  function ParseDigits(s: string): Option<nat> {
    if s == "" then Some(0)
    else
      var high := ParseDigits(s[..|s| - 1]);
      if high.None? || !IsDigit(s[|s| - 1]) then None else Some(10 * high.value + (s[|s| - 1] - '0') as nat)
  }

  /** A signed decimal number between `-max - 1` and `max`. */
  function ParseInt(s: string, max: nat): Option<int> {
    var digits := if s != "" && (s[0] == '+' || s[0] == '-') then s[1..] else s;
    var n := if digits == "" then None else ParseDigits(digits);
    if n.None? then None
    else
      var value: int, limit: int := n.value, max;
      var signed := if s[0] == '-' then -value else value;
      if -limit - 1 <= signed <= limit then Some(signed) else None
  }

  function ParseAll(parts: seq<string>): Option<seq<int>> {
    if parts == [] then Some([])
    else
      var first, rest := ParseInt(parts[0], MAX_I64), ParseAll(parts[1..]);
      if first.None? || rest.None? then None else Some([first.value] + rest.value)
  }

  /** The position a cursor stands for; none if the text is malformed or out of range. A rank is an
      unsigned byte, so it takes no minus sign. */
  function DecodeKey(time: int, text: string): (r: Option<Position>)
    ensures r.Some? ==> ValidPosition(r.value) && r.value.time == time
  {
    var parts := Split(text);
    var rank := if parts[0] != "" && parts[0][0] == '-' then None else ParseInt(parts[0], 255);
    var components := ParseAll(parts[1..]);
    if rank.None? || components.None? || rank.value > 4 then None
    else
      var c := components.value;
      var expected := if rank.value == 2 then 2 else if rank.value == 3 then 3 else 1;
      if rank.value < 0 || |c| != expected || (exists i :: 0 <= i < |c| && c[i] <= 0) || c[0] > MAX_I64 then None
      else if (|c| > 1 && c[1] > MAX_I32) || (|c| > 2 && c[2] > MAX_I32) then None
      else Some(Position(time, rank.value, c[0], if |c| > 1 then c[1] else 0, if |c| > 2 then c[2] else 0))
  }

  /** No colon in a text, so it is one part. */
  lemma {:induction false} SplitWord(word: string, rest: string)
    requires forall i :: 0 <= i < |word| ==> word[i] != ':'
    ensures Split(word) == [word]
    ensures Split(word + ":" + rest) == [word] + Split(rest)
  {
    if word == "" {
      assert word + ":" + rest == [':'] + rest;
    } else {
      SplitWord(word[1..], rest);
      var s := word + ":" + rest;
      assert s[1..] == word[1..] + ":" + rest;
      assert s[0] == word[0] && [word[0]] + word[1..] == word;
      assert ([word[1..]] + Split(rest))[1..] == Split(rest);
    }
  }

  lemma {:induction false} PadParses(width: nat, n: nat)
    requires n < Pow10(width)
    ensures ParseDigits(Pad(width, n)) == Some(n)
    ensures forall i :: 0 <= i < width ==> IsDigit(Pad(width, n)[i])
  {
    if width > 0 {
      PadParses(width - 1, n / 10);
      var high := Pad(width - 1, n / 10);
      assert (high + [Digit(n % 10)])[..width - 1] == high;
    }
  }

  lemma PadIsNumber(n: nat)
    requires n <= MAX_I64
    ensures ParseInt(Pad(20, n), MAX_I64) == Some(n)
    ensures forall i :: 0 <= i < 20 ==> Pad(20, n)[i] != ':'
  {
    FitsIn20(n);
    PadParses(20, n);
    assert IsDigit(Pad(20, n)[0]);
  }

  lemma {:induction false} JoinSplits(ns: seq<nat>)
    requires ns != [] && (forall i :: 0 <= i < |ns| ==> ns[i] <= MAX_I64)
    ensures ParseAll(Split(JoinPadded(ns))) == Some(ns)
  {
    var word, rest := Pad(20, ns[0]), ns[1..];
    PadIsNumber(ns[0]);
    SplitWord(word, JoinPadded(rest));
    if |ns| > 1 {
      JoinSplits(rest);
      assert ([word] + Split(JoinPadded(rest)))[1..] == Split(JoinPadded(rest));
    } else {
      assert [word][1..] == [];
    }
    assert Split(JoinPadded(ns))[0] == word;
    assert ParseAll(Split(JoinPadded(ns))[1..]) == Some(rest);
    assert [ns[0]] + rest == ns;
  }

  /** A key decodes to the position it was made from. */
  lemma KeyRoundTrips(p: Position)
    requires ValidPosition(p)
    ensures DecodeKey(p.time, KeyText(p)) == Some(p)
  {
    var rank := [Digit(p.rank)];
    var numbers := JoinPadded(Components(p));
    SplitWord(rank, numbers);
    assert KeyText(p) == rank + ":" + numbers;
    assert Split(KeyText(p))[1..] == Split(numbers);
    JoinSplits(Components(p));
    assert rank[..0] == "";
    assert ParseDigits(rank) == Some(p.rank);
    assert ParseInt(rank, 255) == Some(p.rank);
    DecodeValid(p, KeyText(p));
  }

  lemma DecodeValid(p: Position, text: string)
    requires ValidPosition(p) && Split(text)[0] != "" && Split(text)[0][0] != '-'
    requires ParseInt(Split(text)[0], 255) == Some(p.rank) && ParseAll(Split(text)[1..]) == Some(Components(p))
    ensures DecodeKey(p.time, text) == Some(p)
  {
    var c := Components(p);
    assert forall i :: 0 <= i < |c| ==> c[i] > 0;
  }
}
