/** Reading the first rows of a table in order, as both claims do. */
module Pages {

  const PAGE := 32

  /** What a scan orders by; the last component is the identifier of the row, so no two ranks are equal. */
  datatype Rank = Rank(time: int, group: nat, id: nat)

  predicate Before(r: Rank, s: Rank) {
    r.time < s.time || (r.time == s.time && (r.group < s.group || (r.group == s.group && r.id < s.id)))
  }

  ghost predicate Identified(ranks: map<nat, Rank>) {
    forall id :: id in ranks ==> ranks[id].id == id
  }

  ghost predicate InOrder(ranks: map<nat, Rank>, page: seq<nat>) {
    && (forall i :: 0 <= i < |page| ==> page[i] in ranks)
    && (forall i, j :: 0 <= i < j < |page| ==> page[i] in ranks && page[j] in ranks ==>
          Before(ranks[page[i]], ranks[page[j]]))
  }

  /** Every row of `rest` comes after every row of the page. */
  ghost predicate AllBefore(ranks: map<nat, Rank>, page: seq<nat>, rest: set<nat>) {
    forall i, id :: 0 <= i < |page| && page[i] in ranks && id in rest && id in ranks ==>
      Before(ranks[page[i]], ranks[id])
  }

  /** The rows that are not on the page. */
  ghost function OffPage(ranks: map<nat, Rank>, page: seq<nat>): set<nat> {
    set id | id in ranks && id !in page
  }

  lemma ComesAfter(ranks: map<nat, Rank>, page: seq<nat>, i: nat, v: nat)
    requires InOrder(ranks, page) && AllBefore(ranks, page, OffPage(ranks, page))
    requires i < |page| && v in ranks && v !in page
    ensures Before(ranks[page[i]], ranks[v])
  {
    assert v in OffPage(ranks, page);
  }

  method Least(ranks: map<nat, Rank>, rest: set<nat>) returns (least: nat)
    requires |rest| > 0 && rest <= ranks.Keys && Identified(ranks)
    ensures least in rest
    ensures forall id :: id in rest && id != least ==> Before(ranks[least], ranks[id])
  {
    least :| least in rest;
    var todo := rest - {least};
    while |todo| > 0
      invariant todo <= rest && least in rest && least !in todo
      invariant forall id :: id in rest && id !in todo && id != least ==> Before(ranks[least], ranks[id])
      decreases |todo|
    {
      var id :| id in todo;
      todo := todo - {id};
      if Before(ranks[id], ranks[least]) { least := id; }
    }
  }

  /** The first `n` rows in order: whatever is not on the page comes after all of it, and only a full page
      leaves rows out. */
  method SelectFirst(ranks: map<nat, Rank>, n: nat) returns (page: seq<nat>)
    requires Identified(ranks)
    ensures |page| <= n && InOrder(ranks, page)
    ensures forall id :: id in ranks && id !in page ==> |page| == n
    ensures AllBefore(ranks, page, OffPage(ranks, page))
  {
    page := [];
    var rest := ranks.Keys;
    while |page| < n && |rest| > 0
      invariant |page| <= n && InOrder(ranks, page) && rest <= ranks.Keys
      invariant forall id :: id in ranks ==> (id in rest <==> id !in page)
      invariant AllBefore(ranks, page, rest)
      decreases |rest|
    {
      var next := Least(ranks, rest);
      page := page + [next];
      rest := rest - {next};
    }
    assert rest == OffPage(ranks, page);
  }
}
