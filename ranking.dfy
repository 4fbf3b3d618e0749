/**
 * The ranking view: one row per cache entry, sorted by total score from high
 * to low with a stable sort (`list.sort(key=..., reverse=True)`), then numbered 1..n.
 */
module Ranking {
  import opened Wrappers
  import opened Records

  /** A row of the ranking table: rank, company name, ticker, total score, analysis instant. */
  datatype Row = Row(rank: int, companyName: string, ticker: string, total: int, analyzedAt: int)

  /**
   * The row built for cache key `key`: it shows the analysis' company name, ticker
   * and total when it has them; a missing name or ticker shows the cache key
   * instead, a missing total counts as 0. The rank is filled in later.
   */
  function RowOf(key: string, e: Entry): (r: Row)
    ensures r.rank == 0 && r.analyzedAt == e.timestamp
    ensures e.data.companyName.Some? ==> r.companyName == e.data.companyName.value
    ensures e.data.companyName.None? ==> r.companyName == key
    ensures e.data.ticker.Some? ==> r.ticker == e.data.ticker.value
    ensures e.data.ticker.None? ==> r.ticker == key
    ensures e.data.totalScore.Some? ==> r.total == e.data.totalScore.value
    ensures e.data.totalScore.None? ==> r.total == 0
  {
    Row(0, e.data.companyName.GetOr(key), e.data.ticker.GetOr(key), e.data.totalScore.GetOr(0), e.timestamp)
  }

  /** The rows in the cache's iteration order, before sorting. */
  function RowsOf(order: seq<string>, entries: map<string, Entry>): (rows: seq<Row>)
    requires forall k :: k in order ==> k in entries
    ensures |rows| == |order|
    ensures forall i :: 0 <= i < |order| ==> rows[i] == RowOf(order[i], entries[order[i]])
  {
    if order == [] then [] else RowsOf(order[..|order| - 1], entries) + [RowOf(order[|order| - 1], entries[order[|order| - 1]])]
  }

  /** Every cache entry has its row among the rows built, and every row comes from an entry. */
  lemma RowsOfCoverEntries(order: seq<string>, entries: map<string, Entry>)
    requires OrderMatches(order, entries)
    ensures forall k :: k in entries ==> RowOf(k, entries[k]) in RowsOf(order, entries)
    ensures forall r :: r in RowsOf(order, entries) ==> exists k :: k in entries && r == RowOf(k, entries[k])
  {
  }

  predicate NonIncreasing(rows: seq<Row>) {
    forall i, j :: 0 <= i < j < |rows| ==> rows[i].total >= rows[j].total
  }

  /** The rows with total `t`, in their order in `rows`. */
  function WithTotal(rows: seq<Row>, t: int): (r: seq<Row>)
    ensures |r| <= |rows|
    ensures forall x :: x in r ==> x in rows && x.total == t
  {
    if rows == [] then []
    else (if rows[0].total == t then [rows[0]] else []) + WithTotal(rows[1..], t)
  }

  /** Places `x` after every row with a larger total and before every other row. */
  function Insert(x: Row, sorted: seq<Row>): (r: seq<Row>)
    ensures |r| == |sorted| + 1
  {
    if sorted == [] || sorted[0].total <= x.total then [x] + sorted
    else [sorted[0]] + Insert(x, sorted[1..])
  }

  /**
   * Python's stable descending sort by total: an insertion sort that keeps each
   * row ahead of every later row with the same total.
   */
  function SortByTotalDesc(rows: seq<Row>): (r: seq<Row>)
    ensures |r| == |rows|
  {
    if rows == [] then [] else Insert(rows[0], SortByTotalDesc(rows[1..]))
  }

  lemma {:induction false} InsertPermutes(x: Row, sorted: seq<Row>)
    ensures multiset(Insert(x, sorted)) == multiset(sorted) + multiset{x}
    ensures |Insert(x, sorted)| == |sorted| + 1
  {
    if sorted != [] && sorted[0].total > x.total {
      InsertPermutes(x, sorted[1..]);
      assert sorted == [sorted[0]] + sorted[1..];
    }
  }

  /** Inserting a row below a bound into rows below that bound stays below it. */
  lemma {:induction false} InsertBounded(x: Row, s: seq<Row>, bound: int)
    requires x.total <= bound
    requires forall k :: 0 <= k < |s| ==> s[k].total <= bound
    ensures forall k :: 0 <= k < |Insert(x, s)| ==> Insert(x, s)[k].total <= bound
  {
    if s != [] && s[0].total > x.total {
      InsertBounded(x, s[1..], bound);
    }
  }

  lemma {:induction false} InsertKeepsOrder(x: Row, sorted: seq<Row>)
    requires NonIncreasing(sorted)
    ensures NonIncreasing(Insert(x, sorted))
  {
    if sorted != [] && sorted[0].total > x.total {
      var head, rest := sorted[0], sorted[1..];
      InsertKeepsOrder(x, rest);
      InsertBounded(x, rest, head.total);
      var r := Insert(x, rest);
      var out := [head] + r;
      assert Insert(x, sorted) == out;
      forall i, j | 0 <= i < j < |out| ensures out[i].total >= out[j].total {
        if i == 0 {
          assert out[j] == r[j - 1];
        } else {
          assert out[i] == r[i - 1] && out[j] == r[j - 1];
        }
      }
    }
  }

  /** Inserting `x` adds it in front of the rows that share its total. */
  lemma {:induction false} InsertWithTotal(x: Row, sorted: seq<Row>, t: int)
    ensures WithTotal(Insert(x, sorted), t) == (if x.total == t then [x] else []) + WithTotal(sorted, t)
  {
    if sorted == [] || sorted[0].total <= x.total {
      var out := [x] + sorted;
      assert Insert(x, sorted) == out;
      WithTotalOfHead(out, t);
      assert out[1..] == sorted;
    } else {
      var head, rest := sorted[0], sorted[1..];
      InsertWithTotal(x, rest, t);
      var out := [head] + Insert(x, rest);
      assert Insert(x, sorted) == out;
      WithTotalOfHead(out, t);
      assert out[1..] == Insert(x, rest);
      WithTotalOfHead(sorted, t);
      assert head.total != x.total;
    }
  }

  /** The sorted rows run from the highest total to the lowest. */
  lemma {:induction false} SortIsNonIncreasing(rows: seq<Row>)
    ensures NonIncreasing(SortByTotalDesc(rows))
  {
    if rows != [] {
      SortIsNonIncreasing(rows[1..]);
      InsertKeepsOrder(rows[0], SortByTotalDesc(rows[1..]));
    }
  }

  /** The sorted rows are a permutation of the rows. */
  lemma {:induction false} SortIsPermutation(rows: seq<Row>)
    ensures multiset(SortByTotalDesc(rows)) == multiset(rows)
    ensures |SortByTotalDesc(rows)| == |rows|
  {
    if rows != [] {
      SortIsPermutation(rows[1..]);
      InsertPermutes(rows[0], SortByTotalDesc(rows[1..]));
      assert rows == [rows[0]] + rows[1..];
    }
  }

  /** Stability: rows with equal totals keep their relative order. */
  lemma {:induction false} SortIsStable(rows: seq<Row>, t: int)
    ensures WithTotal(SortByTotalDesc(rows), t) == WithTotal(rows, t)
  {
    if rows != [] {
      SortIsStable(rows[1..], t);
      InsertWithTotal(rows[0], SortByTotalDesc(rows[1..]), t);
    }
  }

  /** A row with total `t` in a high-to-low ordering bounds `t` by the first total. */
  lemma TotalBelowHead(b: seq<Row>, t: int)
    requires NonIncreasing(b) && b != []
    requires WithTotal(b, t) != []
    ensures t <= b[0].total
  {
  }

  /** The first row is the first of the rows sharing its total. */
  lemma WithTotalOfHead(a: seq<Row>, t: int)
    requires a != []
    ensures WithTotal(a, t) == if a[0].total == t then [a[0]] + WithTotal(a[1..], t) else WithTotal(a[1..], t)
  {
  }

  /** Only the empty sequence has no rows of any total. */
  lemma WithTotalNonEmpty(a: seq<Row>)
    ensures (forall t :: WithTotal(a, t) == []) ==> a == []
  {
    if a != [] {
      WithTotalOfHead(a, a[0].total);
    }
  }

  /** Two stable high-to-low orderings of the same rows start with the same row. */
  lemma StableOrderHeads(a: seq<Row>, b: seq<Row>)
    requires a != [] && b != []
    requires NonIncreasing(a) && NonIncreasing(b)
    requires forall t :: WithTotal(a, t) == WithTotal(b, t)
    ensures a[0] == b[0]
    ensures forall t :: WithTotal(a[1..], t) == WithTotal(b[1..], t)
  {
    var ta, tb := a[0].total, b[0].total;
    WithTotalOfHead(a, ta);
    WithTotalOfHead(b, tb);
    TotalBelowHead(b, ta);
    TotalBelowHead(a, tb);
    WithTotalOfHead(b, ta);
    assert a[0] == b[0];
    forall t ensures WithTotal(a[1..], t) == WithTotal(b[1..], t) {
      WithTotalOfHead(a, t);
      WithTotalOfHead(b, t);
      assert WithTotal(a, t) == WithTotal(b, t);
      if t == ta {
        assert WithTotal(a[1..], t) == WithTotal(a, t)[1..];
        assert WithTotal(b[1..], t) == WithTotal(b, t)[1..];
      }
    }
  }

  /**
   * The stable descending order is unique: two orderings that both run from high to
   * low and both keep the rows of each total in the same order are equal.
   */
  lemma {:induction false} StableOrderIsUnique(a: seq<Row>, b: seq<Row>)
    requires NonIncreasing(a) && NonIncreasing(b)
    requires forall t :: WithTotal(a, t) == WithTotal(b, t)
    ensures a == b
    decreases |a|
  {
    if a == [] || b == [] {
      WithTotalNonEmpty(a);
      WithTotalNonEmpty(b);
    } else {
      StableOrderHeads(a, b);
      StableOrderIsUnique(a[1..], b[1..]);
      assert a == [a[0]] + a[1..] && b == [b[0]] + b[1..];
    }
  }

  /**
   * Any stable sort by total, high to low, gives exactly `SortByTotalDesc`; so it
   * is the result of Python's (stable) `list.sort(..., reverse=True)`.
   */
  lemma StableSortIsSortByTotalDesc(rows: seq<Row>, out: seq<Row>)
    requires NonIncreasing(out)
    requires forall t :: WithTotal(out, t) == WithTotal(rows, t)
    ensures out == SortByTotalDesc(rows)
  {
    SortIsNonIncreasing(rows);
    forall t ensures WithTotal(out, t) == WithTotal(SortByTotalDesc(rows), t) {
      SortIsStable(rows, t);
    }
    StableOrderIsUnique(out, SortByTotalDesc(rows));
  }

  /** The rows with their ranks reset to the initial 0. */
  function Unranked(rows: seq<Row>): (r: seq<Row>)
    ensures |r| == |rows|
    ensures forall i :: 0 <= i < |rows| ==> r[i] == rows[i].(rank := 0)
  {
    seq(|rows|, i requires 0 <= i < |rows| => rows[i].(rank := 0))
  }

  /** Sorting only moves rows, so rows that all carry one rank still do afterwards. */
  lemma SortedRowsKeepRank(rows: seq<Row>, rank: int)
    requires forall k :: 0 <= k < |rows| ==> rows[k].rank == rank
    ensures forall k :: 0 <= k < |rows| ==> SortByTotalDesc(rows)[k].rank == rank
  {
    SortIsPermutation(rows);
    forall k | 0 <= k < |rows| ensures SortByTotalDesc(rows)[k].rank == rank {
      assert SortByTotalDesc(rows)[k] in multiset(rows);
    }
  }

  /** Numbering the sorted rows keeps the order, the rows and the equal-total groups of the sort. */
  lemma RankedRows(built: seq<Row>, rows: seq<Row>)
    requires forall k :: 0 <= k < |built| ==> built[k].rank == 0
    requires |rows| == |built|
    requires forall k :: 0 <= k < |rows| ==> rows[k] == SortByTotalDesc(built)[k].(rank := k + 1)
    ensures NonIncreasing(rows)
    ensures multiset(Unranked(rows)) == multiset(built)
    ensures forall t :: WithTotal(Unranked(rows), t) == WithTotal(built, t)
  {
    var sorted := SortByTotalDesc(built);
    SortIsPermutation(built);
    SortIsNonIncreasing(built);
    SortedRowsKeepRank(built, 0);
    assert Unranked(rows) == sorted;
    forall t ensures WithTotal(Unranked(rows), t) == WithTotal(built, t) {
      SortIsStable(built, t);
    }
  }

  /** The row-building loop: one row per key, in the cache's iteration order. */
  method BuildRows(entries: map<string, Entry>, order: seq<string>) returns (built: seq<Row>)
    requires forall k :: k in order ==> k in entries
    ensures built == RowsOf(order, entries)
  {
    built := [];
    var i := 0;
    while i < |order|
      invariant 0 <= i <= |order|
      invariant |built| == i
      invariant forall k :: 0 <= k < i ==> built[k] == RowOf(order[k], entries[order[k]])
    {
      var key := order[i];
      built := built + [RowOf(key, entries[key])];
      i := i + 1;
    }
  }

  /** The numbering loop: the row at position i gets rank i + 1; nothing else changes. */
  method AssignRanks(sorted: seq<Row>) returns (rows: seq<Row>)
    ensures |rows| == |sorted|
    ensures forall k :: 0 <= k < |rows| ==> rows[k] == sorted[k].(rank := k + 1)
  {
    rows := sorted;
    var j := 0;
    while j < |rows|
      invariant 0 <= j <= |rows| == |sorted|
      invariant forall k :: 0 <= k < j ==> rows[k] == sorted[k].(rank := k + 1)
      invariant forall k :: j <= k < |rows| ==> rows[k] == sorted[k]
    {
      rows := rows[j := rows[j].(rank := j + 1)];
      j := j + 1;
    }
  }

  /**
   * The ranking tab: build one row per entry in the cache's order, sort them by
   * total from high to low, then number them 1, 2, ... in that order.
   */
  method BuildRanking(entries: map<string, Entry>, order: seq<string>) returns (rows: seq<Row>)
    requires OrderMatches(order, entries)
    ensures |rows| == |order| == |entries|
    ensures forall i :: 0 <= i < |rows| ==> rows[i].rank == i + 1
    ensures NonIncreasing(rows)
    ensures multiset(Unranked(rows)) == multiset(RowsOf(order, entries))
    ensures forall t :: WithTotal(Unranked(rows), t) == WithTotal(RowsOf(order, entries), t)
    ensures forall i :: 0 <= i < |rows| ==> rows[i] == SortByTotalDesc(RowsOf(order, entries))[i].(rank := i + 1)
  {
    var built := BuildRows(entries, order);
    var sorted := SortByTotalDesc(built);
    rows := AssignRanks(sorted);
    OrderLength(order, entries);
    RankedRows(built, rows);
  }

  /** Totals 80, 95, 95, 10 sort to 95, 95, 80, 10, the two 95s in their original order. */
  lemma SortTieExample(a: Row, b: Row, c: Row, d: Row)
    requires a.total == 80 && b.total == 95 && c.total == 95 && d.total == 10
    ensures SortByTotalDesc([a, b, c, d]) == [b, c, a, d]
  {
    assert [a, b, c, d][1..] == [b, c, d];
    assert [b, c, d][1..] == [c, d];
    assert [c, d][1..] == [d];
    assert SortByTotalDesc([d]) == [d];
    assert SortByTotalDesc([c, d]) == [c, d];
    assert SortByTotalDesc([b, c, d]) == [b, c, d];
    assert Insert(a, [d]) == [a, d];
    assert Insert(a, [c, d]) == [c, a, d];
  }
}
