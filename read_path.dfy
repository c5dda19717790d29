/**
  The read side of the snapshot table: filtering by account, level and date range, ordering by
  date, newest first, and cutting one page out of the ordered rows.
 */
module ReadPath {
  import opened Wrappers
  import opened Dates
  import opened Models

  const MaxLimit := 1000

  /** The query bounds FastAPI enforces before the handler runs: `1 <= limit <= 1000`, `page >= 1`. */
  predicate ValidPaging(limit: int, page: int) {
    1 <= limit <= MaxLimit && page >= 1
  }

  /** `query.filter(p)`: the rows that satisfy `p`, in table order. */
  function Filter(rows: seq<MetricSnapshot>, p: MetricSnapshot -> bool): (r: seq<MetricSnapshot>)
    ensures |r| <= |rows|
    ensures forall x :: x in r <==> x in rows && p(x)
  {
    if |rows| == 0 then []
    else
      var init := Filter(rows[..|rows| - 1], p);
      var last := rows[|rows| - 1];
      assert forall x :: x in rows <==> x in rows[..|rows| - 1] || x == last;
      if p(last) then init + [last] else init
  }

  /**
    The filter keeps every matching row as often as the table holds it, and nothing else: its
    length is the number of matching rows.
   */
  lemma {:induction false} FilterCount(rows: seq<MetricSnapshot>, p: MetricSnapshot -> bool)
    ensures forall x :: multiset(Filter(rows, p))[x] == if p(x) then multiset(rows)[x] else 0
  {
    if |rows| > 0 {
      var init := rows[..|rows| - 1];
      var last := rows[|rows| - 1];
      FilterCount(init, p);
      assert rows == init + [last];
      assert multiset(rows) == multiset(init) + multiset{last};
    }
  }

  /** Filtering twice is filtering once by both conditions. */
  lemma {:induction false} FilterTwice(rows: seq<MetricSnapshot>, p: MetricSnapshot -> bool, q: MetricSnapshot -> bool)
    ensures Filter(Filter(rows, p), q) == Filter(rows, x => p(x) && q(x))
  {
    if |rows| > 0 {
      var init := rows[..|rows| - 1];
      var last := rows[|rows| - 1];
      FilterTwice(init, p, q);
      var fp := Filter(init, p);
      if p(last) {
        assert (fp + [last])[..|fp|] == fp;
      }
    }
  }

  /** A row the read path returns for account `accountId`, given the optional level and date bounds. */
  predicate Wanted(s: MetricSnapshot, accountId: int, level: Option<string>, since: Option<Date>, until: Option<Date>) {
    && s.facebookAccountId == accountId
    && (level.Some? ==> LevelName(s.level) == level.value)
    && (since.Some? ==> NotAfter(since.value, s.ts))
    && (until.Some? ==> NotAfter(s.ts, until.value))
  }

  /** Newest first: no row is dated after the one before it. */
  predicate SortedByTsDesc(rows: seq<MetricSnapshot>) {
    forall i, j :: 0 <= i < j < |rows| ==> NotAfter(rows[j].ts, rows[i].ts)
  }

  /** Puts `x` after every row dated on or after it (so that rows of equal date keep their order). */
  function InsertByTs(x: MetricSnapshot, rows: seq<MetricSnapshot>): (r: seq<MetricSnapshot>)
    ensures multiset(r) == multiset(rows) + multiset{x}
    ensures |r| == |rows| + 1
    ensures SortedByTsDesc(rows) ==> SortedByTsDesc(r)
  {
    if |rows| == 0 then [x]
    else if NotAfter(x.ts, rows[0].ts) then
      var r := [rows[0]] + InsertByTs(x, rows[1..]);
      assert rows == [rows[0]] + rows[1..];
      InsertedHead(x, rows, r);
      r
    else
      var r := [x] + rows;
      NotAfterTotal(x.ts, rows[0].ts);
      assert SortedByTsDesc(rows) ==> SortedByTsDesc(r) by {
        if SortedByTsDesc(rows) {
          forall i, j | 0 <= i < j < |r| ensures NotAfter(r[j].ts, r[i].ts) {
            if i == 0 {
              NotAfterTransitive(r[j].ts, rows[0].ts, x.ts);
            }
          }
        }
      }
      r
  }

  lemma NotAfterTransitive(a: Date, b: Date, c: Date)
    requires NotAfter(a, b) && NotAfter(b, c)
    ensures NotAfter(a, c)
  {
  }

  /** The head kept in front of an insertion stays in order with the rest. */
  lemma InsertedHead(x: MetricSnapshot, rows: seq<MetricSnapshot>, r: seq<MetricSnapshot>)
    requires |rows| > 0 && NotAfter(x.ts, rows[0].ts)
    requires r == [rows[0]] + InsertByTs(x, rows[1..])
    ensures SortedByTsDesc(rows) ==> SortedByTsDesc(r)
  {
    if SortedByTsDesc(rows) {
      var tail := InsertByTs(x, rows[1..]);
      assert SortedByTsDesc(rows[1..]);
      forall k | 0 <= k < |tail| ensures NotAfter(tail[k].ts, rows[0].ts) {
        assert tail[k] in multiset(tail);
        assert tail[k] in multiset(rows[1..]) + multiset{x};
        if tail[k] != x {
          assert tail[k] in rows[1..];
        }
      }
    }
  }

  /** `order_by(ts.desc())`: the rows newest first, rows of the same date in table order. */
  function SortByTsDesc(rows: seq<MetricSnapshot>): (r: seq<MetricSnapshot>)
    ensures SortedByTsDesc(r)
    ensures multiset(r) == multiset(rows)
  {
    if |rows| == 0 then []
    else
      assert rows == rows[..|rows| - 1] + [rows[|rows| - 1]];
      InsertByTs(rows[|rows| - 1], SortByTsDesc(rows[..|rows| - 1]))
  }

  /** The number of rows before a page: `(page - 1) * limit`. */
  function Offset(page: int, limit: int): (o: nat)
    requires ValidPaging(limit, page)
  {
    (page - 1) * limit
  }

  /** `.offset((page - 1) * limit).limit(limit)` */
  function PageOf(rows: seq<MetricSnapshot>, page: int, limit: int): (r: seq<MetricSnapshot>)
    requires ValidPaging(limit, page)
    ensures |r| <= limit
    ensures Offset(page, limit) >= |rows| ==> r == []
    ensures Offset(page, limit) < |rows| ==>
      |r| == (if |rows| - Offset(page, limit) < limit then |rows| - Offset(page, limit) else limit)
    ensures forall i :: 0 <= i < |r| ==> r[i] == rows[Offset(page, limit) + i]
  {
    var offset := Offset(page, limit);
    if offset >= |rows| then []
    else if offset + limit <= |rows| then rows[offset..offset + limit]
    else rows[offset..]
  }

  /** Consecutive pages are adjacent: page p + 1 starts where page p ends. */
  lemma PagesAdjacent(rows: seq<MetricSnapshot>, page: int, limit: int)
    requires ValidPaging(limit, page) && page * limit <= |rows|
    ensures PageOf(rows, page, limit) + PageOf(rows, page + 1, limit) ==
      rows[(page - 1) * limit..(if page * limit + limit <= |rows| then page * limit + limit else |rows|)]
  {
    assert (page + 1 - 1) * limit == page * limit;
    assert (page - 1) * limit + limit == page * limit;
  }
}
