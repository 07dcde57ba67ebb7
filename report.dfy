/**
 The final report: the entries of `results` in descending order of count,
 printed only when the file had a BLASTN header.
 */
module Report {
  import opened Wrappers
  import opened Tallies
  import opened Scanner

  /** One row of the report: a description and its number of top hits. */
  type Row = (string, nat)

  predicate NonIncreasing(rows: seq<Row>) {
    forall i, j :: 0 <= i < j < |rows| ==> rows[i].1 >= rows[j].1
  }

  predicate DistinctKeys(rows: seq<Row>) {
    forall i, j :: 0 <= i < j < |rows| ==> rows[i].0 != rows[j].0
  }

  /** The rows are the entries of `m`, each listed once. */
  predicate ListsExactly(rows: seq<Row>, m: map<string, nat>) {
    && DistinctKeys(rows)
    && (forall r :: r in rows ==> r.0 in m && m[r.0] == r.1)
    && (forall k :: k in m ==> (k, m[k]) in rows)
  }

  /** Insert `x` before the first row whose count is not larger, so equal counts keep their order. */
  function Insert(x: Row, rows: seq<Row>): (r: seq<Row>)
    ensures multiset(r) == multiset(rows) + multiset{x}
  {
    if rows == [] || rows[0].1 <= x.1 then [x] + rows
    else
      assert rows == [rows[0]] + rows[1..];
      [rows[0]] + Insert(x, rows[1..])
  }

  /** The rows of `Insert(x, rows)` are `x` and the rows of `rows`. */
  lemma InsertHolds(x: Row, rows: seq<Row>, y: Row)
    ensures y in Insert(x, rows) <==> y == x || y in rows
  {
    assert y in Insert(x, rows) <==> y in multiset(Insert(x, rows));
  }

  lemma {:induction false} InsertKeepsOrder(x: Row, rows: seq<Row>)
    requires NonIncreasing(rows)
    ensures NonIncreasing(Insert(x, rows))
  {
    if rows != [] && rows[0].1 > x.1 {
      InsertKeepsOrder(x, rows[1..]);
      forall y | y in Insert(x, rows[1..]) ensures rows[0].1 >= y.1 {
        InsertHolds(x, rows[1..], y);
      }
    }
  }

  lemma {:induction false} InsertKeepsDistinct(x: Row, rows: seq<Row>)
    requires DistinctKeys(rows) && forall y :: y in rows ==> y.0 != x.0
    ensures DistinctKeys(Insert(x, rows))
  {
    if rows != [] && rows[0].1 > x.1 {
      InsertKeepsDistinct(x, rows[1..]);
      forall y | y in Insert(x, rows[1..]) ensures rows[0].0 != y.0 {
        InsertHolds(x, rows[1..], y);
      }
    }
  }

  /** `sorted(items, key=count, reverse=True)`: a stable sort by descending count. */
  function SortByCount(items: seq<Row>): (r: seq<Row>)
    ensures multiset(r) == multiset(items)
    ensures NonIncreasing(r)
  {
    if items == [] then []
    else
      assert items == [items[0]] + items[1..];
      InsertKeepsOrder(items[0], SortByCount(items[1..]));
      Insert(items[0], SortByCount(items[1..]))
  }

  lemma {:induction false} SortKeepsDistinct(items: seq<Row>)
    requires DistinctKeys(items)
    ensures DistinctKeys(SortByCount(items))
  {
    if items != [] {
      var rest := SortByCount(items[1..]);
      SortKeepsDistinct(items[1..]);
      forall y | y in rest ensures y.0 != items[0].0 {
        assert y in multiset(rest);
        assert y in items[1..];
      }
      InsertKeepsDistinct(items[0], rest);
    }
  }

  /** `results.items()`, in whatever order the dictionary yields them, sorted by descending count. */
  method ReportRows(results: map<string, nat>) returns (rows: seq<Row>)
    ensures NonIncreasing(rows) && ListsExactly(rows, results)
  {
    var items: seq<Row> := [];
    var rest := results.Keys;
    while rest != {}
      invariant rest <= results.Keys
      invariant DistinctKeys(items)
      invariant forall r :: r in items ==> r.0 in results && r.0 !in rest && results[r.0] == r.1
      invariant forall k :: k in results && k !in rest ==> (k, results[k]) in items
    {
      var k :| k in rest;
      items := items + [(k, results[k])];
      rest := rest - {k};
    }
    rows := SortByCount(items);
    SortKeepsDistinct(items);
    forall r | r in rows ensures r in items {
      assert r in multiset(rows);
    }
    forall k | k in results ensures (k, results[k]) in rows {
      assert (k, results[k]) in multiset(items);
    }
  }

  /**
   The whole run on the lines of a file: no report (the "not a BLAST result
   file" warning) unless a header was found, else the sorted tally.
   */
  method ContigReport(lines: seq<Line>) returns (report: Option<seq<Row>>)
    ensures report.None? <==> !Run(lines).foundHeader
    ensures report.Some? ==> NonIncreasing(report.value) && ListsExactly(report.value, Run(lines).results)
    ensures report.Some? ==> forall r :: r in report.value ==> r.1 >= 1 && WellFormedKey(r.0)
  {
    var foundHeader, newQuery, getNextHit, results := CountTopHits(lines);
    if !foundHeader {
      report := None;
    } else {
      var rows := ReportRows(results);
      ResultsWellFormed(lines);
      report := Some(rows);
    }
  }
}
