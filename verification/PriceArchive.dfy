/**
 Price series as the archive stores them (normalizePriceHistory, writeJsonFile and writePolymarketArchiveChunk in
 shared/lib/market/polymarket_history.js), as far as the byte count of a stored series depends on them.
 */
module PriceArchive {

  /** A raw observation: seconds or milliseconds, and a price. */
  datatype Point = Point(t: real, p: real)
  datatype Row = Row(t: int, p: real, source: string)

  const DEFAULT_SOURCE := "clob_prices_history"

  /** How numbers and times are printed. */
  datatype Printer = Printer(showInt: int -> string, showTime: int -> string, showReal: real -> string)

  function Seconds(t: real): int {
    if t > 10_000_000_000.0 then (t / 1000.0).Floor else t.Floor
  }

  /** Rows stay sorted by time; a later observation of the same second replaces the earlier one. */
  function Put(rows: seq<Row>, r: Row): seq<Row> {
    if rows == [] || r.t < rows[0].t then [r] + rows
    else if r.t == rows[0].t then [r] + rows[1..]
    else [rows[0]] + Put(rows[1..], r)
  }

  function Normalize(points: seq<Point>, source: string): seq<Row> {
    if points == [] then []
    else
      var q := points[|points| - 1];
      var rows := Normalize(points[..|points| - 1], source);
      if q.p < 0.0 || q.p > 1.0 then rows else Put(rows, Row(Seconds(q.t), q.p, source))
  }

  function PointsOf(rows: seq<Row>): seq<Point> {
    seq(|rows|, i requires 0 <= i < |rows| => Point(rows[i].t as real, rows[i].p))
  }

  /** What the writer stores: it normalizes the rows it is given once more, under the default source. */
  function Written(rows: seq<Row>): seq<Row> {
    Normalize(PointsOf(rows), DEFAULT_SOURCE)
  }

  // ---- the text of a series ----

  function RowText(pr: Printer, r: Row): string {
    "  {\n    \"t\": " + pr.showInt(r.t) + ",\n    \"iso\": \"" + pr.showTime(r.t) + "\",\n    \"p\": "
      + pr.showReal(r.p)
    + ",\n    \"source\": \"" + r.source + "\"\n  }"
  }

  function RowsText(pr: Printer, rows: seq<Row>): string {
    if rows == [] then "" else if |rows| == 1 then RowText(pr, rows[0])
      else RowText(pr, rows[0]) + ",\n" + RowsText(pr, rows[1..])
  }

  /** JSON with an indent of two. */
  function Json(pr: Printer, rows: seq<Row>): string {
    if rows == [] then "[]" else "[\n" + RowsText(pr, rows) + "\n]"
  }

  // ---- normalizing twice ----

  ghost predicate Ascending(rows: seq<Row>) {
    forall i, j :: 0 <= i < j < |rows| ==> rows[i].t < rows[j].t
  }

  ghost predicate NormalRows(rows: seq<Row>, source: string) {
    Ascending(rows) && forall i :: 0 <= i < |rows| ==> 0.0 <= rows[i].p <= 1.0 && rows[i].source == source
  }

  /** The latest second that a second normalization does not take for milliseconds. */
  ghost predicate Plausible(rows: seq<Row>) {
    forall i :: 0 <= i < |rows| ==> rows[i].t <= 10_000_000_000
  }

  lemma {:induction false} PutKeepsNormal(rows: seq<Row>, r: Row)
    requires NormalRows(rows, r.source) && 0.0 <= r.p <= 1.0
    ensures NormalRows(Put(rows, r), r.source)
    ensures forall x <- Put(rows, r) :: x == r || x in rows
  {
    if rows != [] && r.t > rows[0].t {
      PutKeepsNormal(rows[1..], r);
      PrependNormal(rows[0], Put(rows[1..], r));
    }
  }

  lemma PrependNormal(r: Row, rows: seq<Row>)
    requires NormalRows(rows, r.source) && 0.0 <= r.p <= 1.0
    requires forall x <- rows :: r.t < x.t
    ensures NormalRows([r] + rows, r.source)
  {
  }

  lemma {:induction false} NormalizeIsNormal(points: seq<Point>, source: string)
    ensures NormalRows(Normalize(points, source), source)
  {
    if points != [] {
      var q := points[|points| - 1];
      NormalizeIsNormal(points[..|points| - 1], source);
      if 0.0 <= q.p <= 1.0 {
        PutKeepsNormal(Normalize(points[..|points| - 1], source), Row(Seconds(q.t), q.p, source));
      }
    }
  }

  /** The second an observation counts for: times beyond the year 2286 in seconds are milliseconds. */
  ghost predicate InSecond(q: Point, t: int) {
    if q.t <= 10_000_000_000.0 then t as real <= q.t < (t + 1) as real
    else 1000.0 * t as real <= q.t < 1000.0 * (t + 1) as real
  }

  /** Point k is the last one with a price from 0 to 1 in its second. */
  ghost predicate LastIn(points: seq<Point>, k: nat, t: int) {
    && k < |points| && InSecond(points[k], t) && 0.0 <= points[k].p <= 1.0
    && forall j :: k < j < |points| && InSecond(points[j], t) ==> points[j].p < 0.0 || points[j].p > 1.0
  }

  lemma SecondsExactly(q: Point, t: int)
    ensures InSecond(q, t) <==> Seconds(q.t) == t
  {
    var whole := if q.t > 10_000_000_000.0 then q.t / 1000.0 else q.t;
    assert whole.Floor as real <= whole < (whole.Floor + 1) as real;
  }

  lemma {:induction false} PutExactly(rows: seq<Row>, r: Row)
    requires NormalRows(rows, r.source) && 0.0 <= r.p <= 1.0
    ensures forall x: Row :: x in Put(rows, r) <==> x == r || (x in rows && x.t != r.t)
  {
    if rows == [] {
    } else {
      assert rows == [rows[0]] + rows[1..];
      if r.t > rows[0].t {
        PutExactly(rows[1..], r);
      }
    }
  }

  /** Main result: the stored series has a row for a second exactly if some observation of that second has a price from
      0 to 1, and then with the price of the last such observation. */
  lemma {:induction false} NormalizeExactly(points: seq<Point>, source: string, x: Row)
    ensures x in Normalize(points, source) <==>
            x.source == source && exists k: nat :: LastIn(points, k, x.t) && points[k].p == x.p
  {
    hide InSecond, Put, Seconds;
    if points != [] {
      var n := |points| - 1;
      var q, before := points[n], points[..n];
      NormalizeExactly(before, source, x);
      NormalizeIsNormal(before, source);
      SecondsExactly(q, x.t);
      if 0.0 <= q.p <= 1.0 {
        PutExactly(Normalize(before, source), Row(Seconds(q.t), q.p, source));
      }
      LastOfMore(before, q, x.t);
      assert points == before + [q];
    }
  }

  lemma LastOfMore(before: seq<Point>, q: Point, t: int)
    ensures LastIn(before + [q], |before|, t) <==> InSecond(q, t) && 0.0 <= q.p <= 1.0
    ensures forall k: nat :: k < |before| ==>
              (LastIn(before + [q], k, t) <==> LastIn(before, k, t) && !(InSecond(q, t) && 0.0 <= q.p <= 1.0))
  {
    hide InSecond;
    var more := before + [q];
    forall k: nat | k < |before|
      ensures LastIn(more, k, t) <==> LastIn(before, k, t) && !(InSecond(q, t) && 0.0 <= q.p <= 1.0)
    {
      assert forall j :: 0 <= j < |before| ==> more[j] == before[j];
      assert more[|before|] == q;
    }
  }

  /** Observations up to the year 2286, in seconds or milliseconds, have plausible seconds. */
  lemma {:induction false} PlausiblePoints(points: seq<Point>, source: string)
    requires forall i :: 0 <= i < |points| ==> points[i].t <= 10_000_000_000_000.0
    ensures Plausible(Normalize(points, source))
  {
    if points != [] {
      var n := |points| - 1;
      var before := Normalize(points[..n], source);
      PlausiblePoints(points[..n], source);
      NormalizeIsNormal(points[..n], source);
      if 0.0 <= points[n].p <= 1.0 {
        var r := Row(Seconds(points[n].t), points[n].p, source);
        PutKeepsNormal(before, r);
        forall i | 0 <= i < |Put(before, r)| ensures Put(before, r)[i].t <= 10_000_000_000 {
          assert Put(before, r)[i] in Put(before, r);
        }
      }
    }
  }

  function Relabelled(rows: seq<Row>, source: string): seq<Row> {
    seq(|rows|, i requires 0 <= i < |rows| => rows[i].(source := source))
  }

  lemma {:induction false} PutAtEnd(rows: seq<Row>, r: Row)
    requires forall x <- rows :: x.t < r.t
    ensures Put(rows, r) == rows + [r]
  {
    if rows != [] {
      PutAtEnd(rows[1..], r);
      assert rows == [rows[0]] + rows[1..];
    }
  }

  /** On plausible times the second normalization only changes the source label. */
  lemma {:induction false} WrittenIsRelabelled(rows: seq<Row>, source: string)
    requires NormalRows(rows, source) && Plausible(rows)
    ensures Written(rows) == Relabelled(rows, DEFAULT_SOURCE)
  {
    if rows != [] {
      var n := |rows| - 1;
      WrittenIsRelabelled(rows[..n], source);
      assert PointsOf(rows)[..n] == PointsOf(rows[..n]);
      assert Seconds(rows[n].t as real) == rows[n].t;
      PutAtEnd(Relabelled(rows[..n], DEFAULT_SOURCE), Row(rows[n].t, rows[n].p, DEFAULT_SOURCE));
    }
  }

  // ---- sizes ----

  lemma RowSize(pr: Printer, r: Row, source: string)
    ensures |RowText(pr, r.(source := source))| - |source| == |RowText(pr, r)| - |r.source|
  {
  }

  lemma {:induction false} RowsSize(pr: Printer, rows: seq<Row>, source: string, previous: string)
    requires forall i :: 0 <= i < |rows| ==> rows[i].source == previous
    ensures |RowsText(pr, Relabelled(rows, source))| == |RowsText(pr, rows)| + |rows| * (|source| - |previous|)
  {
    hide RowText;
    if rows != [] {
      var more := rows[1..];
      RowSize(pr, rows[0], source);
      RowsSize(pr, more, source, previous);
      assert Relabelled(rows, source)[1..] == Relabelled(more, source);
      assert |rows| * (|source| - |previous|) == (|source| - |previous|) + |more| * (|source| - |previous|);
    }
  }

  /** A stored series differs from the series that was measured by the length of the label, once a row. */
  lemma StoredSize(pr: Printer, rows: seq<Row>, source: string)
    requires NormalRows(rows, source) && Plausible(rows)
    ensures |Json(pr, Written(rows))| == |Json(pr, rows)| + |rows| * (|DEFAULT_SOURCE| - |source|)
  {
    hide RowText, RowsText, Normalize;
    WrittenIsRelabelled(rows, source);
    RowsSize(pr, rows, DEFAULT_SOURCE, source);
  }
}
