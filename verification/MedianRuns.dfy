/** Grouping benchmark rows by measured point and choosing the run nearest the median. */
module MedianRuns {
  import opened Ordering

  datatype Point = Point(engine: string, depth: nat, workload: string)

  /** One run; speed is in bytes per second. */
  datatype Row = Row(point: Point, run: nat, speed: int)

  /** The chosen run of a point, with the size of its group. */
  datatype MedianRow = MedianRow(row: Row, medianRun: nat, runsInGroup: nat)

  // ---- groups ----

  /** The rows of one point, in their order. */
  function RowsOf(rows: seq<Row>, p: Point): seq<Row> {
    if rows == [] then []
    else
      var last := rows[|rows| - 1];
      RowsOf(rows[..|rows| - 1], p) + (if last.point == p then [last] else [])
  }

  lemma {:induction false} RowsOfMembers(rows: seq<Row>, p: Point)
    ensures forall r :: r in RowsOf(rows, p) <==> r in rows && r.point == p
  {
    if rows != [] {
      RowsOfMembers(rows[..|rows| - 1], p);
      assert rows == rows[..|rows| - 1] + [rows[|rows| - 1]];
    }
  }

  /** The rows of `p` so far. */
  function GroupAt(groups: map<Point, seq<Row>>, p: Point): seq<Row> {
    if p in groups then groups[p] else []
  }

  /** The dictionary has exactly the rows of `p`, and a key only when there are some. */
  ghost predicate GroupOk(rows: seq<Row>, groups: map<Point, seq<Row>>, points: seq<Point>, p: Point) {
    && (p in points <==> p in groups)
    && GroupAt(groups, p) == RowsOf(rows, p)
    && (p in groups ==> groups[p] != [])
  }

  /** The groups of a dictionary and the points in insertion order. */
  ghost predicate Grouped(rows: seq<Row>, groups: map<Point, seq<Row>>, points: seq<Point>) {
    NoRepeats(points) && forall p :: GroupOk(rows, groups, points, p)
  }

  lemma {:induction false} RowsOfOneMore(rows: seq<Row>, row: Row, p: Point)
    ensures RowsOf(rows + [row], p) == RowsOf(rows, p) + (if row.point == p then [row] else [])
  {
    assert (rows + [row])[..|rows|] == rows;
  }

  /** Dictionary and order with one more row. */
  function GroupsWith(groups: map<Point, seq<Row>>, row: Row): map<Point, seq<Row>> {
    groups[row.point := GroupAt(groups, row.point) + [row]]
  }

  function PointsWith(groups: map<Point, seq<Row>>, points: seq<Point>, row: Row): seq<Point> {
    if row.point in groups then points else points + [row.point]
  }

  lemma {:induction false} GroupWith(rows: seq<Row>, row: Row, groups: map<Point, seq<Row>>, points: seq<Point>,
                                      p: Point)
    requires GroupOk(rows, groups, points, p)
    ensures GroupOk(rows + [row], GroupsWith(groups, row), PointsWith(groups, points, row), p)
  {
    RowsOfOneMore(rows, row, p);
  }

  lemma {:induction false} OneMoreGrouped(rows: seq<Row>, row: Row, groups: map<Point, seq<Row>>, points: seq<Point>)
    requires Grouped(rows, groups, points)
    ensures Grouped(rows + [row], GroupsWith(groups, row), PointsWith(groups, points, row))
  {
    assert GroupOk(rows, groups, points, row.point);
    var more, keys := GroupsWith(groups, row), PointsWith(groups, points, row);
    forall p ensures GroupOk(rows + [row], more, keys, p) {
      GroupWith(rows, row, groups, points, p);
    }
    DistinctWith(groups, points, row);
  }

  lemma {:induction false} DistinctWith(groups: map<Point, seq<Row>>, points: seq<Point>, row: Row)
    requires NoRepeats(points) && (row.point in points <==> row.point in groups)
    ensures NoRepeats(PointsWith(groups, points, row))
  {
  }

  lemma {:induction false} PrefixOneMore(rows: seq<Row>, i: nat)
    requires i < |rows|
    ensures rows[..i + 1] == rows[..i] + [rows[i]]
  {
  }

  lemma {:induction false} NothingGrouped()
    ensures Grouped([], map[], [])
  {
    assert forall p :: GroupOk([], map[], [], p);
  }

  /** One turn of the loop: the key is made when it is new, then the row appended. */
  method AddToGroup(groups: map<Point, seq<Row>>, points: seq<Point>, row: Row)
    returns (more: map<Point, seq<Row>>, keys: seq<Point>)
    ensures more == GroupsWith(groups, row) && keys == PointsWith(groups, points, row)
  {
    more, keys := groups, points;
    if row.point !in more {
      more := more[row.point := []];
      keys := keys + [row.point];
    }
    more := more[row.point := more[row.point] + [row]];
  }

  method GroupRowsByPoint(rows: seq<Row>) returns (groups: map<Point, seq<Row>>, points: seq<Point>)
    ensures Grouped(rows, groups, points)
  {
    groups, points := map[], [];
    NothingGrouped();
    var i := 0;
    while i < |rows|
      invariant 0 <= i <= |rows|
      invariant Grouped(rows[..i], groups, points)
    {
      OneMoreGrouped(rows[..i], rows[i], groups, points);
      PrefixOneMore(rows, i);
      groups, points := AddToGroup(groups, points, rows[i]);
      i := i + 1;
    }
    assert rows[..i] == rows;
  }

  // ---- the median ----

  function Speeds(rows: seq<Row>): (r: seq<int>)
    ensures |r| == |rows|
    ensures forall i :: 0 <= i < |rows| ==> r[i] == rows[i].speed
  {
    if rows == [] then [] else [rows[0].speed] + Speeds(rows[1..])
  }

  function SortedSpeeds(rows: seq<Row>): (r: seq<int>)
    ensures |r| == |rows|
  {
    Sort(IntLe(), Speeds(rows))
  }

  /** Twice the median: the middle value, or the mean of the two middle ones. */
  function TwiceMedian(sorted: seq<int>): int
    requires sorted != []
  {
    var n := |sorted|;
    if n % 2 == 1 then 2 * sorted[n / 2] else sorted[n / 2 - 1] + sorted[n / 2]
  }

  function Abs(x: int): nat { if x >= 0 then x else -x }

  /** Twice the distance from the median. */
  function Distance(row: Row, twice: int): nat { Abs(2 * row.speed - twice) }

  predicate Better(a: Row, b: Row, twice: int) {
    Distance(a, twice) < Distance(b, twice) || (Distance(a, twice) == Distance(b, twice) && a.run < b.run)
  }

  /** min(): the first of the nearest rows with the lowest run. */
  method Nearest(rows: seq<Row>, twice: int) returns (r: Row)
    requires rows != []
    ensures r in rows
    ensures forall x :: x in rows ==> !Better(x, r, twice)
  {
    r := rows[0];
    var i := 1;
    while i < |rows|
      invariant 1 <= i <= |rows|
      invariant r in rows
      invariant forall j :: 0 <= j < i ==> !Better(rows[j], r, twice)
    {
      if Better(rows[i], r, twice) {
        r := rows[i];
      }
      i := i + 1;
    }
  }

  /** One of the two middle values of an even number of speeds, or the middle one of an odd number. */
  predicate AtMiddle(sorted: seq<int>, speed: int)
    requires sorted != []
  {
    var n := |sorted|;
    if n % 2 == 1 then speed == sorted[n / 2] else speed == sorted[n / 2 - 1] || speed == sorted[n / 2]
  }

  /** A speed of a middle position: the median, or one of the two middle values. */
  predicate Middle(rows: seq<Row>, speed: int) { rows != [] && AtMiddle(SortedSpeeds(rows), speed) }

  lemma {:induction false} SortedMember(rows: seq<Row>, x: Row) returns (k: nat)
    requires x in rows
    ensures k < |rows| && SortedSpeeds(rows)[k] == x.speed
  {
    var i :| 0 <= i < |rows| && rows[i] == x;
    assert Speeds(rows)[i] == x.speed;
    SameElements(SortedSpeeds(rows), Speeds(rows));
    assert x.speed in Speeds(rows);
    k :| 0 <= k < |SortedSpeeds(rows)| && SortedSpeeds(rows)[k] == x.speed;
  }

  lemma {:induction false} MemberOfSorted(rows: seq<Row>, k: nat) returns (x: Row)
    requires k < |rows|
    ensures x in rows && x.speed == SortedSpeeds(rows)[k]
  {
    SameElements(SortedSpeeds(rows), Speeds(rows));
    assert SortedSpeeds(rows)[k] in Speeds(rows);
    var i :| 0 <= i < |rows| && Speeds(rows)[i] == SortedSpeeds(rows)[k];
    x := rows[i];
  }

  lemma {:induction false} AroundMiddle(sorted: seq<int>, k: nat)
    requires SortedBy(IntLe(), sorted) && k < |sorted|
    ensures var n := |sorted|;
            && (k <= n / 2 ==> sorted[k] <= sorted[n / 2])
            && (k >= n / 2 ==> sorted[k] >= sorted[n / 2])
            && (0 < n / 2 && k <= n / 2 - 1 ==> sorted[k] <= sorted[n / 2 - 1])
  {
    var n := |sorted|;
    assert k < n / 2 ==> IntLe()(sorted[k], sorted[n / 2]);
    assert k > n / 2 ==> IntLe()(sorted[n / 2], sorted[k]);
    assert 0 < n / 2 && k < n / 2 - 1 ==> IntLe()(sorted[k], sorted[n / 2 - 1]);
  }

  lemma {:induction false} NearTwo(lo: int, hi: int, v: int)
    requires lo <= hi && (v <= lo || hi <= v)
    requires Abs(2 * v - (lo + hi)) <= Abs(2 * hi - (lo + hi))
    ensures v == lo || v == hi
  {
  }

  /** The row nearest the median has a middle speed. */
  lemma {:induction false} NearestIsMiddle(rows: seq<Row>, r: Row)
    requires rows != [] && r in rows
    requires forall x :: x in rows ==> !Better(x, r, TwiceMedian(SortedSpeeds(rows)))
    ensures Middle(rows, r.speed)
  {
    var sorted := SortedSpeeds(rows);
    var twice := TwiceMedian(sorted);
    var n := |rows|;
    SortInts(Speeds(rows));
    var hi := MemberOfSorted(rows, n / 2);
    assert Distance(r, twice) <= Distance(hi, twice) by {
      assert !Better(hi, r, twice);
    }
    if n % 2 == 0 {
      var k := SortedMember(rows, r);
      AroundMiddle(sorted, k);
      AroundMiddle(sorted, n / 2 - 1);
      NearTwo(sorted[n / 2 - 1], sorted[n / 2], r.speed);
    }
  }

  // ---- all points ----

  predicate PointLe(a: Point, b: Point) {
    if a.engine != b.engine then StringLe(a.engine, b.engine)
    else if a.depth != b.depth then a.depth < b.depth
    else StringLe(a.workload, b.workload)
  }

  function ByPoint(): (MedianRow, MedianRow) -> bool {
    (a: MedianRow, b: MedianRow) => PointLe(a.row.point, b.row.point)
  }

  lemma {:induction false} PointOrder(a: Point, b: Point, c: Point)
    ensures PointLe(a, b) || PointLe(b, a)
    ensures PointLe(a, b) && PointLe(b, a) ==> a == b
    ensures PointLe(a, b) && PointLe(b, c) ==> PointLe(a, c)
  {
    StringOrder(a.engine, b.engine, c.engine);
    StringOrder(b.engine, a.engine, c.engine);
    StringOrder(b.engine, c.engine, a.engine);
    StringOrder(a.workload, b.workload, c.workload);
  }

  /** What is chosen for one point: a middle run of its group, the lowest of those as near to the median. */
  ghost predicate ChosenFrom(rows: seq<Row>, m: MedianRow) {
    var group := RowsOf(rows, m.row.point);
    && m.row in group
    && Middle(group, m.row.speed)
    && (var twice := TwiceMedian(SortedSpeeds(group));
        forall x :: x in group && Distance(x, twice) == Distance(m.row, twice) ==> m.row.run <= x.run)
    && m.medianRun == m.row.run
    && m.runsInGroup == |group|
  }

  ghost predicate HasPoint(rows: seq<Row>, p: Point) { exists r :: r in rows && r.point == p }

  /** Exactly one chosen run for each point, in strictly increasing order of points. */
  ghost predicate MedianTable(rows: seq<Row>, table: seq<MedianRow>) {
    && (forall i :: 0 <= i < |table| ==> ChosenFrom(rows, table[i]))
    && (forall i, j :: 0 <= i < j < |table| ==>
          PointLe(table[i].row.point, table[j].row.point) && table[i].row.point != table[j].row.point)
    && (forall p :: HasPoint(rows, p) ==> exists i :: 0 <= i < |table| && table[i].row.point == p)
  }

  /** Of all runs at a middle speed the lowest is chosen: the two middle values are equally near to their mean. */
  lemma {:induction false} LowestMiddle(rows: seq<Row>, m: MedianRow, x: Row)
    requires ChosenFrom(rows, m) && x in RowsOf(rows, m.row.point)
    requires Middle(RowsOf(rows, m.row.point), x.speed)
    ensures m.row.run <= x.run
  {
    var group := RowsOf(rows, m.row.point);
    MiddlesTie(SortedSpeeds(group), m.row, x);
  }

  lemma {:induction false} MiddlesTie(sorted: seq<int>, a: Row, b: Row)
    requires sorted != [] && AtMiddle(sorted, a.speed) && AtMiddle(sorted, b.speed)
    ensures Distance(a, TwiceMedian(sorted)) == Distance(b, TwiceMedian(sorted))
  {
  }

  /** The order of points: by engine, then depth, then workload. */
  lemma {:induction false} PointsCompare(a: Point, b: Point)
    ensures a.engine != b.engine ==> (PointLe(a, b) <==> StringLe(a.engine, b.engine))
    ensures a.engine == b.engine && a.depth < b.depth ==> PointLe(a, b) && !PointLe(b, a)
    ensures a.engine == b.engine && a.depth == b.depth ==> (PointLe(a, b) <==> StringLe(a.workload, b.workload))
  {
  }

  /** The run chosen from one group. */
  method ChooseRun(ghost rows: seq<Row>, ghost p: Point, group: seq<Row>) returns (m: MedianRow)
    requires group == RowsOf(rows, p) && group != []
    ensures m.row.point == p && ChosenFrom(rows, m)
  {
    var row := Nearest(group, TwiceMedian(SortedSpeeds(group)));
    NearestIsMiddle(group, row);
    RowsOfMembers(rows, p);
    m := MedianRow(row, row.run, |group|);
  }

  method PickMedianRunRows(rows: seq<Row>) returns (table: seq<MedianRow>)
    ensures MedianTable(rows, table) && Sizes(table) == |rows|
  {
    var groups, points := GroupRowsByPoint(rows);
    var chosen: seq<MedianRow> := [];
    var i := 0;
    while i < |points|
      invariant 0 <= i <= |points| && |chosen| == i
      invariant forall j :: 0 <= j < i ==> chosen[j].row.point == points[j] && ChosenFrom(rows, chosen[j])
    {
      assert GroupOk(rows, groups, points, points[i]);
      var m := ChooseRun(rows, points[i], groups[points[i]]);
      chosen := chosen + [m];
      i := i + 1;
    }
    table := SortTable(rows, groups, points, chosen);
  }

  /** The final sort. */
  method SortTable(ghost rows: seq<Row>, ghost groups: map<Point, seq<Row>>, ghost points: seq<Point>,
                   chosen: seq<MedianRow>)
    returns (table: seq<MedianRow>)
    requires Grouped(rows, groups, points) && |chosen| == |points|
    requires forall j :: 0 <= j < |chosen| ==> chosen[j].row.point == points[j] && ChosenFrom(rows, chosen[j])
    ensures MedianTable(rows, table) && Sizes(table) == |rows|
  {
    table := Sort(ByPoint(), chosen);
    AllPointsGrouped(rows, groups, points);
    SortedTable(rows, points, chosen);
    TableSizes(rows, table);
  }

  lemma {:induction false} AllPointsGrouped(rows: seq<Row>, groups: map<Point, seq<Row>>, points: seq<Point>)
    requires Grouped(rows, groups, points)
    ensures forall p :: HasPoint(rows, p) ==> p in points
  {
    forall p | HasPoint(rows, p) ensures p in points {
      assert GroupOk(rows, groups, points, p);
      RowsOfMembers(rows, p);
    }
  }

  lemma {:induction false} SortedTable(rows: seq<Row>, points: seq<Point>, chosen: seq<MedianRow>)
    requires |chosen| == |points|
    requires NoRepeats(points)
    requires forall j :: 0 <= j < |points| ==> chosen[j].row.point == points[j] && ChosenFrom(rows, chosen[j])
    requires forall p :: HasPoint(rows, p) ==> p in points
    ensures MedianTable(rows, Sort(ByPoint(), chosen))
  {
    var table := Sort(ByPoint(), chosen);
    SameElements(table, chosen);
    TableOrder(chosen);
    TableDistinct(points, chosen);
    forall i | 0 <= i < |table| ensures ChosenFrom(rows, table[i]) {
      assert table[i] in chosen;
    }
    forall p | HasPoint(rows, p) ensures exists i :: 0 <= i < |table| && table[i].row.point == p {
      var j :| 0 <= j < |points| && points[j] == p;
      assert chosen[j] in table;
    }
  }

  lemma {:induction false} TableOrder(chosen: seq<MedianRow>)
    ensures var table := Sort(ByPoint(), chosen);
            forall i, j :: 0 <= i < j < |table| ==> PointLe(table[i].row.point, table[j].row.point)
  {
    forall a: MedianRow, b: MedianRow, c: MedianRow
      ensures ByPoint()(a, b) || ByPoint()(b, a)
      ensures ByPoint()(a, b) && ByPoint()(b, c) ==> ByPoint()(a, c)
    {
      PointOrder(a.row.point, b.row.point, c.row.point);
    }
    SortSorts(ByPoint(), chosen);
    var table := Sort(ByPoint(), chosen);
    forall i, j | 0 <= i < j < |table| ensures PointLe(table[i].row.point, table[j].row.point) {
      assert ByPoint()(table[i], table[j]);
    }
  }

  lemma {:induction false} TableDistinct(points: seq<Point>, chosen: seq<MedianRow>)
    requires |chosen| == |points|
    requires NoRepeats(points)
    requires forall j :: 0 <= j < |points| ==> chosen[j].row.point == points[j]
    ensures var table := Sort(ByPoint(), chosen);
            forall i, j :: 0 <= i < j < |table| ==> table[i].row.point != table[j].row.point
  {
    var table := Sort(ByPoint(), chosen);
    PermutedNoRepeats(chosen, table);
    SameElements(table, chosen);
    forall i, j | 0 <= i < j < |table| ensures table[i].row.point != table[j].row.point {
      assert table[i] in chosen && table[j] in chosen;
    }
  }

  // ---- group sizes ----

  function Sizes(table: seq<MedianRow>): nat {
    if table == [] then 0 else table[0].runsInGroup + Sizes(table[1..])
  }

  function Points(table: seq<MedianRow>): (r: seq<Point>)
    ensures |r| == |table|
    ensures forall i :: 0 <= i < |table| ==> r[i] == table[i].row.point
  {
    if table == [] then [] else [table[0].row.point] + Points(table[1..])
  }

  function GroupSizes(rows: seq<Row>, points: seq<Point>): nat {
    if points == [] then 0 else |RowsOf(rows, points[0])| + GroupSizes(rows, points[1..])
  }

  lemma {:induction false} NoRows(points: seq<Point>)
    ensures GroupSizes([], points) == 0
  {
    if points != [] {
      NoRows(points[1..]);
    }
  }

  lemma {:induction false} OneMoreRow(rows: seq<Row>, last: Row, points: seq<Point>)
    requires NoRepeats(points)
    ensures GroupSizes(rows + [last], points) == GroupSizes(rows, points) + if last.point in points then 1 else 0
  {
    if points != [] {
      OneMoreRow(rows, last, points[1..]);
      assert (rows + [last])[..|rows|] == rows;
      assert points == [points[0]] + points[1..];
      assert points[0] !in points[1..];
    }
  }

  /** Every row is in exactly one group. */
  lemma {:induction false} SizesAddUp(rows: seq<Row>, points: seq<Point>)
    requires NoRepeats(points) && forall r :: r in rows ==> r.point in points
    ensures GroupSizes(rows, points) == |rows|
  {
    if rows == [] {
      NoRows(points);
    } else {
      var init, last := rows[..|rows| - 1], rows[|rows| - 1];
      SizesAddUp(init, points);
      OneMoreRow(init, last, points);
      assert rows == init + [last];
    }
  }

  lemma {:induction false} SizesOfTable(rows: seq<Row>, table: seq<MedianRow>)
    requires forall i :: 0 <= i < |table| ==> table[i].runsInGroup == |RowsOf(rows, table[i].row.point)|
    ensures Sizes(table) == GroupSizes(rows, Points(table))
  {
    if table != [] {
      SizesOfTable(rows, table[1..]);
      assert Points(table)[1..] == Points(table[1..]);
    }
  }

  /** The group sizes of the table add up to the number of rows. */
  lemma {:induction false} TableSizes(rows: seq<Row>, table: seq<MedianRow>)
    requires MedianTable(rows, table)
    ensures Sizes(table) == |rows|
  {
    forall i | 0 <= i < |table| ensures table[i].runsInGroup == |RowsOf(rows, table[i].row.point)| {
      assert ChosenFrom(rows, table[i]);
    }
    SizesOfTable(rows, table);
    forall r | r in rows ensures r.point in Points(table) {
      assert HasPoint(rows, r.point);
      var i :| 0 <= i < |table| && table[i].row.point == r.point;
      assert Points(table)[i] == r.point;
    }
    SizesAddUp(rows, Points(table));
  }
}
