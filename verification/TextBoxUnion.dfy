/**
 The share of a frame covered by text boxes: an exact rectangle-union sweep by
 coordinate compression. Coordinates are integers here, so the area of the union
 is the number of unit cells it covers.
 */
module TextBoxUnion {
  import opened Options
  import opened Basics

  datatype Point = Point(x: int, y: int)

  /** A detection box as the reader gives it: corner points, or something unusable. */
  datatype Box = Unreadable | Corners(pts: seq<Point>)

  datatype Rect = Rect(x0: int, y0: int, x1: int, y1: int)

  datatype Span = Span(start: int, end: int)

  function Xs(pts: seq<Point>): seq<int> { seq(|pts|, i requires 0 <= i < |pts| => pts[i].x) }
  function Ys(pts: seq<Point>): seq<int> { seq(|pts|, i requires 0 <= i < |pts| => pts[i].y) }

  function Least(s: seq<int>): (m: int)
    requires s != []
    ensures forall i | 0 <= i < |s| :: m <= s[i]
    ensures exists i :: 0 <= i < |s| && s[i] == m
  {
    if |s| == 1 then s[0]
    else
      var rest := Least(s[1..]);
      assert forall i | 1 <= i < |s| :: s[i] == s[1..][i - 1];
      if s[0] <= rest then s[0] else rest
  }

  function Greatest(s: seq<int>): (m: int)
    requires s != []
    ensures forall i | 0 <= i < |s| :: s[i] <= m
    ensures exists i :: 0 <= i < |s| && s[i] == m
  {
    if |s| == 1 then s[0]
    else
      var rest := Greatest(s[1..]);
      assert forall i | 1 <= i < |s| :: s[i] == s[1..][i - 1];
      if s[0] >= rest then s[0] else rest
  }

  // ---- what is measured ----

  datatype Cell = Cell(x: int, y: int)

  /** The cell lies in the axis-aligned bounding rectangle of a usable box. */
  predicate Covers(box: Box, c: Cell) {
    && box.Corners? && box.pts != []
    && Least(Xs(box.pts)) <= c.x < Greatest(Xs(box.pts))
    && Least(Ys(box.pts)) <= c.y < Greatest(Ys(box.pts))
  }

  ghost predicate CoveredBySome(boxes: seq<Box>, c: Cell) {
    exists b :: b in boxes && Covers(b, c)
  }

  ghost function Frame(width: int, height: int): (r: set<Cell>)
    ensures forall c :: c in r <==> 0 <= c.x < width && 0 <= c.y < height
  {
    set x, y | 0 <= x < width && 0 <= y < height :: Cell(x, y)
  }

  ghost function CoveredCells(boxes: seq<Box>, width: int, height: int): set<Cell> {
    set c | c in Frame(width, height) && CoveredBySome(boxes, c)
  }

  // ---- clipping ----

  predicate InRect(r: Rect, c: Cell) {
    r.x0 <= c.x < r.x1 && r.y0 <= c.y < r.y1
  }

  ghost predicate InSome(rects: seq<Rect>, c: Cell) {
    exists r :: r in rects && InRect(r, c)
  }

  function Clip(box: Box, width: int, height: int): (r: Option<Rect>)
    ensures forall c :: (r.Some? && InRect(r.value, c)) <==> (c in Frame(width, height) && Covers(box, c))
    ensures r.Some? ==> 0 <= r.value.x0 < r.value.x1 <= width && 0 <= r.value.y0 < r.value.y1 <= height
  {
    if box.Unreadable? || box.pts == [] then None
    else
      var x0, x1 := Max(0, Least(Xs(box.pts))), Min(width, Greatest(Xs(box.pts)));
      var y0, y1 := Max(0, Least(Ys(box.pts))), Min(height, Greatest(Ys(box.pts)));
      if x1 > x0 && y1 > y0 then Some(Rect(x0, y0, x1, y1)) else None
  }

  // ---- the edges and spans, sorted ----

  predicate StrictlyIncreasing(s: seq<int>) {
    forall i, j | 0 <= i < j < |s| :: s[i] < s[j]
  }

  predicate HasEdge(s: seq<int>, v: int) {
    exists i :: 0 <= i < |s| && s[i] == v
  }

  function InsertEdge(e: int, s: seq<int>): seq<int> {
    if s == [] || e < s[0] then [e] + s
    else if e == s[0] then s
    else [s[0]] + InsertEdge(e, s[1..])
  }

  lemma {:induction false} InsertEdgeOk(e: int, s: seq<int>)
    requires StrictlyIncreasing(s)
    ensures StrictlyIncreasing(InsertEdge(e, s)) && |InsertEdge(e, s)| > 0
    ensures s != [] ==> InsertEdge(e, s)[0] == Min(e, s[0])
    ensures forall v :: HasEdge(InsertEdge(e, s), v) <==> v == e || HasEdge(s, v)
    decreases |s|
  {
    var r := InsertEdge(e, s);
    if s == [] || e < s[0] {
      assert r[0] == e;
      forall v ensures HasEdge(r, v) <==> v == e || HasEdge(s, v) {
        if i :| 0 <= i < |s| && s[i] == v { assert r[i + 1] == v; }
      }
    } else if e > s[0] {
      var rest := InsertEdge(e, s[1..]);
      InsertEdgeOk(e, s[1..]);
      HeadAndTail(s);
      HeadAndTail(r);
      assert r[1..] == rest;
    }
  }

  lemma HeadAndTail(s: seq<int>)
    requires s != []
    ensures forall v :: HasEdge(s, v) <==> v == s[0] || HasEdge(s[1..], v)
  {
    forall v ensures HasEdge(s, v) <==> v == s[0] || HasEdge(s[1..], v) {
      if i :| 0 <= i < |s| && s[i] == v { assert i > 0 ==> s[1..][i - 1] == v; }
      if i :| 0 <= i < |s[1..]| && s[1..][i] == v { assert s[i + 1] == v; }
    }
  }

  function Edges(rects: seq<Rect>): seq<int> {
    if rects == [] then [] else InsertEdge(rects[0].x0, InsertEdge(rects[0].x1, Edges(rects[1..])))
  }

  /** The edges are the distinct x0 and x1, in order. */
  lemma {:induction false} EdgesOk(rects: seq<Rect>)
    ensures EdgesOf(Edges(rects), rects)
    decreases |rects|
  {
    if rects != [] {
      EdgesOk(rects[1..]);
      InsertEdgeOk(rects[0].x1, Edges(rects[1..]));
      InsertEdgeOk(rects[0].x0, InsertEdge(rects[0].x1, Edges(rects[1..])));
      assert forall q | q in rects :: q == rects[0] || q in rects[1..];
    }
  }

  predicate SpanBefore(a: Span, b: Span) {
    a.start < b.start || (a.start == b.start && a.end <= b.end)
  }

  predicate SortedSpans(s: seq<Span>) {
    forall i, j | 0 <= i < j < |s| :: SpanBefore(s[i], s[j])
  }

  predicate ProperSpans(s: seq<Span>) {
    forall i | 0 <= i < |s| :: s[i].start < s[i].end
  }

  function InsertSpan(e: Span, s: seq<Span>): (r: seq<Span>)
    requires SortedSpans(s)
    ensures SortedSpans(r)
    ensures forall v :: v in r <==> v == e || v in s
  {
    if s == [] then [e]
    else if SpanBefore(e, s[0]) then [e] + s
    else
      var rest := InsertSpan(e, s[1..]);
      assert s == [s[0]] + s[1..];
      assert forall v | v in rest :: SpanBefore(s[0], v);
      [s[0]] + rest
  }

  /** The y-spans of the rectangles that cross the whole slab from xa to xb. */
  function SlabSpans(rects: seq<Rect>, xa: int, xb: int): (r: seq<Span>)
    ensures SortedSpans(r)
    ensures SpansOf(r, rects, xa, xb)
  {
    if rects == [] then []
    else
      var rest := SlabSpans(rects[1..], xa, xb);
      var q := rects[0];
      assert rects == [q] + rects[1..];
      if q.x0 <= xa && q.x1 >= xb then InsertSpan(Span(q.y0, q.y1), rest) else rest
  }

  // ---- lengths ----

  datatype Row = Row(y: int)

  ghost function Interval(a: int, b: int): (r: set<Row>)
    ensures forall q :: q in r <==> a <= q.y < b
    decreases b - a
  {
    if a >= b then {} else Interval(a, b - 1) + {Row(b - 1)}
  }

  lemma {:induction false} IntervalSize(a: int, b: int)
    requires a <= b
    ensures |Interval(a, b)| == b - a
    decreases b - a
  {
    if a < b {
      IntervalSize(a, b - 1);
    }
  }

  predicate InSpan(p: Span, y: int) {
    p.start <= y < p.end
  }

  ghost function SpanUnion(spans: seq<Span>): set<Row> {
    if spans == [] then {}
    else
      var last := |spans| - 1;
      SpanUnion(spans[..last]) + Interval(spans[last].start, spans[last].end)
  }

  lemma {:induction false} SpanUnionHas(spans: seq<Span>, y: int)
    ensures Row(y) in SpanUnion(spans) <==> exists p :: p in spans && InSpan(p, y)
    decreases |spans|
  {
    if spans != [] {
      var last := |spans| - 1;
      SpanUnionHas(spans[..last], y);
      assert spans == spans[..last] + [spans[last]];
      if p :| p in spans && InSpan(p, y) { assert p in spans[..last] || p == spans[last]; }
      if InSpan(spans[last], y) { assert spans[last] in spans; }
    }
  }

  lemma SpanUnionSnoc(spans: seq<Span>, i: nat)
    requires i < |spans|
    ensures SpanUnion(spans[..i + 1]) == SpanUnion(spans[..i]) + Interval(spans[i].start, spans[i].end)
  {
    assert spans[..i + 1][..i] == spans[..i];
  }

  /** The run of touching spans being merged. */
  datatype Run = NoRun | Run(start: int, end: int)

  ghost function RunRows(run: Run): set<Row> {
    if run.NoRun? then {} else Interval(run.start, run.end)
  }

  function RunLength(run: Run): int {
    if run.NoRun? then 0 else run.end - run.start
  }

  predicate Gap(run: Run, start: int) {
    run.NoRun? || start > run.end
  }

  function Join(run: Run, start: int, end: int): Run {
    if Gap(run, start) then Run(start, end) else Run(run.start, Max(run.end, end))
  }

  /** What has been closed lies strictly below the current run. */
  ghost predicate Below(closed: set<Row>, run: Run) {
    && (run.NoRun? ==> closed == {})
    && (run.Run? ==> run.start < run.end && forall q | q in closed :: q.y < run.start)
  }

  lemma CloseRun(closed: set<Row>, run: Run)
    requires Below(closed, run)
    ensures |closed + RunRows(run)| == |closed| + RunLength(run)
  {
    if run.Run? {
      IntervalSize(run.start, run.end);
      assert closed !! Interval(run.start, run.end);
    } else {
      assert closed + RunRows(run) == {};
    }
  }

  lemma JoinCovers(closed: set<Row>, run: Run, start: int, end: int)
    requires Below(closed, run) && start < end
    requires run.Run? ==> run.start <= start
    ensures var closed' := if Gap(run, start) then closed + RunRows(run) else closed;
            && Below(closed', Join(run, start, end))
            && closed' + RunRows(Join(run, start, end)) == closed + RunRows(run) + Interval(start, end)
  {
  }

  /** The first i spans cover the closed rows and the current run, and the closed rows are counted. */
  ghost predicate Merging(spans: seq<Span>, i: nat, closed: set<Row>, cur: Run, covered: int)
    requires i <= |spans|
  {
    && Below(closed, cur)
    && (cur.Run? ==> i > 0 && cur.start <= spans[i - 1].start)
    && SpanUnion(spans[..i]) == closed + RunRows(cur)
    && covered == |closed|
  }

  lemma MergeOne(spans: seq<Span>, i: nat, closed: set<Row>, cur: Run, covered: int)
    requires i < |spans| && SortedSpans(spans) && ProperSpans(spans) && Merging(spans, i, closed, cur, covered)
    ensures var next := Join(cur, spans[i].start, spans[i].end);
            if Gap(cur, spans[i].start)
            then Merging(spans, i + 1, closed + RunRows(cur), next, covered + RunLength(cur))
            else Merging(spans, i + 1, closed, next, covered)
  {
    SpanUnionSnoc(spans, i);
    assert i > 0 ==> SpanBefore(spans[i - 1], spans[i]);
    JoinCovers(closed, cur, spans[i].start, spans[i].end);
    CloseRun(closed, cur);
  }

  /** Merging sorted spans measures exactly the integers they cover. */
  method MergedLength(spans: seq<Span>) returns (covered: int)
    requires SortedSpans(spans)
    requires ProperSpans(spans)
    ensures covered == |SpanUnion(spans)|
  {
    covered := 0;
    var cur := NoRun;
    ghost var closed: set<Row> := {};
    for i := 0 to |spans|
      invariant Merging(spans, i, closed, cur, covered)
    {
      MergeOne(spans, i, closed, cur, covered);
      if Gap(cur, spans[i].start) {
        covered := covered + RunLength(cur);
        closed := closed + RunRows(cur);
      }
      cur := Join(cur, spans[i].start, spans[i].end);
    }
    assert spans[..|spans|] == spans;
    CloseRun(closed, cur);
    covered := covered + RunLength(cur);
  }

  // ---- slabs ----

  /** The covered cells with a <= x < b. */
  ghost function CellsBetween(rects: seq<Rect>, height: int, a: int, b: int): (r: set<Cell>)
    ensures forall c :: c in r <==> a <= c.x < b && 0 <= c.y < height && InSome(rects, c)
  {
    set x, y | a <= x < b && 0 <= y < height && InSome(rects, Cell(x, y)) :: Cell(x, y)
  }

  ghost function Column(x: int, ys: set<Row>): (r: set<Cell>)
    ensures forall c :: c in r <==> c.x == x && Row(c.y) in ys
  {
    set q | q in ys :: Cell(x, q.y)
  }

  lemma {:induction false} ColumnSize(x: int, ys: set<Row>)
    ensures |Column(x, ys)| == |ys|
    decreases |ys|
  {
    if q :| q in ys {
      assert Column(x, ys) == Column(x, ys - {q}) + {Cell(x, q.y)};
      ColumnSize(x, ys - {q});
    } else {
      assert ys == {};
      assert Column(x, ys) == {};
    }
  }

  /** A product as repeated addition, which keeps the counting lemmas linear. */
  ghost function Times(n: nat, m: int): int {
    if n == 0 then 0 else Times(n - 1, m) + m
  }

  lemma {:induction false} TimesIsProduct(n: nat, m: int)
    ensures Times(n, m) == n * m == m * n
  {
    if n > 0 {
      TimesIsProduct(n - 1, m);
      assert (n - 1) * m + m == n * m;
    }
  }

  /** When every column of a slab covers the same ys, the slab is a product. */
  lemma {:induction false} SlabSize(rects: seq<Rect>, height: int, a: int, b: int, ys: set<Row>)
    requires a <= b
    requires forall q | q in ys :: 0 <= q.y < height
    requires forall x, y | a <= x < b && 0 <= y < height :: InSome(rects, Cell(x, y)) <==> Row(y) in ys
    ensures |CellsBetween(rects, height, a, b)| == Times(b - a, |ys|)
    decreases b - a
  {
    if a == b {
      assert CellsBetween(rects, height, a, b) == {};
    } else {
      SlabSize(rects, height, a, b - 1, ys);
      ColumnSize(b - 1, ys);
      assert CellsBetween(rects, height, b - 1, b) == Column(b - 1, ys);
      SplitCells(rects, height, a, b - 1, b);
    }
  }

  predicate EdgesOf(edges: seq<int>, rects: seq<Rect>) {
    && StrictlyIncreasing(edges)
    && (rects != [] ==> |edges| > 0)
    && forall q | q in rects :: HasEdge(edges, q.x0) && HasEdge(edges, q.x1)
  }

  ghost predicate SpansOf(spans: seq<Span>, rects: seq<Rect>, xa: int, xb: int) {
    forall v :: v in spans <==> exists q :: q in rects && q.x0 <= xa && q.x1 >= xb && v == Span(q.y0, q.y1)
  }

  predicate NoEdgeInside(rects: seq<Rect>, xa: int, xb: int) {
    forall q | q in rects :: (q.x0 <= xa || q.x0 >= xb) && (q.x1 <= xa || q.x1 >= xb)
  }

  lemma NeighboursHaveNoEdgeInside(edges: seq<int>, rects: seq<Rect>, k: nat)
    requires EdgesOf(edges, rects) && k + 1 < |edges|
    ensures NoEdgeInside(rects, edges[k], edges[k + 1])
  {
    forall q | q in rects
      ensures (q.x0 <= edges[k] || q.x0 >= edges[k + 1]) && (q.x1 <= edges[k] || q.x1 >= edges[k + 1])
    {
      NoEdgeBetween(edges, k, q.x0);
      NoEdgeBetween(edges, k, q.x1);
    }
  }

  lemma NoEdgeBetween(edges: seq<int>, k: nat, e: int)
    requires StrictlyIncreasing(edges) && k + 1 < |edges| && HasEdge(edges, e)
    ensures e <= edges[k] || e >= edges[k + 1]
  {
    var i :| 0 <= i < |edges| && edges[i] == e;
  }

  /** Between two neighbouring edges every column is covered by the same spans. */
  lemma SlabIsUniform(rects: seq<Rect>, xa: int, xb: int, spans: seq<Span>, x: int, y: int)
    requires NoEdgeInside(rects, xa, xb) && SpansOf(spans, rects, xa, xb)
    requires xa <= x < xb
    ensures InSome(rects, Cell(x, y)) <==> Row(y) in SpanUnion(spans)
  {
    SpanUnionHas(spans, y);
    if r :| r in rects && InRect(r, Cell(x, y)) {
      assert Span(r.y0, r.y1) in spans && InSpan(Span(r.y0, r.y1), y);
    }
    if p :| p in spans && InSpan(p, y) {
      var q :| q in rects && q.x0 <= xa && q.x1 >= xb && p == Span(q.y0, q.y1);
      assert InRect(q, Cell(x, y));
    }
  }

  lemma EdgeBounds(edges: seq<int>, e: int)
    requires StrictlyIncreasing(edges) && HasEdge(edges, e)
    ensures edges[0] <= e <= edges[|edges| - 1]
  {
    var i :| 0 <= i < |edges| && edges[i] == e;
  }

  lemma NextSlab(rects: seq<Rect>, height: int, a: int, b: int, c: int, ys: set<Row>)
    requires forall r | r in rects :: 0 <= r.y0 && r.y1 <= height
    requires a <= b < c
    requires forall x, y | b <= x < c :: InSome(rects, Cell(x, y)) <==> Row(y) in ys
    ensures |CellsBetween(rects, height, a, c)| == |CellsBetween(rects, height, a, b)| + Times(c - b, |ys|)
  {
    SlabRowsInFrame(rects, height, b, ys);
    SlabSize(rects, height, b, c, ys);
    SplitCells(rects, height, a, b, c);
  }

  lemma SlabRowsInFrame(rects: seq<Rect>, height: int, x: int, ys: set<Row>)
    requires forall r | r in rects :: 0 <= r.y0 && r.y1 <= height
    requires forall y :: InSome(rects, Cell(x, y)) <==> Row(y) in ys
    ensures forall q | q in ys :: 0 <= q.y < height
  {
    forall q | q in ys ensures 0 <= q.y < height {
      assert InSome(rects, Cell(x, q.y));
      var r :| r in rects && InRect(r, Cell(x, q.y));
    }
  }

  lemma SplitCells(rects: seq<Rect>, height: int, a: int, b: int, c: int)
    requires a <= b <= c
    ensures |CellsBetween(rects, height, a, c)|
         == |CellsBetween(rects, height, a, b)| + |CellsBetween(rects, height, b, c)|
  {
    var left, right := CellsBetween(rects, height, a, b), CellsBetween(rects, height, b, c);
    assert CellsBetween(rects, height, a, c) == left + right;
    assert left !! right;
  }

  lemma SpansAreProper(rects: seq<Rect>, xa: int, xb: int)
    requires forall r | r in rects :: r.y0 < r.y1
    ensures ProperSpans(SlabSpans(rects, xa, xb))
  {
    var spans := SlabSpans(rects, xa, xb);
    forall i | 0 <= i < |spans| ensures spans[i].start < spans[i].end {
      assert spans[i] in spans;
    }
  }

  ghost predicate InFrame(rects: seq<Rect>, width: int, height: int) {
    forall r | r in rects :: 0 <= r.x0 < r.x1 <= width && 0 <= r.y0 < r.y1 <= height
  }

  /** The rectangles to sweep: unusable boxes skipped, the rest clipped. */
  method UsableRects(boxes: seq<Box>, width: int, height: int) returns (rects: seq<Rect>)
    ensures InFrame(rects, width, height)
    ensures forall c :: InSome(rects, c) <==> c in Frame(width, height) && CoveredBySome(boxes, c)
  {
    rects := [];
    for i := 0 to |boxes|
      invariant InFrame(rects, width, height)
      invariant forall c :: InSome(rects, c) <==> c in Frame(width, height) && CoveredBySome(boxes[..i], c)
    {
      var clipped := Clip(boxes[i], width, height);
      ghost var was := rects;
      if clipped.Some? {
        rects := rects + [clipped.value];
      }
      ExtendCover(boxes, i, width, height, was, rects);
    }
    assert boxes[..|boxes|] == boxes;
  }

  lemma SlabAdds(rects: seq<Rect>, height: int, a: int, xa: int, xb: int, spans: seq<Span>)
    requires forall r | r in rects :: 0 <= r.y0 && r.y1 <= height
    requires a <= xa < xb && NoEdgeInside(rects, xa, xb) && SpansOf(spans, rects, xa, xb)
    ensures |CellsBetween(rects, height, a, xb)|
         == |CellsBetween(rects, height, a, xa)| + Times(xb - xa, |SpanUnion(spans)|)
  {
    forall x, y | xa <= x < xb ensures InSome(rects, Cell(x, y)) <==> Row(y) in SpanUnion(spans) {
      SlabIsUniform(rects, xa, xb, spans, x, y);
    }
    NextSlab(rects, height, a, xa, xb, SpanUnion(spans));
  }

  method SlabArea(covered: int, xa: int, xb: int) returns (slab: int)
    requires xa < xb
    ensures slab == Times(xb - xa, covered)
  {
    TimesIsProduct(xb - xa, covered);
    slab := covered * (xb - xa);
  }

  /** Slab by slab: the covered length of a slab, times its width. */
  method SweepSlabs(rects: seq<Rect>, edges: seq<int>, ghost width: int, ghost height: int) returns (area: int)
    requires rects != [] && InFrame(rects, width, height) && EdgesOf(edges, rects)
    ensures area == |CellsBetween(rects, height, edges[0], edges[|edges| - 1])|
  {
    area := 0;
    assert CellsBetween(rects, height, edges[0], edges[0]) == {};
    for k := 0 to |edges| - 1
      invariant area == |CellsBetween(rects, height, edges[0], edges[k])|
    {
      var xa, xb := edges[k], edges[k + 1];
      var spans := SlabSpans(rects, xa, xb);
      SpansAreProper(rects, xa, xb);
      var covered := MergedLength(spans);
      NeighboursHaveNoEdgeInside(edges, rects, k);
      SlabAdds(rects, height, edges[0], xa, xb, spans);
      var slab := SlabArea(covered, xa, xb);
      area := area + slab;
    }
  }

  /** The sweep measures exactly the cells of the frame that some usable box covers. */
  method TextBoxUnionArea(boxes: seq<Box>, width: int, height: int) returns (area: int)
    ensures area == |CoveredCells(boxes, width, height)|
  {
    var rects := UsableRects(boxes, width, height);
    if rects == [] {
      assert forall c | c in CoveredCells(boxes, width, height) :: InSome(rects, c);
      assert CoveredCells(boxes, width, height) == {};
      return 0;
    }
    var edges := Edges(rects);
    EdgesOk(rects);
    area := SweepSlabs(rects, edges, width, height);
    EdgesSpanAll(rects, edges, boxes, width, height);
  }

  lemma ExtendCover(boxes: seq<Box>, i: nat, width: int, height: int, was: seq<Rect>, now: seq<Rect>)
    requires i < |boxes|
    requires forall c :: InSome(was, c) <==> c in Frame(width, height) && CoveredBySome(boxes[..i], c)
    requires var r := Clip(boxes[i], width, height); now == if r.Some? then was + [r.value] else was
    ensures forall c :: InSome(now, c) <==> c in Frame(width, height) && CoveredBySome(boxes[..i + 1], c)
  {
    var r := Clip(boxes[i], width, height);
    assert boxes[..i + 1] == boxes[..i] + [boxes[i]];
    forall c ensures InSome(now, c) <==> c in Frame(width, height) && CoveredBySome(boxes[..i + 1], c) {
      assert CoveredBySome(boxes[..i + 1], c) <==> CoveredBySome(boxes[..i], c) || Covers(boxes[i], c) by {
        if Covers(boxes[i], c) { assert boxes[i] in boxes[..i + 1]; }
        if CoveredBySome(boxes[..i], c) {
          var b :| b in boxes[..i] && Covers(b, c);
          assert b in boxes[..i + 1];
        }
      }
      assert InSome(now, c) <==> InSome(was, c) || (r.Some? && InRect(r.value, c)) by {
        if InSome(was, c) { var q :| q in was && InRect(q, c); assert q in now; }
        if r.Some? && InRect(r.value, c) { assert r.value in now; }
      }
    }
  }

  lemma EdgesSpanAll(rects: seq<Rect>, edges: seq<int>, boxes: seq<Box>, width: int, height: int)
    requires rects != [] && InFrame(rects, width, height) && EdgesOf(edges, rects)
    requires forall c :: InSome(rects, c) <==> c in Frame(width, height) && CoveredBySome(boxes, c)
    ensures CellsBetween(rects, height, edges[0], edges[|edges| - 1]) == CoveredCells(boxes, width, height)
  {
    var cells := CellsBetween(rects, height, edges[0], edges[|edges| - 1]);
    forall c | c in CoveredCells(boxes, width, height) ensures c in cells {
      var r :| r in rects && InRect(r, c);
      EdgeBounds(edges, r.x0);
      EdgeBounds(edges, r.x1);
    }
  }

  // ---- what follows for every list of boxes ----

  /** More boxes never measure less; so the same boxes in another order measure the same. */
  lemma UnionIsMonotone(a: seq<Box>, b: seq<Box>, width: int, height: int)
    requires forall x | x in a :: x in b
    ensures CoveredCells(a, width, height) <= CoveredCells(b, width, height)
    ensures |CoveredCells(a, width, height)| <= |CoveredCells(b, width, height)|
  {
    SubsetSize(CoveredCells(a, width, height), CoveredCells(b, width, height));
  }

  lemma OrderDoesNotMatter(a: seq<Box>, b: seq<Box>, width: int, height: int)
    requires multiset(a) == multiset(b)
    ensures CoveredCells(a, width, height) == CoveredCells(b, width, height)
  {
    forall x | x in a ensures x in b { assert x in multiset(a); }
    forall x | x in b ensures x in a { assert x in multiset(b); }
    UnionIsMonotone(a, b, width, height);
    UnionIsMonotone(b, a, width, height);
  }

  lemma {:induction false} SubsetSize(a: set<Cell>, b: set<Cell>)
    requires a <= b
    ensures |a| <= |b|
    decreases |a|
  {
    if a != {} {
      var x :| x in a;
      SubsetSize(a - {x}, b - {x});
    }
  }

  function RectArea(r: Option<Rect>): int {
    if r.None? then 0 else (r.value.x1 - r.value.x0) * (r.value.y1 - r.value.y0)
  }

  function AreaSum(boxes: seq<Box>, width: int, height: int): int {
    if boxes == [] then 0 else RectArea(Clip(boxes[0], width, height)) + AreaSum(boxes[1..], width, height)
  }

  ghost function RectCells(r: Rect): (cells: set<Cell>)
    ensures forall c :: c in cells <==> InRect(r, c)
  {
    set x, y | r.x0 <= x < r.x1 && r.y0 <= y < r.y1 :: Cell(x, y)
  }

  lemma RectSplit(r: Rect)
    requires r.x0 < r.x1
    ensures |RectCells(r)| == |RectCells(r.(x1 := r.x1 - 1))| + |Column(r.x1 - 1, Interval(r.y0, r.y1))|
  {
    var less, last := RectCells(r.(x1 := r.x1 - 1)), Column(r.x1 - 1, Interval(r.y0, r.y1));
    assert RectCells(r) == less + last;
    assert less !! last;
  }

  lemma {:induction false} RectSize(r: Rect)
    requires r.x0 <= r.x1 && r.y0 <= r.y1
    ensures |RectCells(r)| == Times(r.x1 - r.x0, r.y1 - r.y0)
    decreases r.x1 - r.x0
  {
    if r.x0 == r.x1 {
      assert RectCells(r) == {};
    } else {
      RectSize(r.(x1 := r.x1 - 1));
      RectSplit(r);
      ColumnSize(r.x1 - 1, Interval(r.y0, r.y1));
      IntervalSize(r.y0, r.y1);
    }
  }

  ghost function ClipCells(r: Option<Rect>): set<Cell> {
    if r.None? then {} else RectCells(r.value)
  }

  lemma ClipSize(box: Box, width: int, height: int)
    ensures |ClipCells(Clip(box, width, height))| == RectArea(Clip(box, width, height))
  {
    var r := Clip(box, width, height);
    if r.Some? {
      var q := r.value;
      RectSize(q);
      TimesIsProduct(q.x1 - q.x0, q.y1 - q.y0);
    }
  }

  /** Overlap is counted once: the union never measures more than the boxes one by one. */
  lemma {:induction false} UnionAtMostSum(boxes: seq<Box>, width: int, height: int)
    ensures |CoveredCells(boxes, width, height)| <= AreaSum(boxes, width, height)
    decreases |boxes|
  {
    if boxes == [] {
      assert CoveredCells(boxes, width, height) == {};
    } else {
      var here := ClipCells(Clip(boxes[0], width, height));
      ClipSize(boxes[0], width, height);
      UnionAtMostSum(boxes[1..], width, height);
      FirstBox(boxes, width, height, here);
      UnionSize(here, CoveredCells(boxes[1..], width, height));
    }
  }

  lemma FirstBox(boxes: seq<Box>, width: int, height: int, here: set<Cell>)
    requires boxes != []
    requires here == ClipCells(Clip(boxes[0], width, height))
    ensures CoveredCells(boxes, width, height) == here + CoveredCells(boxes[1..], width, height)
  {
    var rest := CoveredCells(boxes[1..], width, height);
    forall c | c in CoveredCells(boxes, width, height) ensures c in here + rest {
      var b :| b in boxes && Covers(b, c);
      if b != boxes[0] { assert b in boxes[1..]; }
    }
    forall c | c in here + rest ensures c in CoveredCells(boxes, width, height) {
      if c in rest {
        var b :| b in boxes[1..] && Covers(b, c);
        assert b in boxes;
      } else {
        assert boxes[0] in boxes && Covers(boxes[0], c);
      }
    }
  }

  lemma UnionSize(a: set<Cell>, b: set<Cell>)
    ensures |a + b| <= |a| + |b|
  {
    assert a + b == a + (b - a);
    SubsetSize(b - a, b);
  }

  /** So coverage never exceeds the frame. */
  lemma UnionAtMostFrame(boxes: seq<Box>, width: nat, height: nat)
    ensures |CoveredCells(boxes, width, height)| <= width * height
  {
    RectSize(Rect(0, 0, width, height));
    TimesIsProduct(width, height);
    SubsetSize(CoveredCells(boxes, width, height), RectCells(Rect(0, 0, width, height)));
  }
}
