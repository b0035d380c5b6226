/** The extrema pass of the reduction: for one label, the extreme rows and
    columns of its pixels and the eight boundary points on them, found with
    two scans that start from a -1 "not found yet" marker. */
module ExtremaPass {
  import opened LabelRecords

  const NotFound: int := -1

  function AnyPixel(p: Pixel2): bool { true }

  /** Picks the pixels of row `y`. */
  function OnRow(y: int): Pixel2 -> bool
  {
    (p: Pixel2) => p.y == y
  }

  /** Picks the pixels of column `x`. */
  function OnColumn(x: int): Pixel2 -> bool
  {
    (p: Pixel2) => p.x == x
  }

  /** `v` is the least `key` among the pixels `sel` picks, and one of them
      attains it. */
  ghost predicate IsLeastOf(v: int, s: seq<Pixel2>, sel: Pixel2 -> bool, key: Pixel2 -> int)
  {
    (exists p | p in s && sel(p) :: key(p) == v) && forall p | p in s && sel(p) :: v <= key(p)
  }

  ghost predicate IsGreatestOf(v: int, s: seq<Pixel2>, sel: Pixel2 -> bool, key: Pixel2 -> int)
  {
    (exists p | p in s && sel(p) :: key(p) == v) && forall p | p in s && sel(p) :: key(p) <= v
  }

  /** What a scan holds after the pixels `s`: the marker while nothing was
      picked, the least key once something was. */
  ghost predicate RunningLeast(v: int, s: seq<Pixel2>, sel: Pixel2 -> bool, key: Pixel2 -> int)
  {
    if exists p | p in s :: sel(p) then IsLeastOf(v, s, sel, key) else v == NotFound
  }

  ghost predicate RunningGreatest(v: int, s: seq<Pixel2>, sel: Pixel2 -> bool, key: Pixel2 -> int)
  {
    if exists p | p in s :: sel(p) then IsGreatestOf(v, s, sel, key) else v == NotFound
  }

  ghost predicate KeysNonNegative(s: seq<Pixel2>, sel: Pixel2 -> bool, key: Pixel2 -> int)
  {
    forall p | p in s && sel(p) :: 0 <= key(p)
  }

  /** One step of a minimum scan with the -1 marker. */
  lemma LeastStep(v: int, s: seq<Pixel2>, q: Pixel2, sel: Pixel2 -> bool, key: Pixel2 -> int)
    requires RunningLeast(v, s, sel, key)
    requires KeysNonNegative(s + [q], sel, key)
    ensures RunningLeast(if sel(q) && (v == NotFound || key(q) < v) then key(q) else v, s + [q], sel, key)
  {
    var t := s + [q];
    assert forall p | p in t :: p in s || p == q;
    assert forall p | p in s :: p in t;
    assert q in t;
    if exists p | p in s :: sel(p) {
      var w :| w in s && sel(w) && key(w) == v;
      assert w in t;
    }
  }

  /** One step of a maximum scan with the -1 marker. */
  lemma GreatestStep(v: int, s: seq<Pixel2>, q: Pixel2, sel: Pixel2 -> bool, key: Pixel2 -> int)
    requires RunningGreatest(v, s, sel, key)
    requires KeysNonNegative(s + [q], sel, key)
    ensures RunningGreatest(if sel(q) && (v == NotFound || key(q) > v) then key(q) else v, s + [q], sel, key)
  {
    var t := s + [q];
    assert forall p | p in t :: p in s || p == q;
    assert forall p | p in s :: p in t;
    assert q in t;
    if exists p | p in s :: sel(p) {
      var w :| w in s && sel(w) && key(w) == v;
      assert w in t;
    }
  }

  ghost predicate NonNegative(s: seq<Pixel2>)
  {
    forall p | p in s :: 0 <= p.x && 0 <= p.y
  }

  /** `e` names the extreme rows and columns of `s`. */
  ghost predicate SidesOf(e: ExtremaPoints, s: seq<Pixel2>)
  {
    && IsLeastOf(e.topMost, s, AnyPixel, PY)
    && IsGreatestOf(e.lowest, s, AnyPixel, PY)
    && IsLeastOf(e.leftMost, s, AnyPixel, PX)
    && IsGreatestOf(e.rightMost, s, AnyPixel, PX)
  }

  /** On each extreme row and column that `e` names, `e` names the extreme
      pixels in the other direction. */
  ghost predicate CornersOf(e: ExtremaPoints, s: seq<Pixel2>)
  {
    && IsLeastOf(e.topMostLeft, s, OnRow(e.topMost), PX)
    && IsGreatestOf(e.topMostRight, s, OnRow(e.topMost), PX)
    && IsLeastOf(e.lowestLeft, s, OnRow(e.lowest), PX)
    && IsGreatestOf(e.lowestRight, s, OnRow(e.lowest), PX)
    && IsLeastOf(e.leftMostTop, s, OnColumn(e.leftMost), PY)
    && IsGreatestOf(e.leftMostBottom, s, OnColumn(e.leftMost), PY)
    && IsLeastOf(e.rightMostTop, s, OnColumn(e.rightMost), PY)
    && IsGreatestOf(e.rightMostBottom, s, OnColumn(e.rightMost), PY)
  }

  /** `e` names the extreme rows and columns of `s` and, on each of them,
      the extreme pixel in the other direction. */
  ghost predicate Describes(e: ExtremaPoints, s: seq<Pixel2>)
  {
    SidesOf(e, s) && CornersOf(e, s)
  }

  /** The first scan: extreme rows and columns. */
  method ScanExtremes(pixels: seq<Pixel2>) returns (topMost: int, lowest: int, leftMost: int, rightMost: int)
    requires NonNegative(pixels)
    ensures RunningLeast(topMost, pixels, AnyPixel, PY)
    ensures RunningGreatest(lowest, pixels, AnyPixel, PY)
    ensures RunningLeast(leftMost, pixels, AnyPixel, PX)
    ensures RunningGreatest(rightMost, pixels, AnyPixel, PX)
  {
    topMost, lowest, leftMost, rightMost := NotFound, NotFound, NotFound, NotFound;
    for i := 0 to |pixels|
      invariant RunningLeast(topMost, pixels[..i], AnyPixel, PY)
      invariant RunningGreatest(lowest, pixels[..i], AnyPixel, PY)
      invariant RunningLeast(leftMost, pixels[..i], AnyPixel, PX)
      invariant RunningGreatest(rightMost, pixels[..i], AnyPixel, PX)
    {
      var pix := pixels[i];
      assert pixels[..i + 1] == pixels[..i] + [pix];
      LeastStep(topMost, pixels[..i], pix, AnyPixel, PY);
      GreatestStep(lowest, pixels[..i], pix, AnyPixel, PY);
      LeastStep(leftMost, pixels[..i], pix, AnyPixel, PX);
      GreatestStep(rightMost, pixels[..i], pix, AnyPixel, PX);
      if topMost == NotFound || pix.y < topMost {
        topMost := pix.y;
      }
      if lowest == NotFound || pix.y > lowest {
        lowest := pix.y;
      }
      if leftMost == NotFound || pix.x < leftMost {
        leftMost := pix.x;
      }
      if rightMost == NotFound || pix.x > rightMost {
        rightMost := pix.x;
      }
    }
    assert pixels[..|pixels|] == pixels;
  }

  /** The eight values the second scan keeps. */
  datatype Boundary = Boundary(
    topMostLeft: int, topMostRight: int, lowestLeft: int, lowestRight: int,
    leftMostTop: int, leftMostBottom: int, rightMostTop: int, rightMostBottom: int)

  /** After the pixels `s`, each value of the second scan holds the extreme
      it tracks among the pixels picked so far, or the marker. */
  ghost predicate BoundaryScanned(b: Boundary, s: seq<Pixel2>, topMost: int, lowest: int, leftMost: int, rightMost: int)
  {
    RowsScanned(b, s, topMost, lowest) && ColumnsScanned(b, s, leftMost, rightMost)
  }

  ghost predicate RowsScanned(b: Boundary, s: seq<Pixel2>, topMost: int, lowest: int)
  {
    && RunningLeast(b.topMostLeft, s, OnRow(topMost), PX)
    && RunningGreatest(b.topMostRight, s, OnRow(topMost), PX)
    && RunningLeast(b.lowestLeft, s, OnRow(lowest), PX)
    && RunningGreatest(b.lowestRight, s, OnRow(lowest), PX)
  }

  ghost predicate ColumnsScanned(b: Boundary, s: seq<Pixel2>, leftMost: int, rightMost: int)
  {
    && RunningLeast(b.leftMostTop, s, OnColumn(leftMost), PY)
    && RunningGreatest(b.leftMostBottom, s, OnColumn(leftMost), PY)
    && RunningLeast(b.rightMostTop, s, OnColumn(rightMost), PY)
    && RunningGreatest(b.rightMostBottom, s, OnColumn(rightMost), PY)
  }

  /** What one pixel does to the second scan's values. */
  function BoundaryStep(b: Boundary, pix: Pixel2, topMost: int, lowest: int, leftMost: int, rightMost: int): Boundary
  {
    Boundary(
      if pix.y == topMost && (b.topMostLeft == NotFound || pix.x < b.topMostLeft) then pix.x else b.topMostLeft,
      if pix.y == topMost && (b.topMostRight == NotFound || pix.x > b.topMostRight) then pix.x else b.topMostRight,
      if pix.y == lowest && (b.lowestLeft == NotFound || pix.x < b.lowestLeft) then pix.x else b.lowestLeft,
      if pix.y == lowest && (b.lowestRight == NotFound || pix.x > b.lowestRight) then pix.x else b.lowestRight,
      if pix.x == leftMost && (b.leftMostTop == NotFound || pix.y < b.leftMostTop) then pix.y else b.leftMostTop,
      if pix.x == leftMost && (b.leftMostBottom == NotFound || pix.y > b.leftMostBottom) then pix.y else b.leftMostBottom,
      if pix.x == rightMost && (b.rightMostTop == NotFound || pix.y < b.rightMostTop) then pix.y else b.rightMostTop,
      if pix.x == rightMost && (b.rightMostBottom == NotFound || pix.y > b.rightMostBottom) then pix.y else b.rightMostBottom)
  }

  lemma BoundaryStepKeeps(b: Boundary, s: seq<Pixel2>, q: Pixel2, topMost: int, lowest: int, leftMost: int, rightMost: int)
    requires BoundaryScanned(b, s, topMost, lowest, leftMost, rightMost)
    requires NonNegative(s + [q])
    ensures BoundaryScanned(BoundaryStep(b, q, topMost, lowest, leftMost, rightMost), s + [q], topMost, lowest, leftMost, rightMost)
  {
    var b' := BoundaryStep(b, q, topMost, lowest, leftMost, rightMost);
    RowsStepKeeps(b, b', s, q, topMost, lowest);
    ColumnsStepKeeps(b, b', s, q, leftMost, rightMost);
  }

  lemma RowsStepKeeps(b: Boundary, b': Boundary, s: seq<Pixel2>, q: Pixel2, topMost: int, lowest: int)
    requires RowsScanned(b, s, topMost, lowest) && NonNegative(s + [q])
    requires b'.topMostLeft == if q.y == topMost && (b.topMostLeft == NotFound || q.x < b.topMostLeft) then q.x else b.topMostLeft
    requires b'.topMostRight == if q.y == topMost && (b.topMostRight == NotFound || q.x > b.topMostRight) then q.x else b.topMostRight
    requires b'.lowestLeft == if q.y == lowest && (b.lowestLeft == NotFound || q.x < b.lowestLeft) then q.x else b.lowestLeft
    requires b'.lowestRight == if q.y == lowest && (b.lowestRight == NotFound || q.x > b.lowestRight) then q.x else b.lowestRight
    ensures RowsScanned(b', s + [q], topMost, lowest)
  {
    LeastStep(b.topMostLeft, s, q, OnRow(topMost), PX);
    GreatestStep(b.topMostRight, s, q, OnRow(topMost), PX);
    LeastStep(b.lowestLeft, s, q, OnRow(lowest), PX);
    GreatestStep(b.lowestRight, s, q, OnRow(lowest), PX);
  }

  lemma ColumnsStepKeeps(b: Boundary, b': Boundary, s: seq<Pixel2>, q: Pixel2, leftMost: int, rightMost: int)
    requires ColumnsScanned(b, s, leftMost, rightMost) && NonNegative(s + [q])
    requires b'.leftMostTop == if q.x == leftMost && (b.leftMostTop == NotFound || q.y < b.leftMostTop) then q.y else b.leftMostTop
    requires b'.leftMostBottom == if q.x == leftMost && (b.leftMostBottom == NotFound || q.y > b.leftMostBottom) then q.y else b.leftMostBottom
    requires b'.rightMostTop == if q.x == rightMost && (b.rightMostTop == NotFound || q.y < b.rightMostTop) then q.y else b.rightMostTop
    requires b'.rightMostBottom == if q.x == rightMost && (b.rightMostBottom == NotFound || q.y > b.rightMostBottom) then q.y else b.rightMostBottom
    ensures ColumnsScanned(b', s + [q], leftMost, rightMost)
  {
    LeastStep(b.leftMostTop, s, q, OnColumn(leftMost), PY);
    GreatestStep(b.leftMostBottom, s, q, OnColumn(leftMost), PY);
    LeastStep(b.rightMostTop, s, q, OnColumn(rightMost), PY);
    GreatestStep(b.rightMostBottom, s, q, OnColumn(rightMost), PY);
  }

  /** The second scan: on the extreme rows and columns, the extreme pixels
      in the other direction; `b` carries its eight running values. */
  method ScanBoundary(pixels: seq<Pixel2>, topMost: int, lowest: int, leftMost: int, rightMost: int)
    returns (b: Boundary)
    requires NonNegative(pixels)
    ensures BoundaryScanned(b, pixels, topMost, lowest, leftMost, rightMost)
  {
    b := Boundary(NotFound, NotFound, NotFound, NotFound, NotFound, NotFound, NotFound, NotFound);
    for i := 0 to |pixels|
      invariant BoundaryScanned(b, pixels[..i], topMost, lowest, leftMost, rightMost)
    {
      var pix := pixels[i];
      assert pixels[..i + 1] == pixels[..i] + [pix];
      BoundaryStepKeeps(b, pixels[..i], pix, topMost, lowest, leftMost, rightMost);
      b := BoundaryStep(b, pix, topMost, lowest, leftMost, rightMost);
    }
    assert pixels[..|pixels|] == pixels;
  }

  /** On a non-empty buffer the first scan finds real extremes. */
  lemma SidesFound(e: ExtremaPoints, s: seq<Pixel2>)
    requires s != []
    requires RunningLeast(e.topMost, s, AnyPixel, PY) && RunningGreatest(e.lowest, s, AnyPixel, PY)
    requires RunningLeast(e.leftMost, s, AnyPixel, PX) && RunningGreatest(e.rightMost, s, AnyPixel, PX)
    ensures SidesOf(e, s)
  {
    assert s[0] in s && AnyPixel(s[0]);
  }

  /** A row holding an attained extreme is not empty. */
  lemma RowIsOccupied(y: int, s: seq<Pixel2>)
    requires exists p | p in s && AnyPixel(p) :: PY(p) == y
    ensures exists p | p in s :: OnRow(y)(p)
  {
    var p :| p in s && AnyPixel(p) && PY(p) == y;
    assert OnRow(y)(p);
  }

  lemma ColumnIsOccupied(x: int, s: seq<Pixel2>)
    requires exists p | p in s && AnyPixel(p) :: PX(p) == x
    ensures exists p | p in s :: OnColumn(x)(p)
  {
    var p :| p in s && AnyPixel(p) && PX(p) == x;
    assert OnColumn(x)(p);
  }

  /** Once the sides are real, the second scan finds real corners. */
  lemma CornersFound(e: ExtremaPoints, s: seq<Pixel2>)
    requires SidesOf(e, s)
    requires BoundaryScanned(Boundary(e.topMostLeft, e.topMostRight, e.lowestLeft, e.lowestRight,
                                      e.leftMostTop, e.leftMostBottom, e.rightMostTop, e.rightMostBottom),
                             s, e.topMost, e.lowest, e.leftMost, e.rightMost)
    ensures CornersOf(e, s)
  {
    RowIsOccupied(e.topMost, s);
    RowIsOccupied(e.lowest, s);
    ColumnIsOccupied(e.leftMost, s);
    ColumnIsOccupied(e.rightMost, s);
  }

  /** The extrema of one label's pixels (both scans). An empty buffer leaves
      every coordinate at the -1 marker. */
  method FindExtrema(pixels: seq<Pixel2>) returns (e: ExtremaPoints)
    requires NonNegative(pixels)
    ensures pixels == [] ==> e == ExtremaPoints(-1, -1, -1, -1, -1, -1, -1, -1, -1, -1, -1, -1)
    ensures pixels != [] ==> Describes(e, pixels)
  {
    var topMost, lowest, leftMost, rightMost := ScanExtremes(pixels);
    var b := ScanBoundary(pixels, topMost, lowest, leftMost, rightMost);
    e := ExtremaPoints(topMost, lowest, leftMost, rightMost,
                       b.topMostLeft, b.topMostRight, b.lowestLeft, b.lowestRight,
                       b.leftMostTop, b.leftMostBottom, b.rightMostTop, b.rightMostBottom);
    if pixels != [] {
      SidesFound(e, pixels);
      CornersFound(e, pixels);
    }
  }

  /** The eight extrema points P1..P8 as (x, y), clockwise from the left
      end of the top row. */
  function ExtremaPointsXY(e: ExtremaPoints): (pts: seq<(int, int)>)
    ensures |pts| == 8
    ensures pts[0].1 == pts[1].1 == e.topMost && pts[4].1 == pts[5].1 == e.lowest
    ensures pts[2].0 == pts[3].0 == e.rightMost && pts[6].0 == pts[7].0 == e.leftMost
  {
    [(e.topMostLeft, e.topMost), (e.topMostRight, e.topMost),
     (e.rightMost, e.rightMostTop), (e.rightMost, e.rightMostBottom),
     (e.lowestRight, e.lowest), (e.lowestLeft, e.lowest),
     (e.leftMost, e.leftMostBottom), (e.leftMost, e.leftMostTop)]
  }

  ghost predicate IsPixelAt(s: seq<Pixel2>, pt: (int, int))
  {
    exists p | p in s :: p.x == pt.0 && p.y == pt.1
  }

  lemma RowWitness(v: int, y: int, s: seq<Pixel2>)
    requires exists p | p in s && OnRow(y)(p) :: PX(p) == v
    ensures IsPixelAt(s, (v, y))
  {
    var p :| p in s && OnRow(y)(p) && PX(p) == v;
  }

  lemma ColumnWitness(v: int, x: int, s: seq<Pixel2>)
    requires exists p | p in s && OnColumn(x)(p) :: PY(p) == v
    ensures IsPixelAt(s, (x, v))
  {
    var p :| p in s && OnColumn(x)(p) && PY(p) == v;
  }

  lemma RowPointsArePixels(e: ExtremaPoints, s: seq<Pixel2>)
    requires CornersOf(e, s)
    ensures forall k | k in {0, 1, 4, 5} :: IsPixelAt(s, ExtremaPointsXY(e)[k])
  {
    RowWitness(e.topMostLeft, e.topMost, s);
    RowWitness(e.topMostRight, e.topMost, s);
    RowWitness(e.lowestRight, e.lowest, s);
    RowWitness(e.lowestLeft, e.lowest, s);
  }

  lemma ColumnPointsArePixels(e: ExtremaPoints, s: seq<Pixel2>)
    requires CornersOf(e, s)
    ensures forall k | k in {2, 3, 6, 7} :: IsPixelAt(s, ExtremaPointsXY(e)[k])
  {
    ColumnWitness(e.rightMostTop, e.rightMost, s);
    ColumnWitness(e.rightMostBottom, e.rightMost, s);
    ColumnWitness(e.leftMostBottom, e.leftMost, s);
    ColumnWitness(e.leftMostTop, e.leftMost, s);
  }

  /** Each of the eight points is a pixel of the label. */
  lemma ExtremaPointsArePixels(e: ExtremaPoints, s: seq<Pixel2>)
    requires CornersOf(e, s)
    ensures forall k | 0 <= k < 8 :: IsPixelAt(s, ExtremaPointsXY(e)[k])
  {
    RowPointsArePixels(e, s);
    ColumnPointsArePixels(e, s);
    forall k | 0 <= k < 8 ensures IsPixelAt(s, ExtremaPointsXY(e)[k]) {
      assert k in {0, 1, 4, 5} || k in {2, 3, 6, 7};
    }
  }

  /** Every pixel lies between the extreme rows and columns. */
  lemma PixelsWithinExtremes(e: ExtremaPoints, s: seq<Pixel2>)
    requires Describes(e, s)
    ensures forall p | p in s :: e.leftMost <= p.x <= e.rightMost && e.topMost <= p.y <= e.lowest
  {
    forall p | p in s ensures e.leftMost <= p.x <= e.rightMost && e.topMost <= p.y <= e.lowest {
      assert AnyPixel(p) && PX(p) == p.x && PY(p) == p.y;
    }
  }

  /** A least value and a lower bound that is attained coincide. */
  lemma LeastIsAttainedBound(v: int, side: int, s: seq<Pixel2>, key: Pixel2 -> int)
    requires IsLeastOf(v, s, AnyPixel, key)
    requires (exists p | p in s :: key(p) == side) && forall p | p in s :: side <= key(p)
    ensures v == side
  {
    var p :| p in s && key(p) == side;
    assert AnyPixel(p);
    var q :| q in s && AnyPixel(q) && key(q) == v;
  }

  lemma GreatestIsAttainedBound(v: int, side: int, s: seq<Pixel2>, key: Pixel2 -> int)
    requires IsGreatestOf(v, s, AnyPixel, key)
    requires (exists p | p in s :: key(p) == side) && forall p | p in s :: key(p) <= side
    ensures v == side
  {
    var p :| p in s && key(p) == side;
    assert AnyPixel(p);
    var q :| q in s && AnyPixel(q) && key(q) == v;
  }

  /** The extreme rows and columns are the sides of the label's bounding
      box, which the online pass kept independently. */
  lemma ExtremesMatchBox(r: LabelRecord, e: ExtremaPoints)
    requires Accumulates(r) && Describes(e, r.rawPixels)
    ensures e.topMost == r.aabb.ymin && e.lowest == r.aabb.ymax
    ensures e.leftMost == r.aabb.xmin && e.rightMost == r.aabb.xmax
  {
    var s, b := r.rawPixels, r.aabb;
    assert forall p | p in s :: PX(p) == p.x && PY(p) == p.y;
    var p1 :| p1 in s && p1.y == b.ymin;
    assert PY(p1) == b.ymin;
    LeastIsAttainedBound(e.topMost, b.ymin, s, PY);
    var p2 :| p2 in s && p2.y == b.ymax;
    assert PY(p2) == b.ymax;
    GreatestIsAttainedBound(e.lowest, b.ymax, s, PY);
    var p3 :| p3 in s && p3.x == b.xmin;
    assert PX(p3) == b.xmin;
    LeastIsAttainedBound(e.leftMost, b.xmin, s, PX);
    var p4 :| p4 in s && p4.x == b.xmax;
    assert PX(p4) == b.xmax;
    GreatestIsAttainedBound(e.rightMost, b.xmax, s, PX);
  }

  lemma LeastIsUnique(v1: int, v2: int, s: seq<Pixel2>, sel: Pixel2 -> bool, key: Pixel2 -> int)
    requires IsLeastOf(v1, s, sel, key) && IsLeastOf(v2, s, sel, key)
    ensures v1 == v2
  {
    var p1 :| p1 in s && sel(p1) && key(p1) == v1;
    var p2 :| p2 in s && sel(p2) && key(p2) == v2;
  }

  lemma GreatestIsUnique(v1: int, v2: int, s: seq<Pixel2>, sel: Pixel2 -> bool, key: Pixel2 -> int)
    requires IsGreatestOf(v1, s, sel, key) && IsGreatestOf(v2, s, sel, key)
    ensures v1 == v2
  {
    var p1 :| p1 in s && sel(p1) && key(p1) == v1;
    var p2 :| p2 in s && sel(p2) && key(p2) == v2;
  }

  /** The extrema are determined by the pixels: two descriptions of the
      same pixels agree, whatever order the scans met them in. */
  lemma DescribesIsUnique(e1: ExtremaPoints, e2: ExtremaPoints, s: seq<Pixel2>)
    requires Describes(e1, s) && Describes(e2, s)
    ensures e1 == e2
  {
    LeastIsUnique(e1.topMost, e2.topMost, s, AnyPixel, PY);
    GreatestIsUnique(e1.lowest, e2.lowest, s, AnyPixel, PY);
    LeastIsUnique(e1.leftMost, e2.leftMost, s, AnyPixel, PX);
    GreatestIsUnique(e1.rightMost, e2.rightMost, s, AnyPixel, PX);
    LeastIsUnique(e1.topMostLeft, e2.topMostLeft, s, OnRow(e1.topMost), PX);
    GreatestIsUnique(e1.topMostRight, e2.topMostRight, s, OnRow(e1.topMost), PX);
    LeastIsUnique(e1.lowestLeft, e2.lowestLeft, s, OnRow(e1.lowest), PX);
    GreatestIsUnique(e1.lowestRight, e2.lowestRight, s, OnRow(e1.lowest), PX);
    LeastIsUnique(e1.leftMostTop, e2.leftMostTop, s, OnColumn(e1.leftMost), PY);
    GreatestIsUnique(e1.leftMostBottom, e2.leftMostBottom, s, OnColumn(e1.leftMost), PY);
    LeastIsUnique(e1.rightMostTop, e2.rightMostTop, s, OnColumn(e1.rightMost), PY);
    GreatestIsUnique(e1.rightMostBottom, e2.rightMostBottom, s, OnColumn(e1.rightMost), PY);
  }
}
