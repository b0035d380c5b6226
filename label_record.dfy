/** The per-label record of the online pass (the source's `LR`), kept as a value:
    the buffered pixels and the integer summaries maintained beside them as each
    pixel of the label arrives. Floating-point cumulants are not part of it. */
module LabelRecords {

  datatype Option<T> = None | Some(value: T)

  /** One buffered observation of the label: position and intensity. */
  datatype Pixel2 = Pixel2(x: int, y: int, inten: nat)

  /** Axis-aligned bounding box (xmin, xmax, ymin, ymax). */
  datatype AABB = AABB(xmin: int, xmax: int, ymin: int, ymax: int)

  /** Coordinates found by the extrema pass: the extreme rows and columns and,
      on each of them, the extreme pixel in the other direction. */
  datatype ExtremaPoints = ExtremaPoints(
    topMost: int, lowest: int, leftMost: int, rightMost: int,
    topMostLeft: int, topMostRight: int, lowestLeft: int, lowestRight: int,
    leftMostTop: int, leftMostBottom: int, rightMostTop: int, rightMostBottom: int)

  /** What the contour, convex-hull and hexagonality passes leave in a record:
      the number of contour pixels, the number of hull vertices, and the
      hexagonality result (None until that pass has computed one). The values
      themselves come from modules outside this model. */
  datatype ShapeFields = ShapeFields(contourLen: nat, hullLen: nat, hexagonality: Option<int>)

  datatype LabelRecord = LabelRecord(
    rawPixels: seq<Pixel2>,
    pixelCountRoiArea: nat,
    auxPrevCount: nat,
    minIntensity: int,
    maxIntensity: int,
    massEnergy: int,
    auxPrevIntens: nat,
    centroidX: int,
    centroidY: int,
    histogram: multiset<nat>,
    aabb: AABB,
    numNeighbors: nat,
    extrema: Option<ExtremaPoints>,
    shape: ShapeFields)

  /** Box of a single pixel (`init_x`, `init_y`). */
  function InitAABB(x: int, y: int): AABB
  {
    AABB(x, x, y, y)
  }

  /** Widens the box to take in (x, y) (`update_x`, `update_y`). */
  function UpdateAABB(b: AABB, x: int, y: int): AABB
  {
    AABB(if x < b.xmin then x else b.xmin, if x > b.xmax then x else b.xmax,
         if y < b.ymin then y else b.ymin, if y > b.ymax then y else b.ymax)
  }

  function PX(p: Pixel2): int { p.x }
  function PY(p: Pixel2): int { p.y }
  function PSquare(p: Pixel2): int { p.inten * p.inten }

  /** Sum of `f` over the pixels. */
  function SumOf(s: seq<Pixel2>, f: Pixel2 -> int): int
  {
    if s == [] then 0 else SumOf(s[..|s| - 1], f) + f(s[|s| - 1])
  }

  /** The intensities of the pixels, as the histogram receives them. */
  function Intensities(s: seq<Pixel2>): multiset<nat>
  {
    if s == [] then multiset{} else Intensities(s[..|s| - 1]) + multiset{s[|s| - 1].inten}
  }

  ghost predicate IsMinIntensity(m: int, s: seq<Pixel2>)
  {
    (exists p | p in s :: p.inten == m) && forall p | p in s :: m <= p.inten
  }

  ghost predicate IsMaxIntensity(m: int, s: seq<Pixel2>)
  {
    (exists p | p in s :: p.inten == m) && forall p | p in s :: p.inten <= m
  }

  /** `b` is the smallest box holding every pixel: it contains them all and
      each of its four sides is touched by one of them. */
  ghost predicate IsBoxOf(b: AABB, s: seq<Pixel2>)
  {
    && (forall p | p in s :: b.xmin <= p.x <= b.xmax && b.ymin <= p.y <= b.ymax)
    && (exists p | p in s :: p.x == b.xmin)
    && (exists p | p in s :: p.x == b.xmax)
    && (exists p | p in s :: p.y == b.ymin)
    && (exists p | p in s :: p.y == b.ymax)
  }

  /** The running tallies of a record: count, last-pixel bookkeeping, the
      energy and centroid sums (with the one-off +1 from the first pixel)
      and the histogram's observations. */
  ghost predicate Tallies(r: LabelRecord)
  {
    var s := r.rawPixels;
    && |s| > 0
    && r.pixelCountRoiArea == |s|
    && r.auxPrevCount == |s| - 1
    && r.auxPrevIntens == s[|s| - 1].inten
    && r.massEnergy == SumOf(s, PSquare)
    && r.centroidX == 1 + SumOf(s, PX)
    && r.centroidY == 1 + SumOf(s, PY)
    && r.histogram == Intensities(s)
  }

  /** The running bounds of a record: intensity range and bounding box. */
  ghost predicate Bounds(r: LabelRecord)
  {
    && IsMinIntensity(r.minIntensity, r.rawPixels)
    && IsMaxIntensity(r.maxIntensity, r.rawPixels)
    && IsBoxOf(r.aabb, r.rawPixels)
  }

  /** What the record's online fields mean in terms of its buffered pixels. */
  ghost predicate Accumulates(r: LabelRecord)
  {
    Tallies(r) && Bounds(r)
  }

  /** Record for the first pixel of a label (`init_label_record`); the
      centroid sums are seeded 1-based. */
  function InitLabelRecord(x: int, y: int, intensity: nat): (r: LabelRecord)
    ensures r.rawPixels == [Pixel2(x, y, intensity)]
    ensures Accumulates(r)
    ensures r.numNeighbors == 0 && r.extrema == None && r.shape == ShapeFields(0, 0, None)
  {
    LabelRecord(
      rawPixels := [Pixel2(x, y, intensity)],
      pixelCountRoiArea := 1,
      auxPrevCount := 0,
      minIntensity := intensity,
      maxIntensity := intensity,
      massEnergy := intensity * intensity,
      auxPrevIntens := intensity,
      centroidX := x + 1,
      centroidY := y + 1,
      histogram := multiset{intensity},
      aabb := InitAABB(x, y),
      numNeighbors := 0,
      extrema := None,
      shape := ShapeFields(0, 0, None))
  }

  /** Folds one more pixel into a record (`update_label_record`); the
      centroid sums now take the raw 0-based coordinates. */
  function UpdateLabelRecord(lr: LabelRecord, x: int, y: int, intensity: nat): (r: LabelRecord)
    ensures r.rawPixels == lr.rawPixels + [Pixel2(x, y, intensity)]
    ensures r.numNeighbors == lr.numNeighbors && r.extrema == lr.extrema && r.shape == lr.shape
  {
    lr.(
      rawPixels := lr.rawPixels + [Pixel2(x, y, intensity)],
      auxPrevCount := lr.pixelCountRoiArea,
      pixelCountRoiArea := lr.pixelCountRoiArea + 1,
      minIntensity := if lr.minIntensity < intensity then lr.minIntensity else intensity,
      maxIntensity := if lr.maxIntensity > intensity then lr.maxIntensity else intensity,
      massEnergy := lr.massEnergy + intensity * intensity,
      centroidX := lr.centroidX + x,
      centroidY := lr.centroidY + y,
      histogram := lr.histogram + multiset{intensity},
      auxPrevIntens := intensity,
      aabb := UpdateAABB(lr.aabb, x, y))
  }

  lemma MinIntensityStep(m: int, s: seq<Pixel2>, q: Pixel2)
    requires IsMinIntensity(m, s)
    ensures IsMinIntensity(if m < q.inten then m else q.inten, s + [q])
  {
    if m >= q.inten {
      assert q in s + [q];
    } else {
      var w :| w in s && w.inten == m;
      assert w in s + [q];
    }
  }

  lemma MaxIntensityStep(m: int, s: seq<Pixel2>, q: Pixel2)
    requires IsMaxIntensity(m, s)
    ensures IsMaxIntensity(if m > q.inten then m else q.inten, s + [q])
  {
    if m <= q.inten {
      assert q in s + [q];
    } else {
      var w :| w in s && w.inten == m;
      assert w in s + [q];
    }
  }

  /** Widening the box of `s` by one more pixel gives the box of the grown
      buffer. */
  lemma BoxStep(b: AABB, s: seq<Pixel2>, q: Pixel2)
    requires IsBoxOf(b, s)
    ensures IsBoxOf(UpdateAABB(b, q.x, q.y), s + [q])
  {
    var t, b' := s + [q], UpdateAABB(b, q.x, q.y);
    assert q in t;
    if q.x >= b.xmin {
      var w :| w in s && w.x == b.xmin;
      assert w in t && w.x == b'.xmin;
    }
    if q.x <= b.xmax {
      var w :| w in s && w.x == b.xmax;
      assert w in t && w.x == b'.xmax;
    }
    if q.y >= b.ymin {
      var w :| w in s && w.y == b.ymin;
      assert w in t && w.y == b'.ymin;
    }
    if q.y <= b.ymax {
      var w :| w in s && w.y == b.ymax;
      assert w in t && w.y == b'.ymax;
    }
  }

  lemma SnocSums(s: seq<Pixel2>, q: Pixel2)
    ensures SumOf(s + [q], PSquare) == SumOf(s, PSquare) + q.inten * q.inten
    ensures SumOf(s + [q], PX) == SumOf(s, PX) + q.x
    ensures SumOf(s + [q], PY) == SumOf(s, PY) + q.y
    ensures Intensities(s + [q]) == Intensities(s) + multiset{q.inten}
  {
    assert (s + [q])[..|s|] == s;
  }

  lemma UpdateTallies(lr: LabelRecord, x: int, y: int, intensity: nat)
    requires Tallies(lr)
    ensures Tallies(UpdateLabelRecord(lr, x, y, intensity))
  {
    SnocSums(lr.rawPixels, Pixel2(x, y, intensity));
  }

  lemma UpdateBounds(lr: LabelRecord, x: int, y: int, intensity: nat)
    requires Bounds(lr)
    ensures Bounds(UpdateLabelRecord(lr, x, y, intensity))
  {
    var s, q := lr.rawPixels, Pixel2(x, y, intensity);
    MinIntensityStep(lr.minIntensity, s, q);
    MaxIntensityStep(lr.maxIntensity, s, q);
    BoxStep(lr.aabb, s, q);
  }

  /** Folding a pixel into a record keeps every summary field in step with
      the grown buffer. */
  lemma UpdateLabelRecordAccumulates(lr: LabelRecord, x: int, y: int, intensity: nat)
    requires Accumulates(lr)
    ensures Accumulates(UpdateLabelRecord(lr, x, y, intensity))
  {
    UpdateTallies(lr, x, y, intensity);
    UpdateBounds(lr, x, y, intensity);
  }

  /** The record a label has after its pixels arrived in the order of `s`. */
  function Build(s: seq<Pixel2>): (r: LabelRecord)
    requires |s| > 0
    ensures r.rawPixels == s && Accumulates(r)
  {
    if |s| == 1 then InitLabelRecord(s[0].x, s[0].y, s[0].inten)
    else
      var last := s[|s| - 1];
      assert s == s[..|s| - 1] + [last];
      UpdateLabelRecordAccumulates(Build(s[..|s| - 1]), last.x, last.y, last.inten);
      UpdateLabelRecord(Build(s[..|s| - 1]), last.x, last.y, last.inten)
  }

  /** The fields of a record that summarise its pixels as a collection. */
  datatype Summary = Summary(count: nat, minIntensity: int, maxIntensity: int, massEnergy: int,
                             centroidX: int, centroidY: int, histogram: multiset<nat>, aabb: AABB)

  function SummaryOf(r: LabelRecord): Summary
  {
    Summary(r.pixelCountRoiArea, r.minIntensity, r.maxIntensity, r.massEnergy,
            r.centroidX, r.centroidY, r.histogram, r.aabb)
  }

  lemma {:induction false} SumOfConcat(a: seq<Pixel2>, b: seq<Pixel2>, f: Pixel2 -> int)
    ensures SumOf(a + b, f) == SumOf(a, f) + SumOf(b, f)
    decreases |b|
  {
    if b == [] {
      assert a + b == a;
    } else {
      var n := |b| - 1;
      assert (a + b)[..|a + b| - 1] == a + b[..n];
      assert (a + b)[|a + b| - 1] == b[n];
      SumOfConcat(a, b[..n], f);
    }
  }

  lemma {:induction false} IntensitiesConcat(a: seq<Pixel2>, b: seq<Pixel2>)
    ensures Intensities(a + b) == Intensities(a) + Intensities(b)
    decreases |b|
  {
    if b == [] {
      assert a + b == a;
    } else {
      var n := |b| - 1;
      assert (a + b)[..|a + b| - 1] == a + b[..n];
      assert (a + b)[|a + b| - 1] == b[n];
      IntensitiesConcat(a, b[..n]);
    }
  }

  /** Removing one occurrence of the last pixel of `a` from `b`, when the two
      hold the same pixels. */
  lemma SplitAt<T>(a: seq<T>, b: seq<T>) returns (j: nat)
    requires a != [] && multiset(a) == multiset(b)
    ensures j < |b| && b[j] == a[|a| - 1]
    ensures b == b[..j] + [b[j]] + b[j + 1..]
    ensures multiset(a[..|a| - 1]) == multiset(b[..j] + b[j + 1..])
  {
    var n := |a| - 1;
    assert a == a[..n] + [a[n]];
    assert a[n] in multiset(b);
    j :| 0 <= j < |b| && b[j] == a[n];
    var left, right := b[..j], b[j + 1..];
    assert b == left + [b[j]] + right;
    assert multiset(a) == multiset(a[..n]) + multiset{a[n]};
    assert multiset(b) == multiset(left) + multiset{b[j]} + multiset(right);
    assert multiset(left + right) == multiset(left) + multiset(right);
    CancelOne(multiset(a[..n]), multiset(left + right), a[n]);
  }

  lemma CancelOne<T>(A: multiset<T>, B: multiset<T>, x: T)
    requires A + multiset{x} == B + multiset{x}
    ensures A == B
  {
    forall z ensures A[z] == B[z] {
      assert (A + multiset{x})[z] == (B + multiset{x})[z];
    }
  }

  /** A sum over the pixels does not depend on their order. */
  lemma {:induction false} SumOfPermutation(a: seq<Pixel2>, b: seq<Pixel2>, f: Pixel2 -> int)
    requires multiset(a) == multiset(b)
    ensures SumOf(a, f) == SumOf(b, f)
    decreases |a|
  {
    if a != [] {
      var j := SplitAt(a, b);
      var left, x, right := b[..j], b[j], b[j + 1..];
      SumOfPermutation(a[..|a| - 1], left + right, f);
      SumOfConcat(left, [x] + right, f);
      SumOfConcat([x], right, f);
      SumOfConcat(left, right, f);
      assert SumOf([x], f) == f(x) by {
        assert [x][..0] == [];
      }
      assert left + ([x] + right) == b;
    }
    else {
      assert |b| == |multiset(b)| == 0;
    }
  }

  /** The last step of the permutation argument for intensities: `a` minus
      its last pixel `x` holds what `left + right` holds. */
  lemma IntensitiesStep(a: seq<Pixel2>, b: seq<Pixel2>, left: seq<Pixel2>, x: Pixel2, right: seq<Pixel2>)
    requires a != [] && a[|a| - 1] == x && b == left + [x] + right
    requires Intensities(a[..|a| - 1]) == Intensities(left + right)
    ensures Intensities(a) == Intensities(b)
  {
    IntensitiesConcat(left + [x], right);
    IntensitiesConcat(left, right);
    assert (left + [x])[..|left|] == left;
  }

  /** Nor does the multiset of their intensities. */
  lemma {:induction false} IntensitiesPermutation(a: seq<Pixel2>, b: seq<Pixel2>)
    requires multiset(a) == multiset(b)
    ensures Intensities(a) == Intensities(b)
    decreases |a|
  {
    if a != [] {
      var j := SplitAt(a, b);
      var left, x, right := b[..j], b[j], b[j + 1..];
      IntensitiesPermutation(a[..|a| - 1], left + right);
      IntensitiesStep(a, b, left, x, right);
    }
    else {
      assert |b| == |multiset(b)| == 0;
    }
  }

  /** Two records whose buffers hold the same pixels, in whatever order they
      arrived, agree on count, extrema of intensity, energy, centroid sums,
      histogram and bounding box. */
  lemma {:induction false} SummaryIsOrderIndependent(r1: LabelRecord, r2: LabelRecord)
    requires Accumulates(r1) && Accumulates(r2)
    requires multiset(r1.rawPixels) == multiset(r2.rawPixels)
    ensures SummaryOf(r1) == SummaryOf(r2)
  {
    var s1, s2 := r1.rawPixels, r2.rawPixels;
    assert |s1| == |multiset(s1)| == |multiset(s2)| == |s2|;
    assert forall p :: p in s1 <==> p in s2 by {
      forall p ensures p in s1 <==> p in s2 {
        assert p in s1 <==> p in multiset(s1);
        assert p in s2 <==> p in multiset(s2);
      }
    }
    SumOfPermutation(s1, s2, PSquare);
    SumOfPermutation(s1, s2, PX);
    SumOfPermutation(s1, s2, PY);
    IntensitiesPermutation(s1, s2);
  }

  /** Feeding the same pixels in any order gives the same summary. */
  lemma {:induction false} BuildIsOrderIndependent(s1: seq<Pixel2>, s2: seq<Pixel2>)
    requires |s1| > 0 && multiset(s1) == multiset(s2)
    ensures |s2| > 0 && SummaryOf(Build(s1)) == SummaryOf(Build(s2))
  {
    assert |s2| == |multiset(s2)| == |multiset(s1)| == |s1|;
    SummaryIsOrderIndependent(Build(s1), Build(s2));
  }

  /** One ROI with pixels (0,0,5), (1,0,15), (0,1,25). */
  lemma ThreePixelScenario()
    ensures var r := Build([Pixel2(0, 0, 5), Pixel2(1, 0, 15), Pixel2(0, 1, 25)]);
      && r.pixelCountRoiArea == 3
      && r.minIntensity == 5 && r.maxIntensity == 25
      && r.massEnergy == 875
      && r.centroidX == 2 && r.centroidY == 2
      && r.aabb == AABB(0, 1, 0, 1)
  {
    var s := [Pixel2(0, 0, 5), Pixel2(1, 0, 15), Pixel2(0, 1, 25)];
    assert s[..2] == [Pixel2(0, 0, 5), Pixel2(1, 0, 15)];
    assert s[..2][..1] == [Pixel2(0, 0, 5)];
  }
}
