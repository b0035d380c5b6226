/** The reduction run once a file pair has been scanned (`reduce_all_labels`):
    a fixed sequence of stages over every label record, some of them switched
    on or off by the feature gate. Stages whose numerics live in modules
    outside this model (ellipse fitting, Feret/Martin/Nassenstein statistics,
    textures) appear only as the fact that they ran; the contour and hull
    modules appear as functions giving their sizes, and the hexagonality
    module as a function of the neighbour count, the area and the contour
    and hull sizes. */
module Reduction {
  import opened FeatureCodes
  import opened LabelRecords
  import opened Registry
  import opened ExtremaPass
  import opened FeatureGate
  import Neighbors

  datatype Stage =
    | IntensityStats
    | NeighborCount
    | EllipseFit
    | ContourHull
    | ExtremaEuler
    | FeretDiameters
    | MartinDiameters
    | NassensteinDiameters
    | ShapeCircles
    | HaralickTexture
    | ZernikeMoments

  /** The stages in the order the reduction runs them. */
  const STAGE_ORDER: seq<Stage> :=
    [IntensityStats] + [NeighborCount] + [EllipseFit] + [ContourHull] + [ExtremaEuler] + [FeretDiameters]
    + [MartinDiameters] + [NassensteinDiameters] + [ShapeCircles] + [HaralickTexture] + [ZernikeMoments]

  /** Position of a stage in the run. */
  function Rank(st: Stage): nat
  {
    match st
    case IntensityStats => 0
    case NeighborCount => 1
    case EllipseFit => 2
    case ContourHull => 3
    case ExtremaEuler => 4
    case FeretDiameters => 5
    case MartinDiameters => 6
    case NassensteinDiameters => 7
    case ShapeCircles => 8
    case HaralickTexture => 9
    case ZernikeMoments => 10
  }

  /** The collision radius the neighbour stage is run with. */
  const NEIGHBOR_RADIUS: int := 5

  const ELLIPSE_CODES: seq<FeatureCode> := [MAJOR_AXIS_LENGTH, MINOR_AXIS_LENGTH, ECCENTRICITY, ORIENTATION]
  const FERET_CODES: seq<FeatureCode> := [MIN_FERET_DIAMETER, MAX_FERET_DIAMETER, MIN_FERET_ANGLE, MAX_FERET_ANGLE]
  const FERET_STAT_CODES: seq<FeatureCode> :=
    [STAT_FERET_DIAM_MIN, STAT_FERET_DIAM_MAX, STAT_FERET_DIAM_MEAN,
     STAT_FERET_DIAM_MEDIAN, STAT_FERET_DIAM_STDDEV, STAT_FERET_DIAM_MODE]
  const MARTIN_CODES: seq<FeatureCode> :=
    [STAT_MARTIN_DIAM_MIN, STAT_MARTIN_DIAM_MAX, STAT_MARTIN_DIAM_MEAN,
     STAT_MARTIN_DIAM_MEDIAN, STAT_MARTIN_DIAM_STDDEV, STAT_MARTIN_DIAM_MODE]
  const NASSENSTEIN_CODES: seq<FeatureCode> :=
    [STAT_NASSENSTEIN_DIAM_MIN, STAT_NASSENSTEIN_DIAM_MAX, STAT_NASSENSTEIN_DIAM_MEAN,
     STAT_NASSENSTEIN_DIAM_MEDIAN, STAT_NASSENSTEIN_DIAM_STDDEV, STAT_NASSENSTEIN_DIAM_MODE]

  /** Whether the gate lets a stage run; `haralick` is the code the texture
      stage asks the gate about. */
  predicate Runs(st: Stage, flags: seq<bool>, haralick: nat)
    requires |flags| == COUNT
  {
    match st
    case NeighborCount => flags[NUM_NEIGHBORS]
    case EllipseFit => AnyFlag(flags, ELLIPSE_CODES)
    case FeretDiameters => AnyFlag(flags, FERET_CODES) || AnyFlag(flags, FERET_STAT_CODES)
    case MartinDiameters => AnyFlag(flags, MARTIN_CODES)
    case NassensteinDiameters => AnyFlag(flags, NASSENSTEIN_CODES)
    case HaralickTexture => haralick < COUNT && flags[haralick]
    case ZernikeMoments => flags[ZERNIKE2D]
    case _ => true
  }

  /** Stages listed in strictly increasing run order. */
  predicate InRunOrder(stages: seq<Stage>)
  {
    forall i, j | 0 <= i < j < |stages| :: Rank(stages[i]) < Rank(stages[j])
  }

  /** A stage on its own if the gate lets it run, nothing otherwise. */
  function Keep(st: Stage, flags: seq<bool>, haralick: nat): seq<Stage>
    requires |flags| == COUNT
  {
    if Runs(st, flags, haralick) then [st] else []
  }

  /** Appending a stage that comes after every listed one keeps the run order. */
  lemma AppendInRunOrder(p: seq<Stage>, st: Stage)
    requires InRunOrder(p) && forall s | s in p :: Rank(s) < Rank(st)
    ensures InRunOrder(p + [st])
  {
    forall i, j | 0 <= i < j < |p| + 1 ensures Rank((p + [st])[i]) < Rank((p + [st])[j]) {
      if j == |p| {
        assert (p + [st])[i] in p;
      }
    }
  }

  /** The reference plan: the stages of `stages` the gate lets through, in
      their order. */
  function Plan(stages: seq<Stage>, flags: seq<bool>, haralick: nat): (p: seq<Stage>)
    requires |flags| == COUNT
    ensures forall st :: st in p <==> st in stages && Runs(st, flags, haralick)
    ensures InRunOrder(stages) ==> InRunOrder(p)
    decreases |stages|
  {
    if stages == [] then []
    else
      var last := stages[|stages| - 1];
      var front := stages[..|stages| - 1];
      assert forall st | st in front :: st in stages;
      var p := Plan(front, flags, haralick);
      if Runs(last, flags, haralick) then
        (if InRunOrder(stages) then
           assert forall s | s in p :: Rank(s) < Rank(last) by {
             forall s | s in p ensures Rank(s) < Rank(last) {
               var i :| 0 <= i < |front| && front[i] == s;
               assert stages[i] == s;
             }
           }
           AppendInRunOrder(p, last);
           p + [last]
         else p + [last])
      else p
  }

  lemma PlanSnoc(stages: seq<Stage>, st: Stage, flags: seq<bool>, haralick: nat)
    requires |flags| == COUNT
    ensures Plan(stages + [st], flags, haralick) == Plan(stages, flags, haralick) + Keep(st, flags, haralick)
  {
    assert (stages + [st])[..|stages|] == stages;
  }

  /** `Keep` asks the gate exactly the question the code asks for each stage. */
  lemma KeepIsGate(flags: seq<bool>, haralick: nat)
    requires |flags| == COUNT
    ensures Keep(IntensityStats, flags, haralick) == [IntensityStats]
    ensures Keep(NeighborCount, flags, haralick) == Gate(flags[NUM_NEIGHBORS], NeighborCount)
    ensures Keep(EllipseFit, flags, haralick) == Gate(AnyFlag(flags, ELLIPSE_CODES), EllipseFit)
    ensures Keep(ContourHull, flags, haralick) == [ContourHull]
    ensures Keep(ExtremaEuler, flags, haralick) == [ExtremaEuler]
    ensures Keep(FeretDiameters, flags, haralick)
            == Gate(AnyFlag(flags, FERET_CODES) || AnyFlag(flags, FERET_STAT_CODES), FeretDiameters)
    ensures Keep(MartinDiameters, flags, haralick) == Gate(AnyFlag(flags, MARTIN_CODES), MartinDiameters)
    ensures Keep(NassensteinDiameters, flags, haralick)
            == Gate(AnyFlag(flags, NASSENSTEIN_CODES), NassensteinDiameters)
    ensures Keep(ShapeCircles, flags, haralick) == [ShapeCircles]
    ensures Keep(HaralickTexture, flags, haralick)
            == Gate(haralick < COUNT && flags[haralick], HaralickTexture)
    ensures Keep(ZernikeMoments, flags, haralick) == Gate(flags[ZERNIKE2D], ZernikeMoments)
  {
  }

  /** A stage on its own when its gate is open, nothing otherwise. */
  function Gate(open: bool, st: Stage): seq<Stage>
  {
    if open then [st] else []
  }

  /** The stages one call of the reduction runs, written as the code
      decides them one after another. */
  function StagePlan(flags: seq<bool>, haralick: nat): seq<Stage>
    requires |flags| == COUNT
  {
    [IntensityStats]
    + Gate(flags[NUM_NEIGHBORS], NeighborCount)
    + Gate(AnyFlag(flags, ELLIPSE_CODES), EllipseFit)
    + [ContourHull]
    + [ExtremaEuler]
    + Gate(AnyFlag(flags, FERET_CODES) || AnyFlag(flags, FERET_STAT_CODES), FeretDiameters)
    + Gate(AnyFlag(flags, MARTIN_CODES), MartinDiameters)
    + Gate(AnyFlag(flags, NASSENSTEIN_CODES), NassensteinDiameters)
    + [ShapeCircles]
    + Gate(haralick < COUNT && flags[haralick], HaralickTexture)
    + Gate(flags[ZERNIKE2D], ZernikeMoments)
  }

  /** The decisions the code takes one by one amount to filtering the
      fixed stage order through the gate. */
  lemma StagePlanIsFiltered(flags: seq<bool>, haralick: nat)
    requires |flags| == COUNT
    ensures StagePlan(flags, haralick) == Plan(STAGE_ORDER, flags, haralick)
  {
    PlanSnoc([], IntensityStats, flags, haralick);
    assert [] + [IntensityStats] == [IntensityStats];
    var s1 := [IntensityStats];
    PlanSnoc(s1, NeighborCount, flags, haralick);
    var s2 := s1 + [NeighborCount];
    PlanSnoc(s2, EllipseFit, flags, haralick);
    var s3 := s2 + [EllipseFit];
    PlanSnoc(s3, ContourHull, flags, haralick);
    var s4 := s3 + [ContourHull];
    PlanSnoc(s4, ExtremaEuler, flags, haralick);
    var s5 := s4 + [ExtremaEuler];
    PlanSnoc(s5, FeretDiameters, flags, haralick);
    var s6 := s5 + [FeretDiameters];
    PlanSnoc(s6, MartinDiameters, flags, haralick);
    var s7 := s6 + [MartinDiameters];
    PlanSnoc(s7, NassensteinDiameters, flags, haralick);
    var s8 := s7 + [NassensteinDiameters];
    PlanSnoc(s8, ShapeCircles, flags, haralick);
    var s9 := s8 + [ShapeCircles];
    PlanSnoc(s9, HaralickTexture, flags, haralick);
    var s10 := s9 + [HaralickTexture];
    PlanSnoc(s10, ZernikeMoments, flags, haralick);
    KeepIsGate(flags, haralick);
  }

  /** Every stage is in the fixed order, and the order is the run order. */
  lemma StageOrderIsComplete()
    ensures forall st :: st in STAGE_ORDER
    ensures InRunOrder(STAGE_ORDER)
  {
    assert forall i | 0 <= i < |STAGE_ORDER| :: Rank(STAGE_ORDER[i]) == i;
    forall st ensures st in STAGE_ORDER {
      assert STAGE_ORDER[Rank(st)] == st;
    }
  }

  /** What the gate decides: a stage runs exactly when `Runs` lets it (the
      always-on stages whatever is enabled, the others exactly when one of
      their codes is), and the run keeps the fixed order. */
  lemma StagePlanGating(flags: seq<bool>, haralick: nat)
    requires |flags| == COUNT
    ensures forall st :: st in StagePlan(flags, haralick) <==> Runs(st, flags, haralick)
    ensures InRunOrder(StagePlan(flags, haralick))
  {
    StagePlanIsFiltered(flags, haralick);
    StageOrderIsComplete();
  }

  // ---------------------------------------------------------------------------
  // Per-record passes

  /** Contour and convex hull of one record; only their sizes are modelled. */
  function ContourHullPass(r: LabelRecord, contourOf: seq<Pixel2> -> nat, hullOf: seq<Pixel2> -> nat): (r': LabelRecord)
    ensures r'.shape.contourLen == contourOf(r.rawPixels) && r'.shape.hullLen == hullOf(r.rawPixels)
    ensures r' == r.(shape := r'.shape) && r'.shape.hexagonality == r.shape.hexagonality
  {
    r.(shape := r.shape.(contourLen := contourOf(r.rawPixels), hullLen := hullOf(r.rawPixels)))
  }

  /** The shape-circles pass leaves a record alone when its contour or hull
      is empty or it has no neighbours. */
  predicate ShapeSkipped(r: LabelRecord)
  {
    r.shape.contourLen == 0 || r.shape.hullLen == 0 || r.numNeighbors == 0
  }

  /** Hexagonality and enclosing circles of one record, computed from its
      neighbour count, area, contour size and hull size unless the record is
      skipped. */
  function HexagonalityPass(r: LabelRecord, hexOf: (nat, nat, nat, nat) -> int): (r': LabelRecord)
    ensures ShapeSkipped(r) ==> r' == r
    ensures !ShapeSkipped(r) ==> r'.shape.hexagonality == Some(hexOf(r.numNeighbors, r.pixelCountRoiArea, r.shape.contourLen, r.shape.hullLen))
    ensures r' == r.(shape := r'.shape)
    ensures r'.shape.contourLen == r.shape.contourLen && r'.shape.hullLen == r.shape.hullLen
  {
    if ShapeSkipped(r) then r
    else r.(shape := r.shape.(hexagonality := Some(hexOf(r.numNeighbors, r.pixelCountRoiArea, r.shape.contourLen, r.shape.hullLen))))
  }

  /** The contour and hull stage: one pass over every record. */
  method ContourHullForAll(data: map<int, LabelRecord>, contourOf: seq<Pixel2> -> nat, hullOf: seq<Pixel2> -> nat)
    returns (data': map<int, LabelRecord>)
    ensures data'.Keys == data.Keys
    ensures forall l | l in data :: data'[l] == ContourHullPass(data[l], contourOf, hullOf)
  {
    data' := data;
    var todo := data.Keys;
    while todo != {}
      invariant todo <= data.Keys && data'.Keys == data.Keys
      invariant forall l | l in data && l !in todo :: data'[l] == ContourHullPass(data[l], contourOf, hullOf)
      decreases |todo|
    {
      assert (forall y :: y !in todo) ==> todo == {};
      var l :| l in todo;
      data' := data'[l := ContourHullPass(data[l], contourOf, hullOf)];
      todo := todo - {l};
    }
  }

  /** The hexagonality and enclosing-circle stage: one pass over every record. */
  method HexagonalityForAll(data: map<int, LabelRecord>, hexOf: (nat, nat, nat, nat) -> int)
    returns (data': map<int, LabelRecord>)
    ensures data'.Keys == data.Keys
    ensures forall l | l in data :: data'[l] == HexagonalityPass(data[l], hexOf)
  {
    data' := data;
    var todo := data.Keys;
    while todo != {}
      invariant todo <= data.Keys && data'.Keys == data.Keys
      invariant forall l | l in data && l !in todo :: data'[l] == HexagonalityPass(data[l], hexOf)
      decreases |todo|
    {
      assert (forall y :: y !in todo) ==> todo == {};
      var l :| l in todo;
      data' := data'[l := HexagonalityPass(data[l], hexOf)];
      todo := todo - {l};
    }
  }

  /** Every record's pixels lie in the non-negative quadrant. */
  ghost predicate PixelsNonNegative(data: map<int, LabelRecord>)
  {
    forall l | l in data :: NonNegative(data[l].rawPixels)
  }

  /** `r` is `r0` with the extreme points of its pixels filled in. */
  ghost predicate HasExtremaOf(r: LabelRecord, r0: LabelRecord)
  {
    && r == r0.(extrema := r.extrema)
    && (r0.rawPixels != [] ==> r.extrema.Some? && Describes(r.extrema.value, r0.rawPixels))
  }

  /** The extrema stage: finds the twelve extreme points of every record. */
  method ExtremaForAll(data: map<int, LabelRecord>) returns (data': map<int, LabelRecord>)
    requires PixelsNonNegative(data)
    ensures data'.Keys == data.Keys
    ensures forall l | l in data :: HasExtremaOf(data'[l], data[l])
  {
    data' := data;
    var todo := data.Keys;
    while todo != {}
      invariant todo <= data.Keys && data'.Keys == data.Keys
      invariant forall l | l in data && l !in todo :: HasExtremaOf(data'[l], data[l])
      decreases |todo|
    {
      assert (forall y :: y !in todo) ==> todo == {};
      var l :| l in todo;
      var e := FindExtrema(data[l].rawPixels);
      data' := data'[l := data[l].(extrema := Some(e))];
      todo := todo - {l};
    }
  }

  /** Observations with non-negative coordinates give every label
      non-negative pixels. */
  lemma {:induction false} PixelsOfLabelNonNegative(log: seq<Observation>, l: int)
    requires forall o | o in log :: 0 <= o.x && 0 <= o.y
    ensures NonNegative(PixelsOfLabel(log, l))
  {
    if log != [] {
      var front := log[..|log| - 1];
      assert forall o | o in front :: o in log;
      PixelsOfLabelNonNegative(front, l);
    }
  }

  /** What the reduction leaves in a record that held `r0` before it: the
      contour and hull sizes of its pixels, its extreme points, and its
      hexagonality unless the record is skipped. */
  ghost predicate Reduced(r0: LabelRecord, r: LabelRecord, contourOf: seq<Pixel2> -> nat,
                          hullOf: seq<Pixel2> -> nat, hexOf: (nat, nat, nat, nat) -> int)
  {
    && r.shape.contourLen == contourOf(r0.rawPixels)
    && r.shape.hullLen == hullOf(r0.rawPixels)
    && r.extrema.Some? && Describes(r.extrema.value, r0.rawPixels)
    && (ShapeSkipped(r) ==> r.shape.hexagonality == r0.shape.hexagonality)
    && (!ShapeSkipped(r) ==> r.shape.hexagonality == Some(hexOf(r.numNeighbors, r.pixelCountRoiArea, r.shape.contourLen, r.shape.hullLen)))
  }

  /** One record through the contour, extrema and shape-circles passes. */
  lemma PassesReduce(r1: LabelRecord, r3: LabelRecord, r4: LabelRecord,
                     contourOf: seq<Pixel2> -> nat, hullOf: seq<Pixel2> -> nat, hexOf: (nat, nat, nat, nat) -> int)
    requires HasExtremaOf(r3, ContourHullPass(r1, contourOf, hullOf)) && r1.rawPixels != []
    requires r4 == HexagonalityPass(r3, hexOf)
    ensures Reduced(r1, r4, contourOf, hullOf, hexOf)
    ensures r4 == r1.(extrema := r4.extrema, shape := r4.shape)
  {
  }

  /** The stages between the neighbour count and the Feret diameters: the
      ellipse gate, then the contour and hull pass and the extrema pass over
      every record. */
  method MiddleStages(fs: FeatureSet, ran0: seq<Stage>, data1: map<int, LabelRecord>,
                      contourOf: seq<Pixel2> -> nat, hullOf: seq<Pixel2> -> nat)
    returns (ran: seq<Stage>, data3: map<int, LabelRecord>)
    requires fs.Valid() && PixelsNonNegative(data1)
    ensures ran == ran0 + Gate(AnyFlag(fs.enabledFeatures[..], ELLIPSE_CODES), EllipseFit) + [ContourHull] + [ExtremaEuler]
    ensures data3.Keys == data1.Keys
    ensures forall l | l in data1 :: HasExtremaOf(data3[l], ContourHullPass(data1[l], contourOf, hullOf))
  {
    var ellipse := fs.AnyEnabled(ELLIPSE_CODES);
    ran := ran0 + Gate(ellipse, EllipseFit);

    var data2 := ContourHullForAll(data1, contourOf, hullOf);
    ran := ran + [ContourHull];
    assert forall l | l in data2 :: data2[l].rawPixels == data1[l].rawPixels;

    data3 := ExtremaForAll(data2);
    ran := ran + [ExtremaEuler];
  }

  /** The stages from the Feret diameters on: three gated diameter stages,
      the shape-circles pass over every record, and the two texture gates. */
  method FinalStages(fs: FeatureSet, haralick: nat, ran0: seq<Stage>, data3: map<int, LabelRecord>,
                     hexOf: (nat, nat, nat, nat) -> int)
    returns (ran: seq<Stage>, data4: map<int, LabelRecord>)
    requires fs.Valid()
    ensures var flags := fs.enabledFeatures[..];
      ran == ran0 + Gate(AnyFlag(flags, FERET_CODES) || AnyFlag(flags, FERET_STAT_CODES), FeretDiameters)
             + Gate(AnyFlag(flags, MARTIN_CODES), MartinDiameters)
             + Gate(AnyFlag(flags, NASSENSTEIN_CODES), NassensteinDiameters)
             + [ShapeCircles]
             + Gate(haralick < COUNT && flags[haralick], HaralickTexture)
             + Gate(flags[ZERNIKE2D], ZernikeMoments)
    ensures data4.Keys == data3.Keys
    ensures forall l | l in data3 :: data4[l] == HexagonalityPass(data3[l], hexOf)
  {
    var feret := fs.AnyEnabled(FERET_CODES);
    if !feret {
      feret := fs.AnyEnabled(FERET_STAT_CODES);
    }
    ran := ran0 + Gate(feret, FeretDiameters);
    var martin := fs.AnyEnabled(MARTIN_CODES);
    ran := ran + Gate(martin, MartinDiameters);
    var nassenstein := fs.AnyEnabled(NASSENSTEIN_CODES);
    ran := ran + Gate(nassenstein, NassensteinDiameters);

    data4 := HexagonalityForAll(data3, hexOf);
    ran := ran + [ShapeCircles];

    var texture := fs.IsEnabled(haralick);
    ran := ran + Gate(texture, HaralickTexture);
    var zernike := fs.IsEnabled(ZERNIKE2D);
    ran := ran + Gate(zernike, ZernikeMoments);
  }

  /** Each record's neighbour count grew once for every hit it takes part
      in when the broad phase scans `table`: once per pair of bucket
      entries, as the code counts. */
  ghost predicate CountsHits(data0: map<int, LabelRecord>, data: map<int, LabelRecord>, table: seq<seq<int>>)
  {
    && |table| > 0
    && data.Keys == data0.Keys
    && forall l | l in data :: data[l].numNeighbors
         == data0[l].numNeighbors + Neighbors.Occurrences(Neighbors.TablePairs(table, |table|, data0, NEIGHBOR_RADIUS), l)
  }

  /** `data` differs from `data0` in the neighbour counts at most. */
  ghost predicate OnlyCountsChanged(data0: map<int, LabelRecord>, data: map<int, LabelRecord>)
  {
    && data.Keys == data0.Keys
    && forall l | l in data0 :: data[l] == data0[l].(numNeighbors := data[l].numNeighbors)
  }

  /** The later stages filled in every record of `data1` as `Reduced` says,
      changing nothing but the extrema and shape fields. */
  ghost predicate ShapesFilled(data1: map<int, LabelRecord>, data: map<int, LabelRecord>,
                               contourOf: seq<Pixel2> -> nat, hullOf: seq<Pixel2> -> nat, hexOf: (nat, nat, nat, nat) -> int)
  {
    && data.Keys == data1.Keys
    && (forall l | l in data1 :: data[l] == data1[l].(extrema := data[l].extrema, shape := data[l].shape))
    && forall l | l in data1 :: Reduced(data1[l], data[l], contourOf, hullOf, hexOf)
  }

  /** The neighbour stage: runs the neighbour count when its code is enabled;
      `table` is the hash table the count was taken through. */
  method NeighborPhase(reg: LabelRegistry, fs: FeatureSet, spatHash: (int, int, int) -> int)
    returns (neighbors: bool, ghost table: seq<seq<int>>)
    requires reg.Valid() && fs.Valid() && Neighbors.HashInRange(spatHash)
    modifies reg
    ensures neighbors == fs.enabledFeatures[NUM_NEIGHBORS]
    ensures reg.Valid() && reg.log == old(reg.log) && reg.uniqueLabels == old(reg.uniqueLabels)
    ensures OnlyCountsChanged(old(reg.labelData), reg.labelData)
    ensures !neighbors ==> reg.labelData == old(reg.labelData)
    ensures neighbors ==> (Neighbors.HashTableFor(table, old(reg.labelData), spatHash)
      && CountsHits(old(reg.labelData), reg.labelData, table))
  {
    table := [];
    neighbors := fs.IsEnabled(NUM_NEIGHBORS);
    if neighbors {
      Neighbors.ReduceNeighborsAsWritten(reg, NEIGHBOR_RADIUS, spatHash);
      table :| Neighbors.HashTableFor(table, old(reg.labelData), spatHash)
        && Neighbors.CountedEach(old(reg.labelData), reg.labelData,
                                 Neighbors.TablePairs(table, |table|, old(reg.labelData), NEIGHBOR_RADIUS));
      NeighborStage(old(reg.labelData), reg.labelData, table);
    }
  }

  /** The stages after the neighbour count. */
  method LaterStages(fs: FeatureSet, haralick: nat, ran0: seq<Stage>, data1: map<int, LabelRecord>,
                     contourOf: seq<Pixel2> -> nat, hullOf: seq<Pixel2> -> nat, hexOf: (nat, nat, nat, nat) -> int)
    returns (ran: seq<Stage>, data4: map<int, LabelRecord>)
    requires fs.Valid()
    requires PixelsNonNegative(data1) && forall l | l in data1 :: data1[l].rawPixels != []
    ensures var flags := fs.enabledFeatures[..];
      ran == ran0 + Gate(AnyFlag(flags, ELLIPSE_CODES), EllipseFit) + [ContourHull] + [ExtremaEuler]
             + Gate(AnyFlag(flags, FERET_CODES) || AnyFlag(flags, FERET_STAT_CODES), FeretDiameters)
             + Gate(AnyFlag(flags, MARTIN_CODES), MartinDiameters)
             + Gate(AnyFlag(flags, NASSENSTEIN_CODES), NassensteinDiameters)
             + [ShapeCircles]
             + Gate(haralick < COUNT && flags[haralick], HaralickTexture)
             + Gate(flags[ZERNIKE2D], ZernikeMoments)
    ensures ShapesFilled(data1, data4, contourOf, hullOf, hexOf)
  {
    var data3;
    ran, data3 := MiddleStages(fs, ran0, data1, contourOf, hullOf);
    ran, data4 := FinalStages(fs, haralick, ran, data3, hexOf);
    forall l | l in data1
      ensures data4[l] == data1[l].(extrema := data4[l].extrema, shape := data4[l].shape)
      ensures Reduced(data1[l], data4[l], contourOf, hullOf, hexOf)
    {
      PassesReduce(data1[l], data3[l], data4[l], contourOf, hullOf, hexOf);
    }
  }

  /** The whole reduction over the registry. `haralick` is the code the
      texture stage asks about; `spatHash`, `contourOf`, `hullOf` and `hexOf`
      stand for the modules the stages call. Returns the stages that ran. */
  method ReduceAllLabels(reg: LabelRegistry, fs: FeatureSet, haralick: nat, spatHash: (int, int, int) -> int,
                         contourOf: seq<Pixel2> -> nat, hullOf: seq<Pixel2> -> nat, hexOf: (nat, nat, nat, nat) -> int)
    returns (ran: seq<Stage>)
    requires reg.Valid() && fs.Valid() && Neighbors.HashInRange(spatHash)
    requires forall o | o in reg.log :: 0 <= o.x && 0 <= o.y
    modifies reg
    ensures ran == StagePlan(fs.enabledFeatures[..], haralick)
    ensures reg.Valid() && reg.log == old(reg.log) && reg.uniqueLabels == old(reg.uniqueLabels)
    ensures SameScan(old(reg.labelData), reg.labelData)
    ensures !fs.enabledFeatures[NUM_NEIGHBORS] ==>
      forall l | l in reg.labelData :: reg.labelData[l].numNeighbors == old(reg.labelData)[l].numNeighbors
    ensures fs.enabledFeatures[NUM_NEIGHBORS] ==>
      exists table :: Neighbors.HashTableFor(table, old(reg.labelData), spatHash)
        && CountsHits(old(reg.labelData), reg.labelData, table)
    ensures forall l | l in reg.labelData :: Reduced(old(reg.labelData)[l], reg.labelData[l], contourOf, hullOf, hexOf)
  {
    ghost var data0 := reg.labelData;
    ghost var log := reg.log;
    ran := [IntensityStats];

    var neighbors;
    ghost var table;
    neighbors, table := NeighborPhase(reg, fs, spatHash);
    ran := ran + Gate(neighbors, NeighborCount);
    var data1 := reg.labelData;
    ScannedPixels(log, data0, data1);

    var data4;
    ran, data4 := LaterStages(fs, haralick, ran, data1, contourOf, hullOf, hexOf);
    AfterNeighbors(log, data0, data1, data4, contourOf, hullOf, hexOf);
    if neighbors {
      CountsKept(data0, data1, data4, table);
    }
    reg.labelData := data4;
  }

  /** The neighbour stage changes nothing but the counts, each by the hits
      it takes part in. */
  lemma NeighborStage(data0: map<int, LabelRecord>, data1: map<int, LabelRecord>, table: seq<seq<int>>)
    requires |table| > 0
    requires Neighbors.CountedEach(data0, data1, Neighbors.TablePairs(table, |table|, data0, NEIGHBOR_RADIUS))
    ensures OnlyCountsChanged(data0, data1) && CountsHits(data0, data1, table)
  {
  }

  /** Records scanned from observations with non-negative coordinates hold
      non-empty runs of non-negative pixels. */
  lemma ScannedPixels(log: seq<Observation>, data0: map<int, LabelRecord>, data: map<int, LabelRecord>)
    requires RecordsFor(log, data0) && OnlyCountsChanged(data0, data)
    requires forall o | o in log :: 0 <= o.x && 0 <= o.y
    ensures PixelsNonNegative(data) && forall l | l in data :: data[l].rawPixels != []
  {
    forall l | l in data ensures NonNegative(data[l].rawPixels) && data[l].rawPixels != [] {
      assert Accumulates(data0[l]);
      PixelsOfLabelNonNegative(log, l);
    }
  }

  /** The passes after the neighbour stage leave the records in step with the
      log, the neighbour counts as they were, and fill in what `Reduced`
      describes. */
  lemma AfterNeighbors(log: seq<Observation>, data0: map<int, LabelRecord>, data1: map<int, LabelRecord>,
                       data4: map<int, LabelRecord>,
                       contourOf: seq<Pixel2> -> nat, hullOf: seq<Pixel2> -> nat, hexOf: (nat, nat, nat, nat) -> int)
    requires RecordsFor(log, data0) && OnlyCountsChanged(data0, data1)
    requires ShapesFilled(data1, data4, contourOf, hullOf, hexOf)
    ensures RecordsFor(log, data4) && SameScan(data0, data4)
    ensures forall l | l in data4 :: data4[l].numNeighbors == data1[l].numNeighbors
    ensures forall l | l in data4 :: Reduced(data0[l], data4[l], contourOf, hullOf, hexOf)
  {
    forall l | l in data4 ensures Reduced(data0[l], data4[l], contourOf, hullOf, hexOf)
      && data4[l] == data0[l].(numNeighbors := data4[l].numNeighbors, extrema := data4[l].extrema,
                               shape := data4[l].shape)
    {
      assert Reduced(data1[l], data4[l], contourOf, hullOf, hexOf);
    }
    SameScanKeepsRecords(log, data0, data4);
  }

  /** The counts the neighbour stage left survive the later stages. */
  lemma CountsKept(data0: map<int, LabelRecord>, data1: map<int, LabelRecord>, data4: map<int, LabelRecord>,
                   table: seq<seq<int>>)
    requires CountsHits(data0, data1, table) && data4.Keys == data1.Keys
    requires forall l | l in data4 :: data4[l].numNeighbors == data1[l].numNeighbors
    ensures CountsHits(data0, data4, table)
  {
  }
}
