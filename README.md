# Nyxus ROI feature pipeline — a Dafny model

Nyxus computes morphology and intensity features of regions of interest
(ROIs) in segmented images. This project models the integer core of its
pipeline and proves what that core promises:

- **Label registry and online accumulator** (`LabelRecords`, `Registry`).
  Every `(x, y, label, intensity)` pixel observation goes to the label's
  record `LR`. The record appends the pixel to its buffer and keeps its
  count, minimum and maximum intensity, mass energy (sum of squared
  intensities), centroid sums, intensity histogram and bounding box
  (AABB). The registry is a class holding the set of unique labels and
  the label-to-record map. The set of labels, and each record's summary
  (count, minimum, maximum, energy, centroid sums, histogram and box), are
  proved independent of the order in which observations arrive. The pixel
  buffer and the previous-pixel fields follow arrival order.
- **Extrema pass** (`ExtremaPass`). For each label it finds the topmost,
  lowest, leftmost and rightmost rows and columns, and the eight extreme
  points P1–P8. Each point is proved to be a pixel of the label, and the
  four sides are proved to equal the record's AABB.
- **Spatial-hash neighbour counting** (`Neighbors`). Each label's four box
  corners are hashed into 10000 buckets. In each bucket, every ordered pair
  of labels whose boxes, dilated by the collision radius, overlap raises
  both labels' neighbour counts. The code as written counts a pair once
  for every shared pair of bucket entries. The model keeps that version and
  proves the defect (see Findings), and the reduction runs that version.
  It also gives a corrected version that counts each pair once.
- **Feature gate** (`FeatureCodes`, `FeatureGate`). The
  `AvailableFeatures` enumeration, the name table, and the `FeatureSet`
  class over its flag array: enable/disable operations, presets, counting,
  the enabled list in code order, and name lookup.
- **Stage gating of `reduce_all_labels`** (`Reduction`). The reduction
  runs stages in a fixed order, and the gate decides which optional stages
  run. The external feature modules are recorded stages, or functions
  passed in as parameters. The contour/hull, extrema and
  hexagonality/enclosing-circle passes are modelled per label.
- **Python entry point** (`Invoker`). The status-code cascade of
  `featureSetInvoker`, its messages, and the copy of the result buffer.
  Because `enableAll()` runs before the requested features are enabled,
  every feature is on. Status 4 ("No features were calculated") is
  therefore unreachable, and this is proved.
- **Nested ROIs** (`Nested`). `shape_all_parents` builds one row per
  parent from a per-ROI feature table. A row holds either the children's
  records, aligned and padded as the code pads them (one group short when
  exactly one child is missing, see Findings), or one
  SUM/MEAN/MIN/MAX/weighted-mean aggregate per column.
  `output_relational_table` lists (parent, child) pairs.

Integers are unbounded. Feature values read from tables are `real`.

## Model

| member | source | states |
|---|---|---|
| LabelRecords.InitLabelRecord | src/nyx/features_calc_workflow.cpp:32-85 | The new record buffers exactly the first pixel. Its count is 1, min = max = intensity, energy = intensity². Its centroid sums are seeded 1-based (1 + x, 1 + y). Its histogram holds the one intensity and its box is the pixel. It has 0 neighbours and no extrema or shape values yet. |
| LabelRecords.UpdateLabelRecord | src/nyx/features_calc_workflow.cpp:88-157 | The pixel is appended to the end of the buffer. Neighbour count, extrema and shape fields are unchanged. |
| LabelRecords.UpdateLabelRecordAccumulates | src/nyx/features_calc_workflow.cpp:88-157 | An update keeps every accumulator in step with the buffer: the count equals the buffer length, min and max are attained bounds, energy is Σ intensity², and centroid sums are 1 + Σ x and 1 + Σ y. The histogram is the multiset of intensities, the box is the min/max box of the pixels, and auxPrevCount is the count before the latest pixel. |
| LabelRecords.BoxStep | src/nyx/features_calc_workflow.cpp:727-731 | Widening the box by a new pixel gives exactly the min/max box of the extended buffer. |
| LabelRecords.Build | src/nyx/features_calc_workflow.cpp:32-157 | Folding a non-empty pixel sequence (init, then updates) gives a record whose buffer is that sequence and whose accumulators agree with it. |
| LabelRecords.SumOfPermutation | src/nyx/features_calc_workflow.cpp:122-140 | Energy and centroid sums over two permutations of the same pixels are equal. |
| LabelRecords.IntensitiesPermutation | src/nyx/features_calc_workflow.cpp:143-144 | The histogram contents of two permutations of the same pixels are equal. |
| LabelRecords.SummaryIsOrderIndependent | src/nyx/features_calc_workflow.cpp:32-157 | Two accumulated records over permutations of the same pixels agree on count, min, max, energy, centroid sums, histogram and box. |
| LabelRecords.BuildIsOrderIndependent | src/nyx/features_calc_workflow.cpp:32-157 | Folding permuted observation sequences gives equal summaries. |
| LabelRecords.ThreePixelScenario | src/nyx/features_calc_workflow.cpp:32-157 | Three concrete pixels give count 3, min 5, max 25, energy 875, centroid sums 2 and 2 (1-based seed), and box (0, 1, 0, 1). |
| Registry.ScanStep | src/nyx/features_calc_workflow.cpp:160-185 | One observation adds its label to the map's keys and leaves every other label's record unchanged. |
| Registry.LabelRegistry.constructor | src/nyx/features_calc_workflow.cpp:24-29 | The registry starts valid with no observations and an empty map. |
| Registry.LabelRegistry.ClearLabelStats | src/nyx/features_calc_workflow.cpp:24-29 | Afterwards the unique labels, the map and the observation log are empty, and the registry is valid. |
| Registry.LabelRegistry.UpdateLabelStats | src/nyx/features_calc_workflow.cpp:160-185 | The observation is logged and its label added to the unique labels. The map becomes ScanStep of the old map: a new record for an unknown label, an update for a known one, no other record changed. Validity is kept: keys equal the unique labels, and each record accumulates exactly that label's logged pixels, in order. |
| Registry.ScanRecords | src/nyx/features_calc_workflow.cpp:160-185 | Scanning any observation log gives one record per label seen. Each record's buffer is that label's pixels in log order, and its accumulators agree with the buffer. |
| Registry.LabelSeenIffPixels | src/nyx/features_calc_workflow.cpp:160-185 | A label is among the unique labels exactly when it has at least one logged pixel. |
| Registry.CountsOfSum | src/nyx/features_calc_workflow.cpp:160-185 | The per-label pixel counts of a log sum to the log's length. |
| Registry.TotalPixelCount | src/nyx/features_calc_workflow.cpp:88-97 | In a valid registry, the records' pixel counts sum to the number of observations since the last clear. |
| Registry.PixelsOfLabelPermutation | src/nyx/features_calc_workflow.cpp:160-185 | Permuting the log permutes each label's pixels. |
| Registry.SameLabels | src/nyx/features_calc_workflow.cpp:160-185 | Permuted logs produce the same unique labels. |
| Registry.LabelSummaryAgrees | src/nyx/features_calc_workflow.cpp:160-185 | Two valid maps over permuted logs agree on every label's summary. |
| Registry.ScanIsOrderIndependent | src/nyx/features_calc_workflow.cpp:160-185 | Scanning permuted logs gives the same labels and the same summary for each. |
| ExtremaPass.ScanExtremes | src/nyx/features_calc_workflow.cpp:366-382 | The first loop leaves TopMost/Lowest as the least/greatest y, and LeftMost/RightMost as the least/greatest x, of the pixels (-1 when there are none). |
| ExtremaPass.ScanBoundary | src/nyx/features_calc_workflow.cpp:384-418 | The second loop leaves the eight indices as the least/greatest x on the top and bottom rows, and the least/greatest y on the leftmost and rightmost columns (-1 when the row or column is empty). |
| ExtremaPass.FindExtrema | src/nyx/features_calc_workflow.cpp:366-418 | Empty buffer: all twelve indices are -1. Otherwise the indices describe the pixels exactly (sides and corners as above). |
| ExtremaPass.ExtremaPointsXY | src/nyx/features_calc_workflow.cpp:420-442 | The eight points lie on the topmost row (P1, P2), the rightmost column (P3, P4), the lowest row (P5, P6) and the leftmost column (P7, P8). |
| ExtremaPass.ExtremaPointsArePixels | src/nyx/features_calc_workflow.cpp:420-442 | Each of P1–P8 is a pixel of the label. |
| ExtremaPass.PixelsWithinExtremes | src/nyx/features_calc_workflow.cpp:366-382 | Every pixel lies within the four sides found. |
| ExtremaPass.ExtremesMatchBox | src/nyx/features_calc_workflow.cpp:366-382 | The four sides equal the record's AABB (ymin, ymax, xmin, xmax). |
| ExtremaPass.DescribesIsUnique | src/nyx/features_calc_workflow.cpp:366-418 | The extrema of a buffer are determined uniquely. |
| Neighbors.OverlapsIsSymmetric | src/nyx/features_calc_workflow.cpp:643-644 | The dilated overlap test does not depend on argument order. |
| Neighbors.InsertLabel | src/nyx/features_calc_workflow.cpp:680-688 | Inserting a label adds it to each bucket once per box corner hashing there, and changes nothing else. |
| Neighbors.BuildHashTable | src/nyx/features_calc_workflow.cpp:676-689 | The table has 10000 buckets. Bucket h holds every label once per corner of its box that hashes to h, and nothing else. |
| Neighbors.EachLabelHasFourEntries | src/nyx/features_calc_workflow.cpp:678-689 | Over all buckets each label appears exactly four times, and an unknown label never. |
| Neighbors.TableEntriesAreLabels | src/nyx/features_calc_workflow.cpp:678-689 | Every bucket entry is a known label. |
| Neighbors.SmallBinHasNoPairs | src/nyx/features_calc_workflow.cpp:695-696 | A bucket with at most one entry contributes no pair. |
| Neighbors.TablePairsAreHits | src/nyx/features_calc_workflow.cpp:699-716 | Every counted pair is two known labels, the smaller first, whose dilated boxes overlap. |
| Neighbors.BinPairsFindAll | src/nyx/features_calc_workflow.cpp:699-716 | Every pair of entries in a bucket with increasing labels and overlapping dilated boxes is counted. |
| Neighbors.BumpTwiceSum | src/nyx/features_calc_workflow.cpp:711-712 | Each hit raises the total neighbour count by exactly two. |
| Neighbors.BroadPhaseAsWritten | src/nyx/features_calc_workflow.cpp:692-717 | As written: each label's count rises once per occurrence in the scan-order hits, other fields are unchanged, and the total rises by twice the number of hits. |
| Neighbors.ReduceNeighborsAsWritten | src/nyx/features_calc_workflow.cpp:624-718 | As written: the registry stays valid with the same labels and log. Counts rise by occurrences in the hits of a table built from the boxes. |
| Neighbors.SharedBucketCountsSixteen | src/nyx/features_calc_workflow.cpp:692-717 | Two touching one-pixel labels whose corners share a bucket: the code counts 16 for label 1, although it has one partner. |
| Neighbors.BroadPhase | src/nyx/features_calc_workflow.cpp:692-717 | Corrected: each label's count rises by the number of distinct hit pairs it belongs to, and the total by twice their number. |
| Neighbors.CountPairs | src/nyx/features_calc_workflow.cpp:711-712 | Counting a set of distinct pairs raises both labels of each pair once. |
| Neighbors.ReduceNeighbors | src/nyx/features_calc_workflow.cpp:624-718 | Corrected reduction: the registry stays valid with the same labels and log. Counts rise by each label's distinct partners among the candidates of a table built from the boxes. |
| Neighbors.CountIsNumberOfPartners | src/nyx/features_calc_workflow.cpp:692-717 | After the corrected reduction a label's count has grown by exactly its number of distinct neighbours. |
| Neighbors.CandidatesAreLabelPairs | src/nyx/features_calc_workflow.cpp:705-710 | Every candidate pair is two known labels, the smaller first, whose dilated boxes overlap. |
| Neighbors.SharedBucketGivesCandidate | src/nyx/features_calc_workflow.cpp:699-716 | Two overlapping labels sharing a bucket are a candidate pair. |
| Neighbors.PartnersAreSymmetric | src/nyx/features_calc_workflow.cpp:711-712 | b is a neighbour of a exactly when a is a neighbour of b. |
| Neighbors.NoLabelIsItsOwnPartner | src/nyx/features_calc_workflow.cpp:705 | Since only l1 < l2 pairs are counted, no label is its own neighbour. |
| Neighbors.PairsWithArePartners | src/nyx/features_calc_workflow.cpp:705-712 | The pairs involving a label are as many as its partners. |
| FeatureGate.CountTrueIsCardinality | src/nyx/featureset.h:277-283 | The number of set flags is the size of the set of enabled codes. |
| FeatureGate.CodeRangeCardinality | src/nyx/featureset.h:227-248 | A contiguous code range lo..hi-1 has hi - lo codes. |
| FeatureGate.InvertNameTable | src/nyx/featureset.cpp:210-213 | The code-to-name map has exactly the table's codes as keys, and maps each to a name of that code. A code named once maps back to that name. |
| FeatureGate.FeatureSet.constructor | src/nyx/featureset.cpp:205-214 | Every feature is enabled, and the name map inverts the name table as above. |
| FeatureGate.FeatureSet.EnableAll | src/nyx/featureset.h:214 | Every flag becomes the given status. |
| FeatureGate.FeatureSet.DisableFeatures | src/nyx/featureset.h:215-219 | Listed codes are off, every other flag is unchanged. |
| FeatureGate.FeatureSet.EnableFeatures | src/nyx/featureset.h:220-223 | Listed codes are on, every other flag is unchanged. |
| FeatureGate.FeatureSet.EnableFeature | src/nyx/featureset.h:224-226 | The code is on, every other flag is unchanged. |
| FeatureGate.FeatureSet.EnablePixelIntenStats | src/nyx/featureset.h:227-248 | Exactly the 22 codes below AREA_PIXELS_COUNT are enabled. |
| FeatureGate.FeatureSet.EnableBoundingBox | src/nyx/featureset.h:249-255 | Exactly the four BBOX codes are enabled, so four are counted. |
| FeatureGate.FeatureSet.EnableFeret | src/nyx/featureset.h:256-268 | Exactly the ten Feret codes (MIN_FERET_DIAMETER..STAT_FERET_DIAM_MODE) are enabled. |
| FeatureGate.FeatureSet.IsEnabled | src/nyx/featureset.h:269 | True exactly when the code is below COUNT and its flag is set. |
| FeatureGate.FeatureSet.AnyEnabled | src/nyx/featureset.h:270-276 | True exactly when some listed code is enabled. |
| FeatureGate.FeatureSet.NumOfEnabled | src/nyx/featureset.h:277-283 | The count of set flags, which is the number of enabled codes and lies in 0..COUNT. |
| FeatureGate.FeatureSet.FindFeatureByString | src/nyx/featureset.cpp:221-228 | Found exactly when the name is in the table. Then the code is the table's; otherwise the given code is returned unchanged. |
| FeatureGate.NameLookupRoundTrip | src/nyx/featureset.cpp:205-228 | Name and code lookups undo each other. Every non-empty name the code-to-name map holds is found again under its own code. Every table name whose code no other name shares is the name the map holds for the code found. |
| FeatureGate.FeatureSet.GetEnabledFeatures | src/nyx/featureset.cpp:240-252 | Each enabled code appears exactly once, in increasing code order, so the list is as long as the enabled count. Names come from the name map, or are "" for an unnamed code, and that empty entry is inserted into the map. No other entry of the map changes. |
| Reduction.Plan | src/nyx/features_calc_workflow.cpp:188-622 | Filtering a stage list keeps exactly the stages whose gate is open, in the original order. |
| Reduction.KeepIsGate | src/nyx/features_calc_workflow.cpp:275-621 | Per-stage gates: NUM_NEIGHBORS for neighbours. anyEnabled of the ellipse, Feret (both lists), Martin and Nassenstein code lists for those passes. TEXTURE_HARALICK2D for Haralick, ZERNIKE2D for Zernike. Intensity, contour/hull, extrema/Euler and circles always run. |
| Reduction.StagePlanIsFiltered | src/nyx/features_calc_workflow.cpp:188-622 | The stage plan is the fixed stage order filtered by the gate. |
| Reduction.StageOrderIsComplete | src/nyx/features_calc_workflow.cpp:188-622 | The fixed order lists every stage, in run order. |
| Reduction.StagePlanGating | src/nyx/features_calc_workflow.cpp:275-621 | A stage runs exactly when its gate is open, and the stages run in the fixed order. |
| Reduction.ContourHullPass | src/nyx/features_calc_workflow.cpp:339-357 | The contour and hull sizes are computed from the label's pixels. Nothing else in the record changes. |
| Reduction.HexagonalityPass | src/nyx/features_calc_workflow.cpp:538-568 | A label with an empty contour or hull, or with no neighbours, is left untouched. Otherwise its hexagonality is computed from the neighbour count, the area, and the contour and hull sizes, and nothing else changes. |
| Reduction.ContourHullForAll | src/nyx/features_calc_workflow.cpp:339-357 | The contour/hull pass is applied to every label, and the labels are unchanged. |
| Reduction.ExtremaForAll | src/nyx/features_calc_workflow.cpp:359-447 | Every label gets the extrema of its pixels, and the labels are unchanged. |
| Reduction.HexagonalityForAll | src/nyx/features_calc_workflow.cpp:538-568 | The hexagonality pass is applied to every label. |
| Reduction.PassesReduce | src/nyx/features_calc_workflow.cpp:339-568 | The three per-label passes together give a reduced record: contour/hull from the pixels, exact extrema, and hexagonality as gated. Only the extrema and shape fields change. |
| Reduction.NeighborPhase | src/nyx/features_calc_workflow.cpp:275-279 | When NUM_NEIGHBORS is off, the neighbour counts are untouched. When it is on, each label's count rises once for every hit it takes part in when the broad phase scans a table built from the boxes: once per pair of bucket entries, as the code counts. Only counts change. |
| Reduction.MiddleStages | src/nyx/features_calc_workflow.cpp:282-447 | The ellipse stage is recorded when its codes are enabled. Contour/hull and extrema always run, and their per-label results are as above. |
| Reduction.FinalStages | src/nyx/features_calc_workflow.cpp:450-621 | The Feret, Martin, Nassenstein, circles, Haralick and Zernike stages are recorded as gated, and the hexagonality pass is applied to every label. |
| Reduction.LaterStages | src/nyx/features_calc_workflow.cpp:282-621 | All stages after the neighbour count run in order and fill every label's shape fields. |
| Reduction.ReduceAllLabels | src/nyx/features_calc_workflow.cpp:188-622 | The stages that ran are exactly the gated plan, in order. The registry stays valid with the same labels and log. Only neighbour counts, extrema and shape fields change (the centroid division is not modelled). Neighbour counts follow the gate, counted per pair of bucket entries as the code counts, and every label is reduced. |
| Invoker.Status | src/nyx/bindings_py.cpp:43-88 | Status in 0..5. It is 0 exactly when both stages succeeded, ny > 0, nx > 0 and ny·nx equals the buffer size. A dataset error always gives 1, and 5 implies a size mismatch. |
| Invoker.StatusPrecedence | src/nyx/bindings_py.cpp:43-77 | A processing error gives 2 before any shape check. No labels gives 3 whatever nx is. 4 means labels but no features. |
| Invoker.Decimal | src/nyx/bindings_py.cpp:86 | A count is written as at least one decimal digit, without a leading zero. |
| Invoker.DecimalRoundTrip | src/nyx/bindings_py.cpp:86 | Reading back a written count gives the count. |
| Invoker.Details | src/nyx/bindings_py.cpp:47-87 | The status message is non-empty exactly for statuses 1 to 5. Each status has its own fixed text, and status 5 reports ny, nx, their product and the buffer size in decimal. |
| Invoker.DetailsIdentifyCode | src/nyx/bindings_py.cpp:47-87 | Two equal non-empty messages come from the same status, so the message identifies the status. |
| Invoker.AllSetCountsAll | src/nyx/bindings_py.cpp:69-71 | With every flag set, the enabled count is the number of flags. |
| Invoker.CopyBuffer | src/nyx/bindings_py.cpp:101-103 | A fresh array holding the source element by element. |
| Invoker.FeatureSetInvoker | src/nyx/bindings_py.cpp:33-107 | Every flag ends set. The status is Status(dataset error, processing error, labels, COUNT, buffer size), never 4, with its message. Errors carry zero dimensions and a null buffer. Success gives nx = COUNT, ny = number of labels, and a fresh copy of the buffer. |
| Nested.MaxChildren | src/nyx/main_nyxushie.cpp:254-260 | The largest child count over the labels, attained by one of them, and 0 for no labels. |
| Nested.FoundRecords | src/nyx/main_nyxushie.cpp:343-365 | The records found for the children, in order, skipping children without one. iCh ends one past their number. |
| Nested.PadRow | src/nyx/main_nyxushie.cpp:369-373 | The padding loop writes maxChildren + 1 - iCh blank groups of "0" cells. |
| Nested.Padding | src/nyx/main_nyxushie.cpp:366-374 | Corrected padding: k children plus the padding make maxChildren groups, and there is none when k ≥ maxChildren. |
| Nested.PaddingAsWritten | src/nyx/main_nyxushie.cpp:366-374 | As written, the padding equals the corrected padding except when exactly one child is missing (k + 1 = maxChildren). Then no blank group is written, and the row is one group short. |
| Nested.AlignChildrenAsWritten | src/nyx/main_nyxushie.cpp:343-374 | As written: the found records, then blank groups only when k + 1 < maxChildren. A parent with k = maxChildren - 1 gets maxChildren - 1 groups. |
| Nested.AlignChildren | src/nyx/main_nyxushie.cpp:343-374 | Corrected: the found records in order, then blanks up to exactly maxChildren groups. |
| Nested.RowForAsWritten | src/nyx/main_nyxushie.cpp:343-374 | As written, an aligned row holds maxChildren - 1 child groups when exactly one child is missing, and maxChildren groups otherwise. |
| Nested.PaddingAsWrittenOneShort | src/nyx/main_nyxushie.cpp:366-374 | With two groups expected and one child found, the code writes one group where two are needed. |
| Nested.ParsedRow | src/nyx/main_nyxushie.cpp:396-403 | One number per field, in order; a field that does not parse is 0.0. |
| Nested.ParseRow | src/nyx/main_nyxushie.cpp:396-403 | The loop gives the parsed row, with 0.0 for each unparsable field. |
| Nested.ChildRows | src/nyx/main_nyxushie.cpp:381-408 | One parsed row per found child record. |
| Nested.ReadChildren | src/nyx/main_nyxushie.cpp:381-408 | aggrBuf holds one parsed row per child record found, in child order. |
| Nested.MinOf | src/nyx/main_nyxushie.cpp:429-433 | The minimum of a non-empty column is one of its values and bounds all of them from below. |
| Nested.MaxOf | src/nyx/main_nyxushie.cpp:434-438 | The maximum of a non-empty column is one of its values and bounds all of them from above. |
| Nested.MeanOf | src/nyx/main_nyxushie.cpp:424-428 | NaN exactly for an empty column; otherwise mean × n equals the column sum. |
| Nested.Aggregate | src/nyx/main_nyxushie.cpp:418-444 | SUM gives the column sum. MEAN and the default (weighted-mean) branch give NaN when there are no rows, otherwise a value whose product with n is the sum. MIN/MAX give an attained lower/upper bound. |
| Nested.MeanIsDefault | src/nyx/main_nyxushie.cpp:424-443 | MEAN and the default branch give identical results. |
| Nested.MeanBetweenMinAndMax | src/nyx/main_nyxushie.cpp:424-438 | The mean of a non-empty column lies between its minimum and maximum. |
| Nested.AggregateColumn | src/nyx/main_nyxushie.cpp:417-445 | The switch computes the column's aggregate, seeding MIN/MAX from row 0. |
| Nested.AggregateRows | src/nyx/main_nyxushie.cpp:414-446 | feaAggregates has one entry per field, each the aggregate of its column. |
| Nested.ParentRow | src/nyx/main_nyxushie.cpp:335-450 | A parent's row is its record followed by the children aligned and padded as the code pads them, or by the aggregates. |
| Nested.ShapeAllParents | src/nyx/main_nyxushie.cpp:248-455 | Returns false exactly when there are no parents, the first parent's table is missing, or it lacks the first parent's record; the table is then empty. Otherwise true, with maxChildren the largest child count and one row per parent with a record, in order, padded as the code pads them. |
| Nested.AlignedRowsAsWritten | src/nyx/main_nyxushie.cpp:340-375 | Every aligned row of the table as the code builds it has maxChildren or maxChildren - 1 child groups. |
| Nested.AlignedRowsAreFull | src/nyx/main_nyxushie.cpp:340-375 | In the table built with the corrected padding, every aligned row has exactly maxChildren child groups. |
| Nested.AggregatedRowsAreFull | src/nyx/main_nyxushie.cpp:376-450 | Every aggregated row has one aggregate per field. |
| Nested.RelationsAreParentChild | src/nyx/main_nyxushie.cpp:225-232 | (p, c) is listed exactly when p is a parent and c one of its children. |
| Nested.OutputRelationalTable | src/nyx/main_nyxushie.cpp:204-238 | Returns false exactly for no parents. Otherwise it returns true with the list of (parent, child) pairs in parent order. |

## Left out

- Floating-point statistics are not modelled. This covers the mean and
  central-moment recurrences, variance, MAD, standard deviation, skewness,
  kurtosis, RMS, the centroid division, extent, the recomputation branch
  and the ellipse fit. Feature values of the nested tables are `real`:
  neither the float-to-double widening of a parsed cell nor rounding is
  modelled.
- The histogram module is not part of this model. The record's histogram
  is the multiset of intensities it was given, one observation per pixel.
- The AABB type is declared in a header that is not part of this model. It
  is modelled as (xmin, xmax, ymin, ymax): initialising sets both bounds to
  the coordinate, and updating widens them. This is an assumption.
- Integer widths are not modelled. Coordinates, intensities and counts are
  unbounded, with no 32-bit wrap-around.
- The registry is updated sequentially. Locking and thread use are not
  modelled.
- The external feature modules are not modelled. Contour, convex hull,
  hexagonality and the spatial hash are function parameters; contour and
  hull are reduced to their sizes. The Euler number, Feret, Martin,
  Nassenstein, enclosing circles, geodetic length, Haralick and Zernike
  computations are recorded stage names. The hash is assumed to map into
  0..9999.
- The gate code `TEXTURE_HARALICK2D` is not a member of `AvailableFeatures`
  in src/nyx/featureset.h, so it is a parameter of the reduction. The name-table entry and the Zernike
  gate `TEXTURE_ZERNIKE2D` map to the enumerated `ZERNIKE2D`.
- The disabled quadratic neighbour scheme is not modelled. The broad phase
  calls `aabbNoOverlap` (src/nyx/features_calc_workflow.cpp:708), which is
  defined in a file that is not part of this model. `Neighbors.Overlaps`
  takes it to be the negation of the inline separation test of the disabled
  scheme (src/nyx/features_calc_workflow.cpp:643-644). This is an
  assumption.
- Console output is not modelled, including the debug print in
  `featureSetInvoker` that reads `calcResultBuf[0]`. File-system checks,
  CSV reading and writing, and file-name handling are not modelled either.
  A read record is a `parentRecord`/`childRecord` function, the file check
  is the `csvExists` flag, and a cell parser is the `parse` function.
- Reduction.HexagonalityPass: the minimum and maximum Feret diameters are
  not passed to the hexagonality function. The code passes them, and only
  the gated Feret stage sets them, so the model does not capture that
  hexagonality depends on whether that stage ran. The perimeter and the
  hull area are represented by the contour and hull sizes.
- Reduction.ReduceAllLabels requires non-negative pixel coordinates, since
  the extrema scans use -1 as their "not found" marker.
- ExtremaPass.ScanExtremes, ExtremaPass.ScanBoundary and
  ExtremaPass.FindExtrema require non-negative coordinates for the same
  reason: a -1 sentinel only works below every real coordinate.
- Nested.ShapeAllParents: the header row is left out. The table is
  produced as rows, not text.
- Nested.ShapeAllParents requires every record to have the table's width
  (`UniformWidth`). The code sizes padding and aggregation by the
  last-read record, whichever record that is.
- Nested.ShapeAllParents requires, for MIN and MAX, at least one readable
  child per parent that has a record (`ChildrenReadable`). Without one, the
  code reads row 0 of an empty buffer.
- Invoker.FeatureSetInvoker takes the outcomes of reading and processing
  the dataset (two failure flags, the registry and the result buffer) as
  parameters. The pybind11 glue is not modelled.
- Invoker.FeatureSetInvoker does not model status 6: `new` throws rather
  than returning null, so this status never occurs.
- Invoker.Details: the shape-mismatch message omits the trailing source
  file name and line number.
- FeatureGate.FeatureSet.IsEnabled requires a non-negative code, since the
  source has no lower-bound check.

## Findings

| source | as written | input that shows it | evidently intended | confidence | as-written member | corrected member |
|---|---|---|---|---|---|---|
| src/nyx/features_calc_workflow.cpp:692-717 | Both counts rise for every pair of bucket entries (l1, l2) with l1 < l2 and overlapping boxes. Labels sharing several entries in a bucket are counted once per entry pair, with no per-pair deduplication. | Labels 1 and 2 are one-pixel ROIs at (0,0) and (1,0), radius 5, and all eight corners hash to bucket 0. Bucket 0 holds [1,1,1,1,2,2,2,2], and label 1 gets 16 neighbours. | Each touching pair counted once, so label 1 has 1 neighbour. | not executed | Neighbors.SharedBucketCountsSixteen | Neighbors.ReduceNeighbors |
| src/nyx/main_nyxushie.cpp:366-374 | Blank groups are written only when iCh < max_n_children, where iCh is one more than the number of children found. | max_n_children = 2 and one child record found: iCh = 2, no padding, and the row has 1 child group. | Pad whenever iCh ≤ max_n_children, so every row has max_n_children groups. | not executed | Nested.AlignChildrenAsWritten | Nested.AlignChildren |

The code's own disabled quadratic scheme
(src/nyx/features_calc_workflow.cpp:626-673) counts each touching pair once,
but the hash-based broad phase does not. The model follows the broad phase in
`Neighbors.ReduceNeighborsAsWritten`, and so does `Reduction.ReduceAllLabels`
(see the first finding).
