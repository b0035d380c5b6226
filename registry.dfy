/** The pipeline's label registry: the set of labels seen so far and one
    record per label, filled pixel by pixel during the online scan. */
module Registry {
  import opened LabelRecords

  /** One scanned pixel of the mask/intensity image pair. */
  datatype Observation = Observation(x: int, y: int, roiLabel: int, intensity: nat)

  function PixelOf(o: Observation): Pixel2
  {
    Pixel2(o.x, o.y, o.intensity)
  }

  /** The labels that occur in a run of observations. */
  ghost function LabelsOf(log: seq<Observation>): set<int>
  {
    if log == [] then {} else LabelsOf(log[..|log| - 1]) + {log[|log| - 1].roiLabel}
  }

  /** The pixels of label `l`, in arrival order. */
  ghost function PixelsOfLabel(log: seq<Observation>, l: int): seq<Pixel2>
  {
    if log == [] then []
    else
      var o := log[|log| - 1];
      PixelsOfLabel(log[..|log| - 1], l) + (if o.roiLabel == l then [PixelOf(o)] else [])
  }

  function PixelCount(r: LabelRecord): int { r.pixelCountRoiArea }
  function NumNeighbors(r: LabelRecord): int { r.numNeighbors }

  /** Sum of the values of a map, in no particular order. */
  ghost function SumValues(m: map<int, int>): int
    decreases |m|
  {
    if |m| == 0 then 0
    else
      assert (forall y :: y !in m) ==> m == map[];
      var k :| k in m;
      assert |m - {k}| < |m| by {
        assert (m - {k}).Keys == m.Keys - {k};
      }
      m[k] + SumValues(m - {k})
  }

  lemma {:induction false} SumValuesRemove(m: map<int, int>, k: int)
    requires k in m
    ensures SumValues(m) == m[k] + SumValues(m - {k})
    decreases |m|
  {
    var k' :| k' in m && SumValues(m) == m[k'] + SumValues(m - {k'});
    if k' != k {
      var without', without := m - {k'}, m - {k};
      RemoveShrinks(m, k');
      RemoveShrinks(m, k);
      SumValuesRemove(without', k);
      SumValuesRemove(without, k');
      RemoveCommutes(m, k, k');
    }
  }

  lemma RemoveShrinks(m: map<int, int>, k: int)
    requires k in m
    ensures |m - {k}| == |m| - 1
  {
    assert (m - {k}).Keys == m.Keys - {k};
  }

  lemma RemoveCommutes(m: map<int, int>, a: int, b: int)
    ensures m - {a} - {b} == m - {b} - {a}
  {
  }

  /** Replacing or adding one entry changes the sum by that entry alone. */
  lemma SumValuesUpdate(m: map<int, int>, k: int, v: int)
    ensures SumValues(m[k := v]) == SumValues(m) + v - (if k in m then m[k] else 0)
  {
    SumValuesRemove(m[k := v], k);
    UpdateThenRemove(m, k, v);
    if k in m {
      SumValuesRemove(m, k);
    } else {
      assert m - {k} == m;
    }
  }

  lemma UpdateThenRemove(m: map<int, int>, k: int, v: int)
    ensures m[k := v] - {k} == m - {k}
  {
  }

  lemma SameEntries(a: map<int, int>, b: map<int, int>)
    requires a.Keys == b.Keys
    requires forall k | k in a :: a[k] == b[k]
    ensures a == b
  {
    assert (forall k :: (k in a <==> k in b) && (k in a ==> a[k] == b[k])) ==> a == b;
  }

  /** Sum of `f` over the records of a registry. */
  ghost function SumOver(m: map<int, LabelRecord>, f: LabelRecord -> int): int
  {
    SumValues(map l | l in m :: f(m[l]))
  }

  lemma SumOverUpdate(m: map<int, LabelRecord>, k: int, v: LabelRecord, f: LabelRecord -> int)
    ensures SumOver(m[k := v], f) == SumOver(m, f) + f(v) - (if k in m then f(m[k]) else 0)
  {
    var m' := m[k := v];
    var p := map l | l in m :: f(m[l]);
    assert (map l | l in m' :: f(m'[l])) == p[k := f(v)];
    SumValuesUpdate(p, k, f(v));
  }

  /** The records `data` are exactly what scanning `log` from an empty
      registry produces: one record per label seen, holding that label's
      pixels with every summary in step. */
  ghost predicate RecordsFor(log: seq<Observation>, data: map<int, LabelRecord>)
  {
    && data.Keys == LabelsOf(log)
    && (forall l | l in data :: Accumulates(data[l]) && data[l].rawPixels == PixelsOfLabel(log, l))
  }

  lemma PixelsOfLabelAppend(log: seq<Observation>, o: Observation, l: int)
    ensures PixelsOfLabel(log + [o], l)
         == PixelsOfLabel(log, l) + (if o.roiLabel == l then [PixelOf(o)] else [])
  {
    assert (log + [o])[..|log|] == log;
  }

  /** A label has been seen exactly when it has pixels. */
  lemma {:induction false} LabelSeenIffPixels(log: seq<Observation>, l: int)
    ensures l in LabelsOf(log) <==> PixelsOfLabel(log, l) != []
  {
    if log != [] {
      LabelSeenIffPixels(log[..|log| - 1], l);
    }
  }

  /** The registry after one more observation: a label seen for the first
      time gets a fresh record, a known one has the pixel folded into its
      record, and no other record changes. */
  function ScanStep(data: map<int, LabelRecord>, o: Observation): (r: map<int, LabelRecord>)
    ensures r.Keys == data.Keys + {o.roiLabel}
    ensures forall l | l in data && l != o.roiLabel :: r[l] == data[l]
  {
    data[o.roiLabel :=
      if o.roiLabel in data then UpdateLabelRecord(data[o.roiLabel], o.x, o.y, o.intensity)
      else InitLabelRecord(o.x, o.y, o.intensity)]
  }

  /** The registry an empty one becomes after scanning `log`. */
  function Scan(log: seq<Observation>): map<int, LabelRecord>
  {
    if log == [] then map[] else ScanStep(Scan(log[..|log| - 1]), log[|log| - 1])
  }

  /** After one scan step, each record holds its label's pixels of the
      grown log with every summary in step. */
  lemma ScanStepRecord(log: seq<Observation>, data: map<int, LabelRecord>, o: Observation, l: int)
    requires RecordsFor(log, data)
    requires l in ScanStep(data, o)
    ensures Accumulates(ScanStep(data, o)[l])
    ensures ScanStep(data, o)[l].rawPixels == PixelsOfLabel(log + [o], l)
  {
    PixelsOfLabelAppend(log, o, l);
    if l == o.roiLabel {
      if l !in data {
        LabelSeenIffPixels(log, l);
      } else {
        UpdateLabelRecordAccumulates(data[l], o.x, o.y, o.intensity);
      }
    }
  }

  lemma LabelsOfAppend(log: seq<Observation>, o: Observation)
    ensures LabelsOf(log + [o]) == LabelsOf(log) + {o.roiLabel}
  {
    assert (log + [o])[..|log|] == log;
  }

  /** One scan step keeps the records in step with the grown log. */
  lemma ScanStepKeepsRecords(log: seq<Observation>, data: map<int, LabelRecord>, o: Observation)
    requires RecordsFor(log, data)
    ensures RecordsFor(log + [o], ScanStep(data, o))
  {
    var data' := ScanStep(data, o);
    LabelsOfAppend(log, o);
    forall l | l in data'
      ensures Accumulates(data'[l]) && data'[l].rawPixels == PixelsOfLabel(log + [o], l)
    {
      ScanStepRecord(log, data, o, l);
    }
  }

  /** Scanning any log from an empty registry yields records in step with it. */
  lemma {:induction false} ScanRecords(log: seq<Observation>)
    ensures RecordsFor(log, Scan(log))
  {
    if log != [] {
      var n := |log| - 1;
      var prefix, o := log[..n], log[n];
      assert log == prefix + [o];
      assert Scan(log) == ScanStep(Scan(prefix), o);
      ScanRecords(prefix);
      ScanStepKeepsRecords(prefix, Scan(prefix), o);
    }
  }

  /** How many pixels each label of the log has. */
  ghost function CountsOf(log: seq<Observation>): map<int, int>
  {
    map l | l in LabelsOf(log) :: |PixelsOfLabel(log, l)|
  }

  /** Every observation belongs to exactly one label. */
  lemma {:induction false} CountsOfSum(log: seq<Observation>)
    ensures SumValues(CountsOf(log)) == |log|
  {
    if log == [] {
      assert CountsOf(log) == map[];
    } else {
      var n := |log| - 1;
      var prefix, o := log[..n], log[n];
      assert log == prefix + [o];
      CountsOfSum(prefix);
      CountsOfAppend(prefix, o);
    }
  }

  /** One more observation adds one to its label's count, starting from 0
      for a new label. */
  lemma CountsOfAppend(log: seq<Observation>, o: Observation)
    ensures SumValues(CountsOf(log + [o])) == SumValues(CountsOf(log)) + 1
  {
    var k := |PixelsOfLabel(log, o.roiLabel)|;
    CountsOfAppendMap(log, o);
    if o.roiLabel !in LabelsOf(log) {
      LabelSeenIffPixels(log, o.roiLabel);
    }
    SumValuesUpdate(CountsOf(log), o.roiLabel, k + 1);
  }

  lemma CountsOfAppendMap(log: seq<Observation>, o: Observation)
    ensures CountsOf(log + [o]) == CountsOf(log)[o.roiLabel := |PixelsOfLabel(log, o.roiLabel)| + 1]
  {
    var before, after := CountsOf(log), CountsOf(log + [o]);
    var expected := before[o.roiLabel := |PixelsOfLabel(log, o.roiLabel)| + 1];
    LabelsOfAppend(log, o);
    forall l | l in after ensures after[l] == expected[l] {
      CountOfLabelAppend(log, o, l);
    }
    SameEntries(after, expected);
  }

  lemma CountOfLabelAppend(log: seq<Observation>, o: Observation, l: int)
    requires l in LabelsOf(log + [o])
    ensures |PixelsOfLabel(log + [o], l)| == |PixelsOfLabel(log, l)| + if l == o.roiLabel then 1 else 0
  {
    PixelsOfLabelAppend(log, o, l);
  }

  /** The records of a registry together count every scanned pixel once. */
  lemma TotalPixelCount(log: seq<Observation>, data: map<int, LabelRecord>)
    requires RecordsFor(log, data)
    ensures SumOver(data, PixelCount) == |log|
  {
    var f := PixelCount;
    var counts := map l | l in data :: f(data[l]);
    assert SumOver(data, PixelCount) == SumValues(counts);
    var expected := CountsOf(log);
    assert counts.Keys == expected.Keys;
    assert forall l | l in counts :: counts[l] == expected[l];
    SameEntries(counts, expected);
    CountsOfSum(log);
  }

  /** `data'` holds the same labels as `data`, and each record differs at
      most in what the reduction fills in: its neighbour count, extrema and
      shape fields. */
  ghost predicate SameScan(data: map<int, LabelRecord>, data': map<int, LabelRecord>)
  {
    && data'.Keys == data.Keys
    && forall l | l in data ::
         data'[l] == data[l].(numNeighbors := data'[l].numNeighbors, extrema := data'[l].extrema,
                             shape := data'[l].shape)
  }

  /** Filling in reduction results keeps the records in step with the log. */
  lemma SameScanKeepsRecords(log: seq<Observation>, data: map<int, LabelRecord>, data': map<int, LabelRecord>)
    requires RecordsFor(log, data) && SameScan(data, data')
    ensures RecordsFor(log, data')
  {
    forall l | l in data' ensures Accumulates(data'[l]) && data'[l].rawPixels == PixelsOfLabel(log, l) {
      assert Accumulates(data[l]);
    }
  }

  class LabelRegistry {
    var uniqueLabels: set<int>
    var labelData: map<int, LabelRecord>
    /** Every pixel scanned since the last clear, in arrival order. */
    ghost var log: seq<Observation>

    ghost predicate Valid()
      reads this
    {
      && uniqueLabels == labelData.Keys
      && RecordsFor(log, labelData)
    }

    constructor ()
      ensures Valid() && log == [] && labelData == map[]
    {
      uniqueLabels := {};
      labelData := map[];
      log := [];
    }

    /** Forgets every label and record (`clearLabelStats`). */
    method ClearLabelStats()
      modifies this
      ensures Valid() && log == [] && uniqueLabels == {} && labelData == map[]
    {
      uniqueLabels := {};
      labelData := map[];
      log := [];
    }

    /** Routes one pixel to its label's record (`update_label_stats`): a
        new label gets a fresh record, a known one has the pixel folded in;
        every other record is left alone. Label 0 is not filtered here. */
    method UpdateLabelStats(x: int, y: int, roiLabel: int, intensity: nat)
      requires Valid()
      modifies this
      ensures Valid()
      ensures log == old(log) + [Observation(x, y, roiLabel, intensity)]
      ensures uniqueLabels == old(uniqueLabels) + {roiLabel}
      ensures labelData == ScanStep(old(labelData), Observation(x, y, roiLabel, intensity))
    {
      var o := Observation(x, y, roiLabel, intensity);
      ghost var log0, data0 := log, labelData;
      // inserting a label already present leaves the set as it was
      uniqueLabels := uniqueLabels + {roiLabel};
      labelData := ScanStep(labelData, o);
      log := log + [o];
      ScanStepKeepsRecords(log0, data0, o);
    }
  }

  /** The pixels a label collects do not depend on the order in which the
      scan delivers the observations. */
  lemma {:induction false} PixelsOfLabelPermutation(a: seq<Observation>, b: seq<Observation>, l: int)
    requires multiset(a) == multiset(b)
    ensures multiset(PixelsOfLabel(a, l)) == multiset(PixelsOfLabel(b, l))
    decreases |a|
  {
    if a == [] {
      assert |b| == |multiset(b)| == 0;
    } else {
      var n := |a| - 1;
      var o := a[n];
      assert a == a[..n] + [o];
      var j := SplitAt(a, b);
      var left, right := b[..j], b[j + 1..];
      PixelsOfLabelPermutation(a[..n], left + right, l);
      PixelsOfLabelConcat(left, right, l);
      PixelsOfLabelConcat(left + [o], right, l);
      PixelsOfLabelAppend(left, o, l);
      PixelsOfLabelAppend(a[..n], o, l);
    }
  }

  lemma {:induction false} PixelsOfLabelConcat(a: seq<Observation>, b: seq<Observation>, l: int)
    ensures PixelsOfLabel(a + b, l) == PixelsOfLabel(a, l) + PixelsOfLabel(b, l)
    decreases |b|
  {
    if b == [] {
      assert a + b == a;
    } else {
      var n := |b| - 1;
      assert a + b == (a + b[..n]) + [b[n]];
      assert b == b[..n] + [b[n]];
      PixelsOfLabelConcat(a, b[..n], l);
      PixelsOfLabelAppend(a + b[..n], b[n], l);
      PixelsOfLabelAppend(b[..n], b[n], l);
    }
  }

  /** One label's summary agrees between two registries filled from the
      same observations. */
  lemma LabelSummaryAgrees(log1: seq<Observation>, d1: map<int, LabelRecord>,
                           log2: seq<Observation>, d2: map<int, LabelRecord>, l: int)
    requires multiset(log1) == multiset(log2)
    requires RecordsFor(log1, d1) && RecordsFor(log2, d2)
    requires l in d1 && l in d2
    ensures SummaryOf(d1[l]) == SummaryOf(d2[l])
  {
    PixelsOfLabelPermutation(log1, log2, l);
    SummaryIsOrderIndependent(d1[l], d2[l]);
  }

  lemma SameLabels(log1: seq<Observation>, log2: seq<Observation>)
    requires multiset(log1) == multiset(log2)
    ensures LabelsOf(log1) == LabelsOf(log2)
  {
    forall l ensures l in LabelsOf(log1) <==> l in LabelsOf(log2) {
      LabelSeenIffPixels(log1, l);
      LabelSeenIffPixels(log2, l);
      PixelsOfLabelPermutation(log1, log2, l);
      assert |PixelsOfLabel(log1, l)| == |multiset(PixelsOfLabel(log1, l))|;
      assert |PixelsOfLabel(log2, l)| == |multiset(PixelsOfLabel(log2, l))|;
    }
  }

  /** Two registries filled from the same observations in different orders
      hold the same labels with the same summaries. */
  lemma ScanIsOrderIndependent(log1: seq<Observation>, log2: seq<Observation>)
    requires multiset(log1) == multiset(log2)
    ensures Scan(log1).Keys == Scan(log2).Keys
    ensures forall l | l in Scan(log1) :: SummaryOf(Scan(log1)[l]) == SummaryOf(Scan(log2)[l])
  {
    var d1, d2 := Scan(log1), Scan(log2);
    ScanRecords(log1);
    ScanRecords(log2);
    SameLabels(log1, log2);
    forall l | l in d1 ensures SummaryOf(d1[l]) == SummaryOf(d2[l]) {
      LabelSummaryAgrees(log1, d1, log2, d2, l);
    }
  }
}
