/** Nested ROIs: parents (segments of the first channel) that contain child
    segments (of the second channel). For every parent with a record in the
    per-image feature table, one output row holds the parent's fields
    followed either by its children's fields, aligned into a fixed number of
    child groups and padded with blank groups, or by one aggregate per
    column over its children's rows. Reading the feature tables is outside
    this model: the records found, the success of the file check and the
    cell parser are inputs. */
module Nested {
  import opened LabelRecords

  /** The fields of one ROI's row in a feature table. */
  type CsvRecord = seq<string>

  /** How child features are folded into the parent row: not at all, or by
      sum, mean, minimum, maximum, or the weighted-mean option, which the
      aggregation switch handles in its default branch. */
  datatype Aggregation = ANone | ASum | AMean | AMin | AMax | AWma

  /** An aggregate cell; the mean over no rows divides zero by zero. */
  datatype Cell = Num(v: real) | NaN

  /** One output row. */
  datatype Row =
    | Aligned(parent: CsvRecord, children: seq<CsvRecord>)
    | Aggregated(parent: CsvRecord, aggregates: seq<Cell>)

  /** What the feature tables and the hierarchy provide: the children of
      each parent, the record found for a parent or a child label, the cell
      parser, and the number of fields in every record. */
  datatype Dataset = Dataset(
    childSegs: map<int, seq<int>>,
    parentRecord: int -> Option<CsvRecord>,
    childRecord: int -> Option<CsvRecord>,
    parse: string -> Option<real>,
    width: nat)

  /** A record, if found, has `width` fields. */
  predicate HasWidth(rec: Option<CsvRecord>, width: nat)
  {
    rec.Some? ==> |rec.value| == width
  }

  /** Every record found has the table's width. */
  ghost predicate UniformWidth(d: Dataset)
  {
    && (forall l :: HasWidth(d.parentRecord(l), d.width))
    && (forall l :: HasWidth(d.childRecord(l), d.width))
  }

  /** The child labels of `l`; an unknown label has none. */
  function Children(childSegs: map<int, seq<int>>, l: int): seq<int>
  {
    if l in childSegs then childSegs[l] else []
  }

  /** `m` is the largest child count over `labels`, and 0 when there are none. */
  ghost predicate IsMaxCount(m: nat, labels: set<int>, childSegs: map<int, seq<int>>)
  {
    && (forall l | l in labels :: |Children(childSegs, l)| <= m)
    && (labels == {} ==> m == 0)
    && (labels != {} ==> exists l | l in labels :: |Children(childSegs, l)| == m)
  }

  /** The number of child groups every row is aligned to. */
  method MaxChildren(labels: set<int>, childSegs: map<int, seq<int>>) returns (m: nat)
    ensures forall l | l in labels :: |Children(childSegs, l)| <= m
    ensures labels == {} ==> m == 0
    ensures labels != {} ==> exists l | l in labels :: |Children(childSegs, l)| == m
  {
    m := 0;
    var todo := labels;
    while todo != {}
      invariant todo <= labels
      invariant forall l | l in labels - todo :: |Children(childSegs, l)| <= m
      invariant m == 0 || exists l | l in labels - todo :: |Children(childSegs, l)| == m
      decreases |todo|
    {
      assert (forall y :: y !in todo) ==> todo == {};
      var l :| l in todo;
      var n := |Children(childSegs, l)|;
      if m < n {
        m := n;
      }
      todo := todo - {l};
    }
    if labels != {} && m == 0 {
      assert (forall y :: y !in labels) ==> labels == {};
      var l :| l in labels;
      assert |Children(childSegs, l)| == 0;
    }
  }

  // ---------------------------------------------------------------------
  // Reading the children

  /** The records found for the child labels `chi`, in order; a child
      without a record is skipped. */
  function Found(chi: seq<int>, childRecord: int -> Option<CsvRecord>): (found: seq<CsvRecord>)
    ensures |found| <= |chi|
  {
    if chi == [] then []
    else
      var rec := childRecord(chi[|chi| - 1]);
      Found(chi[..|chi| - 1], childRecord) + (if rec.Some? then [rec.value] else [])
  }

  lemma FoundSnoc(chi: seq<int>, childRecord: int -> Option<CsvRecord>, k: nat)
    requires k < |chi|
    ensures var rec := childRecord(chi[k]);
      Found(chi[..k + 1], childRecord) == Found(chi[..k], childRecord) + (if rec.Some? then [rec.value] else [])
  {
    assert chi[..k + 1][..k] == chi[..k];
  }

  /** With uniform records, every record found has the table's width. */
  lemma {:induction false} FoundWidth(chi: seq<int>, d: Dataset)
    requires UniformWidth(d)
    ensures forall i | 0 <= i < |Found(chi, d.childRecord)| :: |Found(chi, d.childRecord)[i]| == d.width
  {
    if chi != [] {
      var init := chi[..|chi| - 1];
      var rec := d.childRecord(chi[|chi| - 1]);
      FoundWidth(init, d);
      var found, before := Found(chi, d.childRecord), Found(init, d.childRecord);
      assert found == before + (if rec.Some? then [rec.value] else []);
      forall i | 0 <= i < |found|
        ensures |found[i]| == d.width
      {
        if i < |before| {
          assert found[i] == before[i];
        } else {
          assert rec.Some?;
          assert found[i] == rec.value;
          assert UniformWidth(d);
          assert forall l :: HasWidth(d.childRecord(l), d.width);
          assert HasWidth(d.childRecord(chi[|chi| - 1]), d.width);
        }
      }
    }
  }

  /** The child loop: collects the records found and counts them in `iCh`,
      which starts at 1. */
  method FoundRecords(chi: seq<int>, childRecord: int -> Option<CsvRecord>)
    returns (found: seq<CsvRecord>, iCh: int)
    ensures found == Found(chi, childRecord)
    ensures iCh == |found| + 1
  {
    found, iCh := [], 1;
    for k := 0 to |chi|
      invariant found == Found(chi[..k], childRecord)
      invariant iCh == |found| + 1
    {
      FoundSnoc(chi, childRecord, k);
      var rec := childRecord(chi[k]);
      if rec.Some? {
        found := found + [rec.value];
        iCh := iCh + 1;
      }
    }
    assert chi[..|chi|] == chi;
  }

  // ---------------------------------------------------------------------
  // Aligned children and padding

  /** A blank group: one "0" cell per field. */
  function Blank(width: nat): CsvRecord
  {
    seq(width, _ => "0")
  }

  function Blanks(count: nat, width: nat): (b: seq<CsvRecord>)
    ensures |b| == count && forall i | 0 <= i < count :: b[i] == Blank(width)
  {
    seq(count, _ => Blank(width))
  }

  /** The padding loop: blank groups numbered `iCh .. maxChildren`. */
  method PadRow(iCh: int, maxChildren: nat, width: nat) returns (blanks: seq<CsvRecord>)
    requires 1 <= iCh <= maxChildren + 1
    ensures blanks == Blanks(maxChildren + 1 - iCh, width)
  {
    blanks := [];
    for iCh2 := iCh to maxChildren + 1
      invariant blanks == Blanks(iCh2 - iCh, width)
    {
      blanks := blanks + [Blank(width)];
    }
  }

  /** Blank groups after `k` children as the guard is written: only when
      k + 1 < maxChildren, and then maxChildren - k of them. */
  function PaddingAsWritten(k: nat, maxChildren: nat): (n: nat)
    ensures k + 1 != maxChildren ==> n == Padding(k, maxChildren)
    ensures k + 1 == maxChildren ==> k + n + 1 == maxChildren
  {
    if k + 1 < maxChildren then maxChildren - k else 0
  }

  /** Blank groups after `k` children so that the row has maxChildren groups. */
  function Padding(k: nat, maxChildren: nat): (n: nat)
    ensures k <= maxChildren ==> k + n == maxChildren
    ensures maxChildren <= k ==> n == 0
  {
    if k < maxChildren then maxChildren - k else 0
  }

  /** The child groups of one parent as the code is written: the records
      found, then padding only when iCh < maxChildren. A parent one child
      short of the maximum gets no padding and its row is one group short. */
  method AlignChildrenAsWritten(chi: seq<int>, childRecord: int -> Option<CsvRecord>,
                                maxChildren: nat, width: nat)
    returns (groups: seq<CsvRecord>)
    ensures var k := |Found(chi, childRecord)|;
      groups == Found(chi, childRecord) + Blanks(PaddingAsWritten(k, maxChildren), width)
    ensures |Found(chi, childRecord)| + 1 == maxChildren ==> |groups| == maxChildren - 1
    ensures |Found(chi, childRecord)| + 1 < maxChildren ==> |groups| == maxChildren
  {
    var found, iCh := FoundRecords(chi, childRecord);
    groups := found;
    if iCh < maxChildren {
      var blanks := PadRow(iCh, maxChildren, width);
      groups := groups + blanks;
    } else {
      assert Blanks(0, width) == [];
      assert groups == groups + Blanks(0, width);
    }
  }

  /** The child groups of one parent with the guard iCh <= maxChildren: the
      records found, then blank groups up to maxChildren. */
  method AlignChildren(chi: seq<int>, childRecord: int -> Option<CsvRecord>,
                       maxChildren: nat, width: nat)
    returns (groups: seq<CsvRecord>)
    ensures var k := |Found(chi, childRecord)|;
      groups == Found(chi, childRecord) + Blanks(Padding(k, maxChildren), width)
    ensures |Found(chi, childRecord)| <= maxChildren ==> |groups| == maxChildren
    ensures groups[..|Found(chi, childRecord)|] == Found(chi, childRecord)
  {
    var found, iCh := FoundRecords(chi, childRecord);
    groups := found;
    if iCh <= maxChildren {
      var blanks := PadRow(iCh, maxChildren, width);
      groups := groups + blanks;
    } else {
      assert Blanks(0, width) == [];
      assert groups == groups + Blanks(0, width);
    }
  }

  /** The smallest case of the padding defect: two child groups expected, one
      child found, and the guard 2 < 2 emits no blank group. */
  lemma PaddingAsWrittenOneShort()
    ensures 1 + PaddingAsWritten(1, 2) == 1
    ensures 1 + Padding(1, 2) == 2
  {
  }

  // ---------------------------------------------------------------------
  // Parsing and aggregating

  /** A cell that does not parse counts 0. */
  function CellValue(o: Option<real>): real
  {
    if o.Some? then o.value else 0.0
  }

  function ParsedRow(fields: CsvRecord, parse: string -> Option<real>): (row: seq<real>)
    ensures |row| == |fields|
    ensures forall i | 0 <= i < |fields| :: row[i] == CellValue(parse(fields[i]))
  {
    seq(|fields|, i requires 0 <= i < |fields| => CellValue(parse(fields[i])))
  }

  /** Parses one child record into a row of numbers. */
  method ParseRow(fields: CsvRecord, parse: string -> Option<real>) returns (childRow: seq<real>)
    ensures childRow == ParsedRow(fields, parse)
    ensures forall i | 0 <= i < |fields| && parse(fields[i]).None? :: childRow[i] == 0.0
  {
    childRow := [];
    for k := 0 to |fields|
      invariant |childRow| == k
      invariant forall j | 0 <= j < k :: childRow[j] == CellValue(parse(fields[j]))
    {
      var val := 0.0;
      var p := parse(fields[k]);
      if p.Some? {
        val := p.value;
      }
      childRow := childRow + [val];
    }
  }

  function ChildRows(found: seq<CsvRecord>, parse: string -> Option<real>): (rows: seq<seq<real>>)
    ensures |rows| == |found|
    ensures forall i | 0 <= i < |found| :: rows[i] == ParsedRow(found[i], parse)
  {
    seq(|found|, i requires 0 <= i < |found| => ParsedRow(found[i], parse))
  }

  /** The child loop of the aggregating branch: one parsed row per record found. */
  method ReadChildren(chi: seq<int>, childRecord: int -> Option<CsvRecord>, parse: string -> Option<real>)
    returns (aggrBuf: seq<seq<real>>)
    ensures aggrBuf == ChildRows(Found(chi, childRecord), parse)
  {
    aggrBuf := [];
    for k := 0 to |chi|
      invariant aggrBuf == ChildRows(Found(chi[..k], childRecord), parse)
    {
      FoundSnoc(chi, childRecord, k);
      var rec := childRecord(chi[k]);
      if rec.Some? {
        var childRow := ParseRow(rec.value, parse);
        aggrBuf := aggrBuf + [childRow];
      }
    }
    assert chi[..|chi|] == chi;
  }

  /** Column `fea` of the child rows. */
  function Column(rows: seq<seq<real>>, fea: nat): (col: seq<real>)
    requires forall i | 0 <= i < |rows| :: fea < |rows[i]|
    ensures |col| == |rows| && forall i | 0 <= i < |rows| :: col[i] == rows[i][fea]
  {
    seq(|rows|, i requires 0 <= i < |rows| => rows[i][fea])
  }

  function SumOf(s: seq<real>): real
  {
    if s == [] then 0.0 else SumOf(s[..|s| - 1]) + s[|s| - 1]
  }

  /** The minimum step, with the arguments in the order the code passes them. */
  function Smaller(x: real, acc: real): real
  {
    if acc < x then acc else x
  }

  function Larger(x: real, acc: real): real
  {
    if x < acc then acc else x
  }

  function MinOf(s: seq<real>): (r: real)
    requires s != []
    ensures r in s && forall x | x in s :: r <= x
  {
    if |s| == 1 then s[0]
    else
      assert s == s[..|s| - 1] + [s[|s| - 1]];
      Smaller(s[|s| - 1], MinOf(s[..|s| - 1]))
  }

  function MaxOf(s: seq<real>): (r: real)
    requires s != []
    ensures r in s && forall x | x in s :: x <= r
  {
    if |s| == 1 then s[0]
    else
      assert s == s[..|s| - 1] + [s[|s| - 1]];
      Larger(s[|s| - 1], MaxOf(s[..|s| - 1]))
  }

  /** The sum divided by the row count. */
  function MeanOf(col: seq<real>): (c: Cell)
    ensures c == NaN <==> col == []
    ensures c.Num? ==> c.v * |col| as real == SumOf(col)
  {
    if col == [] then NaN else Num(SumOf(col) / |col| as real)
  }

  /** What one column aggregates to. The minimum and the maximum need a row. */
  function Aggregate(m: Aggregation, col: seq<real>): (c: Cell)
    requires m != ANone
    requires (m == AMin || m == AMax) ==> col != []
    ensures m == ASum ==> c == Num(SumOf(col))
    ensures (m == AMean || m == AWma) ==> (c == NaN <==> col == [])
    ensures (m == AMean || m == AWma) && c.Num? ==> c.v * |col| as real == SumOf(col)
    ensures m == AMin ==> c.Num? && c.v in col && forall x | x in col :: c.v <= x
    ensures m == AMax ==> c.Num? && c.v in col && forall x | x in col :: x <= c.v
  {
    match m
    case ASum => Num(SumOf(col))
    case AMin => Num(MinOf(col))
    case AMax => Num(MaxOf(col))
    case AMean => MeanOf(col)
    case AWma => MeanOf(col)
    case ANone => NaN
  }

  /** The mean option and the default branch agree on every column. */
  lemma MeanIsDefault(col: seq<real>)
    ensures Aggregate(AMean, col) == Aggregate(AWma, col)
  {
  }

  lemma ScaleMono(k: real, a: real, b: real)
    requires 0.0 <= k && a <= b
    ensures k * a <= k * b
  {
  }

  /** Every element at least `lo` puts the sum at least |s| * lo. */
  lemma {:induction false} SumAtLeast(s: seq<real>, lo: real)
    requires forall x | x in s :: lo <= x
    ensures |s| as real * lo <= SumOf(s)
  {
    if s != [] {
      var init, n := s[..|s| - 1], |s| as real;
      assert forall x | x in init :: x in s;
      SumAtLeast(init, lo);
      assert lo <= s[|s| - 1] by { assert s[|s| - 1] in s; }
      assert (n - 1.0) * lo + lo == n * lo;
    }
  }

  /** Every element at most `hi` puts the sum at most |s| * hi. */
  lemma {:induction false} SumAtMost(s: seq<real>, hi: real)
    requires forall x | x in s :: x <= hi
    ensures SumOf(s) <= |s| as real * hi
  {
    if s != [] {
      var init, n := s[..|s| - 1], |s| as real;
      assert forall x | x in init :: x in s;
      SumAtMost(init, hi);
      assert s[|s| - 1] <= hi by { assert s[|s| - 1] in s; }
      assert (n - 1.0) * hi + hi == n * hi;
    }
  }

  lemma QuotientBetween(lo: real, sum: real, hi: real, n: real)
    requires 0.0 < n && n * lo <= sum <= n * hi
    ensures lo <= sum / n <= hi
  {
  }

  /** The mean of a column lies between its minimum and its maximum. */
  lemma MeanBetweenMinAndMax(col: seq<real>)
    requires col != []
    ensures MinOf(col) <= Aggregate(AMean, col).v <= MaxOf(col)
  {
    SumAtLeast(col, MinOf(col));
    SumAtMost(col, MaxOf(col));
    QuotientBetween(MinOf(col), SumOf(col), MaxOf(col), |col| as real);
  }

  /** The aggregation switch for one column, with the loops of the source:
      sum and mean accumulate from 0, minimum and maximum start from row 0. */
  method AggregateColumn(m: Aggregation, aggrBuf: seq<seq<real>>, fea: nat) returns (c: Cell)
    requires m != ANone
    requires forall i | 0 <= i < |aggrBuf| :: fea < |aggrBuf[i]|
    requires (m == AMin || m == AMax) ==> aggrBuf != []
    ensures c == Aggregate(m, Column(aggrBuf, fea))
  {
    ghost var col := Column(aggrBuf, fea);
    var n_chi := |aggrBuf|;
    if m == AMin || m == AMax {
      var aggResult := aggrBuf[0][fea];
      for child := 0 to n_chi
        invariant child == 0 ==> aggResult == col[0]
        invariant child > 0 && m == AMin ==> aggResult == MinOf(col[..child])
        invariant child > 0 && m == AMax ==> aggResult == MaxOf(col[..child])
      {
        assert col[..child + 1][..child] == col[..child];
        if m == AMin {
          aggResult := Smaller(aggrBuf[child][fea], aggResult);
        } else {
          aggResult := Larger(aggrBuf[child][fea], aggResult);
        }
      }
      assert col[..n_chi] == col;
      c := Num(aggResult);
    } else {
      var aggResult := 0.0;
      for child := 0 to n_chi
        invariant aggResult == SumOf(col[..child])
      {
        assert col[..child + 1][..child] == col[..child];
        aggResult := aggResult + aggrBuf[child][fea];
      }
      assert col[..n_chi] == col;
      if m == ASum {
        c := Num(aggResult);
      } else if n_chi == 0 {
        c := NaN;
      } else {
        c := Num(aggResult / n_chi as real);
      }
    }
  }

  function Aggregates(m: Aggregation, rows: seq<seq<real>>, width: nat): (cells: seq<Cell>)
    requires m != ANone
    requires forall i | 0 <= i < |rows| :: width <= |rows[i]|
    requires (m == AMin || m == AMax) ==> rows != []
    ensures |cells| == width
  {
    seq(width, fea requires 0 <= fea < width => Aggregate(m, Column(rows, fea)))
  }

  /** One aggregate per column of the record, in column order. */
  method AggregateRows(m: Aggregation, aggrBuf: seq<seq<real>>, width: nat)
    returns (feaAggregates: seq<Cell>)
    requires m != ANone
    requires forall i | 0 <= i < |aggrBuf| :: width <= |aggrBuf[i]|
    requires (m == AMin || m == AMax) ==> aggrBuf != []
    ensures |feaAggregates| == width
    ensures forall fea | 0 <= fea < width :: feaAggregates[fea] == Aggregate(m, Column(aggrBuf, fea))
  {
    feaAggregates := [];
    for fea := 0 to width
      invariant |feaAggregates| == fea
      invariant forall j | 0 <= j < fea :: feaAggregates[j] == Aggregate(m, Column(aggrBuf, j))
    {
      var aggResult := AggregateColumn(m, aggrBuf, fea);
      feaAggregates := feaAggregates + [aggResult];
    }
  }

  // ---------------------------------------------------------------------
  // The table

  /** Aggregation by minimum or maximum reads row 0, so it needs every
      parent with a record to have at least one child record. */
  predicate ChildrenReadable(d: Dataset, aggr: Aggregation, P: seq<int>)
  {
    (aggr == AMin || aggr == AMax) ==>
      forall i | 0 <= i < |P| && d.parentRecord(P[i]).Some? :: Found(Children(d.childSegs, P[i]), d.childRecord) != []
  }

  /** Blank groups after `k` children: as the guard is written, or as
      corrected. */
  function PadCount(corrected: bool, k: nat, maxChildren: nat): nat
  {
    if corrected then Padding(k, maxChildren) else PaddingAsWritten(k, maxChildren)
  }

  /** The output row of parent `l`, whose record is `parent`, padded by the
      written guard or by the corrected one. */
  function RowFor(d: Dataset, aggr: Aggregation, maxChildren: nat, l: int, parent: CsvRecord, corrected: bool): Row
    requires UniformWidth(d)
    requires (aggr == AMin || aggr == AMax) ==> Found(Children(d.childSegs, l), d.childRecord) != []
  {
    var found := Found(Children(d.childSegs, l), d.childRecord);
    if aggr == ANone then
      Aligned(parent, found + Blanks(PadCount(corrected, |found|, maxChildren), d.width))
    else
      FoundWidth(Children(d.childSegs, l), d);
      Aggregated(parent, Aggregates(aggr, ChildRows(found, d.parse), d.width))
  }

  /** One row per parent that has a record, in the order of `P`. */
  function Table(d: Dataset, aggr: Aggregation, maxChildren: nat, P: seq<int>, corrected: bool): seq<Row>
    requires UniformWidth(d) && ChildrenReadable(d, aggr, P)
  {
    if P == [] then []
    else
      var l, rec := P[|P| - 1], d.parentRecord(P[|P| - 1]);
      assert ChildrenReadable(d, aggr, P[..|P| - 1]);
      Table(d, aggr, maxChildren, P[..|P| - 1], corrected)
      + (if rec.Some? then [RowFor(d, aggr, maxChildren, l, rec.value, corrected)] else [])
  }

  /** The row of one parent as the code writes it: aligned children padded
      by the written guard, or aggregates. */
  method ParentRow(d: Dataset, aggr: Aggregation, maxChildren: nat, l: int, parent: CsvRecord)
    returns (row: Row)
    requires UniformWidth(d)
    requires (aggr == AMin || aggr == AMax) ==> Found(Children(d.childSegs, l), d.childRecord) != []
    ensures row == RowFor(d, aggr, maxChildren, l, parent, false)
  {
    var chi := Children(d.childSegs, l);
    if aggr == ANone {
      var groups := AlignChildrenAsWritten(chi, d.childRecord, maxChildren, d.width);
      row := Aligned(parent, groups);
    } else {
      var aggrBuf := ReadChildren(chi, d.childRecord, d.parse);
      FoundWidth(chi, d);
      var feaAggregates := AggregateRows(aggr, aggrBuf, d.width);
      row := Aggregated(parent, feaAggregates);
    }
  }

  /** Writes the nested-feature table of the parents `P`. Returns false when
      there are no parents, when the first parent's table is not there, or
      when it holds no record for the first parent; otherwise true with one
      row per parent that has a record, padded by the written guard. */
  method ShapeAllParents(P: seq<int>, uniqueLabels1: set<int>, d: Dataset, aggr: Aggregation, csvExists: bool)
    returns (ok: bool, rows: seq<Row>, ghost maxChildren: nat)
    requires UniformWidth(d) && ChildrenReadable(d, aggr, P)
    ensures P == [] ==> !ok
    ensures ok <==> P != [] && csvExists && d.parentRecord(P[0]).Some?
    ensures !ok ==> rows == []
    ensures ok ==> IsMaxCount(maxChildren, uniqueLabels1, d.childSegs) && rows == Table(d, aggr, maxChildren, P, false)
  {
    maxChildren := 0;
    if |P| == 0 {
      return false, [], maxChildren;
    }
    var max_n_children := MaxChildren(uniqueLabels1, d.childSegs);
    maxChildren := max_n_children;
    if !csvExists || d.parentRecord(P[0]).None? {
      return false, [], maxChildren;
    }
    rows := [];
    for i := 0 to |P|
      invariant ChildrenReadable(d, aggr, P[..i])
      invariant rows == Table(d, aggr, max_n_children, P[..i], false)
    {
      assert P[..i + 1][..i] == P[..i];
      var l := P[i];
      var rec := d.parentRecord(l);
      if rec.Some? {
        var row := ParentRow(d, aggr, max_n_children, l, rec.value);
        rows := rows + [row];
      }
    }
    assert P[..|P|] == P;
    ok := true;
  }

  /** With the corrected padding, every aligned row has exactly maxChildren
      child groups when every parent is among the labels the maximum was
      taken over. */
  lemma {:induction false} AlignedRowsAreFull(d: Dataset, maxChildren: nat, P: seq<int>, labels: set<int>)
    requires UniformWidth(d) && ChildrenReadable(d, ANone, P)
    requires IsMaxCount(maxChildren, labels, d.childSegs)
    requires forall i | 0 <= i < |P| :: P[i] in labels
    ensures forall r | r in Table(d, ANone, maxChildren, P, true) :: r.Aligned? && |r.children| == maxChildren
  {
    if P != [] {
      var l := P[|P| - 1];
      AlignedRowsAreFull(d, maxChildren, P[..|P| - 1], labels);
      assert |Found(Children(d.childSegs, l), d.childRecord)| <= |Children(d.childSegs, l)| <= maxChildren;
    }
  }

  /** As the guard is written, a parent with maxChildren - 1 child records
      gets a row one group short; every other parent gets maxChildren groups. */
  lemma RowForAsWritten(d: Dataset, maxChildren: nat, l: int, parent: CsvRecord)
    requires UniformWidth(d)
    requires |Found(Children(d.childSegs, l), d.childRecord)| <= maxChildren
    ensures var r := RowFor(d, ANone, maxChildren, l, parent, false);
      && r.Aligned?
      && (|Found(Children(d.childSegs, l), d.childRecord)| + 1 == maxChildren ==> |r.children| == maxChildren - 1)
      && (|Found(Children(d.childSegs, l), d.childRecord)| + 1 != maxChildren ==> |r.children| == maxChildren)
  {
  }

  /** As the guard is written, every aligned row has maxChildren groups or
      one fewer. */
  lemma {:induction false} AlignedRowsAsWritten(d: Dataset, maxChildren: nat, P: seq<int>, labels: set<int>)
    requires UniformWidth(d) && ChildrenReadable(d, ANone, P)
    requires IsMaxCount(maxChildren, labels, d.childSegs)
    requires forall i | 0 <= i < |P| :: P[i] in labels
    ensures forall r | r in Table(d, ANone, maxChildren, P, false) ::
      r.Aligned? && (|r.children| == maxChildren || |r.children| + 1 == maxChildren)
  {
    if P != [] {
      var l := P[|P| - 1];
      AlignedRowsAsWritten(d, maxChildren, P[..|P| - 1], labels);
      assert |Found(Children(d.childSegs, l), d.childRecord)| <= |Children(d.childSegs, l)| <= maxChildren;
    }
  }

  /** Every aggregated row has one cell per field. */
  lemma {:induction false} AggregatedRowsAreFull(d: Dataset, aggr: Aggregation, maxChildren: nat, P: seq<int>)
    requires UniformWidth(d) && ChildrenReadable(d, aggr, P) && aggr != ANone
    ensures forall r | r in Table(d, aggr, maxChildren, P, false) :: r.Aggregated? && |r.aggregates| == d.width
  {
    if P != [] {
      assert ChildrenReadable(d, aggr, P[..|P| - 1]);
      AggregatedRowsAreFull(d, aggr, maxChildren, P[..|P| - 1]);
    }
  }

  // ---------------------------------------------------------------------
  // The relational table

  function Pairs(p: int, chi: seq<int>): (r: seq<(int, int)>)
    ensures |r| == |chi| && forall j | 0 <= j < |chi| :: r[j] == (p, chi[j])
  {
    seq(|chi|, j requires 0 <= j < |chi| => (p, chi[j]))
  }

  /** One (parent, child) pair per child of every parent, in order. */
  function Relations(P: seq<int>, childSegs: map<int, seq<int>>): seq<(int, int)>
  {
    if P == [] then []
    else Relations(P[..|P| - 1], childSegs) + Pairs(P[|P| - 1], Children(childSegs, P[|P| - 1]))
  }

  /** A pair is listed exactly when its parent is in `P` and its child is one
      of that parent's children. */
  lemma {:induction false} RelationsAreParentChild(P: seq<int>, childSegs: map<int, seq<int>>, p: int, c: int)
    ensures (p, c) in Relations(P, childSegs) <==> p in P && c in Children(childSegs, p)
  {
    if P != [] {
      var init, last := P[..|P| - 1], P[|P| - 1];
      RelationsAreParentChild(init, childSegs, p, c);
      assert P == init + [last];
      var tail := Pairs(last, Children(childSegs, last));
      assert (p, c) in tail <==> p == last && c in Children(childSegs, last) by {
        if (p, c) in tail {
          var j :| 0 <= j < |tail| && tail[j] == (p, c);
        }
        if p == last && c in Children(childSegs, last) {
          var j :| 0 <= j < |Children(childSegs, last)| && Children(childSegs, last)[j] == c;
          assert tail[j] == (p, c);
        }
      }
    }
  }

  /** Writes one (parent, child) line per child of every parent; false when
      there are no parents. */
  method OutputRelationalTable(P: seq<int>, childSegs: map<int, seq<int>>)
    returns (ok: bool, relations: seq<(int, int)>)
    ensures ok <==> P != []
    ensures relations == Relations(P, childSegs)
  {
    if |P| == 0 {
      return false, [];
    }
    relations := [];
    for i := 0 to |P|
      invariant relations == Relations(P[..i], childSegs)
    {
      assert P[..i + 1][..i] == P[..i];
      var l_par := P[i];
      var chi := Children(childSegs, l_par);
      ghost var before := relations;
      for j := 0 to |chi|
        invariant relations == before + Pairs(l_par, chi[..j])
      {
        relations := relations + [(l_par, chi[j])];
      }
      assert chi[..|chi|] == chi;
    }
    assert P[..|P|] == P;
    ok := true;
  }
}
