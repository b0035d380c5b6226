/** Spatial-hash neighbour counting over all labels' bounding boxes: each
    box's four corners are hashed into one of `M` buckets, and labels that
    share a bucket are checked pairwise for overlap of their boxes dilated by
    a collision radius. */
module Neighbors {
  import opened LabelRecords
  import opened Registry

  /** Number of buckets of the spatial hash table. */
  const M: nat := 10000

  /** The dilated overlap test: the boxes are no farther apart than `radius`
      on either axis. */
  function Overlaps(b1: AABB, b2: AABB, radius: int): bool
  {
    !(b2.xmin > b1.xmax + radius || b2.xmax < b1.xmin - radius
      || b2.ymin > b1.ymax + radius || b2.ymax < b1.ymin - radius)
  }

  lemma OverlapsIsSymmetric(b1: AABB, b2: AABB, radius: int)
    ensures Overlaps(b1, b2, radius) == Overlaps(b2, b1, radius)
  {
  }

  /** How many of the box's corners (xmin,ymin), (xmin,ymax), (xmax,ymin),
      (xmax,ymax) hash to bucket `h`. */
  function CornerCount(b: AABB, spatHash: (int, int, int) -> int, h: int): nat
  {
    (if spatHash(b.xmin, b.ymin, M) == h then 1 else 0)
    + (if spatHash(b.xmin, b.ymax, M) == h then 1 else 0)
    + (if spatHash(b.xmax, b.ymin, M) == h then 1 else 0)
    + (if spatHash(b.xmax, b.ymax, M) == h then 1 else 0)
  }

  ghost predicate HashInRange(spatHash: (int, int, int) -> int)
  {
    forall x: int, y: int :: 0 <= spatHash(x, y, M) < M
  }

  /** `table` has `M` buckets, and bucket `h` holds each label once per
      corner of its box that hashes to `h`. */
  ghost predicate HashTableFor(table: seq<seq<int>>, data: map<int, LabelRecord>, spatHash: (int, int, int) -> int)
  {
    && |table| == M
    && forall h, l | 0 <= h < M ::
         multiset(table[h])[l] == if l in data then CornerCount(data[l].aabb, spatHash, h) else 0
  }

  /** Appends label `l` to bucket `h`. */
  function Push(table: seq<seq<int>>, h: int, l: int): (r: seq<seq<int>>)
    requires 0 <= h < |table|
    ensures |r| == |table|
    ensures forall h', l' | 0 <= h' < |r| ::
      multiset(r[h'])[l'] == multiset(table[h'])[l'] + (if h' == h && l' == l then 1 else 0)
  {
    table[h := table[h] + [l]]
  }

  /** Appends label `l` to the buckets of the four corners of `b`. */
  function PushCorners(table: seq<seq<int>>, b: AABB, l: int, spatHash: (int, int, int) -> int): (r: seq<seq<int>>)
    requires |table| == M && HashInRange(spatHash)
    ensures |r| == M
    ensures forall h, l' | 0 <= h < M ::
      multiset(r[h])[l'] == multiset(table[h])[l'] + (if l' == l then CornerCount(b, spatHash, h) else 0)
  {
    var t1 := Push(table, spatHash(b.xmin, b.ymin, M), l);
    var t2 := Push(t1, spatHash(b.xmin, b.ymax, M), l);
    var t3 := Push(t2, spatHash(b.xmax, b.ymin, M), l);
    var t4 := Push(t3, spatHash(b.xmax, b.ymax, M), l);
    PushCornersCounts(table, t1, t2, t3, t4, b, l, spatHash);
    t4
  }

  lemma PushCornersCounts(table: seq<seq<int>>, t1: seq<seq<int>>, t2: seq<seq<int>>, t3: seq<seq<int>>, t4: seq<seq<int>>,
                          b: AABB, l: int, spatHash: (int, int, int) -> int)
    requires |table| == M && HashInRange(spatHash)
    requires 0 <= spatHash(b.xmin, b.ymin, M) < M && t1 == Push(table, spatHash(b.xmin, b.ymin, M), l)
    requires 0 <= spatHash(b.xmin, b.ymax, M) < M && t2 == Push(t1, spatHash(b.xmin, b.ymax, M), l)
    requires 0 <= spatHash(b.xmax, b.ymin, M) < M && t3 == Push(t2, spatHash(b.xmax, b.ymin, M), l)
    requires 0 <= spatHash(b.xmax, b.ymax, M) < M && t4 == Push(t3, spatHash(b.xmax, b.ymax, M), l)
    ensures |t4| == M
    ensures forall h, l' | 0 <= h < M ::
      multiset(t4[h])[l'] == multiset(table[h])[l'] + (if l' == l then CornerCount(b, spatHash, h) else 0)
  {
    forall h, l' | 0 <= h < M
      ensures multiset(t4[h])[l'] == multiset(table[h])[l'] + (if l' == l then CornerCount(b, spatHash, h) else 0)
    {
      assert multiset(t1[h])[l'] == multiset(table[h])[l'] + (if h == spatHash(b.xmin, b.ymin, M) && l' == l then 1 else 0);
      assert multiset(t2[h])[l'] == multiset(t1[h])[l'] + (if h == spatHash(b.xmin, b.ymax, M) && l' == l then 1 else 0);
      assert multiset(t3[h])[l'] == multiset(t2[h])[l'] + (if h == spatHash(b.xmax, b.ymin, M) && l' == l then 1 else 0);
      assert multiset(t4[h])[l'] == multiset(t3[h])[l'] + (if h == spatHash(b.xmax, b.ymax, M) && l' == l then 1 else 0);
    }
  }

  /** `table` has `M` buckets holding the corners of exactly the labels in `done`. */
  ghost predicate PartialTable(table: seq<seq<int>>, data: map<int, LabelRecord>, done: set<int>, spatHash: (int, int, int) -> int)
    requires done <= data.Keys
  {
    && |table| == M
    && forall h, l | 0 <= h < M ::
         multiset(table[h])[l] == if l in done then CornerCount(data[l].aabb, spatHash, h) else 0
  }

  /** Pushing the corners of a label not yet in the table extends it to that label. */
  lemma PartialTableStep(prev: seq<seq<int>>, table: seq<seq<int>>, data: map<int, LabelRecord>, done: set<int>, l: int,
                         spatHash: (int, int, int) -> int)
    requires done <= data.Keys && l in data && l !in done
    requires PartialTable(prev, data, done, spatHash)
    requires |table| == M
    requires forall h, l' | 0 <= h < M ::
      multiset(table[h])[l'] == multiset(prev[h])[l'] + (if l' == l then CornerCount(data[l].aabb, spatHash, h) else 0)
    ensures PartialTable(table, data, done + {l}, spatHash)
  {
  }

  /** First phase: every label's four corners go into their buckets. */
  method BuildHashTable(reg: LabelRegistry, spatHash: (int, int, int) -> int) returns (table: seq<seq<int>>)
    requires reg.uniqueLabels == reg.labelData.Keys && HashInRange(spatHash)
    ensures HashTableFor(table, reg.labelData, spatHash)
  {
    var data := reg.labelData;
    table := seq(M, _ => []);
    assert forall h | 0 <= h < M :: table[h] == [];
    var todo := reg.uniqueLabels;
    while todo != {}
      invariant todo <= data.Keys
      invariant PartialTable(table, data, data.Keys - todo, spatHash)
      decreases |todo|
    {
      assert (forall y :: y !in todo) ==> todo == {};
      var l :| l in todo;
      table := InsertLabel(table, data, data.Keys - todo, l, spatHash);
      MoveOne(data.Keys, todo, l);
      todo := todo - {l};
    }
    NothingPending(data.Keys);
  }

  /** Pushes the four corners of label `l` into their buckets. */
  method InsertLabel(table: seq<seq<int>>, data: map<int, LabelRecord>, ghost done: set<int>, l: int, spatHash: (int, int, int) -> int)
    returns (table': seq<seq<int>>)
    requires done <= data.Keys && l in data && l !in done && HashInRange(spatHash)
    requires PartialTable(table, data, done, spatHash)
    ensures PartialTable(table', data, done + {l}, spatHash)
  {
    table' := PushCorners(table, data[l].aabb, l, spatHash);
    PartialTableStep(table, table', data, done, l, spatHash);
  }

  /** Every entry of the table is a known label. */
  lemma TableEntriesAreLabels(table: seq<seq<int>>, data: map<int, LabelRecord>, spatHash: (int, int, int) -> int)
    requires HashTableFor(table, data, spatHash)
    ensures forall h, i | 0 <= h < |table| && 0 <= i < |table[h]| :: table[h][i] in data
  {
    forall h, i | 0 <= h < |table| && 0 <= i < |table[h]| ensures table[h][i] in data {
      var x := table[h][i];
      assert x in multiset(table[h]);
      assert multiset(table[h])[x] > 0;
    }
  }

  /** Every label held in some bucket has a record. */
  ghost predicate EntriesIn(table: seq<seq<int>>, data: map<int, LabelRecord>)
  {
    forall h, i | 0 <= h < |table| && 0 <= i < |table[h]| :: table[h][i] in data
  }

  // ---------------------------------------------------------------------------
  // The broad phase scans every bucket, and in it every ordered pair of
  // entries (i, j); a pair whose labels are increasing and whose dilated
  // boxes overlap is a hit. The hits, in scan order, are what both versions
  // below count.

  /** Entries `i` and `j` of a bucket are a hit. */
  ghost predicate Qualifies(bin: seq<int>, i: int, j: int, data: map<int, LabelRecord>, radius: int)
  {
    && 0 <= i < |bin| && 0 <= j < |bin| && bin[i] in data && bin[j] in data
    && bin[i] < bin[j] && Overlaps(data[bin[i]].aabb, data[bin[j]].aabb, radius)
  }

  /** Hits of entry `i` against entries `0..n` of a bucket. */
  ghost function RowPairs(bin: seq<int>, i: int, n: nat, data: map<int, LabelRecord>, radius: int): seq<(int, int)>
    requires 0 <= i < |bin| && n <= |bin|
  {
    if n == 0 then []
    else RowPairs(bin, i, n - 1, data, radius) + (if Qualifies(bin, i, n - 1, data, radius) then [(bin[i], bin[n - 1])] else [])
  }

  /** Hits of entries `0..n` of a bucket against all of it. */
  ghost function BinPairs(bin: seq<int>, n: nat, data: map<int, LabelRecord>, radius: int): seq<(int, int)>
    requires n <= |bin|
  {
    if n == 0 then [] else BinPairs(bin, n - 1, data, radius) + RowPairs(bin, n - 1, |bin|, data, radius)
  }

  /** Hits in buckets `0..k`. */
  ghost function TablePairs(table: seq<seq<int>>, k: nat, data: map<int, LabelRecord>, radius: int): seq<(int, int)>
    requires k <= |table|
  {
    if k == 0 then []
    else TablePairs(table, k - 1, data, radius) + BinPairs(table[k - 1], |table[k - 1]|, data, radius)
  }

  /** Hits found before the scan reaches entry pair (i, j) of bucket `h`. */
  ghost function PairsUpTo(table: seq<seq<int>>, h: nat, i: nat, j: nat, data: map<int, LabelRecord>, radius: int): seq<(int, int)>
    requires h < |table| && i <= |table[h]| && j <= |table[h]|
  {
    TablePairs(table, h, data, radius) + BinPairs(table[h], i, data, radius)
      + (if i < |table[h]| then RowPairs(table[h], i, j, data, radius) else [])
  }

  lemma PairsUpToStep(table: seq<seq<int>>, h: nat, i: nat, j: nat, data: map<int, LabelRecord>, radius: int)
    requires h < |table| && i < |table[h]| && j < |table[h]|
    ensures Qualifies(table[h], i, j, data, radius) ==>
      PairsUpTo(table, h, i, j + 1, data, radius) == PairsUpTo(table, h, i, j, data, radius) + [(table[h][i], table[h][j])]
    ensures !Qualifies(table[h], i, j, data, radius) ==>
      PairsUpTo(table, h, i, j + 1, data, radius) == PairsUpTo(table, h, i, j, data, radius)
  {
    var bin := table[h];
    var prefix := TablePairs(table, h, data, radius) + BinPairs(bin, i, data, radius);
    assert PairsUpTo(table, h, i, j, data, radius) == prefix + RowPairs(bin, i, j, data, radius);
    assert PairsUpTo(table, h, i, j + 1, data, radius) == prefix + RowPairs(bin, i, j + 1, data, radius);
    if Qualifies(bin, i, j, data, radius) {
      assert RowPairs(bin, i, j + 1, data, radius) == RowPairs(bin, i, j, data, radius) + [(bin[i], bin[j])];
    } else {
      assert RowPairs(bin, i, j + 1, data, radius) == RowPairs(bin, i, j, data, radius) + [];
    }
  }

  lemma PairsUpToFirstRow(table: seq<seq<int>>, h: nat, data: map<int, LabelRecord>, radius: int)
    requires h < |table|
    ensures PairsUpTo(table, h, 0, 0, data, radius) == TablePairs(table, h, data, radius)
  {
    if 0 < |table[h]| {
      assert RowPairs(table[h], 0, 0, data, radius) == [];
    }
    assert TablePairs(table, h, data, radius) + [] + [] == TablePairs(table, h, data, radius);
  }

  lemma PairsUpToLastRow(table: seq<seq<int>>, h: nat, data: map<int, LabelRecord>, radius: int)
    requires h < |table|
    ensures PairsUpTo(table, h, |table[h]|, 0, data, radius) == TablePairs(table, h + 1, data, radius)
  {
    assert PairsUpTo(table, h, |table[h]|, 0, data, radius)
        == TablePairs(table, h, data, radius) + BinPairs(table[h], |table[h]|, data, radius) + [];
  }

  lemma PairsUpToNextRow(table: seq<seq<int>>, h: nat, i: nat, data: map<int, LabelRecord>, radius: int)
    requires h < |table| && i < |table[h]|
    ensures PairsUpTo(table, h, i + 1, 0, data, radius) == PairsUpTo(table, h, i, |table[h]|, data, radius)
  {
  }

  /** A bucket with at most one entry has no hit. */
  lemma {:induction false} SmallBinHasNoPairs(bin: seq<int>, n: nat, data: map<int, LabelRecord>, radius: int)
    requires |bin| <= 1 && n <= |bin|
    ensures BinPairs(bin, n, data, radius) == []
  {
    if n > 0 {
      SmallBinHasNoPairs(bin, n - 1, data, radius);
      assert !Qualifies(bin, 0, 0, data, radius);
      assert RowPairs(bin, 0, 0, data, radius) == [];
      assert RowPairs(bin, n - 1, |bin|, data, radius) == [];
    }
  }

  /** A hit pairs two known labels, the smaller first, whose boxes grown
      by the radius overlap. */
  ghost predicate IsHit(p: (int, int), data: map<int, LabelRecord>, radius: int)
  {
    p.0 < p.1 && p.0 in data && p.1 in data && Overlaps(data[p.0].aabb, data[p.1].aabb, radius)
  }

  lemma {:induction false} RowPairsAreHits(bin: seq<int>, i: int, n: nat, data: map<int, LabelRecord>, radius: int, p: (int, int))
    requires 0 <= i < |bin| && n <= |bin|
    ensures p in RowPairs(bin, i, n, data, radius) ==> IsHit(p, data, radius)
  {
    if n > 0 {
      RowPairsAreHits(bin, i, n - 1, data, radius, p);
    }
  }

  lemma {:induction false} BinPairsAreHits(bin: seq<int>, n: nat, data: map<int, LabelRecord>, radius: int, p: (int, int))
    requires n <= |bin|
    ensures p in BinPairs(bin, n, data, radius) ==> IsHit(p, data, radius)
  {
    if n > 0 {
      BinPairsAreHits(bin, n - 1, data, radius, p);
      RowPairsAreHits(bin, n - 1, |bin|, data, radius, p);
    }
  }

  /** Everything the scan of buckets `0..k` records is a hit. */
  lemma {:induction false} TablePairsAreHits(table: seq<seq<int>>, k: nat, data: map<int, LabelRecord>, radius: int, p: (int, int))
    requires k <= |table|
    ensures p in TablePairs(table, k, data, radius) ==> IsHit(p, data, radius)
  {
    if k > 0 {
      TablePairsAreHits(table, k - 1, data, radius, p);
      BinPairsAreHits(table[k - 1], |table[k - 1]|, data, radius, p);
    }
  }

  lemma {:induction false} RowPairsFindAll(bin: seq<int>, i: int, j: int, n: nat, data: map<int, LabelRecord>, radius: int)
    requires 0 <= i < |bin| && 0 <= j < n <= |bin| && Qualifies(bin, i, j, data, radius)
    ensures (bin[i], bin[j]) in RowPairs(bin, i, n, data, radius)
    decreases n
  {
    if j < n - 1 {
      RowPairsFindAll(bin, i, j, n - 1, data, radius);
      InAppend((bin[i], bin[j]), RowPairs(bin, i, n - 1, data, radius),
               if Qualifies(bin, i, n - 1, data, radius) then [(bin[i], bin[n - 1])] else []);
    } else {
      assert j == n - 1;
    }
  }

  lemma {:induction false} BinPairsFindAll(bin: seq<int>, i: int, j: int, n: nat, data: map<int, LabelRecord>, radius: int)
    requires 0 <= i < n <= |bin| && 0 <= j < |bin| && Qualifies(bin, i, j, data, radius)
    ensures (bin[i], bin[j]) in BinPairs(bin, n, data, radius)
    decreases n
  {
    if i < n - 1 {
      BinPairsFindAll(bin, i, j, n - 1, data, radius);
    } else {
      assert i == n - 1;
      RowPairsFindAll(bin, i, j, |bin|, data, radius);
    }
    InAppend((bin[i], bin[j]), BinPairs(bin, n - 1, data, radius), RowPairs(bin, n - 1, |bin|, data, radius));
  }

  lemma BucketPairsInTable(table: seq<seq<int>>, h: nat, data: map<int, LabelRecord>, radius: int, p: (int, int))
    requires h < |table| && p in BinPairs(table[h], |table[h]|, data, radius)
    ensures p in TablePairs(table, h + 1, data, radius)
  {
    InAppend(p, TablePairs(table, h, data, radius), BinPairs(table[h], |table[h]|, data, radius));
  }

  /** Scanning more buckets loses no hit. */
  lemma TablePairsGrow(table: seq<seq<int>>, k: nat, k': nat, data: map<int, LabelRecord>, radius: int, p: (int, int))
    requires k <= k' <= |table| && p in TablePairs(table, k, data, radius)
    ensures p in TablePairs(table, k', data, radius)
  {
    var m := k;
    while m < k'
      invariant k <= m <= k' && p in TablePairs(table, m, data, radius)
    {
      TablePairsStep(table, m + 1, data, radius, p);
      m := m + 1;
    }
    assert m == k';
  }

  lemma TablePairsStep(table: seq<seq<int>>, k: nat, data: map<int, LabelRecord>, radius: int, p: (int, int))
    requires 0 < k <= |table| && p in TablePairs(table, k - 1, data, radius)
    ensures p in TablePairs(table, k, data, radius)
  {
    InAppend(p, TablePairs(table, k - 1, data, radius), BinPairs(table[k - 1], |table[k - 1]|, data, radius));
  }

  lemma InAppend<T>(x: T, a: seq<T>, b: seq<T>)
    ensures x in a + b <==> x in a || x in b
  {
  }

  /** How many times label `l` takes part in the hits `ps`. */
  function Occurrences(ps: seq<(int, int)>, l: int): nat
  {
    if ps == [] then 0
    else
      var p := ps[|ps| - 1];
      Occurrences(ps[..|ps| - 1], l) + (if p.0 == l then 1 else 0) + (if p.1 == l then 1 else 0)
  }

  /** The pairs of a set that involve label `l`. */
  function PairsWith(pairs: set<(int, int)>, l: int): set<(int, int)>
  {
    set p | p in pairs && (p.0 == l || p.1 == l)
  }

  /** The labels paired with `l` in a set of pairs. */
  function Partners(pairs: set<(int, int)>, l: int): set<int>
  {
    (set p | p in pairs && p.0 == l :: p.1) + (set p | p in pairs && p.1 == l :: p.0)
  }

  /** Adds one to the neighbour count of `l`. */
  function Bump(data: map<int, LabelRecord>, l: int): (r: map<int, LabelRecord>)
    requires l in data
    ensures r.Keys == data.Keys
    ensures r[l].numNeighbors == data[l].numNeighbors + 1
    ensures r[l] == data[l].(numNeighbors := r[l].numNeighbors)
    ensures forall l' | l' in data && l' != l :: r[l'] == data[l']
  {
    data[l := data[l].(numNeighbors := data[l].numNeighbors + 1)]
  }

  /** `data` is `data0` with each label's neighbour count raised once per
      time it takes part in the hits `ps`, so the total rose by twice `|ps|`. */
  ghost predicate CountedEach(data0: map<int, LabelRecord>, data: map<int, LabelRecord>, ps: seq<(int, int)>)
  {
    && data.Keys == data0.Keys
    && (forall l | l in data0 :: data[l] == data0[l].(numNeighbors := data0[l].numNeighbors + Occurrences(ps, l)))
    && SumOver(data, NumNeighbors) == SumOver(data0, NumNeighbors) + 2 * |ps|
  }

  /** `data` is `data0` with each label's neighbour count raised by the
      number of pairs of `pairs` that involve it, so the total rose by twice
      `|pairs|`. */
  ghost predicate CountedOnce(data0: map<int, LabelRecord>, data: map<int, LabelRecord>, pairs: set<(int, int)>)
  {
    && data.Keys == data0.Keys
    && (forall l | l in data0 :: data[l] == data0[l].(numNeighbors := data0[l].numNeighbors + |PairsWith(pairs, l)|))
    && SumOver(data, NumNeighbors) == SumOver(data0, NumNeighbors) + 2 * |pairs|
  }

  lemma CountedNothing(data0: map<int, LabelRecord>)
    ensures CountedEach(data0, data0, []) && CountedOnce(data0, data0, {})
  {
    forall l | l in data0 ensures PairsWith({}, l) == {} {
    }
  }

  /** A bucket with at most one entry adds no hit. */
  lemma SkipSmallBin(table: seq<seq<int>>, h: nat, data: map<int, LabelRecord>, radius: int)
    requires h < |table| && |table[h]| <= 1
    ensures TablePairs(table, h + 1, data, radius) == TablePairs(table, h, data, radius)
  {
    SmallBinHasNoPairs(table[h], |table[h]|, data, radius);
    assert TablePairs(table, h + 1, data, radius) == TablePairs(table, h, data, radius) + [];
  }

  /** Two increments raise the total neighbour count by two. */
  lemma BumpTwiceSum(data: map<int, LabelRecord>, l1: int, l2: int)
    requires l1 in data && l2 in data
    ensures SumOver(Bump(Bump(data, l1), l2), NumNeighbors) == SumOver(data, NumNeighbors) + 2
  {
    var d1 := Bump(data, l1);
    var d2 := Bump(d1, l2);
    SumOverUpdate(data, l1, d1[l1], NumNeighbors);
    assert d1 == data[l1 := d1[l1]];
    SumOverUpdate(d1, l2, d2[l2], NumNeighbors);
    assert d2 == d1[l2 := d2[l2]];
  }

  /** Both increments of one hit. */
  lemma {:induction false} CountedEachStep(data0: map<int, LabelRecord>, data: map<int, LabelRecord>, ps: seq<(int, int)>, l1: int, l2: int)
    requires CountedEach(data0, data, ps) && l1 in data0 && l2 in data0 && l1 != l2
    ensures CountedEach(data0, Bump(Bump(data, l1), l2), ps + [(l1, l2)])
  {
    var d2 := Bump(Bump(data, l1), l2);
    forall l | l in data0
      ensures d2[l] == data0[l].(numNeighbors := data0[l].numNeighbors + Occurrences(ps + [(l1, l2)], l))
    {
      OccurrencesAppend(ps, (l1, l2), l);
    }
    BumpTwiceSum(data, l1, l2);
  }

  lemma OccurrencesAppend(ps: seq<(int, int)>, q: (int, int), l: int)
    ensures Occurrences(ps + [q], l) == Occurrences(ps, l) + (if q.0 == l then 1 else 0) + (if q.1 == l then 1 else 0)
  {
    assert (ps + [q])[..|ps|] == ps;
  }

  /** A new pair counts once for each of its two labels and for no other. */
  lemma PairsWithAdd(pairs: set<(int, int)>, l1: int, l2: int, l: int)
    requires l1 != l2 && (l1, l2) !in pairs
    ensures |PairsWith(pairs + {(l1, l2)}, l)| == |PairsWith(pairs, l)| + (if l == l1 || l == l2 then 1 else 0)
  {
    if l == l1 || l == l2 {
      assert PairsWith(pairs + {(l1, l2)}, l) == PairsWith(pairs, l) + {(l1, l2)};
    } else {
      assert PairsWith(pairs + {(l1, l2)}, l) == PairsWith(pairs, l);
    }
  }

  /** Both increments of a pair not counted before. */
  lemma {:induction false} CountedOnceStep(data0: map<int, LabelRecord>, data: map<int, LabelRecord>, pairs: set<(int, int)>, l1: int, l2: int)
    requires CountedOnce(data0, data, pairs) && l1 in data0 && l2 in data0 && l1 != l2 && (l1, l2) !in pairs
    ensures CountedOnce(data0, Bump(Bump(data, l1), l2), pairs + {(l1, l2)})
  {
    var pairs' := pairs + {(l1, l2)};
    var d2 := Bump(Bump(data, l1), l2);
    forall l | l in data0
      ensures d2[l] == data0[l].(numNeighbors := data0[l].numNeighbors + |PairsWith(pairs', l)|)
    {
      PairsWithAdd(pairs, l1, l2, l);
    }
    BumpTwiceSum(data, l1, l2);
    assert |pairs'| == |pairs| + 1;
  }

  /** Second phase as the code does it: every hit raises both labels'
      counts, so a pair sharing several bucket entries is counted once per
      shared (bucket, entry, entry). Buckets with at most one entry are
      skipped. */
  method BroadPhaseAsWritten(data0: map<int, LabelRecord>, table: seq<seq<int>>, radius: int) returns (data: map<int, LabelRecord>)
    requires EntriesIn(table, data0) && |table| > 0
    ensures CountedEach(data0, data, TablePairs(table, |table|, data0, radius))
  {
    data := data0;
    CountedNothing(data0);
    var h := 0;
    while h < |table|
      invariant 0 <= h <= |table|
      invariant CountedEach(data0, data, TablePairs(table, h, data0, radius))
    {
      data := ScanBinAsWritten(data0, data, table, h, radius);
      h := h + 1;
    }
    assert h == |table|;
  }

  /** All entries of bucket `h` against each other; a bucket holding at
      most one entry is passed over. */
  method ScanBinAsWritten(ghost data0: map<int, LabelRecord>, data: map<int, LabelRecord>, table: seq<seq<int>>, h: int, radius: int)
    returns (data': map<int, LabelRecord>)
    requires EntriesIn(table, data0) && 0 <= h < |table|
    requires CountedEach(data0, data, TablePairs(table, h, data0, radius))
    ensures CountedEach(data0, data', TablePairs(table, h + 1, data0, radius))
  {
    data' := data;
    if |table[h]| <= 1 {
      SkipSmallBin(table, h, data0, radius);
      return;
    }
    PairsUpToFirstRow(table, h, data0, radius);
    var i := 0;
    while i < |table[h]|
      invariant 0 <= i <= |table[h]|
      invariant CountedEach(data0, data', PairsUpTo(table, h, i, 0, data0, radius))
    {
      data' := ScanRowAsWritten(data0, data', table, h, i, radius);
      PairsUpToNextRow(table, h, i, data0, radius);
      i := i + 1;
    }
    assert i == |table[h]|;
    PairsUpToLastRow(table, h, data0, radius);
  }

  /** Entry `i` of bucket `h` against every entry of it. */
  method ScanRowAsWritten(ghost data0: map<int, LabelRecord>, data: map<int, LabelRecord>, table: seq<seq<int>>, h: int, i: int, radius: int)
    returns (data': map<int, LabelRecord>)
    requires EntriesIn(table, data0) && 0 <= h < |table| && 0 <= i < |table[h]|
    requires CountedEach(data0, data, PairsUpTo(table, h, i, 0, data0, radius))
    ensures CountedEach(data0, data', PairsUpTo(table, h, i, |table[h]|, data0, radius))
  {
    data' := data;
    var j := 0;
    while j < |table[h]|
      invariant 0 <= j <= |table[h]|
      invariant CountedEach(data0, data', PairsUpTo(table, h, i, j, data0, radius))
    {
      data' := CheckPairAsWritten(data0, data', table, h, i, j, radius);
      j := j + 1;
    }
    assert j == |table[h]|;
  }

  /** Entry `i` against entry `j` of bucket `h`: both counts rise when the
      first label is the smaller and the dilated boxes overlap. */
  method CheckPairAsWritten(ghost data0: map<int, LabelRecord>, data: map<int, LabelRecord>, table: seq<seq<int>>,
                            h: int, i: int, j: int, radius: int)
    returns (data': map<int, LabelRecord>)
    requires EntriesIn(table, data0) && 0 <= h < |table| && 0 <= i < |table[h]| && 0 <= j < |table[h]|
    requires CountedEach(data0, data, PairsUpTo(table, h, i, j, data0, radius))
    ensures CountedEach(data0, data', PairsUpTo(table, h, i, j + 1, data0, radius))
  {
    var bin := table[h];
    var l1, l2 := bin[i], bin[j];
    ghost var ps := PairsUpTo(table, h, i, j, data0, radius);
    PairsUpToStep(table, h, i, j, data0, radius);
    assert data[l1].aabb == data0[l1].aabb && data[l2].aabb == data0[l2].aabb;
    data' := data;
    if l1 < l2 {
      if Overlaps(data[l1].aabb, data[l2].aabb, radius) {
        assert Qualifies(bin, i, j, data0, radius);
        CountedEachStep(data0, data, ps, l1, l2);
        data' := Bump(data, l1);
        data' := Bump(data', l2);
      } else {
        assert !Qualifies(bin, i, j, data0, radius);
      }
    } else {
      assert !Qualifies(bin, i, j, data0, radius);
    }
  }

  /** The distinct hits of a scan. */
  function Elements(ps: seq<(int, int)>): set<(int, int)>
  {
    set p | p in ps
  }

  /** The pairs of labels the broad phase finds: ordered labels sharing a
      bucket whose dilated boxes overlap, each pair once. */
  ghost function Candidates(table: seq<seq<int>>, data: map<int, LabelRecord>, radius: int): set<(int, int)>
    requires |table| > 0
  {
    Elements(TablePairs(table, |table|, data, radius))
  }

  /** Every candidate is a pair of two different known labels. */
  lemma CandidatesAreLabelPairs(table: seq<seq<int>>, data: map<int, LabelRecord>, radius: int)
    requires |table| > 0
    ensures forall p | p in Candidates(table, data, radius) :: IsHit(p, data, radius)
  {
    forall p | p in Candidates(table, data, radius) ensures IsHit(p, data, radius) {
      TablePairsAreHits(table, |table|, data, radius, p);
    }
  }

  /** Two labels whose grown boxes overlap and that share a bucket are a
      candidate pair. */
  lemma SharedBucketGivesCandidate(table: seq<seq<int>>, data: map<int, LabelRecord>, radius: int, h: int, i: int, j: int)
    requires 0 <= h < |table| && 0 <= i < |table[h]| && 0 <= j < |table[h]|
    requires table[h][i] in data && table[h][j] in data && table[h][i] < table[h][j]
    requires Overlaps(data[table[h][i]].aabb, data[table[h][j]].aabb, radius)
    ensures (table[h][i], table[h][j]) in Candidates(table, data, radius)
  {
    var bin := table[h];
    assert Qualifies(bin, i, j, data, radius);
    BinPairsFindAll(bin, i, j, |bin|, data, radius);
    BucketPairsInTable(table, h, data, radius, (bin[i], bin[j]));
    TablePairsGrow(table, h + 1, |table|, data, radius, (bin[i], bin[j]));
  }

  /** Second phase with each pair of labels counted once however many
      bucket entries it shares: the hits are gathered first, and each
      distinct pair then raises both labels' counts once. */
  method BroadPhase(data0: map<int, LabelRecord>, table: seq<seq<int>>, radius: int) returns (data: map<int, LabelRecord>)
    requires EntriesIn(table, data0) && |table| > 0
    ensures CountedOnce(data0, data, Candidates(table, data0, radius))
  {
    var hits := CollectHits(data0, table, radius);
    var pairs := set p | p in hits;
    CandidatesAreLabelPairs(table, data0, radius);
    assert forall p | p in pairs :: IsHit(p, data0, radius);
    data := CountPairs(data0, pairs);
  }

  /** Raises both labels' counts once for every pair of `pairs`. */
  method CountPairs(data0: map<int, LabelRecord>, pairs: set<(int, int)>) returns (data: map<int, LabelRecord>)
    requires forall p | p in pairs :: p.0 != p.1 && p.0 in data0 && p.1 in data0
    ensures CountedOnce(data0, data, pairs)
  {
    data := data0;
    CountedNothing(data0);
    var todo := pairs;
    while todo != {}
      invariant todo <= pairs
      invariant CountedOnce(data0, data, pairs - todo)
      decreases |todo|
    {
      assert (forall y :: y !in todo) ==> todo == {};
      var p :| p in todo;
      data := CountPair(data0, data, pairs - todo, p);
      MoveOne(pairs, todo, p);
      todo := todo - {p};
    }
    NothingPending(pairs);
  }

  /** Moving one element from the pending part to the finished part. */
  lemma MoveOne<T>(all: set<T>, todo: set<T>, p: T)
    requires p in todo && todo <= all
    ensures (all - todo) + {p} == all - (todo - {p})
    ensures todo - {p} <= all && |todo - {p}| < |todo|
  {
  }

  lemma NothingPending<T>(all: set<T>)
    ensures all - {} == all
  {
  }

  /** Raises both labels' counts of a pair not counted before. */
  method CountPair(ghost data0: map<int, LabelRecord>, data: map<int, LabelRecord>, ghost done: set<(int, int)>, p: (int, int))
    returns (data': map<int, LabelRecord>)
    requires p.0 != p.1 && p.0 in data0 && p.1 in data0 && p !in done
    requires CountedOnce(data0, data, done)
    ensures CountedOnce(data0, data', done + {p})
  {
    CountedOnceStep(data0, data, done, p.0, p.1);
    data' := Bump(data, p.0);
    data' := Bump(data', p.1);
  }

  /** The hits of the whole table, in scan order. */
  method CollectHits(data0: map<int, LabelRecord>, table: seq<seq<int>>, radius: int) returns (hits: seq<(int, int)>)
    requires EntriesIn(table, data0) && |table| > 0
    ensures hits == TablePairs(table, |table|, data0, radius)
  {
    hits := [];
    var h := 0;
    while h < |table|
      invariant 0 <= h <= |table|
      invariant hits == TablePairs(table, h, data0, radius)
    {
      hits := CollectBin(data0, hits, table, h, radius);
      h := h + 1;
    }
    assert h == |table|;
  }

  /** Appends the hits of bucket `h`; a bucket holding at most one entry
      adds none and is passed over. */
  method CollectBin(data0: map<int, LabelRecord>, hits: seq<(int, int)>, table: seq<seq<int>>, h: int, radius: int)
    returns (hits': seq<(int, int)>)
    requires EntriesIn(table, data0) && 0 <= h < |table|
    requires hits == TablePairs(table, h, data0, radius)
    ensures hits' == TablePairs(table, h + 1, data0, radius)
  {
    hits' := hits;
    if |table[h]| <= 1 {
      SkipSmallBin(table, h, data0, radius);
      return;
    }
    PairsUpToFirstRow(table, h, data0, radius);
    var i := 0;
    while i < |table[h]|
      invariant 0 <= i <= |table[h]|
      invariant hits' == PairsUpTo(table, h, i, 0, data0, radius)
    {
      hits' := CollectRow(data0, hits', table, h, i, radius);
      PairsUpToNextRow(table, h, i, data0, radius);
      i := i + 1;
    }
    assert i == |table[h]|;
    PairsUpToLastRow(table, h, data0, radius);
  }

  /** Appends the hits of entry `i` of bucket `h`. */
  method CollectRow(data0: map<int, LabelRecord>, hits: seq<(int, int)>, table: seq<seq<int>>, h: int, i: int, radius: int)
    returns (hits': seq<(int, int)>)
    requires EntriesIn(table, data0) && 0 <= h < |table| && 0 <= i < |table[h]|
    requires hits == PairsUpTo(table, h, i, 0, data0, radius)
    ensures hits' == PairsUpTo(table, h, i, |table[h]|, data0, radius)
  {
    var bin := table[h];
    var l1 := bin[i];
    hits' := hits;
    var j := 0;
    while j < |bin|
      invariant 0 <= j <= |bin|
      invariant hits' == PairsUpTo(table, h, i, j, data0, radius)
    {
      var l2 := bin[j];
      PairsUpToStep(table, h, i, j, data0, radius);
      if l1 < l2 && Overlaps(data0[l1].aabb, data0[l2].aabb, radius) {
        hits' := hits' + [(l1, l2)];
      }
      j := j + 1;
    }
    assert j == |bin|;
  }

  // ---------------------------------------------------------------------------
  // Properties of the hash table and of the two ways of counting.

  /** How many entries of buckets `0..k` hold label `l`. */
  function Entries(table: seq<seq<int>>, k: nat, l: int): nat
    requires k <= |table|
  {
    if k == 0 then 0 else Entries(table, k - 1, l) + multiset(table[k - 1])[l]
  }

  /** How many of the box's four corners hash below `k`. */
  function CornersBelow(b: AABB, spatHash: (int, int, int) -> int, k: int): nat
  {
    (if spatHash(b.xmin, b.ymin, M) < k then 1 else 0)
    + (if spatHash(b.xmin, b.ymax, M) < k then 1 else 0)
    + (if spatHash(b.xmax, b.ymin, M) < k then 1 else 0)
    + (if spatHash(b.xmax, b.ymax, M) < k then 1 else 0)
  }

  lemma {:induction false} EntriesAreCorners(table: seq<seq<int>>, data: map<int, LabelRecord>, spatHash: (int, int, int) -> int,
                                             k: nat, l: int)
    requires HashTableFor(table, data, spatHash) && HashInRange(spatHash) && k <= M
    ensures Entries(table, k, l) == if l in data then CornersBelow(data[l].aabb, spatHash, k) else 0
  {
    if k > 0 {
      EntriesAreCorners(table, data, spatHash, k - 1, l);
    } else if l in data {
      var b := data[l].aabb;
      assert 0 <= spatHash(b.xmin, b.ymin, M) && 0 <= spatHash(b.xmin, b.ymax, M);
      assert 0 <= spatHash(b.xmax, b.ymin, M) && 0 <= spatHash(b.xmax, b.ymax, M);
    }
  }

  /** Every label enters the table exactly four times, once per corner,
      and nothing else does. */
  lemma EachLabelHasFourEntries(table: seq<seq<int>>, data: map<int, LabelRecord>, spatHash: (int, int, int) -> int, l: int)
    requires HashTableFor(table, data, spatHash) && HashInRange(spatHash)
    ensures Entries(table, M, l) == if l in data then 4 else 0
  {
    EntriesAreCorners(table, data, spatHash, M, l);
    if l in data {
      var b := data[l].aabb;
      assert spatHash(b.xmin, b.ymin, M) < M && spatHash(b.xmin, b.ymax, M) < M;
      assert spatHash(b.xmax, b.ymin, M) < M && spatHash(b.xmax, b.ymax, M) < M;
    }
  }

  /** Neighbourhood is symmetric: `b` is a partner of `a` exactly when `a`
      is a partner of `b`. */
  lemma PartnersAreSymmetric(pairs: set<(int, int)>, a: int, b: int)
    ensures b in Partners(pairs, a) <==> a in Partners(pairs, b)
  {
    assert b in Partners(pairs, a) <==> (a, b) in pairs || (b, a) in pairs;
    assert a in Partners(pairs, b) <==> (b, a) in pairs || (a, b) in pairs;
  }

  /** No label is its own neighbour among ordered pairs. */
  lemma NoLabelIsItsOwnPartner(pairs: set<(int, int)>, l: int)
    requires forall p | p in pairs :: p.0 < p.1
    ensures l !in Partners(pairs, l)
  {
  }

  /** With ordered pairs, the pairs involving `l` and the partners of `l`
      are equally many: counting once per pair is counting once per
      neighbour. */
  lemma {:induction false} PairsWithArePartners(pairs: set<(int, int)>, l: int)
    requires forall p | p in pairs :: p.0 < p.1
    ensures |PairsWith(pairs, l)| == |Partners(pairs, l)|
    decreases |pairs|
  {
    if pairs != {} {
      assert (forall y :: y !in pairs) ==> pairs == {};
      var q :| q in pairs;
      var rest := pairs - {q};
      PairsWithArePartners(rest, l);
      assert rest + {(q.0, q.1)} == pairs;
      PairsWithAdd(rest, q.0, q.1, l);
      PartnersAdd(rest, q.0, q.1, l);
    }
  }

  lemma PartnersAdd(pairs: set<(int, int)>, l1: int, l2: int, l: int)
    requires forall p | p in pairs :: p.0 < p.1
    requires l1 < l2 && (l1, l2) !in pairs
    ensures |Partners(pairs + {(l1, l2)}, l)| == |Partners(pairs, l)| + (if l == l1 || l == l2 then 1 else 0)
  {
    if l == l1 {
      PartnersAddFirst(pairs, l1, l2);
    } else if l == l2 {
      PartnersAddSecond(pairs, l1, l2);
    } else {
      PartnersAddOther(pairs, l1, l2, l);
    }
  }

  lemma PartnersAddFirst(pairs: set<(int, int)>, l1: int, l2: int)
    requires forall p | p in pairs :: p.0 < p.1
    requires l1 < l2 && (l1, l2) !in pairs
    ensures Partners(pairs + {(l1, l2)}, l1) == Partners(pairs, l1) + {l2}
    ensures l2 !in Partners(pairs, l1)
  {
    var pairs' := pairs + {(l1, l2)};
    assert (set p | p in pairs' && p.1 == l1 :: p.0) == (set p | p in pairs && p.1 == l1 :: p.0);
    assert (set p | p in pairs' && p.0 == l1 :: p.1) == (set p | p in pairs && p.0 == l1 :: p.1) + {l2};
  }

  lemma PartnersAddSecond(pairs: set<(int, int)>, l1: int, l2: int)
    requires forall p | p in pairs :: p.0 < p.1
    requires l1 < l2 && (l1, l2) !in pairs
    ensures Partners(pairs + {(l1, l2)}, l2) == Partners(pairs, l2) + {l1}
    ensures l1 !in Partners(pairs, l2)
  {
    var pairs' := pairs + {(l1, l2)};
    assert (set p | p in pairs' && p.0 == l2 :: p.1) == (set p | p in pairs && p.0 == l2 :: p.1);
    assert (set p | p in pairs' && p.1 == l2 :: p.0) == (set p | p in pairs && p.1 == l2 :: p.0) + {l1};
  }

  lemma PartnersAddOther(pairs: set<(int, int)>, l1: int, l2: int, l: int)
    requires l != l1 && l != l2
    ensures Partners(pairs + {(l1, l2)}, l) == Partners(pairs, l)
  {
    var pairs' := pairs + {(l1, l2)};
    assert (set p | p in pairs' && p.0 == l :: p.1) == (set p | p in pairs && p.0 == l :: p.1);
    assert (set p | p in pairs' && p.1 == l :: p.0) == (set p | p in pairs && p.1 == l :: p.0);
  }

  // ---------------------------------------------------------------------------
  // The whole neighbour reduction on the label registry.

  lemma CountedEachIsSameScan(data0: map<int, LabelRecord>, data: map<int, LabelRecord>, ps: seq<(int, int)>)
    requires CountedEach(data0, data, ps)
    ensures SameScan(data0, data)
  {
  }

  lemma CountedOnceIsSameScan(data0: map<int, LabelRecord>, data: map<int, LabelRecord>, pairs: set<(int, int)>)
    requires CountedOnce(data0, data, pairs)
    ensures SameScan(data0, data)
  {
  }

  /** Neighbour reduction as the code performs it: hash every label's box
      corners into the table, then raise both counts for every overlapping
      pair met in a shared bucket, once per meeting. */
  method ReduceNeighborsAsWritten(reg: LabelRegistry, radius: int, spatHash: (int, int, int) -> int)
    requires reg.Valid() && HashInRange(spatHash)
    modifies reg
    ensures reg.Valid() && reg.log == old(reg.log) && reg.uniqueLabels == old(reg.uniqueLabels)
    ensures exists table :: (HashTableFor(table, old(reg.labelData), spatHash)
      && CountedEach(old(reg.labelData), reg.labelData, TablePairs(table, |table|, old(reg.labelData), radius)))
  {
    var table := BuildHashTable(reg, spatHash);
    TableEntriesAreLabels(table, reg.labelData, spatHash);
    var data := BroadPhaseAsWritten(reg.labelData, table, radius);
    CountedEachIsSameScan(reg.labelData, data, TablePairs(table, |table|, reg.labelData, radius));
    SameScanKeepsRecords(reg.log, reg.labelData, data);
    reg.labelData := data;
  }

  /** Neighbour reduction counting every overlapping pair that shares a
      bucket once: afterwards each label's count has grown by the number of
      distinct labels it was found to touch. */
  method ReduceNeighbors(reg: LabelRegistry, radius: int, spatHash: (int, int, int) -> int)
    requires reg.Valid() && HashInRange(spatHash)
    modifies reg
    ensures reg.Valid() && reg.log == old(reg.log) && reg.uniqueLabels == old(reg.uniqueLabels)
    ensures exists table :: (HashTableFor(table, old(reg.labelData), spatHash)
      && CountedOnce(old(reg.labelData), reg.labelData, Candidates(table, old(reg.labelData), radius)))
  {
    var table := BuildHashTable(reg, spatHash);
    TableEntriesAreLabels(table, reg.labelData, spatHash);
    var data := BroadPhase(reg.labelData, table, radius);
    CountedOnceIsSameScan(reg.labelData, data, Candidates(table, reg.labelData, radius));
    SameScanKeepsRecords(reg.log, reg.labelData, data);
    reg.labelData := data;
  }

  /** The per-label count after the corrected reduction is the number of
      distinct neighbours found. */
  lemma CountIsNumberOfPartners(table: seq<seq<int>>, data0: map<int, LabelRecord>, data: map<int, LabelRecord>, radius: int, l: int)
    requires |table| > 0 && l in data0
    requires CountedOnce(data0, data, Candidates(table, data0, radius))
    ensures data[l].numNeighbors == data0[l].numNeighbors + |Partners(Candidates(table, data0, radius), l)|
  {
    CandidatesAreLabelPairs(table, data0, radius);
    PairsWithArePartners(Candidates(table, data0, radius), l);
  }

  // ---------------------------------------------------------------------------
  // Two touching one-pixel labels whose corners all land in bucket 0.

  function SameBucket(x: int, y: int, m: int): int { 0 }

  function TwoPixels(): map<int, LabelRecord>
  {
    map[1 := InitLabelRecord(0, 0, 1), 2 := InitLabelRecord(1, 0, 1)]
  }

  function SharedBucketTable(): seq<seq<int>>
  {
    seq(M, h => if h == 0 then SharedBin() else [])
  }

  function SharedBin(): seq<int> { [1, 1, 1, 1, 2, 2, 2, 2] }

  /** Empty buckets after the first add no hits. */
  lemma {:induction false} OnlyFirstBucketHits(k: nat)
    requires 1 <= k <= M
    ensures TablePairs(SharedBucketTable(), k, TwoPixels(), 5) == TablePairs(SharedBucketTable(), 1, TwoPixels(), 5)
  {
    if k > 1 {
      OnlyFirstBucketHits(k - 1);
      SkipSmallBin(SharedBucketTable(), k - 1, TwoPixels(), 5);
    }
  }

  function FourHits(): seq<(int, int)> { [(1, 2), (1, 2), (1, 2), (1, 2)] }

  lemma SharedBucketQualifies(i: int, j: int)
    requires 0 <= i < 8 && 0 <= j < 8
    ensures Qualifies(SharedBin(), i, j, TwoPixels(), 5) <==> i < 4 && 4 <= j
  {
    assert TwoPixels()[1].aabb == AABB(0, 0, 0, 0) && TwoPixels()[2].aabb == AABB(1, 1, 0, 0);
  }

  /** Each of label 1's entries meets label 2's four entries; label 2's
      entries meet nothing, being the larger label. */
  lemma SharedBucketRow(i: int)
    requires 0 <= i < 8
    ensures RowPairs(SharedBin(), i, 8, TwoPixels(), 5) == if i < 4 then FourHits() else []
  {
    var bin, data := SharedBin(), TwoPixels();
    forall j | 0 <= j < 8 ensures Qualifies(bin, i, j, data, 5) <==> i < 4 && 4 <= j {
      SharedBucketQualifies(i, j);
    }
    assert RowPairs(bin, i, 4, data, 5) == [] by {
      assert RowPairs(bin, i, 1, data, 5) == [];
      assert RowPairs(bin, i, 2, data, 5) == [];
      assert RowPairs(bin, i, 3, data, 5) == [];
    }
    if i < 4 {
      assert RowPairs(bin, i, 5, data, 5) == [(1, 2)];
      assert RowPairs(bin, i, 6, data, 5) == [(1, 2), (1, 2)];
      assert RowPairs(bin, i, 7, data, 5) == [(1, 2), (1, 2), (1, 2)];
    } else {
      assert RowPairs(bin, i, 5, data, 5) == [];
      assert RowPairs(bin, i, 6, data, 5) == [];
      assert RowPairs(bin, i, 7, data, 5) == [];
    }
  }

  lemma SharedBinHits()
    ensures BinPairs(SharedBin(), 8, TwoPixels(), 5) == FourHits() + FourHits() + FourHits() + FourHits()
  {
    var bin, data := SharedBin(), TwoPixels();
    var hits := FourHits();
    SharedBucketRow(0);
    SharedBucketRow(1);
    SharedBucketRow(2);
    SharedBucketRow(3);
    assert BinPairs(bin, 4, data, 5) == hits + hits + hits + hits by {
      assert BinPairs(bin, 1, data, 5) == hits by {
        assert BinPairs(bin, 0, data, 5) == [];
      }
      assert BinPairs(bin, 2, data, 5) == hits + hits;
      assert BinPairs(bin, 3, data, 5) == hits + hits + hits;
    }
    SharedBucketRow(4);
    SharedBucketRow(5);
    SharedBucketRow(6);
    SharedBucketRow(7);
    assert BinPairs(bin, 5, data, 5) == BinPairs(bin, 4, data, 5);
    assert BinPairs(bin, 6, data, 5) == BinPairs(bin, 5, data, 5);
    assert BinPairs(bin, 7, data, 5) == BinPairs(bin, 6, data, 5);
  }

  lemma SharedBucketHits()
    ensures TablePairs(SharedBucketTable(), M, TwoPixels(), 5) == FourHits() + FourHits() + FourHits() + FourHits()
  {
    OnlyFirstBucketHits(M);
    assert SharedBucketTable()[0] == SharedBin();
    assert TablePairs(SharedBucketTable(), 1, TwoPixels(), 5) == BinPairs(SharedBin(), 8, TwoPixels(), 5);
    SharedBinHits();
  }

  /** The table with all eight entries in bucket 0 is the one built for
      these labels under a hash that sends every corner to bucket 0. */
  lemma SharedBucketTableIsBuilt()
    ensures HashInRange(SameBucket) && HashTableFor(SharedBucketTable(), TwoPixels(), SameBucket)
  {
    var table, data := SharedBucketTable(), TwoPixels();
    forall h, l | 0 <= h < M
      ensures multiset(table[h])[l] == if l in data then CornerCount(data[l].aabb, SameBucket, h) else 0
    {
      if h == 0 {
        assert table[h] == SharedBin();
      } else {
        assert table[h] == [];
      }
    }
  }

  /** Label 1 touches a single other label, yet the reduction as written
      credits it with sixteen neighbours: each of label 1's four entries in
      bucket 0 meets each of label 2's four. Counting each pair once gives
      one. */
  lemma SharedBucketCountsSixteen()
    ensures HashInRange(SameBucket) && HashTableFor(SharedBucketTable(), TwoPixels(), SameBucket)
    ensures Occurrences(TablePairs(SharedBucketTable(), M, TwoPixels(), 5), 1) == 16
    ensures |PairsWith(Candidates(SharedBucketTable(), TwoPixels(), 5), 1)| == 1
  {
    SharedBucketTableIsBuilt();
    var row := FourHits();
    SharedBucketHits();
    var hits := row + row + row + row;
    assert forall k | 0 <= k < |hits| :: hits[k] == (1, 2);
    OccurrencesOfOnePair(hits, 1, 2);
    assert Elements(hits) == {(1, 2)};
    assert PairsWith({(1, 2)}, 1) == {(1, 2)};
  }

  /** A label met again and again in the same pair is counted each time. */
  lemma {:induction false} OccurrencesOfOnePair(ps: seq<(int, int)>, a: int, b: int)
    requires a != b && forall k | 0 <= k < |ps| :: ps[k] == (a, b)
    ensures Occurrences(ps, a) == |ps|
    decreases |ps|
  {
    if ps != [] {
      OccurrencesOfOnePair(ps[..|ps| - 1], a, b);
    }
  }
}
