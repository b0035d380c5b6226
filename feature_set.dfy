/** The feature gate: one enabled flag per feature code, the code-to-name map
    built from the user-facing name table, and the queries the reduction
    stages and the Python entry points ask of it. */
module FeatureGate {
  import opened FeatureCodes

  /** Number of set flags in `flags` (counted from the front, as the loops do). */
  function CountTrue(flags: seq<bool>): (n: nat)
    ensures n <= |flags|
  {
    if flags == [] then 0
    else CountTrue(flags[..|flags| - 1]) + (if flags[|flags| - 1] then 1 else 0)
  }

  /** The positions of the set flags. */
  function EnabledCodes(flags: seq<bool>): set<int>
  {
    set i | 0 <= i < |flags| && flags[i]
  }

  /** The codes `lo .. hi-1`. */
  function CodeRange(lo: int, hi: int): (s: set<int>)
    ensures forall c :: c in s <==> lo <= c < hi
    decreases hi - lo
  {
    if hi <= lo then {} else CodeRange(lo, hi - 1) + {hi - 1}
  }

  /** The codes of a list of (name, code) pairs, in list order. */
  function CodesOf(F: seq<(string, FeatureCode)>): seq<int>
  {
    if F == [] then [] else CodesOf(F[..|F| - 1]) + [F[|F| - 1].1]
  }

  lemma CodesOfAppend(F: seq<(string, FeatureCode)>, e: (string, FeatureCode))
    ensures CodesOf(F + [e]) == CodesOf(F) + [e.1]
  {
    assert (F + [e])[..|F|] == F;
  }

  /** Counting the set flags is the same as taking the size of the set of
      enabled codes, so the count never exceeds the number of codes. */
  lemma {:induction false} CountTrueIsCardinality(flags: seq<bool>)
    ensures CountTrue(flags) == |EnabledCodes(flags)|
  {
    if flags != [] {
      var n := |flags| - 1;
      CountTrueIsCardinality(flags[..n]);
      assert EnabledCodes(flags) == EnabledCodes(flags[..n]) + (if flags[n] then {n} else {});
    }
  }

  lemma {:induction false} CodeRangeCardinality(lo: int, hi: int)
    requires lo <= hi
    ensures |CodeRange(lo, hi)| == hi - lo
    decreases hi - lo
  {
    if lo < hi {
      CodeRangeCardinality(lo, hi - 1);
      assert hi - 1 !in CodeRange(lo, hi - 1);
    }
  }

  /** True when no other name of `table` maps to the code of `name`. */
  ghost predicate CodeOccursOnce(table: map<string, int>, name: string)
    requires name in table
  {
    forall other | other in table && other != name :: table[other] != table[name]
  }

  /** Builds the code-to-name map from a name-to-code table, one entry at a
      time; a code named twice keeps one of its names. */
  method InvertNameTable(table: map<string, int>) returns (names: map<int, string>)
    ensures names.Keys == table.Values
    ensures forall c | c in names :: names[c] in table && table[names[c]] == c
    ensures forall n | n in table && CodeOccursOnce(table, n) :: names[table[n]] == n
  {
    names := map[];
    var todo := table.Keys;
    while todo != {}
      invariant todo <= table.Keys
      invariant names.Keys == set n | n in table.Keys - todo :: table[n]
      invariant forall c | c in names :: names[c] in table && table[names[c]] == c
      decreases todo
    {
      var n :| n in todo;
      names := names[table[n] := n];
      todo := todo - {n};
    }
    assert table.Keys - todo == table.Keys;
  }

  /** `F` lists the enabled codes below `i`, each once, in increasing order. */
  ghost predicate ListsEnabledBelow(F: seq<(string, FeatureCode)>, flags: seq<bool>, i: int)
    requires 0 <= i <= |flags| == COUNT
  {
    && |F| == CountTrue(flags[..i])
    && (forall a, b | 0 <= a < b < |F| :: F[a].1 < F[b].1)
    && (forall k | 0 <= k < |F| :: F[k].1 < i)
    && (forall c | 0 <= c < COUNT :: c in CodesOf(F) <==> c < i && flags[c])
  }

  /** Each listed code carries its name from `names0`, or "" if it had none. */
  ghost predicate NamedFrom(F: seq<(string, FeatureCode)>, names0: map<int, string>)
  {
    forall k | 0 <= k < |F| :: F[k].0 == if F[k].1 in names0 then names0[F[k].1] else ""
  }

  /** `names` is `names0` plus an empty name for each enabled code below `i`
      that `names0` lacked. */
  ghost predicate NamesGrown(names: map<int, string>, names0: map<int, string>, flags: seq<bool>, i: int)
    requires 0 <= i <= |flags| == COUNT
  {
    && (forall c :: c in names <==> c in names0 || (0 <= c < i && flags[c]))
    && (forall c | c in names :: names[c] == if c in names0 then names0[c] else "")
  }

  /** What `getEnabledFeatures` has done after looking at the codes below `i`. */
  ghost predicate Listed(F: seq<(string, FeatureCode)>, names: map<int, string>,
                         names0: map<int, string>, flags: seq<bool>, i: int)
    requires 0 <= i <= |flags| == COUNT
  {
    ListsEnabledBelow(F, flags, i) && NamedFrom(F, names0) && NamesGrown(names, names0, flags, i)
  }

  lemma ListsEnabledAdd(F: seq<(string, FeatureCode)>, flags: seq<bool>, i: FeatureCode, name: string)
    requires |flags| == COUNT && ListsEnabledBelow(F, flags, i) && flags[i]
    ensures ListsEnabledBelow(F + [(name, i)], flags, i + 1)
  {
    var F' := F + [(name, i)];
    CountTrueStep(flags, i);
    CodesOfAppend(F, (name, i));
    AppendKeepsOrder(F, (name, i));
    forall k | 0 <= k < |F'| ensures F'[k].1 < i + 1 {
      if k < |F| {
        assert F'[k] == F[k];
      }
    }
  }

  lemma ListsEnabledSkip(F: seq<(string, FeatureCode)>, flags: seq<bool>, i: FeatureCode)
    requires |flags| == COUNT && ListsEnabledBelow(F, flags, i) && !flags[i]
    ensures ListsEnabledBelow(F, flags, i + 1)
  {
    CountTrueStep(flags, i);
  }

  /** Appending a code above every listed one keeps the list increasing. */
  lemma AppendKeepsOrder(F: seq<(string, FeatureCode)>, e: (string, FeatureCode))
    requires forall a, b | 0 <= a < b < |F| :: F[a].1 < F[b].1
    requires forall k | 0 <= k < |F| :: F[k].1 < e.1
    ensures forall a, b | 0 <= a < b < |F| + 1 :: (F + [e])[a].1 < (F + [e])[b].1
  {
  }

  lemma CountTrueStep(flags: seq<bool>, i: nat)
    requires i < |flags|
    ensures CountTrue(flags[..i + 1]) == CountTrue(flags[..i]) + if flags[i] then 1 else 0
  {
    assert flags[..i + 1][..i] == flags[..i];
  }

  lemma NamesGrownStep(names: map<int, string>, names0: map<int, string>, flags: seq<bool>, i: FeatureCode)
    requires |flags| == COUNT && NamesGrown(names, names0, flags, i)
    ensures NamesGrown(if flags[i] && i !in names then names[i := ""] else names, names0, flags, i + 1)
  {
  }

  /** One step of `getEnabledFeatures`: code `i` is appended with its name
      when enabled, the name lookup inserting "" for an unknown code. */
  method ListOne(F: seq<(string, FeatureCode)>, names: map<int, string>, ghost names0: map<int, string>,
                 ghost flags: seq<bool>, i: FeatureCode, enabled: bool)
    returns (F': seq<(string, FeatureCode)>, names': map<int, string>)
    requires |flags| == COUNT && enabled == flags[i]
    requires Listed(F, names, names0, flags, i)
    ensures Listed(F', names', names0, flags, i + 1)
  {
    F', names' := F, names;
    if enabled && i !in names' {
      names' := names'[i := ""];
    }
    NamesGrownStep(names, names0, flags, i);
    if enabled {
      ListsEnabledAdd(F, flags, i, names'[i]);
      F' := F + [(names'[i], i)];
    } else {
      ListsEnabledSkip(F, flags, i);
    }
  }

  /** Some listed code's flag is set. */
  predicate AnyFlag(flags: seq<bool>, F: seq<int>)
    requires forall j | 0 <= j < |F| :: 0 <= F[j] < |flags|
  {
    exists j | 0 <= j < |F| :: flags[F[j]]
  }

  class FeatureSet {
    /** One flag per code; a code is computed and output iff its flag is set. */
    var enabledFeatures: array<bool>
    /** Code-to-name map, filled from the name table and extended by lookups. */
    var featureNames: map<int, string>

    ghost predicate Valid()
      reads this
    {
      enabledFeatures.Length == COUNT
    }

    /** The constructor enables every feature and inverts the name table. */
    constructor ()
      ensures Valid() && fresh(enabledFeatures)
      ensures forall c | 0 <= c < COUNT :: enabledFeatures[c]
      ensures featureNames.Keys == UserFacingFeatureNames.Values
      ensures forall c | c in featureNames ::
        featureNames[c] in UserFacingFeatureNames && UserFacingFeatureNames[featureNames[c]] == c
      ensures forall n | n in UserFacingFeatureNames && CodeOccursOnce(UserFacingFeatureNames, n) ::
        featureNames[UserFacingFeatureNames[n]] == n
    {
      enabledFeatures := new bool[COUNT];
      featureNames := map[];
      new;
      EnableAll(true);
      featureNames := InvertNameTable(UserFacingFeatureNames);
    }

    method EnableAll(newStatus: bool)
      requires Valid()
      modifies enabledFeatures
      ensures forall c | 0 <= c < COUNT :: enabledFeatures[c] == newStatus
    {
      for i := 0 to COUNT
        invariant forall c | 0 <= c < i :: enabledFeatures[c] == newStatus
      {
        enabledFeatures[i] := newStatus;
      }
    }

    /** Sets every listed code and leaves the other flags as they were. */
    method EnableFeatures(desiredFeatures: seq<FeatureCode>)
      requires Valid()
      modifies enabledFeatures
      ensures forall c | 0 <= c < COUNT ::
        enabledFeatures[c] == (c in desiredFeatures || old(enabledFeatures[c]))
    {
      for k := 0 to |desiredFeatures|
        invariant forall c | 0 <= c < COUNT ::
          enabledFeatures[c] == (c in desiredFeatures[..k] || old(enabledFeatures[c]))
      {
        enabledFeatures[desiredFeatures[k]] := true;
        assert desiredFeatures[..k + 1] == desiredFeatures[..k] + [desiredFeatures[k]];
      }
      assert desiredFeatures[..|desiredFeatures|] == desiredFeatures;
    }

    /** Clears every listed code and leaves the other flags as they were. */
    method DisableFeatures(desiredFeatures: seq<FeatureCode>)
      requires Valid()
      modifies enabledFeatures
      ensures forall c | 0 <= c < COUNT ::
        enabledFeatures[c] == (c !in desiredFeatures && old(enabledFeatures[c]))
    {
      for k := 0 to |desiredFeatures|
        invariant forall c | 0 <= c < COUNT ::
          enabledFeatures[c] == (c !in desiredFeatures[..k] && old(enabledFeatures[c]))
      {
        enabledFeatures[desiredFeatures[k]] := false;
        assert desiredFeatures[..k + 1] == desiredFeatures[..k] + [desiredFeatures[k]];
      }
      assert desiredFeatures[..|desiredFeatures|] == desiredFeatures;
    }

    method EnableFeature(f: FeatureCode)
      requires Valid()
      modifies enabledFeatures
      ensures forall c | 0 <= c < COUNT :: enabledFeatures[c] == (c == f || old(enabledFeatures[c]))
    {
      enabledFeatures[f] := true;
    }

    /** Exactly the 22 pixel-intensity codes MEAN .. WEIGHTED_CENTROID_X, which
        are the codes 0 .. 21, i.e. every code below AREA_PIXELS_COUNT; the
        flags are set by one loop over those codes. */
    method EnablePixelIntenStats()
      requires Valid()
      modifies enabledFeatures
      ensures forall c | 0 <= c < COUNT :: enabledFeatures[c] == (c < AREA_PIXELS_COUNT)
      ensures EnabledCodes(enabledFeatures[..]) == CodeRange(0, AREA_PIXELS_COUNT)
      ensures CountTrue(enabledFeatures[..]) == 22
    {
      EnableAll(false);
      for c := MEAN to WEIGHTED_CENTROID_X + 1
        invariant forall d | 0 <= d < COUNT :: enabledFeatures[d] == (d < c)
      {
        enabledFeatures[c] := true;
      }
      assert EnabledCodes(enabledFeatures[..]) == CodeRange(0, AREA_PIXELS_COUNT);
      CountTrueIsCardinality(enabledFeatures[..]);
      CodeRangeCardinality(0, AREA_PIXELS_COUNT);
    }

    /** Exactly the four bounding-box codes. */
    method EnableBoundingBox()
      requires Valid()
      modifies enabledFeatures
      ensures EnabledCodes(enabledFeatures[..]) == {BBOX_YMIN, BBOX_XMIN, BBOX_HEIGHT, BBOX_WIDTH}
      ensures CountTrue(enabledFeatures[..]) == 4
    {
      EnableAll(false);
      enabledFeatures[BBOX_YMIN] := true;
      enabledFeatures[BBOX_XMIN] := true;
      enabledFeatures[BBOX_HEIGHT] := true;
      enabledFeatures[BBOX_WIDTH] := true;
      assert EnabledCodes(enabledFeatures[..]) == {BBOX_YMIN, BBOX_XMIN, BBOX_HEIGHT, BBOX_WIDTH};
      CountTrueIsCardinality(enabledFeatures[..]);
    }

    /** Exactly the ten Feret codes MIN_FERET_DIAMETER .. STAT_FERET_DIAM_MODE
        (four diameters and angles, six statistics), which are consecutive
        codes; the flags are set by one loop over them. */
    method EnableFeret()
      requires Valid()
      modifies enabledFeatures
      ensures forall c | 0 <= c < COUNT ::
        enabledFeatures[c] == (MIN_FERET_DIAMETER <= c <= STAT_FERET_DIAM_MODE)
      ensures EnabledCodes(enabledFeatures[..]) == CodeRange(MIN_FERET_DIAMETER, STAT_FERET_DIAM_MODE + 1)
      ensures CountTrue(enabledFeatures[..]) == 10
    {
      EnableAll(false);
      for c := MIN_FERET_DIAMETER to STAT_FERET_DIAM_MODE + 1
        invariant forall d | 0 <= d < COUNT :: enabledFeatures[d] == (MIN_FERET_DIAMETER <= d < c)
      {
        enabledFeatures[c] := true;
      }
      assert EnabledCodes(enabledFeatures[..]) == CodeRange(MIN_FERET_DIAMETER, STAT_FERET_DIAM_MODE + 1);
      CountTrueIsCardinality(enabledFeatures[..]);
      CodeRangeCardinality(MIN_FERET_DIAMETER, STAT_FERET_DIAM_MODE + 1);
    }

    /** Codes at or beyond COUNT are reported disabled; there is no lower-bound
        check, so a negative code is excluded. */
    method IsEnabled(fc: int) returns (r: bool)
      requires Valid() && 0 <= fc
      ensures r <==> fc < COUNT && enabledFeatures[fc]
    {
      r := if fc < COUNT then enabledFeatures[fc] else false;
    }

    /** True iff some listed code is enabled. */
    method AnyEnabled(F: seq<int>) returns (r: bool)
      requires Valid()
      requires forall j | 0 <= j < |F| :: 0 <= F[j] < COUNT
      ensures r <==> AnyFlag(enabledFeatures[..], F)
    {
      for k := 0 to |F|
        invariant forall j | 0 <= j < k :: !enabledFeatures[F[j]]
      {
        if enabledFeatures[F[k]] {
          assert enabledFeatures[..][F[k]];
          return true;
        }
      }
      return false;
    }

    /** The number of enabled codes. */
    method NumOfEnabled() returns (cnt: int)
      requires Valid()
      ensures cnt == CountTrue(enabledFeatures[..]) == |EnabledCodes(enabledFeatures[..])|
      ensures 0 <= cnt <= COUNT
    {
      cnt := 0;
      for i := 0 to COUNT
        invariant cnt == CountTrue(enabledFeatures[..i])
      {
        assert enabledFeatures[..i + 1][..i] == enabledFeatures[..i];
        if enabledFeatures[i] {
          cnt := cnt + 1;
        }
      }
      assert enabledFeatures[..COUNT] == enabledFeatures[..];
      CountTrueIsCardinality(enabledFeatures[..]);
    }

    /** Returns true and the code of `featureName` when the table names it;
        otherwise false and `f` as it was. */
    function FindFeatureByString(featureName: string, f: int): (r: (bool, int))
      ensures r.0 <==> featureName in UserFacingFeatureNames
      ensures r.0 ==> r.1 == UserFacingFeatureNames[featureName]
      ensures !r.0 ==> r.1 == f
    {
      if featureName !in UserFacingFeatureNames then (false, f)
      else (true, UserFacingFeatureNames[featureName])
    }

    /** The enabled codes in increasing order with their names; looking a name
        up inserts an empty name for a code the map did not know. */
    method GetEnabledFeatures() returns (F: seq<(string, FeatureCode)>)
      requires Valid()
      modifies this`featureNames
      ensures |F| == CountTrue(enabledFeatures[..])
      ensures forall i, j | 0 <= i < j < |F| :: F[i].1 < F[j].1
      ensures forall c | 0 <= c < COUNT :: c in CodesOf(F) <==> enabledFeatures[c]
      ensures forall k | 0 <= k < |F| ::
        F[k].0 == if F[k].1 in old(featureNames) then old(featureNames)[F[k].1] else ""
      ensures forall c :: c in featureNames <==>
        c in old(featureNames) || (0 <= c < COUNT && enabledFeatures[c])
      ensures forall c | c in featureNames ::
        featureNames[c] == if c in old(featureNames) then old(featureNames)[c] else ""
    {
      F := [];
      var names := featureNames;
      ghost var names0 := featureNames;
      ghost var flags := enabledFeatures[..];
      for i := 0 to COUNT
        invariant Listed(F, names, names0, flags, i)
      {
        F, names := ListOne(F, names, names0, flags, i, enabledFeatures[i]);
      }
      assert flags[..COUNT] == flags;
      featureNames := names;
    }
  }

  /** Name and code lookups undo each other: every non-empty name of the map
      is found again under its own code, and every name of the table whose code
      no other name shares is the name the map holds for the code found. This
      holds after the constructor and keeps holding after `GetEnabledFeatures`,
      which only adds empty names. */
  lemma NameLookupRoundTrip(fs: FeatureSet, f: int)
    requires forall c | c in fs.featureNames && fs.featureNames[c] != "" ::
      fs.featureNames[c] in UserFacingFeatureNames && UserFacingFeatureNames[fs.featureNames[c]] == c
    requires forall n | n in UserFacingFeatureNames && CodeOccursOnce(UserFacingFeatureNames, n) ::
      UserFacingFeatureNames[n] in fs.featureNames && fs.featureNames[UserFacingFeatureNames[n]] == n
    ensures forall c | c in fs.featureNames && fs.featureNames[c] != "" ::
      fs.FindFeatureByString(fs.featureNames[c], f) == (true, c)
    ensures forall n | n in UserFacingFeatureNames && CodeOccursOnce(UserFacingFeatureNames, n) ::
      fs.FindFeatureByString(n, f).0 && fs.featureNames[fs.FindFeatureByString(n, f).1] == n
  {
  }
}
