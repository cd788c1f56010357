/**
 * The decision rules of utils/verifications.py.  Reading rasters and
 * vector files is replaced by its outcome: the raster's band count, the
 * attribute value of every feature, the two coordinate reference systems,
 * and the validity of every feature geometry.
 */
module Verifications {
  import opened Common

  /** The raster metadata the checks consult. */
  datatype RasterMeta = RasterMeta(width: int, height: int, count: int)

  // ---------------------------------------------------------------------
  // validate_num_bands
  // ---------------------------------------------------------------------

  datatype BandError =
    | MissingBandIndexes(count: int, numBands: int)   // more bands than wanted and no indexes to select
    | TooFewBands(count: int, numBands: int)

  /** A list of band indexes counts as given when it is present and non-empty
      (Python truthiness of `bands_idxs`). */
  predicate IndexesGiven(bandsIdxs: Option<seq<int>>) {
    bandsIdxs.Some? && bandsIdxs.value != []
  }

  /** `validate_num_bands`: the raster must have exactly `numBands` bands, or
      more when band indexes say which to keep. */
  function ValidateNumBands(meta: RasterMeta, numBands: int, bandsIdxs: Option<seq<int>>): (r: Result<RasterMeta, BandError>)
    ensures r.Ok? <==> meta.count == numBands || (meta.count > numBands && IndexesGiven(bandsIdxs))
    ensures r.Ok? ==> r.value == meta
    ensures meta.count < numBands ==> r == Err(TooFewBands(meta.count, numBands))
    ensures meta.count > numBands && !IndexesGiven(bandsIdxs) ==> r == Err(MissingBandIndexes(meta.count, numBands))
  {
    if meta.count > numBands && !IndexesGiven(bandsIdxs) then Err(MissingBandIndexes(meta.count, numBands))
    else if meta.count < numBands then Err(TooFewBands(meta.count, numBands))
    else Ok(meta)
  }

  // ---------------------------------------------------------------------
  // validate_num_classes
  // ---------------------------------------------------------------------

  datatype ClassError =
    | VectorFileNotFound
    | TargetCountMismatch(targets: int, numClasses: int)   // len(attribute_values) != num_classes
    | TooManyClasses(found: int, numClasses: int)

  datatype ClassWarning = TargetsNotFound | FewerClasses

  datatype ClassCheck = ClassCheck(classes: set<int>, warning: Option<ClassWarning>)

  /** The distinct attribute values of a vector file, without the ignored index. */
  function UniqueValues(values: seq<int>, ignoreIndex: int): (u: set<int>)
    ensures ignoreIndex !in u
    ensures forall x :: x in u <==> x in values && x != ignoreIndex
  {
    (set x | x in values) - {ignoreIndex}
  }

  /** `set(range(n + 1))`: the classes `{0, 1, ..., n}`, empty for negative `n`. */
  function ClassRange(n: int): set<int>
    decreases n
  {
    if n < 0 then {} else ClassRange(n - 1) + {n}
  }

  /** The class set holds exactly the integers 0 to n. */
  lemma {:induction false} ClassRangeMembers(n: int, c: int)
    ensures c in ClassRange(n) <==> 0 <= c <= n
    decreases n
  {
    if n >= 0 {
      ClassRangeMembers(n - 1, c);
    }
  }

  /** `num_classes + 1` classes for a non-negative `num_classes`. */
  lemma {:induction false} ClassRangeSize(n: int)
    ensures |ClassRange(n)| == if n < 0 then 0 else n + 1
    decreases n
  {
    if n >= 0 {
      ClassRangeSize(n - 1);
      ClassRangeMembers(n - 1, n);
    }
  }

  /** `validate_num_classes`: fails when the vector file does not exist
      (`isFile`), then scans the attribute value of every feature
      (`values`), drops `ignoreIndex`, and compares the distinct values with
      `numClasses` and with the target ids (`targets`; an empty list stands
      for `None` too).  A result of `Ok` carries the warning logged, if any,
      and the class set `{0, ..., numClasses}`, whatever was found. */
  method ValidateNumClasses(isFile: bool, values: seq<int>, numClasses: int, ignoreIndex: int, targets: seq<int>)
    returns (r: Result<ClassCheck, ClassError>)
    ensures !isFile ==> r == Err(VectorFileNotFound)
    ensures var u := UniqueValues(values, ignoreIndex);
      isFile ==> (r.Err? <==> (targets != [] && |targets| != numClasses) || (targets == [] && |u| > numClasses))
    ensures isFile && targets != [] && |targets| != numClasses ==> r == Err(TargetCountMismatch(|targets|, numClasses))
    ensures var u := UniqueValues(values, ignoreIndex);
      isFile && targets == [] && |u| > numClasses ==> r == Err(TooManyClasses(|u|, numClasses))
    ensures r.Ok? ==> r.value.classes == ClassRange(numClasses)
    ensures var u := UniqueValues(values, ignoreIndex);
      r.Ok? ==> (r.value.warning == Some(TargetsNotFound) <==> targets != [] && !((set t | t in targets) <= u))
    ensures var u := UniqueValues(values, ignoreIndex);
      r.Ok? ==> (r.value.warning == Some(FewerClasses) <==> targets == [] && |u| < numClasses)
  {
    if !isFile {
      return Err(VectorFileNotFound);
    }
    var unique: set<int> := {};
    var i := 0;
    while i < |values|
      invariant 0 <= i <= |values|
      invariant unique == set k | 0 <= k < i :: values[k]
    {
      unique := unique + {values[i]};
      i := i + 1;
    }
    assert unique == set x | x in values;
    if ignoreIndex in unique {
      unique := unique - {ignoreIndex};
    }
    assert unique == UniqueValues(values, ignoreIndex);

    var warning: Option<ClassWarning> := None;
    if targets != [] {
      if |targets| != numClasses {
        return Err(TargetCountMismatch(|targets|, numClasses));
      }
      if !((set t | t in targets) <= unique) {
        warning := Some(TargetsNotFound);
      }
    } else {
      if |unique| < numClasses {
        warning := Some(FewerClasses);
      } else if |unique| > numClasses {
        return Err(TooManyClasses(|unique|, numClasses));
      }
    }
    r := Ok(ClassCheck(ClassRange(numClasses), warning));
  }

  // ---------------------------------------------------------------------
  // assert_crs_match
  // ---------------------------------------------------------------------

  /** A coordinate reference system as the check sees it: one identified by an
      EPSG code, one without an EPSG code, or none at all. */
  datatype Crs = Epsg(code: int) | NonEpsg | Missing

  datatype CrsError = VectorCrsMissing   // AttributeError raised before the guarded block

  /** `assert_crs_match`: whether the raster's EPSG code equals the vector's,
      with both systems returned alongside. */
  function AssertCrsMatch(raster: Crs, vector: Crs): (r: Result<(bool, Crs, Crs), CrsError>)
    ensures r.Err? <==> vector.Missing?
    ensures r.Ok? ==> (r.value.0 <==> raster.Epsg? && vector.Epsg? && raster.code == vector.code)
    ensures r.Ok? ==> r.value.1 == raster && r.value.2 == vector
  {
    if vector.Missing? then Err(VectorCrsMissing)
    else
      match raster
      case Missing => Ok((false, raster, vector))        // AttributeError caught: logged, no match
      case NonEpsg => Ok((false, raster, vector))        // cannot parse an EPSG code
      case Epsg(code) => Ok((vector.Epsg? && vector.code == code, raster, vector))
  }

  /** Agreement does not depend on which side is the raster. */
  lemma CrsMatchSymmetric(a: Crs, b: Crs)
    requires !a.Missing? && !b.Missing?
    ensures AssertCrsMatch(a, b).value.0 == AssertCrsMatch(b, a).value.0
  {
  }

  // ---------------------------------------------------------------------
  // validate_features_from_gpkg
  // ---------------------------------------------------------------------

  datatype FeatureError = FeatureIndexOutOfRange(index: int)

  /** The ids that the scan reports, in scan order, before de-duplication:
      position k of the flattened shape list is looked up as the k-th
      feature of the file (a position past the last feature is not one the
      scan gets to report: it raises first). */
  function InvalidIds<Id>(valid: seq<bool>, ids: seq<Id>): seq<Id>
  {
    if valid == [] then []
    else
      var n := |valid| - 1;
      InvalidIds(valid[..n], ids) + (if valid[n] || n >= |ids| then [] else [ids[n]])
  }

  /** Keeps the first occurrence of every element. */
  function Dedup<T(==)>(s: seq<T>): seq<T> {
    if s == [] then []
    else
      var d := Dedup(s[..|s| - 1]);
      if s[|s| - 1] in d then d else d + [s[|s| - 1]]
  }

  predicate NoDuplicates<T(==)>(s: seq<T>) {
    forall i, j :: 0 <= i < j < |s| ==> s[i] != s[j]
  }

  /** The position of the first occurrence of `x` in `s`. */
  function FirstIndex<T(==)>(s: seq<T>, x: T): (i: nat)
    requires x in s
    ensures i < |s| && s[i] == x && x !in s[..i]
  {
    if s[0] == x then 0
    else
      assert x in s[1..];
      var j := FirstIndex(s[1..], x);
      assert s[..j + 1] == [s[0]] + s[1..][..j];
      j + 1
  }

  lemma {:induction false} DedupElements<T>(s: seq<T>)
    ensures forall x :: x in Dedup(s) ==> x in s
    ensures forall x :: x in s ==> x in Dedup(s)
  {
    if s != [] {
      DedupElements(s[..|s| - 1]);
      assert s == s[..|s| - 1] + [s[|s| - 1]];
    }
  }

  lemma {:induction false} DedupNoDuplicates<T>(s: seq<T>)
    ensures NoDuplicates(Dedup(s))
  {
    if s != [] {
      DedupNoDuplicates(s[..|s| - 1]);
    }
  }

  lemma FirstIndexOfInit<T>(s: seq<T>, x: T)
    requires s != [] && x in s[..|s| - 1]
    ensures x in s && FirstIndex(s, x) == FirstIndex(s[..|s| - 1], x)
  {
    var i := FirstIndex(s[..|s| - 1], x);
    assert s[..i] == s[..|s| - 1][..i];
    FirstIndexUnique(s, x, i);
  }

  /** Any position holding `x` with no `x` before it is the first index. */
  lemma FirstIndexUnique<T>(s: seq<T>, x: T, i: int)
    requires 0 <= i < |s| && s[i] == x && x !in s[..i]
    ensures FirstIndex(s, x) == i
  {
    var j := FirstIndex(s, x);
    assert s[j] == x && x !in s[..j];
  }

  /** The de-duplicated list follows the order of first occurrences. */
  lemma {:induction false} DedupFirstOccurrenceOrder<T>(s: seq<T>)
    ensures forall i, j :: 0 <= i < j < |Dedup(s)| ==>
      Dedup(s)[i] in s && Dedup(s)[j] in s && FirstIndex(s, Dedup(s)[i]) < FirstIndex(s, Dedup(s)[j])
  {
    if s != [] {
      var n := |s| - 1;
      var init, last := s[..n], s[n];
      assert s == init + [last];
      var d0 := Dedup(init);
      var d := Dedup(s);
      assert d == if last in d0 then d0 else d0 + [last];
      DedupFirstOccurrenceOrder(init);
      DedupElements(init);
      forall i, j | 0 <= i < j < |d|
        ensures d[i] in s && d[j] in s && FirstIndex(s, d[i]) < FirstIndex(s, d[j])
      {
        assert d[i] == d0[i];
        assert d0[i] in d0;
        assert d[i] in init;
        FirstIndexOfInit(s, d[i]);
        if j < |d0| {
          assert d[j] == d0[j];
          assert d0[j] in d0;
          FirstIndexOfInit(s, d[j]);
        } else {
          assert d[j] == last && last !in init;
          FirstIndexUnique(s, last, n);
        }
      }
    } else {
      assert Dedup(s) == [];
    }
  }

  /** `validate_features_from_gpkg`: walks the flattened shape list (`valid`
      holds whether each geometry is valid) and collects, once each, the id
      of the feature found at the same position of the file (`ids`). */
  method ValidateFeaturesFromGpkg<Id(==)>(valid: seq<bool>, ids: seq<Id>) returns (r: Result<seq<Id>, FeatureError>)
    ensures r.Err? <==> exists k :: 0 <= k < |valid| && !valid[k] && k >= |ids|
    ensures r.Ok? ==> forall k :: 0 <= k < |valid| && !valid[k] ==> k < |ids|
    ensures r.Ok? ==> r.value == Dedup(InvalidIds(valid, ids))
    ensures r.Err? ==> var k := r.error.index;
      0 <= k < |valid| && !valid[k] && k >= |ids| && forall p :: 0 <= p < k && !valid[p] ==> p < |ids|
  {
    var invalid: seq<Id> := [];
    var index := 0;
    while index < |valid|
      invariant 0 <= index <= |valid|
      invariant forall k :: 0 <= k < index && !valid[k] ==> k < |ids|
      invariant invalid == Dedup(InvalidIds(valid[..index], ids))
    {
      if !valid[index] {
        if index >= |ids| {
          return Err(FeatureIndexOutOfRange(index));
        }
        InvalidIdsNext(valid, ids, index);
        DedupAppend(InvalidIds(valid[..index], ids), ids[index]);
        if ids[index] !in invalid {
          invalid := invalid + [ids[index]];
        }
        assert invalid == Dedup(InvalidIds(valid[..index + 1], ids));
      } else {
        InvalidIdsNext(valid, ids, index);
        assert InvalidIds(valid[..index + 1], ids) == InvalidIds(valid[..index], ids);
      }
      index := index + 1;
    }
    assert valid[..index] == valid;
    r := Ok(invalid);
  }

  lemma InvalidIdsNext<Id>(valid: seq<bool>, ids: seq<Id>, i: nat)
    requires i < |valid|
    ensures InvalidIds(valid[..i + 1], ids) == InvalidIds(valid[..i], ids) + (if valid[i] || i >= |ids| then [] else [ids[i]])
  {
    assert valid[..i + 1][..i] == valid[..i];
  }

  lemma DedupAppend<T>(s: seq<T>, x: T)
    ensures Dedup(s + [x]) == if x in Dedup(s) then Dedup(s) else Dedup(s) + [x]
  {
    assert (s + [x])[..|s|] == s;
  }

  /** The reported ids are the ids of the invalid positions, each once, in
      order of first report. */
  lemma InvalidListProperties<Id>(valid: seq<bool>, ids: seq<Id>)
    ensures var s := InvalidIds(valid, ids);
      var d := Dedup(s);
      NoDuplicates(d) && (forall x :: x in d <==> x in s)
      && (forall i, j :: 0 <= i < j < |d| ==> d[i] in s && d[j] in s && FirstIndex(s, d[i]) < FirstIndex(s, d[j]))
  {
    var s := InvalidIds(valid, ids);
    DedupNoDuplicates(s);
    DedupElements(s);
    DedupFirstOccurrenceOrder(s);
  }
}
