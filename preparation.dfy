/**
 * The first half of data_to_tiles.py `main`: the configuration checks, the
 * validation pass over the input records, and the pass that decides, record
 * by record, whether the raster must be tiled and which tiling job to run.
 *
 * The file system is replaced by its contents: a record carries the
 * metadata and coordinate systems of its raster and vector files, and the
 * tile directories are a snapshot mapping each directory to the names it
 * holds.
 */
module Preparation {
  import opened Common
  import opened Paths
  import opened Tiling
  import opened Verifications
  import opened AttributeFilter

  /** One row of the input CSV, with what reading its files yields.  An
      empty `gpkg` or `aoi` stands for an absent one; `meta` is `None` when
      the raster cannot be opened. */
  datatype SourceRecord = SourceRecord(
    tif: string,
    gpkg: string,
    dataset: string,
    aoi: string,
    attributeName: string,
    meta: Option<RasterMeta>,
    rasterCrs: Crs,
    vectorCrs: Crs)

  // ---------------------------------------------------------------------
  // Configuration checks
  // ---------------------------------------------------------------------

  datatype ConfigError =
    | BandIndexCountMismatch(given: int, numBands: int)   // ValueError
    | TargetIdNotInteger(position: int)                   // `raise` of a logging result: TypeError

  predicate TargetIdsGiven(targetIds: Option<seq<Value>>) {
    targetIds.Some? && targetIds.value != []
  }

  /** The checks of `main` on `bands_idxs` (data_to_tiles.py:206-209) and on
      `target_ids` (data_to_tiles.py:252-255), in that order. */
  function CheckConfig(numBands: int, bandsIdxs: Option<seq<int>>, targetIds: Option<seq<Value>>): (r: Result<(), ConfigError>)
    ensures r.Ok? <==>
      (bandsIdxs.None? || |bandsIdxs.value| == numBands)
      && (targetIds.Some? ==> forall k :: 0 <= k < |targetIds.value| ==> targetIds.value[k].Int?)
    ensures bandsIdxs.Some? && |bandsIdxs.value| != numBands ==>
      r == Err(BandIndexCountMismatch(|bandsIdxs.value|, numBands))
    ensures (bandsIdxs.None? || |bandsIdxs.value| == numBands) && r.Err? ==> r.error.TargetIdNotInteger?
    ensures r.Err? && r.error.TargetIdNotInteger? ==>
      var ids := targetIds.value; var k := r.error.position;
      0 <= k < |ids| && !ids[k].Int? && forall p :: 0 <= p < k ==> ids[p].Int?
  {
    if bandsIdxs.Some? && |bandsIdxs.value| != numBands then
      Err(BandIndexCountMismatch(|bandsIdxs.value|, numBands))
    else if TargetIdsGiven(targetIds) then
      match FirstNonInteger(targetIds.value)
      case None => Ok(())
      case Some(k) => Err(TargetIdNotInteger(k))
    else Ok(())
  }

  function FirstNonInteger(ids: seq<Value>): (r: Option<int>)
    ensures r.None? <==> forall k :: 0 <= k < |ids| ==> ids[k].Int?
    ensures r.Some? ==> 0 <= r.value < |ids| && !ids[r.value].Int? && forall p :: 0 <= p < r.value ==> ids[p].Int?
  {
    if ids == [] then None
    else if !ids[0].Int? then Some(0)
    else
      match FirstNonInteger(ids[1..])
      case None => None
      case Some(k) => Some(k + 1)
  }

  // ---------------------------------------------------------------------
  // Validation pass
  // ---------------------------------------------------------------------

  datatype ValidationError =
    | UnreadableRaster(tif: string)        // no metadata: KeyError on its band count
    | Bands(band: BandError)
    | Crs(crs: CrsError)
    | InvalidDataset(dataset: string)      // ValueError: not "trn" nor "tst"

  /** Whether record `k` is the first to name its (non-empty) vector file:
      only then are the coordinate systems compared. */
  predicate FirstUseOfGpkg(records: seq<SourceRecord>, k: int)
    requires 0 <= k < |records|
  {
    records[k].gpkg != "" && forall p :: 0 <= p < k ==> records[p].gpkg != records[k].gpkg
  }

  /** The error the validation pass raises on record `k`, if any: the band
      count first, then the CRS comparison, then the dataset name. */
  function RecordError(records: seq<SourceRecord>, numBands: int, bandsIdxs: Option<seq<int>>, k: int): (r: Option<ValidationError>)
    requires 0 <= k < |records|
    ensures r.None? <==>
      records[k].meta.Some? && ValidateNumBands(records[k].meta.value, numBands, bandsIdxs).Ok?
      && (FirstUseOfGpkg(records, k) ==> AssertCrsMatch(records[k].rasterCrs, records[k].vectorCrs).Ok?)
      && (records[k].dataset == "trn" || records[k].dataset == "tst")
    ensures records[k].meta.None? ==> r == Some(UnreadableRaster(records[k].tif))
    ensures records[k].meta.Some? && ValidateNumBands(records[k].meta.value, numBands, bandsIdxs).Err? ==>
      r == Some(Bands(ValidateNumBands(records[k].meta.value, numBands, bandsIdxs).error))
  {
    var rec := records[k];
    if rec.meta.None? then Some(UnreadableRaster(rec.tif))
    else if ValidateNumBands(rec.meta.value, numBands, bandsIdxs).Err? then
      Some(Bands(ValidateNumBands(rec.meta.value, numBands, bandsIdxs).error))
    else if FirstUseOfGpkg(records, k) && AssertCrsMatch(rec.rasterCrs, rec.vectorCrs).Err? then
      Some(Crs(AssertCrsMatch(rec.rasterCrs, rec.vectorCrs).error))
    else if rec.dataset != "trn" && rec.dataset != "tst" then Some(InvalidDataset(rec.dataset))
    else None
  }

  /** Record `k` raises `e` and every record before it passes. */
  predicate FirstFailure(records: seq<SourceRecord>, numBands: int, bandsIdxs: Option<seq<int>>, k: int, e: ValidationError)
    requires 0 <= k < |records|
  {
    RecordError(records, numBands, bandsIdxs, k) == Some(e)
    && forall p :: 0 <= p < k ==> RecordError(records, numBands, bandsIdxs, p).None?
  }

  /** The validation loop of `main` (data_to_tiles.py:257-280): stops at the
      first failing record; otherwise reports `no_gt`, which is set for the
      whole run as soon as one record has no vector file.  The result of
      the CRS comparison itself is not used, only its exception. */
  method ValidateRecords(records: seq<SourceRecord>, numBands: int, bandsIdxs: Option<seq<int>>)
    returns (r: Result<bool, ValidationError>)
    ensures r.Err? <==> exists k :: 0 <= k < |records| && RecordError(records, numBands, bandsIdxs, k).Some?
    ensures r.Err? ==> exists k :: 0 <= k < |records| && FirstFailure(records, numBands, bandsIdxs, k, r.error)
    ensures r.Ok? ==> (r.value <==> exists k :: 0 <= k < |records| && records[k].gpkg == "")
  {
    var checked: set<string> := {};
    var noGt := false;
    var i := 0;
    while i < |records|
      invariant 0 <= i <= |records|
      invariant checked == set p | 0 <= p < i && records[p].gpkg != "" :: records[p].gpkg
      invariant noGt <==> exists p :: 0 <= p < i && records[p].gpkg == ""
      invariant forall p :: 0 <= p < i ==> RecordError(records, numBands, bandsIdxs, p).None?
    {
      var rec := records[i];
      var e := RecordError(records, numBands, bandsIdxs, i);
      if rec.meta.None? {
        assert FirstFailure(records, numBands, bandsIdxs, i, UnreadableRaster(rec.tif));
        return Err(UnreadableRaster(rec.tif));
      }
      var bands := ValidateNumBands(rec.meta.value, numBands, bandsIdxs);
      if bands.Err? {
        assert FirstFailure(records, numBands, bandsIdxs, i, Bands(bands.error));
        return Err(Bands(bands.error));
      }
      if rec.gpkg != "" {
        if rec.gpkg !in checked {
          assert FirstUseOfGpkg(records, i);
          var crs := AssertCrsMatch(rec.rasterCrs, rec.vectorCrs);
          if crs.Err? {
            assert FirstFailure(records, numBands, bandsIdxs, i, Crs(crs.error));
            return Err(Crs(crs.error));
          }
          checked := checked + {rec.gpkg};
        } else {
          var p :| 0 <= p < i && records[p].gpkg != "" && records[p].gpkg == rec.gpkg;
          assert !FirstUseOfGpkg(records, i);
        }
      } else {
        noGt := true;
      }
      if rec.dataset != "trn" && rec.dataset != "tst" {
        assert FirstFailure(records, numBands, bandsIdxs, i, InvalidDataset(rec.dataset));
        return Err(InvalidDataset(rec.dataset));
      }
      assert e.None?;
      i := i + 1;
    }
    r := Ok(noGt);
  }

  // ---------------------------------------------------------------------
  // Tiling plan
  // ---------------------------------------------------------------------

  /** A call of `tiling`: raster, image tile directory, label tile directory
      (absent once `no_gt` is set) and vector file. */
  datatype Job = Job(tif: string, imgDir: Path, gtDir: Option<Path>, gpkg: string)

  /** The area name: the record's own, else the stem of the raster's file name. */
  function AoiName(rec: SourceRecord): (r: string)
    ensures rec.aoi != "" ==> r == rec.aoi
    ensures rec.aoi == "" && IsPart(LastSegment(rec.tif)) ==> r == Stem(LastSegment(rec.tif))
    ensures rec.aoi == "" && IsPart(rec.tif) ==> r == Stem(rec.tif)
  {
    if rec.aoi == "" then
      if IsPart(LastSegment(rec.tif)) then NameOfPathText(rec.tif); Stem(Name(PathOf(rec.tif)))
      else Stem(Name(PathOf(rec.tif)))
    else rec.aoi
  }

  /** The names a directory of the snapshot holds; a missing directory holds none. */
  function Listing(fs: map<Path, seq<string>>, dir: Path): seq<string> {
    if dir in fs then fs[dir] else []
  }

  function ImageDir(root: Path, rec: SourceRecord): Path {
    OutTilingDir(root, rec.dataset, AoiName(rec), "sat_img")
  }

  function LabelDir(root: Path, rec: SourceRecord): Path {
    OutTilingDir(root, rec.dataset, AoiName(rec), "map_img")
  }

  /** The job a record would run. */
  function JobFor(root: Path, noGt: bool, rec: SourceRecord): Job {
    Job(rec.tif, ImageDir(root, rec), if noGt then None else Some(LabelDir(root, rec)), rec.gpkg)
  }

  /** Whether the planning loop tiles a readable record: the skip-or-retile
      decision on the `.tif` tiles found in its image directory and, unless
      `no_gt` is set, the `.geojson` tiles found in its label directory. */
  predicate Retile(root: Path, noGt: bool, fs: map<Path, seq<string>>, tileSize: int, rec: SourceRecord)
    requires tileSize != 0 && rec.meta.Some?
  {
    var m := rec.meta.value;
    var expected := ExpectedTiles(m.width, m.height, tileSize, None).value;
    var actImg := CountSuffix(Listing(fs, ImageDir(root, rec)), ".tif");
    var actGt := if noGt then 0 else CountSuffix(Listing(fs, LabelDir(root, rec)), ".geojson");
    Decide(!noGt, actImg, actGt, expected).doTile
  }

  /** The decision of the planning loop for one record
      (data_to_tiles.py:296-360): a raster that cannot be opened is an
      `OSError`, logged and skipped; a zero tile size is a division by zero,
      which is not caught. */
  function PlanRecord(root: Path, noGt: bool, fs: map<Path, seq<string>>, tileSize: int, rec: SourceRecord)
    : (r: Result<Option<Job>, TilingError>)
    ensures rec.meta.None? ==> r == Ok(None)
    ensures rec.meta.Some? ==> (r.Err? <==> tileSize == 0)
    ensures r.Ok? && r.value.Some? ==> r.value.value == JobFor(root, noGt, rec)
    ensures rec.meta.Some? && tileSize != 0 ==>
      r == if Retile(root, noGt, fs, tileSize, rec) then Ok(Some(JobFor(root, noGt, rec))) else Ok(None)
  {
    match rec.meta
    case None => Ok(None)
    case Some(meta) =>
      var imgDir := ImageDir(root, rec);
      match TilingChecker(Listing(fs, imgDir), ".tif", meta.width, meta.height, tileSize, None)
      case Err(e) => Err(e)
      case Ok(counts) =>
        var actGt := if noGt then 0 else CountSuffix(Listing(fs, LabelDir(root, rec)), ".geojson");
        var d := Decide(!noGt, counts.actual, actGt, counts.expected);
        if d.doTile then Ok(Some(JobFor(root, noGt, rec))) else Ok(None)
  }

  /** One more record's outcome added to the jobs so far. */
  function Extend(acc: Result<seq<Job>, TilingError>, step: Result<Option<Job>, TilingError>): Result<seq<Job>, TilingError> {
    match acc
    case Err(e) => Err(e)
    case Ok(jobs) =>
      match step
      case Err(e) => Err(e)
      case Ok(None) => Ok(jobs)
      case Ok(Some(job)) => Ok(jobs + [job])
  }

  /** The outcomes of the first `n` records folded into one result: the jobs
      in record order, or the first uncaught error. */
  function Collect(steps: seq<Result<Option<Job>, TilingError>>, n: nat): Result<seq<Job>, TilingError>
    requires n <= |steps|
  {
    if n == 0 then Ok([]) else Extend(Collect(steps, n - 1), steps[n - 1])
  }

  /** `f` applied to the first `n` elements of `xs`. */
  function MapPrefix<A, B>(f: A -> B, xs: seq<A>, n: nat): (r: seq<B>)
    requires n <= |xs|
    ensures |r| == n
  {
    if n == 0 then [] else MapPrefix(f, xs, n - 1) + [f(xs[n - 1])]
  }

  lemma {:induction false} MapPrefixAt<A, B>(f: A -> B, xs: seq<A>, n: nat, k: nat)
    requires k < n <= |xs|
    ensures MapPrefix(f, xs, n)[k] == f(xs[k])
  {
    if k < n - 1 {
      MapPrefixAt(f, xs, n - 1, k);
    }
  }

  /** Each record's own planning outcome, in record order. */
  function Steps(root: Path, noGt: bool, fs: map<Path, seq<string>>, tileSize: int, records: seq<SourceRecord>)
    : seq<Result<Option<Job>, TilingError>>
  {
    MapPrefix((rec: SourceRecord) => PlanRecord(root, noGt, fs, tileSize, rec), records, |records|)
  }

  lemma StepsAt(root: Path, noGt: bool, fs: map<Path, seq<string>>, tileSize: int, records: seq<SourceRecord>, k: nat)
    requires k < |records|
    ensures |Steps(root, noGt, fs, tileSize, records)| == |records|
    ensures Steps(root, noGt, fs, tileSize, records)[k] == PlanRecord(root, noGt, fs, tileSize, records[k])
  {
    MapPrefixAt((rec: SourceRecord) => PlanRecord(root, noGt, fs, tileSize, rec), records, |records|, k);
  }

  lemma AllSteps(root: Path, noGt: bool, fs: map<Path, seq<string>>, tileSize: int, records: seq<SourceRecord>)
    ensures var steps := Steps(root, noGt, fs, tileSize, records);
      |steps| == |records| &&
      forall k :: 0 <= k < |records| ==> steps[k] == PlanRecord(root, noGt, fs, tileSize, records[k])
  {
    forall k | 0 <= k < |records|
      ensures Steps(root, noGt, fs, tileSize, records)[k] == PlanRecord(root, noGt, fs, tileSize, records[k])
    {
      StepsAt(root, noGt, fs, tileSize, records, k);
    }
  }

  /** The jobs of the whole pass, in record order, or the first uncaught error. */
  function PlannedJobs(root: Path, noGt: bool, fs: map<Path, seq<string>>, tileSize: int, records: seq<SourceRecord>)
    : Result<seq<Job>, TilingError>
  {
    Collect(Steps(root, noGt, fs, tileSize, records), |records|)
  }

  /** An uncaught error ends the pass: later outcomes change nothing. */
  lemma {:induction false} CollectErrorPersists(steps: seq<Result<Option<Job>, TilingError>>, n: nat, m: nat)
    requires n <= m <= |steps| && Collect(steps, n).Err?
    ensures Collect(steps, m) == Collect(steps, n)
    decreases m
  {
    if n < m {
      CollectErrorPersists(steps, n, m - 1);
    }
  }

  /** The body of the planning loop for one record: the tile counts, the
      `do_tile` flag, and the job when it is set. */
  method PlanOne(root: Path, noGt: bool, fs: map<Path, seq<string>>, tileSize: int, rec: SourceRecord)
    returns (r: Result<Option<Job>, TilingError>)
    ensures r == PlanRecord(root, noGt, fs, tileSize, rec)
  {
    if rec.meta.None? {
      return Ok(None);   // OSError: logged, next record
    }
    var aoiName := AoiName(rec);
    var imgDir := OutTilingDir(root, rec.dataset, aoiName, "sat_img");
    var gtDir: Option<Path> := if noGt then None else Some(OutTilingDir(root, rec.dataset, aoiName, "map_img"));
    var checked := TilingChecker(Listing(fs, imgDir), ".tif", rec.meta.value.width, rec.meta.value.height, tileSize, None);
    if checked.Err? {
      return Err(checked.error);
    }
    var actImg, expTiles := checked.value.actual, checked.value.expected;
    var actGt := 0;
    if !noGt {
      actGt := CountSuffix(Listing(fs, gtDir.value), ".geojson");
    }
    var doTile := Decide(!noGt, actImg, actGt, expTiles).doTile;
    if doTile {
      return Ok(Some(Job(rec.tif, imgDir, gtDir, rec.gpkg)));
    }
    return Ok(None);
  }

  /** One pass of the planning loop: record `i`'s outcome added to the jobs
      planned before it. */
  method PlanNext(root: Path, noGt: bool, fs: map<Path, seq<string>>, tileSize: int, records: seq<SourceRecord>,
                  ghost steps: seq<Result<Option<Job>, TilingError>>, i: nat, jobs: seq<Job>)
    returns (next: Result<seq<Job>, TilingError>)
    requires i < |records| && steps == Steps(root, noGt, fs, tileSize, records)
    requires Collect(steps, i) == Ok(jobs)
    ensures next == Collect(steps, i + 1)
  {
    var step := PlanOne(root, noGt, fs, tileSize, records[i]);
    StepsAt(root, noGt, fs, tileSize, records, i);
    match step
    case Err(e) => next := Err(e);
    case Ok(None) => next := Ok(jobs);
    case Ok(Some(job)) => next := Ok(jobs + [job]);
  }

  /** The planning loop of `main`: collects the tiling jobs
      (`input_args`, or the calls made one by one when not in parallel). */
  method PlanTiling(root: Path, noGt: bool, fs: map<Path, seq<string>>, tileSize: int, records: seq<SourceRecord>)
    returns (r: Result<seq<Job>, TilingError>)
    ensures r == PlannedJobs(root, noGt, fs, tileSize, records)
  {
    ghost var steps := Steps(root, noGt, fs, tileSize, records);
    assert |steps| == |records|;
    assert PlannedJobs(root, noGt, fs, tileSize, records) == Collect(steps, |steps|);
    var jobs: seq<Job> := [];
    var i := 0;
    while i < |records|
      invariant 0 <= i <= |records|
      invariant Collect(steps, i) == Ok(jobs)
    {
      var next := PlanNext(root, noGt, fs, tileSize, records, steps, i, jobs);
      if next.Err? {
        CollectErrorPersists(steps, i + 1, |steps|);
        return next;
      }
      jobs := next.value;
      i := i + 1;
    }
    r := Ok(jobs);
  }

  /** The first `n` records that can be opened, as jobs, in order. */
  function ReadableJobs(root: Path, noGt: bool, records: seq<SourceRecord>, n: nat): seq<Job>
    requires n <= |records|
  {
    if n == 0 then []
    else
      var init := ReadableJobs(root, noGt, records, n - 1);
      var rec := records[n - 1];
      if rec.meta.Some? then init + [JobFor(root, noGt, rec)] else init
  }

  /** Outcomes that only skip readable records or plan their jobs. */
  predicate Faithful(root: Path, noGt: bool, records: seq<SourceRecord>, steps: seq<Result<Option<Job>, TilingError>>)
  {
    |steps| == |records| &&
    forall k :: 0 <= k < |steps| ==>
      (records[k].meta.None? ==> steps[k] == Ok(None))
      && (steps[k].Ok? && steps[k].value.Some? ==> steps[k].value.value == JobFor(root, noGt, records[k]))
  }

  lemma {:induction false} CollectIsSubsequence(root: Path, noGt: bool, records: seq<SourceRecord>, steps: seq<Result<Option<Job>, TilingError>>, n: nat)
    requires n <= |steps| && Faithful(root, noGt, records, steps) && Collect(steps, n).Ok?
    ensures Subsequence(Collect(steps, n).value, ReadableJobs(root, noGt, records, n))
  {
    if n > 0 {
      var rec := records[n - 1];
      CollectIsSubsequence(root, noGt, records, steps, n - 1);
      var prev := Collect(steps, n - 1).value;
      var all := ReadableJobs(root, noGt, records, n - 1);
      if rec.meta.Some? {
        var jobs := Collect(steps, n).value;
        SubsequenceExtend(prev, all, JobFor(root, noGt, rec));
        if jobs == prev {
          SubsequenceAppendRight(prev, all, JobFor(root, noGt, rec));
        }
      }
    }
  }

  /** Every planned job is the job of one of the records, in order: the plan
      is a subsequence of the readable records' jobs. */
  lemma PlanIsSubsequenceOfRecords(root: Path, noGt: bool, fs: map<Path, seq<string>>, tileSize: int, records: seq<SourceRecord>)
    requires PlannedJobs(root, noGt, fs, tileSize, records).Ok?
    ensures Subsequence(PlannedJobs(root, noGt, fs, tileSize, records).value, ReadableJobs(root, noGt, records, |records|))
  {
    var steps := Steps(root, noGt, fs, tileSize, records);
    AllSteps(root, noGt, fs, tileSize, records);
    assert Faithful(root, noGt, records, steps);
    CollectIsSubsequence(root, noGt, records, steps, |steps|);
  }

  lemma SubsequenceExtend<T>(a: seq<T>, b: seq<T>, x: T)
    requires Subsequence(a, b)
    ensures Subsequence(a + [x], b + [x])
  {
    assert (a + [x])[..|a|] == a && (b + [x])[..|b|] == b;
  }

  lemma SubsequenceAppendRight<T>(a: seq<T>, b: seq<T>, x: T)
    requires Subsequence(a, b)
    ensures Subsequence(a, b + [x])
  {
    assert (b + [x])[..|b|] == b;
  }

  /** Jobs that each carry a label directory exactly when `no_gt` is unset. */
  predicate GtDirsFollow(noGt: bool, jobs: seq<Job>) {
    forall k :: 0 <= k < |jobs| ==> (jobs[k].gtDir.None? <==> noGt)
  }

  lemma {:induction false} CollectGtDirsFollow(noGt: bool, steps: seq<Result<Option<Job>, TilingError>>, n: nat)
    requires n <= |steps| && Collect(steps, n).Ok?
    requires forall k :: 0 <= k < |steps| && steps[k].Ok? && steps[k].value.Some? ==>
      (steps[k].value.value.gtDir.None? <==> noGt)
    ensures GtDirsFollow(noGt, Collect(steps, n).value)
  {
    if n > 0 {
      CollectGtDirsFollow(noGt, steps, n - 1);
    }
  }

  /** `no_gt` is run-wide: once set, no job of the run gets a label directory,
      and otherwise every job gets one. */
  lemma PlanLabelDirsFollowNoGt(root: Path, noGt: bool, fs: map<Path, seq<string>>, tileSize: int, records: seq<SourceRecord>)
    requires PlannedJobs(root, noGt, fs, tileSize, records).Ok?
    ensures GtDirsFollow(noGt, PlannedJobs(root, noGt, fs, tileSize, records).value)
  {
    var steps := Steps(root, noGt, fs, tileSize, records);
    AllSteps(root, noGt, fs, tileSize, records);
    CollectGtDirsFollow(noGt, steps, |steps|);
  }

  /** Outcomes that plan every readable record and skip the rest. */
  lemma {:induction false} CollectAllReadable(root: Path, noGt: bool, records: seq<SourceRecord>, steps: seq<Result<Option<Job>, TilingError>>, n: nat)
    requires n <= |steps| == |records|
    requires forall k :: 0 <= k < |steps| ==>
      steps[k] == if records[k].meta.Some? then Ok(Some(JobFor(root, noGt, records[k]))) else Ok(None)
    ensures Collect(steps, n) == Ok(ReadableJobs(root, noGt, records, n))
  {
    if n > 0 {
      CollectAllReadable(root, noGt, records, steps, n - 1);
    }
  }

  /** With nothing on disk and a positive tile size, a non-empty raster is
      tiled. */
  lemma EmptyDirectoryTiles(root: Path, noGt: bool, tileSize: int, rec: SourceRecord)
    requires tileSize > 0 && rec.meta.Some? && rec.meta.value.width > 0 && rec.meta.value.height > 0
    ensures PlanRecord(root, noGt, map[], tileSize, rec) == Ok(Some(JobFor(root, noGt, rec)))
  {
    var m := rec.meta.value;
    AxisCoverage(m.width, tileSize, tileSize);
    AxisCoverage(m.height, tileSize, tileSize);
    var e := TilesPerAxis(m.width, tileSize, tileSize) * TilesPerAxis(m.height, tileSize, tileSize);
    assert e >= 1;
    assert Listing(map[], ImageDir(root, rec)) == [];
    assert Decide(!noGt, 0, 0, e).doTile;
  }

  /** With nothing on disk, a positive tile size and non-empty rasters,
      every readable record is tiled. */
  lemma EmptySnapshotTilesEveryRecord(root: Path, noGt: bool, tileSize: int, records: seq<SourceRecord>)
    requires tileSize > 0
    requires forall k :: 0 <= k < |records| && records[k].meta.Some? ==>
      records[k].meta.value.width > 0 && records[k].meta.value.height > 0
    ensures PlannedJobs(root, noGt, map[], tileSize, records) == Ok(ReadableJobs(root, noGt, records, |records|))
  {
    var steps := Steps(root, noGt, map[], tileSize, records);
    AllSteps(root, noGt, map[], tileSize, records);
    forall k | 0 <= k < |records| && records[k].meta.Some?
      ensures steps[k] == Ok(Some(JobFor(root, noGt, records[k])))
    {
      EmptyDirectoryTiles(root, noGt, tileSize, records[k]);
    }
    CollectAllReadable(root, noGt, records, steps, |steps|);
  }

  /** A raster whose tile directories are already complete is not tiled
      again. */
  predicate CompleteOnDisk(root: Path, noGt: bool, fs: map<Path, seq<string>>, tileSize: int, rec: SourceRecord)
    requires tileSize != 0 && rec.meta.Some?
  {
    var m := rec.meta.value;
    var expected := ExpectedTiles(m.width, m.height, tileSize, None).value;
    CountSuffix(Listing(fs, ImageDir(root, rec)), ".tif") == expected
    && (!noGt ==> CountSuffix(Listing(fs, LabelDir(root, rec)), ".geojson") == expected)
  }

  lemma {:induction false} CollectNothing(steps: seq<Result<Option<Job>, TilingError>>, n: nat)
    requires n <= |steps|
    requires forall k :: 0 <= k < |steps| ==> steps[k] == Ok(None)
    ensures Collect(steps, n) == Ok([])
  {
    if n > 0 {
      CollectNothing(steps, n - 1);
    }
  }

  /** When every readable record already has a complete tile set, nothing is
      planned. */
  lemma CompleteSnapshotPlansNothing(root: Path, noGt: bool, fs: map<Path, seq<string>>, tileSize: int, records: seq<SourceRecord>)
    requires tileSize != 0
    requires forall k :: 0 <= k < |records| && records[k].meta.Some? ==>
      CompleteOnDisk(root, noGt, fs, tileSize, records[k])
    ensures PlannedJobs(root, noGt, fs, tileSize, records) == Ok([])
  {
    var steps := Steps(root, noGt, fs, tileSize, records);
    AllSteps(root, noGt, fs, tileSize, records);
    CollectNothing(steps, |steps|);
  }

  // ---------------------------------------------------------------------
  // Which records the pass plans
  // ---------------------------------------------------------------------

  /** The job the pass plans for one record: its job when it can be opened
      and its tile directories call for tiling, none otherwise. */
  function PlannedFor(root: Path, noGt: bool, fs: map<Path, seq<string>>, tileSize: int, rec: SourceRecord): Option<Job> {
    if tileSize != 0 && rec.meta.Some? && Retile(root, noGt, fs, tileSize, rec) then Some(JobFor(root, noGt, rec)) else None
  }

  /** The jobs among the first `n` outcomes, in order. */
  function Chosen(outcomes: seq<Option<Job>>, n: nat): seq<Job>
    requires n <= |outcomes|
  {
    if n == 0 then []
    else if outcomes[n - 1].Some? then Chosen(outcomes, n - 1) + [outcomes[n - 1].value]
    else Chosen(outcomes, n - 1)
  }

  /** The jobs of the readable records whose tile directories call for
      tiling, in record order. */
  function RetiledJobs(root: Path, noGt: bool, fs: map<Path, seq<string>>, tileSize: int, records: seq<SourceRecord>)
    : seq<Job>
  {
    Chosen(MapPrefix((rec: SourceRecord) => PlannedFor(root, noGt, fs, tileSize, rec), records, |records|), |records|)
  }

  lemma {:induction false} CollectChosen(steps: seq<Result<Option<Job>, TilingError>>, outcomes: seq<Option<Job>>, n: nat)
    requires n <= |steps| == |outcomes|
    requires forall k :: 0 <= k < |steps| ==> steps[k] == Ok(outcomes[k])
    ensures Collect(steps, n) == Ok(Chosen(outcomes, n))
  {
    if n > 0 {
      CollectChosen(steps, outcomes, n - 1);
    }
  }

  lemma {:induction false} ChosenMembers(outcomes: seq<Option<Job>>, n: nat, job: Job)
    requires n <= |outcomes|
    ensures job in Chosen(outcomes, n) <==> exists k :: 0 <= k < n && outcomes[k] == Some(job)
  {
    if n > 0 {
      ChosenMembers(outcomes, n - 1, job);
    }
  }

  /** With a non-zero tile size the pass plans exactly the readable records
      whose decision is to tile, in record order: a job is planned exactly
      when it is the job of such a record. */
  lemma PlanSelectsRetiled(root: Path, noGt: bool, fs: map<Path, seq<string>>, tileSize: int, records: seq<SourceRecord>)
    requires tileSize != 0
    ensures PlannedJobs(root, noGt, fs, tileSize, records) == Ok(RetiledJobs(root, noGt, fs, tileSize, records))
    ensures forall job :: job in RetiledJobs(root, noGt, fs, tileSize, records) <==>
      exists k :: 0 <= k < |records| && records[k].meta.Some? && Retile(root, noGt, fs, tileSize, records[k])
                 && JobFor(root, noGt, records[k]) == job
  {
    var f := (rec: SourceRecord) => PlannedFor(root, noGt, fs, tileSize, rec);
    var outcomes := MapPrefix(f, records, |records|);
    var steps := Steps(root, noGt, fs, tileSize, records);
    AllSteps(root, noGt, fs, tileSize, records);
    forall k | 0 <= k < |records|
      ensures steps[k] == Ok(outcomes[k])
    {
      MapPrefixAt(f, records, |records|, k);
    }
    CollectChosen(steps, outcomes, |records|);
    forall job
      ensures job in RetiledJobs(root, noGt, fs, tileSize, records) <==>
        exists k :: 0 <= k < |records| && records[k].meta.Some? && Retile(root, noGt, fs, tileSize, records[k])
                   && JobFor(root, noGt, records[k]) == job
    {
      ChosenMembers(outcomes, |records|, job);
      forall k | 0 <= k < |records|
        ensures outcomes[k] == f(records[k])
      {
        MapPrefixAt(f, records, |records|, k);
      }
    }
  }

  lemma {:induction false} CollectErrors(steps: seq<Result<Option<Job>, TilingError>>, n: nat)
    requires n <= |steps|
    ensures Collect(steps, n).Err? <==> exists k :: 0 <= k < n && steps[k].Err?
  {
    if n > 0 {
      CollectErrors(steps, n - 1);
    }
  }

  /** A zero tile size fails the pass exactly when some record can be
      opened: the division by zero of the grid formula is not caught. */
  lemma PlanZeroTileSize(root: Path, noGt: bool, fs: map<Path, seq<string>>, records: seq<SourceRecord>)
    ensures PlannedJobs(root, noGt, fs, 0, records).Err? <==> exists k :: 0 <= k < |records| && records[k].meta.Some?
  {
    var steps := Steps(root, noGt, fs, 0, records);
    AllSteps(root, noGt, fs, 0, records);
    CollectErrors(steps, |steps|);
    assert forall k :: 0 <= k < |records| ==> (steps[k].Err? <==> records[k].meta.Some?);
  }
}
