/**
 * The second half of data_to_tiles.py `main`: the pass that pairs the image
 * tiles with the label tiles of every record, filters them, and writes one
 * line per kept tile to the manifest of its split, counting kept and total
 * tiles per split.
 *
 * Inputs replace what the pass reads from disk or computes in floating
 * point: the sorted tile listings with their file sizes, the annotated
 * percentage of each (image, label) pair, and the stream of random draws.
 */
module Assembly {
  import opened Common
  import opened Paths

  /** The split names that have a manifest and counters. */
  const Splits: set<string> := {"trn", "val", "tst"}

  /** An image tile as listed, with its file size in bytes. */
  datatype TileFile = TileFile(path: Path, size: int)

  /** A manifest line: an image tile alone, or an image tile with its mask and
      its annotated percentage. */
  datatype Line = ImageOnly(img: Path) | Labeled(img: Path, mask: Path, percent: int)

  datatype AssemblyError =
    | UnknownSplit(name: string)               // KeyError on a manifest or counter lookup
    | ShortTilePath(path: Path)                // IndexError on `parts[-4]`
    | TileCountMismatch(images: int, labels: int)   // IOError

  /** The thresholds of the pass: `min_annotated_percent`, `val_percent`,
      `min_raster_tile_size`. */
  datatype Params = Params(minAnnotPerc: int, valPercent: int, minRasterTileSize: int)

  /** Counters, manifests, written masks, and the number of draws consumed. */
  datatype AssemblyState = AssemblyState(
    kept: map<string, int>,
    total: map<string, int>,
    manifests: map<string, seq<Line>>,
    masks: seq<Path>,
    drawn: nat)

  /** The state after the manifests are removed and the counters created. */
  const Initial: AssemblyState := AssemblyState(
    map["trn" := 0, "val" := 0, "tst" := 0],
    map["trn" := 0, "val" := 0, "tst" := 0],
    map["trn" := [], "val" := [], "tst" := []],
    [], 0)

  // ---------------------------------------------------------------------
  // Step functions
  // ---------------------------------------------------------------------

  /** `tile.parts[-4]`: the split directory of a tile written by the tiler. */
  function SplitName(p: Path): Option<string> {
    if |p| >= 4 then Some(p[|p| - 4]) else None
  }

  /** The mask written next to a label tile: its stem with `.tif`. */
  function MaskPath(gt: Path): Path {
    Join(Parent(gt), Stem(Name(gt)) + ".tif")
  }

  /** For a relative label tile path of single components, the mask sits in
      the label tile's directory, under the label tile's name with its final
      suffix replaced by `.tif`. */
  lemma MaskBesideLabel(gt: Path)
    requires gt != [] && forall k :: 0 <= k < |gt| ==> IsPart(gt[k])
    ensures MaskPath(gt) == gt[..|gt| - 1] + [Stem(gt[|gt| - 1]) + ".tif"]
  {
    var last := gt[|gt| - 1];
    assert IsPart(last);
    assert last != "/" by { assert '/' in "/"; }
    assert Name(gt) == last && Parent(gt) == gt[..|gt| - 1];
    var m := Stem(last) + ".tif";
    assert '/' !in Stem(last) by { assert Stem(last) == last[..|Stem(last)|]; }
    assert IsPart(m);
    JoinPart(gt[..|gt| - 1], m);
  }

  /** `int(x)`: truncation toward zero. */
  function Trunc(x: real): (n: int)
    ensures x >= 0.0 ==> n as real <= x < n as real + 1.0
    ensures x < 0.0 ==> n as real - 1.0 < x <= n as real
  {
    if x >= 0.0 then x.Floor else -((-x).Floor)
  }

  /** Whether every structure the pass looks `d` up in has it as a key. */
  predicate Known(st: AssemblyState, d: string) {
    d in st.manifests && d in st.kept && d in st.total
  }

  function CountLabeled(lines: seq<Line>): (n: nat)
    ensures n <= |lines|
  {
    if lines == [] then 0
    else CountLabeled(lines[..|lines| - 1]) + (if lines[|lines| - 1].Labeled? then 1 else 0)
  }

  /** A labelled line written to the manifest of `d`, with both counters of
      `d` incremented. */
  function Record(st: AssemblyState, d: string, line: Line): AssemblyState
    requires Known(st, d)
  {
    st.(manifests := st.manifests[d := st.manifests[d] + [line]],
        kept := st.kept[d := st.kept[d] + 1],
        total := st.total[d := st.total[d] + 1])
  }

  /** One (image, label) pair of the paired loop (data_to_tiles.py:410-450);
      `percent` is `annot_perc * 100`.  An error leaves the state as it was
      before the pair. */
  function PairStep(st: AssemblyState, p: Params, draws: nat -> int, img: TileFile, gt: Path, percent: real)
    : Result<AssemblyState, AssemblyError>
  {
    PlacePair(st, p, draws(st.drawn), img, gt, percent)
  }

  /** `PairStep` once the draw it may consume is known. */
  function PlacePair(st: AssemblyState, p: Params, draw: int, img: TileFile, gt: Path, percent: real)
    : Result<AssemblyState, AssemblyError>
  {
    if img.size < p.minRasterTileSize then Ok(st)
    else
      match SplitName(img.path)
      case None => Err(ShortTilePath(img.path))
      case Some(d) =>
        if d == "trn" || d == "train" then
          if percent >= p.minAnnotPerc as real then
            var target := if draw < p.valPercent then "val" else d;
            if !Known(st, target) then Err(UnknownSplit(target))
            else
              var mask := MaskPath(gt);
              Ok(Record(st, target, Labeled(img.path, mask, Trunc(percent))).(masks := st.masks + [mask], drawn := st.drawn + 1))
          else if d !in st.total then Err(UnknownSplit(d))
          else Ok(st.(total := st.total[d := st.total[d] + 1]))
        else if d == "tst" || d == "test" then
          if !Known(st, d) then Err(UnknownSplit(d))
          else
            var mask := MaskPath(gt);
            Ok(Record(st, d, Labeled(img.path, mask, Trunc(percent))).(masks := st.masks + [mask]))
        else Ok(st)   // any other split name is logged and skipped
  }

  /** One image tile of a record that has no label tiles
      (data_to_tiles.py:395-404). */
  function ImageStep(st: AssemblyState, p: Params, img: TileFile): Result<AssemblyState, AssemblyError>
  {
    if img.size < p.minRasterTileSize then Ok(st)
    else
      match SplitName(img.path)
      case None => Err(ShortTilePath(img.path))
      case Some(d) =>
        if d !in st.manifests then Err(UnknownSplit(d))
        else Ok(st.(manifests := st.manifests[d := st.manifests[d] + [ImageOnly(img.path)]]))
  }

  /** The state reached and the error that stopped the pass, if any. */
  datatype Outcome = Outcome(state: AssemblyState, error: Option<AssemblyError>)

  /** The first `n` image tiles of an imagery-only record. */
  function ImagesOnly(st: AssemblyState, p: Params, imgs: seq<TileFile>, n: nat): Outcome
    requires n <= |imgs|
  {
    if n == 0 then Outcome(st, None)
    else
      var o := ImagesOnly(st, p, imgs, n - 1);
      if o.error.Some? then o
      else
        match ImageStep(o.state, p, imgs[n - 1])
        case Err(e) => Outcome(o.state, Some(e))
        case Ok(s) => Outcome(s, None)
  }

  /** The first `n` pairs of a record with as many label tiles as image tiles. */
  function Pairs(st: AssemblyState, p: Params, draws: nat -> int, imgs: seq<TileFile>, gts: seq<Path>,
                 coverage: (Path, Path) -> real, n: nat): Outcome
    requires n <= |imgs| && n <= |gts|
  {
    if n == 0 then Outcome(st, None)
    else
      var o := Pairs(st, p, draws, imgs, gts, coverage, n - 1);
      if o.error.Some? then o
      else
        match PairStep(o.state, p, draws, imgs[n - 1], gts[n - 1], coverage(imgs[n - 1].path, gts[n - 1]))
        case Err(e) => Outcome(o.state, Some(e))
        case Ok(s) => Outcome(s, None)
  }

  /** The sorted listings of one record's image and label tile directories. */
  datatype RecordTiles = RecordTiles(imgs: seq<TileFile>, gts: seq<Path>)

  /** The first `n` records of the pass. */
  function Pass(st: AssemblyState, p: Params, draws: nat -> int, records: seq<RecordTiles>,
                coverage: (Path, Path) -> real, n: nat): Outcome
    requires n <= |records|
  {
    if n == 0 then Outcome(st, None)
    else
      var o := Pass(st, p, draws, records, coverage, n - 1);
      if o.error.Some? then o
      else RecordStep(o.state, p, draws, records[n - 1].imgs, records[n - 1].gts, coverage)
  }

  /** One record of the pass (data_to_tiles.py:378-450). */
  function RecordStep(st: AssemblyState, p: Params, draws: nat -> int, imgs: seq<TileFile>, gts: seq<Path>,
                      coverage: (Path, Path) -> real): Outcome
  {
    if |imgs| > 0 && |gts| == 0 then ImagesOnly(st, p, imgs, |imgs|)
    else if |imgs| != |gts| then Outcome(st, Some(TileCountMismatch(|imgs|, |gts|)))
    else Pairs(st, p, draws, imgs, gts, coverage, |imgs|)
  }

  /** What one pair can do: a tile below the size floor is skipped, a path
      too short to name a split raises, only a missing split or a short path
      raise, a pair that goes through keeps the set of splits, adds at most
      its own mask and consumes at most one draw, and a tile under any split
      name other than `trn`, `train`, `tst` and `test` is logged and
      skipped. */
  lemma PairStepOutcomes(st: AssemblyState, p: Params, draws: nat -> int, img: TileFile, gt: Path, percent: real)
    ensures var r := PairStep(st, p, draws, img, gt, percent);
      (img.size < p.minRasterTileSize ==> r == Ok(st))
      && (img.size >= p.minRasterTileSize && |img.path| < 4 ==> r == Err(ShortTilePath(img.path)))
      && (r.Err? ==> r.error.ShortTilePath? || r.error.UnknownSplit?)
      && (r.Ok? ==>
            r.value.kept.Keys == st.kept.Keys && r.value.total.Keys == st.total.Keys
            && r.value.manifests.Keys == st.manifests.Keys
            && (r.value.masks == st.masks || r.value.masks == st.masks + [MaskPath(gt)])
            && (r.value.drawn == st.drawn || r.value.drawn == st.drawn + 1))
      && ((img.size >= p.minRasterTileSize && SplitName(img.path).Some?
           && SplitName(img.path).value !in {"trn", "train", "tst", "test"}) ==> r == Ok(st))
  {
    var r := PlacePair(st, p, draws(st.drawn), img, gt, percent);
    assert r == PairStep(st, p, draws, img, gt, percent);
  }

  /** What one image tile of an imagery-only record can do: skipped when
      small, raising exactly when its path names no split or an unknown
      one, and otherwise appending one image-only line to the manifest of
      the split its path names and touching nothing else. */
  lemma ImageStepOutcomes(st: AssemblyState, p: Params, img: TileFile)
    ensures var r := ImageStep(st, p, img);
      (img.size < p.minRasterTileSize ==> r == Ok(st))
      && (img.size >= p.minRasterTileSize ==>
            (r.Err? <==> |img.path| < 4 || img.path[|img.path| - 4] !in st.manifests))
      && (r.Ok? ==>
            r.value.kept == st.kept && r.value.total == st.total && r.value.masks == st.masks
            && r.value.drawn == st.drawn)
      && (img.size >= p.minRasterTileSize && r.Ok? ==>
            var d := img.path[|img.path| - 4];
            r.value.manifests == st.manifests[d := st.manifests[d] + [ImageOnly(img.path)]])
  {
  }

  /** One record: an empty record does nothing, a record whose label tiles
      are not as many as its image tiles raises before touching the state,
      and an imagery-only record changes no counter, no mask and no draw. */
  lemma RecordStepOutcomes(st: AssemblyState, p: Params, draws: nat -> int, imgs: seq<TileFile>, gts: seq<Path>,
                           coverage: (Path, Path) -> real)
    ensures var o := RecordStep(st, p, draws, imgs, gts, coverage);
      (|imgs| == 0 && |gts| == 0 ==> o == Outcome(st, None))
      && (|gts| > 0 && |imgs| != |gts| ==> o == Outcome(st, Some(TileCountMismatch(|imgs|, |gts|))))
      && (|imgs| > 0 && |gts| == 0 ==>
            o.state.kept == st.kept && o.state.total == st.total && o.state.drawn == st.drawn && o.state.masks == st.masks)
  {
    if |imgs| > 0 && |gts| == 0 {
      ImageryOnlyKeepsCounters(st, p, imgs, |imgs|);
    }
  }

  // ---------------------------------------------------------------------
  // The assembler
  // ---------------------------------------------------------------------

  class DatasetAssembler {
    var kept: map<string, int>
    var total: map<string, int>
    var manifests: map<string, seq<Line>>
    var masks: seq<Path>
    var drawn: nat
    const params: Params
    /** The k-th value `np.random.randint(1, 100)` returns. */
    const draws: nat -> int

    function Snapshot(): AssemblyState
      reads this
    {
      AssemblyState(kept, total, manifests, masks, drawn)
    }

    /** Removes the three manifests and creates the counters
        (data_to_tiles.py:366-376). */
    constructor(params: Params, draws: nat -> int)
      ensures Snapshot() == Initial
      ensures this.params == params && this.draws == draws
    {
      kept := map["trn" := 0, "val" := 0, "tst" := 0];
      total := map["trn" := 0, "val" := 0, "tst" := 0];
      manifests := map["trn" := [], "val" := [], "tst" := []];
      masks := [];
      drawn := 0;
      this.params := params;
      this.draws := draws;
    }

    /** Writes `line` to the manifest of `d` and counts it as kept. */
    method Keep(d: string, line: Line)
      requires Known(Snapshot(), d)
      modifies this
      ensures Snapshot() == Record(old(Snapshot()), d, line)
    {
      manifests := manifests[d := manifests[d] + [line]];
      kept := kept[d := kept[d] + 1];
      total := total[d := total[d] + 1];
    }

    /** One pair of the paired loop. */
    method AddPair(img: TileFile, gt: Path, percent: real) returns (err: Option<AssemblyError>)
      modifies this
      ensures var r := PairStep(old(Snapshot()), params, draws, img, gt, percent);
        if r.Ok? then Snapshot() == r.value && err.None?
        else Snapshot() == old(Snapshot()) && err == Some(r.error)
    {
      if img.size < params.minRasterTileSize {
        return None;
      }
      if |img.path| < 4 {
        return Some(ShortTilePath(img.path));
      }
      var dataset := img.path[|img.path| - 4];
      if dataset == "trn" || dataset == "train" {
        if percent >= params.minAnnotPerc as real {
          var draw := draws(drawn);
          dataset := if draw < params.valPercent then "val" else dataset;
          if !Known(Snapshot(), dataset) {
            return Some(UnknownSplit(dataset));
          }
          var mask := MaskPath(gt);
          Keep(dataset, Labeled(img.path, mask, Trunc(percent)));
          masks := masks + [mask];
          drawn := drawn + 1;
        } else {
          if dataset !in total {
            return Some(UnknownSplit(dataset));
          }
          total := total[dataset := total[dataset] + 1];
        }
      } else if dataset == "tst" || dataset == "test" {
        if !Known(Snapshot(), dataset) {
          return Some(UnknownSplit(dataset));
        }
        var mask := MaskPath(gt);
        Keep(dataset, Labeled(img.path, mask, Trunc(percent)));
        masks := masks + [mask];
      }
      return None;
    }

    /** One image tile of an imagery-only record. */
    method AddImage(img: TileFile) returns (err: Option<AssemblyError>)
      modifies this
      ensures var r := ImageStep(old(Snapshot()), params, img);
        if r.Ok? then Snapshot() == r.value && err.None?
        else Snapshot() == old(Snapshot()) && err == Some(r.error)
    {
      if img.size < params.minRasterTileSize {
        return None;
      }
      if |img.path| < 4 {
        return Some(ShortTilePath(img.path));
      }
      var dataset := img.path[|img.path| - 4];
      if dataset !in manifests {
        return Some(UnknownSplit(dataset));
      }
      manifests := manifests[dataset := manifests[dataset] + [ImageOnly(img.path)]];
      return None;
    }

    /** One record of the pass: its sorted image tiles, its sorted label
        tiles, and the annotated percentage of each pair. */
    method AddRecord(imgs: seq<TileFile>, gts: seq<Path>, coverage: (Path, Path) -> real)
      returns (err: Option<AssemblyError>)
      modifies this
      ensures var o := RecordStep(old(Snapshot()), params, draws, imgs, gts, coverage);
        Snapshot() == o.state && err == o.error
      ensures Inv(old(Snapshot())) ==> Inv(Snapshot())
    {
      ghost var start := Snapshot();
      if Inv(start) {
        RecordStepPreservesInv(start, params, draws, imgs, gts, coverage);
      }
      if |imgs| > 0 && |gts| == 0 {
        err := AddImages(imgs);
      } else if |imgs| != |gts| {
        err := Some(TileCountMismatch(|imgs|, |gts|));
      } else {
        err := AddPairs(imgs, gts, coverage);
      }
    }

    /** The loop over the image tiles of an imagery-only record. */
    method AddImages(imgs: seq<TileFile>) returns (err: Option<AssemblyError>)
      modifies this
      ensures var o := ImagesOnly(old(Snapshot()), params, imgs, |imgs|);
        Snapshot() == o.state && err == o.error
    {
      ghost var start := Snapshot();
      var i := 0;
      while i < |imgs|
        invariant 0 <= i <= |imgs|
        invariant ImagesOnly(start, params, imgs, i) == Outcome(Snapshot(), None)
      {
        err := AddImage(imgs[i]);
        if err.Some? {
          ImagesOnlyStops(start, params, imgs, i + 1);
          return;
        }
        i := i + 1;
      }
      return None;
    }

    /** The loop over the (image, label) pairs of a record. */
    method AddPairs(imgs: seq<TileFile>, gts: seq<Path>, coverage: (Path, Path) -> real)
      returns (err: Option<AssemblyError>)
      requires |imgs| == |gts|
      modifies this
      ensures var o := Pairs(old(Snapshot()), params, draws, imgs, gts, coverage, |imgs|);
        Snapshot() == o.state && err == o.error
    {
      ghost var start := Snapshot();
      var i := 0;
      while i < |imgs|
        invariant 0 <= i <= |imgs|
        invariant Pairs(start, params, draws, imgs, gts, coverage, i) == Outcome(Snapshot(), None)
      {
        err := AddPair(imgs[i], gts[i], coverage(imgs[i].path, gts[i]));
        if err.Some? {
          PairsStop(start, params, draws, imgs, gts, coverage, i + 1);
          return;
        }
        i := i + 1;
      }
      return None;
    }

    /** The loop of the pass over all records; the first error ends it. */
    method AddRecords(records: seq<RecordTiles>, coverage: (Path, Path) -> real)
      returns (err: Option<AssemblyError>)
      modifies this
      ensures var o := Pass(old(Snapshot()), params, draws, records, coverage, |records|);
        Snapshot() == o.state && err == o.error
      ensures Inv(old(Snapshot())) ==> Inv(Snapshot())
    {
      ghost var start := Snapshot();
      var i := 0;
      while i < |records|
        invariant 0 <= i <= |records|
        invariant Pass(start, params, draws, records, coverage, i) == Outcome(Snapshot(), None)
        invariant Inv(start) ==> Inv(Snapshot())
      {
        ghost var before := Snapshot();
        assert Pass(start, params, draws, records, coverage, i + 1)
          == RecordStep(before, params, draws, records[i].imgs, records[i].gts, coverage);
        err := AddRecord(records[i].imgs, records[i].gts, coverage);
        if err.Some? {
          PassStops(start, params, draws, records, coverage, i + 1);
          return;
        }
        i := i + 1;
      }
      return None;
    }
  }

  lemma {:induction false} PassStops(st: AssemblyState, p: Params, draws: nat -> int, records: seq<RecordTiles>,
                                     coverage: (Path, Path) -> real, n: nat)
    requires n <= |records| && Pass(st, p, draws, records, coverage, n).error.Some?
    ensures Pass(st, p, draws, records, coverage, |records|) == Pass(st, p, draws, records, coverage, n)
    decreases |records| - n
  {
    if n < |records| {
      PassStops(st, p, draws, records, coverage, n + 1);
    }
  }

  /** Once a tile fails, the rest of the record is not processed. */
  lemma {:induction false} ImagesOnlyStops(st: AssemblyState, p: Params, imgs: seq<TileFile>, n: nat)
    requires n <= |imgs| && ImagesOnly(st, p, imgs, n).error.Some?
    ensures ImagesOnly(st, p, imgs, |imgs|) == ImagesOnly(st, p, imgs, n)
    decreases |imgs| - n
  {
    if n < |imgs| {
      ImagesOnlyStops(st, p, imgs, n + 1);
    }
  }

  lemma {:induction false} PairsStop(st: AssemblyState, p: Params, draws: nat -> int, imgs: seq<TileFile>, gts: seq<Path>,
                                     coverage: (Path, Path) -> real, n: nat)
    requires n <= |imgs| == |gts| && Pairs(st, p, draws, imgs, gts, coverage, n).error.Some?
    ensures Pairs(st, p, draws, imgs, gts, coverage, |imgs|) == Pairs(st, p, draws, imgs, gts, coverage, n)
    decreases |imgs| - n
  {
    if n < |imgs| {
      PairsStop(st, p, draws, imgs, gts, coverage, n + 1);
    }
  }

  // ---------------------------------------------------------------------
  // Invariant of the pass
  // ---------------------------------------------------------------------

  /** The counters and manifests agree: every split keeps at most as many
      tiles as it counted, its kept count is the number of labelled lines in
      its manifest, and every draw consumed placed one kept training tile in
      `trn` or `val`. */
  predicate Inv(st: AssemblyState) {
    SplitsAgree(st) && st.drawn == st.kept["trn"] + st.kept["val"]
  }

  lemma InitialInv()
    ensures Inv(Initial)
  {
    assert CountLabeled([]) == 0;
  }

  lemma {:induction false} CountLabeledAppend(lines: seq<Line>, line: Line)
    ensures CountLabeled(lines + [line]) == CountLabeled(lines) + (if line.Labeled? then 1 else 0)
  {
    assert (lines + [line])[..|lines|] == lines;
  }

  /** The split bookkeeping part of the invariant. */
  predicate SplitsAgree(st: AssemblyState) {
    st.kept.Keys == Splits && st.total.Keys == Splits && st.manifests.Keys == Splits
    && (forall s :: s in Splits ==> 0 <= st.kept[s] <= st.total[s] && st.kept[s] == CountLabeled(st.manifests[s]))
  }

  lemma RecordAgrees(st: AssemblyState, d: string, line: Line)
    requires SplitsAgree(st) && d in Splits && line.Labeled?
    ensures SplitsAgree(Record(st, d, line))
    ensures Record(st, d, line).kept["trn"] + Record(st, d, line).kept["val"]
      == st.kept["trn"] + st.kept["val"] + (if d == "tst" then 0 else 1)
  {
    CountLabeledAppend(st.manifests[d], line);
  }

  lemma PairStepPreservesInv(st: AssemblyState, p: Params, draws: nat -> int, img: TileFile, gt: Path, percent: real)
    requires Inv(st)
    ensures PairStep(st, p, draws, img, gt, percent).Ok? ==> Inv(PairStep(st, p, draws, img, gt, percent).value)
  {
    PlacePairPreservesInv(st, p, draws(st.drawn), img, gt, percent);
  }

  lemma PlacePairPreservesInv(st: AssemblyState, p: Params, draw: int, img: TileFile, gt: Path, percent: real)
    requires Inv(st)
    ensures PlacePair(st, p, draw, img, gt, percent).Ok? ==> Inv(PlacePair(st, p, draw, img, gt, percent).value)
  {
    var r := PlacePair(st, p, draw, img, gt, percent);
    if r.Ok? && img.size >= p.minRasterTileSize {
      var d := SplitName(img.path).value;
      var line := Labeled(img.path, MaskPath(gt), Trunc(percent));
      if d == "trn" || d == "train" {
        if percent >= p.minAnnotPerc as real {
          var target := if draw < p.valPercent then "val" else d;
          RecordAgrees(st, target, line);
        }
      } else if d == "tst" || d == "test" {
        RecordAgrees(st, d, line);
      }
    }
  }

  lemma ImageStepPreservesInv(st: AssemblyState, p: Params, img: TileFile)
    requires Inv(st)
    ensures ImageStep(st, p, img).Ok? ==> Inv(ImageStep(st, p, img).value)
  {
    if ImageStep(st, p, img).Ok? && img.size >= p.minRasterTileSize {
      var d := SplitName(img.path).value;
      CountLabeledAppend(st.manifests[d], ImageOnly(img.path));
    }
  }

  /** Every record, completed or stopped by an error, leaves the invariant intact. */
  lemma {:induction false} RecordStepPreservesInv(st: AssemblyState, p: Params, draws: nat -> int, imgs: seq<TileFile>,
                                                  gts: seq<Path>, coverage: (Path, Path) -> real)
    requires Inv(st)
    ensures Inv(RecordStep(st, p, draws, imgs, gts, coverage).state)
  {
    if |imgs| > 0 && |gts| == 0 {
      ImagesOnlyPreservesInv(st, p, imgs, |imgs|);
    } else if |imgs| == |gts| {
      PairsPreservesInv(st, p, draws, imgs, gts, coverage, |imgs|);
    }
  }

  /** From the freshly created counters, the invariant holds after any
      number of records, whether the pass completes or stops on an error. */
  lemma {:induction false} PassKeepsInv(p: Params, draws: nat -> int, records: seq<RecordTiles>,
                                        coverage: (Path, Path) -> real, n: nat)
    requires n <= |records|
    ensures Inv(Pass(Initial, p, draws, records, coverage, n).state)
  {
    if n == 0 {
      InitialInv();
    } else {
      PassKeepsInv(p, draws, records, coverage, n - 1);
      var o := Pass(Initial, p, draws, records, coverage, n - 1);
      if o.error.None? {
        RecordStepPreservesInv(o.state, p, draws, records[n - 1].imgs, records[n - 1].gts, coverage);
      }
    }
  }

  lemma {:induction false} ImagesOnlyPreservesInv(st: AssemblyState, p: Params, imgs: seq<TileFile>, n: nat)
    requires Inv(st) && n <= |imgs|
    ensures Inv(ImagesOnly(st, p, imgs, n).state)
  {
    if n > 0 {
      ImagesOnlyPreservesInv(st, p, imgs, n - 1);
      ImageStepPreservesInv(ImagesOnly(st, p, imgs, n - 1).state, p, imgs[n - 1]);
    }
  }

  lemma {:induction false} PairsPreservesInv(st: AssemblyState, p: Params, draws: nat -> int, imgs: seq<TileFile>,
                                             gts: seq<Path>, coverage: (Path, Path) -> real, n: nat)
    requires Inv(st) && n <= |imgs| && n <= |gts|
    ensures Inv(Pairs(st, p, draws, imgs, gts, coverage, n).state)
  {
    if n > 0 {
      PairsPreservesInv(st, p, draws, imgs, gts, coverage, n - 1);
      var o := Pairs(st, p, draws, imgs, gts, coverage, n - 1);
      PairStepPreservesInv(o.state, p, draws, imgs[n - 1], gts[n - 1], coverage(imgs[n - 1].path, gts[n - 1]));
    }
  }

  // ---------------------------------------------------------------------
  // What one tile does
  // ---------------------------------------------------------------------

  /** A tile below the minimum file size changes nothing. */
  lemma SmallTileSkipped(st: AssemblyState, p: Params, draws: nat -> int, img: TileFile, gt: Path, percent: real)
    requires img.size < p.minRasterTileSize
    ensures PairStep(st, p, draws, img, gt, percent) == Ok(st)
    ensures ImageStep(st, p, img) == Ok(st)
  {
  }

  /** A training tile is kept exactly when its annotated percentage reaches
      the minimum; a kept tile consumes one draw and goes to `val` exactly
      when the draw is below `val_percent`, with one line and one kept and
      one total count under that split; a dropped tile only counts in the
      total of `trn`. */
  lemma TrainTileStep(st: AssemblyState, p: Params, draws: nat -> int, img: TileFile, gt: Path, percent: real)
    requires Inv(st) && img.size >= p.minRasterTileSize && SplitName(img.path) == Some("trn")
    ensures var r := PairStep(st, p, draws, img, gt, percent);
      var target := if draws(st.drawn) < p.valPercent then "val" else "trn";
      var other := if target == "val" then "trn" else "val";
      r.Ok?
      && (percent >= p.minAnnotPerc as real ==>
            r.value.drawn == st.drawn + 1
            && r.value.manifests[target] == st.manifests[target] + [Labeled(img.path, MaskPath(gt), Trunc(percent))]
            && r.value.kept[target] == st.kept[target] + 1 && r.value.total[target] == st.total[target] + 1
            && r.value.manifests[other] == st.manifests[other] && r.value.kept[other] == st.kept[other]
            && r.value.total[other] == st.total[other]
            && r.value.manifests["tst"] == st.manifests["tst"] && r.value.kept["tst"] == st.kept["tst"]
            && r.value.total["tst"] == st.total["tst"] && r.value.masks == st.masks + [MaskPath(gt)])
      && (percent < p.minAnnotPerc as real ==>
            r.value == st.(total := st.total["trn" := st.total["trn"] + 1]))
  {
  }

  /** A test tile is always kept, whatever its annotated percentage. */
  lemma TestTileStep(st: AssemblyState, p: Params, draws: nat -> int, img: TileFile, gt: Path, percent: real)
    requires Inv(st) && img.size >= p.minRasterTileSize && SplitName(img.path) == Some("tst")
    ensures var r := PairStep(st, p, draws, img, gt, percent);
      r.Ok? && r.value.drawn == st.drawn
      && r.value.manifests["tst"] == st.manifests["tst"] + [Labeled(img.path, MaskPath(gt), Trunc(percent))]
      && r.value.kept["tst"] == st.kept["tst"] + 1 && r.value.total["tst"] == st.total["tst"] + 1
      && r.value.masks == st.masks + [MaskPath(gt)]
      && r.value.kept["trn"] == st.kept["trn"] && r.value.kept["val"] == st.kept["val"]
      && r.value.total["trn"] == st.total["trn"] && r.value.total["val"] == st.total["val"]
      && r.value.manifests["trn"] == st.manifests["trn"] && r.value.manifests["val"] == st.manifests["val"]
  {
  }

  /** The long split names pass the tests of the paired loop but have no
      manifest and no counters.  A `train` tile goes through only when it is
      kept and the draw sends it to `val`, where it is written and counted;
      a dropped `train` tile, a kept one that stays in training, and any
      `test` tile raise a KeyError on the long name. */
  lemma LongSplitNamesRaise(st: AssemblyState, p: Params, draws: nat -> int, img: TileFile, gt: Path, percent: real)
    requires Inv(st) && img.size >= p.minRasterTileSize
    requires SplitName(img.path) == Some("train") || SplitName(img.path) == Some("test")
    ensures var r := PairStep(st, p, draws, img, gt, percent);
      var toVal := SplitName(img.path) == Some("train") && percent >= p.minAnnotPerc as real
                   && draws(st.drawn) < p.valPercent;
      (r.Err? <==> !toVal)
      && (r.Err? ==> r.error == UnknownSplit(SplitName(img.path).value))
      && (toVal ==> r.value.manifests["val"] == st.manifests["val"] + [Labeled(img.path, MaskPath(gt), Trunc(percent))]
                    && r.value.kept["val"] == st.kept["val"] + 1 && r.value.total["val"] == st.total["val"] + 1)
  {
  }

  /** A record with image tiles and no label tiles only adds image lines:
      counters and draws are untouched. */
  lemma {:induction false} ImageryOnlyKeepsCounters(st: AssemblyState, p: Params, imgs: seq<TileFile>, n: nat)
    requires n <= |imgs|
    ensures var o := ImagesOnly(st, p, imgs, n);
      o.state.kept == st.kept && o.state.total == st.total && o.state.drawn == st.drawn && o.state.masks == st.masks
  {
    if n > 0 {
      ImageryOnlyKeepsCounters(st, p, imgs, n - 1);
    }
  }
}
