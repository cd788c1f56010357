/**
 * The pure helpers of data_to_tiles.py: the expected tile grid of
 * `tiling_checker`, the source tile size of `get_src_tile_size`, and the
 * per-record skip-or-retile decision taken in `main` before dispatching
 * tiling jobs.
 */
module Tiling {
  import opened Common

  datatype TilingError =
    | ZeroStride                                  // ZeroDivisionError in the grid formula
    | ZeroResize                                  // ZeroDivisionError in `dest % resize`
    | ResizeNotDivisor(size: int, factor: int)    // ValueError of get_src_tile_size

  // ---------------------------------------------------------------------
  // Expected tile count
  // ---------------------------------------------------------------------

  /** `math.ceil(a / b)` for the exact quotient of two integers. */
  function CeilDiv(a: int, b: int): (q: int)
    requires b != 0
    ensures b > 0 ==> (q - 1) * b < a <= q * b
    ensures b < 0 ==> q * b <= a < (q - 1) * b
  {
    if b > 0 then -((-a) / b) else -(a / (-b))
  }

  /** Tiles along one axis: `1 + ceil((dim - tile) / stride)`. */
  function TilesPerAxis(dim: int, tile: int, stride: int): int
    requires stride != 0
  {
    1 + CeilDiv(dim - tile, stride)
  }

  /** The stride `tiling_checker` uses: the tile size when none (or 0) is given. */
  function EffectiveStride(tile: int, stride: Option<int>): (s: int)
    ensures s == tile || (stride.Some? && s == stride.value)
    ensures s == 0 <==> tile == 0 && (stride.None? || stride.value == 0)
  {
    if stride.None? || stride.value == 0 then tile else stride.value
  }

  /** `nb_exp_tiles` of `tiling_checker` for a raster of the given size. */
  function ExpectedTiles(width: int, height: int, tile: int, stride: Option<int>): (r: Result<int, TilingError>)
    ensures r.Err? <==> EffectiveStride(tile, stride) == 0
  {
    var s := EffectiveStride(tile, stride);
    if s == 0 then Err(ZeroStride)
    else Ok(TilesPerAxis(width, tile, s) * TilesPerAxis(height, tile, s))
  }

  /** With a positive stride and an axis longer than `tile - stride`, the
      tile count along the axis is the least number of windows of length
      `tile`, placed every `stride` pixels from 0, that reach the end of the
      axis: n windows reach it and n - 1 do not. */
  lemma AxisCoverage(dim: int, tile: int, stride: int)
    requires stride > 0 && dim > tile - stride
    ensures var n := TilesPerAxis(dim, tile, stride);
      n >= 1 && (n - 1) * stride + tile >= dim && (n - 2) * stride + tile < dim
  {
    var q := CeilDiv(dim - tile, stride);
    assert (q - 1) * stride < dim - tile <= q * stride;
  }

  /** An axis no longer than one tile, and longer than `tile - stride`,
      yields exactly one tile along it (a factor of 1). */
  lemma SingleTileAxis(dim: int, tile: int, stride: int)
    requires stride > 0 && tile - stride < dim <= tile
    ensures TilesPerAxis(dim, tile, stride) == 1
  {
    var q := CeilDiv(dim - tile, stride);
    assert (q - 1) * stride < dim - tile <= q * stride;
  }

  /** A stride that is absent, 0 or equal to the tile size gives the same grid. */
  lemma StrideDefaultsToTile(width: int, height: int, tile: int)
    ensures ExpectedTiles(width, height, tile, None) == ExpectedTiles(width, height, tile, Some(0))
    ensures ExpectedTiles(width, height, tile, None) == ExpectedTiles(width, height, tile, Some(tile))
  {
  }

  /** A 2048 x 2048 raster cut in 1024-pixel tiles gives a grid of 4. */
  lemma FourTilesFor2048(stride: Option<int>)
    requires stride == None || stride == Some(0) || stride == Some(1024)
    ensures ExpectedTiles(2048, 2048, 1024, stride) == Ok(4)
  {
    assert CeilDiv(1024, 1024) == 1;
  }

  // ---------------------------------------------------------------------
  // tiling_checker
  // ---------------------------------------------------------------------

  predicate EndsWith(name: string, suffix: string) {
    |suffix| <= |name| && name[|name| - |suffix|..] == suffix
  }

  /** Number of names matched by the glob `*<suffix>`. */
  function CountSuffix(names: seq<string>, suffix: string): (n: nat)
    ensures n <= |names|
  {
    if names == [] then 0
    else CountSuffix(names[..|names| - 1], suffix) + (if EndsWith(names[|names| - 1], suffix) then 1 else 0)
  }

  /** The glob count is the number of positions whose name has the suffix. */
  lemma {:induction false} CountSuffixIsMatchCount(names: seq<string>, suffix: string)
    ensures CountSuffix(names, suffix) == |set k | 0 <= k < |names| && EndsWith(names[k], suffix)|
  {
    var matches := set k | 0 <= k < |names| && EndsWith(names[k], suffix);
    if names != [] {
      var n := |names| - 1;
      var init := names[..n];
      CountSuffixIsMatchCount(init, suffix);
      var prev := set k | 0 <= k < n && EndsWith(init[k], suffix);
      if EndsWith(names[n], suffix) {
        assert matches == prev + {n};
      } else {
        assert matches == prev;
      }
    }
  }

  datatype TileCounts = TileCounts(actual: nat, expected: int)

  /** `tiling_checker`: the tiles already in the output directory (its listing
      is `names`; a missing directory lists nothing) and the tiles the grid
      expects for a `width` x `height` raster. */
  function TilingChecker(names: seq<string>, suffix: string, width: int, height: int,
                         tile: int, stride: Option<int>): (r: Result<TileCounts, TilingError>)
    ensures r.Err? <==> ExpectedTiles(width, height, tile, stride).Err?
    ensures r.Ok? ==> r.value.expected == ExpectedTiles(width, height, tile, stride).value
    ensures r.Ok? ==> r.value.actual == CountSuffix(names, suffix) && r.value.actual <= |names|
    ensures r.Ok? && names == [] ==> r.value.actual == 0
  {
    match ExpectedTiles(width, height, tile, stride)
    case Err(e) => Err(e)
    case Ok(expected) => Ok(TileCounts(CountSuffix(names, suffix), expected))
  }

  // ---------------------------------------------------------------------
  // get_src_tile_size
  // ---------------------------------------------------------------------

  /** `get_src_tile_size`: the source tile edge that the resize factor scales
      to `dest`; the factor must divide `dest` exactly. */
  function GetSrcTileSize(dest: int, resize: Option<int>): (r: Result<int, TilingError>)
    ensures resize.None? ==> r == Ok(dest)
    ensures resize == Some(0) ==> r == Err(ZeroResize)
    ensures resize.Some? && resize.value != 0 ==>
      (r.Err? <==> dest % resize.value != 0) && (r.Err? ==> r.error == ResizeNotDivisor(dest, resize.value))
    ensures r.Ok? && resize.Some? ==> r.value * resize.value == dest
  {
    match resize
    case None => Ok(dest)
    case Some(f) =>
      if f == 0 then Err(ZeroResize)
      else if dest % f != 0 then Err(ResizeNotDivisor(dest, f))
      else Ok(dest / f)
  }

  // ---------------------------------------------------------------------
  // Skip-or-retile decision
  // ---------------------------------------------------------------------

  /** What `main` logs about the tiles already on disk. */
  datatype Report =
    | Complete   // every expected tile is there: skip
    | TooMany    // more tiles than expected: reported as skipped
    | Missing    // some tiles, not all: tile again from scratch
    | Fresh      // nothing on disk: tile from scratch

  datatype Decision = Decision(doTile: bool, report: Report)

  /** The decision of data_to_tiles.py `main` for one record: `labelled` is
      false once any record of the run lacked labels (`no_gt`); `actGt` is
      then not consulted. */
  function Decide(labelled: bool, actImg: int, actGt: int, expected: int): (d: Decision)
    ensures labelled ==>
      (!d.doTile <==> (actImg == actGt == expected || (actImg > expected && actGt > expected)))
    ensures !labelled ==> (!d.doTile <==> actImg == expected)
    ensures d.report == Complete <==> (actImg == expected && (labelled ==> actGt == expected))
    ensures d.report == TooMany <==>
      (!(actImg == expected && (labelled ==> actGt == expected))
       && actImg > expected && (labelled ==> actGt > expected))
    ensures d.report == Fresh <==>
      (!(actImg == expected && (labelled ==> actGt == expected))
       && !(actImg > expected && (labelled ==> actGt > expected))
       && actImg <= 0 && (labelled ==> actGt <= 0))
    ensures d.report == Fresh ==> d.doTile
  {
    if !labelled then
      if actImg == expected then Decision(false, Complete)
      else if actImg > expected then Decision(true, TooMany)
      else if actImg > 0 then Decision(true, Missing)
      else Decision(true, Fresh)
    else
      if actImg == actGt == expected then Decision(false, Complete)
      else if actImg > expected && actGt > expected then Decision(false, TooMany)
      else if actImg > 0 || actGt > 0 then Decision(true, Missing)
      else Decision(true, Fresh)
  }

  /** The two branches disagree on an overfull directory: without labels the
      log announces a skip but the raster is tiled again; with labels it is
      skipped. */
  lemma OverfullDirectoryBranchesDisagree(actImg: int, expected: int)
    requires actImg > expected
    ensures Decide(false, actImg, 0, expected) == Decision(true, TooMany)
    ensures Decide(true, actImg, actImg, expected) == Decision(false, TooMany)
  {
  }
}
