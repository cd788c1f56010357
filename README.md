# Tiling and dataset preparation of geo-deep-learning, modelled in Dafny

This project models the decision logic of the tiling pipeline of
geo-deep-learning. The pipeline cuts large georeferenced rasters and their
vector labels into fixed-size tiles. It then sorts the tiles into the
`trn`, `val` and `tst` splits and writes one manifest file per split. The
model also covers two helper files: the input checks of
`utils/verifications.py` and the integer helpers of `post_process.py`.

Disk, raster and vector I/O are replaced by what they yield:

- a raster is its metadata (width, height, band count) and its coordinate
  reference system;
- a vector file is its attribute values, its feature ids and the validity of
  its geometries;
- a tile directory is a snapshot from directory path to the names it holds;
- the annotated fraction of a tile pair is a function supplied by the caller;
- the random draws of `np.random.randint(1, 100)` are a stream `draws: nat -> int`.

Python exceptions become the `Err` case of a `Result`. Logged warnings
become values where the caller sees them.

Modules, one per concern:

- `Common`: `Option`, `Result`, and the string operations the pipeline uses
  (`str.strip`, `str.split('/')[-1]`, `str(int)`).
- `Paths`: the part of `pathlib` used to build tile paths, including
  `out_tiling_dir`.
- `Tiling`: `tiling_checker`, `get_src_tile_size`, and the per-record
  skip-or-retile decision of `main`.
- `AttributeFilter`: `filter_gdf`.
- `Verifications`: `validate_num_bands`, `validate_num_classes`,
  `assert_crs_match` and `validate_features_from_gpkg`.
- `Preparation`: the configuration checks of `main`, its validation pass over
  the input records, and its planning pass that yields the tiling jobs.
- `Assembly`: the last pass of `main`. The class `DatasetAssembler` holds the
  per-split counters and manifests and is updated in place, tile by tile.
  Each method is proved against a step function on `AssemblyState`.
- `PostProcess`: `fix_limits`, `arr_threshold` (in place on an array) and
  `to_categorical` (into a fresh two-dimensional array).

Where the code and its documentation differ, the model follows the code:

- The label-less branch of `main` logs "Skipping tiling." for an overfull
  image directory but tiles it again anyway; the labelled branch really
  skips it (`Tiling.OverfullDirectoryBranchesDisagree`).
- The paired loop accepts the split names `train` and `test`, but only
  `trn`, `val` and `tst` have a manifest and counters. A kept `train` tile
  that the draw sends to `val` is written and counted there. A dropped
  `train` tile, a kept one that stays in training, and every `test` tile
  raise a KeyError on the long name (`Assembly.LongSplitNamesRaise`).
- `filter_gdf` compares each cell with every accepted value and with its
  `str()`. A textual cell therefore matches an integer accepted value, but a
  numeric cell never matches a textual one
  (`AttributeFilter.NumericCellIgnoresTextValue`).
- The validation pass calls `assert_crs_match` only for its exception. A
  mismatch is logged inside the call and does not stop the pass.
- A non-integer target id raises the result of `logging.error(...)`, which
  is `None`, so Python raises a TypeError. It is modelled as an error.

## Model

| member | source | states |
|---|---|---|
| Common.Strip | data_to_tiles.py:83 | the result is the infix of the input left after dropping its longest leading and trailing runs of `str.isspace` characters: both dropped runs are all whitespace, and the result is empty or starts and ends with a non-whitespace character |
| Common.StripOfStripped | data_to_tiles.py:83 | stripping a text without surrounding whitespace returns it unchanged |
| Common.LastSegment | data_to_tiles.py:145 | `split('/')[-1]` is the suffix of the field name after its last slash and holds no slash |
| Common.SplitSlashPieces | data_to_tiles.py:145 | no piece of `split('/')` contains a slash |
| Common.SplitSlashLast | data_to_tiles.py:145 | the last piece of `split('/')` is the text after the last slash |
| Common.IntTextInjective | data_to_tiles.py:148 | `str()` of distinct integers gives distinct texts |
| Paths.ComponentsAreParts | data_to_tiles.py:83 | every component `pathlib` keeps from a joined text is non-empty, not `.` and free of slashes |
| Paths.JoinPart | data_to_tiles.py:83 | joining a single component appends exactly that component |
| Paths.NameOfPathText | data_to_tiles.py:298 | the `name` of `Path(s)` is the text of `s` after its last slash, when that text is a component `pathlib` keeps |
| Paths.OutTilingDir | data_to_tiles.py:81-83 | with a stripped split name, a stripped area name and a category that are single components, the directory is root, split, area, category; a blank area name adds no component |
| Paths.Stem | data_to_tiles.py:298 | the stem is a prefix of the name; when the name has a dot that is neither its first nor its last character and no dot after it, the stem is the name cut at that dot; otherwise the name is kept whole |
| Paths.SplitReadBack | data_to_tiles.py:81-83 | a tile written under `out_tiling_dir` reads back its split as `parts[-4]`, its area as `parts[-3]` and its category as `parts[-2]`, as the assembly pass assumes at lines 402 and 415 |
| Paths.BlankAreaShiftsSplit | data_to_tiles.py:81-83 | a blank area name is dropped by `pathlib`: the tile path is root, split, category, tile, so `parts[-4]` is the last root component instead of the split |
| Tiling.CeilDiv | data_to_tiles.py:66-67 | `math.ceil(a / b)` is the least multiple count of `b` that reaches `a`, for either sign of `b` |
| Tiling.ExpectedTiles | data_to_tiles.py:64-68 | the expected grid is an error exactly when the effective stride is 0 |
| Tiling.EffectiveStride | data_to_tiles.py:64 | the stride used is the tile size unless a non-zero stride is given, in which case it is that stride; it is 0 exactly when the tile size is 0 and no non-zero stride is given |
| Tiling.AxisCoverage | data_to_tiles.py:66-67 | the tile count of an axis is the least number of windows placed every `stride` pixels that reach the end of the axis |
| Tiling.SingleTileAxis | data_to_tiles.py:66-67 | an axis no longer than one tile gives exactly one tile |
| Tiling.StrideDefaultsToTile | data_to_tiles.py:64 | an absent, zero or tile-sized stride gives the same grid |
| Tiling.FourTilesFor2048 | data_to_tiles.py:64-68 | a 2048 x 2048 raster in 1024-pixel tiles expects 4 tiles |
| Tiling.CountSuffixIsMatchCount | data_to_tiles.py:69 | the glob count equals the number of listed names that end with the suffix |
| Tiling.CountSuffix | data_to_tiles.py:69 | the glob count never exceeds the number of listed names (its exact meaning is `Tiling.CountSuffixIsMatchCount`) |
| Tiling.TilingChecker | data_to_tiles.py:49-73 | fails exactly when the grid formula divides by zero; otherwise returns the expected grid and, as the actual count, the number of listed names ending with the suffix |
| Tiling.GetSrcTileSize | data_to_tiles.py:86-99 | no factor keeps the size; a zero factor divides by zero; otherwise fails exactly when the factor does not divide the size, and the result times the factor is the destination size |
| Tiling.Decide | data_to_tiles.py:303-347 | with labels a record is skipped exactly when image, label and expected counts agree or both counts exceed the expectation; without labels, exactly when the image count equals the expectation; a fresh start is reported exactly when the record is neither complete nor overfull and no tile is on disk, and it always retiles |
| Tiling.OverfullDirectoryBranchesDisagree | data_to_tiles.py:306-336 | an overfull image directory is tiled again without labels but skipped with labels |
| AttributeFilter.ResolveField | data_to_tiles.py:144-145 | the field read is the name itself when it is a column, else the text after its last slash when that is a column, else none |
| AttributeFilter.FilterRows | data_to_tiles.py:147-150 | every kept row matches an accepted value natively or through `str` |
| AttributeFilter.FilterGdf | data_to_tiles.py:133-154 | no field or no values, or an unresolvable field, returns the input; otherwise the columns are kept and the rows are those that match |
| AttributeFilter.FilterRowsIsSubsequence | data_to_tiles.py:149-150 | the kept rows keep their input order |
| AttributeFilter.FilterRowsMembership | data_to_tiles.py:147-150 | a row is kept exactly when it is an input row matching an accepted value natively or through `str` |
| AttributeFilter.FilterGdfSelects | data_to_tiles.py:142-151 | with a field and values given, the result is exactly the matching features in input order |
| AttributeFilter.TextEncodedIntegerMatchesAlike | data_to_tiles.py:147-148 | with integer values, a cell holding the decimal text of an integer is kept exactly when a cell holding that integer is |
| AttributeFilter.NumericCellIgnoresTextValue | data_to_tiles.py:148 | a numeric cell never matches a value given as text |
| Verifications.ValidateNumBands | utils/verifications.py:19-31 | passes exactly when the band count equals the wanted count, or exceeds it with band indexes given; each failure names its case |
| Verifications.UniqueValues | utils/verifications.py:55-63 | the scanned classes are the distinct attribute values other than the ignored index |
| Verifications.ClassRangeMembers | utils/verifications.py:84 | the returned class set holds exactly the integers 0 to `num_classes` |
| Verifications.ClassRangeSize | utils/verifications.py:84 | the returned class set has `num_classes + 1` members |
| Verifications.ValidateNumClasses | utils/verifications.py:34-85 | a missing file fails; otherwise it fails exactly when the target list has the wrong length (a target count mismatch), or, without targets, when more classes are found than configured (a too-many-classes error); each warning is logged exactly in its case; success returns `{0..num_classes}` |
| Verifications.AssertCrsMatch | utils/verifications.py:142-171 | raises exactly when the vector has no CRS; otherwise reports a match exactly when both systems carry the same EPSG code, and returns both systems |
| Verifications.CrsMatchSymmetric | utils/verifications.py:161 | the match does not depend on which side is the raster |
| Verifications.DedupElements | utils/verifications.py:191-192 | de-duplication keeps exactly the elements of its input |
| Verifications.DedupNoDuplicates | utils/verifications.py:191-192 | the de-duplicated list holds each element once |
| Verifications.DedupFirstOccurrenceOrder | utils/verifications.py:191-192 | the de-duplicated list is ordered by first occurrence |
| Verifications.ValidateFeaturesFromGpkg | utils/verifications.py:174-193 | fails exactly when an invalid shape's position has no feature, and then reports the first such position, every earlier invalid position having a feature; otherwise returns the ids of the invalid positions, each once |
| Verifications.InvalidListProperties | utils/verifications.py:186-193 | for any validity list and id list, the returned ids have no duplicates, are exactly the reported ids, and follow the order of first report |
| Preparation.FirstNonInteger | data_to_tiles.py:253-255 | none exactly when every target id is an integer; otherwise the position of the first one that is not |
| Preparation.CheckConfig | data_to_tiles.py:205-209 | passes exactly when the band index list, if any, has `num_bands` entries and every target id is an integer; the band check comes first, so with a correct band list the only error is a non-integer target id, and the reported id is the first offender |
| Preparation.RecordError | data_to_tiles.py:257-280 | a record passes exactly when its raster is readable, its band count is accepted, its CRS matches on the first use of its vector file, and its split is `trn` or `tst`; an unreadable raster and a band error are reported as such |
| Preparation.ValidateRecords | data_to_tiles.py:257-280 | fails exactly when some record fails, with the error of the first failing record; otherwise `no_gt` is set exactly when some record has no vector file |
| Preparation.AoiName | data_to_tiles.py:298 | the area name is the record's own when given; otherwise, when the raster path text ends in a file name (the text after its last slash is a component `pathlib` keeps), it is the stem of that file name |
| Preparation.PlanRecord | data_to_tiles.py:296-360 | an unreadable raster is skipped; a readable one fails exactly for a zero tile size; otherwise the record's own job is planned exactly when the skip-or-retile decision on its image and label tile counts says to retile |
| Preparation.PlanOne | data_to_tiles.py:297-355 | the loop body, as a statement sequence, yields `PlanRecord`'s outcome for its record |
| Preparation.PlanNext | data_to_tiles.py:296-360 | one more record extends the fold of the outcomes so far |
| Preparation.PlanTiling | data_to_tiles.py:294-360 | the loop yields the jobs of every record in order, or the first uncaught error |
| Preparation.PlanSelectsRetiled | data_to_tiles.py:296-360 | with a non-zero tile size the planned jobs are, in record order, the jobs of the readable records whose decision is to retile, and a job is planned exactly when such a record yields it |
| Preparation.PlanZeroTileSize | data_to_tiles.py:296-360 | with a zero tile size the pass fails exactly when some raster is readable |
| Preparation.CollectErrorPersists | data_to_tiles.py:296-360 | an uncaught error ends the pass: later records change nothing |
| Preparation.PlanIsSubsequenceOfRecords | data_to_tiles.py:296-355 | the planned jobs are, in order, a selection of the readable records' jobs |
| Preparation.PlanLabelDirsFollowNoGt | data_to_tiles.py:301 | every planned job has a label directory exactly when `no_gt` is unset for the run |
| Preparation.EmptyDirectoryTiles | data_to_tiles.py:303-355 | with nothing on disk and a positive tile size, a readable non-empty raster is tiled |
| Preparation.EmptySnapshotTilesEveryRecord | data_to_tiles.py:296-360 | with nothing on disk, a positive tile size and positive width and height for every readable raster, every readable record is tiled, in order |
| Preparation.CompleteSnapshotPlansNothing | data_to_tiles.py:307-309 | when every readable record's directories are complete, nothing is tiled |
| Assembly.Trunc | data_to_tiles.py:437 | `int()` truncates toward zero |
| Assembly.MaskBesideLabel | data_to_tiles.py:417 | for a relative label tile path, the mask path is in the same directory, named by the label tile's stem with `.tif` |
| Assembly.PairStepOutcomes | data_to_tiles.py:410-450 | a small tile changes nothing; a path too short for `parts[-4]` raises; only a short path or a missing split raise; a pair that goes through keeps the set of splits, adds at most its own mask and consumes at most one draw; a tile under any split name other than `trn`, `train`, `tst` and `test` is skipped with the state unchanged |
| Assembly.ImageStepOutcomes | data_to_tiles.py:395-404 | a small tile changes nothing; otherwise it raises exactly when its path is too short or names a split without a manifest, and a tile that goes through appends its image-only line to the manifest of the split `parts[-4]` names, touching nothing else |
| Assembly.RecordStepOutcomes | data_to_tiles.py:378-450 | an empty record changes nothing; unequal non-zero tile counts raise before anything is written; an imagery-only record leaves counters, masks and draws untouched |
| Assembly.DatasetAssembler.constructor | data_to_tiles.py:369-376 | starts from empty manifests and zero counters for `trn`, `val` and `tst` |
| Assembly.DatasetAssembler.Keep | data_to_tiles.py:435-439 | one line is added to the split's manifest and both its counters go up by one |
| Assembly.DatasetAssembler.AddPair | data_to_tiles.py:410-450 | the new state is the pair step of the old one, or the old state with the step's error |
| Assembly.DatasetAssembler.AddImage | data_to_tiles.py:397-404 | the new state is the image step of the old one, or the old state with the step's error |
| Assembly.DatasetAssembler.AddRecord | data_to_tiles.py:378-450 | the new state is the record step of the old one and the counter invariant is kept |
| Assembly.DatasetAssembler.AddImages | data_to_tiles.py:397-404 | the new state and error are those of the imagery-only loop over the record's tiles |
| Assembly.DatasetAssembler.AddPairs | data_to_tiles.py:410-450 | the new state and error are those of the paired loop over the record's tiles |
| Assembly.DatasetAssembler.AddRecords | data_to_tiles.py:378-450 | the new state is the whole pass over the records, stopping at the first error, and the counter invariant is kept |
| Assembly.PassStops | data_to_tiles.py:378-450 | once a record raises, the remaining records are not processed |
| Assembly.ImagesOnlyStops | data_to_tiles.py:397-404 | once an image tile raises, the rest of the record is not processed |
| Assembly.PairsStop | data_to_tiles.py:410-450 | once a pair raises, the rest of the record is not processed |
| Assembly.InitialInv | data_to_tiles.py:375-376 | the fresh counters satisfy the invariant |
| Assembly.RecordAgrees | data_to_tiles.py:435-439 | recording a labelled line keeps kept counts equal to labelled manifest lines and adds one to the training kept total unless the split is `tst` |
| Assembly.PairStepPreservesInv | data_to_tiles.py:428-448 | a pair keeps the counters consistent: kept never exceeds total, kept equals the labelled lines, and the draws equal the kept training tiles |
| Assembly.ImageStepPreservesInv | data_to_tiles.py:397-404 | an image-only line keeps the counters consistent |
| Assembly.RecordStepPreservesInv | data_to_tiles.py:395-450 | a record, completed or stopped, keeps the counters consistent |
| Assembly.PassKeepsInv | data_to_tiles.py:375-450 | from the fresh counters, the invariant holds after any number of records |
| Assembly.ImagesOnlyPreservesInv | data_to_tiles.py:397-404 | any prefix of an imagery-only record keeps the invariant |
| Assembly.PairsPreservesInv | data_to_tiles.py:410-450 | any prefix of a paired record keeps the invariant |
| Assembly.SmallTileSkipped | data_to_tiles.py:399-401 | a tile below the minimum file size changes nothing |
| Assembly.TrainTileStep | data_to_tiles.py:428-439 | a training tile is kept exactly when its annotated percentage reaches the minimum; a kept tile consumes one draw, goes to `val` exactly when the draw is below `val_percent`, adds its line and mask there and leaves the other splits as they were; a dropped tile only counts in the `trn` total |
| Assembly.TestTileStep | data_to_tiles.py:440-448 | a test tile is always kept with its mask, consumes no draw, and leaves the `trn` and `val` manifests and counters as they were |
| Assembly.LongSplitNamesRaise | data_to_tiles.py:428-448 | a `train` or `test` tile raises a KeyError on its own name unless it is a kept `train` tile whose draw sends it to `val`, where it is written and counted |
| Assembly.ImageryOnlyKeepsCounters | data_to_tiles.py:395-404 | an imagery-only record leaves counters, masks and draws untouched |
| PostProcess.ClosestDivisible | post_process.py:178-181 | the result is the least multiple of 4 at or above the size |
| PostProcess.ClosestDivisibleSize | post_process.py:178-181 | the incrementing loop stops at that least multiple |
| PostProcess.PadAxis | post_process.py:183-202 | the padded axis contains the original one, with the odd pixel of padding above; a short axis grows to the minimum, a long one to 16 more than its next multiple of 4 |
| PostProcess.FixLimits | post_process.py:177-204 | rows and columns are padded independently by the same rule |
| PostProcess.LargeAxisExtent | post_process.py:189-193 | a long axis ends with an extent divisible by 4, between 16 and 19 pixels longer than before |
| PostProcess.FixLimitsExtentsDivisible | post_process.py:177-204 | with a minimum divisible by 4, both padded extents are multiples of 4, at least the minimum, and contain the box |
| PostProcess.ArrThreshold | post_process.py:296-301 | the same array is returned, each element rewritten to 255 when it reached the threshold and 0 otherwise |
| PostProcess.Thresholded | post_process.py:296-301 | every output element is 0 or 255, and 255 exactly where the input reached the threshold |
| PostProcess.ThresholdIdempotent | post_process.py:296-301 | with a threshold in (0, 255], thresholding twice equals thresholding once |
| PostProcess.KeptShape | post_process.py:133-134 | dropping a trailing unit dimension keeps the cell count |
| PostProcess.Max | post_process.py:137 | `np.max` returns an element that bounds all others |
| PostProcess.ClassCount | post_process.py:136-137 | a given non-zero class count is used; otherwise one more than the largest label, and an empty input fails |
| PostProcess.ToCategorical | post_process.py:132-145 | fails exactly when the class count fails or is negative, or a label is out of numpy's index range; otherwise one one-hot row per label at the label's column, with output shape kept shape plus `k` |
| PostProcess.OneHotHasSingleOne | post_process.py:140 | every output row holds a single 1 and sums to 1 |

## Left out

- The CSV is assumed to hold at least one row: the log message at data_to_tiles.py:247 reads `list_data_prep[0]` and raises an IndexError on an empty CSV, which the model does not reproduce.
- Reading the configuration (`get_key_def`, YAML), the CSV reading, mlflow, logging output, timing and directory creation are not modelled. The configuration values are parameters.
- The `task` check of `main` (data_to_tiles.py:198-203) is not modelled: it only rejects any task other than `segmentation`.
- `validate_raster` is not modelled as a function. Its outcome is an input: a record's raster metadata, or none when the raster cannot be read. As written, the call at data_to_tiles.py:262 passes one argument to a two-parameter function, and the body uses the undefined names `extended` and `verbose`, so every call raises. The model gives the intended result instead.
- `tiling` (the solaris tilers) and `map_wrapper` are not modelled. The planning pass yields the list of jobs, and the tiles the jobs write are not modelled.
- The multiprocessing pool and the parallel-or-sequential switch are not modelled. Both modes yield the same jobs in record order.
- Preparation.PlanTiling: the directories are a snapshot taken before the loop. In sequential mode each job runs inline, so a later record sharing an earlier record's directories would see tiles the model does not.
- The debug-only checks (data_to_tiles.py:282-289 and 385-394) are not modelled as passes of `main`. `Verifications.ValidateFeaturesFromGpkg` models the function they call.
- `validate_num_classes` is commented out in `main`. It is modelled on its own; the attribute lookup `get_key_recursive` and the `int()` conversion are an input list of integers.
- The summary at data_to_tiles.py:452-461 is not modelled: it tests for the split names `train` and `test`, which are never in the split list, so it logs nothing.
- Geometry is not modelled. The annotated percentage of a tile pair (areas in floating point) is an input, and so is the rasterised mask content of `footprint_mask`; only the mask paths are recorded.
- File sizes are inputs, and the random draws are a stream given to the assembler.
- Assembly.DatasetAssembler.AddPair: an error leaves the state as it was before the tile. In the source, the mask file is written and the draw consumed just before the failing manifest lookup. Since the error ends `main`, no later step reads them.
- Preparation.AoiName: a raster path whose text ends in a slash or in `.` gets its stem from an earlier component in `pathlib`; the contract states the stem only for a path text that ends in a file name.
- Tiling.GetSrcTileSize: the resize factor is an integer. A fractional factor is not modelled.
- PostProcess.ClosestDivisibleSize: the factor is fixed at its default of 4, the only value `fix_limits` uses.
- Verifications.AssertCrsMatch: `_check_crs`, `_check_rasterio_im_load` and `_check_gdf_load` are not part of this model. A CRS is an EPSG code, a CRS without one, or none.
- PostProcess.ToCategorical: values are integers, not `float32`. The output is a two-dimensional array plus the shape it is reshaped to; `np.reshape` is not carried out.
- `predict_building`, `regularization`, `regularize_buildings`, `main` of `post_process.py` and the neural network classes there are not modelled: they run a model or read files.
