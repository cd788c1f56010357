/**
 * The slice of `pathlib.Path` the tiling pipeline uses: a path is the
 * sequence of its `parts`; joining with `/` splits the added text on
 * slashes and drops empty and `.` pieces, and a piece starting with a slash
 * restarts the path at the root `/`.
 */
module Paths {
  import opened Common

  type Path = seq<string>

  /** A part that `pathlib` keeps as one component, as written. */
  predicate IsPart(x: string) {
    x != "" && x != "." && '/' !in x
  }

  function KeepParts(pieces: seq<string>): (r: Path)
    ensures |r| <= |pieces|
  {
    if pieces == [] then []
    else
      var init := KeepParts(pieces[..|pieces| - 1]);
      var last := pieces[|pieces| - 1];
      if last == "" || last == "." then init else init + [last]
  }

  /** The components `pathlib` makes of a relative path text. */
  function Components(s: string): (r: Path)
  {
    KeepParts(SplitSlash(s))
  }

  lemma {:induction false} KeepPartsAreParts(pieces: seq<string>)
    requires forall k :: 0 <= k < |pieces| ==> '/' !in pieces[k]
    ensures forall k :: 0 <= k < |KeepParts(pieces)| ==> IsPart(KeepParts(pieces)[k])
  {
    if pieces != [] {
      KeepPartsAreParts(pieces[..|pieces| - 1]);
    }
  }

  /** Every component `pathlib` keeps is non-empty, not `.`, and free of slashes. */
  lemma ComponentsAreParts(s: string)
    ensures forall k :: 0 <= k < |Components(s)| ==> IsPart(Components(s)[k])
  {
    SplitSlashPieces(s);
    KeepPartsAreParts(SplitSlash(s));
  }

  /** A single component joins as itself. */
  lemma ComponentsOfPart(s: string)
    requires IsPart(s)
    ensures Components(s) == [s]
  {
    SplitSlashWhole(s);
    assert KeepParts([s]) == KeepParts([]) + [s];
  }

  /** `p / s` */
  function Join(p: Path, s: string): (r: Path)
  {
    if s != [] && s[0] == '/' then ["/"] + Components(s) else p + Components(s)
  }

  lemma {:induction false} JoinPart(p: Path, s: string)
    requires IsPart(s)
    ensures Join(p, s) == p + [s]
  {
    ComponentsOfPart(s);
  }

  /** Joining the empty text adds nothing. */
  lemma JoinEmpty(p: Path)
    ensures Join(p, "") == p
  {
    assert KeepParts(SplitSlash("")) == [];
  }

  /** `Path(s)` for a path text. */
  function PathOf(s: string): Path {
    Join([], s)
  }

  /** `p.name`: the last component, or "" for an empty path or the root. */
  function Name(p: Path): string {
    if p == [] || p[|p| - 1] == "/" then "" else p[|p| - 1]
  }

  /** The name of a path text is the text after its last slash, when that
      is a component `pathlib` keeps. */
  lemma NameOfPathText(s: string)
    requires IsPart(LastSegment(s))
    ensures Name(PathOf(s)) == LastSegment(s)
  {
    var pieces := SplitSlash(s);
    SplitSlashLast(s);
    assert KeepParts(pieces) == KeepParts(pieces[..|pieces| - 1]) + [LastSegment(s)];
    assert LastSegment(s) != "/" by { assert '/' in "/"; }
  }

  /** `p.parent` */
  function Parent(p: Path): (r: Path)
    ensures |r| <= |p|
  {
    if p == [] || p == ["/"] then p else p[..|p| - 1]
  }

  /** `PurePath.stem` of a name: the name without its final suffix; a leading
      dot or a trailing dot does not start a suffix. */
  function Stem(name: string): (r: string)
    ensures |r| <= |name| && r == name[..|r|]
    ensures |r| < |name| ==> 0 < |r| < |name| - 1 && name[|r|] == '.' && '.' !in name[|r| + 1..]
    ensures forall k :: 0 < k < |name| - 1 && name[k] == '.' && '.' !in name[k + 1..] ==> r == name[..k]
  {
    var i := LastIndexOf(name, '.');
    if 0 < i < |name| - 1 then name[..i] else name
  }

  /** `root / dataset.strip() / aoi_name.strip() / category`
      (data_to_tiles.py `out_tiling_dir`): three components under `root`
      when each is a single path component; a blank area name adds none. */
  function OutTilingDir(root: Path, dataset: string, aoiName: string, category: string): (r: Path)
    ensures IsPart(Strip(dataset)) && IsPart(Strip(aoiName)) && IsPart(category) ==>
      r == root + [Strip(dataset), Strip(aoiName), category]
    ensures IsPart(Strip(dataset)) && Strip(aoiName) == "" && IsPart(category) ==>
      r == root + [Strip(dataset), category]
  {
    var d, a := Strip(dataset), Strip(aoiName);
    JoinThree(root, d, a, category);
    Join(Join(Join(root, d), a), category)
  }

  lemma JoinThree(root: Path, d: string, a: string, category: string)
    ensures IsPart(d) && IsPart(a) && IsPart(category) ==> Join(Join(Join(root, d), a), category) == root + [d, a, category]
    ensures IsPart(d) && a == "" && IsPart(category) ==> Join(Join(Join(root, d), a), category) == root + [d, category]
  {
    if IsPart(d) && IsPart(category) {
      var p1 := Join(root, d);
      JoinPart(root, d);
      if IsPart(a) {
        var p2 := Join(p1, a);
        JoinPart(p1, a);
        JoinPart(p2, category);
      } else if a == "" {
        JoinEmpty(p1);
        JoinPart(p1, category);
      }
    }
  }

  /** A tile file written in an `out_tiling_dir` directory has its split name
      as `parts[-4]`, its area as `parts[-3]` and its category as
      `parts[-2]`, provided each of them is a single path component. */
  lemma {:induction false} SplitReadBack(root: Path, dataset: string, aoiName: string, category: string, tile: string)
    requires IsPart(Strip(dataset)) && IsPart(Strip(aoiName)) && IsPart(category) && IsPart(tile)
    ensures var p := Join(OutTilingDir(root, dataset, aoiName, category), tile);
      |p| >= 4 && p[|p| - 4] == Strip(dataset) && p[|p| - 3] == Strip(aoiName)
      && p[|p| - 2] == category && p[|p| - 1] == tile
  {
    var dir := OutTilingDir(root, dataset, aoiName, category);
    JoinPart(dir, tile);
    assert Join(dir, tile) == root + [Strip(dataset), Strip(aoiName), category, tile];
  }

  /** When the area name is blank, `pathlib` drops it: the tile path is
      `root / dataset / category / tile`, so `parts[-4]` is no longer the
      split but the last component of the root. */
  lemma {:induction false} BlankAreaShiftsSplit(root: Path, dataset: string, aoiName: string, category: string, tile: string)
    requires IsPart(Strip(dataset)) && Strip(aoiName) == "" && IsPart(category) && IsPart(tile)
    ensures Join(OutTilingDir(root, dataset, aoiName, category), tile) == root + [Strip(dataset), category, tile]
  {
    JoinPart(OutTilingDir(root, dataset, aoiName, category), tile);
  }
}
