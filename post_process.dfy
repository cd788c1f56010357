/**
 * The integer helpers of post_process.py: the bounding-box padding of
 * `fix_limits`, the in-place binarisation `arr_threshold`, and the one-hot
 * encoding `to_categorical`.
 *
 * A numpy array of any shape is modelled by its elements in row-major
 * order (`ravel`) together with its shape where the shape matters.
 */
module PostProcess {
  import opened Common

  // ---------------------------------------------------------------------
  // fix_limits
  // ---------------------------------------------------------------------

  /** The divisor of `closest_divisible_size`, at its default value. */
  const Factor := 4

  /** The smallest multiple of `Factor` that is at least `size`. */
  function ClosestDivisible(size: int): (r: int)
    ensures r % Factor == 0
    ensures size <= r < size + Factor
    ensures forall s :: size <= s < r ==> s % Factor != 0
  {
    size + (Factor - size % Factor) % Factor
  }

  /** `closest_divisible_size`: increments `size` until `Factor` divides it. */
  method ClosestDivisibleSize(size: int) returns (r: int)
    ensures r == ClosestDivisible(size)
    ensures r - size < Factor
  {
    ghost var target := ClosestDivisible(size);
    r := size;
    while r % Factor != 0
      invariant size <= r <= target
      decreases target - r
    {
      r := r + 1;
    }
  }

  /** The padding of one axis `[lo, hi)`: up to `minSize` when shorter than
      it, otherwise by 16 pixels more than the step to the next multiple of 4;
      the padding is split with its odd pixel added above. */
  function PadAxis(lo: int, hi: int, minSize: int): (r: (int, int))
    ensures var diff := (lo - r.0) + (r.1 - hi);
      lo - r.0 <= r.1 - hi <= lo - r.0 + 1 && diff >= 0
    ensures r.0 <= lo && hi <= r.1
    ensures hi - lo < minSize ==> r.1 - r.0 == minSize
    ensures hi - lo >= minSize ==>
      r.1 - r.0 == ClosestDivisible(hi - lo) + 16
  {
    var size := hi - lo;
    var diff := if size < minSize then minSize - size else ClosestDivisible(size) - size + 16;
    (lo - diff / 2, hi + (diff / 2 + diff % 2))
  }

  /** `fix_limits`: pads the rows `[iMin, iMax)` and the columns `[jMin, jMax)`
      of a bounding box. */
  function FixLimits(iMin: int, iMax: int, jMin: int, jMax: int, minImageSize: int): (r: (int, int, int, int))
    ensures (r.0, r.1) == PadAxis(iMin, iMax, minImageSize)
    ensures (r.2, r.3) == PadAxis(jMin, jMax, minImageSize)
  {
    var (i0, i1) := PadAxis(iMin, iMax, minImageSize);
    var (j0, j1) := PadAxis(jMin, jMax, minImageSize);
    (i0, i1, j0, j1)
  }

  /** A padded extent at or above the minimum is 16 more than a multiple of
      4, in `[size + 16, size + 20)`. */
  lemma {:induction false} LargeAxisExtent(lo: int, hi: int, minSize: int)
    requires hi - lo >= minSize
    ensures var r := PadAxis(lo, hi, minSize);
      (r.1 - r.0) % 4 == 0 && hi - lo + 16 <= r.1 - r.0 < hi - lo + 20
  {
    var c := ClosestDivisible(hi - lo);
    assert (c + 16) % 4 == 0;
  }

  /** With a minimum size divisible by 4 (256 by default) both extents of
      the padded box are multiples of 4 and at least the minimum. */
  lemma FixLimitsExtentsDivisible(iMin: int, iMax: int, jMin: int, jMax: int, minImageSize: int)
    requires minImageSize % 4 == 0
    ensures var r := FixLimits(iMin, iMax, jMin, jMax, minImageSize);
      (r.1 - r.0) % 4 == 0 && (r.3 - r.2) % 4 == 0
      && r.1 - r.0 >= minImageSize && r.3 - r.2 >= minImageSize
      && r.0 <= iMin && iMax <= r.1 && r.2 <= jMin && jMax <= r.3
  {
    if iMax - iMin >= minImageSize {
      LargeAxisExtent(iMin, iMax, minImageSize);
    }
    if jMax - jMin >= minImageSize {
      LargeAxisExtent(jMin, jMax, minImageSize);
    }
  }

  // ---------------------------------------------------------------------
  // arr_threshold
  // ---------------------------------------------------------------------

  /** Every element at or above `value` becomes 255, every other one 0. */
  function Thresholded(s: seq<int>, value: int): (t: seq<int>)
    ensures |t| == |s|
    ensures forall k :: 0 <= k < |s| ==> t[k] in {0, 255} && (t[k] == 255 <==> s[k] >= value)
  {
    seq(|s|, i requires 0 <= i < |s| => if s[i] >= value then 255 else 0)
  }

  /** `arr_threshold`: computes the mask `arr >= value` first, then writes 255
      under the mask and 0 elsewhere, in place, and returns the same array. */
  method ArrThreshold(arr: array<int>, value: int) returns (r: array<int>)
    modifies arr
    ensures r == arr
    ensures arr[..] == Thresholded(old(arr[..]), value)
  {
    var mask := new bool[arr.Length];
    var i := 0;
    while i < arr.Length
      invariant 0 <= i <= arr.Length
      invariant arr[..] == old(arr[..])
      invariant forall k :: 0 <= k < i ==> mask[k] == (arr[k] >= value)
    {
      mask[i] := arr[i] >= value;
      i := i + 1;
    }
    ghost var before := arr[..];
    i := 0;
    while i < arr.Length
      invariant 0 <= i <= arr.Length
      invariant forall k :: 0 <= k < arr.Length ==> mask[k] == (before[k] >= value)
      invariant forall k :: 0 <= k < arr.Length ==> arr[k] == (if k < i && mask[k] then 255 else before[k])
    {
      if mask[i] {
        arr[i] := 255;
      }
      i := i + 1;
    }
    i := 0;
    while i < arr.Length
      invariant 0 <= i <= arr.Length
      invariant forall k :: 0 <= k < arr.Length ==> mask[k] == (before[k] >= value)
      invariant forall k :: 0 <= k < arr.Length ==>
        arr[k] == (if mask[k] then 255 else if k < i then 0 else before[k])
    {
      if !mask[i] {
        arr[i] := 0;
      }
      i := i + 1;
    }
    assert forall k :: 0 <= k < arr.Length ==> arr[..][k] == Thresholded(before, value)[k];
    r := arr;
  }

  /** With a threshold in `(0, 255]`, thresholding twice is thresholding once. */
  lemma ThresholdIdempotent(s: seq<int>, value: int)
    requires 0 < value <= 255
    ensures Thresholded(Thresholded(s, value), value) == Thresholded(s, value)
  {
  }

  // ---------------------------------------------------------------------
  // to_categorical
  // ---------------------------------------------------------------------

  datatype CategoricalError =
    | EmptyMaximum          // np.max of an empty array
    | NegativeDimension     // np.zeros with a negative class count
    | IndexOutOfBounds(index: int, classes: int)

  function Product(shape: seq<int>): int {
    if shape == [] then 1 else Product(shape[..|shape| - 1]) * shape[|shape| - 1]
  }

  /** The input shape kept by `to_categorical`: one trailing unit dimension
      is dropped, unless it is the only dimension. */
  function KeptShape(shape: seq<int>): (r: seq<int>)
    ensures Product(r) == Product(shape)
    ensures |r| >= |shape| - 1
  {
    if |shape| > 1 && shape[|shape| - 1] == 1 then shape[..|shape| - 1] else shape
  }

  function Max(s: seq<int>): (m: int)
    requires s != []
    ensures m in s
    ensures forall k :: 0 <= k < |s| ==> s[k] <= m
  {
    if |s| == 1 then s[0]
    else
      var m := Max(s[..|s| - 1]);
      if s[|s| - 1] > m then s[|s| - 1] else m
  }

  /** The class count used: `num_classes` unless it is absent or 0, then
      one more than the largest label. */
  function ClassCount(y: seq<int>, numClasses: Option<int>): (r: Result<int, CategoricalError>)
    ensures numClasses.Some? && numClasses.value != 0 ==> r == Ok(numClasses.value)
    ensures (numClasses.None? || numClasses == Some(0)) ==>
      (r.Err? <==> y == []) && (r.Ok? ==> r.value == Max(y) + 1)
  {
    if numClasses.Some? && numClasses.value != 0 then Ok(numClasses.value)
    else if y == [] then Err(EmptyMaximum)
    else Ok(Max(y) + 1)
  }

  /** A label is a valid column for `k` classes when numpy accepts it as an
      index, negative labels counting from the end. */
  predicate InRange(v: int, k: int) {
    -k <= v < k
  }

  /** The column a valid label selects. */
  function Column(v: int, k: int): (c: int)
    requires InRange(v, k)
    ensures 0 <= c < k
  {
    if v < 0 then v + k else v
  }

  function Row(m: array2<int>, i: int): seq<int>
    reads m
    requires 0 <= i < m.Length0
  {
    seq(m.Length1, j requires 0 <= j < m.Length1 reads m => m[i, j])
  }

  /** A one-hot row: 1 at column `c`, 0 elsewhere. */
  predicate OneHot(row: seq<int>, c: int) {
    0 <= c < |row| && forall j :: 0 <= j < |row| ==> row[j] == (if j == c then 1 else 0)
  }

  /** `to_categorical(y, num_classes)` for the labels `y` (row-major) of an
      array of the given shape: one row of `k` columns per label, holding a
      single 1 at the label's column; the result is returned with the shape
      `KeptShape(shape) + [k]`. */
  method ToCategorical(y: seq<int>, shape: seq<int>, numClasses: Option<int>)
    returns (r: Result<(seq<int>, array2<int>), CategoricalError>)
    requires Product(shape) == |y|
    ensures r.Err? <==>
      ClassCount(y, numClasses).Err?
      || ClassCount(y, numClasses).value < 0
      || exists i :: 0 <= i < |y| && !InRange(y[i], ClassCount(y, numClasses).value)
    ensures r.Ok? ==>
      var k := ClassCount(y, numClasses).value;
      var m := r.value.1;
      fresh(m) && m.Length0 == |y| && m.Length1 == k
      && r.value.0 == KeptShape(shape) + [k]
      && Product(r.value.0) == m.Length0 * m.Length1
      && forall i :: 0 <= i < |y| ==> InRange(y[i], k) && OneHot(Row(m, i), Column(y[i], k))
  {
    var count := ClassCount(y, numClasses);
    if count.Err? {
      return Err(count.error);
    }
    var k := count.value;
    if k < 0 {
      return Err(NegativeDimension);
    }
    var n := |y|;
    var m := new int[n, k]((i, j) => 0);
    var i := 0;
    while i < n
      invariant 0 <= i <= n
      invariant forall p :: 0 <= p < i ==> InRange(y[p], k)
      invariant forall p, j :: 0 <= p < n && 0 <= j < k ==>
        m[p, j] == (if p < i && j == Column(y[p], k) then 1 else 0)
    {
      if !InRange(y[i], k) {
        return Err(IndexOutOfBounds(y[i], k));
      }
      m[i, Column(y[i], k)] := 1;
      i := i + 1;
    }
    forall p | 0 <= p < n
      ensures OneHot(Row(m, p), Column(y[p], k))
    {
    }
    r := Ok((KeptShape(shape) + [k], m));
  }

  /** A one-hot row holds exactly one 1 and sums to 1. */
  lemma {:induction false} OneHotHasSingleOne(row: seq<int>, c: int)
    requires OneHot(row, c)
    ensures (set j | 0 <= j < |row| && row[j] == 1) == {c}
    ensures Sum(row) == 1
  {
    OneHotSum(row, c, |row|);
    assert row[..|row|] == row;
  }

  function Sum(s: seq<int>): int {
    if s == [] then 0 else Sum(s[..|s| - 1]) + s[|s| - 1]
  }

  lemma {:induction false} OneHotSum(row: seq<int>, c: int, n: nat)
    requires OneHot(row, c) && n <= |row|
    ensures Sum(row[..n]) == if c < n then 1 else 0
  {
    if n > 0 {
      OneHotSum(row, c, n - 1);
      assert row[..n][..n - 1] == row[..n - 1];
    }
  }
}
