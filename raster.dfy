/** The thresholded image that PrintArray sweeps over, and the ink bounding-box scans it performs.
    Rows run along the gantry travel axis (X), columns along the head-sweep axis (Y). */
module Raster {

  /** `pixels[row][col]`; `width` is the image converter's `image_array_width`, which is kept
      separately because an image with no rows still has one. */
  datatype Bitmap = Bitmap(pixels: seq<seq<int>>, width: nat) {
    predicate WellFormed() {
      forall r :: 0 <= r < |pixels| ==> |pixels[r]| == width
    }
    function Height(): nat { |pixels| }
  }

  /** The direction of a bounding-box scan: whole rows, or columns restricted to the
      half-open row range [lo, hi) of one sweep band. */
  datatype Axis = Rows | Columns(lo: int, hi: int)

  predicate AxisFits(b: Bitmap, a: Axis) {
    b.WellFormed() && (a.Columns? ==> 0 <= a.lo && a.hi <= b.Height())
  }

  /** Number of lines the scan walks: the image height for rows, its width for columns. */
  function Extent(b: Bitmap, a: Axis): nat {
    if a.Rows? then b.Height() else b.width
  }

  /** Line `i` of the scan holds a non-zero pixel. */
  predicate HasInk(b: Bitmap, a: Axis, i: int)
    requires AxisFits(b, a) && 0 <= i < Extent(b, a)
  {
    match a
    case Rows => exists w :: 0 <= w < b.width && b.pixels[i][w] != 0
    case Columns(lo, hi) => exists h :: lo <= h < hi && b.pixels[h][i] != 0
  }

  /** The first inked line at or after `i`, or 0 when there is none (the value the source
      initialises its bound with and keeps when the scan finds nothing). */
  function FirstInk(b: Bitmap, a: Axis, i: nat): nat
    requires AxisFits(b, a) && i <= Extent(b, a)
    decreases Extent(b, a) - i
  {
    if i == Extent(b, a) then 0
    else if HasInk(b, a, i) then i
    else FirstInk(b, a, i + 1)
  }

  /** FirstInk finds the first inked line at or after `i` when there is one, and gives 0
      otherwise. */
  lemma {:induction false} FirstInkSpec(b: Bitmap, a: Axis, i: nat)
    requires AxisFits(b, a) && i <= Extent(b, a)
    decreases Extent(b, a) - i
    ensures var r := FirstInk(b, a, i);
      ((exists j :: i <= j < Extent(b, a) && HasInk(b, a, j)) ==>
         i <= r < Extent(b, a) && HasInk(b, a, r) &&
         forall j :: i <= j < r ==> !HasInk(b, a, j)) &&
      ((forall j :: i <= j < Extent(b, a) ==> !HasInk(b, a, j)) ==> r == 0)
  {
    if i < Extent(b, a) && !HasInk(b, a, i) {
      FirstInkSpec(b, a, i + 1);
    }
  }

  /** The last inked line before `k`, or 0 when there is none. */
  function LastInk(b: Bitmap, a: Axis, k: nat): nat
    requires AxisFits(b, a) && k <= Extent(b, a)
  {
    if k == 0 then 0
    else if HasInk(b, a, k - 1) then k - 1
    else LastInk(b, a, k - 1)
  }

  /** LastInk finds the last inked line before `k` when there is one, and gives 0 otherwise. */
  lemma {:induction false} LastInkSpec(b: Bitmap, a: Axis, k: nat)
    requires AxisFits(b, a) && k <= Extent(b, a)
    ensures var r := LastInk(b, a, k);
      ((exists j :: 0 <= j < k && HasInk(b, a, j)) ==>
         r < k && HasInk(b, a, r) &&
         forall j :: r < j < k ==> !HasInk(b, a, j)) &&
      ((forall j :: 0 <= j < k ==> !HasInk(b, a, j)) ==> r == 0)
  {
    if k > 0 && !HasInk(b, a, k - 1) {
      LastInkSpec(b, a, k - 1);
    }
  }

  /** A line with ink and none before it is the first inked line. */
  lemma FirstInkIs(b: Bitmap, a: Axis, x: nat)
    requires AxisFits(b, a) && x < Extent(b, a) && HasInk(b, a, x)
    requires forall j :: 0 <= j < x ==> !HasInk(b, a, j)
    ensures FirstInk(b, a, 0) == x
  {
    var r := FirstInk(b, a, 0);
    FirstInkSpec(b, a, 0);
    assert r <= x && HasInk(b, a, r);
  }

  /** A line with ink and none after it (below `k`) is the last inked line. */
  lemma LastInkIs(b: Bitmap, a: Axis, k: nat, x: nat)
    requires AxisFits(b, a) && x < k <= Extent(b, a) && HasInk(b, a, x)
    requires forall j :: x < j < k ==> !HasInk(b, a, j)
    ensures LastInk(b, a, k) == x
  {
    var r := LastInk(b, a, k);
    LastInkSpec(b, a, k);
    assert x <= r && HasInk(b, a, r);
  }

  /** `sweep_x_min`, `sweep_x_max`: first and last rows with ink. */
  function FirstInkRow(b: Bitmap): nat
    requires b.WellFormed()
  {
    FirstInk(b, Rows, 0)
  }

  function LastInkRow(b: Bitmap): nat
    requires b.WellFormed()
  {
    LastInk(b, Rows, b.Height())
  }

  /** `sweep_y_min`, `sweep_y_max`: first and last columns with ink among rows [lo, hi). */
  function FirstInkColumn(b: Bitmap, lo: int, hi: int): nat
    requires AxisFits(b, Columns(lo, hi))
  {
    FirstInk(b, Columns(lo, hi), 0)
  }

  function LastInkColumn(b: Bitmap, lo: int, hi: int): nat
    requires AxisFits(b, Columns(lo, hi))
  {
    LastInk(b, Columns(lo, hi), b.width)
  }

  /** The first and last ink lines are ordered, and both stay inside the scan. */
  lemma InkBoundsOrdered(b: Bitmap, a: Axis)
    requires AxisFits(b, a)
    ensures FirstInk(b, a, 0) <= LastInk(b, a, Extent(b, a))
    ensures Extent(b, a) == 0 || LastInk(b, a, Extent(b, a)) < Extent(b, a)
  {
    FirstInkSpec(b, a, 0);
    LastInkSpec(b, a, Extent(b, a));
    if exists j :: 0 <= j < Extent(b, a) && HasInk(b, a, j) {
      var last := LastInk(b, a, Extent(b, a));
      assert HasInk(b, a, last);
    }
  }

  /** Rows scan of PrintArray: a forward scan for `sweep_x_min` and a reversed scan for
      `sweep_x_max`, each breaking out of both loops at the first non-zero pixel. */
  method FindInkRows(b: Bitmap) returns (xMin: nat, xMax: nat)
    requires b.WellFormed()
    ensures xMin == FirstInkRow(b) && xMax == LastInkRow(b)
  {
    xMin, xMax := 0, 0;
    var h := 0;
    while h < b.Height()
      invariant 0 <= h <= b.Height()
      invariant forall i :: 0 <= i < h ==> !HasInk(b, Rows, i)
      invariant xMin == 0
    {
      var found := false;
      var w := 0;
      while w < b.width
        invariant 0 <= w <= b.width
        invariant forall j :: 0 <= j < w ==> b.pixels[h][j] == 0
        invariant !found && xMin == 0
      {
        if b.pixels[h][w] != 0 {
          FirstInkIs(b, Rows, h);
          xMin := h;
          found := true;
          break;
        }
        w := w + 1;
      }
      if found {
        break;
      }
      h := h + 1;
    }
    FirstInkSpec(b, Rows, 0);
    var k := b.Height();
    while k > 0
      invariant 0 <= k <= b.Height()
      invariant forall i :: k <= i < b.Height() ==> !HasInk(b, Rows, i)
      invariant xMax == 0
    {
      var row := k - 1;
      var found := false;
      var w := 0;
      while w < b.width
        invariant 0 <= w <= b.width
        invariant forall j :: 0 <= j < w ==> b.pixels[row][j] == 0
        invariant !found && xMax == 0
      {
        if b.pixels[row][w] != 0 {
          LastInkIs(b, Rows, b.Height(), row);
          xMax := row;
          found := true;
          break;
        }
        w := w + 1;
      }
      if found {
        break;
      }
      k := k - 1;
    }
    LastInkSpec(b, Rows, b.Height());
  }

  /** Columns scan of one sweep band: a forward scan for `sweep_y_min` and a reversed scan for
      `sweep_y_max`, both looking only at rows [lo, hi). */
  method FindInkColumns(b: Bitmap, lo: int, hi: int) returns (yMin: nat, yMax: nat)
    requires AxisFits(b, Columns(lo, hi))
    ensures yMin == FirstInkColumn(b, lo, hi) && yMax == LastInkColumn(b, lo, hi)
  {
    ghost var a := Columns(lo, hi);
    yMin, yMax := 0, 0;
    var w := 0;
    while w < b.width
      invariant 0 <= w <= b.width
      invariant forall i :: 0 <= i < w ==> !HasInk(b, a, i)
      invariant yMin == 0
    {
      var found := false;
      var h := lo;
      while h < hi
        invariant lo <= h && (h <= hi || h == lo)
        invariant forall j :: lo <= j < h ==> b.pixels[j][w] == 0
        invariant !found && yMin == 0
      {
        if b.pixels[h][w] != 0 {
          FirstInkIs(b, a, w);
          yMin := w;
          found := true;
          break;
        }
        h := h + 1;
      }
      if found {
        break;
      }
      w := w + 1;
    }
    FirstInkSpec(b, a, 0);
    var k := b.width;
    while k > 0
      invariant 0 <= k <= b.width
      invariant forall i :: k <= i < b.width ==> !HasInk(b, a, i)
      invariant yMax == 0
    {
      var col := k - 1;
      var found := false;
      var h := lo;
      while h < hi
        invariant lo <= h && (h <= hi || h == lo)
        invariant forall j :: lo <= j < h ==> b.pixels[j][col] == 0
        invariant !found && yMax == 0
      {
        if b.pixels[h][col] != 0 {
          LastInkIs(b, a, b.width, col);
          yMax := col;
          found := true;
          break;
        }
        h := h + 1;
      }
      if found {
        break;
      }
      k := k - 1;
    }
    LastInkSpec(b, a, b.width);
  }
}
