/** Slicing the inked rows [x_min, x_max] into the sweep bands PrintArray prints one by one. */
module Sweeps {

  /** The half-open row range [start, end) that one sweep reads (`sweep_x_min_pos`,
      `sweep_x_max_pos`). */
  datatype Band = Band(start: int, end: int)

  /** `int(dpi / 2)`: Python's `/` yields a float and `int` truncates it toward zero. */
  function SweepSize(dpi: int): (r: int)
    ensures dpi >= 0 ==> r == dpi / 2
    ensures r >= 1 <==> dpi >= 2
  {
    if dpi >= 0 then dpi / 2 else -((-dpi) / 2)
  }

  /** Direction of the band with index `k`: `printing_direction` starts at 1 and is negated
      after every band. */
  function Direction(k: nat): (d: int)
    ensures d == 1 || d == -1
    ensures d == 1 <==> k % 2 == 0
  {
    if k == 0 then 1 else -Direction(k - 1)
  }

  /** Every band but the last is a full sweep and ends where the next one starts. */
  predicate Consecutive(r: seq<Band>, size: int) {
    forall i :: 0 <= i < |r| - 1 ==> r[i].end == r[i].start + size && r[i].end == r[i + 1].start
  }

  /** The bands the sweep loop visits, starting at row `s`: a band of `size` rows while it ends
      at or before `xMax`, then one band clipped to end at `xMax`, after which the loop stops. */
  function BandsFrom(s: int, xMax: int, size: int): (r: seq<Band>)
    requires 1 <= size && s <= xMax
    decreases xMax - s
    ensures |r| >= 1 && r[0].start == s && r[|r| - 1].end == xMax
    ensures r[|r| - 1].end - r[|r| - 1].start < size
  {
    if s + size <= xMax then [Band(s, s + size)] + BandsFrom(s + size, xMax, size)
    else [Band(s, xMax)]
  }

  /** Every band lies inside [s, xMax], and every band but the last is a full sweep that ends
      where the next one starts. */
  lemma {:induction false} BandsFromShape(s: int, xMax: int, size: int)
    requires 1 <= size && s <= xMax
    decreases xMax - s
    ensures var r := BandsFrom(s, xMax, size);
      (forall i :: 0 <= i < |r| ==> s <= r[i].start <= r[i].end <= xMax) && Consecutive(r, size)
  {
    if s + size <= xMax {
      var r, rest := BandsFrom(s, xMax, size), BandsFrom(s + size, xMax, size);
      BandsFromShape(s + size, xMax, size);
      assert r == [Band(s, s + size)] + rest;
      forall i | 0 <= i < |r| ensures s <= r[i].start <= r[i].end <= xMax {
        if i > 0 {
          assert r[i] == rest[i - 1];
        }
      }
      forall i | 0 <= i < |r| - 1 ensures r[i].end == r[i].start + size && r[i].end == r[i + 1].start {
        assert r[i + 1] == rest[i];
        if i > 0 {
          assert r[i] == rest[i - 1];
        }
      }
    }
  }

  /** Band `k` seen from the loop: it is a full sweep followed by a band starting where it ends
      exactly when a full sweep from its start still ends at or before `xMax`; otherwise it is
      the clipped last band. */
  lemma NextBand(s: int, xMax: int, size: int, k: int)
    requires 1 <= size && s <= xMax
    requires 0 <= k < |BandsFrom(s, xMax, size)|
    ensures var r := BandsFrom(s, xMax, size);
      (r[k].start + size <= xMax <==> k < |r| - 1) &&
      (k < |r| - 1 ==> r[k] == Band(r[k].start, r[k].start + size) && r[k + 1].start == r[k].start + size) &&
      (k == |r| - 1 ==> r[k] == Band(r[k].start, xMax))
  {
    var r := BandsFrom(s, xMax, size);
    BandsFromShape(s, xMax, size);
    if k < |r| - 1 {
      assert r[k].end == r[k].start + size && r[k].end == r[k + 1].start;
    }
  }

  /** The loop runs exactly floor((x_max - x_min) / size) + 1 times, stated without division:
      n bands are needed when (n - 1) * size <= x_max - x_min < n * size. */
  lemma {:induction false} BandCount(s: int, xMax: int, size: int)
    requires 1 <= size && s <= xMax
    decreases xMax - s
    ensures var n := |BandsFrom(s, xMax, size)|;
      (n - 1) * size <= xMax - s < n * size
  {
    var n := |BandsFrom(s, xMax, size)|;
    if s + size <= xMax {
      BandCount(s + size, xMax, size);
      var m := |BandsFrom(s + size, xMax, size)|;
      assert n == m + 1;
      assert (m + 1) * size == m * size + size;
    } else {
      assert n == 1;
    }
  }

  /** Start rows strictly increase from band to band. */
  lemma BandsIncreasing(s: int, xMax: int, size: int)
    requires 1 <= size && s <= xMax
    ensures var r := BandsFrom(s, xMax, size);
      forall i, j :: 0 <= i < j < |r| ==> r[i].start < r[j].start
  {
    var r := BandsFrom(s, xMax, size);
    BandsFromShape(s, xMax, size);
    forall i, j | 0 <= i < j < |r| ensures r[i].start < r[j].start {
      StartsBelow(r, size, i, j);
    }
  }

  lemma {:induction false} StartsBelow(r: seq<Band>, size: int, i: int, j: int)
    requires size >= 1 && 0 <= i < j < |r|
    requires Consecutive(r, size)
    ensures r[i].start < r[j].start
    decreases j - i
  {
    if j > i + 1 {
      StartsBelow(r, size, i, j - 1);
    }
    assert r[j - 1].start < r[j - 1].end == r[j].start;
  }

  /** Row `h` is read by one of the bands. */
  predicate InSomeBand(r: seq<Band>, h: int) {
    exists i :: 0 <= i < |r| && r[i].start <= h < r[i].end
  }

  /** The bands cover exactly the half-open rows [s, xMax): row `xMax` itself, the last inked
      row, lies in no band and is never read by any sweep. */
  lemma BandsCoverHalfOpen(s: int, xMax: int, size: int, h: int)
    requires 1 <= size && s <= xMax
    ensures InSomeBand(BandsFrom(s, xMax, size), h) <==> s <= h < xMax
  {
    var r := BandsFrom(s, xMax, size);
    if InSomeBand(r, h) {
      BandsFromShape(s, xMax, size);
      var i :| 0 <= i < |r| && r[i].start <= h < r[i].end;
      assert s <= r[i].start && r[i].end <= xMax;
    }
    if s <= h < xMax {
      BandsReachRow(s, xMax, size, h);
    }
  }

  lemma {:induction false} BandsReachRow(s: int, xMax: int, size: int, h: int)
    requires 1 <= size && s <= h < xMax
    decreases xMax - s
    ensures InSomeBand(BandsFrom(s, xMax, size), h)
  {
    var r := BandsFrom(s, xMax, size);
    if s + size <= xMax && s + size <= h {
      var rest := BandsFrom(s + size, xMax, size);
      BandsReachRow(s + size, xMax, size, h);
      var i :| 0 <= i < |rest| && rest[i].start <= h < rest[i].end;
      assert r[i + 1] == rest[i];
    } else {
      assert r[0].start <= h < r[0].end;
    }
  }
}
