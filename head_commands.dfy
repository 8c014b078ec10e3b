/** The head command list PrintArray builds for one sweep band: a blank leading cap, the
    delta-suppressed column lines, and a blank trailing cap, each positioned in microns. */
module HeadCommands {
  import opened Raster
  import opened LineDelta

  /** Per-job constants of PrintArray: `sweep_size`, `pixel_to_pos_multiplier` (millimetres per
      pixel) and the side anchor `y_start_pos`, `x_start_pos` (millimetres). */
  datatype Geometry = Geometry(size: nat, mult: real, yStart: real, xStart: real)

  /** Head position of column `w` in microns: `((w * multiplier) + y_start_pos) * 1000`. */
  function HeadPos(g: Geometry, w: int): real {
    ((w as real) * g.mult + g.yStart) * 1000.0
  }

  /** `zeros(n)`. */
  function Zeros(n: nat): seq<int> {
    seq(n, _ => 0)
  }

  /** Rows [r0, r1) can be copied into a line buffer of `size` cells. When r1 <= r0 nothing is
      copied, which is how the reverse walk reads its range. */
  predicate RowsFit(b: Bitmap, size: int, r0: int, r1: int) {
    b.WellFormed() && 0 <= r0 && r1 <= b.Height() && r1 - r0 <= size
  }

  /** A sweep band [lo, hi) inside the image and no taller than a sweep. */
  predicate BandFits(b: Bitmap, size: int, lo: int, hi: int) {
    b.WellFormed() && 0 <= lo <= hi <= b.Height() && hi - lo <= size
  }

  /** The contents of `temp_line_array` once the inner loop has copied column `w` of rows [r0, r1):
      those pixels, then zeros up to `size` (cells past r1 - r0 are never written). */
  function ColumnLine(b: Bitmap, w: int, r0: int, r1: int, size: nat): seq<int>
    requires RowsFit(b, size, r0, r1) && 0 <= w < b.width
  {
    seq(size, i requires 0 <= i < size => if i < r1 - r0 then b.pixels[r0 + i][w] else 0)
  }

  /** The command a column would get if it is queued. */
  function ColumnBurst(b: Bitmap, g: Geometry, enc: seq<int> -> string, w: int, r0: int, r1: int): Burst<string>
    requires RowsFit(b, g.size, r0, r1) && 0 <= w < b.width
  {
    Burst(HeadPos(g, w), enc(ColumnLine(b, w, r0, r1, g.size)))
  }

  /** The candidate commands of columns c0, c0 + 1, ..., c1 - 1 in the order the walk visits them. */
  function ColumnBursts(b: Bitmap, g: Geometry, enc: seq<int> -> string, c0: int, c1: int, r0: int, r1: int): seq<Burst<string>>
    requires RowsFit(b, g.size, r0, r1) && 0 <= c0 && c1 <= b.width
    decreases c1 - c0
  {
    if c1 <= c0 then []
    else ColumnBursts(b, g, enc, c0, c1 - 1, r0, r1) + [ColumnBurst(b, g, enc, c1 - 1, r0, r1)]
  }

  /** One candidate per column, in column order. */
  lemma {:induction false} ColumnBurstsAre(b: Bitmap, g: Geometry, enc: seq<int> -> string, c0: int, c1: int, r0: int, r1: int)
    requires RowsFit(b, g.size, r0, r1) && 0 <= c0 && c1 <= b.width
    decreases c1 - c0
    ensures var r := ColumnBursts(b, g, enc, c0, c1, r0, r1);
      |r| == (if c1 <= c0 then 0 else c1 - c0) &&
      forall i :: 0 <= i < |r| ==> r[i] == ColumnBurst(b, g, enc, c0 + i, r0, r1)
  {
    if c0 < c1 {
      ColumnBurstsAre(b, g, enc, c0, c1 - 1, r0, r1);
    }
  }

  /** Visiting one more column appends that column's command to the candidates; it is kept
      exactly when its line differs from the line in effect, and it becomes the line in effect. */
  lemma ColumnStep(b: Bitmap, g: Geometry, enc: seq<int> -> string, c0: int, w: int, r0: int, r1: int, h: string)
    requires RowsFit(b, g.size, r0, r1) && 0 <= c0 <= w < b.width
    ensures var items, x := ColumnBursts(b, g, enc, c0, w, r0, r1), ColumnBurst(b, g, enc, w, r0, r1);
      ColumnBursts(b, g, enc, c0, w + 1, r0, r1) == items + [x] &&
      Delta(items + [x], h) == Delta(items, h) + (if x.line != LastLine(items, h) then [x] else []) &&
      LastLine(items + [x], h) == x.line
  {
    var items, x := ColumnBursts(b, g, enc, c0, w, r0, r1), ColumnBurst(b, g, enc, w, r0, r1);
    assert (items + [x])[..|items|] == items;
  }

  /** One step of the column walk: with `line` the encoding of column w, queueing that column
      exactly when `line` differs from the line in effect turns the rendered delta of columns
      [c0, w) into that of [c0, w + 1), and `line` becomes the line in effect. */
  lemma WalkStep(b: Bitmap, g: Geometry, enc: seq<int> -> string, encPos: real -> string,
                 c0: int, w: int, r0: int, r1: int, h: string)
    requires RowsFit(b, g.size, r0, r1) && 0 <= c0 <= w < b.width
    ensures var before, after := ColumnBursts(b, g, enc, c0, w, r0, r1), ColumnBursts(b, g, enc, c0, w + 1, r0, r1);
      var line := enc(ColumnLine(b, w, r0, r1, g.size));
      LastLine(after, h) == line &&
      Render(Delta(after, h), encPos) == Render(Delta(before, h), encPos) +
        (if line != LastLine(before, h) then [BurstText(Burst(HeadPos(g, w), line), encPos)] else [])
  {
    var before, x := ColumnBursts(b, g, enc, c0, w, r0, r1), ColumnBurst(b, g, enc, w, r0, r1);
    ColumnStep(b, g, enc, c0, w, r0, r1, h);
    if x.line != LastLine(before, h) {
      RenderConcat(Delta(before, h), [x], encPos);
    } else {
      assert Delta(before, h) + [] == Delta(before, h);
    }
  }

  /** The line in effect once the walk has visited columns [c0, w): the last visited column's
      encoding, or `h` before the first. */
  function WalkHistory(b: Bitmap, g: Geometry, enc: seq<int> -> string, c0: int, w: int, r0: int, r1: int, h: string): string
    requires RowsFit(b, g.size, r0, r1) && 0 <= c0 && w <= b.width
  {
    if w <= c0 then h else enc(ColumnLine(b, w - 1, r0, r1, g.size))
  }

  /** The `SBR` lines the column walk queues over columns [c0, w), column by column as the loop
      does: column w - 1 is queued when its encoding differs from the line in effect before it. */
  function WalkLines(b: Bitmap, g: Geometry, enc: seq<int> -> string, encPos: real -> string,
                     c0: int, w: int, r0: int, r1: int, h: string): seq<string>
    requires RowsFit(b, g.size, r0, r1) && 0 <= c0 && w <= b.width
    decreases w - c0
  {
    if w <= c0 then []
    else
      var line := enc(ColumnLine(b, w - 1, r0, r1, g.size));
      WalkLines(b, g, enc, encPos, c0, w - 1, r0, r1, h)
      + (if line != WalkHistory(b, g, enc, c0, w - 1, r0, r1, h) then [BurstText(Burst(HeadPos(g, w - 1), line), encPos)] else [])
  }

  /** The walk as the loop runs it queues exactly the rendered delta of the column candidates,
      and leaves the last candidate's line in effect. */
  lemma {:induction false} WalkLinesAreDelta(b: Bitmap, g: Geometry, enc: seq<int> -> string, encPos: real -> string,
                                             c0: int, w: int, r0: int, r1: int, h: string)
    requires RowsFit(b, g.size, r0, r1) && 0 <= c0 && w <= b.width
    decreases w - c0, 1
    ensures WalkLines(b, g, enc, encPos, c0, w, r0, r1, h) == Render(Delta(ColumnBursts(b, g, enc, c0, w, r0, r1), h), encPos)
    ensures WalkHistory(b, g, enc, c0, w, r0, r1, h) == LastLine(ColumnBursts(b, g, enc, c0, w, r0, r1), h)
  {
    if w > c0 {
      WalkLinesExtend(b, g, enc, encPos, c0, w, r0, r1, h);
    } else {
      assert ColumnBursts(b, g, enc, c0, w, r0, r1) == [];
    }
  }

  /** The inductive step of WalkLinesAreDelta: from columns [c0, w - 1) to [c0, w). */
  lemma {:induction false} WalkLinesExtend(b: Bitmap, g: Geometry, enc: seq<int> -> string, encPos: real -> string,
                                           c0: int, w: int, r0: int, r1: int, h: string)
    requires RowsFit(b, g.size, r0, r1) && 0 <= c0 < w <= b.width
    decreases w - c0, 0
    ensures WalkLines(b, g, enc, encPos, c0, w, r0, r1, h) == Render(Delta(ColumnBursts(b, g, enc, c0, w, r0, r1), h), encPos)
    ensures WalkHistory(b, g, enc, c0, w, r0, r1, h) == LastLine(ColumnBursts(b, g, enc, c0, w, r0, r1), h)
  {
    WalkLinesAreDelta(b, g, enc, encPos, c0, w - 1, r0, r1, h);
    WalkLinesStep(b, g, enc, encPos, c0, w, r0, r1, h);
    WalkHistoryStep(b, g, enc, encPos, c0, w, r0, r1, h);
  }

  lemma WalkLinesStep(b: Bitmap, g: Geometry, enc: seq<int> -> string, encPos: real -> string,
                      c0: int, w: int, r0: int, r1: int, h: string)
    requires RowsFit(b, g.size, r0, r1) && 0 <= c0 < w <= b.width
    requires WalkLines(b, g, enc, encPos, c0, w - 1, r0, r1, h) == Render(Delta(ColumnBursts(b, g, enc, c0, w - 1, r0, r1), h), encPos)
    requires WalkHistory(b, g, enc, c0, w - 1, r0, r1, h) == LastLine(ColumnBursts(b, g, enc, c0, w - 1, r0, r1), h)
    ensures WalkLines(b, g, enc, encPos, c0, w, r0, r1, h) == Render(Delta(ColumnBursts(b, g, enc, c0, w, r0, r1), h), encPos)
  {
    WalkStep(b, g, enc, encPos, c0, w - 1, r0, r1, h);
  }

  lemma WalkHistoryStep(b: Bitmap, g: Geometry, enc: seq<int> -> string, encPos: real -> string,
                        c0: int, w: int, r0: int, r1: int, h: string)
    requires RowsFit(b, g.size, r0, r1) && 0 <= c0 < w <= b.width
    ensures WalkHistory(b, g, enc, c0, w, r0, r1, h) == LastLine(ColumnBursts(b, g, enc, c0, w, r0, r1), h)
  {
    WalkStep(b, g, enc, encPos, c0, w - 1, r0, r1, h);
  }

  /** The encoding of the all-zero line, which is both the cap payload and the initial history. */
  function Blank(g: Geometry, enc: seq<int> -> string): string {
    enc(Zeros(g.size))
  }

  /** The command list of one band with column bounds yMin, yMax. A forward band walks columns
      [yMin, yMax) over rows [lo, hi); a reverse band walks `range(y_max, y_min)` over
      `range(hi, lo)`, exactly as written. */
  function BandBursts(b: Bitmap, g: Geometry, enc: seq<int> -> string, lo: int, hi: int,
                      yMin: int, yMax: int, dir: int): seq<Burst<string>>
    requires BandFits(b, g.size, lo, hi) && 0 <= yMin <= b.width && 0 <= yMax <= b.width
  {
    var blank := Blank(g, enc);
    if dir == 1 then
      [Burst(HeadPos(g, yMin - 1), blank)]
      + Delta(ColumnBursts(b, g, enc, yMin, yMax, lo, hi), blank)
      + [Burst(HeadPos(g, yMax + 1), blank)]
    else
      [Burst(HeadPos(g, yMax - 1), blank)]
      + Delta(ColumnBursts(b, g, enc, yMax, yMin, hi, lo), blank)
      + [Burst(HeadPos(g, yMin + 1), blank)]
  }

  /** `"SBR " + B64ToSingle(pos) + " " + line`, the text written to the head. */
  function BurstText(x: Burst<string>, encPos: real -> string): string {
    "SBR " + encPos(x.pos) + " " + x.line
  }

  function Render(s: seq<Burst<string>>, encPos: real -> string): seq<string>
    decreases |s|
  {
    if s == [] then [] else Render(s[..|s| - 1], encPos) + [BurstText(s[|s| - 1], encPos)]
  }

  /** One text line per burst, in order. */
  lemma {:induction false} RenderIs(s: seq<Burst<string>>, encPos: real -> string)
    decreases |s|
    ensures var r := Render(s, encPos);
      |r| == |s| && forall i :: 0 <= i < |s| ==> r[i] == BurstText(s[i], encPos)
  {
    if s != [] {
      RenderIs(s[..|s| - 1], encPos);
    }
  }

  lemma RenderConcat(s: seq<Burst<string>>, t: seq<Burst<string>>, encPos: real -> string)
    ensures Render(s + t, encPos) == Render(s, encPos) + Render(t, encPos)
  {
    var l, r := Render(s + t, encPos), Render(s, encPos) + Render(t, encPos);
    RenderIs(s + t, encPos);
    RenderIs(s, encPos);
    RenderIs(t, encPos);
    forall i | 0 <= i < |l| ensures l[i] == r[i] {
      if i < |s| {
        assert (s + t)[i] == s[i];
      } else {
        assert (s + t)[i] == t[i - |s|];
      }
    }
  }

  /** With a positive pixel pitch, head positions grow with the column index. */
  lemma HeadPosIncreasing(g: Geometry, v: int, w: int)
    requires g.mult > 0.0 && v < w
    ensures HeadPos(g, v) < HeadPos(g, w)
  {
    assert (w as real) * g.mult - (v as real) * g.mult == ((w - v) as real) * g.mult;
    assert ((w - v) as real) * g.mult > 0.0;
  }

  lemma ColumnBurstsIncreasing(b: Bitmap, g: Geometry, enc: seq<int> -> string, c0: int, c1: int, r0: int, r1: int)
    requires RowsFit(b, g.size, r0, r1) && 0 <= c0 && c1 <= b.width && g.mult > 0.0
    ensures Increasing(ColumnBursts(b, g, enc, c0, c1, r0, r1))
  {
    var s := ColumnBursts(b, g, enc, c0, c1, r0, r1);
    ColumnBurstsAre(b, g, enc, c0, c1, r0, r1);
    forall i, j | 0 <= i < j < |s| ensures s[i].pos < s[j].pos {
      HeadPosIncreasing(g, c0 + i, c0 + j);
    }
  }

  /** Forward band layout: a blank cap one pitch before y_min, then queued lines for columns
      y_min .. y_max - 1 only (column y_max itself is never queued), each carrying its column's
      zero-padded pixels, then a blank cap one pitch past y_max; at most (y_max - y_min) + 2
      commands. */
  lemma ForwardLayout(b: Bitmap, g: Geometry, enc: seq<int> -> string, lo: int, hi: int, yMin: int, yMax: int)
    requires BandFits(b, g.size, lo, hi) && 0 <= yMin <= yMax <= b.width
    ensures var r := BandBursts(b, g, enc, lo, hi, yMin, yMax, 1);
      2 <= |r| <= (yMax - yMin) + 2 &&
      r[0] == Burst(HeadPos(g, yMin - 1), Blank(g, enc)) &&
      r[|r| - 1] == Burst(HeadPos(g, yMax + 1), Blank(g, enc)) &&
      forall i :: 0 < i < |r| - 1 ==>
        exists w :: yMin <= w < yMax && r[i] == ColumnBurst(b, g, enc, w, lo, hi)
  {
    var items := ColumnBursts(b, g, enc, yMin, yMax, lo, hi);
    var d := Delta(items, Blank(g, enc));
    var r := BandBursts(b, g, enc, lo, hi, yMin, yMax, 1);
    ColumnBurstsAre(b, g, enc, yMin, yMax, lo, hi);
    DeltaSubset(items, Blank(g, enc));
    assert r == [r[0]] + d + [r[|r| - 1]];
    forall i | 0 < i < |r| - 1
      ensures exists w :: yMin <= w < yMax && r[i] == ColumnBurst(b, g, enc, w, lo, hi)
    {
      assert r[i] == d[i - 1];
      assert d[i - 1] in items;
      var j :| 0 <= j < |items| && items[j] == d[i - 1];
      assert r[i] == ColumnBurst(b, g, enc, yMin + j, lo, hi);
    }
  }

  /** Between the caps, no queued line repeats the line before it, and the first one differs
      from the blank line the history starts with. */
  lemma ForwardNoRepeats(b: Bitmap, g: Geometry, enc: seq<int> -> string, lo: int, hi: int, yMin: int, yMax: int)
    requires BandFits(b, g.size, lo, hi) && 0 <= yMin <= yMax <= b.width
    ensures var r := BandBursts(b, g, enc, lo, hi, yMin, yMax, 1);
      (|r| > 2 ==> r[1].line != Blank(g, enc)) &&
      forall i :: 0 < i < |r| - 2 ==> r[i].line != r[i + 1].line
  {
    var items := ColumnBursts(b, g, enc, yMin, yMax, lo, hi);
    var d := Delta(items, Blank(g, enc));
    var r := BandBursts(b, g, enc, lo, hi, yMin, yMax, 1);
    assert r == [r[0]] + d + [r[|r| - 1]];
    DeltaNoRepeats(items, Blank(g, enc));
    forall i | 0 < i < |r| - 2 ensures r[i].line != r[i + 1].line {
      assert r[i] == d[i - 1] && r[i + 1] == d[i];
    }
  }

  /** With a positive pixel pitch the forward band's commands are in increasing position order,
      caps included. */
  lemma ForwardIncreasing(b: Bitmap, g: Geometry, enc: seq<int> -> string, lo: int, hi: int, yMin: int, yMax: int)
    requires BandFits(b, g.size, lo, hi) && 0 <= yMin <= yMax <= b.width && g.mult > 0.0
    ensures Increasing(BandBursts(b, g, enc, lo, hi, yMin, yMax, 1))
  {
    var items := ColumnBursts(b, g, enc, yMin, yMax, lo, hi);
    var d := Delta(items, Blank(g, enc));
    var lead, trail := Burst(HeadPos(g, yMin - 1), Blank(g, enc)), Burst(HeadPos(g, yMax + 1), Blank(g, enc));
    ColumnBurstsIncreasing(b, g, enc, yMin, yMax, lo, hi);
    DeltaIncreasing(items, Blank(g, enc));
    DeltaSubset(items, Blank(g, enc));
    ColumnsBetweenCaps(b, g, enc, yMin, yMax, lo, hi);
    HeadPosIncreasing(g, yMin - 1, yMax + 1);
    CapsIncreasing(lead, d, trail);
  }

  lemma ColumnsBetweenCaps(b: Bitmap, g: Geometry, enc: seq<int> -> string, yMin: int, yMax: int, lo: int, hi: int)
    requires RowsFit(b, g.size, lo, hi) && 0 <= yMin && yMax <= b.width && g.mult > 0.0
    ensures forall x :: x in ColumnBursts(b, g, enc, yMin, yMax, lo, hi) ==>
      HeadPos(g, yMin - 1) < x.pos < HeadPos(g, yMax + 1)
  {
    var items := ColumnBursts(b, g, enc, yMin, yMax, lo, hi);
    ColumnBurstsAre(b, g, enc, yMin, yMax, lo, hi);
    forall k | 0 <= k < |items| ensures HeadPos(g, yMin - 1) < items[k].pos < HeadPos(g, yMax + 1) {
      HeadPosIncreasing(g, yMin - 1, yMin + k);
      HeadPosIncreasing(g, yMin + k, yMax + 1);
    }
  }

  lemma CapsIncreasing(lead: Burst<string>, d: seq<Burst<string>>, trail: Burst<string>)
    requires Increasing(d) && lead.pos < trail.pos
    requires forall x :: x in d ==> lead.pos < x.pos < trail.pos
    ensures Increasing([lead] + d + [trail])
  {
    var r := [lead] + d + [trail];
    forall i, j | 0 <= i < j < |r| ensures r[i].pos < r[j].pos {
      if 0 < i {
        assert r[i] == d[i - 1];
      }
      if j < |r| - 1 {
        assert r[j] == d[j - 1];
      }
    }
  }

  /** Reverse band layout: `range(y_max, y_min)` is empty because y_min <= y_max, so the band's
      list is exactly the two blank caps, at y_max - 1 and y_min + 1. */
  lemma ReverseLayout(b: Bitmap, g: Geometry, enc: seq<int> -> string, lo: int, hi: int, yMin: int, yMax: int, dir: int)
    requires BandFits(b, g.size, lo, hi) && 0 <= yMin <= yMax <= b.width && dir != 1
    ensures BandBursts(b, g, enc, lo, hi, yMin, yMax, dir)
         == [Burst(HeadPos(g, yMax - 1), Blank(g, enc)), Burst(HeadPos(g, yMin + 1), Blank(g, enc))]
  {
    assert ColumnBursts(b, g, enc, yMax, yMin, hi, lo) == [];
  }

  /** A forward band whose columns all encode like the blank line costs only its two caps. */
  lemma UniformBandCapsOnly(b: Bitmap, g: Geometry, enc: seq<int> -> string, lo: int, hi: int, yMin: int, yMax: int)
    requires BandFits(b, g.size, lo, hi) && 0 <= yMin <= yMax <= b.width
    requires forall w :: yMin <= w < yMax ==> enc(ColumnLine(b, w, lo, hi, g.size)) == Blank(g, enc)
    ensures |BandBursts(b, g, enc, lo, hi, yMin, yMax, 1)| == 2
  {
    var items := ColumnBursts(b, g, enc, yMin, yMax, lo, hi);
    ColumnBurstsAre(b, g, enc, yMin, yMax, lo, hi);
    forall i | 0 <= i < |items| ensures items[i].line == Blank(g, enc) {
      assert items[i] == ColumnBurst(b, g, enc, yMin + i, lo, hi);
    }
    DeltaEmptyIff(items, Blank(g, enc));
  }

  /** A band's rendered commands as the buffer receives them, after whatever it held: the lead
      cap's line, the lines the column walk over [c0, c1) x [r0, r1) keeps, the trail cap's line.
      The walk runs forward over the columns of the band or backward, by direction. */
  lemma BandQueued(b: Bitmap, g: Geometry, enc: seq<int> -> string, encPos: real -> string,
                   lo: int, hi: int, yMin: int, yMax: int, dir: int, start: seq<string>,
                   leadColumn: int, trailColumn: int, c0: int, c1: int, r0: int, r1: int)
    requires BandFits(b, g.size, lo, hi) && 0 <= yMin <= b.width && 0 <= yMax <= b.width
    requires dir == 1 ==> leadColumn == yMin - 1 && trailColumn == yMax + 1 && c0 == yMin && c1 == yMax && r0 == lo && r1 == hi
    requires dir != 1 ==> leadColumn == yMax - 1 && trailColumn == yMin + 1 && c0 == yMax && c1 == yMin && r0 == hi && r1 == lo
    ensures RowsFit(b, g.size, r0, r1) && 0 <= c0 <= b.width && c1 <= b.width
    ensures start + Render(BandBursts(b, g, enc, lo, hi, yMin, yMax, dir), encPos) ==
      ((start + [BurstText(Burst(HeadPos(g, leadColumn), Blank(g, enc)), encPos)])
       + Render(Delta(ColumnBursts(b, g, enc, c0, c1, r0, r1), Blank(g, enc)), encPos))
      + [BurstText(Burst(HeadPos(g, trailColumn), Blank(g, enc)), encPos)]
  {
    var blank := Blank(g, enc);
    var lead, trail := Burst(HeadPos(g, leadColumn), blank), Burst(HeadPos(g, trailColumn), blank);
    var d := Delta(ColumnBursts(b, g, enc, c0, c1, r0, r1), blank);
    assert BandBursts(b, g, enc, lo, hi, yMin, yMax, dir) == [lead] + d + [trail];
    RenderQueued(start, lead, d, trail, encPos);
  }

  /** Rendering a capped list after `start` appends the lead's text, the rendered middle and the
      trail's text, in that order. */
  lemma RenderQueued(start: seq<string>, lead: Burst<string>, d: seq<Burst<string>>, trail: Burst<string>, encPos: real -> string)
    ensures start + Render([lead] + d + [trail], encPos) ==
      ((start + [BurstText(lead, encPos)]) + Render(d, encPos)) + [BurstText(trail, encPos)]
  {
    RenderConcat([lead], d, encPos);
    RenderConcat([lead] + d, [trail], encPos);
    var tl, rd, tt := [BurstText(lead, encPos)], Render(d, encPos), [BurstText(trail, encPos)];
    assert start + ((tl + rd) + tt) == (start + (tl + rd)) + tt;
    assert start + (tl + rd) == (start + tl) + rd;
  }
}
