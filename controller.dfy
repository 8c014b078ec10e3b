/** The main window's printing logic: the PrintArray job (ink bounds, sweep bands, per-band head
    command buffer, FIFO drain to the head, two motion moves per band), the file-type classifier,
    the side anchor and the pause, abort and launch flags. */
module Controller {
  import opened Wrappers
  import opened Raster
  import opened Sweeps
  import opened LineDelta
  import opened HeadCommands
  import opened PathNames
  import opened PdfConversion

  /** Device writes, in the order the job issues them: `inkjet.ClearBuffer()`, `grbl.Home()`,
      `inkjet.SerialWriteBufferRaw(line)` and `grbl.SerialGotoXY(x, y, speed)`. */
  datatype Event =
    | ClearHeadBuffer
    | Home
    | HeadWrite(line: string)
    | MoveTo(x: real, y: real, speed: real)

  const TravelSpeed: real := 12000.0
  const PrintSpeed: real := 8000.0
  /** `y_acceleration_distance`, millimetres added before and after the inked columns. */
  const AccelerationDistance: real := 5.0
  /** The parking move issued when the job is done. */
  const ParkMove: Event := MoveTo(5.0, 433.0, 20000.0)

  /** The millimetre origin of a print: `y_start_pos`, `x_start_pos`. */
  datatype Origin = Origin(y: real, x: real)

  /** Side-anchor selection: the right anchor when `print_right_side` is 1, the left one for any
      other value. */
  function Anchor(rightSide: int, right: Origin, left: Origin): Origin {
    if rightSide == 1 then right else left
  }

  /** A side value of 1 selects the right anchor and -1 the left one, so negating the side, as the
      end of every job does, switches to the other anchor. */
  lemma AnchorAlternates(side: int, right: Origin, left: Origin)
    requires side == 1 || side == -1
    ensures {Anchor(side, right, left), Anchor(-side, right, left)} == {right, left}
    ensures right != left ==> Anchor(-side, right, left) != Anchor(side, right, left)
  {
  }

  /** The job geometry for a dpi and an origin: `sweep_size = int(dpi / 2)` rows per band and
      `25.4 / dpi` millimetres per pixel. */
  function JobGeometry(dpi: int, o: Origin): (g: Geometry)
    requires SweepSize(dpi) >= 1
    ensures g.size >= 1
  {
    Geometry(SweepSize(dpi), 25.4 / (dpi as real), o.y, o.x)
  }

  /** One pixel is 25.4 / dpi millimetres: `dpi` pixels span an inch, and the scale is positive. */
  lemma JobScale(dpi: int, o: Origin)
    requires SweepSize(dpi) >= 1
    ensures var g := JobGeometry(dpi, o); g.mult > 0.0 && g.mult * (dpi as real) == 25.4
  {
  }

  /** The bands of a job: from the first to the last inked row, `size` rows at a time. */
  function JobBands(b: Bitmap, size: int): (r: seq<Band>)
    requires b.WellFormed() && size >= 1
    ensures forall i :: 0 <= i < |r| ==> BandFits(b, size, r[i].start, r[i].end)
  {
    InkBoundsOrdered(b, Rows);
    BandsFromShape(FirstInkRow(b), LastInkRow(b), size);
    BandsFrom(FirstInkRow(b), LastInkRow(b), size)
  }

  function HeadWrites(lines: seq<string>): seq<Event>
    decreases |lines|
  {
    if lines == [] then [] else [HeadWrite(lines[0])] + HeadWrites(lines[1..])
  }

  lemma {:induction false} HeadWritesAreWrites(lines: seq<string>)
    decreases |lines|
    ensures |HeadWrites(lines)| == |lines|
    ensures forall i :: 0 <= i < |lines| ==> HeadWrites(lines)[i] == HeadWrite(lines[i])
  {
    if lines != [] {
      HeadWritesAreWrites(lines[1..]);
    }
  }

  /** The two moves of a band: travel to the start of the stroke, then print to its end. A forward
      band strokes from column y_min to y_max, a reverse band from y_max to y_min, each widened by
      the acceleration distance. */
  /** The stage X position, in millimetres, of the first row of a band: row times the pixel
      multiplier, from the side's X start. */
  function StageX(g: Geometry, row: int): real {
    (row as real) * g.mult + g.xStart
  }

  function SweepMoves(g: Geometry, band: Band, yMin: int, yMax: int, dir: int): seq<Event> {
    var x := StageX(g, band.start);
    var first := if dir == 1 then yMin else yMax;
    var last := if dir == 1 then yMax else yMin;
    [MoveTo(x, (first as real) * g.mult + (g.yStart - AccelerationDistance), TravelSpeed),
     MoveTo(x, (last as real) * g.mult + (g.yStart + AccelerationDistance), PrintSpeed)]
  }

  /** Everything one band sends: its head commands, drained in order, then its two moves. */
  function SweepEvents(b: Bitmap, g: Geometry, enc: seq<int> -> string, encPos: real -> string,
                       band: Band, dir: int): seq<Event>
    requires BandFits(b, g.size, band.start, band.end)
  {
    var yMin := FirstInkColumn(b, band.start, band.end);
    var yMax := LastInkColumn(b, band.start, band.end);
    InkBoundsOrdered(b, Columns(band.start, band.end));
    HeadWrites(Render(BandBursts(b, g, enc, band.start, band.end, yMin, yMax, dir), encPos))
    + SweepMoves(g, band, yMin, yMax, dir)
  }

  /** The events of the first `n` bands in order; band k runs in direction Direction(k). */
  function BandEvents(b: Bitmap, g: Geometry, enc: seq<int> -> string, encPos: real -> string,
                      bands: seq<Band>, n: int): seq<Event>
    requires forall i :: 0 <= i < |bands| ==> BandFits(b, g.size, bands[i].start, bands[i].end)
    requires 0 <= n <= |bands|
  {
    if n == 0 then []
    else BandEvents(b, g, enc, encPos, bands, n - 1) + SweepEvents(b, g, enc, encPos, bands[n - 1], Direction(n - 1))
  }

  /** One pass extends the log by one band: after the events of bands 0..k-1, the events of
      band k in direction Direction(k) make the events of bands 0..k. */
  lemma BandLogStep(b: Bitmap, g: Geometry, enc: seq<int> -> string, encPos: real -> string,
                    bands: seq<Band>, k: int, before: seq<Event>)
    requires forall i :: 0 <= i < |bands| ==> BandFits(b, g.size, bands[i].start, bands[i].end)
    requires 0 <= k < |bands|
    ensures before + BandEvents(b, g, enc, encPos, bands, k) + SweepEvents(b, g, enc, encPos, bands[k], Direction(k)) ==
      before + BandEvents(b, g, enc, encPos, bands, k + 1)
  {
    var done, next := BandEvents(b, g, enc, encPos, bands, k), SweepEvents(b, g, enc, encPos, bands[k], Direction(k));
    assert BandEvents(b, g, enc, encPos, bands, k + 1) == done + next;
    assert before + done + next == before + (done + next);
  }

  /** The log of a job is clear and home, then the events of all its bands, then the park move:
      exactly the conversation PrintEvents lists for that dpi and origin. */
  lemma JobLog(b: Bitmap, dpi: int, o: Origin, enc: seq<int> -> string, encPos: real -> string,
               g: Geometry, before: seq<Event>, bandEvents: seq<Event>)
    requires b.WellFormed() && SweepSize(dpi) >= 1 && g == JobGeometry(dpi, o)
    requires bandEvents == BandEvents(b, g, enc, encPos, JobBands(b, g.size), |JobBands(b, g.size)|)
    ensures before + [ClearHeadBuffer, Home] + bandEvents + [ParkMove] == before + PrintEvents(b, dpi, o, enc, encPos)
  {
    assert PrintEvents(b, dpi, o, enc, encPos) == [ClearHeadBuffer, Home] + bandEvents + [ParkMove];
    assert before + [ClearHeadBuffer, Home] + bandEvents == before + ([ClearHeadBuffer, Home] + bandEvents);
    assert before + ([ClearHeadBuffer, Home] + bandEvents) + [ParkMove] ==
      before + ([ClearHeadBuffer, Home] + bandEvents + [ParkMove]);
  }

  /** The whole device conversation of a PrintArray job with a connected motion controller. */
  function PrintEvents(b: Bitmap, dpi: int, o: Origin, enc: seq<int> -> string, encPos: real -> string): seq<Event>
    requires b.WellFormed() && SweepSize(dpi) >= 1
  {
    var g := JobGeometry(dpi, o);
    var bands := JobBands(b, g.size);
    [ClearHeadBuffer, Home] + BandEvents(b, g, enc, encPos, bands, |bands|) + [ParkMove]
  }

  /** Within a band every head write comes before both moves, and the band's head writes are
      exactly its rendered commands: at least the two caps. */
  lemma SweepShape(b: Bitmap, g: Geometry, enc: seq<int> -> string, encPos: real -> string, band: Band, dir: int)
    requires BandFits(b, g.size, band.start, band.end)
    ensures var ev := SweepEvents(b, g, enc, encPos, band, dir);
      |ev| >= 4 && ev[|ev| - 2].MoveTo? && ev[|ev| - 1].MoveTo? &&
      ev[|ev| - 2].speed == TravelSpeed && ev[|ev| - 1].speed == PrintSpeed &&
      forall i :: 0 <= i < |ev| - 2 ==> ev[i].HeadWrite?
  {
    var yMin := FirstInkColumn(b, band.start, band.end);
    var yMax := LastInkColumn(b, band.start, band.end);
    InkBoundsOrdered(b, Columns(band.start, band.end));
    var bursts := BandBursts(b, g, enc, band.start, band.end, yMin, yMax, dir);
    var lines := Render(bursts, encPos);
    RenderIs(bursts, encPos);
    HeadWritesAreWrites(lines);
  }

  /** When at most one row holds ink (in particular for a blank image) the job makes one band,
      reading the empty row range [x_min, x_min); its only head commands are the two blank caps
      at columns -1 and 1, and its stroke runs from y_start - 5 to y_start + 5. Ink in the last
      inked row is therefore never printed. */
  lemma SingleRowPrintsOnlyCaps(b: Bitmap, dpi: int, o: Origin, enc: seq<int> -> string, encPos: real -> string)
    requires b.WellFormed() && SweepSize(dpi) >= 1
    requires FirstInkRow(b) == LastInkRow(b)
    ensures var g, r := JobGeometry(dpi, o), FirstInkRow(b);
      var x := StageX(g, r);
      PrintEvents(b, dpi, o, enc, encPos) ==
        [ClearHeadBuffer, Home,
         HeadWrite(BurstText(Burst(HeadPos(g, -1), Blank(g, enc)), encPos)),
         HeadWrite(BurstText(Burst(HeadPos(g, 1), Blank(g, enc)), encPos)),
         MoveTo(x, o.y - AccelerationDistance, TravelSpeed),
         MoveTo(x, o.y + AccelerationDistance, PrintSpeed),
         ParkMove]
  {
    var g, r := JobGeometry(dpi, o), FirstInkRow(b);
    OneBandJob(b, dpi, o, enc, encPos);
    EmptyBandEvents(b, g, enc, encPos, r);
    var sweep := SweepEvents(b, g, enc, encPos, Band(r, r), 1);
    assert g.yStart == o.y;
    assert sweep[2] == MoveTo(StageX(g, r), o.y - AccelerationDistance, TravelSpeed);
    assert sweep[3] == MoveTo(StageX(g, r), o.y + AccelerationDistance, PrintSpeed);
    assert |sweep| == 4;
    assert PrintEvents(b, dpi, o, enc, encPos) == [ClearHeadBuffer, Home] + sweep + [ParkMove];
    assert [ClearHeadBuffer, Home] + sweep + [ParkMove] ==
      [ClearHeadBuffer, Home, sweep[0], sweep[1], sweep[2], sweep[3], ParkMove];
  }

  /** The job is a single band exactly when the inked rows span less than a sweep. That band is
      [x_min, x_max), printed forward, and the whole job is clear, home, that band's head writes
      and moves, then the park move. */
  lemma OneBandJob(b: Bitmap, dpi: int, o: Origin, enc: seq<int> -> string, encPos: real -> string)
    requires b.WellFormed() && SweepSize(dpi) >= 1
    ensures |JobBands(b, SweepSize(dpi))| == 1 <==> LastInkRow(b) - FirstInkRow(b) < SweepSize(dpi)
    ensures LastInkRow(b) - FirstInkRow(b) < SweepSize(dpi) ==>
      var g, band := JobGeometry(dpi, o), Band(FirstInkRow(b), LastInkRow(b));
      BandFits(b, g.size, band.start, band.end) &&
      PrintEvents(b, dpi, o, enc, encPos) == [ClearHeadBuffer, Home] + SweepEvents(b, g, enc, encPos, band, 1) + [ParkMove]
  {
    var g := JobGeometry(dpi, o);
    var lo, hi := FirstInkRow(b), LastInkRow(b);
    InkBoundsOrdered(b, Rows);
    var bands := JobBands(b, g.size);
    if lo + g.size <= hi {
      assert |bands| == 1 + |BandsFrom(lo + g.size, hi, g.size)|;
    } else {
      assert bands == [Band(lo, hi)];
      OneBandEvents(b, g, enc, encPos, Band(lo, hi));
    }
  }

  /** A job of one band sends that band's events, forward. */
  lemma OneBandEvents(b: Bitmap, g: Geometry, enc: seq<int> -> string, encPos: real -> string, band: Band)
    requires BandFits(b, g.size, band.start, band.end)
    ensures BandEvents(b, g, enc, encPos, [band], 1) == SweepEvents(b, g, enc, encPos, band, 1)
  {
    assert BandEvents(b, g, enc, encPos, [band], 0) == [];
  }

  /** A band over no rows finds no inked column, so it writes only the two blank caps around
      column 0 and strokes from y_start - 5 to y_start + 5. */
  lemma EmptyBandEvents(b: Bitmap, g: Geometry, enc: seq<int> -> string, encPos: real -> string, r: int)
    requires BandFits(b, g.size, r, r)
    ensures var x := StageX(g, r);
      SweepEvents(b, g, enc, encPos, Band(r, r), 1) ==
        [HeadWrite(BurstText(Burst(HeadPos(g, -1), Blank(g, enc)), encPos)),
         HeadWrite(BurstText(Burst(HeadPos(g, 1), Blank(g, enc)), encPos)),
         MoveTo(x, g.yStart - AccelerationDistance, TravelSpeed),
         MoveTo(x, g.yStart + AccelerationDistance, PrintSpeed)]
  {
    assert forall w :: 0 <= w < b.width ==> !HasInk(b, Columns(r, r), w);
    FirstInkSpec(b, Columns(r, r), 0);
    LastInkSpec(b, Columns(r, r), b.width);
    assert FirstInkColumn(b, r, r) == 0 && LastInkColumn(b, r, r) == 0;
    BlankCapWrites(b, g, enc, encPos, r);
    ColumnZeroMoves(g, Band(r, r));
  }

  /** With no inked column the band's bursts are the two blank caps either side of column 0,
      each rendered to one head write. */
  lemma BlankCapWrites(b: Bitmap, g: Geometry, enc: seq<int> -> string, encPos: real -> string, r: int)
    requires BandFits(b, g.size, r, r)
    ensures HeadWrites(Render(BandBursts(b, g, enc, r, r, 0, 0, 1), encPos)) ==
      [HeadWrite(BurstText(Burst(HeadPos(g, -1), Blank(g, enc)), encPos)),
       HeadWrite(BurstText(Burst(HeadPos(g, 1), Blank(g, enc)), encPos))]
  {
    var bursts := BandBursts(b, g, enc, r, r, 0, 0, 1);
    assert ColumnBursts(b, g, enc, 0, 0, r, r) == [];
    assert bursts == [Burst(HeadPos(g, -1), Blank(g, enc)), Burst(HeadPos(g, 1), Blank(g, enc))];
    var lines := Render(bursts, encPos);
    RenderIs(bursts, encPos);
    HeadWritesAreWrites(lines);
    assert HeadWrites(lines) == [HeadWrite(lines[0]), HeadWrite(lines[1])];
  }

  /** A forward sweep whose inked columns are just column 0 accelerates from y_start - 5 and
      prints to y_start + 5, at the band's x. */
  lemma ColumnZeroMoves(g: Geometry, band: Band)
    ensures var x := StageX(g, band.start);
      SweepMoves(g, band, 0, 0, 1) ==
        [MoveTo(x, g.yStart - AccelerationDistance, TravelSpeed), MoveTo(x, g.yStart + AccelerationDistance, PrintSpeed)]
  {
    var x := StageX(g, band.start);
    var moves := SweepMoves(g, band, 0, 0, 1);
    assert (0 as real) * g.mult == 0.0;
    assert moves[0] == MoveTo(x, g.yStart - AccelerationDistance, TravelSpeed);
    assert moves[1] == MoveTo(x, g.yStart + AccelerationDistance, PrintSpeed);
  }

  /** A blank image still makes one band, the empty range [0, 0). */
  lemma BlankImageOneBand(b: Bitmap, size: int)
    requires b.WellFormed() && size >= 1
    requires forall r, w :: 0 <= r < b.Height() && 0 <= w < b.width ==> b.pixels[r][w] == 0
    ensures JobBands(b, size) == [Band(0, 0)]
  {
    assert forall r :: 0 <= r < b.Height() ==> !HasInk(b, Rows, r);
    FirstInkSpec(b, Rows, 0);
    LastInkSpec(b, Rows, b.Height());
  }

  /** The bands read exactly the rows [x_min, x_max): every inked row before the last one is
      swept, and the last inked row is not. */
  lemma BandsMissLastInkRow(b: Bitmap, size: int, h: int)
    requires b.WellFormed() && size >= 1
    ensures InSomeBand(JobBands(b, size), h) <==> FirstInkRow(b) <= h < LastInkRow(b)
  {
    InkBoundsOrdered(b, Rows);
    BandsCoverHalfOpen(FirstInkRow(b), LastInkRow(b), size, h);
  }

  /** `get_file_type` on the selected path: 1 for a ".pdf" extension, 2 for ".jpg", ".png" and
      ".svg", 0 otherwise. The comparison is case sensitive. */
  function GetFileType(path: string): int {
    TypeOfExtension(Extension(Basename(path)))
  }

  function TypeOfExtension(extension: string): int {
    if extension == ".pdf" then 1
    else if extension == ".jpg" || extension == ".png" || extension == ".svg" then 2
    else 0
  }

  /** Any "dir/stem.pdf" whose stem is not only dots is routed to the PDF converter, and any
      "dir/stem.jpg", ".png" or ".svg" to the image converter. */
  lemma FileTypeOfNames(dir: string, stem: string)
    requires '/' !in stem && exists i :: 0 <= i < |stem| && stem[i] != '.'
    ensures GetFileType(dir + "/" + stem + ".pdf") == 1
    ensures GetFileType(dir + "/" + stem + ".jpg") == 2
    ensures GetFileType(dir + "/" + stem + ".png") == 2
    ensures GetFileType(dir + "/" + stem + ".svg") == 2
  {
    ExtensionOfStem(dir, stem, ".pdf");
    ExtensionOfStem(dir, stem, ".jpg");
    ExtensionOfStem(dir, stem, ".png");
    ExtensionOfStem(dir, stem, ".svg");
  }

  /** "dir/stem.PDF" is classified 0, so the dialog never hands it to `open_file`, although
      `open_file` itself lower-cases the extension and would accept it. */
  lemma UpperCasePdfNotRouted(dir: string, stem: string)
    requires '/' !in stem && exists i :: 0 <= i < |stem| && stem[i] != '.'
    ensures GetFileType(dir + "/" + stem + ".PDF") == 0
    ensures PdfExtension(dir + "/" + stem + ".PDF")
  {
    assert GetFileType(dir + "/" + stem + ".PDF") == 0 by {
      ExtensionOfStem(dir, stem, ".PDF");
    }
    ExtensionCheckIgnoresCase(dir, stem);
  }

  /** A name made of dots before its extension, such as ".pdf", has no extension and is 0. */
  lemma DotNameUnclassified(dir: string)
    ensures GetFileType(dir + "/.pdf") == 0
  {
    assert dir + "/.pdf" == dir + "/" + ".pdf";
    BasenameAfterSlash(dir, ".pdf");
    var n := ".pdf";
    LastIndexOfIs(n, '/', -1);
    LastIndexOfIs(n, '.', 0);
    assert !HasStem(n, -1, 0);
  }

  lemma ExtensionOfStem(dir: string, stem: string, ext: string)
    requires '/' !in stem && exists i :: 0 <= i < |stem| && stem[i] != '.'
    requires ext == ".pdf" || ext == ".jpg" || ext == ".png" || ext == ".svg" || ext == ".PDF"
    ensures GetFileType(dir + "/" + stem + ext) == TypeOfExtension(ext)
  {
    assert |ext| == 4 && ext[0] == '.';
    assert forall k :: 0 < k < |ext| ==> ext[k] != '.' && ext[k] != '/';
    assert dir + "/" + stem + ext == dir + "/" + (stem + ext);
    assert '/' !in stem + ext;
    BasenameAfterSlash(dir, stem + ext);
    ExtensionOfName(stem, ext);
  }

  /** `np.zeros(size)`: a fresh line buffer of zeros. */
  method ZeroLine(size: nat) returns (line: array<int>)
    ensures fresh(line) && line.Length == size
    ensures line[..] == Zeros(size) && forall i :: 0 <= i < size ==> line[i] == 0
  {
    line := new int[size](_ => 0);
    assert line[..] == Zeros(size);
  }

  /** The number of line cells a column copy over rows [r0, r1) writes. */
  function Filled(r0: int, r1: int): nat {
    if r1 - r0 > 0 then r1 - r0 else 0
  }

  /** The inner loop of the column walk: copies column `w` of rows [r0, r1) into the front of
      `line`, whose remaining cells are zero, giving the column's line. */
  method CopyColumn(b: Bitmap, w: int, r0: int, r1: int, line: array<int>)
    requires RowsFit(b, line.Length, r0, r1) && 0 <= w < b.width
    requires forall i :: Filled(r0, r1) <= i < line.Length ==> line[i] == 0
    modifies line
    ensures line[..] == ColumnLine(b, w, r0, r1, line.Length)
  {
    var counter := 0;
    var h := r0;
    while h < r1
      invariant r0 <= h && (h <= r1 || h == r0)
      invariant counter == h - r0
      invariant forall i :: 0 <= i < counter ==> line[i] == b.pixels[r0 + i][w]
      invariant forall i :: Filled(r0, r1) <= i < line.Length ==> line[i] == 0
    {
      line[counter] := b.pixels[h][w];
      counter := counter + 1;
      h := h + 1;
    }
  }

  /** What the print button starts: nothing, a PrintArray thread, or a PrintPDF thread. */
  datatype Launch = NoJob | PrintArrayJob | PrintPdfJob

  /** The main window's printing state. `startNewFile` and `changePage` stand for the two
      events. */
  class PrintController {
    var grblConnectionState: int
    var printRightSide: int
    var printLeftSide: Option<int>
    var rightYStart: real
    var rightXStart: real
    var leftYStart: real
    var leftXStart: real
    var fileLoaded: int
    var printingPauseFlag: int
    var printingAbortFlag: int
    var startNewFile: bool
    var changePage: bool
    var inkjetLineBuffer: seq<string>
    var inkjetLinesLeft: int
    var printingDirection: int
    var sweepXMinPos: int
    /** Every device write so far. */
    ghost var log: seq<Event>

    /** The line counter tracks the buffer, the side is one of the two anchors, and no code path
        ever marks a print as running (`file_loaded == 2`). */
    predicate Valid()
      reads this`inkjetLinesLeft, this`inkjetLineBuffer, this`printRightSide, this`fileLoaded
    {
      inkjetLinesLeft == |inkjetLineBuffer| &&
      (printRightSide == 1 || printRightSide == -1) &&
      (fileLoaded == 0 || fileLoaded == 1 || fileLoaded == 3)
    }

    function StartOrigin(): Origin
      reads this`printRightSide, this`rightYStart, this`rightXStart, this`leftYStart, this`leftXStart
    {
      Anchor(printRightSide, Origin(rightYStart, rightXStart), Origin(leftYStart, leftXStart))
    }

    /** The window's defaults: nothing loaded, flags clear, motion disconnected, right side first,
        anchors (225, 90) on the right and (12, 90) on the left. */
    constructor ()
      ensures Valid()
      ensures grblConnectionState == 0 && printRightSide == 1 && printLeftSide == None
      ensures rightYStart == 225.0 && rightXStart == 90.0 && leftYStart == 12.0 && leftXStart == 90.0
      ensures fileLoaded == 0 && printingPauseFlag == 0 && printingAbortFlag == 0
      ensures !startNewFile && !changePage
      ensures inkjetLineBuffer == [] && log == []
    {
      grblConnectionState := 0;
      printRightSide := 1;
      printLeftSide := None;
      rightYStart := 225.0;
      rightXStart := 90.0;
      leftYStart := 12.0;
      leftXStart := 90.0;
      fileLoaded := 0;
      printingPauseFlag := 0;
      printingAbortFlag := 0;
      startNewFile := false;
      changePage := false;
      inkjetLineBuffer := [];
      inkjetLinesLeft := 0;
      printingDirection := 1;
      sweepXMinPos := 0;
      log := [];
    }

    /** The connect button's state change: a successful connection when disconnected sets state
        1; a failed one leaves it; when connected it disconnects. */
    method GrblConnect(success: bool)
      modifies this`grblConnectionState
      ensures old(grblConnectionState) == 0 ==> grblConnectionState == (if success then 1 else 0)
      ensures old(grblConnectionState) != 0 ==> grblConnectionState == 0
    {
      if grblConnectionState == 0 {
        if success {
          grblConnectionState := 1;
        }
      } else {
        grblConnectionState := 0;
      }
    }

    /** The end of OpenFile: response 1 (an image) marks file type 1; response 3 (a PDF, once its
        pages are converted and loaded) marks type 3 and signals a new file. */
    method RecordOpenResponse(response: int)
      requires Valid()
      modifies this`fileLoaded, this`startNewFile
      ensures Valid()
      ensures response == 1 ==> fileLoaded == 1 && startNewFile == old(startNewFile)
      ensures response == 3 ==> fileLoaded == 3 && startNewFile
      ensures response != 1 && response != 3 ==> fileLoaded == old(fileLoaded) && startNewFile == old(startNewFile)
    {
      if response == 1 {
        fileLoaded := 1;
      } else if response == 3 {
        fileLoaded := 3;
        startNewFile := true;
      }
    }

    /** Pause toggles only while a print is marked running; since nothing marks one running, it
        never changes the flag. */
    method PausePrint()
      modifies this`printingPauseFlag
      ensures fileLoaded == 2 ==> printingPauseFlag == (if old(printingPauseFlag) == 0 then 1 else 0)
      ensures fileLoaded != 2 ==> printingPauseFlag == old(printingPauseFlag)
      ensures Valid() ==> printingPauseFlag == old(printingPauseFlag)
    {
      if fileLoaded == 2 {
        if printingPauseFlag == 0 {
          printingPauseFlag := 1;
        } else {
          printingPauseFlag := 0;
        }
      }
    }

    /** Abort sets the flag only while a print is marked running and the user confirms. */
    method AbortPrint(confirmed: bool)
      modifies this`printingAbortFlag
      ensures fileLoaded == 2 && confirmed ==> printingAbortFlag == 1
      ensures !(fileLoaded == 2 && confirmed) ==> printingAbortFlag == old(printingAbortFlag)
      ensures Valid() ==> printingAbortFlag == old(printingAbortFlag)
    {
      if fileLoaded == 2 {
        if confirmed {
          printingAbortFlag := 1;
        }
      }
    }

    /** The print button. The right radio sets the right side; the left radio only sets
        `print_left_side`, which nothing reads, so the side stays as the last job left it. The
        start fields take the entered numbers. An image starts PrintArray; a PDF whose pages are
        ready starts PrintPDF and clears the new-file event; in every other case, including the
        image case, the page-change event is set. */
    method RunPrintArray(rightChecked: bool, yLeft: Option<real>, yRight: Option<real>) returns (launch: Launch)
      requires Valid()
      modifies this`printRightSide, this`printLeftSide, this`leftYStart, this`rightYStart,
               this`startNewFile, this`changePage
      ensures Valid()
      ensures rightChecked ==> printRightSide == 1 && printLeftSide == old(printLeftSide)
      ensures !rightChecked ==> printRightSide == old(printRightSide) && printLeftSide == Some(-1)
      ensures leftYStart == (if yLeft.Some? then yLeft.value else old(leftYStart))
      ensures rightYStart == (if yRight.Some? then yRight.value else old(rightYStart))
      ensures fileLoaded == 1 ==> launch == PrintArrayJob
      ensures fileLoaded == 3 && old(startNewFile) ==> launch == PrintPdfJob && !startNewFile && changePage == old(changePage)
      ensures fileLoaded != 1 && !(fileLoaded == 3 && old(startNewFile)) ==> launch == NoJob
      ensures !(fileLoaded == 3 && old(startNewFile)) ==> changePage && startNewFile == old(startNewFile)
    {
      if rightChecked {
        printRightSide := 1;
      } else {
        printLeftSide := Some(-1);
      }
      if yLeft.Some? {
        leftYStart := yLeft.value;
      }
      if yRight.Some? {
        rightYStart := yRight.value;
      }
      launch := NoJob;
      if fileLoaded == 1 {
        launch := PrintArrayJob;
      }
      if fileLoaded == 3 && startNewFile {
        launch := PrintPdfJob;
        startNewFile := false;
      } else {
        changePage := true;
      }
    }

    /** The PrintArray job. With the motion controller disconnected it does nothing. Otherwise it
        clears the head buffer, homes, prints every band of JobBands in alternating directions
        from the side anchor, flips the side for the next job, and parks. */
    method PrintArray(b: Bitmap, dpi: int, enc: seq<int> -> string, encPos: real -> string)
      requires Valid() && b.WellFormed() && SweepSize(dpi) >= 1
      modifies this`inkjetLineBuffer, this`inkjetLinesLeft, this`log, this`sweepXMinPos,
               this`printingDirection, this`printRightSide
      ensures Valid()
      ensures old(grblConnectionState) == 0 ==> unchanged(this)
      ensures old(grblConnectionState) != 0 ==>
        var bands := JobBands(b, SweepSize(dpi));
        log == old(log) + PrintEvents(b, dpi, old(StartOrigin()), enc, encPos) &&
        printRightSide == -old(printRightSide) &&
        inkjetLineBuffer == [] && inkjetLinesLeft == 0 &&
        printingDirection == Direction(|bands|) &&
        sweepXMinPos == bands[|bands| - 1].start + SweepSize(dpi)
    {
      if grblConnectionState != 0 {
        PrintJob(b, dpi, enc, encPos);
      }
    }

    /** The job proper, once the motion controller is known to be connected. */
    method PrintJob(b: Bitmap, dpi: int, enc: seq<int> -> string, encPos: real -> string)
      requires b.WellFormed() && SweepSize(dpi) >= 1
      modifies this`inkjetLineBuffer, this`inkjetLinesLeft, this`log, this`sweepXMinPos,
               this`printingDirection, this`printRightSide
      ensures var bands := JobBands(b, SweepSize(dpi));
        log == old(log) + PrintEvents(b, dpi, old(StartOrigin()), enc, encPos) &&
        printRightSide == -old(printRightSide) &&
        inkjetLineBuffer == [] && inkjetLinesLeft == 0 &&
        printingDirection == Direction(|bands|) &&
        sweepXMinPos == bands[|bands| - 1].start + SweepSize(dpi)
    {
      ghost var origin := StartOrigin();
      inkjetLineBuffer := [];
      inkjetLinesLeft := 0;
      log := log + [ClearHeadBuffer, Home];
      var xMin, xMax := FindInkRows(b);
      var g := JobSetup(dpi);
      InkBoundsOrdered(b, Rows);
      ghost var bandEvents := RunBands(b, g, enc, encPos, xMin, xMax);
      printRightSide := -printRightSide;
      log := log + [ParkMove];
      JobLog(b, dpi, origin, enc, encPos, g, old(log), bandEvents);
    }

    /** The per-job constants: `sweep_size = int(dpi / 2)`, `pixel_to_pos_multiplier = 25.4 / dpi`,
        and the start position of the side selected by `print_right_side`. */
    method JobSetup(dpi: int) returns (g: Geometry)
      requires SweepSize(dpi) >= 1
      ensures g == JobGeometry(dpi, StartOrigin())
    {
      var size := SweepSize(dpi);
      var mult := 25.4 / (dpi as real);
      var yStart, xStart;
      if printRightSide == 1 {
        yStart, xStart := rightYStart, rightXStart;
      } else {
        yStart, xStart := leftYStart, leftXStart;
      }
      g := Geometry(size, mult, yStart, xStart);
    }

    /** The sweep loop: from row `x_min`, a band of `sweep_size` rows while one fits before
        `x_max`, then the clipped last band; each band runs in the current direction, after which
        the start row advances by a sweep and the direction flips. */
    method RunBands(b: Bitmap, g: Geometry, enc: seq<int> -> string, encPos: real -> string, xMin: int, xMax: int)
      returns (ghost events: seq<Event>)
      requires inkjetLineBuffer == [] && inkjetLinesLeft == 0
      requires b.WellFormed() && g.size >= 1
      requires xMin == FirstInkRow(b) && xMax == LastInkRow(b) && xMin <= xMax
      modifies this`inkjetLineBuffer, this`inkjetLinesLeft, this`log, this`sweepXMinPos, this`printingDirection
      ensures inkjetLineBuffer == [] && inkjetLinesLeft == 0
      ensures var bands := JobBands(b, g.size);
        events == BandEvents(b, g, enc, encPos, bands, |bands|) && log == old(log) + events &&
        printingDirection == Direction(|bands|) &&
        sweepXMinPos == bands[|bands| - 1].start + g.size
    {
      ghost var all := JobBands(b, g.size);
      ghost var k := 0;
      assert log == log + [];
      sweepXMinPos := xMin;
      var stop := false;
      printingDirection := 1;
      while !stop
        invariant inkjetLineBuffer == [] && inkjetLinesLeft == 0
        invariant 0 <= k <= |all| && printingDirection == Direction(k)
        invariant stop <==> k == |all|
        invariant k < |all| ==> all[k].start == sweepXMinPos
        invariant k == |all| ==> sweepXMinPos == all[k - 1].start + g.size
        invariant log == old(log) + BandEvents(b, g, enc, encPos, all, k)
        decreases |all| - k
      {
        stop := PrintPass(b, g, enc, encPos, xMax, all, k, old(log));
        k := k + 1;
      }
      events := BandEvents(b, g, enc, encPos, all, k);
    }

    /** One pass of the sweep loop: the bounds of the band starting at `sweep_x_min_pos`, the
        band printed in the current direction, then the start row advanced by a sweep and the
        direction flipped. When the log held the events of the first `k` bands of the job, it
        now holds those of the first `k + 1`. */
    method PrintPass(b: Bitmap, g: Geometry, enc: seq<int> -> string, encPos: real -> string, xMax: int,
                     ghost all: seq<Band>, ghost k: int, ghost before: seq<Event>)
      returns (stop: bool)
      requires inkjetLineBuffer == [] && inkjetLinesLeft == 0
      requires b.WellFormed() && g.size >= 1 && xMax == LastInkRow(b)
      requires all == JobBands(b, g.size)
      requires 0 <= k < |all| && all[k].start == sweepXMinPos && printingDirection == Direction(k)
      requires log == before + BandEvents(b, g, enc, encPos, all, k)
      modifies this`inkjetLineBuffer, this`inkjetLinesLeft, this`log, this`sweepXMinPos, this`printingDirection
      ensures inkjetLineBuffer == [] && inkjetLinesLeft == 0
      ensures log == before + BandEvents(b, g, enc, encPos, all, k + 1)
      ensures sweepXMinPos == old(sweepXMinPos) + g.size && printingDirection == Direction(k + 1)
      ensures stop <==> k + 1 == |all|
      ensures !stop ==> all[k + 1].start == sweepXMinPos
    {
      var bandEnd;
      bandEnd, stop := SweepBounds(b, g.size, xMax, all, k);
      RunSweep(b, g, enc, encPos, sweepXMinPos, bandEnd, printingDirection);
      BandLogStep(b, g, enc, encPos, all, k, before);
      sweepXMinPos := sweepXMinPos + g.size;
      printingDirection := -printingDirection;
    }

    /** The bounds of the pass starting at row `sweep_x_min_pos`: a full sweep when it ends at or
        before `x_max`, otherwise the band clipped to `x_max`, which marks the last pass. When the
        pass starts where band `k` of the job starts, it reads exactly that band, it is the last
        pass exactly when band `k` is the last band, and otherwise the next band starts a sweep
        further on. */
    method SweepBounds(b: Bitmap, size: int, xMax: int, ghost all: seq<Band>, ghost k: int)
      returns (bandEnd: int, stop: bool)
      requires b.WellFormed() && size >= 1 && xMax == LastInkRow(b)
      requires all == JobBands(b, size)
      requires 0 <= k < |all| && all[k].start == sweepXMinPos
      ensures all[k] == Band(sweepXMinPos, bandEnd)
      ensures stop <==> k == |all| - 1
      ensures !stop ==> all[k + 1].start == sweepXMinPos + size
    {
      InkBoundsOrdered(b, Rows);
      NextBand(FirstInkRow(b), xMax, size, k);
      stop := false;
      if sweepXMinPos + size <= xMax {
        bandEnd := sweepXMinPos + size;
      } else {
        bandEnd := xMax;
        stop := true;
      }
    }

    /** One pass of the sweep loop for the band [lo, hi): its column bounds, its head commands
        buffered and drained to the head, then its two moves. */
    method RunSweep(b: Bitmap, g: Geometry, enc: seq<int> -> string, encPos: real -> string, lo: int, hi: int, dir: int)
      requires inkjetLineBuffer == [] && inkjetLinesLeft == 0
      requires BandFits(b, g.size, lo, hi)
      modifies this`inkjetLineBuffer, this`inkjetLinesLeft, this`log
      ensures inkjetLineBuffer == [] && inkjetLinesLeft == 0
      ensures log == old(log) + SweepEvents(b, g, enc, encPos, Band(lo, hi), dir)
    {
      var yMin, yMax := FindInkColumns(b, lo, hi);
      InkBoundsOrdered(b, Columns(lo, hi));
      ghost var lines := Render(BandBursts(b, g, enc, lo, hi, yMin, yMax, dir), encPos);
      FillBandBuffer(b, g, enc, encPos, lo, hi, yMin, yMax, dir);
      assert [] + lines == lines;
      DrainBuffer();
      ghost var moves := SweepMoves(g, Band(lo, hi), yMin, yMax, dir);
      log := log + SweepMoves(g, Band(lo, hi), yMin, yMax, dir);
      assert (old(log) + HeadWrites(lines)) + moves == old(log) + (HeadWrites(lines) + moves);
    }

    /** `SBR` lines of one band appended to the buffer: the blank leading cap, the column lines
        the walk keeps, and the blank trailing cap, counting each one. */
    method FillBandBuffer(b: Bitmap, g: Geometry, enc: seq<int> -> string, encPos: real -> string,
                          lo: int, hi: int, yMin: int, yMax: int, dir: int)
      requires inkjetLinesLeft == |inkjetLineBuffer|
      requires BandFits(b, g.size, lo, hi) && 0 <= yMin <= b.width && 0 <= yMax <= b.width
      modifies this`inkjetLineBuffer, this`inkjetLinesLeft
      ensures inkjetLineBuffer == old(inkjetLineBuffer) + Render(BandBursts(b, g, enc, lo, hi, yMin, yMax, dir), encPos)
      ensures inkjetLinesLeft == |inkjetLineBuffer|
    {
      var line := ZeroLine(g.size);
      var history := enc(line[..]);
      var leadColumn, trailColumn, c0, c1, r0, r1;
      if dir == 1 {
        leadColumn, trailColumn, c0, c1, r0, r1 := yMin - 1, yMax + 1, yMin, yMax, lo, hi;
      } else {
        leadColumn, trailColumn, c0, c1, r0, r1 := yMax - 1, yMin + 1, yMax, yMin, hi, lo;
      }
      BandQueued(b, g, enc, encPos, lo, hi, yMin, yMax, dir, inkjetLineBuffer,
                 leadColumn, trailColumn, c0, c1, r0, r1);
      Queue(BurstText(Burst(HeadPos(g, leadColumn), history), encPos));
      AppendColumnLines(b, g, enc, encPos, c0, c1, r0, r1, line, history);
      var capLine := ZeroLine(g.size);
      Queue(BurstText(Burst(HeadPos(g, trailColumn), enc(capLine[..])), encPos));
    }

    /** The walk over columns [c0, c1) reading rows [r0, r1) into `line`, appending a column's
        line only when its encoding differs from the last one appended (starting from `blank`). */
    method AppendColumnLines(b: Bitmap, g: Geometry, enc: seq<int> -> string, encPos: real -> string,
                             c0: int, c1: int, r0: int, r1: int, line: array<int>, blank: string)
      requires inkjetLinesLeft == |inkjetLineBuffer|
      requires RowsFit(b, g.size, r0, r1) && 0 <= c0 <= b.width && c1 <= b.width
      requires line.Length == g.size && forall i :: 0 <= i < line.Length ==> line[i] == 0
      modifies this`inkjetLineBuffer, this`inkjetLinesLeft, line
      ensures inkjetLineBuffer == old(inkjetLineBuffer) + Render(Delta(ColumnBursts(b, g, enc, c0, c1, r0, r1), blank), encPos)
      ensures inkjetLinesLeft == |inkjetLineBuffer|
    {
      ghost var start := inkjetLineBuffer;
      var history := blank;
      var w := c0;
      while w < c1
        invariant c0 <= w <= b.width && (w <= c1 || w == c0)
        invariant forall i :: Filled(r0, r1) <= i < line.Length ==> line[i] == 0
        invariant history == WalkHistory(b, g, enc, c0, w, r0, r1, blank)
        invariant inkjetLineBuffer == start + WalkLines(b, g, enc, encPos, c0, w, r0, r1, blank)
        invariant inkjetLinesLeft == |inkjetLineBuffer|
      {
        CopyColumn(b, w, r0, r1, line);
        var lineString := enc(line[..]);
        ghost var walked := WalkLines(b, g, enc, encPos, c0, w, r0, r1, blank);
        if lineString != history {
          history := lineString;
          var text := BurstText(Burst(HeadPos(g, w), lineString), encPos);
          assert (start + walked) + [text] == start + (walked + [text]);
          Queue(text);
        } else {
          assert walked + [] == walked;
        }
        w := w + 1;
      }
      assert WalkLines(b, g, enc, encPos, c0, w, r0, r1, blank) == WalkLines(b, g, enc, encPos, c0, c1, r0, r1, blank);
      WalkLinesAreDelta(b, g, enc, encPos, c0, c1, r0, r1, blank);
    }

    /** Appends one line to the buffer and counts it. */
    method Queue(text: string)
      modifies this`inkjetLineBuffer, this`inkjetLinesLeft
      ensures inkjetLineBuffer == old(inkjetLineBuffer) + [text]
      ensures inkjetLinesLeft == old(inkjetLinesLeft) + 1
    {
      inkjetLineBuffer := inkjetLineBuffer + [text];
      inkjetLinesLeft := inkjetLinesLeft + 1;
    }

    /** The drain: while lines are left, write the front line to the head, delete it and count it
        down. Exits with the buffer empty, every line written once, front first. */
    method DrainBuffer()
      requires inkjetLinesLeft == |inkjetLineBuffer|
      modifies this`inkjetLineBuffer, this`inkjetLinesLeft, this`log
      ensures log == old(log) + HeadWrites(old(inkjetLineBuffer))
      ensures inkjetLineBuffer == [] && inkjetLinesLeft == 0
    {
      while true
        invariant inkjetLinesLeft == |inkjetLineBuffer|
        invariant log + HeadWrites(inkjetLineBuffer) == old(log) + HeadWrites(old(inkjetLineBuffer))
        decreases |inkjetLineBuffer|
      {
        if inkjetLinesLeft > 0 {
          log := log + [HeadWrite(inkjetLineBuffer[0])];
          inkjetLineBuffer := inkjetLineBuffer[1..];
          inkjetLinesLeft := inkjetLinesLeft - 1;
        } else {
          break;
        }
      }
    }
  }
}
