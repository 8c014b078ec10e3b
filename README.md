# OasisII print path in Dafny

This project models the printing core of OasisII, a desktop controller for a powder-bed inkjet
printer. It has three parts.

**PrintArray.** The `PrintArray` job takes a thresholded image, a 2-D array of pixels indexed
`[row][column]`, and prints it in sweeps:

1. It finds the first and last inked rows (`sweep_x_min`, `sweep_x_max`).
2. It cuts that range into bands of `sweep_size = int(dpi / 2)` rows, printed in alternating
   directions.
3. For each band it finds the inked column range (`sweep_y_min`, `sweep_y_max`).
4. It builds the band's buffer of `SBR` head commands:
   - a blank leading cap;
   - the delta-suppressed column lines, where a column is queued only when its encoding differs
     from the last queued one;
   - a blank trailing cap.
5. It drains that buffer front first to the HP45 head, keeping `inkjet_lines_left` in step with
   the buffer.
6. It sends two motion moves to the GRBL controller: travel to the start of the stroke, then
   print to its end.
7. At the end of the job it flips the side anchor for the next job and parks the gantry.

**Main window.** The model also covers the rest of the main window that drives this job:
- the file-type classifier `get_file_type`;
- the connect toggle;
- the pause and abort flags;
- the print button's launch decision;
- the bookkeeping of `OpenFile`;
- the two threads of the `IronPrintPDF` page pipeline, `thread_renderizer` and `thread_printer`.
  Nothing in controller.py calls `IronPrintPDF` (controller.py:474). The print button is wired to
  `RunPrintArray` (controller.py:112), which starts `PrintPDF` for a PDF (controller.py:467).

**PDF converter.** It covers the `PDFConverter` state machine: the constructor defaults,
`open_file` with its return codes, and the dpi accessors.

## How it is modelled

**Modules and files:**

| module | file | contents |
|---|---|---|
| `Raster` | `raster.dfy` | the bitmap and the ink bounding-box scans, as nested loops with break flags |
| `Sweeps` | `sweeps.dfy` | the band tiling and the direction sequence |
| `LineDelta` | `line_delta.dfy` | delta suppression, generic in the line type |
| `HeadCommands` | `head_commands.dfy` | the per-band command layout and the column walk |
| `Controller` | `controller.dfy` | class `PrintController`, the main window's fields, with PrintArray as methods over those fields |
| `PagePipeline` | `page_pipeline.dfy` | class `Pipeline`, the two PDF page threads |
| `PathNames` | `path_names.dfy` | `rfind`, `basename`, `splitext` and `lower` |
| `PdfConversion` | `pdf_converter.dfy` | class `PdfConverter` |

**PrintController.** The buffer `inkjet_line_buffer`, its counter, `sweep_x_min_pos`,
`printing_direction` and the side are fields that the methods update in place.
- `PrintArray` is proved against the specification function `PrintEvents`.
- That function is built from:
  - `JobBands`, the bands;
  - `BandBursts`, the commands of one band;
  - `Render`, the `SBR` texts;
  - `SweepMoves`, the moves.
- The lemmas about those functions state what the job promises.

**Device calls.** The calls to `inkjet.ClearBuffer`, `grbl.Home`, `inkjet.SerialWriteBufferRaw`
and `grbl.SerialGotoXY` are appended to a ghost event log.

**Encoders.** The encoders `B64.B64ToArray` and `B64.B64ToSingle` are not part of this model.
They are function-valued parameters (`enc`, `encPos`), so every result holds for any encoder.

**Inputs.** The image and dpi that the source reads from `self.imageconverter` are parameters of
`PrintArray`.

**Reals.** Millimetre positions are Dafny `real`s.

**Page threads.** Each thread of the page pipeline is a step method. Any interleaving of the two
step methods is a possible run, and the invariant `Pipeline.Valid` holds under all of them.
- A printer step (`PrinterStep`) runs one test of `thread_printer`, or the front-page read
  together with its deletion (controller.py:520-521).
- A renderer step (`RendererStep`) runs the reversal, or one whole loop iteration: the emptiness
  test (controller.py:496) with either the finish or the pop (500) and the append (504).
- Grouping these is sound because `pdflistpng` is read and written only by the renderer.
  Within a renderer step, the one access the printer can observe is the flag update or the
  append. The printer's front read and deletion touch only the front of `ready_for_print`,
  while the renderer only appends at its back.

**Behaviour of the code that is easy to miss:**
- An all-blank image still makes one sweep in `PrintArray` (controller.py:577-630):
  `x_min = x_max = 0`, the empty row range [0, 0), two blank caps and two moves
  (`BlankImageOneBand`, `SingleRowPrintsOnlyCaps`).
- The bands read rows [x_min, x_max) (controller.py:626-630, 640). Row `x_max` is never read, so
  a single inked pixel, or a single inked row, prints only caps, and no band contains its row
  (`SingleRowPrintsOnlyCaps`, `BandsMissLastInkRow`).
- `thread_renderizer` reverses `pdflistpng` and then pops from its end (controller.py:493, 500),
  so `ready_for_print` receives the pages in their original order (`ReversePop`,
  `Pipeline.Progress`).

## Model

| member | source | states |
|---|---|---|
| Sweeps.SweepSize | OasisII/controller.py:603 | `int(dpi / 2)` equals `dpi / 2` for non-negative dpi, and is at least 1 exactly when dpi is at least 2 |
| Sweeps.Direction | OasisII/controller.py:622 | band k runs in direction 1 or -1, and the direction is 1 exactly for even k (starts at 1, negated after every band) |
| Sweeps.BandsFrom | OasisII/controller.py:623-630 | the sweep loop visits at least one band; the first starts at x_min; the last ends at x_max and is shorter than a sweep |
| Sweeps.BandsFromShape | OasisII/controller.py:626-630 | every band lies within [x_min, x_max]; every band but the last is a full sweep ending where the next one starts |
| Sweeps.NextBand | OasisII/controller.py:626-630 | the loop's test `start + sweep_size <= x_max` holds exactly when the band is not the last; a full band is followed by one starting a sweep later; the last band is clipped to x_max |
| Sweeps.BandCount | OasisII/controller.py:623-630 | the loop terminates after n bands, where (n - 1) * size <= x_max - x_min < n * size |
| Sweeps.BandsIncreasing | OasisII/controller.py:808 | band start rows strictly increase |
| Sweeps.BandsCoverHalfOpen | OasisII/controller.py:626-630 | a row is read by some band if and only if it lies in [x_min, x_max); row x_max is never read |
| Sweeps.BandsReachRow | OasisII/controller.py:623-630 | every row in [x_min, x_max) is read by some band |
| Raster.FirstInkSpec | OasisII/controller.py:577-590 | the forward scan finds the least inked line when there is one, and 0 when there is none |
| Raster.LastInkSpec | OasisII/controller.py:591-600 | the reversed scan finds the greatest inked line when there is one, and 0 when there is none |
| Raster.FirstInkIs | OasisII/controller.py:582-590 | an inked line with no ink before it is what the forward scan returns |
| Raster.LastInkIs | OasisII/controller.py:592-600 | an inked line with no ink after it is what the reversed scan returns |
| Raster.InkBoundsOrdered | OasisII/controller.py:577-600 | the first ink bound is at most the last, and both lie inside the image |
| Raster.FindInkRows | OasisII/controller.py:577-600 | the two nested row scans with their break flags return exactly the first and the last inked rows, or 0 |
| Raster.FindInkColumns | OasisII/controller.py:634-656 | the two column scans over rows [start, end) of a band return exactly its first and last inked columns, or 0 |
| LineDelta.DeltaSubset | OasisII/controller.py:716-725 | suppression keeps only items that are in the input, and never more of them than the input holds |
| LineDelta.DeltaKeepsLastLine | OasisII/controller.py:716-719 | after the kept lines the head holds the line of the last column, so suppression loses nothing |
| LineDelta.DeltaNoRepeats | OasisII/controller.py:716-719 | no two consecutive kept lines are equal, and the first kept line differs from the initial history |
| LineDelta.DeltaPrefix | OasisII/controller.py:706-725 | the lines kept from a prefix of the columns are a prefix of the lines kept from all of them |
| LineDelta.LineInEffect | OasisII/controller.py:716-725 | replaying the kept lines up to column k leaves exactly column k's line in effect |
| LineDelta.DeltaEmptyIff | OasisII/controller.py:716-719 | nothing is queued if and only if every column encodes like the history |
| LineDelta.DeltaIncreasing | OasisII/controller.py:707-724 | suppression keeps the walk's increasing position order |
| HeadCommands.ColumnBurstsAre | OasisII/controller.py:707-716 | the walk offers one candidate per column, in column order, each carrying that column's zero-padded line |
| HeadCommands.WalkStep | OasisII/controller.py:707-725 | one iteration of the column walk extends the rendered delta by that column's `SBR` line exactly when its encoding differs from the history |
| HeadCommands.WalkLinesAreDelta | OasisII/controller.py:706-746 | the walk as the loop runs it queues exactly the rendered delta of the column candidates, and leaves the last column's line as history |
| HeadCommands.RenderIs | OasisII/controller.py:721-724 | rendering gives one `"SBR " + pos + " " + line` text per command, in order |
| HeadCommands.HeadPosIncreasing | OasisII/controller.py:721-722 | with a positive pixel pitch, head positions grow with the column index |
| HeadCommands.ColumnBurstsIncreasing | OasisII/controller.py:707-722 | the column candidates are in increasing position order |
| HeadCommands.ForwardLayout | OasisII/controller.py:687-757 | a forward band holds a blank cap at y_min - 1, then lines only for columns y_min .. y_max - 1 (each that column's padded pixels), then a blank cap at y_max + 1; at most (y_max - y_min) + 2 commands |
| HeadCommands.ForwardNoRepeats | OasisII/controller.py:687-719 | between the caps no line repeats the one before it, and the first differs from the blank history |
| HeadCommands.ForwardIncreasing | OasisII/controller.py:691-757 | a forward band's commands, caps included, are in strictly increasing position order |
| HeadCommands.ReverseLayout | OasisII/controller.py:699-764 | a reverse band's buffer is exactly the two blank caps at y_max - 1 and y_min + 1, because `range(y_max, y_min)` is empty |
| HeadCommands.UniformBandCapsOnly | OasisII/controller.py:687-719 | a forward band whose columns all encode like the blank line queues only its two caps |
| HeadCommands.BandQueued | OasisII/controller.py:691-764 | the band's rendered commands are the lead cap's text, the walk's kept lines, and the trail cap's text, appended in that order |
| Controller.AnchorAlternates | OasisII/controller.py:608-615 | the two side values select the two anchors, and negating the side switches to the other one |
| Controller.JobGeometry | OasisII/controller.py:603-606 | for dpi of at least 2 the band height is at least one row |
| Controller.JobScale | OasisII/controller.py:606 | the pixel pitch is positive, and dpi pixels span 25.4 mm |
| Controller.JobBands | OasisII/controller.py:619-630 | every band of the job lies inside the image and is at most a sweep tall |
| Controller.HeadWritesAreWrites | OasisII/controller.py:782-795 | the drain writes one head line per buffered line, in buffer order |
| Controller.SweepShape | OasisII/controller.py:782-800 | within a band every head write comes before the travel move and the print move, which come last in that order |
| Controller.SingleRowPrintsOnlyCaps | OasisII/controller.py:577-813 | when at most one row has ink, the whole job is: clear, home, the two blank caps around column 0, one stroke from y_start - 5 to y_start + 5, park |
| Controller.OneBandJob | OasisII/controller.py:566-630 | the job is a single band exactly when x_max - x_min is less than a sweep; that band is [x_min, x_max), and the job is clear, home, that band's forward head writes and moves, then park |
| Controller.EmptyBandEvents | OasisII/controller.py:635-800 | a band over no rows writes only the two blank caps and strokes from y_start - 5 to y_start + 5 |
| Controller.BlankImageOneBand | OasisII/controller.py:577-630 | an all-blank image yields exactly one band, the empty range [0, 0) |
| Controller.BandsMissLastInkRow | OasisII/controller.py:619-640 | a row is swept if and only if it lies in [x_min, x_max); the last inked row never is |
| Controller.FileTypeOfNames | OasisII/controller.py:340-348 | ".pdf" names classify as 1; ".jpg", ".png" and ".svg" names as 2 |
| Controller.UpperCasePdfNotRouted | OasisII/controller.py:340-348 | ".PDF" classifies as 0 (the comparison is case sensitive), although `open_file` would accept it |
| Controller.DotNameUnclassified | OasisII/controller.py:340-348 | a name that is only ".pdf" has no extension and classifies as 0 |
| Controller.ExtensionOfStem | OasisII/controller.py:342-348 | the class of "dir/stem.ext" is decided by ".ext" alone |
| Controller.ZeroLine | OasisII/controller.py:687 | `zeros(sweep_size)` is a fresh all-zero line of that length |
| Controller.CopyColumn | OasisII/controller.py:710-715 | the inner loop leaves the line holding the column's pixels of rows [r0, r1) followed by the untouched zeros |
| Controller.PrintController.constructor | OasisII/controller.py:58-131 | the window starts disconnected, on the right side, with anchors (225, 90) and (12, 90), nothing loaded and all flags and events clear |
| Controller.PrintController.GrblConnect | OasisII/controller.py:134-157 | when disconnected, a successful connection sets state 1 and a failed one keeps 0; when connected, it disconnects |
| Controller.PrintController.RecordOpenResponse | OasisII/controller.py:386-397 | response 1 marks an image loaded; response 3 marks a PDF loaded and sets the new-file event; other responses change nothing |
| Controller.PrintController.PausePrint | OasisII/controller.py:400-407 | pause toggles only while `file_loaded == 2`; in every reachable state it changes nothing |
| Controller.PrintController.AbortPrint | OasisII/controller.py:409-414 | abort sets the flag only while `file_loaded == 2` and the user confirms; in every reachable state it changes nothing |
| Controller.PrintController.RunPrintArray | OasisII/controller.py:443-472 | the right radio sets side 1; the left radio only sets `print_left_side`; entered start values are taken; an image launches PrintArray; a ready PDF launches PrintPDF and clears the new-file event; otherwise the page-change event is set |
| Controller.PrintController.PrintArray | OasisII/controller.py:552-813 | disconnected, nothing changes; connected, the device log gains exactly PrintEvents for the side's anchor, the buffer ends empty with its counter at 0, the side flips, and direction and start row end as the loop leaves them |
| Controller.PrintController.PrintJob | OasisII/controller.py:565-813 | the connected job: clear, home, every band of JobBands in alternating directions, flip the side, park |
| Controller.PrintController.JobSetup | OasisII/controller.py:602-615 | the job's constants are the geometry of the dpi and of the side `print_right_side` selects: `int(dpi / 2)` rows per sweep, 25.4 / dpi millimetres per pixel, that side's X and Y start |
| Controller.PrintController.RunBands | OasisII/controller.py:619-809 | the sweep loop sends BandEvents of every band of JobBands, with the buffer empty after every band |
| Controller.PrintController.PrintPass | OasisII/controller.py:623-809 | one loop pass extends the log from the first k bands' events to the first k + 1, advances the start row by a sweep, flips the direction, and stops exactly after the last band |
| Controller.PrintController.SweepBounds | OasisII/controller.py:626-630 | the pass reads exactly band k; it is the last pass exactly when band k is the last band; otherwise the next band starts a sweep later |
| Controller.PrintController.RunSweep | OasisII/controller.py:634-800 | one band appends its rendered head commands, then its two moves, to the log, and leaves the buffer empty |
| Controller.PrintController.FillBandBuffer | OasisII/controller.py:683-764 | the buffer gains exactly the band's rendered commands, and the counter equals the buffer length |
| Controller.PrintController.AppendColumnLines | OasisII/controller.py:706-746 | the column walk appends exactly the rendered delta of its columns, keeping the counter equal to the buffer length |
| Controller.PrintController.Queue | OasisII/controller.py:696-697 | an append adds the line at the back and counts it |
| Controller.PrintController.DrainBuffer | OasisII/controller.py:782-795 | the drain writes every buffered line once, front first, and exits with the buffer empty and the counter at 0 |
| PagePipeline.ReverseTwice | OasisII/controller.py:493 | reversing the page list twice gives it back |
| PagePipeline.ReversePop | OasisII/controller.py:493-500 | popping the last page of a list takes the first page of its reversal |
| PagePipeline.Pipeline.constructor | OasisII/controller.py:119-120 | both threads start on the document with an empty ready queue and the finish flag clear, and the invariant holds |
| PagePipeline.Pipeline.Progress | OasisII/controller.py:489-524 | the printed pages are always a prefix of the document; once the printer stops, every page has been printed exactly once, in the original order |
| PagePipeline.Pipeline.RendererStep | OasisII/controller.py:489-505 | the reversal, then each iteration moves the last page of `pdflistpng` to the back of `ready_for_print`, or sets the finish flag and returns when it is empty; the invariant is preserved |
| PagePipeline.Pipeline.PrinterStep | OasisII/controller.py:507-524 | the finish test, the idle test and the front read as written; a front read of an empty queue crashes; the invariant is preserved under any interleaving |
| PagePipeline.Pipeline.TakeFront | OasisII/controller.py:520-523 | the printer takes the front page and removes it, and the page counts as printed |
| PagePipeline.Pipeline.PrinterStepCorrected | OasisII/controller.py:511-524 | with the idle test reading only the queue, the front read always finds a page and the printer never crashes |
| PagePipeline.RaceSchedule | OasisII/controller.py:496-520 | one page and one interleaving in which the printer crashes on the empty queue, leaving the finish flag set, both lists empty and the page printed once |
| PdfConversion.PdfConverter.constructor | OasisII/PDFConverter.py:60-79 | a new converter has dpi 300, type 3, empty path and name, and 0 pages |
| PdfConversion.PdfConverter.OpenFile | OasisII/PDFConverter.py:84-139 | the return codes:<br>- -1: empty path, and type 0.<br>- Every other path is recorded.<br>- 1: missing file; it sets `file_type`, not `type_file`.<br>- 2: extension other than ".pdf" in any case; type 0.<br>- 3: PDF; type 3, base name and page count recorded. |
| PdfConversion.PdfConverter.LoadPdf | OasisII/PDFConverter.py:120-138 | the PDF branch sets type 3, the base name of the path and the reader's page count, and changes no other field |
| PdfConversion.PdfConverter.SetDpi | OasisII/PDFConverter.py:141-153 | `get_dpi` returns exactly the value last passed to `set_dpi` |
| PdfConversion.ExtensionCheckIgnoresCase | OasisII/PDFConverter.py:112-115 | both ".pdf" and ".PDF" names pass the extension check |
| PdfConversion.ExtensionOfPdfName | OasisII/PDFConverter.py:112 | `splitext` of "dir/stem.pdf" gives ".pdf" (and likewise ".PDF") |
| PdfConversion.OpenTestPdf | OasisII/PDFConverter.py:84-139 | opening an existing ten-page "dir/test.pdf" returns 3 and records ten pages and the name "test.pdf" |
| PathNames.LastIndexOf | OasisII/controller.py:342 | `rfind` returns -1 or an index holding the character, with none after it |
| PathNames.LastIndexOfIs | OasisII/controller.py:342 | any index with the character and none after it is what `rfind` returns |
| PathNames.Basename | OasisII/PDFConverter.py:123 | `basename` is the slash-free suffix after the last '/' |
| PathNames.AfterLastIndex | OasisII/PDFConverter.py:123 | nothing after the last '/' is a '/' |
| PathNames.Extension | OasisII/PDFConverter.py:112 | `splitext` gives either nothing or a suffix of the path starting with its only '.' and holding no '/' |
| PathNames.BasenameAfterSlash | OasisII/controller.py:342 | the base name of "dir/name" is `name`, whatever the directory holds |
| PathNames.ExtensionOfName | OasisII/controller.py:342 | "stem.ext" with a stem that is not only dots has extension ".ext" |
| PathNames.ExtensionAfterSlash | OasisII/PDFConverter.py:112 | dots in the directory part never affect the extension |
| PathNames.DotAfterSlash | OasisII/PDFConverter.py:112 | in "dir/name" the last '/' is the separator, and the last '.' is that of `name` when it has one |
| PathNames.StemAfterSlash | OasisII/PDFConverter.py:112 | the stem test on "dir/name" agrees with the stem test on `name` |

## Left out

**Device I/O and concurrency:**
- The busy-waits on `grbl.motion_state` and `StatusIndexChanged` (controller.py:770-771, 803-806)
  are left out. They end only through another thread's serial updates.
- `grbl.StatusIndexSet()` (controller.py:801) only arms the second busy-wait. It is not an event
  in the log.
- `InkjetSetPosition` (controller.py:775) is left out. It reads the motion thread's reported
  position and truncates a float.
- The `time.sleep` delays, the serial poller threads and the `print` output are left out.
- The GUI is left out: widgets, pixmaps, `RenderInput`/`RenderOutput` and the abort dialog. The
  dialog's answer is the `confirmed` parameter.
- The threads' own scheduling is not modelled. Only the effect of each step of the page pipeline
  is modelled, with the statement groups described under "Page threads" run atomically.
- `IronPrintPDF` (controller.py:474-487) only starts the two page threads without joining them,
  then removes the working directory. It is left out; its threads are modelled as step methods.
- `PrintPDF` (controller.py:527-550) is left out. It walks `pdflistpng` in order. For each page
  it clears `change_page`, makes the page the current image and renders it, then calls
  `PrintArray` itself. Between pages it blocks on `change_page`, which the print button sets. At
  the end it sets `start_new_file` and removes the working directory. The per-page `PrintArray`
  call is the modelled job; the event waits, the shared `imageconverter` field and the rendering
  are not modelled.

**The encoders and the device:**
- `B64.B64ToArray` and `B64.B64ToSingle` are not part of this model. They stay abstract
  parameters.
- The GRBL and HP45 device classes are not part of this model. Their calls are events in a ghost
  log.

**Values:**
- Positions are exact reals. Float rounding of `25.4 / dpi` and of the millimetre and micron
  arithmetic is not modelled.
- The park move's speed is the string '20000' in the source. Here it is the number 20000.
- `Controller.PrintController.PrintArray` requires dpi of at least 2, where `sweep_size` is at
  least 1. The source fails or hangs for other values, and none of these cases is modelled.
  Each one happens after the head buffer has been cleared and the gantry homed
  (controller.py:572-574):
  - at dpi 0, `25.4 / dpi` raises ZeroDivisionError (controller.py:606);
  - at dpi -2 or below, `sweep_size = int(dpi / 2)` is negative, and `zeros(self.sweep_size)`
    raises ValueError in the first pass (controller.py:687);
  - at dpi 1 and -1, `sweep_size` is 0, so the start row never advances and the sweep loop never
    ends (controller.py:625-630, 808).
- `Controller.PrintController.RunPrintArray`: the entered start values are given already parsed
  (`Option<real>`). `float()` string parsing and its exceptions are not modelled.

**Paths:**
- `PathNames.Lower` lower-cases ASCII letters only. This is enough for the extension check.
- Paths are POSIX paths. Windows separators are not modelled.

**Files and PDF plumbing:**
- `Controller.PrintController.RecordOpenResponse` models only the bookkeeping at the end of
  `OpenFile`. The file dialog, the image converter's `OpenFile`, the PDF conversion and
  `open_png_pages_pdf` are file I/O and are left out.
- `PdfConversion.PdfConverter.OpenFile` gets two answers as parameters: whether the file exists,
  and the page count that PyPDF2 reports. The working-directory set-up in the constructor,
  `CreatePDFObj`, and the `convert_*`, `split_pdf`, `save_content_*` and `remove_working_dir`
  methods are file I/O or foreign calls, and are left out.

**Structure:**
- `Controller.PrintController.FillBandBuffer` chooses the walk's bounds once, by direction,
  before walking. The source repeats the direction test at each step. The resulting buffer is the
  same.
- The image and dpi are parameters of `PrintArray`, not read from a shared `imageconverter`
  field. Aliasing between that field and the page queue is not modelled.

## Findings

| source | as written | input that shows it | evidently intended | confidence | as-written member | corrected member |
|---|---|---|---|---|---|---|
| OasisII/controller.py:512-520 | the finish test (line 512) and the idle test (line 516) read the queue and the finish flag at different moments. The idle test lets the printer through whenever the flag is set, even with an empty queue. The race is latent: only `IronPrintPDF` (controller.py:474-487) starts these threads, and nothing in controller.py calls it; the print button starts `PrintPDF` through `RunPrintArray` | a one-page document:<br>1. the renderer queues the page;<br>2. the printer prints it and passes the finish test, since the flag is still clear;<br>3. the renderer finds its list empty and sets the flag;<br>4. the idle test passes on the flag, and `self.ready_for_print[0]` reads an empty list (IndexError), leaving the flag set | the printer waits while the queue is empty, and never reads the front of an empty queue | not executed | PagePipeline.RaceSchedule | PagePipeline.Pipeline.PrinterStepCorrected |
