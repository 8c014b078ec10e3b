/** The two threads of the page-by-page PDF print started by `IronPrintPDF`: the renderer moves
    pages from `pdflistpng` to `ready_for_print`, and the printer takes them from the front of
    `ready_for_print` and prints them. Each thread is a step method that runs one statement group
    atomically, so any interleaving of the two step methods is a possible run. */
module PagePipeline {
  import opened Wrappers

  /** `s[::-1]`. */
  function Reverse<T>(s: seq<T>): seq<T> {
    seq(|s|, i requires 0 <= i < |s| => s[|s| - 1 - i])
  }

  /** Reversing twice gives the list back. */
  lemma ReverseTwice<T>(s: seq<T>)
    ensures Reverse(Reverse(s)) == s
  {
    var r := Reverse(Reverse(s));
    forall i | 0 <= i < |s| ensures r[i] == s[i] {
      assert Reverse(s)[|s| - 1 - i] == s[i];
    }
  }

  /** Popping the last element of a list takes the first element of its reversal. */
  lemma ReversePop<T>(s: seq<T>)
    requires s != []
    ensures Reverse(s) == [s[|s| - 1]] + Reverse(s[..|s| - 1])
  {
    var l, r := Reverse(s), [s[|s| - 1]] + Reverse(s[..|s| - 1]);
    forall i | 0 <= i < |s| ensures l[i] == r[i] {
      if i > 0 {
        assert r[i] == Reverse(s[..|s| - 1])[i - 1];
      }
    }
  }

  /** Where the renderer is: before its reversal, inside its loop, or returned. */
  datatype RendererPc = NotStarted | Rendering | Returned

  /** Where the printer is: at the finish test, at the idle test, about to take the front page,
      returned, or stopped by an exception. */
  datatype PrinterPc = CheckFinished | CheckIdle | Take | Finished | Crashed

  class Pipeline<Page> {
    var pdfListPng: seq<Page>
    var readyForPrint: seq<Page>
    var flagFinishPages: bool
    var renderer: RendererPc
    var printer: PrinterPc
    /** The pages of the document in their original order. */
    ghost var pages: seq<Page>
    /** The pages handed to PrintArray so far. */
    ghost var printed: seq<Page>

    /** No page is lost or duplicated: the printed pages, the queue and what is left to render
        (read back in pop order) always spell the document. */
    ghost predicate Valid()
      reads this
    {
      (renderer == NotStarted ==>
         pdfListPng == pages && readyForPrint == [] && printed == [] && !flagFinishPages) &&
      (renderer == Rendering ==>
         printed + readyForPrint + Reverse(pdfListPng) == pages && !flagFinishPages) &&
      (renderer == Returned ==> pdfListPng == [] && printed + readyForPrint == pages) &&
      (flagFinishPages ==> renderer == Returned) &&
      (renderer == Returned && !flagFinishPages ==> printer == Finished) &&
      (printer == Take ==> readyForPrint != [] || flagFinishPages) &&
      (printer == Finished ==> renderer == Returned && readyForPrint == [] && !flagFinishPages) &&
      (printer == Crashed ==> renderer == Returned && readyForPrint == [] && flagFinishPages)
    }

    /** The printer never reaches the front-page read with an empty queue. */
    predicate TakeSafe()
      reads this
    {
      printer == Take ==> readyForPrint != []
    }

    /** Both threads about to start on the pages of one document, with the finish flag clear. */
    constructor (doc: seq<Page>)
      ensures Valid() && TakeSafe()
      ensures pdfListPng == doc && readyForPrint == [] && !flagFinishPages
      ensures renderer == NotStarted && printer == CheckFinished
      ensures pages == doc && printed == []
    {
      pdfListPng := doc;
      readyForPrint := [];
      flagFinishPages := false;
      renderer := NotStarted;
      printer := CheckFinished;
      pages := doc;
      printed := [];
    }

    /** Pages printed so far are a prefix of the document, and once the printer has returned or
        crashed every page has been printed exactly once, in the original order. */
    lemma Progress()
      requires Valid()
      ensures printed <= pages
      ensures printer == Finished || printer == Crashed ==> printed == pages
    {
      if renderer == Rendering {
        assert pages == printed + (readyForPrint + Reverse(pdfListPng));
      } else if renderer == Returned {
        assert pages == printed + readyForPrint;
      }
    }

    /** One step of `thread_renderizer`: the reversal, then per iteration either the finish (flag
        set, return) or moving the last page of `pdflistpng` to the back of `ready_for_print`. */
    method RendererStep()
      modifies this
      ensures old(renderer) == NotStarted ==>
        renderer == Rendering && pdfListPng == Reverse(old(pdfListPng)) &&
        readyForPrint == old(readyForPrint) && flagFinishPages == old(flagFinishPages)
      ensures old(renderer) == Rendering && old(pdfListPng) == [] ==>
        renderer == Returned && flagFinishPages &&
        pdfListPng == [] && readyForPrint == old(readyForPrint)
      ensures old(renderer) == Rendering && old(pdfListPng) != [] ==>
        renderer == Rendering && flagFinishPages == old(flagFinishPages) &&
        pdfListPng == old(pdfListPng)[..|old(pdfListPng)| - 1] &&
        readyForPrint == old(readyForPrint) + [old(pdfListPng)[|old(pdfListPng)| - 1]]
      ensures old(renderer) == Returned ==>
        renderer == Returned && pdfListPng == old(pdfListPng) &&
        readyForPrint == old(readyForPrint) && flagFinishPages == old(flagFinishPages)
      ensures printer == old(printer) && pages == old(pages) && printed == old(printed)
      ensures old(Valid()) ==> Valid()
      ensures old(TakeSafe()) ==> TakeSafe()
    {
      match renderer
      case NotStarted =>
        if Valid() {
          ReverseTwice(pdfListPng);
        }
        pdfListPng := Reverse(pdfListPng);
        renderer := Rendering;
      case Rendering =>
        if |pdfListPng| == 0 {
          flagFinishPages := true;
          renderer := Returned;
        } else {
          var page := pdfListPng[|pdfListPng| - 1];
          ReversePop(pdfListPng);
          pdfListPng := pdfListPng[..|pdfListPng| - 1];
          readyForPrint := readyForPrint + [page];
        }
      case Returned =>
    }

    /** One step of `thread_printer` as written. The finish test and the idle test read the queue
        and the flag separately, so the renderer may set the flag between them; the printer then
        reads the front of an empty queue, which raises an exception (`Crashed`). */
    method PrinterStep() returns (taken: Option<Page>)
      modifies this
      ensures old(printer) == CheckFinished ==>
        taken == None && readyForPrint == old(readyForPrint) &&
        if old(flagFinishPages) && old(readyForPrint) == [] then printer == Finished && !flagFinishPages
        else printer == CheckIdle && flagFinishPages == old(flagFinishPages)
      ensures old(printer) == CheckIdle ==>
        taken == None && readyForPrint == old(readyForPrint) && flagFinishPages == old(flagFinishPages) &&
        printer == (if old(readyForPrint) == [] && !old(flagFinishPages) then CheckFinished else Take)
      ensures old(printer) == Take && old(readyForPrint) == [] ==>
        taken == None && printer == Crashed &&
        readyForPrint == [] && flagFinishPages == old(flagFinishPages)
      ensures old(printer) == Take && old(readyForPrint) != [] ==>
        taken == Some(old(readyForPrint)[0]) && printer == CheckFinished &&
        readyForPrint == old(readyForPrint)[1..] && flagFinishPages == old(flagFinishPages)
      ensures old(printer) == Finished || old(printer) == Crashed ==>
        taken == None && printer == old(printer) &&
        readyForPrint == old(readyForPrint) && flagFinishPages == old(flagFinishPages)
      ensures taken.Some? ==> printed == old(printed) + [taken.value]
      ensures taken.None? ==> printed == old(printed)
      ensures renderer == old(renderer) && pdfListPng == old(pdfListPng) && pages == old(pages)
      ensures old(Valid()) ==> Valid()
    {
      taken := None;
      match printer
      case CheckFinished =>
        if flagFinishPages && |readyForPrint| == 0 {
          flagFinishPages := false;
          printer := Finished;
        } else {
          printer := CheckIdle;
        }
      case CheckIdle =>
        if |readyForPrint| == 0 && !flagFinishPages {
          printer := CheckFinished;
        } else {
          printer := Take;
        }
      case Take =>
        if |readyForPrint| == 0 {
          printer := Crashed;
        } else {
          var page := TakeFront();
          taken := Some(page);
        }
      case Finished =>
      case Crashed =>
    }

    /** `self.imageconverter = self.ready_for_print[0]; del self.ready_for_print[0]`, then the
        page goes to PrintArray. */
    method TakeFront() returns (page: Page)
      requires readyForPrint != []
      modifies this`readyForPrint, this`printed, this`printer
      ensures readyForPrint == old(readyForPrint)[1..] && printer == CheckFinished
      ensures page == old(readyForPrint)[0] && printed == old(printed) + [page]
      ensures old(Valid()) ==> Valid()
    {
      page := readyForPrint[0];
      if Valid() {
        assert printed + readyForPrint == printed + [page] + readyForPrint[1..];
      }
      readyForPrint := readyForPrint[1..];
      printed := printed + [page];
      printer := CheckFinished;
    }

    /** One step of `thread_printer` with the idle test reading only the queue: it waits while
        the queue is empty and takes the front page otherwise, so the front read always finds a
        page and the printer never crashes. */
    method PrinterStepCorrected() returns (taken: Option<Page>)
      requires TakeSafe()
      modifies this
      ensures old(printer) == CheckFinished ==>
        taken == None && readyForPrint == old(readyForPrint) &&
        if old(flagFinishPages) && old(readyForPrint) == [] then printer == Finished && !flagFinishPages
        else printer == CheckIdle && flagFinishPages == old(flagFinishPages)
      ensures old(printer) == CheckIdle ==>
        taken == None && readyForPrint == old(readyForPrint) && flagFinishPages == old(flagFinishPages) &&
        printer == (if old(readyForPrint) == [] then CheckFinished else Take)
      ensures old(printer) == Take ==>
        taken == Some(old(readyForPrint)[0]) && printer == CheckFinished &&
        readyForPrint == old(readyForPrint)[1..] && flagFinishPages == old(flagFinishPages)
      ensures old(printer) == Finished || old(printer) == Crashed ==>
        taken == None && printer == old(printer) &&
        readyForPrint == old(readyForPrint) && flagFinishPages == old(flagFinishPages)
      ensures taken.Some? ==> printed == old(printed) + [taken.value]
      ensures taken.None? ==> printed == old(printed)
      ensures renderer == old(renderer) && pdfListPng == old(pdfListPng) && pages == old(pages)
      ensures TakeSafe()
      ensures printer == Crashed ==> old(printer) == Crashed
      ensures old(Valid()) ==> Valid()
    {
      taken := None;
      match printer
      case CheckFinished =>
        if flagFinishPages && |readyForPrint| == 0 {
          flagFinishPages := false;
          printer := Finished;
        } else {
          printer := CheckIdle;
        }
      case CheckIdle =>
        if |readyForPrint| == 0 {
          printer := CheckFinished;
        } else {
          printer := Take;
        }
      case Take =>
        var page := TakeFront();
        taken := Some(page);
      case Finished =>
      case Crashed =>
    }
  }

  /** A one-page document and the schedule: renderer reverses and queues the page; printer passes
      both tests, takes and prints it, and passes the finish test; the renderer finds its list
      empty and sets the flag; the printer's idle test now passes on the flag alone and the front
      read hits the empty queue. The printer crashes and leaves the flag set, with both lists
      empty and the one page printed. */
  method RaceSchedule() returns (crashed: bool, flagLeftSet: bool, queuesEmpty: bool, ghost printedAll: bool)
    ensures crashed && flagLeftSet && queuesEmpty && printedAll
  {
    var p := new Pipeline<int>([7]);
    p.RendererStep();
    p.RendererStep();
    var t := p.PrinterStep();
    t := p.PrinterStep();
    t := p.PrinterStep();
    t := p.PrinterStep();
    p.RendererStep();
    t := p.PrinterStep();
    t := p.PrinterStep();
    crashed := p.printer == Crashed;
    flagLeftSet := p.flagFinishPages;
    p.Progress();
    queuesEmpty := p.readyForPrint == [] && p.pdfListPng == [];
    printedAll := p.printed == p.pages;
  }
}
