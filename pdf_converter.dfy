/** The PDF converter's file-opening state machine: `open_file` classifies a path by return code
    and records what it learned in the converter's fields. */
module PdfConversion {
  import opened Wrappers
  import opened PathNames

  /** The converter's observable state. The filesystem and the PDF reader are not part of it:
      `open_file` is given their answers as parameters. */
  class PdfConverter {
    var dpi: int
    /** 0 for nothing, 1 for bitmap, 2 for vector, 3 for pdf. */
    var typeFile: int
    var filePath: string
    var fileName: string
    var numberOfPages: nat
    /** `file_type`: set only on the missing-file path (a different attribute from `type_file`). */
    var fileType: Option<int>
    /** `type_path`: set only on the wrong-extension path. */
    var typePath: Option<string>

    /** Construction defaults: 300 dpi and type 3. */
    constructor ()
      ensures dpi == 300 && typeFile == 3
      ensures filePath == "" && fileName == "" && numberOfPages == 0
      ensures fileType == None && typePath == None
    {
      dpi := 300;
      typeFile := 3;
      filePath := "";
      fileName := "";
      numberOfPages := 0;
      fileType := None;
      typePath := None;
    }

    /** `open_file(path)`. `isFile` is the answer of `os.path.exists(path) and
        os.path.isfile(path)`; `pageCount` is the page count the PDF reader reports. Returns -1
        for an empty path, 1 for a missing file, 2 for an extension other than ".pdf" in any
        letter case, and 3 once a PDF has been opened. */
    method OpenFile(path: string, isFile: bool, pageCount: nat) returns (code: int)
      modifies this`typeFile, this`filePath, this`fileType, this`typePath, this`fileName, this`numberOfPages
      ensures dpi == old(dpi)
      ensures path == [] ==>
        code == -1 && typeFile == 0 && filePath == old(filePath) && fileName == old(fileName) &&
        numberOfPages == old(numberOfPages) && fileType == old(fileType) && typePath == old(typePath)
      ensures path != [] ==> filePath == path
      ensures path != [] && !isFile ==>
        code == 1 && fileType == Some(0) && typeFile == old(typeFile) && fileName == old(fileName) &&
        numberOfPages == old(numberOfPages) && typePath == old(typePath)
      ensures path != [] && isFile && !PdfExtension(path) ==>
        code == 2 && typeFile == 0 && typePath == Some("") && fileName == old(fileName) &&
        numberOfPages == old(numberOfPages) && fileType == old(fileType)
      ensures path != [] && isFile && PdfExtension(path) ==>
        code == 3 && typeFile == 3 && fileName == Basename(path) && numberOfPages == pageCount &&
        fileType == old(fileType) && typePath == old(typePath)
    {
      if |path| == 0 {
        typeFile := 0;
        return -1;
      }
      filePath := path;
      if !isFile {
        fileType := Some(0);
        return 1;
      }
      if !PdfExtension(path) {
        typeFile := 0;
        typePath := Some("");
        return 2;
      }
      LoadPdf(path, pageCount);
      return 3;
    }

    /** The PDF branch of `open_file`, with `CreatePDFObj`: type 3, the base name of the path,
        and the page count the PDF reader reports. */
    method LoadPdf(path: string, pageCount: nat)
      modifies this`typeFile, this`fileName, this`numberOfPages
      ensures typeFile == 3 && fileName == Basename(path) && numberOfPages == pageCount
    {
      typeFile := 3;
      fileName := Basename(path);
      numberOfPages := pageCount;
    }

    method SetDpi(d: int)
      modifies this`dpi
      ensures GetDpi() == d
    {
      dpi := d;
    }

    function GetDpi(): int
      reads this
    {
      dpi
    }
  }

  /** The extension `splitext` finds, lower-cased, is ".pdf". */
  predicate PdfExtension(path: string) {
    Lower(Extension(path)) == ".pdf"
  }

  /** A PDF name with an upper-case extension is still opened: the extension check lower-cases it. */
  lemma ExtensionCheckIgnoresCase(dir: string, stem: string)
    requires '/' !in stem && exists i :: 0 <= i < |stem| && stem[i] != '.'
    ensures PdfExtension(dir + "/" + stem + ".pdf")
    ensures PdfExtension(dir + "/" + stem + ".PDF")
  {
    ExtensionOfPdfName(dir, stem, ".pdf");
    ExtensionOfPdfName(dir, stem, ".PDF");
    LowerPdf();
  }

  /** Both spellings of the extension lower-case to ".pdf". */
  lemma LowerPdf()
    ensures Lower(".pdf") == ".pdf" && Lower(".PDF") == ".pdf"
  {
    var lo, up := Lower(".pdf"), Lower(".PDF");
    assert |lo| == 4 && lo[0] == '.' && lo[1] == 'p' && lo[2] == 'd' && lo[3] == 'f';
    assert |up| == 4 && up[0] == '.' && up[1] == 'p' && up[2] == 'd' && up[3] == 'f';
  }

  lemma ExtensionOfPdfName(dir: string, stem: string, ext: string)
    requires '/' !in stem && exists i :: 0 <= i < |stem| && stem[i] != '.'
    requires ext == ".pdf" || ext == ".PDF"
    ensures Extension(dir + "/" + stem + ext) == ext
  {
    assert dir + "/" + stem + ext == dir + "/" + (stem + ext);
    assert '/' !in stem + ext;
    ExtensionAfterSlash(dir, stem + ext);
    ExtensionOfName(stem, ext);
  }

  /** A freshly built converter opening an existing PDF at "dir/test.pdf" (a ten-page file)
      answers 3 and records ten pages. */
  method OpenTestPdf(dir: string) returns (result: int, pages: nat, name: string)
    ensures result == 3 && pages == 10 && name == "test.pdf"
  {
    var converter := new PdfConverter();
    var path := dir + "/" + "test" + ".pdf";
    assert "test"[0] != '.';
    ExtensionCheckIgnoresCase(dir, "test");
    assert "test" + ".pdf" == "test.pdf";
    assert path == dir + "/" + "test.pdf";
    BasenameAfterSlash(dir, "test.pdf");
    result := converter.OpenFile(path, true, 10);
    pages := converter.numberOfPages;
    name := converter.fileName;
  }
}
