/**
 * Turning an uploaded file into a FileData record: the extension picks how
 * the content is read; PDF pages and spreadsheet sheets are assembled into
 * one text; images keep their base64 payload. What the browser's FileReader,
 * pdf.js, mammoth and the XLSX library produce comes in as `Readers`.
 */
module FileParser {
  import opened Results
  import opened JsStrings
  import opened Types

  /** What the browser knows of an uploaded file before it is read. */
  datatype RawFile = RawFile(name: string, mimeType: string)

  /** A text-content item of a PDF page: a text run, or a marked-content
      marker, which carries no string. */
  datatype PdfItem = TextItem(str: string) | MarkedContent

  /** A worksheet: its name and its contents rendered as CSV. */
  datatype Sheet = Sheet(name: string, csv: string)

  /** What each reader makes of the file, whether or not it is asked for:
      the file as text, as a data URL, the text items of PDF pages 1 to
      numPages, the raw text of a DOCX document, and the sheets of a
      workbook in the workbook's order. */
  datatype Readers = Readers(
    text: Outcome<string>,
    dataUrl: Outcome<string>,
    pdfPages: Outcome<seq<seq<PdfItem>>>,
    docxText: Outcome<string>,
    sheets: Outcome<seq<Sheet>>)

  /** Why a file yields no record: its extension is not supported, or the
      reader for its type failed, or the data URL had no payload field. */
  datatype ParseError = UnsupportedType(extension: string) | ReadFailed | MissingPayload

  /** `name.split('.').pop().toLowerCase()`. */
  function Extension(name: string): string {
    var pieces := Split(name, '.');
    ToLower(pieces[|pieces| - 1])
  }

  /** A name without a dot is its own extension (lower-cased). */
  lemma ExtensionWithoutDot(name: string)
    requires '.' !in name
    ensures Extension(name) == ToLower(name)
  {
    SplitWithout(name, '.');
  }

  /** Otherwise the extension is the lower-cased text after the last dot. */
  lemma ExtensionAfterLastDot(name: string, i: nat)
    requires i < |name| && name[i] == '.' && '.' !in name[i + 1..]
    ensures Extension(name) == ToLower(name[i + 1..])
  {
    assert name == name[..i] + ['.'] + name[i + 1..];
    SplitAround(name[..i], name[i + 1..], '.');
    SplitWithout(name[i + 1..], '.');
  }

  predicate IsImageExtension(extension: string) {
    extension == "png" || extension == "jpg" || extension == "jpeg"
  }

  predicate IsTextExtension(extension: string) {
    extension == "csv" || extension == "json" || extension == "md"
  }

  predicate IsSupportedExtension(extension: string) {
    extension == "pdf" || extension == "docx" || extension == "xlsx"
    || IsTextExtension(extension) || IsImageExtension(extension)
  }

  /** The string of a PDF text item; a marker contributes the empty string. */
  function ItemText(item: PdfItem): string {
    match item
    case TextItem(s) => s
    case MarkedContent => ""
  }

  /** The text of one page: its items' strings joined by single spaces. */
  function PageText(items: seq<PdfItem>): string {
    Join(seq(|items|, i requires 0 <= i < |items| => ItemText(items[i])), " ")
  }

  /** The text of a document: its pages' texts, in page order, with nothing
      between them. */
  function PdfContent(pages: seq<seq<PdfItem>>): string {
    Flatten(PageTexts(pages))
  }

  function PageTexts(pages: seq<seq<PdfItem>>): (texts: seq<string>)
    ensures |texts| == |pages|
    ensures forall i :: 0 <= i < |pages| ==> texts[i] == PageText(pages[i])
  {
    seq(|pages|, i requires 0 <= i < |pages| => PageText(pages[i]))
  }

  /** The loop over pages 1 to numPages. */
  method ExtractPdfText(pages: seq<seq<PdfItem>>) returns (pdfText: string)
    ensures pdfText == PdfContent(pages)
  {
    pdfText := "";
    var numPages := |pages|;
    ghost var texts := PageTexts(pages);
    for i := 1 to numPages + 1
      invariant pdfText == Flatten(texts[..i - 1])
    {
      var items := pages[i - 1];
      FlattenPrefix(texts, i - 1);
      pdfText := pdfText + Join(seq(|items|, k requires 0 <= k < |items| => ItemText(items[k])), " ");
    }
    assert texts[..numPages] == texts;
  }

  /** Pages are concatenated in order: the text of two runs of pages is the
      text of the first followed by that of the second. */
  lemma PdfContentAppend(a: seq<seq<PdfItem>>, b: seq<seq<PdfItem>>)
    ensures PdfContent(a + b) == PdfContent(a) + PdfContent(b)
  {
    var l, r := PageTexts(a), PageTexts(b);
    forall i | 0 <= i < |a| + |b| ensures PageTexts(a + b)[i] == (l + r)[i] {
      if i < |a| {
        assert (a + b)[i] == a[i];
      } else {
        assert (a + b)[i] == b[i - |a|];
      }
    }
    assert PageTexts(a + b) == l + r;
    FlattenAppend(l, r);
  }

  /** A page whose items are all text runs without spaces can be cut back
      into its runs at the spaces: the join puts exactly one space between
      neighbouring items. */
  lemma PageWords(items: seq<PdfItem>)
    requires |items| > 0
    requires forall i :: 0 <= i < |items| ==> items[i].TextItem? && ' ' !in items[i].str
    ensures var words := Split(PageText(items), ' ');
      |words| == |items| && forall i :: 0 <= i < |items| ==> words[i] == items[i].str
  {
    var strs := seq(|items|, i requires 0 <= i < |items| => ItemText(items[i]));
    SplitJoin(strs, ' ');
  }

  /** The text one worksheet contributes. */
  function SheetText(sheet: Sheet): string {
    "Sheet: " + sheet.name + "\n" + sheet.csv + "\n\n"
  }

  /** The text of a workbook: its sheets' texts in workbook order. */
  function XlsxContent(sheets: seq<Sheet>): string {
    Flatten(SheetTexts(sheets))
  }

  function SheetTexts(sheets: seq<Sheet>): (texts: seq<string>)
    ensures |texts| == |sheets|
    ensures forall i :: 0 <= i < |sheets| ==> texts[i] == SheetText(sheets[i])
  {
    seq(|sheets|, i requires 0 <= i < |sheets| => SheetText(sheets[i]))
  }

  /** The loop over the workbook's sheet names. */
  method ExtractXlsxText(sheets: seq<Sheet>) returns (xlsxContent: string)
    ensures xlsxContent == XlsxContent(sheets)
  {
    xlsxContent := "";
    ghost var texts := SheetTexts(sheets);
    for i := 0 to |sheets|
      invariant xlsxContent == Flatten(texts[..i])
    {
      var sheet := sheets[i];
      FlattenPrefix(texts, i);
      xlsxContent := xlsxContent + "Sheet: " + sheet.name + "\n";
      xlsxContent := xlsxContent + sheet.csv + "\n\n";
    }
    assert texts[..|sheets|] == texts;
  }

  /** Sheets are concatenated in order. */
  lemma XlsxContentAppend(a: seq<Sheet>, b: seq<Sheet>)
    ensures XlsxContent(a + b) == XlsxContent(a) + XlsxContent(b)
  {
    var l, r := SheetTexts(a), SheetTexts(b);
    forall i | 0 <= i < |a| + |b| ensures SheetTexts(a + b)[i] == (l + r)[i] {
      if i < |a| {
        assert (a + b)[i] == a[i];
      } else {
        assert (a + b)[i] == b[i - |a|];
      }
    }
    assert SheetTexts(a + b) == l + r;
    FlattenAppend(l, r);
  }

  /** Each sheet's text opens with its `Sheet: name` line and ends with a
      blank line, so sheet texts never run into each other. */
  lemma SheetFraming(a: seq<Sheet>, s: Sheet)
    ensures XlsxContent(a + [s]) == XlsxContent(a) + "Sheet: " + s.name + "\n" + s.csv + "\n\n"
  {
    XlsxContentAppend(a, [s]);
    assert SheetTexts([s]) == [SheetText(s)];
    assert Flatten([SheetText(s)]) == Flatten<char>([]) + SheetText(s) by {
      assert [SheetText(s)][..0] == [];
    }
  }

  /** `dataUrl.split(',')[1]`: the second comma-separated field, which is
      missing when the URL has no comma. */
  function Base64Field(dataUrl: string): Option<string> {
    var fields := Split(dataUrl, ',');
    if |fields| >= 2 then Some(fields[1]) else None
  }

  /** For a data URL `header,payload` the field is the payload. */
  lemma Base64OfDataUrl(header: string, payload: string)
    requires ',' !in header && ',' !in payload
    ensures Base64Field(header + "," + payload) == Some(payload)
  {
    assert header + "," + payload == header + [','] + payload;
    SplitAround(header, payload, ',');
    SplitWithout(header, ',');
    SplitWithout(payload, ',');
  }

  /** `parseFile`: dispatch on the extension, read the content the way the
      type demands, and copy the file's name and MIME type into the record. */
  method ParseFile(file: RawFile, readers: Readers) returns (r: Result<FileData, ParseError>)
    ensures var ext := Extension(file.name);
      && (r == Err(UnsupportedType(ext)) <==> !IsSupportedExtension(ext))
      && (r.Ok? ==> r.value.name == file.name && r.value.mimeType == file.mimeType)
      && (r.Ok? ==> (r.value.isImage <==> IsImageExtension(ext)))
      && (ext == "pdf" ==>
            && (r.Ok? <==> readers.pdfPages.Success?)
            && (r.Ok? ==> r.value.content == PdfContent(readers.pdfPages.value)))
      && (ext == "docx" ==>
            && (r.Ok? <==> readers.docxText.Success?)
            && (r.Ok? ==> r.value.content == readers.docxText.value))
      && (ext == "xlsx" ==>
            && (r.Ok? <==> readers.sheets.Success?)
            && (r.Ok? ==> r.value.content == XlsxContent(readers.sheets.value)))
      && (IsTextExtension(ext) ==>
            && (r.Ok? <==> readers.text.Success?)
            && (r.Ok? ==> r.value.content == readers.text.value))
      && (IsImageExtension(ext) ==>
            && (r.Ok? <==> readers.dataUrl.Success? && Base64Field(readers.dataUrl.value).Some?)
            && (r.Ok? ==> r.value.content == Base64Field(readers.dataUrl.value).value))
  {
    var extension := Extension(file.name);
    var content := "";
    var isImage := false;
    if extension == "pdf" {
      if readers.pdfPages.Failure? {
        return Err(ReadFailed);
      }
      content := ExtractPdfText(readers.pdfPages.value);
    } else if extension == "docx" {
      if readers.docxText.Failure? {
        return Err(ReadFailed);
      }
      content := readers.docxText.value;
    } else if extension == "xlsx" {
      if readers.sheets.Failure? {
        return Err(ReadFailed);
      }
      content := ExtractXlsxText(readers.sheets.value);
    } else if extension == "csv" || extension == "json" || extension == "md" {
      if readers.text.Failure? {
        return Err(ReadFailed);
      }
      content := readers.text.value;
    } else if extension == "png" || extension == "jpg" || extension == "jpeg" {
      if readers.dataUrl.Failure? {
        return Err(ReadFailed);
      }
      var payload := Base64Field(readers.dataUrl.value);
      if payload.None? {
        return Err(MissingPayload);
      }
      content := payload.value;
      isImage := true;
    } else {
      return Err(UnsupportedType(extension));
    }
    r := Ok(FileData(file.name, file.mimeType, content, isImage));
  }
}
