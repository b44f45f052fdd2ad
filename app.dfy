/**
 * The application's top-level state and the two handlers that drive it:
 * processing a batch of uploaded files and sending a chat or canvas request.
 * Each handler is split at its wait: one step up to the asynchronous call,
 * and one that takes the call's settled result as a parameter.
 */
module Application {
  import opened Results
  import opened Types
  import opened JsStrings
  import FileParser
  import Localization

  /** The text direction of the document. */
  datatype Direction = Ltr | Rtl

  /** The document is right to left exactly for the right-to-left language
      codes, Arabic and Urdu. */
  function DirectionOf(lang: Language): (d: Direction)
    ensures d == Rtl <==> IsRtlCode(Code(lang))
  {
    if lang == Ar || lang == Ur then Rtl else Ltr
  }

  /** `Promise.all` over the parses of a batch: every record, in the order of
      the files, or nothing at all as soon as one parse failed. */
  function AllParsed(parsed: seq<Result<FileData, FileParser.ParseError>>): (r: Option<seq<FileData>>)
    ensures r.Some? <==> forall i :: 0 <= i < |parsed| ==> parsed[i].Ok?
    ensures r.Some? ==> |r.value| == |parsed|
    ensures r.Some? ==> forall i :: 0 <= i < |parsed| ==> r.value[i] == parsed[i].value
  {
    if parsed == [] then Some([])
    else
      match parsed[0]
      case Err(_) => None
      case Ok(file) =>
        var rest := AllParsed(parsed[1..]);
        if rest.None? then None else Some([file] + rest.value)
  }

  const UploadFirst := "Please upload files first."
  const ProcessFailed := "Failed to process one or more files. Please try a different file."
  const AiFailed := "An error occurred while communicating with the AI. Please check your API key and try again."
  const CanvasUpdated := "Canvas updated based on your request."

  /** The system message that reports a processed batch of `count` files. */
  function ProcessedMessage(count: nat): string {
    NatToString(count) + " " + ProcessedTail
  }

  const ProcessedTail := "file(s) processed successfully. You can now ask questions about them."

  /** The count can be read back from the message's first word. */
  lemma ProcessedCountReadsBack(count: nat)
    ensures var first := Split(ProcessedMessage(count), ' ')[0];
      (forall i :: 0 <= i < |first| ==> '0' <= first[i] <= '9') && DecimalValue(first) == count
  {
    var digits := NatToString(count);
    assert ProcessedMessage(count) == digits + [' '] + ProcessedTail;
    SplitAround(digits, ProcessedTail, ' ');
    assert ' ' !in digits;
    SplitWithout(digits, ' ');
    DecimalRoundTrip(count);
  }

  /** The canvas line that lists one file: its name in bold, then its type. */
  function FileLine(file: FileData): string {
    "*   **" + file.name + "** (" + file.mimeType + ")"
  }

  function FileLines(files: seq<FileData>): (lines: seq<string>)
    ensures |lines| == |files|
    ensures forall i :: 0 <= i < |files| ==> lines[i] == FileLine(files[i])
  {
    seq(|files|, i requires 0 <= i < |files| => FileLine(files[i]))
  }

  /** The canvas after a processed batch: a heading with the count, one line
      per file, and a closing sentence. */
  function ProcessedCanvas(count: nat, files: seq<FileData>): string {
    "## " + NatToString(count) + " File(s) Processed\n\n" + Join(FileLines(files), "\n")
      + "\n\nReady for your questions."
  }

  /** When no name or type holds a line break, the listing splits back into
      exactly one line per file, in the files' order. */
  lemma FileListingLines(files: seq<FileData>)
    requires |files| > 0
    requires forall i :: 0 <= i < |files| ==> '\n' !in files[i].name && '\n' !in files[i].mimeType
    ensures Split(Join(FileLines(files), "\n"), '\n') == FileLines(files)
  {
    var lines := FileLines(files);
    forall i | 0 <= i < |lines| ensures '\n' !in lines[i] {
      assert lines[i] == "*   **" + files[i].name + "** (" + files[i].mimeType + ")";
    }
    assert "\n" == ['\n'];
    SplitJoin(lines, '\n');
  }

  /** The application's state cells. */
  class App {
    var language: Language
    var fileData: seq<FileData>
    var messages: seq<Message>
    var canvasContent: string
    var isLoading: bool
    var error: Option<string>
    var chatInput: string
    var canvasPreviewContent: Option<string>
    /** The document's `lang` attribute and direction, which the language
        effect keeps in step with `language`. */
    var documentLang: string
    var dir: Direction
    /** The shared current language of the localisation lookup. */
    const localization: Localization.LanguageState

    /** The initial state, after the language effect has run once. */
    constructor (localization: Localization.LanguageState)
      modifies localization
      ensures this.localization == localization
      ensures language == En && fileData == [] && messages == [] && canvasContent == ""
      ensures !isLoading && error == None && chatInput == "" && canvasPreviewContent == None
      ensures documentLang == Code(En) && dir == DirectionOf(En)
      ensures localization.currentLanguage == En
    {
      this.localization := localization;
      language := En;
      fileData := [];
      messages := [];
      canvasContent := "";
      isLoading := false;
      error := None;
      chatInput := "";
      canvasPreviewContent := None;
      documentLang := Code(En);
      dir := DirectionOf(En);
      new;
      localization.SetCurrentLanguage(En);
    }

    /** Choosing a language, followed by the effect that updates the
        document's language and direction and the localisation lookup. */
    method SelectLanguage(lang: Language)
      modifies this, localization
      ensures language == lang && documentLang == Code(lang) && dir == DirectionOf(lang)
      ensures localization.currentLanguage == lang
      ensures fileData == old(fileData) && messages == old(messages) && canvasContent == old(canvasContent)
      ensures isLoading == old(isLoading) && error == old(error)
      ensures chatInput == old(chatInput) && canvasPreviewContent == old(canvasPreviewContent)
    {
      language := lang;
      documentLang := Code(lang);
      dir := if lang == Ar || lang == Ur then Rtl else Ltr;
      localization.SetCurrentLanguage(lang);
    }

    /** Typing in the chat box also shows the text as the canvas preview. */
    method EditInput(value: string)
      modifies this
      ensures chatInput == value && canvasPreviewContent == Some(value)
      ensures language == old(language) && fileData == old(fileData) && messages == old(messages)
      ensures canvasContent == old(canvasContent) && isLoading == old(isLoading) && error == old(error)
      ensures documentLang == old(documentLang) && dir == old(dir)
    {
      chatInput := value;
      canvasPreviewContent := Some(value);
    }

    /** `handleFileProcess` up to its wait for the parses: loading starts and
        the error is cleared. */
    method HandleFileProcess()
      modifies this
      ensures isLoading && error == None
      ensures fileData == old(fileData) && messages == old(messages) && canvasContent == old(canvasContent)
      ensures language == old(language) && chatInput == old(chatInput)
      ensures canvasPreviewContent == old(canvasPreviewContent)
      ensures documentLang == old(documentLang) && dir == old(dir)
    {
      isLoading := true;
      error := None;
    }

    /** The rest of `handleFileProcess`, once every parse has settled: a
        batch that parses completely replaces the files, restarts the
        conversation with one system message and lists the files on the
        canvas; one failed parse leaves all three alone and reports the
        failure. Loading is off afterwards either way. */
    method SettleFileProcess(parsed: seq<Result<FileData, FileParser.ParseError>>)
      modifies this
      ensures !isLoading
      ensures (forall i :: 0 <= i < |parsed| ==> parsed[i].Ok?) ==>
        && |fileData| == |parsed|
        && (forall i :: 0 <= i < |parsed| ==> fileData[i] == parsed[i].value)
        && messages == [Message(System, ProcessedMessage(|parsed|))]
        && canvasContent == ProcessedCanvas(|parsed|, fileData)
        && error == old(error)
      ensures (exists i :: 0 <= i < |parsed| && parsed[i].Err?) ==>
        && fileData == old(fileData) && messages == old(messages) && canvasContent == old(canvasContent)
        && error == Some(ProcessFailed)
      ensures language == old(language) && chatInput == old(chatInput)
      ensures canvasPreviewContent == old(canvasPreviewContent)
      ensures documentLang == old(documentLang) && dir == old(dir)
    {
      var data := AllParsed(parsed);
      if data.Some? {
        fileData := data.value;
        messages := [Message(System, ProcessedMessage(|parsed|))];
        canvasContent := ProcessedCanvas(|parsed|, data.value);
      } else {
        error := Some(ProcessFailed);
      }
      isLoading := false;
    }

    /** `handleSendMessage` up to its wait for the AI. Without files only
        the error changes and nothing is sent. Otherwise the preview is
        hidden, the user's message is appended, loading starts, the error
        and the input are cleared, and the request is sent. */
    method HandleSendMessage(text: string) returns (sent: bool)
      modifies this
      ensures sent <==> old(fileData) != []
      ensures fileData == old(fileData) && language == old(language) && canvasContent == old(canvasContent)
      ensures documentLang == old(documentLang) && dir == old(dir)
      ensures !sent ==>
        && error == Some(UploadFirst)
        && messages == old(messages) && isLoading == old(isLoading)
        && chatInput == old(chatInput) && canvasPreviewContent == old(canvasPreviewContent)
      ensures sent ==>
        && messages == old(messages) + [Message(User, text)]
        && isLoading && error == None && chatInput == "" && canvasPreviewContent == None
    {
      if |fileData| == 0 {
        error := Some(UploadFirst);
        return false;
      }
      canvasPreviewContent := None;
      messages := messages + [Message(User, text)];
      isLoading := true;
      error := None;
      chatInput := "";
      sent := true;
    }

    /** The rest of `handleSendMessage`, once the AI call has settled: the
        reply is appended (a canvas reply replaces the canvas and is
        announced by a system message instead), or the failure message is
        appended and also becomes the error. Loading is off afterwards. */
    method SettleSendMessage(isCanvasQuery: bool, reply: Result<string, string>)
      modifies this
      ensures !isLoading
      ensures fileData == old(fileData) && language == old(language)
      ensures documentLang == old(documentLang) && dir == old(dir)
      ensures chatInput == old(chatInput) && canvasPreviewContent == old(canvasPreviewContent)
      ensures reply.Ok? && isCanvasQuery ==>
        && canvasContent == reply.value
        && messages == old(messages) + [Message(System, CanvasUpdated)]
        && error == old(error)
      ensures reply.Ok? && !isCanvasQuery ==>
        && canvasContent == old(canvasContent)
        && messages == old(messages) + [Message(Ai, reply.value)]
        && error == old(error)
      ensures reply.Err? ==>
        && canvasContent == old(canvasContent)
        && messages == old(messages) + [Message(System, AiFailed)]
        && error == Some(AiFailed)
    {
      match reply {
        case Ok(responseText) =>
          if isCanvasQuery {
            canvasContent := responseText;
            messages := messages + [Message(System, CanvasUpdated)];
          } else {
            messages := messages + [Message(Ai, responseText)];
          }
        case Err(_) =>
          error := Some(AiFailed);
          messages := messages + [Message(System, AiFailed)];
      }
      isLoading := false;
    }
  }
}
