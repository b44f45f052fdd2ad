/**
 * What the application sends to the generative-AI service and how it reports
 * failures: the language instruction, the chat prompt for a document, the
 * two-part request for an image, the canvas request with its system
 * instruction, and the fixed messages that replace any failure. The service
 * itself is a function from request to outcome, given as a parameter.
 */
module GeminiService {
  import opened Results
  import opened Types

  const Model := "gemini-2.5-flash"

  /** The sentence that asks for an answer in the user's language; anything
      but Arabic or Urdu gets the English one. */
  function LanguageInstruction(lang: Language): string {
    match lang
    case Ar => "Please respond in Arabic."
    case Ur => "Please respond in Urdu."
    case _ => "Please respond in English."
  }

  /** Every language gets its own instruction. */
  lemma InstructionsDiffer(a: Language, b: Language)
    ensures LanguageInstruction(a) == LanguageInstruction(b) <==> a == b
  {
  }

  predicate EndsWith(s: string, suffix: string) {
    |suffix| <= |s| && s[|s| - |suffix|..] == suffix
  }

  /** A string built as head + middle + tail starts with head + middle and
      ends with tail. */
  lemma {:induction false} Framed(head: string, middle: string, tail: string)
    ensures var s := head + middle + tail;
      head + middle <= s && EndsWith(s, tail)
  {
    var s := head + middle + tail;
    assert s[..|head| + |middle|] == head + middle;
    assert s[|s| - |tail|..] == tail;
  }

  /** `"${query}"`. */
  function Quoted(query: string): string {
    "\"" + query + "\""
  }

  const ImageContext := "The user has uploaded an image."

  /** What the prompt says about the file: a fixed sentence for an image, the
      file's title and full text for a document. */
  function FileContext(file: FileData): string {
    if file.isImage then ImageContext
    else DocumentTitle(file.name) + file.content
  }

  /** The line that introduces a document's text. */
  function DocumentTitle(name: string): string {
    "Here is the content of the uploaded document titled \"" + name + "\":\n\n"
  }

  /** What follows the file context in a chat prompt. */
  function QueryLine(query: string): string {
    "\n\nBased on this, please answer the following user query: " + Quoted(query)
  }

  /** The chat prompt: language instruction first, the quoted query last. */
  function BuildPrompt(file: FileData, query: string, lang: Language): (prompt: string)
    ensures LanguageInstruction(lang) + "\n\n" <= prompt
    ensures EndsWith(prompt, Quoted(query))
  {
    var head := LanguageInstruction(lang) + "\n\n";
    Framed(head, FileContext(file), QueryLine(query));
    Framed("", "\n\nBased on this, please answer the following user query: ", Quoted(query));
    head + FileContext(file) + QueryLine(query)
  }

  /** For an image the prompt does not depend on the file's content, name or
      type. */
  lemma ImagePromptOmitsContent(a: FileData, b: FileData, query: string, lang: Language)
    requires a.isImage && b.isImage
    ensures BuildPrompt(a, query, lang) == BuildPrompt(b, query, lang)
  {
  }

  /** For a document the prompt names the file in quotes and then carries its
      text verbatim. */
  lemma DocumentPromptEmbedsContent(file: FileData, query: string, lang: Language)
    requires !file.isImage
    ensures LanguageInstruction(lang) + "\n\n" + DocumentTitle(file.name) + file.content
            <= BuildPrompt(file, query, lang)
  {
    var head := LanguageInstruction(lang) + "\n\n";
    Framed(head, DocumentTitle(file.name) + file.content, QueryLine(query));
    assert head + (DocumentTitle(file.name) + file.content) == head + DocumentTitle(file.name) + file.content;
  }

  /** A part of a multi-part request: inline binary data, or text. */
  datatype Part = InlineData(mimeType: string, data: string) | TextPart(text: string)

  /** The contents of a chat request: several parts, or one prompt. */
  datatype Contents = Parts(parts: seq<Part>) | Prompt(text: string)

  datatype ChatRequest = ChatRequest(model: string, contents: Contents)

  /** The chat request for one file: for an image, the image itself then a
      short text part with the query; for a document, the built prompt. */
  function ChatRequestFor(file: FileData, query: string, lang: Language): (req: ChatRequest)
    ensures req.model == Model
    ensures file.isImage ==>
      && req.contents.Parts?
      && |req.contents.parts| == 2
      && req.contents.parts[0] == InlineData(file.mimeType, file.content)
      && req.contents.parts[1].TextPart?
      && LanguageInstruction(lang) <= req.contents.parts[1].text
      && EndsWith(req.contents.parts[1].text, Quoted(query))
    ensures !file.isImage ==> req.contents == Prompt(BuildPrompt(file, query, lang))
  {
    if file.isImage then
      var imagePart := InlineData(file.mimeType, file.content);
      var textPart := TextPart(LanguageInstruction(lang) + "\n\nUser query about the image: " + Quoted(query));
      ChatRequest(Model, Parts([imagePart, textPart]))
    else
      ChatRequest(Model, Prompt(BuildPrompt(file, query, lang)))
  }

  /** The message that replaces any chat failure. */
  const ChatFailure := "Failed to get response from AI model."

  /** The message that replaces any canvas failure. */
  const CanvasFailure := "Failed to get structured response from AI model."

  /** `getAiResponse`: the service's text for the request, or the fixed chat
      failure message whatever went wrong. */
  function GetAiResponse(file: FileData, query: string, lang: Language,
                         service: ChatRequest -> Outcome<string>): (r: Result<string, string>)
    ensures r.Ok? <==> service(ChatRequestFor(file, query, lang)).Success?
    ensures r.Ok? ==> r.value == service(ChatRequestFor(file, query, lang)).value
    ensures r.Err? ==> r.error == ChatFailure
  {
    match service(ChatRequestFor(file, query, lang))
    case Success(text) => Ok(text)
    case Failure => Err(ChatFailure)
  }

  const CanvasPreamble := "You are a data analysis assistant. Your task is to process the user's request based on the provided document content and generate a response formatted exclusively in Markdown. Do not include any conversational text, greetings, or explanations outside of the Markdown structure. If the user asks for a table, provide only the Markdown table. If they ask for a summary, provide a well-structured summary in Markdown. "

  const FenceOpen := "Document Content:\n```\n"

  datatype CanvasRequest = CanvasRequest(model: string, contents: string, systemInstruction: string)

  /** The canvas request: the Markdown-only system instruction ending with
      the language instruction, and the file's content in a code fence
      followed by the quoted request, for images and documents alike. */
  function CanvasRequestFor(file: FileData, query: string, lang: Language): (req: CanvasRequest)
    ensures req.model == Model
    ensures EndsWith(req.systemInstruction, LanguageInstruction(lang))
    ensures FenceOpen + file.content <= req.contents
    ensures EndsWith(req.contents, "\n```\n\nUser Request: " + Quoted(query))
  {
    var systemInstruction := CanvasPreamble + LanguageInstruction(lang);
    var fenceClose := "\n```\n\nUser Request: " + Quoted(query);
    var userPrompt := FenceOpen + file.content + fenceClose;
    Framed(FenceOpen, file.content, fenceClose);
    Framed("", CanvasPreamble, LanguageInstruction(lang));
    CanvasRequest(Model, userPrompt, systemInstruction)
  }

  /** The canvas request ignores whether the file is an image. */
  lemma CanvasIgnoresImageFlag(file: FileData, query: string, lang: Language)
    ensures CanvasRequestFor(file.(isImage := true), query, lang)
         == CanvasRequestFor(file.(isImage := false), query, lang)
  {
  }

  /** `getAiCanvasResponse`: the service's text for the canvas request, or
      the fixed canvas failure message. */
  function GetAiCanvasResponse(file: FileData, query: string, lang: Language,
                               service: CanvasRequest -> Outcome<string>): (r: Result<string, string>)
    ensures r.Ok? <==> service(CanvasRequestFor(file, query, lang)).Success?
    ensures r.Ok? ==> r.value == service(CanvasRequestFor(file, query, lang)).value
    ensures r.Err? ==> r.error == CanvasFailure
  {
    match service(CanvasRequestFor(file, query, lang))
    case Success(text) => Ok(text)
    case Failure => Err(CanvasFailure)
  }

  /** The two entry points fail with different messages. */
  lemma FailureMessagesDiffer()
    ensures ChatFailure != CanvasFailure
  {
  }
}
