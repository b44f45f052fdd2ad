# Document assistant: a verified model of its core

The application lets a user upload documents and images and ask questions about
them. It also lets the user generate Markdown on a "canvas", export that canvas,
and follow a live, optionally translated transcription of speech. The
interface is in English, Arabic or Urdu.

This project models the logic behind that in Dafny and proves what it promises:

- **File parsing** (`file_parser.dfy`, module `FileParser`):
  - The extension picks the reader, and any other extension is rejected.
  - PDF pages are joined item by item.
  - Each workbook sheet is framed by its name.
  - An image keeps the base64 payload of its data URL.
  - Results from the browser and the PDF, DOCX and spreadsheet libraries come in as `Readers`.
- **DOCX export plan** (`export_service.dfy`, module `ExportService`):
  - The Markdown table parser.
  - The cut at horizontal rules, whose split keeps the rules themselves.
  - Table sections versus text sections, and heading-marker stripping.
  - A document is represented by the list of blocks it would be built from.
- **AI requests** (`gemini_service.dfy`, module `GeminiService`):
  - The language instruction and the chat prompt.
  - The two-part image request and the canvas request.
  - The fixed failure messages.
  - The AI service is a function parameter.
- **Interface strings** (`localization.dfy`, module `Localization`): the string table, the shared current language and the lookup that falls back to the key.
- **Application state** (`app.dfy`, module `Application`, class `App`):
  - Processing an upload batch, all or nothing, and sending a chat or canvas request. Each of these handlers is split at its wait: a start step, then a settling step that takes the settled result, so the loading state can be observed between them.
  - Selecting a language, which sets the document direction.
  - Editing the input.
- **Speech recognition** (`speech.dfy`, module `Speech`):
  - Locales.
  - The fold of a result event into one transcript, as a loop proved against its specification.
  - The listening state machine.
- **Live transcription overlay** (`live_transcription.dfy`, module `LiveTranscription`, class `Overlay`):
  - Start, end and target-change handlers, and the settling of the translation a handler requested.
  - The translation each handler requests.
  - What the overlay renders.

The shared modules are:

- `js_strings.dfy` (`JsStrings`): the JavaScript string built-ins the source relies on, with their laws. These are:
  - `split` on one character;
  - `join`;
  - `slice(1, -1)`;
  - `trim` over the ECMAScript whitespace set;
  - `toLowerCase`;
  - a capturing regular-expression split;
  - decimal rendering.
- `types.dfy` (`Types`): the records passed between parts.
- `results.dfy` (`Results`): `Option`, the settled `Outcome` of a promise, and `Result`.

Where the source's own pieces disagree, the model follows the code:

- App passes its whole list of files to the AI functions, which expect one file (App.tsx:77, App.tsx:82 against services/geminiService.ts:28). The model therefore takes the settled AI call as a parameter of `SettleSendMessage`, and does not tie it to a request built by `GeminiService`.
- `stopListening` sets listening to false itself (hooks/useSpeech.ts:87); it does not wait for the end event.
- Several keys looked up by the overlay are not in the string table (constants.ts:4-83). Examples are `translating`, `translation_language` and `original_language`. The lookup then shows the key itself, and `MissingKeysShowKey` and `Overlay.Render` state this.

## Model

| member | source | states |
|---|---|---|
| JsStrings.Split | services/exportService.ts:11 | splitting on a character gives one piece more than there are occurrences of it, and no piece contains it |
| JsStrings.JoinSplit | services/exportService.ts:11 | joining the pieces of a split with the separator gives back the original string |
| JsStrings.SplitJoin | App.tsx:51 | splitting a join of separator-free pieces gives back exactly those pieces |
| JsStrings.SplitAround | services/fileParserService.ts:41 | splitting around one separator is splitting each side and concatenating the pieces |
| JsStrings.SplitWithout | services/fileParserService.ts:41 | a string without the separator splits into itself alone |
| JsStrings.SliceDropsEnds | services/exportService.ts:15 | `slice(1, -1)` drops the first and last piece, and is empty for fewer than two pieces |
| JsStrings.TrimStart | services/exportService.ts:14 | every removed character is whitespace and the result does not start with whitespace |
| JsStrings.TrimStartSuffix | services/exportService.ts:14 | what is left after trimming the start is a suffix of the input, so only leading characters are removed |
| JsStrings.TrimEnd | services/exportService.ts:14 | every removed character is whitespace and the result does not end with whitespace |
| JsStrings.TrimEndPrefix | services/exportService.ts:14 | what is left after trimming the end is a prefix of the input, so only trailing characters are removed |
| JsStrings.TrimUnchanged | services/exportService.ts:14 | a string with no whitespace at either end is its own trim |
| JsStrings.TrimIdempotent | services/exportService.ts:14 | trimming twice is trimming once |
| JsStrings.ToLower | services/fileParserService.ts:41 | lower-casing keeps the length, leaves no upper-case letter, moves each upper-case letter to its lower-case partner and keeps every other character |
| JsStrings.ToLowerIdempotent | services/fileParserService.ts:41 | lower-casing twice is lower-casing once |
| JsStrings.IndexFrom | services/exportService.ts:45 | the search finds the leftmost match at or after the start, or reports that none exists |
| JsStrings.SplitKeeping | services/exportService.ts:45 | a split by a capturing pattern has an odd number of parts with the separator at every odd position |
| JsStrings.SplitKeepingJoin | services/exportService.ts:45 | concatenating the parts of a capturing split gives back the text |
| JsStrings.SplitKeepingPieces | services/exportService.ts:45 | no text part of a capturing split contains the separator |
| JsStrings.NatToString | App.tsx:48 | a count renders as a non-empty run of decimal digits without a leading zero |
| JsStrings.DecimalRoundTrip | App.tsx:48 | the rendered count reads back as the count |
| ExportService.PipeLines | services/exportService.ts:11 | exactly the lines containing a pipe are kept |
| ExportService.PipeLinesAppend | services/exportService.ts:11 | the filter keeps line order, so it distributes over concatenation |
| ExportService.CellsOfPipeLine | services/exportService.ts:14-16 | a line with n pipes has n - 1 cells, each the trimmed piece between two pipes |
| ExportService.MarkdownTableToArray | services/exportService.ts:10-19 | fewer than two pipe lines give no table; otherwise the header is the first pipe line, the second is skipped and each later one is a row |
| ExportService.RowPieces | services/exportService.ts:15 | splitting a rendered row of pipe-free cells at pipes gives an empty piece, the cells, and an empty piece |
| ExportService.RowRoundTrip | services/exportService.ts:15 | parsing a rendered row of plain cells gives back its cells |
| ExportService.TableRoundTrip | services/exportService.ts:10-19 | parsing a rendered table gives back header and rows, dropping only the separator row |
| ExportService.TableRows | services/exportService.ts:57-62 | document rows keep each row's cells, and only row 0 is a header row |
| ExportService.StripHeadingRemovesMatch | services/exportService.ts:68 | the heading cleanup removes exactly the leftmost greedy match of `#+\s*` |
| ExportService.StripHeadingWithoutHash | services/exportService.ts:68 | a line without `#` is left unchanged |
| ExportService.HeadingMatchExists | services/exportService.ts:68 | every line holding a `#` has such a match |
| ExportService.SectionKinds | services/exportService.ts:48-70 | a section whose trimmed text starts with a pipe yields one table or nothing; any other yields one cleaned paragraph per line |
| ExportService.ExportToDocx | services/exportService.ts:43-72 | the loop over sections builds exactly the block plan of the Markdown |
| ExportService.SectionOrder | services/exportService.ts:47 | blocks follow section order: the plan of two runs of sections is the first's followed by the second's |
| ExportService.RuleParagraphs | services/exportService.ts:45-70 | a kept horizontal rule becomes three paragraphs: empty, `---`, empty |
| ExportService.RuleSections | services/exportService.ts:45 | every separator part of the split turns into those three paragraphs |
| ExportService.RenderedTableExport | services/exportService.ts:43-72 | a Markdown table alone exports as one table whose first row is the header |
| FileParser.ExtensionWithoutDot | services/fileParserService.ts:41 | a name without a dot is its own (lower-cased) extension |
| FileParser.ExtensionAfterLastDot | services/fileParserService.ts:41 | otherwise the extension is the lower-cased text after the last dot |
| FileParser.ExtractPdfText | services/fileParserService.ts:50-56 | the page loop produces the pages' texts concatenated in page order |
| FileParser.PdfContentAppend | services/fileParserService.ts:51-55 | the document text of two runs of pages is the first's followed by the second's |
| FileParser.PageWords | services/fileParserService.ts:54 | a page of space-free text items splits back at spaces into those items |
| FileParser.ExtractXlsxText | services/fileParserService.ts:68-73 | the sheet loop produces the sheets' texts concatenated in workbook order |
| FileParser.XlsxContentAppend | services/fileParserService.ts:69-73 | the workbook text of two runs of sheets is the first's followed by the second's |
| FileParser.SheetFraming | services/fileParserService.ts:70-72 | adding a sheet appends exactly its framed text |
| FileParser.Base64OfDataUrl | services/fileParserService.ts:23 | the payload of a data URL `header,payload` is the part after the comma |
| FileParser.ParseFile | services/fileParserService.ts:40-105 | an unsupported extension fails with that extension; a supported one succeeds exactly when its reader does, with the type's content, the file's name and MIME type, and the image flag set exactly for images |
| Localization.Lookup | hooks/useLocalization.ts:14 | the entry for key and language when present and non-empty, else the key itself |
| Localization.TableComplete | constants.ts:4-83 | every key of the table has a non-empty string in every language |
| Localization.MissingKeysShowKey | constants.ts:4-83 | each key the overlay asks for that the table lacks (`translating`, `translation_language`, `original_language`) is shown, in every language, as the key itself |
| Localization.LanguageState.constructor | hooks/useLocalization.ts:5 | the current language starts as English |
| Localization.LanguageState.SetCurrentLanguage | hooks/useLocalization.ts:7-9 | the setter replaces the current language |
| Localization.LanguageState.T | hooks/useLocalization.ts:14 | a table key reads the current language's entry; any other key reads as itself |
| GeminiService.InstructionsDiffer | services/geminiService.ts:12-18 | each language gets its own response instruction |
| GeminiService.BuildPrompt | services/geminiService.ts:20-26 | the prompt starts with the language instruction and ends with the quoted query |
| GeminiService.ImagePromptOmitsContent | services/geminiService.ts:21-22 | for images the prompt does not depend on the file |
| GeminiService.DocumentPromptEmbedsContent | services/geminiService.ts:23-25 | for documents the prompt names the file in quotes, then carries its content verbatim |
| GeminiService.ChatRequestFor | services/geminiService.ts:30-45 | an image request has two parts, the image (MIME type and data) first and the instruction with the quoted query second; a document request is the built prompt |
| GeminiService.GetAiResponse | services/geminiService.ts:28-50 | the reply is the service's text when it succeeds, the fixed chat failure message otherwise |
| GeminiService.CanvasRequestFor | services/geminiService.ts:54-64 | the system instruction ends with the language instruction; the user prompt fences the content and ends with the quoted request |
| GeminiService.CanvasIgnoresImageFlag | services/geminiService.ts:56 | the canvas request is the same whether or not the file is an image |
| GeminiService.GetAiCanvasResponse | services/geminiService.ts:52-72 | the reply is the service's text when it succeeds, the fixed canvas failure message otherwise |
| GeminiService.FailureMessagesDiffer | services/geminiService.ts:48-70 | the chat and canvas failures are told apart |
| Application.DirectionOf | App.tsx:29 | the document is right to left exactly for the codes `ar` and `ur` |
| Application.AllParsed | App.tsx:44 | a batch yields every record in file order exactly when every parse succeeded |
| Application.ProcessedCountReadsBack | App.tsx:46-50 | the processed message starts with the file count, readable back as that count |
| Application.FileListingLines | App.tsx:51 | the canvas listing splits back into exactly one line per file |
| Application.App.constructor | App.tsx:18-38 | the initial state, and the language effect applied to English |
| Application.App.SelectLanguage | App.tsx:27-38 | the new language sets the document language, the direction and the lookup language, and nothing else |
| Application.App.EditInput | App.tsx:115-118 | typing sets the input and the canvas preview to the text |
| Application.App.HandleFileProcess | App.tsx:40-44 | up to the wait for the parses: loading starts and the error is cleared, nothing else changes |
| Application.App.SettleFileProcess | App.tsx:44-58 | a fully parsed batch replaces the files, resets messages to the one count message and lists the files on the canvas; any failed parse leaves those alone and sets the error; loading ends false |
| Application.App.HandleSendMessage | App.tsx:61-74 | without files only the error changes and nothing is sent; otherwise the preview is hidden, the user message appended, loading started, and error and input cleared |
| Application.App.SettleSendMessage | App.tsx:75-93 | a reply is appended as an AI message, or replaces the canvas and is announced by a system message; a failure appends the failure message and sets it as the error; loading ends false |
| Speech.GetLangCode | hooks/useSpeech.ts:5-12 | each locale is five characters: the language's code, a hyphen and a region |
| Speech.LocaleNamesLanguage | hooks/useSpeech.ts:5-12 | the text before the locale's hyphen is the language's code |
| Speech.LocaleInjective | hooks/useSpeech.ts:5-12 | distinct languages get distinct locales |
| Speech.FoldResults | hooks/useSpeech.ts:50-61 | the loop leaves the final text of the new results, or their interim text when that is empty |
| Speech.PiecesSnoc | hooks/useSpeech.ts:53-58 | one more result extends exactly one of the two texts by its transcript |
| Speech.EarlierResultsIgnored | hooks/useSpeech.ts:53 | results before the result index do not affect the transcript |
| Speech.PiecesAppend | hooks/useSpeech.ts:53-58 | both texts keep result order across concatenation |
| Speech.FinalWins | hooks/useSpeech.ts:60 | once a new final result has text, interim results are not shown |
| Speech.ConfigFor | hooks/useSpeech.ts:45-48 | a recognizer is single-utterance, reports interim results and uses the language's locale |
| Speech.Recognizer.constructor | hooks/useSpeech.ts:34-48 | not listening, empty transcript, and a recognizer only when the browser supports it |
| Speech.Recognizer.ChangeLanguage | hooks/useSpeech.ts:38-74 | a new language installs a recognizer for it, leaving listening and transcript alone |
| Speech.Recognizer.StartListening | hooks/useSpeech.ts:76-82 | a no-op without a recognizer or while listening; otherwise clears the transcript and starts listening |
| Speech.Recognizer.StopListening | hooks/useSpeech.ts:84-89 | a no-op when not listening; otherwise stops listening and keeps the transcript |
| Speech.Recognizer.OnResult | hooks/useSpeech.ts:50-61 | the transcript becomes the event's transcript |
| Speech.Recognizer.OnError | hooks/useSpeech.ts:63-66 | listening stops and the transcript is kept |
| Speech.Recognizer.OnEnd | hooks/useSpeech.ts:68-70 | listening stops and the transcript is kept |
| LiveTranscription.SettledTranslation | components/LiveTranscription.tsx:28-32 | a successful translation is shown as returned; a failed one as `Translation failed.` |
| LiveTranscription.DisplayLang | components/LiveTranscription.tsx:76 | the caption language is the target whenever one is chosen, and the spoken language otherwise |
| LiveTranscription.DisplayDirection | components/LiveTranscription.tsx:76-77 | the caption is right to left exactly for an Arabic or Urdu display language |
| LiveTranscription.CaptionText | components/LiveTranscription.tsx:94 | the translation when non-empty, else the original |
| LiveTranscription.Overlay.constructor | components/LiveTranscription.tsx:10-15 | hidden and empty, English speech, no target, not translating |
| LiveTranscription.Overlay.HandleSpeechStart | components/LiveTranscription.tsx:19-26 | shows the new text and clears the old translation; requests a translation, and starts waiting for it, exactly when the target is set and differs from the spoken language |
| LiveTranscription.Overlay.SettleTranslation | components/LiveTranscription.tsx:28-34 | the settled translation, or `Translation failed.`, becomes the translated text and waiting ends; nothing else changes |
| LiveTranscription.Overlay.HandleSpeechEnd | components/LiveTranscription.tsx:39-43 | hides the overlay and clears both texts |
| LiveTranscription.Overlay.HandleLangChange | components/LiveTranscription.tsx:54-74 | sets the target; requests a translation of the stored original, and starts waiting, exactly when visible with a wanted target, and otherwise clears the translation |
| LiveTranscription.Overlay.Render | components/LiveTranscription.tsx:76-95 | nothing when hidden; else a line in the display language's direction holding the spinner (labelled with its untranslated key) while a translation is awaited, or the caption text |

## Left out

- Rendering-only components (icons, header, language switcher, quick actions), drag and drop in the upload component, the canvas panel's export wiring and the chat panel's handlers: these are markup and DOM calls.
- `exportToPdf`, `exportToPng` and `exportToXlsx`, and the building and saving of the DOCX file: these are library and browser calls. The PDF height scaling is floating point.
- `readFileAsText`, `readFileAsArrayBuffer`, pdf.js, mammoth and the spreadsheet library: their settled results are the `Readers` parameter of `ParseFile`.
- FileParser.ParseFile: a data URL without a comma would give the source an `undefined` content; the model reports `MissingPayload` instead. Browser data URLs always hold a comma.
- FileParser.ParseFile: a reader's rejection is reported as `ReadFailed`, without the library's own error. An unsupported extension is reported as `UnsupportedType(extension)`, not as the text `Unsupported file type: …` of the thrown error, which the application discards.
- JsStrings.ToLower: lower-cases ASCII letters only, whereas JavaScript applies full Unicode case mapping. No supported extension differs under the two mappings.
- Speech.RecognitionResult: only the first alternative's transcript is kept, because that is the only one the handler reads.
- `speak` (speech synthesis) and the logging of unsupported recognition: these are browser output.
- `translateText` and the speech event bus are not part of this model. Translations come in as an `Outcome` parameter, and speech start and end events as method calls.
- Application.App.SettleSendMessage: the AI request is not built from the files, because the source passes the list of files where one file is expected. The settled reply is a parameter.
- Application.App.SettleFileProcess: the parses are given as their settled results. The concurrent fan-out of `Promise.all` and the order in which parses settle are not modelled.
- Which request a settling step answers: each asynchronous handler is a start step and a settling step, and any sequence of calls may interleave them, as in the source. The model does not record which request a settle step answers, so overlapping requests are not matched to their replies.
- Message time stamps, console logging, and the document's font classes: these have no effect on the modelled state.
