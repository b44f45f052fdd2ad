/**
 * The records the application passes between its parts: the interface
 * language, chat messages and the normalised record of an uploaded file.
 */
module Types {

  /** The interface languages: English, Arabic and Urdu. */
  datatype Language = En | Ar | Ur

  /** The language's code, the string the application compares and stores. */
  function Code(lang: Language): string {
    match lang
    case En => "en"
    case Ar => "ar"
    case Ur => "ur"
  }

  /** A language code is written right to left exactly when it is Arabic or
      Urdu. */
  predicate IsRtlCode(code: string) {
    code == "ar" || code == "ur"
  }

  lemma CodeInjective(a: Language, b: Language)
    ensures Code(a) == Code(b) <==> a == b
  {
  }

  datatype Sender = User | Ai | System

  /** A chat message. The source's messages also carry a creation time stamp,
      which the model leaves out. */
  datatype Message = Message(sender: Sender, text: string)

  /** An uploaded file after parsing: its name, its MIME type, its text (or
      the base64 payload of an image) and whether it is an image. */
  datatype FileData = FileData(name: string, mimeType: string, content: string, isImage: bool)
}
