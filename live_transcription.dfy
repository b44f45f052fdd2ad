/**
 * The live-transcription overlay: what a speech start or end event and a
 * change of the target language do to its state, which translation each of
 * them asks for, how a translation settles, and what the overlay shows.
 * The translation service's answer is a parameter of the settling step.
 */
module LiveTranscription {
  import opened Results
  import opened Types
  import Localization

  /** The target value that means "show the original language". */
  const NoTarget := "none"

  /** The text shown when a translation fails. */
  const TranslationFailed := "Translation failed."

  /** A call to the translation service: the text, the target language code
      and the language the text was spoken in. */
  datatype TranslationRequest = TranslationRequest(text: string, target: string, source: Language)

  /** A translation is wanted when a target is chosen and it is not the
      language already spoken. */
  predicate WantsTranslation(target: string, source: Language) {
    target != NoTarget && target != Code(source)
  }

  /** The translated text a settled translation leaves: the service's text,
      or the failure notice. */
  function SettledTranslation(translation: Outcome<string>): (text: string)
    ensures translation.Success? ==> text == translation.value
    ensures translation.Failure? ==> text == TranslationFailed
  {
    match translation
    case Success(t) => t
    case Failure => TranslationFailed
  }

  /** The language the caption is in: the target when one is chosen, else
      the spoken language. */
  function DisplayLang(target: string, source: Language): (lang: string)
    ensures target != NoTarget ==> lang == target
    ensures target == NoTarget ==> lang == Code(source)
  {
    if target != NoTarget then target else Code(source)
  }

  /** The caption is right to left when a right-to-left target is chosen, or
      when no target is chosen and the speech is Arabic or Urdu. */
  lemma DisplayDirection(target: string, source: Language)
    ensures IsRtlCode(DisplayLang(target, source))
      <==> (target != NoTarget && IsRtlCode(target)) || (target == NoTarget && (source == Ar || source == Ur))
  {
  }

  /** `translatedText || originalText`. */
  function CaptionText(translated: string, original: string): (text: string)
    ensures translated != "" ==> text == translated
    ensures translated == "" ==> text == original
    ensures text == "" <==> translated == "" && original == ""
  {
    if translated != "" then translated else original
  }

  /** The body of the caption line: a spinner with a note while a
      translation is pending, the caption text otherwise. */
  datatype Body = Spinner(note: string) | Caption(text: string)

  /** What the overlay renders: nothing, or a line in a direction. */
  datatype View = Hidden | Shown(rtl: bool, body: Body)

  class Overlay {
    var isVisible: bool
    var originalText: string
    var translatedText: string
    var sourceLang: Language
    var targetLang: string
    var isTranslating: bool

    /** Hidden and empty, English speech, no target. */
    constructor ()
      ensures !isVisible && originalText == "" && translatedText == ""
      ensures sourceLang == En && targetLang == NoTarget && !isTranslating
    {
      isVisible := false;
      originalText := "";
      translatedText := "";
      sourceLang := En;
      targetLang := NoTarget;
      isTranslating := false;
    }

    /** A speech start event: the overlay shows the spoken text and forgets
        the previous translation; when a translation into the chosen target
        is wanted it is requested and the overlay waits for it. */
    method HandleSpeechStart(text: string, lang: Language)
      returns (request: Option<TranslationRequest>)
      modifies this
      ensures isVisible && originalText == text && sourceLang == lang && targetLang == old(targetLang)
      ensures translatedText == ""
      ensures request.Some? <==> WantsTranslation(old(targetLang), lang)
      ensures request.Some? ==> request.value == TranslationRequest(text, old(targetLang), lang) && isTranslating
      ensures request.None? ==> isTranslating == old(isTranslating)
    {
      isVisible := true;
      originalText := text;
      sourceLang := lang;
      translatedText := "";
      if targetLang != NoTarget && targetLang != Code(lang) {
        isTranslating := true;
        request := Some(TranslationRequest(text, targetLang, lang));
      } else {
        request := None;
      }
    }

    /** A requested translation settles: its text, or the failure notice,
        becomes the translated text and the overlay stops waiting. Nothing
        else changes, whatever happened since the request. */
    method SettleTranslation(translation: Outcome<string>)
      modifies this
      ensures translatedText == SettledTranslation(translation) && !isTranslating
      ensures isVisible == old(isVisible) && originalText == old(originalText)
      ensures sourceLang == old(sourceLang) && targetLang == old(targetLang)
    {
      match translation {
        case Success(t) => translatedText := t;
        case Failure => translatedText := TranslationFailed;
      }
      isTranslating := false;
    }

    /** A speech end event: hidden, and both texts cleared. */
    method HandleSpeechEnd()
      modifies this
      ensures !isVisible && originalText == "" && translatedText == ""
      ensures sourceLang == old(sourceLang) && targetLang == old(targetLang)
      ensures isTranslating == old(isTranslating)
    {
      isVisible := false;
      originalText := "";
      translatedText := "";
    }

    /** A change of target: while the overlay shows and the new target is
        wanted, the stored original is sent for translation again and the
        overlay waits; in every other case the translated text is cleared. */
    method HandleLangChange(newLang: string)
      returns (request: Option<TranslationRequest>)
      modifies this
      ensures targetLang == newLang
      ensures isVisible == old(isVisible) && originalText == old(originalText) && sourceLang == old(sourceLang)
      ensures request.Some? <==> old(isVisible) && WantsTranslation(newLang, old(sourceLang))
      ensures request.Some? ==>
        && request.value == TranslationRequest(old(originalText), newLang, old(sourceLang))
        && isTranslating && translatedText == old(translatedText)
      ensures request.None? ==> translatedText == "" && isTranslating == old(isTranslating)
    {
      targetLang := newLang;
      if isVisible && newLang != NoTarget && newLang != Code(sourceLang) {
        isTranslating := true;
        request := Some(TranslationRequest(originalText, newLang, sourceLang));
      } else {
        translatedText := "";
        request := None;
      }
    }

    /** What the overlay renders, with its labels looked up in the current
        interface language. The spinner's label key is not in the string
        table, so the key itself is shown. */
    function Render(loc: Localization.LanguageState): (v: View)
      reads this, loc
      ensures v.Hidden? <==> !isVisible
      ensures v.Shown? ==> (v.rtl <==> IsRtlCode(DisplayLang(targetLang, sourceLang)))
      ensures v.Shown? && isTranslating ==> v.body == Spinner("translating")
      ensures v.Shown? && !isTranslating ==> v.body == Caption(CaptionText(translatedText, originalText))
    {
      if !isVisible then Hidden
      else
        var body := if isTranslating then Spinner(loc.T("translating")) else Caption(CaptionText(translatedText, originalText));
        Shown(IsRtlCode(DisplayLang(targetLang, sourceLang)), body)
    }
  }
}
