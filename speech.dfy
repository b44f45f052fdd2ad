/**
 * The speech-recognition hook: the locale for each interface language, the
 * fold of a recognition event's results into one transcript, and the
 * listening state driven by start, stop, error and end.
 */
module Speech {
  import opened Results
  import opened Types
  import opened JsStrings

  /** The recognition locale of an interface language. */
  function GetLangCode(lang: Language): (locale: string)
    ensures |locale| == 5 && locale[2] == '-'
    ensures locale[..2] == Code(lang)
  {
    match lang
    case En => "en-US"
    case Ar => "ar-SA"
    case Ur => "ur-PK"
  }

  /** The language part of the locale, the text before the hyphen, is the
      language's own code; so distinct languages get distinct locales. */
  lemma LocaleNamesLanguage(lang: Language)
    ensures Split(GetLangCode(lang), '-')[0] == Code(lang)
  {
    var locale := GetLangCode(lang);
    assert locale == locale[..2] + ['-'] + locale[3..];
    SplitAround(locale[..2], locale[3..], '-');
    SplitWithout(locale[..2], '-');
  }

  lemma LocaleInjective(a: Language, b: Language)
    ensures GetLangCode(a) == GetLangCode(b) <==> a == b
  {
    if GetLangCode(a) == GetLangCode(b) {
      LocaleNamesLanguage(a);
      LocaleNamesLanguage(b);
      CodeInjective(a, b);
    }
  }

  /** One entry of an event's result list: whether it is final, and the
      transcript of its first alternative. */
  datatype RecognitionResult = RecognitionResult(isFinal: bool, transcript: string)

  /** What each result contributes to the final text: its transcript if it is
      final, nothing otherwise. */
  function FinalPieces(results: seq<RecognitionResult>): (pieces: seq<string>)
    ensures |pieces| == |results|
    ensures forall i :: 0 <= i < |results| ==>
      pieces[i] == (if results[i].isFinal then results[i].transcript else "")
  {
    seq(|results|, i requires 0 <= i < |results| => if results[i].isFinal then results[i].transcript else "")
  }

  /** What each result contributes to the interim text. */
  function InterimPieces(results: seq<RecognitionResult>): (pieces: seq<string>)
    ensures |pieces| == |results|
    ensures forall i :: 0 <= i < |results| ==>
      pieces[i] == (if results[i].isFinal then "" else results[i].transcript)
  {
    seq(|results|, i requires 0 <= i < |results| => if results[i].isFinal then "" else results[i].transcript)
  }

  /** The results the event reports as new: those from `resultIndex` on. */
  function NewResults(results: seq<RecognitionResult>, resultIndex: nat): seq<RecognitionResult> {
    if resultIndex <= |results| then results[resultIndex..] else []
  }

  /** The transcript an event leaves: the final texts of the new results in
      order, or, when they add up to nothing, their interim texts in order. */
  function EventTranscript(results: seq<RecognitionResult>, resultIndex: nat): string {
    var newer := NewResults(results, resultIndex);
    var finalText := Flatten(FinalPieces(newer));
    if finalText != "" then finalText else Flatten(InterimPieces(newer))
  }

  /** The loop of the result handler, over the indices from `resultIndex` to
      the end of the list. */
  method FoldResults(results: seq<RecognitionResult>, resultIndex: nat) returns (transcript: string)
    ensures transcript == EventTranscript(results, resultIndex)
  {
    var finalTranscript := "";
    var interimTranscript := "";
    ghost var newer := NewResults(results, resultIndex);
    ghost var finals, interims := FinalPieces(newer), InterimPieces(newer);
    var i := resultIndex;
    while i < |results|
      invariant resultIndex <= i
      invariant resultIndex <= |results| ==> i <= |results|
      invariant resultIndex > |results| ==> i == resultIndex
      invariant finalTranscript == Flatten(finals[..i - resultIndex])
      invariant interimTranscript == Flatten(interims[..i - resultIndex])
      decreases |results| - i
    {
      assert newer[i - resultIndex] == results[i];
      FlattenPrefix(finals, i - resultIndex);
      FlattenPrefix(interims, i - resultIndex);
      if results[i].isFinal {
        finalTranscript := finalTranscript + results[i].transcript;
      } else {
        interimTranscript := interimTranscript + results[i].transcript;
      }
      i := i + 1;
    }
    assert finals[..i - resultIndex] == finals;
    assert interims[..i - resultIndex] == interims;
    transcript := if finalTranscript != "" then finalTranscript else interimTranscript;
  }

  /** Appending one result extends exactly one of the two texts by its
      transcript. */
  lemma PiecesSnoc(rs: seq<RecognitionResult>, r: RecognitionResult)
    ensures Flatten(FinalPieces(rs + [r])) == Flatten(FinalPieces(rs)) + (if r.isFinal then r.transcript else "")
    ensures Flatten(InterimPieces(rs + [r])) == Flatten(InterimPieces(rs)) + (if r.isFinal then "" else r.transcript)
  {
    assert FinalPieces(rs + [r])[..|rs|] == FinalPieces(rs);
    assert InterimPieces(rs + [r])[..|rs|] == InterimPieces(rs);
  }

  /** Results before `resultIndex` do not matter: two lists that agree from
      that index on yield the same transcript. */
  lemma EarlierResultsIgnored(a: seq<RecognitionResult>, b: seq<RecognitionResult>, resultIndex: nat)
    requires resultIndex <= |a| && resultIndex <= |b|
    requires a[resultIndex..] == b[resultIndex..]
    ensures EventTranscript(a, resultIndex) == EventTranscript(b, resultIndex)
  {
  }

  /** Both texts keep the order of the results: the texts of two runs of
      results are those of the first run followed by those of the second. */
  lemma {:induction false} PiecesAppend(a: seq<RecognitionResult>, b: seq<RecognitionResult>)
    ensures Flatten(FinalPieces(a + b)) == Flatten(FinalPieces(a)) + Flatten(FinalPieces(b))
    ensures Flatten(InterimPieces(a + b)) == Flatten(InterimPieces(a)) + Flatten(InterimPieces(b))
  {
    forall i | 0 <= i < |a| + |b|
      ensures FinalPieces(a + b)[i] == (FinalPieces(a) + FinalPieces(b))[i]
      ensures InterimPieces(a + b)[i] == (InterimPieces(a) + InterimPieces(b))[i]
    {
      if i < |a| {
        assert (a + b)[i] == a[i];
      } else {
        assert (a + b)[i] == b[i - |a|];
      }
    }
    assert FinalPieces(a + b) == FinalPieces(a) + FinalPieces(b);
    assert InterimPieces(a + b) == InterimPieces(a) + InterimPieces(b);
    FlattenAppend(FinalPieces(a), FinalPieces(b));
    FlattenAppend(InterimPieces(a), InterimPieces(b));
  }

  /** Once any new result is final with a non-empty transcript, interim
      results no longer show: the transcript is the final text alone. */
  lemma FinalWins(results: seq<RecognitionResult>, resultIndex: nat, k: nat)
    requires resultIndex <= k < |results|
    requires results[k].isFinal && results[k].transcript != ""
    ensures EventTranscript(results, resultIndex) == Flatten(FinalPieces(results[resultIndex..]))
  {
    var newer := results[resultIndex..];
    var j := k - resultIndex;
    assert newer == newer[..j] + [newer[j]] + newer[j + 1..];
    PiecesAppend(newer[..j] + [newer[j]], newer[j + 1..]);
    PiecesSnoc(newer[..j], newer[j]);
  }

  /** How the recognizer is configured: single-utterance, with interim
      results, in the locale of the hook's language. */
  datatype Config = Config(continuous: bool, interimResults: bool, lang: string)

  /** The configuration the hook's effect gives a new recognizer. */
  function ConfigFor(lang: Language): (c: Config)
    ensures !c.continuous && c.interimResults
    ensures Split(c.lang, '-')[0] == Code(lang)
  {
    LocaleNamesLanguage(lang);
    Config(false, true, GetLangCode(lang))
  }

  /** The hook's state: whether it is listening, the last transcript, and
      the recognizer (absent when the browser has no speech recognition). */
  class Recognizer {
    var isListening: bool
    var transcript: string
    var recognition: Option<Config>

    /** The first render and its effect: not listening, no transcript, and a
        recognizer for `lang` if the browser supports recognition. */
    constructor (supported: bool, lang: Language)
      ensures !isListening && transcript == ""
      ensures recognition == (if supported then Some(ConfigFor(lang)) else None)
    {
      isListening := false;
      transcript := "";
      recognition := if supported then Some(ConfigFor(lang)) else None;
    }

    /** The effect re-run for a new language: a new recognizer for it
        replaces the old one; an unsupported browser keeps what it had. */
    method ChangeLanguage(supported: bool, lang: Language)
      modifies this
      ensures recognition == (if supported then Some(ConfigFor(lang)) else old(recognition))
      ensures isListening == old(isListening) && transcript == old(transcript)
    {
      if supported {
        recognition := Some(ConfigFor(lang));
      }
    }

    /** `startListening`: a no-op without a recognizer or while listening;
        otherwise the transcript is cleared and listening starts. */
    method StartListening()
      modifies this
      ensures recognition == old(recognition)
      ensures old(recognition).Some? && !old(isListening) ==> isListening && transcript == ""
      ensures old(recognition).None? || old(isListening) ==>
        isListening == old(isListening) && transcript == old(transcript)
    {
      if recognition.Some? && !isListening {
        transcript := "";
        isListening := true;
      }
    }

    /** `stopListening`: a no-op without a recognizer or when not listening;
        otherwise listening stops and the transcript stays. */
    method StopListening()
      modifies this
      ensures recognition == old(recognition) && transcript == old(transcript)
      ensures old(recognition).Some? && old(isListening) ==> !isListening
      ensures old(recognition).None? || !old(isListening) ==> isListening == old(isListening)
    {
      if recognition.Some? && isListening {
        isListening := false;
      }
    }

    /** The result handler: the transcript becomes the event's transcript. */
    method OnResult(results: seq<RecognitionResult>, resultIndex: nat)
      modifies this
      ensures transcript == EventTranscript(results, resultIndex)
      ensures isListening == old(isListening) && recognition == old(recognition)
    {
      transcript := FoldResults(results, resultIndex);
    }

    /** The error handler: listening stops, the transcript stays. */
    method OnError()
      modifies this
      ensures !isListening
      ensures transcript == old(transcript) && recognition == old(recognition)
    {
      isListening := false;
    }

    /** The end handler: listening stops, the transcript stays. */
    method OnEnd()
      modifies this
      ensures !isListening
      ensures transcript == old(transcript) && recognition == old(recognition)
    {
      isListening := false;
    }
  }
}
