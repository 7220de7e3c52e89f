/**
 * The `VoiceGlobe` controller (script.js:3-347) with the page left out: the fields its event
 * handlers update, and each handler as a method on them. The dispatcher's share of the
 * fields is read back as a `Dispatch.Dispatcher` by `State()`, and every method that touches
 * it is proved to move `State()` exactly as the value-level machine does.
 *
 * The asynchronous `translateToEnglish` is cut at its `await`s: `TranslateToEnglish` runs it
 * up to the first `fetch`, `FinishAttempt` runs the rest once the endpoints' outcomes are
 * known, and `FireTimer` runs the callback `finally` handed to `setTimeout`.
 */
module App {
  import opened Wrappers
  import opened Text
  import opened Recognition
  import opened Translation
  import opened Dispatch

  class VoiceGlobe {
    var isListening: bool
    /** The final transcripts heard so far, each followed by a space. */
    var originalText: string
    var englishText: string
    var translationQueue: seq<string>
    var isTranslating: bool
    /** The request of the attempt suspended at an `await`, if any. */
    var inFlight: Option<Request>
    /** The texts of the `setTimeout` callbacks scheduled and not yet run, oldest first. */
    var timers: seq<string>
    /** The value of the language `<select>`, a recognition locale such as "en-US". */
    var inputLanguage: string
    /** `recognition.lang`. */
    var recognitionLang: string

    /** The dispatcher's part of the fields. */
    function State(): Dispatcher
      reads this
    {
      Dispatcher(englishText, translationQueue, isTranslating, inFlight, timers)
    }

    predicate Valid()
      reads this
    {
      Dispatch.Valid(State())
    }

    /** The constructor, with the language `<select>` showing `language`. */
    constructor(language: string)
      ensures Valid() && State() == Idle
      ensures !isListening && originalText == ""
      ensures inputLanguage == language && recognitionLang == language
    {
      isListening := false;
      originalText := "";
      englishText := "";
      translationQueue := [];
      isTranslating := false;
      inFlight := None;
      timers := [];
      inputLanguage := language;
      recognitionLang := language;
    }

    /** `recognition.onstart`. */
    method OnStart()
      modifies this
      ensures isListening
      ensures State() == old(State()) && originalText == old(originalText)
      ensures inputLanguage == old(inputLanguage) && recognitionLang == old(recognitionLang)
    {
      isListening := true;
    }

    /** `recognition.onend`. */
    method OnEnd()
      modifies this
      ensures !isListening
      ensures State() == old(State()) && originalText == old(originalText)
      ensures inputLanguage == old(inputLanguage) && recognitionLang == old(recognitionLang)
    {
      isListening := false;
    }

    /** The `change` handler of the language `<select>`: the recognizer follows the new locale. */
    method ChangeLanguage(language: string)
      modifies this
      ensures inputLanguage == language && recognitionLang == language
      ensures State() == old(State()) && originalText == old(originalText) && isListening == old(isListening)
    {
      inputLanguage := language;
      recognitionLang := language;
    }

    /**
     * `getSourceLanguageCode`: the locale up to its first '-', so "en-US" gives "en" and a
     * locale without a region is its own code.
     */
    function SourceLanguageCode(): (r: string)
      reads this
      ensures r <= inputLanguage && '-' !in r
      ensures |r| < |inputLanguage| ==> inputLanguage[|r|] == '-'
    {
      FirstPiece(inputLanguage, '-')
    }

    /**
     * `translateToEnglish(text)` up to its first `await`. Its guard `!text.trim()` holds
     * exactly of text made of whitespace only (`Text.BlankIffAllWhitespace`).
     */
    method TranslateToEnglish(text: string)
      requires Valid()
      modifies this
      ensures Valid()
      ensures State() == Submit(old(State()), text, old(SourceLanguageCode()))
      ensures originalText == old(originalText) && isListening == old(isListening)
      ensures inputLanguage == old(inputLanguage) && recognitionLang == old(recognitionLang)
    {
      if !AllWhitespace(text) {
        translationQueue := translationQueue + [text];
        if !isTranslating {
          isTranslating := true;
          inFlight := Some(RequestFor(text, SourceLanguageCode()));
        }
      }
    }

    /**
     * `recognition.onresult`: the final transcripts from `resultIndex` on are added to the
     * original text and their trimmed concatenation is submitted for translation; the interim
     * ones are returned for display.
     */
    method OnResult(results: seq<SpeechResult>, resultIndex: nat) returns (interim: string)
      requires Valid()
      modifies this
      ensures Valid()
      ensures interim == Concat(Selected(FromIndex(results, resultIndex), false))
      ensures var final := Concat(Selected(FromIndex(results, resultIndex), true));
        (final == "" ==> originalText == old(originalText) && State() == old(State())) &&
        (final != "" ==>
          originalText == old(originalText) + final + " " &&
          State() == Submit(old(State()), Trim(final), old(SourceLanguageCode())))
      ensures inputLanguage == old(inputLanguage) && recognitionLang == old(recognitionLang)
      ensures isListening == old(isListening)
    {
      var final;
      interim, final := Partition(results, resultIndex);
      if final != "" {
        originalText := originalText + final + " ";
        TranslateToEnglish(Trim(final));
      }
    }

    /**
     * The rest of the attempt under way once every endpoint it asked has answered: the endpoint
     * loop, the outcome written to the English text, the alert of a failed attempt, and the
     * `finally` that clears the flag and schedules the re-dispatch of the oldest queued text.
     * There is one outcome per endpoint; those after the first success are never asked for.
     */
    method FinishAttempt(outcomes: seq<Outcome>) returns (tried: nat, alert: Option<string>)
      requires Valid() && inFlight.Some? && |outcomes| == |Endpoints|
      modifies this
      ensures Valid()
      ensures State() == Finish(old(State()), Attempt(outcomes))
      ensures 1 <= tried <= |Endpoints|
      ensures alert.None? <==> exists i :: 0 <= i < |outcomes| && Succeeds(outcomes[i])
      ensures alert.Some? ==> Attempt(outcomes).AllFailed? && alert.value == FailureAlert(Attempt(outcomes).lastError)
      ensures originalText == old(originalText) && isListening == old(isListening)
      ensures inputLanguage == old(inputLanguage) && recognitionLang == old(recognitionLang)
    {
      var text := inFlight.value.q;
      var translation, lastError;
      translation, lastError, tried := TryEndpoints(outcomes);
      if translation.Some? {
        Associative(englishText, translation.value, " ");
        englishText := englishText + translation.value + " ";
        alert := None;
      } else {
        alert := Some(CategoryMessage(Classify(WrappedError(lastError))));
        Associative(englishText, FailedOpen, text);
        Associative(englishText, FailedOpen + text, FailedClose);
        englishText := englishText + FailedOpen + text + FailedClose;
      }
      isTranslating := false;
      inFlight := None;
      if |translationQueue| > 0 {
        var nextText := translationQueue[0];
        translationQueue := translationQueue[1..];
        timers := timers + [nextText];
      }
    }

    /** The oldest `setTimeout` callback runs: `translateToEnglish(nextText)`. */
    method FireTimer()
      requires Valid() && timers != []
      modifies this
      ensures Valid()
      ensures State() == Fire(old(State()), old(SourceLanguageCode()))
      ensures originalText == old(originalText) && isListening == old(isListening)
      ensures inputLanguage == old(inputLanguage) && recognitionLang == old(recognitionLang)
    {
      var nextText := timers[0];
      timers := timers[1..];
      TranslateToEnglish(nextText);
    }

    /** `clearAll`: both texts and the queue are emptied; an attempt under way and scheduled re-dispatches are not. */
    method ClearAll()
      modifies this
      ensures originalText == ""
      ensures State() == Clear(old(State()))
      ensures isListening == old(isListening)
      ensures inputLanguage == old(inputLanguage) && recognitionLang == old(recognitionLang)
    {
      originalText := "";
      englishText := "";
      translationQueue := [];
    }
  }
}
