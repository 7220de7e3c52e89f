/**
 * The speech-recognition side of the controller: folding a result event into the final and
 * interim transcripts (script.js:47-58), and the user-facing message for each recognition
 * error code (script.js:293-312).
 */
module Recognition {

  /**
   * One entry of `event.results`: the transcript of its first alternative, and whether the
   * engine has finalised it.
   */
  datatype SpeechResult = SpeechResult(transcript: string, isFinal: bool)

  /** The transcripts of `rs` whose finality is `final`, in their order in `rs`. */
  function Selected(rs: seq<SpeechResult>, final: bool): seq<string> {
    if rs == [] then []
    else (if rs[0].isFinal == final then [rs[0].transcript] else []) + Selected(rs[1..], final)
  }

  /** All transcripts of `rs`, in order. */
  function Transcripts(rs: seq<SpeechResult>): seq<string> {
    if rs == [] then [] else [rs[0].transcript] + Transcripts(rs[1..])
  }

  /** The strings of `ss` joined end to end. */
  function Concat(ss: seq<string>): string {
    if ss == [] then [] else ss[0] + Concat(ss[1..])
  }

  /** The results with index in `lo..hi`, none when that is not a range of `results`. */
  function Window(results: seq<SpeechResult>, lo: nat, hi: nat): seq<SpeechResult> {
    if lo <= hi <= |results| then results[lo..hi] else []
  }

  /** The results the handler visits: from `resultIndex` to the end (none when it is past the end). */
  function FromIndex(results: seq<SpeechResult>, resultIndex: nat): seq<SpeechResult> {
    Window(results, resultIndex, |results|)
  }

  lemma {:induction false} SelectedAppend(rs: seq<SpeechResult>, r: SpeechResult, final: bool)
    ensures Selected(rs + [r], final) == Selected(rs, final) + (if r.isFinal == final then [r.transcript] else [])
  {
    if rs != [] {
      assert (rs + [r])[1..] == rs[1..] + [r];
      SelectedAppend(rs[1..], r, final);
    }
  }

  lemma {:induction false} ConcatAppend(a: seq<string>, b: seq<string>)
    ensures Concat(a + b) == Concat(a) + Concat(b)
  {
    if a != [] {
      assert (a + b)[0] == a[0];
      assert (a + b)[1..] == a[1..] + b;
      ConcatAppend(a[1..], b);
    } else {
      assert a + b == b;
    }
  }

  /** Widening the window by one result adds its transcript to the string of its own finality only. */
  lemma WindowStep(results: seq<SpeechResult>, lo: nat, i: nat, final: bool)
    requires lo <= i < |results|
    ensures Concat(Selected(Window(results, lo, i + 1), final)) ==
      Concat(Selected(Window(results, lo, i), final)) + (if results[i].isFinal == final then results[i].transcript else "")
  {
    var r := results[i];
    var seen := Window(results, lo, i);
    assert Window(results, lo, i + 1) == seen + [r];
    SelectedAppend(seen, r, final);
    if r.isFinal == final {
      assert Concat([r.transcript]) == r.transcript;
      ConcatAppend(Selected(seen, final), [r.transcript]);
    } else {
      assert Selected(seen, final) + [] == Selected(seen, final);
    }
  }

  /**
   * The loop of `onresult`: visit the results from `resultIndex` on, adding each transcript
   * to the final string when the result is final and to the interim string otherwise.
   */
  method Partition(results: seq<SpeechResult>, resultIndex: nat) returns (interim: string, final: string)
    ensures final == Concat(Selected(FromIndex(results, resultIndex), true))
    ensures interim == Concat(Selected(FromIndex(results, resultIndex), false))
  {
    interim, final := "", "";
    var i := resultIndex;
    while i < |results|
      invariant i == resultIndex || resultIndex <= i <= |results|
      invariant final == Concat(Selected(Window(results, resultIndex, i), true))
      invariant interim == Concat(Selected(Window(results, resultIndex, i), false))
    {
      var r := results[i];
      WindowStep(results, resultIndex, i, true);
      WindowStep(results, resultIndex, i, false);
      if r.isFinal {
        final := final + r.transcript;
      } else {
        interim := interim + r.transcript;
      }
      i := i + 1;
    }
  }

  /**
   * The two strings split the visited transcripts between them: every transcript lands in
   * exactly one, so no text is lost or counted twice.
   */
  lemma {:induction false} PartitionSplitsTranscripts(rs: seq<SpeechResult>)
    ensures multiset(Selected(rs, true)) + multiset(Selected(rs, false)) == multiset(Transcripts(rs))
    ensures |Concat(Selected(rs, true))| + |Concat(Selected(rs, false))| == |Concat(Transcripts(rs))|
  {
    if rs != [] {
      PartitionSplitsTranscripts(rs[1..]);
      var t := [rs[0].transcript];
      if rs[0].isFinal {
        assert Selected(rs, true) == t + Selected(rs[1..], true);
        assert Selected(rs, false) == Selected(rs[1..], false);
      } else {
        assert Selected(rs, true) == Selected(rs[1..], true);
        assert Selected(rs, false) == t + Selected(rs[1..], false);
      }
    }
  }

  /** A result event with no final result from `resultIndex` on yields an empty final string. */
  lemma {:induction false} NoFinalResults(rs: seq<SpeechResult>)
    requires forall k :: 0 <= k < |rs| ==> !rs[k].isFinal
    ensures Concat(Selected(rs, true)) == ""
  {
    if rs != [] {
      assert !rs[0].isFinal;
      assert forall k :: 0 <= k < |rs[1..]| ==> rs[1..][k] == rs[k + 1];
      NoFinalResults(rs[1..]);
      assert Selected(rs, true) == Selected(rs[1..], true);
    }
  }

  /** The message shown when no case of the switch matches. */
  const GenericRecognitionMessage := "Speech recognition error occurred."

  /** The error codes the handler names a message for. */
  const KnownErrorCodes: set<string> :=
    {"no-speech", "audio-capture", "not-allowed", "network", "service-not-allowed"}

  /** `handleRecognitionError`: the message shown for a recognition error code. */
  function RecognitionErrorMessage(error: string): (m: string)
    ensures m == GenericRecognitionMessage <==> error !in KnownErrorCodes
  {
    match error
    case "no-speech" => "No speech detected. Please try speaking again."
    case "audio-capture" => "Microphone not found. Please check your microphone."
    case "not-allowed" => "Microphone access denied. Please allow microphone access."
    case "network" => "Network error. Please check your internet connection."
    case "service-not-allowed" => "Speech recognition service not allowed."
    case _ => GenericRecognitionMessage
  }

  /** Each code the switch names has a message of its own, told apart from every other code's. */
  lemma RecognitionMessagesDistinct(a: string, b: string)
    requires a != b && (a in KnownErrorCodes || b in KnownErrorCodes)
    ensures RecognitionErrorMessage(a) != RecognitionErrorMessage(b)
  {
    RecognitionMessageLength(a);
    RecognitionMessageLength(b);
  }

  /** The six messages have six different lengths. */
  lemma RecognitionMessageLength(error: string)
    ensures |RecognitionErrorMessage(error)| == match error
      case "no-speech" => 46
      case "audio-capture" => 51
      case "not-allowed" => 57
      case "network" => 53
      case "service-not-allowed" => 39
      case _ => 34
  {
  }
}
