/**
 * One translation attempt of `translateToEnglish` with the network abstracted: each endpoint
 * request is an `Outcome`, the endpoints are tried in their fixed order until one yields a
 * non-empty `translatedText` (script.js:163-209), and a failed attempt is reported by
 * classifying the error it throws (script.js:216-234).
 */
module Translation {
  import opened Wrappers
  import opened Text

  /** The endpoints, in the order they are tried. */
  const Endpoints: seq<string> := ["libretranslate.de", "translate.argosopentech.com", "libretranslate.com"]

  /**
   * The HTTP status of a fetched `Response` that is not `ok`: a response carries a status in
   * 200-599, and `ok` holds exactly for 200-299.
   */
  type Status = s: int | 300 <= s <= 599 witness 500

  /** What one request to an endpoint came back with. */
  datatype Outcome =
    | Ok(translatedText: string)  // a 2xx response whose JSON body has this `translatedText` ("" when absent)
    | HttpError(status: Status)   // a response that is not `ok`
    | Malformed                   // a 2xx response whose body is not JSON
    | Timeout                     // the 10-second abort signal fired
    | NetworkError                // `fetch` itself rejected

  /** The `name` of a thrown JavaScript error, among those this code can see. */
  datatype ErrorName = Error | AbortError | TimeoutError | TypeError | SyntaxError

  /** A thrown JavaScript error: its `name` and its `message`. */
  datatype JsError = JsError(name: ErrorName, message: string)

  /** The messages the browser (Chrome, Edge) gives its own rejections. */
  const TimeoutMessage := "signal timed out"
  const FetchFailedMessage := "Failed to fetch"
  const JsonParseMessage := "Unexpected end of JSON input"
  /** The message the loop throws for an `ok` response without a translation. */
  const EmptyTranslationMessage := "No translation text received"

  /*
   * None of these messages holds an upper-case H or F, the first letters of the patterns the
   * failure classification looks for.
   */
  lemma TimeoutMessageUnmatched() ensures 'H' !in TimeoutMessage && 'F' !in TimeoutMessage { }
  lemma JsonParseMessageUnmatched() ensures 'H' !in JsonParseMessage && 'F' !in JsonParseMessage { }
  lemma EmptyTranslationMessageUnmatched() ensures 'H' !in EmptyTranslationMessage && 'F' !in EmptyTranslationMessage { }
  lemma FetchFailedMessageUnmatched() ensures 'H' !in FetchFailedMessage { }

  /** The endpoint produced a translation, so the loop stops there. */
  predicate Succeeds(o: Outcome) {
    o.Ok? && o.translatedText != ""
  }

  /** The error the loop's `catch` records for an endpoint that did not succeed. */
  function ErrorOf(o: Outcome): JsError
    requires !Succeeds(o)
  {
    match o
    case Ok(_) => JsError(Error, EmptyTranslationMessage)
    case HttpError(s) => JsError(Error, "HTTP " + Decimal(s) + ": ")
    case Malformed => JsError(SyntaxError, JsonParseMessage)
    case Timeout => JsError(TimeoutError, TimeoutMessage)
    case NetworkError => JsError(TypeError, FetchFailedMessage)
  }

  /** How an attempt ended: the translation and how many endpoints were asked, or the last error. */
  datatype AttemptResult = Translated(text: string, tried: nat) | AllFailed(lastError: Option<JsError>)

  /** The attempt over `outcomes`, one per endpoint in order, as a reference definition. */
  function Attempt(outcomes: seq<Outcome>): AttemptResult {
    if outcomes == [] then AllFailed(None)
    else if Succeeds(outcomes[0]) then Translated(outcomes[0].translatedText, 1)
    else match Attempt(outcomes[1..])
      case Translated(t, n) => Translated(t, n + 1)
      case AllFailed(e) => AllFailed(if e.None? then Some(ErrorOf(outcomes[0])) else e)
  }

  /**
   * The attempt succeeds exactly when some endpoint does; then the translation is that of the
   * first endpoint that succeeds and no later endpoint was asked. Otherwise the error kept is
   * that of the last endpoint.
   */
  lemma {:induction false} AttemptFirstSuccess(outcomes: seq<Outcome>)
    ensures Attempt(outcomes).Translated? <==> exists i :: 0 <= i < |outcomes| && Succeeds(outcomes[i])
    ensures Attempt(outcomes).Translated? ==>
      var n := Attempt(outcomes).tried;
      1 <= n <= |outcomes| && Succeeds(outcomes[n - 1]) &&
      Attempt(outcomes).text == outcomes[n - 1].translatedText &&
      forall j :: 0 <= j < n - 1 ==> !Succeeds(outcomes[j])
    ensures Attempt(outcomes).AllFailed? ==>
      Attempt(outcomes).lastError == if outcomes == [] then None else Some(ErrorOf(outcomes[|outcomes| - 1]))
  {
    if outcomes != [] && !Succeeds(outcomes[0]) {
      var rest := outcomes[1..];
      AttemptFirstSuccess(rest);
      if exists i :: 0 <= i < |outcomes| && Succeeds(outcomes[i]) {
        var i :| 0 <= i < |outcomes| && Succeeds(outcomes[i]);
        assert Succeeds(rest[i - 1]);
      }
      if Attempt(rest).Translated? {
        var n := Attempt(rest).tried;
        assert Succeeds(outcomes[n]);
        forall j | 0 <= j < n ensures !Succeeds(outcomes[j]) {
          if j > 0 {
            assert outcomes[j] == rest[j - 1];
          }
        }
      }
    }
  }

  /**
   * The endpoint loop: ask each endpoint in turn and stop at the first non-empty
   * translation, remembering the error of every endpoint that failed. `tried` counts the
   * endpoints asked.
   */
  method TryEndpoints(outcomes: seq<Outcome>) returns (translation: Option<string>, lastError: Option<JsError>, tried: nat)
    ensures translation.Some? <==> exists i :: 0 <= i < |outcomes| && Succeeds(outcomes[i])
    ensures translation.Some? ==>
      1 <= tried <= |outcomes| && Succeeds(outcomes[tried - 1]) &&
      translation.value == outcomes[tried - 1].translatedText &&
      forall j :: 0 <= j < tried - 1 ==> !Succeeds(outcomes[j])
    ensures translation.None? ==>
      tried == |outcomes| && lastError == if outcomes == [] then None else Some(ErrorOf(outcomes[|outcomes| - 1]))
    ensures Attempt(outcomes) == if translation.Some? then Translated(translation.value, tried) else AllFailed(lastError)
  {
    translation, lastError, tried := None, None, 0;
    while tried < |outcomes|
      invariant tried <= |outcomes|
      invariant translation.None?
      invariant forall j :: 0 <= j < tried ==> !Succeeds(outcomes[j])
      invariant lastError == if tried == 0 then None else Some(ErrorOf(outcomes[tried - 1]))
    {
      var o := outcomes[tried];
      tried := tried + 1;
      if Succeeds(o) {
        translation := Some(o.translatedText);
        break;
      }
      lastError := Some(ErrorOf(o));
    }
    AttemptFirstSuccess(outcomes);
  }

  /**
   * The start of the message of the error thrown when every endpoint failed, written as two
   * literals because for one literal this long the solver does not show that a character is absent.
   */
  const WrappedPrefix := "All translation endpoints " + "failed. Last error: "

  lemma WrappedPrefixUnmatched() ensures 'H' !in WrappedPrefix && 'F' !in WrappedPrefix { }

  /** The `new Error(...)` thrown after the loop when no endpoint succeeded. */
  function WrappedError(lastError: Option<JsError>): JsError {
    var detail := if lastError.None? || lastError.value.message == "" then "Unknown error" else lastError.value.message;
    JsError(Error, WrappedPrefix + detail)
  }

  /** The kinds of translation failure the user is told apart. */
  datatype Category = TimedOut | RateLimited | Unavailable | NetworkDown | Generic

  /** The classification of the outer `catch`, in its order of priority. */
  function Classify(e: JsError): Category {
    if e.name == AbortError then TimedOut
    else if Contains(e.message, "HTTP 429") then RateLimited
    else if Contains(e.message, "HTTP 503") || Contains(e.message, "HTTP 502") then Unavailable
    else if Contains(e.message, "Failed to fetch") then NetworkDown
    else Generic
  }

  /** What the alert says after its common opening, for each category. */
  function CategoryDetail(c: Category): string {
    match c
    case TimedOut => "Request timed out. Please check your internet connection."
    case RateLimited => "Rate limit exceeded. Please wait a moment and try again."
    case Unavailable => "Translation service temporarily unavailable. Please try again later."
    case NetworkDown => "Network error. Please check your internet connection."
    case Generic => "Please try again in a moment."
  }

  /** The alert shown for each category. */
  function CategoryMessage(c: Category): (m: string)
    ensures "Translation failed. " <= m
  {
    "Translation failed. " + CategoryDetail(c)
  }

  /** The five categories give five different alerts. */
  lemma CategoryMessagesDistinct(c: Category, d: Category)
    requires c != d
    ensures CategoryMessage(c) != CategoryMessage(d)
  {
    CategoryDetailLengths(c);
    CategoryDetailLengths(d);
  }

  /** The details have five different lengths, so five different texts. */
  lemma CategoryDetailLengths(c: Category)
    ensures |CategoryDetail(c)| == match c
      case TimedOut => 57
      case RateLimited => 56
      case Unavailable => 68
      case NetworkDown => 53
      case Generic => 29
  {
  }

  /**
   * The category a failure evidently deserves, judged by the last endpoint's failure alone:
   * rate limiting (429), a bad gateway or an unavailable service (502, 503), an unreachable
   * network, otherwise generic. A timeout is the one failure the two classifications below
   * treat differently, so it is passed in.
   */
  function CategoryOfFailure(o: Outcome, timeout: Category): Category
    requires !Succeeds(o)
  {
    match o
    case HttpError(s) => if s == 429 then RateLimited else if s == 502 || s == 503 then Unavailable else Generic
    case NetworkError => NetworkDown
    case Timeout => timeout
    case _ => Generic
  }

  /** In the message of a failed response, an HTTP pattern can only match at the start, on the status digits. */
  lemma HttpPatternAt(d: string, code: string)
    requires |d| == 3 && |code| == 3
    requires forall k :: 0 <= k < 3 ==> '0' <= d[k] <= '9'
    ensures Contains("HTTP " + d + ": ", "HTTP " + code) <==> d == code
    ensures !Contains("HTTP " + d + ": ", "Failed to fetch")
  {
    var m := "HTTP " + d + ": ";
    var p := "HTTP " + code;
    assert p[0] == 'H';
    forall k | 0 < k < |m| ensures m[k] != 'H' && m[k] != 'F' {
      if 5 <= k < 8 {
        assert m[k] == d[k - 5];
      }
    }
    OnlyMatchAtStart(m, p);
    assert m[..8] == "HTTP " + d;
    assert m[..8] == p <==> d == code by {
      if m[..8] == p {
        assert forall k :: 0 <= k < 3 ==> d[k] == m[..8][k + 5] == p[k + 5] == code[k];
      }
    }
    AbsentFirstChar(m, "Failed to fetch");
  }

  /** The message a failed HTTP response leaves holds the pattern of a status exactly when it has that status. */
  lemma HttpStatusPattern(s: Status, code: Status)
    ensures Contains(ErrorOf(HttpError(s)).message, "HTTP " + Decimal(code)) <==> s == code
    ensures !Contains(ErrorOf(HttpError(s)).message, "Failed to fetch")
  {
    ThreeDigits(s);
    ThreeDigits(code);
    HttpPatternAt(Decimal(s), Decimal(code));
    if Decimal(s) == Decimal(code) {
      DecimalInjective(s, code);
    }
  }

  /** The patterns the classification looks for, spelled with the status they stand for. */
  lemma HttpPatternSpelling()
    ensures "HTTP 429" == "HTTP " + Decimal(429)
    ensures "HTTP 503" == "HTTP " + Decimal(503)
    ensures "HTTP 502" == "HTTP " + Decimal(502)
  {
  }

  /** The messages of the other failures hold no HTTP pattern, and only a network failure names a failed fetch. */
  lemma OtherMessagePatterns(o: Outcome)
    requires !Succeeds(o) && !o.HttpError?
    ensures !Contains(ErrorOf(o).message, "HTTP 429")
    ensures !Contains(ErrorOf(o).message, "HTTP 503") && !Contains(ErrorOf(o).message, "HTTP 502")
    ensures Contains(ErrorOf(o).message, "Failed to fetch") <==> o == NetworkError
  {
    var m := ErrorOf(o).message;
    match o {
      case NetworkError =>
        FetchFailedMessageUnmatched();
        assert MatchAt(m, "Failed to fetch", 0);
      case Timeout =>
        TimeoutMessageUnmatched();
      case Malformed =>
        JsonParseMessageUnmatched();
      case Ok(_) =>
        EmptyTranslationMessageUnmatched();
    }
    AbsentFirstChar(m, "HTTP 429");
    AbsentFirstChar(m, "HTTP 503");
    AbsentFirstChar(m, "HTTP 502");
    if o != NetworkError {
      AbsentFirstChar(m, "Failed to fetch");
    }
  }

  const UnknownErrorDetail := "Unknown error"

  lemma UnknownErrorDetailUnmatched() ensures 'H' !in UnknownErrorDetail && 'F' !in UnknownErrorDetail { }

  /** The message of every endpoint failure is non-empty, so it is what the thrown error quotes. */
  lemma ErrorMessageNonEmpty(o: Outcome)
    requires !Succeeds(o)
    ensures ErrorOf(o).message != ""
  {
    if o.HttpError? {
      assert ErrorOf(o).message[0] == 'H';
    }
  }

  /** The alert the outer `catch` shows when every endpoint failed. */
  function FailureAlert(lastError: Option<JsError>): string {
    CategoryMessage(Classify(WrappedError(lastError)))
  }

  /**
   * The patterns looked for in the message of a failed endpoint pick out exactly the category
   * its kind calls for, timeouts aside: a timeout is caught only by its error's name.
   */
  lemma MessageCategory(o: Outcome, name: ErrorName)
    requires !Succeeds(o) && name != AbortError
    ensures Classify(JsError(name, ErrorOf(o).message)) == CategoryOfFailure(o, Generic)
  {
    if o.HttpError? {
      HttpPatternSpelling();
      HttpStatusPattern(o.status, 429);
      HttpStatusPattern(o.status, 503);
      HttpStatusPattern(o.status, 502);
    } else {
      OtherMessagePatterns(o);
    }
  }

  /** Wrapping a message in the prefix of the error thrown after the loop does not change its category. */
  lemma WrappedCategory(lastError: Option<JsError>)
    ensures lastError.Some? && lastError.value.message != "" ==>
      Classify(WrappedError(lastError)) == Classify(JsError(Error, lastError.value.message))
    ensures lastError.None? ==> Classify(WrappedError(lastError)) == Generic
  {
    WrappedPrefixUnmatched();
    var m := WrappedError(lastError).message;
    var detail := m[|WrappedPrefix|..];
    assert m == WrappedPrefix + detail;
    ContainsSkip(WrappedPrefix, detail, "HTTP 429");
    ContainsSkip(WrappedPrefix, detail, "HTTP 503");
    ContainsSkip(WrappedPrefix, detail, "HTTP 502");
    ContainsSkip(WrappedPrefix, detail, "Failed to fetch");
    if lastError.None? {
      UnknownErrorDetailUnmatched();
      assert detail == UnknownErrorDetail;
      AbsentFirstChar(detail, "HTTP 429");
      AbsentFirstChar(detail, "HTTP 503");
      AbsentFirstChar(detail, "HTTP 502");
      AbsentFirstChar(detail, "Failed to fetch");
    }
  }

  /**
   * As written, the category of a failed attempt is the one its last endpoint's failure
   * calls for, except that a timeout is reported as a generic failure: the error that
   * reaches the classification is always the one thrown after the loop, whose name is
   * `Error` and never `AbortError`.
   */
  lemma AsWrittenCategory(outcomes: seq<Outcome>)
    requires forall i :: 0 <= i < |outcomes| ==> !Succeeds(outcomes[i])
    ensures Attempt(outcomes).AllFailed?
    ensures Classify(WrappedError(Attempt(outcomes).lastError)) ==
      if outcomes == [] then Generic else CategoryOfFailure(outcomes[|outcomes| - 1], Generic)
  {
    AttemptFirstSuccess(outcomes);
    WrappedCategory(Attempt(outcomes).lastError);
    if outcomes != [] {
      var last := outcomes[|outcomes| - 1];
      ErrorMessageNonEmpty(last);
      MessageCategory(last, Error);
    }
  }

  /** When every endpoint times out, the user is told to try again rather than that the request timed out. */
  lemma TimeoutsReportedAsGeneric()
    ensures Classify(WrappedError(Attempt([Timeout, Timeout, Timeout]).lastError)) == Generic
  {
    AsWrittenCategory([Timeout, Timeout, Timeout]);
  }

  /**
   * The classification the failure message evidently intends: judge the last endpoint's own
   * error, and recognise the timeout signal's rejection (named `TimeoutError`) as well as an
   * explicit abort.
   */
  function IntendedCategory(lastError: Option<JsError>): Category {
    if lastError.None? then Generic
    else if lastError.value.name == AbortError || lastError.value.name == TimeoutError then TimedOut
    else Classify(lastError.value)
  }

  /** With the intended classification every kind of last failure, timeouts included, gets its own category. */
  lemma IntendedCategoryOfFailure(outcomes: seq<Outcome>)
    requires forall i :: 0 <= i < |outcomes| ==> !Succeeds(outcomes[i])
    ensures Attempt(outcomes).AllFailed?
    ensures IntendedCategory(Attempt(outcomes).lastError) ==
      if outcomes == [] then Generic else CategoryOfFailure(outcomes[|outcomes| - 1], TimedOut)
  {
    AttemptFirstSuccess(outcomes);
    if outcomes != [] {
      IntendedCategoryOf(outcomes[|outcomes| - 1]);
    }
  }

  lemma IntendedCategoryOf(o: Outcome)
    requires !Succeeds(o)
    ensures IntendedCategory(Some(ErrorOf(o))) == CategoryOfFailure(o, TimedOut)
  {
    if !o.Timeout? {
      MessageCategory(o, ErrorOf(o).name);
    }
  }
}
