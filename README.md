# VoiceGlobe controller, modelled in Dafny

VoiceGlobe is a browser page that listens through the platform's speech recognizer, shows the
transcript in the spoken language, and sends every final transcript to a LibreTranslate mirror
for an English rendering. All of its logic lives in the `VoiceGlobe` class of `script.js`. This
project models that class with the page, the microphone and the network taken out:

- `Text` (text.dfy): JavaScript's `trim()` with ECMAScript's whitespace set, `includes`,
  `split('-')[0]`, and the decimal spelling of an HTTP status.
- `Recognition` (recognition.dfy): the loop of `onresult` that folds the result list into a
  final and an interim transcript, and the message for each recognition error code.
- `Translation` (translation.dfy): one translation attempt. Each endpoint's answer is an
  `Outcome` (a translation, an HTTP error status, a body that is not JSON, the 10-second
  timeout, a failed fetch). The endpoint loop is a method proved against a reference function,
  and the error classification of the outer `catch` is proved to pick the category each
  failure calls for, timeouts excepted.
- `Dispatch` (dispatch.dfy): the single-flight queue of `translateToEnglish` as a state machine
  over values. A call submits a text, the attempt it starts finishes later, and the
  re-dispatch its `finally` schedules fires later still. Traces of these events are run as
  the code is written and through the first-in first-out dispatcher the code evidently
  intends.
- `App` (voiceglobe.dfy): the class `VoiceGlobe` with the fields its handlers update. Each
  handler is a method. Every method that touches the dispatcher's fields is proved to move
  them exactly as the `Dispatch` machine does.

The asynchronous `translateToEnglish` is cut at its `await`s. `TranslateToEnglish` runs the
part up to the first `fetch` and records the request under way in a field `inFlight`.
`FinishAttempt` runs the rest once the endpoints' outcomes are known. Each 500 ms
`setTimeout` callback is kept, oldest first, in a field `timers` and run by `FireTimer`.

Two parts of the code do not do what the code itself evidently means (see "## Findings"). The
comment "Process next item in queue" at script.js:246 and the single-flight flag mean each
queued text is translated once, in order; the queue re-translates instead. The branch at
script.js:224-225 is there to say "Request timed out"; it can never run. The class follows
the code as written. The intended behaviour is modelled beside it: `Dispatch.FixedDispatcher`
for the queue and `Translation.IntendedCategory` for the classification.

## Model

| member | source | states |
|---|---|---|
| Text.Trim | script.js:65 | `trim()`: the result occurs in the input with only whitespace before and after it, and neither begins nor ends with whitespace |
| Text.Contains | script.js:226-230 | `includes`: the pattern occurs at some index; what a search finds is stated by `ContainsSkip`, `AbsentFirstChar` and `OnlyMatchAtStart`, used in `Translation.HttpStatusPattern` and `Translation.WrappedCategory` |
| Text.BlankIffAllWhitespace | script.js:149 | `trim()` leaves nothing exactly when the text is whitespace only |
| Text.FirstPiece | script.js:257 | `split(sep)[0]`: a prefix of the input without `sep`, followed in the input by `sep` when shorter |
| Text.DecimalInjective | script.js:191 | different statuses are spelled differently in the `HTTP <status>` message |
| Recognition.Partition | script.js:51-58 | the final string is the in-order concatenation of the final transcripts from `resultIndex` on, the interim string that of the others; earlier results contribute nothing |
| Recognition.PartitionSplitsTranscripts | script.js:51-58 | every visited transcript lands in exactly one of the two strings |
| Recognition.NoFinalResults | script.js:60 | an event without final results from `resultIndex` on yields an empty final string |
| Recognition.RecognitionErrorMessage | script.js:293-312 | the generic message is shown exactly for codes outside the five the switch names |
| Recognition.RecognitionMessagesDistinct | script.js:293-312 | two different codes, one of them named by the switch, get different messages |
| Translation.AttemptFirstSuccess | script.js:172-209 | the attempt succeeds iff some endpoint does; it then takes the first successful endpoint's translation and asks no later endpoint; otherwise it keeps the last endpoint's error |
| Translation.TryEndpoints | script.js:169-209 | the endpoint loop stops at the first non-empty translation, counts the endpoints asked, keeps the last error, and agrees with `Attempt` |
| Translation.ErrorOf | script.js:190-207 | the error each failed endpoint records; its messages are characterised by `ErrorMessageNonEmpty`, `HttpStatusPattern` and `OtherMessagePatterns` |
| Translation.Classify | script.js:224-234 | the outer `catch`'s classification in priority order; what it picks for each failure is stated by `MessageCategory` and `AsWrittenCategory` |
| Translation.WrappedError | script.js:216 | the error thrown when every endpoint failed; `WrappedCategory` states that it keeps the last error's category, `ErrorMessageNonEmpty` that it never quotes "Unknown error" after a real failure |
| Translation.FailureAlert | script.js:222-236 | the alert shown for a failed attempt; `AsWrittenCategory` states which category it reports, `CategoryMessagesDistinct` that categories are told apart |
| Translation.CategoryMessage | script.js:222-234 | every failure alert starts with "Translation failed. " |
| Translation.CategoryMessagesDistinct | script.js:222-234 | the five categories give five different alerts |
| Translation.HttpStatusPattern | script.js:190-191 | the message of a failed response holds `HTTP <code>` exactly when its status is that code, and never "Failed to fetch" |
| Translation.OtherMessagePatterns | script.js:194-207 | the messages of other endpoint failures hold no HTTP pattern, and only a failed fetch's names a failed fetch |
| Translation.ErrorMessageNonEmpty | script.js:216 | every endpoint failure has a message, so the thrown error quotes it rather than "Unknown error" |
| Translation.MessageCategory | script.js:222-234 | classifying an endpoint failure's message picks rate limiting for 429, unavailability for 502 and 503, network for a failed fetch, generic otherwise |
| Translation.WrappedCategory | script.js:216 | wrapping the last error's message in the "All translation endpoints failed" error does not change its category |
| Translation.AsWrittenCategory | script.js:216-234 | as written, a failed attempt gets the category of its last endpoint's failure, with a timeout reported as generic |
| Translation.TimeoutsReportedAsGeneric | script.js:216-225 | when every endpoint times out, the alert is the generic one |
| Translation.IntendedCategoryOfFailure | script.js:222-234 | classifying the last endpoint's own error gives every failure its category, a timeout included |
| Translation.IntendedCategoryOf | script.js:224-234 | the intended classification of one endpoint failure |
| Dispatch.RequestFor | script.js:181-186 | the body POSTed to each endpoint: the text, the locale's language, target "en", format "text"; `App.VoiceGlobe.TranslateToEnglish` records it for the attempt it starts |
| Dispatch.Output | script.js:211-241 | what a finished attempt appends; `FinishEffect` states it in terms of the endpoints' outcomes |
| Dispatch.Submit | script.js:148-156 | a submission keeps the single-flight invariant: the flag is set exactly while an attempt is under way |
| Dispatch.SubmitEffect | script.js:149-156 | text that `trim()` empties changes nothing; other text is queued, and starts an attempt only when none is under way |
| Dispatch.Finish | script.js:211-251 | after every attempt the flag is clear and the invariant holds |
| Dispatch.FinishEffect | script.js:211-241 | the English text grows by exactly the first successful translation and a space, or by the failure marker around the original text |
| Dispatch.FinishSchedules | script.js:242-251 | after an attempt the oldest queued text, if any, leaves the queue and is scheduled for re-dispatch; nothing else is scheduled |
| Dispatch.Fire | script.js:249 | the re-dispatch keeps the single-flight invariant |
| Dispatch.Clear | script.js:339-342 | clearing empties the English text and the queue and leaves the flag, the attempt under way and the scheduled re-dispatches alone |
| Dispatch.RetranslationCycle | script.js:152-249 | one round after an idle dispatcher starts on a text, it is translating that same text again |
| Dispatch.RetranslatedForever | script.js:152-249 | after `n` rounds the text is under way again and its output stands `n` times in the English text |
| Dispatch.SaidOnceFinishedTwice | script.js:152-249 | a text said once has its attempt finished twice and its output written twice |
| Dispatch.FixedSubmitPending | script.js:148-156 | the intended dispatcher adds a submitted text, unless blank, at the back of what is pending |
| Dispatch.FixedFinishPending | script.js:242-251 | the intended dispatcher's finishing attempt removes its text from the front of what is pending |
| Dispatch.FixedFirePending | script.js:247-249 | the intended re-dispatch clears the scheduled timer and puts the oldest queued text under way, leaving what is pending as it was |
| Dispatch.FixedStepPending | script.js:148-251 | each event keeps the intended dispatcher's invariant and moves texts through it in order |
| Dispatch.FixedFirstInFirstOut | script.js:148-251 | the intended dispatcher finishes every submitted text once, in submission order |
| App.VoiceGlobe.constructor | script.js:4-10 | not listening, both texts empty, queue empty, no attempt under way |
| App.VoiceGlobe.OnStart | script.js:41-45 | `onstart` sets listening and changes nothing else |
| App.VoiceGlobe.OnEnd | script.js:78-82 | `onend` clears listening and changes nothing else |
| App.VoiceGlobe.ChangeLanguage | script.js:92-96 | the recognizer follows the newly selected locale |
| App.VoiceGlobe.SourceLanguageCode | script.js:254-258 | the locale's part before its first '-', or the whole locale when it has none |
| App.VoiceGlobe.TranslateToEnglish | script.js:148-160 | the synchronous part of `translateToEnglish` moves the state as `Dispatch.Submit` |
| App.VoiceGlobe.OnResult | script.js:47-71 | a non-empty final string grows the original text by itself and a space and is submitted trimmed; otherwise nothing changes; the interim string is only returned |
| App.VoiceGlobe.FinishAttempt | script.js:159-251 | the rest of the attempt moves the state as `Dispatch.Finish`; an alert is raised exactly when every endpoint failed, and it is the classified one |
| App.VoiceGlobe.FireTimer | script.js:249 | a scheduled callback moves the state as `Dispatch.Fire` |
| App.VoiceGlobe.ClearAll | script.js:339-346 | both texts and the queue are emptied; the attempt under way and scheduled callbacks are not touched |

## Left out

- The page: `initializeElements`, `updateUI`, `updateStatus`, `updateOriginalText`, `updateEnglishText`, `updateEnglishStatus` and `showError` only render; the alert text is returned instead.
- `fetch`, JSON parsing and `AbortSignal.timeout(10000)` are network I/O; each endpoint's answer is an `Outcome` given as input, one per endpoint in order.
- The `statusText` part of `HTTP <status>: <statusText>` is taken as empty (as over HTTP/2); a status text holding a pattern such as "HTTP 429" would change the category.
- The messages of the browser's own rejections are fixed to Chrome's wording ("Failed to fetch", "signal timed out", a fixed JSON parse message).
- A 2xx body whose `translatedText` is present but not a string is not modelled; `Ok("")` stands for an absent or empty one.
- The speech recognizer and `getUserMedia` are platform APIs: their callbacks are the inputs of `OnStart`, `OnEnd` and `OnResult`; only the first alternative of each result is read.
- `toggleSpeechRecognition`, `startSpeechRecognition`, the keyboard shortcuts, `checkBrowserSupport` and console logging are glue around the platform.
- A browser without speech recognition leaves `recognition` null; the model always has a recognizer, so `ChangeLanguage` always updates it.
- The 500 ms and 5000 ms delays are not timed: each scheduled re-dispatch runs when `FireTimer` is called, in scheduling order, and event-loop interleavings are the caller's choice of call order.

## Findings

| source | as written | input that shows it | evidently intended | confidence | as-written member | corrected member |
|---|---|---|---|---|---|---|
| script.js:152-249 | the text about to be translated is pushed onto the queue, and the `finally` shifts the oldest queued text and re-dispatches it, so an idle dispatcher's own text comes back and is translated again, round after round | one final transcript said while idle; its attempt finishes; the 500 ms callback fires | every submitted text is translated once, in submission order | high; not executed | Dispatch.SaidOnceFinishedTwice | Dispatch.FixedFirstInFirstOut |
| script.js:216-225 | the outer `catch` classifies the error thrown after the loop, whose name is always `Error`, so the `AbortError` test never holds; a timed-out fetch rejects with a `TimeoutError` anyway | every endpoint times out | the alert says the request timed out | high; not executed | Translation.TimeoutsReportedAsGeneric | Translation.IntendedCategoryOfFailure |
