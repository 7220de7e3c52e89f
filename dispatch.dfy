/**
 * The translation dispatcher of `translateToEnglish` (script.js:148-252) as a state machine over
 * values: a call submits a text, the attempt it starts later finishes with what its endpoints
 * answered, and the re-dispatch that `finally` schedules with `setTimeout` fires later still.
 * `Submit`, `Finish` and `Fire` follow the code as written; the `Fixed` machine further down
 * is the first-in first-out dispatcher the code evidently intends.
 */
module Dispatch {
  import opened Wrappers
  import opened Text
  import opened Translation

  /** The JSON body POSTed to every endpoint (script.js:181-186). */
  datatype Request = Request(q: string, source: string, target: string, format: string)

  function RequestFor(text: string, sourceLang: string): Request {
    Request(text, sourceLang, "en", "text")
  }

  /** The marker written around a text whose every endpoint failed (script.js:240). */
  const FailedOpen := "[Translation failed: "
  const FailedClose := "] "

  /** What an attempt on `text` appends to the English text. */
  function Output(text: string, r: AttemptResult): string {
    if r.Translated? then r.text + " " else FailedOpen + text + FailedClose
  }

  /**
   * The dispatcher's part of the controller's state. `inFlight` is the request of the attempt
   * suspended at an `await`, if any; `timers` are the texts whose re-dispatch `setTimeout` has
   * scheduled and that have not run yet, in the order they will run.
   */
  datatype Dispatcher = Dispatcher(
    englishText: string,
    queue: seq<string>,
    isTranslating: bool,
    inFlight: Option<Request>,
    timers: seq<string>)

  /** Single flight: the flag is set exactly while an attempt is under way. */
  predicate Valid(d: Dispatcher) {
    d.isTranslating <==> d.inFlight.Some?
  }

  /**
   * `translateToEnglish(text)` up to its first `await`. Text that `trim()` empties, that is
   * text of whitespace only (`Text.BlankIffAllWhitespace`), changes nothing.
   */
  function Submit(d: Dispatcher, text: string, sourceLang: string): (r: Dispatcher)
    ensures Valid(d) ==> Valid(r)
  {
    if AllWhitespace(text) then d
    else if d.isTranslating then d.(queue := d.queue + [text])
    else d.(queue := d.queue + [text], isTranslating := true, inFlight := Some(RequestFor(text, sourceLang)))
  }

  /** The rest of the attempt under way, once every endpoint it asked has answered, and its `finally`. */
  function Finish(d: Dispatcher, result: AttemptResult): (r: Dispatcher)
    requires d.inFlight.Some?
    ensures Valid(r) && !r.isTranslating
  {
    var done := d.(englishText := d.englishText + Output(d.inFlight.value.q, result),
                   isTranslating := false, inFlight := None);
    if |d.queue| > 0 then done.(queue := d.queue[1..], timers := d.timers + [d.queue[0]]) else done
  }

  /** The oldest scheduled re-dispatch runs: `translateToEnglish(nextText)`. */
  function Fire(d: Dispatcher, sourceLang: string): (r: Dispatcher)
    requires d.timers != []
    ensures Valid(d) ==> Valid(r)
  {
    Submit(d.(timers := d.timers[1..]), d.timers[0], sourceLang)
  }

  /** `clearAll`'s part: the English text and the queue are emptied; the flag and timers stay. */
  function Clear(d: Dispatcher): (r: Dispatcher)
    ensures Valid(d) ==> Valid(r)
    ensures r.englishText == [] && r.queue == []
    ensures r.isTranslating == d.isTranslating && r.inFlight == d.inFlight && r.timers == d.timers
  {
    d.(englishText := "", queue := [])
  }

  /**
   * Text that `trim()` empties changes nothing. Other text is queued; an attempt on it starts,
   * from the locale's language, only when none is under way, and a call made while one is
   * under way does nothing more.
   */
  lemma SubmitEffect(d: Dispatcher, text: string, sourceLang: string)
    ensures Trim(text) == [] ==> Submit(d, text, sourceLang) == d
    ensures Trim(text) != [] && d.isTranslating ==> Submit(d, text, sourceLang) == d.(queue := d.queue + [text])
    ensures Trim(text) != [] && !d.isTranslating ==>
      var r := Submit(d, text, sourceLang);
      r.isTranslating && r.inFlight == Some(RequestFor(text, sourceLang)) &&
      r.queue == d.queue + [text] && r.englishText == d.englishText && r.timers == d.timers
  {
    BlankIffAllWhitespace(text);
  }

  /** Concatenation regroups freely. */
  lemma Associative<T>(a: seq<T>, b: seq<T>, c: seq<T>)
    ensures a + (b + c) == (a + b) + c
  {
  }

  /**
   * When an attempt finishes, the English text grows by the first successful endpoint's
   * translation and a space, or, when every endpoint failed, by the failure marker around the
   * original text, and by nothing else.
   */
  lemma FinishEffect(d: Dispatcher, outcomes: seq<Outcome>)
    requires d.inFlight.Some?
    ensures (exists i :: 0 <= i < |outcomes| && Succeeds(outcomes[i])) ==>
      exists i :: 0 <= i < |outcomes| && Succeeds(outcomes[i]) && (forall j :: 0 <= j < i ==> !Succeeds(outcomes[j])) &&
        Finish(d, Attempt(outcomes)).englishText == d.englishText + outcomes[i].translatedText + " "
    ensures (forall i :: 0 <= i < |outcomes| ==> !Succeeds(outcomes[i])) ==>
      Finish(d, Attempt(outcomes)).englishText == d.englishText + FailedOpen + d.inFlight.value.q + FailedClose
  {
    AttemptFirstSuccess(outcomes);
    var a := Attempt(outcomes);
    var r := Finish(d, a);
    assert r.englishText == d.englishText + Output(d.inFlight.value.q, a);
    if a.Translated? {
      var i := a.tried - 1;
      assert Succeeds(outcomes[i]) && (forall j :: 0 <= j < i ==> !Succeeds(outcomes[j]));
      Associative(d.englishText, a.text, " ");
    } else {
      assert !exists i :: 0 <= i < |outcomes| && Succeeds(outcomes[i]);
      Associative(d.englishText, FailedOpen, d.inFlight.value.q);
      Associative(d.englishText, FailedOpen + d.inFlight.value.q, FailedClose);
    }
  }

  /**
   * Whatever an attempt ends with, its `finally` clears the flag and takes the oldest queued
   * text, if any, off the queue and schedules its re-dispatch.
   */
  lemma FinishSchedules(d: Dispatcher, result: AttemptResult)
    requires d.inFlight.Some?
    ensures var r := Finish(d, result);
      !r.isTranslating && r.inFlight.None? &&
      (d.queue != [] ==> r.queue == d.queue[1..] && r.timers == d.timers + [d.queue[0]]) &&
      (d.queue == [] ==> r.queue == [] && r.timers == d.timers)
  {
  }

  /**
   * The text an idle dispatcher starts on is queued as well, so when its attempt finishes
   * the `finally` takes that same text off the queue and schedules it again: one round
   * later the dispatcher is translating it anew, its output appended once more.
   */
  lemma RetranslationCycle(d: Dispatcher, text: string, sourceLang: string, result: AttemptResult)
    requires !d.isTranslating && d.queue == [] && d.timers == [] && !AllWhitespace(text)
    ensures Submit(d, text, sourceLang).inFlight.Some?
    ensures Fire(Finish(Submit(d, text, sourceLang), result), sourceLang) ==
      Submit(d.(englishText := d.englishText + Output(text, result)), text, sourceLang)
  {
  }

  /** `s` written `n` times over. */
  function Repeat(s: string, n: nat): string {
    if n == 0 then "" else s + Repeat(s, n - 1)
  }

  /** `n` rounds of an attempt finishing with `result` and the re-dispatch it schedules firing. */
  function Rounds(d: Dispatcher, result: AttemptResult, sourceLang: string, n: nat): Dispatcher
    requires d.inFlight.Some? && d.queue != [] && d.timers == []
    decreases n
  {
    if n == 0 then d
    else
      var d1 := Finish(d, result);
      var d2 := Fire(d1, sourceLang);
      if d2.inFlight.Some? && d2.queue != [] && d2.timers == [] then Rounds(d2, result, sourceLang, n - 1) else d2
  }

  /**
   * A single utterance is translated without end: after `n` rounds the dispatcher is again
   * translating it, and its output stands `n` times in the English text.
   */
  lemma {:induction false} RetranslatedForever(d: Dispatcher, text: string, sourceLang: string, result: AttemptResult, n: nat)
    requires !d.isTranslating && d.queue == [] && d.timers == [] && !AllWhitespace(text)
    ensures Submit(d, text, sourceLang).inFlight.Some? && Submit(d, text, sourceLang).queue == [text]
    ensures Rounds(Submit(d, text, sourceLang), result, sourceLang, n) ==
      Submit(d.(englishText := d.englishText + Repeat(Output(text, result), n)), text, sourceLang)
    decreases n
  {
    var out := Output(text, result);
    if n > 0 {
      RetranslationCycle(d, text, sourceLang, result);
      var e := d.(englishText := d.englishText + out);
      RetranslatedForever(e, text, sourceLang, result, n - 1);
      Associative(d.englishText, out, Repeat(out, n - 1));
    }
  }

  // Traces

  /** What can happen next to the dispatcher. */
  datatype Event =
    | Said(text: string)                 // a final transcript is submitted
    | Answered(result: AttemptResult)    // the attempt under way has heard from its endpoints
    | TimerFired                         // the oldest scheduled re-dispatch runs

  /** The texts a trace submits that are not blank. */
  function Submitted(evs: seq<Event>): seq<string> {
    if evs == [] then []
    else (if evs[0].Said? && !AllWhitespace(evs[0].text) then [evs[0].text] else []) + Submitted(evs[1..])
  }

  /** The code as written on one event: the next state, and the text whose attempt finished, if one did. */
  function Step(d: Dispatcher, e: Event, sourceLang: string): (Dispatcher, seq<string>) {
    match e
    case Said(t) => (Submit(d, t, sourceLang), [])
    case Answered(o) => if d.inFlight.Some? then (Finish(d, o), [d.inFlight.value.q]) else (d, [])
    case TimerFired => if d.timers != [] then (Fire(d, sourceLang), []) else (d, [])
  }

  /** The code as written under a trace: the final state, and the texts whose attempts finished, in order. */
  function Run(d: Dispatcher, evs: seq<Event>, sourceLang: string): (Dispatcher, seq<string>)
    decreases |evs|
  {
    if evs == [] then (d, [])
    else
      var step := Step(d, evs[0], sourceLang);
      var rest := Run(step.0, evs[1..], sourceLang);
      (rest.0, step.1 + rest.1)
  }

  const Idle := Dispatcher("", [], false, None, [])

  /**
   * One utterance, two translations: under the code as written, a text said once while the
   * dispatcher is idle has its attempt finished twice once the re-dispatch fires, and its
   * output written twice.
   */
  lemma SaidOnceFinishedTwice(text: string, result: AttemptResult, sourceLang: string)
    requires !AllWhitespace(text)
    ensures var evs := [Said(text), Answered(result), TimerFired, Answered(result)];
      var out := Output(text, result);
      Submitted(evs) == [text] &&
      Run(Idle, evs, sourceLang).1 == [text, text] &&
      Run(Idle, evs, sourceLang).0.englishText == out + out
  {
    var evs := [Said(text), Answered(result), TimerFired, Answered(result)];
    assert evs[1..] == [Answered(result), TimerFired, Answered(result)];
    assert evs[2..] == [TimerFired, Answered(result)];
    assert evs[3..] == [Answered(result)];
    assert evs[4..] == [];
    var d1 := Submit(Idle, text, sourceLang);
    var d2 := Finish(d1, result);
    var d3 := Fire(d2, sourceLang);
    RetranslationCycle(Idle, text, sourceLang, result);
    assert d3.inFlight == Some(RequestFor(text, sourceLang));
    var d4 := Finish(d3, result);
    assert evs[3..][1..] == evs[4..] && evs[2..][1..] == evs[3..] && evs[1..][1..] == evs[2..];
    assert Step(d3, Answered(result), sourceLang) == (d4, [text]);
    assert Step(d2, TimerFired, sourceLang) == (d3, []);
    assert Step(d1, Answered(result), sourceLang) == (d2, [text]);
    var r4 := Run(d4, evs[4..], sourceLang);
    assert r4.0 == d4 && r4.1 == [];
    var r3 := Run(d3, evs[3..], sourceLang);
    assert r3.0 == d4 && r3.1 == [text] + r4.1 == [text];
    var r2 := Run(d2, evs[2..], sourceLang);
    assert r2.0 == d4 && r2.1 == [] + r3.1 == [text];
    var r1 := Run(d1, evs[1..], sourceLang);
    assert r1.0 == d4 && r1.1 == [text] + r2.1 == [text, text];
    assert Submitted(evs[3..]) == [];
    assert Submitted(evs[2..]) == [];
    assert Submitted(evs[1..]) == [];
  }

  // The dispatcher as evidently intended

  /**
   * A first-in first-out dispatcher: the text under way is not also queued, and a scheduled
   * re-dispatch takes the oldest queued text when it fires. `timerPending` stands for the one
   * `setTimeout` that can be outstanding.
   */
  datatype FixedDispatcher = FixedDispatcher(
    englishText: string,
    queue: seq<string>,
    inFlight: Option<Request>,
    timerPending: bool)

  /** Nothing waits unless something will take it: an attempt under way or a scheduled dispatch, not both. */
  predicate FixedValid(d: FixedDispatcher) {
    !(d.inFlight.Some? && d.timerPending) && (d.inFlight.None? && !d.timerPending ==> d.queue == [])
  }

  /** The texts submitted and not yet finished: the one under way, then the queue. */
  function Pending(d: FixedDispatcher): seq<string> {
    (if d.inFlight.Some? then [d.inFlight.value.q] else []) + d.queue
  }

  function FixedSubmit(d: FixedDispatcher, text: string, sourceLang: string): FixedDispatcher {
    if AllWhitespace(text) then d
    else if d.inFlight.Some? || d.timerPending then d.(queue := d.queue + [text])
    else d.(inFlight := Some(RequestFor(text, sourceLang)))
  }

  function FixedFinish(d: FixedDispatcher, result: AttemptResult): FixedDispatcher
    requires d.inFlight.Some?
  {
    d.(englishText := d.englishText + Output(d.inFlight.value.q, result),
       inFlight := None, timerPending := d.queue != [])
  }

  function FixedFire(d: FixedDispatcher, sourceLang: string): FixedDispatcher
    requires d.timerPending
  {
    if d.queue == [] then d.(timerPending := false)
    else d.(timerPending := false, inFlight := Some(RequestFor(d.queue[0], sourceLang)), queue := d.queue[1..])
  }

  /** The intended dispatcher on one event. */
  function FixedStep(d: FixedDispatcher, e: Event, sourceLang: string): (FixedDispatcher, seq<string>) {
    match e
    case Said(t) => (FixedSubmit(d, t, sourceLang), [])
    case Answered(o) => if d.inFlight.Some? then (FixedFinish(d, o), [d.inFlight.value.q]) else (d, [])
    case TimerFired => if d.timerPending then (FixedFire(d, sourceLang), []) else (d, [])
  }

  function FixedRun(d: FixedDispatcher, evs: seq<Event>, sourceLang: string): (FixedDispatcher, seq<string>)
    decreases |evs|
  {
    if evs == [] then (d, [])
    else
      var step := FixedStep(d, evs[0], sourceLang);
      var rest := FixedRun(step.0, evs[1..], sourceLang);
      (rest.0, step.1 + rest.1)
  }

  /** A submission adds its text, unless blank, at the back of what is pending. */
  lemma FixedSubmitPending(d: FixedDispatcher, text: string, sourceLang: string)
    requires FixedValid(d)
    ensures FixedValid(FixedSubmit(d, text, sourceLang))
    ensures Pending(FixedSubmit(d, text, sourceLang)) == Pending(d) + (if AllWhitespace(text) then [] else [text])
  {
  }

  /** A finishing attempt removes its text from the front of what is pending. */
  lemma FixedFinishPending(d: FixedDispatcher, result: AttemptResult)
    requires FixedValid(d) && d.inFlight.Some?
    ensures FixedValid(FixedFinish(d, result))
    ensures Pending(d) == [d.inFlight.value.q] + Pending(FixedFinish(d, result))
  {
  }

  /** A firing re-dispatch moves the oldest queued text under way, leaving what is pending as it was. */
  lemma FixedFirePending(d: FixedDispatcher, sourceLang: string)
    requires FixedValid(d) && d.timerPending
    ensures FixedValid(FixedFire(d, sourceLang))
    ensures Pending(FixedFire(d, sourceLang)) == Pending(d)
    ensures !FixedFire(d, sourceLang).timerPending
    ensures d.queue != [] ==> FixedFire(d, sourceLang).inFlight == Some(RequestFor(d.queue[0], sourceLang))
  {
  }

  /** Each step keeps the invariant and moves texts through `Pending` in order, only out of its front. */
  lemma FixedStepPending(d: FixedDispatcher, e: Event, sourceLang: string)
    requires FixedValid(d)
    ensures FixedValid(FixedStep(d, e, sourceLang).0)
    ensures Pending(d) + Submitted([e]) == FixedStep(d, e, sourceLang).1 + Pending(FixedStep(d, e, sourceLang).0)
  {
    assert [e][1..] == [];
    match e {
      case Said(t) =>
        FixedSubmitPending(d, t, sourceLang);
      case Answered(o) =>
        if d.inFlight.Some? {
          FixedFinishPending(d, o);
        }
      case TimerFired =>
        if d.timerPending {
          FixedFirePending(d, sourceLang);
        }
    }
  }

  /** A trace submits what its first event submits, then what the rest of it submits. */
  lemma SubmittedCons(evs: seq<Event>)
    requires evs != []
    ensures Submitted(evs) == Submitted([evs[0]]) + Submitted(evs[1..])
  {
    assert [evs[0]][1..] == [];
  }

  /**
   * The intended dispatcher finishes every submitted text exactly once, in the order it was
   * submitted: what was pending plus what the trace submits is what the trace finished
   * followed by what is still pending.
   */
  lemma {:induction false} FixedFirstInFirstOut(d: FixedDispatcher, evs: seq<Event>, sourceLang: string)
    requires FixedValid(d)
    ensures FixedValid(FixedRun(d, evs, sourceLang).0)
    ensures Pending(d) + Submitted(evs) == FixedRun(d, evs, sourceLang).1 + Pending(FixedRun(d, evs, sourceLang).0)
    decreases |evs|
  {
    if evs != [] {
      var step := FixedStep(d, evs[0], sourceLang);
      var rest := FixedRun(step.0, evs[1..], sourceLang);
      FixedStepPending(d, evs[0], sourceLang);
      FixedFirstInFirstOut(step.0, evs[1..], sourceLang);
      SubmittedCons(evs);
      var now, later := Submitted([evs[0]]), Submitted(evs[1..]);
      calc {
        Pending(d) + Submitted(evs);
        { Associative(Pending(d), now, later); }
        (Pending(d) + now) + later;
        (step.1 + Pending(step.0)) + later;
        { Associative(step.1, Pending(step.0), later); }
        step.1 + (rest.1 + Pending(rest.0));
        { Associative(step.1, rest.1, Pending(rest.0)); }
        (step.1 + rest.1) + Pending(rest.0);
      }
    }
  }
}
