/** The session controller of the scanning screen (App.tsx:11-13, 37-54 and the render guards
    of App.tsx:64-207) as a pure state machine. Each user action and the completion of the
    analysis call is an event. `StepAsWritten` gives the state after an event exactly as the
    handlers write it; `Step` is the same controller with the completion corrected (see
    `AsWrittenBreaksInv`), and it is the one the class in app.dfy runs in place. `Enabled` says
    which events the rendered screen offers.

    The analysis call is asynchronous: `handleCapture` switches to ANALYZING at once and
    writes the outcome only when the call settles, without looking at the state it then
    finds. Its completion is therefore its own event, `Complete`, enabled whenever a call
    is still in flight, including after a reset. `inFlight` counts those calls. */
module SessionMachine {
  import opened Types

  /** The fixed message stored when an analysis fails (App.tsx:45). */
  const AnalysisFailedMessage: string :=
    "L'analyse a échoué. Assurez-vous que l'image est bien éclairée et que le texte est lisible."

  /** The controller's state: the screen, the last record, the last error message, and the
      number of analysis calls that have not settled yet. */
  datatype Session = Session(
    state: AppState,
    analysis: Option<HealthAnalysis>,
    error: Option<string>,
    inFlight: nat)

  /** A fresh page: IDLE, nothing stored, nothing in flight (App.tsx:11-13). */
  const Initial: Session := Session(IDLE, None, None, 0)

  /** How the analysis call settles: the record it resolved with, or a rejection. */
  datatype AnalysisResult = Ok(record: HealthAnalysis) | Err

  datatype Event =
    | StartScan                      // the start button (App.tsx:111)
    | CancelScan                     // the scanner's cancel (App.tsx:206)
    | Capture                        // a frame was captured: handleCapture starts (App.tsx:37-38)
    | Complete(outcome: AnalysisResult)  // the analysis call settles (App.tsx:40-47)
    | Reset                          // the header logo (App.tsx:64), the result card or the error panel

  /** What the main area shows. */
  datatype Screen =
    | Home
    | Camera
    | Spinner
    | Report(data: HealthAnalysis)
    | ErrorPanel(message: Option<string>)
    | Blank

  /** The screen rendered for a state (App.tsx:99, 149, 163, 167, 205). RESULT without a
      record renders nothing, which the invariant below rules out. */
  function View(s: Session): (v: Screen)
    ensures v.Home? <==> s.state == IDLE
    ensures v.Camera? <==> s.state == SCANNING
    ensures v.Spinner? <==> s.state == ANALYZING
    ensures v.Report? <==> s.state == RESULT && s.analysis.Some?
    ensures v.Report? ==> v.data == s.analysis.value
    ensures v.ErrorPanel? <==> s.state == ERROR
    ensures v.ErrorPanel? ==> v.message == s.error
  {
    match s.state
    case IDLE => Home
    case SCANNING => Camera
    case ANALYZING => Spinner
    case RESULT => if s.analysis.Some? then Report(s.analysis.value) else Blank
    case ERROR => ErrorPanel(s.error)
  }

  /** Which events can happen: the start button exists only on the home screen, the cancel
      and capture buttons only inside the scanner, a completion only while a call is in
      flight. The header logo resets from every screen except the scanner, whose full-screen
      overlay (CameraScanner.tsx:54) covers the header; the result card and the error panel
      also reset, from RESULT and ERROR. So neither a new scan nor a capture can start while
      the spinner is shown. */
  predicate Enabled(s: Session, e: Event)
    ensures e.StartScan? ==> (Enabled(s, e) <==> s.state == IDLE)
    ensures (e.CancelScan? || e.Capture?) ==> (Enabled(s, e) <==> s.state == SCANNING)
    ensures e.Reset? ==> (Enabled(s, e) <==> s.state != SCANNING)
    ensures s.state == ANALYZING && (e.StartScan? || e.Capture?) ==> !Enabled(s, e)
  {
    match e
    case StartScan => View(s).Home?
    case CancelScan => View(s).Camera?
    case Capture => View(s).Camera?
    case Complete(_) => s.inFlight > 0
    case Reset => !View(s).Camera?
  }

  function Settle(n: nat): nat
  {
    if n == 0 then 0 else n - 1
  }

  /** The handlers exactly as App.tsx writes them. A successful completion stores the record
      and leaves `error` alone; a failed one stores the message and leaves `analysis` alone. */
  function StepAsWritten(s: Session, e: Event): (r: Session)
    ensures e.StartScan? ==> r == s.(state := SCANNING)
    ensures e.CancelScan? ==> r == s.(state := IDLE)
    ensures e.Capture? ==> r.state == ANALYZING && r.analysis == s.analysis && r.error == s.error
                           && r.inFlight == s.inFlight + 1
    ensures e.Complete? && e.outcome.Ok? ==>
      r.state == RESULT && r.analysis == Some(e.outcome.record) && r.error == s.error
    ensures e.Complete? && e.outcome.Err? ==>
      r.state == ERROR && r.error == Some(AnalysisFailedMessage) && r.analysis == s.analysis
    ensures e.Complete? && s.inFlight > 0 ==> r.inFlight == s.inFlight - 1
    ensures e.Reset? ==> r == Session(IDLE, None, None, s.inFlight)
  {
    match e
    case StartScan => s.(state := SCANNING)
    case CancelScan => s.(state := IDLE)
    case Capture => s.(state := ANALYZING, inFlight := s.inFlight + 1)
    case Complete(Ok(r)) => s.(analysis := Some(r), state := RESULT, inFlight := Settle(s.inFlight))
    case Complete(Err) =>
      s.(error := Some(AnalysisFailedMessage), state := ERROR, inFlight := Settle(s.inFlight))
    case Reset => s.(analysis := None, error := None, state := IDLE)
  }

  /** The handlers with the completion corrected: entering RESULT also discards a stale
      error and entering ERROR a stale record. Every other event is as written. */
  function Step(s: Session, e: Event): (r: Session)
    ensures !e.Complete? ==> r == StepAsWritten(s, e)
    ensures r.state == StepAsWritten(s, e).state && r.inFlight == StepAsWritten(s, e).inFlight
    ensures e.Complete? ==> (r.analysis.Some? <==> r.state == RESULT) && (r.error.Some? <==> r.state == ERROR)
    ensures e.Complete? && e.outcome.Ok? ==> r.analysis == Some(e.outcome.record)
    ensures e.Complete? && e.outcome.Err? ==> r.error == Some(AnalysisFailedMessage)
  {
    var t := StepAsWritten(s, e);
    match e
    case Complete(Ok(_)) => t.(error := None)
    case Complete(Err) => t.(analysis := None)
    case _ => t
  }

  /** The state after a sequence of events. */
  function Run(step: (Session, Event) -> Session, s: Session, trace: seq<Event>): Session
    decreases |trace|
  {
    if trace == [] then s else Run(step, step(s, trace[0]), trace[1..])
  }

  /** Every event of the sequence is possible in the state it meets. */
  predicate ValidRun(step: (Session, Event) -> Session, enabled: (Session, Event) -> bool,
                     s: Session, trace: seq<Event>)
    decreases |trace|
  {
    trace == [] || (enabled(s, trace[0]) && ValidRun(step, enabled, step(s, trace[0]), trace[1..]))
  }

  /** A record is held exactly in RESULT, an error exactly in ERROR, and the only error ever
      held is the fixed message. */
  predicate Inv(s: Session)
  {
    && (s.analysis.Some? <==> s.state == RESULT)
    && (s.error.Some? <==> s.state == ERROR)
    && (s.error.Some? ==> s.error.value == AnalysisFailedMessage)
  }

  lemma InitialInv()
    ensures Inv(Initial) && View(Initial) == Home
  {
  }

  /** Under the invariant every state renders a screen, RESULT renders the stored record and
      ERROR renders the fixed message. */
  lemma ViewUnderInv(s: Session)
    requires Inv(s)
    ensures !View(s).Blank?
    ensures s.state == RESULT ==> View(s) == Report(s.analysis.value)
    ensures s.state == ERROR ==> View(s) == ErrorPanel(Some(AnalysisFailedMessage))
  {
  }

  /** Every possible event keeps the invariant, a late completion included. */
  lemma StepKeepsInv(s: Session, e: Event)
    requires Inv(s) && Enabled(s, e)
    ensures Inv(Step(s, e))
  {
  }

  /** The invariant holds after every sequence of possible events, whatever the interleaving
      of resets, new scans and late completions. */
  lemma {:induction false} InvOnEveryRun(s: Session, trace: seq<Event>)
    requires Inv(s) && ValidRun(Step, Enabled, s, trace)
    ensures Inv(Run(Step, s, trace))
    decreases |trace|
  {
    if trace != [] {
      StepKeepsInv(s, trace[0]);
      InvOnEveryRun(Step(s, trace[0]), trace[1..]);
    }
  }

  /** What the code as written does keep on every sequence of events, possible or not: RESULT
      holds a record, ERROR holds an error, and that error is the fixed message. */
  predicate WeakInv(s: Session)
  {
    && (s.state == RESULT ==> s.analysis.Some?)
    && (s.state == ERROR ==> s.error.Some?)
    && (s.error.Some? ==> s.error.value == AnalysisFailedMessage)
  }

  lemma {:induction false} WeakInvAsWritten(s: Session, trace: seq<Event>)
    requires WeakInv(s)
    ensures WeakInv(Run(StepAsWritten, s, trace))
    decreases |trace|
  {
    if trace != [] {
      WeakInvAsWritten(StepAsWritten(s, trace[0]), trace[1..]);
    }
  }

  /** A run of the first event then the rest. */
  lemma RunCons(step: (Session, Event) -> Session, enabled: (Session, Event) -> bool,
                s: Session, e: Event, rest: seq<Event>)
    ensures Run(step, s, [e] + rest) == Run(step, step(s, e), rest)
    ensures ValidRun(step, enabled, s, [e] + rest)
            <==> enabled(s, e) && ValidRun(step, enabled, step(s, e), rest)
  {
    assert ([e] + rest)[1..] == rest;
  }

  /** The two orders in which the calls of two overlapping scans can settle, after scan,
      capture, reset, scan, capture. */
  function Overlap(first: AnalysisResult, second: AnalysisResult): seq<Event>
  {
    [StartScan, Capture, Reset, StartScan, Capture, Complete(first), Complete(second)]
  }

  /** Runs `Overlap(first, second)` one event at a time, under the corrected step or the step
      as written: both reach ANALYZING with two calls in flight before the calls settle. */
  lemma {:induction false} OverlapRun(corrected: bool, first: AnalysisResult, second: AnalysisResult)
    ensures var step := if corrected then Step else StepAsWritten;
      && ValidRun(step, Enabled, Initial, Overlap(first, second))
      && Run(step, Initial, Overlap(first, second))
         == step(step(Session(ANALYZING, None, None, 2), Complete(first)), Complete(second))
  {
    var step := if corrected then Step else StepAsWritten;
    var t := Overlap(first, second);
    var s1 := Session(SCANNING, None, None, 0);
    var s2 := Session(ANALYZING, None, None, 1);
    var s3 := Session(IDLE, None, None, 1);
    var s4 := Session(SCANNING, None, None, 1);
    var s5 := Session(ANALYZING, None, None, 2);
    var s6 := step(s5, Complete(first));
    assert step(Initial, StartScan) == s1;
    assert step(s1, Capture) == s2;
    assert step(s2, Reset) == s3;
    assert step(s3, StartScan) == s4;
    assert step(s4, Capture) == s5;
    assert s6.inFlight == 1;
    RunCons(step, Enabled, s6, Complete(second), []);
    RunCons(step, Enabled, s5, Complete(first), [Complete(second)]);
    RunCons(step, Enabled, s4, Capture, t[5..]);
    RunCons(step, Enabled, s3, StartScan, t[4..]);
    RunCons(step, Enabled, s2, Reset, t[3..]);
    RunCons(step, Enabled, s1, Capture, t[2..]);
    RunCons(step, Enabled, Initial, StartScan, t[1..]);
    assert t == [StartScan] + t[1..];
  }

  /** The code as written breaks the invariant once two analyses are in flight: scan, capture,
      reset, scan, capture, and the two calls settle in turn. A failure then a success leaves
      the message held in RESULT; a success then a failure leaves the record held in ERROR. */
  lemma AsWrittenBreaksInv(r: HealthAnalysis)
    ensures ValidRun(StepAsWritten, Enabled, Initial, Overlap(Err, Ok(r)))
    ensures Run(StepAsWritten, Initial, Overlap(Err, Ok(r)))
            == Session(RESULT, Some(r), Some(AnalysisFailedMessage), 0)
    ensures ValidRun(StepAsWritten, Enabled, Initial, Overlap(Ok(r), Err))
    ensures Run(StepAsWritten, Initial, Overlap(Ok(r), Err))
            == Session(ERROR, Some(r), Some(AnalysisFailedMessage), 0)
    ensures !Inv(Run(StepAsWritten, Initial, Overlap(Err, Ok(r))))
    ensures !Inv(Run(StepAsWritten, Initial, Overlap(Ok(r), Err)))
  {
    OverlapRun(false, Err, Ok(r));
    OverlapRun(false, Ok(r), Err);
  }

  /** The same two runs under the corrected completion end with only the last outcome held. */
  lemma CorrectedSettlesCleanly(r: HealthAnalysis)
    ensures Run(Step, Initial, Overlap(Err, Ok(r))) == Session(RESULT, Some(r), None, 0)
    ensures Run(Step, Initial, Overlap(Ok(r), Err))
            == Session(ERROR, None, Some(AnalysisFailedMessage), 0)
  {
    OverlapRun(true, Err, Ok(r));
    OverlapRun(true, Ok(r), Err);
  }

  /** A reset does not cancel the call in flight: its late completion moves the home screen
      straight to the result. */
  lemma LateCompletionAfterReset(r: HealthAnalysis)
    ensures ValidRun(Step, Enabled, Initial, [StartScan, Capture, Reset, Complete(Ok(r))])
    ensures Run(Step, Initial, [StartScan, Capture, Reset]) == Session(IDLE, None, None, 1)
    ensures Run(Step, Initial, [StartScan, Capture, Reset, Complete(Ok(r))])
            == Session(RESULT, Some(r), None, 0)
  {
    var s3 := Session(IDLE, None, None, 1);
    RunCons(Step, Enabled, s3, Complete(Ok(r)), []);
    RunCons(Step, Enabled, Session(ANALYZING, None, None, 1), Reset, [Complete(Ok(r))]);
    RunCons(Step, Enabled, Session(SCANNING, None, None, 0), Capture, [Reset, Complete(Ok(r))]);
    RunCons(Step, Enabled, Initial, StartScan, [Capture, Reset, Complete(Ok(r))]);
    RunCons(Step, Enabled, Session(ANALYZING, None, None, 1), Reset, []);
    RunCons(Step, Enabled, Session(SCANNING, None, None, 0), Capture, [Reset]);
    RunCons(Step, Enabled, Initial, StartScan, [Capture, Reset]);
  }

  /** Events that never start a second capture while an earlier analysis is still in flight
      (a new scan may start; only its capture waits). */
  predicate Serial(s: Session, e: Event)
  {
    Enabled(s, e) && (e.Capture? ==> s.inFlight == 0)
  }

  /** At most one call in flight, and while it is, nothing is stored. */
  predicate Quiet(s: Session)
  {
    Inv(s) && s.inFlight <= 1 && (s.inFlight == 1 ==> s.analysis.None? && s.error.None?)
  }

  /** On such serial events the correction changes nothing and the code as written keeps
      the invariant. */
  lemma SerialStepAgrees(s: Session, e: Event)
    requires Quiet(s) && Serial(s, e)
    ensures StepAsWritten(s, e) == Step(s, e)
    ensures Quiet(StepAsWritten(s, e))
  {
  }

  /** With at most one analysis in flight at a time the code as written keeps the invariant
      and does exactly what the corrected controller does: the fault needs a second capture
      while the first call is still in flight. */
  lemma {:induction false} AsWrittenSafeWhenSerial(s: Session, trace: seq<Event>)
    requires Quiet(s) && ValidRun(StepAsWritten, Serial, s, trace)
    ensures Inv(Run(StepAsWritten, s, trace))
    ensures Run(StepAsWritten, s, trace) == Run(Step, s, trace)
    decreases |trace|
  {
    if trace != [] {
      SerialStepAgrees(s, trace[0]);
      AsWrittenSafeWhenSerial(StepAsWritten(s, trace[0]), trace[1..]);
    }
  }
}
