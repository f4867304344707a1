/** The App component (App.tsx:10-226) as an object: its `useState` fields become fields,
    and each handler becomes a method that updates them in place. The session fields follow
    `SessionMachine.Step`, which is the handlers as written except that a completing analysis
    also discards the other field's stale value; the install fields follow
    `InstallPrompt.InstallStep`. Each method requires the render guard that puts its button
    on screen. */
module AppComponent {
  import opened Types
  import opened SessionMachine
  import opened InstallPrompt

  class App {
    var state: AppState
    var analysis: Option<HealthAnalysis>
    var error: Option<string>
    /** Analysis calls started by `HandleCapture` that have not settled yet. */
    var inFlight: nat
    var deferredPrompt: Option<InstallToken>
    var showInstallBanner: bool

    /** The session fields as a value of the state machine. */
    function Snapshot(): Session
      reads this
    {
      Session(state, analysis, error, inFlight)
    }

    /** The install fields as a value of the install machine. */
    function Installer(): Prompt
      reads this
    {
      Prompt(deferredPrompt, showInstallBanner)
    }

    /** A record is held only in RESULT and an error only in ERROR. */
    ghost predicate Valid()
      reads this
    {
      Inv(Snapshot())
    }

    constructor ()
      ensures Valid()
      ensures Snapshot() == Initial && Installer() == NoPrompt
    {
      state, analysis, error, inFlight := IDLE, None, None, 0;
      deferredPrompt, showInstallBanner := None, false;
    }

    /** The start button of the home screen (App.tsx:111). */
    method StartScan()
      requires Valid() && Enabled(Snapshot(), Event.StartScan)
      modifies this
      ensures Valid()
      ensures Snapshot() == Step(old(Snapshot()), Event.StartScan)
      ensures state == SCANNING && analysis == old(analysis) == None && error == old(error) == None
      ensures inFlight == old(inFlight) && Installer() == old(Installer())
    {
      state := SCANNING;
    }

    /** The scanner's cancel (App.tsx:206). */
    method CancelScan()
      requires Valid() && Enabled(Snapshot(), Event.CancelScan)
      modifies this
      ensures Valid()
      ensures Snapshot() == Step(old(Snapshot()), Event.CancelScan)
      ensures state == IDLE && analysis == old(analysis) && error == old(error)
      ensures inFlight == old(inFlight) && Installer() == old(Installer())
    {
      state := IDLE;
    }

    /** The synchronous part of `handleCapture` (App.tsx:37-38): ANALYZING is entered before
        the outcome of the call is known, and one more call is in flight. */
    method HandleCapture()
      requires Valid() && Enabled(Snapshot(), Event.Capture)
      modifies this
      ensures Valid()
      ensures Snapshot() == Step(old(Snapshot()), Event.Capture)
      ensures state == ANALYZING && analysis == old(analysis) && error == old(error)
      ensures inFlight == old(inFlight) + 1 && Installer() == old(Installer())
    {
      state := ANALYZING;
      inFlight := inFlight + 1;
    }

    /** The rest of `handleCapture` once the call settles (App.tsx:40-47), in whatever state it
        finds the page. Success stores the record unmodified and no error; failure stores the
        fixed message and no record. Each also discards the other field's stale value, the
        correction `SessionMachine.Step` makes to the code as written. */
    method CompleteAnalysis(outcome: AnalysisResult)
      requires Valid() && Enabled(Snapshot(), Event.Complete(outcome))
      modifies this
      ensures Valid()
      ensures Snapshot() == Step(old(Snapshot()), Event.Complete(outcome))
      ensures outcome.Ok? ==> state == RESULT && analysis == Some(outcome.record) && error == None
      ensures outcome.Err? ==> state == ERROR && error == Some(AnalysisFailedMessage) && analysis == None
      ensures inFlight == old(inFlight) - 1 && Installer() == old(Installer())
    {
      match outcome {
        case Ok(record) =>
          analysis := Some(record);
          error := None;
          state := RESULT;
        case Err =>
          error := Some(AnalysisFailedMessage);
          analysis := None;
          state := ERROR;
      }
      inFlight := inFlight - 1;
    }

    /** `reset` (App.tsx:50-54), offered by the header logo (App.tsx:64) on every screen but the
        scanner, which covers it. A call still in flight is not cancelled. */
    method Reset()
      requires Valid() && Enabled(Snapshot(), Event.Reset)
      modifies this
      ensures Valid()
      ensures Snapshot() == Step(old(Snapshot()), Event.Reset)
      ensures state == IDLE && analysis == None && error == None
      ensures inFlight == old(inFlight) && Installer() == old(Installer())
    {
      analysis := None;
      error := None;
      state := IDLE;
    }

    /** The platform's install event is captured and the banner shown (App.tsx:19-23). */
    method OfferInstall(t: InstallToken)
      modifies this
      ensures Installer() == InstallStep(old(Installer()), Offer(t)).0
      ensures deferredPrompt == Some(t) && showInstallBanner
      ensures Snapshot() == old(Snapshot())
    {
      deferredPrompt := Some(t);
      showInstallBanner := true;
    }

    /** The banner's "Plus tard" button hides the banner and keeps the token (App.tsx:198). */
    method DismissBanner()
      requires InstallEnabled(Installer(), Later)
      modifies this
      ensures Installer() == InstallStep(old(Installer()), Later).0
      ensures !showInstallBanner && deferredPrompt == old(deferredPrompt)
      ensures Snapshot() == old(Snapshot())
    {
      showInstallBanner := false;
    }

    /** `handleInstall` (App.tsx:26-35) with the user's answer to the prompt as `choice`.
        `prompted` is the token whose prompt was shown: none when no token is held, in which
        case nothing changes. Otherwise the token is discarded whatever the answer, and the
        banner is hidden only on "accepted". */
    method HandleInstall(choice: string) returns (prompted: Option<InstallToken>)
      requires InstallEnabled(Installer(), Install(choice))
      modifies this
      ensures (Installer(), prompted) == InstallStep(old(Installer()), Install(choice))
      ensures prompted == old(deferredPrompt) && deferredPrompt == None
      ensures old(deferredPrompt).None? ==> showInstallBanner == old(showInstallBanner)
      ensures old(deferredPrompt).Some? ==> (showInstallBanner <==> choice != "accepted")
      ensures Snapshot() == old(Snapshot())
    {
      prompted := deferredPrompt;
      if deferredPrompt.Some? {
        if choice == "accepted" {
          showInstallBanner := false;
        }
        deferredPrompt := None;
      }
    }
  }

  /** A scan whose analysis returns `record` ends in RESULT holding exactly that record and
      no error, and the result card is what the page shows. */
  method ScanThenSucceed(record: HealthAnalysis) returns (shown: Screen, error: Option<string>)
    ensures shown == Report(record) && error == None
  {
    var app := new App();
    app.StartScan();
    app.HandleCapture();
    app.CompleteAnalysis(Ok(record));
    shown := View(app.Snapshot());
    error := app.error;
  }

  /** A scan whose analysis fails ends in ERROR showing the fixed, non-empty message, with no
      record held. */
  method ScanThenFail() returns (shown: Screen, analysis: Option<HealthAnalysis>)
    ensures shown == ErrorPanel(Some(AnalysisFailedMessage)) && |AnalysisFailedMessage| > 0
    ensures analysis == None
  {
    var app := new App();
    app.StartScan();
    app.HandleCapture();
    app.CompleteAnalysis(Err);
    shown := View(app.Snapshot());
    analysis := app.analysis;
  }

  /** A reset while the analysis is running does not stop it: the late success still lands,
      and the page moves from the home screen to the result. */
  method ResetThenLateSuccess(record: HealthAnalysis) returns (before: Screen, after: Screen)
    ensures before == Home && after == Report(record)
  {
    var app := new App();
    app.StartScan();
    app.HandleCapture();
    app.Reset();
    before := View(app.Snapshot());
    app.CompleteAnalysis(Ok(record));
    after := View(app.Snapshot());
  }
}
