# HealthScan session controller and result card, in Dafny

HealthScan is a browser app. It photographs a food product, sends the photo to a hosted
vision model and shows the model's structured health assessment. This project models the two
pieces of logic in its front end:

- **The session controller** of `App.tsx`. It is a five-state machine (IDLE, SCANNING,
  ANALYZING, RESULT, ERROR) that holds the current state, the last analysis record and the
  last error message. Beside it sits the deferred install offer: a platform token is stored,
  then redeemed at most once by the Install button.
  - `SessionMachine` (session.dfy) states the controller as a pure machine.
    - `StepAsWritten` gives the handlers' effect exactly as App.tsx writes them.
    - `Step` is the corrected controller. It is the same as `StepAsWritten` except that a
      completing analysis also discards the other field's stale value (see Findings).
    - `Enabled` gives the render guards that decide which buttons exist.
    - `View` gives the screen shown for a state.
  - `InstallPrompt` (install.dfy) states the install offer the same way.
  - `AppComponent.App` (app.dfy) is the component as a class. Its fields are the `useState`
    variables, and it has one method per event. Each method's contract ties its new state to
    the corrected step `Step`. Only the completion differs from the code as written.
  - The analysis call is asynchronous and its completion does not look at the state it finds.
    So "the analysis settles" is its own event, `Complete`, and the machine counts the calls
    still in flight. Because a reset does not cancel them, the proofs cover every interleaving
    of resets, new scans and late completions.
- **The result card's presentation rules** in `components/ResultCard.tsx`, in `ResultCard`
  (result_card.dfy). These are the four-band colour of the health score, the verdict badge,
  the nutrient impact dot, and the guard on the additives section.

`Types` (types.dfy) holds the records of `types.ts`. The health score is an unbounded `int`:
it is documented as 0 to 100, but nothing enforces that. The verdict and the impact are kept
as the text the response carries, because the response is cast without validation. The
enumerations `Verdict` and `Impact`, with their labels, give the values the schema allows.

Two points about the source:
- `reset` is reachable from more than RESULT and ERROR. The header logo (App.tsx:64) offers it
  on every screen except the scanner, whose full-screen overlay covers the header
  (components/CameraScanner.tsx:54). So the header resets from IDLE and ANALYZING too.
- The verdicts are the French texts `Excellent`, `Bon`, `Médiocre` and `Mauvais`.

The intended rule is that a record is held only in RESULT and an error only in ERROR: entering
RESULT clears a stale error, and entering ERROR clears a stale record. The code's completion
does not clear the other field. `StepAsWritten` models the code, and `Step` and the class
follow the intended rule (see Findings).

## Model

| member | source | states |
|---|---|---|
| Types.VerdictLabel | types.ts:5 | each verdict is sent as one of the four French texts of the schema |
| Types.VerdictLabelInjective | types.ts:5 | distinct verdicts are distinct texts |
| Types.ImpactLabel | types.ts:10 | each impact is sent as one of "positive", "neutral", "negative" |
| Types.ImpactLabelInjective | types.ts:10 | distinct impacts are distinct texts |
| ResultCard.ScoreColor | components/ResultCard.tsx:11-16 | emerald exactly for scores of 80 and up, lime exactly for 60..79, amber exactly for 40..59, rose exactly below 40 (negative scores included); every integer gets one of the four |
| ResultCard.ScoreColorMonotone | components/ResultCard.tsx:11-16 | a higher score never gets a worse colour band |
| ResultCard.ScoreHalo | components/ResultCard.tsx:44 | the halo class is the score class with its leading "text" replaced by "bg" |
| ResultCard.VerdictStyles | components/ResultCard.tsx:18-26 | each of the four verdict texts gets its own badge; exactly the texts outside the four get the slate default |
| ResultCard.VerdictStylesDistinct | components/ResultCard.tsx:18-26 | the four verdicts get four pairwise different badges, none of them the default |
| ResultCard.ImpactDot | components/ResultCard.tsx:69 | emerald exactly for "positive", rose exactly for "negative", amber for every other text including "neutral" |
| ResultCard.ImpactDotDistinct | components/ResultCard.tsx:69 | the three schema impacts get three different dots |
| ResultCard.NutrientDots | components/ResultCard.tsx:64-72 | one dot per nutrient, in order, each coloured by that nutrient's impact |
| ResultCard.AdditivesSection | components/ResultCard.tsx:103-114 | the additives section is absent exactly when the list is empty, and otherwise lists every additive in order |
| SessionMachine.StepAsWritten | App.tsx:37-54 | each handler as written: start moves to SCANNING and cancel to IDLE, changing nothing else; capture enters ANALYZING with one more call in flight; success holds the record in RESULT and leaves the error; failure holds the fixed message in ERROR and leaves the record; reset empties both and keeps the calls in flight |
| SessionMachine.Step | App.tsx:37-54 | the corrected controller: equal to the handlers as written except on completion, where it leaves exactly the outcome held (record exactly in RESULT, message exactly in ERROR) |
| SessionMachine.Enabled | App.tsx:64-206 | start only in IDLE (App.tsx:99, 111); cancel and capture only in SCANNING (App.tsx:205-206); reset everywhere except SCANNING, where the scanner covers the header; a completion only while a call is in flight; no start or capture while analysing |
| SessionMachine.View | App.tsx:99-207 | IDLE shows home, SCANNING the camera, ANALYZING the spinner, ERROR the error panel with the held message; RESULT shows the card with the held record, or nothing when none is held |
| SessionMachine.InitialInv | App.tsx:11-13 | the page starts in IDLE with nothing held, on the home screen |
| SessionMachine.ViewUnderInv | App.tsx:163-175 | under the invariant, RESULT always shows the held record and ERROR the fixed message, so no state renders nothing (given that a successful analysis always yields a record) |
| SessionMachine.StepKeepsInv | App.tsx:37-54 | under the corrected completion, every possible event keeps "record held exactly in RESULT, error held exactly in ERROR, and the error is the fixed message" |
| SessionMachine.InvOnEveryRun | App.tsx:37-54 | for the corrected controller, that invariant holds after every sequence of possible events, late completions after a reset included |
| SessionMachine.WeakInvAsWritten | App.tsx:37-54 | the handlers as written still guarantee that RESULT holds a record and ERROR holds the fixed message, after any sequence of events |
| SessionMachine.AsWrittenBreaksInv | App.tsx:40-46 | as written, two overlapping analyses leave the error held in RESULT, or the record held in ERROR |
| SessionMachine.CorrectedSettlesCleanly | App.tsx:40-46 | with the correction, the same two runs end holding only the last outcome |
| SessionMachine.LateCompletionAfterReset | App.tsx:37-54 | a reset does not cancel the analysis: its late success moves the page from IDLE to RESULT |
| SessionMachine.SerialStepAgrees | App.tsx:37-54 | with at most one analysis in flight, one step as written equals the corrected step and keeps that condition |
| SessionMachine.AsWrittenSafeWhenSerial | App.tsx:37-54 | if no second capture happens while an analysis is in flight, the code as written keeps the invariant and behaves exactly like the corrected controller |
| InstallPrompt.InstallEnabled | App.tsx:185-199 | the banner's two buttons exist exactly while the banner is shown; the platform may offer at any time |
| InstallPrompt.InstallStep | App.tsx:19-35 | an offer stores the token and shows the banner; Install with no token changes nothing; otherwise it prompts through the held token, always discards it, and hides the banner only on "accepted" |
| InstallPrompt.InstallTwice | App.tsx:26-35 | after one Install, a second one shows no prompt |
| InstallPrompt.RedeemedAtMostOnce | App.tsx:19-35 | every prompt uses a held or offered token, and when offers are distinct no token is prompted twice |
| InstallPrompt.FreshPageRedeemsOffers | App.tsx:14-35 | from a fresh page, prompts use only offered tokens, each at most once |
| AppComponent.App.constructor | App.tsx:11-15 | the component starts in IDLE with no record, no error, no token and no banner |
| AppComponent.App.StartScan | App.tsx:99-111 | offered only on the home screen; moves IDLE to SCANNING and leaves record and error untouched (both empty) |
| AppComponent.App.CancelScan | App.tsx:205-206 | offered only in the scanner; moves SCANNING to IDLE and changes nothing else |
| AppComponent.App.HandleCapture | App.tsx:37-38 | enters ANALYZING before the outcome is known, with one more call in flight; record and error untouched |
| AppComponent.App.CompleteAnalysis | App.tsx:39-47 | success holds exactly the returned record in RESULT; failure holds the fixed message in ERROR; with the correction, the other field is emptied and the invariant is kept |
| AppComponent.App.Reset | App.tsx:50-54 | from any screen but the scanner: IDLE, no record, no error; calls in flight are not cancelled |
| AppComponent.App.OfferInstall | App.tsx:18-23 | stores the offered token and shows the banner; the session is untouched |
| AppComponent.App.DismissBanner | App.tsx:198 | hides the banner and keeps the token |
| AppComponent.App.HandleInstall | App.tsx:26-35 | prompts through the held token, if any; with none it changes nothing; otherwise it discards the token and hides the banner only on "accepted" |
| AppComponent.ScanThenSucceed | App.tsx:37-42 | a scan whose analysis returns a record shows exactly that record, with no error held |
| AppComponent.ScanThenFail | App.tsx:43-46 | a scan whose analysis fails shows the fixed, non-empty message, with no record held |
| AppComponent.ResetThenLateSuccess | App.tsx:37-54 | reset during analysis shows home, then the late success shows the result |

## Left out

- components/CameraScanner.tsx: camera access, frame capture, JPEG encoding and track release are browser I/O. A capture is the event `Capture`, which carries no image because no state depends on it.
- services/geminiService.ts: the network call to the hosted model. Its outcome is the parameter of `Complete`: `Ok(record)`, or `Err` for any rejection, including the empty-response error.
- SessionMachine.ViewUnderInv: `Ok(record)` always carries a record. The service casts `JSON.parse` without checking (services/geminiService.ts:61), so a response text of `null` would enter RESULT with nothing held, and nothing would render. The model does not cover that case.
- components/InstallationModal.tsx, components/Logo.tsx, the `isGuideOpen` flag and the subscribe button: static markup with no logic.
- All styling that depends on the state (App.tsx:62-72, 89), `console.error` calls, and the registration of the `beforeinstallprompt` listener. The listener's effect is `OfferInstall`.
- AppComponent.App.HandleInstall: the prompt and the user's answer happen as one step. The model does not cover a second click while the first prompt awaits an answer.
- InstallPrompt.RedeemedAtMostOnce: the at-most-once result rests on Install being one atomic step. In the source, the token stays held across the `await` (App.tsx:27-33) and the Install button stays on screen (App.tsx:199). A second click before the answer would call `prompt()` on the same token again, and the model does not cover that.
- Fractional health scores: the score is an integer, and floating point is not modelled.
- AppComponent.App.CompleteAnalysis: follows the corrected completion of the finding below. `SessionMachine.StepAsWritten` keeps the code's exact behaviour.

## Findings

The analysis completion (App.tsx:40-46) sets only its own field and the state. It does not
check whether the page has moved on, and a reset does not cancel the call. So two analyses
can be in flight at once: scan, capture, reset (header logo), scan, capture. When the first
call fails and the second succeeds, the page ends in RESULT with the failure message still
held. In the other order, it ends in ERROR with a record still held. Neither view displays
the stale field, and the next reset clears both. Still, "only one of record and error is held
at a time" does not hold. The corrected completion also clears the other field. That
correction changes nothing on any run where no second capture happens while an analysis is in flight
(`SessionMachine.AsWrittenSafeWhenSerial`).

| source | as written | input that shows it | evidently intended | confidence | as-written member | corrected member |
|---|---|---|---|---|---|---|
| App.tsx:40-46 | success keeps a stale `error`, failure keeps a stale `analysis` | start, capture, reset (header logo during analysis), start, capture, first call fails, second succeeds | entering RESULT clears the error, entering ERROR clears the record, so a record is held only in RESULT and an error only in ERROR | not executed; the run is proved reachable | SessionMachine.AsWrittenBreaksInv | SessionMachine.InvOnEveryRun |
