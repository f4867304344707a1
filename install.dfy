/** The deferred install offer (App.tsx:14-35, 185-199) as a pure state machine. The platform's
    install event is captured and kept as a token while a banner invites the user to install;
    the Install button shows the platform prompt through the held token and then discards it,
    so each token is redeemed at most once. */
module InstallPrompt {
  import opened Types

  /** The captured platform event, kept only to be replayed. */
  datatype InstallToken = InstallToken(id: nat)

  /** `deferredPrompt` and `showInstallBanner`. */
  datatype Prompt = Prompt(token: Option<InstallToken>, banner: bool)

  /** A fresh page: no token and no banner (App.tsx:14-15). */
  const NoPrompt: Prompt := Prompt(None, false)

  datatype InstallEvent =
    | Offer(offered: InstallToken)   // the platform signals that the app can be installed (App.tsx:19-23)
    | Later                          // the banner's "Plus tard" button (App.tsx:198)
    | Install(choice: string)        // the banner's Install button, with the user's answer (App.tsx:199)

  /** The banner's two buttons exist only while the banner is shown (App.tsx:185); the
      platform may signal at any time. */
  predicate InstallEnabled(p: Prompt, e: InstallEvent)
    ensures e.Offer? ==> InstallEnabled(p, e)
    ensures !e.Offer? ==> (InstallEnabled(p, e) <==> p.banner)
  {
    match e
    case Offer(_) => true
    case Later => p.banner
    case Install(_) => p.banner
  }

  /** The state after an event, and the token whose prompt was shown by it, if any. Install
      with no token held does nothing; with a token it prompts through it, hides the banner
      only when the user accepted, and discards the token whatever the answer. */
  function InstallStep(p: Prompt, e: InstallEvent): (r: (Prompt, Option<InstallToken>))
    ensures !e.Install? ==> r.1.None?
    ensures e.Install? ==> r.1 == p.token && r.0.token.None?
    ensures e.Install? && p.token.None? ==> r.0 == p
    ensures e.Install? && p.token.Some? ==> r.0.banner == (p.banner && e.choice != "accepted")
    ensures e.Offer? ==> r.0 == Prompt(Some(e.offered), true)
    ensures e.Later? ==> r.0 == p.(banner := false)
  {
    match e
    case Offer(t) => (Prompt(Some(t), true), None)
    case Later => (p.(banner := false), None)
    case Install(choice) =>
      if p.token.None? then (p, None)
      else (Prompt(None, if choice == "accepted" then false else p.banner), p.token)
  }

  /** Once a token has been used, a second Install shows no prompt until a new offer. */
  lemma InstallTwice(p: Prompt, c1: string, c2: string)
    ensures InstallStep(InstallStep(p, Install(c1)).0, Install(c2)).1.None?
  {
  }

  /** The tokens offered by a sequence of events, in order. */
  function Offers(trace: seq<InstallEvent>): seq<InstallToken>
    decreases |trace|
  {
    if trace == [] then []
    else (if trace[0].Offer? then [trace[0].offered] else []) + Offers(trace[1..])
  }

  /** The tokens whose prompt a sequence of events shows, in order. */
  function Prompted(p: Prompt, trace: seq<InstallEvent>): seq<InstallToken>
    decreases |trace|
  {
    if trace == [] then []
    else
      var (q, shown) := InstallStep(p, trace[0]);
      (if shown.Some? then [shown.value] else []) + Prompted(q, trace[1..])
  }

  predicate Distinct(s: seq<InstallToken>)
  {
    forall i, j :: 0 <= i < j < |s| ==> s[i] != s[j]
  }

  /** Every prompt is shown through a token that was held at the start or offered later, and,
      when the platform never offers the same token twice, no token is ever prompted twice. */
  lemma {:induction false} RedeemedAtMostOnce(p: Prompt, trace: seq<InstallEvent>)
    requires Distinct(Offers(trace))
    requires p.token.Some? ==> p.token.value !in Offers(trace)
    ensures forall x :: x in Prompted(p, trace) ==> x in Offers(trace) || p.token == Some(x)
    ensures Distinct(Prompted(p, trace))
    decreases |trace|
  {
    if trace != [] {
      var e, rest := trace[0], trace[1..];
      var (q, shown) := InstallStep(p, e);
      assert Offers(trace) == (if e.Offer? then [e.offered] else []) + Offers(rest);
      assert Prompted(p, trace) == (if shown.Some? then [shown.value] else []) + Prompted(q, rest);
      assert Distinct(Offers(rest)) by {
        var n := if e.Offer? then 1 else 0;
        forall i, j | 0 <= i < j < |Offers(rest)|
          ensures Offers(rest)[i] != Offers(rest)[j]
        {
          assert Offers(rest)[i] == Offers(trace)[i + n];
          assert Offers(rest)[j] == Offers(trace)[j + n];
        }
      }
      if e.Offer? {
        forall k | 0 <= k < |Offers(rest)| ensures Offers(rest)[k] != e.offered {
          assert Offers(rest)[k] == Offers(trace)[k + 1];
          assert Offers(trace)[0] == e.offered;
        }
      }
      assert q.token.Some? ==> q.token.value !in Offers(rest);
      RedeemedAtMostOnce(q, rest);
    }
  }

  /** From a fresh page, every prompt is shown through an offered token, and distinct offers
      are each redeemed at most once. */
  lemma FreshPageRedeemsOffers(trace: seq<InstallEvent>)
    requires Distinct(Offers(trace))
    ensures forall x :: x in Prompted(NoPrompt, trace) ==> x in Offers(trace)
    ensures Distinct(Prompted(NoPrompt, trace))
  {
    RedeemedAtMostOnce(NoPrompt, trace);
  }
}
