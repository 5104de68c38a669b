/** The top-level component of `src/App.js`: which screen is shown and the
    email it passes on, driven by the callbacks the screens invoke. */
module ScreenFlow {
  import opened Wrappers

  /** The values of `stage`: "login", "2fa" and "dashboard". */
  datatype Stage = LoginStage | TwoFactorStage | DashboardStage

  datatype Screen = Screen(stage: Stage, email: string)

  /** The callbacks: `onSuccess(em)` of the sign-in screen, `onCancel` and
      `onVerified` of the PIN screen, `onLogout` of the dashboard. */
  datatype Event = SignedIn(em: string) | Cancelled | Verified | LoggedOut

  const Initial := Screen(LoginStage, "")

  /** The screen after a callback, or None when the screen offering that
      callback is not the one shown. */
  function Step(s: Screen, e: Event): (r: Option<Screen>)
    ensures r.Some? && r.value.stage == DashboardStage ==>
      s.stage == DashboardStage || (s.stage == TwoFactorStage && e == Verified)
  {
    match (s.stage, e)
    case (LoginStage, SignedIn(em)) => Some(Screen(TwoFactorStage, em))
    case (TwoFactorStage, Cancelled) => Some(Screen(LoginStage, s.email))
    case (TwoFactorStage, Verified) => Some(Screen(DashboardStage, s.email))
    case (DashboardStage, LoggedOut) => Some(Screen(LoginStage, ""))
    case _ => None
  }

  /** The screen after a sequence of callbacks, or None if one of them was
      not on offer. */
  function Run(s: Screen, events: seq<Event>): Option<Screen>
    decreases |events|
  {
    if events == [] then Some(s)
    else match Step(s, events[0])
      case None => None
      case Some(next) => Run(next, events[1..])
  }

  /** The dashboard is reached only through `onVerified` of the PIN
      screen: any history that ends on the dashboard and did not start
      there passes through the PIN screen and its verification. */
  lemma {:induction false} DashboardOnlyAfterVerified(s: Screen, events: seq<Event>)
    requires s.stage != DashboardStage
    requires Run(s, events).Some? && Run(s, events).value.stage == DashboardStage
    ensures exists i ::
              && 0 <= i < |events| && events[i] == Verified
              && Run(s, events[..i]).Some? && Run(s, events[..i]).value.stage == TwoFactorStage
    decreases |events|
  {
    assert events != [];
    var next := Step(s, events[0]).value;
    if next.stage == DashboardStage {
      assert events[..0] == [];
    } else {
      DashboardOnlyAfterVerified(next, events[1..]);
      var i :| 0 <= i < |events[1..]| && events[1..][i] == Verified &&
        Run(next, events[1..][..i]).Some? && Run(next, events[1..][..i]).value.stage == TwoFactorStage;
      assert events[..i + 1][1..] == events[1..][..i];
      assert events[i + 1] == Verified;
    }
  }

  /** Only a sign-in sets the email and only a return to the sign-in
      screen can drop it: a history without `onSuccess` that ends on the
      PIN screen or the dashboard started on one of them and keeps its
      email. */
  lemma {:induction false} EmailKeptUntilSignIn(s: Screen, events: seq<Event>)
    requires Run(s, events).Some? && Run(s, events).value.stage != LoginStage
    requires forall i :: 0 <= i < |events| ==> !events[i].SignedIn?
    ensures s.stage != LoginStage && Run(s, events).value.email == s.email
    decreases |events|
  {
    if events != [] {
      EmailKeptUntilSignIn(Step(s, events[0]).value, events[1..]);
    }
  }

  class App {
    var stage: Stage
    var email: string

    function Current(): Screen
      reads this
    {
      Screen(stage, email)
    }

    constructor ()
      ensures Current() == Initial
    {
      stage := LoginStage;
      email := "";
    }

    /** `onSuccess(em)` of the sign-in screen. */
    method OnSuccess(em: string)
      requires stage == LoginStage
      modifies this
      ensures Some(Current()) == Step(old(Current()), SignedIn(em))
      ensures stage == TwoFactorStage && email == em
    {
      email := em;
      stage := TwoFactorStage;
    }

    /** `onCancel` of the PIN screen, also its lockout: back to sign-in,
        keeping the email. */
    method OnCancel()
      requires stage == TwoFactorStage
      modifies this
      ensures Some(Current()) == Step(old(Current()), Cancelled)
      ensures stage == LoginStage && email == old(email)
    {
      stage := LoginStage;
    }

    /** `onVerified` of the PIN screen. */
    method OnVerified()
      requires stage == TwoFactorStage
      modifies this
      ensures Some(Current()) == Step(old(Current()), Verified)
      ensures stage == DashboardStage && email == old(email)
    {
      stage := DashboardStage;
    }

    /** `onLogout` of the dashboard: the email is forgotten. */
    method OnLogout()
      requires stage == DashboardStage
      modifies this
      ensures Some(Current()) == Step(old(Current()), LoggedOut)
      ensures Current() == Initial
    {
      email := "";
      stage := LoginStage;
    }
  }
}
