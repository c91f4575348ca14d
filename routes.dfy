/** The route guards of the application shell and the authentication state
    they read. */
module Routes {
  import opened Sessions
  import opened Gateway

  const LoginPath := "/login"
  const RootPath := "/"
  const SetPasswordPath := "/set-initial-password"
  const ProfileNotFound := "profile_not_found"

  /** What a route renders: a loading notice, a redirect (with the error it
      carries in its state, if any), the nested routes, or the login page. */
  datatype Screen = Loading | Navigate(to: string, error: Option<string>) | Outlet | LoginPage

  /** What the guards read: the signed-in user (None when there is no
      session), the loaded profile and the two loading flags. */
  datatype Auth = Auth(session: Option<UserId>, profile: Option<Profile>, loadingSession: bool, loadingProfile: bool)

  predicate Settled(a: Auth)
  {
    !a.loadingSession && !a.loadingProfile
  }

  /** Signed in, with a profile that needs no password change. */
  predicate Ready(a: Auth)
  {
    a.session.Some? && a.profile.Some? && !a.profile.value.needsPasswordChange
  }

  /** Signed in, with a profile that still needs a password change. */
  predicate MustChangePassword(a: Auth)
  {
    a.session.Some? && a.profile.Some? && a.profile.value.needsPasswordChange
  }

  /** The guard around "/" and "/set-initial-password". */
  function ProtectedRoute(a: Auth, path: string): Screen
  {
    if !Settled(a) then Loading
    else if a.session.None? then Navigate(LoginPath, None)
    else if a.profile.None? then Navigate(LoginPath, Some(ProfileNotFound))
    else if a.profile.value.needsPasswordChange && path != SetPasswordPath then Navigate(SetPasswordPath, None)
    else if !a.profile.value.needsPasswordChange && path == SetPasswordPath then Navigate(RootPath, None)
    else Outlet
  }

  /** The guard around "/login". */
  function LoginRoute(a: Auth): Screen
  {
    if !Settled(a) then Loading
    else if Ready(a) then Navigate(RootPath, None)
    else if MustChangePassword(a) then Navigate(SetPasswordPath, None)
    else LoginPage
  }

  /** Every other path. */
  function CatchAll(a: Auth): (s: Screen)
  {
    Navigate(if Ready(a) then RootPath else LoginPath, None)
  }

  /** The protected guard shows loading before any other check, and each of
      its outcomes happens exactly in its own case; the nested routes render
      only for a profile whose need of a password change matches the page. */
  lemma ProtectedRouteOutcomes(a: Auth, path: string)
    ensures ProtectedRoute(a, path) == Loading <==> !Settled(a)
    ensures ProtectedRoute(a, path) == Navigate(LoginPath, None) <==> Settled(a) && a.session.None?
    ensures ProtectedRoute(a, path) == Navigate(LoginPath, Some(ProfileNotFound)) <==>
              Settled(a) && a.session.Some? && a.profile.None?
    ensures ProtectedRoute(a, path) == Navigate(SetPasswordPath, None) <==>
              Settled(a) && MustChangePassword(a) && path != SetPasswordPath
    ensures ProtectedRoute(a, path) == Navigate(RootPath, None) <==> Settled(a) && Ready(a) && path == SetPasswordPath
    ensures ProtectedRoute(a, path) == Outlet <==>
              Settled(a) && ((Ready(a) && path != SetPasswordPath) || (MustChangePassword(a) && path == SetPasswordPath))
  {
  }

  /** The login guard has four outcomes, each in its own case. */
  lemma LoginRouteOutcomes(a: Auth)
    ensures LoginRoute(a) == Loading <==> !Settled(a)
    ensures LoginRoute(a) == Navigate(RootPath, None) <==> Settled(a) && Ready(a)
    ensures LoginRoute(a) == Navigate(SetPasswordPath, None) <==> Settled(a) && MustChangePassword(a)
    ensures LoginRoute(a) == LoginPage <==> Settled(a) && !Ready(a) && !MustChangePassword(a)
  {
  }

  /** The routes table: which guard serves a path. */
  function Route(a: Auth, path: string): Screen
  {
    if path == LoginPath then LoginRoute(a)
    else if path == RootPath || path == SetPasswordPath then ProtectedRoute(a, path)
    else CatchAll(a)
  }

  /** Follows redirects from `path`, at most `hops` of them: the path where
      the user lands and what is shown there. */
  function Resolve(a: Auth, path: string, hops: nat): (r: Option<(string, Screen)>)
    ensures r.Some? ==> !r.value.1.Navigate?
    decreases hops
  {
    var s := Route(a, path);
    if !s.Navigate? then Some((path, s))
    else if hops == 0 then None
    else Resolve(a, s.to, hops - 1)
  }

  /** Once nothing is loading, every path settles within two redirects: a
      ready user on the dashboard, a user who must change the password on its
      page, and everybody else on the login page. */
  lemma {:induction false} NoRedirectLoop(a: Auth, path: string)
    requires Settled(a)
    ensures Ready(a) ==> Resolve(a, path, 2) == Some((RootPath, Outlet))
    ensures MustChangePassword(a) ==> Resolve(a, path, 2) == Some((SetPasswordPath, Outlet))
    ensures !Ready(a) && !MustChangePassword(a) ==> Resolve(a, path, 2) == Some((LoginPath, LoginPage))
  {
    var s := Route(a, path);
    if s.Navigate? {
      var s1 := Route(a, s.to);
      assert Resolve(a, path, 2) == Resolve(a, s.to, 1);
      if s1.Navigate? {
        assert Resolve(a, s.to, 1) == Resolve(a, s1.to, 0);
        assert !Route(a, s1.to).Navigate?;
      }
    }
  }

  /** The catch-all sends a settled user where the login guard would. */
  lemma CatchAllAgreesWithLogin(a: Auth)
    requires Settled(a)
    ensures CatchAll(a) == Navigate(RootPath, None) <==> LoginRoute(a) == Navigate(RootPath, None)
    ensures CatchAll(a) == Navigate(LoginPath, None) <==> LoginRoute(a) != Navigate(RootPath, None)
  {
  }

  /** The session, profile and loading state of the application shell. */
  class AuthState {
    var session: Option<UserId>
    var profile: Option<Profile>
    var loadingSession: bool
    var loadingProfile: bool

    function Current(): Auth
      reads this
    {
      Auth(session, profile, loadingSession, loadingProfile)
    }

    constructor()
      ensures Current() == Auth(None, None, true, false)
    {
      session := None;
      profile := None;
      loadingSession := true;
      loadingProfile := false;
    }

    /** The first session lookup: without a session there is no profile to load. */
    method InitialSession(current: Option<UserId>)
      modifies this
      ensures session == current && !loadingSession
      ensures current.None? ==> profile.None? && !loadingProfile
      ensures current.Some? ==> profile == old(profile) && loadingProfile == old(loadingProfile)
    {
      session := current;
      loadingSession := false;
      if current.None? {
        profile := None;
        loadingProfile := false;
      }
    }

    /** Every authentication event: the loaded profile is dropped, whatever
        the event. */
    method AuthChanged(current: Option<UserId>)
      modifies this
      ensures session == current && profile.None? && !loadingSession
      ensures current.None? ==> !loadingProfile
      ensures current.Some? ==> loadingProfile == old(loadingProfile)
    {
      session := current;
      profile := None;
      loadingSession := false;
      if current.None? {
        loadingProfile := false;
      }
    }

    /** The profile effect after the session changed: with a session it
        starts loading the profile, without one it clears it. */
    method ProfileEffect() returns (fetch: bool)
      modifies this`profile, this`loadingProfile
      ensures fetch <==> session.Some?
      ensures fetch ==> loadingProfile && profile == old(profile)
      ensures !fetch ==> profile.None? && !loadingProfile
    {
      if session.Some? {
        loadingProfile := true;
        return true;
      }
      profile := None;
      loadingProfile := false;
      fetch := false;
    }

    /** The profile lookup ended; a failed one delivers no profile. */
    method ProfileLoaded(p: Option<Profile>)
      modifies this`profile, this`loadingProfile
      ensures profile == p && !loadingProfile
    {
      profile := p;
      loadingProfile := false;
    }
  }
}
