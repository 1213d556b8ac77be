/**
 * The session store behind `AuthProvider` (src/auth/AuthContext.tsx): a
 * one-shot bootstrap that asks the server to refresh the session, the current
 * user, and the `loading` flag that hides the application until the bootstrap
 * has settled.
 */
module AuthContext {
  import opened Wrappers
  import opened ApiTypes

  const HomePath := "/"

  class SessionStore {
    /** The signed-in user, or `None` (`null`) when signed out. */
    var user: Option<AuthResponse>
    /** True until the bootstrap refresh has settled. */
    var loading: bool
    /** The `hasRunRef` latch. */
    var hasRun: bool
    /** How many times the refresh endpoint has been called. */
    ghost var refreshCalls: nat
    /** The paths navigated to, oldest first. */
    ghost var navigations: seq<string>

    /** The bootstrap has run exactly when it has settled, and it called the server at most once. */
    ghost predicate Valid()
      reads this
    {
      && (loading <==> !hasRun)
      && refreshCalls == (if hasRun then 1 else 0)
      && |navigations| <= refreshCalls
    }

    constructor()
      ensures Valid()
      ensures user.None? && loading && !hasRun
      ensures refreshCalls == 0 && navigations == []
    {
      user := None;
      loading := true;
      hasRun := false;
      refreshCalls := 0;
      navigations := [];
    }

    /** `isAuthenticated: !!user`. */
    predicate IsAuthenticated()
      reads this
    {
      user.Some?
    }

    /** The provider renders its children only once loading is over. */
    predicate ShowsChildren()
      reads this
    {
      !loading
    }

    /** `login(userData)`: only the user changes. */
    method Login(userData: AuthResponse)
      modifies this
      ensures user == Some(userData) && IsAuthenticated()
      ensures loading == old(loading) && hasRun == old(hasRun)
      ensures refreshCalls == old(refreshCalls) && navigations == old(navigations)
    {
      user := Some(userData);
    }

    /** `logout()`: only the user changes. */
    method Logout()
      modifies this
      ensures user.None? && !IsAuthenticated()
      ensures loading == old(loading) && hasRun == old(hasRun)
      ensures refreshCalls == old(refreshCalls) && navigations == old(navigations)
    {
      user := None;
    }

    /**
     * `checkUserSession`: one refresh call whose outcome is `refresh`. Success
     * signs the user in and navigates home; failure signs out and is swallowed;
     * loading ends in both cases.
     */
    method CheckUserSession(refresh: Outcome<AuthResponse>)
      modifies this
      ensures refreshCalls == old(refreshCalls) + 1 && !loading && hasRun == old(hasRun)
      ensures refresh.Success? ==> user == Some(refresh.value) && navigations == old(navigations) + [HomePath]
      ensures refresh.Failure? ==> user.None? && navigations == old(navigations)
      ensures ShowsChildren() && (IsAuthenticated() <==> refresh.Success?)
    {
      refreshCalls := refreshCalls + 1;
      match refresh {
        case Success(data) =>
          Login(data);
          navigations := navigations + [HomePath];
        case Failure(_) =>
          Logout();
      }
      loading := false;
    }

    /**
     * The mount effect. The latch makes every run after the first a no-op, so
     * the refresh endpoint is called once however often the effect fires.
     */
    method RunBootstrapEffect(refresh: Outcome<AuthResponse>)
      requires Valid()
      modifies this
      ensures Valid() && hasRun && ShowsChildren()
      ensures old(hasRun) ==> unchanged(this)
      ensures !old(hasRun) ==> refreshCalls == 1 && (IsAuthenticated() <==> refresh.Success?)
      ensures !old(hasRun) && refresh.Success? ==> user == Some(refresh.value) && navigations == [HomePath]
      ensures !old(hasRun) && refresh.Failure? ==> user.None? && navigations == []
    {
      if hasRun {
        return;
      }
      hasRun := true;
      CheckUserSession(refresh);
    }
  }
}
