/**
 * The route guard wrapped around every protected page. From the session
 * (`loading`, `user`) and the current path it decides what to render and,
 * in its effect, where to navigate.
 */
module ProtectedRoute {
  import opened Entities

  const LOGIN := "/auth/login"
  const CHANGE_PASSWORD := "/auth/change-password"

  /** What the guard renders: the spinner, `null`, or the wrapped subtree. */
  datatype Outcome = Placeholder | Nothing | Children

  /** `!user.isPasswordChanged && path !== '/auth/change-password'`; an absent path never equals the route. */
  predicate MustChangePassword(user: User, path: Option<string>) {
    !user.isPasswordChanged && path != Some(CHANGE_PASSWORD)
  }

  /** The targets the effect passes to `router.push`, in order. */
  function Redirects(loading: bool, user: Option<User>, path: Option<string>): (pushed: seq<string>)
    ensures |pushed| <= 1
    ensures loading ==> pushed == []
    ensures !loading && user.None? ==> pushed == [LOGIN]
    ensures !loading && user.Some? && MustChangePassword(user.value, path) ==> pushed == [CHANGE_PASSWORD]
    ensures pushed == [] <==> loading || (user.Some? && !MustChangePassword(user.value, path))
  {
    if loading then []
    else if user.None? then [LOGIN]
    else if MustChangePassword(user.value, path) then [CHANGE_PASSWORD]
    else []
  }

  /** The render decision. */
  function Render(loading: bool, user: Option<User>, path: Option<string>): (out: Outcome)
    ensures out == Placeholder <==> loading
    ensures out == Children <==>
      !loading && user.Some? && (user.value.isPasswordChanged || path == Some(CHANGE_PASSWORD))
  {
    if loading then Placeholder
    else if user.None? then Nothing
    else if MustChangePassword(user.value, path) then Nothing
    else Children
  }

  /**
   * The effect and the render agree: the subtree shows exactly when the guard
   * is settled and navigates nowhere, and it renders nothing exactly when it
   * navigates away.
   */
  lemma RenderAgreesWithRedirect(loading: bool, user: Option<User>, path: Option<string>)
    ensures Render(loading, user, path) == Children <==> !loading && Redirects(loading, user, path) == []
    ensures Render(loading, user, path) == Nothing <==> |Redirects(loading, user, path)| == 1
  {
  }

  /** With no path, a user who has not changed the password is always sent away and never sees the subtree. */
  lemma AbsentPathAlwaysRedirects(user: User)
    requires !user.isPasswordChanged
    ensures Redirects(false, Some(user), None) == [CHANGE_PASSWORD]
    ensures Render(false, Some(user), None) == Nothing
  {
  }

  /**
   * The guard as written: it reads `router.pathname` from the `next/navigation`
   * router, which has no such property, so the path it compares is always absent
   * whatever page is open.
   */
  function GuardAsWritten(loading: bool, user: Option<User>, currentPath: string): (decision: (Outcome, seq<string>))
    ensures decision.0 == Children <==> !loading && user.Some? && user.value.isPasswordChanged
    ensures !loading && user.Some? && !user.value.isPasswordChanged ==> decision == (Nothing, [CHANGE_PASSWORD])
  {
    (Render(loading, user, None), Redirects(loading, user, None))
  }

  /** The guard with the live path, as the change-password exemption intends. */
  function Guard(loading: bool, user: Option<User>, currentPath: string): (decision: (Outcome, seq<string>))
    ensures decision.0 == Children <==>
      !loading && user.Some? && (user.value.isPasswordChanged || currentPath == CHANGE_PASSWORD)
    ensures decision.0 == Children <==> !loading && decision.1 == []
  {
    RenderAgreesWithRedirect(loading, user, Some(currentPath));
    (Render(loading, user, Some(currentPath)), Redirects(loading, user, Some(currentPath)))
  }

  /**
   * The change-password page is itself wrapped in the guard. As written, a
   * user who must change the password is redirected to that page while on it
   * and the form is never rendered.
   */
  lemma ChangePasswordPageUnreachableAsWritten(user: User)
    requires !user.isPasswordChanged
    ensures GuardAsWritten(false, Some(user), CHANGE_PASSWORD) == (Nothing, [CHANGE_PASSWORD])
  {
  }

  /** With the live path the same user sees the change-password form and is not redirected. */
  lemma ChangePasswordPageReachable(user: User)
    ensures Guard(false, Some(user), CHANGE_PASSWORD) == (Children, [])
  {
  }

  /** With the live path, the guard still forces the password change on every other page. */
  lemma OtherPagesForceChange(user: User, currentPath: string)
    requires !user.isPasswordChanged && currentPath != CHANGE_PASSWORD
    ensures Guard(false, Some(user), currentPath) == (Nothing, [CHANGE_PASSWORD])
  {
  }
}
