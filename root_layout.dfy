/**
 * app/_layout.tsx: `checkAuth`, the start-up routing decision. The session
 * lookup and the profile query are inputs; the result is the list of
 * `router.replace` calls the check makes, in order.
 */
module RootLayout {
  import opened Wrappers

  /** What `supabase.auth.getSession()` gives: no session, a session of a user, or a thrown failure. */
  datatype SessionAnswer = NoSession | HasSession(userId: string) | SessionThrows

  /** The queried profile columns that matter here: `profile_completed`, which may be null. */
  datatype ProfileRow = ProfileRow(profileCompleted: Option<bool>)

  /** What the profile query gives: a profile (possibly none), or an error, which the check throws. */
  datatype ProfileAnswer = ProfileFound(profile: Option<ProfileRow>) | ProfileError

  /** The routes the check replaces the stack with. */
  datatype Route = AuthRoute | CompleteProfileRoute(userId: string) | AppRoute

  /** `!profile?.profile_completed` fails only for a profile whose flag is `true`. */
  predicate ProfileComplete(p: Option<ProfileRow>)
  {
    p.Some? && p.value.profileCompleted == Some(true)
  }

  /**
   * The `router.replace` calls `checkAuth` makes. The profile answer is
   * consulted only when there is a session; every failure lands in the
   * `catch`, which sends the user to the sign-in group.
   */
  function CheckAuth(session: SessionAnswer, profile: ProfileAnswer): (replaced: seq<Route>)
    ensures |replaced| == 1
  {
    match session
    case SessionThrows => [AuthRoute]
    case NoSession => [AuthRoute]
    case HasSession(id) =>
      match profile
      case ProfileError => [AuthRoute]
      case ProfileFound(p) =>
        if !ProfileComplete(p) then [CompleteProfileRoute(id)] else [AppRoute]
  }

  /** The sign-in group is chosen exactly when there is no session or something failed. */
  lemma AuthRouteWhen(session: SessionAnswer, profile: ProfileAnswer)
    ensures CheckAuth(session, profile) == [AuthRoute] <==>
      (session.NoSession? || session.SessionThrows? || profile.ProfileError?)
  {
  }

  /**
   * The profile form is chosen, for the session's user, exactly when there
   * is a session and a profile answer whose flag is not `true`: false, null
   * or no profile at all.
   */
  lemma CompleteProfileRouteWhen(session: SessionAnswer, profile: ProfileAnswer, id: string)
    ensures CheckAuth(session, profile) == [CompleteProfileRoute(id)] <==>
      (session == HasSession(id) && profile.ProfileFound? && !ProfileComplete(profile.profile))
    ensures session.HasSession? && profile == ProfileFound(None) ==>
      CheckAuth(session, profile) == [CompleteProfileRoute(session.userId)]
    ensures session.HasSession? && profile == ProfileFound(Some(ProfileRow(None))) ==>
      CheckAuth(session, profile) == [CompleteProfileRoute(session.userId)]
  {
  }

  /** The app is reached exactly when there is a session and the profile is marked complete. */
  lemma AppRouteWhen(session: SessionAnswer, profile: ProfileAnswer)
    ensures CheckAuth(session, profile) == [AppRoute] <==>
      (session.HasSession? && profile.ProfileFound? && ProfileComplete(profile.profile))
  {
  }

  /** Without a session the profile answer plays no part. */
  lemma NoSessionIgnoresProfile(p1: ProfileAnswer, p2: ProfileAnswer)
    ensures CheckAuth(NoSession, p1) == CheckAuth(NoSession, p2)
    ensures CheckAuth(SessionThrows, p1) == CheckAuth(SessionThrows, p2)
  {
  }
}
