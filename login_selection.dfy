/** The landing page at "/" (src/pages/LoginSelection.tsx): a signed-in user
    with a loaded profile is sent on to a dashboard chosen by role. Together
    with the police dashboard's access gate this decides where an account
    ends up after opening the site. */
module LoginSelectionPage {
  import opened Types
  import opened PoliceDashboardPage

  /** The landing page's redirect as written: nowhere until both the user and
      the profile are known, then the police dashboard for the police role and
      the citizen dashboard for any other. */
  function RedirectTarget(user: Option<User>, profile: Option<Profile>): (r: Option<string>)
    ensures r.None? <==> user.None? || profile.None?
    ensures r.Some? ==>
              r.value == if profile.value.role == Police then PoliceDashboardPath else CitizenDashboardPath
  {
    if user.Some? && profile.Some? then
      if profile.value.role == Police then Some(PoliceDashboardPath) else Some(CitizenDashboardPath)
    else None
  }

  /** The redirect never looks at the verified flag. */
  lemma RedirectIgnoresVerified(user: Option<User>, p: Profile, b: bool)
    ensures RedirectTarget(user, Some(p.(verified := b))) == RedirectTarget(user, Some(p))
  {
  }

  /** An unverified police account bounces between the two pages: the landing
      page sends it to the police dashboard, whose gate sends it back to the
      landing page, whose effect runs again on mount. */
  lemma UnverifiedPoliceBounces(u: User, p: Profile)
    requires p.role == Police && !p.verified
    ensures RedirectTarget(Some(u), Some(p)) == Some(PoliceDashboardPath)
    ensures AccessGate(Some(p)) == Some(HomePath)
    ensures HomePath == "/"
  {
  }

  /** The redirect with the verification check the police dashboard applies:
      an unverified police account stays on the landing page. */
  function CheckedRedirectTarget(user: Option<User>, profile: Option<Profile>): (r: Option<string>)
    ensures r.None? <==> user.None? || profile.None? || (profile.value.role == Police && !profile.value.verified)
    ensures r.Some? ==>
              r.value == if profile.value.role == Police then PoliceDashboardPath else CitizenDashboardPath
  {
    if user.Some? && profile.Some? then
      if profile.value.role != Police then Some(CitizenDashboardPath)
      else if profile.value.verified then Some(PoliceDashboardPath)
      else None
    else None
  }

  /** With the check, the landing page only sends an account to the police
      dashboard when that dashboard's gate lets it stay, and it differs from
      the redirect as written only for an unverified police account. */
  lemma CheckedRedirectHasNoLoop(user: Option<User>, profile: Option<Profile>)
    ensures CheckedRedirectTarget(user, profile) == Some(PoliceDashboardPath) ==> AccessGate(profile).None?
    ensures CheckedRedirectTarget(user, profile) != RedirectTarget(user, profile) <==>
              user.Some? && profile.Some? && profile.value.role == Police && !profile.value.verified
  {
  }
}
