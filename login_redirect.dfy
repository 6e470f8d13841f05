/**
 * `OAuth2AuthenticationSuccessHandler`: after a provider login, an account
 * with MFA enabled is sent to the verification page with its email; any
 * other account receives a fresh token on the dashboard URL. The token issuer
 * is an oracle.
 */
module LoginRedirect {
  import opened Entities
  import opened JavaText

  const VerificationPrefix: string := "/mfa-verification.html?email="
  const DashboardPrefix: string := "/dashboard.html?token="

  /** The redirect target for the account `loadUser` resolved. */
  function TargetUrl(user: Account, generateToken: string -> string): (url: string)
    ensures StartsWith(url, VerificationPrefix) <==> user.mfaEnabled
    ensures StartsWith(url, DashboardPrefix) <==> !user.mfaEnabled
  {
    if user.mfaEnabled then
      var url := VerificationPrefix + user.email;
      assert url[1] != DashboardPrefix[1] && url[..|VerificationPrefix|] == VerificationPrefix;
      url
    else
      var url := DashboardPrefix + generateToken(user.email);
      assert url[1] != VerificationPrefix[1] && url[..|DashboardPrefix|] == DashboardPrefix;
      url
  }

  /** The query value a target carries: the email on the verification page, the token on the dashboard. */
  function QueryValue(url: string): string
  {
    if StartsWith(url, VerificationPrefix) then url[|VerificationPrefix|..]
    else if StartsWith(url, DashboardPrefix) then url[|DashboardPrefix|..]
    else ""
  }
}
