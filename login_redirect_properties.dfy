/** What the post-login redirect promises, also across the login resolver and the MFA endpoints. */
module LoginRedirectProperties {
  import opened Wrappers
  import opened Entities
  import opened Repository
  import opened JavaText
  import opened LoginRedirect
  import OAuthLogin
  import OAuthLoginProperties
  import Mfa
  import MfaProperties

  /** The query parameter reads back as the email, or as the token issued for the email. */
  lemma {:induction false} TargetCarriesValue(user: Account, generateToken: string -> string)
    ensures user.mfaEnabled ==> QueryValue(TargetUrl(user, generateToken)) == user.email
    ensures !user.mfaEnabled ==> QueryValue(TargetUrl(user, generateToken)) == generateToken(user.email)
  {
    var url := TargetUrl(user, generateToken);
    if user.mfaEnabled {
      assert url[|VerificationPrefix|..] == user.email;
    } else {
      assert !StartsWith(url, VerificationPrefix);
      assert url[|DashboardPrefix|..] == generateToken(user.email);
    }
  }

  /** With MFA on, no token is issued: the target does not depend on the issuer. */
  lemma NoTokenBeforeMfa(user: Account, issuer1: string -> string, issuer2: string -> string)
    requires user.mfaEnabled
    ensures TargetUrl(user, issuer1) == TargetUrl(user, issuer2)
  {
  }

  /**
   * A new provider identity for an email whose cluster has MFA enabled
   * inherits it and is sent to verification instead of receiving a token.
   */
  lemma NewIdentityOfMfaClusterVerifies(db: Db, provider: Provider, attrs: OAuthLogin.Attributes,
                                        generateToken: string -> string)
    requires Consistent(db)
    requires FindByIdentity(db.accounts, provider, OAuthLogin.ExtractOAuthId(provider, attrs)).None?
    requires OAuthLogin.ExtractOAuthId(provider, attrs).Some?
    requires exists i :: 0 <= i < |db.accounts| && db.accounts[i].email == OAuthLogin.ExtractEmail(provider, attrs)
    requires ClustersAgree(db.accounts)
    requires forall i :: 0 <= i < |db.accounts| && db.accounts[i].email == OAuthLogin.ExtractEmail(provider, attrs)
               ==> db.accounts[i].mfaEnabled
    ensures var o := OAuthLogin.LoadUserStep(db, provider, attrs);
            o.result.Ok? ==>
              StartsWith(TargetUrl(o.after.accounts[o.result.value], generateToken), VerificationPrefix)
  {
    var email := OAuthLogin.ExtractEmail(provider, attrs);
    ClusterEmptyIff(db.accounts, email);
    OAuthLoginProperties.NewIdentityInherits(db, provider, attrs);
  }

  /**
   * After a successful verify, every account of the email is sent to the
   * verification page on its next provider login.
   */
  lemma {:induction false} VerifiedClusterRedirectsToVerification(accounts: seq<Account>, email: string, code: Option<string>,
                                                                 authorize: (string, int) -> bool, issue: string -> string,
                                                                 generateToken: string -> string, i: nat)
    requires i < |accounts| && accounts[i].email == email
    requires Mfa.VerifyStep(accounts, email, code, authorize, issue).result.Ok?
    ensures var after := Mfa.VerifyStep(accounts, email, code, authorize, issue).accounts;
            StartsWith(TargetUrl(after[i], generateToken), VerificationPrefix)
  {
    MfaProperties.WriteClusterReaches(accounts, email, Mfa.Enable, i);
  }
}
