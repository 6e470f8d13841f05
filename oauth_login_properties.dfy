/** What `loadUser` promises across calls and about the state it leaves. */
module OAuthLoginProperties {
  import opened Wrappers
  import opened Entities
  import opened Repository
  import opened JavaText
  import opened OAuthLogin
  import Rbac

  /** Under unique identities, the lookup finds exactly the account holding the identity. */
  lemma FindByIdentityExact(accounts: seq<Account>, i: nat)
    requires IdentitiesUnique(accounts)
    requires i < |accounts|
    ensures FindByIdentity(accounts, accounts[i].provider, Some(accounts[i].oauthId)) == Some(i)
  {
    var r := FindByIdentity(accounts, accounts[i].provider, Some(accounts[i].oauthId));
    assert r.Some?;
  }

  /** A known (provider, subject id) resolves to its own account and writes nothing. */
  lemma KnownIdentityUnchanged(db: Db, provider: Provider, attrs: Attributes, i: nat)
    requires IdentitiesUnique(db.accounts)
    requires i < |db.accounts| && db.accounts[i].provider == provider
    requires ExtractOAuthId(provider, attrs) == Some(db.accounts[i].oauthId)
    ensures LoadUserStep(db, provider, attrs) == Outcome(Ok(i), db)
  {
    FindByIdentityExact(db.accounts, i);
  }

  /** Logging in again with the same attributes returns the same account and changes nothing. */
  lemma {:induction false} LoginIdempotent(db: Db, provider: Provider, attrs: Attributes)
    requires Consistent(db)
    requires LoadUserStep(db, provider, attrs).result.Ok?
    ensures var o := LoadUserStep(db, provider, attrs);
            LoadUserStep(o.after, provider, attrs) == Outcome(o.result, o.after)
  {
    var o := LoadUserStep(db, provider, attrs);
    LoadUserKeepsConsistent(db, provider, attrs);
    var oauthId := ExtractOAuthId(provider, attrs);
    var id := o.result.value;
    match FindByIdentity(db.accounts, provider, oauthId)
    case Some(k) =>
      FindByIdentityExact(db.accounts, k);
    case None =>
      assert id < |o.after.accounts| && o.after.accounts[id].provider == provider;
      assert oauthId == Some(o.after.accounts[id].oauthId);
      FindByIdentityExact(o.after.accounts, id);
  }

  /**
   * A new identity whose email is already known joins that cluster: it is
   * appended with the MFA state of the cluster's first account, and its roles
   * too when that account has any, else the `USER` role.
   */
  lemma NewIdentityInherits(db: Db, provider: Provider, attrs: Attributes)
    requires Consistent(db)
    requires FindByIdentity(db.accounts, provider, ExtractOAuthId(provider, attrs)).None?
    requires ExtractOAuthId(provider, attrs).Some?
    requires |Cluster(db.accounts, ExtractEmail(provider, attrs))| > 0
    ensures var first := db.accounts[Cluster(db.accounts, ExtractEmail(provider, attrs))[0]];
            var o := LoadUserStep(db, provider, attrs);
            (first.roles == {} && RoleByName(db.roles, Rbac.UserRole).None?) ==> o == Outcome(Err(UserRoleMissing), db)
    ensures var first := db.accounts[Cluster(db.accounts, ExtractEmail(provider, attrs))[0]];
            var o := LoadUserStep(db, provider, attrs);
            (first.roles != {} || RoleByName(db.roles, Rbac.UserRole).Some?) ==>
              && o.result == Ok(|db.accounts|)
              && |o.after.accounts| == |db.accounts| + 1
              && o.after.accounts[..|db.accounts|] == db.accounts
              && MfaOf(o.after.accounts[|db.accounts|]) == MfaOf(first)
              && o.after.accounts[|db.accounts|].email == ExtractEmail(provider, attrs)
              && o.after.accounts[|db.accounts|].roles ==
                   (if first.roles != {} then first.roles else {RoleByName(db.roles, Rbac.UserRole).value})
  {
    assert |db.accounts| > 0;
    var first := db.accounts[Cluster(db.accounts, ExtractEmail(provider, attrs))[0]];
    var o := LoadUserStep(db, provider, attrs);
    if first.roles != {} || RoleByName(db.roles, Rbac.UserRole).Some? {
      assert o.after.accounts[..|db.accounts|] == db.accounts;
    }
  }

  /**
   * A new email starts with MFA off, no secret, and the `USER` role; on a
   * non-empty store that is all it gets.
   */
  lemma NewEmailStartsClean(db: Db, provider: Provider, attrs: Attributes)
    requires FindByIdentity(db.accounts, provider, ExtractOAuthId(provider, attrs)).None?
    requires ExtractOAuthId(provider, attrs).Some?
    requires Cluster(db.accounts, ExtractEmail(provider, attrs)) == []
    requires |db.accounts| > 0
    ensures var o := LoadUserStep(db, provider, attrs);
            && (RoleByName(db.roles, Rbac.UserRole).None? <==> o.result == Err(UserRoleMissing))
            && (o.result.Ok? ==>
                  && o.after.accounts == db.accounts + [o.after.accounts[|db.accounts|]]
                  && MfaOf(o.after.accounts[|db.accounts|]) == MfaState(false, false, None)
                  && o.after.accounts[|db.accounts|].roles == {RoleByName(db.roles, Rbac.UserRole).value})
  {
  }

  /**
   * The very first account of the system is promoted to be the only holder of
   * `ADMIN`; when no `ADMIN` role exists the login fails after the account was
   * already saved with `USER`.
   */
  lemma FirstAccountBecomesAdmin(db: Db, provider: Provider, attrs: Attributes)
    requires db.accounts == []
    requires ExtractOAuthId(provider, attrs).Some?
    requires RoleByName(db.roles, Rbac.UserRole).Some?
    ensures var o := LoadUserStep(db, provider, attrs);
            && |o.after.accounts| == 1
            && o.after.accounts[0].email == ExtractEmail(provider, attrs)
            && o.after.accounts[0].oauthId == ExtractOAuthId(provider, attrs).value
            && MfaOf(o.after.accounts[0]) == MfaState(false, false, None)
            && (RoleByName(db.roles, Rbac.AdminRole).Some? ==>
                  o.result == Ok(0) && o.after.accounts[0].roles == {RoleByName(db.roles, Rbac.AdminRole).value})
            && (RoleByName(db.roles, Rbac.AdminRole).None? ==>
                  o.result == Err(AdminRoleMissing) && o.after.accounts[0].roles == {RoleByName(db.roles, Rbac.UserRole).value})
  {
  }

  /**
   * Without a `USER` role, a login whose email no account carries yet (in
   * particular the first login into an empty store) fails and saves nothing.
   */
  lemma NewEmailWithoutUserRoleFails(db: Db, provider: Provider, attrs: Attributes)
    requires FindByIdentity(db.accounts, provider, ExtractOAuthId(provider, attrs)).None?
    requires forall i :: 0 <= i < |db.accounts| ==> db.accounts[i].email != ExtractEmail(provider, attrs)
    requires RoleByName(db.roles, Rbac.UserRole).None?
    ensures LoadUserStep(db, provider, attrs) == Outcome(Err(UserRoleMissing), db)
  {
    ClusterEmptyIff(db.accounts, ExtractEmail(provider, attrs));
  }

  /** Only the first account is promoted: later accounts never receive a role they did not inherit or `USER`. */
  lemma LaterAccountsNotPromoted(db: Db, provider: Provider, attrs: Attributes)
    requires |db.accounts| > 0
    requires FindByIdentity(db.accounts, provider, ExtractOAuthId(provider, attrs)).None?
    requires LoadUserStep(db, provider, attrs).result.Ok?
    ensures var o := LoadUserStep(db, provider, attrs);
            var seed := Seed(db.accounts, provider, ExtractOAuthId(provider, attrs), ExtractEmail(provider, attrs), ExtractName(provider, attrs));
            o.after.accounts[|db.accounts|].roles == if seed.roles != {} then seed.roles else {RoleByName(db.roles, Rbac.UserRole).value}
  {
  }

  /** Appending an account that agrees with every account of its email keeps clusters in agreement. */
  lemma {:induction false} AppendKeepsAgreement(accounts: seq<Account>, a: Account)
    requires ClustersAgree(accounts)
    requires forall k :: 0 <= k < |accounts| && accounts[k].email == a.email ==> MfaOf(accounts[k]) == MfaOf(a)
    ensures ClustersAgree(accounts + [a])
  {
    var after := accounts + [a];
    forall i, j | 0 <= i < |after| && 0 <= j < |after| && after[i].email == after[j].email
      ensures MfaOf(after[i]) == MfaOf(after[j])
    {
      if i < |accounts| && j < |accounts| {
        assert after[i] == accounts[i] && after[j] == accounts[j];
      } else if i < |accounts| {
        assert after[i] == accounts[i];
      } else if j < |accounts| {
        assert after[j] == accounts[j];
      }
    }
  }

  /** The seed of a new account agrees with every account of its email. */
  lemma SeedAgrees(accounts: seq<Account>, provider: Provider, oauthId: Option<string>, email: string, name: Option<string>)
    requires ClustersAgree(accounts)
    ensures var seed := Seed(accounts, provider, oauthId, email, name);
            seed.email == email &&
            forall k :: 0 <= k < |accounts| && accounts[k].email == email ==> MfaOf(accounts[k]) == MfaOf(seed)
  {
    var cluster := Cluster(accounts, email);
    if |cluster| > 0 {
      assert accounts[cluster[0]].email == email;
    }
  }

  /** Saving an account that agrees with its email's accounts, and promoting a first account, keep agreement. */
  lemma SaveKeepsAgreement(db: Db, account: Account)
    requires ClustersAgree(db.accounts)
    requires forall k :: 0 <= k < |db.accounts| && db.accounts[k].email == account.email ==> MfaOf(db.accounts[k]) == MfaOf(account)
    ensures ClustersAgree(SaveStep(db, account).after.accounts)
  {
    AppendKeepsAgreement(db.accounts, account);
  }

  /** The new account copies the MFA columns of a cluster member, so clusters keep agreeing. */
  lemma LoginKeepsClustersAgree(db: Db, provider: Provider, attrs: Attributes)
    requires ClustersAgree(db.accounts)
    ensures ClustersAgree(LoadUserStep(db, provider, attrs).after.accounts)
  {
    var email := ExtractEmail(provider, attrs);
    var oauthId := ExtractOAuthId(provider, attrs);
    var name := ExtractName(provider, attrs);
    var seed := Seed(db.accounts, provider, oauthId, email, name);
    SeedAgrees(db.accounts, provider, oauthId, email, name);
    var userRole := RoleByName(db.roles, Rbac.UserRole);
    if FindByIdentity(db.accounts, provider, oauthId).None? && !(seed.roles == {} && userRole.None?) && oauthId.Some? {
      var account := if seed.roles == {} then seed.(roles := {userRole.value}) else seed;
      SaveKeepsAgreement(db, account);
    }
  }

  /** GitHub's numeric id is stored as its decimal text, which reads back as the same number. */
  lemma GithubNumericId(attrs: Attributes, n: int)
    requires "id" in attrs && attrs["id"] == Number(n)
    requires IntMin <= n <= IntMax
    ensures ExtractOAuthId(GITHUB, attrs).Some?
    ensures ParseInt(ExtractOAuthId(GITHUB, attrs).value) == Some(n)
  {
    ParseDecimalRoundTrip(n);
  }
}
