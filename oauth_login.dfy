/**
 * The identity-cluster resolver (`CustomOAuth2UserService`): extracting
 * email, subject id and display name from a provider's attributes, and
 * `loadUser`, which returns the account of a known (provider, subject id) or
 * creates one that inherits MFA state and roles from the first account with
 * the same email, gets `USER` when it has no role, and becomes the only
 * `ADMIN` when it is the first account of the system.
 */
module OAuthLogin {
  import opened Wrappers
  import opened Entities
  import opened Repository
  import opened JavaText
  import Rbac

  /** An attribute value as the provider sends it. */
  datatype AttrValue = Text(text: string) | Number(n: int)

  /** The attributes of the authenticated provider user. */
  type Attributes = map<string, AttrValue>

  /** The keys each provider's code reads with a `String`-typed `getAttribute`. */
  function TextKeys(provider: Provider): set<string>
  {
    match provider
    case GOOGLE => {"email", "name", "sub"}
    case GITHUB => {"email", "name", "login"}
    case FACEBOOK => {"email", "name", "id"}
  }

  /** The attributes the code reads as strings hold strings (only GitHub's `id` may be a number). */
  predicate WellTyped(provider: Provider, attrs: Attributes)
  {
    forall k :: k in attrs && k in TextKeys(provider) ==> attrs[k].Text?
  }

  /** `getAttribute` of a string attribute: null when absent. */
  function TextAttr(attrs: Attributes, key: string): Option<string>
  {
    if key in attrs && attrs[key].Text? then Some(attrs[key].text) else None
  }

  /** The provider's subject id: Google's `sub`, GitHub's `id` as text, Facebook's `id`. */
  function ExtractOAuthId(provider: Provider, attrs: Attributes): Option<string>
  {
    match provider
    case GOOGLE => TextAttr(attrs, "sub")
    case GITHUB =>
      if "id" !in attrs then None
      else (match attrs["id"]
            case Text(t) => Some(t)
            case Number(n) => Some(DecimalString(n)))
    case FACEBOOK => TextAttr(attrs, "id")
  }

  /** The mail domain of a provider's synthetic fallback address. */
  function FallbackDomain(provider: Provider): string
  {
    match provider
    case GITHUB => "@github.com"
    case FACEBOOK => "@facebook.com"
    case GOOGLE => "@oauth.com"
  }

  /**
   * The account email: the provider's `email` when non-empty; otherwise a
   * synthetic address, GitHub's login (or else its id) followed by
   * `@github.com`, Facebook's id followed by `@facebook.com`, and any other
   * provider's subject id followed by `@oauth.com`. A null id prints as "null".
   */
  function ExtractEmail(provider: Provider, attrs: Attributes): (email: string)
    ensures |email| > 0
    ensures TextAttr(attrs, "email").Some? && TextAttr(attrs, "email").value != "" ==>
              email == TextAttr(attrs, "email").value
    ensures (TextAttr(attrs, "email").None? || TextAttr(attrs, "email").value == "") ==>
              && |FallbackDomain(provider)| <= |email|
              && email[|email| - |FallbackDomain(provider)|..] == FallbackDomain(provider)
              && (provider == GITHUB && TextAttr(attrs, "login").Some? ==>
                    email == TextAttr(attrs, "login").value + "@github.com")
              && (provider != GITHUB || TextAttr(attrs, "login").None? ==>
                    email == Str(ExtractOAuthId(provider, attrs)) + FallbackDomain(provider))
  {
    var given := TextAttr(attrs, "email");
    if given.Some? && given.value != "" then given.value
    else
      var oauthId := ExtractOAuthId(provider, attrs);
      match provider
      case GITHUB =>
        var login := TextAttr(attrs, "login");
        (if login.Some? then login.value else Str(oauthId)) + "@github.com"
      case FACEBOOK => Str(oauthId) + "@facebook.com"
      case GOOGLE => Str(oauthId) + "@oauth.com"
  }

  /** The display name; GitHub falls back to the login when `name` is null or empty. */
  function ExtractName(provider: Provider, attrs: Attributes): (name: Option<string>)
    ensures provider != GITHUB ==> name == TextAttr(attrs, "name")
    ensures provider == GITHUB ==>
      name == if TextAttr(attrs, "name").None? || TextAttr(attrs, "name").value == "" then TextAttr(attrs, "login")
              else TextAttr(attrs, "name")
  {
    match provider
    case GITHUB =>
      var name := TextAttr(attrs, "name");
      if name.None? || name.value == "" then TextAttr(attrs, "login") else name
    case _ => TextAttr(attrs, "name")
  }

  /** Why `loadUser` fails. */
  datatype LoginError =
    | UserRoleMissing      // "Rol USER no encontrado"
    | AdminRoleMissing     // "Rol ADMIN no encontrado", thrown after the account was saved
    | OAuthIdMissing       // the not-null `oauth_id` column rejects the save

  /** What a new account takes over from the first account of its cluster. */
  function Inherited(first: Account, email: string, name: Option<string>, provider: Provider, oauthId: string): Account
  {
    Account(email, name, provider, oauthId, first.mfaEnabled, first.mfaSecret, first.usingMfa, first.roles)
  }

  /**
   * `loadUser` as a transition: returns the id of the resolved account and the
   * database it leaves behind.
   */
  ghost function LoadUserStep(db: Db, provider: Provider, attrs: Attributes): Outcome<nat, LoginError>
  {
    var email := ExtractEmail(provider, attrs);
    var oauthId := ExtractOAuthId(provider, attrs);
    var name := ExtractName(provider, attrs);
    match FindByIdentity(db.accounts, provider, oauthId)
    case Some(i) => Outcome(Ok(i), db)
    case None => CreateAccountStep(db, provider, oauthId, email, name)
  }

  /** The account `loadUser` builds before the default role: inherited from the cluster's first account, or fresh. */
  function Seed(accounts: seq<Account>, provider: Provider, oauthId: Option<string>, email: string, name: Option<string>): Account
  {
    var cluster := Cluster(accounts, email);
    if |cluster| > 0 then Inherited(accounts[cluster[0]], email, name, provider, Str(oauthId))
    else NewAccount(email, name, provider, Str(oauthId))
  }

  /** The new-account branch of `loadUser`. */
  ghost function CreateAccountStep(db: Db, provider: Provider, oauthId: Option<string>, email: string, name: Option<string>)
    : Outcome<nat, LoginError>
  {
    var seed := Seed(db.accounts, provider, oauthId, email, name);
    var userRole := RoleByName(db.roles, Rbac.UserRole);
    if seed.roles == {} && userRole.None? then Outcome(Err(UserRoleMissing), db)
    else if oauthId.None? then Outcome(Err(OAuthIdMissing), db)
    else
      var account := if seed.roles == {} then seed.(roles := {userRole.value}) else seed;
      SaveStep(db, account)
  }

  /** Saving the new account, then the first-account promotion to `ADMIN`. */
  ghost function SaveStep(db: Db, account: Account): Outcome<nat, LoginError>
  {
    var id := |db.accounts|;
    var saved := db.(accounts := db.accounts + [account]);
    if id == 0 then
      match RoleByName(db.roles, Rbac.AdminRole)
      case None => Outcome(Err(AdminRoleMissing), saved)
      case Some(admin) => Outcome(Ok(id), saved.(accounts := [account.(roles := {admin})]))
    else Outcome(Ok(id), saved)
  }

  /** `findByName` on the store's roles; with unique names the answer is determined. */
  method FindRole(s: Store, name: string) returns (r: Option<Id>)
    requires RoleNamesUnique(s.roles)
    ensures r == RoleByName(s.roles, name)
  {
    var ids := RolesNamed(s.roles, name);
    if ids == {} {
      return None;
    }
    var id :| id in ids;
    RoleByNameUnique(s.roles, name, id);
    return Some(id);
  }

  /** The save and promotion of `loadUser` on the store. */
  method Save(s: Store, account: Account) returns (r: Result<nat, LoginError>)
    requires s.Valid()
    requires account.roles <= s.roles.Keys
    requires forall i :: 0 <= i < |s.accounts| ==>
               s.accounts[i].provider != account.provider || s.accounts[i].oauthId != account.oauthId
    modifies s`accounts
    ensures s.Valid()
    ensures Outcome(r, s.Snapshot()) == SaveStep(old(s.Snapshot()), account)
  {
    SaveKeepsConsistent(s.Snapshot(), account);
    var id := |s.accounts|;
    s.accounts := s.accounts + [account];
    if id == 0 {
      var adminRole := FindRole(s, Rbac.AdminRole);
      if adminRole.None? {
        return Err(AdminRoleMissing);
      }
      s.accounts := [account.(roles := {adminRole.value})];
    }
    r := Ok(id);
  }

  method LoadUser(s: Store, provider: Provider, attrs: Attributes) returns (r: Result<nat, LoginError>)
    requires s.Valid()
    requires WellTyped(provider, attrs)
    modifies s`accounts
    ensures s.Valid()
    ensures Outcome(r, s.Snapshot()) == LoadUserStep(old(s.Snapshot()), provider, attrs)
  {
    var email := ExtractEmail(provider, attrs);
    var oauthId := ExtractOAuthId(provider, attrs);
    var name := ExtractName(provider, attrs);
    var existing := FindByIdentity(s.accounts, provider, oauthId);
    if existing.Some? {
      return Ok(existing.value);
    }
    var account := Seed(s.accounts, provider, oauthId, email, name);
    SeedRolesResolve(s.Snapshot(), provider, oauthId, email, name);
    var userRole := FindRole(s, Rbac.UserRole);
    if account.roles == {} {
      if userRole.None? {
        return Err(UserRoleMissing);
      }
      account := account.(roles := {userRole.value});
    }
    if oauthId.None? {
      return Err(OAuthIdMissing);
    }
    r := Save(s, account);
  }

  /** The seed's roles are roles of the store: inherited ones come from a stored account. */
  lemma SeedRolesResolve(db: Db, provider: Provider, oauthId: Option<string>, email: string, name: Option<string>)
    requires Consistent(db)
    ensures Seed(db.accounts, provider, oauthId, email, name).roles <= db.roles.Keys
  {
    var cluster := Cluster(db.accounts, email);
    if |cluster| > 0 {
      assert db.accounts[cluster[0]].roles <= db.roles.Keys;
    }
  }

  lemma SaveKeepsConsistent(db: Db, account: Account)
    requires Consistent(db)
    requires account.roles <= db.roles.Keys
    requires forall i :: 0 <= i < |db.accounts| ==>
               db.accounts[i].provider != account.provider || db.accounts[i].oauthId != account.oauthId
    ensures Consistent(SaveStep(db, account).after)
  {
  }

  lemma LoadUserKeepsConsistent(db: Db, provider: Provider, attrs: Attributes)
    requires Consistent(db)
    ensures Consistent(LoadUserStep(db, provider, attrs).after)
  {
    var email := ExtractEmail(provider, attrs);
    var oauthId := ExtractOAuthId(provider, attrs);
    var name := ExtractName(provider, attrs);
    if FindByIdentity(db.accounts, provider, oauthId).None? {
      SeedRolesResolve(db, provider, oauthId, email, name);
      var seed := Seed(db.accounts, provider, oauthId, email, name);
      var userRole := RoleByName(db.roles, Rbac.UserRole);
      if !(seed.roles == {} && userRole.None?) && oauthId.Some? {
        var account := if seed.roles == {} then seed.(roles := {userRole.value}) else seed;
        SaveKeepsConsistent(db, account);
      }
    }
  }
}
