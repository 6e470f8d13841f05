/**
 * `JwtAuthenticationFilter`: takes the bearer token from the `Authorization`
 * header and, when the token is valid, authenticates the FIRST account with
 * the token's email, granting it `ROLE_<name>` for each of its roles. Token
 * validation and the email claim are oracles; any failure leaves the request
 * unauthenticated, and the filter chain always continues.
 */
module JwtFilter {
  import opened Wrappers
  import opened Entities
  import opened Repository
  import opened JavaText
  import Rbac

  const BearerPrefix: string := "Bearer "
  const RolePrefix: string := "ROLE_"

  /** `getJwtFromRequest`: the text after `"Bearer "`, or null. */
  function GetJwtFromRequest(header: Option<string>): (jwt: Option<string>)
    ensures jwt.Some? <==> HasText(header) && StartsWith(header.value, BearerPrefix)
    ensures jwt.Some? ==> header.value == BearerPrefix + jwt.value
  {
    if HasText(header) && StartsWith(header.value, BearerPrefix) then Some(header.value[|BearerPrefix|..]) else None
  }

  /** The authentication placed in the security context. */
  datatype Authentication = Authentication(account: nat, authorities: set<string>)

  /** The granted authorities of account `i`: `ROLE_` followed by each role's name. */
  function Authorities(db: Db, i: nat): set<string>
    requires i < |db.accounts|
  {
    set r | r in db.accounts[i].roles && r in db.roles :: RolePrefix + db.roles[r].name
  }

  /**
   * `doFilterInternal`'s authentication: a token with text that `validate`
   * accepts names an email through `subject`; the first account with that
   * email, if any, is authenticated with its own roles.
   */
  function Authenticate(db: Db, header: Option<string>, validate: string -> bool, subject: string -> string)
    : (a: Option<Authentication>)
    ensures a.Some? ==>
              && GetJwtFromRequest(header).Some? && validate(GetJwtFromRequest(header).value)
              && var email := subject(GetJwtFromRequest(header).value);
                 && a.value.account < |db.accounts|
                 && db.accounts[a.value.account].email == email
                 && (forall j :: 0 <= j < a.value.account ==> db.accounts[j].email != email)
                 && a.value.authorities == Authorities(db, a.value.account)
    ensures a.None? ==>
              || GetJwtFromRequest(header).None?
              || !HasText(GetJwtFromRequest(header))
              || !validate(GetJwtFromRequest(header).value)
              || forall j :: 0 <= j < |db.accounts| ==> db.accounts[j].email != subject(GetJwtFromRequest(header).value)
  {
    var jwt := GetJwtFromRequest(header);
    if HasText(jwt) && validate(jwt.value) then
      var email := subject(jwt.value);
      var cluster := Cluster(db.accounts, email);
      ClusterEmptyIff(db.accounts, email);
      if cluster == [] then None
      else
        ClusterHeadIsFirst(db.accounts, email);
        Some(Authentication(cluster[0], Authorities(db, cluster[0])))
    else None
  }
}
