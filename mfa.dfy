/**
 * The MFA endpoints of `AuthController`: setup stores a fresh TOTP secret on
 * every account of the email's identity cluster, verify checks a code against
 * the first account's secret and then enables MFA cluster-wide, disable clears
 * it cluster-wide, and status reports the first account's flag.
 *
 * The secret generator, the TOTP check (`authorize`) and the JWT issuer are
 * parameters: a fresh secret, a boolean oracle and a token oracle.
 */
module Mfa {
  import opened Wrappers
  import opened Entities
  import opened Repository
  import opened JavaText

  /** Why an MFA endpoint answers 400. */
  datatype MfaError =
    | UserNotFound       // "Usuario no encontrado"
    | MfaNotConfigured   // "MFA no configurado"
    | InvalidCode        // "Código inválido"

  /** What one of the endpoints writes on each account of the cluster. */
  datatype MfaWrite = StoreSecret(secret: string) | Enable | Disable

  /** The write applied to one account: only its MFA columns change. */
  function Apply(w: MfaWrite, a: Account): (b: Account)
    ensures b.email == a.email && b.provider == a.provider && b.oauthId == a.oauthId
    ensures b.name == a.name && b.roles == a.roles
    ensures MfaOf(b) == ApplyState(w, MfaOf(a))
  {
    match w
    case StoreSecret(secret) => a.(mfaSecret := Some(secret))
    case Enable => a.(mfaEnabled := true, usingMfa := true)
    case Disable => a.(mfaEnabled := false, usingMfa := false, mfaSecret := None)
  }

  /** The write on the MFA columns alone. */
  function ApplyState(w: MfaWrite, m: MfaState): MfaState
  {
    match w
    case StoreSecret(secret) => m.(secret := Some(secret))
    case Enable => m.(enabled := true, usingMfa := true)
    case Disable => MfaState(false, false, None)
  }

  /** Every account of the email's cluster written, all others as they were. */
  function WriteCluster(accounts: seq<Account>, email: string, w: MfaWrite): (r: seq<Account>)
    ensures |r| == |accounts|
  {
    seq(|accounts|, i requires 0 <= i < |accounts| =>
      if accounts[i].email == email then Apply(w, accounts[i]) else accounts[i])
  }

  /** A response together with the accounts table it leaves behind. */
  datatype MfaOutcome<+T> = MfaOutcome(result: Result<T, MfaError>, accounts: seq<Account>)

  /** `POST /mfa/setup`: the response carries the new secret (the QR image is not modelled). */
  function SetupStep(accounts: seq<Account>, email: string, secret: string): MfaOutcome<string>
  {
    if Cluster(accounts, email) == [] then MfaOutcome(Err(UserNotFound), accounts)
    else MfaOutcome(Ok(secret), WriteCluster(accounts, email, StoreSecret(secret)))
  }

  /**
   * `MfaService.verifyCode`: a code that is null or not a 32-bit decimal
   * integer is rejected; otherwise the TOTP check decides.
   */
  function VerifyCode(secret: string, code: Option<string>, authorize: (string, int) -> bool): (valid: bool)
    ensures valid <==> code.Some? && ParseInt(code.value).Some? && authorize(secret, ParseInt(code.value).value)
  {
    match code
    case None => false
    case Some(c) =>
      match ParseInt(c)
      case None => false
      case Some(n) => authorize(secret, n)
  }

  /**
   * `POST /mfa/verify`: the code is checked against the first account's
   * secret; on success every account of the cluster is enabled and a token is
   * issued for the email.
   */
  function VerifyStep(accounts: seq<Account>, email: string, code: Option<string>,
                      authorize: (string, int) -> bool, issue: string -> string): MfaOutcome<string>
  {
    var cluster := Cluster(accounts, email);
    if cluster == [] then MfaOutcome(Err(UserNotFound), accounts)
    else
      var first := accounts[cluster[0]];
      if first.mfaSecret.None? then MfaOutcome(Err(MfaNotConfigured), accounts)
      else if !VerifyCode(first.mfaSecret.value, code, authorize) then MfaOutcome(Err(InvalidCode), accounts)
      else MfaOutcome(Ok(issue(first.email)), WriteCluster(accounts, email, Enable))
  }

  /** `POST /mfa/disable`. */
  function DisableStep(accounts: seq<Account>, email: string): MfaOutcome<()>
  {
    if Cluster(accounts, email) == [] then MfaOutcome(Err(UserNotFound), accounts)
    else MfaOutcome(Ok(()), WriteCluster(accounts, email, Disable))
  }

  /** The body of a successful `GET /mfa/status`. */
  datatype StatusReport = StatusReport(mfaEnabled: bool, email: string, name: Option<string>)

  /** `GET /mfa/status`: the first account of the cluster speaks for all of them. */
  function MfaStatus(accounts: seq<Account>, email: string): (r: Result<StatusReport, MfaError>)
    ensures r.Err? <==> forall i :: 0 <= i < |accounts| ==> accounts[i].email != email
    ensures r.Err? ==> r.error == UserNotFound
    ensures r.Ok? ==>
              exists i :: && 0 <= i < |accounts| && accounts[i].email == email
                          && (forall j :: 0 <= j < i ==> accounts[j].email != email)
                          && r.value == StatusReport(accounts[i].mfaEnabled, email, accounts[i].name)
  {
    var cluster := Cluster(accounts, email);
    if cluster == [] then Err(UserNotFound)
    else
      ClusterHeadIsFirst(accounts, email);
      var first := accounts[cluster[0]];
      Ok(StatusReport(first.mfaEnabled, first.email, first.name))
  }

  /**
   * The loop shared by the endpoints: the write applied and saved on every
   * account of the email's cluster, one at a time.
   */
  method SaveEach(s: Store, email: string, w: MfaWrite)
    requires s.Valid()
    modifies s`accounts
    ensures s.Valid()
    ensures s.accounts == WriteCluster(old(s.accounts), email, w)
  {
    WriteClusterKeepsConsistent(s.Snapshot(), email, w);
    ghost var before := s.accounts;
    var users := Cluster(s.accounts, email);
    var i := 0;
    while i < |users|
      invariant 0 <= i <= |users|
      invariant |s.accounts| == |before|
      invariant forall j :: 0 <= j < |before| ==>
                  s.accounts[j] == if j in users[..i] then Apply(w, before[j]) else before[j]
    {
      var k := users[i];
      s.accounts := s.accounts[k := Apply(w, s.accounts[k])];
      assert users[..i + 1] == users[..i] + [k];
      i := i + 1;
    }
    assert users[..i] == users;
  }

  method SetupMfa(s: Store, email: string, secret: string) returns (r: Result<string, MfaError>)
    requires s.Valid()
    modifies s`accounts
    ensures s.Valid()
    ensures MfaOutcome(r, s.accounts) == SetupStep(old(s.accounts), email, secret)
  {
    var users := Cluster(s.accounts, email);
    if users == [] {
      return Err(UserNotFound);
    }
    SaveEach(s, email, StoreSecret(secret));
    r := Ok(secret);
  }

  method VerifyMfa(s: Store, email: string, code: Option<string>,
                   authorize: (string, int) -> bool, issue: string -> string) returns (r: Result<string, MfaError>)
    requires s.Valid()
    modifies s`accounts
    ensures s.Valid()
    ensures MfaOutcome(r, s.accounts) == VerifyStep(old(s.accounts), email, code, authorize, issue)
  {
    var users := Cluster(s.accounts, email);
    if users == [] {
      return Err(UserNotFound);
    }
    var first := s.accounts[users[0]];
    if first.mfaSecret.None? {
      return Err(MfaNotConfigured);
    }
    var valid := VerifyCode(first.mfaSecret.value, code, authorize);
    if !valid {
      return Err(InvalidCode);
    }
    SaveEach(s, email, Enable);
    r := Ok(issue(first.email));
  }

  method DisableMfa(s: Store, email: string) returns (r: Result<(), MfaError>)
    requires s.Valid()
    modifies s`accounts
    ensures s.Valid()
    ensures MfaOutcome(r, s.accounts) == DisableStep(old(s.accounts), email)
  {
    var users := Cluster(s.accounts, email);
    if users == [] {
      return Err(UserNotFound);
    }
    SaveEach(s, email, Disable);
    r := Ok(());
  }

  /** Writing MFA columns touches no identity, role or key, so the database stays consistent. */
  lemma WriteClusterKeepsConsistent(db: Db, email: string, w: MfaWrite)
    requires Consistent(db)
    ensures Consistent(db.(accounts := WriteCluster(db.accounts, email, w)))
  {
    var after := WriteCluster(db.accounts, email, w);
    assert forall i :: 0 <= i < |after| ==>
      after[i].provider == db.accounts[i].provider && after[i].oauthId == db.accounts[i].oauthId
      && after[i].roles == db.accounts[i].roles;
  }
}
