/**
 * What the MFA endpoints promise: cluster-wide writes, the setup → verify →
 * disable life cycle, and the agreement of MFA state inside an identity
 * cluster, which every writer of the accounts table preserves.
 */
module MfaProperties {
  import opened Wrappers
  import opened Entities
  import opened Repository
  import opened JavaText
  import opened Mfa
  import Rbac

  /** A cluster write reaches exactly the accounts with the email and changes only their MFA columns. */
  lemma WriteClusterReaches(accounts: seq<Account>, email: string, w: MfaWrite, i: nat)
    requires i < |accounts|
    ensures var after := WriteCluster(accounts, email, w);
            && after[i].email == accounts[i].email
            && after[i].(mfaEnabled := accounts[i].mfaEnabled, usingMfa := accounts[i].usingMfa,
                         mfaSecret := accounts[i].mfaSecret) == accounts[i]
            && (accounts[i].email == email ==> MfaOf(after[i]) == ApplyState(w, MfaOf(accounts[i])))
            && (accounts[i].email != email ==> after[i] == accounts[i])
  {
  }

  /** A cluster write leaves every cluster where it was. */
  lemma WriteClusterKeepsClusters(accounts: seq<Account>, email: string, w: MfaWrite, other: string)
    ensures Cluster(WriteCluster(accounts, email, w), other) == Cluster(accounts, other)
  {
    ClusterDependsOnEmails(WriteCluster(accounts, email, w), accounts, other);
  }

  /** Each write is idempotent: saving it twice is saving it once. */
  lemma {:induction false} WriteClusterIdempotent(accounts: seq<Account>, email: string, w: MfaWrite)
    ensures WriteCluster(WriteCluster(accounts, email, w), email, w) == WriteCluster(accounts, email, w)
  {
    var once := WriteCluster(accounts, email, w);
    var twice := WriteCluster(once, email, w);
    forall i | 0 <= i < |accounts|
      ensures twice[i] == once[i]
    {
      if accounts[i].email == email {
        assert once[i] == Apply(w, accounts[i]);
        assert twice[i] == Apply(w, once[i]);
      }
    }
  }

  /** Writing the same thing on every account of a cluster keeps all clusters in agreement. */
  lemma {:induction false} WriteClusterKeepsAgreement(accounts: seq<Account>, email: string, w: MfaWrite)
    requires ClustersAgree(accounts)
    ensures ClustersAgree(WriteCluster(accounts, email, w))
  {
    var after := WriteCluster(accounts, email, w);
    forall i, j | 0 <= i < |after| && 0 <= j < |after| && after[i].email == after[j].email
      ensures MfaOf(after[i]) == MfaOf(after[j])
    {
      WriteClusterReaches(accounts, email, w, i);
      WriteClusterReaches(accounts, email, w, j);
      assert MfaOf(accounts[i]) == MfaOf(accounts[j]);
    }
  }

  /** Setup, verify and disable each keep identity clusters in agreement. */
  lemma EndpointsKeepAgreement(accounts: seq<Account>, email: string, secret: string, code: Option<string>,
                               authorize: (string, int) -> bool, issue: string -> string)
    requires ClustersAgree(accounts)
    ensures ClustersAgree(SetupStep(accounts, email, secret).accounts)
    ensures ClustersAgree(VerifyStep(accounts, email, code, authorize, issue).accounts)
    ensures ClustersAgree(DisableStep(accounts, email).accounts)
  {
    WriteClusterKeepsAgreement(accounts, email, StoreSecret(secret));
    WriteClusterKeepsAgreement(accounts, email, Enable);
    WriteClusterKeepsAgreement(accounts, email, Disable);
  }

  /** Granting or revoking a role and deleting a role change no MFA column, so agreement survives them. */
  lemma {:induction false} RoleWritesKeepAgreement(db: Db, userId: nat, roleId: Id, insert: bool)
    requires ClustersAgree(db.accounts)
    ensures ClustersAgree(Rbac.AccountRoleStep(db, userId, roleId, insert).after.accounts)
    ensures ClustersAgree(Rbac.DeleteRoleStep(db, roleId).accounts)
  {
    var o := Rbac.AccountRoleStep(db, userId, roleId, insert);
    if o.result.Ok? {
      forall i | 0 <= i < |db.accounts|
        ensures o.after.accounts[i].email == db.accounts[i].email && MfaOf(o.after.accounts[i]) == MfaOf(db.accounts[i])
      {
        if i == userId {
          assert o.after.accounts[userId].(roles := db.accounts[userId].roles) == db.accounts[userId];
        }
      }
    }
    var deleted := Rbac.DeleteRoleStep(db, roleId).accounts;
    assert forall i :: 0 <= i < |deleted| ==> deleted[i].email == db.accounts[i].email && MfaOf(deleted[i]) == MfaOf(db.accounts[i]);
  }

  /** Under agreement, the status of the first account is the status of every account of the cluster. */
  lemma StatusSpeaksForCluster(accounts: seq<Account>, email: string, i: nat)
    requires ClustersAgree(accounts)
    requires i < |accounts| && accounts[i].email == email
    ensures MfaStatus(accounts, email).Ok?
    ensures MfaStatus(accounts, email).value.mfaEnabled == accounts[i].mfaEnabled
  {
  }

  /**
   * Setting up and then confirming with a code the TOTP check accepts for the
   * new secret enables MFA, with that secret, on every account of the
   * cluster, whatever its state was before.
   */
  lemma {:induction false} SetupThenVerifyEnables(accounts: seq<Account>, email: string, secret: string,
                                                  code: string, authorize: (string, int) -> bool, issue: string -> string)
    requires exists i :: 0 <= i < |accounts| && accounts[i].email == email
    requires ParseInt(code).Some? && authorize(secret, ParseInt(code).value)
    ensures var setup := SetupStep(accounts, email, secret);
            var verified := VerifyStep(setup.accounts, email, Some(code), authorize, issue);
            && setup.result == Ok(secret)
            && verified.result == Ok(issue(email))
            && |verified.accounts| == |accounts|
            && forall i :: 0 <= i < |accounts| && accounts[i].email == email ==>
                 MfaOf(verified.accounts[i]) == MfaState(true, true, Some(secret))
  {
    ClusterEmptyIff(accounts, email);
    var setup := SetupStep(accounts, email, secret);
    WriteClusterKeepsClusters(accounts, email, StoreSecret(secret), email);
    var cluster := Cluster(accounts, email);
    WriteClusterReaches(accounts, email, StoreSecret(secret), cluster[0]);
    var verified := VerifyStep(setup.accounts, email, Some(code), authorize, issue);
    forall i | 0 <= i < |accounts| && accounts[i].email == email
      ensures MfaOf(verified.accounts[i]) == MfaState(true, true, Some(secret))
    {
      WriteClusterReaches(accounts, email, StoreSecret(secret), i);
      WriteClusterReaches(setup.accounts, email, Enable, i);
    }
  }

  /** A rejected code, a missing secret or an unknown email writes nothing. */
  lemma VerifyWritesOnlyOnSuccess(accounts: seq<Account>, email: string, code: Option<string>,
                                  authorize: (string, int) -> bool, issue: string -> string)
    ensures var o := VerifyStep(accounts, email, code, authorize, issue);
            o.result.Err? ==> o.accounts == accounts
    ensures var o := VerifyStep(accounts, email, code, authorize, issue);
            (code.None? || ParseInt(code.value).None?) ==> o.result.Err?
  {
  }

  /**
   * Disabling returns every account of the cluster to the state of a fresh
   * account, after which a verify fails until a new setup.
   */
  lemma {:induction false} DisableResets(accounts: seq<Account>, email: string, code: Option<string>,
                                         authorize: (string, int) -> bool, issue: string -> string)
    requires exists i :: 0 <= i < |accounts| && accounts[i].email == email
    ensures var off := DisableStep(accounts, email);
            && off.result == Ok(())
            && (forall i :: 0 <= i < |accounts| && accounts[i].email == email ==>
                  MfaOf(off.accounts[i]) == MfaOf(NewAccount(email, None, GOOGLE, "")))
            && VerifyStep(off.accounts, email, code, authorize, issue) == MfaOutcome(Err(MfaNotConfigured), off.accounts)
  {
    ClusterEmptyIff(accounts, email);
    var off := DisableStep(accounts, email);
    WriteClusterKeepsClusters(accounts, email, Disable, email);
    var cluster := Cluster(accounts, email);
    forall i | 0 <= i < |accounts| && accounts[i].email == email
      ensures MfaOf(off.accounts[i]) == MfaState(false, false, None)
    {
      WriteClusterReaches(accounts, email, Disable, i);
    }
  }

  /** Disabling twice is disabling once. */
  lemma {:induction false} DisableIdempotent(accounts: seq<Account>, email: string)
    ensures var once := DisableStep(accounts, email);
            DisableStep(once.accounts, email) == once
  {
    var once := DisableStep(accounts, email);
    if once.result.Ok? {
      WriteClusterKeepsClusters(accounts, email, Disable, email);
      WriteClusterIdempotent(accounts, email, Disable);
    }
  }

  /**
   * A setup on a cluster that already has MFA on replaces the secret and
   * leaves MFA enabled: codes of the old secret stop matching at once.
   */
  lemma SetupRotatesSecret(accounts: seq<Account>, email: string, secret: string, i: nat)
    requires i < |accounts| && accounts[i].email == email && accounts[i].mfaEnabled
    ensures var setup := SetupStep(accounts, email, secret);
            setup.accounts[i].mfaEnabled && setup.accounts[i].mfaSecret == Some(secret)
  {
    ClusterEmptyIff(accounts, email);
    WriteClusterReaches(accounts, email, StoreSecret(secret), i);
  }

  /** Every endpoint answers "not found" for an email no account carries, and writes nothing. */
  lemma UnknownEmailNotFound(accounts: seq<Account>, email: string, secret: string, code: Option<string>,
                             authorize: (string, int) -> bool, issue: string -> string)
    requires forall i :: 0 <= i < |accounts| ==> accounts[i].email != email
    ensures SetupStep(accounts, email, secret) == MfaOutcome(Err(UserNotFound), accounts)
    ensures VerifyStep(accounts, email, code, authorize, issue) == MfaOutcome(Err(UserNotFound), accounts)
    ensures DisableStep(accounts, email) == MfaOutcome(Err(UserNotFound), accounts)
    ensures MfaStatus(accounts, email) == Err(UserNotFound)
  {
    ClusterEmptyIff(accounts, email);
  }

  /** Setup stores the one new secret on every account of the cluster and leaves both flags as they were. */
  lemma SetupStoresSecretOnly(accounts: seq<Account>, email: string, secret: string, i: nat)
    requires i < |accounts| && accounts[i].email == email
    ensures var setup := SetupStep(accounts, email, secret);
            && setup.result == Ok(secret)
            && MfaOf(setup.accounts[i]) == MfaState(accounts[i].mfaEnabled, accounts[i].usingMfa, Some(secret))
  {
    ClusterEmptyIff(accounts, email);
    WriteClusterReaches(accounts, email, StoreSecret(secret), i);
  }

  /**
   * Verify succeeds exactly when the first account of the cluster has a
   * secret that accepts the code; then every account of the cluster has both
   * flags on and keeps its secret, and the token is issued for the email.
   */
  lemma VerifySucceedsIff(accounts: seq<Account>, email: string, code: Option<string>,
                          authorize: (string, int) -> bool, issue: string -> string, i: nat)
    requires i < |accounts| && accounts[i].email == email
    ensures var o := VerifyStep(accounts, email, code, authorize, issue);
            var first := accounts[Cluster(accounts, email)[0]];
            o.result.Ok? <==> first.mfaSecret.Some? && VerifyCode(first.mfaSecret.value, code, authorize)
    ensures var o := VerifyStep(accounts, email, code, authorize, issue);
            o.result.Ok? ==>
              && o.result.value == issue(email)
              && MfaOf(o.accounts[i]) == MfaState(true, true, accounts[i].mfaSecret)
  {
    ClusterEmptyIff(accounts, email);
    WriteClusterReaches(accounts, email, Enable, i);
  }

  /** Setup, verify with an accepted code, then disable: every account of the email ends disabled and without a secret. */
  lemma SetupVerifyDisableRoundTrip(accounts: seq<Account>, email: string, secret: string,
                                    code: string, authorize: (string, int) -> bool, issue: string -> string, i: nat)
    requires i < |accounts| && accounts[i].email == email
    requires ParseInt(code).Some? && authorize(secret, ParseInt(code).value)
    ensures var setup := SetupStep(accounts, email, secret);
            var verified := VerifyStep(setup.accounts, email, Some(code), authorize, issue);
            var off := DisableStep(verified.accounts, email);
            && verified.result.Ok? && off.result == Ok(())
            && MfaOf(off.accounts[i]) == MfaState(false, false, None)
  {
    SetupThenVerifyEnables(accounts, email, secret, code, authorize, issue);
    var setup := SetupStep(accounts, email, secret);
    var verified := VerifyStep(setup.accounts, email, Some(code), authorize, issue);
    assert verified.accounts[i].email == email by {
      WriteClusterReaches(accounts, email, StoreSecret(secret), i);
      WriteClusterReaches(setup.accounts, email, Enable, i);
    }
    DisableResets(verified.accounts, email, None, authorize, issue);
  }
}
