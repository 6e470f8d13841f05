/**
 * The persistence layer: the four tables as one store, the integrity
 * constraints the schema and the services keep, and the repository finders
 * (`findAllByEmail`, `findByOauthProviderAndOauthId`, `findByName`,
 * `findByPath`, `existsByName`) as functions over the tables.
 */
module Repository {
  import opened Wrappers
  import opened Entities

  /**
   * A snapshot of the database. An account's id is its position in `accounts`
   * (accounts are only ever appended, and rows come back in primary-key order);
   * roles, resources and permissions are keyed by ids drawn from `nextId`.
   */
  datatype Db = Db(
    accounts: seq<Account>,
    roles: map<Id, Role>,
    resources: map<Id, Resource>,
    permissions: map<Id, Permission>,
    nextId: nat)

  /** What a state-changing operation returns, together with the state it leaves. */
  datatype Outcome<+T, +E> = Outcome(result: Result<T, E>, after: Db)

  // ---------------------------------------------------------------- constraints

  /** `roles.name` is a unique column. */
  ghost predicate RoleNamesUnique(roles: map<Id, Role>)
  {
    forall a, b :: a in roles && b in roles && roles[a].name == roles[b].name ==> a == b
  }

  /** `resources.name` is a unique column (`path` is not). */
  ghost predicate ResourceNamesUnique(resources: map<Id, Resource>)
  {
    forall a, b :: a in resources && b in resources && resources[a].name == resources[b].name ==> a == b
  }

  /** At most one permission per (resource, operation); kept by `createPermission`, not by the schema. */
  ghost predicate PermissionPairsUnique(permissions: map<Id, Permission>)
  {
    forall a, b :: a in permissions && b in permissions && permissions[a] == permissions[b] ==> a == b
  }

  /** The unique constraint on (`oauth_provider`, `oauth_id`). */
  ghost predicate IdentitiesUnique(accounts: seq<Account>)
  {
    forall i, j :: 0 <= i < |accounts| && 0 <= j < |accounts| && i != j ==>
      accounts[i].provider != accounts[j].provider || accounts[i].oauthId != accounts[j].oauthId
  }

  /** Foreign keys: permission -> resource, role -> permissions, account -> roles. */
  ghost predicate ReferencesResolve(db: Db)
  {
    && (forall p :: p in db.permissions ==> db.permissions[p].resource in db.resources)
    && (forall r :: r in db.roles ==> db.roles[r].permissions <= db.permissions.Keys)
    && (forall i :: 0 <= i < |db.accounts| ==> db.accounts[i].roles <= db.roles.Keys)
  }

  /** Every key in use was drawn from the id sequence before `nextId`. */
  ghost predicate IdsFresh(db: Db)
  {
    && (forall k :: k in db.roles ==> k < db.nextId)
    && (forall k :: k in db.resources ==> k < db.nextId)
    && (forall k :: k in db.permissions ==> k < db.nextId)
  }

  ghost predicate Consistent(db: Db)
  {
    && RoleNamesUnique(db.roles)
    && ResourceNamesUnique(db.resources)
    && PermissionPairsUnique(db.permissions)
    && IdentitiesUnique(db.accounts)
    && ReferencesResolve(db)
    && IdsFresh(db)
  }

  /**
   * The identity-cluster agreement the MFA code relies on: accounts sharing an
   * email have the same MFA columns. It is not a schema constraint; the login
   * resolver and the MFA endpoints each preserve it.
   */
  ghost predicate ClustersAgree(accounts: seq<Account>)
  {
    forall i, j :: 0 <= i < |accounts| && 0 <= j < |accounts| && accounts[i].email == accounts[j].email
      ==> MfaOf(accounts[i]) == MfaOf(accounts[j])
  }

  // ---------------------------------------------------------------- finders

  /**
   * `findAllByEmail`: the ids of the accounts with this email, in id order.
   * This list is the email's identity cluster.
   */
  function Cluster(accounts: seq<Account>, email: string): (c: seq<nat>)
    ensures forall k :: 0 <= k < |c| ==> c[k] < |accounts| && accounts[c[k]].email == email
    ensures forall i :: 0 <= i < |accounts| && accounts[i].email == email ==> i in c
    ensures forall k, l :: 0 <= k < l < |c| ==> c[k] < c[l]
    decreases |accounts|
  {
    if accounts == [] then []
    else
      var c := Cluster(accounts[..|accounts| - 1], email);
      if accounts[|accounts| - 1].email == email then c + [|accounts| - 1] else c
  }

  /** The head of a cluster is the account with the least id among those with the email. */
  lemma ClusterHeadIsFirst(accounts: seq<Account>, email: string)
    requires |Cluster(accounts, email)| > 0
    ensures forall j :: 0 <= j < Cluster(accounts, email)[0] ==> accounts[j].email != email
  {
  }

  /** An email has an empty cluster exactly when no account carries it. */
  lemma ClusterEmptyIff(accounts: seq<Account>, email: string)
    ensures |Cluster(accounts, email)| == 0 <==> forall i :: 0 <= i < |accounts| ==> accounts[i].email != email
  {
    if |Cluster(accounts, email)| > 0 {
      assert accounts[Cluster(accounts, email)[0]].email == email;
    }
  }

  /** The cluster depends on the emails only: writes that keep every email keep every cluster. */
  lemma {:induction false} ClusterDependsOnEmails(a: seq<Account>, b: seq<Account>, email: string)
    requires |a| == |b|
    requires forall i :: 0 <= i < |a| ==> a[i].email == b[i].email
    ensures Cluster(a, email) == Cluster(b, email)
    decreases |a|
  {
    if a != [] {
      ClusterDependsOnEmails(a[..|a| - 1], b[..|b| - 1], email);
    }
  }

  /** Saving a new account extends its email's cluster by its id and leaves other clusters alone. */
  lemma ClusterAfterAppend(accounts: seq<Account>, a: Account, email: string)
    ensures Cluster(accounts + [a], email) ==
      if a.email == email then Cluster(accounts, email) + [|accounts|] else Cluster(accounts, email)
  {
    assert (accounts + [a])[..|accounts|] == accounts;
  }

  /**
   * `findByOauthProviderAndOauthId`: the account with this identity, if any.
   * A null subject id matches no stored account (the column is not nullable).
   */
  function FindByIdentity(accounts: seq<Account>, provider: Provider, oauthId: Option<string>): (r: Option<nat>)
    ensures r.Some? ==> r.value < |accounts| && accounts[r.value].provider == provider
                        && oauthId == Some(accounts[r.value].oauthId)
    ensures r.None? ==> forall i :: 0 <= i < |accounts| ==>
                          accounts[i].provider != provider || oauthId != Some(accounts[i].oauthId)
  {
    if accounts == [] then None
    else if accounts[0].provider == provider && oauthId == Some(accounts[0].oauthId) then Some(0)
    else
      match FindByIdentity(accounts[1..], provider, oauthId)
      case None => None
      case Some(k) => Some(k + 1)
  }

  /** `findByName` / `existsByName` on roles: the ids of roles with this name (at most one when consistent). */
  function RolesNamed(roles: map<Id, Role>, name: string): set<Id>
  {
    set id | id in roles && roles[id].name == name
  }

  /** `findByName` on roles as an optional id. */
  ghost function RoleByName(roles: map<Id, Role>, name: string): (r: Option<Id>)
    ensures r.Some? <==> RolesNamed(roles, name) != {}
    ensures r.Some? ==> r.value in roles && roles[r.value].name == name
  {
    if RolesNamed(roles, name) == {} then None
    else
      var id :| id in RolesNamed(roles, name);
      Some(id)
  }

  /** With unique role names, the role found by name is the only role with that name. */
  lemma RoleByNameUnique(roles: map<Id, Role>, name: string, id: Id)
    requires RoleNamesUnique(roles)
    requires id in roles && roles[id].name == name
    ensures RoleByName(roles, name) == Some(id)
  {
    assert id in RolesNamed(roles, name);
  }

  /** `existsByName` on resources. */
  predicate ResourceNameTaken(resources: map<Id, Resource>, name: string)
  {
    exists id :: id in resources && resources[id].name == name
  }

  /** `findByPath`: the ids of all resources registered at this path. */
  function ResourcesAtPath(resources: map<Id, Resource>, path: string): set<Id>
  {
    set id | id in resources && resources[id].path == path
  }

  /** Why a single-result finder fails: more than one row matched. */
  datatype Lookup = NotRegistered | Unique(id: Id) | NotUnique

  /**
   * `findByPath` returns an Optional, so it answers "none", the one match, or
   * fails when several resources share the path (the path column is not unique).
   */
  ghost function FindByPath(resources: map<Id, Resource>, path: string): (r: Lookup)
    ensures r == NotRegistered <==> forall id :: id in resources ==> resources[id].path != path
    ensures r.Unique? <==> |ResourcesAtPath(resources, path)| == 1
    ensures r.Unique? ==> ResourcesAtPath(resources, path) == {r.id}
  {
    var ids := ResourcesAtPath(resources, path);
    assert forall id :: id in resources && resources[id].path == path ==> id in ids;
    if ids == {} then NotRegistered
    else if |ids| == 1 then
      var id :| id in ids;
      assert ids == {id} by {
        assert |ids - {id}| == 0;
        assert ids - {id} == {};
      }
      Unique(id)
    else
      assert forall id :: id in ids ==> id in resources && resources[id].path == path;
      NotUnique
  }

  /** The mutable store the services share: the four repositories and the id sequence. */
  class Store {
    var accounts: seq<Account>
    var roles: map<Id, Role>
    var resources: map<Id, Resource>
    var permissions: map<Id, Permission>
    var nextId: nat

    function Snapshot(): Db
      reads this
    {
      Db(accounts, roles, resources, permissions, nextId)
    }

    ghost predicate Valid()
      reads this
    {
      Consistent(Snapshot())
    }

    /** An empty database. */
    constructor ()
      ensures Valid()
      ensures Snapshot() == Db([], map[], map[], map[], 0)
    {
      accounts := [];
      roles := map[];
      resources := map[];
      permissions := map[];
      nextId := 0;
    }
  }
}
