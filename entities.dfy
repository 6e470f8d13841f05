/**
 * The persistent entities: accounts (the `User` table), roles, resources and
 * permissions. Every entity is a value; the store that holds them is in module
 * Repository. References between entities are ids.
 */
module Entities {
  import opened Wrappers

  /** Primary keys of roles, resources and permissions (database IDENTITY values). */
  type Id = nat

  /** The operations a permission can grant. */
  datatype Operation = CREATE | READ | UPDATE | DELETE

  /** The identity providers the login resolver handles. */
  datatype Provider = GOOGLE | GITHUB | FACEBOOK

  /**
   * One row of the `users` table: one account per (provider, provider subject id).
   * `email` is required but not unique; `name` and `mfaSecret` are nullable;
   * `roles` is the account's set of role ids (the many-to-many link to roles).
   */
  datatype Account = Account(
    email: string,
    name: Option<string>,
    provider: Provider,
    oauthId: string,
    mfaEnabled: bool,
    mfaSecret: Option<string>,
    usingMfa: bool,
    roles: set<Id>)

  /**
   * One row of the `roles` table. Role equality in the source ignores the
   * permission and user sets; here a role is referred to by its id only.
   */
  datatype Role = Role(name: string, description: Option<string>, permissions: set<Id>)

  /** One row of the `resources` table: a unique name, a required (not unique) path. */
  datatype Resource = Resource(name: string, description: Option<string>, path: string)

  /** One row of the `permissions` table: exactly one resource and one operation. */
  datatype Permission = Permission(resource: Id, operation: Operation)

  /** The three MFA columns that every account of one email is meant to share. */
  datatype MfaState = MfaState(enabled: bool, usingMfa: bool, secret: Option<string>)

  function MfaOf(a: Account): MfaState
  {
    MfaState(a.mfaEnabled, a.usingMfa, a.mfaSecret)
  }

  /** The account created for a new identity: MFA off, no secret, no roles yet. */
  function NewAccount(email: string, name: Option<string>, provider: Provider, oauthId: string): Account
  {
    Account(email, name, provider, oauthId, false, None, false, {})
  }
}
