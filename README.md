# MFA-Authenticate-OAuth2.0 — authorization and identity core in Dafny

This project models the authorization and identity-resolution core of a Spring
application. Users log in through Google, GitHub or Facebook and may protect
their login with TOTP multi-factor authentication. Access to annotated
endpoints is decided by role-based access control (RBAC).

The state is one database: accounts, roles, resources and permissions.
`Repository.Store` is a class with one field per table. Accounts are a
sequence whose index is the account id, so "the first account with an email"
is the one with the least id. Roles, resources and permissions are maps keyed
by their id. One id counter serves all three maps. Every operation that
writes has two parts:

- a transition function (`…Step`) from the database before to a result and
  the database after;
- a method on `Store` whose contract ties the new state to that function and
  keeps `Valid()`.

`Valid()` means the database is consistent: unique role names, unique
resource names, unique (resource, operation) pairs, unique (provider,
subject id) per account, resolving references and fresh ids. The lemmas
about the transition functions carry the properties.

Components:

- **RBAC engine** (`Rbac`, `RbacProperties`).
  - Creates and deletes roles, resources and permissions.
  - Adds and removes role↔permission and account↔role links.
  - Seeds the `ADMIN` and `USER` roles.
  - Two read-only checks: `hasPermission` and `isAdmin`. Each is a loop method
    proved against a predicate.
- **Identity-cluster resolver** (`OAuthLogin`, `OAuthLoginProperties`).
  - `loadUser` returns the account of a known (provider, subject id).
  - Otherwise it creates an account. The new account copies the MFA columns
    and roles of the first account with the same email, gets `USER` when it
    has no role, and becomes the only `ADMIN` when it is the first account of
    the system.
  - The per-provider extraction of email, subject id and name is modelled too.
- **MFA life cycle** (`Mfa`, `MfaProperties`).
  - Setup, verify, disable and status, as in `AuthController`.
  - Each write is a loop that saves every account of the email's cluster.
  - The main invariant is `ClustersAgree`: accounts sharing an email agree on
    their MFA columns. Login, the MFA endpoints and the role writes all
    preserve it.
- **Request gate** (`PermissionGate`, `PermissionGateProperties`):
  `PermissionInterceptor.preHandle`.
- **Bearer filter** (`JwtFilter`, `JwtFilterProperties`): header parsing, and
  authorities taken from the first account of the email.
- **Post-login redirect** (`LoginRedirect`, `LoginRedirectProperties`): the
  choice between the MFA page and the dashboard.
- **Java text helpers** (`JavaText`):
  - `Integer.parseInt`;
  - the decimal `toString` of an integer;
  - `Character.isWhitespace` as used by `StringUtils.hasText`;
  - `startsWith`;
  - string concatenation with a null operand.

Oracles passed in as parameters:

- the TOTP check (`authorize(secret, code)`);
- the JWT issuer, the validator and the email claim;
- the freshly generated secret.

Points where the model decides on behaviour the source leaves open:

- **Roles field on `User`.** `User.java` declares no `roles` field, but
  `RbacService` and `CustomOAuth2UserService` use one. Each account carries a
  set of role ids, and a new account starts with an empty set.
- **Order of `findAllByEmail`.** Its results are taken in id order.
- **Duplicate paths.** `createResource` checks only the name, so two resources
  may share a path. A `findByPath` that then sees two rows throws. The model
  returns this as `PathNotUnique`, and the gate surfaces it as `Failed`.
- **Extraction helpers.** The source throws on an unknown provider, which
  cannot happen with the three-valued enum.
- **Missing `ADMIN` role.** When the first account is saved and no `ADMIN`
  role exists, `loadUser` fails after the account was saved. `loadUser` is not
  transactional, so the model keeps the account, with `USER`.
- **Null subject id.** A null subject id (no `sub`/`id` attribute) makes the
  save fail on the not-null `oauth_id` column. The model returns
  `OAuthIdMissing` and writes nothing.
- **Deleting an unknown id.** `deleteRole`, `deleteResource` and
  `deletePermission` on an unknown id change nothing and report no error.
  This is the `deleteById` of current Spring Data.

## Model

| member | source | states |
|---|---|---|
| Repository.Cluster | src/main/java/com/security/mfaautenticate/repository/UserRepository.java:14 | `findAllByEmail`: exactly the ids of the accounts with the email, in strictly increasing order |
| Repository.ClusterHeadIsFirst | src/main/java/com/security/mfaautenticate/service/CustomOAuth2UserService.java:63 | the first element of the list is the least-id account with that email |
| Repository.ClusterEmptyIff | src/main/java/com/security/mfaautenticate/controller/AuthController.java:33-37 | the list is empty exactly when no account has the email |
| Repository.ClusterDependsOnEmails | src/main/java/com/security/mfaautenticate/repository/UserRepository.java:14 | two tables with the same emails, position by position, give the same list for every email |
| Repository.ClusterAfterAppend | src/main/java/com/security/mfaautenticate/service/CustomOAuth2UserService.java:88 | saving a new account appends its id to its own email's list and to no other |
| Repository.FindByIdentity | src/main/java/com/security/mfaautenticate/repository/UserRepository.java:16 | `findByOauthProviderAndOauthId`: the returned account has that provider and id; none is returned exactly when no account has them |
| Repository.RoleByName | src/main/java/com/security/mfaautenticate/service/CustomOAuth2UserService.java:82-83 | `findByName`: present exactly when some role has the name, and the found role has it |
| Repository.RoleByNameUnique | src/main/java/com/security/mfaautenticate/entity/Role.java:23-24 | with unique role names, `findByName` finds the one role carrying the name |
| Repository.FindByPath | src/main/java/com/security/mfaautenticate/repository/ResourceRepository.java:12 | `findByPath`: not registered exactly when no resource has the path, a single answer exactly when one does, otherwise not unique |
| Rbac.CreateRoleStep | src/main/java/com/security/mfaautenticate/service/RbacService.java:27-38 | fails exactly when the name is taken, then changing nothing; otherwise adds one role with that name, description and no permissions, and changes nothing else |
| Rbac.CreateResourceStep | src/main/java/com/security/mfaautenticate/service/RbacService.java:58-71 | fails exactly when the name is taken (the path is not checked); otherwise adds one resource with name, description and path |
| Rbac.CreatePermissionStep | src/main/java/com/security/mfaautenticate/service/RbacService.java:90-106 | fails when the resource is missing (`ResourceNotFound`) or the (resource, operation) pair exists (`PermissionExists`), changing nothing; otherwise adds one permission |
| Rbac.RolePermissionStep | src/main/java/com/security/mfaautenticate/service/RbacService.java:121-144 | fails exactly on a missing role (`RoleNotFound`, checked first) or permission (`PermissionNotFound`); otherwise inserts into or removes from that role's permission set only |
| Rbac.AccountRoleStep | src/main/java/com/security/mfaautenticate/service/RbacService.java:149-172 | fails exactly on a missing account (`UserNotFound`, checked first) or role (`RoleNotFound`); otherwise inserts into or removes from that account's role set only |
| Rbac.CreateRole | src/main/java/com/security/mfaautenticate/service/RbacService.java:27-38 | the store changes as `CreateRoleStep` says and stays consistent |
| Rbac.DeleteRole | src/main/java/com/security/mfaautenticate/service/RbacService.java:50-53 | the role is gone and no account refers to it; the store stays consistent |
| Rbac.CreateResource | src/main/java/com/security/mfaautenticate/service/RbacService.java:58-71 | the store changes as `CreateResourceStep` says and stays consistent |
| Rbac.DeleteResource | src/main/java/com/security/mfaautenticate/service/RbacService.java:82-85 | the resource and, by cascade, its permissions are gone, also from every role |
| Rbac.CreatePermission | src/main/java/com/security/mfaautenticate/service/RbacService.java:90-106 | the store changes as `CreatePermissionStep` says and stays consistent |
| Rbac.DeletePermission | src/main/java/com/security/mfaautenticate/service/RbacService.java:113-116 | the permission is gone from the table and from every role |
| Rbac.ChangeRolePermissions | src/main/java/com/security/mfaautenticate/service/RbacService.java:121-144 | the shared body of assign/remove permission: the store changes as `RolePermissionStep` says |
| Rbac.AssignPermissionToRole | src/main/java/com/security/mfaautenticate/service/RbacService.java:121-131 | set insert of the permission into the role, per `RolePermissionStep` |
| Rbac.RemovePermissionFromRole | src/main/java/com/security/mfaautenticate/service/RbacService.java:134-144 | set removal of the permission from the role, per `RolePermissionStep` |
| Rbac.ChangeAccountRoles | src/main/java/com/security/mfaautenticate/service/RbacService.java:149-172 | the shared body of assign/remove role: the store changes as `AccountRoleStep` says |
| Rbac.AssignRoleToUser | src/main/java/com/security/mfaautenticate/service/RbacService.java:149-159 | set insert of the role into the account's roles |
| Rbac.RemoveRoleFromUser | src/main/java/com/security/mfaautenticate/service/RbacService.java:162-172 | set removal of the role from the account's roles |
| Rbac.InitializeDefaultRoles | src/main/java/com/security/mfaautenticate/service/RbacService.java:218-234 | creates `ADMIN`, then `USER`, each only when missing; the store stays consistent |
| Rbac.HasPermission | src/main/java/com/security/mfaautenticate/service/RbacService.java:176-201 | the nested search answers: false for an unknown email, true for an unregistered path, else whether some account, role and permission match resource and operation |
| Rbac.AccountHolds | src/main/java/com/security/mfaautenticate/service/RbacService.java:190-197 | the loop over one account's roles answers whether one of them grants the pair |
| Rbac.RoleHolds | src/main/java/com/security/mfaautenticate/service/RbacService.java:191-196 | the loop over one role's permissions answers whether one matches resource id and operation |
| Rbac.IsAdmin | src/main/java/com/security/mfaautenticate/service/RbacService.java:203-213 | true exactly when some account with the email holds a role named `ADMIN` |
| Rbac.CreateRoleKeepsConsistent | src/main/java/com/security/mfaautenticate/entity/Role.java:23-24 | creating a role keeps names unique and the database consistent |
| Rbac.DeleteRoleKeepsConsistent | src/main/java/com/security/mfaautenticate/entity/Role.java:36-37 | deleting a role leaves no account referring to it |
| Rbac.CreateResourceKeepsConsistent | src/main/java/com/security/mfaautenticate/entity/Resource.java:34-35 | creating a resource keeps resource names unique |
| Rbac.DeleteResourceKeepsConsistent | src/main/java/com/security/mfaautenticate/entity/Resource.java:50-52 | the cascade leaves no permission without its resource and no role with a dangling permission |
| Rbac.CreatePermissionKeepsConsistent | src/main/java/com/security/mfaautenticate/entity/Permission.java:24-30 | a new permission refers to an existing resource and its pair stays unique |
| Rbac.DeletePermissionKeepsConsistent | src/main/java/com/security/mfaautenticate/service/RbacService.java:113-116 | deleting a permission leaves no role referring to it |
| Rbac.RolePermissionKeepsConsistent | src/main/java/com/security/mfaautenticate/entity/Role.java:28-34 | role↔permission link changes keep the database consistent |
| Rbac.AccountRoleKeepsConsistent | src/main/java/com/security/mfaautenticate/entity/User.java:10-12 | account↔role link changes keep identities unique and the database consistent |
| RbacProperties.CreateRoleAddsOne | src/main/java/com/security/mfaautenticate/service/RbacService.java:27-38 | a created role has a fresh id, the keys grow by exactly that id, and it is the only role with its name |
| RbacProperties.DuplicatePathAccepted | src/main/java/com/security/mfaautenticate/service/RbacService.java:58-71 | a second resource at a taken path is accepted, after which `findByPath` is not unique and `hasPermission` fails for every known email |
| RbacProperties.CreatePermissionIsOnlyMatch | src/main/java/com/security/mfaautenticate/service/RbacService.java:94-103 | after creation the new permission is the only one for its (resource, operation) |
| RbacProperties.RolePermissionIdempotent | src/main/java/com/security/mfaautenticate/service/RbacService.java:128 | adding or removing the same permission twice is doing it once |
| RbacProperties.AssignThenRemoveRestores | src/main/java/com/security/mfaautenticate/service/RbacService.java:121-144 | assigning a permission a role lacked and removing it restores the database |
| RbacProperties.AccountRoleIdempotent | src/main/java/com/security/mfaautenticate/service/RbacService.java:156 | adding or removing the same role twice is doing it once |
| RbacProperties.AccountRoleMovesOneUser | src/main/java/com/security/mfaautenticate/entity/Role.java:36-37 | the inverse set `Role.users` gains or loses exactly the one account |
| RbacProperties.RolePermissionMovesOneRole | src/main/java/com/security/mfaautenticate/entity/Permission.java:32-34 | the inverse set `Permission.roles` gains or loses exactly the one role |
| RbacProperties.DeleteResourceCascades | src/main/java/com/security/mfaautenticate/entity/Resource.java:50-52 | after deleting a resource no permission and no role refers to its permissions |
| RbacProperties.DeleteRoleIdempotent | src/main/java/com/security/mfaautenticate/service/RbacService.java:50-53 | deleting a role twice is deleting it once |
| RbacProperties.SeedingEstablishesDefaults | src/main/java/com/security/mfaautenticate/service/RbacService.java:218-234 | after seeding, roles named `ADMIN` and `USER` both exist |
| RbacProperties.SeedingIdempotent | src/main/java/com/security/mfaautenticate/service/RbacService.java:218-234 | seeding with both roles present changes nothing; seeding twice is seeding once |
| RbacProperties.UnknownEmailDenied | src/main/java/com/security/mfaautenticate/service/RbacService.java:177-180 | an unknown email is denied, even at an unregistered path, and is not an administrator |
| RbacProperties.UnregisteredPathAllowed | src/main/java/com/security/mfaautenticate/service/RbacService.java:182-185 | fail-open: a known email is allowed at a path no resource has |
| RbacProperties.AssignGrants | src/main/java/com/security/mfaautenticate/service/RbacService.java:121-131 | granting a permission to a role an account holds makes `hasPermission` true for the account's email |
| RbacProperties.RemoveRevokes | src/main/java/com/security/mfaautenticate/service/RbacService.java:134-144 | after removing a permission from a role, `hasPermission` holds exactly when another role of the email still grants the pair |
| RbacProperties.RemovalKeepsOnlyOtherGrants | src/main/java/com/security/mfaautenticate/service/RbacService.java:141 | after the removal, any remaining grant comes from another role |
| RbacProperties.RemovalKeepsOtherGrants | src/main/java/com/security/mfaautenticate/service/RbacService.java:141 | grants through other roles survive the removal |
| RbacProperties.DeleteRoleRevokes | src/main/java/com/security/mfaautenticate/service/RbacService.java:50-53 | after deleting a role, `hasPermission` holds exactly when another role of the email grants the pair |
| RbacProperties.DeletionKeepsOnlyOtherGrants | src/main/java/com/security/mfaautenticate/service/RbacService.java:51 | after the deletion, any remaining grant comes from another role |
| RbacProperties.DeletionKeepsOtherGrants | src/main/java/com/security/mfaautenticate/service/RbacService.java:51 | grants through other roles survive the deletion |
| RbacProperties.NewResourceHasNoPermissions | src/main/java/com/security/mfaautenticate/entity/Resource.java:52 | a new resource starts with no permissions |
| JavaText.ParseInt | src/main/java/com/security/mfaautenticate/service/MfaService.java:65 | `Integer.parseInt`: a result is a 32-bit value parsed from a sign and decimal digits only, equal to the digits' decimal value, negated after `-`; every in-range digit string parses |
| JavaText.NatString | src/main/java/com/security/mfaautenticate/service/CustomOAuth2UserService.java:140 | the decimal text of a number is non-empty and all digits |
| JavaText.NatStringValue | src/main/java/com/security/mfaautenticate/service/CustomOAuth2UserService.java:140 | the decimal text of a number reads back as that number |
| JavaText.ParseDecimalRoundTrip | src/main/java/com/security/mfaautenticate/service/MfaService.java:65 | `parseInt(toString(n)) == n` for every 32-bit `n` |
| JavaText.NonNumericRejected | src/main/java/com/security/mfaautenticate/service/MfaService.java:65-68 | a code with a non-digit past the sign does not parse |
| OAuthLogin.ExtractEmail | src/main/java/com/security/mfaautenticate/service/CustomOAuth2UserService.java:110-133 | never empty; a non-empty given email is kept; otherwise the address is the GitHub login plus `@github.com` when there is a login, and else the provider id ("null" when missing) plus the provider's fallback domain |
| OAuthLogin.ExtractName | src/main/java/com/security/mfaautenticate/service/CustomOAuth2UserService.java:147-160 | Google and Facebook give `name`; GitHub gives `login` when `name` is null or empty |
| OAuthLogin.FindRole | src/main/java/com/security/mfaautenticate/service/CustomOAuth2UserService.java:82-83 | the role lookup on the store agrees with `RoleByName` |
| OAuthLogin.Save | src/main/java/com/security/mfaautenticate/service/CustomOAuth2UserService.java:88-101 | the save and first-account promotion change the store as `SaveStep` says and keep it consistent |
| OAuthLogin.LoadUser | src/main/java/com/security/mfaautenticate/service/CustomOAuth2UserService.java:30-108 | the store changes as `LoadUserStep` says and stays consistent |
| OAuthLogin.SeedRolesResolve | src/main/java/com/security/mfaautenticate/service/CustomOAuth2UserService.java:62-70 | inherited roles are roles of the store |
| OAuthLogin.SaveKeepsConsistent | src/main/java/com/security/mfaautenticate/entity/User.java:10-12 | saving an account with a new identity and existing roles keeps the database consistent |
| OAuthLogin.LoadUserKeepsConsistent | src/main/java/com/security/mfaautenticate/service/CustomOAuth2UserService.java:47-105 | every outcome of `loadUser` leaves the database consistent |
| OAuthLoginProperties.FindByIdentityExact | src/main/java/com/security/mfaautenticate/entity/User.java:10-12 | with unique identities the lookup returns the very account holding the identity |
| OAuthLoginProperties.KnownIdentityUnchanged | src/main/java/com/security/mfaautenticate/service/CustomOAuth2UserService.java:102-104 | a known (provider, id) returns its account and writes nothing |
| OAuthLoginProperties.LoginIdempotent | src/main/java/com/security/mfaautenticate/service/CustomOAuth2UserService.java:47-105 | a second login with the same attributes returns the same account and changes nothing |
| OAuthLoginProperties.NewIdentityInherits | src/main/java/com/security/mfaautenticate/service/CustomOAuth2UserService.java:62-86 | a new identity of a known email is appended with the first account's MFA columns and its roles, or `USER` when it has none; a missing `USER` role fails without writing |
| OAuthLoginProperties.NewEmailStartsClean | src/main/java/com/security/mfaautenticate/service/CustomOAuth2UserService.java:71-86 | a new email starts with MFA off and no secret and gets exactly `USER`; it fails exactly when `USER` is missing |
| OAuthLoginProperties.FirstAccountBecomesAdmin | src/main/java/com/security/mfaautenticate/service/CustomOAuth2UserService.java:93-101 | the first account of the system ends with exactly `{ADMIN}`; without `ADMIN` the login fails but the account stays saved with `USER` |
| OAuthLoginProperties.NewEmailWithoutUserRoleFails | src/main/java/com/security/mfaautenticate/service/CustomOAuth2UserService.java:62-88 | without a `USER` role, a new identity whose email no account has (the first login into an empty store included) fails before the save, leaving the store as it was |
| OAuthLoginProperties.LaterAccountsNotPromoted | src/main/java/com/security/mfaautenticate/service/CustomOAuth2UserService.java:94 | later accounts get only inherited roles or `USER` |
| OAuthLoginProperties.AppendKeepsAgreement | src/main/java/com/security/mfaautenticate/service/CustomOAuth2UserService.java:88 | appending an account that agrees with its email's accounts keeps every cluster in agreement |
| OAuthLoginProperties.SeedAgrees | src/main/java/com/security/mfaautenticate/service/CustomOAuth2UserService.java:62-76 | the account built for a new identity has the MFA columns of every account of its email |
| OAuthLoginProperties.SaveKeepsAgreement | src/main/java/com/security/mfaautenticate/service/CustomOAuth2UserService.java:88-101 | the save and the first-account promotion keep clusters in agreement |
| OAuthLoginProperties.LoginKeepsClustersAgree | src/main/java/com/security/mfaautenticate/service/CustomOAuth2UserService.java:62-69 | if accounts sharing an email agree on MFA columns before a login, they agree after it |
| OAuthLoginProperties.GithubNumericId | src/main/java/com/security/mfaautenticate/service/CustomOAuth2UserService.java:138-141 | a numeric GitHub id is stored as decimal text that parses back to the number |
| Mfa.Apply | src/main/java/com/security/mfaautenticate/controller/AuthController.java:43-46 | a write changes only the MFA columns, as `ApplyState` describes |
| Mfa.WriteCluster | src/main/java/com/security/mfaautenticate/controller/AuthController.java:87-91 | the table keeps its length (contents in `MfaProperties.WriteClusterReaches`) |
| Mfa.VerifyCode | src/main/java/com/security/mfaautenticate/service/MfaService.java:63-70 | a code is valid exactly when it is present, parses as a 32-bit integer, and the TOTP check accepts it |
| Mfa.MfaStatus | src/main/java/com/security/mfaautenticate/controller/AuthController.java:140-166 | not found exactly when no account has the email; otherwise reports the email with the flag and name of the first account (lowest id) carrying it |
| Mfa.SaveEach | src/main/java/com/security/mfaautenticate/controller/AuthController.java:123-128 | the save loop leaves exactly the cluster written, as `WriteCluster` says, and the store consistent |
| Mfa.SetupMfa | src/main/java/com/security/mfaautenticate/controller/AuthController.java:28-59 | the store changes as `SetupStep` says and stays consistent |
| Mfa.VerifyMfa | src/main/java/com/security/mfaautenticate/controller/AuthController.java:62-108 | the store changes as `VerifyStep` says and stays consistent |
| Mfa.DisableMfa | src/main/java/com/security/mfaautenticate/controller/AuthController.java:111-137 | the store changes as `DisableStep` says and stays consistent |
| Mfa.WriteClusterKeepsConsistent | src/main/java/com/security/mfaautenticate/entity/User.java:37-44 | writing MFA columns keeps the database consistent |
| MfaProperties.WriteClusterReaches | src/main/java/com/security/mfaautenticate/controller/AuthController.java:43-46 | a cluster write changes each account with the email in its MFA columns only, and no other account |
| MfaProperties.WriteClusterKeepsClusters | src/main/java/com/security/mfaautenticate/controller/AuthController.java:87-91 | a cluster write leaves every email's cluster unchanged |
| MfaProperties.WriteClusterIdempotent | src/main/java/com/security/mfaautenticate/controller/AuthController.java:123-128 | saving the same write twice is saving it once |
| MfaProperties.WriteClusterKeepsAgreement | src/main/java/com/security/mfaautenticate/controller/AuthController.java:43-46 | writing every account of a cluster keeps all clusters in agreement |
| MfaProperties.EndpointsKeepAgreement | src/main/java/com/security/mfaautenticate/controller/AuthController.java:43-128 | setup, verify and disable each keep clusters in agreement |
| MfaProperties.RoleWritesKeepAgreement | src/main/java/com/security/mfaautenticate/service/RbacService.java:149-172 | role assignment, removal and deletion keep clusters in agreement |
| MfaProperties.StatusSpeaksForCluster | src/main/java/com/security/mfaautenticate/controller/AuthController.java:151-155 | under agreement the reported flag is the flag of every account of the email |
| MfaProperties.SetupThenVerifyEnables | src/main/java/com/security/mfaautenticate/controller/AuthController.java:39-94 | setup followed by a code accepted for the new secret enables MFA with that secret on every account of the email and issues a token for it |
| MfaProperties.VerifyWritesOnlyOnSuccess | src/main/java/com/security/mfaautenticate/controller/AuthController.java:79-84 | a failed verify writes nothing, and a missing or non-numeric code always fails |
| MfaProperties.DisableResets | src/main/java/com/security/mfaautenticate/controller/AuthController.java:122-128 | disable returns every account of the email to the state of a fresh account, after which verify answers "MFA not configured" |
| MfaProperties.DisableIdempotent | src/main/java/com/security/mfaautenticate/controller/AuthController.java:111-137 | disabling twice is disabling once |
| MfaProperties.SetupRotatesSecret | src/main/java/com/security/mfaautenticate/controller/AuthController.java:39-46 | setup on an enabled cluster replaces the secret and leaves MFA on |
| MfaProperties.UnknownEmailNotFound | src/main/java/com/security/mfaautenticate/controller/AuthController.java:33-37 | all four endpoints answer "user not found" for an unknown email and write nothing |
| MfaProperties.SetupStoresSecretOnly | src/main/java/com/security/mfaautenticate/controller/AuthController.java:39-46 | setup stores the new secret on every account of the email and leaves both flags untouched |
| MfaProperties.VerifySucceedsIff | src/main/java/com/security/mfaautenticate/controller/AuthController.java:73-94 | verify succeeds exactly when the first account's secret exists and accepts the code; then both flags are on everywhere in the cluster, secrets unchanged, token for the email |
| MfaProperties.SetupVerifyDisableRoundTrip | src/main/java/com/security/mfaautenticate/controller/AuthController.java:43-128 | setup, verify with an accepted code, then disable leaves every account of the email disabled and without a secret |
| PermissionGate.Annotation | src/main/java/com/security/mfaautenticate/security/PermissionInterceptor.java:23-30 | the method annotation if present, else the class annotation; none for other handlers |
| PermissionGate.PreHandle | src/main/java/com/security/mfaautenticate/security/PermissionInterceptor.java:22-61 | the interceptor's answer is the decision `Decide` gives for the store |
| PermissionGateProperties.UnannotatedAllowed | src/main/java/com/security/mfaautenticate/security/PermissionInterceptor.java:23-34 | other handlers and unannotated methods pass whatever the database and principal |
| PermissionGateProperties.MethodAnnotationWins | src/main/java/com/security/mfaautenticate/security/PermissionInterceptor.java:27-30 | a method annotation overrides the class one; a class annotation alone acts like it on the method |
| PermissionGateProperties.AnonymousUnauthorized | src/main/java/com/security/mfaautenticate/security/PermissionInterceptor.java:36-41 | a protected handler refuses an anonymous request with 401 |
| PermissionGateProperties.ForbiddenIff | src/main/java/com/security/mfaautenticate/security/PermissionInterceptor.java:45-60 | 403 exactly for a non-administrator lacking the permission; allowed exactly for an administrator or a holder |
| PermissionGateProperties.AdminBypass | src/main/java/com/security/mfaautenticate/security/PermissionInterceptor.java:45-49 | an administrator passes every handler, even at a duplicated path |
| PermissionGateProperties.UnknownPrincipalForbidden | src/main/java/com/security/mfaautenticate/security/PermissionInterceptor.java:51-56 | a principal no account carries gets 403 on every protected handler |
| PermissionGateProperties.UnregisteredResourceOpen | src/main/java/com/security/mfaautenticate/security/PermissionInterceptor.java:51-60 | a known principal passes a handler whose resource path is not registered |
| PermissionGateProperties.GrantOpensHandler | src/main/java/com/security/mfaautenticate/security/PermissionInterceptor.java:51-60 | granting the permission to a role of the principal opens the handler |
| JwtFilter.GetJwtFromRequest | src/main/java/com/security/mfaautenticate/security/JwtAuthenticationFilter.java:64-70 | a token is returned exactly for a non-blank header starting with `Bearer `, and the header is `Bearer ` followed by it |
| JwtFilter.Authenticate | src/main/java/com/security/mfaautenticate/security/JwtAuthenticationFilter.java:34-56 | an authentication is set only for a valid non-blank token whose email has an account; it is the least-id such account, with `ROLE_` authorities of its own roles |
| JwtFilterProperties.BearerRoundTrip | src/main/java/com/security/mfaautenticate/security/JwtAuthenticationFilter.java:66-67 | a header `Bearer ` + t yields exactly t |
| JwtFilterProperties.AdminAuthorityIff | src/main/java/com/security/mfaautenticate/security/JwtAuthenticationFilter.java:45-47 | `ROLE_ADMIN` is granted exactly when the account holds a role named `ADMIN` |
| JwtFilterProperties.ClusterAdminWithoutAuthority | src/main/java/com/security/mfaautenticate/security/JwtAuthenticationFilter.java:40-47 | an email whose second account alone is `ADMIN` is an administrator for the gate but gets only `ROLE_USER` from the filter |
| LoginRedirect.TargetUrl | src/main/java/com/security/mfaautenticate/security/OAuth2AuthenticationSuccessHandler.java:27-40 | the target is the verification page exactly when MFA is enabled, the dashboard exactly when not |
| LoginRedirectProperties.TargetCarriesValue | src/main/java/com/security/mfaautenticate/security/OAuth2AuthenticationSuccessHandler.java:31-39 | the query value reads back as the email (MFA on) or as the token issued for the email (MFA off) |
| LoginRedirectProperties.NoTokenBeforeMfa | src/main/java/com/security/mfaautenticate/security/OAuth2AuthenticationSuccessHandler.java:29-33 | with MFA on, the target does not depend on the token issuer |
| LoginRedirectProperties.NewIdentityOfMfaClusterVerifies | src/main/java/com/security/mfaautenticate/service/CustomOAuth2UserService.java:62-69 | a new identity joining an MFA-enabled email is sent to verification, not given a token |
| LoginRedirectProperties.VerifiedClusterRedirectsToVerification | src/main/java/com/security/mfaautenticate/controller/AuthController.java:87-91 | after a successful verify, every account of the email is sent to verification on its next login |

## Left out

- TOTP, QR code and secret generation (`MfaService`) are not modelled. The TOTP check is a parameter `authorize`. A generated secret is a parameter of setup. The QR data URI is not part of the setup result.
- `JwtTokenProvider` (signing, expiry, claims) is not part of this model. Token issue, validation and the email claim are parameters.
- Exceptions thrown by those oracles are not modelled: the oracles are total. In the filter every such failure would leave the request unauthenticated, which `Authenticate` returning none covers. The filter chain always continues and has nothing to model.
- The redirect itself, logging, response bodies and HTTP status mapping are not modelled. Only the decision and the target are.
- The exact error messages are not modelled. The returned errors name the same cases.
- The principal name the gate sees is an input. How Spring derives it from the authentication is not modelled.
- `findAllByEmail` is assumed to return accounts in id order. The repository declares no ordering.
- Rbac.DeleteRole, Rbac.DeletePermission, Rbac.DeleteResource: model the intended cascade, not the program as written. `Role.users` (Role.java:36) and `Permission.roles` (Permission.java:33) are the `mappedBy` inverse sides of their join tables, so `deleteById` does not clear the join rows. The foreign keys then refuse deleting a role some account holds, a permission some role holds, or a resource one of whose permissions a role holds. The model instead drops the link everywhere, and RbacProperties.DeleteRoleRevokes and RbacProperties.DeleteResourceCascades describe that intended cascade.
- Rbac.CreateRole, Rbac.CreateResource: a request body without `name` (RbacController.java:29-31, 60-63), or without `path` for a resource, passes null to the service. The not-null columns (Role.java:23, Resource.java:34, Resource.java:47) then reject the insert and the endpoint answers 400. The model's `string` parameters cannot be null, so that error path is not modelled.
- Getters (`getAllRoles`, `getRoleByName`, `getAllResources`, `getResourceByName`, `getAllPermissions`) are not modelled. They are plain reads of a table.
- `User.password` is not modelled. The core never reads it.
- Role and permission entity equality are not modelled. Entities are referred to by id.
- OAuthProvider.java and Operation.java are not part of this model. Their constants are the `Provider` and `Operation` datatypes.
- Concurrency and transactions are not modelled. Each operation is atomic. Concurrent setups racing on the secret are not modelled.
- `Integer.parseInt` is modelled for ASCII digits only. Java also accepts other Unicode decimal digits.
- OAuthLogin.LoadUser: requires attributes the code reads as `String` to hold text. A non-text value there would raise a `ClassCastException`, which is not modelled. GitHub's `id` may be text or a number.
- OAuthLogin.LoadUser: the `loadUser` of the superclass (fetching attributes from the provider) is not modelled. The attributes are an input.
- Mfa.WriteCluster: its own contract states only the length. The full contents are stated by `MfaProperties.WriteClusterReaches`.
- The lower-casing of the registration id into a provider is not modelled. The provider is an input.
