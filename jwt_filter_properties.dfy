/** What the bearer-token filter promises. */
module JwtFilterProperties {
  import opened Wrappers
  import opened Entities
  import opened Repository
  import opened JavaText
  import opened Rbac
  import opened JwtFilter

  /** A header built as `"Bearer " + token` yields the token back. */
  lemma BearerRoundTrip(token: string)
    ensures GetJwtFromRequest(Some(BearerPrefix + token)) == Some(token)
  {
    var h := BearerPrefix + token;
    assert h[0] == 'B' && !IsWhitespace(h[0]);
    assert h[..|BearerPrefix|] == BearerPrefix;
  }

  /** An authority names a role of the account: `ROLE_ADMIN` is granted exactly to holders of `ADMIN`. */
  lemma {:induction false} AdminAuthorityIff(db: Db, i: nat)
    requires i < |db.accounts|
    ensures RolePrefix + AdminRole in Authorities(db, i) <==> HoldsRoleNamed(db, i, AdminRole)
  {
    if RolePrefix + AdminRole in Authorities(db, i) {
      var r :| r in db.accounts[i].roles && r in db.roles && RolePrefix + db.roles[r].name == RolePrefix + AdminRole;
      assert db.roles[r].name == (RolePrefix + db.roles[r].name)[|RolePrefix|..];
    }
    if HoldsRoleNamed(db, i, AdminRole) {
      var r :| r in db.accounts[i].roles && r in db.roles && db.roles[r].name == AdminRole;
      assert RolePrefix + db.roles[r].name in Authorities(db, i);
    }
  }

  /**
   * The filter looks at the first account of the cluster only, while
   * `isAdmin` looks at all of them: an email whose second account alone holds
   * `ADMIN` passes the permission gate as administrator but receives no
   * `ROLE_ADMIN` authority.
   */
  lemma ClusterAdminWithoutAuthority(validate: string -> bool, subject: string -> string)
    requires validate("t0k3n") && subject("t0k3n") == "ana@example.com"
    ensures var db := Db([Account("ana@example.com", None, GOOGLE, "g-1", false, None, false, {1}),
                          Account("ana@example.com", None, GITHUB, "h-1", false, None, false, {0})],
                         map[0 := Role(AdminRole, None, {}), 1 := Role(UserRole, None, {})], map[], map[], 2);
            var a := Authenticate(db, Some(BearerPrefix + "t0k3n"), validate, subject);
            && AdminCheck(db, "ana@example.com")
            && a.Some? && a.value.account == 0
            && RolePrefix + AdminRole !in a.value.authorities
            && a.value.authorities == {RolePrefix + UserRole}
  {
    var db := Db([Account("ana@example.com", None, GOOGLE, "g-1", false, None, false, {1}),
                  Account("ana@example.com", None, GITHUB, "h-1", false, None, false, {0})],
                 map[0 := Role(AdminRole, None, {}), 1 := Role(UserRole, None, {})], map[], map[], 2);
    var token := "t0k3n";
    BearerRoundTrip(token);
    assert !IsWhitespace(token[0]);
    assert HoldsRoleNamed(db, 1, AdminRole) by {
      assert 0 in db.accounts[1].roles && 0 in db.roles && db.roles[0].name == AdminRole;
    }
    assert RolePrefix + UserRole in Authorities(db, 0) by {
      assert 1 in db.accounts[0].roles && 1 in db.roles;
    }
    assert db.accounts[0].roles == {1};
    AdminAuthorityIff(db, 0);
  }
}
