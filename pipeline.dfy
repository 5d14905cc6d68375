/** A request passes the authentication filter, then the authorization
    requirement of the action it targets, then the action. These lemmas
    connect the three, in general and for the seeded user table. */
module Pipeline {
  import opened Options
  import opened Principals
  import opened Filters
  import opened Controllers

  /** After authentication, an action is allowed exactly when its requirement
      and the matched user's roles have a role in common. */
  lemma GateAfterAuthentication(users: seq<User>, header: Option<AuthHeader>,
                                decode: string -> Option<string>, endpoint: Endpoint)
    requires Decide(users, header, decode).Authenticated?
    ensures var (username, password) := Credentials(header.value, decode).value;
      var roles := VerifyCredentials(users, username, password).1;
      Allowed(Some(Decide(users, header, decode).principal), endpoint) <==>
        exists r :: r in RequiredRoles(endpoint) && r in roles
  {
    var p := Decide(users, header, decode).principal;
    var (username, password) := Credentials(header.value, decode).value;
    var roles := VerifyCredentials(users, username, password).1;
    if exists r :: r in RequiredRoles(endpoint) && r in roles {
      var r :| r in RequiredRoles(endpoint) && r in roles;
      assert IsInRole(p, r);
    }
  }

  /** After authentication, the current user is the name from the header,
      and an administrator exactly when the matched entry lists Admin. */
  lemma CurrentUserAfterAuthentication(users: seq<User>, header: Option<AuthHeader>,
                                       decode: string -> Option<string>)
    requires Decide(users, header, decode).Authenticated?
    ensures var (username, password) := Credentials(header.value, decode).value;
      GetCurrentUser(Some(Decide(users, header, decode).principal)) ==
        OkCurrentUser(Some(username), "Admin" in VerifyCredentials(users, username, password).1)
  {
  }

  /** A `Basic` header carrying `encoded` as its parameter. */
  function BasicHeader(encoded: string): Option<AuthHeader>
  {
    Some(AuthHeader("Basic", Some(encoded)))
  }

  /** `admin:Admin@123` is the seed table's first entry. */
  lemma AdminVerified()
    ensures VerifyCredentials(SeedUsers(), "admin", "Admin@123") == (true, ["Admin"])
  {
    assert Matches(SeedUsers()[0], "admin", "Admin@123");
  }

  /** `user1:User1@123` is the seed table's fourth entry, the first three
      having other usernames. */
  lemma UserVerified()
    ensures VerifyCredentials(SeedUsers(), "user1", "User1@123") == (true, ["User"])
  {
    var users := SeedUsers();
    assert Matches(users[3], "user1", "User1@123");
    forall j | 0 <= j < 3
      ensures !Matches(users[j], "user1", "User1@123")
    {
      assert users[j].username[0] != 'u';
    }
  }

  /** `admin:Admin@123` authenticates as the principal built for `admin`
      with the Admin role. */
  lemma AdminCredentials(encoded: string, decode: string -> Option<string>)
    requires decode(encoded) == Some("admin" + ":" + "Admin@123")
    ensures Decide(SeedUsers(), BasicHeader(encoded), decode) ==
      Authenticated(PrincipalFor(Claims, "admin", ["Admin"]))
  {
    AdminVerified();
    DecideBasicRoundTrip(SeedUsers(), encoded, decode, "admin", "Admin@123");
  }

  /** That principal may list the employees and sees itself as admin, but
      may not create, update or delete. */
  lemma AdminAccess()
    ensures var p := PrincipalFor(Claims, "admin", ["Admin"]);
      Allowed(Some(p), ListEmployees) &&
      !Allowed(Some(p), CreateEmployee) &&
      !Allowed(Some(p), UpdateEmployee) &&
      !Allowed(Some(p), DeleteEmployee) &&
      GetCurrentUser(Some(p)) == OkCurrentUser(Some("admin"), true)
  {
    var p := PrincipalFor(Claims, "admin", ["Admin"]);
    PrincipalForIdentity(Claims, "admin", ["Admin"]);
    RoleGate(p);
  }

  /** `user1:User1@123` authenticates as the principal built for `user1`
      with the User role. */
  lemma UserCredentials(encoded: string, decode: string -> Option<string>)
    requires decode(encoded) == Some("user1" + ":" + "User1@123")
    ensures Decide(SeedUsers(), BasicHeader(encoded), decode) ==
      Authenticated(PrincipalFor(Claims, "user1", ["User"]))
  {
    UserVerified();
    DecideBasicRoundTrip(SeedUsers(), encoded, decode, "user1", "User1@123");
  }

  /** That principal may not list the employees but may ask who it is, and
      is told it is not an administrator. */
  lemma UserAccess()
    ensures var p := PrincipalFor(Claims, "user1", ["User"]);
      !Allowed(Some(p), ListEmployees) &&
      Allowed(Some(p), CurrentUser) &&
      Allowed(Some(p), ReadEmployee) &&
      GetCurrentUser(Some(p)) == OkCurrentUser(Some("user1"), false)
  {
    var p := PrincipalFor(Claims, "user1", ["User"]);
    PrincipalForIdentity(Claims, "user1", ["User"]);
    RoleGate(p);
  }

  /** `hr1:WrongPassword` is rejected with a 401 carrying the challenge. */
  lemma WrongPassword(encoded: string, decode: string -> Option<string>)
    requires decode(encoded) == Some("hr1" + ":" + "WrongPassword")
    ensures Decide(SeedUsers(), BasicHeader(encoded), decode) == Invalid
    ensures ResponseFor(Decide(SeedUsers(), BasicHeader(encoded), decode)) == Some(Response(401, true))
  {
    var users := SeedUsers();
    forall i | 0 <= i < |users|
      ensures !Matches(users[i], "hr1", "WrongPassword")
    {
      assert |users[i].password| != |"WrongPassword"|;
    }
    DecideBasicRoundTrip(users, encoded, decode, "hr1", "WrongPassword");
  }

  /** The duplicated `user2` entry is matched at its first position. */
  lemma DuplicateUserMatchesFirst()
    ensures FirstMatch(SeedUsers(), "user2", "User2@123") == Some(4)
  {
    assert Matches(SeedUsers()[4], "user2", "User2@123");
  }

  /** The seeded employees have distinct ids, so deleting one id twice on a
      fresh controller answers NotFound the second time. */
  lemma SeedEmployeesUnique()
    ensures UniqueIds(SeedEmployees())
  {
  }
}
