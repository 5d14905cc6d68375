/** The Basic authentication filter: it reads the `Authorization` header of a
    request, checks the credentials it carries against a fixed user table and
    either attaches a principal to the request or answers it with a 401 and a
    `WWW-Authenticate: Basic` challenge (section 2 of RFC 7617). */
module Filters {
  import opened Options
  import opened Principals
  import Sequences

  /** One entry of the credential table. */
  datatype User = User(username: string, password: string, roles: seq<string>)

  /** The table the filter's constructor installs; `user2` appears twice. */
  function SeedUsers(): seq<User>
  {
    [ User("admin", "Admin@123", ["Admin"]),
      User("hr1", "Hr1@123", ["Hr"]),
      User("hr2", "Hr2@123", ["Hr"]),
      User("user1", "User1@123", ["User"]),
      User("user2", "User2@123", ["User"]),
      User("user2", "User2@123", ["User"]) ]
  }

  /** The parsed `Authorization` header: its scheme and its (possibly null)
      parameter. */
  datatype AuthHeader = AuthHeader(scheme: string, parameter: Option<string>)

  /** How the filter decides a request. `Malformed` covers a null parameter,
      text that does not decode, and decoded text without a colon. */
  datatype Outcome =
    | Missing
    | BadScheme
    | Malformed
    | Invalid
    | Authenticated(principal: Principal)

  /** What the client receives when the filter stops the request. */
  datatype Response = Response(status: int, challenge: bool)

  /** Which principal shape `GetPrincipal` builds. */
  datatype PrincipalKind = Claims | Generic

  // ---------------------------------------------------------------------
  // Splitting the decoded credentials

  /** `parts` glued back together with `sep` between neighbours. */
  function Join(parts: seq<string>, sep: char): string
    requires |parts| >= 1
  {
    if |parts| == 1 then parts[0] else parts[0] + [sep] + Join(parts[1..], sep)
  }

  /** `String.Split(sep)`: the pieces of `s` between consecutive occurrences
      of `sep`, empty pieces included. */
  function Split(s: string, sep: char): (parts: seq<string>)
    ensures |parts| >= 1
    ensures forall i :: 0 <= i < |parts| ==> sep !in parts[i]
    ensures Join(parts, sep) == s
  {
    if s == [] then [[]]
    else
      var rest := Split(s[1..], sep);
      if s[0] == sep then
        assert [sep] + Join(rest, sep) == s;
        [[]] + rest
      else
        var parts := [[s[0]] + rest[0]] + rest[1..];
        assert parts[1..] == rest[1..];
        assert Join(parts, sep) == [s[0]] + Join(rest, sep);
        parts
  }

  /** A string without `sep` splits into itself alone. */
  lemma {:induction false} SplitWithoutSeparator(s: string, sep: char)
    requires sep !in s
    ensures Split(s, sep) == [s]
  {
    if s != [] {
      SplitWithoutSeparator(s[1..], sep);
    }
  }

  /** A leading field without `sep` becomes the first piece, and the rest is
      split on its own. */
  lemma {:induction false} SplitLeadingField(field: string, sep: char, rest: string)
    requires sep !in field
    ensures Split(field + [sep] + rest, sep) == [field] + Split(rest, sep)
  {
    var s := field + [sep] + rest;
    if field != [] {
      assert s[1..] == field[1..] + [sep] + rest;
      SplitLeadingField(field[1..], sep, rest);
      var tail := Split(s[1..], sep);
      assert tail[0] == field[1..] && tail[1..] == Split(rest, sep);
      assert [s[0]] + tail[0] == field;
    } else {
      assert s[1..] == rest;
    }
  }

  /** Username and password of decoded credentials: `parts[0]` and `parts[1]`
      of the text split on every colon. Without a colon `parts[1]` does not
      exist and the request fails. */
  function ParseCredentials(decoded: string): (r: Option<(string, string)>)
    ensures r.None? <==> ':' !in decoded
    ensures r.Some? ==> ':' !in r.value.0 && ':' !in r.value.1
    ensures r.Some? ==> r.value.0 + [':'] + r.value.1 <= decoded
    ensures r.Some? ==> var n := |r.value.0| + 1 + |r.value.1|;
                        n == |decoded| || decoded[n] == ':'
  {
    var parts := Split(decoded, ':');
    if |parts| < 2 then
      assert decoded == parts[0];
      None
    else
      var tail := Join(parts[1..], ':');
      assert decoded == parts[0] + [':'] + tail;
      assert |parts[1..]| == 1 ==> tail == parts[1];
      assert |parts[1..]| > 1 ==> tail == parts[1] + [':'] + Join(parts[2..], ':');
      Some((parts[0], parts[1]))
  }

  /** Credentials encoded without a colon in either field are recovered
      exactly. */
  lemma ParseRoundTrip(username: string, password: string)
    requires ':' !in username && ':' !in password
    ensures ParseCredentials(username + ":" + password) == Some((username, password))
  {
    SplitLeadingField(username, ':', password);
    SplitWithoutSeparator(password, ':');
  }

  /** Whatever follows a second colon is dropped. */
  lemma ParseDropsAfterSecondColon(username: string, password: string, extra: string)
    requires ':' !in username && ':' !in password
    ensures ParseCredentials(username + ":" + password + ":" + extra) == Some((username, password))
  {
    assert username + ":" + password + ":" + extra == username + [':'] + (password + [':'] + extra);
    SplitLeadingField(username, ':', password + [':'] + extra);
    SplitLeadingField(password, ':', extra);
  }

  // ---------------------------------------------------------------------
  // Checking the credentials

  predicate Matches(user: User, username: string, password: string)
  {
    user.username == username && user.password == password
  }

  /** Index of the first table entry with this username and password. */
  function FirstMatch(users: seq<User>, username: string, password: string): Option<nat>
  {
    Sequences.FirstIndex(users, (u: User) => Matches(u, username, password))
  }

  /** `VerifyCredentials`: whether some entry has this username and password,
      and the roles of the first such entry (no roles when there is none). */
  function VerifyCredentials(users: seq<User>, username: string, password: string): (r: (bool, seq<string>))
    ensures r.0 <==> exists i :: 0 <= i < |users| && Matches(users[i], username, password)
    ensures !r.0 ==> r.1 == []
    ensures r.0 ==> exists i :: 0 <= i < |users| && Matches(users[i], username, password)
                      && r.1 == users[i].roles
                      && forall j :: 0 <= j < i ==> !Matches(users[j], username, password)
  {
    match FirstMatch(users, username, password)
    case None => (false, [])
    case Some(i) => (true, users[i].roles)
  }

  // ---------------------------------------------------------------------
  // Building the principal

  /** One role claim per role, in the order of `roles`. */
  function RoleClaims(roles: seq<string>): seq<Claim>
  {
    seq(|roles|, k requires 0 <= k < |roles| => RoleClaim(roles[k]))
  }

  /** The principal `GetPrincipal` returns. */
  function PrincipalFor(kind: PrincipalKind, username: string, roles: seq<string>): Principal
  {
    match kind
    case Claims => ClaimsPrincipal([NameClaim(username)] + RoleClaims(roles), "Basic")
    case Generic => GenericPrincipal(username, roles)
  }

  /** Either shape names the user and is in exactly the given roles; the
      claims shape is authenticated. */
  lemma PrincipalForIdentity(kind: PrincipalKind, username: string, roles: seq<string>)
    ensures Name(PrincipalFor(kind, username, roles)) == Some(username)
    ensures forall r :: IsInRole(PrincipalFor(kind, username, roles), r) <==> r in roles
    ensures kind == Claims ==> IsAuthenticated(PrincipalFor(kind, username, roles))
  {
    var p := PrincipalFor(kind, username, roles);
    if kind == Claims {
      var claims := p.claims;
      assert claims[0] == NameClaim(username);
      forall r
        ensures RoleClaim(r) in claims <==> r in roles
      {
        if r in roles {
          var k :| 0 <= k < |roles| && roles[k] == r;
          assert claims[k + 1] == RoleClaim(r);
        }
        if RoleClaim(r) in claims {
          var k :| 0 <= k < |claims| && claims[k] == RoleClaim(r);
          assert k > 0;
          assert roles[k - 1] == r;
        }
      }
    }
  }

  /** `GetPrincipal`: a claims principal is built by starting from the name
      claim and appending one role claim per role. */
  method GetPrincipal(kind: PrincipalKind, username: string, roles: seq<string>) returns (principal: Principal)
    ensures principal == PrincipalFor(kind, username, roles)
    ensures kind == Claims ==>
      principal.ClaimsPrincipal? && principal.authenticationType == "Basic" &&
      |principal.claims| == 1 + |roles| &&
      principal.claims[0] == NameClaim(username) &&
      forall k :: 0 <= k < |roles| ==> principal.claims[k + 1] == RoleClaim(roles[k])
    ensures Name(principal) == Some(username)
    ensures forall r :: IsInRole(principal, r) <==> r in roles
  {
    if kind == Claims {
      var claims := [NameClaim(username)];
      for i := 0 to |roles|
        invariant |claims| == i + 1 && claims[0] == NameClaim(username)
        invariant forall k :: 0 <= k < i ==> claims[k + 1] == RoleClaim(roles[k])
      {
        claims := claims + [RoleClaim(roles[i])];
      }
      assert claims == [NameClaim(username)] + RoleClaims(roles);
      principal := ClaimsPrincipal(claims, "Basic");
    } else {
      principal := GenericPrincipal(username, roles);
    }
    PrincipalForIdentity(kind, username, roles);
  }

  // ---------------------------------------------------------------------
  // The decision

  /** Username and password carried by a `Basic` header: `decode` stands for
      base64 followed by UTF-8 decoding and fails when the parameter is not
      valid base64. */
  function Credentials(header: AuthHeader, decode: string -> Option<string>): Option<(string, string)>
  {
    match header.parameter
    case None => None
    case Some(encoded) =>
      match decode(encoded)
      case None => None
      case Some(decoded) => ParseCredentials(decoded)
  }

  /** The outcome `OnAuthorization` reaches for a request carrying `header`. */
  function Decide(users: seq<User>, header: Option<AuthHeader>, decode: string -> Option<string>): (o: Outcome)
    ensures o == Missing <==> header.None?
    ensures o == BadScheme <==> header.Some? && header.value.scheme != "Basic"
    ensures o == Malformed <==>
      header.Some? && header.value.scheme == "Basic" && Credentials(header.value, decode).None?
    ensures o.Authenticated? <==>
      header.Some? && header.value.scheme == "Basic" && Credentials(header.value, decode).Some? &&
      var (username, password) := Credentials(header.value, decode).value;
      exists i :: 0 <= i < |users| && Matches(users[i], username, password)
    ensures o.Authenticated? ==>
      var (username, password) := Credentials(header.value, decode).value;
      Name(o.principal) == Some(username) && IsAuthenticated(o.principal) &&
      forall r :: IsInRole(o.principal, r) <==> r in VerifyCredentials(users, username, password).1
  {
    match header
    case None => Missing
    case Some(h) =>
      if h.scheme != "Basic" then BadScheme
      else match Credentials(h, decode)
        case None => Malformed
        case Some((username, password)) =>
          var (ok, roles) := VerifyCredentials(users, username, password);
          PrincipalForIdentity(Claims, username, roles);
          if ok then Authenticated(PrincipalFor(Claims, username, roles)) else Invalid
  }

  /** Round trip through the filter: a `Basic` header whose parameter decodes
      to `username:password`, neither holding a colon, is decided by the
      credential check on exactly that pair. */
  lemma DecideBasicRoundTrip(users: seq<User>, encoded: string, decode: string -> Option<string>,
                             username: string, password: string)
    requires ':' !in username && ':' !in password
    requires decode(encoded) == Some(username + ":" + password)
    ensures var (ok, roles) := VerifyCredentials(users, username, password);
      Decide(users, Some(AuthHeader("Basic", Some(encoded))), decode) ==
        if ok then Authenticated(PrincipalFor(Claims, username, roles)) else Invalid
  {
    ParseRoundTrip(username, password);
  }

  /** The response the filter leaves on the request: none when the pipeline
      continues, 401 with the challenge on a rejection, and 500 where the
      source lets an exception escape. */
  function ResponseFor(o: Outcome): Option<Response>
  {
    match o
    case Authenticated(_) => None
    case Malformed => Some(Response(500, false))
    case _ => Some(Response(401, true))
  }

  /** The response each kind of request gets: a missing header, a scheme
      other than `Basic` and credentials no entry matches get 401 with the
      challenge; credentials that cannot be obtained get 500; only a matching
      pair leaves no response. */
  lemma RejectionsChallenge(users: seq<User>, header: Option<AuthHeader>, decode: string -> Option<string>)
    ensures header.None? ==>
      ResponseFor(Decide(users, header, decode)) == Some(Response(401, true))
    ensures header.Some? && header.value.scheme != "Basic" ==>
      ResponseFor(Decide(users, header, decode)) == Some(Response(401, true))
    ensures header.Some? && header.value.scheme == "Basic" && Credentials(header.value, decode).None? ==>
      ResponseFor(Decide(users, header, decode)) == Some(Response(500, false))
    ensures header.Some? && header.value.scheme == "Basic" && Credentials(header.value, decode).Some? ==>
      var (username, password) := Credentials(header.value, decode).value;
      ResponseFor(Decide(users, header, decode)) ==
        if VerifyCredentials(users, username, password).0 then None else Some(Response(401, true))
    ensures ResponseFor(Decide(users, header, decode)).None? <==> Decide(users, header, decode).Authenticated?
  {
  }

  /** A table entry whose password holds a colon never authenticates anyone:
      the password read from the header stops at the first colon after the
      username. */
  lemma AuthenticatedPasswordHasNoColon(users: seq<User>, header: Option<AuthHeader>, decode: string -> Option<string>)
    requires Decide(users, header, decode).Authenticated?
    ensures var (username, password) := Credentials(header.value, decode).value;
      var i := FirstMatch(users, username, password).value;
      i < |users| && ':' !in users[i].password && ':' !in users[i].username
  {
  }

  // ---------------------------------------------------------------------
  // The request and the filter object

  /** The per-request state the filter reads and writes: the header, the
      response it may set, and the principal it may attach. */
  class ActionContext {
    const authorization: Option<AuthHeader>
    var response: Option<Response>
    var user: Option<Principal>

    constructor (authorization: Option<AuthHeader>)
      ensures this.authorization == authorization && response == None && user == None
    {
      this.authorization := authorization;
      response := None;
      user := None;
    }
  }

  class BasicAuthenticationAttribute {
    var users: seq<User>

    constructor ()
      ensures users == SeedUsers()
    {
      users := SeedUsers();
    }

    /** `OnAuthorization`: sets the response and returns early on each
      rejection; on success attaches the principal and leaves the response
      alone so the pipeline continues. */
    method OnAuthorization(ctx: ActionContext, decode: string -> Option<string>)
      modifies ctx
      ensures var o := Decide(users, ctx.authorization, decode);
        ctx.response == (if o.Authenticated? then old(ctx.response) else ResponseFor(o)) &&
        ctx.user == (if o.Authenticated? then Some(o.principal) else old(ctx.user))
    {
      if ctx.authorization.None? {
        ctx.response := Some(Response(401, true));
        return;
      }
      var header := ctx.authorization.value;
      if header.scheme != "Basic" {
        ctx.response := Some(Response(401, true));
        return;
      }
      var credentials := Credentials(header, decode);
      if credentials.None? {
        ctx.response := Some(Response(500, false));
        return;
      }
      var (username, password) := credentials.value;
      var (ok, roles) := VerifyCredentials(users, username, password);
      if ok {
        var principal := GetPrincipal(Claims, username, roles);
        ctx.user := Some(principal);
      } else {
        ctx.response := Some(Response(401, true));
      }
    }
  }

  /** The filter run on a fresh request: on every rejection the request gets
      the rejection's response and no principal; a request whose `Basic`
      credentials match gets no response and the claims principal named after
      the user, in exactly the matched entry's roles. */
  method AuthenticateRequest(filter: BasicAuthenticationAttribute, header: Option<AuthHeader>,
                             decode: string -> Option<string>)
    returns (response: Option<Response>, user: Option<Principal>)
    ensures header.None? ==> response == Some(Response(401, true)) && user == None
    ensures header.Some? && header.value.scheme != "Basic" ==>
      response == Some(Response(401, true)) && user == None
    ensures header.Some? && header.value.scheme == "Basic" && Credentials(header.value, decode).None? ==>
      response == Some(Response(500, false)) && user == None
    ensures header.Some? && header.value.scheme == "Basic" && Credentials(header.value, decode).Some? ==>
      var (username, password) := Credentials(header.value, decode).value;
      var (ok, roles) := VerifyCredentials(filter.users, username, password);
      if ok then response == None && user == Some(PrincipalFor(Claims, username, roles))
      else response == Some(Response(401, true)) && user == None
  {
    var ctx := new ActionContext(header);
    filter.OnAuthorization(ctx, decode);
    response, user := ctx.response, ctx.user;
    RejectionsChallenge(filter.users, header, decode);
  }
}
