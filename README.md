# Basic authentication and employee API, modelled in Dafny

This project models the core of a small ASP.NET Web API service. An
authentication filter reads the `Authorization` header of each request. It
checks the `Basic` credentials the header carries against a fixed user table
(section 2 of RFC 7617). Then it either attaches a principal to the request
or answers with `401` and a `WWW-Authenticate: Basic` challenge. Behind the
filter, an employee controller keeps an in-memory employee list. It serves
read, create, update and delete actions. Each action is guarded by the set of
roles its authorization requirement lists.

Modules:

- `Options`: the optional value used where the source uses `null`.
- `Sequences`: the first-index search behind every `Where(...).FirstOrDefault()`
  of the source, and removal at a position (`List.Remove` once the element is
  found).
- `Principals`: what the model observes of the framework's identity classes:
  the identity name, `IsAuthenticated` and `IsInRole`.
- `Filters`: the filter. The pure decision is `Decide`. The method
  `BasicAuthenticationAttribute.OnAuthorization` writes the response and the
  principal into an `ActionContext` object with early returns, and its
  postcondition ties what it writes to `Decide`. `VerifyCredentials` is a
  first-match search over the table. `GetPrincipal` builds the claim list
  with a loop, and is proved against `PrincipalFor`.
- `Controllers`: the employee list as a class whose `Post` and `Delete` update
  the list in place. Also the role table of the actions (`RequiredRoles`),
  the authorization decision (`Allowed`) and `GetCurrentUser`.
- `Pipeline`: lemmas that chain filter, role gate and action. Some are
  general; others use the seeded users and employees.

Choices where the code departs from the usual reading of the protocol:

- The decoded credentials are split on every colon, and the password is
  `parts[1]`. RFC 7617 forbids a colon only in the user-id, so a split at the
  first colon would be the protocol's reading. As a consequence, a table
  entry whose password contains a colon can never authenticate
  (`AuthenticatedPasswordHasNoColon`).
- A header whose parameter is absent or does not decode, or whose decoded
  text holds no colon, makes the source throw. The host turns that into a
  `500`. The model gives this `Malformed` outcome a `500` response without
  the challenge, not a `401` or a `400`.
- The role gate is the framework's authorization attribute. Its
  requirement is an authenticated principal in at least one listed role.
  On denial the framework answers `401`, not `403`. Only the allow/deny
  decision is modelled.

Decoding of the header parameter (base64, then UTF-8) is a parameter of the
model: `decode: string -> Option<string>`, where `None` means the input is not
valid.

## Model

| member | source | states |
|---|---|---|
| `Sequences.FirstIndex` | APIBasicAuthentication/Filters/BasicAuthenticationAttribute.cs:114 | the index returned satisfies the condition and no earlier element does; `None` exactly when no element satisfies it |
| `Sequences.RemoveAt` | APIBasicAuthentication/Controllers/EmployeeController.cs:153 | the result is one shorter, keeps every element before the position and shifts every element after it down by one in the same order, and as a multiset is the input minus the removed element |
| `Principals.FirstName` | APIBasicAuthentication/Controllers/EmployeeController.cs:58 | a claims identity's name is the value of its first name claim, and is absent exactly when it has no name claim |
| `Filters.Split` | APIBasicAuthentication/Filters/BasicAuthenticationAttribute.cs:80 | splitting yields at least one piece, no piece contains the separator, and joining the pieces with the separator gives back the input |
| `Filters.SplitWithoutSeparator` | APIBasicAuthentication/Filters/BasicAuthenticationAttribute.cs:80 | a string without the separator splits into itself alone |
| `Filters.SplitLeadingField` | APIBasicAuthentication/Filters/BasicAuthenticationAttribute.cs:80 | a leading field without the separator becomes the first piece, and the rest is split independently |
| `Filters.ParseCredentials` | APIBasicAuthentication/Filters/BasicAuthenticationAttribute.cs:80-82 | fails exactly when the decoded text has no colon; otherwise username and password are colon-free, `username:password` is a prefix of the text, and the text ends or has a colon right after it |
| `Filters.ParseRoundTrip` | APIBasicAuthentication/Filters/BasicAuthenticationAttribute.cs:80-82 | `username:password` with no colon in either field parses back to exactly that pair |
| `Filters.ParseDropsAfterSecondColon` | APIBasicAuthentication/Filters/BasicAuthenticationAttribute.cs:80-82 | text after a second colon is ignored |
| `Filters.VerifyCredentials` | APIBasicAuthentication/Filters/BasicAuthenticationAttribute.cs:112-119 | true exactly when some entry has both this username and this password; the roles are then those of the first such entry in table order, and are empty on failure |
| `Filters.PrincipalForIdentity` | APIBasicAuthentication/Filters/BasicAuthenticationAttribute.cs:121-147 | in either mode the principal's identity name is the username and it is in role `r` exactly when `r` is among the roles; the claims principal is authenticated |
| `Filters.GetPrincipal` | APIBasicAuthentication/Filters/BasicAuthenticationAttribute.cs:121-148 | the loop builds the claims `[Name(username)]` followed by one role claim per role in order (length 1 + number of roles, authentication type `Basic`); the result equals `PrincipalFor` and has the username as name and exactly the given roles |
| `Filters.Decide` | APIBasicAuthentication/Filters/BasicAuthenticationAttribute.cs:51-103 | `Missing` exactly when the header is absent; `BadScheme` exactly when the scheme is not exactly `Basic`; `Malformed` exactly when a `Basic` header's credentials cannot be obtained; `Authenticated` exactly when they can and some entry matches them, with a principal named after the username, authenticated, and in exactly the roles `VerifyCredentials` returns |
| `Filters.DecideBasicRoundTrip` | APIBasicAuthentication/Filters/BasicAuthenticationAttribute.cs:75-94 | a `Basic` header decoding to `username:password` (colon-free fields) is decided by the credential check on exactly that pair: authenticated with the claims principal for its roles, or `Invalid` |
| `Filters.RejectionsChallenge` | APIBasicAuthentication/Filters/BasicAuthenticationAttribute.cs:55-102 | an absent header gets 401 with the `WWW-Authenticate: Basic` challenge; so does a scheme other than exactly `Basic`; a `Basic` header whose credentials cannot be obtained gets 500; obtained credentials get no response when `VerifyCredentials` accepts them and 401 with the challenge when it does not; the filter leaves no response exactly when the request is authenticated |
| `Filters.AuthenticatedPasswordHasNoColon` | APIBasicAuthentication/Filters/BasicAuthenticationAttribute.cs:80-85 | the entry an authenticated request matched has a colon-free username and password |
| `Filters.ActionContext.constructor` | APIBasicAuthentication/Filters/BasicAuthenticationAttribute.cs:53 | a fresh request carries its header, no response and no principal |
| `Filters.BasicAuthenticationAttribute.constructor` | APIBasicAuthentication/Filters/BasicAuthenticationAttribute.cs:32-45 | the filter starts with the six seeded users |
| `Filters.AuthenticateRequest` | APIBasicAuthentication/Filters/BasicAuthenticationAttribute.cs:51-103 | the filter run on a fresh request: an absent header or a scheme other than `Basic` gets 401 with the challenge and no principal; unobtainable credentials get 500 and no principal; obtained credentials that `VerifyCredentials` rejects get 401 with the challenge and no principal; accepted ones get no response and the claims principal for the username with the first matching entry's roles |
| `Filters.BasicAuthenticationAttribute.OnAuthorization` | APIBasicAuthentication/Filters/BasicAuthenticationAttribute.cs:51-103 | on any rejection the response is the one `ResponseFor` gives for `Decide`'s outcome and no principal is attached; on success the response is untouched and the principal `Decide` builds is attached |
| `Controllers.RoleGate` | APIBasicAuthentication/Controllers/EmployeeController.cs:48-145 | listing needs Admin or Hr; current user and read-one need Admin, Hr or User; create, update and delete need Hr; every action needs an authenticated principal, and no action is allowed without a principal |
| `Controllers.GetCurrentUser` | APIBasicAuthentication/Controllers/EmployeeController.cs:50-75 | Unauthorized exactly when there is no principal; otherwise Ok with the principal's identity name as `Username` and `IsAdmin` true exactly when the principal is in the Admin role |
| `Controllers.RemoveFoundLeavesNone` | APIBasicAuthentication/Controllers/EmployeeController.cs:148-153 | on a list with unique ids, removing the first employee with an id leaves no employee with that id, and ids stay unique |
| `Controllers.EmployeeController.constructor` | APIBasicAuthentication/Controllers/EmployeeController.cs:30-40 | the controller starts with the five seeded employees |
| `Controllers.EmployeeController.GetEmployees` | APIBasicAuthentication/Controllers/EmployeeController.cs:84-87 | answers Ok with the whole list; it has no modifies clause, so the list is unchanged |
| `Controllers.EmployeeController.GetEmployee` | APIBasicAuthentication/Controllers/EmployeeController.cs:96-104 | NotFound exactly when no employee has the id; otherwise the first employee with that id |
| `Controllers.EmployeeController.Post` | APIBasicAuthentication/Controllers/EmployeeController.cs:113-124 | the employee is appended at the end, all earlier employees stay as they were, and the answer is Created with that employee |
| `Controllers.EmployeeController.Put` | APIBasicAuthentication/Controllers/EmployeeController.cs:134-137 | answers Ok; it has no modifies clause, so the list is unchanged |
| `Controllers.EmployeeController.Delete` | APIBasicAuthentication/Controllers/EmployeeController.cs:146-155 | NotFound exactly when no employee has the id, and then the list is unchanged; otherwise Ok and exactly the first employee with that id is removed, the others keeping their order |
| `Controllers.DeleteTwice` | APIBasicAuthentication/Controllers/EmployeeController.cs:146-155 | on a list with unique ids, a second delete of the same id on the same controller answers NotFound; a first NotFound leaves the list unchanged, a first success shortens it by one |
| `Pipeline.GateAfterAuthentication` | APIBasicAuthentication/Controllers/EmployeeController.cs:82-95 | after authentication an action is allowed exactly when its required roles and the matched entry's roles share a role |
| `Pipeline.CurrentUserAfterAuthentication` | APIBasicAuthentication/Controllers/EmployeeController.cs:52-74 | after authentication the current user is the username from the header, and is admin exactly when the matched entry lists Admin |
| `Pipeline.AdminVerified` | APIBasicAuthentication/Filters/BasicAuthenticationAttribute.cs:36 | `admin`/`Admin@123` is verified with the roles `["Admin"]` |
| `Pipeline.UserVerified` | APIBasicAuthentication/Filters/BasicAuthenticationAttribute.cs:41 | `user1`/`User1@123` is verified with the roles `["User"]` |
| `Pipeline.AdminCredentials` | APIBasicAuthentication/Filters/BasicAuthenticationAttribute.cs:80-94 | a `Basic` header decoding to `admin:Admin@123` authenticates as `admin` with the Admin role |
| `Pipeline.AdminAccess` | APIBasicAuthentication/Controllers/EmployeeController.cs:48-146 | that principal may list employees, may not create, update or delete, and is reported as `admin` with IsAdmin true |
| `Pipeline.UserCredentials` | APIBasicAuthentication/Filters/BasicAuthenticationAttribute.cs:80-94 | a `Basic` header decoding to `user1:User1@123` authenticates as `user1` with the User role |
| `Pipeline.UserAccess` | APIBasicAuthentication/Controllers/EmployeeController.cs:48-96 | that principal may not list employees, may read one and ask who it is, and is reported as `user1` with IsAdmin false |
| `Pipeline.WrongPassword` | APIBasicAuthentication/Filters/BasicAuthenticationAttribute.cs:95-102 | `hr1:WrongPassword` is `Invalid` and answered with 401 and the challenge |
| `Pipeline.DuplicateUserMatchesFirst` | APIBasicAuthentication/Filters/BasicAuthenticationAttribute.cs:42-43 | the duplicated `user2` entry is matched at its first position |
| `Pipeline.SeedEmployeesUnique` | APIBasicAuthentication/Controllers/EmployeeController.cs:32-39 | the seeded employees have distinct ids, so `DeleteTwice`'s precondition holds on a fresh controller |

## Left out

- Base64 and UTF-8 decoding are library calls. They are the `decode` parameter, not an implementation of section 4 of RFC 4648.
- Principals.IsInRole: compares role names exactly. .NET's generic principal compares them ignoring case. The filter only builds claims principals, where the comparison is exact.
- Response bodies (the message texts) and the rest of the HTTP response are left out. A response is a status code plus a flag for the `WWW-Authenticate: Basic` challenge.
- The ambient principal slots (the HTTP context's user and the thread's current principal) are not modelled. The filter writes the principal into the request context. `GetCurrentUser` takes it as a parameter. The source's filter sets the HTTP context's user but reads the thread's principal in `GetCurrentUser`; the model assumes these are the same. When the HTTP context is null, the source attaches nothing; the model always attaches the principal.
- The response the framework sends when the role gate denies a request is not modelled, only the allow/deny decision `Allowed`.
- The exception path of `Post` (`InternalServerError`) is left out: appending to a list has no failure the model can express. A null request body is not modelled either.
- The employee model file is not part of this model. `Employee` has an integer id and salary, and two strings. `List.Remove` is modelled as removal at the index where the search found the employee.
- Controllers.EmployeeController.Delete: assumes `Employee` does not override `Equals`, so `List.Remove` compares by reference. The search returns the first element with the id, and an earlier element that is the same object would have the same id, so `Remove` deletes exactly the found element. If `Employee` compared by another field, `Remove` could delete an earlier, equal employee instead; the model does not capture that.
- Routing, HTTP verbs, the lifetime of controllers (a fresh one per request) and concurrent requests are left out. The model has one filter and one controller instance.
- Integer widths do not matter: ids are only compared, never computed.
