/** The observable part of the framework's identity classes: a principal's
    identity name, whether it is authenticated, and whether it is in a role.
    A claims principal wraps one claims identity; a generic principal wraps a
    generic identity and a role array. */
module Principals {
  import opened Options
  import Sequences

  /** A claim of a claims identity; the filter only issues name and role claims. */
  datatype Claim = NameClaim(value: string) | RoleClaim(value: string)

  datatype Principal =
    | ClaimsPrincipal(claims: seq<Claim>, authenticationType: string)
    | GenericPrincipal(name: string, roles: seq<string>)

  /** The name a claims identity reports: the value of its first name claim. */
  function FirstName(claims: seq<Claim>): (r: Option<string>)
    ensures r.Some? ==> exists i :: 0 <= i < |claims| && claims[i] == NameClaim(r.value)
                          && forall j :: 0 <= j < i ==> !claims[j].NameClaim?
    ensures r.None? <==> forall c :: c in claims ==> !c.NameClaim?
  {
    match Sequences.FirstIndex(claims, (c: Claim) => c.NameClaim?)
    case None => None
    case Some(i) => Some(claims[i].value)
  }

  /** `Identity.Name`; `None` stands for a null name. */
  function Name(p: Principal): Option<string>
  {
    match p
    case ClaimsPrincipal(claims, _) => FirstName(claims)
    case GenericPrincipal(name, _) => Some(name)
  }

  /** `IsInRole(role)`: a claims principal holds a role claim with that value;
      a generic principal lists the role. */
  predicate IsInRole(p: Principal, role: string)
  {
    match p
    case ClaimsPrincipal(claims, _) => RoleClaim(role) in claims
    case GenericPrincipal(_, roles) => role in roles
  }

  /** `Identity.IsAuthenticated`: a claims identity has a non-empty
      authentication type; a generic identity has a non-empty name. */
  predicate IsAuthenticated(p: Principal)
  {
    match p
    case ClaimsPrincipal(_, authenticationType) => authenticationType != ""
    case GenericPrincipal(name, _) => name != ""
  }
}
