/**
 * Claims, principals, the bearer-token lifetime check and the authorization
 * rules configured at server start-up.
 *
 * A token is modelled by the values it carries (claims, issuer, audience,
 * validity window and the key it was signed with); its serialised form and
 * its HMAC are not modelled, so "signed with the configured key" is the
 * equality of the carried key with that key.
 */
module Security {
  import opened Wrappers
  import opened Text

  const RoleClaimType := "http://schemas.microsoft.com/ws/2008/06/identity/claims/role"
  const NameClaimType := "http://schemas.xmlsoap.org/ws/2005/05/identity/claims/name"
  const NameIdentifierClaimType := "http://schemas.xmlsoap.org/ws/2005/05/identity/claims/nameidentifier"
  const HasPremiumClaimType := "HasPremium"
  const EmailClaimType := "http://schemas.xmlsoap.org/ws/2005/05/identity/claims/emailaddress"
  const GivenNameClaimType := "http://schemas.xmlsoap.org/ws/2005/05/identity/claims/givenname"
  const SurnameClaimType := "http://schemas.xmlsoap.org/ws/2005/05/identity/claims/surname"
  const PremiumRole := "Premium"
  const AdminRole := "Admin"

  datatype Claim = Claim(claimType: string, value: string)

  /** A principal with a single identity, as `ClaimsPrincipal(ClaimsIdentity(claims, authenticationType))`
      together with the identity's name and role claim types. */
  datatype Principal = Principal(
    authenticationType: Option<string>,
    claims: seq<Claim>,
    nameClaimType: string,
    roleClaimType: string)

  /** `new ClaimsPrincipal(new ClaimsIdentity())`: no authentication type, no claims. */
  const Anonymous := Principal(None, [], NameClaimType, RoleClaimType)

  /** `ClaimsIdentity.IsAuthenticated`: the authentication type is set. */
  predicate IsAuthenticated(p: Principal) {
    !IsNullOrEmpty(p.authenticationType)
  }

  /** Claim types are compared ignoring case, as `ClaimsIdentity` does. */
  predicate HasType(c: Claim, claimType: string) {
    EqualsIgnoreCase(c.claimType, claimType)
  }

  /** `FindFirstValue(type)`: the value of the first claim of that type. */
  function FindFirstValue(p: Principal, claimType: string): (r: Option<string>)
    ensures r.None? <==> forall i :: 0 <= i < |p.claims| ==> !HasType(p.claims[i], claimType)
    ensures r.Some? ==> exists i :: 0 <= i < |p.claims| && HasType(p.claims[i], claimType) && r.value == p.claims[i].value
                                    && forall j :: 0 <= j < i ==> !HasType(p.claims[j], claimType)
  {
    match FirstMatch(p.claims, (c: Claim) => HasType(c, claimType))
    case None => None
    case Some(c) => Some(c.value)
  }

  /** Claim `i` is the first claim of the type. */
  predicate FirstOfType(p: Principal, claimType: string, i: int) {
    && 0 <= i < |p.claims| && HasType(p.claims[i], claimType)
    && forall j :: 0 <= j < i ==> !HasType(p.claims[j], claimType)
  }

  /** No claim has the type. */
  predicate NoneOfType(p: Principal, claimType: string) {
    forall i :: 0 <= i < |p.claims| ==> !HasType(p.claims[i], claimType)
  }

  /** The first value of a type is that of the first claim of the type. */
  lemma FirstValueAt(p: Principal, claimType: string, k: nat)
    requires FirstOfType(p, claimType, k)
    ensures FindFirstValue(p, claimType) == Some(p.claims[k].value)
  {
  }

  /** The lengths of the claim types, which tell them apart. */
  lemma ClaimTypeLengths()
    ensures |NameIdentifierClaimType| == 68 && |NameClaimType| == 58 && |EmailClaimType| == 66
    ensures |RoleClaimType| == 60 && |HasPremiumClaimType| == 10 && |"displayName"| == 11 && |"email"| == 5
  {
  }

  /** A claim of exactly the type, behind claims whose types have other lengths, is the
      first of its type. */
  lemma FirstByLength(p: Principal, claimType: string, k: nat)
    requires k < |p.claims| && p.claims[k].claimType == claimType
    requires forall j :: 0 <= j < k ==> |p.claims[j].claimType| != |claimType|
    ensures FirstOfType(p, claimType, k)
  {
    forall j | 0 <= j < k
      ensures !HasType(p.claims[j], claimType)
    {
      DifferentLengthsDiffer(p.claims[j].claimType, claimType);
    }
    EqualsIgnoreCaseIsEquivalence(claimType, claimType, claimType);
  }

  /** No claim matches a type whose length no claim type has. */
  lemma NoneByLength(p: Principal, claimType: string)
    requires forall j :: 0 <= j < |p.claims| ==> |p.claims[j].claimType| != |claimType|
    ensures NoneOfType(p, claimType)
  {
    forall j | 0 <= j < |p.claims|
      ensures !HasType(p.claims[j], claimType)
    {
      DifferentLengthsDiffer(p.claims[j].claimType, claimType);
    }
  }

  /** `FindAll(type).Select(c => c.Value)`, in claim order. */
  function ValuesOfType(claims: seq<Claim>, claimType: string): (vs: seq<string>)
    ensures |vs| <= |claims|
  {
    if claims == [] then []
    else ValuesOfType(claims[..|claims| - 1], claimType)
         + (if HasType(claims[|claims| - 1], claimType) then [claims[|claims| - 1].value] else [])
  }

  lemma {:induction false} ValuesOfTypeAppend(a: seq<Claim>, b: seq<Claim>, claimType: string)
    ensures ValuesOfType(a + b, claimType) == ValuesOfType(a, claimType) + ValuesOfType(b, claimType)
    decreases |b|
  {
    if b == [] {
      assert a + b == a;
    } else {
      var b' := b[..|b| - 1];
      assert (a + b)[..|a + b| - 1] == a + b';
      assert (a + b)[|a + b| - 1] == b[|b| - 1];
      ValuesOfTypeAppend(a, b', claimType);
    }
  }

  /** `HasClaim(type, value)`: type ignoring case, value exactly. */
  predicate HasClaim(p: Principal, claimType: string, value: string) {
    exists i :: 0 <= i < |p.claims| && HasType(p.claims[i], claimType) && p.claims[i].value == value
  }

  /** A value is among the values of a type exactly when some claim of that type carries it. */
  lemma {:induction false} ValuesOfTypeMembers(p: Principal, claimType: string, value: string)
    ensures value in ValuesOfType(p.claims, claimType) <==> HasClaim(p, claimType, value)
    decreases |p.claims|
  {
    var cs := p.claims;
    if cs != [] {
      var q := p.(claims := cs[..|cs| - 1]);
      ValuesOfTypeMembers(q, claimType, value);
      if HasClaim(q, claimType, value) {
        var i :| 0 <= i < |q.claims| && HasType(q.claims[i], claimType) && q.claims[i].value == value;
        assert cs[i] == q.claims[i];
      }
      if HasClaim(p, claimType, value) {
        var i :| 0 <= i < |cs| && HasType(cs[i], claimType) && cs[i].value == value;
        if i < |cs| - 1 {
          assert q.claims[i] == cs[i];
        }
      }
    }
  }

  /** `IsInRole(role)`: a claim of the identity's role claim type whose value is exactly `role`. */
  predicate IsInRole(p: Principal, role: string) {
    HasClaim(p, p.roleClaimType, role)
  }

  /** `Identity.Name`: the first value of the identity's name claim type. */
  function Name(p: Principal): Option<string> {
    FindFirstValue(p, p.nameClaimType)
  }

  /** The "PremiumPolicy" assertion: the Premium role OR the HasPremium="true" convenience claim. */
  predicate PremiumPolicy(p: Principal) {
    IsInRole(p, PremiumRole) || HasClaim(p, HasPremiumClaimType, "true")
  }

  /** Either signal alone satisfies the policy; the role value and the claim value must match exactly. */
  lemma PremiumPolicySignals(authType: Option<string>)
    ensures PremiumPolicy(Principal(authType, [Claim(RoleClaimType, "Premium")], NameIdentifierClaimType, RoleClaimType))
    ensures PremiumPolicy(Principal(authType, [Claim("HasPremium", "true")], NameIdentifierClaimType, RoleClaimType))
    ensures PremiumPolicy(Principal(authType, [Claim("haspremium", "true")], NameIdentifierClaimType, RoleClaimType))
    ensures !PremiumPolicy(Principal(authType, [Claim(RoleClaimType, "premium")], NameIdentifierClaimType, RoleClaimType))
    ensures !PremiumPolicy(Principal(authType, [Claim("HasPremium", "True")], NameIdentifierClaimType, RoleClaimType))
    ensures !PremiumPolicy(Anonymous)
  {
    var p1 := Principal(authType, [Claim(RoleClaimType, "Premium")], NameIdentifierClaimType, RoleClaimType);
    assert HasType(p1.claims[0], RoleClaimType);
    var p0 := Principal(authType, [Claim("HasPremium", "true")], NameIdentifierClaimType, RoleClaimType);
    assert HasType(p0.claims[0], HasPremiumClaimType);
    var p2 := Principal(authType, [Claim("haspremium", "true")], NameIdentifierClaimType, RoleClaimType);
    assert ToUpper("haspremium") == ToUpper(HasPremiumClaimType);
    assert HasType(p2.claims[0], HasPremiumClaimType);
    var p4 := Principal(authType, [Claim("HasPremium", "True")], NameIdentifierClaimType, RoleClaimType);
    DifferentLengthsDiffer("HasPremium", RoleClaimType);
    assert !IsInRole(p4, PremiumRole);
    var p3 := Principal(authType, [Claim(RoleClaimType, "premium")], NameIdentifierClaimType, RoleClaimType);
    DifferentLengthsDiffer(RoleClaimType, HasPremiumClaimType);
    assert !HasClaim(p3, HasPremiumClaimType, "true");
  }

  // ---- Bearer tokens ----

  /** The issuer, audience and signing key shared by the token service and the validator. */
  datatype JwtOptions = JwtOptions(issuer: string, audience: string, signingKey: string)

  datatype Token = Token(
    claims: seq<Claim>,
    issuer: string,
    audience: string,
    notBefore: int,
    expires: int,
    signingKey: string)

  /** The token service's default lifetime, twelve hours, in seconds. */
  const DefaultLifetime := 12 * 60 * 60
  /** The validator's clock skew, two minutes, in seconds. */
  const ClockSkew := 2 * 60

  /** A token issued at `now` with the default lifetime. */
  function CreateToken(o: JwtOptions, claims: seq<Claim>, now: int): (t: Token)
    ensures t.claims == claims && t.notBefore == now && t.expires == now + DefaultLifetime
  {
    Token(claims, o.issuer, o.audience, now, now + DefaultLifetime, o.signingKey)
  }

  /** Issuer, audience and key must match; the window [notBefore, expires] is widened by the skew. */
  predicate Accepts(o: JwtOptions, t: Token, now: int) {
    && t.issuer == o.issuer
    && t.audience == o.audience
    && t.signingKey == o.signingKey
    && t.notBefore <= now + ClockSkew
    && now - ClockSkew <= t.expires
  }

  /** The bearer handler's inbound claim-type map (on by default): the short JWT names it
      knows become the long claim types, compared exactly; every other type is kept. */
  function InboundClaimType(t: string): string {
    if t == "email" then EmailClaimType
    else if t == "sub" || t == "nameid" then NameIdentifierClaimType
    else if t == "unique_name" then NameClaimType
    else if t == "role" || t == "roles" then RoleClaimType
    else if t == "given_name" then GivenNameClaimType
    else if t == "family_name" then SurnameClaimType
    else t
  }

  /** The claims of a validated token as the handler hands them on, in token order. */
  function ReceivedClaims(claims: seq<Claim>): (r: seq<Claim>)
    ensures |r| == |claims|
    ensures forall i :: 0 <= i < |claims| ==> r[i] == Claim(InboundClaimType(claims[i].claimType), claims[i].value)
  {
    seq(|claims|, i requires 0 <= i < |claims| => Claim(InboundClaimType(claims[i].claimType), claims[i].value))
  }

  lemma ReceivedAppend(a: seq<Claim>, b: seq<Claim>)
    ensures ReceivedClaims(a + b) == ReceivedClaims(a) + ReceivedClaims(b)
  {
  }

  /** Claims whose types the map does not rename arrive as they are. */
  lemma ReceivedUnchanged(cs: seq<Claim>)
    requires forall i :: 0 <= i < |cs| ==> InboundClaimType(cs[i].claimType) == cs[i].claimType
    ensures ReceivedClaims(cs) == cs
  {
  }

  /** The long claim types and the types of the application's own claims pass the map unchanged;
      the short "email" does not. */
  lemma InboundTypes()
    ensures InboundClaimType(NameIdentifierClaimType) == NameIdentifierClaimType
    ensures InboundClaimType(NameClaimType) == NameClaimType
    ensures InboundClaimType(RoleClaimType) == RoleClaimType
    ensures InboundClaimType(HasPremiumClaimType) == HasPremiumClaimType
    ensures InboundClaimType("displayName") == "displayName"
    ensures InboundClaimType("email") == EmailClaimType
  {
  }

  /** The principal the bearer handler builds from a token's claims: the claims after the
      inbound map, name claim type NameIdentifier, role claim type Role. */
  function BearerPrincipal(claims: seq<Claim>): (p: Principal)
    ensures IsAuthenticated(p) && p.claims == ReceivedClaims(claims)
    ensures p.nameClaimType == NameIdentifierClaimType && p.roleClaimType == RoleClaimType
  {
    Principal(Some("AuthenticationTypes.Federation"), ReceivedClaims(claims), NameIdentifierClaimType, RoleClaimType)
  }

  /** The principal of a request: the token's, when it is accepted, else anonymous. */
  function Authenticate(o: JwtOptions, bearer: Option<Token>, now: int): (p: Principal)
    ensures IsAuthenticated(p) <==> bearer.Some? && Accepts(o, bearer.value, now)
  {
    if bearer.Some? && Accepts(o, bearer.value, now) then BearerPrincipal(bearer.value.claims) else Anonymous
  }

  /** A token the service issues at `issued` is accepted exactly from two minutes before
      issue until two minutes after its twelve hours have passed. */
  lemma IssuedTokenWindow(o: JwtOptions, claims: seq<Claim>, issued: int, now: int)
    ensures Accepts(o, CreateToken(o, claims, issued), now)
            <==> issued - ClockSkew <= now <= issued + DefaultLifetime + ClockSkew
  {
  }

  /** A token signed with another key, or naming another issuer or audience, yields the anonymous principal. */
  lemma ForeignTokenRejected(o: JwtOptions, t: Token, now: int)
    requires t.signingKey != o.signingKey || t.issuer != o.issuer || t.audience != o.audience
    ensures Authenticate(o, Some(t), now) == Anonymous
  {
  }

  /** With the name claim type set to NameIdentifier, the principal's name is the first
      NameIdentifier claim, i.e. the user id the token was issued for. */
  lemma BearerNameIsUserId(userId: string, rest: seq<Claim>)
    ensures Name(BearerPrincipal([Claim(NameIdentifierClaimType, userId)] + rest)) == Some(userId)
  {
    var p := BearerPrincipal([Claim(NameIdentifierClaimType, userId)] + rest);
    InboundTypes();
    assert p.claims[0] == Claim(NameIdentifierClaimType, userId);
    EqualsIgnoreCaseIsEquivalence(NameIdentifierClaimType, NameIdentifierClaimType, NameIdentifierClaimType);
    assert HasType(p.claims[0], NameIdentifierClaimType);
  }

  // ---- Authorization ----

  /** What an endpoint's [Authorize]/[AllowAnonymous] attributes demand. */
  datatype Requirement = Anyone | AuthenticatedUser | InRole(role: string) | PremiumPolicyRequirement

  /** Allow; Challenge (401) for an unauthenticated caller; Forbid (403) for an authenticated one. */
  datatype Verdict = Allow | Challenge | Forbid

  predicate Satisfies(p: Principal, r: Requirement) {
    match r
    case Anyone => true
    case AuthenticatedUser => IsAuthenticated(p)
    case InRole(role) => IsInRole(p, role)
    case PremiumPolicyRequirement => PremiumPolicy(p)
  }

  function Authorize(p: Principal, r: Requirement): (v: Verdict)
    ensures v == Allow <==> Satisfies(p, r)
    ensures v == Challenge <==> !Satisfies(p, r) && !IsAuthenticated(p)
  {
    if Satisfies(p, r) then Allow else if IsAuthenticated(p) then Forbid else Challenge
  }

  /** Every requirement other than Anyone refuses the anonymous principal with a challenge. */
  lemma AnonymousIsChallenged(r: Requirement)
    requires r != Anyone
    ensures Authorize(Anonymous, r) == Challenge
  {
  }

  /** Role requirements are an exact match on the role value; there is no hierarchy. */
  lemma RoleMatchIsExact(p: Principal, role: string)
    requires p.roleClaimType == RoleClaimType
    ensures Authorize(p, InRole(role)) == Allow
            <==> exists i :: 0 <= i < |p.claims| && HasType(p.claims[i], RoleClaimType) && p.claims[i].value == role
  {
  }
}
