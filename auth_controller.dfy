/**
 * The auth endpoints: registration, login, "me" and token refresh, and the
 * claim list every issued token carries.
 *
 * The body validation answer is the framework's automatic 400 for an invalid
 * model; `InvalidInput` records which rules failed. The abstract parameters
 * `isEmail`, `hash` and `verify` stand for the e-mail address check, the
 * password hasher and the password check of the identity store.
 */
module AuthController {
  import opened Wrappers
  import opened Text
  import opened Entities
  import opened Security
  import opened AuthDtos
  import opened Store

  datatype ErrorResponse = ErrorResponse(error: string, details: Option<string>)

  datatype AuthReply =
    | Ok(response: AuthResponse)
    | InvalidInput(errors: seq<FieldError>)
    | Conflict(conflict: ErrorResponse)
    | BadRequest(failure: ErrorResponse)
    | Unauthorized(reason: Option<ErrorResponse>)

  const InvalidCredentials := ErrorResponse("InvalidCredentials", None)
  const UserExists := ErrorResponse("UserExists", Some("An account with this email already exists."))

  /** What the actions demand of the caller. */
  datatype Action = RegisterAction | LoginAction | MeAction | RefreshAction

  function Requirement(a: Action): Requirement {
    match a
    case RegisterAction => Anyone
    case LoginAction => Anyone
    case MeAction => AuthenticatedUser
    case RefreshAction => AuthenticatedUser
  }

  /** Registration and login are open; me and refresh refuse a caller without a valid token. */
  lemma AuthGates(p: Principal, a: Action)
    ensures a in {RegisterAction, LoginAction} ==> Authorize(p, Requirement(a)) == Allow
    ensures a in {MeAction, RefreshAction} ==> (Authorize(p, Requirement(a)) == Allow <==> IsAuthenticated(p))
  {
  }

  // ---- Claims ----

  /** Some role equals "Premium", ignoring case. */
  predicate HasPremiumRole(roles: seq<string>) {
    exists i :: 0 <= i < |roles| && EqualsIgnoreCase(roles[i], PremiumRole)
  }

  /** The fixed claims: id; name falling back to email then id; email or ""; display
      name falling back to email then "". */
  function BaseClaims(u: AppUser): seq<Claim> {
    [ Claim(NameIdentifierClaimType, u.id),
      Claim(NameClaimType, u.userName.Or(u.email).GetOr(u.id)),
      Claim("email", u.email.GetOr("")),
      Claim("displayName", u.displayName.Or(u.email).GetOr("")) ]
  }

  function RoleClaims(roles: seq<string>): (cs: seq<Claim>)
    ensures |cs| == |roles| && forall i :: 0 <= i < |roles| ==> cs[i] == Claim(RoleClaimType, roles[i])
  {
    seq(|roles|, i requires 0 <= i < |roles| => Claim(RoleClaimType, roles[i]))
  }

  function PremiumClaims(roles: seq<string>): seq<Claim> {
    if HasPremiumRole(roles) then [Claim(HasPremiumClaimType, "true")] else []
  }

  /** The claim list of a token issued for `u` holding `roles`. */
  function IssuedClaims(u: AppUser, roles: seq<string>): (cs: seq<Claim>)
    ensures |cs| == 4 + |roles| + (if HasPremiumRole(roles) then 1 else 0)
    ensures forall i :: 0 <= i < |roles| ==> cs[4 + i] == Claim(RoleClaimType, roles[i])
  {
    BaseClaims(u) + RoleClaims(roles) + PremiumClaims(roles)
  }

  /** Builds the claim list from the user's current roles, one role claim per role,
      and issues a token carrying it. */
  method IssueJwt(db: Backend, u: AppUser, jwt: JwtOptions, now: int) returns (t: Token)
    ensures t == CreateToken(jwt, IssuedClaims(u, db.GetRoles(u.id)), now)
  {
    var claims := BaseClaims(u);
    var roles := db.GetRoles(u.id);
    for i := 0 to |roles|
      invariant claims == BaseClaims(u) + RoleClaims(roles[..i])
    {
      assert RoleClaims(roles[..i + 1]) == RoleClaims(roles[..i]) + [Claim(RoleClaimType, roles[i])];
      claims := claims + [Claim(RoleClaimType, roles[i])];
    }
    assert roles[..|roles|] == roles;
    if HasPremiumRole(roles) {
      claims := claims + [Claim(HasPremiumClaimType, "true")];
    }
    t := CreateToken(jwt, claims, now);
  }

  lemma {:induction false} RoleClaimValues(roles: seq<string>)
    ensures ValuesOfType(RoleClaims(roles), RoleClaimType) == roles
    decreases |roles|
  {
    if roles != [] {
      var init := roles[..|roles| - 1];
      assert RoleClaims(roles)[..|roles| - 1] == RoleClaims(init);
      RoleClaimValues(init);
      assert HasType(RoleClaims(roles)[|roles| - 1], RoleClaimType);
      assert init + [roles[|roles| - 1]] == roles;
    }
  }

  /** None of the fixed claims is a role claim or a HasPremium claim. */
  lemma BaseClaimTypes(u: AppUser)
    ensures forall i :: 0 <= i < 4 ==> !HasType(BaseClaims(u)[i], RoleClaimType)
    ensures forall i :: 0 <= i < 4 ==> !HasType(BaseClaims(u)[i], HasPremiumClaimType)
    ensures ValuesOfType(BaseClaims(u), RoleClaimType) == []
    ensures ValuesOfType(BaseClaims(u), HasPremiumClaimType) == []
  {
    DifferentLengthsDiffer(NameIdentifierClaimType, RoleClaimType);
    DifferentLengthsDiffer(NameClaimType, RoleClaimType);
    DifferentLengthsDiffer("email", RoleClaimType);
    DifferentLengthsDiffer("displayName", RoleClaimType);
    DifferentLengthsDiffer(NameIdentifierClaimType, HasPremiumClaimType);
    DifferentLengthsDiffer(NameClaimType, HasPremiumClaimType);
    DifferentLengthsDiffer("email", HasPremiumClaimType);
    DifferentLengthsDiffer("displayName", HasPremiumClaimType);
    NoValuesOfType(BaseClaims(u), RoleClaimType);
    NoValuesOfType(BaseClaims(u), HasPremiumClaimType);
  }

  /** The fixed claims as the server reads them back from the token: the inbound map
      renames "email" to the long email type and keeps the other three. */
  function ReceivedBaseClaims(u: AppUser): seq<Claim> {
    [ Claim(NameIdentifierClaimType, u.id),
      Claim(NameClaimType, u.userName.Or(u.email).GetOr(u.id)),
      Claim(EmailClaimType, u.email.GetOr("")),
      Claim("displayName", u.displayName.Or(u.email).GetOr("")) ]
  }

  /** The claims of the principal the server builds from an issued token. */
  lemma ReceivedIssuedClaims(u: AppUser, roles: seq<string>)
    ensures BearerPrincipal(IssuedClaims(u, roles)).claims
            == ReceivedBaseClaims(u) + RoleClaims(roles) + PremiumClaims(roles)
  {
    var base, rc, pc := BaseClaims(u), RoleClaims(roles), PremiumClaims(roles);
    InboundTypes();
    ReceivedAppend(base + rc, pc);
    ReceivedAppend(base, rc);
    ReceivedUnchanged(rc);
    ReceivedUnchanged(pc);
    ReceivedBase(u);
  }

  lemma ReceivedBase(u: AppUser)
    ensures ReceivedClaims(BaseClaims(u)) == ReceivedBaseClaims(u)
  {
    InboundTypes();
  }

  /** The name of the principal rebuilt from an issued token is the user id, while its
      Name claim falls back from the user name to the email, then to the id. */
  lemma IssuedName(u: AppUser, roles: seq<string>)
    ensures Name(BearerPrincipal(IssuedClaims(u, roles))) == Some(u.id)
    ensures FindFirstValue(BearerPrincipal(IssuedClaims(u, roles)), NameClaimType)
            == Some(u.userName.Or(u.email).GetOr(u.id))
  {
    var cs := IssuedClaims(u, roles);
    assert cs == [Claim(NameIdentifierClaimType, u.id)] + cs[1..];
    BearerNameIsUserId(u.id, cs[1..]);
    var p := BearerPrincipal(cs);
    ReceivedIssuedClaims(u, roles);
    ClaimTypeLengths();
    assert p.claims[..4] == ReceivedBaseClaims(u);
    assert p.claims[0] == ReceivedBaseClaims(u)[0];
    assert p.claims[1] == ReceivedBaseClaims(u)[1];
    FirstByLength(p, NameClaimType, 1);
    FirstValueAt(p, NameClaimType, 1);
  }

  /** The HasPremium claim list holds no role value, and the value "true" exactly when
      some role is "Premium" ignoring case. */
  lemma PremiumClaimValues(roles: seq<string>)
    ensures ValuesOfType(PremiumClaims(roles), RoleClaimType) == []
    ensures ValuesOfType(PremiumClaims(roles), HasPremiumClaimType) == if HasPremiumRole(roles) then ["true"] else []
  {
    if HasPremiumRole(roles) {
      var pc := PremiumClaims(roles);
      DifferentLengthsDiffer(HasPremiumClaimType, RoleClaimType);
      assert pc[..0] == [];
      assert HasType(pc[0], HasPremiumClaimType);
      assert !HasType(pc[0], RoleClaimType);
    }
  }

  /** Behind fixed claims that carry no role and no HasPremium value, the role values are
      the roles and the HasPremium values follow them. */
  lemma ClaimListValues(base: seq<Claim>, roles: seq<string>)
    requires ValuesOfType(base, RoleClaimType) == [] && ValuesOfType(base, HasPremiumClaimType) == []
    ensures ValuesOfType(base + RoleClaims(roles) + PremiumClaims(roles), RoleClaimType) == roles
    ensures ValuesOfType(base + RoleClaims(roles) + PremiumClaims(roles), HasPremiumClaimType)
            == if HasPremiumRole(roles) then ["true"] else []
  {
    ClaimListRoles(base, roles);
    ClaimListPremium(base, roles);
  }

  lemma ClaimListRoles(base: seq<Claim>, roles: seq<string>)
    requires ValuesOfType(base, RoleClaimType) == []
    ensures ValuesOfType(base + RoleClaims(roles) + PremiumClaims(roles), RoleClaimType) == roles
  {
    var rc, pc := RoleClaims(roles), PremiumClaims(roles);
    RoleClaimValues(roles);
    PremiumClaimValues(roles);
    ValuesOfTypeAppend(base + rc, pc, RoleClaimType);
    ValuesOfTypeAppend(base, rc, RoleClaimType);
  }

  lemma ClaimListPremium(base: seq<Claim>, roles: seq<string>)
    requires ValuesOfType(base, HasPremiumClaimType) == []
    ensures ValuesOfType(base + RoleClaims(roles) + PremiumClaims(roles), HasPremiumClaimType)
            == if HasPremiumRole(roles) then ["true"] else []
  {
    var rc, pc := RoleClaims(roles), PremiumClaims(roles);
    DifferentLengthsDiffer(RoleClaimType, HasPremiumClaimType);
    NoValuesOfType(rc, HasPremiumClaimType);
    PremiumClaimValues(roles);
    ValuesOfTypeAppend(base + rc, pc, HasPremiumClaimType);
    ValuesOfTypeAppend(base, rc, HasPremiumClaimType);
  }

  /** The role values of an issued token are exactly the user's roles, in order. */
  lemma IssuedRoleValues(u: AppUser, roles: seq<string>)
    ensures ValuesOfType(IssuedClaims(u, roles), RoleClaimType) == roles
  {
    BaseClaimTypes(u);
    ClaimListValues(BaseClaims(u), roles);
  }

  /** An issued token carries one HasPremium value "true" when some role is "Premium"
      ignoring case, and none otherwise. */
  lemma IssuedPremiumValues(u: AppUser, roles: seq<string>)
    ensures ValuesOfType(IssuedClaims(u, roles), HasPremiumClaimType) == if HasPremiumRole(roles) then ["true"] else []
  {
    BaseClaimTypes(u);
    ClaimListValues(BaseClaims(u), roles);
  }

  /** The renamed email claim is no role claim and no HasPremium claim either. */
  lemma ReceivedBaseClaimTypes(u: AppUser)
    ensures ValuesOfType(ReceivedBaseClaims(u), RoleClaimType) == []
    ensures ValuesOfType(ReceivedBaseClaims(u), HasPremiumClaimType) == []
  {
    BaseClaimTypes(u);
    DifferentLengthsDiffer(EmailClaimType, RoleClaimType);
    DifferentLengthsDiffer(EmailClaimType, HasPremiumClaimType);
    var rb := ReceivedBaseClaims(u);
    assert forall i :: 0 <= i < 4 && i != 2 ==> rb[i] == BaseClaims(u)[i];
    NoValuesOfType(rb, RoleClaimType);
    NoValuesOfType(rb, HasPremiumClaimType);
  }

  /** The server principal of an issued token has exactly the user's roles as role values,
      and the HasPremium value "true" exactly when some role is "Premium" ignoring case. */
  lemma ReceivedValues(u: AppUser, roles: seq<string>)
    ensures ValuesOfType(BearerPrincipal(IssuedClaims(u, roles)).claims, RoleClaimType) == roles
    ensures ValuesOfType(BearerPrincipal(IssuedClaims(u, roles)).claims, HasPremiumClaimType)
            == if HasPremiumRole(roles) then ["true"] else []
  {
    ReceivedIssuedClaims(u, roles);
    ReceivedBaseClaimTypes(u);
    ClaimListValues(ReceivedBaseClaims(u), roles);
  }

  /** The premium policy holds for the principal of an issued token exactly when some role
      is "Premium" ignoring case. */
  lemma IssuedPolicy(u: AppUser, roles: seq<string>)
    ensures PremiumPolicy(BearerPrincipal(IssuedClaims(u, roles))) <==> HasPremiumRole(roles)
  {
    ReceivedValues(u, roles);
    PolicyFromValues(BearerPrincipal(IssuedClaims(u, roles)), roles);
  }

  /** A principal whose role values are `roles` and whose HasPremium values follow them
      satisfies the policy exactly when some role is "Premium" ignoring case. */
  lemma PolicyFromValues(p: Principal, roles: seq<string>)
    requires p.roleClaimType == RoleClaimType
    requires ValuesOfType(p.claims, RoleClaimType) == roles
    requires ValuesOfType(p.claims, HasPremiumClaimType) == if HasPremiumRole(roles) then ["true"] else []
    ensures PremiumPolicy(p) <==> HasPremiumRole(roles)
  {
    ValuesOfTypeMembers(p, RoleClaimType, PremiumRole);
    ValuesOfTypeMembers(p, HasPremiumClaimType, "true");
    if PremiumRole in roles {
      var i :| 0 <= i < |roles| && roles[i] == PremiumRole;
      EqualsIgnoreCaseIsEquivalence(PremiumRole, PremiumRole, PremiumRole);
    }
  }

  lemma {:induction false} NoValuesOfType(cs: seq<Claim>, claimType: string)
    requires forall i :: 0 <= i < |cs| ==> !HasType(cs[i], claimType)
    ensures ValuesOfType(cs, claimType) == []
    decreases |cs|
  {
    if cs != [] {
      NoValuesOfType(cs[..|cs| - 1], claimType);
    }
  }

  // ---- Endpoints ----

  /** The answer for a user who signed in: a fresh token with the user's current roles,
      the stored email and the stored display name. */
  function SignedIn(db: Backend, u: AppUser, jwt: JwtOptions, now: int): (r: AuthResponse)
    reads db`userRoles
    ensures r.token.claims == IssuedClaims(u, db.GetRoles(u.id))
    ensures r.email == u.email && r.displayName == u.displayName
  {
    AuthResponse(CreateToken(jwt, IssuedClaims(u, db.GetRoles(u.id)), now), u.email, u.displayName)
  }

  /** The user a registration creates: user name and email are the request email, a blank
      display name is stored as none. */
  function NewUser(id: string, email: string, displayName: Option<string>, passwordHash: string): (u: AppUser)
    ensures u.id == id && u.userName == Some(email) && u.email == Some(email) && u.passwordHash == passwordHash
    ensures u.displayName.None? <==> IsNullOrWhiteSpace(displayName)
    ensures u.displayName.Some? ==> u.displayName == displayName
  {
    AppUser(id, Some(email), Some(email), if IsNullOrWhiteSpace(displayName) then None else displayName, passwordHash)
  }

  /** The diagnostic of a failed user creation: the error descriptions joined by "; ". */
  function RegistrationFailed(errors: seq<IdentityError>): ErrorResponse {
    ErrorResponse("RegistrationFailed", Some(Join("; ", Descriptions(errors))))
  }

  /** POST /api/auth/register. `newId` is the id the identity store assigns the new user. */
  method Register(db: Backend, req: RegisterRequest, newId: string, isEmail: string -> bool,
                  hash: string -> string, jwt: JwtOptions, now: int) returns (reply: AuthReply)
    requires db.Valid()
    requires db.FindById(newId).None?
    modifies db`users
    ensures db.Valid()
    ensures reply.InvalidInput? <==> RegisterErrors(req, isEmail) != []
    ensures reply.InvalidInput? ==> reply.errors == RegisterErrors(req, isEmail)
    ensures reply.Conflict? <==> RegisterErrors(req, isEmail) == [] && old(db.FindByEmail(req.email.value)).Some?
    ensures reply.Conflict? ==> reply.conflict == UserExists
    ensures reply.BadRequest? <==>
      && RegisterErrors(req, isEmail) == []
      && old(db.FindByEmail(req.email.value)).None?
      && old(db.CreateErrors(NewUser(newId, req.email.value, req.displayName, hash(req.password.value)), req.password.value, isEmail)) != []
    ensures reply.BadRequest? ==>
      reply.failure == RegistrationFailed(old(db.CreateErrors(NewUser(newId, req.email.value, req.displayName, hash(req.password.value)), req.password.value, isEmail)))
    ensures !reply.Unauthorized?
    ensures reply.Ok? ==>
      var u := NewUser(newId, req.email.value, req.displayName, hash(req.password.value));
      && db.users == old(db.users) + [u]
      && reply.response == AuthResponse(CreateToken(jwt, IssuedClaims(u, []), now), u.email, u.displayName)
    ensures !reply.Ok? ==> db.users == old(db.users)
  {
    var errors := RegisterErrors(req, isEmail);
    if errors != [] {
      return InvalidInput(errors);
    }
    var email, password := req.email.value, req.password.value;
    if db.FindByEmail(email).Some? {
      return Conflict(UserExists);
    }
    var u := NewUser(newId, email, req.displayName, hash(password));
    db.NoRolesForUnknownUser(newId);
    var created := db.Create(u, password, isEmail);
    if created != [] {
      return BadRequest(RegistrationFailed(created));
    }
    var t := IssueJwt(db, u, jwt, now);
    reply := Ok(AuthResponse(t, u.email, u.displayName));
  }

  /** POST /api/auth/login. An unknown email and a wrong password get the same answer. */
  method Login(db: Backend, req: LoginRequest, isEmail: string -> bool,
               verify: (string, string) -> bool, jwt: JwtOptions, now: int) returns (reply: AuthReply)
    ensures reply.InvalidInput? || reply.Unauthorized? || reply.Ok?
    ensures reply.InvalidInput? <==> LoginErrors(req, isEmail) != []
    ensures reply.InvalidInput? ==> reply.errors == LoginErrors(req, isEmail)
    ensures reply.Unauthorized? <==>
      && LoginErrors(req, isEmail) == []
      && (|| db.FindByEmail(req.email.value).None?
          || !verify(db.FindByEmail(req.email.value).value.passwordHash, req.password.value))
    ensures reply.Unauthorized? ==> reply.reason == Some(InvalidCredentials)
    ensures reply.Ok? ==> reply.response == SignedIn(db, db.FindByEmail(req.email.value).value, jwt, now)
  {
    var errors := LoginErrors(req, isEmail);
    if errors != [] {
      return InvalidInput(errors);
    }
    var user := db.FindByEmail(req.email.value);
    if user.None? {
      return Unauthorized(Some(InvalidCredentials));
    }
    if !verify(user.value.passwordHash, req.password.value) {
      return Unauthorized(Some(InvalidCredentials));
    }
    var t := IssueJwt(db, user.value, jwt, now);
    reply := Ok(AuthResponse(t, user.value.email, user.value.displayName));
  }

  /** The body of GET /api/auth/me. */
  datatype MeReply = MeReply(email: string, display: Option<string>, roles: seq<string>)

  /** GET /api/auth/me: the email claim, else the identity name, else ""; the display name
      claim; the values of all role claims. */
  function Me(p: Principal): (r: MeReply)
    ensures forall i :: FirstOfType(p, "email", i) ==> r.email == p.claims[i].value
    ensures NoneOfType(p, "email") ==> forall i :: FirstOfType(p, p.nameClaimType, i) ==> r.email == p.claims[i].value
    ensures NoneOfType(p, "email") && NoneOfType(p, p.nameClaimType) ==> r.email == ""
    ensures forall i :: FirstOfType(p, "displayName", i) ==> r.display == Some(p.claims[i].value)
    ensures NoneOfType(p, "displayName") ==> r.display.None?
    ensures forall v :: v in r.roles <==> HasClaim(p, RoleClaimType, v)
  {
    assert forall i :: FirstOfType(p, "email", i) ==> FindFirstValue(p, "email") == Some(p.claims[i].value) by {
      forall i | FirstOfType(p, "email", i) { FirstValueAt(p, "email", i); }
    }
    assert forall i :: FirstOfType(p, p.nameClaimType, i) ==> Name(p) == Some(p.claims[i].value) by {
      forall i | FirstOfType(p, p.nameClaimType, i) { FirstValueAt(p, p.nameClaimType, i); }
    }
    assert forall i :: FirstOfType(p, "displayName", i) ==> FindFirstValue(p, "displayName") == Some(p.claims[i].value) by {
      forall i | FirstOfType(p, "displayName", i) { FirstValueAt(p, "displayName", i); }
    }
    assert forall v :: v in ValuesOfType(p.claims, RoleClaimType) <==> HasClaim(p, RoleClaimType, v) by {
      forall v { ValuesOfTypeMembers(p, RoleClaimType, v); }
    }
    MeReply(FindFirstValue(p, "email").Or(Name(p)).GetOr(""), FindFirstValue(p, "displayName"),
            ValuesOfType(p.claims, RoleClaimType))
  }

  /** "me" reading the email under the long email type first, which is where the bearer
      handler's inbound map puts the issued "email" claim; otherwise as `Me`. */
  function MeCorrected(p: Principal): (r: MeReply)
    ensures r.display == Me(p).display && r.roles == Me(p).roles
    ensures forall i :: FirstOfType(p, EmailClaimType, i) ==> r.email == p.claims[i].value
    ensures NoneOfType(p, EmailClaimType) ==> r.email == Me(p).email
  {
    assert forall i :: FirstOfType(p, EmailClaimType, i) ==> FindFirstValue(p, EmailClaimType) == Some(p.claims[i].value) by {
      forall i | FirstOfType(p, EmailClaimType, i) { FirstValueAt(p, EmailClaimType, i); }
    }
    var m := Me(p);
    m.(email := FindFirstValue(p, EmailClaimType).Or(FindFirstValue(p, "email")).Or(Name(p)).GetOr(""))
  }

  /** No claim of a principal rebuilt from an issued token has the short type "email": it
      came back under the long email type. */
  lemma NoShortEmail(u: AppUser, roles: seq<string>)
    ensures NoneOfType(BearerPrincipal(IssuedClaims(u, roles)), "email")
    ensures FirstOfType(BearerPrincipal(IssuedClaims(u, roles)), "displayName", 3)
    ensures FirstOfType(BearerPrincipal(IssuedClaims(u, roles)), EmailClaimType, 2)
  {
    var p := BearerPrincipal(IssuedClaims(u, roles));
    ReceivedIssuedClaims(u, roles);
    ClaimTypeLengths();
    var rb, rc, pc := ReceivedBaseClaims(u), RoleClaims(roles), PremiumClaims(roles);
    assert p.claims[..4] == rb;
    forall i | 0 <= i < |p.claims|
      ensures |p.claims[i].claimType| != |"email"|
    {
      if i < 4 {
        assert p.claims[i] == rb[i];
      } else if i < 4 + |roles| {
        assert p.claims[i] == rc[i - 4];
      } else {
        assert p.claims[i] == pc[i - 4 - |roles|];
      }
    }
    NoneByLength(p, "email");
    FirstByLength(p, "displayName", 3);
    FirstByLength(p, EmailClaimType, 2);
  }

  /** "me" from the three lookups it is made of. */
  lemma MeFromLookups(p: Principal, email: string, display: string, roles: seq<string>)
    requires FindFirstValue(p, "email").None? && Name(p) == Some(email)
    requires FindFirstValue(p, "displayName") == Some(display)
    requires ValuesOfType(p.claims, RoleClaimType) == roles
    ensures Me(p) == MeReply(email, Some(display), roles)
  {
  }

  /** For the principal the server rebuilds from an issued token, "me" reports the user id
      as the email (the issued "email" claim is renamed on the way in, so the identity name
      answers), the display name falling back to the email, and exactly the roles the token
      was issued with. */
  lemma MeOfIssuedToken(u: AppUser, roles: seq<string>)
    ensures Me(BearerPrincipal(IssuedClaims(u, roles)))
            == MeReply(u.id, Some(u.displayName.Or(u.email).GetOr("")), roles)
  {
    var p := BearerPrincipal(IssuedClaims(u, roles));
    NoShortEmail(u, roles);
    IssuedName(u, roles);
    IssuedDisplay(u, roles);
    ReceivedValues(u, roles);
    MeFromLookups(p, u.id, u.displayName.Or(u.email).GetOr(""), roles);
  }

  /** The display name claim of an issued token comes back unchanged. */
  lemma IssuedDisplay(u: AppUser, roles: seq<string>)
    ensures FindFirstValue(BearerPrincipal(IssuedClaims(u, roles)), "displayName")
            == Some(u.displayName.Or(u.email).GetOr(""))
    ensures FindFirstValue(BearerPrincipal(IssuedClaims(u, roles)), EmailClaimType) == Some(u.email.GetOr(""))
  {
    var p := BearerPrincipal(IssuedClaims(u, roles));
    NoShortEmail(u, roles);
    ReceivedIssuedClaims(u, roles);
    FirstValueAt(p, "displayName", 3);
    FirstValueAt(p, EmailClaimType, 2);
    assert p.claims[..4] == ReceivedBaseClaims(u);
  }

  /** Reading the long email type, "me" reports the stored email (or ""). */
  lemma MeCorrectedOfIssuedToken(u: AppUser, roles: seq<string>)
    ensures MeCorrected(BearerPrincipal(IssuedClaims(u, roles)))
            == MeReply(u.email.GetOr(""), Some(u.displayName.Or(u.email).GetOr("")), roles)
  {
    IssuedDisplay(u, roles);
    MeOfIssuedToken(u, roles);
  }

  /** POST /api/auth/refresh: a new token for the user named by the NameIdentifier claim,
      with the roles the user holds now; no or an empty id, or an unknown id, is refused. */
  method Refresh(db: Backend, p: Principal, jwt: JwtOptions, now: int) returns (reply: AuthReply)
    ensures reply.Unauthorized? || reply.Ok?
    ensures reply.Unauthorized? <==>
      || IsNullOrEmpty(FindFirstValue(p, NameIdentifierClaimType))
      || db.FindById(FindFirstValue(p, NameIdentifierClaimType).value).None?
    ensures reply.Unauthorized? ==> reply.reason.None?
    ensures reply.Ok? ==> reply.response == SignedIn(db, db.FindById(FindFirstValue(p, NameIdentifierClaimType).value).value, jwt, now)
  {
    var userId := FindFirstValue(p, NameIdentifierClaimType);
    if IsNullOrEmpty(userId) {
      return Unauthorized(None);
    }
    var user := db.FindById(userId.value);
    if user.None? {
      return Unauthorized(None);
    }
    var t := IssueJwt(db, user.value, jwt, now);
    reply := Ok(AuthResponse(t, user.value.email, user.value.displayName));
  }
}
