/**
 * The server's persistent state as the controllers see it through the
 * database context and the identity user manager: users, the user-role
 * relation, premium requests and resources. Ids of requests and resources
 * are assigned by the database in increasing order; rows are never deleted.
 */
module Store {
  import opened Wrappers
  import opened Text
  import opened Entities
  import opened Security

  /** One row of the user-role relation. */
  datatype UserRole = UserRole(userId: string, role: string)

  /** The lookup normaliser of the identity store (upper-casing). */
  function Normalize(s: string): string {
    ToUpper(s)
  }

  // ---- The identity store's validation on user creation ----

  datatype IdentityError =
    | PasswordTooShort
    | PasswordRequiresUniqueChars
    | PasswordRequiresDigit
    | PasswordRequiresLower
    | PasswordRequiresUpper
    | InvalidUserName(userName: string)
    | DuplicateUserName(userName: string)
    | InvalidEmail(email: string)
    | DuplicateEmail(email: string)
    | UserAlreadyInRole(role: string)

  function Description(e: IdentityError): string {
    match e
    case PasswordTooShort => "Passwords must be at least 8 characters."
    case PasswordRequiresUniqueChars => "Passwords must use at least 1 different characters."
    case PasswordRequiresDigit => "Passwords must have at least one digit ('0'-'9')."
    case PasswordRequiresLower => "Passwords must have at least one lowercase ('a'-'z')."
    case PasswordRequiresUpper => "Passwords must have at least one uppercase ('A'-'Z')."
    case InvalidUserName(n) => "Username '" + n + "' is invalid, can only contain letters or digits."
    case DuplicateUserName(n) => "Username '" + n + "' is already taken."
    case InvalidEmail(m) => "Email '" + m + "' is invalid."
    case DuplicateEmail(m) => "Email '" + m + "' is already taken."
    case UserAlreadyInRole(r) => "User already in role '" + r + "'."
  }

  function Descriptions(es: seq<IdentityError>): (ds: seq<string>)
    ensures |ds| == |es| && forall i :: 0 <= i < |es| ==> ds[i] == Description(es[i])
  {
    seq(|es|, i requires 0 <= i < |es| => Description(es[i]))
  }

  /** The configured password length. */
  const RequiredPasswordLength := 8

  predicate ContainsWhere(s: string, p: char -> bool) {
    exists i :: 0 <= i < |s| && p(s[i])
  }

  /** The password rules: at least 8 characters and an upper-case letter (configured),
      a digit and a lower-case letter (the identity defaults, not switched off);
      non-alphanumerics are not required. */
  function PasswordValidation(password: string): (errors: seq<IdentityError>)
    ensures errors == [] <==>
      && |password| >= RequiredPasswordLength
      && !IsNullOrWhiteSpace(Some(password))
      && ContainsWhere(password, c => 'A' <= c <= 'Z')
      && ContainsWhere(password, c => 'a' <= c <= 'z')
      && ContainsWhere(password, c => '0' <= c <= '9')
  {
    (if IsNullOrWhiteSpace(Some(password)) || |password| < RequiredPasswordLength then [PasswordTooShort] else [])
    + (if !ContainsWhere(password, c => '0' <= c <= '9') then [PasswordRequiresDigit] else [])
    + (if !ContainsWhere(password, c => 'a' <= c <= 'z') then [PasswordRequiresLower] else [])
    + (if !ContainsWhere(password, c => 'A' <= c <= 'Z') then [PasswordRequiresUpper] else [])
    + (if |password| == 0 then [PasswordRequiresUniqueChars] else [])
  }

  /** An all-lower-case password is refused for its missing upper-case letter alone;
      with one capital letter it passes. */
  lemma ExamplePasswords()
    ensures PasswordValidation("longenough1") == [PasswordRequiresUpper]
    ensures PasswordValidation("LongEnough1") == []
  {
    var weak, strong := "longenough1", "LongEnough1";
    assert weak[0] == 'l' && weak[10] == '1' && !IsWhiteSpace(weak[0]);
    assert forall i :: 0 <= i < |weak| ==> !('A' <= weak[i] <= 'Z');
    assert strong[0] == 'L' && strong[1] == 'o' && strong[10] == '1' && !IsWhiteSpace(strong[0]);
  }

  /** The characters a user name may contain. */
  predicate AllowedUserNameChar(c: char) {
    ('a' <= c <= 'z') || ('A' <= c <= 'Z') || ('0' <= c <= '9') || c in "-._@+"
  }

  // ---- Tables ----

  ghost predicate IdsIncreasing(ids: seq<int>, next: int) {
    && (forall i, j :: 0 <= i < j < |ids| ==> ids[i] < ids[j])
    && (forall i :: 0 <= i < |ids| ==> 0 < ids[i] < next)
  }

  function RequestIds(rs: seq<PremiumRequest>): (ids: seq<int>)
    ensures |ids| == |rs| && forall i :: 0 <= i < |rs| ==> ids[i] == rs[i].id
  {
    seq(|rs|, i requires 0 <= i < |rs| => rs[i].id)
  }

  function ResourceIds(rs: seq<ResourceItem>): (ids: seq<int>)
    ensures |ids| == |rs| && forall i :: 0 <= i < |rs| ==> ids[i] == rs[i].id
  {
    seq(|rs|, i requires 0 <= i < |rs| => rs[i].id)
  }

  /** Appending the next id keeps the ids increasing. */
  lemma AppendNextId(ids: seq<int>, next: int)
    requires IdsIncreasing(ids, next) && next > 0
    ensures IdsIncreasing(ids + [next], next + 1)
  {
  }

  /** The roles of one user, in the order of the relation. */
  function RolesOf(table: seq<UserRole>, userId: string): (roles: seq<string>)
    ensures forall r :: r in roles <==> UserRole(userId, r) in table
  {
    if table == [] then []
    else
      var last := table[|table| - 1];
      RolesOf(table[..|table| - 1], userId) + (if last.userId == userId then [last.role] else [])
  }

  lemma {:induction false} RolesOfAbsentUser(table: seq<UserRole>, userId: string)
    requires forall k :: 0 <= k < |table| ==> table[k].userId != userId
    ensures RolesOf(table, userId) == []
  {
    if table != [] {
      RolesOfAbsentUser(table[..|table| - 1], userId);
    }
  }

  /** Some stored user has the id. */
  predicate HasUserId(users: seq<AppUser>, id: string) {
    exists u :: u in users && u.id == id
  }

  predicate HasEmail(u: AppUser, email: string) {
    u.email.Some? && Normalize(u.email.value) == Normalize(email)
  }

  predicate HasUserName(u: AppUser, userName: string) {
    u.userName.Some? && Normalize(u.userName.value) == Normalize(userName)
  }

  class Backend {
    var users: seq<AppUser>
    var userRoles: seq<UserRole>
    var requests: seq<PremiumRequest>
    var resources: seq<ResourceItem>
    var nextRequestId: int
    var nextResourceId: int

    /** Database ids are positive and increasing, user ids and normalised emails are unique,
        and the user-role relation holds no pair twice and refers to existing users. */
    ghost predicate Valid()
      reads this
    {
      && 0 < nextRequestId && 0 < nextResourceId
      && IdsIncreasing(RequestIds(requests), nextRequestId)
      && IdsIncreasing(ResourceIds(resources), nextResourceId)
      && (forall i, j :: 0 <= i < j < |users| ==> users[i].id != users[j].id)
      && (forall i, j :: 0 <= i < j < |users| && users[i].email.Some? ==> !HasEmail(users[j], users[i].email.value))
      && (forall i, j :: 0 <= i < j < |userRoles| ==> userRoles[i] != userRoles[j])
      && (forall k :: 0 <= k < |userRoles| ==> HasUserId(users, userRoles[k].userId))
    }

    constructor ()
      ensures Valid()
      ensures users == [] && userRoles == [] && requests == [] && resources == []
      ensures nextRequestId == 1 && nextResourceId == 1
    {
      users, userRoles, requests, resources := [], [], [], [];
      nextRequestId, nextResourceId := 1, 1;
    }

    /** `FindByIdAsync`. */
    function FindById(id: string): (r: Option<AppUser>)
      reads this`users
      ensures r.Some? ==> r.value in users && r.value.id == id
      ensures r.None? ==> forall u :: u in users ==> u.id != id
    {
      FirstMatch(users, (u: AppUser) => u.id == id)
    }

    /** `FindByEmailAsync`: normalised comparison. */
    function FindByEmail(email: string): (r: Option<AppUser>)
      reads this`users
      ensures r.Some? ==> r.value in users && HasEmail(r.value, email)
      ensures r.None? ==> forall u :: u in users ==> !HasEmail(u, email)
    {
      FirstMatch(users, (u: AppUser) => HasEmail(u, email))
    }

    /** `FindByNameAsync`: normalised comparison. */
    function FindByName(userName: string): (r: Option<AppUser>)
      reads this`users
      ensures r.Some? ==> r.value in users && HasUserName(r.value, userName)
      ensures r.None? ==> forall u :: u in users ==> !HasUserName(u, userName)
    {
      FirstMatch(users, (u: AppUser) => HasUserName(u, userName))
    }

    /** `GetUserAsync(principal)`: the user named by the principal's NameIdentifier claim. */
    function CurrentUser(p: Principal): (r: Option<AppUser>)
      reads this`users
      ensures r.Some? ==> r.value in users && FindFirstValue(p, NameIdentifierClaimType) == Some(r.value.id)
      ensures r.None? ==>
        FindFirstValue(p, NameIdentifierClaimType).None? ||
        forall u :: u in users ==> u.id != FindFirstValue(p, NameIdentifierClaimType).value
    {
      match FindFirstValue(p, NameIdentifierClaimType)
      case None => None
      case Some(id) => FindById(id)
    }

    predicate IsInRole(userId: string, role: string)
      reads this`userRoles
    {
      UserRole(userId, role) in userRoles
    }

    /** `GetRolesAsync`. */
    function GetRoles(userId: string): (roles: seq<string>)
      reads this`userRoles
      ensures forall r :: r in roles <==> IsInRole(userId, r)
    {
      RolesOf(userRoles, userId)
    }

    /** A user id that no user has holds no role. */
    lemma NoRolesForUnknownUser(userId: string)
      requires Valid()
      requires FindById(userId).None?
      ensures GetRoles(userId) == []
    {
      RolesOfAbsentUser(userRoles, userId);
    }

    /** The user validator: the user name must be non-blank, of allowed characters and not
        taken by another user; the email must be non-blank, an address and not taken. */
    function UserValidation(u: AppUser, isEmail: string -> bool): (errors: seq<IdentityError>)
      reads this`users
    {
      var name := u.userName.GetOr("");
      var email := u.email.GetOr("");
      (if IsNullOrWhiteSpace(u.userName) then [InvalidUserName(name)]
       else if exists i :: 0 <= i < |name| && !AllowedUserNameChar(name[i]) then [InvalidUserName(name)]
       else match FindByName(name)
            case Some(owner) => if owner.id != u.id then [DuplicateUserName(name)] else []
            case None => [])
      + (if IsNullOrWhiteSpace(u.email) then [InvalidEmail(email)]
         else if !isEmail(email) then [InvalidEmail(email)]
         else match FindByEmail(email)
              case Some(owner) => if owner.id != u.id then [DuplicateEmail(email)] else []
              case None => [])
    }

    /** `CreateAsync(user, password)`: the password is validated first; only a valid password
        lets the user validator run. */
    function CreateErrors(u: AppUser, password: string, isEmail: string -> bool): (errors: seq<IdentityError>)
      reads this`users
      ensures errors == [] ==> PasswordValidation(password) == []
      ensures errors == [] ==> u.email.Some? && (FindByEmail(u.email.value).None? || FindByEmail(u.email.value).value.id == u.id)
    {
      var pw := PasswordValidation(password);
      if pw != [] then pw else UserValidation(u, isEmail)
    }

    /** Stores a new user when the password and the user pass validation. */
    method Create(u: AppUser, password: string, isEmail: string -> bool) returns (errors: seq<IdentityError>)
      requires Valid()
      requires FindById(u.id).None?
      modifies this`users
      ensures Valid()
      ensures errors == old(CreateErrors(u, password, isEmail))
      ensures users == if errors == [] then old(users) + [u] else old(users)
    {
      errors := CreateErrors(u, password, isEmail);
      if errors == [] {
        assert FindByEmail(u.email.value).None?;
        users := users + [u];
      }
    }

    /** `AddToRoleAsync`: fails when the user already holds the role. */
    method AddToRole(userId: string, role: string) returns (succeeded: bool)
      requires Valid()
      requires FindById(userId).Some?
      modifies this`userRoles
      ensures Valid()
      ensures succeeded == !old(IsInRole(userId, role))
      ensures userRoles == if succeeded then old(userRoles) + [UserRole(userId, role)] else old(userRoles)
      ensures IsInRole(userId, role)
    {
      succeeded := !IsInRole(userId, role);
      if succeeded {
        userRoles := userRoles + [UserRole(userId, role)];
      }
    }

    /** Every stored request id is below the next id. */
    lemma RequestIdsBelowNext()
      requires Valid()
      ensures forall q :: q in requests ==> 0 < q.id < nextRequestId
    {
      forall q | q in requests
        ensures 0 < q.id < nextRequestId
      {
        var k :| 0 <= k < |requests| && requests[k] == q;
        assert RequestIds(requests)[k] == q.id;
      }
    }

    /** Every stored resource id is below the next id. */
    lemma ResourceIdsBelowNext()
      requires Valid()
      ensures forall r :: r in resources ==> 0 < r.id < nextResourceId
    {
      forall r | r in resources
        ensures 0 < r.id < nextResourceId
      {
        var k :| 0 <= k < |resources| && resources[k] == r;
        assert ResourceIds(resources)[k] == r.id;
      }
    }

    /** Adds a pending request; the database assigns the next id. */
    method AddRequest(userId: string, email: string, now: int, notes: Option<string>)
      requires Valid()
      modifies this`requests, this`nextRequestId
      ensures Valid()
      ensures requests == old(requests) + [NewPremiumRequest(old(nextRequestId), userId, email, now, notes)]
      ensures nextRequestId == old(nextRequestId) + 1
    {
      var req := NewPremiumRequest(nextRequestId, userId, email, now, notes);
      AppendNextId(RequestIds(requests), nextRequestId);
      assert RequestIds(requests + [req]) == RequestIds(requests) + [req.id];
      requests := requests + [req];
      nextRequestId := nextRequestId + 1;
    }

    /** Adds a resource; the database assigns the next id. */
    method AddResource(title: string, url: string, isPremium: bool) returns (item: ResourceItem)
      requires Valid()
      modifies this`resources, this`nextResourceId
      ensures Valid()
      ensures item == ResourceItem(old(nextResourceId), title, url, isPremium)
      ensures resources == old(resources) + [item]
      ensures nextResourceId == old(nextResourceId) + 1
    {
      item := ResourceItem(nextResourceId, title, url, isPremium);
      AppendNextId(ResourceIds(resources), nextResourceId);
      assert ResourceIds(resources + [item]) == ResourceIds(resources) + [item.id];
      resources := resources + [item];
      nextResourceId := nextResourceId + 1;
    }

    /** Saves a tracked request under its own id in place of the stored one. */
    method SaveRequest(k: nat, q: PremiumRequest)
      requires Valid()
      requires k < |requests| && q.id == requests[k].id
      modifies this`requests
      ensures Valid()
      ensures requests == old(requests)[k := q]
      ensures forall id :: FindRequest(id) == old(FindRequest(id))
    {
      ReplaceKeepsIds(requests, k, q);
      forall id ensures FirstIndex(requests[k := q], id) == FirstIndex(requests, id) {
        FirstIndexByIds(requests[k := q], requests, id);
      }
      requests := requests[k := q];
    }

    /** The position of the request with the given primary key. */
    function FindRequest(id: int): (r: Option<nat>)
      reads this`requests
      ensures r.Some? ==> r.value < |requests| && requests[r.value].id == id
      ensures r.None? ==> forall q :: q in requests ==> q.id != id
    {
      FirstIndex(requests, id)
    }
  }

  function FirstIndex(rs: seq<PremiumRequest>, id: int): (r: Option<nat>)
    ensures r.Some? ==> r.value < |rs| && rs[r.value].id == id
    ensures r.None? ==> forall q :: q in rs ==> q.id != id
  {
    if rs == [] then None
    else if rs[0].id == id then Some(0)
    else match FirstIndex(rs[1..], id)
         case None => None
         case Some(k) => Some(k + 1)
  }

  /** Replacing a request by one with the same id keeps the ids increasing. */
  lemma ReplaceKeepsIds(rs: seq<PremiumRequest>, k: nat, q: PremiumRequest)
    requires k < |rs| && q.id == rs[k].id
    ensures RequestIds(rs[k := q]) == RequestIds(rs)
  {
  }

  /** The position of an id depends only on the ids. */
  lemma {:induction false} FirstIndexByIds(a: seq<PremiumRequest>, b: seq<PremiumRequest>, id: int)
    requires RequestIds(a) == RequestIds(b)
    ensures FirstIndex(a, id) == FirstIndex(b, id)
  {
    if a != [] {
      assert RequestIds(a[1..]) == RequestIds(a)[1..];
      assert RequestIds(b[1..]) == RequestIds(b)[1..];
      FirstIndexByIds(a[1..], b[1..], id);
    }
  }
}
