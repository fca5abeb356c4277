/**
 * The administrator's endpoints: adding a resource, listing the users and
 * granting the "Premium" role by email. Every endpoint needs the "Admin" role.
 */
module AdminController {
  import opened Wrappers
  import opened Entities
  import opened Security
  import opened Store
  import opened ResourcesController

  datatype CreateResourceRequest = CreateResourceRequest(title: string, url: string, isPremium: bool)

  datatype AdminReply = NotFound | BadRequest(errors: seq<IdentityError>) | Done

  datatype Action = CreateResourceAction | UsersAction | GrantPremiumAction

  function Requirement(a: Action): Requirement {
    InRole(AdminRole)
  }

  /** Only a caller in the "Admin" role, matched exactly, is let through. */
  lemma AdminGates(p: Principal, a: Action)
    ensures Authorize(p, Requirement(a)) == Allow <==> IsInRole(p, AdminRole)
    ensures IsAuthenticated(p) && !IsInRole(p, AdminRole) ==> Authorize(p, Requirement(a)) == Forbid
  {
  }

  /** POST /api/admin/resource: stores one resource with the given fields and the next id,
      and answers with its transfer record. */
  method CreateResource(db: Backend, req: CreateResourceRequest) returns (d: ResourceDto)
    requires db.Valid()
    modifies db`resources, db`nextResourceId
    ensures db.Valid()
    ensures db.resources == old(db.resources) + [ResourceItem(old(db.nextResourceId), req.title, req.url, req.isPremium)]
    ensures d == ResourceDto(old(db.nextResourceId), req.title, req.url, req.isPremium)
    ensures forall r :: r in old(db.resources) ==> r.id < d.id
  {
    db.ResourceIdsBelowNext();
    var item := db.AddResource(req.title, req.url, req.isPremium);
    d := ToDto(item);
  }

  /** One line of the user listing. */
  datatype UserSummary = UserSummary(email: Option<string>, displayName: Option<string>)

  function Summaries(us: seq<AppUser>): (r: seq<UserSummary>)
    ensures |r| == |us| && forall i :: 0 <= i < |us| ==> r[i] == UserSummary(us[i].email, us[i].displayName)
  {
    seq(|us|, i requires 0 <= i < |us| => UserSummary(us[i].email, us[i].displayName))
  }

  /** A user added to the table shows up last in the listing; the others keep their lines. */
  lemma SummariesAppend(us: seq<AppUser>, u: AppUser)
    ensures Summaries(us + [u]) == Summaries(us) + [UserSummary(u.email, u.displayName)]
  {
  }

  /** GET /api/admin/users: the email and display name of every user, in table order. */
  function Users(db: Backend): (r: seq<UserSummary>)
    reads db`users
    ensures |r| == |db.users|
    ensures forall i :: 0 <= i < |r| ==> r[i] == UserSummary(db.users[i].email, db.users[i].displayName)
    ensures forall u :: u in db.users ==> UserSummary(u.email, u.displayName) in r
  {
    var r := Summaries(db.users);
    assert forall u :: u in db.users ==> UserSummary(u.email, u.displayName) in r by {
      forall u | u in db.users ensures UserSummary(u.email, u.displayName) in r {
        var i :| 0 <= i < |db.users| && db.users[i] == u;
        assert r[i] == UserSummary(u.email, u.displayName);
      }
    }
    r
  }

  /** POST /api/admin/grant-premium/{email}: an unknown email answers NotFound; a user who
      already holds the role gets the role store's error; there is no membership check
      before adding. */
  method GrantPremium(db: Backend, userEmail: string) returns (reply: AdminReply)
    requires db.Valid()
    modifies db`userRoles
    ensures db.Valid()
    ensures db.FindByEmail(userEmail).None? ==> reply == NotFound && db.userRoles == old(db.userRoles)
    ensures db.FindByEmail(userEmail).Some? ==>
      var userId := db.FindByEmail(userEmail).value.id;
      && db.IsInRole(userId, PremiumRole)
      && (old(db.IsInRole(userId, PremiumRole)) ==> reply == BadRequest([UserAlreadyInRole(PremiumRole)]) && db.userRoles == old(db.userRoles))
      && (!old(db.IsInRole(userId, PremiumRole)) ==> reply == Done && db.userRoles == old(db.userRoles) + [UserRole(userId, PremiumRole)])
  {
    var user := db.FindByEmail(userEmail);
    if user.None? {
      return NotFound;
    }
    assert db.FindById(user.value.id).Some?;
    var succeeded := db.AddToRole(user.value.id, PremiumRole);
    if !succeeded {
      return BadRequest([UserAlreadyInRole(PremiumRole)]);
    }
    reply := Done;
  }
}
