/**
 * The premium flow end to end, from a registered user who holds no role and has never
 * asked for premium access, through the administrator's approval, to a refreshed token.
 */
module Scenario {
  import opened Wrappers
  import opened Text
  import opened Entities
  import opened Security
  import opened Store
  import opened AuthController
  import opened PurchaseController

  /** A user in the "Premium" role signs in with a token that satisfies the premium policy. */
  lemma PremiumUserToken(db: Backend, u: AppUser, jwt: JwtOptions, now: int)
    requires db.IsInRole(u.id, PremiumRole)
    ensures PremiumPolicy(BearerPrincipal(SignedIn(db, u, jwt, now).token.claims))
  {
    var roles := db.GetRoles(u.id);
    var i :| 0 <= i < |roles| && roles[i] == PremiumRole;
    EqualsIgnoreCaseIsEquivalence(PremiumRole, PremiumRole, PremiumRole);
    IssuedPolicy(u, roles);
  }

  /** A first request of a user who is not premium creates a pending request under the next
      id, owned by that user. */
  method FirstRequest(db: Backend, user: Principal, now: int) returns (requestId: int, requested: Reply)
    requires db.Valid()
    requires db.CurrentUser(user).Some? && db.CurrentUser(user).value.email.Some?
    requires !db.IsInRole(db.CurrentUser(user).value.id, PremiumRole)
    requires forall q :: q in db.requests ==> q.userId != db.CurrentUser(user).value.id
    modifies db`requests, db`nextRequestId
    ensures db.Valid()
    ensures requestId == old(db.nextRequestId) && requested == Status("Pending")
    ensures db.FindRequest(requestId).Some?
    ensures db.requests[db.FindRequest(requestId).value].userId == db.CurrentUser(user).value.id
  {
    var u := db.CurrentUser(user).value;
    requestId := db.nextRequestId;
    db.RequestIdsBelowNext();
    ghost var before := db.requests;
    assert !LatestIsPending(before, u.id);
    assert Creates(db, user, before);
    requested := RequestPremium(db, user, None, now);
    ghost var q := NewPremiumRequest(requestId, u.id, u.email.value, now, None);
    FindAppended(before, q);
  }

  /** A request appended under an id no stored request has is found at the end. */
  lemma {:induction false} FindAppended(rs: seq<PremiumRequest>, q: PremiumRequest)
    requires forall r :: r in rs ==> r.id != q.id
    ensures FirstIndex(rs + [q], q.id) == Some(|rs|)
  {
    if rs != [] {
      assert (rs + [q])[1..] == rs[1..] + [q];
      FindAppended(rs[1..], q);
    }
  }

  /** The administrator approves a request of the user: "my-request" then answers "Approved"
      and the refreshed token satisfies the premium policy. */
  method ApproveAndRefresh(db: Backend, user: Principal, admin: Principal, requestId: int, jwt: JwtOptions, now: int)
    returns (approved: Reply, status: Reply, refreshed: AuthReply)
    requires db.Valid()
    requires db.CurrentUser(user).Some? && db.CurrentUser(user).value.id != ""
    requires db.FindRequest(requestId).Some?
    requires db.requests[db.FindRequest(requestId).value].userId == db.CurrentUser(user).value.id
    modifies db`requests, db`userRoles
    ensures db.Valid()
    ensures approved == Done && status == Status("Approved")
    ensures db.IsInRole(db.CurrentUser(user).value.id, PremiumRole)
    ensures refreshed.Ok? && PremiumPolicy(BearerPrincipal(refreshed.response.token.claims))
  {
    var u := db.CurrentUser(user).value;
    assert db.FindById(u.id) == Some(u);
    approved := Approve(db, admin, requestId, now);
    status := MyRequest(db, user);
    refreshed := Refresh(db, user, jwt, now);
    assert refreshed.response == SignedIn(db, u, jwt, now);
    PremiumUserToken(db, u, jwt, now);
  }

  /** The request is pending, the administrator approves it under the id the database
      assigned, "my-request" then answers "Approved", and the refreshed token satisfies
      the premium policy. */
  method PremiumFlow(db: Backend, user: Principal, admin: Principal, jwt: JwtOptions, now: int)
    returns (requestId: int, requested: Reply, approved: Reply, status: Reply, refreshed: AuthReply)
    requires db.Valid()
    requires db.CurrentUser(user).Some?
    requires db.CurrentUser(user).value.id != "" && db.CurrentUser(user).value.email.Some?
    requires !db.IsInRole(db.CurrentUser(user).value.id, PremiumRole)
    requires forall q :: q in db.requests ==> q.userId != db.CurrentUser(user).value.id
    modifies db`requests, db`nextRequestId, db`userRoles
    ensures db.Valid()
    ensures requestId == old(db.nextRequestId)
    ensures requested == Status("Pending") && approved == Done && status == Status("Approved")
    ensures db.IsInRole(db.CurrentUser(user).value.id, PremiumRole)
    ensures refreshed.Ok? && PremiumPolicy(BearerPrincipal(refreshed.response.token.claims))
  {
    requestId, requested := FirstRequest(db, user, now);
    approved, status, refreshed := ApproveAndRefresh(db, user, admin, requestId, jwt, now);
  }
}
