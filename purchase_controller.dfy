/**
 * The premium-request workflow: a signed-in user asks for premium access,
 * checks the state of the request, and an administrator lists, approves or
 * denies requests. Approval puts the user in the "Premium" role; the role,
 * not the request record, is what grants access.
 *
 * `now` is the server clock at the call; the principal is the caller's.
 */
module PurchaseController {
  import opened Wrappers
  import opened Text
  import opened Entities
  import opened Security
  import opened Store

  /** The answers of the endpoints. `Status` carries the `status` field of the body. */
  datatype Reply =
    | Unauthorized
    | Status(status: string)
    | NotFound(message: Option<string>)
    | BadRequest(errors: seq<IdentityError>)
    | Done
    | ServerError

  datatype Action = DemoAction | RequestAction | MyRequestAction | RequestsAction | ApproveAction | DenyAction

  /** Every action needs a signed-in caller; listing and reviewing need the "Admin" role. */
  function Requirement(a: Action): Requirement {
    match a
    case DemoAction => AuthenticatedUser
    case RequestAction => AuthenticatedUser
    case MyRequestAction => AuthenticatedUser
    case RequestsAction => InRole(AdminRole)
    case ApproveAction => InRole(AdminRole)
    case DenyAction => InRole(AdminRole)
  }

  /** A signed-in caller without the "Admin" role is forbidden the review actions;
      an anonymous caller is challenged for all of them. */
  lemma PurchaseGates(p: Principal, a: Action)
    ensures a in {DemoAction, RequestAction, MyRequestAction} ==> (Authorize(p, Requirement(a)) == Allow <==> IsAuthenticated(p))
    ensures a in {RequestsAction, ApproveAction, DenyAction} ==> (Authorize(p, Requirement(a)) == Allow <==> IsInRole(p, AdminRole))
    ensures a in {RequestsAction, ApproveAction, DenyAction} && IsAuthenticated(p) && !IsInRole(p, AdminRole)
            ==> Authorize(p, Requirement(a)) == Forbid
    ensures Authorize(Anonymous, Requirement(a)) == Challenge
  {
  }

  // ---- The latest request of a user ----

  /** The user's request with the highest id, if there is one. */
  function LatestRequest(rs: seq<PremiumRequest>, userId: string): (r: Option<PremiumRequest>)
    ensures r.None? <==> forall q :: q in rs ==> q.userId != userId
    ensures r.Some? ==> r.value in rs && r.value.userId == userId
    ensures r.Some? ==> forall q :: q in rs && q.userId == userId ==> q.id <= r.value.id
  {
    if rs == [] then None
    else
      var last := rs[|rs| - 1];
      var prev := LatestRequest(rs[..|rs| - 1], userId);
      assert forall q :: q in rs ==> q in rs[..|rs| - 1] || q == last by {
        assert rs == rs[..|rs| - 1] + [last];
      }
      if last.userId != userId then prev
      else if prev.Some? && prev.value.id > last.id then prev
      else Some(last)
  }

  /** After a request with an id no other request has reached is appended, it is its
      user's latest request. */
  lemma LatestAfterAppend(rs: seq<PremiumRequest>, q: PremiumRequest)
    requires forall r :: r in rs ==> r.id < q.id
    ensures LatestRequest(rs + [q], q.userId) == Some(q)
  {
    assert (rs + [q])[..|rs + [q]| - 1] == rs;
  }

  /** Appending a request of one user does not change another user's latest request. */
  lemma LatestOfOthers(rs: seq<PremiumRequest>, q: PremiumRequest, userId: string)
    requires q.userId != userId
    ensures LatestRequest(rs + [q], userId) == LatestRequest(rs, userId)
  {
    assert (rs + [q])[..|rs + [q]| - 1] == rs;
  }

  // ---- Requesting premium access ----

  /** The user's latest request is pending. */
  predicate LatestIsPending(rs: seq<PremiumRequest>, userId: string) {
    var latest := LatestRequest(rs, userId);
    latest.Some? && latest.value.status == Pending
  }

  /** Whether a request by the caller creates a record: a known user, not premium, whose
      latest request is not pending and who has an email. */
  predicate Creates(db: Backend, p: Principal, rs: seq<PremiumRequest>)
    reads db`users, db`userRoles
  {
    var user := db.CurrentUser(p);
    && user.Some?
    && !db.IsInRole(user.value.id, PremiumRole)
    && !LatestIsPending(rs, user.value.id)
    && user.value.email.Some?
  }

  /** POST /api/purchase/request: "Approved" for a premium user; "Pending" without a new
      record when the latest request is pending; otherwise a new pending request carrying
      the user's id, email and the notes, which becomes the user's latest request. */
  method RequestPremium(db: Backend, p: Principal, notes: Option<string>, now: int) returns (reply: Reply)
    requires db.Valid()
    modifies db`requests, db`nextRequestId
    ensures db.Valid()
    ensures db.CurrentUser(p).None? ==> reply == Unauthorized
    ensures db.CurrentUser(p).Some? ==>
      var u := db.CurrentUser(p).value;
      if db.IsInRole(u.id, PremiumRole) then reply == Status("Approved")
      else if LatestIsPending(old(db.requests), u.id) then reply == Status("Pending")
      else if u.email.None? then reply == ServerError
      else reply == Status("Pending")
    ensures Creates(db, p, old(db.requests)) ==>
      var u := db.CurrentUser(p).value;
      && db.requests == old(db.requests) + [NewPremiumRequest(old(db.nextRequestId), u.id, u.email.value, now, notes)]
      && db.nextRequestId == old(db.nextRequestId) + 1
      && LatestIsPending(db.requests, u.id)
    ensures !Creates(db, p, old(db.requests)) ==> db.requests == old(db.requests) && db.nextRequestId == old(db.nextRequestId)
  {
    var user := db.CurrentUser(p);
    if user.None? {
      return Unauthorized;
    }
    var u := user.value;
    if db.IsInRole(u.id, PremiumRole) {
      return Status("Approved");
    }
    if LatestIsPending(db.requests, u.id) {
      return Status("Pending");
    }
    if u.email.None? {
      // The email column does not accept null: saving fails.
      return ServerError;
    }
    AddPendingRequest(db, u.id, u.email.value, now, notes);
    reply := Status("Pending");
  }

  /** A new request under the next id becomes the user's latest request, and it is pending. */
  method AddPendingRequest(db: Backend, userId: string, email: string, now: int, notes: Option<string>)
    requires db.Valid()
    modifies db`requests, db`nextRequestId
    ensures db.Valid()
    ensures db.requests == old(db.requests) + [NewPremiumRequest(old(db.nextRequestId), userId, email, now, notes)]
    ensures db.nextRequestId == old(db.nextRequestId) + 1
    ensures LatestIsPending(db.requests, userId)
  {
    db.RequestIdsBelowNext();
    ghost var before := db.requests;
    var q := NewPremiumRequest(db.nextRequestId, userId, email, now, notes);
    db.AddRequest(userId, email, now, notes);
    LatestAfterAppend(before, q);
  }

  /** Asking twice in a row gets the same answer twice and creates at most one request. */
  method RequestPremiumTwice(db: Backend, p: Principal, notes: Option<string>, now: int, later: int)
    returns (first: Reply, second: Reply)
    requires db.Valid()
    modifies db`requests, db`nextRequestId
    ensures db.Valid()
    ensures first == second
    ensures |db.requests| <= old(|db.requests|) + 1
    ensures old(Creates(db, p, db.requests)) ==>
      |db.requests| == old(|db.requests|) + 1 && first == Status("Pending")
    ensures !old(Creates(db, p, db.requests)) ==> db.requests == old(db.requests)
  {
    first := RequestPremium(db, p, notes, now);
    ghost var afterFirst := db.requests;
    assert !Creates(db, p, db.requests);
    second := RequestPremium(db, p, notes, later);
    assert db.requests == afterFirst;
  }

  /** GET /api/purchase/my-request: "Approved" for a premium user, "None" without any
      request, else the status of the latest request. Nothing is changed. */
  function MyRequest(db: Backend, p: Principal): (r: Reply)
    reads db`users, db`userRoles, db`requests
    ensures db.CurrentUser(p).None? <==> r == Unauthorized
    ensures db.CurrentUser(p).Some? ==>
      var u := db.CurrentUser(p).value;
      if db.IsInRole(u.id, PremiumRole) then r == Status("Approved")
      else if forall q :: q in db.requests ==> q.userId != u.id then r == Status("None")
      else exists q :: q in db.requests && q.userId == u.id && r == Status(StatusName(q.status))
                       && forall q' :: q' in db.requests && q'.userId == u.id ==> q'.id <= q.id
  {
    match db.CurrentUser(p)
    case None => Unauthorized
    case Some(u) =>
      if db.IsInRole(u.id, PremiumRole) then Status("Approved")
      else match LatestRequest(db.requests, u.id)
           case None => Status("None")
           case Some(q) => Status(StatusName(q.status))
  }

  // ---- The administrator's listing ----

  /** The query value as bound: absent means the default "Pending"; an empty or blank
      value binds as null. */
  function BoundStatus(query: Option<string>): (s: Option<string>)
    ensures query.None? ==> s == Some("Pending")
    ensures query.Some? ==> (s.None? <==> IsNullOrWhiteSpace(query)) && (s.Some? ==> s == query)
  {
    match query
    case None => Some("Pending")
    case Some(v) => if IsNullOrWhiteSpace(query) then None else Some(v)
  }

  /** The status a query value selects, compared after lower-casing; any other value,
      or null, selects nothing and lists every request. */
  function ParseStatusFilter(status: Option<string>): (f: Option<PremiumRequestStatus>)
    ensures forall s :: f == Some(s) <==> status.Some? && ToLower(status.value) == ToLower(StatusName(s))
  {
    if status.None? then None
    else
      var v := ToLower(status.value);
      if v == "pending" then Some(Pending)
      else if v == "approved" then Some(Approved)
      else if v == "denied" then Some(Denied)
      else None
  }

  /** Every status name selects its own status, in any letter case; the default selects
      the pending requests and a missing value selects all. */
  lemma ParseStatusName(s: PremiumRequestStatus, v: string)
    requires ToLower(v) == ToLower(StatusName(s))
    ensures ParseStatusFilter(Some(StatusName(s))) == Some(s)
    ensures ParseStatusFilter(Some(v)) == Some(s)
    ensures ParseStatusFilter(BoundStatus(None)) == Some(Pending)
    ensures ParseStatusFilter(BoundStatus(Some(""))) == None
  {
  }

  predicate Selected(q: PremiumRequest, f: Option<PremiumRequestStatus>) {
    f.None? || q.status == f.value
  }

  /** The requests the filter selects, in table order. */
  function FilterByStatus(rs: seq<PremiumRequest>, f: Option<PremiumRequestStatus>): (r: seq<PremiumRequest>)
    ensures forall q :: multiset(r)[q] == if Selected(q, f) then multiset(rs)[q] else 0
  {
    if rs == [] then []
    else
      var init, last := rs[..|rs| - 1], rs[|rs| - 1];
      assert rs == init + [last];
      FilterByStatus(init, f) + (if Selected(last, f) then [last] else [])
  }

  /** The listing order: status ascending, then creation time descending. */
  predicate Before(a: PremiumRequest, b: PremiumRequest) {
    StatusValue(a.status) < StatusValue(b.status)
    || (StatusValue(a.status) == StatusValue(b.status) && a.createdUtc >= b.createdUtc)
  }

  predicate Ordered(s: seq<PremiumRequest>) {
    forall i, j :: 0 <= i < j < |s| ==> Before(s[i], s[j])
  }

  function Insert(x: PremiumRequest, s: seq<PremiumRequest>): (r: seq<PremiumRequest>)
    ensures multiset(r) == multiset(s) + multiset{x}
  {
    if s == [] then [x]
    else if Before(x, s[0]) then [x] + s
    else
      assert s == [s[0]] + s[1..];
      [s[0]] + Insert(x, s[1..])
  }

  lemma {:induction false} InsertOrdered(x: PremiumRequest, s: seq<PremiumRequest>)
    requires Ordered(s)
    ensures Ordered(Insert(x, s))
  {
    if s != [] && !Before(x, s[0]) {
      var rest := Insert(x, s[1..]);
      InsertOrdered(x, s[1..]);
      forall y | y in rest
        ensures Before(s[0], y)
      {
        assert multiset(rest)[y] > 0;
        if y != x {
          assert y in s[1..];
        }
      }
      assert Insert(x, s) == [s[0]] + rest;
    }
  }

  /** The requests in listing order: the same requests, ordered. */
  function SortForListing(s: seq<PremiumRequest>): (r: seq<PremiumRequest>)
    ensures multiset(r) == multiset(s)
  {
    if s == [] then []
    else
      assert s == s[..|s| - 1] + [s[|s| - 1]];
      Insert(s[|s| - 1], SortForListing(s[..|s| - 1]))
  }

  lemma {:induction false} SortOrdered(s: seq<PremiumRequest>)
    ensures Ordered(SortForListing(s))
  {
    if s != [] {
      SortOrdered(s[..|s| - 1]);
      InsertOrdered(s[|s| - 1], SortForListing(s[..|s| - 1]));
    }
  }

  /** One line of the listing; the status is written as its name. */
  datatype RequestRow = RequestRow(id: int, email: string, status: string, createdUtc: int)

  function Row(q: PremiumRequest): RequestRow {
    RequestRow(q.id, q.email, StatusName(q.status), q.createdUtc)
  }

  /** The position of a status name in the listing order. */
  function NameRank(name: string): nat {
    if name == "Pending" then 0 else if name == "Approved" then 1 else 2
  }

  predicate RowBefore(a: RequestRow, b: RequestRow) {
    NameRank(a.status) < NameRank(b.status)
    || (NameRank(a.status) == NameRank(b.status) && a.createdUtc >= b.createdUtc)
  }

  function Rows(s: seq<PremiumRequest>): (r: seq<RequestRow>)
    ensures |r| == |s| && forall i :: 0 <= i < |s| ==> r[i] == Row(s[i])
  {
    seq(|s|, i requires 0 <= i < |s| => Row(s[i]))
  }

  /** Sorting for the listing keeps the selected requests and nothing else. */
  lemma ListingMembers(rs: seq<PremiumRequest>, f: Option<PremiumRequestStatus>)
    ensures var sorted := SortForListing(FilterByStatus(rs, f));
      && |sorted| == |FilterByStatus(rs, f)|
      && forall q :: q in sorted <==> q in rs && Selected(q, f)
  {
    var selected := FilterByStatus(rs, f);
    var sorted := SortForListing(selected);
    assert |multiset(sorted)| == |multiset(selected)|;
    forall q
      ensures q in sorted <==> q in rs && Selected(q, f)
    {
      assert q in sorted <==> multiset(sorted)[q] > 0;
      assert q in rs <==> multiset(rs)[q] > 0;
    }
  }

  /** Every selected request has its row in the listing. */
  lemma ListingComplete(rs: seq<PremiumRequest>, f: Option<PremiumRequestStatus>, q: PremiumRequest)
    requires q in rs && Selected(q, f)
    ensures Row(q) in Rows(SortForListing(FilterByStatus(rs, f)))
  {
    ListingMembers(rs, f);
    RowOfMember(SortForListing(FilterByStatus(rs, f)), q);
  }

  lemma RowOfMember(s: seq<PremiumRequest>, q: PremiumRequest)
    requires q in s
    ensures Row(q) in Rows(s)
  {
    var i :| 0 <= i < |s| && s[i] == q;
    assert Rows(s)[i] == Row(q);
  }

  /** Every row of the listing is the row of a selected request. */
  lemma ListingSound(rs: seq<PremiumRequest>, f: Option<PremiumRequestStatus>, i: nat)
    requires i < |Rows(SortForListing(FilterByStatus(rs, f)))|
    ensures exists k :: 0 <= k < |rs| && Selected(rs[k], f) && Rows(SortForListing(FilterByStatus(rs, f)))[i] == Row(rs[k])
  {
    var sorted := SortForListing(FilterByStatus(rs, f));
    ListingMembers(rs, f);
    assert sorted[i] in sorted;
    var k :| 0 <= k < |rs| && rs[k] == sorted[i];
    assert Rows(sorted)[i] == Row(rs[k]);
  }

  /** The rows of the listing are the rows of the selected requests, one per request. */
  lemma ListingRows(rs: seq<PremiumRequest>, f: Option<PremiumRequestStatus>)
    ensures var r := Rows(SortForListing(FilterByStatus(rs, f)));
      && |r| == |FilterByStatus(rs, f)|
      && (forall q :: q in rs && Selected(q, f) ==> Row(q) in r)
      && (forall i :: 0 <= i < |r| ==> exists k :: 0 <= k < |rs| && Selected(rs[k], f) && r[i] == Row(rs[k]))
  {
    ListingMembers(rs, f);
    forall q | q in rs && Selected(q, f)
      ensures Row(q) in Rows(SortForListing(FilterByStatus(rs, f)))
    {
      ListingComplete(rs, f, q);
    }
    forall i | 0 <= i < |Rows(SortForListing(FilterByStatus(rs, f)))|
      ensures exists k :: 0 <= k < |rs| && Selected(rs[k], f) && Rows(SortForListing(FilterByStatus(rs, f)))[i] == Row(rs[k])
    {
      ListingSound(rs, f, i);
    }
  }

  /** The rows of the listing are in listing order. */
  lemma ListingOrder(s: seq<PremiumRequest>)
    ensures var r := Rows(SortForListing(s));
      forall i, j :: 0 <= i < j < |r| ==> RowBefore(r[i], r[j])
  {
    var sorted := SortForListing(s);
    var r := Rows(sorted);
    SortOrdered(s);
    forall i, j | 0 <= i < j < |r|
      ensures RowBefore(r[i], r[j])
    {
      assert Before(sorted[i], sorted[j]);
      assert NameRank(StatusName(sorted[i].status)) == StatusValue(sorted[i].status);
      assert NameRank(StatusName(sorted[j].status)) == StatusValue(sorted[j].status);
    }
  }

  lemma RowsAppend(a: seq<PremiumRequest>, b: seq<PremiumRequest>)
    ensures Rows(a + b) == Rows(a) + Rows(b)
  {
  }

  /** Inserting a request adds its row to the rows, as a multiset. */
  lemma {:induction false} InsertRows(x: PremiumRequest, s: seq<PremiumRequest>)
    ensures multiset(Rows(Insert(x, s))) == multiset(Rows(s)) + multiset{Row(x)}
  {
    if s == [] {
      assert Rows([x]) == [Row(x)];
    } else if Before(x, s[0]) {
      RowsAppend([x], s);
      assert Rows([x]) == [Row(x)];
    } else {
      assert s == [s[0]] + s[1..];
      InsertRows(x, s[1..]);
      RowsAppend([s[0]], Insert(x, s[1..]));
      RowsAppend([s[0]], s[1..]);
    }
  }

  /** Sorting for the listing permutes the rows. */
  lemma {:induction false} SortRows(s: seq<PremiumRequest>)
    ensures multiset(Rows(SortForListing(s))) == multiset(Rows(s))
  {
    if s != [] {
      var init, last := s[..|s| - 1], s[|s| - 1];
      assert s == init + [last];
      SortRows(init);
      InsertRows(last, SortForListing(init));
      RowsAppend(init, [last]);
      assert Rows([last]) == [Row(last)];
    }
  }

  /** GET /api/purchase/requests: one row per selected request, status ascending, newest
      first within a status; the rows are those of the selected requests, rearranged. */
  function Requests(db: Backend, status: Option<string>): (r: seq<RequestRow>)
    reads db`requests
    ensures |r| == |FilterByStatus(db.requests, ParseStatusFilter(status))|
    ensures forall q :: q in db.requests && Selected(q, ParseStatusFilter(status)) ==> Row(q) in r
    ensures forall i :: 0 <= i < |r| ==>
              exists k :: 0 <= k < |db.requests| && Selected(db.requests[k], ParseStatusFilter(status)) && r[i] == Row(db.requests[k])
    ensures forall i, j :: 0 <= i < j < |r| ==> RowBefore(r[i], r[j])
    ensures multiset(r) == multiset(Rows(FilterByStatus(db.requests, ParseStatusFilter(status))))
  {
    ListingRows(db.requests, ParseStatusFilter(status));
    SortRows(FilterByStatus(db.requests, ParseStatusFilter(status)));
    ListingOrder(FilterByStatus(db.requests, ParseStatusFilter(status)));
    Rows(SortForListing(FilterByStatus(db.requests, ParseStatusFilter(status))))
  }

  // ---- Reviews ----

  /** A request after a review: the new status, the review time and the reviewer's name. */
  function Review(q: PremiumRequest, status: PremiumRequestStatus, reviewer: Option<string>, now: int): (r: PremiumRequest)
    ensures r.status == status && r.reviewedUtc == Some(now) && r.reviewedByUserId == reviewer
    ensures r.id == q.id && r.userId == q.userId && r.email == q.email && r.createdUtc == q.createdUtc && r.notes == q.notes
  {
    q.(status := status, reviewedUtc := Some(now), reviewedByUserId := reviewer)
  }

  /** The request table after a review of request `k` to `status`: a request that already
      has that status is left as it is. */
  function Reviewed(rs: seq<PremiumRequest>, k: nat, status: PremiumRequestStatus, reviewer: Option<string>, now: int): (r: seq<PremiumRequest>)
    requires k < |rs|
    ensures |r| == |rs| && forall i :: 0 <= i < |rs| && i != k ==> r[i] == rs[i]
    ensures rs[k].status == status ==> r == rs
    ensures rs[k].status != status ==> r[k] == Review(rs[k], status, reviewer, now)
    ensures r[k].status == status
  {
    if rs[k].status != status then rs[k := Review(rs[k], status, reviewer, now)] else rs
  }

  /** Reviewing twice to the same status is reviewing once. */
  lemma ReviewIdempotent(rs: seq<PremiumRequest>, k: nat, status: PremiumRequestStatus,
                         reviewer: Option<string>, reviewer': Option<string>, now: int, now': int)
    requires k < |rs|
    ensures var once := Reviewed(rs, k, status, reviewer, now);
            Reviewed(once, k, status, reviewer', now') == once
  {
  }

  /** POST /api/purchase/approve/{id}: unknown request or missing user answers NotFound and
      changes nothing; otherwise the request is approved (unless it already was) and the
      user ends up in the "Premium" role. The reviewer is the caller's name. */
  method Approve(db: Backend, admin: Principal, id: int, now: int) returns (reply: Reply)
    requires db.Valid()
    modifies db`requests, db`userRoles
    ensures db.Valid()
    ensures reply == if old(db.FindRequest(id)).None? then NotFound(None)
                     else if db.FindById(old(db.requests)[old(db.FindRequest(id)).value].userId).None? then NotFound(Some("User missing"))
                     else Done
    ensures !reply.Done? ==> db.requests == old(db.requests) && db.userRoles == old(db.userRoles)
    ensures db.FindRequest(id) == old(db.FindRequest(id))
    ensures reply.Done? ==>
      var k := old(db.FindRequest(id)).value;
      var userId := old(db.requests)[k].userId;
      && db.FindById(userId).Some?
      && db.requests == Reviewed(old(db.requests), k, Approved, Name(admin), now)
      && db.userRoles == old(db.userRoles) + (if old(db.IsInRole(userId, PremiumRole)) then [] else [UserRole(userId, PremiumRole)])
      && db.IsInRole(userId, PremiumRole)
  {
    var k := db.FindRequest(id);
    if k.None? {
      return NotFound(None);
    }
    var req := db.requests[k.value];
    var user := db.FindById(req.userId);
    if user.None? {
      return NotFound(Some("User missing"));
    }
    if req.status != Approved {
      db.SaveRequest(k.value, Review(req, Approved, Name(admin), now));
    }
    assert db.requests == Reviewed(old(db.requests), k.value, Approved, Name(admin), now);
    if !db.IsInRole(user.value.id, PremiumRole) {
      var _ := db.AddToRole(user.value.id, PremiumRole);
    }
    reply := Done;
  }

  /** POST /api/purchase/deny/{id}: unknown request answers NotFound; otherwise the request
      is denied (unless it already was). Roles are never touched. */
  method Deny(db: Backend, admin: Principal, id: int, now: int) returns (reply: Reply)
    requires db.Valid()
    modifies db`requests
    ensures db.Valid()
    ensures reply == (if old(db.FindRequest(id)).None? then NotFound(None) else Done)
    ensures reply.NotFound? ==> db.requests == old(db.requests)
    ensures reply.Done? ==> db.requests == Reviewed(old(db.requests), old(db.FindRequest(id)).value, Denied, Name(admin), now)
    ensures db.FindRequest(id) == old(db.FindRequest(id))
  {
    var k := db.FindRequest(id);
    if k.None? {
      return NotFound(None);
    }
    var req := db.requests[k.value];
    if req.status != Denied {
      db.SaveRequest(k.value, Review(req, Denied, Name(admin), now));
    }
    reply := Done;
  }

  /** Approving the same request twice: the second approval changes nothing, so the review
      time and reviewer of the first stay. */
  method ApproveTwice(db: Backend, admin: Principal, id: int, now: int, later: int)
    returns (first: Reply, second: Reply)
    requires db.Valid()
    modifies db`requests, db`userRoles
    ensures db.Valid()
    ensures first == second
    ensures first.Done? ==> old(db.FindRequest(id)).Some? && db.requests == Reviewed(old(db.requests), old(db.FindRequest(id)).value, Approved, Name(admin), now)
  {
    first := Approve(db, admin, id, now);
    ghost var requests, userRoles := db.requests, db.userRoles;
    second := Approve(db, admin, id, later);
    if first.Done? {
      assert db.requests == requests && db.userRoles == userRoles;
    }
  }

  /** Denying a request after approving it leaves the user premium, and "my-request" then
      still answers "Approved". */
  method ApproveThenDeny(db: Backend, admin: Principal, user: Principal, id: int, now: int, later: int)
    returns (approved: Reply, denied: Reply)
    requires db.Valid()
    requires db.CurrentUser(user).Some?
    requires db.FindRequest(id).Some? && db.requests[db.FindRequest(id).value].userId == db.CurrentUser(user).value.id
    modifies db`requests, db`userRoles
    ensures db.Valid()
    ensures approved == Done && denied == Done
    ensures db.requests == Reviewed(Reviewed(old(db.requests), old(db.FindRequest(id)).value, Approved, Name(admin), now),
                                    old(db.FindRequest(id)).value, Denied, Name(admin), later)
    ensures MyRequest(db, user) == Status("Approved")
  {
    ghost var u := db.CurrentUser(user).value;
    assert db.FindById(u.id).Some?;
    approved := Approve(db, admin, id, now);
    assert db.IsInRole(u.id, PremiumRole);
    denied := Deny(db, admin, id, later);
    assert db.CurrentUser(user) == Some(u) && db.IsInRole(u.id, PremiumRole);
  }

  /** POST /api/purchase/demo: puts the caller in the "Premium" role; a caller who already
      holds it gets the role store's error. */
  method DemoPurchase(db: Backend, p: Principal) returns (reply: Reply)
    requires db.Valid()
    modifies db`userRoles
    ensures db.Valid()
    ensures db.CurrentUser(p).None? ==> reply == Unauthorized && db.userRoles == old(db.userRoles)
    ensures db.CurrentUser(p).Some? ==>
      var userId := db.CurrentUser(p).value.id;
      && db.IsInRole(userId, PremiumRole)
      && (old(db.IsInRole(userId, PremiumRole)) ==> reply == BadRequest([UserAlreadyInRole(PremiumRole)]) && db.userRoles == old(db.userRoles))
      && (!old(db.IsInRole(userId, PremiumRole)) ==> reply == Done && db.userRoles == old(db.userRoles) + [UserRole(userId, PremiumRole)])
  {
    var user := db.CurrentUser(p);
    if user.None? {
      return Unauthorized;
    }
    var succeeded := db.AddToRole(user.value.id, PremiumRole);
    if !succeeded {
      return BadRequest([UserAlreadyInRole(PremiumRole)]);
    }
    reply := Done;
  }
}
