/**
 * The persisted records of the workflow: resources, premium requests and
 * their status, and the user record of the identity store.
 * Times are whole seconds.
 */
module Entities {
  import opened Wrappers

  /** A link shown to users; `isPremium` decides which list it appears in. */
  datatype ResourceItem = ResourceItem(id: int, title: string, url: string, isPremium: bool)

  /** A resource as constructed before any property is set: empty title and url, not premium. */
  function NewResourceItem(): (r: ResourceItem)
    ensures r.title == "" && r.url == "" && !r.isPremium
  {
    ResourceItem(0, "", "", false)
  }

  datatype PremiumRequestStatus = Pending | Approved | Denied

  /** The enum's underlying value; the admin listing sorts by it. */
  function StatusValue(s: PremiumRequestStatus): (v: nat)
  {
    match s
    case Pending => 0
    case Approved => 1
    case Denied => 2
  }

  /** `Status.ToString()`. */
  function StatusName(s: PremiumRequestStatus): string
  {
    match s
    case Pending => "Pending"
    case Approved => "Approved"
    case Denied => "Denied"
  }

  /** The three statuses are ordered Pending < Approved < Denied, by distinct values 0, 1, 2. */
  lemma StatusOrder(s: PremiumRequestStatus, t: PremiumRequestStatus)
    ensures StatusValue(Pending) < StatusValue(Approved) < StatusValue(Denied)
    ensures StatusValue(s) <= 2
    ensures StatusValue(s) == StatusValue(t) <==> s == t
    ensures StatusName(s) == StatusName(t) <==> s == t
  {
  }

  /** One request for premium access, with the optional review fields. */
  datatype PremiumRequest = PremiumRequest(
    id: int,
    userId: string,
    email: string,
    createdUtc: int,
    status: PremiumRequestStatus,
    reviewedByUserId: Option<string>,
    reviewedUtc: Option<int>,
    notes: Option<string>)

  /** A request as the object initializer of a new submission builds it: the
      status starts Pending and nothing about a review is set. */
  function NewPremiumRequest(id: int, userId: string, email: string, createdUtc: int, notes: Option<string>): (r: PremiumRequest)
    ensures r.status == Pending && r.reviewedByUserId.None? && r.reviewedUtc.None?
    ensures r.id == id && r.userId == userId && r.email == email && r.createdUtc == createdUtc && r.notes == notes
  {
    PremiumRequest(id, userId, email, createdUtc, Pending, None, None, notes)
  }

  /** A user of the identity store. `passwordHash` is whatever the store's hasher produced. */
  datatype AppUser = AppUser(
    id: string,
    userName: Option<string>,
    email: Option<string>,
    displayName: Option<string>,
    passwordHash: string)
}
