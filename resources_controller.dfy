/**
 * The resource listings: the free list for everyone and the premium list
 * for callers who satisfy the premium policy. Both are read-only views of
 * the resource table, in table order.
 */
module ResourcesController {
  import opened Entities
  import opened Security
  import opened Store

  /** The transfer record of a resource: all four fields, copied. */
  datatype ResourceDto = ResourceDto(id: int, title: string, url: string, isPremium: bool)

  function ToDto(r: ResourceItem): (d: ResourceDto)
    ensures d.id == r.id && d.title == r.title && d.url == r.url && d.isPremium == r.isPremium
  {
    ResourceDto(r.id, r.title, r.url, r.isPremium)
  }

  function FromDto(d: ResourceDto): ResourceItem {
    ResourceItem(d.id, d.title, d.url, d.isPremium)
  }

  /** The transfer record loses nothing. */
  lemma DtoRoundTrip(r: ResourceItem, d: ResourceDto)
    ensures FromDto(ToDto(r)) == r
    ensures ToDto(FromDto(d)) == d
  {
  }

  /** The resources of one tier, in table order. */
  function Tier(rs: seq<ResourceItem>, premium: bool): (t: seq<ResourceItem>)
    ensures forall x :: multiset(t)[x] == if x.isPremium == premium then multiset(rs)[x] else 0
    ensures |t| <= |rs|
  {
    if rs == [] then []
    else
      var init, last := rs[..|rs| - 1], rs[|rs| - 1];
      assert rs == init + [last];
      Tier(init, premium) + (if last.isPremium == premium then [last] else [])
  }

  function Dtos(rs: seq<ResourceItem>): (ds: seq<ResourceDto>)
    ensures |ds| == |rs| && forall i :: 0 <= i < |rs| ==> ds[i] == ToDto(rs[i])
  {
    seq(|rs|, i requires 0 <= i < |rs| => ToDto(rs[i]))
  }

  /** The tier of a table lists exactly the table's resources of that tier. */
  lemma TierMembers(rs: seq<ResourceItem>, premium: bool)
    ensures forall x :: x in Tier(rs, premium) <==> x in rs && x.isPremium == premium
  {
    forall x
      ensures x in Tier(rs, premium) <==> x in rs && x.isPremium == premium
    {
      assert x in Tier(rs, premium) <==> multiset(Tier(rs, premium))[x] > 0;
      assert x in rs <==> multiset(rs)[x] > 0;
    }
  }

  /** The two tiers split the table: every resource is in exactly one of them, as often as
      it occurs in the table. */
  lemma TiersPartition(rs: seq<ResourceItem>)
    ensures multiset(Tier(rs, false)) + multiset(Tier(rs, true)) == multiset(rs)
    ensures |Tier(rs, false)| + |Tier(rs, true)| == |rs|
  {
    var a, b := multiset(Tier(rs, false)), multiset(Tier(rs, true));
    assert forall x :: (a + b)[x] == multiset(rs)[x];
    assert a + b == multiset(rs);
    assert |a + b| == |a| + |b|;
  }

  /** GET /api/resources/public: the non-premium resources. */
  function GetPublic(db: Backend): (r: seq<ResourceDto>)
    reads db`resources
    ensures forall d :: d in r ==> !d.isPremium
    ensures forall x :: x in db.resources && !x.isPremium ==> ToDto(x) in r
    ensures forall i :: 0 <= i < |r| ==> FromDto(r[i]) in db.resources
  {
    TierMembers(db.resources, false);
    var t := Tier(db.resources, false);
    var r := Dtos(t);
    assert forall i :: 0 <= i < |r| ==> FromDto(r[i]) == t[i];
    assert forall x :: x in t ==> ToDto(x) in r by {
      forall x | x in t ensures ToDto(x) in r {
        var i :| 0 <= i < |t| && t[i] == x;
        assert r[i] == ToDto(x);
      }
    }
    r
  }

  /** GET /api/resources/premium: the premium resources. */
  function GetPremium(db: Backend): (r: seq<ResourceDto>)
    reads db`resources
    ensures forall d :: d in r ==> d.isPremium
    ensures forall x :: x in db.resources && x.isPremium ==> ToDto(x) in r
    ensures forall i :: 0 <= i < |r| ==> FromDto(r[i]) in db.resources
  {
    TierMembers(db.resources, true);
    var t := Tier(db.resources, true);
    var r := Dtos(t);
    assert forall i :: 0 <= i < |r| ==> FromDto(r[i]) == t[i];
    assert forall x :: x in t ==> ToDto(x) in r by {
      forall x | x in t ensures ToDto(x) in r {
        var i :| 0 <= i < |t| && t[i] == x;
        assert r[i] == ToDto(x);
      }
    }
    r
  }

  /** Together the two listings have one entry per resource. */
  lemma ListingsCoverTable(db: Backend)
    ensures |GetPublic(db)| + |GetPremium(db)| == |db.resources|
  {
    TiersPartition(db.resources);
  }

  datatype Action = GetPublicAction | GetPremiumAction

  function Requirement(a: Action): Requirement {
    match a
    case GetPublicAction => Anyone
    case GetPremiumAction => PremiumPolicyRequirement
  }

  /** The free list needs no sign-in; the premium list needs the premium policy, and an
      anonymous caller is challenged for it. */
  lemma ResourceGates(p: Principal)
    ensures Authorize(p, Requirement(GetPublicAction)) == Allow
    ensures Authorize(p, Requirement(GetPremiumAction)) == Allow <==> PremiumPolicy(p)
    ensures Authorize(Anonymous, Requirement(GetPremiumAction)) == Challenge
  {
  }
}
