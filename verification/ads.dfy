/**
 * The advertisement board (server/controllers/adController.js). The Ad
 * schema file is not part of this model: its fields are the ones the
 * handlers read and write, with no validator assumed, and `isActive` is
 * taken to default to true.
 */
module Ads {
  import opened Common
  import opened Queries
  import Uploads

  datatype Ad = Ad(
    id: Id,
    title: Option<string>,
    description: Option<string>,
    imageUrl: string,
    link: Option<string>,
    order: int,
    isActive: bool,
    createdAt: Time)

  const DefaultActive: bool := true

  /** `.sort({ order: 1, createdAt: -1 })`: lower `order` first, newer first among equal `order`. */
  function AdOrder(): (Ad, Ad) -> bool {
    (a: Ad, b: Ad) => a.order < b.order || (a.order == b.order && a.createdAt >= b.createdAt)
  }

  lemma AdOrderIsTotalPreorder()
    ensures TotalPreorder(AdOrder())
  {
    var le := AdOrder();
    forall a: Ad, b: Ad, c: Ad | le(a, b) && le(b, c) ensures le(a, c) {
    }
  }

  /** The fields an update may carry; a supplied field, even "", replaces the stored one. */
  datatype AdPatch = AdPatch(
    title: Option<string>,
    description: Option<string>,
    link: Option<string>,
    order: Option<int>,
    isActive: Option<bool>,
    file: Option<string>)

  /** `updateAd` once the ad is found: each supplied field is assigned, a new upload replaces the image. */
  function Apply(a: Ad, p: AdPatch): (r: Ad)
    ensures r.id == a.id && r.createdAt == a.createdAt
    ensures SetOptionalPath(p.title, a.title, r.title)
    ensures SetOptionalPath(p.description, a.description, r.description)
    ensures SetOptionalPath(p.link, a.link, r.link)
    ensures SetPath(p.order, a.order, r.order)
    ensures SetPath(p.isActive, a.isActive, r.isActive)
    ensures p.file.None? ==> r.imageUrl == a.imageUrl
    ensures p.file.Some? ==> r.imageUrl == Uploads.UploadDir + p.file.value
  {
    a.(title := SetOptionalValue(p.title, a.title),
       description := SetOptionalValue(p.description, a.description),
       link := SetOptionalValue(p.link, a.link),
       order := SetValue(p.order, a.order),
       isActive := SetValue(p.isActive, a.isActive),
       imageUrl := if p.file.Some? then Uploads.UploadDir + p.file.value else a.imageUrl)
  }

  /** Updating twice with the same fields is updating once. */
  lemma ApplyIdempotent(a: Ad, p: AdPatch)
    ensures Apply(Apply(a, p), p) == Apply(a, p)
  {
  }

  /** An update that supplies nothing and uploads nothing leaves the ad as it was. */
  lemma ApplyNothing(a: Ad)
    ensures Apply(a, AdPatch(None, None, None, None, None, None)) == a
  {
  }

  /** `toggleAdStatus` once the ad is found. */
  function Toggle(a: Ad): (r: Ad)
    ensures r.isActive != a.isActive
    ensures r.(isActive := a.isActive) == a
  {
    a.(isActive := !a.isActive)
  }

  lemma ToggleTwice(a: Ad)
    ensures Toggle(Toggle(a)) == a
  {
  }

  predicate IdFree(ads: seq<Ad>, id: Id) {
    forall i :: 0 <= i < |ads| ==> ads[i].id != id
  }

  function IndexOfId(ads: seq<Ad>, id: Id): (r: Option<nat>)
    ensures r.Some? ==> r.value < |ads| && ads[r.value].id == id
    ensures r.None? <==> IdFree(ads, id)
  {
    Find(ads, (a: Ad) => a.id == id)
  }

  class AdBoard {
    var ads: seq<Ad>

    ghost predicate Valid()
      reads this
    {
      UniqueBy(ads, (a: Ad) => a.id)
    }

    constructor ()
      ensures Valid() && ads == []
    {
      ads := [];
    }

    /** `getAllAds`: every ad, by `order` and then newest first. */
    function ListAll(): (r: seq<Ad>)
      reads this
      ensures multiset(r) == multiset(ads)
      ensures SortedBy(r, AdOrder())
    {
      AdOrderIsTotalPreorder();
      SortBy(ads, AdOrder())
    }

    /** `getActiveAds`: exactly the active ads, in the same ordering. */
    function ListActive(): (r: seq<Ad>)
      reads this
      ensures forall a :: a in r <==> a in ads && a.isActive
      ensures forall a :: multiset(r)[a] == if a.isActive then multiset(ads)[a] else 0
      ensures SortedBy(r, AdOrder())
    {
      var active := Filter(ads, (a: Ad) => a.isActive);
      FilterCounts(ads, (a: Ad) => a.isActive);
      AdOrderIsTotalPreorder();
      var sorted := SortBy(active, AdOrder());
      SameMembers(sorted, active);
      sorted
    }

    /** `getAdById`: a malformed id fails the cast (500), an unknown one is 404. */
    function Get(id: Id): (r: (Status, Option<Ad>))
      reads this
      ensures r.0 in {200, 404, 500}
      ensures r.0 == 500 <==> !IsObjectId(id)
      ensures r.0 == 404 <==> IsObjectId(id) && IdFree(ads, id)
      ensures r.1.Some? <==> r.0 == 200
      ensures r.1.Some? ==> r.1.value in ads && r.1.value.id == id
    {
      if !IsObjectId(id) then (500, None)
      else
        var i := IndexOfId(ads, id);
        if i.None? then (404, None) else (200, Some(ads[i.value]))
    }

    /** `createAd`: 400 without an image; else the ad is stored with `order || 0` and the default activity. */
    method Create(title: Option<string>, description: Option<string>, link: Option<string>, order: Option<int>,
                  file: Option<string>, id: Id, now: Time) returns (status: Status)
      requires Valid() && IdFree(ads, id)
      modifies this
      ensures Valid()
      ensures status in {201, 400}
      ensures status == 400 <==> file.None?
      ensures status == 201 ==> ads == old(ads) + [Ad(id, title, description, Uploads.UploadDir + file.value, link,
        order.GetOr(0), DefaultActive, now)]
      ensures status == 400 ==> ads == old(ads)
    {
      if file.None? {
        return 400;
      }
      ads := ads + [Ad(id, title, description, Uploads.UploadDir + file.value, link, order.GetOr(0), DefaultActive, now)];
      status := 201;
    }

    /** `updateAd`: 500 for a malformed id, 404 for an unknown one, else the supplied fields are assigned. */
    method Update(id: Id, patch: AdPatch) returns (status: Status)
      requires Valid()
      modifies this
      ensures Valid()
      ensures status in {200, 404, 500}
      ensures status == 500 <==> !IsObjectId(id)
      ensures status == 404 <==> IsObjectId(id) && IdFree(old(ads), id)
      ensures status == 200 ==> var i := IndexOfId(old(ads), id).value; ads == old(ads)[i := Apply(old(ads)[i], patch)]
      ensures status != 200 ==> ads == old(ads)
    {
      if !IsObjectId(id) {
        return 500;
      }
      var found := IndexOfId(ads, id);
      if found.None? {
        return 404;
      }
      var i := found.value;
      ads := ads[i := Apply(ads[i], patch)];
      status := 200;
    }

    /** `toggleAdStatus`: 500 / 404 as above, else the one ad flips. */
    method ToggleStatus(id: Id) returns (status: Status)
      requires Valid()
      modifies this
      ensures Valid()
      ensures status in {200, 404, 500}
      ensures status == 500 <==> !IsObjectId(id)
      ensures status == 404 <==> IsObjectId(id) && IdFree(old(ads), id)
      ensures status == 200 ==> var i := IndexOfId(old(ads), id).value; ads == old(ads)[i := Toggle(old(ads)[i])]
      ensures status != 200 ==> ads == old(ads)
    {
      if !IsObjectId(id) {
        return 500;
      }
      var found := IndexOfId(ads, id);
      if found.None? {
        return 404;
      }
      var i := found.value;
      ads := ads[i := Toggle(ads[i])];
      status := 200;
    }

    /** `deleteAd`: 500 / 404 as above, else only that ad goes. */
    method Delete(id: Id) returns (status: Status)
      requires Valid()
      modifies this
      ensures Valid()
      ensures status in {200, 404, 500}
      ensures status == 500 <==> !IsObjectId(id)
      ensures status == 404 <==> IsObjectId(id) && IdFree(old(ads), id)
      ensures status == 200 ==> var i := IndexOfId(old(ads), id).value; ads == old(ads)[..i] + old(ads)[i + 1..]
      ensures status != 200 ==> ads == old(ads)
    {
      if !IsObjectId(id) {
        return 500;
      }
      var found := IndexOfId(ads, id);
      if found.None? {
        return 404;
      }
      var i := found.value;
      ads := ads[..i] + ads[i + 1..];
      status := 200;
    }
  }
}
