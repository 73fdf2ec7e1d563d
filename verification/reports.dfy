/**
 * Bug and hazard reports: the Report schema (server/models/Report.js) and
 * its handlers (server/controllers/reportController.js). A report names its
 * reporter by user id, so submitting consults the users collection.
 */
module Reports {
  import opened Common
  import opened Queries
  import Uploads
  import UserAccounts

  datatype ReportKind = App | Station

  function KindName(k: ReportKind): string {
    match k
    case App => "app"
    case Station => "station"
  }

  datatype Report = Report(
    id: Id,
    reporter: Id,
    kind: ReportKind,
    subject: Option<string>,
    description: string,
    rating: Option<int>,
    stationLocation: Option<string>,
    media: seq<string>,
    createdAt: Time)

  const MinRating: int := 1
  const MaxRating: int := 5

  /** The schema: a reporter and a description are required; a rating, when present, lies in 1..5. */
  predicate ValidReport(r: Report) {
    IsObjectId(r.reporter) && r.description != "" && (r.rating.Some? ==> MinRating <= r.rating.value <= MaxRating)
  }

  /**
   * The `rating` field of an app-bug form: absent or "" (falsy, so no rating
   * is stored), a numeric text with its `Number` value, or a text that is
   * not a number.
   */
  datatype RatingInput = NoRating | Numeric(value: int) | NotANumber

  /** The rating an app report is stored with, or None when the schema refuses it. */
  function StoredRating(rating: RatingInput): (r: Option<Option<int>>)
    ensures r.Some? <==> rating.NoRating? || (rating.Numeric? && MinRating <= rating.value <= MaxRating)
    ensures r.Some? && rating.NoRating? ==> r.value.None?
    ensures r.Some? && rating.Numeric? ==> r.value == Some(rating.value)
  {
    match rating
    case NoRating => Some(None)
    case Numeric(v) => if MinRating <= v <= MaxRating then Some(Some(v)) else None
    case NotANumber => None
  }

  predicate IdFree(rs: seq<Report>, id: Id) {
    forall i :: 0 <= i < |rs| ==> rs[i].id != id
  }

  function IndexOfId(rs: seq<Report>, id: Id): (r: Option<nat>)
    ensures r.Some? ==> r.value < |rs| && rs[r.value].id == id
    ensures r.None? <==> IdFree(rs, id)
  {
    Find(rs, (x: Report) => x.id == id)
  }

  function CreatedAt(r: Report): int {
    r.createdAt
  }

  class ReportDesk {
    var reports: seq<Report>

    ghost predicate Valid()
      reads this
    {
      (forall i :: 0 <= i < |reports| ==> ValidReport(reports[i])) && UniqueBy(reports, (r: Report) => r.id)
    }

    constructor ()
      ensures Valid() && reports == []
    {
      reports := [];
    }

    /**
     * `submitAppBug`, checking in this order: no user id (401), a malformed
     * one (500), an unknown user (404), no description (400), a rating the
     * schema refuses (500); else an "app" report is stored with the uploads.
     */
    method SubmitAppBug(users: UserAccounts.UserDirectory, userId: Option<string>, subject: Option<string>,
                        description: Option<string>, rating: RatingInput, files: Option<seq<string>>,
                        id: Id, now: Time) returns (status: Status)
      requires Valid() && IdFree(reports, id)
      modifies this
      ensures Valid()
      ensures status in {201, 400, 401, 404, 500}
      ensures status == 401 <==> !Truthy(userId)
      ensures status == 404 <==> Truthy(userId) && IsObjectId(userId.value) && UserAccounts.IdFree(users.users, userId.value)
      ensures status == 400 <==> (Truthy(userId) && IsObjectId(userId.value) && !UserAccounts.IdFree(users.users, userId.value)
        && !Truthy(description))
      ensures status == 201 <==> (Truthy(userId) && IsObjectId(userId.value) && !UserAccounts.IdFree(users.users, userId.value)
        && Truthy(description) && StoredRating(rating).Some?)
      ensures status == 201 ==> reports == old(reports) + [Report(id, userId.value, App, subject, description.value,
        StoredRating(rating).value, None, Uploads.MapFiles(files), now)]
      ensures status != 201 ==> reports == old(reports)
    {
      if !Truthy(userId) {
        return 401;
      }
      if !IsObjectId(userId.value) {
        return 500;
      }
      if UserAccounts.IndexOfId(users.users, userId.value).None? {
        return 404;
      }
      if !Truthy(description) {
        return 400;
      }
      var stored := StoredRating(rating);
      if stored.None? {
        return 500;
      }
      reports := reports + [Report(id, userId.value, App, subject, description.value, stored.value, None, Uploads.MapFiles(files), now)];
      status := 201;
    }

    /**
     * `submitStationHazard`: 401, 500 and 404 as for app bugs, then 400
     * unless both the location and the description are given; else a
     * "station" report is stored without a rating.
     */
    method SubmitStationHazard(users: UserAccounts.UserDirectory, userId: Option<string>, stationLocation: Option<string>,
                               description: Option<string>, files: Option<seq<string>>,
                               id: Id, now: Time) returns (status: Status)
      requires Valid() && IdFree(reports, id)
      modifies this
      ensures Valid()
      ensures status in {201, 400, 401, 404, 500}
      ensures status == 401 <==> !Truthy(userId)
      ensures status == 500 <==> Truthy(userId) && !IsObjectId(userId.value)
      ensures status == 404 <==> Truthy(userId) && IsObjectId(userId.value) && UserAccounts.IdFree(users.users, userId.value)
      ensures status == 201 <==> (Truthy(userId) && IsObjectId(userId.value) && !UserAccounts.IdFree(users.users, userId.value)
        && Truthy(stationLocation) && Truthy(description))
      ensures status == 201 ==> reports == old(reports) + [Report(id, userId.value, Station, None, description.value,
        None, stationLocation, Uploads.MapFiles(files), now)]
      ensures status != 201 ==> reports == old(reports)
    {
      if !Truthy(userId) {
        return 401;
      }
      if !IsObjectId(userId.value) {
        return 500;
      }
      if UserAccounts.IndexOfId(users.users, userId.value).None? {
        return 404;
      }
      if !Truthy(stationLocation) || !Truthy(description) {
        return 400;
      }
      reports := reports + [Report(id, userId.value, Station, None, description.value, None, stationLocation, Uploads.MapFiles(files), now)];
      status := 201;
    }

    /**
     * The per-user listings: 401 without a user id, 500 for a malformed one,
     * else exactly that reporter's reports of that kind, newest first.
     */
    function ReportsOf(userId: Option<string>, kind: ReportKind): (r: (Status, seq<Report>))
      reads this
      ensures r.0 in {200, 401, 500}
      ensures r.0 == 401 <==> !Truthy(userId)
      ensures r.0 == 500 <==> Truthy(userId) && !IsObjectId(userId.value)
      ensures r.0 != 200 ==> r.1 == []
      ensures r.0 == 200 ==> forall x :: x in r.1 <==> x in reports && x.reporter == userId.value && x.kind == kind
      ensures r.0 == 200 ==> forall x :: multiset(r.1)[x] == if x.reporter == userId.value && x.kind == kind then multiset(reports)[x] else 0
      ensures r.0 == 200 ==> SortedBy(r.1, NewestFirst(CreatedAt))
    {
      if !Truthy(userId) then (401, [])
      else if !IsObjectId(userId.value) then (500, [])
      else
        var mine := Filter(reports, (x: Report) => x.reporter == userId.value && x.kind == kind);
        FilterCounts(reports, (x: Report) => x.reporter == userId.value && x.kind == kind);
        NewestFirstIsTotalPreorder(CreatedAt);
        var sorted := SortBy(mine, NewestFirst(CreatedAt));
        SameMembers(sorted, mine);
        (200, sorted)
    }

    /** `getAllReports`: every report, newest first. */
    function AllReports(): (r: seq<Report>)
      reads this
      ensures multiset(r) == multiset(reports)
      ensures SortedBy(r, NewestFirst(CreatedAt))
    {
      NewestFirstIsTotalPreorder(CreatedAt);
      SortBy(reports, NewestFirst(CreatedAt))
    }

    /** `deleteReport`: 500 for a malformed id, 404 for an unknown one, else only that report goes. */
    method Delete(id: Id) returns (status: Status)
      requires Valid()
      modifies this
      ensures Valid()
      ensures status in {200, 404, 500}
      ensures status == 500 <==> !IsObjectId(id)
      ensures status == 404 <==> IsObjectId(id) && IdFree(old(reports), id)
      ensures status == 200 ==>
        var i := IndexOfId(old(reports), id).value; reports == old(reports)[..i] + old(reports)[i + 1..]
      ensures status != 200 ==> reports == old(reports)
    {
      if !IsObjectId(id) {
        return 500;
      }
      var found := IndexOfId(reports, id);
      if found.None? {
        return 404;
      }
      var i := found.value;
      reports := reports[..i] + reports[i + 1..];
      status := 200;
    }
  }
}
