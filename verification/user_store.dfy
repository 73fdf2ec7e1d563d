/**
 * The users collection and every handler that reads or writes it:
 * accounts and favourites (server/controllers/userController.js,
 * server/routes/userRoutes.js), student verification
 * (server/controllers/studentVerificationController.js), the WiFi
 * subscription (server/controllers/wifiController.js) and notifications
 * (server/routes/notifications.js).
 */
module UserAccounts {
  import opened Common
  import opened Text
  import opened Queries
  import opened Users
  import Students
  import Wifi
  import Notifications

  predicate IdFree(us: seq<User>, id: Id) {
    forall i :: 0 <= i < |us| ==> us[i].id != id
  }

  predicate EmailFree(us: seq<User>, email: string) {
    forall i :: 0 <= i < |us| ==> us[i].email != email
  }

  function IndexOfId(us: seq<User>, id: Id): (r: Option<nat>)
    ensures r.Some? ==> r.value < |us| && us[r.value].id == id
    ensures r.None? <==> IdFree(us, id)
  {
    Find(us, (u: User) => u.id == id)
  }

  /** `findOne({ email })`: the query value goes through the same setters as the stored one. */
  function IndexOfEmail(us: seq<User>, email: string): (r: Option<nat>)
    ensures r.Some? ==> r.value < |us| && us[r.value].email == NormalizeEmail(email)
    ensures r.None? <==> EmailFree(us, NormalizeEmail(email))
  {
    Find(us, (u: User) => u.email == NormalizeEmail(email))
  }

  function MapView(us: seq<User>): (r: seq<UserView>)
    ensures |r| == |us| && forall i :: 0 <= i < |us| ==> r[i] == View(us[i])
  {
    seq(|us|, i requires 0 <= i < |us| => View(us[i]))
  }

  /** Whether the pending list takes a user or its view is the same question. */
  function IsPending(): User -> bool {
    (u: User) => u.studentStatus == PendingReview
  }

  function ViewIsPending(): UserView -> bool {
    (v: UserView) => v.studentStatus == PendingReview
  }

  lemma MapViewAppend(a: seq<User>, b: seq<User>)
    ensures MapView(a + b) == MapView(a) + MapView(b)
  {
    assert forall k :: 0 <= k < |a + b| ==> MapView(a + b)[k] == (MapView(a) + MapView(b))[k];
  }

  lemma MapViewTail(us: seq<User>)
    requires us != []
    ensures MapView(us)[0] == View(us[0]) && MapView(us)[1..] == MapView(us[1..])
  {
    assert forall k :: 0 <= k < |us| - 1 ==> MapView(us)[1..][k] == MapView(us[1..])[k];
  }

  /**
   * Filtering the users and then dropping passwords is dropping passwords and
   * then filtering the views: the pending list is the view list, filtered.
   */
  lemma {:induction false} MapViewFilter(us: seq<User>)
    ensures MapView(Filter(us, IsPending())) == Filter(MapView(us), ViewIsPending())
  {
    if us != [] {
      MapViewFilter(us[1..]);
      MapViewTail(us);
      var head := if IsPending()(us[0]) then [us[0]] else [];
      MapViewAppend(head, Filter(us[1..], IsPending()));
    }
  }

  /** The pending list: the views of the pending users, in store order. */
  function PendingViews(us: seq<User>): (r: seq<UserView>)
    ensures |r| <= |us|
    ensures forall v :: v in r ==> v.studentStatus == PendingReview
    ensures forall i :: 0 <= i < |us| && us[i].studentStatus == PendingReview ==> View(us[i]) in r
    ensures r == Filter(MapView(us), ViewIsPending())
    ensures forall v :: multiset(r)[v] == if v.studentStatus == PendingReview then multiset(MapView(us))[v] else 0
  {
    var all := MapView(us);
    MapViewFilter(us);
    FilterCounts(all, ViewIsPending());
    PendingMembers(us);
    MapView(Filter(us, IsPending()))
  }

  lemma PendingMembers(us: seq<User>)
    ensures forall i :: 0 <= i < |us| && us[i].studentStatus == PendingReview ==> View(us[i]) in Filter(MapView(us), ViewIsPending())
    ensures forall v :: v in Filter(MapView(us), ViewIsPending()) ==> v.studentStatus == PendingReview
  {
    var all := MapView(us);
    FilterCounts(all, ViewIsPending());
    forall i | 0 <= i < |us| && us[i].studentStatus == PendingReview
      ensures View(us[i]) in Filter(all, ViewIsPending())
    {
      assert all[i] == View(us[i]) && all[i] in multiset(all);
      assert multiset(Filter(all, ViewIsPending()))[View(us[i])] > 0;
    }
    forall v | v in Filter(all, ViewIsPending()) ensures v.studentStatus == PendingReview {
      assert multiset(Filter(all, ViewIsPending()))[v] > 0;
    }
  }

  /** Appending a valid user with a fresh id and a fresh, normalised e-mail keeps the directory's invariant. */
  lemma AppendKeepsDirectory(us: seq<User>, u: User)
    requires forall i :: 0 <= i < |us| ==> ValidUser(us[i]) && NormalizeEmail(us[i].email) == us[i].email
    requires UniqueBy(us, (v: User) => v.id) && UniqueBy(us, (v: User) => v.email)
    requires ValidUser(u) && NormalizeEmail(u.email) == u.email && IdFree(us, u.id) && EmailFree(us, u.email)
    ensures forall i :: 0 <= i < |us + [u]| ==> ValidUser((us + [u])[i]) && NormalizeEmail((us + [u])[i].email) == (us + [u])[i].email
    ensures UniqueBy(us + [u], (v: User) => v.id) && UniqueBy(us + [u], (v: User) => v.email)
  {
    var r := us + [u];
    assert forall i :: 0 <= i < |us| ==> r[i] == us[i];
  }

  /** The profile update: only `name`, `email`, `phone` and `password`; an absent one is left alone. */
  datatype UserPatch = UserPatch(name: Option<string>, email: Option<string>, phone: Option<string>, password: Option<string>)

  /** The update validators on the supplied fields, after the trim and lower-case setters. */
  predicate PatchAccepts(p: UserPatch) {
    && (p.name.Some? ==> Trim(p.name.value) != "")
    && (p.email.Some? ==> NormalizeEmail(p.email.value) != "")
    && (p.phone.Some? ==> Trim(p.phone.value) != "")
    && (p.password.Some? ==> |p.password.value| >= MinPasswordLength)
  }

  /** A supplied name or phone as the trimming setter stores it. */
  function Trimmed(o: Option<string>): (r: Option<string>)
    ensures r.Some? <==> o.Some?
    ensures o.Some? ==> r.value == Trim(o.value)
  {
    if o.Some? then Some(Trim(o.value)) else None
  }

  /** A supplied e-mail as the trimming, lower-casing setter stores it. */
  function Normalized(o: Option<string>): (r: Option<string>)
    ensures r.Some? <==> o.Some?
    ensures o.Some? ==> r.value == NormalizeEmail(o.value)
  {
    if o.Some? then Some(NormalizeEmail(o.value)) else None
  }

  function ApplyPatch(u: User, p: UserPatch): (r: User)
    requires PatchAccepts(p)
    ensures ValidUser(u) ==> ValidUser(r)
    ensures r.id == u.id
    ensures SetPath(Normalized(p.email), u.email, r.email)
    ensures SetPath(Trimmed(p.name), u.name, r.name)
    ensures SetPath(Trimmed(p.phone), u.phone, r.phone)
    ensures SetPath(p.password, u.password, r.password)
    ensures r.(name := u.name, email := u.email, phone := u.phone, password := u.password) == u
  {
    u.(name := SetValue(Trimmed(p.name), u.name),
       email := SetValue(Normalized(p.email), u.email),
       phone := SetValue(Trimmed(p.phone), u.phone),
       password := SetValue(p.password, u.password))
  }

  /** The unique index refuses an e-mail that another user already has. */
  predicate EmailClash(us: seq<User>, id: Id, p: UserPatch) {
    p.email.Some? && exists j :: 0 <= j < |us| && us[j].id != id && us[j].email == NormalizeEmail(p.email.value)
  }

  /** The favourite-route body; `!field` rejects an absent or empty one. */
  datatype RouteRequest = RouteRequest(
    scheduleId: Option<string>,
    trainName: Option<string>,
    from: Option<string>,
    to: Option<string>,
    departureTime: Option<string>,
    arrivalTime: Option<string>,
    price: Option<int>)

  predicate RouteGiven(r: RouteRequest) {
    Truthy(r.scheduleId) && Truthy(r.trainName) && Truthy(r.from) && Truthy(r.to)
  }

  function RouteOf(r: RouteRequest): (f: FavoriteRoute)
    requires RouteGiven(r)
    ensures f.scheduleId == r.scheduleId.value
  {
    FavoriteRoute(r.scheduleId.value, r.trainName.value, r.from.value, r.to.value, r.departureTime, r.arrivalTime, r.price)
  }

  class UserDirectory {
    var users: seq<User>

    /** Every record passes the schema, ids and e-mails are unique, e-mails are stored normalised. */
    ghost predicate Valid()
      reads this
    {
      && (forall i :: 0 <= i < |users| ==> ValidUser(users[i]) && NormalizeEmail(users[i].email) == users[i].email)
      && UniqueBy(users, (u: User) => u.id)
      && UniqueBy(users, (u: User) => u.email)
    }

    constructor ()
      ensures Valid() && users == []
    {
      users := [];
    }

    // ----- accounts -----

    /**
     * `registerUser`: 400 for a missing field or a taken e-mail, 500 when the
     * schema refuses the values, else the new user is appended with every
     * default, and can log in with what it registered.
     */
    method Register(req: Registration, id: Id) returns (status: Status)
      requires Valid() && IdFree(users, id)
      modifies this
      ensures Valid()
      ensures status in {201, 400, 500}
      ensures status == 400 <==> !AllGiven(req) || !EmailFree(old(users), NormalizeEmail(req.email.value))
      ensures status == 500 <==> AllGiven(req) && EmailFree(old(users), NormalizeEmail(req.email.value)) && !RegistrationValid(req)
      ensures status == 201 ==> users == old(users) + [NewUser(req, id)]
      ensures status == 201 ==> Login(req.email.value, req.password.value) == (200, Some(NewUser(req, id)))
      ensures status != 201 ==> users == old(users)
    {
      if !AllGiven(req) {
        return 400;
      }
      if IndexOfEmail(users, req.email.value).Some? {
        return 400;
      }
      if !RegistrationValid(req) {
        return 500;
      }
      var u := NewUser(req, id);
      NormalizeEmailIdempotent(req.email.value);
      AppendKeepsDirectory(users, u);
      users := users + [u];
      status := 201;
      assert users[|users| - 1].email == NormalizeEmail(req.email.value);
      var found := IndexOfEmail(users, req.email.value);
      assert found == Some(|users| - 1);
    }

    /** `loginUser`: 404 for an unknown e-mail, 400 for a wrong password, 200 with the record otherwise. */
    function Login(email: string, password: string): (r: (Status, Option<User>))
      reads this
      ensures r.0 in {200, 400, 404}
      ensures r.0 == 404 <==> EmailFree(users, NormalizeEmail(email))
      ensures r.0 == 200 <==> r.1.Some?
      ensures r.1.Some? ==> r.1.value in users && r.1.value.email == NormalizeEmail(email) && r.1.value.password == password
      ensures r.0 == 400 ==> exists i :: 0 <= i < |users| && users[i].email == NormalizeEmail(email) && users[i].password != password
    {
      var i := IndexOfEmail(users, email);
      if i.None? then (404, None)
      else if users[i.value].password != password then (400, None)
      else (200, Some(users[i.value]))
    }

    /** Every stored user can log in with the e-mail as stored and its password. */
    lemma LoginWithStoredEmail(i: nat)
      requires Valid() && i < |users|
      ensures Login(users[i].email, users[i].password) == (200, Some(users[i]))
    {
      var j := IndexOfEmail(users, users[i].email).value;
      assert users[j].email == users[i].email;
    }

    /** The google-login route: 200 with the full record for a known e-mail, 404 otherwise. */
    function GoogleLogin(email: string): (r: (Status, Option<User>))
      reads this
      ensures r.0 in {200, 404}
      ensures r.0 == 404 <==> EmailFree(users, NormalizeEmail(email))
      ensures r.1.Some? <==> r.0 == 200
      ensures r.1.Some? ==> r.1.value in users && r.1.value.email == NormalizeEmail(email)
    {
      var i := IndexOfEmail(users, email);
      if i.None? then (404, None) else (200, Some(users[i.value]))
    }

    /** `getUserById`: 400 for a malformed id, 404 for an unknown one, else the record without its password. */
    function GetById(id: Id): (r: (Status, Option<UserView>))
      reads this
      ensures r.0 in {200, 400, 404}
      ensures r.0 == 400 <==> !IsObjectId(id)
      ensures r.0 == 404 <==> IsObjectId(id) && IdFree(users, id)
      ensures r.1.Some? <==> r.0 == 200
      ensures r.1.Some? ==> exists i :: 0 <= i < |users| && users[i].id == id && r.1.value == View(users[i])
    {
      if !IsObjectId(id) then (400, None)
      else
        var i := IndexOfId(users, id);
        if i.None? then (404, None) else (200, Some(View(users[i.value])))
    }

    /** The list-all route: every user, in store order, without passwords. */
    function ListAll(): (r: seq<UserView>)
      reads this
      ensures |r| == |users|
      ensures forall i :: 0 <= i < |r| ==> r[i] == View(users[i])
    {
      MapView(users)
    }

    /**
     * `updateUser`: 400 for a malformed id; the validators and then the
     * unique e-mail index answer 500; an unknown id is 404; else only the
     * supplied profile fields change.
     */
    method Update(id: Id, patch: UserPatch) returns (status: Status)
      requires Valid()
      modifies this
      ensures Valid()
      ensures status in {200, 400, 404, 500}
      ensures status == 400 <==> !IsObjectId(id)
      ensures status == 404 <==> IsObjectId(id) && PatchAccepts(patch) && IdFree(old(users), id)
      ensures status == 500 <==> IsObjectId(id) && (!PatchAccepts(patch) || (!IdFree(old(users), id) && EmailClash(old(users), id, patch)))
      ensures status == 200 ==>
        var i := IndexOfId(old(users), id).value; users == old(users)[i := ApplyPatch(old(users)[i], patch)]
      ensures status != 200 ==> users == old(users)
    {
      if !IsObjectId(id) {
        return 400;
      }
      if !PatchAccepts(patch) {
        return 500;
      }
      var found := IndexOfId(users, id);
      if found.None? {
        return 404;
      }
      var i := found.value;
      if patch.email.Some? && exists j :: 0 <= j < |users| && users[j].id != id && users[j].email == NormalizeEmail(patch.email.value) {
        return 500;
      }
      var u := ApplyPatch(users[i], patch);
      if patch.email.Some? {
        NormalizeEmailIdempotent(patch.email.value);
      }
      users := users[i := u];
      status := 200;
    }

    // ----- favourite stations and routes -----

    /**
     * `addFavoriteStation`: 400 without a station; the id is cast without a
     * prior check, so a malformed one is 500; 404 for an unknown id; else the
     * station joins the set.
     */
    method AddStation(id: Id, station: Option<string>) returns (status: Status)
      requires Valid()
      modifies this
      ensures Valid()
      ensures status in {200, 400, 404, 500}
      ensures status == 400 <==> !Truthy(station)
      ensures status == 500 <==> Truthy(station) && !IsObjectId(id)
      ensures status == 404 <==> Truthy(station) && IsObjectId(id) && IdFree(old(users), id)
      ensures status == 200 ==>
        var i := IndexOfId(old(users), id).value;
        users == old(users)[i := old(users)[i].(favoriteStations := AddToSet(old(users)[i].favoriteStations, station.value))]
      ensures status != 200 ==> users == old(users)
    {
      if !Truthy(station) {
        return 400;
      }
      if !IsObjectId(id) {
        return 500;
      }
      var found := IndexOfId(users, id);
      if found.None? {
        return 404;
      }
      var i := found.value;
      users := users[i := users[i].(favoriteStations := AddToSet(users[i].favoriteStations, station.value))];
      status := 200;
    }

    /** `removeFavoriteStation`: as adding, but every occurrence of the station is pulled. */
    method RemoveStation(id: Id, station: Option<string>) returns (status: Status)
      requires Valid()
      modifies this
      ensures Valid()
      ensures status in {200, 400, 404, 500}
      ensures status == 400 <==> !Truthy(station)
      ensures status == 500 <==> Truthy(station) && !IsObjectId(id)
      ensures status == 404 <==> Truthy(station) && IsObjectId(id) && IdFree(old(users), id)
      ensures status == 200 ==>
        var i := IndexOfId(old(users), id).value;
        users == old(users)[i := old(users)[i].(favoriteStations := Pull(old(users)[i].favoriteStations, station.value))]
      ensures status != 200 ==> users == old(users)
    {
      if !Truthy(station) {
        return 400;
      }
      if !IsObjectId(id) {
        return 500;
      }
      var found := IndexOfId(users, id);
      if found.None? {
        return 404;
      }
      var i := found.value;
      PullKeepsDistinct(users[i].favoriteStations, station.value);
      users := users[i := users[i].(favoriteStations := Pull(users[i].favoriteStations, station.value))];
      status := 200;
    }

    /** `getFavoriteStations`: 500 for a malformed id, 404 for an unknown one, else the stored list. */
    function Stations(id: Id): (r: (Status, seq<string>))
      reads this
      ensures r.0 in {200, 404, 500}
      ensures r.0 == 500 <==> !IsObjectId(id)
      ensures r.0 == 404 <==> IsObjectId(id) && IdFree(users, id)
      ensures r.0 != 200 ==> r.1 == []
      ensures r.0 == 200 ==> exists i :: 0 <= i < |users| && users[i].id == id && r.1 == users[i].favoriteStations
    {
      if !IsObjectId(id) then (500, [])
      else
        var i := IndexOfId(users, id);
        if i.None? then (404, []) else (200, users[i.value].favoriteStations)
    }

    /**
     * `addFavoriteRoute`: 400 for a missing field, 500 for a malformed id,
     * 404 for an unknown one, 400 when a route with that schedule id is
     * already a favourite, else the route is appended.
     */
    method AddRoute(id: Id, req: RouteRequest) returns (status: Status)
      requires Valid()
      modifies this
      ensures Valid()
      ensures status in {200, 400, 404, 500}
      ensures status == 500 <==> RouteGiven(req) && !IsObjectId(id)
      ensures status == 404 <==> RouteGiven(req) && IsObjectId(id) && IdFree(old(users), id)
      ensures status == 400 <==> (!RouteGiven(req) ||
        (IsObjectId(id) && !IdFree(old(users), id) &&
         HasRoute(old(users)[IndexOfId(old(users), id).value].favoriteRoutes, req.scheduleId.value)))
      ensures status == 200 ==>
        var i := IndexOfId(old(users), id).value;
        users == old(users)[i := old(users)[i].(favoriteRoutes := old(users)[i].favoriteRoutes + [RouteOf(req)])]
      ensures status != 200 ==> users == old(users)
    {
      if !RouteGiven(req) {
        return 400;
      }
      if !IsObjectId(id) {
        return 500;
      }
      var found := IndexOfId(users, id);
      if found.None? {
        return 404;
      }
      var i := found.value;
      if HasRoute(users[i].favoriteRoutes, req.scheduleId.value) {
        return 400;
      }
      var routes := users[i].favoriteRoutes + [RouteOf(req)];
      assert UniqueBy(routes, (f: FavoriteRoute) => f.scheduleId) by {
        forall a, b | 0 <= a < b < |routes| ensures routes[a].scheduleId != routes[b].scheduleId {
          if b == |routes| - 1 {
            assert routes[a] == users[i].favoriteRoutes[a];
          }
        }
      }
      users := users[i := users[i].(favoriteRoutes := routes)];
      status := 200;
    }

    /** `removeFavoriteRoute`: 400 without a schedule id, 500 / 404 as above, else every route for it is pulled. */
    method RemoveRoute(id: Id, scheduleId: Option<string>) returns (status: Status)
      requires Valid()
      modifies this
      ensures Valid()
      ensures status in {200, 400, 404, 500}
      ensures status == 400 <==> !Truthy(scheduleId)
      ensures status == 500 <==> Truthy(scheduleId) && !IsObjectId(id)
      ensures status == 404 <==> Truthy(scheduleId) && IsObjectId(id) && IdFree(old(users), id)
      ensures status == 200 ==>
        var i := IndexOfId(old(users), id).value;
        users == old(users)[i := old(users)[i].(favoriteRoutes := PullRoutes(old(users)[i].favoriteRoutes, scheduleId.value))]
      ensures status != 200 ==> users == old(users)
    {
      if !Truthy(scheduleId) {
        return 400;
      }
      if !IsObjectId(id) {
        return 500;
      }
      var found := IndexOfId(users, id);
      if found.None? {
        return 404;
      }
      var i := found.value;
      PullRoutesKeepsDistinct(users[i].favoriteRoutes, scheduleId.value);
      users := users[i := users[i].(favoriteRoutes := PullRoutes(users[i].favoriteRoutes, scheduleId.value))];
      status := 200;
    }

    /** `getFavoriteRoutes`: 500 for a malformed id, 404 for an unknown one, else the stored list. */
    function Routes(id: Id): (r: (Status, seq<FavoriteRoute>))
      reads this
      ensures r.0 in {200, 404, 500}
      ensures r.0 == 500 <==> !IsObjectId(id)
      ensures r.0 == 404 <==> IsObjectId(id) && IdFree(users, id)
      ensures r.0 != 200 ==> r.1 == []
      ensures r.0 == 200 ==> exists i :: 0 <= i < |users| && users[i].id == id && r.1 == users[i].favoriteRoutes
    {
      if !IsObjectId(id) then (500, [])
      else
        var i := IndexOfId(users, id);
        if i.None? then (404, []) else (200, users[i.value].favoriteRoutes)
    }

    /** A stored user's favourite routes never hold two routes for one schedule. */
    lemma RoutesAreKeyedBySchedule(id: Id)
      requires Valid()
      ensures var r := Routes(id).1; forall a, b :: 0 <= a < b < |r| ==> r[a].scheduleId != r[b].scheduleId
    {
    }

    /**
     * The update-dob route: 400 without a value or for a malformed id; a value
     * that is blank once stored fails the required validator (500); 404 for an
     * unknown id; else only the date of birth changes.
     */
    method UpdateDob(id: Id, dob: Option<DobInput>) returns (status: Status)
      requires Valid()
      modifies this
      ensures Valid()
      ensures status in {200, 400, 404, 500}
      ensures status == 400 <==> !DobGiven(dob) || !IsObjectId(id)
      ensures status == 500 <==> DobGiven(dob) && IsObjectId(id) && DobString(dob.value) == ""
      ensures status == 404 <==> DobGiven(dob) && IsObjectId(id) && DobString(dob.value) != "" && IdFree(old(users), id)
      ensures status == 200 ==>
        var i := IndexOfId(old(users), id).value;
        users == old(users)[i := old(users)[i].(dateOfBirth := DobString(dob.value))]
      ensures status != 200 ==> users == old(users)
    {
      if !DobGiven(dob) || !IsObjectId(id) {
        return 400;
      }
      var value := DobString(dob.value);
      if value == "" {
        return 500;
      }
      var found := IndexOfId(users, id);
      if found.None? {
        return 404;
      }
      var i := found.value;
      users := users[i := users[i].(dateOfBirth := value)];
      status := 200;
    }

    // ----- student verification -----

    /**
     * `submitStudentVerification`: 400 unless at least two files came, 500
     * for a malformed id, 404 for an unknown one, else the documents are
     * recorded and the status is "pending".
     */
    method SubmitVerification(id: Id, files: Option<seq<string>>) returns (status: Status)
      requires Valid()
      modifies this
      ensures Valid()
      ensures status in {200, 400, 404, 500}
      ensures status == 400 <==> files.None? || |files.value| < 2
      ensures status == 500 <==> files.Some? && |files.value| >= 2 && !IsObjectId(id)
      ensures status == 404 <==> files.Some? && |files.value| >= 2 && IsObjectId(id) && IdFree(old(users), id)
      ensures status == 200 ==>
        var i := IndexOfId(old(users), id).value; users == old(users)[i := Students.Submit(old(users)[i], files.value)]
      ensures status != 200 ==> users == old(users)
    {
      if files.None? || |files.value| < 2 {
        return 400;
      }
      if !IsObjectId(id) {
        return 500;
      }
      var found := IndexOfId(users, id);
      if found.None? {
        return 404;
      }
      var i := found.value;
      users := users[i := Students.Submit(users[i], files.value)];
      status := 200;
    }

    /** `getPendingVerifications`: exactly the users whose status is "pending", without passwords. */
    function PendingVerifications(): (r: seq<UserView>)
      reads this
      ensures |r| <= |users|
      ensures forall v :: v in r ==> v.studentStatus == PendingReview
      ensures forall i :: 0 <= i < |users| && users[i].studentStatus == PendingReview ==> View(users[i]) in r
      ensures r == Filter(MapView(users), ViewIsPending())
      ensures forall v :: multiset(r)[v] == if v.studentStatus == PendingReview then multiset(MapView(users))[v] else 0
    {
      PendingViews(users)
    }

    /** `verifyStudent`: 500 for a malformed id, 404 for an unknown one, else the decision is recorded. */
    method DecideVerification(id: Id, action: string, expiry: Time) returns (status: Status)
      requires Valid()
      modifies this
      ensures Valid()
      ensures status in {200, 404, 500}
      ensures status == 500 <==> !IsObjectId(id)
      ensures status == 404 <==> IsObjectId(id) && IdFree(old(users), id)
      ensures status == 200 ==>
        var i := IndexOfId(old(users), id).value; users == old(users)[i := Students.Decide(old(users)[i], action, expiry)]
      ensures status != 200 ==> users == old(users)
    {
      if !IsObjectId(id) {
        return 500;
      }
      var found := IndexOfId(users, id);
      if found.None? {
        return 404;
      }
      var i := found.value;
      users := users[i := Students.Decide(users[i], action, expiry)];
      status := 200;
    }

    /** `unverifyStudent`: 500 / 404 as above, else the user is back to "none". */
    method RevokeVerification(id: Id) returns (status: Status)
      requires Valid()
      modifies this
      ensures Valid()
      ensures status in {200, 404, 500}
      ensures status == 500 <==> !IsObjectId(id)
      ensures status == 404 <==> IsObjectId(id) && IdFree(old(users), id)
      ensures status == 200 ==>
        var i := IndexOfId(old(users), id).value; users == old(users)[i := Students.Unverify(old(users)[i])]
      ensures status != 200 ==> users == old(users)
    {
      if !IsObjectId(id) {
        return 500;
      }
      var found := IndexOfId(users, id);
      if found.None? {
        return 404;
      }
      var i := found.value;
      users := users[i := Students.Unverify(users[i])];
      status := 200;
    }

    /**
     * `getVerificationStatus`: 500 / 404 as above; else the lapse check runs,
     * its reset is saved, and the report describes the saved record.
     */
    method VerificationStatus(id: Id, now: Time) returns (status: Status, report: Option<Students.StudentReport>)
      requires Valid()
      modifies this
      ensures Valid()
      ensures status in {200, 404, 500}
      ensures status == 500 <==> !IsObjectId(id)
      ensures status == 404 <==> IsObjectId(id) && IdFree(old(users), id)
      ensures report.Some? <==> status == 200
      ensures status == 200 ==>
        var i := IndexOfId(old(users), id).value;
        var read := Students.ReadStatus(old(users)[i], now);
        users == old(users)[i := read.1] && report == Some(read.0)
      ensures status != 200 ==> users == old(users)
    {
      if !IsObjectId(id) {
        return 500, None;
      }
      var found := IndexOfId(users, id);
      if found.None? {
        return 404, None;
      }
      var i := found.value;
      var read := Students.ReadStatus(users[i], now);
      users := users[i := read.1];
      status, report := 200, Some(read.0);
    }

    // ----- WiFi -----

    /**
     * `activateWifiSubscription`: 500 for a malformed id, 404 for an unknown
     * one, else the subscription runs for two minutes from now, reusing
     * stored credentials.
     */
    method ActivateWifi(id: Id, now: Time, random1: string, random2: string) returns (status: Status)
      requires Valid()
      modifies this
      ensures Valid()
      ensures status in {200, 404, 500}
      ensures status == 500 <==> !IsObjectId(id)
      ensures status == 404 <==> IsObjectId(id) && IdFree(old(users), id)
      ensures status == 200 ==>
        var i := IndexOfId(old(users), id).value;
        users == old(users)[i := Wifi.Activate(old(users)[i], id, now, random1, random2)]
      ensures status != 200 ==> users == old(users)
    {
      if !IsObjectId(id) {
        return 500;
      }
      var found := IndexOfId(users, id);
      if found.None? {
        return 404;
      }
      var i := found.value;
      users := users[i := Wifi.Activate(users[i], id, now, random1, random2)];
      status := 200;
    }

    /** `getWifiStatus`: 500 / 404 as above; else the expiry check runs and its switch-off is saved. */
    method WifiStatus(id: Id, now: Time) returns (status: Status, report: Option<Wifi.WifiReport>)
      requires Valid()
      modifies this
      ensures Valid()
      ensures status in {200, 404, 500}
      ensures status == 500 <==> !IsObjectId(id)
      ensures status == 404 <==> IsObjectId(id) && IdFree(old(users), id)
      ensures report.Some? <==> status == 200
      ensures status == 200 ==>
        var i := IndexOfId(old(users), id).value;
        var read := Wifi.ReadStatus(old(users)[i], now);
        users == old(users)[i := read.1] && report == Some(read.0)
      ensures status != 200 ==> users == old(users)
    {
      if !IsObjectId(id) {
        return 500, None;
      }
      var found := IndexOfId(users, id);
      if found.None? {
        return 404, None;
      }
      var i := found.value;
      var read := Wifi.ReadStatus(users[i], now);
      users := users[i := read.1];
      status, report := 200, Some(read.0);
    }

    // ----- notifications -----

    /** The read route: 404 for an unknown e-mail, else that user's entries newest first; nothing is saved. */
    function Inbox(email: string): (r: (Status, seq<Notification>))
      reads this
      ensures r.0 in {200, 404}
      ensures r.0 == 404 <==> EmailFree(users, NormalizeEmail(email))
      ensures r.0 == 404 ==> r.1 == []
      ensures r.0 == 200 ==> exists i :: (0 <= i < |users| && users[i].email == NormalizeEmail(email)
        && multiset(r.1) == multiset(users[i].notifications)
        && SortedBy(r.1, NewestFirst(Notifications.Timestamp)))
    {
      var i := IndexOfEmail(users, email);
      if i.None? then (404, []) else (200, Notifications.Inbox(users[i.value]))
    }

    /**
     * The add route: 400 without e-mail, title or message, 404 for an
     * unknown e-mail, else the entry is appended to that user's inbox, where
     * the next read finds it.
     */
    method AddNotification(email: Option<string>, title: Option<string>, message: Option<string>,
                           alternative: Option<string>, now: Time) returns (status: Status)
      requires Valid()
      modifies this
      ensures Valid()
      ensures status in {201, 400, 404}
      ensures status == 400 <==> !Truthy(email) || !Truthy(title) || !Truthy(message)
      ensures status == 404 <==> Truthy(email) && Truthy(title) && Truthy(message) && EmailFree(old(users), NormalizeEmail(email.value))
      ensures status == 201 ==>
        var i := IndexOfEmail(old(users), email.value).value;
        var n := Notifications.NewEntry(title.value, message.value, alternative, now);
        users == old(users)[i := Notifications.Deliver(old(users)[i], n)] && n in Inbox(email.value).1
      ensures status != 201 ==> users == old(users)
    {
      if !Truthy(email) || !Truthy(title) || !Truthy(message) {
        return 400;
      }
      var found := IndexOfEmail(users, email.value);
      if found.None? {
        return 404;
      }
      var i := found.value;
      var n := Notifications.NewEntry(title.value, message.value, alternative, now);
      users := users[i := Notifications.Deliver(users[i], n)];
      status := 201;
      assert users[i].email == NormalizeEmail(email.value);
      var j := IndexOfEmail(users, email.value).value;
      assert j == i by {
        assert users[j].email == users[i].email;
      }
      assert n in multiset(users[i].notifications);
    }

    /** The broadcast route: 400 without title or message, else every user gets the same entry appended. */
    method Broadcast(title: Option<string>, message: Option<string>, alternative: Option<string>, now: Time)
      returns (status: Status)
      requires Valid()
      modifies this
      ensures Valid()
      ensures status in {201, 400}
      ensures status == 400 <==> !Truthy(title) || !Truthy(message)
      ensures status == 201 ==>
        var n := Notifications.NewEntry(title.value, message.value, alternative, now);
        |users| == |old(users)| && forall i :: 0 <= i < |users| ==> users[i] == Notifications.Deliver(old(users)[i], n)
      ensures status == 400 ==> users == old(users)
    {
      if !Truthy(title) || !Truthy(message) {
        return 400;
      }
      var n := Notifications.NewEntry(title.value, message.value, alternative, now);
      var before := users;
      users := seq(|before|, i requires 0 <= i < |before| => Notifications.Deliver(before[i], n));
      assert forall i :: 0 <= i < |users| ==> users[i].id == before[i].id && users[i].email == before[i].email;
      status := 201;
    }
  }
}
