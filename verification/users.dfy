/**
 * The User record (server/models/User.js) and the per-record rules of
 * server/controllers/userController.js and server/routes/userRoutes.js:
 * e-mail normalisation, the registration validators, favourite stations as
 * a set and favourite routes keyed by schedule id.
 */
module Users {
  import opened Common
  import opened Text
  import opened Queries

  datatype StudentStatus = Unverified | PendingReview | Verified | Rejected

  /** The stored spelling of the verification status enum. */
  function StudentStatusName(s: StudentStatus): string {
    match s
    case Unverified => "none"
    case PendingReview => "pending"
    case Verified => "verified"
    case Rejected => "rejected"
  }

  /** A favourite route snapshot; only `scheduleId`, `trainName`, `from` and `to` are checked by the handler. */
  datatype FavoriteRoute = FavoriteRoute(
    scheduleId: string,
    trainName: string,
    from: string,
    to: string,
    departureTime: Option<string>,
    arrivalTime: Option<string>,
    price: Option<int>)

  datatype Notification = Notification(title: string, message: string, alternative: string, timestamp: Time, read: bool)

  datatype User = User(
    id: Id,
    name: string,
    email: string,
    password: string,
    phone: string,
    dateOfBirth: string,
    favoriteStations: seq<string>,
    favoriteRoutes: seq<FavoriteRoute>,
    isStudent: bool,
    studentIdCard: string,
    studentSecondDocument: string,
    studentStatus: StudentStatus,
    studentExpiry: Option<Time>,
    wifiActive: bool,
    wifiExpiry: Option<Time>,
    wifiId: string,
    wifiPassword: string,
    notifications: seq<Notification>)

  /** A user as the listing and lookup handlers send it: everything but the password. */
  datatype UserView = UserView(
    id: Id,
    name: string,
    email: string,
    phone: string,
    dateOfBirth: string,
    favoriteStations: seq<string>,
    favoriteRoutes: seq<FavoriteRoute>,
    isStudent: bool,
    studentIdCard: string,
    studentSecondDocument: string,
    studentStatus: StudentStatus,
    studentExpiry: Option<Time>,
    wifiActive: bool,
    wifiExpiry: Option<Time>,
    wifiId: string,
    wifiPassword: string,
    notifications: seq<Notification>)

  /** `.select("-password")`. */
  function View(u: User): (v: UserView)
    ensures v.id == u.id && v.email == u.email && v.name == u.name
    ensures v.studentStatus == u.studentStatus
  {
    UserView(u.id, u.name, u.email, u.phone, u.dateOfBirth, u.favoriteStations, u.favoriteRoutes,
      u.isStudent, u.studentIdCard, u.studentSecondDocument, u.studentStatus, u.studentExpiry,
      u.wifiActive, u.wifiExpiry, u.wifiId, u.wifiPassword, u.notifications)
  }

  /** The view forgets the password and nothing else: two users look alike exactly when they differ at most in it. */
  lemma ViewForgetsOnlyPassword(u1: User, u2: User)
    ensures View(u1) == View(u2) <==> u1.(password := u2.password) == u2
  {
    if View(u1) == View(u2) {
      assert View(u1).wifiPassword == u1.wifiPassword && View(u2).wifiPassword == u2.wifiPassword;
    }
  }

  /** The `lowercase` and `trim` setters of the e-mail path, which also apply to query filters on it. */
  function NormalizeEmail(e: string): string {
    Lower(Trim(e))
  }

  /** A normalised address is its own normal form, so a stored e-mail finds its own record. */
  lemma NormalizeEmailIdempotent(e: string)
    ensures NormalizeEmail(NormalizeEmail(e)) == NormalizeEmail(e)
  {
    var t := Trim(e);
    TrimIsInfix(e);
    var l := Lower(t);
    if l != [] {
      assert l[0] == LowerChar(t[0]) && !IsSpace(l[0]);
      assert TrimStart(l) == l;
      assert l[|l| - 1] == LowerChar(t[|t| - 1]) && !IsSpace(l[|l| - 1]);
      assert TrimEnd(l) == l;
    }
    assert Trim(l) == l;
    assert Lower(l) == l;
  }

  const MinPasswordLength: nat := 6

  /** The schema validators on a stored user. */
  predicate ValidUser(u: User) {
    && u.name != "" && u.email != "" && |u.password| >= MinPasswordLength && u.phone != "" && u.dateOfBirth != ""
    && UniqueBy(u.favoriteStations, (s: string) => s)
    && UniqueBy(u.favoriteRoutes, (r: FavoriteRoute) => r.scheduleId)
  }

  /** The registration request; `!field` rejects an absent or empty field. */
  datatype Registration = Registration(
    name: Option<string>,
    email: Option<string>,
    password: Option<string>,
    phone: Option<string>,
    dateOfBirth: Option<string>)

  predicate AllGiven(r: Registration) {
    Truthy(r.name) && Truthy(r.email) && Truthy(r.password) && Truthy(r.phone) && Truthy(r.dateOfBirth)
  }

  /** What the schema asks once the setters have trimmed and lower-cased. */
  predicate RegistrationValid(r: Registration)
    requires AllGiven(r)
  {
    && Trim(r.name.value) != "" && NormalizeEmail(r.email.value) != ""
    && |r.password.value| >= MinPasswordLength && Trim(r.phone.value) != ""
  }

  /** `new User({ name, email, password, phone, dateOfBirth })` with every other field at its default. */
  function NewUser(r: Registration, id: Id): (u: User)
    requires AllGiven(r) && RegistrationValid(r)
    ensures ValidUser(u) && u.id == id && u.email == NormalizeEmail(r.email.value)
    ensures u.favoriteStations == [] && u.favoriteRoutes == [] && u.notifications == []
    ensures !u.isStudent && u.studentStatus == Unverified && u.studentExpiry.None?
    ensures !u.wifiActive && u.wifiExpiry.None? && u.wifiId == "" && u.wifiPassword == ""
  {
    User(id, Trim(r.name.value), NormalizeEmail(r.email.value), r.password.value, Trim(r.phone.value), r.dateOfBirth.value,
      [], [], false, "", "", Unverified, None, false, None, "", "", [])
  }

  // ----- favourite stations -----

  /** `$addToSet`: appended only when not already present. */
  function AddToSet(s: seq<string>, x: string): (r: seq<string>)
    ensures forall y :: y in r <==> y in s || y == x
    ensures s <= r && |r| == if x in s then |s| else |s| + 1
    ensures UniqueBy(s, (t: string) => t) ==> UniqueBy(r, (t: string) => t)
  {
    if x in s then s else s + [x]
  }

  /** The `$pull` condition on stations: every station other than `x`. */
  function OtherThan(x: string): string -> bool {
    (t: string) => t != x
  }

  /** `$pull`: every occurrence goes, everything else stays in order. */
  function Pull(s: seq<string>, x: string): (r: seq<string>)
    ensures forall y :: y in r <==> y in s && y != x
    ensures forall y :: multiset(r)[y] == if y != x then multiset(s)[y] else 0
    ensures r == Filter(s, OtherThan(x))
  {
    FilterCounts(s, OtherThan(x));
    Filter(s, OtherThan(x))
  }

  /** Pulling keeps a duplicate-free list duplicate-free. */
  lemma PullKeepsDistinct(s: seq<string>, x: string)
    requires UniqueBy(s, (t: string) => t)
    ensures UniqueBy(Pull(s, x), (t: string) => t)
  {
    FilterUnique(s, OtherThan(x), (t: string) => t);
  }

  /** Adding a station twice is adding it once. */
  lemma AddToSetIdempotent(s: seq<string>, x: string)
    ensures AddToSet(AddToSet(s, x), x) == AddToSet(s, x)
  {
    assert x in AddToSet(s, x);
  }

  /** Removing a station that was just added to a list without it gives the list back. */
  lemma {:induction false} AddThenPull(s: seq<string>, x: string)
    requires x !in s
    ensures Pull(AddToSet(s, x), x) == s
  {
    FilterKeepsAll(s, x);
    FilterAppend(s, [x], OtherThan(x));
  }

  lemma {:induction false} FilterKeepsAll(s: seq<string>, x: string)
    requires x !in s
    ensures Filter(s, OtherThan(x)) == s
  {
    if s != [] {
      FilterKeepsAll(s[1..], x);
    }
  }

  // ----- favourite routes -----

  predicate HasRoute(rs: seq<FavoriteRoute>, scheduleId: string) {
    exists i :: 0 <= i < |rs| && rs[i].scheduleId == scheduleId
  }

  /** The `$pull` condition on routes: a schedule id other than `scheduleId`. */
  function OtherSchedule(scheduleId: string): FavoriteRoute -> bool {
    (f: FavoriteRoute) => f.scheduleId != scheduleId
  }

  /** `$pull: { favoriteRoutes: { scheduleId } }`: every route with that schedule id goes, the rest stay in order. */
  function PullRoutes(rs: seq<FavoriteRoute>, scheduleId: string): (r: seq<FavoriteRoute>)
    ensures forall x :: x in r <==> x in rs && x.scheduleId != scheduleId
    ensures forall x :: multiset(r)[x] == if x.scheduleId != scheduleId then multiset(rs)[x] else 0
    ensures r == Filter(rs, OtherSchedule(scheduleId))
    ensures !HasRoute(r, scheduleId)
  {
    var r := Filter(rs, OtherSchedule(scheduleId));
    FilterCounts(rs, OtherSchedule(scheduleId));
    assert forall i :: 0 <= i < |r| ==> r[i] in r;
    r
  }

  /** Pulling keeps the schedule ids of the remaining routes distinct. */
  lemma PullRoutesKeepsDistinct(rs: seq<FavoriteRoute>, scheduleId: string)
    requires UniqueBy(rs, (f: FavoriteRoute) => f.scheduleId)
    ensures UniqueBy(PullRoutes(rs, scheduleId), (f: FavoriteRoute) => f.scheduleId)
  {
    FilterUnique(rs, OtherSchedule(scheduleId), (f: FavoriteRoute) => f.scheduleId);
  }

  /** Adding a route under a new schedule id and then removing that id gives the list back. */
  lemma PushThenPullRoute(rs: seq<FavoriteRoute>, route: FavoriteRoute)
    requires !HasRoute(rs, route.scheduleId)
    ensures PullRoutes(rs + [route], route.scheduleId) == rs
  {
    KeepsOtherSchedules(rs, route.scheduleId);
    FilterAppend(rs, [route], OtherSchedule(route.scheduleId));
  }

  lemma {:induction false} KeepsOtherSchedules(rs: seq<FavoriteRoute>, scheduleId: string)
    requires !HasRoute(rs, scheduleId)
    ensures Filter(rs, OtherSchedule(scheduleId)) == rs
  {
    if rs != [] {
      assert rs[0].scheduleId != scheduleId;
      assert !HasRoute(rs[1..], scheduleId) by {
        forall i | 0 <= i < |rs[1..]| ensures rs[1..][i].scheduleId != scheduleId {
          assert rs[1..][i] == rs[i + 1];
        }
      }
      KeepsOtherSchedules(rs[1..], scheduleId);
    }
  }

  /** The `update-dob` value: `!dateOfBirth` rejects "", `0`, `false` and absence. */
  datatype DobInput = DobText(s: string) | DobOther(truthy: bool, shown: string)

  predicate DobGiven(d: Option<DobInput>) {
    d.Some? && match d.value
      case DobText(s) => s != ""
      case DobOther(truthy, _) => truthy
  }

  /** A string is stored trimmed; any other value as `String(value)`. */
  function DobString(d: DobInput): string {
    match d
    case DobText(s) => Trim(s)
    case DobOther(_, shown) => shown
  }
}
