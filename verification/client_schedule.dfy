/**
 * The schedule screen of the web client
 * (client/src/components/TrainScheduleList.js): the search box, the
 * favourite-first ordering, the booking hand-off to checkout with its
 * duplicate pre-check and student discount, and the favourite-route toggle.
 * Responses of the server arrive as parameters; the screen's own state
 * (the loaded schedules, the query and the favourites) is a class.
 */
module ClientSchedule {
  import opened Common
  import opened Text
  import opened Queries
  import opened Schedules
  import opened Users
  import Students
  import UserAccounts
  import Bookings

  // ----- search -----

  /** One schedule passes a lowered query when its lowered train name, origin or destination contains it. */
  predicate Matches(s: Schedule, loweredQuery: string) {
    || Contains(Lower(s.trainName), loweredQuery)
    || Contains(Lower(s.from), loweredQuery)
    || Contains(Lower(s.to), loweredQuery)
  }

  function MatchesQuery(loweredQuery: string): Schedule -> bool {
    (s: Schedule) => Matches(s, loweredQuery)
  }

  /** The search test is a case-insensitive substring test on the three fields. */
  lemma SearchIsSubstringTest(s: Schedule, query: string)
    ensures Matches(s, Lower(query)) <==>
      (|| (exists i :: OccursAt(Lower(s.trainName), Lower(query), i))
       || (exists i :: OccursAt(Lower(s.from), Lower(query), i))
       || (exists i :: OccursAt(Lower(s.to), Lower(query), i)))
  {
    ContainsIffOccurs(Lower(s.trainName), Lower(query));
    ContainsIffOccurs(Lower(s.from), Lower(query));
    ContainsIffOccurs(Lower(s.to), Lower(query));
  }

  /** A filter that every element passes keeps the list as it is. */
  lemma {:induction false} FilterAllMatch(ss: seq<Schedule>, q: string)
    requires forall k :: 0 <= k < |ss| ==> Matches(ss[k], q)
    ensures Filter(ss, MatchesQuery(q)) == ss
  {
    if ss != [] {
      assert MatchesQuery(q)(ss[0]);
      FilterAllMatch(ss[1..], q);
    }
  }

  // ----- favourite-first ordering -----

  predicate IsFavoriteRoute(routes: seq<FavoriteRoute>, s: Schedule) {
    HasRoute(routes, s.id)
  }

  predicate NearFavoriteStation(stations: seq<string>, s: Schedule) {
    s.from in stations || s.to in stations
  }

  /** Position class of a schedule: route favourites (0, 1) before the rest (2, 3), favourite stations first within each. */
  function Rank(routes: seq<FavoriteRoute>, stations: seq<string>, s: Schedule): nat {
    (if IsFavoriteRoute(routes, s) then 0 else 2) + (if NearFavoriteStation(stations, s) then 0 else 1)
  }

  /** The comparator of the sort: `a` may precede `b` when its class is not later. */
  function ByRank(routes: seq<FavoriteRoute>, stations: seq<string>): (Schedule, Schedule) -> bool {
    (a: Schedule, b: Schedule) => Rank(routes, stations, a) <= Rank(routes, stations, b)
  }

  lemma ByRankIsTotalPreorder(routes: seq<FavoriteRoute>, stations: seq<string>)
    ensures TotalPreorder(ByRank(routes, stations))
  {
  }

  /** What a list sorted by rank promises about favourite routes and favourite stations. */
  lemma RankOrder(routes: seq<FavoriteRoute>, stations: seq<string>, r: seq<Schedule>)
    requires SortedBy(r, ByRank(routes, stations))
    ensures forall i, j :: 0 <= i < j < |r| && IsFavoriteRoute(routes, r[j]) ==> IsFavoriteRoute(routes, r[i])
    ensures forall i, j :: (0 <= i < j < |r| && (IsFavoriteRoute(routes, r[i]) <==> IsFavoriteRoute(routes, r[j]))
      && NearFavoriteStation(stations, r[j])) ==> NearFavoriteStation(stations, r[i])
  {
    forall i, j | 0 <= i < j < |r|
      ensures Rank(routes, stations, r[i]) <= Rank(routes, stations, r[j])
    {
      assert ByRank(routes, stations)(r[i], r[j]);
    }
  }

  // ----- booking hand-off -----

  const GuestName: string := "Guest User"
  const StudentDiscount: int := 20

  /** The student-status answer as the client sees it, or a failed request. */
  datatype StudentLookup = LookupFailed | Looked(isStudent: bool, status: string)

  predicate DiscountApplies(lookup: StudentLookup) {
    lookup.Looked? && lookup.isStudent && lookup.status == "verified"
  }

  /** `Math.max(0, price - 20)` for a verified student, the listed price otherwise (a failed lookup included). */
  function FinalPrice(price: int, lookup: StudentLookup): (r: int)
    ensures !DiscountApplies(lookup) ==> r == price
    ensures DiscountApplies(lookup) ==> r >= 0 && r >= price - StudentDiscount && (r == 0 || r == price - StudentDiscount)
    ensures price >= 0 ==> 0 <= r <= price
  {
    if DiscountApplies(lookup) then
      if price - StudentDiscount > 0 then price - StudentDiscount else 0
    else price
  }

  /** The server's status answer as the client receives it. */
  function LookupOf(report: Students.StudentReport): StudentLookup {
    Looked(report.isStudent, StudentStatusName(report.status))
  }

  /**
   * Against the server's status handler, the discount applies exactly to a
   * verified student whose verification has not lapsed at the time of the
   * request.
   */
  lemma DiscountFollowsServerStatus(u: User, now: Time)
    ensures DiscountApplies(LookupOf(Students.ReadStatus(u, now).0)) <==>
      (u.isStudent && u.studentStatus == Verified && !Students.Lapsed(u, now))
  {
    var rep := Students.ReadStatus(u, now).0;
    assert DiscountApplies(LookupOf(rep)) <==> rep.isStudent && rep.status == Verified by {
      assert StudentStatusName(rep.status) == "verified" <==> rep.status == Verified;
    }
  }

  /** The object handed to checkout; the favourite-route path may leave the times and the price undefined. */
  datatype BookingData = BookingData(
    trainId: string,
    trainName: string,
    from: string,
    to: string,
    departure: Option<string>,
    arrival: Option<string>,
    price: Option<int>,
    passengerName: string,
    passengerEmail: string)

  /** The client's duplicate test on one of the user's bookings. */
  predicate SameTrip(b: Bookings.Booking, train: Schedule) {
    && b.from == Some(train.from) && b.to == Some(train.to)
    && b.departureTime == Some(train.departureTime) && b.arrivalTime == Some(train.arrivalTime)
  }

  function SameTripAs(train: Schedule): Bookings.Booking -> bool {
    (b: Bookings.Booking) => SameTrip(b, train)
  }

  datatype BookingOutcome = LoginRequired | CheckFailed | AlreadyBooked | Checkout(data: BookingData)

  /**
   * `handleBooking`: without a stored e-mail the user is sent to log in; a
   * failed booking lookup is reported; a booking for the same stations and
   * times blocks; otherwise checkout receives the schedule under the
   * checkout names, at the final price, for the stored passenger.
   * `existing` is the user's booking list, None when that request failed.
   */
  function HandleBooking(train: Schedule, storedName: Option<string>, storedEmail: Option<string>,
                         existing: Option<seq<Bookings.Booking>>, lookup: StudentLookup): (r: BookingOutcome)
    ensures r.LoginRequired? <==> !Truthy(storedEmail)
    ensures r.CheckFailed? <==> Truthy(storedEmail) && existing.None?
    ensures r.AlreadyBooked? <==> (Truthy(storedEmail) && existing.Some?
      && exists b :: b in existing.value && SameTrip(b, train))
    ensures r.Checkout? ==> (
      && r.data.trainId == train.id && r.data.trainName == train.trainName
      && r.data.from == train.from && r.data.to == train.to
      && r.data.departure == Some(train.departureTime) && r.data.arrival == Some(train.arrivalTime)
      && r.data.price == Some(FinalPrice(train.price, lookup))
      && r.data.passengerName == (if Truthy(storedName) then storedName.value else GuestName)
      && r.data.passengerEmail == storedEmail.value && r.data.passengerEmail != "")
  {
    if !Truthy(storedEmail) then LoginRequired
    else if existing.None? then CheckFailed
    else
      var dup := Find(existing.value, SameTripAs(train));
      if dup.Some? then
        assert SameTripAs(train)(existing.value[dup.value]);
        AlreadyBooked
      else
        assert forall b :: b in existing.value ==> !SameTrip(b, train) by {
          forall b | b in existing.value ensures !SameTrip(b, train) {
            var k :| 0 <= k < |existing.value| && existing.value[k] == b;
            assert !SameTripAs(train)(existing.value[k]);
          }
        }
        var name := if Truthy(storedName) then storedName.value else GuestName;
        Checkout(BookingData(train.id, train.trainName, train.from, train.to,
          Some(train.departureTime), Some(train.arrivalTime), Some(FinalPrice(train.price, lookup)),
          name, storedEmail.value))
  }

  /** The payment request checkout sends once the card is charged. */
  function RequestOf(d: BookingData, paymentIntentId: string): (req: Bookings.PaymentRequest)
    requires d.departure.Some? && d.arrival.Some? && d.price.Some?
    ensures req.passengerEmail == d.passengerEmail && req.from == d.from && req.to == d.to
    ensures req.departure == d.departure.value && req.arrival == d.arrival.value
  {
    Bookings.PaymentRequest(d.trainId, d.trainName, d.from, d.to, d.departure.value, d.arrival.value,
      d.price.value, d.passengerName, d.passengerEmail, paymentIntentId)
  }

  /**
   * The client's pre-check on the user's own bookings is the server's
   * duplicate key of the payment path: it finds a same-trip booking exactly
   * when the store holds one for that e-mail, stations and times.
   */
  lemma PreCheckIsServerKey(records: seq<Bookings.Booking>, existing: seq<Bookings.Booking>, train: Schedule,
                            req: Bookings.PaymentRequest)
    requires forall b :: b in existing <==> b in records && b.userEmail == req.passengerEmail
    requires req.from == train.from && req.to == train.to
    requires req.departure == train.departureTime && req.arrival == train.arrivalTime
    ensures (exists b :: b in existing && SameTrip(b, train)) <==> Bookings.HasSlot(records, req)
  {
    if exists b :: b in existing && SameTrip(b, train) {
      var b :| b in existing && SameTrip(b, train);
      var i :| 0 <= i < |records| && records[i] == b;
      assert Bookings.SameSlot(records[i], req.passengerEmail, req.from, req.to, req.departure, req.arrival);
    }
    if Bookings.HasSlot(records, req) {
      var i :| 0 <= i < |records| && Bookings.SameSlot(records[i], req.passengerEmail, req.from, req.to, req.departure, req.arrival);
      assert records[i] in existing && SameTrip(records[i], train);
    }
  }

  /**
   * When the pre-check saw the user's whole booking list, a checkout it lets
   * through is not one the server's payment path would refuse as a duplicate.
   */
  lemma CheckoutPassesServerCheck(records: seq<Bookings.Booking>, existing: seq<Bookings.Booking>, train: Schedule,
                                  storedName: Option<string>, email: string, lookup: StudentLookup, paymentIntentId: string)
    requires forall b :: b in existing <==> b in records && b.userEmail == email
    requires HandleBooking(train, storedName, Some(email), Some(existing), lookup).Checkout?
    ensures !Bookings.HasSlot(records, RequestOf(HandleBooking(train, storedName, Some(email), Some(existing), lookup).data, paymentIntentId))
  {
    var d := HandleBooking(train, storedName, Some(email), Some(existing), lookup).data;
    PreCheckIsServerKey(records, existing, train, RequestOf(d, paymentIntentId));
  }

  // ----- favourite-route toggle -----

  /** The route snapshot the toggle posts and keeps locally. */
  function RouteData(train: Schedule): (f: FavoriteRoute)
    ensures f.scheduleId == train.id
  {
    FavoriteRoute(train.id, train.trainName, train.from, train.to,
      Some(train.departureTime), Some(train.arrivalTime), Some(train.price))
  }

  /** The same snapshot as the body of the add request. */
  function RouteRequestOf(train: Schedule): UserAccounts.RouteRequest {
    UserAccounts.RouteRequest(Some(train.id), Some(train.trainName), Some(train.from), Some(train.to),
      Some(train.departureTime), Some(train.arrivalTime), Some(train.price))
  }

  /** The server stores, for a valid schedule, exactly the snapshot the client appends locally. */
  lemma ServerStoresClientSnapshot(train: Schedule)
    requires ValidSchedule(train) && train.id != ""
    ensures UserAccounts.RouteGiven(RouteRequestOf(train))
    ensures UserAccounts.RouteOf(RouteRequestOf(train)) == RouteData(train)
  {
  }

  /** The local list after a successful toggle: the server's pull, or the server's append. */
  function Toggled(routes: seq<FavoriteRoute>, train: Schedule): (r: seq<FavoriteRoute>)
    ensures HasRoute(r, train.id) <==> !HasRoute(routes, train.id)
    ensures HasRoute(routes, train.id) ==> forall f :: f in r <==> f in routes && f.scheduleId != train.id
    ensures HasRoute(routes, train.id) ==> forall f :: multiset(r)[f] == if f.scheduleId != train.id then multiset(routes)[f] else 0
    ensures HasRoute(routes, train.id) ==> r == Filter(routes, OtherSchedule(train.id))
    ensures !HasRoute(routes, train.id) ==> |r| == |routes| + 1 && r[..|routes|] == routes && r[|routes|] == RouteData(train)
  {
    if HasRoute(routes, train.id) then PullRoutes(routes, train.id)
    else
      var r := routes + [RouteData(train)];
      assert r[|routes|].scheduleId == train.id;
      r
  }

  /** Toggling keeps the schedule ids of the favourites distinct. */
  lemma ToggledKeepsDistinct(routes: seq<FavoriteRoute>, train: Schedule)
    requires UniqueBy(routes, (f: FavoriteRoute) => f.scheduleId)
    ensures UniqueBy(Toggled(routes, train), (f: FavoriteRoute) => f.scheduleId)
  {
    if HasRoute(routes, train.id) {
      PullRoutesKeepsDistinct(routes, train.id);
    } else {
      var r := Toggled(routes, train);
      forall a, b | 0 <= a < b < |r| ensures r[a].scheduleId != r[b].scheduleId {
        if b == |routes| {
          assert r[a] == routes[a];
        } else {
          assert r[a] == routes[a] && r[b] == routes[b];
        }
      }
    }
  }

  /** Adding a schedule to the favourites and toggling it again gives the list back. */
  lemma ToggleTwiceRestores(routes: seq<FavoriteRoute>, train: Schedule)
    requires !HasRoute(routes, train.id)
    ensures Toggled(Toggled(routes, train), train) == routes
  {
    PushThenPullRoute(routes, RouteData(train));
  }

  datatype ToggleOutcome = ToggleLoginRequired | ToggleFailed | Removed | Added

  /** The screen's state: the loaded schedules, the query typed so far and the user's favourites. */
  class ScheduleList {
    var schedules: seq<Schedule>
    var search: string
    var favorites: seq<string>
    var favoriteRoutes: seq<FavoriteRoute>

    /** The state once the schedules and the user's favourites have loaded. */
    constructor (schedules: seq<Schedule>, favorites: seq<string>, favoriteRoutes: seq<FavoriteRoute>)
      ensures this.schedules == schedules && this.favorites == favorites && this.favoriteRoutes == favoriteRoutes
      ensures search == ""
    {
      this.schedules := schedules;
      this.favorites := favorites;
      this.favoriteRoutes := favoriteRoutes;
      search := "";
    }

    /** `filtered`: the loaded schedules that pass the search, in load order. */
    function Filtered(): (r: seq<Schedule>)
      reads this
      ensures forall s :: s in r <==> s in schedules && Matches(s, Lower(search))
      ensures forall s :: multiset(r)[s] == if Matches(s, Lower(search)) then multiset(schedules)[s] else 0
      ensures r == Filter(schedules, MatchesQuery(Lower(search)))
    {
      FilterCounts(schedules, MatchesQuery(Lower(search)));
      Filter(schedules, MatchesQuery(Lower(search)))
    }

    /**
     * `prioritized`: the filtered schedules reordered so that route
     * favourites come first and, among schedules alike in that, those at a
     * favourite station come first; nothing is added or lost.
     */
    function Prioritized(): (r: seq<Schedule>)
      reads this
      ensures multiset(r) == multiset(Filtered())
      ensures forall i, j :: 0 <= i < j < |r| && IsFavoriteRoute(favoriteRoutes, r[j]) ==> IsFavoriteRoute(favoriteRoutes, r[i])
      ensures forall i, j :: (0 <= i < j < |r| && (IsFavoriteRoute(favoriteRoutes, r[i]) <==> IsFavoriteRoute(favoriteRoutes, r[j]))
        && NearFavoriteStation(favorites, r[j])) ==> NearFavoriteStation(favorites, r[i])
    {
      ByRankIsTotalPreorder(favoriteRoutes, favorites);
      var r := SortBy(Filtered(), ByRank(favoriteRoutes, favorites));
      RankOrder(favoriteRoutes, favorites, r);
      r
    }

    /** Typing in the search box. */
    method SetSearch(query: string)
      modifies this
      ensures search == query
      ensures schedules == old(schedules) && favorites == old(favorites) && favoriteRoutes == old(favoriteRoutes)
    {
      search := query;
    }

    /**
     * `toggleFavoriteRoute`: without a stored user id nothing changes and
     * the user is sent to log in; a failed request changes nothing; else
     * the local list follows the server (a pull when the schedule was a
     * favourite, an append of its snapshot otherwise).
     */
    method ToggleFavoriteRoute(train: Schedule, userId: Option<string>, requestSucceeded: bool) returns (outcome: ToggleOutcome)
      modifies this
      ensures outcome == ToggleLoginRequired <==> !Truthy(userId)
      ensures outcome == ToggleFailed <==> Truthy(userId) && !requestSucceeded
      ensures outcome == Removed <==> Truthy(userId) && requestSucceeded && HasRoute(old(favoriteRoutes), train.id)
      ensures outcome == Added <==> Truthy(userId) && requestSucceeded && !HasRoute(old(favoriteRoutes), train.id)
      ensures outcome in {Removed, Added} ==> favoriteRoutes == Toggled(old(favoriteRoutes), train)
      ensures outcome in {ToggleLoginRequired, ToggleFailed} ==> favoriteRoutes == old(favoriteRoutes)
      ensures schedules == old(schedules) && search == old(search) && favorites == old(favorites)
    {
      if !Truthy(userId) {
        return ToggleLoginRequired;
      }
      if !requestSucceeded {
        return ToggleFailed;
      }
      var isFavorite := HasRoute(favoriteRoutes, train.id);
      favoriteRoutes := Toggled(favoriteRoutes, train);
      outcome := if isFavorite then Removed else Added;
    }
  }

  /** An empty query shows every loaded schedule, in load order. */
  lemma EmptySearchShowsAll(list: ScheduleList)
    requires list.search == ""
    ensures list.Filtered() == list.schedules
  {
    forall k | 0 <= k < |list.schedules| ensures Matches(list.schedules[k], Lower(list.search)) {
      assert StartsWith(Lower(list.schedules[k].trainName), []);
    }
    FilterAllMatch(list.schedules, Lower(list.search));
  }
}
