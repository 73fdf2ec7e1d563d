/**
 * The home screen of the web client (client/src/components/Home.js): the
 * notification bell, booking a saved favourite route and the profile
 * update form.
 */
module ClientHome {
  import opened Common
  import opened Radix
  import opened Queries
  import opened Users
  import opened Text
  import opened ClientSession
  import UserAccounts
  import ClientSchedule
  import ClientNotifications
  import Schedules
  import Bookings

  // ----- notification bell -----

  function Unread(): Notification -> bool {
    (n: Notification) => !n.read
  }

  /**
   * The bell's count: the number of unread notifications, or, when none is
   * unread, the number of all of them; it is zero only with no notification.
   */
  function UnreadCount(ns: seq<Notification>): (c: nat)
    ensures c == 0 <==> ns == []
    ensures c <= |ns|
    ensures (forall k :: 0 <= k < |ns| ==> ns[k].read) ==> c == |ns|
    ensures (exists k :: 0 <= k < |ns| && !ns[k].read) ==> c == |Filter(ns, Unread())| > 0
  {
    NoneUnread(ns);
    var unread := Filter(ns, Unread());
    if |unread| > 0 then |unread| else |ns|
  }

  /** Nothing survives the unread filter exactly when every notification is read. */
  lemma NoneUnread(ns: seq<Notification>)
    ensures Filter(ns, Unread()) == [] <==> forall k :: 0 <= k < |ns| ==> ns[k].read
  {
    var unread := Filter(ns, Unread());
    if unread != [] {
      assert unread[0] in ns && !unread[0].read;
    } else {
      assert forall x :: x in ns && !x.read ==> Unread()(x);
    }
  }

  /** A two-digit number has at most two decimal digits. */
  lemma DecimalOfTwoDigits(n: nat)
    requires n < 100
    ensures |ToRadix(n, 10)| <= 2
  {
    if n >= 10 {
      assert ToRadix(n, 10) == ToRadix(n / 10, 10) + [DigitChar(n % 10)];
    }
  }

  /** The bell's badge: hidden at zero, "99+" above ninety-nine, else the count in decimal. */
  function Badge(count: nat): (r: Option<string>)
    ensures r.None? <==> count == 0
    ensures count > 99 ==> r == Some("99+")
    ensures 0 < count <= 99 ==> (r.Some? && AllDigits(r.value, 10) && FromRadix(r.value, 10) == count)
    ensures r.Some? ==> 1 <= |r.value| <= 3
  {
    if count == 0 then None
    else if count > 99 then Some("99+")
    else
      DecimalOfTwoDigits(count);
      FromToRadix(count, 10);
      Some(ToRadix(count, 10))
  }

  /** The badge shows exactly when the user has a notification at all, read or not. */
  lemma BadgeShownIffAnyNotification(ns: seq<Notification>)
    ensures Badge(UnreadCount(ns)).Some? <==> ns != []
  {
  }

  const DropdownSize: nat := 5

  /** The dropdown lists the first five notifications, in the order received. */
  function Dropdown(ns: seq<Notification>): (r: seq<Notification>)
    ensures |r| == if |ns| < DropdownSize then |ns| else DropdownSize
    ensures r <= ns
  {
    if |ns| < DropdownSize then ns else ns[..DropdownSize]
  }

  /**
   * `fetchNotifications` of the home screen: nothing is fetched without a
   * stored e-mail; on a success status the body becomes the list; otherwise
   * the list is left as it was (None).
   */
  function HomeNotifications(storedEmail: Option<string>, reply: ClientNotifications.Reply): (r: Option<seq<Notification>>)
    ensures r.Some? <==> (Truthy(storedEmail) && reply.Response? && 200 <= reply.status < 300
      && reply.body.ArrayBody?)
    ensures r.Some? ==> r.value == reply.body.items
  {
    if Truthy(storedEmail) && reply.Response? && 200 <= reply.status < 300 && reply.body.ArrayBody? then
      Some(reply.body.items)
    else None
  }

  /** Starting from the empty list, the bell and the panel show the same notifications from the server's read route. */
  lemma HomeAgreesWithPanel(dir: UserAccounts.UserDirectory, email: string)
    requires email != ""
    ensures HomeNotifications(Some(email), ClientNotifications.ServerReply(dir, email)).GetOr([])
         == ClientNotifications.LoadNotifications(Some(email), ClientNotifications.ServerReply(dir, email)).items
  {
    ClientNotifications.PanelShowsServerInbox(dir, email);
  }

  // ----- favourite route booking -----

  /**
   * `handleBookFavoriteRoute`: without a stored e-mail nothing is booked
   * (None); otherwise checkout receives the saved snapshot, at the saved
   * price, for the profile's name or the guest name.
   */
  function BookFavoriteRoute(route: FavoriteRoute, userName: Option<string>, storedEmail: Option<string>)
    : (r: Option<ClientSchedule.BookingData>)
    ensures r.None? <==> !Truthy(storedEmail)
    ensures r.Some? ==> (
      && r.value.trainId == route.scheduleId && r.value.trainName == route.trainName
      && r.value.from == route.from && r.value.to == route.to
      && r.value.departure == route.departureTime && r.value.arrival == route.arrivalTime
      && r.value.price == route.price
      && r.value.passengerName == (if Truthy(userName) then userName.value else ClientSchedule.GuestName)
      && r.value.passengerEmail == storedEmail.value)
  {
    if !Truthy(storedEmail) then None
    else
      var name := if Truthy(userName) then userName.value else ClientSchedule.GuestName;
      Some(ClientSchedule.BookingData(route.scheduleId, route.trainName, route.from, route.to,
        route.departureTime, route.arrivalTime, route.price, name, storedEmail.value))
  }

  /**
   * Booking a route saved from the schedule list sends the same data as
   * booking it from the list, except that the listed price is charged
   * without the student discount.
   */
  lemma FavoriteBookingSkipsDiscount(train: Schedules.Schedule, name: Option<string>, email: Option<string>,
                                     existing: Option<seq<Bookings.Booking>>,
                                     lookup: ClientSchedule.StudentLookup)
    requires ClientSchedule.HandleBooking(train, name, email, existing, lookup).Checkout?
    ensures BookFavoriteRoute(ClientSchedule.RouteData(train), name, email)
         == Some(ClientSchedule.HandleBooking(train, name, email, existing, lookup).data.(price := Some(train.price)))
  {
  }

  // ----- profile update -----

  /** The edit form's four fields as the update reads them; a field the user never filled is None. */
  datatype ProfileForm = ProfileForm(name: Option<string>, email: Option<string>, phone: Option<string>, password: Option<string>)

  predicate FormFilled(f: ProfileForm) {
    Truthy(f.name) && Truthy(f.email) && Truthy(f.phone) && Truthy(f.password)
  }

  /** `handleUpdate`: the update is sent, with all four fields, only when none of them is empty. */
  function HandleUpdate(f: ProfileForm): (r: Option<UserAccounts.UserPatch>)
    ensures r.Some? <==> FormFilled(f)
    ensures r.Some? ==> (r.value.name == f.name && r.value.email == f.email
      && r.value.phone == f.phone && r.value.password == f.password)
  {
    if FormFilled(f) then Some(UserAccounts.UserPatch(f.name, f.email, f.phone, f.password)) else None
  }

  /** Every complete update the server would accept passes the form's own check. */
  lemma AcceptedUpdatesAreSent(f: ProfileForm)
    requires f.name.Some? && f.email.Some? && f.phone.Some? && f.password.Some?
    requires UserAccounts.PatchAccepts(UserAccounts.UserPatch(f.name, f.email, f.phone, f.password))
    ensures HandleUpdate(f).Some?
  {
    assert Trim("") == "";
    assert NormalizeEmail("") == "";
  }

  /** The converse fails: the form's check lets a blank name and a short password through, which the server refuses. */
  lemma FormCheckIsWeakerThanServer()
    ensures var f := ProfileForm(Some(" "), Some("a@b.c"), Some("555"), Some("abc"));
      HandleUpdate(f).Some? && !UserAccounts.PatchAccepts(HandleUpdate(f).value)
  {
    var f := ProfileForm(Some(" "), Some("a@b.c"), Some("555"), Some("abc"));
    assert |f.password.value| < MinPasswordLength;
  }
}
