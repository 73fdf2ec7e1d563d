/**
 * The booking ledger: the Booking schema (server/models/Booking.js), the
 * save-after-payment path (server/controllers/paymentController.js) and the
 * booking handlers (server/controllers/bookingController.js). The collection
 * is a sequence of records in insertion order; every handler answers with an
 * HTTP status and changes the sequence in place.
 */
module Bookings {
  import opened Common
  import opened Text
  import Radix
  import opened Queries

  datatype BookingStatus = Pending | Approved | Rejected | Confirmed

  /** The stored spelling; the payment path's value is the lower-case "confirmed". */
  function StatusName(s: BookingStatus): string {
    match s
    case Pending => "Pending"
    case Approved => "Approved"
    case Rejected => "Rejected"
    case Confirmed => "confirmed"
  }

  /** The enum validator: exactly the four listed spellings, case-sensitive. */
  function ParseStatus(name: string): (r: Option<BookingStatus>)
    ensures r.Some? <==> name in {"Pending", "Approved", "Rejected", "confirmed"}
    ensures r.Some? ==> StatusName(r.value) == name
  {
    if name == "Pending" then Some(Pending)
    else if name == "Approved" then Some(Approved)
    else if name == "Rejected" then Some(Rejected)
    else if name == "confirmed" then Some(Confirmed)
    else None
  }

  lemma StatusRoundTrip(s: BookingStatus)
    ensures ParseStatus(StatusName(s)) == Some(s)
  {
  }

  /** A stored booking. The snapshot fields copied from the schedule are optional. */
  datatype Booking = Booking(
    id: Id,
    ticketId: string,
    trainId: Id,
    trainName: Option<string>,
    from: Option<string>,
    to: Option<string>,
    departureTime: Option<string>,
    arrivalTime: Option<string>,
    price: Option<int>,
    userName: string,
    userEmail: string,
    paymentIntentId: string,
    bookingTime: Time,
    expiryDate: Time,
    status: BookingStatus)

  const DefaultUserName: string := "Guest User"
  const WeekMs: nat := 7 * DayMs

  /** What the validators demand of a stored booking: a non-empty ticket id and an ObjectId train reference. */
  predicate ValidBooking(b: Booking) {
    b.ticketId != "" && IsObjectId(b.trainId)
  }

  /**
   * A request body as the handlers receive it: every schema field may be
   * absent. `passengerName` and `passengerPhone` are checked by
   * `createBooking` but are not schema fields, so they are never stored.
   */
  datatype BookingBody = BookingBody(
    ticketId: Option<string>,
    trainId: Option<string>,
    trainName: Option<string>,
    from: Option<string>,
    to: Option<string>,
    departureTime: Option<string>,
    arrivalTime: Option<string>,
    price: Option<int>,
    userName: Option<string>,
    userEmail: Option<string>,
    paymentIntentId: Option<string>,
    bookingTime: Option<Time>,
    expiryDate: Option<Time>,
    status: Option<string>,
    passengerName: Option<string>,
    passengerPhone: Option<string>)

  /** The schema's required, cast and enum validators on a new document. */
  predicate SchemaAccepts(body: BookingBody) {
    && Truthy(body.ticketId)
    && body.trainId.Some? && IsObjectId(body.trainId.value)
    && body.expiryDate.Some?
    && (body.status.None? || ParseStatus(body.status.value).Some?)
  }

  /** `new Booking(body)`: validation, then the defaults for the absent fields. */
  function Construct(body: BookingBody, id: Id, now: Time): (r: Result<Booking>)
    ensures r.Ok? <==> SchemaAccepts(body)
    ensures r.Ok? ==> ValidBooking(r.value) && r.value.id == id
    ensures r.Ok? ==> r.value.status == (if body.status.None? then Pending else ParseStatus(body.status.value).value)
    ensures r.Ok? ==> r.value.userName == body.userName.GetOr(DefaultUserName)
    ensures r.Ok? ==> r.value.userEmail == body.userEmail.GetOr("") && r.value.paymentIntentId == body.paymentIntentId.GetOr("")
    ensures r.Ok? ==> r.value.bookingTime == body.bookingTime.GetOr(now)
    ensures r.Ok? ==> r.value.ticketId == body.ticketId.value && r.value.trainId == body.trainId.value
    ensures r.Ok? ==> r.value.trainName == body.trainName && r.value.from == body.from && r.value.to == body.to
    ensures r.Ok? ==> r.value.departureTime == body.departureTime && r.value.arrivalTime == body.arrivalTime
    ensures r.Ok? ==> r.value.price == body.price && r.value.expiryDate == body.expiryDate.value
  {
    if !SchemaAccepts(body) then Err("Booking validation failed")
    else
      Ok(Booking(
        id, body.ticketId.value, body.trainId.value,
        body.trainName, body.from, body.to, body.departureTime, body.arrivalTime, body.price,
        body.userName.GetOr(DefaultUserName), body.userEmail.GetOr(""), body.paymentIntentId.GetOr(""),
        body.bookingTime.GetOr(now), body.expiryDate.value,
        if body.status.None? then Pending else ParseStatus(body.status.value).value))
  }

  /** The validators `findByIdAndUpdate` runs (`runValidators`) on the paths a patch sets. */
  predicate PatchAccepts(patch: BookingBody) {
    && (patch.ticketId.None? || patch.ticketId.value != "")
    && (patch.trainId.None? || IsObjectId(patch.trainId.value))
    && (patch.status.None? || ParseStatus(patch.status.value).Some?)
  }

  /**
   * `$set` of the supplied fields; everything else is kept. The two fields
   * `createBooking` checks but the schema lacks are not stored.
   */
  function Apply(b: Booking, patch: BookingBody): (r: Result<Booking>)
    ensures r.Ok? <==> PatchAccepts(patch)
    ensures r.Ok? ==> r.value.id == b.id && (ValidBooking(b) ==> ValidBooking(r.value))
    ensures r.Ok? ==> SetPath(patch.ticketId, b.ticketId, r.value.ticketId)
    ensures r.Ok? ==> SetPath(patch.trainId, b.trainId, r.value.trainId)
    ensures r.Ok? ==> SetOptionalPath(patch.trainName, b.trainName, r.value.trainName)
    ensures r.Ok? ==> SetOptionalPath(patch.from, b.from, r.value.from)
    ensures r.Ok? ==> SetOptionalPath(patch.to, b.to, r.value.to)
    ensures r.Ok? ==> SetOptionalPath(patch.departureTime, b.departureTime, r.value.departureTime)
    ensures r.Ok? ==> SetOptionalPath(patch.arrivalTime, b.arrivalTime, r.value.arrivalTime)
    ensures r.Ok? ==> SetOptionalPath(patch.price, b.price, r.value.price)
    ensures r.Ok? ==> SetPath(patch.userName, b.userName, r.value.userName)
    ensures r.Ok? ==> SetPath(patch.userEmail, b.userEmail, r.value.userEmail)
    ensures r.Ok? ==> SetPath(patch.paymentIntentId, b.paymentIntentId, r.value.paymentIntentId)
    ensures r.Ok? ==> SetPath(patch.bookingTime, b.bookingTime, r.value.bookingTime)
    ensures r.Ok? ==> SetPath(patch.expiryDate, b.expiryDate, r.value.expiryDate)
    ensures r.Ok? ==> if patch.status.Some? then Some(r.value.status) == ParseStatus(patch.status.value)
                      else r.value.status == b.status
  {
    if !PatchAccepts(patch) then Err("Validation failed")
    else
      Ok(b.(
        ticketId := SetValue(patch.ticketId, b.ticketId),
        trainId := SetValue(patch.trainId, b.trainId),
        trainName := SetOptionalValue(patch.trainName, b.trainName),
        from := SetOptionalValue(patch.from, b.from),
        to := SetOptionalValue(patch.to, b.to),
        departureTime := SetOptionalValue(patch.departureTime, b.departureTime),
        arrivalTime := SetOptionalValue(patch.arrivalTime, b.arrivalTime),
        price := SetOptionalValue(patch.price, b.price),
        userName := SetValue(patch.userName, b.userName),
        userEmail := SetValue(patch.userEmail, b.userEmail),
        paymentIntentId := SetValue(patch.paymentIntentId, b.paymentIntentId),
        bookingTime := SetValue(patch.bookingTime, b.bookingTime),
        expiryDate := SetValue(patch.expiryDate, b.expiryDate),
        status := if patch.status.Some? then ParseStatus(patch.status.value).value else b.status))
  }

  const EmptyBody: BookingBody :=
    BookingBody(None, None, None, None, None, None, None, None, None, None, None, None, None, None, None, None)

  /** An update that supplies nothing changes nothing. */
  lemma ApplyEmpty(b: Booking)
    ensures Apply(b, EmptyBody) == Ok(b)
  {
  }

  /** Sending the same update twice has the effect of sending it once. */
  lemma ApplyIdempotent(b: Booking, patch: BookingBody)
    requires PatchAccepts(patch)
    ensures Apply(Apply(b, patch).value, patch) == Apply(b, patch)
  {
  }

  // ----- ticket identifiers -----

  /**
   * `generateTicketId`: "TKT-", the upper-case base-36 clock reading, "-",
   * and characters 2 to 7 (the first five random digits) of
   * `Math.random().toString(36)`, upper-cased.
   */
  function TicketId(now: Time, random: string): (t: string)
    ensures StartsWith(t, "TKT-")
  {
    "TKT-" + Radix.ToRadix(now, 36) + "-" + Upper(Substring(random, 2, 7))
  }

  /** Reads a ticket identifier back into its clock reading and random suffix. */
  function ParseTicketId(t: string): Option<(nat, string)> {
    var parts := Split(t, '-');
    if |parts| == 3 && parts[0] == "TKT" && Radix.AllDigits(parts[1], 36)
    then Some((Radix.FromRadix(parts[1], 36), parts[2]))
    else None
  }

  /**
   * A ticket identifier encodes the time it was issued and at most five
   * upper-case base-36 characters, and both can be read back.
   */
  lemma TicketIdRoundTrip(now: Time, random: string)
    requires Radix.IsRandomText(random)
    ensures var suffix := Upper(Substring(random, 2, 7));
      && |suffix| <= 5 && Radix.AllDigits(suffix, 36)
      && ParseTicketId(TicketId(now, random)) == Some((now, suffix))
  {
    var stamp := Radix.ToRadix(now, 36);
    var suffix := Upper(Substring(random, 2, 7));
    Radix.RandomDigits(random, 2, 7);
    Radix.DigitsHaveNoDash(stamp, 36);
    Radix.DigitsHaveNoDash(suffix, 36);
    var parts := ["TKT", stamp, suffix];
    assert Join(parts, '-') == TicketId(now, random) by {
      assert Join(parts[2..], '-') == suffix;
      assert Join(parts[1..], '-') == stamp + "-" + suffix;
    }
    SplitJoin(parts, '-');
    Radix.FromToRadix(now, 36);
  }

  /** Tickets issued at different clock readings never collide, whatever the random parts. */
  lemma TicketIdsDifferInTime(now1: Time, now2: Time, random1: string, random2: string)
    requires Radix.IsRandomText(random1) && Radix.IsRandomText(random2) && now1 != now2
    ensures TicketId(now1, random1) != TicketId(now2, random2)
  {
    TicketIdRoundTrip(now1, random1);
    TicketIdRoundTrip(now2, random2);
  }

  // ----- the ledger -----

  /** The fields `saveBookingAfterPayment` reads from the request body. */
  datatype PaymentRequest = PaymentRequest(
    trainId: string,
    trainName: string,
    from: string,
    to: string,
    departure: string,
    arrival: string,
    price: int,
    passengerName: string,
    passengerEmail: string,
    paymentIntentId: string)

  /** The duplicate key of the payment path: passenger e-mail, stations and both times. */
  predicate SameSlot(b: Booking, email: string, from: string, to: string, departure: string, arrival: string) {
    && b.userEmail == email
    && b.from == Some(from) && b.to == Some(to)
    && b.departureTime == Some(departure) && b.arrivalTime == Some(arrival)
  }

  predicate HasSlot(rs: seq<Booking>, req: PaymentRequest) {
    exists i :: 0 <= i < |rs| && SameSlot(rs[i], req.passengerEmail, req.from, req.to, req.departure, req.arrival)
  }

  predicate TicketTaken(rs: seq<Booking>, ticketId: string) {
    exists i :: 0 <= i < |rs| && rs[i].ticketId == ticketId
  }

  /** The unique ticket index: a booking other than `id` already holds `ticketId`. */
  predicate TicketHeldByOther(rs: seq<Booking>, id: Id, ticketId: string) {
    exists j :: 0 <= j < |rs| && rs[j].id != id && rs[j].ticketId == ticketId
  }

  predicate IdFree(rs: seq<Booking>, id: Id) {
    forall i :: 0 <= i < |rs| ==> rs[i].id != id
  }

  /** The position of the booking with document id `id`. */
  function IndexOfId(rs: seq<Booking>, id: Id): (r: Option<nat>)
    ensures r.Some? ==> r.value < |rs| && rs[r.value].id == id
    ensures r.None? <==> IdFree(rs, id)
  {
    Find(rs, (b: Booking) => b.id == id)
  }

  /** Every stored booking is valid; document ids and ticket ids are unique. */
  predicate LedgerInvariant(rs: seq<Booking>) {
    && (forall i :: 0 <= i < |rs| ==> ValidBooking(rs[i]))
    && UniqueBy(rs, (b: Booking) => b.id)
    && UniqueBy(rs, (b: Booking) => b.ticketId)
  }

  /** The record the payment path builds: renamed request fields, status "confirmed", valid for a week. */
  function PaidBooking(req: PaymentRequest, id: Id, now: Time, random: string): Booking {
    Booking(
      id, TicketId(now, random), req.trainId,
      Some(req.trainName), Some(req.from), Some(req.to), Some(req.departure), Some(req.arrival), Some(req.price),
      req.passengerName, req.passengerEmail, req.paymentIntentId,
      now, now + WeekMs, Confirmed)
  }

  /**
   * The paid booking carries the request under the schema's names, is
   * "confirmed" rather than the schema default, and expires seven days after
   * it was made; once stored it blocks another payment for the same slot.
   */
  lemma PaidBookingFields(req: PaymentRequest, id: Id, now: Time, random: string)
    ensures var b := PaidBooking(req, id, now, random);
      && b.status == Confirmed && b.expiryDate - b.bookingTime == 7 * DayMs && b.bookingTime == now
      && b.departureTime == Some(req.departure) && b.arrivalTime == Some(req.arrival)
      && b.userName == req.passengerName && b.userEmail == req.passengerEmail
      && b.trainId == req.trainId && b.paymentIntentId == req.paymentIntentId
      && b.trainName == Some(req.trainName) && b.price == Some(req.price)
      && b.from == Some(req.from) && b.to == Some(req.to)
      && ValidBooking(b) == IsObjectId(req.trainId)
      && forall rs: seq<Booking> {:trigger HasSlot(rs + [b], req)} :: HasSlot(rs + [b], req)
  {
    var b := PaidBooking(req, id, now, random);
    assert StartsWith(b.ticketId, "TKT-");
    forall rs: seq<Booking> ensures HasSlot(rs + [b], req) {
      assert (rs + [b])[|rs|] == b;
    }
  }

  /** The duplicate key ignores the train, price and status: any stored booking on the slot blocks. */
  lemma AnyStatusBlocks(rs: seq<Booking>, i: nat, req: PaymentRequest)
    requires i < |rs|
    requires rs[i].userEmail == req.passengerEmail && rs[i].from == Some(req.from) && rs[i].to == Some(req.to)
    requires rs[i].departureTime == Some(req.departure) && rs[i].arrivalTime == Some(req.arrival)
    ensures HasSlot(rs, req)
    ensures forall s: BookingStatus :: HasSlot(rs[i := rs[i].(status := s)], req)
  {
    forall s: BookingStatus ensures HasSlot(rs[i := rs[i].(status := s)], req) {
      assert SameSlot(rs[i := rs[i].(status := s)][i], req.passengerEmail, req.from, req.to, req.departure, req.arrival);
    }
  }

  /** The five fields `createBooking` insists on before touching the store. */
  predicate HandlerFieldsPresent(body: BookingBody) {
    Truthy(body.trainName) && Truthy(body.from) && Truthy(body.to) && Truthy(body.passengerName) && Truthy(body.passengerPhone)
  }

  function BookingTimeOf(b: Booking): int {
    b.bookingTime
  }

  /** Removing the record at the position of `id` keeps exactly the records with other ids. */
  lemma RemoveOnly(rs: seq<Booking>, id: Id)
    requires UniqueBy(rs, (b: Booking) => b.id) && IndexOfId(rs, id).Some?
    ensures var i := IndexOfId(rs, id).value;
      forall b :: b in rs[..i] + rs[i + 1..] <==> b in rs && b.id != id
  {
    var i := IndexOfId(rs, id).value;
    assert forall j :: 0 <= j < |rs| && j != i ==> rs[j].id != id;
    SpliceKeepsOthers(rs, i, id);
  }

  /** Cutting out the one record with `id` keeps exactly the others. */
  lemma SpliceKeepsOthers(rs: seq<Booking>, i: nat, id: Id)
    requires i < |rs| && rs[i].id == id
    requires forall j :: 0 <= j < |rs| && j != i ==> rs[j].id != id
    ensures forall b :: b in rs[..i] + rs[i + 1..] <==> b in rs && b.id != id
  {
    var r := rs[..i] + rs[i + 1..];
    forall b | b in r ensures b in rs && b.id != id {
      var k :| 0 <= k < |r| && r[k] == b;
      var j := if k < i then k else k + 1;
      assert rs[j] == b && j != i;
    }
    forall b | b in rs && b.id != id ensures b in r {
      var j :| 0 <= j < |rs| && rs[j] == b;
      if j < i {
        assert r[j] == b;
      } else {
        assert r[j - 1] == b;
      }
    }
  }

  class BookingLedger {
    var records: seq<Booking>

    ghost predicate Valid()
      reads this
    {
      LedgerInvariant(records)
    }

    constructor ()
      ensures Valid() && records == []
    {
      records := [];
    }

    /**
     * `saveBookingAfterPayment`: a booking for the same passenger slot is
     * refused with 400; otherwise the confirmed booking is saved, unless the
     * train reference does not cast or the ticket id is already taken (the
     * unique index), which fail with 500. `id` is the fresh document id.
     */
    method SaveAfterPayment(req: PaymentRequest, id: Id, now: Time, random: string) returns (status: Status)
      requires Valid() && IdFree(records, id)
      modifies this
      ensures Valid()
      ensures status in {201, 400, 500}
      ensures status == 400 <==> HasSlot(old(records), req)
      ensures status == 500 <==>
        (!HasSlot(old(records), req) && (!IsObjectId(req.trainId) || TicketTaken(old(records), TicketId(now, random))))
      ensures status == 201 ==> records == old(records) + [PaidBooking(req, id, now, random)]
      ensures status != 201 ==> records == old(records)
    {
      var existing := Find(records, (b: Booking) =>
        SameSlot(b, req.passengerEmail, req.from, req.to, req.departure, req.arrival));
      if existing.Some? {
        return 400;
      }
      var booking := PaidBooking(req, id, now, random);
      var clash := Find(records, (b: Booking) => b.ticketId == booking.ticketId);
      if !ValidBooking(booking) || clash.Some? {
        return 500;
      }
      records := records + [booking];
      status := 201;
    }

    /**
     * `createBooking`: 400 unless the five handler fields are non-empty; then
     * the body is stored as given, with no duplicate check, or 500 when the
     * schema or the ticket index refuses it.
     */
    method Create(body: BookingBody, id: Id, now: Time) returns (status: Status)
      requires Valid() && IdFree(records, id)
      modifies this
      ensures Valid()
      ensures status in {201, 400, 500}
      ensures status == 400 <==> !HandlerFieldsPresent(body)
      ensures status == 201 <==> HandlerFieldsPresent(body) && SchemaAccepts(body) && !TicketTaken(old(records), body.ticketId.value)
      ensures status == 201 ==> records == old(records) + [Construct(body, id, now).value]
      ensures status != 201 ==> records == old(records)
    {
      if !HandlerFieldsPresent(body) {
        return 400;
      }
      var built := Construct(body, id, now);
      if built.Err? {
        return 500;
      }
      var booking := built.value;
      var clash := Find(records, (b: Booking) => b.ticketId == booking.ticketId);
      if clash.Some? {
        return 500;
      }
      records := records + [booking];
      status := 201;
    }

    /** `getBookings`: every booking, newest `bookingTime` first. */
    function ListAll(): (r: seq<Booking>)
      reads this
      ensures multiset(r) == multiset(records)
      ensures SortedBy(r, NewestFirst(BookingTimeOf))
    {
      NewestFirstIsTotalPreorder(BookingTimeOf);
      SortBy(records, NewestFirst(BookingTimeOf))
    }

    /** `getUserBookings`: exactly the bookings whose `userEmail` equals `email`, newest first. */
    function ListByUser(email: string): (r: seq<Booking>)
      reads this
      ensures forall b :: b in r <==> b in records && b.userEmail == email
      ensures multiset(r) == multiset(Filter(records, (b: Booking) => b.userEmail == email))
      ensures SortedBy(r, NewestFirst(BookingTimeOf))
    {
      NewestFirstIsTotalPreorder(BookingTimeOf);
      var mine := Filter(records, (b: Booking) => b.userEmail == email);
      var r := SortBy(mine, NewestFirst(BookingTimeOf));
      SameMembers(r, mine);
      r
    }

    /** `getBookingById`: a malformed id fails the cast (500), an unknown one is 404. */
    function Get(id: Id): (r: (Status, Option<Booking>))
      reads this
      ensures r.0 == 500 <==> !IsObjectId(id)
      ensures r.0 == 404 <==> IsObjectId(id) && IdFree(records, id)
      ensures r.0 == 200 <==> r.1.Some?
      ensures r.1.Some? ==> r.1.value in records && r.1.value.id == id
    {
      if !IsObjectId(id) then (500, None)
      else
        var i := IndexOfId(records, id);
        if i.None? then (404, None) else (200, Some(records[i.value]))
    }

    /**
     * `updateBooking`: sets the supplied fields of the booking with `id`. The
     * id cast and the update validators (`runValidators`) come before the
     * lookup, so a malformed id or a refused field is 500 even for an unknown
     * booking; then an unknown id is 404, and a ticket id another booking
     * holds is refused by the unique index (500).
     */
    method Update(id: Id, patch: BookingBody) returns (status: Status)
      requires Valid()
      modifies this
      ensures Valid()
      ensures status in {200, 404, 500}
      ensures status == 404 <==> IsObjectId(id) && PatchAccepts(patch) && IdFree(old(records), id)
      ensures status == 500 <==>
        (|| !IsObjectId(id) || !PatchAccepts(patch)
         || (IndexOfId(old(records), id).Some?
             && TicketHeldByOther(old(records), id, Apply(old(records)[IndexOfId(old(records), id).value], patch).value.ticketId)))
      ensures status == 200 ==> IndexOfId(old(records), id).Some? && PatchAccepts(patch)
      ensures status == 200 ==>
        (var i := IndexOfId(old(records), id).value; records == old(records)[i := Apply(old(records)[i], patch).value])
      ensures status != 200 ==> records == old(records)
    {
      if !IsObjectId(id) || !PatchAccepts(patch) {
        return 500;
      }
      var found := IndexOfId(records, id);
      if found.None? {
        return 404;
      }
      var i := found.value;
      var b := Apply(records[i], patch).value;
      var clash := Find(records, (other: Booking) => other.id != id && other.ticketId == b.ticketId);
      if clash.Some? {
        return 500;
      }
      assert forall j :: 0 <= j < |records| && j != i ==> records[j].ticketId != b.ticketId by {
        forall j | 0 <= j < |records| && j != i ensures records[j].ticketId != b.ticketId {
          assert records[j].id != id;
        }
      }
      records := records[i := b];
      status := 200;
    }

    /** `deleteBooking`: removes the booking with `id` and nothing else. */
    method Delete(id: Id) returns (status: Status)
      requires Valid()
      modifies this
      ensures Valid()
      ensures status in {200, 404, 500}
      ensures status == 500 <==> !IsObjectId(id)
      ensures status == 404 <==> IsObjectId(id) && IdFree(old(records), id)
      ensures status == 200 ==> var i := IndexOfId(old(records), id).value;
        records == old(records)[..i] + old(records)[i + 1..]
      ensures status != 200 ==> records == old(records)
    {
      if !IsObjectId(id) {
        return 500;
      }
      var found := IndexOfId(records, id);
      if found.None? {
        return 404;
      }
      var i := found.value;
      records := records[..i] + records[i + 1..];
      status := 200;
    }
  }
}
