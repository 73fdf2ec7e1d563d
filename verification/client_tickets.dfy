/**
 * The two ticket screens of the web client: the booked-tickets list, which
 * shows one booking per payment (client/src/components/BookedTickets.js),
 * and the QR-ticket screen, which offers the confirmed bookings and encodes
 * one as a JSON payload (client/src/components/QRTicket.js).
 */
module ClientTickets {
  import opened Common
  import opened Queries
  import opened Bookings
  import opened ClientSession

  // ----- booked tickets: one booking per payment -----

  /** The `findIndex` test for a booking with payment `pid`: it never holds for an empty `pid`. */
  function SamePayment(pid: string): Booking -> bool {
    (b: Booking) => b.paymentIntentId == pid && pid != ""
  }

  /** Position `i` is the first booking carrying its (non-empty) payment reference. */
  predicate FirstOfPayment(all: seq<Booking>, i: int)
    requires 0 <= i < |all|
  {
    Find(all, SamePayment(all[i].paymentIntentId)) == Some(i)
  }

  /** What the `findIndex` comparison decides, in plain terms. */
  lemma FirstOfPaymentMeans(all: seq<Booking>, i: int)
    requires 0 <= i < |all|
    ensures FirstOfPayment(all, i) <==>
      (all[i].paymentIntentId != "" && forall j :: 0 <= j < i ==> all[j].paymentIntentId != all[i].paymentIntentId)
  {
    var p := SamePayment(all[i].paymentIntentId);
    var found := Find(all, p);
    if all[i].paymentIntentId == "" {
      assert forall j :: 0 <= j < |all| ==> !p(all[j]);
      assert found.None?;
    } else {
      assert p(all[i]);
      assert found.Some?;
      if forall j :: 0 <= j < i ==> all[j].paymentIntentId != all[i].paymentIntentId {
        assert forall j :: 0 <= j < i ==> !p(all[j]);
        assert found.value == i;
      } else {
        var j :| 0 <= j < i && all[j].paymentIntentId == all[i].paymentIntentId;
        assert p(all[j]);
        assert found.value <= j;
      }
    }
  }

  predicate Increasing(idx: seq<nat>) {
    forall k, l :: 0 <= k < l < |idx| ==> idx[k] < idx[l]
  }

  /** The positions below `n` that the filter keeps, in order. */
  function KeptIndices(all: seq<Booking>, n: nat): (r: seq<nat>)
    requires n <= |all|
    ensures Increasing(r)
    ensures forall k :: 0 <= k < |r| ==> r[k] < n
    ensures forall i: int :: i in r <==> 0 <= i < n && FirstOfPayment(all, i)
  {
    if n == 0 then []
    else
      var rest := KeptIndices(all, n - 1);
      rest + (if FirstOfPayment(all, n - 1) then [n - 1] else [])
  }

  /** The bookings at the positions `idx`, in that order. */
  function Pick(all: seq<Booking>, idx: seq<nat>): (r: seq<Booking>)
    requires forall k :: 0 <= k < |idx| ==> idx[k] < |all|
    ensures |r| == |idx| && forall k :: 0 <= k < |r| ==> r[k] == all[idx[k]]
  {
    seq(|idx|, k requires 0 <= k < |idx| => all[idx[k]])
  }

  /** No kept booking has an empty payment reference. */
  lemma KeptHaveReferences(all: seq<Booking>)
    ensures var r := Pick(all, KeptIndices(all, |all|));
      forall k :: 0 <= k < |r| ==> r[k].paymentIntentId != ""
  {
    var idx := KeptIndices(all, |all|);
    forall k | 0 <= k < |idx| ensures all[idx[k]].paymentIntentId != "" {
      assert idx[k] in idx;
      FirstOfPaymentMeans(all, idx[k]);
    }
  }

  /** No two kept bookings share a payment reference. */
  lemma KeptAreDistinct(all: seq<Booking>)
    ensures UniqueBy(Pick(all, KeptIndices(all, |all|)), (b: Booking) => b.paymentIntentId)
  {
    var idx := KeptIndices(all, |all|);
    var r := Pick(all, idx);
    forall k, l | 0 <= k < l < |r| ensures r[k].paymentIntentId != r[l].paymentIntentId {
      assert idx[l] in idx;
      FirstOfPaymentMeans(all, idx[l]);
    }
  }

  /** A non-empty payment reference first occurs at a position the filter keeps. */
  lemma FirstOccurrence(all: seq<Booking>, i: int) returns (j: int)
    requires 0 <= i < |all| && all[i].paymentIntentId != ""
    ensures 0 <= j < |all| && FirstOfPayment(all, j)
    ensures all[j].paymentIntentId == all[i].paymentIntentId
  {
    var p := SamePayment(all[i].paymentIntentId);
    assert p(all[i]);
    j := Find(all, p).value;
    FirstOfPaymentMeans(all, j);
    forall m | 0 <= m < j ensures all[m].paymentIntentId != all[j].paymentIntentId {
      assert !p(all[m]);
    }
  }

  /** The kept position that carries the payment reference of `all[i]`. */
  lemma KeptPosition(all: seq<Booking>, i: int) returns (k: int)
    requires 0 <= i < |all| && all[i].paymentIntentId != ""
    ensures 0 <= k < |KeptIndices(all, |all|)|
    ensures all[KeptIndices(all, |all|)[k]].paymentIntentId == all[i].paymentIntentId
  {
    var idx := KeptIndices(all, |all|);
    var j := FirstOccurrence(all, i);
    assert j in idx;
    k :| 0 <= k < |idx| && idx[k] == j;
  }

  /** Every non-empty payment reference of the input is carried by a kept booking. */
  lemma KeptCoverReferences(all: seq<Booking>)
    ensures var r := Pick(all, KeptIndices(all, |all|));
      forall i :: 0 <= i < |all| && all[i].paymentIntentId != "" ==>
        exists k :: 0 <= k < |r| && r[k].paymentIntentId == all[i].paymentIntentId
  {
    var idx := KeptIndices(all, |all|);
    var r := Pick(all, idx);
    forall i | 0 <= i < |all| && all[i].paymentIntentId != ""
      ensures exists k :: 0 <= k < |r| && r[k].paymentIntentId == all[i].paymentIntentId
    {
      var k := KeptPosition(all, i);
      assert r[k] == all[idx[k]];
    }
  }

  /**
   * The de-duplicated list: the order-preserving selection of `all` at the
   * kept positions. No two shown bookings share a payment reference, none
   * has an empty one, and every non-empty reference of `all` is shown.
   */
  function UniqueBookings(all: seq<Booking>): (r: seq<Booking>)
    ensures var idx := KeptIndices(all, |all|);
      |r| == |idx| && forall k :: 0 <= k < |r| ==> r[k] == all[idx[k]]
    ensures UniqueBy(r, (b: Booking) => b.paymentIntentId)
    ensures forall k :: 0 <= k < |r| ==> r[k].paymentIntentId != ""
    ensures forall i :: 0 <= i < |all| && all[i].paymentIntentId != "" ==>
      exists k :: 0 <= k < |r| && r[k].paymentIntentId == all[i].paymentIntentId
  {
    KeptHaveReferences(all);
    KeptAreDistinct(all);
    KeptCoverReferences(all);
    Pick(all, KeptIndices(all, |all|))
  }

  /** In a list whose references are already distinct and non-empty, each position is the first of its payment. */
  lemma DistinctAreFirst(all: seq<Booking>, i: int)
    requires 0 <= i < |all|
    requires UniqueBy(all, (b: Booking) => b.paymentIntentId)
    requires forall k :: 0 <= k < |all| ==> all[k].paymentIntentId != ""
    ensures FirstOfPayment(all, i)
  {
    var key := (b: Booking) => b.paymentIntentId;
    forall j | 0 <= j < i ensures all[j].paymentIntentId != all[i].paymentIntentId {
      assert key(all[j]) != key(all[i]);
    }
    FirstOfPaymentMeans(all, i);
  }

  /** A position that is the first of its payment extends the kept positions by itself. */
  lemma KeptStep(all: seq<Booking>, n: nat)
    requires 0 < n <= |all| && FirstOfPayment(all, n - 1)
    ensures KeptIndices(all, n) == KeptIndices(all, n - 1) + [n - 1]
  {
  }

  /** The positions 0, 1, ..., n - 1. */
  function Positions(n: nat): (r: seq<nat>)
    ensures |r| == n && forall k :: 0 <= k < n ==> r[k] == k
  {
    seq(n, k requires 0 <= k < n => k)
  }

  /** The positions below `n` extend those below `n - 1` by `n - 1`. */
  lemma PositionsStep(n: nat)
    requires n > 0
    ensures Positions(n - 1) + [n - 1] == Positions(n)
  {
    var a, b := Positions(n - 1) + [n - 1], Positions(n);
    assert |a| == |b|;
    forall k | 0 <= k < n ensures a[k] == b[k] {
      if k < n - 1 {
        assert a[k] == Positions(n - 1)[k];
      }
    }
  }

  /** When every position is the first of its payment, every position below `n` is kept, in order. */
  lemma {:induction false} AllKept(all: seq<Booking>, n: nat)
    requires n <= |all|
    requires UniqueBy(all, (b: Booking) => b.paymentIntentId)
    requires forall k :: 0 <= k < |all| ==> all[k].paymentIntentId != ""
    ensures KeptIndices(all, n) == Positions(n)
  {
    if n > 0 {
      AllKept(all, n - 1);
      DistinctAreFirst(all, n - 1);
      KeptStep(all, n);
      PositionsStep(n);
    }
  }

  /** De-duplicating twice is de-duplicating once. */
  lemma UniqueBookingsIdempotent(all: seq<Booking>)
    ensures UniqueBookings(UniqueBookings(all)) == UniqueBookings(all)
  {
    var r := UniqueBookings(all);
    AllKept(r, |r|);
    assert Pick(r, Positions(|r|)) == r;
  }

  /**
   * `fetchUserBookings` of the booked-tickets screen: without a stored
   * e-mail an error is shown and nothing is fetched; a failed request shows
   * an error; else one booking per payment is shown. `response` is the
   * user's booking list, None when the request failed.
   */
  function LoadBookedTickets(storedEmail: Option<string>, response: Option<seq<Booking>>): (r: Loaded<Booking>)
    ensures RequestPath("/api/bookings/user/", storedEmail).None? ==> r == LoadError("Please log in to view your bookings")
    ensures Truthy(storedEmail) && response.None? ==> r == LoadError("Failed to load bookings")
    ensures Truthy(storedEmail) && response.Some? ==> r == Shown(UniqueBookings(response.value))
  {
    if !Truthy(storedEmail) then LoadError("Please log in to view your bookings")
    else if response.None? then LoadError("Failed to load bookings")
    else Shown(UniqueBookings(response.value))
  }

  // ----- QR tickets -----

  /** The client's test `status === 'confirmed'` on the stored spelling. */
  function IsConfirmed(): Booking -> bool {
    (b: Booking) => StatusName(b.status) == "confirmed"
  }

  /** Only the payment path's "confirmed" passes the case-sensitive test; "Approved" does not. */
  function ConfirmedBookings(bs: seq<Booking>): (r: seq<Booking>)
    ensures forall b :: b in r <==> b in bs && b.status == Confirmed
    ensures forall b :: multiset(r)[b] == if b.status == Confirmed then multiset(bs)[b] else 0
    ensures r == Filter(bs, IsConfirmed())
  {
    var r := Filter(bs, IsConfirmed());
    FilterCounts(bs, IsConfirmed());
    assert forall b: Booking :: IsConfirmed()(b) <==> b.status == Confirmed;
    r
  }

  /** `fetchUserBookings` of the QR screen: as for booked tickets, but keeping the confirmed bookings. */
  function LoadQRTickets(storedEmail: Option<string>, response: Option<seq<Booking>>): (r: Loaded<Booking>)
    ensures RequestPath("/api/bookings/user/", storedEmail).None? ==> r == LoadError("Please log in to view your tickets")
    ensures Truthy(storedEmail) && response.None? ==> r == LoadError("Failed to load bookings")
    ensures Truthy(storedEmail) && response.Some? ==> r == Shown(ConfirmedBookings(response.value))
  {
    if !Truthy(storedEmail) then LoadError("Please log in to view your tickets")
    else if response.None? then LoadError("Failed to load bookings")
    else Shown(ConfirmedBookings(response.value))
  }

  /** A JSON value of the payload; a date is serialised from its instant. */
  datatype Json = JStr(s: string) | JNum(n: int) | JDate(t: Time)

  function StrField(v: Option<string>): Option<Json> {
    if v.Some? then Some(JStr(v.value)) else None
  }

  function NumField(v: Option<int>): Option<Json> {
    if v.Some? then Some(JNum(v.value)) else None
  }

  /** The object literal before serialisation: key and value, undefined values as None. */
  function Entries(b: Booking): seq<(string, Option<Json>)> {
    [ ("ticketId", Some(JStr(b.ticketId))),
      ("bookingId", Some(JStr(b.id))),
      ("trainName", StrField(b.trainName)),
      ("from", StrField(b.from)),
      ("to", StrField(b.to)),
      ("departure", StrField(b.departureTime)),
      ("arrival", StrField(b.arrivalTime)),
      ("passenger", Some(JStr(b.userName))),
      ("email", Some(JStr(b.userEmail))),
      ("price", NumField(b.price)),
      ("status", Some(JStr(StatusName(b.status)))),
      ("paymentId", Some(JStr(b.paymentIntentId))),
      ("expiresAt", Some(JDate(b.expiryDate))) ]
  }

  /** The thirteen keys of the payload, in order. */
  const QRKeys: seq<string> := ["ticketId", "bookingId", "trainName", "from", "to", "departure", "arrival",
                                "passenger", "email", "price", "status", "paymentId", "expiresAt"]

  predicate DistinctKeys(es: seq<(string, Option<Json>)>) {
    forall k, l :: 0 <= k < l < |es| ==> es[k].0 != es[l].0
  }

  /** `JSON.stringify`: the defined entries, in order; an undefined value drops its key. */
  function Stringify(es: seq<(string, Option<Json>)>): (r: seq<(string, Json)>)
    ensures |r| <= |es|
    ensures forall p :: p in r ==> (p.0, Some(p.1)) in es
  {
    if es == [] then []
    else (if es[0].1.Some? then [(es[0].0, es[0].1.value)] else []) + Stringify(es[1..])
  }

  /** Reading a key back from the parsed payload. */
  function Get(o: seq<(string, Json)>, key: string): (r: Option<Json>)
    ensures r.Some? ==> (key, r.value) in o
    ensures r.None? <==> forall p :: p in o ==> p.0 != key
  {
    if o == [] then None
    else if o[0].0 == key then Some(o[0].1)
    else Get(o[1..], key)
  }

  /** With distinct keys, parsing the payload back gives each entry's value under its key (None when undefined). */
  lemma {:induction false} GetStringified(es: seq<(string, Option<Json>)>, k: int)
    requires DistinctKeys(es) && 0 <= k < |es|
    ensures Get(Stringify(es), es[k].0) == es[k].1
  {
    var rest := Stringify(es[1..]);
    assert DistinctKeys(es[1..]) by {
      forall a, b | 0 <= a < b < |es[1..]| ensures es[1..][a].0 != es[1..][b].0 {
        assert es[a + 1].0 != es[b + 1].0;
      }
    }
    if k == 0 {
      forall p | p in rest ensures p.0 != es[0].0 {
        var j :| 0 <= j < |es[1..]| && es[1..][j] == (p.0, Some(p.1));
        assert es[j + 1].0 != es[0].0;
      }
    } else {
      GetStringified(es[1..], k - 1);
      assert es[1..][k - 1] == es[k];
    }
  }

  /** `generateQRData`. */
  function QRData(b: Booking): (r: seq<(string, Json)>)
    ensures forall p :: p in r ==> p.0 in QRKeys
  {
    EntryKeys(b);
    Stringify(Entries(b))
  }

  /** Every entry of the payload is under one of the thirteen keys. */
  lemma EntryKeys(b: Booking)
    ensures forall e :: e in Entries(b) ==> e.0 in QRKeys
  {
    EntriesHaveDistinctKeys(b);
    forall e | e in Entries(b) ensures e.0 in QRKeys {
      var j :| 0 <= j < 13 && Entries(b)[j] == e;
      assert e.0 == QRKeys[j];
    }
  }

  lemma EntriesHaveDistinctKeys(b: Booking)
    ensures DistinctKeys(Entries(b))
    ensures forall j :: 0 <= j < 13 ==> Entries(b)[j].0 == QRKeys[j]
  {
  }

  /**
   * Parsing the payload back returns every booking field under its payload
   * key: the id, times, passenger, e-mail, payment and expiry under their
   * new names, the rest by name, and nothing for an undefined field.
   */
  lemma QRDataRoundTrip(b: Booking)
    ensures Get(QRData(b), "ticketId") == Some(JStr(b.ticketId))
    ensures Get(QRData(b), "bookingId") == Some(JStr(b.id))
    ensures Get(QRData(b), "trainName") == StrField(b.trainName)
    ensures Get(QRData(b), "from") == StrField(b.from)
    ensures Get(QRData(b), "to") == StrField(b.to)
    ensures Get(QRData(b), "departure") == StrField(b.departureTime)
    ensures Get(QRData(b), "arrival") == StrField(b.arrivalTime)
    ensures Get(QRData(b), "passenger") == Some(JStr(b.userName))
    ensures Get(QRData(b), "email") == Some(JStr(b.userEmail))
    ensures Get(QRData(b), "price") == NumField(b.price)
    ensures Get(QRData(b), "status") == Some(JStr(StatusName(b.status)))
    ensures Get(QRData(b), "paymentId") == Some(JStr(b.paymentIntentId))
    ensures Get(QRData(b), "expiresAt") == Some(JDate(b.expiryDate))
  {
    var es := Entries(b);
    EntriesHaveDistinctKeys(b);
    GetStringified(es, 0);
    GetStringified(es, 1);
    GetStringified(es, 2);
    GetStringified(es, 3);
    GetStringified(es, 4);
    GetStringified(es, 5);
    GetStringified(es, 6);
    GetStringified(es, 7);
    GetStringified(es, 8);
    GetStringified(es, 9);
    GetStringified(es, 10);
    GetStringified(es, 11);
    GetStringified(es, 12);
  }

  /** A template literal renders an undefined value as the text "undefined". */
  function Template(v: Option<string>): string {
    if v.Some? then v.value else "undefined"
  }

  /** The file name of a downloaded ticket. */
  function DownloadName(b: Booking): (name: string)
    ensures |name| == |"ticket-"| + |Template(b.trainName)| + 1 + |b.id| + |".png"|
    ensures name[..7] == "ticket-" && name[|name| - 4..] == ".png"
    ensures name[|name| - 4 - |b.id| - 1..|name| - 4] == "-" + b.id
  {
    "ticket-" + Template(b.trainName) + "-" + b.id + ".png"
  }

  /** The QR screen: the confirmed bookings, the one whose code is shown, and the expiry on display. */
  class QRScreen {
    var bookings: seq<Booking>
    var selected: Option<Booking>
    var ticketExpiry: Option<Time>

    constructor (loaded: seq<Booking>)
      ensures bookings == loaded && selected.None? && ticketExpiry.None?
    {
      bookings := loaded;
      selected := None;
      ticketExpiry := None;
    }

    /** `handleGenerateQR`: selects the booking and shows its expiry; the list is left as it is. */
    method GenerateQR(b: Booking)
      modifies this
      ensures selected == Some(b) && ticketExpiry == Some(b.expiryDate)
      ensures bookings == old(bookings)
    {
      ticketExpiry := Some(b.expiryDate);
      selected := Some(b);
    }

    /**
     * `downloadQR`: nothing happens unless the code is on screen; else the
     * file is named after the selected booking and the expiry display is
     * cleared.
     */
    method Download(rendered: bool) returns (fileName: Option<string>)
      modifies this
      ensures fileName.Some? <==> old(selected).Some? && rendered
      ensures fileName.Some? ==> fileName.value == DownloadName(old(selected).value) && ticketExpiry.None?
      ensures fileName.None? ==> ticketExpiry == old(ticketExpiry)
      ensures bookings == old(bookings) && selected == old(selected)
    {
      if selected.None? || !rendered {
        return None;
      }
      fileName := Some(DownloadName(selected.value));
      ticketExpiry := None;
    }

    /** `closeQR`. */
    method Close()
      modifies this
      ensures selected.None?
      ensures bookings == old(bookings) && ticketExpiry == old(ticketExpiry)
    {
      selected := None;
    }
  }
}
