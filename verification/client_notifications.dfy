/**
 * The notification panel of the web client
 * (client/src/components/NotificationPanel.jsx): how it loads the user's
 * notifications and how it labels the age of each one.
 */
module ClientNotifications {
  import opened Common
  import opened Radix
  import opened Users
  import opened ClientSession
  import UserAccounts

  // ----- age labels -----

  const HourMs: nat := 60 * MinuteMs

  /** The age classes of `formatDate`; dates a day old or more are shown as a calendar date. */
  datatype Age = JustNow | MinutesAgo(n: nat) | HoursAgo(h: nat, plural: bool) | OnDate(t: Time)

  /**
   * `formatDate`: a missing timestamp, or one less than a minute old
   * (including one in the future), is "just now"; else whole minutes up to
   * an hour, whole hours up to a day (plural from two hours on), and the
   * calendar date beyond. Elapsed time is rounded down.
   */
  function AgeOf(timestamp: Option<Time>, now: Time): (r: Age)
    ensures r == JustNow <==> timestamp.None? || now - timestamp.value < MinuteMs
    ensures r.MinutesAgo? ==> (timestamp.Some? && 1 <= r.n < 60
      && r.n * MinuteMs <= now - timestamp.value < (r.n + 1) * MinuteMs)
    ensures r.HoursAgo? ==> (timestamp.Some? && 1 <= r.h < 24
      && r.h * HourMs <= now - timestamp.value < (r.h + 1) * HourMs
      && (r.plural <==> r.h >= 2))
    ensures r.OnDate? <==> timestamp.Some? && now - timestamp.value >= 24 * HourMs
    ensures r.OnDate? ==> r.t == timestamp.value
  {
    if timestamp.None? then JustNow
    else
      var diffMins := (now - timestamp.value) / MinuteMs;
      if diffMins < 1 then JustNow
      else if diffMins < 60 then MinutesAgo(diffMins)
      else if diffMins < 1440 then HoursAgo(diffMins / 60, diffMins >= 120)
      else OnDate(timestamp.value)
  }

  function Decimal(n: nat): string {
    ToRadix(n, 10)
  }

  /** The text of a relative age; the calendar-date form depends on the locale and is not modelled. */
  function RelativeLabel(age: Age): (s: string)
    requires !age.OnDate?
  {
    match age
    case JustNow => "Just now"
    case MinutesAgo(n) => Decimal(n) + " min ago"
    case HoursAgo(h, plural) => Decimal(h) + " hour" + (if plural then "s" else "") + " ago"
  }

  /** The number in a minutes or hours label reads back as the age it was made from. */
  lemma RelativeLabelReadsBack(age: Age)
    requires age.MinutesAgo? || age.HoursAgo?
    ensures age.MinutesAgo? ==> (var s := RelativeLabel(age);
      |s| > 8 && AllDigits(s[..|s| - 8], 10) && FromRadix(s[..|s| - 8], 10) == age.n)
    ensures age.HoursAgo? ==> (var s := RelativeLabel(age); var tail := if age.plural then 10 else 9;
      |s| > tail && AllDigits(s[..|s| - tail], 10) && FromRadix(s[..|s| - tail], 10) == age.h)
  {
    var s := RelativeLabel(age);
    if age.MinutesAgo? {
      assert s[..|s| - 8] == Decimal(age.n);
      FromToRadix(age.n, 10);
    } else {
      var tail := if age.plural then 10 else 9;
      assert s[..|s| - tail] == Decimal(age.h);
      FromToRadix(age.h, 10);
    }
  }

  // ----- loading -----

  /** The panel's view of the reply: a network failure, or a status with a body that is an array, another JSON value, or not JSON. */
  datatype Body = ArrayBody(items: seq<Notification>) | OtherJson | NotJson
  datatype Reply = NetworkError | Response(status: int, body: Body)

  const LoginMessage: string := "Please log in to view your notifications."
  const ConnectMessage: string := "Unable to connect to server. Please try again."

  /**
   * `fetchNotifications`: without a stored e-mail an error is shown and
   * nothing is fetched; a 404 shows an empty list; any other failure status,
   * a network error or an unreadable body shows the connection error; a
   * body that is not an array shows an empty list.
   */
  function LoadNotifications(storedEmail: Option<string>, reply: Reply): (r: Loaded<Notification>)
    ensures RequestPath("/api/notifications/user/", storedEmail).None? ==> r == LoadError(LoginMessage)
    ensures Truthy(storedEmail) && reply.Response? && reply.status == 404 ==> r == Shown([])
    ensures Truthy(storedEmail) && reply.Response? && 200 <= reply.status < 300 ==>
      r == (if reply.body.ArrayBody? then Shown(reply.body.items)
            else if reply.body.OtherJson? then Shown([]) else LoadError(ConnectMessage))
    ensures Truthy(storedEmail) && (reply.NetworkError? || !(200 <= reply.status < 300 || reply.status == 404)) ==>
      r == LoadError(ConnectMessage)
  {
    if !Truthy(storedEmail) then LoadError(LoginMessage)
    else if reply.NetworkError? then LoadError(ConnectMessage)
    else if !(200 <= reply.status < 300) then
      if reply.status == 404 then Shown([]) else LoadError(ConnectMessage)
    else if reply.body.NotJson? then LoadError(ConnectMessage)
    else if reply.body.ArrayBody? then Shown(reply.body.items)
    else Shown([])
  }

  /** The reply the server's read route gives for an e-mail. */
  function ServerReply(dir: UserAccounts.UserDirectory, email: string): Reply
    reads dir
  {
    var (status, items) := dir.Inbox(email);
    if status == 200 then Response(200, ArrayBody(items)) else Response(status, OtherJson)
  }

  /** Against the server's read route the panel never shows an error: it shows the user's inbox, or nothing for an unknown e-mail. */
  lemma PanelShowsServerInbox(dir: UserAccounts.UserDirectory, email: string)
    requires email != ""
    ensures LoadNotifications(Some(email), ServerReply(dir, email)) == Shown(dir.Inbox(email).1)
  {
  }
}
