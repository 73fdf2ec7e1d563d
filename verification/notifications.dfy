/**
 * The notification inbox kept on each user (server/routes/notifications.js
 * and the `notifications` array of server/models/User.js): building an
 * entry, delivering it, and the newest-first read.
 */
module Notifications {
  import opened Common
  import opened Queries
  import opened Users

  /** The entry both the add and the broadcast routes build: `alternative || ""`, unread, stamped now. */
  function NewEntry(title: string, message: string, alternative: Option<string>, now: Time): (n: Notification)
    ensures n.title == title && n.message == message && n.timestamp == now && !n.read
    ensures n.alternative == "" <==> !Truthy(alternative)
    ensures Truthy(alternative) ==> n.alternative == alternative.value
  {
    Notification(title, message, if Truthy(alternative) then alternative.value else "", now, false)
  }

  /** `$push` / `push`: the entry goes last, nothing else of the user changes. */
  function Deliver(u: User, n: Notification): (r: User)
    ensures r.notifications == u.notifications + [n]
    ensures r.(notifications := u.notifications) == u
    ensures ValidUser(u) ==> ValidUser(r)
  {
    u.(notifications := u.notifications + [n])
  }

  function Timestamp(n: Notification): int {
    n.timestamp
  }

  /**
   * The inbox as the read route answers it: the same entries, newest first.
   * The sort is done on the loaded copy and never saved.
   */
  function Inbox(u: User): (r: seq<Notification>)
    ensures SortedBy(r, NewestFirst(Timestamp))
    ensures multiset(r) == multiset(u.notifications)
  {
    NewestFirstIsTotalPreorder(Timestamp);
    SortBy(u.notifications, NewestFirst(Timestamp))
  }

  /** A delivered entry stamped no earlier than every other entry is read back first. */
  lemma NewestDeliveredReadsFirst(u: User, n: Notification)
    requires forall m :: m in u.notifications ==> m.timestamp <= n.timestamp
    ensures var inbox := Inbox(Deliver(u, n)); |inbox| == |u.notifications| + 1 && inbox[0].timestamp == n.timestamp
  {
    var inbox := Inbox(Deliver(u, n));
    assert n in multiset(inbox);
    var k :| 0 <= k < |inbox| && inbox[k] == n;
    assert inbox[0] in multiset(u.notifications + [n]);
    assert inbox[0] in u.notifications + [n];
    assert inbox[0] in u.notifications || inbox[0] == n;
    assert inbox[0].timestamp <= n.timestamp;
    if k != 0 {
      assert NewestFirst(Timestamp)(inbox[0], inbox[k]);
      assert Timestamp(inbox[0]) >= Timestamp(inbox[k]);
    }
  }
}
