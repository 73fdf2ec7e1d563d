/**
 * What the client screens share: the values kept in the browser's local
 * storage after login, and the way a list screen loads its data for the
 * stored e-mail (client/src/components/BookedTickets.js,
 * client/src/components/QRTicket.js,
 * client/src/components/NotificationPanel.jsx).
 */
module ClientSession {
  import opened Common

  /** The path a list screen fetches for the stored e-mail, or None: without an e-mail nothing is fetched. */
  function RequestPath(prefix: string, storedEmail: Option<string>): (r: Option<string>)
    ensures r.None? <==> !Truthy(storedEmail)
    ensures r.Some? ==> r.value == prefix + storedEmail.value && |r.value| > |prefix|
  {
    if Truthy(storedEmail) then Some(prefix + storedEmail.value) else None
  }

  /** The state a list screen settles in: an error message, or the items to show. */
  datatype Loaded<T> = LoadError(message: string) | Shown(items: seq<T>)
}
