/**
 * The WiFi subscription (server/controllers/wifiController.js) as
 * transitions of one user record: credentials generated once and reused,
 * a two-minute validity per activation, and the status read that switches
 * an expired subscription off without forgetting its credentials.
 */
module Wifi {
  import opened Common
  import opened Text
  import Radix
  import opened Users

  /** Each activation is valid for two minutes. */
  const ValidityMs: nat := 2 * MinuteMs

  const WifiPrefix: string := "WIFI_"

  /** `generateWifiCredentials`: the id from the user id, the password from two random draws. */
  function Credentials(userId: string, random1: string, random2: string): (c: (string, string))
    ensures StartsWith(c.0, WifiPrefix)
  {
    (WifiPrefix + Upper(Substring(userId, 0, 8)),
     Upper(Substring(random1, 2, 10)) + Upper(Substring(random2, 2, 6)))
  }

  /**
   * The id is "WIFI_" and at most eight upper-cased characters of the user
   * id; the password is at most twelve upper-case base-36 digits, and
   * non-empty as soon as the first draw has a digit.
   */
  lemma CredentialsShape(userId: string, random1: string, random2: string)
    requires Radix.IsRandomText(random1) && Radix.IsRandomText(random2)
    ensures var c := Credentials(userId, random1, random2);
      && |c.0| <= |WifiPrefix| + 8 && |c.1| <= 12
      && Radix.AllDigits(c.1, 36)
      && (|random1| > 2 ==> c.1 != "")
  {
    Radix.RandomDigits(random1, 2, 10);
    Radix.RandomDigits(random2, 2, 6);
    var a := Upper(Substring(random1, 2, 10));
    var b := Upper(Substring(random2, 2, 6));
    assert forall i :: 0 <= i < |a + b| ==> (a + b)[i] == if i < |a| then a[i] else b[i - |a|];
    if |random1| > 2 {
      assert Substring(random1, 2, 10) == random1[2..Clamp(10, |random1|)];
    }
  }

  /** Credentials are reused when both are already set. */
  predicate HasCredentials(u: User) {
    u.wifiId != "" && u.wifiPassword != ""
  }

  /**
   * `activateWifiSubscription` once the user is found: active until two
   * minutes from now, with the stored credentials when both exist and fresh
   * ones otherwise; no other field changes.
   */
  function Activate(u: User, userId: string, now: Time, random1: string, random2: string): (r: User)
    ensures r.wifiActive && r.wifiExpiry == Some(now + ValidityMs)
    ensures r.wifiId != ""
    ensures HasCredentials(u) ==> r.wifiId == u.wifiId && r.wifiPassword == u.wifiPassword
    ensures !HasCredentials(u) ==> (r.wifiId, r.wifiPassword) == Credentials(userId, random1, random2)
    ensures r.(wifiActive := u.wifiActive, wifiExpiry := u.wifiExpiry, wifiId := u.wifiId, wifiPassword := u.wifiPassword) == u
  {
    var c := if HasCredentials(u) then (u.wifiId, u.wifiPassword) else Credentials(userId, random1, random2);
    u.(wifiActive := true, wifiExpiry := Some(now + ValidityMs), wifiId := c.0, wifiPassword := c.1)
  }

  /**
   * Once an activation has produced a non-empty password, every later
   * activation keeps the same credentials, whatever it draws.
   */
  lemma ReactivationKeepsCredentials(u: User, userId: string, now: Time, r1: string, r2: string,
                                     later: Time, s1: string, s2: string)
    requires Radix.IsRandomText(r1) && Radix.IsRandomText(r2) && |r1| > 2
    ensures var first := Activate(u, userId, now, r1, r2);
      var second := Activate(first, userId, later, s1, s2);
      second.wifiId == first.wifiId && second.wifiPassword == first.wifiPassword
      && second.wifiExpiry == Some(later + ValidityMs)
  {
    CredentialsShape(userId, r1, r2);
  }

  datatype WifiReport = WifiReport(isActive: bool, expiry: Option<Time>, wifiId: string, wifiPassword: string)

  predicate Expired(u: User, now: Time) {
    u.wifiActive && u.wifiExpiry.Some? && now > u.wifiExpiry.value
  }

  /**
   * `getWifiStatus`: an expired subscription is switched off and answered
   * with no expiry and blank credentials; the stored expiry and credentials
   * stay as they were. Otherwise the stored fields are answered unchanged.
   */
  function ReadStatus(u: User, now: Time): (r: (WifiReport, User))
    ensures r.0.isActive ==> r.0.expiry.None? || now <= r.0.expiry.value
    ensures Expired(u, now) ==> r.0 == WifiReport(false, None, "", "") && r.1 == u.(wifiActive := false)
    ensures !Expired(u, now) ==> r.0 == WifiReport(u.wifiActive, u.wifiExpiry, u.wifiId, u.wifiPassword) && r.1 == u
    ensures r.1.wifiId == u.wifiId && r.1.wifiPassword == u.wifiPassword && r.1.wifiExpiry == u.wifiExpiry
  {
    if Expired(u, now) then (WifiReport(false, None, "", ""), u.(wifiActive := false))
    else (WifiReport(u.wifiActive, u.wifiExpiry, u.wifiId, u.wifiPassword), u)
  }

  /**
   * An activation reads as active with its credentials for two minutes; once
   * that has passed the read switches it off, and activating again hands
   * back the same credentials.
   */
  lemma ActivationLifecycle(u: User, userId: string, now: Time, r1: string, r2: string,
                            readAt: Time, later: Time, s1: string, s2: string)
    requires Radix.IsRandomText(r1) && Radix.IsRandomText(r2) && |r1| > 2
    ensures var active := Activate(u, userId, now, r1, r2);
      var read := ReadStatus(active, readAt);
      && (readAt <= now + ValidityMs ==> read.0 == WifiReport(true, Some(now + ValidityMs), active.wifiId, active.wifiPassword))
      && (readAt > now + ValidityMs ==> !read.0.isActive && !read.1.wifiActive)
      && var again := Activate(read.1, userId, later, s1, s2);
         again.wifiId == active.wifiId && again.wifiPassword == active.wifiPassword
  {
    CredentialsShape(userId, r1, r2);
  }
}
