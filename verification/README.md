# MRT mass-transit web app — a Dafny model

This project models the rules of a mass-transit web application. The server is
Express with Mongoose stores. The client is React. Every store is a sequence of
records held by a class, and every request handler is a method that returns an
HTTP status and updates that sequence. Each handler's `ensures` states the new
store.

The model covers the server's stores and the client rules that compute values:
- the **booking ledger**: saving after payment, the duplicate key, ticket
  identifiers and booking CRUD;
- the **schedule registry**;
- the **lost-and-found registry**: question filtering and claim
  verification;
- **per-user records**: accounts, favourite stations and routes, the student
  verification life cycle, the WiFi subscription and the notification inbox;
- **reports, ads, feedback, staff** and the hard-coded **admin login**;
- the **upload** file-name sanitiser and MIME allowlist;
- the **client screens**: schedule search and favourite-first ordering, the
  booking hand-off with the student discount, ticket de-duplication, the QR
  payload, the lost-and-found gallery and posting form, the notification panel
  and home screen, and the dual-URL request helpers.

The clock, random draws, fresh document ids, uploaded file names and network
replies are all parameters, so every rule is deterministic. Times are
milliseconds (`nat`).

Common building blocks:
- `Text`: JavaScript's `trim`, `includes`, `split` and `substring`, and
  `toLowerCase`/`toUpperCase` restricted to ASCII letters (see "Left out").
- `Radix`: `toString(36)` and decimal printing, with a proved round trip.
- `Queries`: `filter`, `findOne`/`findIndex` and `.sort(...)`, the last
  specified as a sorted permutation.

## Model

| member | source | states |
|---|---|---|
| Bookings.ParseStatus | server/models/Booking.js:41-45 | the status enum accepts exactly "Pending", "Approved", "Rejected" and "confirmed", case-sensitive, and a parsed status prints back as the text it came from |
| Bookings.StatusRoundTrip | server/models/Booking.js:41-45 | every status's stored spelling parses back to that status |
| Bookings.Construct | server/models/Booking.js:4-46 | `new Booking(body)` succeeds exactly when the schema accepts the body; the result is valid, has status "Pending" unless one is given, userName "Guest User", userEmail and paymentIntentId "" and bookingTime now by default; ticket id, train id, train name, stations, both times, price and expiry are the body's |
| Bookings.Apply | server/controllers/bookingController.js:51-54 | a `$set` patch with validators succeeds exactly when the validators accept it and keeps the id and validity; each of the thirteen stored fields becomes the supplied value or keeps its own, and a supplied status becomes the parsed status |
| Bookings.ApplyEmpty | server/controllers/bookingController.js:51-54 | an empty patch changes nothing |
| Bookings.ApplyIdempotent | server/controllers/bookingController.js:51-54 | applying the same patch twice equals applying it once |
| Bookings.TicketId | server/controllers/paymentController.js:38-42 | a ticket id starts with "TKT-" |
| Bookings.TicketIdRoundTrip | server/controllers/paymentController.js:38-42 | a ticket id reads back as its clock reading and a suffix of at most five upper-case base-36 digits |
| Bookings.TicketIdsDifferInTime | server/controllers/paymentController.js:38-42 | ticket ids issued at different clock readings never collide, whatever the random parts |
| Bookings.PaidBookingFields | server/controllers/paymentController.js:86-106 | the paid booking carries the request under the schema's names, has status "confirmed", and expires 7 days after its booking time, which is now; the train name, stations and price are the request's; it is valid exactly when the train id is an ObjectId; once stored it blocks the same slot |
| Bookings.AnyStatusBlocks | server/controllers/paymentController.js:69-83 | any stored booking with the same e-mail, stations and times blocks a save, whatever its status, train or price |
| Bookings.RemoveOnly | server/controllers/bookingController.js:65 | removing the record at an id's position keeps exactly the records with other ids, in order |
| Bookings.BookingLedger.SaveAfterPayment | server/controllers/paymentController.js:45-116 | 400 exactly when the slot is taken; 500 exactly when the slot is free but the train id does not cast or the ticket id is taken; on 201 exactly the paid booking is appended; otherwise the ledger is unchanged; the ledger invariant is kept |
| Bookings.BookingLedger.Create | server/controllers/bookingController.js:5-25 | 400 exactly when one of the five handler fields is missing; 201 exactly when they are present, the schema accepts the body and the ticket id is free, in which case the constructed booking is appended; no duplicate check is made; otherwise unchanged |
| Bookings.BookingLedger.ListAll | server/controllers/bookingController.js:28-35 | a permutation of every booking, sorted newest bookingTime first |
| Bookings.BookingLedger.ListByUser | server/controllers/bookingController.js:74-82 | exactly the bookings whose userEmail equals the e-mail, as a multiset, sorted newest first |
| Bookings.BookingLedger.Get | server/controllers/bookingController.js:38-46 | 500 exactly for a malformed id, 404 exactly for an unknown one, otherwise 200 with the booking with that id |
| Bookings.BookingLedger.Update | server/controllers/bookingController.js:49-60 | 404 exactly when the id casts, the patch passes the validators and no booking has the id; 500 exactly for a malformed id, a refused patch, or a patched ticket id that another booking holds; on 200 only that booking changes, to the patched record; otherwise unchanged; the invariant is kept |
| Bookings.BookingLedger.Delete | server/controllers/bookingController.js:63-71 | 500 for a malformed id, 404 for an unknown one; on 200 only the booking with that id is removed |
| Schedules.Construct | server/models/Schedule.js:4-14 | `new Schedule(body)` succeeds exactly when the five required strings are non-empty and a price is given; the result is valid, carries the body's train name, stations, times and price, and both timestamps are the creation time |
| Schedules.Apply | server/controllers/scheduleController.js:33-37 | an accepted patch keeps validity, the id and createdAt, and moves updatedAt to now; each of the train name, stations, times and price becomes the supplied value or keeps its own |
| Schedules.ApplySameValues | server/controllers/scheduleController.js:33-37 | a patch repeating every stored value is accepted and changes only updatedAt |
| Schedules.ScheduleRegistry.ListAll | server/controllers/scheduleController.js:5-13 | a permutation of every schedule, sorted newest createdAt first |
| Schedules.ScheduleRegistry.Get | server/routes/scheduleRoutes.js:14-24 | 500 exactly for a malformed id, 404 exactly for an unknown one, otherwise 200 with the schedule with that id |
| Schedules.ScheduleRegistry.Create | server/controllers/scheduleController.js:16-28 | 201 exactly when validation passes, and then exactly the constructed schedule is appended; 400 leaves the store unchanged |
| Schedules.ScheduleRegistry.Update | server/controllers/scheduleController.js:31-51 | 400 exactly for a malformed id or a refused field; 404 exactly for an unknown id; on 200 only that schedule changes, to the patched record |
| Schedules.ScheduleRegistry.Delete | server/controllers/scheduleController.js:54-67 | 500 for a malformed id, 404 for an unknown one; on 200 exactly that schedule is removed; bookings live in another store and are untouched |
| LostItems.ParseItemStatus | server/models/LostItem.js:16-20 | the item status enum accepts exactly "lost", "found" and "claimed" |
| LostItems.KeepValid | server/controllers/lostItemController.js:26-29 | the question filter fails (throws) exactly when some entry's test throws; when it succeeds it keeps no more entries than it was given, and every kept question and answer is non-blank |
| LostItems.KeepValidAppend | server/controllers/lostItemController.js:26-29 | the filter works entry by entry: on a concatenation it keeps the pairs of each part, in the order sent and once per occurrence, and throws exactly when either part throws |
| LostItems.KeepValidMembers | server/controllers/lostItemController.js:27-29 | a well-formed pair is kept exactly when it was sent and both strings are non-blank; it is kept as sent, untrimmed |
| LostItems.BuildItem | server/controllers/lostItemController.js:44-61 | the item is built exactly when the four required fields are non-blank; it is valid, "lost", has the kept questions, the trimmed title, description, contact name and phone, the trimmed e-mail or "", the upload paths of the files as photos, postedBy "anonymous" unless one is given, and both timestamps now |
| LostItems.CheckFromFirstFailure | server/controllers/lostItemController.js:145-154 | the comparison loop passes exactly when every answer matches after trim and lower-casing; otherwise it stops at the first question whose answer differs or throws, and every earlier answer matched |
| LostItems.BlankAnswersFailFirst | server/controllers/lostItemController.js:145-153 | an answer that reads as "" against a non-blank stored answer stops the check at the first question |
| LostItems.AgreeingAnswersPass | server/controllers/lostItemController.js:145-154 | answers equal to the stored ones up to surrounding space and letter case, sent under `answer`, pass the check |
| LostItems.ApplyPatch | server/controllers/lostItemController.js:91-95 | an accepted patch keeps validity, the id and createdAt and moves updatedAt to now; title, description, contact fields, questions, photos and postedBy each become the supplied value or keep their own; a supplied status becomes the parsed status |
| LostItems.UpdateCanStoreBlankAnswer | server/controllers/lostItemController.js:89-109 | the update validators accept a question whose answer is " ", and after it the claim answer "red" passes that question, as would any claim whose answer reads as "" |
| LostItems.UpdateCanClaim | server/controllers/lostItemController.js:89-109 | the update handler accepts status "claimed" directly, with no answers checked |
| LostItems.LostItemRegistry.ListAll | server/controllers/lostItemController.js:3-11 | a permutation of every item, sorted newest createdAt first |
| LostItems.LostItemRegistry.Create | server/controllers/lostItemController.js:13-86 | 500 exactly when the question filter throws; 201 exactly when between 1 and 10 questions are kept and the form is complete, and then exactly the built item is appended, with only non-blank answers; otherwise the store is unchanged |
| LostItems.LostItemRegistry.VerifyClaim | server/controllers/lostItemController.js:126-167 | 404 exactly for an unknown item; for an item with questions and an answer list of the same length, 200 exactly when every answer matches and 403 exactly when the check stops at a mismatch, naming that question counting from 1; 400 exactly for a malformed id, a missing or mis-sized list, no questions, or an answer whose test throws; on 200 only that item becomes "claimed", whatever its prior status; otherwise the store is unchanged |
| LostItems.LostItemRegistry.Update | server/controllers/lostItemController.js:89-109 | 400 exactly for a malformed id or a refused field, 404 exactly for an unknown item; on 200 only that item changes, to the patched record, questions and photos included; the registry invariant (unique ids, schema) is kept |
| LostItems.LostItemRegistry.Delete | server/controllers/lostItemController.js:111-124 | 500 for a malformed id, 404 for an unknown one; on 200 exactly that item is removed |
| LostItems.ExpectedEmptyIffBlank | server/controllers/lostItemController.js:147-148 | a stored answer normalises to "" exactly when it is blank |
| LostItems.BlankClaimOutcome | server/controllers/lostItemController.js:145-154 | answers that all read as "" pass exactly when every remaining stored answer is blank, and fail at the first question exactly when its stored answer is not blank |
| Users.View | server/controllers/userController.js:132 | `.select("-password")`: the view keeps every field of the user except the password (id, e-mail, name and student status stated here; the rest pinned by ViewForgetsOnlyPassword) |
| Users.ViewForgetsOnlyPassword | server/controllers/userController.js:132 | two users have the same view exactly when they differ at most in the password, so the view drops the password and nothing else |
| Users.NormalizeEmailIdempotent | server/models/User.js:10-16 | trimming and lower-casing an already stored e-mail changes nothing, so a stored address finds its own record |
| Users.NewUser | server/controllers/userController.js:87-88 | a registered user passes the schema, has the normalised e-mail, no favourites or notifications, and every student and WiFi field at its default |
| Users.AddToSet | server/controllers/userController.js:180-184 | `$addToSet`: the old list is kept as a prefix; it is unchanged when the station is present and gains exactly one entry, the station, at the end otherwise; the members are the old ones plus the station, and a duplicate-free list stays duplicate-free |
| Users.Pull | server/controllers/userController.js:202-206 | `$pull`: the result is the order-preserving `Filter` of the old list by "not this station"; every other station keeps its count and the pulled one has none |
| Users.PullKeepsDistinct | server/controllers/userController.js:202-206 | pulling keeps a duplicate-free station list duplicate-free |
| Users.AddToSetIdempotent | server/controllers/userController.js:180-184 | adding the same station twice is the same as adding it once |
| Users.AddThenPull | server/controllers/userController.js:180-206 | adding a station the list lacks and then removing it gives back the original list |
| Users.FilterKeepsAll | server/controllers/userController.js:202-206 | filtering out a value that is absent keeps the list as it is |
| Users.PullRoutes | server/controllers/userController.js:271-275 | the kept routes are the order-preserving `Filter` of the old ones by "another schedule id", each route for another schedule keeping its count; none for the pulled schedule remains |
| Users.PullRoutesKeepsDistinct | server/controllers/userController.js:271-275 | pulling keeps the routes keyed by schedule id |
| Users.PushThenPullRoute | server/controllers/userController.js:242-275 | adding a route for a new schedule and then removing that schedule gives back the original routes |
| Users.KeepsOtherSchedules | server/controllers/userController.js:271-275 | pulling a schedule that has no saved route keeps the routes as they are |
| Students.NewUserConsistent | server/models/User.js:52-72 | a newly registered user is consistent: not a student, status "none", no expiry |
| Students.Submit | server/controllers/studentVerificationController.js:12-23 | the two documents are stored under /uploads/ in the order received, the status becomes "pending", the student flag and expiry are kept, no other field changes, and the schema still holds |
| Students.SubmitConsistency | server/controllers/studentVerificationController.js:15-23 | from a consistent record, submitting keeps consistency exactly when the user was not a verified student |
| Students.Decide | server/controllers/studentVerificationController.js:57-75 | the result is consistent; the user is a student exactly when the action is "verify", with the given expiry; otherwise the status is "rejected"; no field but the status, the student flag and the expiry changes |
| Students.Unverify | server/controllers/studentVerificationController.js:99-107 | the user is consistently not a student, with status "none", and no field but those three changes |
| Students.ReadStatus | server/controllers/studentVerificationController.js:127-154 | the report describes the saved record; a reported expiry of a student is not past; a lapsed verification is reset to "none" with no expiry; otherwise nothing changes; consistency and the schema are kept |
| Students.ReadStatusIdempotent | server/controllers/studentVerificationController.js:133-148 | reading the status twice at the same time gives the same report and record as reading it once |
| Students.VerifiedUntilExpiry | server/controllers/studentVerificationController.js:59-147 | a verified user reads as a verified student until the expiry and as "none" after it |
| Students.NonStudentsNeverLapse | server/controllers/studentVerificationController.js:134 | a rejected or revoked record is never changed by the status read |
| Wifi.Credentials | server/controllers/wifiController.js:17-21 | the WiFi id starts with "WIFI_" |
| Wifi.CredentialsShape | server/controllers/wifiController.js:18-19 | the id is "WIFI_" and at most 8 more characters; the password is at most 12 base-36 digits and is not empty once the first draw has a digit |
| Wifi.Activate | server/controllers/wifiController.js:95-112 | active with expiry two minutes from now and a non-empty id; stored credentials are reused when both are set, else fresh ones are made; no other field changes |
| Wifi.ReactivationKeepsCredentials | server/controllers/wifiController.js:96-103 | a second activation keeps the first activation's credentials and restarts the two minutes |
| Wifi.ReadStatus | server/controllers/wifiController.js:37-57 | an active report is not past its expiry; an expired subscription is switched off and answered with no expiry and blank credentials; otherwise the stored fields are answered; credentials and expiry are never erased |
| Wifi.ActivationLifecycle | server/controllers/wifiController.js:37-112 | an activation reads as active with its credentials for two minutes and as inactive after, and activating again gives back the same credentials |
| Notifications.NewEntry | server/routes/notifications.js:40-46 | the entry has the given title, message and time, is unread, and has an empty alternative exactly when none was given |
| Notifications.Deliver | server/routes/notifications.js:48 | the entry is appended last and nothing else of the user changes |
| Notifications.Inbox | server/routes/notifications.js:17-18 | the same entries, as a multiset, sorted newest first |
| Notifications.NewestDeliveredReadsFirst | server/routes/notifications.js:17-49 | an entry delivered with the newest timestamp is read back first |
| UserAccounts.MapView | server/routes/userRoutes.js:118 | every user in store order, as its password-free view |
| UserAccounts.ApplyPatch | server/controllers/userController.js:150-162 | the patch keeps the schema and the id, stores a supplied e-mail normalised, a supplied name and phone trimmed and a supplied password as given, keeps each unsupplied one, and changes no other field |
| UserAccounts.RouteOf | server/controllers/userController.js:246-251 | the saved route is keyed by the requested schedule id |
| UserAccounts.UserDirectory.Register | server/controllers/userController.js:70-98 | 400 exactly for a missing field or a taken e-mail, 500 exactly for values the schema refuses; on 201 exactly the new user is appended and can then log in with what it registered; otherwise the store is unchanged |
| UserAccounts.UserDirectory.Login | server/controllers/userController.js:101-121 | 404 exactly for an unknown e-mail; 200 exactly with the stored record whose e-mail and password match; 400 means the stored password differs |
| UserAccounts.UserDirectory.LoginWithStoredEmail | server/controllers/userController.js:101-121 | every stored user logs in with its own e-mail and password |
| UserAccounts.UserDirectory.GoogleLogin | server/routes/userRoutes.js:61-78 | 404 exactly for an unknown e-mail, else 200 with the stored record |
| UserAccounts.UserDirectory.GetById | server/controllers/userController.js:124-142 | 400 exactly for a malformed id, 404 exactly for an unknown one, else the password-free view of that user |
| UserAccounts.UserDirectory.ListAll | server/routes/userRoutes.js:116-123 | one entry per user, in store order: that user's password-free view |
| UserAccounts.MapViewFilter | server/controllers/studentVerificationController.js:39-45 | selecting the pending users and then dropping passwords equals dropping passwords and then selecting the pending views |
| UserAccounts.UserDirectory.Update | server/controllers/userController.js:145-169 | 400 exactly for a malformed id; 500 exactly for a refused field or an e-mail another user has; 404 for an unknown id; on 200 only that user changes, by the patch; otherwise the store is unchanged |
| UserAccounts.UserDirectory.AddStation | server/controllers/userController.js:172-192 | 400 without a station, 500 for a malformed id, 404 for an unknown one; on 200 only that user's stations change, the station joining them as a set |
| UserAccounts.UserDirectory.RemoveStation | server/controllers/userController.js:194-214 | the same statuses; on 200 only that user's stations change, the station pulled |
| UserAccounts.UserDirectory.Stations | server/controllers/userController.js:216-226 | 500 for a malformed id, 404 for an unknown one, else that user's stored stations |
| UserAccounts.UserDirectory.AddRoute | server/controllers/userController.js:229-260 | 400 for a missing field or a schedule already saved, 500 for a malformed id, 404 for an unknown one; on 200 only that user changes, the route appended |
| UserAccounts.UserDirectory.RemoveRoute | server/controllers/userController.js:262-283 | 400 without a schedule id, 500 / 404 as above; on 200 only that user changes, every route for the schedule pulled |
| UserAccounts.UserDirectory.Routes | server/controllers/userController.js:285-295 | 500 for a malformed id, 404 for an unknown one, else that user's stored routes |
| UserAccounts.UserDirectory.RoutesAreKeyedBySchedule | server/controllers/userController.js:242-246 | the routes read for any user never hold two for one schedule |
| UserAccounts.UserDirectory.UpdateDob | server/routes/userRoutes.js:81-110 | 400 without a date or for a malformed id, 500 when the stored text would be blank, 404 for an unknown id; on 200 only that user's date of birth changes |
| UserAccounts.UserDirectory.SubmitVerification | server/controllers/studentVerificationController.js:4-36 | 400 exactly for fewer than two files, 500 for a malformed id, 404 for an unknown one; on 200 only that user changes, by the submission |
| UserAccounts.PendingViews | server/controllers/studentVerificationController.js:39-45 | the password-free views of the "pending" users: every such view, in store order and as often as stored, and nothing else |
| UserAccounts.UserDirectory.PendingVerifications | server/controllers/studentVerificationController.js:39-49 | the full listing filtered to "pending" views: every pending user's view, in store order and as often as stored, and nothing else |
| UserAccounts.UserDirectory.DecideVerification | server/controllers/studentVerificationController.js:52-92 | 500 for a malformed id, 404 for an unknown one; on 200 only that user changes, by the decision |
| UserAccounts.UserDirectory.RevokeVerification | server/controllers/studentVerificationController.js:95-120 | the same statuses; on 200 only that user changes, back to "none" |
| UserAccounts.UserDirectory.VerificationStatus | server/controllers/studentVerificationController.js:123-158 | the same statuses; on 200 a report comes back and the lapse reset is saved to that user only |
| UserAccounts.UserDirectory.ActivateWifi | server/controllers/wifiController.js:85-125 | 500 for a malformed id, 404 for an unknown one; on 200 only that user changes, by the activation |
| UserAccounts.UserDirectory.WifiStatus | server/controllers/wifiController.js:24-61 | the same statuses; on 200 a report comes back and the switch-off of an expired subscription is saved to that user only |
| UserAccounts.UserDirectory.Inbox | server/routes/notifications.js:7-25 | 404 exactly for an unknown e-mail; else that user's entries, as a multiset, newest first |
| UserAccounts.UserDirectory.AddNotification | server/routes/notifications.js:27-59 | 400 exactly without e-mail, title or message, 404 exactly for an unknown e-mail; on 201 only that user changes, the entry appended, and the next read finds it |
| UserAccounts.UserDirectory.Broadcast | server/routes/notifications.js:61-91 | 400 exactly without title or message; on 201 every user, and no other record, gets the same entry appended |
| Reports.StoredRating | server/controllers/reportController.js:28 | a falsy rating stores none; a numeric one is stored exactly when it lies in 1..5; anything else is refused by the schema |
| Reports.ReportDesk.SubmitAppBug | server/controllers/reportController.js:10-38 | 401 exactly without a user id, 404 exactly for an unknown user, 400 exactly without a description; 201 exactly when the rating is also acceptable, and then exactly the new "app" report with its media paths is appended; otherwise the store is unchanged |
| Reports.ReportDesk.SubmitStationHazard | server/controllers/reportController.js:40-67 | 401 without a user id, 500 for a malformed one, 404 for an unknown user; 201 exactly with a location and a description, appending exactly the new "station" report; otherwise the store is unchanged |
| Reports.ReportDesk.ReportsOf | server/controllers/reportController.js:69-101 | 401 without a user id, 500 for a malformed one; else exactly that user's reports of the one kind, each as often as it is stored, newest first |
| Reports.ReportDesk.AllReports | server/controllers/reportController.js:104-115 | every report, as a multiset, newest first |
| Reports.ReportDesk.Delete | server/controllers/reportController.js:118-133 | 500 for a malformed id, 404 for an unknown one; on 200 exactly that report is removed |
| StaffRoster.Construct | server/models/Staff.js:4-10 | a staff record is made exactly when name, position, shift and contact are all given; it passes the schema, stores those four values as given, and carries the id and creation time |
| StaffRoster.Apply | server/controllers/staffController.js:29 | the id and creation time are kept; name, position, shift and contact each become the supplied value or keep their own |
| StaffRoster.UpdateCanBreakSchema | server/controllers/staffController.js:29 | since the update runs without validators, it can store an empty name the schema would refuse |
| StaffRoster.Roster.Create | server/controllers/staffController.js:3-12 | 201 exactly for a complete body, appending exactly the new record; 400 otherwise, with the store unchanged |
| StaffRoster.Roster.ListAll | server/controllers/staffController.js:15-23 | every record, in store order |
| StaffRoster.Roster.Update | server/controllers/staffController.js:27-36 | 400 exactly for a malformed id, 404 exactly for an unknown one; on 200 only that record changes, by the body |
| StaffRoster.Roster.Delete | server/controllers/staffController.js:38-47 | 400 for a malformed id, 404 for an unknown one; on 200 exactly that record is removed |
| Ads.AdOrderIsTotalPreorder | server/controllers/adController.js:8 | ascending `order`, newest first on a tie, is a total preorder, so the listing is well defined up to ties |
| Ads.Apply | server/controllers/adController.js:75-89 | the id and creation time are kept; title, description, link, order and isActive each become the supplied value or keep their own; a new file replaces the image path under /uploads/ |
| Ads.ApplyIdempotent | server/controllers/adController.js:75-89 | applying the same update twice is the same as applying it once |
| Ads.ApplyNothing | server/controllers/adController.js:75-89 | an update with no fields and no file changes nothing |
| Ads.Toggle | server/controllers/adController.js:129 | only the active flag changes, to its negation |
| Ads.ToggleTwice | server/controllers/adController.js:129 | toggling twice gives back the ad |
| Ads.AdBoard.ListAll | server/controllers/adController.js:6-13 | every ad, as a multiset, by ascending order and newest first on a tie |
| Ads.AdBoard.ListActive | server/controllers/adController.js:16-23 | exactly the active ads, each as often as it is stored, sorted by `order` and then newest first, as the full listing is |
| Ads.AdBoard.Get | server/controllers/adController.js:26-36 | 500 exactly for a malformed id, 404 exactly for an unknown one, else that ad |
| Ads.AdBoard.Create | server/controllers/adController.js:39-62 | 400 exactly without an image file; on 201 exactly the new ad, with its image under /uploads/ and order 0 when none is given, is appended |
| Ads.AdBoard.Update | server/controllers/adController.js:65-96 | 500 for a malformed id, 404 for an unknown one; on 200 only that ad changes, by the update |
| Ads.AdBoard.ToggleStatus | server/controllers/adController.js:121-136 | the same statuses; on 200 only that ad's active flag flips |
| Ads.AdBoard.Delete | server/controllers/adController.js:99-118 | the same statuses; on 200 exactly that ad is removed |
| Feedbacks.RatingAccepted | server/controllers/feedbackController.js:9-11 | a rating is accepted exactly when given and between 1 and 5 |
| Feedbacks.FeedbackBox.Create | server/controllers/feedbackController.js:4-23 | 201 exactly for an accepted rating, appending exactly the new entry; 400 otherwise, with the store unchanged |
| Feedbacks.FeedbackBox.ListAll | server/controllers/feedbackController.js:26-34 | every entry, as a multiset, newest first |
| AdminLogin.Login | server/controllers/adminController.js:8-22 | success, with status 200 and the fixed admin profile, exactly for the one hard-coded e-mail and password; 401 otherwise |
| AdminLogin.LoginIsExact | server/controllers/adminController.js:8 | the comparison is exact: a capitalised or padded e-mail is refused |
| Uploads.ReplaceSpaceRuns | server/middleware/upload.js:11 | the result has no whitespace, is no longer than the name, and is empty only for an empty name |
| Uploads.ReplaceSpaceRunsCollapses | server/middleware/upload.js:11 | a whole run of whitespace, however long, becomes exactly one "_" before whatever follows it |
| Uploads.ReplaceSpaceRunsIdentity | server/middleware/upload.js:11 | a name without whitespace is kept as it is |
| Uploads.ReplaceSpaceRunsIdempotent | server/middleware/upload.js:11 | replacing twice is the same as replacing once |
| Uploads.VisibleOfSpaces | server/middleware/upload.js:11 | a run of whitespace has no visible characters |
| Uploads.ReplaceSpaceRunsKeepsVisible | server/middleware/upload.js:11 | the replacement keeps every visible character, in order |
| Uploads.VisibleAppend | server/middleware/upload.js:11 | the visible characters of a concatenation are those of each part, in order |
| Uploads.StoredNameParts | server/middleware/upload.js:10-12 | the stored name is the decimal time, which reads back as that time, a dash, and the original name without whitespace and with the same visible characters |
| Uploads.FileFilter | server/middleware/upload.js:15-31 | a file is accepted exactly when its type is on the allowlist; a refused one carries an error |
| Uploads.AllowlistShape | server/middleware/upload.js:16-25 | eight distinct image or video types; the match is exact, so "IMAGE/PNG" and "image/webp" are refused |
| Uploads.MapFiles | server/controllers/reportController.js:5-8 | no files give no paths; otherwise one path per file, in order, under /uploads/ |
| Queries.SortBy | server/controllers/reportController.js:106-108 | the Mongo `.sort`: the same elements, as a multiset, in the requested order |
| Queries.NewestFirstIsTotalPreorder | server/controllers/reportController.js:108 | sorting by a descending timestamp is a total preorder |
| Queries.InsertSorted | server/controllers/reportController.js:108 | inserting into a sorted list keeps it sorted and adds exactly the new element |
| Queries.Filter | server/controllers/reportController.js:75 | the Mongo `find` filter: exactly the elements that satisfy the condition, none added |
| Queries.FilterAppend | server/controllers/reportController.js:75 | filtering a concatenation filters each part |
| Queries.FilterMultiset | server/controllers/reportController.js:75 | a filter keeps every copy of a matching element and none of the others |
| Queries.FilterSorted | server/controllers/reportController.js:75-77 | filtering a sorted list keeps it sorted |
| Queries.FilterUnique | server/controllers/adController.js:18 | filtering keeps the keys of a list distinct |
| Queries.Find | server/controllers/userController.js:105 | `findOne`: the first element that satisfies the condition, or none exactly when none does |
| Radix.ToRadix | server/controllers/paymentController.js:39 | `toString(base)`: at least one digit of the base, with no leading zero except for 0 |
| Radix.FromToRadix | server/controllers/paymentController.js:39 | the digits read back as the number |
| Radix.RandomDigits | server/controllers/paymentController.js:40 | upper-cased slices of a random draw are base-36 digits |
| Text.TrimIsInfix | server/controllers/lostItemController.js:46-50 | `trim`: the result is the input without leading and trailing whitespace, and neither end is whitespace |
| Text.TrimIdempotent | server/controllers/lostItemController.js:146-147 | trimming twice is the same as trimming once |
| Text.BlankIffAllSpace | server/controllers/lostItemController.js:28 | a text trims to "" exactly when it is all whitespace |
| Text.Substring | server/controllers/wifiController.js:18-19 | `substring` with clamped bounds: within the text, and the exact slice when the bounds are in range |
| Text.Split | client/src/utils/apiRequest.js:12-15 | `split`: separator-free parts that join back to the text; one part exactly when there is no separator |
| Text.SplitJoin | client/src/utils/apiRequest.js:12-15 | splitting the join of separator-free parts gives back the parts |
| ClientLostFound.Available | client/src/components/LostAndFoundGallery.jsx:68 | exactly the loaded items that are not claimed, each as often as loaded, in load order (the shared order-preserving filter) |
| ClientLostFound.MarkClaimed | client/src/components/LostAndFoundGallery.jsx:53-57 | same length; only items with the claimed id become "claimed", the others are kept |
| ClientLostFound.MarkClaimedLeavesGallery | client/src/components/LostAndFoundGallery.jsx:53-68 | after a successful claim the gallery shows what it showed before minus the claimed item |
| ClientLostFound.PlainAnswers | client/src/components/LostAndFoundGallery.jsx:39-45 | the request as written: one bare string per question, in order |
| ClientLostFound.WrappedAnswers | client/src/components/LostAndFoundGallery.jsx:39-45 | the request as the server reads it: one object with an `answer` field per question, in order |
| ClientLostFound.PlainAnswersPassIffBlank | client/src/components/LostAndFoundGallery.jsx:39-45 | bare-string answers, whatever they say, pass exactly when every stored answer is blank, and fail at the first question exactly when its stored answer is not blank |
| ClientLostFound.CreatedItemsRejectPlainAnswers | client/src/components/LostAndFoundGallery.jsx:39-45 | for an item as creation stores it, bare-string answers fail at the first question |
| ClientLostFound.RightAnswerSentPlainIsRejected | client/src/components/LostAndFoundGallery.jsx:39-45 | the right answer "red" fails when sent bare and passes when wrapped |
| ClientLostFound.WrappedAnswersPassIffAgree | client/src/components/LostAndFoundGallery.jsx:39-45 | wrapped answers pass exactly when each agrees with the stored answer after trimming and lower-casing |
| ClientLostFound.Gallery.Select | client/src/components/LostAndFoundGallery.jsx:103-107 | the item becomes the selected one, with no answers and no claim status; the items are unchanged |
| ClientLostFound.Gallery.AnswerChange | client/src/components/LostAndFoundGallery.jsx:32-34 | only the answer at that index changes, to the trimmed text |
| ClientLostFound.Gallery.UserAnswers | client/src/components/LostAndFoundGallery.jsx:39 | one answer per question of the selected item, "" where none was typed |
| ClientLostFound.Gallery.HandleClaim | client/src/components/LostAndFoundGallery.jsx:36-66 | nothing is sent without a selection; otherwise the typed answers are sent as bare strings, in question order; an ok reply sets "success" and marks exactly that item claimed; any other reply or a network error sets "error" and leaves the items |
| ClientLostFound.Gallery.Shown | client/src/components/LostAndFoundGallery.jsx:68 | exactly the gallery's unclaimed items, each as often as loaded, in load order |
| ClientLostFound.ValidQuestions | client/src/components/lostItemForm.jsx:19-21 | exactly the pairs whose question and answer are both non-blank, each as often as typed, in the order typed |
| ClientLostFound.RawOf | client/src/components/lostItemForm.jsx:42 | the pairs as the server parses the posted JSON, one entry per pair |
| ClientLostFound.ServerKeepsSentQuestions | client/src/components/lostItemForm.jsx:42 | the server's question filter keeps every pair the form sends, in order |
| ClientLostFound.FormOf | client/src/components/lostItemForm.jsx:33-40 | the four required fields are sent trimmed; the e-mail is sent, trimmed, exactly when it is not blank; no poster is sent |
| ClientLostFound.ServerStoresPostedForm | client/src/components/lostItemForm.jsx:33-40 | the server builds the posted item exactly when none of the four fields is blank, and stores the trimmed title and e-mail |
| ClientLostFound.LostItemForm.SetQuestion | client/src/components/lostItemForm.jsx:75-79 | only the question text of that pair changes |
| ClientLostFound.LostItemForm.SetAnswer | client/src/components/lostItemForm.jsx:75-79 | only the answer text of that pair changes |
| ClientLostFound.LostItemForm.AddQuestion | client/src/components/lostItemForm.jsx:81-83 | a blank pair is appended |
| ClientLostFound.LostItemForm.RemoveQuestion | client/src/components/lostItemForm.jsx:85-87 | with more than one pair, exactly the pair at that index is removed and the rest keep their order |
| ClientLostFound.LostItemForm.ChoosePhotos | client/src/components/lostItemForm.jsx:157-159 | the first four chosen files are kept |
| ClientLostFound.LostItemForm.Submit | client/src/components/lostItemForm.jsx:18-73 | an empty required field stops the submission; with no filled pair nothing is sent; otherwise the trimmed form, the filled pairs and the photos are posted, and only a successful post resets the pairs to one blank pair and clears the photos |
| ClientSession.RequestPath | client/src/components/BookedTickets.js:19-27 | a request is made exactly when an e-mail is stored, and its path is the prefix followed by that non-empty e-mail |
| ClientSchedule.SearchIsSubstringTest | client/src/components/TrainScheduleList.js:146-150 | a schedule matches exactly when the lower-cased query occurs in its lower-cased train name, origin or destination |
| ClientSchedule.FilterAllMatch | client/src/components/TrainScheduleList.js:146-150 | when every schedule matches, the filter keeps the list as it is |
| ClientSchedule.ByRankIsTotalPreorder | client/src/components/TrainScheduleList.js:152-164 | the comparator is a total preorder, so the sort is well defined up to ties |
| ClientSchedule.RankOrder | client/src/components/TrainScheduleList.js:152-164 | in a list sorted by rank, favourite routes come first, and within each group schedules touching a favourite station come first |
| ClientSchedule.FinalPrice | client/src/components/TrainScheduleList.js:78-84 | without a verified student answer the listed price is charged; with one, 20 less, but never below 0; a non-negative price never rises |
| ClientSchedule.DiscountFollowsServerStatus | client/src/components/TrainScheduleList.js:80-83 | the discount applies exactly when the server's status read finds a verified student whose verification has not lapsed |
| ClientSchedule.HandleBooking | client/src/components/TrainScheduleList.js:54-102 | login is required exactly without a stored e-mail; a failed booking lookup stops; a booking of the same trip stops exactly when one exists; otherwise checkout gets the schedule's fields, the final price, the stored name or "Guest User", and the stored e-mail |
| ClientSchedule.RequestOf | client/src/components/TrainScheduleList.js:86-96 | the payment request carries the checkout's e-mail, stations and times |
| ClientSchedule.PreCheckIsServerKey | client/src/components/TrainScheduleList.js:69-72 | the client's same-trip test on the user's bookings finds a booking exactly when the server's duplicate check would |
| ClientSchedule.CheckoutPassesServerCheck | client/src/components/TrainScheduleList.js:54-98 | the checkout the client allows is never refused by the server as a duplicate, absent concurrent bookings |
| ClientSchedule.RouteData | client/src/components/TrainScheduleList.js:125-133 | the saved route is keyed by the schedule's id |
| ClientSchedule.ServerStoresClientSnapshot | client/src/components/TrainScheduleList.js:125-135 | for a stored schedule the server accepts the snapshot and saves exactly the route the client keeps |
| ClientSchedule.Toggled | client/src/components/TrainScheduleList.js:114-138 | the route becomes favourite exactly when it was not; removing keeps the other routes in order as `prev.filter` does (the `Filter` by another schedule id, with counts); a new one is appended after the others |
| ClientSchedule.ToggledKeepsDistinct | client/src/components/TrainScheduleList.js:114-138 | toggling keeps the routes keyed by schedule id |
| ClientSchedule.ToggleTwiceRestores | client/src/components/TrainScheduleList.js:114-138 | toggling a new route twice gives back the original routes |
| ClientSchedule.ScheduleList.Filtered | client/src/components/TrainScheduleList.js:146-150 | exactly the loaded schedules that match the search, each as often as loaded, in load order |
| ClientSchedule.ScheduleList.Prioritized | client/src/components/TrainScheduleList.js:152-164 | the matching schedules, as a multiset, favourite routes first and then schedules touching a favourite station |
| ClientSchedule.ScheduleList.SetSearch | client/src/components/TrainScheduleList.js:146-150 | only the search text changes |
| ClientSchedule.ScheduleList.ToggleFavoriteRoute | client/src/components/TrainScheduleList.js:104-144 | login is required exactly without a stored user id; a failed request changes nothing; otherwise the route is removed exactly when it was a favourite, else added, as `Toggled` says |
| ClientSchedule.EmptySearchShowsAll | client/src/components/TrainScheduleList.js:146-150 | an empty search shows every schedule in order |
| ClientTickets.FirstOfPaymentMeans | client/src/components/BookedTickets.js:30-32 | a booking is kept exactly when its payment id is non-empty and no earlier booking has the same one |
| ClientTickets.KeptIndices | client/src/components/BookedTickets.js:30-32 | the kept positions, increasing, are exactly those of the first booking of each payment |
| ClientTickets.UniqueBookings | client/src/components/BookedTickets.js:30-32 | the kept bookings, in order, have distinct non-empty payment ids, and every non-empty payment id of the input is represented |
| ClientTickets.KeptStep | client/src/components/BookedTickets.js:30-32 | a booking that is the first of its payment is appended to the kept positions |
| ClientTickets.KeptHaveReferences | client/src/components/BookedTickets.js:30-32 | no kept booking has an empty payment id |
| ClientTickets.KeptAreDistinct | client/src/components/BookedTickets.js:30-32 | no two kept bookings share a payment id |
| ClientTickets.KeptCoverReferences | client/src/components/BookedTickets.js:30-32 | every non-empty payment id of the input is carried by some kept booking |
| ClientTickets.DistinctAreFirst | client/src/components/BookedTickets.js:30-32 | in a list with distinct non-empty payment ids, every booking is the first of its payment |
| ClientTickets.AllKept | client/src/components/BookedTickets.js:30-32 | bookings with distinct non-empty payment ids are all kept: the kept positions are 0, 1, ..., n - 1 |
| ClientTickets.UniqueBookingsIdempotent | client/src/components/BookedTickets.js:30-32 | removing duplicates twice is the same as once |
| ClientTickets.LoadBookedTickets | client/src/components/BookedTickets.js:17-41 | without a stored e-mail the login message; a failed request "Failed to load bookings"; else the bookings without payment duplicates |
| ClientTickets.ConfirmedBookings | client/src/components/QRTicket.js:34-36 | exactly the confirmed bookings, each as often as loaded, in load order |
| ClientTickets.LoadQRTickets | client/src/components/QRTicket.js:21-45 | without a stored e-mail the login message; a failed request "Failed to load bookings"; else the confirmed bookings |
| ClientTickets.Stringify | client/src/components/QRTicket.js:48-62 | `JSON.stringify` drops the absent fields and invents none |
| ClientTickets.Get | client/src/components/QRTicket.js:48-62 | a field read from the encoded object is one of its entries, and none exactly when no entry has that key |
| ClientTickets.GetStringified | client/src/components/QRTicket.js:48-62 | with distinct keys, each field reads back from the encoded object as it was given, absent when it was absent |
| ClientTickets.QRData | client/src/components/QRTicket.js:47-63 | the ticket's data holds only the thirteen keys of the QR payload |
| ClientTickets.EntryKeys | client/src/components/QRTicket.js:48-62 | every entry of the payload is under one of its thirteen keys |
| ClientTickets.EntriesHaveDistinctKeys | client/src/components/QRTicket.js:48-62 | the thirteen keys are distinct and in the payload's order |
| ClientTickets.QRDataRoundTrip | client/src/components/QRTicket.js:47-63 | every field of the booking reads back from the QR payload under its key |
| ClientTickets.DownloadName | client/src/components/QRTicket.js:88 | the file name is "ticket-", the train name, "-", the booking id and ".png" |
| ClientTickets.QRScreen.GenerateQR | client/src/components/QRTicket.js:65-78 | the booking is selected and the expiry shown is its own |
| ClientTickets.QRScreen.Download | client/src/components/QRTicket.js:80-92 | a file is produced exactly when a ticket is selected and rendered, named by `DownloadName`, and then the expiry is cleared; otherwise nothing changes |
| ClientTickets.QRScreen.Close | client/src/components/QRTicket.js:94-96 | the selection is cleared and nothing else changes |
| ClientNotifications.AgeOf | client/src/components/NotificationPanel.jsx:54-69 | "just now" exactly for a missing time or less than a minute; otherwise the whole minutes below an hour, the whole hours below a day (plural from two), else the date, each within its band |
| ClientNotifications.RelativeLabelReadsBack | client/src/components/NotificationPanel.jsx:60-62 | the number in a minutes or hours label reads back as the age it shows |
| ClientNotifications.LoadNotifications | client/src/components/NotificationPanel.jsx:15-44 | without a stored e-mail the login message; a 404 shows nothing; a success shows an array body, or nothing for another JSON value; any other status, a network error or an unreadable body shows the connection error |
| ClientNotifications.PanelShowsServerInbox | client/src/components/NotificationPanel.jsx:26-37 | against the server's read route the panel shows exactly the user's inbox, or nothing for an unknown e-mail, and never an error |
| ClientHome.UnreadCount | client/src/components/Home.js:144 | the count is zero exactly when there are no notifications; it is the number of unread ones when some are unread, else the number of all |
| ClientHome.NoneUnread | client/src/components/Home.js:144 | no notification passes the unread filter exactly when all are read |
| ClientHome.Badge | client/src/components/Home.js:173-176 | hidden exactly at zero; "99+" above 99; otherwise the count in decimal, which reads back as the count |
| ClientHome.BadgeShownIffAnyNotification | client/src/components/Home.js:144-176 | the badge shows exactly when there is any notification, read or not |
| ClientHome.Dropdown | client/src/components/Home.js:202 | the first five notifications, or all of them when fewer |
| ClientHome.HomeNotifications | client/src/components/Home.js:66-77 | the list is set exactly for a stored e-mail and a success reply with an array body, and then to that array |
| ClientHome.HomeAgreesWithPanel | client/src/components/Home.js:66-77 | against the server's read route the home screen and the panel show the same notifications |
| ClientHome.BookFavoriteRoute | client/src/components/Home.js:94-115 | nothing is booked without a stored e-mail; otherwise checkout gets the saved snapshot at its saved price, for the profile name or "Guest User" |
| ClientHome.FavoriteBookingSkipsDiscount | client/src/components/Home.js:94-115 | booking a saved route sends what the schedule list would send for that schedule, except that the listed price is charged without the student discount |
| ClientHome.HandleUpdate | client/src/components/Home.js:117-129 | the update is sent exactly when all four fields are filled, and carries exactly them |
| ClientHome.AcceptedUpdatesAreSent | client/src/components/Home.js:120-123 | every complete update the server would accept passes the form's check |
| ClientHome.FormCheckIsWeakerThanServer | client/src/components/Home.js:120-123 | a blank name and a three-letter password pass the form's check, and the server refuses them |
| ApiRequest.CleanUrl | client/src/utils/apiRequest.js:2-9 | the primary URL has no '|'; a URL without one is returned whole, otherwise the text before the first '|' |
| ApiRequest.Candidates | client/src/utils/apiRequest.js:13-15 | at least one candidate, the first being the primary URL; none holds a '|'; joined with '|' they give back the URL |
| ApiRequest.CandidatesRoundTrip | client/src/utils/apiRequest.js:13-15 | joining separator-free URLs with '|' gives a URL whose candidates are exactly those URLs |
| ApiRequest.LastThrown | client/src/utils/apiRequest.js:17-25 | none exactly when no candidate threw; otherwise the error of a candidate that threw after which none threw |
| ApiRequest.Settle | client/src/utils/apiRequest.js:19-32 | a response is returned exactly when some reply is accepted, and it is the first accepted one; otherwise the last error thrown, or the carried or default message |
| ApiRequest.SettleStep | client/src/utils/apiRequest.js:19-28 | a reply that is not accepted passes its error, if any, on to the next candidate |
| ApiRequest.FetchWithFallback | client/src/utils/apiRequest.js:12-33 | the loop returns the first reply that does not throw, and otherwise the last error, as `Settle` says |
| ApiRequest.FailureIsLastCandidateError | client/src/utils/apiRequest.js:12-33 | a failure means every candidate threw, and the error is the last candidate's own |
| ApiHelper.Rooted | client/src/utils/apiHelper.js:9-10 | the endpoint starts with '/', and exactly one is added when it has none |
| ApiHelper.HelperCandidates | client/src/utils/apiHelper.js:6-11 | an "http" URL is the only candidate; any other endpoint gives two, under the local and then the hosted server, with the same rooted path |
| ApiHelper.HelperFetch | client/src/utils/apiHelper.js:4-37 | the first reply that is ok or has a status is returned; otherwise the last error thrown, or "No valid URLs provided", as `Settle` says |
| ApiHelper.SilentRepliesGiveNoUrlsError | client/src/utils/apiHelper.js:30-36 | when every candidate answers with status 0 and none throws, the error is "No valid URLs provided" |
| ApiHelper.AsWritten | client/src/utils/apiHelper.js:45-54 | the loop as written stops at the first reply that returns or at the first failure whose URL equals the last URL |
| ApiHelper.AxiosAsWritten | client/src/utils/apiHelper.js:42-55 | the axios loop as written gives what `AsWritten` says |
| ApiHelper.AxiosWithFallback | client/src/utils/apiHelper.js:42-55 | the axios loop as intended: the first reply that returns, else the last candidate's error, as `Settle` says |
| ApiHelper.AsWrittenAgreesWhenLastIsUnique | client/src/utils/apiHelper.js:49-51 | when no earlier candidate equals the last URL, the loop as written behaves as intended |
| ApiHelper.DuplicateOfLastUrlStopsEarly | client/src/utils/apiHelper.js:49-51 | for the candidates "a", "b", "a", with the first "a" failing and "b" answering, the loop as written fails and the intended loop answers |
| UserAccounts.IndexOfEmail | server/controllers/userController.js:80 | `findOne({ email })`: a user whose stored e-mail equals the trimmed, lower-cased query, or none exactly when no user has it |
| Text.ContainsIffOccurs | client/src/components/TrainScheduleList.js:147 | `includes`: true exactly when the text occurs at some position |

## Left out

- Prices and fares are whole numbers (`int`): the schedule and booking price, the payment request, favourite routes and `ClientSchedule.FinalPrice`. The schemas declare them as JavaScript `Number`, so a fare such as 35.5 and its student discount are not modelled.
- Payment intents (server/controllers/paymentController.js:17-35, server/controllers/wifiController.js:64-82) are calls into the Stripe library and use floating-point amounts; the checkout screens are Stripe UI.
- MongoDB and Mongoose internals are not modelled: the query engine, `populate`, index builds and the exact ObjectId test. `IsObjectId` stands for the id check, and the unique indexes are store invariants. By-id lookups compare ids as raw strings: Mongoose also casts a 12-character string, or an upper-case 24-digit hex string, to an ObjectId and can find the document, where the model answers 404.
- Concurrency is not modelled: every handler runs alone, so the race between the duplicate check and the insert of a booking is not captured.
- Text.Lower / Text.Upper: ASCII letters only. JavaScript's `toLowerCase` and `toUpperCase` also map accented and other non-ASCII letters, and a few of them change length; the model leaves every non-ASCII character unchanged.
- The claim screen, `ClientLostFound.Gallery.HandleClaim`, models the request as written (bare strings). The corrected request, `ClientLostFound.WrappedAnswers`, is proved correct on its own but is not wired into the screen.
- Calendar arithmetic is not modelled. The seven-day booking expiry is a fixed number of milliseconds, so daylight-saving shifts are ignored. The six-month student expiry is a parameter of `Students.Decide`.
- Students.Decide: takes the expiry as a parameter instead of computing "now plus six months".
- Locale formatting (`toLocaleDateString`) is not modelled: `ClientNotifications.RelativeLabel` covers only the relative labels, and `OnDate` carries the timestamp.
- File-system effects are not modelled: deleting an ad's old image and multer's disk storage.
- server/models/Ad.js is not part of this model: the ad fields are the ones the controller reads and writes, `isActive` starts true, and no validators are assumed.
- server/models/Feedback.js is not part of this model: a feedback record is its rating, comment and creation time.
- Ratings are integers. Fractional numbers are not modelled, nor any numeric text other than a whole number.
- Reports.StoredRating: does not model fractional ratings such as "4.5", which the schema would accept.
- Feedbacks.RatingAccepted: does not model fractional or textual ratings.
- Request bodies that are not JSON objects, and values of unexpected JavaScript types, are not modelled. One exception: the date of birth carries both a string form and a non-string form.
- ApiRequest.CleanUrl: does not model non-string arguments, which the source returns unchanged.
- The google-login and update-dob routes send back the full user record, password included. The model returns the record, but no lemma states this exposure.
- `setQuestionField` in client/src/components/lostItemForm.jsx:75-79 writes into a pair object shared with the previous state. The model replaces the pair by value, so that aliasing is not captured.
- Sort stability is not modelled: every sort is specified as a sorted permutation, and the order of ties is unspecified.
- The lost-item form does not cap the number of questions at ten. Posting more than ten is refused by the server, as `LostItems.LostItemRegistry.Create` states.
- ClientHome.HomeNotifications: a successful reply whose body is not an array is stored as the list by the source, and the screen then fails to render it. The model leaves the list unset in that case.
- The home screen's favourite-route booking skips both the student discount and the duplicate pre-check, as `ClientHome.FavoriteBookingSkipsDiscount` states. The duplicate check then falls to the server.
- The home screen's `fetchUser` and `fetchFavoriteRoutes` only copy a reply into screen state, and are not modelled.
- The gallery's item fetch, the schedule list's fetches and every alert, navigation and localStorage write are screen plumbing. They are replaced by parameters: stored e-mail, stored name, reply.
- The environment overrides of client/src/utils/apiConfig.js and the interceptor of client/src/utils/axiosInstance.js are not modelled. The local and hosted defaults are constants.
- The `post`, `put`, `delete` and `patch` methods of both axios wrappers run the same loop as `get`, and are modelled once.
- Pure view components, route wiring and bootstrap are not modelled: admin and report screens, sign-up and login screens, the map, the ad slider, i18n and server start-up.

## Findings

| source | as written | input that shows it | evidently intended | confidence | as-written member | corrected member |
|---|---|---|---|---|---|---|
| client/src/components/LostAndFoundGallery.jsx:39-45 | the gallery posts the answers as bare strings, but the claim handler reads `answers[i].answer`, so every submitted answer reads as "" and a claim passes only for an item whose answers an update has blanked | an item with the question "Colour?" and answer "red", claimed with the answer "red" | post one `{ answer }` object per question, so a right answer passes | not executed | ClientLostFound.PlainAnswersPassIffBlank | ClientLostFound.WrappedAnswersPassIffAgree |
| client/src/utils/apiHelper.js:49-51 | a failing candidate rethrows when its URL string equals the last URL, so an earlier copy of the last URL ends the loop before the remaining candidates are tried | the candidates "a", "b", "a"; the first "a" throws and "b" answers | rethrow only at the last position, so "b" is tried and its answer returned | not executed | ApiHelper.DuplicateOfLastUrlStopsEarly | ApiHelper.AxiosWithFallback |
