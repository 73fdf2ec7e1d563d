/**
 * Student verification (server/controllers/studentVerificationController.js)
 * as transitions of one user record: submitting documents, the admin's
 * decision, revoking, and the status read that lapses an expired
 * verification on the way.
 */
module Students {
  import opened Common
  import opened Users
  import Uploads

  /**
   * The flag, the status and the expiry agree: a user is a student exactly
   * when verified, and exactly then has an expiry.
   */
  predicate StudentConsistent(u: User) {
    (u.isStudent <==> u.studentStatus == Verified) && (u.isStudent <==> u.studentExpiry.Some?)
  }

  /** A freshly registered user is consistent. */
  lemma NewUserConsistent(r: Registration, id: Id)
    requires AllGiven(r) && RegistrationValid(r)
    ensures StudentConsistent(NewUser(r, id))
  {
  }

  /**
   * `submitStudentVerification`, given at least two stored file names: the
   * first is the id card, the second the other document; the status becomes
   * "pending" and nothing else is touched.
   */
  function Submit(u: User, files: seq<string>): (r: User)
    requires |files| >= 2
    ensures r.studentStatus == PendingReview
    ensures r.studentIdCard == Uploads.UploadDir + files[0] && r.studentSecondDocument == Uploads.UploadDir + files[1]
    ensures r.isStudent == u.isStudent && r.studentExpiry == u.studentExpiry
    ensures r.(studentIdCard := u.studentIdCard, studentSecondDocument := u.studentSecondDocument,
               studentStatus := u.studentStatus) == u
    ensures ValidUser(u) ==> ValidUser(r)
  {
    u.(studentIdCard := Uploads.UploadDir + files[0],
       studentSecondDocument := Uploads.UploadDir + files[1],
       studentStatus := PendingReview)
  }

  /**
   * Submitting keeps the flag and the expiry, so a consistent record stays
   * consistent exactly when the user was not a student: a verified student
   * who submits again is "pending" while still flagged as a student.
   */
  lemma SubmitConsistency(u: User, files: seq<string>)
    requires |files| >= 2 && StudentConsistent(u)
    ensures StudentConsistent(Submit(u, files)) <==> !u.isStudent
  {
  }

  /**
   * `verifyStudent`: the action "verify" (and only that exact text) makes a
   * verified student until `expiry`; anything else rejects. The previous
   * status plays no part.
   */
  function Decide(u: User, action: string, expiry: Time): (r: User)
    ensures StudentConsistent(r)
    ensures r.isStudent <==> action == "verify"
    ensures action == "verify" ==> r.studentExpiry == Some(expiry)
    ensures action != "verify" ==> r.studentStatus == Rejected
    ensures r.(studentStatus := u.studentStatus, isStudent := u.isStudent, studentExpiry := u.studentExpiry) == u
    ensures ValidUser(u) ==> ValidUser(r)
  {
    if action == "verify" then
      u.(studentStatus := Verified, isStudent := true, studentExpiry := Some(expiry))
    else
      u.(studentStatus := Rejected, isStudent := false, studentExpiry := None)
  }

  /** `unverifyStudent`: back to "none", not a student, no expiry. */
  function Unverify(u: User): (r: User)
    ensures StudentConsistent(r) && !r.isStudent && r.studentStatus == Unverified
    ensures r.(studentStatus := u.studentStatus, isStudent := u.isStudent, studentExpiry := u.studentExpiry) == u
    ensures ValidUser(u) ==> ValidUser(r)
  {
    u.(studentStatus := Unverified, isStudent := false, studentExpiry := None)
  }

  datatype StudentReport = StudentReport(isStudent: bool, status: StudentStatus, expiry: Option<Time>)

  function ReportOf(u: User): StudentReport {
    StudentReport(u.isStudent, u.studentStatus, u.studentExpiry)
  }

  predicate Lapsed(u: User, now: Time) {
    u.isStudent && u.studentExpiry.Some? && now > u.studentExpiry.value
  }

  /**
   * `getVerificationStatus`: a student whose expiry has passed is reset to
   * "none" and saved; the answer always describes the record as it is stored
   * afterwards, and never a student whose expiry has passed.
   */
  function ReadStatus(u: User, now: Time): (r: (StudentReport, User))
    ensures r.0 == ReportOf(r.1)
    ensures r.0.isStudent && r.0.expiry.Some? ==> now <= r.0.expiry.value
    ensures Lapsed(u, now) ==> !r.0.isStudent && r.0.status == Unverified && r.0.expiry.None?
    ensures !Lapsed(u, now) ==> r.1 == u
    ensures StudentConsistent(u) ==> StudentConsistent(r.1)
    ensures ValidUser(u) ==> ValidUser(r.1)
  {
    if Lapsed(u, now) then
      var reset := u.(isStudent := false, studentStatus := Unverified, studentExpiry := None);
      (ReportOf(reset), reset)
    else (ReportOf(u), u)
  }

  /** Reading twice at the same moment answers and stores what reading once does. */
  lemma ReadStatusIdempotent(u: User, now: Time)
    ensures var first := ReadStatus(u, now); ReadStatus(first.1, now) == first
  {
  }

  /**
   * A verification granted until `expiry` reads as verified up to and
   * including that moment and as "none" after it.
   */
  lemma VerifiedUntilExpiry(u: User, expiry: Time, now: Time)
    ensures var r := ReadStatus(Decide(u, "verify", expiry), now).0;
      (now <= expiry ==> r.isStudent && r.status == Verified && r.expiry == Some(expiry))
      && (now > expiry ==> !r.isStudent && r.status == Unverified)
  {
  }

  /** A rejected or revoked user is never lapsed, whatever the time. */
  lemma NonStudentsNeverLapse(u: User, action: string, expiry: Time, now: Time)
    requires action != "verify"
    ensures ReadStatus(Decide(u, action, expiry), now).1 == Decide(u, action, expiry)
    ensures ReadStatus(Unverify(u), now).1 == Unverify(u)
  {
  }
}
