/**
 * The administrator login (server/controllers/adminController.js): one
 * fixed credential pair, compared exactly; no store is read or written.
 */
module AdminLogin {
  import opened Common

  const AdminEmail: string := "admin@mrt.com"
  const AdminPassword: string := "admin123"
  const AdminName: string := "Admin"

  datatype AdminProfile = AdminProfile(email: string, name: string)

  datatype LoginAnswer = LoginAnswer(status: Status, success: bool, admin: Option<AdminProfile>)

  /** 200 with the fixed profile exactly for the fixed pair; 401 for anything else, including a differently cased e-mail. */
  function Login(email: string, password: string): (r: LoginAnswer)
    ensures r.success <==> email == AdminEmail && password == AdminPassword
    ensures r.status == (if r.success then 200 else 401)
    ensures r.admin.Some? <==> r.success
    ensures r.admin.Some? ==> r.admin.value == AdminProfile(email, AdminName)
  {
    if email == AdminEmail && password == AdminPassword then
      LoginAnswer(200, true, Some(AdminProfile(AdminEmail, AdminName)))
    else
      LoginAnswer(401, false, None)
  }

  /** The comparison is exact: no trimming or case folding. */
  lemma LoginIsExact()
    ensures !Login("Admin@mrt.com", AdminPassword).success
    ensures !Login(AdminEmail + " ", AdminPassword).success
    ensures Login(AdminEmail, AdminPassword).success
  {
  }
}
