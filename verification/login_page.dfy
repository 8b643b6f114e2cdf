// The login form's submit handler (frontend/src/pages/LoginPage.tsx),
// split at the awaited `login` call like the registration form.

module LoginPage {
  import opened Common
  import opened ApiTypes

  const DashboardPath: string := "/dashboard"

  /** The request a submit sends: none unless both fields are filled in, and
      then exactly the two fields. */
  function LoginRequestFor(email: string, password: string): (r: Option<LoginRequest>)
    ensures r.None? <==> email == "" || password == ""
    ensures r.Some? ==> r.value.email == email && r.value.password == password
  {
    if email == "" || password == "" then None else Some(LoginRequest(email, password))
  }

  class LoginForm {
    var email: string
    var password: string
    var isSubmitting: bool
    var navigatedTo: Option<string>

    constructor (email: string, password: string)
      ensures this.email == email && this.password == password
      ensures !isSubmitting && navigatedTo == None
    {
      this.email, this.password := email, password;
      isSubmitting, navigatedTo := false, None;
    }

    /** `handleSubmit` up to the awaited call: an empty field returns at once;
        otherwise the flag is raised and the request returned. */
    method BeginSubmit() returns (request: Option<LoginRequest>)
      modifies this`isSubmitting
      ensures request == LoginRequestFor(email, password)
      ensures isSubmitting == (request.Some? || old(isSubmitting))
    {
      if email == "" || password == "" {
        return None;
      }
      isSubmitting := true;
      request := Some(LoginRequest(email, password));
    }

    /** `handleSubmit` after the call: the flag drops, and the dashboard is
        opened exactly when login succeeded. */
    method FinishSubmit(success: bool)
      modifies this`isSubmitting, this`navigatedTo
      ensures !isSubmitting
      ensures navigatedTo == (if success then Some(DashboardPath) else old(navigatedTo))
    {
      isSubmitting := false;
      if success {
        navigatedTo := Some(DashboardPath);
      }
    }
  }
}
