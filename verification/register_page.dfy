// The registration form's submit handler
// (frontend/src/pages/RegisterPage.tsx). The awaited `register` call
// splits it into `BeginSubmit` (validation and the request) and
// `FinishSubmit` (what follows the call).

module RegisterPage {
  import opened Common
  import opened ApiTypes

  const MinPasswordLength: nat := 8
  const MismatchMessage: string := "Passwords do not match"
  const TooShortMessage: string := "Password must be at least 8 characters"
  const DashboardPath: string := "/dashboard"

  /** The form's checks, in the order the handler runs them: the
      confirmation first, then the length. */
  function RegistrationError(password: string, confirmPassword: string): (r: Option<string>)
    ensures r == None <==> password == confirmPassword && |password| >= MinPasswordLength
    ensures password != confirmPassword ==> r == Some(MismatchMessage)
    ensures password == confirmPassword && |password| < MinPasswordLength ==> r == Some(TooShortMessage)
  {
    if password != confirmPassword then Some(MismatchMessage)
    else if |password| < MinPasswordLength then Some(TooShortMessage)
    else None
  }

  /** A mismatch is reported even when the password is also too short, and a
      matching password of exactly eight characters passes. */
  lemma ValidationOrder(short: string, other: string, eight: string)
    requires |short| < MinPasswordLength && short != other && |eight| == MinPasswordLength
    ensures RegistrationError(short, other) == Some(MismatchMessage)
    ensures RegistrationError(eight, eight) == None
  {
  }

  class RegisterForm {
    var email: string
    var username: string
    var password: string
    var confirmPassword: string
    var isSubmitting: bool
    var error: string
    var navigatedTo: Option<string>

    constructor (email: string, username: string, password: string, confirmPassword: string)
      ensures this.email == email && this.username == username
      ensures this.password == password && this.confirmPassword == confirmPassword
      ensures !isSubmitting && error == "" && navigatedTo == None
    {
      this.email, this.username := email, username;
      this.password, this.confirmPassword := password, confirmPassword;
      isSubmitting, error, navigatedTo := false, "", None;
    }

    /** `handleSubmit` up to the awaited call: the error is cleared, then a
        failed check sets its message and returns without calling `register`
        or touching the submit flag; otherwise the flag is raised and the
        request returned. */
    method BeginSubmit() returns (request: Option<RegisterRequest>)
      modifies this`error, this`isSubmitting
      ensures var check := RegistrationError(password, confirmPassword);
              && (check.Some? ==> request == None && error == check.value && isSubmitting == old(isSubmitting))
              && (check.None? ==> request == Some(RegisterRequest(email, username, password)) && error == "" && isSubmitting)
    {
      error := "";
      if password != confirmPassword {
        error := MismatchMessage;
        return None;
      }
      if |password| < MinPasswordLength {
        error := TooShortMessage;
        return None;
      }
      isSubmitting := true;
      request := Some(RegisterRequest(email, username, password));
    }

    /** `handleSubmit` after the call: the flag drops, and the dashboard is
        opened exactly when registration succeeded. */
    method FinishSubmit(success: bool)
      modifies this`isSubmitting, this`navigatedTo
      ensures !isSubmitting
      ensures navigatedTo == (if success then Some(DashboardPath) else old(navigatedTo))
    {
      isSubmitting := false;
      if success {
        navigatedTo := Some(DashboardPath);
      }
    }
  }
}
