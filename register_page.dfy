/**
 * The registration form: the client-side password checks made before the
 * sign-up request, and the form state after the request returns. The
 * authentication service is the `SignUpResult` the handler receives.
 */
module RegisterPage {
  import opened Wrappers

  const MismatchError: string := "Passwords do not match"
  const TooShortError: string := "Password must be at least 8 characters long"
  const UnexpectedError: string := "An unexpected error occurred. Please try again."
  const SuccessMessage: string := "Registration successful! You can now log in."
  const MinPasswordLength: nat := 8

  /** The two checks, in order: the error the form shows, or `None` when the request may be sent. */
  function PasswordProblem(password: string, confirmPassword: string): (r: Option<string>)
    ensures r.None? <==> password == confirmPassword && |password| >= MinPasswordLength
    ensures password != confirmPassword ==> r == Some(MismatchError)
    ensures password == confirmPassword && |password| < MinPasswordLength ==> r == Some(TooShortError)
  {
    if password != confirmPassword then Some(MismatchError)
    else if |password| < MinPasswordLength then Some(TooShortError)
    else None
  }

  /** The mismatch check comes first: a short password that does not match its confirmation reports the mismatch. */
  lemma MismatchReportedFirst(password: string, confirmPassword: string)
    requires password != confirmPassword && |password| < MinPasswordLength
    ensures PasswordProblem(password, confirmPassword) == Some(MismatchError)
    ensures MismatchError != TooShortError
  {
    assert MismatchError[0] == 'P' && TooShortError[0] == 'P';
    assert |MismatchError| != |TooShortError|;
  }

  /** The request sent to the authentication service. */
  datatype SignUpRequest = SignUpRequest(email: string, password: string)

  /** What `signUp` did: threw, returned an error, or succeeded with or without a session. */
  datatype SignUpResult = SignUpThrew | SignUpError(message: string) | SignUpOk(hasSession: bool)

  class RegisterForm {
    var email: string
    var password: string
    var confirmPassword: string
    var error: string
    var successMessage: string
    var isLoading: bool

    constructor ()
      ensures email == "" && password == "" && confirmPassword == "" && error == "" && successMessage == ""
      ensures !isLoading
    {
      email, password, confirmPassword, error, successMessage, isLoading := "", "", "", "", "", false;
    }

    /**
     * The synchronous part of `handleSubmit`: the messages clear, then a
     * failed check shows its error and no request is made; otherwise the
     * form is loading and the request carries the entered email and password.
     */
    method Submit() returns (request: Option<SignUpRequest>)
      modifies this
      ensures email == old(email) && password == old(password) && confirmPassword == old(confirmPassword)
      ensures successMessage == ""
      ensures request.None? <==> PasswordProblem(password, confirmPassword).Some?
      ensures request.None? ==> error == PasswordProblem(password, confirmPassword).value && isLoading == old(isLoading)
      ensures request.Some? ==> request.value == SignUpRequest(email, password) && error == "" && isLoading
    {
      error := "";
      successMessage := "";
      var problem := PasswordProblem(password, confirmPassword);
      if problem.Some? {
        error := problem.value;
        return None;
      }
      isLoading := true;
      request := Some(SignUpRequest(email, password));
    }

    /**
     * The rest of `handleSubmit`: a returned error shows its message, a
     * success shows the success message and clears the three fields (and
     * navigates when a session came back), a thrown error shows the generic
     * message; the form stops loading in every case.
     */
    method SignUpReturned(result: SignUpResult) returns (redirect: Option<string>)
      modifies this
      ensures !isLoading
      ensures result.SignUpError? ==>
        && error == result.message && successMessage == old(successMessage)
        && email == old(email) && password == old(password) && confirmPassword == old(confirmPassword)
      ensures result.SignUpThrew? ==>
        && error == UnexpectedError && successMessage == old(successMessage)
        && email == old(email) && password == old(password) && confirmPassword == old(confirmPassword)
      ensures result.SignUpOk? ==>
        && successMessage == SuccessMessage && error == old(error)
        && email == "" && password == "" && confirmPassword == ""
      ensures redirect.Some? <==> result.SignUpOk? && result.hasSession
      ensures redirect.Some? ==> redirect.value == "/my-documents"
    {
      redirect := None;
      match result {
        case SignUpError(message) =>
          error := message;
        case SignUpThrew =>
          error := UnexpectedError;
        case SignUpOk(hasSession) =>
          successMessage := SuccessMessage;
          email, password, confirmPassword := "", "", "";
          if hasSession {
            redirect := Some("/my-documents");
          }
      }
      isLoading := false;
    }
  }
}
