/**
 * The password reset page (src/pages/resetPassword/index.tsx): it checks the
 * link's token once on mount, validates the new password locally, submits it,
 * and shows one of four views chosen by a fixed priority.
 */
module ResetPassword {
  import opened Wrappers

  const MinPasswordLength: nat := 8
  const TooShortError := "Password must be at least 8 characters long."
  const MismatchError := "Passwords do not match."
  const NoTokenError := "Invalid reset link. No token provided."
  const TokenRejectedError := "Password reset token is invalid or has expired."
  const TokenCheckFailedError := "Failed to validate reset token."
  const ResetFailedError := "Failed to reset password."
  const InvalidLinkFallback := "The password reset link is invalid or has expired."
  const LoginPath := "/login"

  /**
   * The first thing wrong with a new password, in the order the page checks:
   * the length rule takes precedence over the confirmation.
   */
  function PasswordProblem(password: string, confirmation: string): (r: Option<string>)
    ensures r == Some(TooShortError) <==> |password| < MinPasswordLength
    ensures r == Some(MismatchError) <==> |password| >= MinPasswordLength && password != confirmation
    ensures r.None? <==> |password| >= MinPasswordLength && password == confirmation
  {
    assert |TooShortError| != |MismatchError|;
    if |password| < MinPasswordLength then Some(TooShortError)
    else if password != confirmation then Some(MismatchError)
    else None
  }

  /** The four screens the page can show. */
  datatype View = ValidatingToken | ResetSucceeded | InvalidLink(message: string) | ResetForm

  /** The render's if-chain: validating, then succeeded, then invalid link, then the form. */
  function SelectView(validating: bool, reset: bool, tokenValid: bool, error: string): (v: View)
    ensures v.ValidatingToken? <==> validating
    ensures v.ResetSucceeded? <==> !validating && reset
    ensures v.InvalidLink? <==> !validating && !reset && !tokenValid
    ensures v.ResetForm? <==> !validating && !reset && tokenValid
    ensures v.InvalidLink? ==> v.message != [] && (error != [] ==> v.message == error)
    ensures v.InvalidLink? && error == [] ==> v.message == InvalidLinkFallback
  {
    if validating then ValidatingToken
    else if reset then ResetSucceeded
    else if !tokenValid then InvalidLink(if error != [] then error else InvalidLinkFallback)
    else ResetForm
  }

  /** What `resetPassword` is called with. */
  datatype ResetRequest = ResetRequest(token: string, newPassword: string)

  class ResetPasswordPage {
    /** The `:token` route parameter, absent when the route has none. */
    const token: Option<string>
    var isValidatingToken: bool
    var isTokenValid: bool
    var isResettingPassword: bool
    var isPasswordReset: bool
    var error: string
    var showPassword: bool
    var showConfirmPassword: bool
    var passwordError: string
    /** Navigations scheduled by the success timer. */
    ghost var scheduledRedirects: seq<string>

    constructor(token: Option<string>)
      ensures this.token == token
      ensures isValidatingToken && !isTokenValid && !isResettingPassword && !isPasswordReset
      ensures error == [] && passwordError == [] && !showPassword && !showConfirmPassword
      ensures scheduledRedirects == []
      ensures CurrentView() == ValidatingToken
    {
      this.token := token;
      isValidatingToken := true;
      isTokenValid := false;
      isResettingPassword := false;
      isPasswordReset := false;
      error := [];
      showPassword := false;
      showConfirmPassword := false;
      passwordError := [];
      scheduledRedirects := [];
    }

    /** `if (token)`: present and not empty. */
    predicate HasToken()
    {
      token.Some? && token.value != []
    }

    /** The screen the page renders now. */
    function CurrentView(): View
      reads this
    {
      SelectView(isValidatingToken, isPasswordReset, isTokenValid, error)
    }

    /**
     * `validateToken`: `validation` is how `validateResetToken` settled, with
     * the `isValid` field of its response on success.
     */
    method ValidateToken(validation: Outcome<bool>)
      modifies this
      ensures !isValidatingToken
      ensures isTokenValid == (old(isTokenValid) || validation == Success(true))
      ensures validation == Success(true) ==> error == []
      ensures validation == Success(false) ==> error == TokenRejectedError
      ensures validation.Failure? ==> error == TokenCheckFailedError
      ensures isResettingPassword == old(isResettingPassword) && isPasswordReset == old(isPasswordReset)
      ensures passwordError == old(passwordError) && scheduledRedirects == old(scheduledRedirects)
      ensures showPassword == old(showPassword) && showConfirmPassword == old(showConfirmPassword)
    {
      isValidatingToken := true;
      error := [];
      match validation {
        case Success(isValid) =>
          if isValid {
            isTokenValid := true;
          } else {
            error := TokenRejectedError;
          }
        case Failure(_) =>
          error := TokenCheckFailedError;
      }
      isValidatingToken := false;
    }

    /**
     * The mount effect. With a token, it is validated (`checked` is the token
     * sent); without one, the page goes straight to the invalid-link view and
     * the server is not asked.
     */
    method OnMount(validation: Outcome<bool>) returns (checked: Option<string>)
      modifies this
      ensures !isValidatingToken
      ensures checked.Some? <==> HasToken()
      ensures checked.Some? ==> checked.value == token.value
      ensures HasToken() ==> isTokenValid == (old(isTokenValid) || validation == Success(true))
      ensures !HasToken() ==> error == NoTokenError && isTokenValid == old(isTokenValid)
      ensures HasToken() && validation == Success(true) ==> error == []
      ensures HasToken() && validation == Success(false) ==> error == TokenRejectedError
      ensures HasToken() && validation.Failure? ==> error == TokenCheckFailedError
      ensures isPasswordReset == old(isPasswordReset) && passwordError == old(passwordError)
      ensures isResettingPassword == old(isResettingPassword) && scheduledRedirects == old(scheduledRedirects)
      ensures showPassword == old(showPassword) && showConfirmPassword == old(showConfirmPassword)
      ensures !old(isPasswordReset) && HasToken() && validation == Success(true) ==> CurrentView() == ResetForm
      ensures !old(isPasswordReset) && !old(isTokenValid) && !HasToken() ==>
        CurrentView() == InvalidLink(NoTokenError)
    {
      if token.Some? && token.value != [] {
        checked := Some(token.value);
        ValidateToken(validation);
      } else {
        checked := None;
        error := NoTokenError;
        isValidatingToken := false;
      }
    }

    /** `validatePasswords`: the verdict and the field error follow `PasswordProblem`. */
    method ValidatePasswords(password: string, confirmation: string) returns (ok: bool)
      modifies this
      ensures ok <==> PasswordProblem(password, confirmation).None?
      ensures !ok ==> passwordError == PasswordProblem(password, confirmation).value
      ensures ok ==> passwordError == []
      ensures isValidatingToken == old(isValidatingToken) && isTokenValid == old(isTokenValid)
      ensures isResettingPassword == old(isResettingPassword) && isPasswordReset == old(isPasswordReset)
      ensures error == old(error) && scheduledRedirects == old(scheduledRedirects)
      ensures showPassword == old(showPassword) && showConfirmPassword == old(showConfirmPassword)
    {
      if |password| < MinPasswordLength {
        passwordError := TooShortError;
        return false;
      }
      if password != confirmation {
        passwordError := MismatchError;
        return false;
      }
      passwordError := [];
      return true;
    }

    /**
     * `handleSubmit`: `request` is what `resetPassword` was called with, if it
     * was called, and `reset` is how that call settled. Success schedules the
     * redirect to the login page.
     */
    method HandleSubmit(newPassword: string, confirmPassword: string, reset: Outcome<()>)
      returns (request: Option<ResetRequest>)
      requires token.Some?
      modifies this
      ensures request.None? <==> PasswordProblem(newPassword, confirmPassword).Some?
      ensures request.None? ==>
        && passwordError == PasswordProblem(newPassword, confirmPassword).value
        && error == old(error) && isPasswordReset == old(isPasswordReset)
        && isResettingPassword == old(isResettingPassword) && scheduledRedirects == old(scheduledRedirects)
      ensures request.Some? ==>
        && request.value == ResetRequest(token.value, newPassword)
        && passwordError == [] && !isResettingPassword
      ensures request.Some? && reset.Success? ==>
        && isPasswordReset && error == [] && scheduledRedirects == old(scheduledRedirects) + [LoginPath]
      ensures request.Some? && reset.Failure? ==>
        && isPasswordReset == old(isPasswordReset) && error == ResetFailedError
        && scheduledRedirects == old(scheduledRedirects)
      ensures isValidatingToken == old(isValidatingToken) && isTokenValid == old(isTokenValid)
      ensures showPassword == old(showPassword) && showConfirmPassword == old(showConfirmPassword)
    {
      var ok := ValidatePasswords(newPassword, confirmPassword);
      if !ok {
        return None;
      }
      isResettingPassword := true;
      error := [];
      request := Some(ResetRequest(token.value, newPassword));
      if reset.Success? {
        isPasswordReset := true;
        scheduledRedirects := scheduledRedirects + [LoginPath];
      } else {
        error := ResetFailedError;
      }
      isResettingPassword := false;
    }

    method TogglePasswordVisibility()
      modifies this
      ensures showPassword == !old(showPassword) && showConfirmPassword == old(showConfirmPassword)
      ensures isValidatingToken == old(isValidatingToken) && isTokenValid == old(isTokenValid)
      ensures isResettingPassword == old(isResettingPassword) && isPasswordReset == old(isPasswordReset)
      ensures error == old(error) && passwordError == old(passwordError)
      ensures scheduledRedirects == old(scheduledRedirects)
      ensures CurrentView() == old(CurrentView())
    {
      showPassword := !showPassword;
    }

    method ToggleConfirmPasswordVisibility()
      modifies this
      ensures showConfirmPassword == !old(showConfirmPassword) && showPassword == old(showPassword)
      ensures isValidatingToken == old(isValidatingToken) && isTokenValid == old(isTokenValid)
      ensures isResettingPassword == old(isResettingPassword) && isPasswordReset == old(isPasswordReset)
      ensures error == old(error) && passwordError == old(passwordError)
      ensures scheduledRedirects == old(scheduledRedirects)
      ensures CurrentView() == old(CurrentView())
    {
      showConfirmPassword := !showConfirmPassword;
    }
  }
}
