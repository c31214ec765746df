/**
 * `AuthViewModel`: the e-mail sign-up and log-in form. Neither action
 * reaches a backend yet; each only reports the request it would send.
 */
module Auth {
  import opened Wrappers
  import opened Text

  const RegisterPrefix := "登録リクエストを送信（実装予定）: "
  const LoginPrefix := "ログインリクエストを送信（実装予定）: "

  /** `isFormValid`: the trimmed e-mail is non-empty and the password is non-empty. */
  function IsFormValid(email: string, password: string): (ok: bool) {
    Trim(email) != [] && password != []
  }

  /** The form is valid exactly when the e-mail holds a non-whitespace character and a password was typed. */
  lemma FormValidIff(email: string, password: string)
    ensures IsFormValid(email, password) <==>
      (exists i :: 0 <= i < |email| && !IsWhitespace(email[i])) && password != []
  {
    TrimEmptyIff(email);
  }

  class AuthViewModel {
    var email: string
    var password: string
    var isLoading: bool
    var infoMessage: Option<string>
    var errorMessage: Option<string>

    constructor()
      ensures email == [] && password == [] && !isLoading && infoMessage == None && errorMessage == None
    {
      email, password, isLoading, infoMessage, errorMessage := [], [], false, None, None;
    }

    /** Both buttons are disabled while a request runs or the form is invalid. */
    predicate ButtonsDisabled()
      reads this
    {
      isLoading || !IsFormValid(email, password)
    }

    /** `register()`: reports the sign-up request for the current e-mail; the form is kept. */
    method Register()
      modifies this
      ensures infoMessage == Some(RegisterPrefix + email) && errorMessage == None && !isLoading
      ensures email == old(email) && password == old(password)
      ensures ButtonsDisabled() <==> !IsFormValid(email, password)
    {
      infoMessage := None;
      errorMessage := None;
      isLoading := true;
      infoMessage := Some(RegisterPrefix + email);
      isLoading := false;
    }

    /** `login()`: reports the log-in request for the current e-mail; the form is kept. */
    method Login()
      modifies this
      ensures infoMessage == Some(LoginPrefix + email) && errorMessage == None && !isLoading
      ensures email == old(email) && password == old(password)
      ensures ButtonsDisabled() <==> !IsFormValid(email, password)
    {
      infoMessage := None;
      errorMessage := None;
      isLoading := true;
      infoMessage := Some(LoginPrefix + email);
      isLoading := false;
    }
  }
}
