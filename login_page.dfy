/**
 * The login screen's own state: the two fields and the error line, the
 * blank-field guard on the login button, the mapping from a failure to the
 * text shown, and the move to the home screen once somebody is logged in.
 */
module LoginPage {
  import opened Results
  import opened Entities
  import opened Text
  import opened Repository
  import opened Session

  const FillBothText := "Lütfen e-posta ve şifre alanlarını doldurun"
  const InvalidCredentialsText := "Geçersiz e-posta veya şifre"
  const LoginFailedText := "Giriş yapılırken bir hata oluştu"

  /**
   * The error line for a failed login: the invalid-credentials text exactly
   * when the failure's message is exactly "Invalid credentials", the generic
   * text for every other message (a null one included).
   */
  function LoginErrorText(message: Option<string>): (t: string)
    ensures t == InvalidCredentialsText <==> message == Some(InvalidCredentials)
    ensures t == InvalidCredentialsText || t == LoginFailedText
  {
    if message == Some(InvalidCredentials) then InvalidCredentialsText else LoginFailedText
  }

  /** The screen moves on to "home" as soon as the session has a current user. */
  predicate NavigatesHome(currentUser: Option<User>)
  {
    currentUser.Some?
  }

  class LoginForm {
    var email: string
    var password: string
    var errorMessage: Option<string>

    /** Empty fields, no error line. */
    constructor ()
      ensures email == "" && password == "" && errorMessage == None
    {
      email, password := "", "";
      errorMessage := None;
    }

    method EditEmail(value: string)
      modifies this`email
      ensures email == value
    {
      email := value;
    }

    method EditPassword(value: string)
      modifies this`password
      ensures password == value
    {
      password := value;
    }

    /**
     * The login button. A blank field sets the fill-in message and does not
     * log in. Otherwise the view-model logs in; a failure sets the mapped
     * error line, a success leaves the error line as it was and makes the
     * screen navigate home.
     */
    method Submit(vm: AppViewModel, lookupError: Option<Thrown>)
      requires vm.Valid()
      modifies this`errorMessage, vm
      ensures vm.Valid()
      ensures IsBlank(email) || IsBlank(password) ==>
                errorMessage == Some(FillBothText) && unchanged(vm)
      ensures !IsBlank(email) && !IsBlank(password) ==>
                var r := LoginResult(vm.repository.userDao.rows, email, password, lookupError);
                && (r.Success? ==> errorMessage == old(errorMessage) && vm.currentUser == Some(r.value))
                && (r.Failure? ==> errorMessage == Some(LoginErrorText(r.message)))
                && (r.Failure? ==> vm.currentUser == old(vm.currentUser) && vm.medicines == old(vm.medicines))
      ensures NavigatesHome(vm.currentUser) <==>
                || NavigatesHome(old(vm.currentUser))
                || (!IsBlank(email) && !IsBlank(password) &&
                    LoginResult(vm.repository.userDao.rows, email, password, lookupError).Success?)
    {
      if !IsBlank(email) && !IsBlank(password) {
        var r := vm.Login(email, password, lookupError);
        if r.Failure? {
          errorMessage := Some(LoginErrorText(r.message));
        }
      } else {
        errorMessage := Some(FillBothText);
      }
    }
  }
}
