/**
 * The registration screen's own state: the error line, the mapping from a
 * failure to the text shown, and the move to the login screen on success.
 * The three fields go to the view-model as they are: there is no blank check.
 */
module RegisterScreen {
  import opened Results
  import opened Entities
  import opened Text
  import opened UserTable
  import opened Repository
  import opened Session

  const EmailTakenText := "Bu e-posta adresi zaten kayıtlı"
  const RegisterFailedText := "Kayıt olurken bir hata oluştu"

  /**
   * The error line for a failed registration: the e-mail-taken text exactly
   * when the failure's message contains "Email already registered", the
   * generic text otherwise (a null message included).
   */
  function RegisterErrorText(message: Option<string>): (t: string)
    ensures t == EmailTakenText <==> message.Some? && Contains(message.value, EmailTaken)
    ensures t == EmailTakenText || t == RegisterFailedText
  {
    if message.Some? && Contains(message.value, EmailTaken) then EmailTakenText else RegisterFailedText
  }

  /** Unlike the login screen's exact match, any message that wraps the phrase is recognised. */
  lemma WrappedEmailTakenRecognised(prefix: string, suffix: string)
    ensures RegisterErrorText(Some(prefix + EmailTaken + suffix)) == EmailTakenText
  {
    ContainsInfix(prefix, EmailTaken, suffix);
  }

  /** End to end: registering an e-mail already on file shows the e-mail-taken text. */
  lemma TakenEmailShown(rows: seq<User>, lastId: int, email: string, insertError: Option<Thrown>)
    requires exists u :: u in rows && u.email == email
    ensures RegisterErrorText(RegisterResult(rows, lastId, email, None, insertError).message) == EmailTakenText
  {
    WrappedEmailTakenRecognised("", "");
    assert "" + EmailTaken + "" == EmailTaken;
  }

  class RegisterForm {
    var username: string
    var email: string
    var password: string
    var errorMessage: Option<string>

    /** Empty fields, no error line. */
    constructor ()
      ensures username == "" && email == "" && password == "" && errorMessage == None
    {
      username, email, password := "", "", "";
      errorMessage := None;
    }

    method Edit(newUsername: string, newEmail: string, newPassword: string)
      modifies this`username, this`email, this`password
      ensures username == newUsername && email == newEmail && password == newPassword
    {
      username, email, password := newUsername, newEmail, newPassword;
    }

    /**
     * The register button: the three fields go to the view-model whatever
     * they hold. Success navigates to "login" and leaves the error line;
     * failure sets the mapped error line and stays.
     */
    method Submit(vm: AppViewModel, lookupError: Option<Thrown>, insertError: Option<Thrown>) returns (navigateToLogin: bool)
      requires vm.Valid()
      modifies this`errorMessage, vm.repository.userDao
      ensures vm.Valid()
      ensures var r := RegisterResult(old(vm.repository.userDao.rows), old(vm.repository.userDao.lastId),
                                      email, lookupError, insertError);
              && (navigateToLogin <==> r.Success?)
              && (r.Success? ==> errorMessage == old(errorMessage))
              && (r.Success? ==> vm.repository.userDao.rows == old(vm.repository.userDao.rows) + [User(r.value, username, email, password)])
              && (r.Failure? ==> errorMessage == Some(RegisterErrorText(r.message)))
      ensures !navigateToLogin ==> unchanged(vm.repository.userDao)
      ensures navigateToLogin ==> vm.repository.userDao.lastId == old(vm.repository.userDao.lastId) + 1
      ensures vm.currentUser == old(vm.currentUser) && vm.medicines == old(vm.medicines)
    {
      ghost var expected := RegisterResult(vm.repository.userDao.rows, vm.repository.userDao.lastId,
                                           email, lookupError, insertError);
      var r := vm.Register(username, email, password, lookupError, insertError);
      assert r == Discard(expected);
      if r.Success? {
        navigateToLogin := true;
      } else {
        navigateToLogin := false;
        errorMessage := Some(RegisterErrorText(r.message));
      }
    }
  }
}
