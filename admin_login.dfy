/** The admin login form: two text fields and an error line. Submitting hands the credentials to the
    page's login callback only for one fixed user name and password; anything else shows an error. */
module AdminLoginForm {
  import opened Wrappers

  const FormUser: string := "admin"
  const FormPassword: string := "mihir9373"

  const InvalidMessage: string := "Invalid username or password"

  /** A form check that lets exactly one user name and password through. */
  predicate FormAcceptsPair(expectedUser: string, expectedPassword: string, username: string, password: string) {
    username == expectedUser && password == expectedPassword
  }

  /** The form's own credential check. */
  predicate FormAccepts(username: string, password: string) {
    FormAcceptsPair(FormUser, FormPassword, username, password)
  }

  /** The form state. */
  class LoginForm {
    var username: string
    var password: string
    var error: string

    /** The form as first rendered: both fields and the error empty. */
    constructor ()
      ensures username == "" && password == "" && error == ""
    {
      username, password, error := "", "", "";
    }

    method SetUsername(text: string)
      modifies this
      ensures username == text && password == old(password) && error == old(error)
    {
      username := text;
    }

    method SetPassword(text: string)
      modifies this
      ensures password == text && username == old(username) && error == old(error)
    {
      password := text;
    }

    /** The submit handler. It answers the call it makes to the login callback, if any. Accepted
        credentials are passed on and the error line is left as it was, an earlier error included;
        anything else sets the error and calls nothing. The fields keep their text either way. */
    method Submit() returns (call: Option<(string, string)>)
      modifies this
      ensures username == old(username) && password == old(password)
      ensures FormAccepts(username, password) ==> call == Some((username, password)) && error == old(error)
      ensures !FormAccepts(username, password) ==> call == None && error == InvalidMessage
    {
      call := SubmitChecking(FormUser, FormPassword);
    }

    /** The submit handler of a form whose fixed pair is `expectedUser` and `expectedPassword`. */
    method SubmitChecking(expectedUser: string, expectedPassword: string) returns (call: Option<(string, string)>)
      modifies this
      ensures username == old(username) && password == old(password)
      ensures FormAcceptsPair(expectedUser, expectedPassword, username, password) ==>
        call == Some((username, password)) && error == old(error)
      ensures !FormAcceptsPair(expectedUser, expectedPassword, username, password) ==>
        call == None && error == InvalidMessage
    {
      if username == expectedUser && password == expectedPassword {
        call := Some((username, password));
      } else {
        error := InvalidMessage;
        call := None;
      }
    }
  }

  /** A wrong password followed by the right one: the callback is called, and the error stays on screen. */
  method RetryKeepsError() returns (form: LoginForm, call: Option<(string, string)>)
    ensures call == Some((FormUser, FormPassword)) && form.error == InvalidMessage
  {
    form := new LoginForm();
    form.SetUsername("admin");
    form.SetPassword("admin");
    var first := form.Submit();
    form.SetPassword("mihir9373");
    call := form.Submit();
  }
}
