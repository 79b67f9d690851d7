/** The file-routed sign-in endpoint: a POST looks the account up by user name and compares the password
    with the stored hash; it answers success or "Invalid credentials" and issues no token or session.
    The hash comparison is a parameter, `compare`. */
module LoginApi {
  import opened Wrappers
  import opened Http
  import opened Query
  import opened Users

  datatype LoginResponse =
    | Success(message: string)
    | Unauthorized(message: string)
    | MethodNotAllowed(allow: seq<string>)

  function Status(r: LoginResponse): nat {
    match r
    case Success(_) => Ok
    case Unauthorized(_) => UnauthorizedStatus
    case MethodNotAllowed(_) => MethodNotAllowedStatus
  }

  /** The account with `username`, as a lookup by user name finds it. */
  function ByUsername(users: seq<User>, username: string): Option<nat> {
    FindFirst(users, (u: User) => u.username == username)
  }

  /** The decision: any verb but POST is answered 405 allowing POST; a POST succeeds (200 "Login
      successful") exactly when an account has that user name and the password matches its hash (the
      first such account), and is answered 401 "Invalid credentials" in every other case. */
  function Login(users: seq<User>, verb: Verb, username: string, password: string,
                 compare: (string, string) -> bool): (r: LoginResponse)
    ensures verb != POST <==> r == MethodNotAllowed(["POST"])
    ensures verb == POST ==> r == Success("Login successful") || r == Unauthorized("Invalid credentials")
    ensures r.Success? <==>
      verb == POST &&
      exists i :: 0 <= i < |users| && users[i].username == username
        && (forall j :: 0 <= j < i ==> users[j].username != username)
        && compare(password, users[i].password)
  {
    if verb != POST then MethodNotAllowed(["POST"])
    else
      match ByUsername(users, username)
      case Some(i) =>
        if compare(password, users[i].password) then Success("Login successful")
        else Unauthorized("Invalid credentials")
      case None => Unauthorized("Invalid credentials")
  }

  /** The lookup is by user name: an account whose email address is the name given does not make the
      login succeed, whatever the password. */
  lemma {:induction false} EmailIsNotAUsername(users: seq<User>, name: string, password: string,
                                               compare: (string, string) -> bool)
    requires forall i :: 0 <= i < |users| ==> users[i].username != name
    ensures Login(users, POST, name, password, compare) == Unauthorized("Invalid credentials")
  {
  }
}
