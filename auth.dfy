/** The Express sign-in route: check the request, look the account up by email address, compare the
    password with the stored hash, and issue a signed token valid for seven days. The address check, the
    hash comparison and the signing are parameters (`isEmail`, `compare`, `sign`); the route writes
    nothing. */
module AuthRoutes {
  import opened Wrappers
  import opened Http
  import opened Query
  import opened Users

  /** The fields of a sign-in request body. */
  datatype SignInBody = SignInBody(email: Option<string>, password: Option<string>)

  /** The token payload: the account's id under `user`. */
  datatype Payload = Payload(userId: nat)

  /** What is handed to the signer: the payload, the server's secret and the lifetime. */
  datatype SignRequest = SignRequest(payload: Payload, secret: string, expiresIn: string)

  datatype AuthResponse =
    | Token(token: string)
    | Errors(messages: seq<string>)

  function Status(r: AuthResponse): nat {
    match r
    case Token(_) => Ok
    case Errors(_) => BadRequestStatus
  }

  /** The messages of the failed request checks, in the order the checks are declared: the email must be
      an address and the password must be present (an empty one is present). */
  function ValidationErrors(b: SignInBody, isEmail: string -> bool): (errs: seq<string>)
    ensures errs == [] <==> b.email.Some? && isEmail(b.email.value) && b.password.Some?
    ensures "Include a valid email" in errs <==> !(b.email.Some? && isEmail(b.email.value))
    ensures "Password is required" in errs <==> b.password.None?
  {
    (if b.email.Some? && isEmail(b.email.value) then [] else ["Include a valid email"])
    + (if b.password.Some? then [] else ["Password is required"])
  }

  /** The account with `email`, as a lookup by address finds it. */
  function ByEmail(users: seq<User>, email: string): Option<nat> {
    FindFirst(users, (u: User) => u.email == Some(email))
  }

  /** The sign-in decision. A request failing its checks is answered 400 with those messages. A request
      whose address names no account, and one whose password does not match, are both answered 400
      "Invalid credentials". Otherwise the answer is the token signed over the account's id, with the
      secret, for "7d"; the account is the first one with that address. */
  function SignIn(users: seq<User>, b: SignInBody, isEmail: string -> bool, compare: (string, string) -> bool,
                  sign: SignRequest -> string, secret: string): (r: AuthResponse)
    ensures ValidationErrors(b, isEmail) != [] ==> r == Errors(ValidationErrors(b, isEmail))
    ensures ValidationErrors(b, isEmail) == [] && (forall i :: 0 <= i < |users| ==> users[i].email != b.email) ==>
      r == Errors(["Invalid credentials"])
    ensures ValidationErrors(b, isEmail) == [] && r.Errors? ==> r.messages == ["Invalid credentials"]
    ensures r.Token? <==>
      ValidationErrors(b, isEmail) == [] &&
      exists i :: 0 <= i < |users| && users[i].email == b.email
        && (forall j :: 0 <= j < i ==> users[j].email != b.email)
        && compare(b.password.value, users[i].password)
    ensures r.Token? ==>
      exists i :: 0 <= i < |users| && users[i].email == b.email
        && (forall j :: 0 <= j < i ==> users[j].email != b.email)
        && r.token == sign(SignRequest(Payload(users[i].id), secret, "7d"))
  {
    var errs := ValidationErrors(b, isEmail);
    if errs != [] then Errors(errs)
    else
      match ByEmail(users, b.email.value)
      case None => Errors(["Invalid credentials"])
      case Some(i) =>
        if !compare(b.password.value, users[i].password) then Errors(["Invalid credentials"])
        else Token(sign(SignRequest(Payload(users[i].id), secret, "7d")))
  }

  /** An unknown address and a wrong password for a known one get the very same answer, so the answer
      does not reveal whether an address has an account. */
  lemma {:induction false} FailuresIndistinguishable(users: seq<User>, unknown: SignInBody, wrong: SignInBody,
                                                     isEmail: string -> bool, compare: (string, string) -> bool,
                                                     sign: SignRequest -> string, secret: string)
    requires ValidationErrors(unknown, isEmail) == [] && ValidationErrors(wrong, isEmail) == []
    requires forall i :: 0 <= i < |users| ==> users[i].email != unknown.email
    requires forall i :: 0 <= i < |users| && users[i].email == wrong.email ==>
      !compare(wrong.password.value, users[i].password)
    ensures SignIn(users, unknown, isEmail, compare, sign, secret)
         == SignIn(users, wrong, isEmail, compare, sign, secret)
         == Errors(["Invalid credentials"])
  {
  }
}
