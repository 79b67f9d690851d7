/** The contact endpoint: a POST with a name, an email address and a message stores the message; a
    missing field is refused; any other verb is refused. The address is not checked for form. */
module Contact {
  import opened Wrappers
  import opened Http
  import Newsletter

  /** The fields of a contact request body. */
  datatype ContactBody = ContactBody(name: Option<string>, email: Option<string>, message: Option<string>)

  /** A stored message; `sentAt` takes the time of storing. */
  datatype ContactMessage = ContactMessage(name: string, email: string, message: string, sentAt: int)

  datatype ContactResponse =
    | Sent
    | Refused(message: string)
    | MethodNotAllowed

  function Status(r: ContactResponse): nat {
    match r
    case Sent => Ok
    case Refused(_) => BadRequestStatus
    case MethodNotAllowed => MethodNotAllowedStatus
  }

  /** A field passes the required check when it is given and is not the empty string. */
  predicate Given(v: Option<string>) {
    v.Some? && v.value != ""
  }

  /** The answer to a contact request and the messages afterwards: 405 for a verb other than POST; 400 "All
      fields are required" when any field is missing or empty; otherwise 200 and exactly one new message
      holding the three values. Nothing is stored except on success. */
  function Submit(msgs: seq<ContactMessage>, verb: Verb, b: ContactBody, now: int)
    : (r: (ContactResponse, seq<ContactMessage>))
    ensures verb != POST ==> r == (MethodNotAllowed, msgs)
    ensures verb == POST && !(Given(b.name) && Given(b.email) && Given(b.message)) ==>
      r == (Refused("All fields are required"), msgs)
    ensures verb == POST && Given(b.name) && Given(b.email) && Given(b.message) ==>
      && r.0 == Sent && Status(r.0) == 200
      && |r.1| == |msgs| + 1 && r.1[..|msgs|] == msgs
      && r.1[|msgs|] == ContactMessage(b.name.value, b.email.value, b.message.value, now)
  {
    if verb != POST then (MethodNotAllowed, msgs)
    else if !Given(b.name) || !Given(b.email) || !Given(b.message) then
      (Refused("All fields are required"), msgs)
    else
      (Sent, msgs + [ContactMessage(b.name.value, b.email.value, b.message.value, now)])
  }

  /** Unlike the newsletter, the contact form takes any non-empty text as its email address: "x" fails
      the subscription test but is stored here. */
  lemma {:induction false} NoEmailFormatCheck(msgs: seq<ContactMessage>, now: int)
    ensures !Newsletter.EmailTest("x")
    ensures Submit(msgs, POST, ContactBody(Some("n"), Some("x"), Some("m")), now).0 == Sent
  {
    assert Newsletter.EmailTest("x") == Newsletter.MatchFrom("x", 1);
  }

  /** The contact message collection. */
  class MessageCollection {
    var messages: seq<ContactMessage>

    constructor ()
      ensures messages == []
    {
      messages := [];
    }
  }

  /** The endpoint applied to the collection. */
  method HandleContact(db: MessageCollection, verb: Verb, b: ContactBody, now: int) returns (r: ContactResponse)
    modifies db
    ensures (r, db.messages) == Submit(old(db.messages), verb, b, now)
  {
    if verb != POST {
      return MethodNotAllowed;
    }
    if !Given(b.name) || !Given(b.email) || !Given(b.message) {
      return Refused("All fields are required");
    }
    db.messages := db.messages + [ContactMessage(b.name.value, b.email.value, b.message.value, now)];
    r := Sent;
  }
}
