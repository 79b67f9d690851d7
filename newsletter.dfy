/** Newsletter subscription: a POST carrying an email address that passes the unanchored test
    `\S+@\S+\.\S+` and is not yet stored (compared exactly) adds one subscriber. */
module Newsletter {
  import opened Wrappers
  import opened Http
  import opened Text

  /** `s[lo..hi]` holds no white space. */
  predicate NoSpaceIn(s: string, lo: nat, hi: nat)
    requires lo <= hi <= |s|
  {
    forall i :: lo <= i < hi ==> !IsSpace(s[i])
  }

  /** The regular expression `\S+@\S+\.\S+` matches `s` with its `@` at `at` and its `.` at `dot`: a
      non-space character before the `@`, a non-empty run of non-space characters between the two, and a
      non-space character after the `.`. Longer runs on the outside change nothing: one character each
      suffices. */
  ghost predicate MatchAt(s: string, at: nat, dot: nat) {
    1 <= at && at + 2 <= dot && dot + 1 < |s| && s[at] == '@' && s[dot] == '.'
    && !IsSpace(s[at - 1]) && !IsSpace(s[dot + 1]) && NoSpaceIn(s, at + 1, dot)
  }

  /** The pattern occurs somewhere in `s`. */
  ghost predicate HasEmailRun(s: string) {
    exists at: nat, dot: nat :: MatchAt(s, at, dot)
  }

  /** A `.` at `dot`, reached from `k` through non-space characters, and followed by a non-space one. */
  ghost predicate DotAt(s: string, k: nat, dot: nat) {
    k <= dot && dot + 1 < |s| && s[dot] == '.' && !IsSpace(s[dot + 1]) && NoSpaceIn(s, k, dot)
  }

  /** From position `k` on, a run of non-space characters reaches a `.` followed by a non-space
      character. */
  function DotAhead(s: string, k: nat): bool
    decreases |s| - k
  {
    if k >= |s| then false
    else if s[k] == '.' && k + 1 < |s| && !IsSpace(s[k + 1]) then true
    else if IsSpace(s[k]) then false
    else DotAhead(s, k + 1)
  }

  /** The scan for a `.` succeeds exactly when such a `.` exists. */
  lemma {:induction false} DotAheadIff(s: string, k: nat)
    decreases |s| - k
    ensures DotAhead(s, k) <==> exists dot: nat :: DotAt(s, k, dot)
  {
    if k >= |s| {
    } else if s[k] == '.' && k + 1 < |s| && !IsSpace(s[k + 1]) {
      assert DotAt(s, k, k);
    } else if IsSpace(s[k]) {
    } else {
      DotAheadIff(s, k + 1);
      if DotAhead(s, k + 1) {
        var dot: nat :| DotAt(s, k + 1, dot);
        assert DotAt(s, k, dot);
      } else {
        forall dot: nat | DotAt(s, k, dot) ensures false {
          assert dot != k;
          assert DotAt(s, k + 1, dot);
        }
      }
    }
  }

  /** Some `@` at position `at` or later starts a match. */
  function MatchFrom(s: string, at: nat): bool
    requires at >= 1
    decreases |s| - at
  {
    if at >= |s| then false
    else
      (s[at] == '@' && !IsSpace(s[at - 1]) && at + 1 < |s| && !IsSpace(s[at + 1]) && DotAhead(s, at + 2))
      || MatchFrom(s, at + 1)
  }

  /** The executable test, `/\S+@\S+\.\S+/.test(s)`. */
  function EmailTest(s: string): bool {
    MatchFrom(s, 1)
  }

  /** What the scan from `at` finds is a match of the pattern. */
  lemma {:induction false} MatchFromSound(s: string, at: nat) returns (a: nat, dot: nat)
    requires at >= 1 && MatchFrom(s, at)
    decreases |s| - at
    ensures at <= a && MatchAt(s, a, dot)
  {
    if s[at] == '@' && !IsSpace(s[at - 1]) && at + 1 < |s| && !IsSpace(s[at + 1]) && DotAhead(s, at + 2) {
      DotAheadIff(s, at + 2);
      dot :| DotAt(s, at + 2, dot);
      a := at;
      assert NoSpaceIn(s, at + 1, dot);
    } else {
      a, dot := MatchFromSound(s, at + 1);
    }
  }

  /** Every match with its `@` at or after `at` is found by the scan from `at`. */
  lemma {:induction false} MatchFromComplete(s: string, at: nat, a: nat, dot: nat)
    requires 1 <= at <= a && MatchAt(s, a, dot)
    decreases a - at
    ensures MatchFrom(s, at)
  {
    if a == at {
      assert DotAt(s, at + 2, dot);
      DotAheadIff(s, at + 2);
    } else {
      MatchFromComplete(s, at + 1, a, dot);
    }
  }

  /** The executable test accepts exactly the strings in which the pattern occurs. */
  lemma EmailTestMatchesPattern(s: string)
    ensures EmailTest(s) <==> HasEmailRun(s)
  {
    if EmailTest(s) {
      var a, dot := MatchFromSound(s, 1);
    }
    if HasEmailRun(s) {
      var a: nat, dot: nat :| MatchAt(s, a, dot);
      MatchFromComplete(s, 1, a, dot);
    }
  }

  /** The test is unanchored: text around an address-like run does not make it fail. */
  lemma SpacesAroundStillPass()
    ensures EmailTest("x y@z.w v")
  {
    var s := "x y@z.w v";
    assert MatchAt(s, 3, 5);
    EmailTestMatchesPattern(s);
  }

  /** A stored subscriber. */
  datatype Subscriber = Subscriber(email: string, subscribedAt: int)

  /** Whether `email` is stored already, compared exactly. */
  predicate Subscribed(subs: seq<Subscriber>, email: string) {
    exists i :: 0 <= i < |subs| && subs[i].email == email
  }

  datatype SubscribeResponse =
    | Welcome(subscriber: Subscriber)
    | Refused(message: string)
    | MethodNotAllowed

  function Status(r: SubscribeResponse): nat {
    match r
    case Welcome(_) => CreatedStatus
    case Refused(_) => BadRequestStatus
    case MethodNotAllowed => MethodNotAllowedStatus
  }

  /** The answer to a subscription request and the subscribers afterwards: 405 for a verb other than
      POST; 400 "Invalid email address" for an absent or empty address or one failing the test; 400
      "Email already subscribed" for an address stored already; otherwise 201 and exactly one new
      subscriber with that address. Nothing is written except on success. */
  function Subscribe(subs: seq<Subscriber>, verb: Verb, email: Option<string>, now: int)
    : (r: (SubscribeResponse, seq<Subscriber>))
    ensures verb != POST ==> r == (MethodNotAllowed, subs)
    ensures verb == POST && (email.None? || !HasEmailRun(email.value)) ==>
      r == (Refused("Invalid email address"), subs)
    ensures verb == POST && email.Some? && HasEmailRun(email.value) && Subscribed(subs, email.value) ==>
      r == (Refused("Email already subscribed"), subs)
    ensures verb == POST && email.Some? && HasEmailRun(email.value) && !Subscribed(subs, email.value) ==>
      r == (Welcome(Subscriber(email.value, now)), subs + [Subscriber(email.value, now)])
  {
    if verb != POST then (MethodNotAllowed, subs)
    else
      var e := if email.Some? then email.value else "";
      EmailTestMatchesPattern(e);
      if email.None? || e == "" || !EmailTest(e) then (Refused("Invalid email address"), subs)
      else if Subscribed(subs, e) then (Refused("Email already subscribed"), subs)
      else
        var s := Subscriber(e, now);
        (Welcome(s), subs + [s])
  }

  /** Subscribing the same address twice in a row: the first may succeed, the second is always refused and
      changes nothing. */
  lemma {:induction false} SecondSubscriptionRefused(subs: seq<Subscriber>, email: string, now: int, later: int)
    requires Subscribe(subs, POST, Some(email), now).0.Welcome?
    ensures var after := Subscribe(subs, POST, Some(email), now).1;
      Subscribe(after, POST, Some(email), later) == (Refused("Email already subscribed"), after)
  {
    var after := Subscribe(subs, POST, Some(email), now).1;
    assert after[|subs|].email == email;
  }

  /** Addresses that differ only in letter case are different addresses here: both are accepted. */
  lemma CaseVariantsBothAccepted(now: int)
    ensures var first := Subscribe([], POST, Some("A@b.co"), now);
      first.0.Welcome? && Subscribe(first.1, POST, Some("a@b.co"), now).0.Welcome?
  {
    var upper, lower := "A@b.co", "a@b.co";
    assert MatchAt(upper, 1, 3) && MatchAt(lower, 1, 3);
    var first := Subscribe([], POST, Some(upper), now);
    assert first.1 == [Subscriber(upper, now)];
    assert upper != lower by { assert upper[0] != lower[0]; }
  }

  /** The subscriber collection. */
  class SubscriberCollection {
    var subscribers: seq<Subscriber>

    constructor ()
      ensures subscribers == []
    {
      subscribers := [];
    }
  }

  /** The handler applied to the collection. */
  method HandleSubscribe(db: SubscriberCollection, verb: Verb, email: Option<string>, now: int)
    returns (r: SubscribeResponse)
    modifies db
    ensures (r, db.subscribers) == Subscribe(old(db.subscribers), verb, email, now)
  {
    var outcome := Subscribe(db.subscribers, verb, email, now);
    r, db.subscribers := outcome.0, outcome.1;
  }
}
