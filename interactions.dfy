/** The interaction like endpoint: a POST names an item by id and type; the record for that key gets one
    more like, and is created, with one like, if there was none. The updated record is the answer. */
module Interactions {
  import opened Wrappers
  import opened Http
  import opened Query

  /** A stored interaction record; `likes` and `views` default to 0. */
  datatype Interaction = Interaction(itemId: nat, itemType: string, likes: int, views: int)

  /** The key the update looks records up by. */
  predicate SameKey(r: Interaction, itemId: nat, itemType: string) {
    r.itemId == itemId && r.itemType == itemType
  }

  /** Position `i` holds the first record with the key, the one a lookup by key finds. */
  predicate FirstWithKey(records: seq<Interaction>, i: int, itemId: nat, itemType: string) {
    && 0 <= i < |records| && SameKey(records[i], itemId, itemType)
    && forall j :: 0 <= j < i ==> !SameKey(records[j], itemId, itemType)
  }

  datatype LikeResponse =
    | Updated(record: Interaction)
    | MethodNotAllowed(allow: seq<string>)

  function Status(r: LikeResponse): nat {
    match r
    case Updated(_) => Ok
    case MethodNotAllowed(_) => MethodNotAllowedStatus
  }

  /** The upsert with an increment of `likes`: the first record with the key gets one more like; with no
      such record, a record with one like and no views is appended. The answer is the record as it is
      afterwards. Every other record, and every field other than `likes`, stays as it was. */
  function AddLike(records: seq<Interaction>, itemId: nat, itemType: string)
    : (r: (Interaction, seq<Interaction>))
    ensures SameKey(r.0, itemId, itemType) && r.0 in r.1
    ensures (forall i :: 0 <= i < |records| ==> !SameKey(records[i], itemId, itemType)) ==>
      r.0 == Interaction(itemId, itemType, 1, 0) && r.1 == records + [r.0]
    ensures (exists i :: 0 <= i < |records| && SameKey(records[i], itemId, itemType)) ==>
      |r.1| == |records| &&
      exists i :: FirstWithKey(records, i, itemId, itemType)
        && r.0 == records[i].(likes := records[i].likes + 1) && r.1 == records[i := r.0]
  {
    match FindFirst(records, (x: Interaction) => SameKey(x, itemId, itemType))
    case None =>
      var made := Interaction(itemId, itemType, 1, 0);
      (made, records + [made])
    case Some(i) =>
      var bumped := records[i].(likes := records[i].likes + 1);
      assert records[i := bumped][i] == bumped;
      (bumped, records[i := bumped])
  }

  /** Likes only go up: every record keeps its key and views and has at least as many likes as before;
      records under other keys are unchanged; the total number of likes grows by exactly one. */
  lemma {:induction false} LikesNeverDecrease(records: seq<Interaction>, itemId: nat, itemType: string)
    ensures var after := AddLike(records, itemId, itemType).1;
      && |after| >= |records|
      && (forall i :: 0 <= i < |records| ==>
            after[i].itemId == records[i].itemId && after[i].itemType == records[i].itemType
            && after[i].views == records[i].views && after[i].likes >= records[i].likes
            && (!SameKey(records[i], itemId, itemType) ==> after[i] == records[i]))
      && TotalLikes(after) == TotalLikes(records) + 1
  {
    var after := AddLike(records, itemId, itemType).1;
    match FindFirst(records, (x: Interaction) => SameKey(x, itemId, itemType))
    case None =>
      assert after == records + [Interaction(itemId, itemType, 1, 0)];
      TotalLikesAppend(records, Interaction(itemId, itemType, 1, 0));
    case Some(i) =>
      var bumped := records[i].(likes := records[i].likes + 1);
      assert after == records[i := bumped];
      TotalLikesUpdate(records, i, bumped);
  }

  /** The sum of the like counts. */
  function TotalLikes(records: seq<Interaction>): int {
    if records == [] then 0 else records[0].likes + TotalLikes(records[1..])
  }

  lemma {:induction false} TotalLikesAppend(records: seq<Interaction>, x: Interaction)
    ensures TotalLikes(records + [x]) == TotalLikes(records) + x.likes
  {
    if records != [] {
      assert (records + [x])[1..] == records[1..] + [x];
      TotalLikesAppend(records[1..], x);
    }
  }

  lemma {:induction false} TotalLikesUpdate(records: seq<Interaction>, i: nat, x: Interaction)
    requires i < |records|
    ensures TotalLikes(records[i := x]) == TotalLikes(records) - records[i].likes + x.likes
  {
    if i > 0 {
      assert records[i := x][1..] == records[1..][i - 1 := x];
      TotalLikesUpdate(records[1..], i - 1, x);
    }
  }

  /** The interaction collection. */
  class InteractionCollection {
    var records: seq<Interaction>

    constructor ()
      ensures records == []
    {
      records := [];
    }
  }

  /** The endpoint: POST applies the upsert and answers 200 with the updated record; any other verb is
      answered 405 with the allowed verbs, POST, and nothing changes. */
  method HandleLike(db: InteractionCollection, verb: Verb, itemId: nat, itemType: string) returns (r: LikeResponse)
    modifies db
    ensures verb == POST ==>
      var (record, after) := AddLike(old(db.records), itemId, itemType);
      r == Updated(record) && db.records == after
    ensures verb != POST ==> r == MethodNotAllowed(["POST"]) && unchanged(db)
  {
    if verb == POST {
      var found := FindFirst(db.records, (x: Interaction) => SameKey(x, itemId, itemType));
      if found.Some? {
        var i := found.value;
        var bumped := db.records[i].(likes := db.records[i].likes + 1);
        db.records := db.records[i := bumped];
        r := Updated(bumped);
      } else {
        var made := Interaction(itemId, itemType, 1, 0);
        db.records := db.records + [made];
        r := Updated(made);
      }
    } else {
      r := MethodNotAllowed(["POST"]);
    }
  }
}
