/** The Express comment routes: add a comment to a content item for the authenticated user, and list the
    comments of one content item, newest first.

    The schema of a stored comment has the fields `contentId`, `name`, `email`, `comment` and `date`. The
    add route builds its document from `text`, `contentId` and `user`; the document store keeps only the
    fields its schema declares, so as written the text and the user are dropped and the stored comment
    carries no text. `StoredAsWritten` models that; `StoredComment` is the document evidently intended,
    whose `comment` field holds the text. `PostComment` stores the former, `PostCommentCorrected` the
    latter. */
module CommentRoutes {
  import opened Wrappers
  import opened Http
  import opened Query

  /** A stored comment, field for field as its schema declares it. */
  datatype CommentDoc = CommentDoc(
    contentId: nat,
    name: Option<string>,
    email: Option<string>,
    comment: Option<string>,
    date: int)

  function DateOf(c: CommentDoc): Stamp { At(c.date) }

  /** The document stored for `new Comment({text, contentId, user})`: the fields outside the schema are
      dropped and `date` takes its default, the current time. */
  function StoredAsWritten(text: string, contentId: nat, user: nat, now: int): CommentDoc {
    CommentDoc(contentId, None, None, None, now)
  }

  /** As written, the stored comment does not depend on the text or the user at all: two different
      comments by two different users on the same item at the same time are stored identically, and
      neither carries its text. */
  lemma {:induction false} AsWrittenLosesText(t1: string, t2: string, contentId: nat, u1: nat, u2: nat, now: int)
    ensures StoredAsWritten(t1, contentId, u1, now) == StoredAsWritten(t2, contentId, u2, now)
    ensures StoredAsWritten(t1, contentId, u1, now).comment.None?
  {
  }

  /** The evidently intended document: the text in the schema's `comment` field, the item from the
      address, the current time as date. The schema has no field for the user id. */
  function StoredComment(text: string, contentId: nat, now: int): (c: CommentDoc)
    ensures c.comment == Some(text) && c.contentId == contentId && c.date == now
  {
    CommentDoc(contentId, None, None, Some(text), now)
  }

  /** The intended document keeps the text, so different texts give different documents. */
  lemma {:induction false} StoredCommentKeepsText(t1: string, t2: string, contentId: nat, now: int)
    requires t1 != t2
    ensures StoredComment(t1, contentId, now) != StoredComment(t2, contentId, now)
    ensures StoredComment(t1, contentId, now).comment.value == t1
  {
    assert StoredComment(t1, contentId, now).comment == Some(t1);
    assert StoredComment(t2, contentId, now).comment == Some(t2);
  }

  datatype CommentResponse =
    | Saved(doc: CommentDoc)
    | Listed(list: seq<CommentDoc>)
    | Invalid(errors: seq<string>)

  function Status(r: CommentResponse): nat {
    match r
    case Saved(_) => Ok
    case Listed(_) => Ok
    case Invalid(_) => BadRequestStatus
  }

  /** The comment collection. */
  class CommentCollection {
    var docs: seq<CommentDoc>

    constructor ()
      ensures docs == []
    {
      docs := [];
    }
  }

  /** POST /:contentId, as written: an absent or empty text is answered 400 "Text is required" and nothing
      is stored; otherwise exactly one document is appended and returned, the one the store keeps for the
      route's fields, which has the item and the date but no text. Only the comment collection is in the
      frame, so no counter of the commented item changes. */
  method PostComment(db: CommentCollection, contentId: nat, user: nat, text: Option<string>, now: int)
    returns (r: CommentResponse)
    modifies db
    ensures (text.None? || text.value == "") ==> r == Invalid(["Text is required"]) && unchanged(db)
    ensures text.Some? && text.value != "" ==>
      r == Saved(StoredAsWritten(text.value, contentId, user, now)) && db.docs == old(db.docs) + [r.doc]
      && r.doc.contentId == contentId && r.doc.comment.None?
  {
    if text.None? || text.value == "" {
      return Invalid(["Text is required"]);
    }
    var c := StoredAsWritten(text.value, contentId, user, now);
    db.docs := db.docs + [c];
    r := Saved(c);
  }

  /** The same route storing the evidently intended document: the appended and returned comment holds
      the text. */
  method PostCommentCorrected(db: CommentCollection, contentId: nat, text: Option<string>, now: int)
    returns (r: CommentResponse)
    modifies db
    ensures (text.None? || text.value == "") ==> r == Invalid(["Text is required"]) && unchanged(db)
    ensures text.Some? && text.value != "" ==>
      r == Saved(StoredComment(text.value, contentId, now)) && db.docs == old(db.docs) + [r.doc]
      && r.doc.comment == Some(text.value) && r.doc.contentId == contentId
  {
    if text.None? || text.value == "" {
      return Invalid(["Text is required"]);
    }
    var c := StoredComment(text.value, contentId, now);
    db.docs := db.docs + [c];
    r := Saved(c);
  }

  /** GET /:contentId: exactly the comments on that item, each as often as stored, newest first. */
  function CommentsFor(docs: seq<CommentDoc>, contentId: nat): (r: seq<CommentDoc>)
    ensures forall c :: c in r <==> c in docs && c.contentId == contentId
    ensures forall c :: multiset(r)[c] == if c.contentId == contentId then multiset(docs)[c] else 0
    ensures NewestFirst(r, DateOf)
  {
    var selected := Select(docs, (c: CommentDoc) => c.contentId == contentId);
    var r := SortNewestFirst(selected, DateOf);
    assert forall c :: c in r <==> c in multiset(selected);
    r
  }
}
