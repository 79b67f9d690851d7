/** The Express content routes: list everything newest first, create a document for the authenticated
    user after checking that title and type are given, and fetch one document by id, counting the read. */
module ContentRoutes {
  import opened Wrappers
  import opened Http
  import opened Query
  import opened ContentModel

  /** The body fields the create route reads; anything else in the body, an author or a counter included,
      is ignored. */
  datatype CreateBody = CreateBody(
    title: Option<string>,
    subheading: Option<string>,
    body: Option<string>,
    videoUrl: Option<string>,
    image: Option<string>,
    category: Option<string>,
    kind: Option<string>)

  datatype RouteResponse =
    | AllContent(list: seq<Content>)
    | One(doc: Content)
    | Invalid(errors: seq<string>)
    | NotFound(msg: string)
    | ServerError

  function Status(r: RouteResponse): nat {
    match r
    case AllContent(_) => Ok
    case One(_) => Ok
    case Invalid(_) => BadRequestStatus
    case NotFound(_) => NotFoundStatus
    case ServerError => ServerErrorStatus
  }

  /** A value fails the "not empty" check when it is absent or the empty string. */
  predicate Blank(v: Option<string>) {
    v.None? || v.value == ""
  }

  /** The messages of the failed checks, in the order the checks are declared. */
  function ValidationErrors(b: CreateBody): (errs: seq<string>)
    ensures errs == [] <==> !Blank(b.title) && !Blank(b.kind)
    ensures "Title is required" in errs <==> Blank(b.title)
    ensures "Type is required" in errs <==> Blank(b.kind)
  {
    (if Blank(b.title) then ["Title is required"] else [])
    + (if Blank(b.kind) then ["Type is required"] else [])
  }

  /** GET /: every document, newest first. */
  function ListAll(docs: seq<Content>): (r: seq<Content>)
    ensures multiset(r) == multiset(docs)
    ensures NewestFirst(r, DateOf)
  {
    SortNewestFirst(docs, DateOf)
  }

  /** The document the create route saves: the body's fields, no date, the caller as author, counters at
      their defaults. The schema rejects it exactly when the type is not one of the four. */
  function Authored(id: nat, b: CreateBody, user: nat): (r: Option<Content>)
    ensures r.None? <==> b.kind.Some? && ParseType(b.kind.value).None?
    ensures r.Some? ==>
      && r.value.id == id && r.value.author == Some(user) && r.value.title == b.title
      && r.value.subheading == b.subheading && r.value.body == b.body && r.value.videoUrl == b.videoUrl
      && r.value.image == b.image && r.value.category == b.category
      && (r.value.kind.Some? <==> b.kind.Some?)
      && (r.value.kind.Some? ==> TypeName(r.value.kind.value) == b.kind.value)
      && r.value.date.None?
      && r.value.views == 0 && r.value.likes == 0 && r.value.bookmarks == 0 && r.value.commentsCount == 0
  {
    FromFields(id, ContentFields(b.title, b.subheading, b.body, b.videoUrl, None, None, None, b.image,
                                 b.category, b.kind, None, None, None, None, Some(user)))
  }

  /** POST /: a body with a blank title or type is answered 400 with the failed checks and nothing is
      written; a type outside the enumeration passes these checks but fails when saved (500, nothing
      written); otherwise exactly one document, authored by the caller, is stored and returned. */
  method PostContent(db: ContentCollection, user: nat, b: CreateBody) returns (r: RouteResponse)
    requires db.Valid()
    modifies db
    ensures db.Valid()
    ensures ValidationErrors(b) != [] ==> r == Invalid(ValidationErrors(b)) && unchanged(db)
    ensures ValidationErrors(b) == [] && Authored(old(db.nextId), b, user).None? ==>
      r == ServerError && unchanged(db)
    ensures ValidationErrors(b) == [] && Authored(old(db.nextId), b, user).Some? ==>
      r == One(Authored(old(db.nextId), b, user).value) && db.docs == old(db.docs) + [r.doc]
  {
    var errs := ValidationErrors(b);
    if errs != [] {
      return Invalid(errs);
    }
    var made := Authored(db.nextId, b, user);
    if made.None? {
      return ServerError;
    }
    db.Insert(made.value);
    r := One(made.value);
  }

  /** A lower-case type passes the route's own checks yet is refused by the schema. */
  lemma LowerCaseTypeIsServerError(id: nat, user: nat, b: CreateBody)
    requires b.title == Some("Hello") && b.kind == Some("article")
    ensures ValidationErrors(b) == [] && Authored(id, b, user).None?
  {
  }

  /** The document as it stands after one more read. */
  function Viewed(c: Content): Content {
    c.(views := c.views + 1)
  }

  /** GET /:id over the stored documents: an id that cannot name a document (`None`) or names none is
      answered 404 "Content not found" and nothing changes; otherwise that document's view count goes up
      by one, and the answer is the document with the new count. */
  function ViewById(docs: seq<Content>, id: Option<nat>): (r: (RouteResponse, seq<Content>))
    ensures |r.1| == |docs|
    ensures (id.None? || forall i :: 0 <= i < |docs| ==> docs[i].id != id.value) ==>
      r == (NotFound("Content not found"), docs)
    ensures r.0.One? ==> id.Some? && r.0.doc.id == id.value
    ensures id.Some? && (exists i :: 0 <= i < |docs| && docs[i].id == id.value) ==> r.0.One?
    ensures r.0.One? || r.0 == NotFound("Content not found")
    ensures forall i :: 0 <= i < |docs| ==>
      r.1[i] == docs[i] || (r.0.One? && r.1[i] == r.0.doc == docs[i].(views := docs[i].views + 1))
  {
    if id.None? then (NotFound("Content not found"), docs)
    else
      match FindFirst(docs, (c: Content) => c.id == id.value)
      case None => (NotFound("Content not found"), docs)
      case Some(i) =>
        var after := docs[i := Viewed(docs[i])];
        (One(after[i]), after)
  }

  /** A successful read changes exactly one document, and only its view count, which rises by one; the
      answer is that document as now stored. */
  lemma ViewChangesOnlyThatCount(docs: seq<Content>, id: nat)
    requires exists i :: 0 <= i < |docs| && docs[i].id == id
    ensures var (resp, after) := ViewById(docs, Some(id));
      resp.One? &&
      exists i :: 0 <= i < |docs| && docs[i].id == id
        && after == docs[i := docs[i].(views := docs[i].views + 1)]
        && resp.doc == after[i] && after[i].views == docs[i].views + 1
  {
    var p := (c: Content) => c.id == id;
    var i := FindFirst(docs, p).value;
    assert docs[i].id == id;
  }

  /** GET /:id applied to the collection. */
  method GetById(db: ContentCollection, id: Option<nat>) returns (r: RouteResponse)
    requires db.Valid()
    modifies db
    ensures db.Valid() && db.nextId == old(db.nextId)
    ensures (r, db.docs) == ViewById(old(db.docs), id)
  {
    var outcome := ViewById(db.docs, id);
    r, db.docs := outcome.0, outcome.1;
  }
}
