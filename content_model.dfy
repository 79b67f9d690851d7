/** The Content document of the back end: its schema (type enumeration, counter defaults, author
    reference) and the collection of stored documents that the content handlers read and write. */
module ContentModel {
  import opened Wrappers
  import opened Query

  /** The four values the schema's `type` enumeration admits. */
  datatype ContentType = Article | Video | Project | Repository

  /** The stored spelling of a content type. */
  function TypeName(t: ContentType): string {
    match t
    case Article => "Article"
    case Video => "Video"
    case Project => "Project"
    case Repository => "Repository"
  }

  /** The enumeration check applied when a document is validated: `s` names a type exactly, or the
      document is rejected. Spellings in another letter case are rejected. */
  function ParseType(s: string): (r: Option<ContentType>)
    ensures r.Some? ==> TypeName(r.value) == s
    ensures r.None? <==> forall t: ContentType :: TypeName(t) != s
  {
    if s == "Article" then Some(Article)
    else if s == "Video" then Some(Video)
    else if s == "Project" then Some(Project)
    else if s == "Repository" then Some(Repository)
    else None
  }

  /** Parsing a stored type name gives back that type. */
  lemma {:induction false} ParseTypeName(t: ContentType)
    ensures ParseType(TypeName(t)) == Some(t)
  {
    match t
    case Article =>
    case Video =>
    case Project =>
    case Repository =>
  }

  /** A stored Content document. Every text field is optional; the counters are numbers; `author` refers
      to an Author document by id. `body` is the schema's `content` field. */
  datatype Content = Content(
    id: nat,
    title: Option<string>,
    subheading: Option<string>,
    body: Option<string>,
    videoUrl: Option<string>,
    date: Option<int>,
    readTime: Option<string>,
    duration: Option<string>,
    image: Option<string>,
    category: Option<string>,
    kind: Option<ContentType>,
    views: int,
    likes: int,
    bookmarks: int,
    commentsCount: int,
    author: Option<nat>)

  /** The date the newest-first sort sees. */
  function DateOf(c: Content): Stamp {
    if c.date.Some? then At(c.date.value) else Missing
  }

  /** The fields a client may send to create a document; any may be absent. */
  datatype ContentFields = ContentFields(
    title: Option<string>,
    subheading: Option<string>,
    body: Option<string>,
    videoUrl: Option<string>,
    date: Option<int>,
    readTime: Option<string>,
    duration: Option<string>,
    image: Option<string>,
    category: Option<string>,
    kind: Option<string>,
    views: Option<int>,
    likes: Option<int>,
    bookmarks: Option<int>,
    commentsCount: Option<int>,
    author: Option<nat>)

  /** A counter as the schema stores it: the given number, or the default 0 when none is given. */
  function OrZero(n: Option<int>): int {
    if n.Some? then n.value else 0
  }

  /** Building a document from `f` under the schema: validation fails exactly when a type is given that is
      not one of the four; otherwise every given field is kept, and each counter the fields do not set is 0. */
  function FromFields(id: nat, f: ContentFields): (r: Option<Content>)
    ensures r.None? <==> f.kind.Some? && ParseType(f.kind.value).None?
    ensures r.Some? ==>
      && r.value.id == id && r.value.title == f.title && r.value.author == f.author
      && r.value.date == f.date && r.value.category == f.category
      && r.value.subheading == f.subheading && r.value.body == f.body && r.value.videoUrl == f.videoUrl
      && r.value.readTime == f.readTime && r.value.duration == f.duration && r.value.image == f.image
      && r.value.views == OrZero(f.views) && r.value.likes == OrZero(f.likes)
      && r.value.bookmarks == OrZero(f.bookmarks) && r.value.commentsCount == OrZero(f.commentsCount)
      && (r.value.kind.Some? <==> f.kind.Some?)
      && (r.value.kind.Some? ==> TypeName(r.value.kind.value) == f.kind.value)
  {
    var kind := if f.kind.Some? then ParseType(f.kind.value) else None;
    if f.kind.Some? && kind.None? then None
    else
      Some(Content(id, f.title, f.subheading, f.body, f.videoUrl, f.date, f.readTime, f.duration,
                   f.image, f.category, kind, OrZero(f.views), OrZero(f.likes), OrZero(f.bookmarks),
                   OrZero(f.commentsCount), f.author))
  }

  /** A document whose creation fields set no counter starts with all four counters at 0. */
  lemma CreatedCountersStartAtZero(id: nat, f: ContentFields)
    requires f.views.None? && f.likes.None? && f.bookmarks.None? && f.commentsCount.None?
    requires FromFields(id, f).Some?
    ensures var c := FromFields(id, f).value;
      c.views == 0 && c.likes == 0 && c.bookmarks == 0 && c.commentsCount == 0
  {
  }

  /** The Content collection: its documents in insertion order, and the id the next document receives. */
  class ContentCollection {
    var docs: seq<Content>
    var nextId: nat

    /** Every stored id was handed out before, so a new document's id is not already taken. */
    ghost predicate Valid()
      reads this
    {
      forall i :: 0 <= i < |docs| ==> docs[i].id < nextId
    }

    constructor ()
      ensures Valid() && docs == [] && nextId == 0
    {
      docs := [];
      nextId := 0;
    }

    /** Stores `c`, which carries the next id. */
    method Insert(c: Content)
      requires Valid() && c.id == nextId
      modifies this
      ensures Valid()
      ensures docs == old(docs) + [c] && nextId == old(nextId) + 1
    {
      docs := docs + [c];
      nextId := nextId + 1;
    }
  }
}
