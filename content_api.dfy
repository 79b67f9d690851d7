/** The file-routed content endpoint: GET lists one page of content, newest first, optionally of one type,
    with the total and the page count; POST creates a document from the request body; every other verb
    is refused. */
module ContentApi {
  import opened Wrappers
  import opened Http
  import opened Query
  import opened ContentModel

  /** The query string of a listing request; absent parameters take their defaults. */
  datatype ListQuery = ListQuery(page: Option<int>, limit: Option<int>, kind: Option<string>)

  function PageParam(q: ListQuery): int { if q.page.Some? then q.page.value else 1 }

  function LimitParam(q: ListQuery): int { if q.limit.Some? then q.limit.value else 10 }

  function TypeParam(q: ListQuery): string { if q.kind.Some? then q.kind.value else "all" }

  datatype Pagination = Pagination(total: nat, page: int, pages: nat)

  datatype IndexResponse =
    | Listed(data: seq<Content>, pagination: Pagination)
    | Created(doc: Content)
    | Rejected
    | MethodNotAllowed

  function Status(r: IndexResponse): nat {
    match r
    case Listed(_, _) => Ok
    case Created(_) => CreatedStatus
    case Rejected => BadRequestStatus
    case MethodNotAllowed => MethodNotAllowedStatus
  }

  /** The type filter: "all" selects every document; any other value selects the documents whose stored
      type is spelled exactly that way. */
  predicate TypeMatches(kind: string, c: Content) {
    kind == "all" || (c.kind.Some? && TypeName(c.kind.value) == kind)
  }

  function Matching(docs: seq<Content>, kind: string): seq<Content> {
    Select(docs, c => TypeMatches(kind, c))
  }

  /** GET: the requested page of the matching documents in newest-first order, how many documents match,
      the page number echoed, and how many pages there are. A page number below 1 asks the store for a
      negative skip, which it rejects. */
  function ListContents(docs: seq<Content>, q: ListQuery): (r: IndexResponse)
    requires LimitParam(q) >= 1
    ensures PageParam(q) < 1 ==> r == Rejected
    ensures PageParam(q) >= 1 ==> r.Listed?
    ensures r.Listed? ==>
      var page, limit, total := PageParam(q), LimitParam(q), |Matching(docs, TypeParam(q))|;
      && r.pagination.total == total
      && r.pagination.page == page
      && LeastCover(r.pagination.pages, limit, total)
      && |r.data| == Min(limit, Max(0, total - (page - 1) * limit))
      && NewestFirst(r.data, DateOf)
      && (forall c :: c in r.data ==> c in docs && TypeMatches(TypeParam(q), c))
    ensures r.Listed? ==>
      exists s :: multiset(s) == multiset(Matching(docs, TypeParam(q))) && NewestFirst(s, DateOf)
        && r.data == Page(s, PageParam(q), LimitParam(q))
  {
    var page, limit := PageParam(q), LimitParam(q);
    if page < 1 then Rejected
    else
      var kind := TypeParam(q);
      var matching := Matching(docs, kind);
      var sorted := SortNewestFirst(matching, DateOf);
      var data := Page(sorted, page, limit);
      ListedFromMatching(docs, kind, sorted, data, page, limit);
      var pages := PageCount(|matching|, limit);
      assert multiset(sorted) == multiset(matching) && NewestFirst(sorted, DateOf) && data == Page(sorted, page, limit);
      Listed(data, Pagination(|matching|, page, pages))
  }

  /** A page of the sorted matching documents holds only matching documents, newest first. */
  lemma ListedFromMatching(docs: seq<Content>, kind: string, sorted: seq<Content>, data: seq<Content>,
                           page: nat, limit: nat)
    requires page >= 1 && limit >= 1
    requires sorted == SortNewestFirst(Matching(docs, kind), DateOf) && data == Page(sorted, page, limit)
    ensures NewestFirst(data, DateOf)
    ensures forall c :: c in data ==> c in docs && TypeMatches(kind, c)
  {
    PageOfOrdered(sorted, page, limit, DateOf);
    forall c | c in data ensures c in docs && TypeMatches(kind, c) {
      assert c in multiset(sorted);
      assert c in Matching(docs, kind);
    }
  }

  /** The lower-case type "article" matches no stored spelling, so it lists nothing. */
  lemma {:induction false} LowerCaseTypeListsNothing(docs: seq<Content>, page: int, limit: int)
    requires page >= 1 && limit >= 1
    ensures var r := ListContents(docs, ListQuery(Some(page), Some(limit), Some("article")));
      r.Listed? && r.data == [] && r.pagination.total == 0 && r.pagination.pages == 0
  {
    assert ParseType("article").None?;
    MatchingNone(docs, "article");
  }

  /** A type that no document matches selects nothing. */
  lemma {:induction false} MatchingNone(docs: seq<Content>, kind: string)
    requires forall c :: c in docs ==> !TypeMatches(kind, c)
    ensures Matching(docs, kind) == []
  {
    if docs != [] {
      assert docs[0] in docs;
      assert forall c :: c in docs[1..] ==> c in docs;
      MatchingNone(docs[1..], kind);
    }
  }

  /** Fifteen matching documents in pages of ten: the second page holds the last five. */
  lemma SecondPageOfFifteen(docs: seq<Content>, kind: string)
    requires |Matching(docs, kind)| == 15
    ensures var r := ListContents(docs, ListQuery(Some(2), Some(10), Some(kind)));
      |r.data| == 5 && r.pagination.pages == 2 && r.pagination.total == 15
  {
  }

  /** Every matching document is listed on some page between 1 and the page count, whatever the limit. */
  lemma EveryMatchIsListed(docs: seq<Content>, kind: string, limit: int, c: Content) returns (page: int)
    requires limit >= 1 && c in docs && TypeMatches(kind, c)
    ensures var r := ListContents(docs, ListQuery(Some(page), Some(limit), Some(kind)));
      1 <= page <= r.pagination.pages && c in r.data
  {
    var matching := Matching(docs, kind);
    var sorted := SortNewestFirst(matching, DateOf);
    assert multiset(matching)[c] == multiset(docs)[c];
    assert c in multiset(sorted);
    var k :| 0 <= k < |sorted| && sorted[k] == c;
    page := OnSomePage(sorted, k, limit);
    var r := ListContents(docs, ListQuery(Some(page), Some(limit), Some(kind)));
    assert r == Listed(Page(sorted, page, limit), Pagination(|matching|, page, PageCount(|matching|, limit)));
  }

  /** The endpoint: GET lists and changes nothing; POST validates the body against the schema and stores
      exactly one new document (201), or stores nothing (400); any other verb answers 405 and changes
      nothing. */
  method HandleContent(db: ContentCollection, verb: Verb, q: ListQuery, body: ContentFields)
    returns (r: IndexResponse)
    requires db.Valid() && (verb == GET ==> LimitParam(q) >= 1)
    modifies db
    ensures db.Valid()
    ensures verb == GET ==> r == ListContents(old(db.docs), q) && unchanged(db)
    ensures verb == POST && FromFields(old(db.nextId), body).Some? ==>
      r == Created(FromFields(old(db.nextId), body).value) && db.docs == old(db.docs) + [r.doc]
    ensures verb == POST && FromFields(old(db.nextId), body).None? ==> r == Rejected && unchanged(db)
    ensures verb != GET && verb != POST ==> r == MethodNotAllowed && unchanged(db)
  {
    match verb {
      case GET =>
        r := ListContents(db.docs, q);
      case POST =>
        var made := FromFields(db.nextId, body);
        if made.Some? {
          db.Insert(made.value);
          r := Created(made.value);
        } else {
          r := Rejected;
        }
      case _ =>
        r := MethodNotAllowed;
    }
  }
}
