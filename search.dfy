/** The search endpoint: every content document whose title, subheading or category matches the query,
    newest first, with no paging. The case-insensitive regular-expression test of one field against the
    query is a parameter, `matches`. */
module Search {
  import opened Wrappers
  import opened Http
  import opened Query
  import opened ContentModel

  datatype SearchResponse =
    | Found(data: seq<Content>)
    | MethodNotAllowed

  function Status(r: SearchResponse): nat {
    match r
    case Found(_) => Ok
    case MethodNotAllowed => MethodNotAllowedStatus
  }

  /** A present field that the test accepts. An absent field matches nothing. */
  predicate FieldHit(matches: string -> bool, v: Option<string>) {
    v.Some? && matches(v.value)
  }

  /** The three-way alternative of the query: title, subheading or category. */
  predicate Hit(matches: string -> bool, c: Content) {
    FieldHit(matches, c.title) || FieldHit(matches, c.subheading) || FieldHit(matches, c.category)
  }

  /** GET: exactly the documents that hit, each as often as stored, newest first; any other verb is
      answered 405. Nothing is written either way. */
  function SearchContents(docs: seq<Content>, verb: Verb, matches: string -> bool): (r: SearchResponse)
    ensures verb != GET <==> r == MethodNotAllowed
    ensures r.Found? ==>
      && (forall c :: multiset(r.data)[c] == if Hit(matches, c) then multiset(docs)[c] else 0)
      && NewestFirst(r.data, DateOf)
  {
    if verb != GET then MethodNotAllowed
    else Found(SortNewestFirst(Select(docs, c => Hit(matches, c)), DateOf))
  }

  /** A document whose only matching field is its category is still found, and so is every stored document
      that hits, in any of the three fields. */
  lemma {:induction false} EveryHitIsFound(docs: seq<Content>, matches: string -> bool, c: Content)
    requires c in docs && Hit(matches, c)
    ensures c in SearchContents(docs, GET, matches).data
  {
    var r := SearchContents(docs, GET, matches);
    assert multiset(r.data)[c] == multiset(docs)[c];
  }

  /** A document that hits in none of the three fields is never returned, whatever its body says. */
  lemma {:induction false} MissesAreNotFound(docs: seq<Content>, matches: string -> bool, c: Content)
    requires !Hit(matches, c)
    ensures c !in SearchContents(docs, GET, matches).data
  {
    var r := SearchContents(docs, GET, matches);
    assert multiset(r.data)[c] == 0;
  }
}
