/** What the document store does for the handlers' queries, stated over sequences of documents:
    a filter (`find(filter)`), the first match (`findOne`), the order `sort({date: -1})`, the window
    `skip(n).limit(m)`, and the page count the listing reports. */
module Query {
  import opened Wrappers

  /** A document's date as the sort sees it: absent, or a point in time. */
  datatype Stamp = Missing | At(time: int)

  /** `a` may stand before `b` in a newest-first order. An absent date ranks below every date, as a BSON
      null does, so undated documents come last. */
  predicate NewerOrSame(a: Stamp, b: Stamp) {
    match (a, b)
    case (_, Missing) => true
    case (Missing, At(_)) => false
    case (At(x), At(y)) => x >= y
  }

  /** `s` is ordered newest first. */
  ghost predicate NewestFirst<T>(s: seq<T>, date: T -> Stamp) {
    forall i, j :: 0 <= i < j < |s| ==> NewerOrSame(date(s[i]), date(s[j]))
  }

  /** The documents of `s` that satisfy `p`, in their original order, each as often as it occurs in `s`. */
  function Select<T(!new)>(s: seq<T>, p: T -> bool): (r: seq<T>)
    ensures |r| <= |s|
    ensures forall x :: x in r <==> x in s && p(x)
    ensures forall x :: multiset(r)[x] == if p(x) then multiset(s)[x] else 0
  {
    if s == [] then []
    else
      var rest := Select(s[1..], p);
      assert s == [s[0]] + s[1..];
      assert multiset(s) == multiset{s[0]} + multiset(s[1..]);
      if p(s[0]) then [s[0]] + rest else rest
  }

  /** Selecting from a sequence that starts with `x`: `x` first if it satisfies the filter, then the
      selection from the rest. */
  lemma {:induction false} SelectCons<T(!new)>(x: T, s: seq<T>, p: T -> bool)
    ensures Select([x] + s, p) == (if p(x) then [x] else []) + Select(s, p)
  {
    assert ([x] + s)[0] == x && ([x] + s)[1..] == s;
  }

  /** The filter keeps the documents' order: selecting from two pieces is selecting from the first and
      then from the second. */
  lemma {:induction false} SelectAppend<T(!new)>(a: seq<T>, b: seq<T>, p: T -> bool)
    ensures Select(a + b, p) == Select(a, p) + Select(b, p)
  {
    if a == [] {
      assert a + b == b;
    } else {
      var head := if p(a[0]) then [a[0]] else [];
      SplitHead(a, b);
      calc {
        Select(a + b, p);
      == { SplitHead(a, b); SelectCons(a[0], a[1..] + b, p); }
        head + Select(a[1..] + b, p);
      == { SelectAppend(a[1..], b, p); }
        head + (Select(a[1..], p) + Select(b, p));
      == { ConcatAssoc(head, Select(a[1..], p), Select(b, p)); }
        (head + Select(a[1..], p)) + Select(b, p);
      == { SelectCons(a[0], a[1..], p); }
        Select(a, p) + Select(b, p);
      }
    }
  }

  lemma SplitHead<T>(a: seq<T>, b: seq<T>)
    requires a != []
    ensures a + b == [a[0]] + (a[1..] + b) && a == [a[0]] + a[1..]
  {
  }

  lemma ConcatAssoc<T>(x: seq<T>, y: seq<T>, z: seq<T>)
    ensures x + (y + z) == (x + y) + z
  {
  }

  /** A single document is kept exactly when it satisfies the filter. Together with `SelectAppend` this
      fixes the result: the satisfying documents, in their original order. */
  lemma {:induction false} SelectOne<T(!new)>(x: T, p: T -> bool)
    ensures Select([x], p) == if p(x) then [x] else []
  {
    assert [x][1..] == [];
  }

  /** The position of the first document of `s` that satisfies `p`, as `findOne` returns it. */
  function FindFirst<T>(s: seq<T>, p: T -> bool): (r: Option<nat>)
    ensures r.None? <==> forall i :: 0 <= i < |s| ==> !p(s[i])
    ensures r.Some? ==> r.value < |s| && p(s[r.value]) && forall i :: 0 <= i < r.value ==> !p(s[i])
  {
    if s == [] then None
    else if p(s[0]) then Some(0)
    else
      match FindFirst(s[1..], p)
      case None => None
      case Some(k) => Some(k + 1)
  }

  /** `x` placed into the newest-first sequence `s` ahead of every document that is not newer. */
  function InsertByDate<T>(x: T, s: seq<T>, date: T -> Stamp): (r: seq<T>)
    requires NewestFirst(s, date)
    ensures NewestFirst(r, date)
    ensures |r| == |s| + 1
    ensures multiset(r) == multiset(s) + multiset{x}
  {
    if s == [] || NewerOrSame(date(x), date(s[0])) then [x] + s
    else
      var rest := InsertByDate(x, s[1..], date);
      assert s == [s[0]] + s[1..];
      forall j | 0 <= j < |rest| ensures NewerOrSame(date(s[0]), date(rest[j])) {
        assert rest[j] in multiset(rest);
        if rest[j] != x {
          assert rest[j] in multiset(s[1..]);
          var k :| 0 <= k < |s[1..]| && s[1..][k] == rest[j];
          assert s[k + 1] == rest[j];
        }
      }
      [s[0]] + rest
  }

  /** `sort({date: -1})`: a newest-first arrangement of exactly the documents of `s`. Documents with equal
      dates keep their original order. */
  function SortNewestFirst<T>(s: seq<T>, date: T -> Stamp): (r: seq<T>)
    ensures |r| == |s|
    ensures multiset(r) == multiset(s)
    ensures NewestFirst(r, date)
  {
    if s == [] then []
    else
      assert s == [s[0]] + s[1..];
      InsertByDate(s[0], SortNewestFirst(s[1..], date), date)
  }

  /** `skip(n)`: `s` without its first `n` documents. */
  function Skip<T>(s: seq<T>, n: nat): (r: seq<T>)
    ensures |r| == if n <= |s| then |s| - n else 0
    ensures forall i :: 0 <= i < |r| ==> r[i] == s[n + i]
  {
    if n <= |s| then s[n..] else []
  }

  /** `limit(m)` for a positive `m`: the first `m` documents of `s`, or all of them if there are fewer. */
  function Take<T>(s: seq<T>, m: nat): (r: seq<T>)
    ensures |r| == if m <= |s| then m else |s|
    ensures forall i :: 0 <= i < |r| ==> r[i] == s[i]
  {
    if m <= |s| then s[..m] else s
  }

  /** `skip(n).limit(m)` for a positive `m`: the documents of `s` from position `n` on, at most `m` of
      them. */
  function Window<T>(s: seq<T>, n: nat, m: nat): (r: seq<T>)
    ensures |r| == Min(m, Max(0, |s| - n))
    ensures forall i :: 0 <= i < |r| ==> r[i] == s[n + i]
  {
    Take(Skip(s, n), m)
  }

  /** Page `page` (counted from 1) of `limit` documents each: `skip((page - 1) * limit).limit(limit)`. */
  function Page<T>(s: seq<T>, page: nat, limit: nat): (r: seq<T>)
    requires page >= 1 && limit >= 1
    ensures |r| == Min(limit, Max(0, |s| - (page - 1) * limit))
    ensures forall i :: 0 <= i < |r| ==> r[i] == s[(page - 1) * limit + i]
  {
    Window(s, (page - 1) * limit, limit)
  }

  /** A window of a newest-first list is itself newest first and holds only documents of the list. */
  lemma WindowOfOrdered<T>(s: seq<T>, n: nat, m: nat, date: T -> Stamp)
    requires NewestFirst(s, date)
    ensures NewestFirst(Window(s, n, m), date)
    ensures forall x :: x in Window(s, n, m) ==> x in s
  {
    var r := Window(s, n, m);
    forall i, j | 0 <= i < j < |r| ensures NewerOrSame(date(r[i]), date(r[j])) {
      assert r[i] == s[n + i] && r[j] == s[n + j];
    }
    forall x | x in r ensures x in s {
      var i :| 0 <= i < |r| && r[i] == x;
      assert x == s[n + i];
    }
  }

  /** A page of a newest-first list is itself newest first and holds only documents of the list. */
  lemma PageOfOrdered<T>(s: seq<T>, page: nat, limit: nat, date: T -> Stamp)
    requires page >= 1 && limit >= 1 && NewestFirst(s, date)
    ensures NewestFirst(Page(s, page, limit), date)
    ensures forall x :: x in Page(s, page, limit) ==> x in s
  {
    WindowOfOrdered(s, (page - 1) * limit, limit, date);
  }

  function Min(a: int, b: int): int { if a <= b then a else b }

  function Max(a: int, b: int): int { if a >= b then a else b }

  /** `pages` pages of `limit` documents hold `total` documents, and one page fewer would not. */
  predicate LeastCover(pages: nat, limit: nat, total: nat) {
    pages * limit >= total && (pages >= 1 ==> (pages - 1) * limit < total)
  }

  /** `Math.ceil(total / limit)`: the least number of pages of `limit` documents that hold `total`. */
  function PageCount(total: nat, limit: nat): (pages: nat)
    requires limit >= 1
    ensures LeastCover(pages, limit, total)
  {
    var q := (total + limit - 1) / limit;
    var rem := (total + limit - 1) % limit;
    assert total + limit - 1 == q * limit + rem && 0 <= rem < limit;
    assert q >= 1 ==> (q - 1) * limit == q * limit - limit;
    q
  }

  /** A page holds documents exactly when its number is between 1 and the page count. */
  lemma PageNonEmptyIff<T>(s: seq<T>, page: nat, limit: nat)
    requires page >= 1 && limit >= 1
    ensures |Page(s, page, limit)| > 0 <==> page <= PageCount(|s|, limit)
  {
    var pages := PageCount(|s|, limit);
    if page <= pages {
      assert (page - 1) * limit <= (pages - 1) * limit by {
        MulMonotone(page - 1, pages - 1, limit);
      }
    } else {
      assert pages * limit <= (page - 1) * limit by {
        MulMonotone(pages, page - 1, limit);
      }
    }
  }

  /** Every document of the list is shown on some page between 1 and the page count. */
  lemma {:induction false} OnSomePage<T>(s: seq<T>, k: nat, limit: nat) returns (page: nat)
    requires k < |s| && limit >= 1
    ensures 1 <= page <= PageCount(|s|, limit) && s[k] in Page(s, page, limit)
  {
    page := k / limit + 1;
    PageHolds(s, k, limit);
    PageWithinCount(|s|, k, limit);
  }

  /** The page of position `k` is at most the page count of a list longer than `k`. */
  lemma {:induction false} PageWithinCount(total: nat, k: nat, limit: nat)
    requires k < total && limit >= 1
    ensures k / limit + 1 <= PageCount(total, limit)
  {
    var q, r := k / limit, k % limit;
    assert q * limit <= k by {
      assert k == q * limit + r;
    }
    var pages := PageCount(total, limit);
    if pages <= q {
      MulMonotone(pages, q, limit);
      assert false;
    }
  }

  lemma MulMonotone(a: nat, b: nat, c: nat)
    requires a <= b
    ensures a * c <= b * c
  {
  }

  /** The document at position `k` of the ordered list is shown on page `k / limit + 1`, at position
      `k % limit`: consecutive pages cover the list without gap or overlap. */
  lemma PageHolds<T>(s: seq<T>, k: nat, limit: nat)
    requires k < |s| && limit >= 1
    ensures var page := k / limit + 1;
      k % limit < |Page(s, page, limit)| && Page(s, page, limit)[k % limit] == s[k]
  {
    var q, r := k / limit, k % limit;
    var page := q + 1;
    var skip := (page - 1) * limit;
    assert skip == q * limit;
    assert k == skip + r;
    var w := Page(s, page, limit);
    assert w == Window(s, skip, limit);
    assert r < |w|;
    assert w[r] == s[skip + r];
  }
}
