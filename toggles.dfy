/** The membership toggle shared by the like and bookmark routes: a collection of (user, content) rows,
    in which the authenticated user's request deletes the first row for the pair if there is one and
    otherwise inserts one. */
module PairToggle {
  import opened Wrappers
  import opened Query

  /** One like or bookmark: the user who made it and the content it is about. */
  datatype Pair = Pair(user: nat, contentId: nat)

  /** At most one row per pair. */
  ghost predicate NoDup(rows: seq<Pair>) {
    forall q :: multiset(rows)[q] <= 1
  }

  /** `rows` without its element at `i`. */
  function RemoveAt(rows: seq<Pair>, i: nat): (r: seq<Pair>)
    requires i < |rows|
    ensures |r| == |rows| - 1
    ensures multiset(r) == multiset(rows) - multiset{rows[i]}
  {
    assert rows == rows[..i] + [rows[i]] + rows[i + 1..];
    rows[..i] + rows[i + 1..]
  }

  /** The request for `p`: whether a row was deleted, and the rows afterwards. A row for `p` is deleted
      exactly when one exists; the count of `p` goes down by one or up by one, and every other pair
      keeps its count. */
  function Toggle(rows: seq<Pair>, p: Pair): (r: (bool, seq<Pair>))
    ensures r.0 <==> p in rows
    ensures r.0 ==> multiset(r.1)[p] == multiset(rows)[p] - 1
    ensures !r.0 ==> r.1 == rows + [p]
    ensures forall q :: q != p ==> multiset(r.1)[q] == multiset(rows)[q]
  {
    match FindFirst(rows, (q: Pair) => q == p)
    case None => (false, rows + [p])
    case Some(i) => (true, RemoveAt(rows, i))
  }

  /** Membership of `p` flips, given at most one row per pair, and that invariant is kept. */
  lemma {:induction false} ToggleFlipsMembership(rows: seq<Pair>, p: Pair)
    requires NoDup(rows)
    ensures var (removed, after) := Toggle(rows, p);
      (p in after <==> !removed) && (p in after <==> p !in rows) && NoDup(after)
  {
    var (removed, after) := Toggle(rows, p);
    if removed {
      assert multiset(after)[p] == 0;
    } else {
      assert multiset(rows)[p] == 0;
      assert multiset(after) == multiset(rows) + multiset{p};
    }
  }

  /** A second request for the same pair undoes the first: absent pair, the rows come back exactly;
      present pair (and at most one row per pair), the same rows come back, possibly reordered. */
  lemma {:induction false} ToggleTwiceRestores(rows: seq<Pair>, p: Pair)
    ensures p !in rows ==> Toggle(Toggle(rows, p).1, p).1 == rows
    ensures NoDup(rows) ==> multiset(Toggle(Toggle(rows, p).1, p).1) == multiset(rows)
  {
    var once := Toggle(rows, p).1;
    var twice := Toggle(once, p).1;
    if p !in rows {
      var i := FindFirst(once, (q: Pair) => q == p).value;
      assert once[|rows|] == p;
      assert i == |rows|;
      assert once[..i] == rows;
    }
    if NoDup(rows) {
      ToggleFlipsMembership(rows, p);
      if p in rows {
        assert multiset(once)[p] == 0;
        assert multiset(twice) == multiset(once) + multiset{p};
      } else {
        assert twice == rows;
      }
    }
  }

  /** A like or bookmark collection. */
  class PairCollection {
    var rows: seq<Pair>

    constructor ()
      ensures rows == []
    {
      rows := [];
    }

    /** Looks the pair up, then deletes the row found or inserts a new one; answers whether it deleted. */
    method ToggleRow(p: Pair) returns (removed: bool)
      modifies this
      ensures (removed, rows) == Toggle(old(rows), p)
    {
      var found := FindFirst(rows, (q: Pair) => q == p);
      if found.Some? {
        rows := RemoveAt(rows, found.value);
        removed := true;
      } else {
        rows := rows + [p];
        removed := false;
      }
    }
  }
}

/** POST /:contentId on the like routes: unlike when the user already likes the content, like otherwise. */
module LikeRoutes {
  import opened PairToggle

  /** The message answered for a request that deleted (`true`) or inserted a like. */
  function LikeMessage(removed: bool): (msg: string)
    ensures msg == "Content unliked" <==> removed
    ensures msg == "Content liked" <==> !removed
  {
    if removed then "Content unliked" else "Content liked"
  }

  /** The route: the like row for (user, contentId) is toggled, and the message says which way. */
  method PostLike(db: PairCollection, user: nat, contentId: nat) returns (msg: string)
    modifies db
    ensures var p := Pair(user, contentId);
      (p in old(db.rows) ==> msg == "Content unliked") && (p !in old(db.rows) ==> msg == "Content liked")
    ensures db.rows == Toggle(old(db.rows), Pair(user, contentId)).1
  {
    var removed := db.ToggleRow(Pair(user, contentId));
    msg := LikeMessage(removed);
  }
}

/** POST /:contentId on the bookmark routes: remove the user's bookmark when there is one, add one
    otherwise. */
module BookmarkRoutes {
  import opened PairToggle

  /** The message answered for a request that deleted (`true`) or inserted a bookmark. */
  function BookmarkMessage(removed: bool): (msg: string)
    ensures msg == "Bookmark removed" <==> removed
    ensures msg == "Content bookmarked" <==> !removed
  {
    if removed then "Bookmark removed" else "Content bookmarked"
  }

  /** The route: the bookmark row for (user, contentId) is toggled, and the message says which way. */
  method PostBookmark(db: PairCollection, user: nat, contentId: nat) returns (msg: string)
    modifies db
    ensures var p := Pair(user, contentId);
      (p in old(db.rows) ==> msg == "Bookmark removed") && (p !in old(db.rows) ==> msg == "Content bookmarked")
    ensures db.rows == Toggle(old(db.rows), Pair(user, contentId)).1
  {
    var removed := db.ToggleRow(Pair(user, contentId));
    msg := BookmarkMessage(removed);
  }
}
