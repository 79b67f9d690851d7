/** Cyclic positions over a list of `n` slides: the step forward that every carousel uses, and the two
    ways the pages step back (an explicit wrap at 0, and a step computed modulo `n`). */
module Carousel {

  /** One step forward, wrapping from the last slide to the first. */
  function Next(i: nat, n: nat): (j: nat)
    requires n >= 1
    ensures j < n
    ensures i + 1 < n ==> j == i + 1
    ensures i + 1 == n ==> j == 0
  {
    (i + 1) % n
  }

  /** One step back, written as a wrap: the first slide goes to the last one. */
  function PrevWrap(i: nat, n: nat): (j: nat)
    requires n >= 1
    ensures i < n ==> j < n
    ensures i == 0 ==> j == n - 1
    ensures i > 0 ==> j == i - 1
  {
    if i == 0 then n - 1 else i - 1
  }

  /** One step back, written modulo `n`. */
  function PrevMod(i: nat, n: nat): (j: nat)
    requires n >= 1
    ensures j < n
  {
    (i - 1 + n) % n
  }

  /** On positions in range, the two ways back agree. */
  lemma {:induction false} PrevForms(i: nat, n: nat)
    requires n >= 1 && i < n
    ensures PrevMod(i, n) == PrevWrap(i, n)
  {
    if i == 0 {
      assert i - 1 + n == n - 1;
    } else {
      assert i - 1 + n == (i - 1) + n;
      ModShift(i - 1, n);
    }
  }

  /** Adding one lap does not change a position. */
  lemma {:induction false} ModShift(k: nat, n: nat)
    requires n >= 1 && k < n
    ensures (k + n) % n == k
  {
    assert (k + n) == 1 * n + k;
  }

  /** Forward then back, and back then forward, return to the start, whichever form of back is used. */
  lemma {:induction false} NextPrevInverse(i: nat, n: nat)
    requires n >= 1 && i < n
    ensures PrevWrap(Next(i, n), n) == i && Next(PrevWrap(i, n), n) == i
    ensures PrevMod(Next(i, n), n) == i && Next(PrevMod(i, n), n) == i
  {
    PrevForms(i, n);
    PrevForms(Next(i, n), n);
  }

  /** `k` forward steps from `i`. */
  function Advance(i: nat, n: nat, k: nat): (j: nat)
    requires n >= 1 && i < n
    ensures j < n
  {
    if k == 0 then i else Next(Advance(i, n, k - 1), n)
  }

  /** `n` steps forward come back to the start: the carousel is a cycle through every slide. */
  lemma {:induction false} AdvanceIsModular(i: nat, n: nat, k: nat)
    requires n >= 1 && i < n
    ensures Advance(i, n, k) == (i + k) % n
  {
    if k > 0 {
      AdvanceIsModular(i, n, k - 1);
      ModSucc(i + k - 1, n);
    }
  }

  /** The successor of a position modulo `n` is the position of the successor. */
  lemma {:induction false} ModSucc(m: nat, n: nat)
    requires n >= 1
    ensures (m % n + 1) % n == (m + 1) % n
  {
    var q, r := m / n, m % n;
    assert m == q * n + r;
    if r + 1 < n {
      ModOfLaps(q, r + 1, n);
      assert m + 1 == q * n + (r + 1);
      ModOfLaps(0, r + 1, n);
    } else {
      ModOfLaps(q + 1, 0, n);
      assert m + 1 == (q + 1) * n + 0;
      ModOfLaps(1, 0, n);
      assert 1 * n + 0 == n;
    }
  }

  /** `q` whole laps plus a remainder `r` below `n` leave `r`. */
  lemma {:induction false} ModOfLaps(q: nat, r: nat, n: nat)
    requires n >= 1 && r < n
    ensures (q * n + r) % n == r
  {
    var x := q * n + r;
    var q', r' := x / n, x % n;
    assert (q - q') * n == r' - r;
    if q > q' {
      AtLeastOneLap(q - q', n);
      assert false;
    } else if q < q' {
      AtLeastOneLap(q' - q, n);
      assert false;
    }
  }

  /** A positive number of laps covers at least one lap. */
  lemma {:induction false} AtLeastOneLap(k: int, n: int)
    requires k >= 1 && n >= 1
    ensures k * n >= n
  {
    if k > 1 {
      AtLeastOneLap(k - 1, n);
      assert k * n == (k - 1) * n + n;
    }
  }
}
