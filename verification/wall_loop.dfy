/**
 * The `point2` walk that enumerates a sector's walls: starting at the
 * sector's first wall, each wall names the next wall to its right, and the
 * loop is closed when the walk comes back to the first wall. Only the link
 * table matters here (`links[i]` is wall i's `point2`).
 */
module WallLoop {
  /** One step of the walk; a walk that has left the table stays outside it (-1). */
  function Step(links: seq<int>, c: int): int
  {
    if 0 <= c < |links| then links[c] else -1
  }

  /** The wall reached after k steps from `first`. */
  function Nth(links: seq<int>, first: int, k: nat): int
  {
    if k == 0 then first else Step(links, Nth(links, first, k - 1))
  }

  /**
   * The walk from `first` stays inside the table for n steps, is back at
   * `first` after exactly n steps, and not earlier: the sector's wall loop
   * has `n` walls.
   */
  ghost predicate Closes(links: seq<int>, first: int, n: nat)
  {
    && n >= 1
    && (forall k :: 0 <= k < n ==> 0 <= Nth(links, first, k) < |links|)
    && Nth(links, first, n) == first
    && (forall k :: 0 < k < n ==> Nth(links, first, k) != first)
  }

  /** The walk from `first` comes back to `first` at some point, staying inside the table until then. */
  ghost predicate IsLoop(links: seq<int>, first: int)
  {
    exists n: nat :: Closes(links, first, n)
  }

  /** A loop has one length: the first return to `first` is unique. */
  lemma ClosesUnique(links: seq<int>, first: int, n: nat, m: nat)
    requires Closes(links, first, n) && Closes(links, first, m)
    ensures n == m
  {
  }

  /** The length of a loop, as a specification value. */
  ghost function Period(links: seq<int>, first: int): (n: nat)
    requires IsLoop(links, first)
    ensures Closes(links, first, n)
  {
    var n: nat :| Closes(links, first, n); n
  }

  /**
   * The number of walls of the loop through `first`: the walk is followed
   * until it is back at `first`, as the walls iterator does.
   */
  function LoopLength(links: seq<int>, first: int): (n: nat)
    requires IsLoop(links, first)
    ensures Closes(links, first, n)
    ensures forall m: nat :: Closes(links, first, m) ==> m == n
  {
    var n := ReturnFrom(links, first, 1);
    forall m: nat | Closes(links, first, m)
      ensures m == n
    {
      ClosesUnique(links, first, m, n);
    }
    n
  }

  /** The first k' >= k at which the walk is back at `first`, none before k having been. */
  function ReturnFrom(links: seq<int>, first: int, k: nat): (n: nat)
    requires IsLoop(links, first) && 1 <= k <= Period(links, first)
    requires forall j :: 0 < j < k ==> Nth(links, first, j) != first
    ensures n == Period(links, first)
    decreases Period(links, first) - k
  {
    if Nth(links, first, k) == first then k else ReturnFrom(links, first, k + 1)
  }

  /** Walking i steps and then m more is walking i + m steps. */
  lemma {:induction false} NthAdd(links: seq<int>, first: int, i: nat, m: nat)
    ensures Nth(links, Nth(links, first, i), m) == Nth(links, first, i + m)
  {
    if m > 0 {
      NthAdd(links, first, i, m - 1);
    }
  }

  /** A closed loop visits each of its walls once: the n walls it yields are distinct. */
  lemma ClosedLoopDistinct(links: seq<int>, first: int, n: nat, i: nat, j: nat)
    requires Closes(links, first, n)
    requires i < j < n
    ensures Nth(links, first, i) != Nth(links, first, j)
  {
    // From equal walls, n - j further steps reach `first` early, at i + n - j.
    var back := n - j;
    NthAdd(links, first, i, back);
    NthAdd(links, first, j, back);
    assert 0 < i + back < n;
  }

  /** The walk of a closed loop is periodic: after n more steps it is at the same wall. */
  lemma {:induction false} ClosedLoopPeriodic(links: seq<int>, first: int, n: nat, k: nat)
    requires Closes(links, first, n)
    ensures Nth(links, first, k + n) == Nth(links, first, k)
  {
    NthAdd(links, first, n, k);
    NthAdd(links, first, 0, k);
    assert Nth(links, first, n + k) == Nth(links, Nth(links, first, n), k);
  }
}
