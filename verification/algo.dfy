/**
 * `render/src/d3/algo.rs`: integer intervals and the per-column pixel
 * coverage of the 3D renderer.
 *
 * `intersect` treats an interval as the half-open range `left..right`
 * (touching intervals do not meet), while `contains` also accepts `right`.
 */
module Algo {
  import opened Ints

  /** `Interval([l, r])`. */
  datatype Interval = Interval(left: i32, right: i32)

  const EMPTY: Interval := Interval(0, 0)

  /** `Interval::new`, whose `assert!` demands `l <= r`. */
  function New(l: i32, r: i32): (iv: Interval)
    requires l <= r
    ensures iv.left == l && iv.right == r && (IsEmpty(iv) <==> l == r)
  {
    Interval(l, r)
  }

  /** `is_empty`: nothing lies between the bounds. */
  predicate IsEmpty(iv: Interval)
  {
    iv.right <= iv.left
  }

  /** `contains`: a non-empty interval holds `left..=right`. */
  predicate Contains(iv: Interval, p: int)
  {
    !IsEmpty(iv) && p >= iv.left && p <= iv.right
  }

  /** The points `intersect` and the renderer treat as covered: `left <= p < right`. */
  predicate Holds(iv: Interval, p: int)
  {
    iv.left <= p < iv.right
  }

  /** `intersect`: empty if either side is, otherwise ordered by left bound and clipped. */
  function Intersect(a: Interval, b: Interval): Interval
    decreases if a.left > b.left then 1 else 0
  {
    if IsEmpty(a) || IsEmpty(b) then EMPTY
    else if a.left > b.left then Intersect(b, a)
    else if a.right <= b.left then EMPTY
    else New(b.left, Min(b.right, a.right))
  }

  /** The reference definition: the overlap of the two ranges, or `EMPTY` when they do not overlap. */
  lemma IntersectIsOverlap(a: Interval, b: Interval)
    ensures Intersect(a, b) ==
      var l := Max(a.left, b.left);
      var r := Min(a.right, b.right);
      if IsEmpty(a) || IsEmpty(b) || r <= l then EMPTY else Interval(l, r)
  {
  }

  lemma IntersectCommutes(a: Interval, b: Interval)
    ensures Intersect(a, b) == Intersect(b, a)
  {
    IntersectIsOverlap(a, b);
    IntersectIsOverlap(b, a);
  }

  /** A point is in the intersection exactly when it is in both operands. */
  lemma IntersectHolds(a: Interval, b: Interval, p: int)
    ensures Holds(Intersect(a, b), p) <==> Holds(a, p) && Holds(b, p)
  {
    IntersectIsOverlap(a, b);
  }

  /**
   * The intersection is contained in both operands; the converse for
   * `contains` fails only at a point where one interval ends and the other
   * starts, because `contains` includes the right bound.
   */
  lemma IntersectContains(a: Interval, b: Interval, p: int)
    ensures Contains(Intersect(a, b), p) ==> Contains(a, p) && Contains(b, p)
    ensures Contains(a, p) && Contains(b, p) && !Contains(Intersect(a, b), p) ==>
      p == a.right == b.left || p == b.right == a.left
  {
    IntersectIsOverlap(a, b);
  }

  /** An empty operand gives `EMPTY`, and `EMPTY` itself is empty. */
  lemma IntersectEmpty(a: Interval, b: Interval)
    ensures IsEmpty(EMPTY)
    ensures IsEmpty(a) || IsEmpty(b) ==> Intersect(a, b) == EMPTY
    ensures IsEmpty(Intersect(a, b)) ==> Intersect(a, b) == EMPTY
  {
  }

  /** A column interval of a coverage whose height is h: `0 <= left <= right <= h`. */
  predicate InColumn(iv: Interval, h: int)
  {
    0 <= iv.left <= iv.right <= h
  }

  /** Intersecting only ever shrinks a column interval. */
  lemma IntersectInColumn(a: Interval, b: Interval, h: int)
    requires InColumn(a, h)
    ensures InColumn(Intersect(a, b), h)
  {
    IntersectIsOverlap(a, b);
  }

  /** The number of empty intervals in s. */
  function CountEmpty(s: seq<Interval>): (n: nat)
    ensures n <= |s|
  {
    if s == [] then 0 else CountEmpty(s[..|s| - 1]) + (if IsEmpty(s[|s| - 1]) then 1 else 0)
  }

  /** Replacing one interval changes the count by the change in that interval's emptiness. */
  lemma {:induction false} CountEmptyUpdate(s: seq<Interval>, c: nat, v: Interval)
    requires c < |s|
    ensures CountEmpty(s[c := v]) + (if IsEmpty(s[c]) then 1 else 0)
      == CountEmpty(s) + (if IsEmpty(v) then 1 else 0)
    decreases |s|
  {
    var t := s[c := v];
    if c < |s| - 1 {
      assert t[..|t| - 1] == s[..|s| - 1][c := v];
      CountEmptyUpdate(s[..|s| - 1], c, v);
    } else {
      assert t[..|t| - 1] == s[..|s| - 1];
    }
  }

  /** Every interval of s is empty exactly when the count reaches |s|. */
  lemma {:induction false} CountEmptyAll(s: seq<Interval>)
    ensures CountEmpty(s) == |s| <==> forall i :: 0 <= i < |s| ==> IsEmpty(s[i])
    decreases |s|
  {
    if s != [] {
      var init := s[..|s| - 1];
      CountEmptyAll(init);
      assert forall i :: 0 <= i < |init| ==> init[i] == s[i];
    }
  }

  /** No interval of s is empty: the count is zero. */
  lemma {:induction false} CountEmptyNone(s: seq<Interval>)
    requires forall i :: 0 <= i < |s| ==> !IsEmpty(s[i])
    ensures CountEmpty(s) == 0
    decreases |s|
  {
    if s != [] {
      CountEmptyNone(s[..|s| - 1]);
    }
  }

  /** `Coverage`: the still-uncovered rows of every column, and how many columns are used up. */
  /** What `Coverage::intersect` leaves in a column: an empty column as it was, any other narrowed to `iv`. */
  function Narrowed(column: Interval, iv: Interval): Interval
  {
    if IsEmpty(column) then column else Intersect(column, iv)
  }

  class Coverage {
    const width: nat
    const height: i32
    const columns: array<Interval>
    var empty: nat

    /**
     * Every column lies in `[0, height]`, and `empty` counts the empty
     * columns; a coverage of height 0 starts with every column empty and
     * `empty == 0`, so the count only holds for positive heights.
     */
    ghost predicate Valid()
      reads this, columns
    {
      && columns.Length == width
      && height >= 0
      && (forall c :: 0 <= c < width ==> InColumn(columns[c], height))
      && (height > 0 ==> empty == CountEmpty(columns[..]))
    }

    /** `Coverage::new`: every column is `[0, height]`, nothing is used up. */
    constructor (width: nat, height: i32)
      requires height >= 0
      ensures this.width == width && this.height == height && empty == 0
      ensures fresh(columns) && Valid()
      ensures forall c :: 0 <= c < width ==> columns[c] == New(0, height)
    {
      this.width := width;
      this.height := height;
      columns := new Interval[width](_ => Interval(0, height));
      empty := 0;
      new;
      if height > 0 {
        CountEmptyNone(columns[..]);
      }
    }

    /** `column`: the interval still open in column idx. */
    function Column(idx: nat): (iv: Interval)
      requires Valid() && idx < width
      reads this, columns
      ensures InColumn(iv, height)
    {
      columns[idx]
    }

    /** `is_full`: every column has been used up. */
    predicate IsFull()
      reads this
    {
      empty == width
    }

    /** For a positive height, being full means every column is empty. */
    lemma FullIffAllEmpty()
      requires Valid() && height > 0
      ensures IsFull() <==> forall c :: 0 <= c < width ==> IsEmpty(columns[c])
    {
      CountEmptyAll(columns[..]);
    }

    /**
     * `Coverage::intersect` (named apart from the interval `Intersect`): an
     * empty column stays as it is and yields `EMPTY`; otherwise only that
     * column is narrowed, and `empty` grows by one exactly when it becomes
     * empty.
     */
    method IntersectColumn(column: nat, iv: Interval) returns (r: Interval)
      requires Valid() && column < width
      modifies this, columns
      ensures Valid()
      ensures columns[..] == old(columns[..])[column := Narrowed(old(columns[column]), iv)]
      ensures IsEmpty(old(columns[column])) ==>
        r == EMPTY && columns[..] == old(columns[..]) && empty == old(empty)
      ensures !IsEmpty(old(columns[column])) ==>
        && r == Intersect(old(columns[column]), iv)
        && columns[..] == old(columns[..])[column := r]
        && empty == old(empty) + (if IsEmpty(r) then 1 else 0)
    {
      if IsEmpty(columns[column]) {
        assert columns[..][column := columns[column]] == columns[..];
        return EMPTY;
      }
      ghost var before := columns[..];
      r := Intersect(columns[column], iv);
      IntersectInColumn(columns[column], iv, height);
      columns[column] := r;
      if IsEmpty(columns[column]) {
        empty := empty + 1;
      }
      assert columns[..] == before[column := r];
      CountEmptyUpdate(before, column, r);
    }

    /** `clear`: back to the state `new` leaves. */
    method Clear()
      requires Valid()
      modifies this, columns
      ensures Valid() && empty == 0
      ensures forall c :: 0 <= c < width ==> columns[c] == New(0, height)
    {
      var c := 0;
      while c < columns.Length
        invariant 0 <= c <= columns.Length == width
        invariant forall j :: 0 <= j < c ==> columns[j] == Interval(0, height)
        invariant forall j :: c <= j < width ==> InColumn(columns[j], height)
      {
        columns[c] := New(0, height);
        c := c + 1;
      }
      empty := 0;
      if height > 0 {
        CountEmptyNone(columns[..]);
      }
    }
  }
}
