/** Merging boxes that belong to one stick, and putting them in reading order. */
module Boxes {
  import opened Arithmetic
  import Sorting

  /** x1 and y1 are exclusive. */
  datatype Box = Box(x0: int, y0: int, x1: int, y1: int)

  predicate Solid(b: Box) { b.x0 < b.x1 && b.y0 < b.y1 }

  function Overlap(a0: int, a1: int, b0: int, b1: int): int { Max(0, Min(a1, b1) - Max(a0, b0)) }

  function ShortSide(b: Box): int { Min(b.x1 - b.x0, b.y1 - b.y0) }

  function Area(b: Box): int { (b.x1 - b.x0) * (b.y1 - b.y0) }

  /**
   * Whether two boxes are one stick: they intersect, or they line up by more than 0.6 with a gap below
   * `halves` / 2 of the shorter side. The ratios are multiplied out.
   */
  predicate ShouldMerge(a: Box, b: Box, halves: int) {
    var ox, oy := Overlap(a.x0, a.x1, b.x0, b.x1), Overlap(a.y0, a.y1, b.y0, b.y1);
    var minShort := Min(ShortSide(a), ShortSide(b));
    var vGap := Max(a.y0, b.y0) - Min(a.y1, b.y1);
    var hGap := Max(a.x0, b.x0) - Min(a.x1, b.x1);
    (ox > 0 && oy > 0)
    || (5 * ox > 3 * Min(a.x1 - a.x0, b.x1 - b.x0) && 2 * vGap < minShort * halves)
    || (5 * oy > 3 * Min(a.y1 - a.y0, b.y1 - b.y0) && 2 * hGap < minShort * halves
        && a.y1 - a.y0 < a.x1 - a.x0 && b.y1 - b.y0 < b.x1 - b.x0)
  }

  // ---- what that means on the page ----

  /** More than 0.6 of a length is shared, and the gap is below so many halves of another. */
  predicate LinesUp(shared: int, length: int, gap: int, side: int, halves: int) {
    shared as real > 0.6 * length as real && gap as real < (halves as real / 2.0) * side as real
  }

  lemma Ratios(shared: int, length: int, gap: int, side: int, halves: int)
    requires length > 0
    ensures LinesUp(shared, length, gap, side, halves) <==> 5 * Max(0, shared) > 3 * length && 2 * gap < side * halves
  {
    assert (side * halves) as real == side as real * halves as real;
  }

  function Shortest(a: Box, b: Box): int {
    Min(Min(a.x1 - a.x0, b.x1 - b.x0), Min(a.y1 - a.y0, b.y1 - b.y0))
  }

  lemma ShortestOfFour(a: Box, b: Box)
    ensures Min(ShortSide(a), ShortSide(b)) == Shortest(a, b)
  {
  }

  /** Boxes that share a pixel are one. */
  lemma CrossingMerge(a: Box, b: Box, halves: int, x: int, y: int)
    requires a.x0 <= x < a.x1 && a.y0 <= y < a.y1 && b.x0 <= x < b.x1 && b.y0 <= y < b.y1
    ensures ShouldMerge(a, b, halves)
  {
  }

  /**
   * One above the other: one stick exactly when their columns overlap by more than 0.6 of the narrower and the
   * gap is below the given halves of the shortest of the four sides.
   */
  lemma StackedMerge(a: Box, b: Box, halves: int)
    requires Solid(a) && Solid(b) && a.y1 <= b.y0
    ensures ShouldMerge(a, b, halves) <==>
            LinesUp(Min(a.x1, b.x1) - Max(a.x0, b.x0), Min(a.x1 - a.x0, b.x1 - b.x0), b.y0 - a.y1, Shortest(a, b), halves)
  {
    Ratios(Min(a.x1, b.x1) - Max(a.x0, b.x0), Min(a.x1 - a.x0, b.x1 - b.x0), b.y0 - a.y1, Shortest(a, b), halves);
    ShortestOfFour(a, b);
    hide LinesUp, Shortest, ShortSide;
  }

  /**
   * Side by side: one stick exactly when both lie, wider than tall, their rows overlap by more than 0.6 of the
   * lower, and the gap is below the given halves of the shortest of the four sides.
   */
  lemma SideBySideMerge(a: Box, b: Box, halves: int)
    requires Solid(a) && Solid(b) && a.x1 <= b.x0
    ensures ShouldMerge(a, b, halves) <==>
            && a.y1 - a.y0 < a.x1 - a.x0 && b.y1 - b.y0 < b.x1 - b.x0
            && LinesUp(Min(a.y1, b.y1) - Max(a.y0, b.y0), Min(a.y1 - a.y0, b.y1 - b.y0), b.x0 - a.x1, Shortest(a, b), halves)
  {
    Ratios(Min(a.y1, b.y1) - Max(a.y0, b.y0), Min(a.y1 - a.y0, b.y1 - b.y0), b.x0 - a.x1, Shortest(a, b), halves);
    ShortestOfFour(a, b);
    hide LinesUp, Shortest, ShortSide;
  }

  /** At half the shorter side, as on a sheet: two portrait sticks stay two, the halves of one lying stick are one. */
  lemma SheetExamples()
    ensures !ShouldMerge(Box(0, 0, 100, 400), Box(110, 0, 210, 400), 1)
    ensures ShouldMerge(Box(0, 0, 200, 100), Box(220, 0, 420, 100), 1)
    ensures ShouldMerge(Box(0, 0, 100, 200), Box(0, 220, 100, 420), 1)
    ensures !ShouldMerge(Box(0, 0, 200, 100), Box(250, 0, 450, 100), 1)
    ensures !ShouldMerge(Box(0, 0, 200, 100), Box(220, 40, 420, 140), 1)
  {
    hide ShouldMerge;
    PortraitsStayApart(Box(0, 0, 100, 400), Box(110, 0, 210, 400), 1);
    SideBySideMerge(Box(0, 0, 200, 100), Box(220, 0, 420, 100), 1);
    StackedMerge(Box(0, 0, 100, 200), Box(0, 220, 100, 420), 1);
    SideBySideMerge(Box(0, 0, 200, 100), Box(250, 0, 450, 100), 1);
    SideBySideMerge(Box(0, 0, 200, 100), Box(220, 40, 420, 140), 1);
  }

  /** Beside another box, one that is not wider than tall stays by itself, however small the gap. */
  lemma PortraitsStayApart(a: Box, b: Box, halves: int)
    requires Solid(a) && Solid(b) && (a.x1 <= b.x0 || b.x1 <= a.x0)
    requires a.y1 - a.y0 >= a.x1 - a.x0 || b.y1 - b.y0 >= b.x1 - b.x0
    ensures !ShouldMerge(a, b, halves)
  {
    MergeIsSymmetric(a, b, halves);
    if a.x1 <= b.x0 { SideBySideMerge(a, b, halves); } else { SideBySideMerge(b, a, halves); }
  }

  predicate Holds(outer: Box, inner: Box) {
    outer.x0 <= inner.x0 && outer.y0 <= inner.y0 && inner.x1 <= outer.x1 && inner.y1 <= outer.y1
  }

  function Hull(a: Box, b: Box): Box {
    Box(Min(a.x0, b.x0), Min(a.y0, b.y0), Max(a.x1, b.x1), Max(a.y1, b.y1))
  }

  /** The smallest box around a group of the input boxes. */
  ghost predicate IsHull(input: seq<Box>, group: set<nat>, b: Box) {
    && (forall i :: i in group ==> i < |input| && Holds(b, input[i]))
    && (exists i :: i in group && i < |input| && input[i].x0 == b.x0)
    && (exists i :: i in group && i < |input| && input[i].y0 == b.y0)
    && (exists i :: i in group && i < |input| && input[i].x1 == b.x1)
    && (exists i :: i in group && i < |input| && input[i].y1 == b.y1)
  }

  ghost predicate InSome(groups: seq<set<nat>>, i: nat) { exists k :: 0 <= k < |groups| && i in groups[k] }

  ghost predicate PairwiseDisjoint(groups: seq<set<nat>>) {
    forall j, k :: 0 <= j < k < |groups| ==> groups[j] !! groups[k]
  }

  ghost predicate Groups(groups: seq<set<nat>>, n: nat) {
    && (forall k :: 0 <= k < |groups| ==> groups[k] != {} && forall i :: i in groups[k] ==> i < n)
    && (forall i: nat :: i < n ==> InSome(groups, i))
  }

  /** The groups share out the numbers below `n`, each to exactly one of them. */
  ghost predicate Partition(groups: seq<set<nat>>, n: nat) { Groups(groups, n) && PairwiseDisjoint(groups) }

  ghost predicate Hulls(input: seq<Box>, groups: seq<set<nat>>, boxes: seq<Box>) {
    |boxes| == |groups| && forall k :: 0 <= k < |boxes| ==> IsHull(input, groups[k], boxes[k])
  }

  /** How a box came about: an input box, or two that were merged. */
  datatype Merge = One(i: nat) | Two(first: Merge, second: Merge)

  ghost function Taken(m: Merge): set<nat> {
    match m
    case One(i) => {i}
    case Two(first, second) => Taken(first) + Taken(second)
  }

  ghost function Bounds(input: seq<Box>, m: Merge): Box {
    match m
    case One(i) => if i < |input| then input[i] else Box(0, 0, 0, 0)
    case Two(first, second) => Hull(Bounds(input, first), Bounds(input, second))
  }

  /** Each merge on the way was of two boxes that should be one. */
  ghost predicate Grown(input: seq<Box>, m: Merge, halves: int) {
    match m
    case One(i) => i < |input|
    case Two(first, second) =>
      Grown(input, first, halves) && Grown(input, second, halves) && ShouldMerge(Bounds(input, first), Bounds(input, second), halves)
  }

  ghost predicate Comes(input: seq<Box>, group: set<nat>, b: Box, m: Merge, halves: int) {
    Grown(input, m, halves) && Taken(m) == group && Bounds(input, m) == b
  }

  /** Every box came about by merges of boxes that should be one, and by no other. */
  ghost predicate AllGrown(input: seq<Box>, groups: seq<set<nat>>, boxes: seq<Box>, merges: seq<Merge>, halves: int) {
    |merges| == |boxes| == |groups| && forall k :: 0 <= k < |boxes| ==> Comes(input, groups[k], boxes[k], merges[k], halves)
  }

  lemma GrownMerge(input: seq<Box>, groups: seq<set<nat>>, boxes: seq<Box>, merges: seq<Merge>, halves: int, i: nat, j: nat)
    requires AllGrown(input, groups, boxes, merges, halves) && i < j < |boxes| && ShouldMerge(boxes[i], boxes[j], halves)
    ensures AllGrown(input, Without(groups, i, j, groups[i] + groups[j]), Without(boxes, i, j, Hull(boxes[i], boxes[j])),
                     Without(merges, i, j, Two(merges[i], merges[j])), halves)
  {
    var g, b := Without(groups, i, j, groups[i] + groups[j]), Without(boxes, i, j, Hull(boxes[i], boxes[j]));
    var m := Without(merges, i, j, Two(merges[i], merges[j]));
    assert Comes(input, groups[i], boxes[i], merges[i], halves) && Comes(input, groups[j], boxes[j], merges[j], halves);
    assert Comes(input, groups[i] + groups[j], Hull(boxes[i], boxes[j]), Two(merges[i], merges[j]), halves);
    forall k | 0 <= k < |b| ensures Comes(input, g[k], b[k], m[k], halves) {
      WithoutAt(groups, i, j, groups[i] + groups[j], k);
      WithoutAt(boxes, i, j, Hull(boxes[i], boxes[j]), k);
      WithoutAt(merges, i, j, Two(merges[i], merges[j]), k);
    }
  }

  /** Nothing left to merge. */
  ghost predicate Apart(boxes: seq<Box>, halves: int) {
    forall i, j :: 0 <= i < j < |boxes| ==> !ShouldMerge(boxes[i], boxes[j], halves)
  }

  function Without<T>(s: seq<T>, i: nat, j: nat, x: T): (t: seq<T>)
    requires i < j < |s|
    ensures |t| == |s| - 1
  {
    s[i := x][..j] + s[j + 1..]
  }

  lemma WithoutAt<T>(s: seq<T>, i: nat, j: nat, x: T, k: nat)
    requires i < j < |s| && k < |s| - 1
    ensures Without(s, i, j, x)[k] == if k == i then x else if k < j then s[k] else s[k + 1]
  {
  }

  lemma HullsMerge(input: seq<Box>, groups: seq<set<nat>>, boxes: seq<Box>, i: nat, j: nat)
    requires Hulls(input, groups, boxes) && i < j < |boxes|
    ensures Hulls(input, Without(groups, i, j, groups[i] + groups[j]), Without(boxes, i, j, Hull(boxes[i], boxes[j])))
  {
    var g, b := Without(groups, i, j, groups[i] + groups[j]), Without(boxes, i, j, Hull(boxes[i], boxes[j]));
    forall k | 0 <= k < |b| ensures IsHull(input, g[k], b[k]) {
      WithoutAt(groups, i, j, groups[i] + groups[j], k);
      WithoutAt(boxes, i, j, Hull(boxes[i], boxes[j]), k);
      if k == i { HullOfTwo(input, groups[i], groups[j], boxes[i], boxes[j]); }
    }
  }

  lemma HullOfTwo(input: seq<Box>, g: set<nat>, h: set<nat>, a: Box, b: Box)
    requires IsHull(input, g, a) && IsHull(input, h, b)
    ensures IsHull(input, g + h, Hull(a, b))
  {
    var c := Hull(a, b);
    var gx0 :| gx0 in g && gx0 < |input| && input[gx0].x0 == a.x0;
    var hx0 :| hx0 in h && hx0 < |input| && input[hx0].x0 == b.x0;
    assert input[if c.x0 == a.x0 then gx0 else hx0].x0 == c.x0;
    var gy0 :| gy0 in g && gy0 < |input| && input[gy0].y0 == a.y0;
    var hy0 :| hy0 in h && hy0 < |input| && input[hy0].y0 == b.y0;
    assert input[if c.y0 == a.y0 then gy0 else hy0].y0 == c.y0;
    var gx1 :| gx1 in g && gx1 < |input| && input[gx1].x1 == a.x1;
    var hx1 :| hx1 in h && hx1 < |input| && input[hx1].x1 == b.x1;
    assert input[if c.x1 == a.x1 then gx1 else hx1].x1 == c.x1;
    var gy1 :| gy1 in g && gy1 < |input| && input[gy1].y1 == a.y1;
    var hy1 :| hy1 in h && hy1 < |input| && input[hy1].y1 == b.y1;
    assert input[if c.y1 == a.y1 then gy1 else hy1].y1 == c.y1;
  }

  lemma DisjointMerge(groups: seq<set<nat>>, i: nat, j: nat)
    requires PairwiseDisjoint(groups) && i < j < |groups|
    ensures PairwiseDisjoint(Without(groups, i, j, groups[i] + groups[j]))
  {
    var g := Without(groups, i, j, groups[i] + groups[j]);
    forall p, q | 0 <= p < q < |g| ensures g[p] !! g[q] {
      WithoutAt(groups, i, j, groups[i] + groups[j], p);
      WithoutAt(groups, i, j, groups[i] + groups[j], q);
    }
  }

  lemma GroupsMerge(groups: seq<set<nat>>, n: nat, i: nat, j: nat)
    requires Groups(groups, n) && i < j < |groups|
    ensures Groups(Without(groups, i, j, groups[i] + groups[j]), n)
  {
    var g := Without(groups, i, j, groups[i] + groups[j]);
    forall k | 0 <= k < |g| ensures g[k] != {} && forall m :: m in g[k] ==> m < n {
      WithoutAt(groups, i, j, groups[i] + groups[j], k);
    }
    forall m: nat | m < n ensures InSome(g, m) {
      assert InSome(groups, m);
      var k :| 0 <= k < |groups| && m in groups[k];
      var at := if k == j then i else if k < j then k else k - 1;
      WithoutAt(groups, i, j, groups[i] + groups[j], at);
      assert m in g[at];
    }
  }

  /** Every pair from `i` on was looked at, in row `i` up to column `j`. */
  ghost predicate Scanned(boxes: seq<Box>, halves: int, i: nat, j: nat) {
    && (forall p, q :: 0 <= p < i && p < q < |boxes| ==> !ShouldMerge(boxes[p], boxes[q], halves))
    && (forall q :: i < q < j && q < |boxes| && i < |boxes| ==> !ShouldMerge(boxes[i], boxes[q], halves))
  }

  /** The first pair to merge, in the order of the two loops; None when nothing is left to merge. */
  method FirstPair(boxes: seq<Box>, halves: int) returns (found: bool, i: nat, j: nat)
    ensures found ==> i < j < |boxes| && ShouldMerge(boxes[i], boxes[j], halves) && Scanned(boxes, halves, i, j)
    ensures !found ==> Apart(boxes, halves)
  {
    i, j := 0, 0;
    while i < |boxes|
      invariant i <= |boxes| && Scanned(boxes, halves, i, 0)
    {
      j := i + 1;
      while j < |boxes|
        invariant i < j <= |boxes| && Scanned(boxes, halves, i, j)
      {
        if ShouldMerge(boxes[i], boxes[j], halves) { return true, i, j; }
        j := j + 1;
      }
      i := i + 1;
    }
    found := false;
  }

  /**
   * Merges until no two boxes should be: the result is the hulls of a partition of the input, each grown by
   * merges of two boxes that should be one. Each merge takes one box away, so it ends.
   */
  method MergeAligned(input: seq<Box>, halves: int) returns (boxes: seq<Box>, ghost groups: seq<set<nat>>, ghost merges: seq<Merge>)
    ensures Partition(groups, |input|) && Hulls(input, groups, boxes)
    ensures AllGrown(input, groups, boxes, merges, halves)
    ensures Apart(boxes, halves)
  {
    boxes := input;
    groups := seq(|input|, i => {i});
    merges := seq(|input|, (i: nat) => One(i));
    forall k | 0 <= k < |input| ensures Comes(input, groups[k], boxes[k], merges[k], halves) { assert merges[k] == One(k); }
    forall i: nat | i < |input| ensures InSome(groups, i) { assert i in groups[i]; }
    forall k | 0 <= k < |boxes| ensures IsHull(input, groups[k], boxes[k]) { assert input[k] == boxes[k] && k in groups[k]; }
    var merged := true;
    while merged
      invariant Partition(groups, |input|) && Hulls(input, groups, boxes)
      invariant AllGrown(input, groups, boxes, merges, halves)
      invariant !merged ==> Apart(boxes, halves)
      decreases |boxes|, merged
    {
      var i, j;
      merged, i, j := FirstPair(boxes, halves);
      if merged {
        HullsMerge(input, groups, boxes, i, j);
        GroupsMerge(groups, |input|, i, j);
        DisjointMerge(groups, i, j);
        GrownMerge(input, groups, boxes, merges, halves, i, j);
        merges := Without(merges, i, j, Two(merges[i], merges[j]));
        groups := Without(groups, i, j, groups[i] + groups[j]);
        boxes := Without(boxes, i, j, Hull(boxes[i], boxes[j]));
      }
    }
  }

  lemma MergeIsSymmetric(a: Box, b: Box, halves: int)
    ensures ShouldMerge(a, b, halves) == ShouldMerge(b, a, halves)
  {
  }

  ghost predicate HasPoint(b: Box, x: int, y: int) { b.x0 <= x < b.x1 && b.y0 <= y < b.y1 }

  /** What is left unmerged shares no pixel. */
  lemma ApartIsDisjoint(boxes: seq<Box>, halves: int, i: nat, j: nat, x: int, y: int)
    requires Apart(boxes, halves) && i < j < |boxes|
    ensures !HasPoint(boxes[i], x, y) || !HasPoint(boxes[j], x, y)
  {
    assert !ShouldMerge(boxes[i], boxes[j], halves);
  }

  /** Every input box lies inside exactly one output box's group, and inside that box. */
  lemma InsideItsHull(input: seq<Box>, groups: seq<set<nat>>, boxes: seq<Box>, i: nat) returns (k: nat)
    requires Partition(groups, |input|) && Hulls(input, groups, boxes) && i < |input|
    ensures k < |boxes| && i in groups[k] && Holds(boxes[k], input[i])
    ensures forall m :: 0 <= m < |boxes| && i in groups[m] ==> m == k
  {
    assert InSome(groups, i);
    k :| 0 <= k < |groups| && i in groups[k];
    assert IsHull(input, groups[k], boxes[k]);
    forall m | 0 <= m < |boxes| && i in groups[m] ensures m == k {
      if m < k { NotInBoth(groups, m, k, i); } else if k < m { NotInBoth(groups, k, m, i); }
    }
  }

  lemma NotInBoth(groups: seq<set<nat>>, j: nat, k: nat, i: nat)
    requires PairwiseDisjoint(groups) && j < k < |groups|
    ensures i !in groups[j] || i !in groups[k]
  {
    assert groups[j] !! groups[k];
  }

  // ---- reading order ----

  datatype RowOfBoxes = RowOfBoxes(y0: int, y1: int, items: seq<Box>)

  /** The vertical extents overlap by at least half of the smaller height. */
  predicate Fits(r: RowOfBoxes, b: Box) {
    2 * Overlap(r.y0, r.y1, b.y0, b.y1) >= Min(b.y1 - b.y0, r.y1 - r.y0)
  }

  /** A box is of a row exactly when they share half the height of the lower of them, or more. */
  lemma HalfIsShared(r: RowOfBoxes, b: Box)
    requires r.y0 < r.y1 && b.y0 < b.y1
    ensures Fits(r, b) <==>
            (Min(r.y1, b.y1) - Max(r.y0, b.y0)) as real >= 0.5 * Min(r.y1 - r.y0, b.y1 - b.y0) as real
  {
  }

  function Joined(r: RowOfBoxes, b: Box): RowOfBoxes {
    RowOfBoxes(Min(r.y0, b.y0), Max(r.y1, b.y1), r.items + [b])
  }

  function FindRow(rows: seq<RowOfBoxes>, b: Box): (k: nat)
    ensures k <= |rows|
    ensures k < |rows| ==> Fits(rows[k], b)
    ensures forall m :: 0 <= m < k ==> !Fits(rows[m], b)
  {
    if rows == [] then 0 else if Fits(rows[0], b) then 0 else 1 + FindRow(rows[1..], b)
  }

  function AddToRows(rows: seq<RowOfBoxes>, b: Box): seq<RowOfBoxes> {
    var k := FindRow(rows, b);
    if k < |rows| then rows[k := Joined(rows[k], b)] else rows + [RowOfBoxes(b.y0, b.y1, [b])]
  }

  ghost function RowsOf(sorted: seq<Box>): seq<RowOfBoxes> {
    if sorted == [] then [] else AddToRows(RowsOf(sorted[..|sorted| - 1]), sorted[|sorted| - 1])
  }

  function Top(): Box -> int { (b: Box) => b.y0 }

  function Left(): Box -> int { (b: Box) => b.x0 }

  function RowTop(): RowOfBoxes -> int { (r: RowOfBoxes) => r.y0 }

  function Flatten(rows: seq<RowOfBoxes>): seq<Box> {
    if rows == [] then [] else Flatten(rows[..|rows| - 1]) + Sorting.SortBy(rows[|rows| - 1].items, Left())
  }

  ghost function Rows(boxes: seq<Box>): seq<RowOfBoxes> { RowsOf(Sorting.SortBy(boxes, Top())) }

  ghost predicate TopsAscend(s: seq<Box>) { forall j, k :: 0 <= j < k < |s| ==> s[j].y0 <= s[k].y0 }

  ghost predicate RowTopsAscend(s: seq<RowOfBoxes>) { forall j, k :: 0 <= j < k < |s| ==> s[j].y0 <= s[k].y0 }

  ghost predicate LeftsAscend(s: seq<Box>) { forall j, k :: 0 <= j < k < |s| ==> s[j].x0 <= s[k].x0 }

  /** A row's extents are those of its boxes. */
  ghost predicate RowIsTight(r: RowOfBoxes) {
    && r.items != []
    && (forall b :: b in r.items ==> r.y0 <= b.y0 && b.y1 <= r.y1)
    && (exists b :: b in r.items && b.y0 == r.y0)
    && (exists b :: b in r.items && b.y1 == r.y1)
  }

  ghost function Items(rows: seq<RowOfBoxes>): multiset<Box> {
    if rows == [] then multiset{} else Items(rows[..|rows| - 1]) + multiset(rows[|rows| - 1].items)
  }

  lemma {:induction false} ItemsUpdate(rows: seq<RowOfBoxes>, k: nat, r: RowOfBoxes, b: Box)
    requires k < |rows| && r.items == rows[k].items + [b]
    ensures Items(rows[k := r]) == Items(rows) + multiset{b}
  {
    var n := |rows| - 1;
    if k < n {
      ItemsUpdate(rows[..n], k, r, b);
      assert rows[k := r][..n] == rows[..n][k := r];
    } else {
      assert rows[k := r][..n] == rows[..n];
    }
  }

  lemma AddToRowsItems(rows: seq<RowOfBoxes>, b: Box)
    ensures Items(AddToRows(rows, b)) == Items(rows) + multiset{b}
  {
    var k := FindRow(rows, b);
    if k < |rows| {
      ItemsUpdate(rows, k, AddToRows(rows, b)[k], b);
    } else {
      assert AddToRows(rows, b)[..|rows|] == rows;
    }
  }

  /** Rows as they are found: tight, their tops ascending, and none below `top`. */
  ghost predicate RowsGood(rows: seq<RowOfBoxes>, top: int) {
    RowTopsAscend(rows) && forall k :: 0 <= k < |rows| ==> RowIsTight(rows[k]) && rows[k].y0 <= top
  }

  lemma AddToRowsKeeps(rows: seq<RowOfBoxes>, b: Box)
    requires RowsGood(rows, b.y0)
    ensures RowsGood(AddToRows(rows, b), b.y0)
  {
    var k := FindRow(rows, b);
    if k < |rows| {
      TightMore(rows[k], b);
    } else {
      assert b in [b];
    }
  }

  lemma TightMore(r: RowOfBoxes, b: Box)
    requires RowIsTight(r) && r.y0 <= b.y0
    ensures RowIsTight(Joined(r, b))
  {
    var t :| t in r.items && t.y0 == r.y0;
    var u :| u in r.items && u.y1 == r.y1;
    var items := r.items + [b];
    assert t in items && u in items && b in items;
  }

  ghost predicate RowsHold(rows: seq<RowOfBoxes>, boxes: seq<Box>, top: int) {
    Items(rows) == multiset(boxes) && RowsGood(rows, top)
  }

  lemma SplitLast(sorted: seq<Box>) returns (front: seq<Box>, last: Box)
    requires sorted != [] && TopsAscend(sorted)
    ensures front == sorted[..|sorted| - 1] && last == sorted[|sorted| - 1] && sorted == front + [last]
    ensures TopsAscend(front) && (front != [] ==> front[|front| - 1].y0 <= last.y0)
  {
    front, last := sorted[..|sorted| - 1], sorted[|sorted| - 1];
  }

  lemma {:induction false} RowsKeep(sorted: seq<Box>, top: int)
    requires TopsAscend(sorted) && (sorted != [] ==> sorted[|sorted| - 1].y0 <= top)
    ensures RowsHold(RowsOf(sorted), sorted, top)
  {
    if sorted == [] {
      assert RowsHold([], [], top);
    } else {
      var front, last := SplitLast(sorted);
      RowsKeep(front, last.y0);
      RowsMore(RowsOf(front), front, last, RowsOf(sorted), sorted, top);
    }
  }

  lemma RowsMore(rows: seq<RowOfBoxes>, boxes: seq<Box>, b: Box, after: seq<RowOfBoxes>, more: seq<Box>, top: int)
    requires RowsHold(rows, boxes, b.y0) && b.y0 <= top && after == AddToRows(rows, b) && more == boxes + [b]
    ensures RowsHold(after, more, top)
  {
    AddToRowsItems(rows, b);
    AddToRowsKeeps(rows, b);
    RowsGoodBelow(after, b.y0, top);
  }

  lemma RowsGoodBelow(rows: seq<RowOfBoxes>, top: int, lower: int)
    requires RowsGood(rows, top) && top <= lower
    ensures RowsGood(rows, lower)
  {
  }

  lemma {:induction false} FlattenKeeps(rows: seq<RowOfBoxes>)
    ensures multiset(Flatten(rows)) == Items(rows)
  {
    if rows != [] {
      FlattenKeeps(rows[..|rows| - 1]);
      Sorting.Sorts(rows[|rows| - 1].items, Left());
    }
  }

  /** Row `k` is what stands in `out` from `starts[k]` to `starts[k + 1]`, left to right. */
  ghost predicate RowAt(out: seq<Box>, starts: seq<nat>, k: nat, r: RowOfBoxes)
    requires k + 1 < |starts|
  {
    starts[k] <= starts[k + 1] <= |out| && out[starts[k]..starts[k + 1]] == Sorting.SortBy(r.items, Left())
  }

  /** `out` is the rows one after another. */
  ghost predicate InTurn(out: seq<Box>, starts: seq<nat>, rows: seq<RowOfBoxes>) {
    && |starts| == |rows| + 1 && starts[0] == 0 && starts[|rows|] == |out|
    && forall k :: 0 <= k < |rows| ==> RowAt(out, starts, k, rows[k])
  }

  lemma {:induction false} FlattenInTurn(rows: seq<RowOfBoxes>) returns (starts: seq<nat>)
    ensures InTurn(Flatten(rows), starts, rows)
  {
    if rows == [] {
      starts := [0];
    } else {
      var n := |rows| - 1;
      var front := FlattenInTurn(rows[..n]);
      var out := Flatten(rows);
      starts := front + [|out|];
      forall k | 0 <= k < |rows| ensures RowAt(out, starts, k, rows[k]) {
        if k < n {
          assert RowAt(Flatten(rows[..n]), front, k, rows[..n][k]);
          assert out[starts[k]..starts[k + 1]] == Flatten(rows[..n])[front[k]..front[k + 1]];
        }
      }
    }
  }

  // ---- what shares a row ----

  ghost predicate Within(list: seq<nat>, n: nat) { forall i :: 0 <= i < |list| ==> list[i] < n }

  /** The row that the boxes numbered in `list` make, in that order. */
  ghost function Stack(sorted: seq<Box>, list: seq<nat>): RowOfBoxes
    requires list != [] && Within(list, |sorted|)
  {
    var n := |list| - 1;
    var b := sorted[list[n]];
    if n == 0 then RowOfBoxes(b.y0, b.y1, [b]) else Joined(Stack(sorted, list[..n]), b)
  }

  /** What of a row had come before box `j`. */
  ghost function Before(list: seq<nat>, j: nat): (r: seq<nat>)
    ensures Within(r, j)
  {
    if list == [] then []
    else Before(list[..|list| - 1], j) + (if list[|list| - 1] < j then [list[|list| - 1]] else [])
  }

  /** Whether box `j`, at its turn, overlapped the row `list` by half. */
  ghost predicate Suits(sorted: seq<Box>, list: seq<nat>, j: nat)
    requires j < |sorted| && Before(list, j) != []
  {
    Fits(Stack(sorted, Before(list, j)), sorted[j])
  }

  /**
   * Box `j` is in row `k` by right: every earlier row was open at its turn and did not suit it, and row `k`
   * suited it unless it opened that row itself.
   */
  ghost predicate Placed(sorted: seq<Box>, rows: seq<seq<nat>>, k: nat, j: nat)
    requires k < |rows| && j < |sorted|
  {
    && (forall q :: 0 <= q < k ==> Before(rows[q], j) != [] && !Suits(sorted, rows[q], j))
    && (Before(rows[k], j) != [] ==> Suits(sorted, rows[k], j))
  }

  ghost predicate InARow(rows: seq<seq<nat>>, j: nat) { exists k :: 0 <= k < |rows| && j in rows[k] }

  /** The numbers below `n`, each in a row, and there by right; each row in the order they came. */
  ghost predicate Grouped(sorted: seq<Box>, rows: seq<seq<nat>>, n: nat)
    requires n <= |sorted|
  {
    && (forall k :: 0 <= k < |rows| ==> rows[k] != [] && Within(rows[k], n) && Climbs(rows[k]))
    && (forall k, j :: 0 <= k < |rows| && j in rows[k] ==> Placed(sorted, rows, k, j))
    && (forall j: nat :: j < n ==> InARow(rows, j))
  }

  ghost predicate Climbs(list: seq<nat>) { forall i, j :: 0 <= i < j < |list| ==> list[i] < list[j] }

  /** No box is in two rows. */
  lemma PlacedOnce(sorted: seq<Box>, rows: seq<seq<nat>>, k: nat, m: nat, j: nat)
    requires Grouped(sorted, rows, |sorted|) && k < |rows| && m < |rows| && j in rows[k] && j in rows[m]
    ensures k == m
  {
    assert Within(rows[k], |sorted|);
    assert Placed(sorted, rows, k, j) && Placed(sorted, rows, m, j);
  }

  lemma {:induction false} BeforeAll(list: seq<nat>, j: nat)
    requires Within(list, j)
    ensures Before(list, j) == list
  {
    if list != [] {
      var n := |list| - 1;
      BeforeAll(list[..n], j);
    }
  }

  lemma BeforeNext(list: seq<nat>, n: nat, j: nat)
    requires j <= n
    ensures Before(list + [n], j) == Before(list, j)
  {
    assert (list + [n])[..|list|] == list;
  }

  lemma StackNext(sorted: seq<Box>, list: seq<nat>, n: nat)
    requires n < |sorted| && Within(list, |sorted|)
    ensures Within(list + [n], |sorted|)
    ensures Stack(sorted, list + [n]) == if list == [] then RowOfBoxes(sorted[n].y0, sorted[n].y1, [sorted[n]]) else Joined(Stack(sorted, list), sorted[n])
  {
    assert (list + [n])[..|list|] == list;
  }

  /** Box `n` put where the first row it fits stands. */
  ghost function Put(rows: seq<seq<nat>>, k: nat, n: nat): seq<seq<nat>>
    requires k <= |rows|
  {
    if k < |rows| then rows[k := rows[k] + [n]] else rows + [[n]]
  }

  /** `stacks` are the rows that the numbers in `rows` make. */
  ghost predicate Stacked(sorted: seq<Box>, rows: seq<seq<nat>>, stacks: seq<RowOfBoxes>) {
    |rows| == |stacks|
    && forall k :: 0 <= k < |rows| ==> rows[k] != [] && Within(rows[k], |sorted|) && stacks[k] == Stack(sorted, rows[k])
  }

  /** The rows by number, beside the rows by box. */
  ghost function RowsBy(sorted: seq<Box>, n: nat): (rows: seq<seq<nat>>)
    requires n <= |sorted|
  {
    if n == 0 then []
    else
      var rows, k := RowsBy(sorted, n - 1), FindRow(RowsOf(sorted[..n - 1]), sorted[n - 1]);
      if k <= |rows| then Put(rows, k, n - 1) else rows
  }

  /** What was there by right stays there by right. */
  lemma OldStaysPlaced(sorted: seq<Box>, rows: seq<seq<nat>>, at: nat, n: nat, k: nat, j: nat)
    requires k < |rows| && at <= |rows| && j < n < |sorted| && Placed(sorted, rows, k, j)
    ensures Placed(sorted, Put(rows, at, n), k, j)
  {
    var after := Put(rows, at, n);
    forall q | 0 <= q <= k ensures Before(after[q], j) == Before(rows[q], j) {
      if q == at { BeforeNext(rows[at], n, j); }
    }
  }

  /** And so is the new box. */
  lemma NewIsPlaced(sorted: seq<Box>, rows: seq<seq<nat>>, stacks: seq<RowOfBoxes>, n: nat)
    requires n < |sorted| && Stacked(sorted, rows, stacks) && forall k :: 0 <= k < |rows| ==> Within(rows[k], n)
    ensures var at := FindRow(stacks, sorted[n]); Placed(sorted, Put(rows, at, n), at, n)
  {
    var at := FindRow(stacks, sorted[n]);
    var after := Put(rows, at, n);
    forall q | 0 <= q <= at && q < |rows| ensures Before(after[q], n) == rows[q] {
      BeforeAll(rows[q], n);
      if q == at { BeforeNext(rows[at], n, n); }
    }
    if at == |rows| { BeforeNext([], n, n); }
  }

  lemma PutKeepsShape(rows: seq<seq<nat>>, at: nat, n: nat)
    requires at <= |rows| && forall k :: 0 <= k < |rows| ==> rows[k] != [] && Within(rows[k], n) && Climbs(rows[k])
    requires forall j: nat :: j < n ==> InARow(rows, j)
    ensures var after := Put(rows, at, n);
            && (forall k :: 0 <= k < |after| ==> after[k] != [] && Within(after[k], n + 1) && Climbs(after[k]))
            && (forall j: nat :: j < n + 1 ==> InARow(after, j))
  {
    var after := Put(rows, at, n);
    forall j: nat | j < n + 1 ensures InARow(after, j) {
      if j == n {
        assert n in after[at];
      } else {
        assert InARow(rows, j);
        var k :| 0 <= k < |rows| && j in rows[k];
        assert j in after[k];
      }
    }
  }

  lemma StackedNext(sorted: seq<Box>, rows: seq<seq<nat>>, stacks: seq<RowOfBoxes>, n: nat)
    requires n < |sorted| && Stacked(sorted, rows, stacks)
    ensures Stacked(sorted, Put(rows, FindRow(stacks, sorted[n]), n), AddToRows(stacks, sorted[n]))
  {
    var at := FindRow(stacks, sorted[n]);
    StackNext(sorted, if at < |rows| then rows[at] else [], n);
    assert [] + [n] == [n];
    PutStacked(sorted, rows, stacks, at, n, AddToRows(stacks, sorted[n]));
  }

  lemma PutStacked(sorted: seq<Box>, rows: seq<seq<nat>>, stacks: seq<RowOfBoxes>, at: nat, n: nat, after: seq<RowOfBoxes>)
    requires Stacked(sorted, rows, stacks) && at <= |rows| && |after| == |Put(rows, at, n)|
    requires Within(Put(rows, at, n)[at], |sorted|) && after[at] == Stack(sorted, Put(rows, at, n)[at])
    requires forall k :: 0 <= k < |stacks| && k != at ==> after[k] == stacks[k]
    ensures Stacked(sorted, Put(rows, at, n), after)
  {
  }

  lemma GroupedNext(sorted: seq<Box>, rows: seq<seq<nat>>, stacks: seq<RowOfBoxes>, n: nat)
    requires n < |sorted| && Stacked(sorted, rows, stacks) && Grouped(sorted, rows, n)
    ensures Grouped(sorted, Put(rows, FindRow(stacks, sorted[n]), n), n + 1)
  {
    var at := FindRow(stacks, sorted[n]);
    var after := Put(rows, at, n);
    PutKeepsShape(rows, at, n);
    NewIsPlaced(sorted, rows, stacks, n);
    forall k, j | 0 <= k < |after| && j in after[k] ensures Placed(sorted, after, k, j) {
      if j < n {
        assert j in rows[k];
        OldStaysPlaced(sorted, rows, at, n, k, j);
      } else {
        assert Within(after[k], n + 1);
        assert k == at;
      }
    }
  }

  /** The rows found are rows by right. */
  lemma {:induction false} RowsAreGrouped(sorted: seq<Box>, n: nat)
    requires n <= |sorted|
    ensures Grouped(sorted, RowsBy(sorted, n), n) && Stacked(sorted, RowsBy(sorted, n), RowsOf(sorted[..n]))
  {
    if n > 0 {
      RowsAreGrouped(sorted, n - 1);
      var rows, stacks := RowsBy(sorted, n - 1), RowsOf(sorted[..n - 1]);
      assert sorted[..n][..n - 1] == sorted[..n - 1];
      StackedNext(sorted, rows, stacks, n - 1);
      GroupedNext(sorted, rows, stacks, n - 1);
    }
  }

  /** `out` reads `boxes` row by row: sorted by top, grouped into rows by overlap, rows by top, each left to right. */
  ghost predicate ReadByRows(boxes: seq<Box>, out: seq<Box>) {
    exists sorted, rows, stacks, starts :: InRows(boxes, out, sorted, rows, stacks, starts)
  }

  ghost predicate InRows(boxes: seq<Box>, out: seq<Box>, sorted: seq<Box>, rows: seq<seq<nat>>, stacks: seq<RowOfBoxes>,
                         starts: seq<nat>) {
    && multiset(sorted) == multiset(boxes) && TopsAscend(sorted)
    && Grouped(sorted, rows, |sorted|) && Stacked(sorted, rows, stacks)
    && RowTopsAscend(stacks) && InTurn(out, starts, stacks)
  }

  /**
   * The order read is a rearrangement of the boxes, row after row: the rows' tops ascend as they were
   * found, so sorting them again changes nothing, and within a row the boxes go left to right.
   */
  lemma ReadingOrderIsByRows(boxes: seq<Box>)
    ensures var rows := Rows(boxes);
            && Sorting.SortBy(rows, RowTop()) == rows && multiset(Flatten(rows)) == multiset(boxes)
            && (forall r :: r in rows ==> RowIsTight(r) && LeftsAscend(Sorting.SortBy(r.items, Left())))
            && ReadByRows(boxes, Flatten(rows))
  {
    var stacks, sorted := Rows(boxes), Sorting.SortBy(boxes, Top());
    Sorting.Sorts(boxes, Top());
    forall j, k | 0 <= j < k < |sorted| ensures sorted[j].y0 <= sorted[k].y0 { assert Top()(sorted[j]) <= Top()(sorted[k]); }
    RowsKeep(sorted, if sorted == [] then 0 else sorted[|sorted| - 1].y0);
    assert Sorting.Ascending(stacks, RowTop());
    Sorting.SortedIsKept(stacks, RowTop());
    FlattenKeeps(stacks);
    forall r | r in stacks ensures LeftsAscend(Sorting.SortBy(r.items, Left())) { LeftToRight(r); }
    RowsAreGrouped(sorted, |sorted|);
    assert sorted[..|sorted|] == sorted;
    var starts := FlattenInTurn(stacks);
    assert InRows(boxes, Flatten(stacks), sorted, RowsBy(sorted, |sorted|), stacks, starts);
  }

  lemma LeftToRight(r: RowOfBoxes)
    ensures LeftsAscend(Sorting.SortBy(r.items, Left()))
  {
    Sorting.Sorts(r.items, Left());
    var items := Sorting.SortBy(r.items, Left());
    forall j, k | 0 <= j < k < |items| ensures items[j].x0 <= items[k].x0 { assert Left()(items[j]) <= Left()(items[k]); }
  }

  /** Rows by overlap of their vertical extents, then left to right within each. */
  method ReadingOrder(boxes: seq<Box>) returns (out: seq<Box>)
    ensures multiset(out) == multiset(boxes) && ReadByRows(boxes, out)
  {
    var sorted := Sorting.SortBy(boxes, Top());
    var rows: seq<RowOfBoxes> := [];
    for k := 0 to |sorted|
      invariant rows == RowsOf(sorted[..k])
    {
      assert sorted[..k + 1][..k] == sorted[..k];
      var b := sorted[k];
      var at := FindRow(rows, b);
      if at < |rows| {
        rows := rows[at := RowOfBoxes(Min(rows[at].y0, b.y0), Max(rows[at].y1, b.y1), rows[at].items + [b])];
      } else {
        rows := rows + [RowOfBoxes(b.y0, b.y1, [b])];
      }
    }
    assert sorted[..|sorted|] == sorted;
    rows := Sorting.SortBy(rows, RowTop());
    out := Flatten(rows);
    ReadingOrderIsByRows(boxes);
  }
}
