/** From the "not paper" mask of a scanned sheet to its sticks, in reading order. */
module Sheet {
  import opened Grid
  import opened Connectivity
  import Morph
  import Components
  import opened Boxes
  import opened Arithmetic
  import Sequences
  import Sorting

  const MAX_SHEET_STICKS := 30

  /** At least 0.4 % of the page, and at least 3 % of its short side across. */
  predicate Big(c: Components.Component, w: nat, h: nat) {
    1000 * c.area >= 4 * (w * h) && 100 * Min(c.x1 - c.x0, c.y1 - c.y0) >= 3 * Min(w, h)
  }

  /** As shares of the page: 0.004 of its area, and 0.03 of its short side. */
  lemma BigIsAShare(c: Components.Component, w: nat, h: nat)
    ensures Big(c, w, h) <==>
            c.area as real >= 0.004 * (w * h) as real && Min(c.x1 - c.x0, c.y1 - c.y0) as real >= 0.03 * Min(w, h) as real
  {
    var side, page := Min(c.x1 - c.x0, c.y1 - c.y0), Min(w, h);
    assert side as real >= 0.03 * page as real <==> 100 * side >= 3 * page;
  }

  function BoxOf(c: Components.Component): Box { Box(c.x0, c.y0, c.x1, c.y1) }

  function BigBoxes(cs: seq<Components.Component>, w: nat, h: nat): seq<Box> {
    if cs == [] then []
    else BigBoxes(cs[..|cs| - 1], w, h) + (if Big(cs[|cs| - 1], w, h) then [BoxOf(cs[|cs| - 1])] else [])
  }

  lemma {:induction false} BigBoxesMembers(cs: seq<Components.Component>, w: nat, h: nat)
    ensures forall b :: b in BigBoxes(cs, w, h) <==> exists c :: c in cs && Big(c, w, h) && b == BoxOf(c)
  {
    if cs != [] {
      var k := |cs| - 1;
      assert cs == cs[..k] + [cs[k]];
      BigBoxesMembers(cs[..k], w, h);
    }
  }

  function BySize(): Box -> int { (b: Box) => 0 - Area(b) }

  /** The largest boxes, when there are more than the cap. */
  function Capped(boxes: seq<Box>): seq<Box> {
    if |boxes| > MAX_SHEET_STICKS then Sorting.SortBy(boxes, BySize())[..MAX_SHEET_STICKS] else boxes
  }

  /** No pixel in two of them. */
  ghost predicate Disjoint(boxes: seq<Box>) {
    forall i, j, x, y :: 0 <= i < j < |boxes| ==> !HasPoint(boxes[i], x, y) || !HasPoint(boxes[j], x, y)
  }

  lemma ApartDisjoint(boxes: seq<Box>, halves: int)
    requires Apart(boxes, halves)
    ensures Disjoint(boxes)
  {
    forall i, j, x, y | 0 <= i < j < |boxes| ensures !HasPoint(boxes[i], x, y) || !HasPoint(boxes[j], x, y) {
      ApartIsDisjoint(boxes, halves, i, j, x, y);
    }
  }

  lemma {:induction false} TwoPlaces<T>(s: seq<T>, x: T) returns (i: nat, j: nat)
    requires multiset(s)[x] >= 2
    ensures i < j < |s| && s[i] == x && s[j] == x
  {
    var k := |s| - 1;
    assert s == s[..k] + [s[k]];
    if s[k] == x {
      assert x in multiset(s[..k]);
      i :| 0 <= i < k && s[i] == x;
      j := k;
    } else {
      i, j := TwoPlaces(s[..k], x);
    }
  }

  /** Taking some of the boxes, in any order, leaves them unmerged. */
  lemma RearrangedApart(boxes: seq<Box>, out: seq<Box>, halves: int)
    requires Apart(boxes, halves) && forall b :: multiset(out)[b] <= multiset(boxes)[b]
    ensures Apart(out, halves)
  {
    forall i, j | 0 <= i < j < |out| ensures !ShouldMerge(out[i], out[j], halves) {
      if out[i] == out[j] {
        Sequences.Twice(out, i, j);
        var p, q := TwoPlaces(boxes, out[i]);
        ApartAt(boxes, halves, p, q);
      } else {
        assert out[i] in multiset(out) && out[j] in multiset(out);
        assert out[i] in multiset(boxes) && out[j] in multiset(boxes);
        var p :| 0 <= p < |boxes| && boxes[p] == out[i];
        var q :| 0 <= q < |boxes| && boxes[q] == out[j];
        ApartAt(boxes, halves, p, q);
      }
    }
  }

  lemma ApartAt(boxes: seq<Box>, halves: int, i: nat, j: nat)
    requires Apart(boxes, halves) && i < |boxes| && j < |boxes| && i != j
    ensures !ShouldMerge(boxes[i], boxes[j], halves)
  {
    MergeIsSymmetric(boxes[i], boxes[j], halves);
  }

  /** At most 30 are kept, each as often as it was there, and nothing dropped is larger than anything kept. */
  lemma CappedIsLargest(boxes: seq<Box>)
    ensures |Capped(boxes)| == if |boxes| < 30 then |boxes| else 30
    ensures forall b :: multiset(Capped(boxes))[b] <= multiset(boxes)[b]
    ensures forall b, d :: b in Capped(boxes) && multiset(Capped(boxes))[d] < multiset(boxes)[d] ==>
              (d.x1 - d.x0) * (d.y1 - d.y0) <= (b.x1 - b.x0) * (b.y1 - b.y0)
  {
    if |boxes| > MAX_SHEET_STICKS {
      var sorted := Sorting.SortBy(boxes, BySize());
      Sorting.Sorts(boxes, BySize());
      var kept, dropped := sorted[..MAX_SHEET_STICKS], sorted[MAX_SHEET_STICKS..];
      assert sorted == kept + dropped;
      forall b, d | b in kept && multiset(kept)[d] < multiset(boxes)[d]
        ensures (d.x1 - d.x0) * (d.y1 - d.y0) <= (b.x1 - b.x0) * (b.y1 - b.y0)
      {
        assert d in multiset(dropped);
        var i :| 0 <= i < |kept| && kept[i] == b;
        var j :| 0 <= j < |dropped| && dropped[j] == d;
        assert sorted[i] == b && sorted[MAX_SHEET_STICKS + j] == d;
        assert BySize()(b) <= BySize()(d);
      }
    }
  }

  /** A big component reaches each side of the box, and does not leave it. */
  ghost predicate Reached(cs: seq<Components.Component>, w: nat, h: nat, b: Box) {
    && (exists c :: c in cs && Big(c, w, h) && Holds(b, BoxOf(c)) && c.x0 == b.x0)
    && (exists c :: c in cs && Big(c, w, h) && Holds(b, BoxOf(c)) && c.y0 == b.y0)
    && (exists c :: c in cs && Big(c, w, h) && Holds(b, BoxOf(c)) && c.x1 == b.x1)
    && (exists c :: c in cs && Big(c, w, h) && Holds(b, BoxOf(c)) && c.y1 == b.y1)
  }

  lemma BigOf(cs: seq<Components.Component>, w: nat, h: nat, i: nat) returns (c: Components.Component)
    requires i < |BigBoxes(cs, w, h)|
    ensures c in cs && Big(c, w, h) && BoxOf(c) == BigBoxes(cs, w, h)[i]
  {
    BigBoxesMembers(cs, w, h);
    assert BigBoxes(cs, w, h)[i] in BigBoxes(cs, w, h);
    c :| c in cs && Big(c, w, h) && BoxOf(c) == BigBoxes(cs, w, h)[i];
  }

  lemma HullIsReached(cs: seq<Components.Component>, w: nat, h: nat, group: set<nat>, b: Box)
    requires IsHull(BigBoxes(cs, w, h), group, b)
    ensures Reached(cs, w, h, b)
  {
    var big := BigBoxes(cs, w, h);
    var i :| i in group && i < |big| && big[i].x0 == b.x0;
    var c := BigOf(cs, w, h, i);
    i :| i in group && i < |big| && big[i].y0 == b.y0;
    c := BigOf(cs, w, h, i);
    i :| i in group && i < |big| && big[i].x1 == b.x1;
    c := BigOf(cs, w, h, i);
    i :| i in group && i < |big| && big[i].y1 == b.y1;
    c := BigOf(cs, w, h, i);
  }

  lemma SomeReached(cs: seq<Components.Component>, w: nat, h: nat, groups: seq<set<nat>>, merged: seq<Box>, out: seq<Box>)
    requires Hulls(BigBoxes(cs, w, h), groups, merged) && forall b :: multiset(out)[b] <= multiset(merged)[b]
    ensures forall b :: b in out ==> Reached(cs, w, h, b)
  {
    forall b | b in out ensures Reached(cs, w, h, b) {
      assert b in multiset(out) && b in multiset(merged);
      var k :| 0 <= k < |merged| && merged[k] == b;
      HullIsReached(cs, w, h, groups[k], b);
    }
  }

  /** The component of pixel `i` in the closed mask. */
  ghost predicate InBigComponent(closed: seq<Bit>, w: nat, h: nat, i: nat)
    requires w > 0
  {
    exists c :: Components.Describes(w, h, ClassOf(closed, w, i), c) && Big(c, w, h)
  }

  ghost predicate InBox(w: nat, b: Box, i: nat)
    requires w > 0
  {
    HasPoint(b, Col(w, i), Row(w, i))
  }

  lemma DescribesOnce(w: nat, h: nat, s: set<nat>, c: Components.Component, d: Components.Component)
    requires w > 0 && Components.Describes(w, h, s, c) && Components.Describes(w, h, s, d)
    ensures c == d
  {
    var t :| t in s && Col(w, t) == c.x0;
    var u :| u in s && Col(w, u) == d.x0;
    assert c.x0 == d.x0;
    t :| t in s && Row(w, t) == c.y0;
    u :| u in s && Row(w, u) == d.y0;
    assert c.y0 == d.y0;
    t :| t in s && Col(w, t) == c.x1 - 1;
    u :| u in s && Col(w, u) == d.x1 - 1;
    assert c.x1 == d.x1;
    t :| t in s && Row(w, t) == c.y1 - 1;
    u :| u in s && Row(w, u) == d.y1 - 1;
  }

  /** The component of a pixel that lies in a big one is listed, big, and covers it. */
  lemma ComponentCovers(closed: seq<Bit>, w: nat, h: nat, cs: seq<Components.Component>, i: nat) returns (k: nat)
    requires w > 0 && IsSet(closed, i) && InBigComponent(closed, w, h, i)
    requires Components.DescribesAll(closed, w, h, Components.Leaders(closed, w, |closed|), cs)
    ensures k < |cs| && Big(cs[k], w, h) && InBox(w, BoxOf(cs[k]), i)
  {
    var leaders := Components.Leaders(closed, w, |closed|);
    k := Components.InSomeClass(closed, w, i);
    Components.ClassMembersAgree(closed, w, leaders[k], i);
    Components.InOwnClass(closed, w, i);
    var s := ClassOf(closed, w, i);
    assert Components.Describes(w, h, s, cs[k]);
    var c :| Components.Describes(w, h, s, c) && Big(c, w, h);
    DescribesOnce(w, h, s, c, cs[k]);
    CoversMember(w, h, s, c, i);
  }

  lemma CoversMember(w: nat, h: nat, s: set<nat>, c: Components.Component, i: nat)
    requires w > 0 && Components.Describes(w, h, s, c) && i in s
    ensures InBox(w, BoxOf(c), i)
  {
  }

  lemma BigBoxListed(cs: seq<Components.Component>, w: nat, h: nat, k: nat) returns (m: nat)
    requires k < |cs| && Big(cs[k], w, h)
    ensures m < |BigBoxes(cs, w, h)| && BigBoxes(cs, w, h)[m] == BoxOf(cs[k])
  {
    BigBoxesMembers(cs, w, h);
    assert cs[k] in cs;
    assert BoxOf(cs[k]) in BigBoxes(cs, w, h);
    m :| 0 <= m < |BigBoxes(cs, w, h)| && BigBoxes(cs, w, h)[m] == BoxOf(cs[k]);
  }

  /** A pixel of a big component lies in the merged box that took its component's box in. */
  lemma MergedCovers(closed: seq<Bit>, w: nat, h: nat, cs: seq<Components.Component>, groups: seq<set<nat>>, merged: seq<Box>, i: nat)
    requires w > 0 && IsSet(closed, i) && InBigComponent(closed, w, h, i)
    requires Components.DescribesAll(closed, w, h, Components.Leaders(closed, w, |closed|), cs)
    requires Partition(groups, |BigBoxes(cs, w, h)|) && Hulls(BigBoxes(cs, w, h), groups, merged)
    ensures InSomeBox(w, merged, i)
  {
    var k := ComponentCovers(closed, w, h, cs, i);
    var m := BigBoxListed(cs, w, h, k);
    var big := BigBoxes(cs, w, h);
    var n := InsideItsHull(big, groups, merged, m);
    HoldsCovers(w, merged[n], big[m], i);
    assert merged[n] in merged;
  }

  lemma HoldsCovers(w: nat, outer: Box, inner: Box, i: nat)
    requires w > 0 && Holds(outer, inner) && InBox(w, inner, i)
    ensures InBox(w, outer, i)
  {
  }

  ghost predicate InSomeBox(w: nat, out: seq<Box>, i: nat)
    requires w > 0
  {
    exists b :: b in out && InBox(w, b, i)
  }

  lemma InSomeBoxRearranged(w: nat, boxes: seq<Box>, out: seq<Box>, i: nat)
    requires w > 0 && InSomeBox(w, boxes, i) && multiset(boxes) == multiset(out)
    ensures InSomeBox(w, out, i)
  {
    var b :| b in boxes && InBox(w, b, i);
    assert b in multiset(out);
  }

  /** The order is the same for any rearrangement of the boxes as it is for the result itself. */
  lemma ReadAgain(boxes: seq<Box>, out: seq<Box>)
    requires multiset(out) == multiset(boxes) && ReadByRows(boxes, out)
    ensures ReadByRows(out, out)
  {
    var sorted, rows, stacks, starts :| InRows(boxes, out, sorted, rows, stacks, starts);
    assert InRows(out, out, sorted, rows, stacks, starts);
  }

  /**
   * Close, label, drop the small, merge, cap, order. The components are those of the closed mask; the big ones'
   * boxes are merged as long as two of them should be, and the 30 largest are read row by row. So they share no
   * pixel and each is reached on every side by a big component; unless the cap cut some, every set pixel of the
   * mask that ends up in a big component lies in exactly one of them.
   */
  method SegmentMask(mask: seq<Bit>, w: nat, h: nat, r: nat)
    returns (out: seq<Box>, ghost cs: seq<Components.Component>, ghost merged: seq<Box>, ghost groups: seq<set<nat>>, ghost merges: seq<Merge>)
    requires w > 0 && |mask| == w * h
    ensures var closed := Morph.Closed(mask, w, h, r);
            |closed| == w * h && Components.DescribesAll(closed, w, h, Components.Leaders(closed, w, |closed|), cs)
    ensures Partition(groups, |BigBoxes(cs, w, h)|) && Hulls(BigBoxes(cs, w, h), groups, merged) && Apart(merged, 1)
    ensures AllGrown(BigBoxes(cs, w, h), groups, merged, merges, 1)
    ensures multiset(out) == multiset(Capped(merged)) && ReadByRows(out, out)
    ensures |out| <= MAX_SHEET_STICKS && Apart(out, 1) && Disjoint(out)
    ensures forall b :: b in out ==> Reached(cs, w, h, b)
    ensures |out| < MAX_SHEET_STICKS ==>
              forall i: nat :: IsSet(mask, i) && InBigComponent(Morph.Closed(mask, w, h, r), w, h, i) ==> InSomeBox(w, out, i)
  {
    var grown := Morph.Apply(mask, w, h, r, Morph.Dilate);
    var shrunk := Morph.Apply(grown[..], w, h, r, Morph.Erode);
    ghost var closed := Morph.Closed(mask, w, h, r);
    assert shrunk[..] == closed;
    var found := Components.Find(shrunk[..], w, h);
    cs := found;
    var big := BigBoxes(found, w, h);
    var boxes;
    boxes, groups, merges := MergeAligned(big, 1);
    merged := boxes;
    var kept := Capped(boxes);
    out := ReadingOrder(kept);
    ReadAgain(kept, out);
    CappedIsLargest(merged);
    RearrangedApart(merged, out, 1);
    ApartDisjoint(out, 1);
    SomeReached(cs, w, h, groups, merged, out);
    assert |multiset(out)| == |multiset(kept)|;
    if |out| < MAX_SHEET_STICKS {
      AllCovered(mask, closed, w, h, r, cs, groups, merged, out);
    }
  }

  lemma AllCovered(mask: seq<Bit>, closed: seq<Bit>, w: nat, h: nat, r: nat, cs: seq<Components.Component>,
                   groups: seq<set<nat>>, merged: seq<Box>, out: seq<Box>)
    requires w > 0 && |mask| == w * h && closed == Morph.Closed(mask, w, h, r)
    requires Components.DescribesAll(closed, w, h, Components.Leaders(closed, w, |closed|), cs)
    requires Partition(groups, |BigBoxes(cs, w, h)|) && Hulls(BigBoxes(cs, w, h), groups, merged)
    requires multiset(merged) == multiset(out)
    ensures forall i: nat :: IsSet(mask, i) && InBigComponent(closed, w, h, i) ==> InSomeBox(w, out, i)
  {
    Morph.CloseContains(mask, w, h, r);
    forall i: nat | IsSet(mask, i) && InBigComponent(closed, w, h, i) ensures InSomeBox(w, out, i) {
      MergedCovers(closed, w, h, cs, groups, merged, i);
      InSomeBoxRearranged(w, merged, out, i);
    }
  }
}
