/** Which pixels of a mask hang together: paths of set pixels through the four sides. */
module Connectivity {
  import opened Arithmetic
  import opened Grid

  /** Side by side: one step apart along a row or along a column. */
  ghost predicate Neighbours(w: nat, i: nat, j: nat)
    requires w > 0
  {
    Abs(Col(w, i) - Col(w, j)) + Abs(Row(w, i) - Row(w, j)) == 1
  }

  ghost predicate IsSet(mask: seq<Bit>, i: nat) { i < |mask| && mask[i] == 1 }

  ghost predicate Path(mask: seq<Bit>, w: nat, p: seq<nat>)
    requires w > 0
  {
    && p != []
    && (forall k :: 0 <= k < |p| ==> IsSet(mask, p[k]))
    && (forall k :: 0 <= k < |p| - 1 ==> Neighbours(w, p[k], p[k + 1]))
  }

  ghost predicate Connected(mask: seq<Bit>, w: nat, i: nat, j: nat)
    requires w > 0
  {
    exists p :: Path(mask, w, p) && p[0] == i && p[|p| - 1] == j
  }

  /** The 4-connected class of a pixel. */
  ghost function ClassOf(mask: seq<Bit>, w: nat, i: nat): set<nat>
    requires w > 0
  {
    set j: nat | j < |mask| && Connected(mask, w, i, j)
  }

  lemma ConnectedToItself(mask: seq<Bit>, w: nat, i: nat)
    requires w > 0 && IsSet(mask, i)
    ensures Connected(mask, w, i, i)
  {
    assert Path(mask, w, [i]);
  }

  lemma ConnectedStep(mask: seq<Bit>, w: nat, i: nat, j: nat, k: nat)
    requires w > 0 && Connected(mask, w, i, j) && IsSet(mask, k) && Neighbours(w, j, k)
    ensures Connected(mask, w, i, k)
  {
    var p :| Path(mask, w, p) && p[0] == i && p[|p| - 1] == j;
    assert Path(mask, w, p + [k]);
  }

  lemma ConnectedEnds(mask: seq<Bit>, w: nat, i: nat, j: nat)
    requires w > 0 && Connected(mask, w, i, j)
    ensures IsSet(mask, i) && IsSet(mask, j)
  {
  }

  /** A set of pixels that keeps the set neighbours of its members keeps whatever a path reaches. */
  lemma {:induction false} PathStays(mask: seq<Bit>, w: nat, p: seq<nat>, s: set<nat>)
    requires w > 0 && Path(mask, w, p) && p[0] in s
    requires forall i, j :: i in s && IsSet(mask, j) && Neighbours(w, i, j) ==> j in s
    ensures p[|p| - 1] in s
  {
    if |p| > 1 {
      assert Neighbours(w, p[0], p[1]);
      var rest := p[1..];
      forall k | 0 <= k < |rest| - 1 ensures Neighbours(w, rest[k], rest[k + 1]) {
        assert Neighbours(w, p[k + 1], p[k + 2]);
      }
      PathStays(mask, w, rest, s);
    }
  }

  lemma ClosedHoldsClass(mask: seq<Bit>, w: nat, i: nat, s: set<nat>)
    requires w > 0 && i in s
    requires forall i, j :: i in s && IsSet(mask, j) && Neighbours(w, i, j) ==> j in s
    ensures ClassOf(mask, w, i) <= s
  {
    forall j | j in ClassOf(mask, w, i) ensures j in s {
      var p :| Path(mask, w, p) && p[0] == i && p[|p| - 1] == j;
      PathStays(mask, w, p, s);
    }
  }

  lemma ClassIsClosed(mask: seq<Bit>, w: nat, i: nat, j: nat, k: nat)
    requires w > 0 && j in ClassOf(mask, w, i) && IsSet(mask, k) && Neighbours(w, j, k)
    ensures k in ClassOf(mask, w, i)
  {
    ConnectedStep(mask, w, i, j, k);
  }

  lemma ConnectedBack(mask: seq<Bit>, w: nat, i: nat, j: nat)
    requires w > 0 && Connected(mask, w, i, j)
    ensures Connected(mask, w, j, i)
  {
    var p :| Path(mask, w, p) && p[0] == i && p[|p| - 1] == j;
    var q := seq(|p|, k requires 0 <= k < |p| => p[|p| - 1 - k]);
    forall k | 0 <= k < |q| - 1 ensures Neighbours(w, q[k], q[k + 1]) {
      var m := |p| - 2 - k;
      assert Neighbours(w, p[m], p[m + 1]);
      assert q[k] == p[m + 1] && q[k + 1] == p[m];
    }
    assert Path(mask, w, q) && q[0] == j && q[|q| - 1] == i;
  }

  lemma ConnectedThrough(mask: seq<Bit>, w: nat, i: nat, j: nat, k: nat)
    requires w > 0 && Connected(mask, w, i, j) && Connected(mask, w, j, k)
    ensures Connected(mask, w, i, k)
  {
    var s := ClassOf(mask, w, i);
    forall a, b | a in s && IsSet(mask, b) && Neighbours(w, a, b) ensures b in s { ClassIsClosed(mask, w, i, a, b); }
    ConnectedEnds(mask, w, i, j);
    ClosedHoldsClass(mask, w, j, s);
    ConnectedEnds(mask, w, j, k);
    assert k in ClassOf(mask, w, j);
    assert k in s;
  }

  /** Two classes that share a pixel are one class. */
  lemma ClassesAgree(mask: seq<Bit>, w: nat, i: nat, j: nat, k: nat)
    requires w > 0 && k in ClassOf(mask, w, i) && k in ClassOf(mask, w, j)
    ensures ClassOf(mask, w, i) == ClassOf(mask, w, j)
  {
    ConnectedBack(mask, w, j, k);
    ConnectedThrough(mask, w, i, k, j);
    ConnectedBack(mask, w, i, j);
    forall m: nat | m < |mask| ensures Connected(mask, w, i, m) <==> Connected(mask, w, j, m) {
      if Connected(mask, w, i, m) { ConnectedThrough(mask, w, j, i, m); }
      if Connected(mask, w, j, m) { ConnectedThrough(mask, w, i, j, m); }
    }
  }

  // ---- the four neighbours as the code finds them ----

  lemma {:induction false} Below(w: nat, i: nat)
    requires w > 0
    ensures Col(w, i + w) == Col(w, i) && Row(w, i + w) == Row(w, i) + 1
  {
  }

  lemma {:induction false} RightOf(w: nat, i: nat)
    requires w > 0 && Col(w, i) < w - 1
    ensures Col(w, i + 1) == Col(w, i) + 1 && Row(w, i + 1) == Row(w, i)
  {
    if i >= w { RightOf(w, i - w); }
  }

  lemma {:induction false} LeftOf(w: nat, i: nat)
    requires w > 0 && Col(w, i) > 0
    ensures i > 0 && Col(w, i - 1) == Col(w, i) - 1 && Row(w, i - 1) == Row(w, i)
  {
    if i >= w { LeftOf(w, i - w); }
  }

  lemma Above(w: nat, i: nat)
    requires w > 0 && Row(w, i) > 0
    ensures i >= w && Col(w, i - w) == Col(w, i) && Row(w, i - w) == Row(w, i) - 1
  {
    Below(w, i - w);
  }

  lemma SamePlace(w: nat, i: nat, j: nat)
    requires w > 0 && Col(w, i) == Col(w, j) && Row(w, i) == Row(w, j)
    ensures i == j
  {
    IxOfParts(w, i);
    IxOfParts(w, j);
  }

  /** A neighbour is the pixel before or after in the row, or the one a row up or down. */
  lemma NeighbourCases(w: nat, i: nat, j: nat)
    requires w > 0 && Neighbours(w, i, j)
    ensures (Col(w, i) > 0 && j == i - 1) || (Col(w, i) < w - 1 && j == i + 1)
            || (Row(w, i) > 0 && j == i - w) || j == i + w
  {
    if Row(w, j) == Row(w, i) && Col(w, j) == Col(w, i) + 1 {
      RightOf(w, i);
      SamePlace(w, j, i + 1);
    } else if Row(w, j) == Row(w, i) {
      LeftOf(w, i);
      SamePlace(w, j, i - 1);
    } else if Row(w, j) == Row(w, i) + 1 {
      Below(w, i);
      SamePlace(w, j, i + w);
    } else {
      Above(w, i);
      SamePlace(w, j, i - w);
    }
  }
}
