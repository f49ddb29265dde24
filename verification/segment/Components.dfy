/** Connected components by flood fill on an explicit stack of fixed size. */
module Components {
  import opened Grid
  import opened Connectivity
  import opened Arithmetic

  /** A box in pixels (x1 and y1 exclusive) and the number of set pixels it was drawn around. */
  datatype Component = Component(x0: int, y0: int, x1: int, y1: int, area: nat)

  // ---- the tight box of a set of pixels ----

  ghost predicate Inside(w: nat, s: set<nat>, x0: int, y0: int, x1: int, y1: int)
    requires w > 0
  {
    forall i :: i in s ==> x0 <= Col(w, i) <= x1 && y0 <= Row(w, i) <= y1
  }

  ghost predicate Touched(w: nat, s: set<nat>, x0: int, y0: int, x1: int, y1: int)
    requires w > 0
  {
    && (exists i :: i in s && Col(w, i) == x0) && (exists i :: i in s && Row(w, i) == y0)
    && (exists i :: i in s && Col(w, i) == x1) && (exists i :: i in s && Row(w, i) == y1)
  }

  /** Corners inclusive; no pixel yet leaves the corners where the scan starts. */
  ghost predicate Bounds(w: nat, h: nat, s: set<nat>, x0: int, y0: int, x1: int, y1: int)
    requires w > 0
  {
    && Inside(w, s, x0, y0, x1, y1)
    && (if s == {} then x0 == w && y0 == h && x1 == 0 && y1 == 0 else Touched(w, s, x0, y0, x1, y1))
  }

  /** The component's box fits the pixels exactly, and its area counts them. */
  ghost predicate Describes(w: nat, h: nat, s: set<nat>, c: Component)
    requires w > 0
  {
    s != {} && Bounds(w, h, s, c.x0, c.y0, c.x1 - 1, c.y1 - 1) && c.area == |s|
  }

  lemma BoundsGrow(w: nat, h: nat, s: set<nat>, i: nat, x0: int, y0: int, x1: int, y1: int)
    requires w > 0 && Bounds(w, h, s, x0, y0, x1, y1) && Col(w, i) < w && Row(w, i) < h
    ensures Bounds(w, h, s + {i}, Min(x0, Col(w, i)), Min(y0, Row(w, i)), Max(x1, Col(w, i)), Max(y1, Row(w, i)))
  {
    var t := s + {i};
    assert i in t;
    if s != {} {
      var a :| a in s && Col(w, a) == x0;
      var b :| b in s && Row(w, b) == y0;
      var c :| c in s && Col(w, c) == x1;
      var d :| d in s && Row(w, d) == y1;
      assert a in t && b in t && c in t && d in t;
    }
  }

  // ---- one flood ----

  ghost predicate Distinct(t: seq<nat>) { forall j, k :: 0 <= j < k < |t| ==> t[j] != t[k] }

  /**
   * The state of a flood from `start`: `before` holds the classes already drawn, `stack` the pixels found
   * and not looked at, `done` those looked at, `closed` those whose neighbours were all visited.
   */
  ghost predicate Flood(mask: seq<Bit>, w: nat, start: nat, before: set<nat>, seen: seq<bool>, stack: seq<nat>,
                        done: set<nat>, closed: set<nat>)
    requires w > 0
  {
    && |seen| == |mask| && Distinct(stack) && closed <= done
    && (forall t :: t in stack ==> t !in done)
    && (forall i: nat :: i < |mask| ==> (seen[i] <==> i in before || i in done || i in stack))
    && (forall i: nat :: i in stack || i in done ==> i < |mask| && i !in before && Connected(mask, w, start, i))
    && (forall i: nat, j: nat :: i in closed && IsSet(mask, j) && Neighbours(w, i, j) ==> seen[j])
  }

  ghost function Elements(t: seq<nat>): set<nat> { set i | i in t }

  lemma {:induction false} ElementsCount(t: seq<nat>)
    requires Distinct(t)
    ensures |Elements(t)| == |t|
  {
    if t != [] {
      var k := |t| - 1;
      ElementsCount(t[..k]);
      assert t == t[..k] + [t[k]];
      assert Elements(t) == Elements(t[..k]) + {t[k]};
      assert t[k] !in t[..k];
    }
  }

  lemma {:induction false} SetBelow(s: set<nat>, n: nat)
    requires forall i :: i in s ==> i < n
    ensures |s| <= n
  {
    if n == 0 {
      assert s == {};
    } else {
      SetBelow(s - {n - 1}, n - 1);
      assert n - 1 in s ==> s == (s - {n - 1}) + {n - 1};
      assert n - 1 !in s ==> s == s - {n - 1};
    }
  }

  /** The stack of `w * h` entries has room for every pixel that was not seen yet. */
  lemma RoomLeft(t: seq<nat>, n: nat, j: nat)
    requires Distinct(t) && (forall i :: i in t ==> i < n) && j < n && j !in t
    ensures |t| < n
  {
    ElementsCount(t);
    SetBelow(Elements(t) + {j}, n);
  }

  lemma FloodPush(mask: seq<Bit>, w: nat, start: nat, before: set<nat>, seen: seq<bool>, stack: seq<nat>,
                  done: set<nat>, closed: set<nat>, j: nat)
    requires w > 0 && Flood(mask, w, start, before, seen, stack, done, closed)
    requires j < |mask| && !seen[j] && Connected(mask, w, start, j)
    ensures Flood(mask, w, start, before, seen[j := true], stack + [j], done, closed)
  {
  }

  /** One of the four visits: a set pixel not seen yet is marked and pushed. */
  method Visit(mask: seq<Bit>, w: nat, start: nat, ghost before: set<nat>, seen: array<bool>, stack: array<nat>, top: nat,
               ghost done: set<nat>, ghost closed: set<nat>, j: nat)
    returns (newTop: nat)
    requires w > 0 && seen.Length == stack.Length == |mask| && top <= stack.Length && j < |mask|
    requires seen as object != stack
    requires Flood(mask, w, start, before, seen[..], stack[..top], done, closed)
    requires IsSet(mask, j) ==> Connected(mask, w, start, j)
    modifies seen, stack
    ensures newTop <= stack.Length
    ensures Flood(mask, w, start, before, seen[..], stack[..newTop], done, closed)
    ensures IsSet(mask, j) ==> seen[j]
    ensures forall i :: 0 <= i < seen.Length && old(seen[i]) ==> seen[i]
  {
    newTop := top;
    if mask[j] == 1 && !seen[j] {
      ghost var s, t := seen[..], stack[..top];
      RoomLeft(t, |mask|, j);
      FloodPush(mask, w, start, before, s, t, done, closed, j);
      seen[j] := true;
      stack[top] := j;
      newTop := top + 1;
      assert seen[..] == s[j := true];
      assert stack[..newTop] == t + [j];
    }
  }

  lemma FloodPop(mask: seq<Bit>, w: nat, start: nat, before: set<nat>, seen: seq<bool>, stack: seq<nat>, done: set<nat>)
    requires w > 0 && Flood(mask, w, start, before, seen, stack, done, done) && stack != []
    ensures var k := |stack| - 1; Flood(mask, w, start, before, seen, stack[..k], done + {stack[k]}, done)
  {
    var k := |stack| - 1;
    assert stack == stack[..k] + [stack[k]];
  }

  lemma FloodClose(mask: seq<Bit>, w: nat, start: nat, before: set<nat>, seen: seq<bool>, stack: seq<nat>, done: set<nat>, i: nat)
    requires w > 0 && Flood(mask, w, start, before, seen, stack, done + {i}, done)
    requires forall j: nat :: IsSet(mask, j) && Neighbours(w, i, j) ==> j < |seen| && seen[j]
    ensures Flood(mask, w, start, before, seen, stack, done + {i}, done + {i})
  {
  }

  ghost predicate Visited(mask: seq<Bit>, seen: seq<bool>, j: nat)
    requires |seen| == |mask|
  {
    IsSet(mask, j) ==> seen[j]
  }

  lemma AllVisited(mask: seq<Bit>, w: nat, h: nat, seen: seq<bool>, i: nat)
    requires w > 0 && |seen| == |mask| == w * h && i < |mask|
    requires Col(w, i) > 0 && i > 0 ==> Visited(mask, seen, i - 1)
    requires Col(w, i) < w - 1 ==> Visited(mask, seen, i + 1)
    requires Row(w, i) > 0 && i >= w ==> Visited(mask, seen, i - w)
    requires Row(w, i) < h - 1 ==> Visited(mask, seen, i + w)
    ensures forall j: nat :: IsSet(mask, j) && Neighbours(w, i, j) ==> seen[j]
  {
    forall j: nat | IsSet(mask, j) && Neighbours(w, i, j) ensures seen[j] {
      NeighbourCases(w, i, j);
      RowInside(w, h, j);
      Below(w, i);
    }
  }

  ghost predicate Grown(before: seq<bool>, after: seq<bool>) {
    |before| == |after| && forall k :: 0 <= k < |before| && before[k] ==> after[k]
  }

  /** The neighbours in the pixel's row. */
  method SpreadAlong(mask: seq<Bit>, w: nat, h: nat, start: nat, ghost before: set<nat>, seen: array<bool>, stack: array<nat>, top: nat,
                     ghost done: set<nat>, i: nat, x: nat)
    returns (newTop: nat)
    requires w > 0 && seen.Length == stack.Length == |mask| == w * h && top <= stack.Length && i < |mask| && x == Col(w, i)
    requires seen as object != stack
    requires Flood(mask, w, start, before, seen[..], stack[..top], done + {i}, done)
    modifies seen, stack
    ensures newTop <= stack.Length && Grown(old(seen[..]), seen[..])
    ensures Flood(mask, w, start, before, seen[..], stack[..newTop], done + {i}, done)
    ensures x > 0 && i > 0 ==> Visited(mask, seen[..], i - 1)
    ensures x < w - 1 ==> Visited(mask, seen[..], i + 1)
  {
    newTop := top;
    assert Connected(mask, w, start, i);
    RowInside(w, h, i);
    if x > 0 {
      LeftOf(w, i);
      Reached(mask, w, start, i, i - 1);
      newTop := Visit(mask, w, start, before, seen, stack, newTop, done + {i}, done, i - 1);
    }
    if x < w - 1 {
      RightOf(w, i);
      InPage(w, h, i + 1);
      Reached(mask, w, start, i, i + 1);
      newTop := Visit(mask, w, start, before, seen, stack, newTop, done + {i}, done, i + 1);
    }
  }

  /** The neighbours in the pixel's column. */
  method SpreadAcross(mask: seq<Bit>, w: nat, h: nat, start: nat, ghost before: set<nat>, seen: array<bool>, stack: array<nat>, top: nat,
                      ghost done: set<nat>, i: nat, y: nat)
    returns (newTop: nat)
    requires w > 0 && seen.Length == stack.Length == |mask| == w * h && top <= stack.Length && i < |mask| && y == Row(w, i)
    requires seen as object != stack
    requires Flood(mask, w, start, before, seen[..], stack[..top], done + {i}, done)
    modifies seen, stack
    ensures newTop <= stack.Length && Grown(old(seen[..]), seen[..])
    ensures Flood(mask, w, start, before, seen[..], stack[..newTop], done + {i}, done)
    ensures y > 0 && i >= w ==> Visited(mask, seen[..], i - w)
    ensures y < h - 1 ==> Visited(mask, seen[..], i + w)
  {
    newTop := top;
    assert Connected(mask, w, start, i);
    if y > 0 {
      Above(w, i);
      Reached(mask, w, start, i, i - w);
      newTop := Visit(mask, w, start, before, seen, stack, newTop, done + {i}, done, i - w);
    }
    if y < h - 1 {
      Below(w, i);
      InPage(w, h, i + w);
      Reached(mask, w, start, i, i + w);
      newTop := Visit(mask, w, start, before, seen, stack, newTop, done + {i}, done, i + w);
    }
  }

  /** Looks at pixel `i`: its four neighbours, where the page has them. */
  method Spread(mask: seq<Bit>, w: nat, h: nat, start: nat, ghost before: set<nat>, seen: array<bool>, stack: array<nat>, top: nat,
                ghost done: set<nat>, i: nat)
    returns (newTop: nat)
    requires w > 0 && seen.Length == stack.Length == |mask| == w * h && top <= stack.Length && i < |mask|
    requires seen as object != stack
    requires Flood(mask, w, start, before, seen[..], stack[..top], done + {i}, done)
    modifies seen, stack
    ensures newTop <= stack.Length && Grown(old(seen[..]), seen[..])
    ensures Flood(mask, w, start, before, seen[..], stack[..newTop], done + {i}, done + {i})
  {
    var x := i % w;
    var y := (i - x) / w;
    PartsAre(w, i);
    newTop := SpreadAlong(mask, w, h, start, before, seen, stack, top, done, i, x);
    newTop := SpreadAcross(mask, w, h, start, before, seen, stack, newTop, done, i, y);
    AllVisited(mask, w, h, seen[..], i);
    FloodClose(mask, w, start, before, seen[..], stack[..newTop], done, i);
  }

  lemma InPage(w: nat, h: nat, j: nat)
    requires w > 0 && Row(w, j) < h
    ensures j < w * h
  {
    IxOfParts(w, j);
    IxInside(w, h, Col(w, j), Row(w, j));
  }

  lemma Reached(mask: seq<Bit>, w: nat, start: nat, i: nat, j: nat)
    requires w > 0 && Connected(mask, w, start, i) && Neighbours(w, i, j)
    ensures IsSet(mask, j) ==> Connected(mask, w, start, j)
  {
    if IsSet(mask, j) { ConnectedStep(mask, w, start, i, j); }
  }

  ghost predicate ClassesApart(mask: seq<Bit>, w: nat, before: set<nat>)
    requires w > 0
  {
    && (forall i :: i in before ==> IsSet(mask, i))
    && (forall i: nat, j: nat :: i in before && IsSet(mask, j) && Neighbours(w, i, j) ==> j in before)
  }

  /** When the stack is empty the flood has found the whole class and nothing else. */
  lemma FloodIsClass(mask: seq<Bit>, w: nat, start: nat, before: set<nat>, seen: seq<bool>, done: set<nat>)
    requires w > 0 && Flood(mask, w, start, before, seen, [], done, done) && ClassesApart(mask, w, before)
    requires start < |seen| && seen[start] && start !in before
    ensures done == ClassOf(mask, w, start) && before !! done
    ensures forall i: nat :: i < |mask| ==> (seen[i] <==> i in before + done)
  {
    forall i: nat, j: nat | i in done && IsSet(mask, j) && Neighbours(w, i, j) ensures j in done {
      ConnectedEnds(mask, w, start, i);
      assert Neighbours(w, j, i);
    }
    ClosedHoldsClass(mask, w, start, done);
  }

  /** Takes the top pixel off the stack and looks at it. */
  method Look(mask: seq<Bit>, w: nat, h: nat, start: nat, ghost before: set<nat>, seen: array<bool>, stack: array<nat>, top: nat,
              ghost done: set<nat>)
    returns (i: nat, newTop: nat)
    requires w > 0 && seen.Length == stack.Length == |mask| == w * h && 0 < top <= stack.Length
    requires seen as object != stack
    requires Flood(mask, w, start, before, seen[..], stack[..top], done, done)
    modifies seen, stack
    ensures i == old(stack[top - 1]) && i < |mask| && i !in done && newTop <= stack.Length && Grown(old(seen[..]), seen[..])
    ensures Flood(mask, w, start, before, seen[..], stack[..newTop], done + {i}, done + {i})
  {
    i := stack[top - 1];
    FloodPop(mask, w, start, before, seen[..], stack[..top], done);
    assert stack[..top][..top - 1] == stack[..top - 1];
    assert i in stack[..top];
    newTop := Spread(mask, w, h, start, before, seen, stack, top - 1, done, i);
  }

  lemma FloodStarts(mask: seq<Bit>, w: nat, start: nat, before: set<nat>, seen: seq<bool>)
    requires w > 0 && |seen| == |mask| && IsSet(mask, start) && !seen[start]
    requires forall i: nat :: i < |mask| ==> (seen[i] <==> i in before)
    ensures Flood(mask, w, start, before, seen[start := true], [start], {}, {})
  {
    ConnectedToItself(mask, w, start);
  }

  /** Stretches the box over one more pixel. */
  method Widen(w: nat, h: nat, ghost done: set<nat>, i: nat, x0: int, y0: int, x1: int, y1: int)
    returns (u0: int, v0: int, u1: int, v1: int)
    requires w > 0 && Bounds(w, h, done, x0, y0, x1, y1) && Row(w, i) < h
    ensures Bounds(w, h, done + {i}, u0, v0, u1, v1)
  {
    var x := i % w;
    var y := (i - x) / w;
    PartsAre(w, i);
    BoundsGrow(w, h, done, i, x0, y0, x1, y1);
    u0, v0, u1, v1 := x0, y0, x1, y1;
    if x < x0 { u0 := x; }
    if x > x1 { u1 := x; }
    if y < y0 { v0 := y; }
    if y > y1 { v1 := y; }
  }

  lemma NothingBounds(w: nat, h: nat)
    requires w > 0
    ensures Bounds(w, h, {}, w, h, 0, 0)
  {
  }

  /** Floods one class from its first pixel. */
  method FloodFill(mask: seq<Bit>, w: nat, h: nat, start: nat, ghost before: set<nat>, seen: array<bool>, stack: array<nat>)
    returns (c: Component)
    requires w > 0 && seen.Length == stack.Length == |mask| == w * h && IsSet(mask, start) && !seen[start]
    requires seen as object != stack
    requires ClassesApart(mask, w, before) && forall i: nat :: i < |mask| ==> (seen[i] <==> i in before)
    modifies seen, stack
    ensures Describes(w, h, ClassOf(mask, w, start), c)
    ensures forall i: nat :: i < |mask| ==> (seen[i] <==> i in before + ClassOf(mask, w, start))
    ensures before !! ClassOf(mask, w, start)
  {
    hide Flood, ClassesApart, Connected, Inside, Touched;
    FloodStarts(mask, w, start, before, seen[..]);
    NothingBounds(w, h);
    ghost var marked := seen[..][start := true];
    var top: nat := 0;
    stack[top] := start;
    top := 1;
    seen[start] := true;
    assert seen[..] == marked && stack[..top] == [start];
    var x0, y0, x1, y1, area: nat := w, h, 0, 0, 0;
    ghost var done: set<nat> := {};
    while top > 0
      invariant top <= stack.Length
      invariant Flood(mask, w, start, before, seen[..], stack[..top], done, done)
      invariant seen[..][start]
      invariant Bounds(w, h, done, x0, y0, x1, y1) && area == |done|
      decreases |mask| - |done|
    {
      var i, next := Look(mask, w, h, start, before, seen, stack, top, done);
      RowInside(w, h, i);
      area := area + 1;
      x0, y0, x1, y1 := Widen(w, h, done, i, x0, y0, x1, y1);
      FloodSize(mask, w, start, before, seen[..], stack[..next], done + {i});
      top, done := next, done + {i};
    }
    assert stack[..0] == [];
    FloodIsClass(mask, w, start, before, seen[..], done);
    c := Component(x0, y0, x1 + 1, y1 + 1, area);
  }

  lemma FloodSize(mask: seq<Bit>, w: nat, start: nat, before: set<nat>, seen: seq<bool>, stack: seq<nat>, done: set<nat>)
    requires w > 0 && Flood(mask, w, start, before, seen, stack, done, done)
    ensures |done| <= |mask|
  {
    SetBelow(done, |mask|);
  }

  // ---- the scan ----

  /** The first pixel of its class in scan order. */
  ghost predicate Leads(mask: seq<Bit>, w: nat, i: nat)
    requires w > 0
  {
    IsSet(mask, i) && forall j :: j in ClassOf(mask, w, i) ==> i <= j
  }

  /** The classes' first pixels below `n`, in scan order. */
  ghost function Leaders(mask: seq<Bit>, w: nat, n: nat): seq<nat>
    requires w > 0
  {
    if n == 0 then [] else Leaders(mask, w, n - 1) + (if Leads(mask, w, n - 1) then [n - 1] else [])
  }

  /** The pixels of the classes that reach below `n`. */
  ghost function DrawnBelow(mask: seq<Bit>, w: nat, n: nat): set<nat>
    requires w > 0
  {
    set i: nat | i < |mask| && mask[i] == 1 && exists j: nat :: j < n && j in ClassOf(mask, w, i)
  }

  ghost function SetPixels(mask: seq<Bit>): set<nat> { set i: nat | i < |mask| && mask[i] == 1 }

  lemma InOwnClass(mask: seq<Bit>, w: nat, i: nat)
    requires w > 0 && IsSet(mask, i)
    ensures i in ClassOf(mask, w, i)
  {
    ConnectedToItself(mask, w, i);
  }

  lemma ClassMembersAgree(mask: seq<Bit>, w: nat, i: nat, j: nat)
    requires w > 0 && j in ClassOf(mask, w, i)
    ensures IsSet(mask, i) && IsSet(mask, j) && ClassOf(mask, w, j) == ClassOf(mask, w, i)
  {
    ConnectedEnds(mask, w, i, j);
    InOwnClass(mask, w, j);
    ClassesAgree(mask, w, i, j, j);
  }

  lemma DrawnApart(mask: seq<Bit>, w: nat, n: nat)
    requires w > 0
    ensures ClassesApart(mask, w, DrawnBelow(mask, w, n))
  {
    forall i: nat, j: nat | i in DrawnBelow(mask, w, n) && IsSet(mask, j) && Neighbours(w, i, j) ensures j in DrawnBelow(mask, w, n) {
      InOwnClass(mask, w, i);
      ClassIsClosed(mask, w, i, i, j);
      ClassMembersAgree(mask, w, i, j);
    }
  }

  /** An empty pixel, or one of a class drawn before, draws nothing and leads nothing. */
  lemma DrawnSame(mask: seq<Bit>, w: nat, n: nat)
    requires w > 0 && n < |mask| && (mask[n] == 0 || n in DrawnBelow(mask, w, n))
    ensures DrawnBelow(mask, w, n + 1) == DrawnBelow(mask, w, n) && !Leads(mask, w, n)
  {
    forall i: nat | i in DrawnBelow(mask, w, n + 1) ensures i in DrawnBelow(mask, w, n) {
      if n in ClassOf(mask, w, i) { ClassMembersAgree(mask, w, i, n); }
    }
  }

  /** Otherwise it leads its class, which joins what is drawn. */
  lemma DrawnMore(mask: seq<Bit>, w: nat, n: nat)
    requires w > 0 && n < |mask| && mask[n] == 1 && n !in DrawnBelow(mask, w, n)
    ensures DrawnBelow(mask, w, n + 1) == DrawnBelow(mask, w, n) + ClassOf(mask, w, n) && Leads(mask, w, n)
  {
    forall i: nat | i in DrawnBelow(mask, w, n + 1) ensures i in DrawnBelow(mask, w, n) + ClassOf(mask, w, n) {
      if n in ClassOf(mask, w, i) {
        ClassMembersAgree(mask, w, i, n);
        InOwnClass(mask, w, i);
      }
    }
    InOwnClass(mask, w, n);
    forall i | i in ClassOf(mask, w, n) ensures i in DrawnBelow(mask, w, n + 1) { ClassMembersAgree(mask, w, n, i); }
  }

  lemma DrawnAll(mask: seq<Bit>, w: nat)
    requires w > 0
    ensures DrawnBelow(mask, w, |mask|) == SetPixels(mask)
  {
    forall i | i in SetPixels(mask) ensures i in DrawnBelow(mask, w, |mask|) { InOwnClass(mask, w, i); }
  }

  function TotalArea(cs: seq<Component>): nat {
    if cs == [] then 0 else TotalArea(cs[..|cs| - 1]) + cs[|cs| - 1].area
  }

  /** One component per class, in the order of the classes' first pixels. */
  ghost predicate DescribesAll(mask: seq<Bit>, w: nat, h: nat, leaders: seq<nat>, cs: seq<Component>)
    requires w > 0
  {
    |cs| == |leaders| && forall k :: 0 <= k < |cs| ==> Describes(w, h, ClassOf(mask, w, leaders[k]), cs[k])
  }

  lemma DescribesMore(mask: seq<Bit>, w: nat, h: nat, leaders: seq<nat>, cs: seq<Component>, lead: nat, c: Component)
    requires w > 0 && DescribesAll(mask, w, h, leaders, cs) && Describes(w, h, ClassOf(mask, w, lead), c)
    ensures DescribesAll(mask, w, h, leaders + [lead], cs + [c])
    ensures TotalArea(cs + [c]) == TotalArea(cs) + |ClassOf(mask, w, lead)|
  {
    assert (cs + [c])[..|cs|] == cs;
  }

  /**
   * The components of a mask are exactly its 4-connected classes, each with its tight box and its area;
   * the areas add up to the set pixels, and the stack of w * h entries is never overrun.
   */
  method Find(mask: seq<Bit>, w: nat, h: nat) returns (out: seq<Component>)
    requires w > 0 && |mask| == w * h
    ensures DescribesAll(mask, w, h, Leaders(mask, w, |mask|), out)
    ensures TotalArea(out) == |SetPixels(mask)|
  {
    var seen := new bool[w * h](_ => false);
    var stack := new nat[w * h](_ => 0);
    out := [];
    for start := 0 to w * h
      invariant forall i: nat :: i < |mask| ==> (seen[i] <==> i in DrawnBelow(mask, w, start))
      invariant DescribesAll(mask, w, h, Leaders(mask, w, start), out)
      invariant TotalArea(out) == |DrawnBelow(mask, w, start)|
    {
      if mask[start] == 0 || seen[start] {
        DrawnSame(mask, w, start);
      } else {
        ghost var before := DrawnBelow(mask, w, start);
        DrawnApart(mask, w, start);
        DrawnMore(mask, w, start);
        var c := FloodFill(mask, w, h, start, before, seen, stack);
        DescribesMore(mask, w, h, Leaders(mask, w, start), out, start, c);
        out := out + [c];
      }
    }
    DrawnAll(mask, w);
  }

  ghost predicate Increasing(l: seq<nat>) { forall j, k :: 0 <= j < k < |l| ==> l[j] < l[k] }

  lemma IncreasingMore(l: seq<nat>, n: nat)
    requires Increasing(l) && forall i :: i in l ==> i < n
    ensures Increasing(l + [n])
  {
    forall k | 0 <= k < |l| ensures l[k] < n { assert l[k] in l; }
  }

  lemma {:induction false} LeadersMembers(mask: seq<Bit>, w: nat, n: nat)
    requires w > 0
    ensures forall i: nat :: i in Leaders(mask, w, n) <==> i < n && Leads(mask, w, i)
    ensures Increasing(Leaders(mask, w, n))
  {
    if n > 0 {
      LeadersMembers(mask, w, n - 1);
      var before := Leaders(mask, w, n - 1);
      IncreasingMore(before, n - 1);
      assert before + [] == before;
    }
  }

  lemma LeastMember(s: set<nat>) returns (m: nat)
    requires s != {}
    ensures m in s && forall i :: i in s ==> m <= i
    decreases |s|
  {
    var x :| x in s;
    var t := s - {x};
    assert s == t + {x};
    if t == {} {
      m := x;
    } else {
      var n := LeastMember(t);
      m := if n < x then n else x;
    }
  }

  /** Every set pixel lies in the class of a leader, ... */
  lemma InSomeClass(mask: seq<Bit>, w: nat, i: nat) returns (k: nat)
    requires w > 0 && IsSet(mask, i)
    ensures var l := Leaders(mask, w, |mask|); k < |l| && i in ClassOf(mask, w, l[k])
  {
    InOwnClass(mask, w, i);
    var lead := LeastMember(ClassOf(mask, w, i));
    ClassMembersAgree(mask, w, i, lead);
    assert Leads(mask, w, lead);
    LeadersMembers(mask, w, |mask|);
    var l := Leaders(mask, w, |mask|);
    assert lead in l;
    k :| 0 <= k < |l| && l[k] == lead;
  }

  /** ... and of no other: the components are pairwise disjoint. */
  lemma InOneClass(mask: seq<Bit>, w: nat, i: nat, j: nat, k: nat)
    requires w > 0 && j < k < |Leaders(mask, w, |mask|)|
    ensures var l := Leaders(mask, w, |mask|); i !in ClassOf(mask, w, l[j]) || i !in ClassOf(mask, w, l[k])
  {
    var l := Leaders(mask, w, |mask|);
    LeadersMembers(mask, w, |mask|);
    assert l[j] in l && l[k] in l;
    InOwnClass(mask, w, l[j]);
    if i in ClassOf(mask, w, l[j]) && i in ClassOf(mask, w, l[k]) {
      ClassesAgree(mask, w, l[j], l[k], i);
    }
  }

  /** Two set pixels share a component if and only if a path of set pixels joins them. */
  lemma SharedIsJoined(mask: seq<Bit>, w: nat, lead: nat, i: nat, j: nat)
    requires w > 0 && Leads(mask, w, lead) && i in ClassOf(mask, w, lead) && IsSet(mask, j)
    ensures j in ClassOf(mask, w, lead) <==> Connected(mask, w, i, j)
  {
    ClassMembersAgree(mask, w, lead, i);
  }
}
