/**
 * Square-window dilation and erosion. The method is the separable one with running counts, a pass over
 * the rows and one over the columns; it equals the direct definition over the whole window, from which
 * the close (a dilation, then an erosion) gets its properties.
 */
module Morph {
  import opened Grid

  datatype Mode = Dilate | Erode

  function Outside(mode: Mode): Bit { if mode.Erode? then 1 else 0 }

  function Bitwise(b: bool): Bit { if b then 1 else 0 }

  // ---- the direct definition ----

  ghost predicate Near(r: nat, d: int) { 0 - r <= d <= r }

  /** Some pixel of the window is set, or all are; off the page counts as empty, or as set. */
  ghost predicate MorphAt(s: seq<Bit>, w: nat, h: nat, r: nat, mode: Mode, x: int, y: int) {
    match mode
    case Dilate => exists dx, dy :: Near(r, dx) && Near(r, dy) && At(s, w, h, x + dx, y + dy, 0) == 1
    case Erode => forall dx, dy :: Near(r, dx) && Near(r, dy) ==> At(s, w, h, x + dx, y + dy, 1) == 1
  }

  ghost function Morphed(s: seq<Bit>, w: nat, h: nat, r: nat, mode: Mode): (t: seq<Bit>)
    requires |s| == w * h
    ensures |t| == w * h
  {
    seq(w * h, i requires 0 <= i < w * h =>
      RowInside(w, h, i);
      Bitwise(MorphAt(s, w, h, r, mode, Col(w, i), Row(w, i))))
  }

  // ---- lines of the page ----

  datatype Walk = AlongRow(y: nat) | DownColumn(x: nat)

  /** A row or a column of a page, `outside` beyond its ends. */
  datatype Strip = Strip(s: seq<Bit>, w: nat, h: nat, walk: Walk, outside: Bit)

  function PosOf(w: nat, walk: Walk, k: nat): nat {
    match walk
    case AlongRow(y) => Ix(w, k, y)
    case DownColumn(x) => Ix(w, x, k)
  }

  ghost function ValueAt(l: Strip, k: int): Bit {
    match l.walk
    case AlongRow(y) => At(l.s, l.w, l.h, k, y, l.outside)
    case DownColumn(x) => At(l.s, l.w, l.h, x, k, l.outside)
  }

  ghost function Count(l: Strip, lo: int, hi: int): int
    requires lo <= hi
    decreases hi - lo
  {
    if lo == hi then 0 else Count(l, lo, hi - 1) + ValueAt(l, hi - 1)
  }

  lemma {:induction false} CountSplit(l: Strip, lo: int, hi: int)
    requires lo < hi
    ensures Count(l, lo, hi) == ValueAt(l, lo) + Count(l, lo + 1, hi)
    decreases hi - lo
  {
    if lo + 1 < hi { CountSplit(l, lo, hi - 1); }
  }

  lemma CountSlide(l: Strip, lo: int, hi: int)
    requires lo < hi
    ensures Count(l, lo + 1, hi + 1) == Count(l, lo, hi) - ValueAt(l, lo) + ValueAt(l, hi)
  {
    CountSplit(l, lo, hi);
  }

  lemma {:induction false} CountMeans(l: Strip, lo: int, hi: int)
    requires lo <= hi
    ensures 0 <= Count(l, lo, hi) <= hi - lo
    ensures Count(l, lo, hi) > 0 <==> exists k :: lo <= k < hi && ValueAt(l, k) == 1
    ensures Count(l, lo, hi) == hi - lo <==> forall k :: lo <= k < hi ==> ValueAt(l, k) == 1
    decreases hi - lo
  {
    if lo < hi { CountMeans(l, lo, hi - 1); }
  }

  predicate Keep(mode: Mode, count: int, span: int) {
    match mode
    case Dilate => count > 0
    case Erode => count == span
  }

  ghost function Counted(l: Strip, r: nat, mode: Mode, x: int): Bit {
    Bitwise(Keep(mode, Count(l, x - r, x + r + 1), 2 * r + 1))
  }

  /** Position `x` of a strip, its window along the strip taken whole. */
  ghost predicate LineAt(l: Strip, r: nat, mode: Mode, x: int) {
    match mode
    case Dilate => exists d :: Near(r, d) && ValueAt(l, x + d) == 1
    case Erode => forall d :: Near(r, d) ==> ValueAt(l, x + d) == 1
  }

  lemma CountedIsLineAt(l: Strip, r: nat, mode: Mode, x: int)
    ensures Counted(l, r, mode, x) == Bitwise(LineAt(l, r, mode, x))
  {
    CountMeans(l, x - r, x + r + 1);
    if LineAt(l, r, mode, x) {
      if mode.Dilate? {
        var d :| Near(r, d) && ValueAt(l, x + d) == 1;
      } else {
        forall k | x - r <= k < x + r + 1 ensures ValueAt(l, k) == 1 {
          assert Near(r, k - x) && ValueAt(l, x + (k - x)) == 1;
        }
      }
    } else if mode.Dilate? {
      forall k | x - r <= k < x + r + 1 ensures ValueAt(l, k) != 1 {
        assert Near(r, k - x) && ValueAt(l, x + (k - x)) != 1;
      }
    }
  }

  // ---- one pass, then the other ----

  ghost function RowsDone(s: seq<Bit>, w: nat, h: nat, r: nat, mode: Mode): (t: seq<Bit>)
    requires |s| == w * h
    ensures |t| == w * h
  {
    seq(w * h, i requires 0 <= i < w * h =>
      RowInside(w, h, i);
      Counted(Strip(s, w, h, AlongRow(Row(w, i)), Outside(mode)), r, mode, Col(w, i)))
  }

  ghost function ColumnsDone(s: seq<Bit>, w: nat, h: nat, r: nat, mode: Mode): (t: seq<Bit>)
    requires |s| == w * h
    ensures |t| == w * h
  {
    seq(w * h, i requires 0 <= i < w * h =>
      RowInside(w, h, i);
      Counted(Strip(s, w, h, DownColumn(Col(w, i)), Outside(mode)), r, mode, Row(w, i)))
  }

  ghost predicate RowLine(s: seq<Bit>, w: nat, h: nat, r: nat, mode: Mode, x: int, y: int) {
    match mode
    case Dilate => exists dx :: Near(r, dx) && At(s, w, h, x + dx, y, 0) == 1
    case Erode => forall dx :: Near(r, dx) ==> At(s, w, h, x + dx, y, 1) == 1
  }

  lemma RowsAt(s: seq<Bit>, w: nat, h: nat, r: nat, mode: Mode, x: int, y: int)
    requires |s| == w * h && 0 <= x < w
    ensures At(RowsDone(s, w, h, r, mode), w, h, x, y, Outside(mode)) == 1 <==> RowLine(s, w, h, r, mode, x, y)
  {
    if 0 <= y < h {
      AtInside(RowsDone(s, w, h, r, mode), w, h, x, y, Outside(mode));
      PartsOfIx(w, x, y);
      var l := Strip(s, w, h, AlongRow(y), Outside(mode));
      CountedIsLineAt(l, r, mode, x);
      assert forall k :: ValueAt(l, k) == At(s, w, h, k, y, Outside(mode));
    } else if mode.Erode? {
      assert forall k :: At(s, w, h, k, y, 1) == 1;
    } else {
      assert forall k :: At(s, w, h, k, y, 0) == 0;
    }
  }

  lemma SeparableDilate(s: seq<Bit>, w: nat, h: nat, r: nat, x: int, y: int, l: Strip)
    requires forall k :: ValueAt(l, k) == 1 <==> RowLine(s, w, h, r, Dilate, x, k)
    ensures LineAt(l, r, Dilate, y) <==> MorphAt(s, w, h, r, Dilate, x, y)
  {
    if LineAt(l, r, Dilate, y) {
      var dy :| Near(r, dy) && ValueAt(l, y + dy) == 1;
      var dx :| Near(r, dx) && At(s, w, h, x + dx, y + dy, 0) == 1;
    }
    if MorphAt(s, w, h, r, Dilate, x, y) {
      var dx, dy :| Near(r, dx) && Near(r, dy) && At(s, w, h, x + dx, y + dy, 0) == 1;
      assert RowLine(s, w, h, r, Dilate, x, y + dy);
    }
  }

  lemma SeparableErode(s: seq<Bit>, w: nat, h: nat, r: nat, x: int, y: int, l: Strip)
    requires forall k :: ValueAt(l, k) == 1 <==> RowLine(s, w, h, r, Erode, x, k)
    ensures LineAt(l, r, Erode, y) <==> MorphAt(s, w, h, r, Erode, x, y)
  {
    if LineAt(l, r, Erode, y) {
      forall dx, dy | Near(r, dx) && Near(r, dy) ensures At(s, w, h, x + dx, y + dy, 1) == 1 {
        assert ValueAt(l, y + dy) == 1;
        assert RowLine(s, w, h, r, Erode, x, y + dy);
      }
    }
    if MorphAt(s, w, h, r, Erode, x, y) {
      forall dy | Near(r, dy) ensures ValueAt(l, y + dy) == 1 {
        assert RowLine(s, w, h, r, Erode, x, y + dy);
      }
    }
  }

  lemma SeparableAt(s: seq<Bit>, w: nat, h: nat, r: nat, mode: Mode, x: nat, y: nat)
    requires |s| == w * h && x < w
    ensures Counted(Strip(RowsDone(s, w, h, r, mode), w, h, DownColumn(x), Outside(mode)), r, mode, y)
         == Bitwise(MorphAt(s, w, h, r, mode, x, y))
  {
    var l := Strip(RowsDone(s, w, h, r, mode), w, h, DownColumn(x), Outside(mode));
    CountedIsLineAt(l, r, mode, y);
    forall k ensures ValueAt(l, k) == 1 <==> RowLine(s, w, h, r, mode, x, k) { RowsAt(s, w, h, r, mode, x, k); }
    if mode.Dilate? { SeparableDilate(s, w, h, r, x, y, l); } else { SeparableErode(s, w, h, r, x, y, l); }
  }

  /** A pass over the rows and one over the columns see the whole square window. */
  lemma Separable(s: seq<Bit>, w: nat, h: nat, r: nat, mode: Mode)
    requires |s| == w * h
    ensures ColumnsDone(RowsDone(s, w, h, r, mode), w, h, r, mode) == Morphed(s, w, h, r, mode)
  {
    var rows := RowsDone(s, w, h, r, mode);
    forall i | 0 <= i < w * h ensures ColumnsDone(rows, w, h, r, mode)[i] == Morphed(s, w, h, r, mode)[i] {
      RowInside(w, h, i);
      SeparableAt(s, w, h, r, mode, Col(w, i), Row(w, i));
    }
  }

  // ---- the algorithm ----

  function Length(w: nat, h: nat, walk: Walk): nat { if walk.AlongRow? then w else h }

  predicate OnPage(w: nat, h: nat, walk: Walk) {
    match walk
    case AlongRow(y) => y < h
    case DownColumn(x) => x < w
  }

  lemma PosInside(w: nat, h: nat, walk: Walk, k: nat)
    requires OnPage(w, h, walk) && k < Length(w, h, walk)
    ensures PosOf(w, walk, k) < w * h
  {
    match walk {
      case AlongRow(y) => IxInside(w, h, k, y);
      case DownColumn(x) => IxInside(w, h, x, k);
    }
  }

  /** Position `k` of a strip, read the way the loops do. */
  function Value(src: seq<Bit>, w: nat, h: nat, walk: Walk, outside: Bit, k: int): (b: Bit)
    requires |src| == w * h && OnPage(w, h, walk)
    ensures b == ValueAt(Strip(src, w, h, walk, outside), k)
  {
    if k < 0 || k >= Length(w, h, walk) then outside
    else
      PosInside(w, h, walk, k);
      src[PosOf(w, walk, k)]
  }

  method FirstCount(src: seq<Bit>, w: nat, h: nat, walk: Walk, outside: Bit, r: nat) returns (count: int)
    requires |src| == w * h && OnPage(w, h, walk)
    ensures count == Count(Strip(src, w, h, walk, outside), 0 - r, r + 1)
  {
    count := 0;
    var k := 0 - r;
    while k <= r
      invariant 0 - r <= k <= r + 1
      invariant count == Count(Strip(src, w, h, walk, outside), 0 - r, k)
    {
      count := count + Value(src, w, h, walk, outside, k);
      k := k + 1;
    }
  }

  /** The value in `done` of the first `k` pixels of a line, the rest as in `d`. */
  ghost function Painted(d: seq<Bit>, done: seq<Bit>, w: nat, h: nat, walk: Walk, k: nat): (t: seq<Bit>)
    requires |d| == |done| == w * h && OnPage(w, h, walk) && k <= Length(w, h, walk)
    ensures |t| == |d|
  {
    if k == 0 then d
    else
      PosInside(w, h, walk, k - 1);
      var i := PosOf(w, walk, k - 1);
      Painted(d, done, w, h, walk, k - 1)[i := done[i]]
  }

  lemma {:induction false} PaintedIsDone(d: seq<Bit>, done: seq<Bit>, w: nat, h: nat, walk: Walk, n: nat)
    requires |d| == |done| == w * h && OnPage(w, h, walk) && n <= Length(w, h, walk)
    ensures forall i :: 0 <= i < |d| && d[i] == done[i] ==> Painted(d, done, w, h, walk, n)[i] == done[i]
    ensures forall k :: 0 <= k < n ==> PosOf(w, walk, k) < |d| && Painted(d, done, w, h, walk, n)[PosOf(w, walk, k)] == done[PosOf(w, walk, k)]
  {
    if n > 0 {
      PaintedIsDone(d, done, w, h, walk, n - 1);
      PosInside(w, h, walk, n - 1);
    }
  }

  ghost predicate LineDone(d: seq<Bit>, done: seq<Bit>, w: nat, h: nat, walk: Walk)
    requires |d| == |done|
  {
    forall k :: 0 <= k < Length(w, h, walk) ==> PosOf(w, walk, k) < |d| && d[PosOf(w, walk, k)] == done[PosOf(w, walk, k)]
  }

  /** Painting a line finishes it and unfinishes no other. */
  lemma PaintedLines(d: seq<Bit>, done: seq<Bit>, w: nat, h: nat, walk: Walk)
    requires |d| == |done| == w * h && OnPage(w, h, walk)
    ensures LineDone(Painted(d, done, w, h, walk, Length(w, h, walk)), done, w, h, walk)
    ensures forall other :: LineDone(d, done, w, h, other) ==>
              LineDone(Painted(d, done, w, h, walk, Length(w, h, walk)), done, w, h, other)
  {
    PaintedIsDone(d, done, w, h, walk, Length(w, h, walk));
  }

  /** `done` holds, along a line, the counted values of `src`. */
  ghost predicate CountsAlong(src: seq<Bit>, done: seq<Bit>, w: nat, h: nat, walk: Walk, r: nat, mode: Mode)
    requires |done| == w * h && OnPage(w, h, walk)
  {
    forall k :: 0 <= k < Length(w, h, walk) ==>
      PosOf(w, walk, k) < |done| && done[PosOf(w, walk, k)] == Counted(Strip(src, w, h, walk, Outside(mode)), r, mode, k)
  }

  /** One line of the page: a running count slides along it. */
  method Line(src: seq<Bit>, dst: array<Bit>, w: nat, h: nat, walk: Walk, r: nat, mode: Mode, ghost done: seq<Bit>)
    requires |src| == dst.Length == |done| == w * h && OnPage(w, h, walk) && CountsAlong(src, done, w, h, walk, r, mode)
    modifies dst
    ensures LineDone(dst[..], done, w, h, walk)
    ensures forall other :: LineDone(old(dst[..]), done, w, h, other) ==> LineDone(dst[..], done, w, h, other)
  {
    var outside := Outside(mode);
    ghost var l := Strip(src, w, h, walk, outside);
    var count := FirstCount(src, w, h, walk, outside, r);
    for x := 0 to Length(w, h, walk)
      invariant count == Count(l, x - r, x + r + 1)
      invariant dst[..] == Painted(old(dst[..]), done, w, h, walk, x)
    {
      PosInside(w, h, walk, x);
      assert done[PosOf(w, walk, x)] == Bitwise(Keep(mode, count, 2 * r + 1));
      dst[PosOf(w, walk, x)] := if Keep(mode, count, 2 * r + 1) then 1 else 0;
      CountSlide(l, x - r, x + r + 1);
      count := count - Value(src, w, h, walk, outside, x - r);
      count := count + Value(src, w, h, walk, outside, x + r + 1);
    }
    PaintedLines(old(dst[..]), done, w, h, walk);
  }

  lemma RowsCount(s: seq<Bit>, w: nat, h: nat, r: nat, mode: Mode, y: nat)
    requires |s| == w * h && y < h
    ensures CountsAlong(s, RowsDone(s, w, h, r, mode), w, h, AlongRow(y), r, mode)
  {
    forall x | 0 <= x < w
      ensures Ix(w, x, y) < w * h && RowsDone(s, w, h, r, mode)[Ix(w, x, y)] == Counted(Strip(s, w, h, AlongRow(y), Outside(mode)), r, mode, x)
    {
      IxInside(w, h, x, y);
      PartsOfIx(w, x, y);
    }
  }

  lemma ColumnsCount(s: seq<Bit>, w: nat, h: nat, r: nat, mode: Mode, x: nat)
    requires |s| == w * h && x < w
    ensures CountsAlong(s, ColumnsDone(s, w, h, r, mode), w, h, DownColumn(x), r, mode)
  {
    forall y | 0 <= y < h
      ensures Ix(w, x, y) < w * h && ColumnsDone(s, w, h, r, mode)[Ix(w, x, y)] == Counted(Strip(s, w, h, DownColumn(x), Outside(mode)), r, mode, y)
    {
      IxInside(w, h, x, y);
      PartsOfIx(w, x, y);
    }
  }

  /** The pass along the rows. */
  method MorphRows(src: seq<Bit>, w: nat, h: nat, r: nat, mode: Mode) returns (tmp: array<Bit>)
    requires |src| == w * h
    ensures fresh(tmp) && tmp[..] == RowsDone(src, w, h, r, mode)
  {
    tmp := new Bit[w * h](_ => 0);
    ghost var done := RowsDone(src, w, h, r, mode);
    for y := 0 to h
      invariant forall v :: 0 <= v < y ==> LineDone(tmp[..], done, w, h, AlongRow(v))
    {
      RowsCount(src, w, h, r, mode, y);
      Line(src, tmp, w, h, AlongRow(y), r, mode, done);
    }
    forall i | 0 <= i < w * h ensures tmp[..][i] == done[i] {
      RowInside(w, h, i);
      IxOfParts(w, i);
      assert LineDone(tmp[..], done, w, h, AlongRow(Row(w, i)));
      assert PosOf(w, AlongRow(Row(w, i)), Col(w, i)) == i;
    }
  }

  /** The pass along the columns. */
  method MorphColumns(tmp: seq<Bit>, w: nat, h: nat, r: nat, mode: Mode) returns (out: array<Bit>)
    requires |tmp| == w * h
    ensures fresh(out) && out[..] == ColumnsDone(tmp, w, h, r, mode)
  {
    out := new Bit[w * h](_ => 0);
    ghost var done := ColumnsDone(tmp, w, h, r, mode);
    for x := 0 to w
      invariant forall u :: 0 <= u < x ==> LineDone(out[..], done, w, h, DownColumn(u))
    {
      ColumnsCount(tmp, w, h, r, mode, x);
      Line(tmp, out, w, h, DownColumn(x), r, mode, done);
    }
    forall i | 0 <= i < w * h ensures out[..][i] == done[i] {
      RowInside(w, h, i);
      IxOfParts(w, i);
      assert LineDone(out[..], done, w, h, DownColumn(Col(w, i)));
      assert PosOf(w, DownColumn(Col(w, i)), Row(w, i)) == i;
    }
  }

  /** The two passes give the direct definition, for every size and radius. */
  method Apply(src: seq<Bit>, w: nat, h: nat, r: nat, mode: Mode) returns (out: array<Bit>)
    requires |src| == w * h
    ensures fresh(out) && out[..] == Morphed(src, w, h, r, mode)
  {
    var tmp := MorphRows(src, w, h, r, mode);
    out := MorphColumns(tmp[..], w, h, r, mode);
    Separable(src, w, h, r, mode);
  }

  // ---- what the close keeps ----

  ghost predicate Within(a: seq<Bit>, b: seq<Bit>) {
    |a| == |b| && forall i :: 0 <= i < |a| && a[i] == 1 ==> b[i] == 1
  }

  ghost function Closed(s: seq<Bit>, w: nat, h: nat, r: nat): (t: seq<Bit>)
    requires |s| == w * h
    ensures |t| == w * h
  {
    Morphed(Morphed(s, w, h, r, Dilate), w, h, r, Erode)
  }

  // The adjunction, first on the pixels' definitions alone.

  ghost predicate DilatesInto(a: seq<Bit>, b: seq<Bit>, w: nat, h: nat, r: nat) {
    forall x, y :: 0 <= x < w && 0 <= y < h && MorphAt(a, w, h, r, Dilate, x, y) ==> At(b, w, h, x, y, 1) == 1
  }

  ghost predicate ErodesInto(a: seq<Bit>, b: seq<Bit>, w: nat, h: nat, r: nat) {
    forall x, y :: At(a, w, h, x, y, 0) == 1 ==> MorphAt(b, w, h, r, Erode, x, y)
  }

  /** The window is symmetric, so dilating into `b` is what erosion of `b` asks back. */
  lemma Adjoint(a: seq<Bit>, b: seq<Bit>, w: nat, h: nat, r: nat)
    requires |a| == |b| == w * h
    ensures DilatesInto(a, b, w, h, r) <==> ErodesInto(a, b, w, h, r)
  {
    if DilatesInto(a, b, w, h, r) {
      forall x, y | At(a, w, h, x, y, 0) == 1 ensures MorphAt(b, w, h, r, Erode, x, y) {
        forall dx, dy | Near(r, dx) && Near(r, dy) ensures At(b, w, h, x + dx, y + dy, 1) == 1 {
          assert Near(r, 0 - dx) && Near(r, 0 - dy) && At(a, w, h, (x + dx) + (0 - dx), (y + dy) + (0 - dy), 0) == 1;
          assert MorphAt(a, w, h, r, Dilate, x + dx, y + dy);
        }
      }
    }
    if ErodesInto(a, b, w, h, r) {
      forall x, y | 0 <= x < w && 0 <= y < h && MorphAt(a, w, h, r, Dilate, x, y) ensures At(b, w, h, x, y, 1) == 1 {
        var dx, dy :| Near(r, dx) && Near(r, dy) && At(a, w, h, x + dx, y + dy, 0) == 1;
        assert MorphAt(b, w, h, r, Erode, x + dx, y + dy);
        assert Near(r, 0 - dx) && Near(r, 0 - dy) && At(b, w, h, (x + dx) + (0 - dx), (y + dy) + (0 - dy), 1) == 1;
      }
    }
  }

  lemma MorphedPixel(s: seq<Bit>, w: nat, h: nat, r: nat, mode: Mode, x: nat, y: nat)
    requires |s| == w * h && x < w && y < h
    ensures Ix(w, x, y) < w * h && (Morphed(s, w, h, r, mode)[Ix(w, x, y)] == 1 <==> MorphAt(s, w, h, r, mode, x, y))
  {
    IxInside(w, h, x, y);
    PartsOfIx(w, x, y);
  }

  ghost predicate PlacesWithin(a: seq<Bit>, b: seq<Bit>, w: nat, h: nat)
    requires |a| == |b|
  {
    forall x: nat, y: nat :: x < w && y < h && Ix(w, x, y) < |a| && a[Ix(w, x, y)] == 1 ==> b[Ix(w, x, y)] == 1
  }

  /** Pixel by pixel is coordinate by coordinate. */
  lemma WithinByPlace(a: seq<Bit>, b: seq<Bit>, w: nat, h: nat)
    requires |a| == |b| == w * h
    ensures Within(a, b) <==> PlacesWithin(a, b, w, h)
  {
    if PlacesWithin(a, b, w, h) {
      forall i | 0 <= i < |a| && a[i] == 1 ensures b[i] == 1 {
        RowInside(w, h, i);
        IxOfParts(w, i);
        var x, y := Col(w, i), Row(w, i);
        assert Ix(w, x, y) < |a|;
      }
    }
  }

  lemma DilatedWithin(a: seq<Bit>, b: seq<Bit>, w: nat, h: nat, r: nat)
    requires |a| == |b| == w * h
    ensures Within(Morphed(a, w, h, r, Dilate), b) <==> DilatesInto(a, b, w, h, r)
  {
    WithinByPlace(Morphed(a, w, h, r, Dilate), b, w, h);
    forall x, y | 0 <= x < w && 0 <= y < h
      ensures Ix(w, x, y) < w * h && (Morphed(a, w, h, r, Dilate)[Ix(w, x, y)] == 1 <==> MorphAt(a, w, h, r, Dilate, x, y))
    {
      MorphedPixel(a, w, h, r, Dilate, x, y);
    }
  }

  lemma WithinEroded(a: seq<Bit>, b: seq<Bit>, w: nat, h: nat, r: nat)
    requires |a| == |b| == w * h
    ensures Within(a, Morphed(b, w, h, r, Erode)) <==> ErodesInto(a, b, w, h, r)
  {
    WithinByPlace(a, Morphed(b, w, h, r, Erode), w, h);
    forall x, y | 0 <= x < w && 0 <= y < h
      ensures Ix(w, x, y) < w * h && (Morphed(b, w, h, r, Erode)[Ix(w, x, y)] == 1 <==> MorphAt(b, w, h, r, Erode, x, y))
    {
      MorphedPixel(b, w, h, r, Erode, x, y);
    }
  }

  /** Dilation and erosion form an adjunction, the page edge included. */
  lemma Adjunction(a: seq<Bit>, b: seq<Bit>, w: nat, h: nat, r: nat)
    requires |a| == |b| == w * h
    ensures Within(Morphed(a, w, h, r, Dilate), b) <==> Within(a, Morphed(b, w, h, r, Erode))
  {
    DilatedWithin(a, b, w, h, r);
    Adjoint(a, b, w, h, r);
    WithinEroded(a, b, w, h, r);
  }

  /** The close loses no pixel of its input. */
  lemma CloseContains(s: seq<Bit>, w: nat, h: nat, r: nat)
    requires |s| == w * h
    ensures Within(s, Closed(s, w, h, r))
  {
    Adjunction(s, Morphed(s, w, h, r, Dilate), w, h, r);
  }

  /** More pixels in, more pixels out. */
  lemma CloseMonotone(a: seq<Bit>, b: seq<Bit>, w: nat, h: nat, r: nat)
    requires |a| == |b| == w * h && Within(a, b)
    ensures Within(Closed(a, w, h, r), Closed(b, w, h, r))
  {
    var da, db := Morphed(a, w, h, r, Dilate), Morphed(b, w, h, r, Dilate);
    CloseContains(b, w, h, r);
    Adjunction(a, db, w, h, r);
    assert Within(da, db);
    Adjunction(Closed(a, w, h, r), da, w, h, r);
    Adjunction(Closed(a, w, h, r), db, w, h, r);
  }

  /** Closing twice closes once. */
  lemma CloseIdempotent(s: seq<Bit>, w: nat, h: nat, r: nat)
    requires |s| == w * h
    ensures Closed(Closed(s, w, h, r), w, h, r) == Closed(s, w, h, r)
  {
    var d, c := Morphed(s, w, h, r, Dilate), Closed(s, w, h, r);
    var twice := Closed(c, w, h, r);
    CloseContains(c, w, h, r);
    Adjunction(c, d, w, h, r);
    assert Within(Morphed(c, w, h, r, Dilate), d);
    Adjunction(twice, Morphed(c, w, h, r, Dilate), w, h, r);
    Adjunction(twice, d, w, h, r);
    assert Within(twice, c) && Within(c, twice);
    forall i | 0 <= i < w * h ensures twice[i] == c[i] {
      assert 0 <= twice[i] <= 1 && 0 <= c[i] <= 1;
    }
  }
}
