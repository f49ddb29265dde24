/** Row-major pixels. The index of column x and row y is y * w + x; here it is counted up row by row. */
module Grid {
  import Arithmetic

  type Bit = b: int | 0 <= b <= 1

  function Ix(w: nat, x: nat, y: nat): nat { if y == 0 then x else w + Ix(w, x, y - 1) }

  function Row(w: nat, i: nat): nat
    requires w > 0
  {
    if i < w then 0 else 1 + Row(w, i - w)
  }

  function Col(w: nat, i: nat): (x: nat)
    requires w > 0
    ensures x < w
  {
    if i < w then i else Col(w, i - w)
  }

  lemma {:induction false} IxIs(w: nat, x: nat, y: nat)
    ensures Ix(w, x, y) == y * w + x
  {
    if y > 0 {
      IxIs(w, x, y - 1);
      assert (y - 1) * w + w == y * w;
    }
  }

  lemma {:induction false} IxOfParts(w: nat, i: nat)
    requires w > 0
    ensures Ix(w, Col(w, i), Row(w, i)) == i
  {
    if i >= w { IxOfParts(w, i - w); }
  }

  lemma {:induction false} PartsOfIx(w: nat, x: nat, y: nat)
    requires x < w
    ensures Row(w, Ix(w, x, y)) == y && Col(w, Ix(w, x, y)) == x
  {
    if y > 0 { PartsOfIx(w, x, y - 1); }
  }

  /** What the code computes with `%` and `/` are the column and the row. */
  lemma PartsAre(w: nat, i: nat)
    requires w > 0
    ensures i % w == Col(w, i) && (i - i % w) / w == i / w == Row(w, i)
  {
    IxOfParts(w, i);
    IxIs(w, Col(w, i), Row(w, i));
    Arithmetic.Quotient(i, w, Row(w, i), Col(w, i));
    Arithmetic.Quotient(i - i % w, w, Row(w, i), 0);
  }

  lemma {:induction false} ProductGrows(w: nat, y: nat, h: nat)
    requires y <= h
    ensures y * w <= h * w
  {
    if y < h {
      ProductGrows(w, y, h - 1);
      assert h * w == (h - 1) * w + w;
    }
  }

  lemma ProductInside(w: nat, h: nat, x: nat, y: nat)
    requires x < w && y < h
    ensures y * w + x < w * h
  {
    ProductGrows(w, y + 1, h);
    assert (y + 1) * w == y * w + w;
  }

  lemma IxInside(w: nat, h: nat, x: nat, y: nat)
    requires x < w && y < h
    ensures Ix(w, x, y) < w * h
  {
    IxIs(w, x, y);
    ProductInside(w, h, x, y);
  }

  lemma ProductOutside(w: nat, h: nat, x: nat, y: nat)
    requires y * w + x < w * h
    ensures w > 0 && y < h
  {
    assert y >= h ==> (y - h) * w >= 0;
  }

  lemma RowInside(w: nat, h: nat, i: nat)
    requires i < w * h
    ensures w > 0 && Row(w, i) < h
  {
    assert w > 0;
    IxOfParts(w, i);
    IxIs(w, Col(w, i), Row(w, i));
    ProductOutside(w, h, Col(w, i), Row(w, i));
  }

  /** The pixel at (x, y) of a page of `w` by `h`, or `outside` off the page. */
  ghost function At(s: seq<Bit>, w: nat, h: nat, x: int, y: int, outside: Bit): Bit {
    if 0 <= x < w && 0 <= y < h && Ix(w, x, y) < |s| then s[Ix(w, x, y)] else outside
  }

  lemma AtInside(s: seq<Bit>, w: nat, h: nat, x: nat, y: nat, outside: Bit)
    requires |s| == w * h && x < w && y < h
    ensures Ix(w, x, y) < |s| && At(s, w, h, x, y, outside) == s[Ix(w, x, y)]
  {
    IxInside(w, h, x, y);
  }
}
