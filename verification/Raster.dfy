/** Pictures stored row by row: where a place in the row-by-row order is in columns and rows. */
module Raster {

  lemma TimesMonotone(w: nat, a: int, b: int)
    ensures a <= b ==> w * a <= w * b
  {
  }

  /** Column and row give back the place, and lie inside the picture. */
  lemma RowOf(w: nat, h: nat, p: int)
    requires w > 0 && 0 <= p < w * h
    ensures p == w * (p / w) + p % w && 0 <= p % w < w && 0 <= p / w < h
  {
    TimesMonotone(w, h, p / w);
  }

  /** A place made from a column and a row has that column and that row. */
  lemma SplitUnique(w: nat, y: int, x: int, p: int)
    requires w > 0 && 0 <= x < w && p == w * y + x
    ensures p / w == y && p % w == x
  {
    var d := p / w - y;
    assert w * (p / w) + p % w == w * y + x;
    assert w * d == x - p % w;
    TimesMonotone(w, 1, d);
    TimesMonotone(w, d, -1);
  }

  lemma PlaceInside(w: nat, h: nat, x: int, y: int)
    requires 0 <= x < w && 0 <= y < h
    ensures 0 <= w * y + x < w * h
  {
    TimesMonotone(w, 0, y);
    TimesMonotone(w, y + 1, h);
    assert w * (y + 1) == w * y + w;
  }
}
