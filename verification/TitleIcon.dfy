/** A window's icon in its title bar (decor.c): chosen among the sizes the program gives, boxed down to 16 pixels
  square, and laid over the bar.

  The property is section 5 of the freedesktop.org Extended Window Manager Hints, `_NET_WM_ICON`: entries of a
  width, a height, and width times height ARGB pixels.
 */
module TitleIcon {
  import opened Raster

  type Word = x: nat | x < 0x1_0000_0000

  const ICON: nat := 16

  // ---- the choice ----

  /** The words an entry takes. */
  function Length(w: nat, h: nat): nat {
    TimesMonotone(w, 0, h);
    2 + w * h
  }

  /** An entry starts here, of a size that is taken, and is all there. */
  predicate Well(v: seq<Word>, i: nat) {
    i + 2 <= |v| && 0 < v[i] <= 1024 && 0 < v[i + 1] <= 1024 && i + Length(v[i], v[i + 1]) <= |v|
  }

  function Width(v: seq<Word>, e: nat): nat
    requires Well(v, e)
  {
    v[e]
  }

  ghost predicate AllWell(v: seq<Word>, es: seq<nat>) {
    forall k :: 0 <= k < |es| ==> Well(v, es[k])
  }

  /** Where the entries start, up to the first bad one. */
  function Entries(v: seq<Word>, i: nat): (es: seq<nat>)
    ensures AllWell(v, es)
    decreases |v| - i
  {
    if Well(v, i) then [i] + Entries(v, i + Length(v[i], v[i + 1])) else []
  }

  /** The entry is the first with its width, which is the smallest of at least 16 if there is one so wide, else the
    largest. */
  ghost predicate Picked(v: seq<Word>, es: seq<nat>, k: int)
    requires AllWell(v, es)
  {
    && 0 <= k < |es|
    && (forall j :: 0 <= j < k ==> Width(v, es[j]) != Width(v, es[k]))
    && (Width(v, es[k]) < ICON ==> forall j :: 0 <= j < |es| ==> Width(v, es[j]) <= Width(v, es[k]))
    && (Width(v, es[k]) >= ICON ==> forall j :: 0 <= j < |es| && Width(v, es[j]) >= ICON ==> Width(v, es[k]) <= Width(v, es[j]))
  }

  lemma PickedIsOne(v: seq<Word>, es: seq<nat>, k: nat, m: nat)
    requires AllWell(v, es)
    requires Picked(v, es, k) && Picked(v, es, m)
    ensures k == m
  {
    assert Width(v, es[k]) == Width(v, es[m]);
  }

  /** What the scan has after the entries `es`, for some place in them. */
  ghost predicate Best(v: seq<Word>, es: seq<nat>, best: nat, bw: nat, bh: nat)
    requires AllWell(v, es)
  {
    && (bw == 0 <==> es == [])
    && (bw > 0 ==>
          Well(v, best) && bw == v[best] && bh == v[best + 1] && exists k :: Picked(v, es, k) && best == es[k])
  }

  predicate Better(w: nat, bw: nat) {
    bw == 0 || (w >= ICON && (bw < ICON || w < bw)) || (bw < ICON && w > bw)
  }

  lemma BestStep(v: seq<Word>, es: seq<nat>, best: nat, bw: nat, bh: nat, i: nat)
    requires AllWell(v, es) && Best(v, es, best, bw, bh) && Well(v, i)
    ensures AllWell(v, es + [i])
    ensures Better(v[i], bw) ==> Best(v, es + [i], i, v[i], v[i + 1])
    ensures !Better(v[i], bw) ==> Best(v, es + [i], best, bw, bh)
  {
    hide Length;
    var more := es + [i];
    assert AllWell(v, more);
    if Better(v[i], bw) {
      assert more[|es|] == i;
      assert es != [] ==> exists k :: Picked(v, es, k) && best == es[k];
      assert Picked(v, more, |es|);
    } else {
      var k :| Picked(v, es, k) && best == es[k];
      assert Picked(v, more, k);
    }
  }

  /** The scan is at place `i`, past the entries `seen`. */
  ghost predicate Past(v: seq<Word>, seen: seq<nat>, i: nat) {
    AllWell(v, seen) && Entries(v, 0) == seen + Entries(v, i)
  }

  lemma PastOne(v: seq<Word>, seen: seq<nat>, i: nat)
    requires Past(v, seen, i)
    ensures Well(v, i) ==> Past(v, seen + [i], i + Length(v[i], v[i + 1]))
    ensures !Well(v, i) ==> Entries(v, 0) == seen
  {
    if Well(v, i) {
      var rest := Entries(v, i + Length(v[i], v[i + 1]));
      assert seen + ([i] + rest) == seen + [i] + rest;
    } else {
      assert seen + [] == seen;
    }
  }

  /** The scan over the property; a width of 0 is no icon. */
  method Choose(v: seq<Word>) returns (best: nat, bw: nat, bh: nat)
    ensures Best(v, Entries(v, 0), best, bw, bh)
  {
    best, bw, bh := 0, 0, 0;
    var i: nat := 0;
    ghost var seen: seq<nat> := [];
    assert Past(v, seen, i);
    while i + 2 <= |v|
      invariant Past(v, seen, i) && AllWell(v, seen) && Best(v, seen, best, bw, bh)
      decreases |v| - i
    {
      PastOne(v, seen, i);
      hide Best, AllWell, Past, Better, Entries;
      var w, h := v[i], v[i + 1];
      if w == 0 || h == 0 || w > 1024 || h > 1024 || i + Length(w, h) > |v| {
        break;
      }
      BestStep(v, seen, best, bw, bh, i);
      seen := seen + [i];
      if Better(w, bw) {
        best, bw, bh := i, w, h;
      }
      i := i + Length(w, h);
    }
    PastOne(v, seen, i);
  }

  // ---- the boxes ----

  datatype Channel = Alpha | Red | Green | Blue

  function Byte(p: Word, c: Channel): (b: nat)
    ensures b < 256
  {
    match c
    case Alpha => p / 256 / 256 / 256
    case Red => p / 256 / 256 % 256
    case Green => p / 256 % 256
    case Blue => p % 256
  }

  function Pack(a: nat, r: nat, g: nat, b: nat): (p: Word)
    requires a < 256 && r < 256 && g < 256 && b < 256
    ensures Byte(p, Alpha) == a && Byte(p, Red) == r && Byte(p, Green) == g && Byte(p, Blue) == b
  {
    ((a * 256 + r) * 256 + g) * 256 + b
  }

  /** Alpha, red, green and blue, from the top byte down. */
  lemma BytesMakeUp(p: Word)
    ensures p == 0x1000000 * Byte(p, Alpha) + 0x10000 * Byte(p, Red) + 0x100 * Byte(p, Green) + Byte(p, Blue)
  {
  }

  /** Two pixels with the same bytes are the same. */
  lemma BytesDecide(p: Word, q: Word)
    requires forall c :: Byte(p, c) == Byte(q, c)
    ensures p == q
  {
    assert Byte(p, Alpha) == Byte(q, Alpha) && Byte(p, Red) == Byte(q, Red);
    assert Byte(p, Green) == Byte(q, Green) && Byte(p, Blue) == Byte(q, Blue);
  }

  /** What a source pixel gives to an average: its colours by its alpha. */
  function Share(p: Word, c: Channel): (s: nat)
    ensures s <= Byte(p, Alpha)
  {
    if c.Alpha? then Byte(p, Alpha) else ByAlpha(Byte(p, c), Byte(p, Alpha))
  }

  function ByAlpha(c: nat, a: nat): (s: nat)
    requires c < 256
    ensures s <= a
  {
    TimesMonotone(a, c, 255);
    c * a / 255
  }

  /** A colour counts by its alpha, of 255, the rest cut off; the alpha counts whole. */
  lemma ShareIs(p: Word, c: Channel)
    ensures c == Alpha ==> Share(p, c) == Byte(p, Alpha)
    ensures c != Alpha ==> 255 * Share(p, c) <= Byte(p, c) * Byte(p, Alpha) < 255 * Share(p, c) + 255
  {
  }

  datatype Picture = Picture(px: seq<Word>, w: nat, h: nat) {
    predicate Valid() {
      w > 0 && h > 0 && |px| == w * h
    }

    function At(x: nat, y: nat): Word
      requires Valid() && x < w && y < h
    {
      PlaceInside(w, h, x, y);
      px[w * y + x]
    }

    /** The sum over columns `x0` up to `x1` of a row. */
    function Across(c: Channel, y: nat, x0: nat, x1: nat): nat
      requires Valid() && y < h && x0 <= x1 <= w
      decreases x1
    {
      if x0 == x1 then 0 else Across(c, y, x0, x1 - 1) + Share(At(x1 - 1, y), c)
    }

    /** The sum over rows `y0` up to `y1` of those. */
    function Block(c: Channel, x0: nat, x1: nat, y0: nat, y1: nat): nat
      requires Valid() && x0 <= x1 <= w && y0 <= y1 <= h
      decreases y1
    {
      if y0 == y1 then 0 else Block(c, x0, x1, y0, y1 - 1) + Across(c, y1 - 1, x0, x1)
    }
  }

  /** Box `k` of a side of `n` pixels: from here up to there, at least one pixel. */
  function From(n: nat, k: nat): nat {
    k * n / ICON
  }

  function To(n: nat, k: nat): nat {
    if (k + 1) * n / ICON <= From(n, k) then From(n, k) + 1 else (k + 1) * n / ICON
  }

  /** A sixteenth of the side each, ends cut off; a box that would be empty is its first pixel. */
  lemma BoxIs(n: nat, k: nat)
    ensures 16 * From(n, k) <= k * n < 16 * From(n, k) + 16
    ensures To(n, k) == if From(n, k + 1) > From(n, k) then From(n, k + 1) else From(n, k) + 1
  {
  }

  lemma BoxInside(n: nat, k: nat)
    requires n > 0 && k < ICON
    ensures From(n, k) < To(n, k) <= n
  {
    TimesMonotone(n, k, ICON - 1);
    TimesMonotone(n, k + 1, ICON);
  }

  /** From 16 pixels on, each box ends where the next begins, and they fill the side. */
  lemma BoxesMeet(n: nat, k: nat)
    requires n >= ICON && k < ICON
    ensures From(n, 0) == 0 && From(n, ICON) == n && To(n, k) == From(n, k + 1)
  {
    assert (k + 1) * n == k * n + n;
  }

  lemma {:induction false} EachInSomeBox(n: nat, p: nat, k: nat)
    requires n >= ICON && k <= ICON && p < From(n, k)
    ensures exists j :: 0 <= j < k && From(n, j) <= p < To(n, j)
  {
    if k > 0 {
      BoxesMeet(n, k - 1);
      if p < From(n, k - 1) { EachInSomeBox(n, p, k - 1); }
    } else {
      BoxesMeet(n, 0);
    }
  }

  lemma {:induction false} BoxesInOrder(n: nat, j: nat, k: nat)
    requires n >= ICON && j < k <= ICON
    ensures To(n, j) <= From(n, k)
    decreases k
  {
    BoxesMeet(n, j);
    if j + 1 < k {
      BoxesInOrder(n, j, k - 1);
      BoxInside(n, k - 1);
      BoxesMeet(n, k - 1);
    }
  }

  /** So each pixel of the side is in one box and no other. */
  lemma EachInOneBox(n: nat, p: nat)
    requires ICON <= n && p < n
    ensures exists k :: 0 <= k < ICON && From(n, k) <= p < To(n, k)
    ensures forall j, k :: 0 <= j < k < ICON && From(n, j) <= p < To(n, j) ==> !(From(n, k) <= p < To(n, k))
  {
    BoxesMeet(n, 0);
    EachInSomeBox(n, p, ICON);
    forall j, k | 0 <= j < k < ICON
      ensures To(n, j) <= From(n, k)
    {
      BoxesInOrder(n, j, k);
    }
  }

  lemma {:induction false} AcrossSplits(pic: Picture, c: Channel, y: nat, x0: nat, x1: nat, x2: nat)
    requires pic.Valid() && y < pic.h && x0 <= x1 <= x2 <= pic.w
    ensures pic.Across(c, y, x0, x2) == pic.Across(c, y, x0, x1) + pic.Across(c, y, x1, x2)
    decreases x2
  {
    if x1 < x2 { AcrossSplits(pic, c, y, x0, x1, x2 - 1); }
  }

  lemma {:induction false} BlockSplitsAcross(pic: Picture, c: Channel, x0: nat, x1: nat, x2: nat, y0: nat, y1: nat)
    requires pic.Valid() && x0 <= x1 <= x2 <= pic.w && y0 <= y1 <= pic.h
    ensures pic.Block(c, x0, x2, y0, y1) == pic.Block(c, x0, x1, y0, y1) + pic.Block(c, x1, x2, y0, y1)
    decreases y1
  {
    if y0 < y1 {
      BlockSplitsAcross(pic, c, x0, x1, x2, y0, y1 - 1);
      AcrossSplits(pic, c, y1 - 1, x0, x1, x2);
    }
  }

  lemma {:induction false} BlockSplitsDown(pic: Picture, c: Channel, x0: nat, x1: nat, y0: nat, y1: nat, y2: nat)
    requires pic.Valid() && x0 <= x1 <= pic.w && y0 <= y1 <= y2 <= pic.h
    ensures pic.Block(c, x0, x1, y0, y2) == pic.Block(c, x0, x1, y0, y1) + pic.Block(c, x0, x1, y1, y2)
    decreases y2
  {
    if y1 < y2 { BlockSplitsDown(pic, c, x0, x1, y0, y1, y2 - 1); }
  }

  /** And a rectangle of one pixel is that pixel's share. */
  lemma BlockOfOne(pic: Picture, c: Channel, x: nat, y: nat)
    requires pic.Valid() && x < pic.w && y < pic.h
    ensures pic.Block(c, x, x + 1, y, y + 1) == Share(pic.At(x, y), c)
  {
    assert pic.Across(c, y, x, x) == 0 && pic.Block(c, x, x + 1, y, y) == 0;
  }

  /** The sum over one icon pixel's box. */
  function Box(pic: Picture, c: Channel, x: nat, y: nat): nat
    requires pic.Valid() && x < ICON && y < ICON
  {
    BoxInside(pic.w, x);
    BoxInside(pic.h, y);
    pic.Block(c, From(pic.w, x), To(pic.w, x), From(pic.h, y), To(pic.h, y))
  }

  function Times(w: nat, h: nat): (n: nat)
    ensures w > 0 && h > 0 ==> n > 0
  {
    TimesMonotone(w, 0, h);
    TimesMonotone(w, 1, h);
    w * h
  }

  function Quotient(a: nat, n: nat): nat
    requires n > 0
  {
    a / n
  }

  function Area(pic: Picture, x: nat, y: nat): (n: nat)
    requires pic.Valid() && x < ICON && y < ICON
    ensures n > 0
  {
    BoxInside(pic.w, x);
    BoxInside(pic.h, y);
    Times(To(pic.w, x) - From(pic.w, x), To(pic.h, y) - From(pic.h, y))
  }

  ghost function BoxesAcross(pic: Picture, c: Channel, y: nat, n: nat): nat
    requires pic.Valid() && y < ICON && n <= ICON
  {
    if n == 0 then 0 else BoxesAcross(pic, c, y, n - 1) + Box(pic, c, n - 1, y)
  }

  ghost function BoxesDown(pic: Picture, c: Channel, n: nat): nat
    requires pic.Valid() && n <= ICON
  {
    if n == 0 then 0 else BoxesDown(pic, c, n - 1) + BoxesAcross(pic, c, n - 1, ICON)
  }

  lemma {:induction false} RowOfBoxes(pic: Picture, c: Channel, y: nat, n: nat)
    requires pic.Valid() && pic.w >= ICON && y < ICON && n <= ICON
    ensures From(pic.w, n) <= pic.w && From(pic.h, y) < To(pic.h, y) <= pic.h
    ensures BoxesAcross(pic, c, y, n) == pic.Block(c, 0, From(pic.w, n), From(pic.h, y), To(pic.h, y))
  {
    hide From, To, Picture.Block;
    BoxInside(pic.h, y);
    if n == 0 {
      BoxesMeet(pic.w, 0);
      EmptyBlock(pic, c, From(pic.h, y), To(pic.h, y));
    } else {
      RowOfBoxes(pic, c, y, n - 1);
      BoxesMeet(pic.w, n - 1);
      BoxInside(pic.w, n - 1);
      BlockSplitsAcross(pic, c, 0, From(pic.w, n - 1), From(pic.w, n), From(pic.h, y), To(pic.h, y));
    }
  }

  lemma {:induction false} EmptyBlock(pic: Picture, c: Channel, y0: nat, y1: nat)
    requires pic.Valid() && y0 <= y1 <= pic.h
    ensures pic.Block(c, 0, 0, y0, y1) == 0
    decreases y1
  {
    if y0 < y1 { EmptyBlock(pic, c, y0, y1 - 1); }
  }

  lemma NoRows(pic: Picture, c: Channel, x0: nat, x1: nat, y: nat)
    requires pic.Valid() && x0 <= x1 <= pic.w && y <= pic.h
    ensures pic.Block(c, x0, x1, y, y) == 0
  {
  }

  lemma {:induction false} GridOfBoxes(pic: Picture, c: Channel, n: nat)
    requires pic.Valid() && pic.w >= ICON && pic.h >= ICON && n <= ICON
    ensures From(pic.h, n) <= pic.h && BoxesDown(pic, c, n) == pic.Block(c, 0, pic.w, 0, From(pic.h, n))
  {
    hide From, To, Box, Picture.Block, BoxesAcross;
    if n == 0 {
      BoxesMeet(pic.h, 0);
      NoRows(pic, c, 0, pic.w, 0);
    } else {
      GridOfBoxes(pic, c, n - 1);
      BoxesMeet(pic.h, n - 1);
      RowOfBoxes(pic, c, n - 1, ICON);
      BoxesMeet(pic.w, 0);
      BlockSplitsDown(pic, c, 0, pic.w, 0, From(pic.h, n - 1), From(pic.h, n));
    }
  }

  /** Of a picture of at least 16 by 16, the boxes hold everything once: their sums add up to the picture's. */
  lemma BoxesAddUp(pic: Picture, c: Channel)
    requires pic.Valid() && pic.w >= ICON && pic.h >= ICON
    ensures BoxesDown(pic, c, ICON) == pic.Block(c, 0, pic.w, 0, pic.h)
  {
    hide BoxesDown;
    GridOfBoxes(pic, c, ICON);
    BoxesMeet(pic.h, 0);
  }

  /** No colour of a premultiplied pixel is more than its alpha. */
  predicate Premultiplied(p: Word) {
    forall c: Channel :: Byte(p, c) <= Byte(p, Alpha)
  }

  /** The shares of a row's columns `x0` up to `x1` are all within bounds. */
  ghost predicate RowWithin(pic: Picture, c: Channel, y: nat, x0: nat, x1: nat, lo: nat, hi: nat)
    requires pic.Valid() && y < pic.h && x0 <= x1 <= pic.w
  {
    forall x :: x0 <= x < x1 ==> lo <= Share(pic.At(x, y), c) <= hi
  }

  ghost predicate Within(pic: Picture, c: Channel, x0: nat, x1: nat, y0: nat, y1: nat, lo: nat, hi: nat)
    requires pic.Valid() && x0 <= x1 <= pic.w && y0 <= y1 <= pic.h
  {
    forall y :: y0 <= y < y1 ==> RowWithin(pic, c, y, x0, x1, lo, hi)
  }

  /** A sum of shares lies between as many times the least of them and the greatest. */
  lemma {:induction false} AcrossBetween(pic: Picture, c: Channel, y: nat, x0: nat, x1: nat, lo: nat, hi: nat)
    requires pic.Valid() && y < pic.h && x0 <= x1 <= pic.w && RowWithin(pic, c, y, x0, x1, lo, hi)
    ensures Times(x1 - x0, lo) <= pic.Across(c, y, x0, x1) <= Times(x1 - x0, hi)
    decreases x1
  {
    hide Share, Picture.At;
    if x0 < x1 {
      AcrossBetween(pic, c, y, x0, x1 - 1, lo, hi);
      TimesStep(x1 - x0, lo);
      TimesStep(x1 - x0, hi);
    }
  }

  lemma TimesStep(w: nat, s: nat)
    requires w > 0
    ensures Times(w, s) == Times(w - 1, s) + s
  {
  }

  /** A rectangle's last row. */
  lemma TimesRow(w: nat, h: nat, s: nat)
    requires h > 0
    ensures Times(Times(w, h), s) == Times(Times(w, h - 1), s) + Times(w, s)
    ensures Times(w, h) == Times(w, h - 1) + w
  {
    assert w * h == w * (h - 1) + w;
    assert (w * (h - 1) + w) * s == w * (h - 1) * s + w * s;
  }

  lemma {:induction false} BlockBetween(pic: Picture, c: Channel, x0: nat, x1: nat, y0: nat, y1: nat, lo: nat, hi: nat)
    requires pic.Valid() && x0 <= x1 <= pic.w && y0 <= y1 <= pic.h && Within(pic, c, x0, x1, y0, y1, lo, hi)
    ensures Times(Times(x1 - x0, y1 - y0), lo) <= pic.Block(c, x0, x1, y0, y1)
    ensures pic.Block(c, x0, x1, y0, y1) <= Times(Times(x1 - x0, y1 - y0), hi)
    decreases y1
  {
    hide RowWithin, Picture.Across, Times;
    if y0 < y1 {
      BlockBetween(pic, c, x0, x1, y0, y1 - 1, lo, hi);
      AcrossBetween(pic, c, y1 - 1, x0, x1, lo, hi);
      TimesRow(x1 - x0, y1 - y0, lo);
      TimesRow(x1 - x0, y1 - y0, hi);
    } else {
      NoTimes(x1 - x0, lo);
      NoTimes(x1 - x0, hi);
    }
  }

  lemma NoTimes(w: nat, s: nat)
    ensures Times(w, 0) == 0 && Times(0, s) == 0
  {
  }

  /** An average lies between what it averages. */
  lemma AverageBetween(sum: nat, n: nat, lo: nat, hi: nat)
    requires n > 0 && Times(n, lo) <= sum <= Times(n, hi)
    ensures lo <= Quotient(sum, n) <= hi
  {
    TimesMonotone(n, sum / n + 1, lo);
    TimesMonotone(n, hi + 1, sum / n);
    assert n * (sum / n) <= sum < n * (sum / n + 1);
  }

  function Average(pic: Picture, c: Channel, x: nat, y: nat): (r: nat)
    requires pic.Valid() && x < ICON && y < ICON
  {
    Quotient(Box(pic, c, x, y), Area(pic, x, y))
  }

  /** An icon pixel's share of a channel is within what its box's pixels have. */
  lemma BoxAveraged(pic: Picture, c: Channel, x: nat, y: nat, lo: nat, hi: nat)
    requires pic.Valid() && x < ICON && y < ICON
    requires To(pic.w, x) <= pic.w && To(pic.h, y) <= pic.h && From(pic.w, x) <= To(pic.w, x) && From(pic.h, y) <= To(pic.h, y)
    requires Within(pic, c, From(pic.w, x), To(pic.w, x), From(pic.h, y), To(pic.h, y), lo, hi)
    ensures lo <= Average(pic, c, x, y) <= hi
  {
    hide Within, Picture.Block, Times, Quotient, From, To;
    BlockBetween(pic, c, From(pic.w, x), To(pic.w, x), From(pic.h, y), To(pic.h, y), lo, hi);
    AverageBetween(Box(pic, c, x, y), Area(pic, x, y), lo, hi);
  }

  lemma {:induction false} AcrossWithinAlpha(pic: Picture, c: Channel, y: nat, x0: nat, x1: nat)
    requires pic.Valid() && y < pic.h && x0 <= x1 <= pic.w
    ensures pic.Across(c, y, x0, x1) <= pic.Across(Alpha, y, x0, x1)
    decreases x1
  {
    if x0 < x1 { AcrossWithinAlpha(pic, c, y, x0, x1 - 1); }
  }

  lemma {:induction false} BlockWithinAlpha(pic: Picture, c: Channel, x0: nat, x1: nat, y0: nat, y1: nat)
    requires pic.Valid() && x0 <= x1 <= pic.w && y0 <= y1 <= pic.h
    ensures pic.Block(c, x0, x1, y0, y1) <= pic.Block(Alpha, x0, x1, y0, y1)
    decreases y1
  {
    if y0 < y1 {
      BlockWithinAlpha(pic, c, x0, x1, y0, y1 - 1);
      AcrossWithinAlpha(pic, c, y1 - 1, x0, x1);
    }
  }

  /** The averages are bytes, and no colour's is more than the alpha's. */
  lemma AveragesPremultiplied(pic: Picture, x: nat, y: nat)
    requires pic.Valid() && x < ICON && y < ICON
    ensures forall c :: Average(pic, c, x, y) <= Average(pic, Alpha, x, y)
    ensures Average(pic, Alpha, x, y) < 256
  {
    hide Picture.Block, Times, Quotient, From, To;
    BoxInside(pic.w, x);
    BoxInside(pic.h, y);
    BoxAveraged(pic, Alpha, x, y, 0, 255);
    forall c: Channel
      ensures Average(pic, c, x, y) <= Average(pic, Alpha, x, y)
    {
      BlockWithinAlpha(pic, c, From(pic.w, x), To(pic.w, x), From(pic.h, y), To(pic.h, y));
      DivideMonotone(Box(pic, c, x, y), Box(pic, Alpha, x, y), Area(pic, x, y));
    }
  }

  lemma DivideMonotone(a: nat, b: nat, n: nat)
    requires a <= b && n > 0
    ensures Quotient(a, n) <= Quotient(b, n)
  {
    TimesMonotone(n, b / n + 1, a / n);
  }

  /** The icon's pixel: each channel averaged over its box. */
  predicate IsBoxed(pic: Picture, x: nat, y: nat, p: Word)
    requires pic.Valid() && x < ICON && y < ICON
  {
    forall c :: Byte(p, c) == Average(pic, c, x, y)
  }

  /** The average is of the box's rectangle, over the count of its pixels, the rest cut off. */
  lemma BoxedIs(pic: Picture, x: nat, y: nat, p: Word, c: Channel)
    requires pic.Valid() && x < ICON && y < ICON && IsBoxed(pic, x, y, p)
    ensures From(pic.w, x) < To(pic.w, x) <= pic.w && From(pic.h, y) < To(pic.h, y) <= pic.h
    ensures var n := (To(pic.w, x) - From(pic.w, x)) * (To(pic.h, y) - From(pic.h, y));
            var sum := pic.Block(c, From(pic.w, x), To(pic.w, x), From(pic.h, y), To(pic.h, y));
            n * Byte(p, c) <= sum < n * Byte(p, c) + n
  {
    hide From, To, Byte, Picture.Block;
    BoxInside(pic.w, x);
    BoxInside(pic.h, y);
    QuotientIs(Box(pic, c, x, y), Area(pic, x, y));
  }

  lemma QuotientIs(a: nat, n: nat)
    requires n > 0
    ensures n * Quotient(a, n) <= a < n * Quotient(a, n) + n
  {
  }

  /** Which says all of the pixel. */
  lemma BoxedIsOne(pic: Picture, x: nat, y: nat, p: Word, q: Word)
    requires pic.Valid() && x < ICON && y < ICON && IsBoxed(pic, x, y, p) && IsBoxed(pic, x, y, q)
    ensures p == q
  {
    hide Average;
    BytesDecide(p, q);
  }

  method BoxPixel(pic: Picture, x: nat, y: nat) returns (p: Word)
    requires pic.Valid() && x < ICON && y < ICON
    ensures IsBoxed(pic, x, y, p) && Premultiplied(p)
  {
    var x0, x1 := Bounds(pic.w, x);
    var y0, y1 := Bounds(pic.h, y);
    AveragesPremultiplied(pic, x, y);
    var cnt, sa, sr, sg, sb := BoxSums(pic, x0, x1, y0, y1);
    hide From, To, Picture.Block, Pack, Times, Quotient;
    assert cnt == Area(pic, x, y);
    assert Quotient(sa, cnt) == Average(pic, Alpha, x, y) && Quotient(sr, cnt) == Average(pic, Red, x, y);
    assert Quotient(sg, cnt) == Average(pic, Green, x, y) && Quotient(sb, cnt) == Average(pic, Blue, x, y);
    p := 0;
    if cnt > 0 {
      p := Pack(Quotient(sa, cnt), Quotient(sr, cnt), Quotient(sg, cnt), Quotient(sb, cnt));
    }
  }

  method Bounds(n: nat, k: nat) returns (a: nat, b: nat)
    requires n > 0 && k < ICON
    ensures a == From(n, k) && b == To(n, k) && a < b <= n
  {
    BoxInside(n, k);
    a, b := k * n / ICON, (k + 1) * n / ICON;
    if b <= a { b := a + 1; }
  }

  /** What the pixels of a box add up to, channel by channel, and how many there are. */
  method BoxSums(pic: Picture, x0: nat, x1: nat, y0: nat, y1: nat)
    returns (cnt: nat, sa: nat, sr: nat, sg: nat, sb: nat)
    requires pic.Valid() && x0 < x1 <= pic.w && y0 < y1 <= pic.h
    ensures cnt == Times(x1 - x0, y1 - y0)
    ensures sa == pic.Block(Alpha, x0, x1, y0, y1) && sr == pic.Block(Red, x0, x1, y0, y1)
    ensures sg == pic.Block(Green, x0, x1, y0, y1) && sb == pic.Block(Blue, x0, x1, y0, y1)
  {
    hide Share, Picture.At, Picture.Across;
    cnt, sa, sr, sg, sb := 0, 0, 0, 0, 0;
    var yy := y0;
    while yy < y1 && yy < pic.h
      invariant y0 <= yy <= y1
      invariant cnt == Times(x1 - x0, yy - y0)
      invariant sa == pic.Block(Alpha, x0, x1, y0, yy) && sr == pic.Block(Red, x0, x1, y0, yy)
      invariant sg == pic.Block(Green, x0, x1, y0, yy) && sb == pic.Block(Blue, x0, x1, y0, yy)
    {
      var n, a, r, g, b := RowSums(pic, yy, x0, x1);
      TimesRow(x1 - x0, yy + 1 - y0, 1);
      cnt, sa, sr, sg, sb := cnt + n, sa + a, sr + r, sg + g, sb + b;
      yy := yy + 1;
    }
  }

  /** One source row of a box. */
  method RowSums(pic: Picture, yy: nat, x0: nat, x1: nat) returns (n: nat, a: nat, r: nat, g: nat, b: nat)
    requires pic.Valid() && yy < pic.h && x0 <= x1 <= pic.w
    ensures n == x1 - x0
    ensures a == pic.Across(Alpha, yy, x0, x1) && r == pic.Across(Red, yy, x0, x1)
    ensures g == pic.Across(Green, yy, x0, x1) && b == pic.Across(Blue, yy, x0, x1)
  {
    n, a, r, g, b := 0, 0, 0, 0, 0;
    var xx := x0;
    while xx < x1 && xx < pic.w
      invariant x0 <= xx <= x1 && n == xx - x0
      invariant a == pic.Across(Alpha, yy, x0, xx) && r == pic.Across(Red, yy, x0, xx)
      invariant g == pic.Across(Green, yy, x0, xx) && b == pic.Across(Blue, yy, x0, xx)
    {
      var p := pic.At(xx, yy);
      a, r, g, b := a + Share(p, Alpha), r + Share(p, Red), g + Share(p, Green), b + Share(p, Blue);
      n := n + 1;
      xx := xx + 1;
    }
  }

  ghost predicate Right(pic: Picture, icon: seq<Word>, x: nat, y: nat)
    requires pic.Valid() && x < ICON && y < ICON && |icon| == ICON * ICON
  {
    IsBoxed(pic, x, y, icon[y * ICON + x]) && Premultiplied(icon[y * ICON + x])
  }

  /** The icon of a picture, row by row. */
  method Shrink(pic: Picture, icon: array<Word>)
    requires pic.Valid() && icon.Length == ICON * ICON
    modifies icon
    ensures forall x, y :: 0 <= x < ICON && 0 <= y < ICON ==> Right(pic, icon[..], x, y)
  {
    hide IsBoxed, Premultiplied;
    for y := 0 to ICON
      invariant forall i, j :: 0 <= i < ICON && 0 <= j < y ==> Right(pic, icon[..], i, j)
    {
      for x := 0 to ICON
        invariant forall i, j :: 0 <= i < ICON && 0 <= j < ICON && (j < y || (j == y && i < x)) ==>
                    Right(pic, icon[..], i, j)
      {
        var p := BoxPixel(pic, x, y);
        ghost var before := icon[..];
        icon[y * ICON + x] := p;
        forall i, j | 0 <= i < ICON && 0 <= j < ICON && (j < y || (j == y && i < x))
          ensures Right(pic, icon[..], i, j)
        {
          assert Right(pic, before, i, j);
        }
      }
    }
  }

  /** It is: icon pixel (`x`, `y`), row by row of 16, is the average of its box. */
  lemma RightIs(pic: Picture, icon: seq<Word>, x: nat, y: nat)
    requires pic.Valid() && x < 16 && y < 16 && |icon| == 256 && Right(pic, icon, x, y)
    ensures IsBoxed(pic, x, y, icon[16 * y + x])
  {
  }

  /** An entry's pixels. */
  function PictureOf(v: seq<Word>, e: nat): (pic: Picture)
    requires Well(v, e)
    ensures pic.Valid() && pic.w == v[e] && pic.h == v[e + 1]
  {
    Picture(v[e + 2..e + Length(v[e], v[e + 1])], v[e], v[e + 1])
  }

  /** They follow its width and height, row by row. */
  lemma PictureIs(v: seq<Word>, e: nat, x: nat, y: nat)
    requires Well(v, e) && x < v[e] && y < v[e + 1]
    ensures 0 <= e + 2 + v[e] * y + x < |v| && PictureOf(v, e).At(x, y) == v[e + 2 + v[e] * y + x]
  {
    PlaceInside(v[e], v[e + 1], x, y);
  }

  /** The entries: one after another from the first word on, while their sizes are 1 to 1024 and they are all there. */
  lemma EntriesAre(v: seq<Word>, i: nat, area: nat)
    requires i + 2 <= |v| ==> area == (v[i] as int) * (v[i + 1] as int)
    ensures Entries(v, i) ==
      if i + 2 <= |v| && 1 <= v[i] <= 1024 && 1 <= v[i + 1] <= 1024 && i + 2 + area <= |v|
      then [i] + Entries(v, i + 2 + area) else []
  {
  }

  /** The entry picked is, of those at least 16 wide, one of the narrowest, and with none so wide one of the widest; of
    one width it is the first. */
  lemma PickedIs(v: seq<Word>, k: int, j: int)
    requires Picked(v, Entries(v, 0), k) && 0 <= j < |Entries(v, 0)|
    ensures 0 <= k < |Entries(v, 0)| && Entries(v, 0)[k] < |v| && Entries(v, 0)[j] < |v|
    ensures var mine, other := v[Entries(v, 0)[k]], v[Entries(v, 0)[j]];
            && (mine >= 16 && other >= 16 ==> mine <= other)
            && (mine < 16 ==> other <= mine)
            && (mine == other ==> k <= j)
  {
    hide Entries, Length;
  }

  /** The window's icon is read from the property, if it has any entry. */
  method FetchIcon(v: seq<Word>, icon: array<Word>) returns (has: bool)
    requires icon.Length == ICON * ICON
    modifies icon
    ensures has <==> Entries(v, 0) != []
    ensures has ==> exists k :: Picked(v, Entries(v, 0), k)
                                && forall x, y :: 0 <= x < ICON && 0 <= y < ICON ==>
                                     Right(PictureOf(v, Entries(v, 0)[k]), icon[..], x, y)
    ensures !has ==> icon[..] == old(icon[..])
  {
    hide Well, Picked, Right, Entries, Length;
    var best, bw, bh := Choose(v);
    has := bw > 0;
    if has {
      Shrink(PictureOf(v, best), icon);
    }
  }

  // ---- over the bar ----

  /** A premultiplied pixel over another: every channel its own and what its alpha leaves of the other's. */
  ghost predicate IsOver(s: Word, b: Word, p: Word) {
    Byte(p, Alpha) == 255 && forall c: Channel :: c != Alpha ==> Byte(p, c) == Laid(Byte(s, c), Byte(b, c), Byte(s, Alpha))
  }

  /** Each colour is its own and, of the other's, what 255 less the alpha leaves of it, the rest cut off. */
  lemma OverIs(s: Word, b: Word, p: Word, c: Channel)
    requires IsOver(s, b, p)
    ensures Byte(p, Alpha) == 255
    ensures c != Alpha ==>
      255 * (Byte(p, c) - Byte(s, c)) <= Byte(b, c) * (255 - Byte(s, Alpha)) < 255 * (Byte(p, c) - Byte(s, c)) + 255
  {
    hide Byte;
    LaidIs(Byte(s, c), Byte(b, c), Byte(s, Alpha));
  }

  function Laid(s: nat, b: nat, a: nat): (r: nat)
    requires b < 256 && a < 256
  {
    TimesMonotone(255 - a, 0, b);
    s + b * (255 - a) / 255
  }

  lemma LaidIs(s: nat, b: nat, a: nat)
    requires b < 256 && a < 256
    ensures 255 * (Laid(s, b, a) - s) <= b * (255 - a) < 255 * (Laid(s, b, a) - s) + 255
  {
    TimesMonotone(255 - a, 0, b);
  }

  /** With a colour no more than the alpha it does not pass 255; and it may where the colour is more. */
  lemma LaidFits(s: nat, a: nat)
    requires s < 256 && a < 256
    ensures (forall b: nat :: b < 256 ==> Laid(s, b, a) <= 255) <==> s <= a
  {
    forall b: nat | b < 256
      ensures Laid(s, b, a) <= s + 255 - a
    {
      TimesMonotone(255 - a, b, 255);
    }
    assert Laid(s, 255, a) == s + 255 - a;
  }

  /** As the source has it, with a limit of 255 on every channel, which is never reached from below. */
  method Blend(s: Word, b: Word) returns (p: Word)
    requires Premultiplied(s)
    ensures IsOver(s, b, p)
  {
    var a := Byte(s, Alpha);
    LaidFits(Byte(s, Red), a);
    LaidFits(Byte(s, Green), a);
    LaidFits(Byte(s, Blue), a);
    var red, green := Laid(Byte(s, Red), Byte(b, Red), a), Laid(Byte(s, Green), Byte(b, Green), a);
    var blue := Laid(Byte(s, Blue), Byte(b, Blue), a);
    p := Pack(255, if red > 255 then 255 else red, if green > 255 then 255 else green, if blue > 255 then 255 else blue);
  }

  function Toward(a: int, b: nat): int
    requires b > 0
  {
    if a >= 0 then a / b else -(-a / b)
  }

  /** The icon's first row, in a bar of the given height below the frame's top. */
  function FirstRow(top: nat, height: nat): int {
    top + Toward(height - top - ICON, 2)
  }

  /** The icon's rows are the bar's just when the caption is at least 16 pixels high. */
  lemma IconFitsTheBarExactly(top: nat, height: nat)
    requires top <= height
    ensures 0 <= FirstRow(top, height) && FirstRow(top, height) + ICON <= height <==> height - top >= ICON
  {
  }

  /** It is in the middle: as many rows above as below, or one fewer. */
  lemma IconInTheMiddle(top: nat, height: nat)
    requires top <= height && height - top >= 16
    ensures var above, below := FirstRow(top, height) - top, height - (FirstRow(top, height) + 16);
            above == below || above == below - 1
  {
  }

  /** In a lower one, and captions from 12 are taken, the icon's last row is past the bar's last pixel. */
  lemma LowCaptionRunsOver(w: nat, height: nat, left: nat, top: nat)
    requires left < w && top <= height < top + ICON
    ensures w * (FirstRow(top, height) + ICON - 1) + left >= w * height
  {
    TimesMonotone(w, height, FirstRow(top, height) + ICON - 1);
  }

  /** The bar's pixels with the icon over them, cut at the bar's right end. */
  ghost predicate Composed(was: seq<Word>, now: seq<Word>, w: nat, icon: seq<Word>, left: nat, row: int)
    requires |was| == |now| && |icon| == ICON * ICON && w > 0
  {
    forall p :: 0 <= p < |was| ==> Laying(was, now, w, icon, left, row, p)
  }

  ghost predicate Laying(was: seq<Word>, now: seq<Word>, w: nat, icon: seq<Word>, left: nat, row: int, p: nat)
    requires |was| == |now| && |icon| == ICON * ICON && w > 0 && p < |was|
  {
    var x, y := p % w - left, p / w - row;
    if 0 <= x < ICON && 0 <= y < ICON then IsOver(icon[y * ICON + x], was[p], now[p]) else now[p] == was[p]
  }

  /** Pixel (`x`, `y`) of the icon is over the bar's at `left` and the first row, and nothing else changes. */
  lemma ComposedIs(was: seq<Word>, now: seq<Word>, w: nat, icon: seq<Word>, left: nat, row: int, p: nat)
    requires |was| == |now| && |icon| == 256 && w > 0 && Composed(was, now, w, icon, left, row) && p < |was|
    ensures var x, y := p % w - left, p / w - row;
            && (0 <= x < 16 && 0 <= y < 16 ==> 0 <= 16 * y + x < 256 && IsOver(icon[16 * y + x], was[p], now[p]))
            && (!(0 <= x < 16 && 0 <= y < 16) ==> now[p] == was[p])
  {
    assert Laying(was, now, w, icon, left, row, p);
  }

  /** Up to a place of the icon, it is laid; from there on, the bar is as it was. */
  ghost predicate LaidSoFar(was: seq<Word>, now: seq<Word>, w: nat, icon: seq<Word>, left: nat, row: int, i: nat, j: nat)
    requires |was| == |now| && |icon| == ICON * ICON && w > 0
  {
    forall p :: 0 <= p < |was| ==>
      var x, y := p % w - left, p / w - row;
      if y < j || (y == j && x < i) then Laying(was, now, w, icon, left, row, p) else now[p] == was[p]
  }

  method Compose(data: array<Word>, w: nat, height: nat, icon: array<Word>, left: nat, top: nat)
    requires data != icon && w > 0 && data.Length == w * height && icon.Length == ICON * ICON
    requires top <= height && (height - top >= ICON || left >= w)
    requires forall k :: 0 <= k < icon.Length ==> Premultiplied(icon[k])
    modifies data
    ensures Composed(old(data[..]), data[..], w, icon[..], left, FirstRow(top, height))
  {
    var iy := FirstRow(top, height);
    ghost var was := data[..];
    for y := 0 to ICON
      invariant LaidSoFar(was, data[..], w, icon[..], left, iy, 0, y)
    {
      var x := 0;
      while x < ICON && left + x < w
        invariant x <= ICON && LaidSoFar(was, data[..], w, icon[..], left, iy, x, y)
      {
        PlaceInside(w, height, left + x, iy + y);
        var p := w * (iy + y) + (left + x);
        SplitUnique(w, iy + y, left + x, p);
        var over := Blend(icon[y * ICON + x], data[p]);
        ghost var before := data[..];
        data[p] := over;
        LaidOne(was, before, data[..], w, icon[..], left, iy, x, y);
        x := x + 1;
      }
      LaidRow(was, data[..], w, icon[..], left, iy, x, y);
    }
  }

  lemma LaidOne(was: seq<Word>, before: seq<Word>, now: seq<Word>, w: nat, icon: seq<Word>, left: nat, row: int, x: nat, y: nat)
    requires |was| == |before| && |icon| == ICON * ICON && w > 0 && left + x < w && x < ICON && y < ICON
    requires 0 <= w * (row + y) + (left + x) < |was| && |now| == |was|
    requires now == before[w * (row + y) + (left + x) := now[w * (row + y) + (left + x)]]
    requires IsOver(icon[y * ICON + x], before[w * (row + y) + (left + x)], now[w * (row + y) + (left + x)])
    requires LaidSoFar(was, before, w, icon, left, row, x, y)
    ensures LaidSoFar(was, now, w, icon, left, row, x + 1, y)
  {
    var place := w * (row + y) + (left + x);
    SplitUnique(w, row + y, left + x, place);
    forall p | 0 <= p < |was| && p != place
      ensures !(p % w - left == x && p / w - row == y)
    {
      assert p == w * (p / w) + p % w;
    }
  }

  lemma LaidRow(was: seq<Word>, now: seq<Word>, w: nat, icon: seq<Word>, left: nat, row: int, x: nat, y: nat)
    requires |was| == |now| && |icon| == ICON * ICON && w > 0 && y < ICON && (x == ICON || left + x >= w)
    requires LaidSoFar(was, now, w, icon, left, row, x, y)
    ensures LaidSoFar(was, now, w, icon, left, row, 0, y + 1)
  {
  }
}
