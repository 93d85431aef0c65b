/** The light by panes (`make_panes`' statistics, `pane_level`, `light_panes` and the light's frame of
  `animate` in sg-deskcomp.c).

  Each pane's pixel count and extent are gathered in one pass over the labels. A light then gives every
  small pane one of nine levels, and every lead or big-pane pixel its own; what is drawn again is the
  light's box, grown over every pane whose level changed.
 */
module PaneLight {
  import opened Raster

  /** The picture is labelled at a quarter of its size. */
  const PANE_SCALE := 4

  /** One pane's gathered figures: its pixels, their coordinate sums, and its least and greatest columns and rows. */
  datatype Extent = Extent(count: nat, sx: nat, sy: nat, x0: int, y0: int, x1: int, y1: int) {
    function Add(x: nat, y: nat): Extent {
      Extent(count + 1, sx + x, sy + y,
             if x < x0 then x else x0, if y < y0 then y else y0,
             if x > x1 then x else x1, if y > y1 then y else y1)
    }
  }

  function NoExtent(w: nat, h: nat): Extent {
    Extent(0, 0, 0, w, h, 0, 0)
  }

  function ExtentOf(labels: seq<int>, w: nat, h: nat, l: int): Extent
    requires w > 0
  {
    if labels == [] then NoExtent(w, h)
    else
      var i := |labels| - 1;
      var e := ExtentOf(labels[..i], w, h, l);
      if labels[i] == l then e.Add(i % w, i / w) else e
  }

  /** The one pass over the picture gathers every pane's figures. */
  method GatherExtents(pane: array<int>, w: nat, h: nat, n: nat) returns (extent: array<Extent>)
    requires w > 0 && pane.Length == w * h && forall p :: 0 <= p < pane.Length ==> 0 <= pane[p] <= n
    ensures extent.Length == n + 1
    ensures forall l :: 0 <= l <= n ==> extent[l] == ExtentOf(pane[..], w, h, l)
  {
    hide ExtentOf, Extent.Add;
    extent := new Extent[n + 1](_ => NoExtent(w, h));
    forall l
      ensures ExtentOf([], w, h, l) == NoExtent(w, h)
    {
      NothingGathered(w, h, l);
    }
    var i := 0;
    while i < pane.Length
      invariant 0 <= i <= pane.Length && extent.Length == n + 1 && fresh(extent)
      invariant forall l :: 0 <= l <= n ==> extent[l] == ExtentOf(pane[..i], w, h, l)
    {
      var l := pane[i];
      forall k
        ensures ExtentOf(pane[..i + 1], w, h, k) ==
                if k == l then ExtentOf(pane[..i], w, h, k).Add(i % w, i / w) else ExtentOf(pane[..i], w, h, k)
      {
        OneMoreGathered(pane[..], w, h, k, i);
      }
      extent[l] := extent[l].Add(i % w, i / w);
      i := i + 1;
    }
    assert pane[..i] == pane[..];
  }

  lemma NothingGathered(w: nat, h: nat, l: int)
    requires w > 0
    ensures ExtentOf([], w, h, l) == NoExtent(w, h)
  {
  }

  lemma OneMoreGathered(labels: seq<int>, w: nat, h: nat, l: int, i: nat)
    requires w > 0 && i < |labels|
    ensures ExtentOf(labels[..i + 1], w, h, l) ==
            if l == labels[i] then ExtentOf(labels[..i], w, h, l).Add(i % w, i / w) else ExtentOf(labels[..i], w, h, l)
  {
    hide Extent.Add;
    assert labels[..i + 1][..i] == labels[..i];
  }

  /** The figures, a pixel at a time: nothing at first; a pixel of the pane counts one, adds its column and its row, and
    widens the extent to them; any other changes nothing. */
  lemma FiguresGrow(labels: seq<int>, k: int, w: nat, h: nat, l: int)
    requires w > 0
    ensures ExtentOf([], w, h, l) == Extent(0, 0, 0, w, h, 0, 0)
    ensures k != l ==> ExtentOf(labels + [k], w, h, l) == ExtentOf(labels, w, h, l)
    ensures k == l ==>
      var was, e, x, y := ExtentOf(labels, w, h, l), ExtentOf(labels + [k], w, h, l), |labels| % w, |labels| / w;
      && e.count == was.count + 1 && e.sx == was.sx + x && e.sy == was.sy + y
      && e.x0 <= was.x0 && e.x0 <= x && (e.x0 == was.x0 || e.x0 == x) && e.y0 <= was.y0 && e.y0 <= y && (e.y0 == was.y0 || e.y0 == y)
      && e.x1 >= was.x1 && e.x1 >= x && (e.x1 == was.x1 || e.x1 == x) && e.y1 >= was.y1 && e.y1 >= y && (e.y1 == was.y1 || e.y1 == y)
  {
    assert (labels + [k])[..|labels|] == labels;
  }

  // ----- what the figures mean

  /** The pixel lies in the extent; and the extent is no larger than the pane on any side. */
  predicate InExtent(e: Extent, w: nat, p: nat)
    requires w > 0
  {
    e.x0 <= p % w <= e.x1 && e.y0 <= p / w <= e.y1
  }

  ghost predicate Touches(labels: seq<int>, w: nat, l: int, e: Extent)
    requires w > 0
  {
    && (exists p :: 0 <= p < |labels| && labels[p] == l && p % w == e.x0)
    && (exists p :: 0 <= p < |labels| && labels[p] == l && p % w == e.x1)
    && (exists p :: 0 <= p < |labels| && labels[p] == l && p / w == e.y0)
    && (exists p :: 0 <= p < |labels| && labels[p] == l && p / w == e.y1)
  }

  lemma {:induction false} ExtentHoldsPane(labels: seq<int>, w: nat, h: nat, l: int, p: nat)
    requires w > 0 && p < |labels| && labels[p] == l
    ensures InExtent(ExtentOf(labels, w, h, l), w, p) && ExtentOf(labels, w, h, l).count > 0
  {
    var i := |labels| - 1;
    if p < i {
      ExtentHoldsPane(labels[..i], w, h, l, p);
    }
  }

  lemma {:induction false} ExtentIsTight(labels: seq<int>, w: nat, h: nat, l: int)
    requires w > 0 && |labels| <= w * h && ExtentOf(labels, w, h, l).count > 0
    ensures Touches(labels, w, l, ExtentOf(labels, w, h, l))
  {
    var i := |labels| - 1;
    var was := ExtentOf(labels[..i], w, h, l);
    var e := ExtentOf(labels, w, h, l);
    assert forall p :: 0 <= p < i ==> labels[p] == labels[..i][p];
    if was.count > 0 {
      ExtentIsTight(labels[..i], w, h, l);
      var a :| 0 <= a < i && labels[..i][a] == l && a % w == was.x0;
      var b :| 0 <= b < i && labels[..i][b] == l && b % w == was.x1;
      var c :| 0 <= c < i && labels[..i][c] == l && c / w == was.y0;
      var d :| 0 <= d < i && labels[..i][d] == l && d / w == was.y1;
      assert labels[a] == labels[b] == labels[c] == labels[d] == l;
      assert labels[i] == l ==> i % w == i % w && i / w == i / w;
    } else {
      EmptyExtent(labels[..i], w, h, l);
      RowOf(w, h, i);
      assert labels[i] == l;
    }
  }

  lemma {:induction false} EmptyExtent(labels: seq<int>, w: nat, h: nat, l: int)
    requires w > 0 && ExtentOf(labels, w, h, l).count == 0
    ensures ExtentOf(labels, w, h, l) == NoExtent(w, h)
  {
    if labels != [] {
      EmptyExtent(labels[..|labels| - 1], w, h, l);
    }
  }

  /** The pixels of all panes, lead among them. */
  function TotalCount(labels: seq<int>, w: nat, h: nat, upTo: nat): nat
    requires w > 0
  {
    ExtentOf(labels, w, h, upTo).count + if upTo == 0 then 0 else TotalCount(labels, w, h, upTo - 1)
  }

  lemma {:induction false} TotalGrows(labels: seq<int>, w: nat, h: nat, upTo: nat)
    requires w > 0 && labels != [] && 0 <= labels[|labels| - 1]
    ensures TotalCount(labels, w, h, upTo) ==
            TotalCount(labels[..|labels| - 1], w, h, upTo) + if labels[|labels| - 1] <= upTo then 1 else 0
  {
    if upTo > 0 {
      TotalGrows(labels, w, h, upTo - 1);
    }
  }

  /** The counts of the panes and of the lead add up to the picture. */
  lemma {:induction false} CountsAddUp(labels: seq<int>, w: nat, h: nat, n: nat)
    requires w > 0 && forall p :: 0 <= p < |labels| ==> 0 <= labels[p] <= n
    ensures TotalCount(labels, w, h, n) == |labels|
  {
    if labels == [] {
      NoneCounted(w, h, n);
    } else {
      CountsAddUp(labels[..|labels| - 1], w, h, n);
      TotalGrows(labels, w, h, n);
    }
  }

  lemma {:induction false} NoneCounted(w: nat, h: nat, n: nat)
    requires w > 0
    ensures TotalCount([], w, h, n) == 0
  {
    if n > 0 { NoneCounted(w, h, n - 1); }
  }

  /** A pane's middle (the mean of its pixels) lies within its extent. */
  lemma {:induction false} MiddleWithinExtent(labels: seq<int>, w: nat, h: nat, l: int)
    requires w > 0 && |labels| <= w * h
    ensures var e := ExtentOf(labels, w, h, l);
      e.x0 * e.count <= e.sx <= e.x1 * e.count && e.y0 * e.count <= e.sy <= e.y1 * e.count
  {
    if labels != [] {
      var i := |labels| - 1;
      MiddleWithinExtent(labels[..i], w, h, l);
      var was := ExtentOf(labels[..i], w, h, l);
      var e := ExtentOf(labels, w, h, l);
      if labels[i] == l {
        SumStep(was.count, was.sx, was.x0, was.x1, i % w, e.x0, e.x1);
        SumStep(was.count, was.sy, was.y0, was.y1, i / w, e.y0, e.y1);
      }
    }
  }

  /** The middle of a pane on the screen, along one side: the mean of its pixels' places, from the sum of them. */
  function Middle(sum: nat, count: nat): real
    requires count > 0
  {
    (sum as real / count as real + 0.5) * PANE_SCALE as real
  }

  /** The quarter-size picture's places are four apart on the screen. */
  lemma FiguresOnScreen(e: Extent)
    requires e.count > 0
    ensures Middle(e.sx, e.count) == 4.0 * (e.sx as real / e.count as real) + 2.0
    ensures BoxOf(e) == Box(4 * e.x0, 4 * e.y0, 4 * (e.x1 - e.x0) + 4, 4 * (e.y1 - e.y0) + 4)
  {
  }

  /** It is in the pane's box. */
  lemma MiddleInBox(labels: seq<int>, w: nat, h: nat, l: int)
    requires w > 0 && |labels| <= w * h && ExtentOf(labels, w, h, l).count > 0
    ensures var e, b := ExtentOf(labels, w, h, l), BoxOf(ExtentOf(labels, w, h, l));
            && b.x as real <= Middle(e.sx, e.count) <= (b.x + b.width) as real
            && b.y as real <= Middle(e.sy, e.count) <= (b.y + b.height) as real
  {
    MiddleWithinExtent(labels, w, h, l);
    var e := ExtentOf(labels, w, h, l);
    hide ExtentOf;
    MeanBetween(e.sx, e.count, e.x0, e.x1);
    MeanBetween(e.sy, e.count, e.y0, e.y1);
  }

  lemma MeanBetween(sum: nat, count: nat, lo: int, hi: int)
    requires count > 0 && lo * count <= sum <= hi * count
    ensures lo as real <= sum as real / count as real <= hi as real
  {
    var mean := sum as real / count as real;
    assert mean * count as real == sum as real;
    assert (lo * count) as real == lo as real * count as real && (hi * count) as real == hi as real * count as real;
  }

  lemma SumStep(count: nat, sum: nat, lo: int, hi: int, x: nat, newLo: int, newHi: int)
    requires lo * count <= sum <= hi * count && newLo <= lo && newLo <= x && hi <= newHi && x <= newHi
    ensures newLo * (count + 1) <= sum + x <= newHi * (count + 1)
  {
    assert newLo * count <= lo * count && hi * count <= newHi * count;
  }

  // ----- the light

  datatype Box = Box(x: int, y: int, width: int, height: int)

  datatype Light = Light(x: int, y: int, r: nat)

  predicate Contains(outer: Box, inner: Box) {
    && outer.x <= inner.x && inner.x + inner.width <= outer.x + outer.width
    && outer.y <= inner.y && inner.y + inner.height <= outer.y + outer.height
  }

  /** The screen square a pixel of the quarter-size picture stands for. */
  function Square(w: nat, i: nat): Box
    requires w > 0
  {
    Box(i % w * PANE_SCALE, i / w * PANE_SCALE, PANE_SCALE, PANE_SCALE)
  }

  function BoxOf(e: Extent): Box {
    Box(e.x0 * PANE_SCALE, e.y0 * PANE_SCALE, (e.x1 - e.x0 + 1) * PANE_SCALE, (e.y1 - e.y0 + 1) * PANE_SCALE)
  }

  /** All the light touches: its colours spill to twice its reach. */
  function ReachBox(light: Light): Box {
    Box(light.x - 2 * light.r, light.y - 2 * light.r, 4 * light.r, 4 * light.r)
  }

  /** A box with room in it contains another just when it holds all the other's pixels. */
  lemma ContainsExactly(outer: Box, inner: Box)
    requires inner.width > 0 && inner.height > 0
    ensures Contains(outer, inner) <==>
      forall x: int, y: int :: Has(inner, x, y) ==> Has(outer, x, y)
  {
    if forall x: int, y: int :: Has(inner, x, y) ==> Has(outer, x, y) {
      assert Has(inner, inner.x, inner.y);
      assert Has(inner, inner.x + inner.width - 1, inner.y + inner.height - 1);
    }
  }

  predicate Has(b: Box, x: int, y: int) {
    b.x <= x < b.x + b.width && b.y <= y < b.y + b.height
  }

  /** A pixel's square is the screen's pixels it was taken from; a light's box is twice its reach each way. */
  lemma SquareExactly(w: nat, i: nat, x: nat, y: nat)
    requires w > 0
    ensures Has(Square(w, i), x, y) <==> x / 4 == i % w && y / 4 == i / w
  {
  }

  lemma ReachBoxExactly(light: Light, x: int, y: int)
    ensures Has(ReachBox(light), x, y) <==>
      -2 * light.r <= x - light.x < 2 * light.r && -2 * light.r <= y - light.y < 2 * light.r
  {
  }

  /** How lit at a distance from a light of a reach: full near, none far, evenly less between. */
  function PaneLevel(d: real, r: real): (level: real)
    requires d >= 0.0
    ensures 0.0 <= level <= 1.0
    ensures level > 0.0 ==> d < 1.25 * r || d == 0.0
    ensures d <= 0.55 * r ==> level == 1.0
    ensures 0.55 * r < d ==> level < 1.0
    ensures 0.55 * r < d && 1.25 * r <= d ==> level == 0.0
    ensures 0.55 * r < d < 1.25 * r ==> level == (1.25 * r - d) / (0.7 * r)
  {
    if d <= 0.55 * r then 1.0
    else if d >= 1.25 * r then 0.0
    else
      QuotientWithinOne(1.25 * r - d, 0.7 * r);
      (1.25 * r - d) / (0.7 * r)
  }

  lemma QuotientWithinOne(a: real, b: real)
    requires 0.0 <= a <= b && b > 0.0
    ensures 0.0 <= a / b <= 1.0 && (a < b ==> a / b < 1.0) && (a > 0.0 ==> a / b > 0.0)
  {
    var q := a / b;
    assert q * b == a;
    assert q >= 1.0 ==> q * b >= b;
  }

  /** It falls with the distance. */
  lemma PaneLevelFalls(d: real, e: real, r: real)
    requires 0.0 <= d <= e
    ensures PaneLevel(d, r) >= PaneLevel(e, r)
  {
    if 0.55 * r < d && e < 1.25 * r {
      QuotientFalls(1.25 * r - d, 1.25 * r - e, 0.7 * r);
    }
  }

  lemma QuotientFalls(a: real, b: real, c: real)
    requires a >= b && c > 0.0
    ensures a / c >= b / c
  {
  }

  /** A pane's level is one of nine. */
  function Eighths(level: real): (q: int)
    requires 0.0 <= level <= 1.0
    ensures 0 <= q <= 8
    ensures q as real - 0.5 <= 8.0 * level < q as real + 0.5
  {
    (level * 8.0 + 0.5).Floor
  }

  /** How strong the light's mask is at a level, of 144, and how strong the veil that is left, of 255. */
  function LitOf(v: real): (lit: int)
    ensures lit as real <= 144.0 * v < lit as real + 1.0
  {
    (v * 144.0).Floor
  }

  function VeilOf(v: real): (veil: int)
    ensures veil as real <= 255.0 * (1.0 - v) < veil as real + 1.0
  {
    ((1.0 - v) * 255.0).Floor
  }

  lemma EighthsShown(q: int)
    requires 0 <= q <= 8
    ensures LitOf(q as real / 8.0) == 18 * q && VeilOf(q as real / 8.0) == (8 - q) * 255 / 8
  {
  }

  lemma EndsShown(v: real)
    ensures v == 1.0 ==> LitOf(v) == 144 && VeilOf(v) == 0
    ensures v == 0.0 ==> LitOf(v) == 0 && VeilOf(v) == 255
  {
  }

  lemma LevelOfDistance(d: real, r: real)
    requires d >= 0.0
    ensures var q := Eighths(PaneLevel(d, r));
            && (d <= 0.55 * r ==> q == 8) && (d > 0.55 * r && d >= 1.25 * r ==> q == 0)
            && (0.55 * r < d < 1.25 * r ==> q as real - 0.5 <= 8.0 * ((1.25 * r - d) / (0.7 * r)) < q as real + 0.5)
  {
    hide PaneLevel, Eighths;
  }

  lemma OwnOfDistance(d: real, r: real)
    requires d >= 0.0
    ensures var lit, veil := LitOf(PaneLevel(d, r)), VeilOf(PaneLevel(d, r));
            && (d <= 0.55 * r ==> lit == 144 && veil == 0)
            && (d > 0.55 * r && d >= 1.25 * r ==> lit == 0 && veil == 255)
            && (0.55 * r < d < 1.25 * r ==>
                  && lit as real <= 144.0 * ((1.25 * r - d) / (0.7 * r)) < lit as real + 1.0
                  && veil as real <= 255.0 * (1.0 - (1.25 * r - d) / (0.7 * r)) < veil as real + 1.0)
  {
    EndsShown(PaneLevel(d, r));
    hide PaneLevel, LitOf, VeilOf;
  }

  /** `d` is the distance of the middle of pixel `i`'s square from the light. */
  ghost predicate PixelDistance(w: nat, i: nat, light: Light, d: real)
    requires w > 0
  {
    var dx := (i % w * PANE_SCALE + PANE_SCALE / 2 - light.x) as real;
    var dy := (i / w * PANE_SCALE + PANE_SCALE / 2 - light.y) as real;
    d >= 0.0 && d * d == dx * dx + dy * dy
  }

  /** `d` is the distance of a pane's middle from the light. */
  ghost predicate MiddleDistance(x: real, y: real, light: Light, d: real) {
    var dx, dy := x - light.x as real, y - light.y as real;
    d >= 0.0 && d * d == dx * dx + dy * dy
  }

  /** Both are straight distances; a pixel's is from the middle of its square. */
  lemma DistancesAre(x: real, y: real, w: nat, i: nat, light: Light, d: real)
    ensures MiddleDistance(x, y, light, d) <==>
      d >= 0.0 && d * d == (x - light.x as real) * (x - light.x as real) + (y - light.y as real) * (y - light.y as real)
    ensures w > 0 ==>
      var px, py := (4 * (i % w) + 2 - light.x) as real, (4 * (i / w) + 2 - light.y) as real;
      PixelDistance(w, i, light, d) <==> d >= 0.0 && d * d == px * px + py * py
  {
  }

  lemma SideWithinDistance(a: real, b: real, d: real)
    requires d >= 0.0 && d * d == a * a + b * b
    ensures -d <= a <= d
  {
    SquareIncreases(d, a);
    SquareIncreases(d, -a);
    assert b * b >= 0.0;
  }

  lemma SquareIncreases(x: real, y: real)
    requires x >= 0.0
    ensures x < y ==> x * x < y * y
  {
    if x < y {
      ProductPositive(y - x, y + x);
    }
  }

  lemma ProductPositive(a: real, b: real)
    requires a > 0.0 && b > 0.0
    ensures a * b > 0.0
  {
  }

  /** From a reach of two up, the whole square of any pixel the light reaches is in the light's box... */
  lemma LitSquareInReachBox(w: nat, i: nat, light: Light, d: real)
    requires w > 0 && light.r >= 2 && PixelDistance(w, i, light, d) && PaneLevel(d, light.r as real) > 0.0
    ensures Contains(ReachBox(light), Square(w, i))
  {
    var dx := i % w * PANE_SCALE + PANE_SCALE / 2 - light.x;
    var dy := i / w * PANE_SCALE + PANE_SCALE / 2 - light.y;
    SideWithinDistance(dx as real, dy as real, d);
    SideWithinDistance(dy as real, dx as real, d);
    assert d < 1.25 * light.r as real;
    assert 4 * dx < 5 * light.r && -4 * dx < 5 * light.r && 4 * dy < 5 * light.r && -4 * dy < 5 * light.r;
  }

  /** ... and a smaller reach leaves some of it out. */
  lemma ShortReachSpillsOver(r: nat)
    requires r < 2
    ensures exists w: nat, i: nat, light: Light, d: real ::
              && w > 0 && light.r == r && PixelDistance(w, i, light, d)
              && PaneLevel(d, light.r as real) > 0.0 && !Contains(ReachBox(light), Square(w, i))
  {
    var light := if r == 0 then Light(2, 2, 0) else Light(3, 2, 1);
    var d := if r == 0 then 0.0 else 1.0;
    assert PixelDistance(1, 0, light, d);
    assert PaneLevel(d, light.r as real) > 0.0 by {
      if r == 1 {
        assert 1.25 * 1.0 - 1.0 == 0.25;
        assert PaneLevel(1.0, 1.0) == 0.25 / 0.7;
      }
    }
    assert !Contains(ReachBox(light), Square(1, 0));
  }

  /** Grows a box, at need, to take in another, and no more. */
  function Grown(box: Box, b: Box): (grown: Box)
    requires box.width >= 0 && box.height >= 0
    ensures Contains(grown, box) && Contains(grown, b) && grown.width >= 0 && grown.height >= 0
    ensures forall c :: Contains(c, box) && Contains(c, b) ==> Contains(c, grown)
  {
    var x0 := if b.x < box.x then b.x else box.x;
    var y0 := if b.y < box.y then b.y else box.y;
    var x1 := if b.x + b.width > box.x + box.width then b.x + b.width else box.x + box.width;
    var y1 := if b.y + b.height > box.y + box.height then b.y + b.height else box.y + box.height;
    Box(x0, y0, x1 - x0, y1 - y0)
  }

  /** The panes of one picture under a moving light, and the two masks drawn from them. */
  class PaneMasks {
    const w: nat
    const h: nat
    const pane: seq<int>        // 0: lead
    const n: nat
    const big: seq<bool>
    const box: seq<Box>
    const middleX: seq<real>    // each pane's middle
    const middleY: seq<real>
    const lev: array<int>       // each pane's level in eighths; -1: not drawn yet
    const lit: array<int>
    const veil: array<int>
    var lightBox: Box           // what the last light may have changed
    ghost var shown: Light      // the last light, and the squares' distances from it
    ghost var dist: seq<real>
    ghost var drawn: bool

    ghost predicate Shape()
      reads this
    {
      && w > 0 && |pane| == w * h && lit.Length == veil.Length == |pane|
      && |big| == |box| == |middleX| == |middleY| == lev.Length == n + 1
      && lev != lit && lev != veil && lit != veil
      && (forall i :: 0 <= i < |pane| ==> 0 <= pane[i] <= n)
      && (forall i :: 0 <= i < |pane| && Small(pane[i]) ==> Contains(box[pane[i]], Square(w, i)))
    }

    /** A pane small enough to be lit as one. */
    predicate Small(l: int)
      requires |big| == n + 1
    {
      1 <= l <= n && !big[l]
    }

    /** These are the distances of the small panes' middles from the light. */
    ghost predicate MiddleDistances(light: Light, dist: seq<real>) {
      && |big| == |middleX| == |middleY| == |dist| == n + 1
      && (forall l :: 0 <= l <= n ==> dist[l] >= 0.0)
      && (forall l {:trigger MiddleDistance(middleX[l], middleY[l], light, dist[l])} ::
            Small(l) ==> MiddleDistance(middleX[l], middleY[l], light, dist[l]))
    }

    /** These are the distances of the pixels' squares from the light. */
    ghost predicate PixelDistances(light: Light, dist: seq<real>)
      requires w > 0
    {
      && |dist| == |pane|
      && (forall i :: 0 <= i < |pane| ==> dist[i] >= 0.0)
      && (forall i {:trigger PixelDistance(w, i, light, dist[i])} :: 0 <= i < |pane| ==> PixelDistance(w, i, light, dist[i]))
    }

    /** The level mask pixel `i` shows: its pane's, or its own where there is no small pane. */
    ghost function Shine(i: nat, levels: seq<int>, d: real, r: nat): real
      requires |big| == n + 1 == |levels| && i < |pane| && d >= 0.0
    {
      if Small(pane[i]) then levels[pane[i]] as real / 8.0 else PaneLevel(d, r as real)
    }

    ghost predicate Shows(i: nat, v: real)
      reads lit, veil
      requires i < lit.Length == veil.Length
    {
      lit[i] == LitOf(v) && veil[i] == VeilOf(v)
    }

    /** The masks show the last light. */
    ghost predicate Valid()
      reads this, lev, lit, veil
    {
      && Shape() && |dist| == |pane|
      && lightBox.width >= 0 && lightBox.height >= 0
      && (forall l :: 1 <= l <= n ==> -1 <= lev[l] <= 8)
      && (forall i :: 0 <= i < |pane| && Small(pane[i]) && lev[pane[i]] >= 0 ==> Shows(i, lev[pane[i]] as real / 8.0))
      && (drawn ==> Contains(lightBox, ReachBox(shown)) && RoundLightShown())
    }

    /** Lead and big panes show the last light by each pixel's own distance. */
    ghost predicate RoundLightShown()
      reads this, lit, veil
      requires Shape() && |dist| == |pane|
    {
      forall i :: 0 <= i < |pane| && !Small(pane[i]) ==>
        PixelDistance(w, i, shown, dist[i]) && Shows(i, PaneLevel(dist[i], shown.r as real))
    }

    constructor (pane: array<int>, w: nat, h: nat, n: nat)
      requires w > 0 && pane.Length == w * h && forall p :: 0 <= p < pane.Length ==> 0 <= pane[p] <= n
      requires forall l :: 1 <= l <= n ==> l in pane[..]
      ensures Valid() && !drawn && this.pane == pane[..] && this.w == w && this.h == h && this.n == n
      ensures fresh(lev) && fresh(lit) && fresh(veil)
      ensures forall l :: 1 <= l <= n ==> lev[l] == -1
      ensures forall l :: 1 <= l <= n ==> box[l] == BoxOf(ExtentOf(this.pane, w, h, l))
      ensures forall l :: 1 <= l <= n ==> (big[l] <==> ExtentOf(this.pane, w, h, l).count * 20 > w * h)
      ensures forall l :: 1 <= l <= n ==>
                var e := ExtentOf(this.pane, w, h, l);
                e.count > 0 && middleX[l] == Middle(e.sx, e.count) && middleY[l] == Middle(e.sy, e.count)
    {
      hide ExtentOf, Middle, PaneLevel, LitOf, VeilOf;
      var extent := GatherExtents(pane, w, h, n);
      forall l | 1 <= l <= n
        ensures extent[l].count > 0
      {
        assert l in pane[..];
        var p :| 0 <= p < |pane[..]| && pane[..][p] == l;
        ExtentHoldsPane(pane[..], w, h, l, p);
      }
      this.pane, this.w, this.h, this.n := pane[..], w, h, n;
      big := seq(n + 1, l requires 0 <= l <= n reads extent => extent[l].count * 20 > w * h);
      middleX := seq(n + 1, l requires 0 <= l <= n && (l > 0 ==> extent[l].count > 0) reads extent =>
        if l == 0 then 0.0 else Middle(extent[l].sx, extent[l].count));
      middleY := seq(n + 1, l requires 0 <= l <= n && (l > 0 ==> extent[l].count > 0) reads extent =>
        if l == 0 then 0.0 else Middle(extent[l].sy, extent[l].count));
      box := seq(n + 1, l requires 0 <= l <= n reads extent => BoxOf(extent[l]));
      lev := new int[n + 1](_ => -1);
      lit := new int[pane.Length];
      veil := new int[pane.Length];
      lightBox := Box(0, 0, 0, 0);
      drawn, dist, shown := false, seq(pane.Length, _ => 0.0), Light(0, 0, 0);
      new;
      forall i | 0 <= i < |this.pane| && Small(this.pane[i]) ensures Contains(box[this.pane[i]], Square(w, i)) {
        ExtentHoldsPane(this.pane, w, h, this.pane[i], i);
      }
    }

    /** The levels of the small panes for a light, and the box grown over every pane whose level changed. */
    method SetLevels(light: Light, paneDist: seq<real>, around: Box) returns (grown: Box)
      requires Shape() && MiddleDistances(light, paneDist) && around.width >= 0 && around.height >= 0
      modifies lev
      ensures Contains(grown, around) && grown.width >= 0 && grown.height >= 0
      ensures forall l :: Small(l) ==> lev[l] == Eighths(PaneLevel(paneDist[l], light.r as real))
      ensures forall l :: 0 <= l <= n && !Small(l) ==> lev[l] == old(lev[l])
      ensures forall l :: Small(l) && lev[l] != old(lev[l]) ==> Contains(grown, box[l])
    {
      grown := around;
      var l := 1;
      while l <= n
        invariant 1 <= l <= n + 1
        invariant Contains(grown, around) && grown.width >= 0 && grown.height >= 0
        invariant forall k :: 1 <= k < l && Small(k) ==> lev[k] == Eighths(PaneLevel(paneDist[k], light.r as real))
        invariant forall k :: 0 <= k <= n && (k >= l || !Small(k)) ==> lev[k] == old(lev[k])
        invariant forall k :: 1 <= k < l && lev[k] != old(lev[k]) ==> Contains(grown, box[k])
      {
        if !big[l] {
          var level := Eighths(PaneLevel(paneDist[l], light.r as real));
          if level != lev[l] {
            grown := Grown(grown, box[l]);
            lev[l] := level;
          }
        }
        l := l + 1;
      }
    }

    /** Both masks drawn: each pixel its pane's level, or its own. */
    method DrawMasks(light: Light, pixelDist: seq<real>)
      requires Shape() && |pixelDist| == |pane| && forall i :: 0 <= i < |pane| ==> pixelDist[i] >= 0.0
      modifies lit, veil
      ensures forall i :: 0 <= i < |pane| ==> Shows(i, Shine(i, lev[..], pixelDist[i], light.r))
    {
      hide PaneLevel, LitOf, VeilOf, Square, Contains;
      var i := 0;
      while i < |pane|
        invariant 0 <= i <= |pane|
        invariant forall j :: 0 <= j < i ==> Shows(j, Shine(j, lev[..], pixelDist[j], light.r))
      {
        var p := pane[i];
        var v := if Small(p) then lev[p] as real / 8.0 else PaneLevel(pixelDist[i], light.r as real);
        lit[i] := LitOf(v);
        veil[i] := VeilOf(v);
        i := i + 1;
      }
    }

    /** What that comes to: a small pane's pixels show its level, any other its own. */
    lemma MasksShown(light: Light, pixelDist: seq<real>)
      requires Shape() && |pixelDist| == |pane| && forall i :: 0 <= i < |pane| ==> pixelDist[i] >= 0.0
      requires forall l :: Small(l) ==> 0 <= lev[l] <= 8
      requires forall i :: 0 <= i < |pane| ==> Shows(i, Shine(i, lev[..], pixelDist[i], light.r))
      ensures forall i :: 0 <= i < |pane| && 1 <= pane[i] <= n && !big[pane[i]] ==>
                lit[i] == 18 * lev[pane[i]] && veil[i] == (8 - lev[pane[i]]) * 255 / 8
      ensures forall i :: 0 <= i < |pane| && !(1 <= pane[i] <= n && !big[pane[i]]) ==>
                var d, r := pixelDist[i], light.r as real;
                && (d <= 0.55 * r ==> lit[i] == 144 && veil[i] == 0)
                && (d > 0.55 * r && d >= 1.25 * r ==> lit[i] == 0 && veil[i] == 255)
                && (0.55 * r < d < 1.25 * r ==>
                      && lit[i] as real <= 144.0 * ((1.25 * r - d) / (0.7 * r)) < lit[i] as real + 1.0
                      && veil[i] as real <= 255.0 * (1.0 - (1.25 * r - d) / (0.7 * r)) < veil[i] as real + 1.0)
    {
      hide PaneLevel, LitOf, VeilOf, Square, Contains;
      forall i | 0 <= i < |pane| && 1 <= pane[i] <= n && !big[pane[i]]
        ensures lit[i] == 18 * lev[pane[i]] && veil[i] == (8 - lev[pane[i]]) * 255 / 8
      {
        assert Shows(i, Shine(i, lev[..], pixelDist[i], light.r));
        EighthsShown(lev[pane[i]]);
      }
      forall i | 0 <= i < |pane| && !(1 <= pane[i] <= n && !big[pane[i]])
        ensures lit[i] == LitOf(PaneLevel(pixelDist[i], light.r as real))
        ensures veil[i] == VeilOf(PaneLevel(pixelDist[i], light.r as real))
      {
        assert Shows(i, Shine(i, lev[..], pixelDist[i], light.r));
      }
      forall i | 0 <= i < |pane| { OwnOfDistance(pixelDist[i], light.r as real); }
    }

    /** The light moves: the levels, the grown box, and both masks. `paneDist` and `pixelDist` are the
      distances of the panes' middles and of the squares from the light. */
    method LightPanes(light: Light, paneDist: seq<real>, pixelDist: seq<real>, around: Box) returns (grown: Box)
      requires Valid() && MiddleDistances(light, paneDist) && PixelDistances(light, pixelDist)
      requires around.width >= 0 && around.height >= 0
      modifies lev, lit, veil
      ensures Contains(grown, around) && grown.width >= 0 && grown.height >= 0
      ensures forall l :: Small(l) ==> lev[l] == Eighths(PaneLevel(paneDist[l], light.r as real))
      ensures forall l :: 0 <= l <= n && !Small(l) ==> lev[l] == old(lev[l])
      ensures forall i :: 0 <= i < |pane| ==> Shows(i, Shine(i, lev[..], pixelDist[i], light.r))
      ensures forall l :: 1 <= l <= n && !big[l] ==>
                var d, r := paneDist[l], light.r as real;
                && (d <= 0.55 * r ==> lev[l] == 8) && (d > 0.55 * r && d >= 1.25 * r ==> lev[l] == 0)
                && (0.55 * r < d < 1.25 * r ==>
                      lev[l] as real - 0.5 <= 8.0 * ((1.25 * r - d) / (0.7 * r)) < lev[l] as real + 0.5)
      ensures forall i :: 0 <= i < |pane| && 1 <= pane[i] <= n && !big[pane[i]] ==>
                lit[i] == 18 * lev[pane[i]] && veil[i] == (8 - lev[pane[i]]) * 255 / 8
      ensures forall i :: 0 <= i < |pane| && !(1 <= pane[i] <= n && !big[pane[i]]) ==>
                var d, r := pixelDist[i], light.r as real;
                && (d <= 0.55 * r ==> lit[i] == 144 && veil[i] == 0)
                && (d > 0.55 * r && d >= 1.25 * r ==> lit[i] == 0 && veil[i] == 255)
                && (0.55 * r < d < 1.25 * r ==>
                      && lit[i] as real <= 144.0 * ((1.25 * r - d) / (0.7 * r)) < lit[i] as real + 1.0
                      && veil[i] as real <= 255.0 * (1.0 - (1.25 * r - d) / (0.7 * r)) < veil[i] as real + 1.0)
      ensures forall i :: 0 <= i < |pane| && Small(pane[i]) && (lit[i] != old(lit[i]) || veil[i] != old(veil[i])) ==>
                Contains(grown, Square(w, i))
    {
      hide PaneLevel, LitOf, VeilOf, Square, Contains;
      ghost var was := lev[..];
      grown := SetLevels(light, paneDist, around);
      DrawMasks(light, pixelDist);
      forall l | 1 <= l <= n && !big[l] { LevelOfDistance(paneDist[l], light.r as real); }
      MasksShown(light, pixelDist);
      forall i | 0 <= i < |pane| && Small(pane[i]) && (lit[i] != old(lit[i]) || veil[i] != old(veil[i]))
        ensures Contains(grown, Square(w, i))
      {
        var p := pane[i];
        assert Shows(i, Shine(i, lev[..], pixelDist[i], light.r));
        assert lit[i] == LitOf(lev[p] as real / 8.0) && veil[i] == VeilOf(lev[p] as real / 8.0);
        assert was[p] >= 0 ==> old(lit[i]) == LitOf(was[p] as real / 8.0) && old(veil[i]) == VeilOf(was[p] as real / 8.0);
        assert 0 <= lev[p] && lev[p] != was[p];
        ContainsTransitive(grown, box[pane[i]], Square(w, i));
      }
    }

    /** A frame of the light: what it may change, before and after, is drawn again. */
    method ShineAt(light: Light, paneDist: seq<real>, pixelDist: seq<real>) returns (damaged: seq<Box>)
      requires Valid() && MiddleDistances(light, paneDist) && PixelDistances(light, pixelDist)
      modifies this`shown, this`dist, this`drawn, this`lightBox, lev, lit, veil
      ensures Valid() && drawn && shown == light && dist == pixelDist
      ensures forall l :: 1 <= l <= n && !big[l] ==> lev[l] == Eighths(PaneLevel(paneDist[l], light.r as real))
      ensures forall i :: 0 <= i < |pane| && Small(pane[i]) && (lit[i] != old(lit[i]) || veil[i] != old(veil[i])) ==>
                exists b :: b in damaged && Contains(b, Square(w, i))
      ensures old(drawn) && old(shown).r >= 2 && light.r >= 2 ==>
                forall i :: 0 <= i < |pane| && (lit[i] != old(lit[i]) || veil[i] != old(veil[i])) ==>
                  exists b :: b in damaged && Contains(b, Square(w, i))
    {
      hide PaneLevel, Eighths, LitOf, VeilOf, Square, Contains;
      ghost var wasLit, wasVeil := lit[..], veil[..];
      var grown := LightPanes(light, paneDist, pixelDist, ReachBox(light));
      damaged := if lightBox.width > 0 then [lightBox, grown] else [grown];
      assert grown in damaged && (lightBox.width > 0 ==> lightBox in damaged);
      forall i | 0 <= i < |pane| && !Small(pane[i]) && (lit[i] != wasLit[i] || veil[i] != wasVeil[i]) &&
          drawn && shown.r >= 2 && light.r >= 2
        ensures exists b :: b in damaged && Contains(b, Square(w, i))
      {
        assert PixelDistance(w, i, shown, dist[i]);
        assert wasLit[i] == LitOf(PaneLevel(dist[i], shown.r as real)) && wasVeil[i] == VeilOf(PaneLevel(dist[i], shown.r as real));
        assert Shows(i, Shine(i, lev[..], pixelDist[i], light.r));
        ChangedSquareCovered(w, i, shown, dist[i], light, pixelDist[i], lightBox, grown);
      }
      forall i | 0 <= i < |pane| && !Small(pane[i]) ensures Shows(i, PaneLevel(pixelDist[i], light.r as real)) {
        assert Shows(i, Shine(i, lev[..], pixelDist[i], light.r));
      }
      forall i | 0 <= i < |pane| && Small(pane[i]) ensures Shows(i, lev[pane[i]] as real / 8.0) {
        assert Shows(i, Shine(i, lev[..], pixelDist[i], light.r));
      }
      lightBox := grown;
      shown, dist, drawn := light, pixelDist, true;
    }
  }

  /** A pixel whose own level differs between two lights has its square in one light's box. */
  lemma ChangedSquareCovered(w: nat, i: nat, l0: Light, d0: real, l1: Light, d1: real, b0: Box, b1: Box)
    requires w > 0 && PixelDistance(w, i, l0, d0) && PixelDistance(w, i, l1, d1) && l0.r >= 2 && l1.r >= 2
    requires PaneLevel(d0, l0.r as real) != PaneLevel(d1, l1.r as real)
    requires Contains(b0, ReachBox(l0)) && Contains(b1, ReachBox(l1))
    ensures (b0.width > 0 && Contains(b0, Square(w, i))) || Contains(b1, Square(w, i))
  {
    if PaneLevel(d1, l1.r as real) > 0.0 {
      LitSquareInReachBox(w, i, l1, d1);
    } else {
      LitSquareInReachBox(w, i, l0, d0);
    }
  }

  lemma ContainsTransitive(a: Box, b: Box, c: Box)
    requires Contains(a, b) && Contains(b, c)
    ensures Contains(a, c)
  {
  }
}
