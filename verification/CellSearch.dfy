/** The cells of the stained-glass background (`grid_cell` and `render_cells_box` in sg-deskcomp.c).

  Each pixel takes the colour of its nearest site, shaded by the second nearest. Both are looked for in the
  squares around the pixel only, ring by ring, and the search stops once no site further out can matter.
 */
module CellSearch {
  import opened Raster
  import opened SiteIndex

  /** The first distances, further than any site is. */
  const FAR := 1000000000000000000.0

  /** The rings searched at most. */
  const RINGS := 3

  datatype Site = Site(x: real, y: real, color: int, near: bool)

  /** What a search has found: the places of the two nearest sites, or -1, and their squared distances. */
  datatype Two = Two(best: int, second: int, d1: real, d2: real)

  /** C's conversion of a float to an int, and its division: both toward zero. */
  function Truncated(x: real): int {
    if x >= 0.0 then x.Floor else -(-x).Floor
  }

  function Quotient(a: int, b: nat): int
    requires b > 0
  {
    if a >= 0 then a / b else -(-a / b)
  }

  function Least(a: int, b: int): int { if a < b then a else b }

  function Greatest(a: int, b: int): int { if a > b then a else b }

  function Apart(a: int, b: int): int { if a > b then a - b else b - a }

  function Clamped(c: int, count: nat): int
    requires count > 0
  {
    var low := if c < 0 then 0 else c;
    if low >= count then count - 1 else low
  }

  /** The sites over a screen, and the grid of squares `bs` wide over it. */
  datatype Scene = Scene(dw: nat, dh: nat, bs: nat, sites: seq<Site>) {

    predicate Ready() {
      bs > 0
    }

    function Columns(): (gw: nat)
      requires Ready()
    {
      dw / bs + 1
    }

    function Rows(): (gh: nat)
      requires Ready()
    {
      dh / bs + 1
    }

    function Column(i: nat): int
      requires Ready() && i < |sites|
    {
      Clamped(Quotient(Truncated(sites[i].x), bs), Columns())
    }

    function Row(i: nat): int
      requires Ready() && i < |sites|
    {
      Clamped(Quotient(Truncated(sites[i].y), bs), Rows())
    }

    function GridCell(i: nat): int
      requires Ready() && i < |sites|
    {
      Columns() * Row(i) + Column(i)
    }

    function Cells(): seq<int>
      requires Ready()
    {
      seq(|sites|, i requires 0 <= i < |sites| => GridCell(i))
    }

    /** A site's squared distance from a pixel. */
    function Distance(i: nat, x: int, y: int): real
      requires i < |sites|
    {
      SquareSum(sites[i].x - x as real, sites[i].y - y as real)
    }

    ghost predicate Indexed(start: seq<int>, items: seq<int>)
      requires Ready()
    {
      Indexes(Cells(), Columns() * Rows(), start, items)
    }

    /** The sites whose squares are within `r` of a square. */
    ghost function Block(cx: int, cy: int, r: int): set<int>
      requires Ready()
    {
      set i | 0 <= i < |sites| && InBlock(i, cx, cy, r)
    }

    predicate InBlock(i: nat, cx: int, cy: int, r: int)
      requires Ready() && i < |sites|
    {
      cx - r <= Column(i) <= cx + r && cy - r <= Row(i) <= cy + r
    }

    ghost function All(): set<int> {
      set i {:trigger sites[i]} | 0 <= i < |sites|
    }

    /** `two` are the nearest and the second nearest of the sites in `seen`. */
    ghost predicate TwoNearest(x: int, y: int, seen: set<int>, two: Two) {
      && (forall i :: i in seen ==> 0 <= i < |sites|)
      && (two.best < 0 ==> seen == {} && two.best == two.second == -1 && two.d1 == FAR)
      && (two.best >= 0 ==> two.best in seen && two.d1 == Distance(two.best, x, y))
      && (forall i :: i in seen ==> Distance(i, x, y) >= two.d1)
      && (two.second < 0 ==> seen <= {two.best} && two.second == -1 && two.d2 == FAR)
      && (two.second >= 0 ==> two.second in seen && two.second != two.best && two.d2 == Distance(two.second, x, y))
      && (forall i :: i in seen && i != two.best ==> Distance(i, x, y) >= two.d2)
    }

    /** The ring of squares a site is searched in; a square itself goes with the first ring around it. */
    function Ring(i: nat, cx: int, cy: int): int
      requires Ready() && i < |sites|
    {
      var across, down := Apart(Column(i), cx), Apart(Row(i), cy);
      Greatest(1, Greatest(across, down))
    }

    /** The search comes to one site before the other: by ring, row, column and number. */
    predicate Sooner(i: nat, j: nat, cx: int, cy: int)
      requires Ready() && i < |sites| && j < |sites|
    {
      if Ring(i, cx, cy) != Ring(j, cx, cy) then Ring(i, cx, cy) < Ring(j, cx, cy)
      else if Row(i) != Row(j) then Row(i) < Row(j)
      else if Column(i) != Column(j) then Column(i) < Column(j)
      else i < j
    }

    /** Likewise, and of equally near sites the sooner ones. */
    ghost predicate FirstTwo(x: int, y: int, cx: int, cy: int, seen: set<int>, two: Two)
      requires Ready()
    {
      && TwoNearest(x, y, seen, two)
      && (forall i :: i in seen && i != two.best && Distance(i, x, y) == two.d1 ==> Sooner(two.best, i, cx, cy))
      && (two.second >= 0 ==> forall i :: i in seen && i != two.best && i != two.second && Distance(i, x, y) == two.d2 ==>
           Sooner(two.second, i, cx, cy))
    }
  }

  // ----- the grid and the distances it keeps

  lemma ClampedColumn(c: int, count: nat, v: real, bs: nat)
    requires bs > 0 && count > 0 && c == Clamped(Quotient(Truncated(v), bs), count)
    ensures 0 <= c < count
    ensures c > 0 ==> v >= (c * bs) as real
    ensures c < count - 1 ==> v < ((c + 1) * bs) as real
  {
    var t := Truncated(v);
    var q := Quotient(t, bs);
    if t >= 0 {
      assert t == bs * q + t % bs;
      if c > 0 { TimesMonotone(bs, c, q); }
      if c < count - 1 { TimesMonotone(bs, q, c); assert bs * (c + 1) == bs * c + bs; }
    }
  }

  lemma GridInside(s: Scene, i: nat)
    requires s.Ready() && i < |s.sites|
    ensures 0 <= s.Column(i) < s.Columns() && 0 <= s.Row(i) < s.Rows()
    ensures 0 <= s.GridCell(i) < s.Columns() * s.Rows()
  {
    ClampedColumn(s.Column(i), s.Columns(), s.sites[i].x, s.bs);
    ClampedColumn(s.Row(i), s.Rows(), s.sites[i].y, s.bs);
    PlaceInside(s.Columns(), s.Rows(), s.Column(i), s.Row(i));
  }

  lemma SquareGap(c: int, p: nat, bs: nat, r: nat)
    requires bs > 0
    ensures c > p / bs + r ==> c * bs > p + r * bs
    ensures c < p / bs - r ==> (c + 1) * bs <= p - r * bs
  {
    var cp := p / bs;
    assert p == bs * cp + p % bs;
    TimesMonotone(bs, cp + r + 1, c);
    assert bs * (cp + r + 1) == bs * cp + r * bs + bs;
    TimesMonotone(bs, c + 1, cp - r);
    assert bs * (cp - r) == bs * cp - r * bs;
  }

  /** Along one axis: a site more than `r` squares off, clamped or not, is more than `r` squares' width away. */
  lemma FarAlongAxis(c: int, count: nat, v: real, bs: nat, p: nat, r: nat)
    requires bs > 0 && count > 0 && c == Clamped(Quotient(Truncated(v), bs), count) && p / bs < count
    requires c < p / bs - r || c > p / bs + r
    ensures v - p as real > (r * bs) as real || -(v - p as real) > (r * bs) as real
  {
    hide *;
    ClampedColumn(c, count, v, bs);
    SquareGap(c, p, bs, r);
    OffBy(v, c * bs, p, r * bs);
    OffBy(v, (c + 1) * bs, p, r * bs);
  }

  lemma OffBy(v: real, edge: int, p: int, off: int)
    ensures v >= edge as real && edge > p + off ==> v - p as real > off as real
    ensures v < edge as real && edge <= p - off ==> -(v - p as real) > off as real
  {
  }

  lemma SquareBeyond(a: real, b: real, limit: real)
    requires limit >= 0.0 && (a > limit || -a > limit)
    ensures a * a + b * b > limit * limit
  {
    var m := if a > limit then a else -a;
    assert m * m == a * a;
    ProductBeyond(m, limit);
    assert b * b >= 0.0;
  }

  lemma ProductBeyond(m: real, limit: real)
    requires 0.0 <= limit < m
    ensures m * m > limit * limit
  {
    var over := m - limit;
    assert over * over > 0.0 && over * limit >= 0.0;
    assert m * m == limit * limit + 2.0 * (over * limit) + over * over;
  }

  /** The square of `r` squares' width. */
  function Reach(r: nat, bs: nat): real {
    (r * bs) as real * (r * bs) as real
  }

  function SquareSum(a: real, b: real): real {
    a * a + b * b
  }

  lemma FarSite(c: int, count: nat, v: real, bs: nat, p: nat, r: nat, other: real)
    requires bs > 0 && count > 0 && c == Clamped(Quotient(Truncated(v), bs), count) && p / bs < count
    requires c < p / bs - r || c > p / bs + r
    ensures SquareSum(v - p as real, other) > Reach(r, bs) && SquareSum(other, v - p as real) > Reach(r, bs)
  {
    hide Clamped, Quotient, Truncated;
    FarAlongAxis(c, count, v, bs, p, r);
    var limit, a := r * bs, v - p as real;
    SquareBeyond(a, other, limit as real);
  }

  /** A site outside the block of `r` rings is further off than `r` squares' width. */
  lemma OutsideBlockIsFar(s: Scene, i: nat, x: nat, y: nat, r: nat)
    requires s.Ready() && i < |s.sites| && x < s.dw && y < s.dh
    requires !s.InBlock(i, x / s.bs, y / s.bs, r)
    ensures s.Distance(i, x, y) > Reach(r, s.bs)
  {
    hide Clamped, Quotient, Truncated, Reach, SquareSum;
    SquareOnScreen(x, s.dw, s.bs);
    SquareOnScreen(y, s.dh, s.bs);
    if s.Column(i) < x / s.bs - r || s.Column(i) > x / s.bs + r {
      FarSite(s.Column(i), s.Columns(), s.sites[i].x, s.bs, x, r, s.sites[i].y - y as real);
    } else {
      FarSite(s.Row(i), s.Rows(), s.sites[i].y, s.bs, y, r, s.sites[i].x - x as real);
    }
  }

  lemma SquareOnScreen(p: nat, size: nat, bs: nat)
    requires bs > 0 && p < size
    ensures 0 <= p / bs < size / bs + 1
  {
    assert p == bs * (p / bs) + p % bs && size == bs * (size / bs) + size % bs;
    TimesMonotone(bs, size / bs + 1, p / bs);
    assert bs * (size / bs + 1) == bs * (size / bs) + bs;
  }

  // ----- the search

  /** The source's update for one more site: it may become the nearest, or the second nearest. */
  function Considered(two: Two, i: int, d: real): Two {
    if d < two.d1 then Two(i, two.best, d, two.d1)
    else if d < two.d2 then two.(second := i, d2 := d)
    else two
  }

  lemma ConsideredKeepsNearest(s: Scene, x: int, y: int, seen: set<int>, two: Two, i: nat)
    requires i < |s.sites| && i !in seen && s.Distance(i, x, y) < FAR && s.TwoNearest(x, y, seen, two)
    requires forall j :: j in seen ==> s.Distance(j, x, y) < FAR
    ensures s.TwoNearest(x, y, seen + {i}, Considered(two, i, s.Distance(i, x, y)))
  {
    hide SquareSum;
  }

  /** The later site does not take the place of an equally near one. */
  lemma ConsideredKeepsFirst(s: Scene, x: int, y: int, cx: int, cy: int, seen: set<int>, two: Two, i: nat)
    requires s.Ready() && i < |s.sites| && i !in seen && s.Distance(i, x, y) < FAR
    requires s.FirstTwo(x, y, cx, cy, seen, two)
    requires forall j :: j in seen ==> s.Distance(j, x, y) < FAR && s.Sooner(j, i, cx, cy)
    ensures s.FirstTwo(x, y, cx, cy, seen + {i}, Considered(two, i, s.Distance(i, x, y)))
  {
    hide SquareSum, Scene.Sooner;
    ConsideredKeepsNearest(s, x, y, seen, two, i);
  }

  /** Every site is nearer than the search's first distances. */
  ghost predicate InRange(s: Scene, x: int, y: int) {
    forall i :: 0 <= i < |s.sites| ==> s.Distance(i, x, y) < FAR
  }

  /** The sites of one square of the grid. */
  ghost function SquareSites(s: Scene, col: int, row: int): set<int>
    requires s.Ready()
  {
    set i | 0 <= i < |s.sites| && s.Column(i) == col && s.Row(i) == row
  }

  /** A stretch of the index lists these sites, each once, by number. */
  ghost predicate ListsInOrder(items: seq<int>, lo: int, hi: int, sites: set<int>) {
    && 0 <= lo <= hi <= |items|
    && (forall k :: lo <= k < hi ==> items[k] in sites)
    && (forall i :: i in sites ==> i in items[lo..hi])
    && (forall j, k :: lo <= j < k < hi ==> items[j] < items[k])
  }

  /** The index lists a square's sites, each once. */
  lemma SliceIsSquare(s: Scene, start: seq<int>, items: seq<int>, col: int, row: int)
    requires s.Ready() && s.Indexed(start, items) && 0 <= col < s.Columns() && 0 <= row < s.Rows()
    ensures var c := s.Columns() * row + col;
      && 0 <= c < s.Columns() * s.Rows() && c + 1 < |start| && 0 <= start[c] <= start[c + 1] <= |items|
      && ListsInOrder(items, start[c], start[c + 1], SquareSites(s, col, row))
  {
    var c := s.Columns() * row + col;
    PlaceInside(s.Columns(), s.Rows(), col, row);
    assert Lists(s.Cells(), start, items, c);
    var slice := items[start[c]..start[c + 1]];
    forall i: int ensures i in slice <==> i in SquareSites(s, col, row) {
      SitesInExactly(s.Cells(), c, i);
      if 0 <= i < |s.sites| { CellIsSquare(s, i, col, row); }
    }
    forall j, k | start[c] <= j < k < start[c + 1] ensures items[j] < items[k] {
      SitesInIncreasing(s.Cells(), c, j - start[c], k - start[c]);
      assert items[j] == slice[j - start[c]] && items[k] == slice[k - start[c]];
    }
    assert forall k :: start[c] <= k < start[c + 1] ==> items[k] == slice[k - start[c]] && items[k] in slice;
  }

  lemma CellIsSquare(s: Scene, i: nat, col: int, row: int)
    requires s.Ready() && i < |s.sites| && 0 <= col < s.Columns() && 0 <= row < s.Rows()
    ensures s.Cells()[i] == s.Columns() * row + col <==> s.Column(i) == col && s.Row(i) == row
  {
    GridInside(s, i);
    SplitUnique(s.Columns(), s.Row(i), s.Column(i), s.GridCell(i));
    SplitUnique(s.Columns(), row, col, s.Columns() * row + col);
  }

  /** All of these are searched before the sites of a square. */
  ghost predicate SoonerThanSquare(s: Scene, seen: set<int>, col: int, row: int, cx: int, cy: int)
    requires s.Ready()
  {
    && (forall j :: j in seen ==> 0 <= j < |s.sites|)
    && forall j, i :: j in seen && i in SquareSites(s, col, row) ==> s.Sooner(j, i, cx, cy)
  }

  lemma SameSquareByNumber(s: Scene, col: int, row: int, i: int, j: int, cx: int, cy: int)
    requires s.Ready() && i in SquareSites(s, col, row) && j in SquareSites(s, col, row) && i < j
    ensures s.Sooner(i, j, cx, cy)
  {
    hide Clamped, Quotient, Truncated;
  }

  /** One more site of a square, after all those of the square with a smaller number. */
  lemma OneMoreOfSquare(s: Scene, x: int, y: int, cx: int, cy: int, col: int, row: int, seen: set<int>, done: set<int>,
                        two: Two, i: int)
    requires s.Ready() && InRange(s, x, y) && SoonerThanSquare(s, seen, col, row, cx, cy)
    requires i in SquareSites(s, col, row) && i !in done
    requires forall j :: j in done ==> j in seen || (j in SquareSites(s, col, row) && j < i)
    requires s.FirstTwo(x, y, cx, cy, done, two)
    ensures 0 <= i < |s.sites| && s.FirstTwo(x, y, cx, cy, done + {i}, Considered(two, i, s.Distance(i, x, y)))
  {
    hide Scene.Sooner, Scene.FirstTwo, Scene.Distance, Scene.Column, Scene.Row, Considered;
    forall j | j in done
      ensures 0 <= j < |s.sites| && s.Distance(j, x, y) < FAR && s.Sooner(j, i, cx, cy)
    {
      if j !in seen { SameSquareByNumber(s, col, row, j, i, cx, cy); }
    }
    ConsideredKeepsFirst(s, x, y, cx, cy, done, two, i);
  }

  /** What a stretch of the index lists. */
  ghost function Listed(items: seq<int>, lo: nat, k: nat): set<int>
    requires lo <= k <= |items|
  {
    if k == lo then {} else Listed(items, lo, k - 1) + {items[k - 1]}
  }

  lemma {:induction false} ListedAre(items: seq<int>, lo: nat, k: nat, i: int)
    requires lo <= k <= |items|
    ensures i in Listed(items, lo, k) <==> i in items[lo..k]
  {
    if k > lo {
      ListedAre(items, lo, k - 1, i);
      assert items[lo..k] == items[lo..k - 1] + [items[k - 1]];
    }
  }

  lemma AllListed(items: seq<int>, lo: int, hi: int, sites: set<int>)
    requires ListsInOrder(items, lo, hi, sites)
    ensures Listed(items, lo, hi) == sites
  {
    forall i
      ensures i in Listed(items, lo, hi) <==> i in sites
    {
      ListedAre(items, lo, hi, i);
    }
  }

  lemma ListedBefore(items: seq<int>, lo: int, hi: int, k: int, sites: set<int>)
    requires ListsInOrder(items, lo, hi, sites) && lo <= k < hi
    ensures items[k] in sites && forall j :: j in Listed(items, lo, k) ==> j in sites && j < items[k]
  {
    forall j | j in Listed(items, lo, k)
      ensures j in sites && j < items[k]
    {
      ListedAre(items, lo, k, j);
      var at :| 0 <= at < k - lo && items[lo..k][at] == j;
      assert items[lo + at] == j;
    }
  }

  lemma OneMoreListed(s: Scene, x: int, y: int, cx: int, cy: int, col: int, row: int, seen: set<int>, two: Two,
                      items: seq<int>, lo: int, hi: int, k: int)
    requires s.Ready() && InRange(s, x, y) && SoonerThanSquare(s, seen, col, row, cx, cy)
    requires seen !! SquareSites(s, col, row) && ListsInOrder(items, lo, hi, SquareSites(s, col, row)) && lo <= k < hi
    requires s.FirstTwo(x, y, cx, cy, seen + Listed(items, lo, k), two)
    ensures 0 <= items[k] < |s.sites|
    ensures s.FirstTwo(x, y, cx, cy, seen + Listed(items, lo, k + 1), Considered(two, items[k], s.Distance(items[k], x, y)))
  {
    hide Scene.FirstTwo, Considered, SquareSites, SoonerThanSquare, InRange;
    ListedBefore(items, lo, hi, k, SquareSites(s, col, row));
    OneMoreOfSquare(s, x, y, cx, cy, col, row, seen, seen + Listed(items, lo, k), two, items[k]);
    assert seen + Listed(items, lo, k) + {items[k]} == seen + Listed(items, lo, k + 1);
  }

  /** Considers the sites of one square, none of them seen before. */
  method ScanSquare(s: Scene, x: int, y: int, start: array<int>, items: array<int>, col: int, row: int,
                    two: Two, ghost cx: int, ghost cy: int, ghost seen: set<int>) returns (next: Two)
    requires s.Ready() && s.Indexed(start[..], items[..]) && InRange(s, x, y)
    requires 0 <= col < s.Columns() && 0 <= row < s.Rows()
    requires s.FirstTwo(x, y, cx, cy, seen, two) && seen !! SquareSites(s, col, row)
    requires SoonerThanSquare(s, seen, col, row, cx, cy)
    ensures s.FirstTwo(x, y, cx, cy, seen + SquareSites(s, col, row), next)
  {
    hide SquareSites, SoonerThanSquare, Scene.Indexed, Scene.FirstTwo, InRange, Scene.Distance, Considered, ListsInOrder;
    SliceIsSquare(s, start[..], items[..], col, row);
    next := two;
    var c := s.Columns() * row + col;
    var k := start[c];
    assert seen + Listed(items[..], k, k) == seen;
    while k < start[c + 1]
      invariant start[c] <= k <= start[c + 1]
      invariant s.FirstTwo(x, y, cx, cy, seen + Listed(items[..], start[c], k), next)
    {
      OneMoreListed(s, x, y, cx, cy, col, row, seen, next, items[..], start[c], start[c + 1], k);
      next := Considered(next, items[k], s.Distance(items[k], x, y));
      k := k + 1;
    }
    AllListed(items[..], start[c], start[c + 1], SquareSites(s, col, row));
  }

  /** The sites seen in ring `r` before its square (`xx`, `yy`), and all those of the rings inside it. */
  ghost function SeenBefore(s: Scene, cx: int, cy: int, r: int, yy: int, xx: int): set<int>
    requires s.Ready()
  {
    set i | 0 <= i < |s.sites| && (
        (r > 1 && s.InBlock(i, cx, cy, r - 1)) ||
        (s.InBlock(i, cx, cy, r) && (s.Row(i) < yy || (s.Row(i) == yy && s.Column(i) < xx))))
  }

  /** The squares the source passes over: off the grid, or searched in an earlier ring. */
  predicate PassedOver(s: Scene, cx: int, cy: int, r: int, yy: int, xx: int)
    requires s.Ready()
  {
    || yy < 0 || yy >= s.Rows() || xx < 0 || xx >= s.Columns()
    || (r > 1 && cy - r < yy < cy + r && cx - r < xx < cx + r)
  }

  /** No square is searched twice, and none of the ring is left out. */
  lemma SeenNext(s: Scene, cx: int, cy: int, r: int, yy: int, xx: int)
    requires s.Ready() && r >= 1 && cy - r <= yy <= cy + r && cx - r <= xx <= cx + r
    ensures PassedOver(s, cx, cy, r, yy, xx) ==> SeenBefore(s, cx, cy, r, yy, xx + 1) == SeenBefore(s, cx, cy, r, yy, xx)
    ensures !PassedOver(s, cx, cy, r, yy, xx) ==>
              && SeenBefore(s, cx, cy, r, yy, xx) !! SquareSites(s, xx, yy)
              && SeenBefore(s, cx, cy, r, yy, xx + 1) == SeenBefore(s, cx, cy, r, yy, xx) + SquareSites(s, xx, yy)
  {
    forall i | 0 <= i < |s.sites|
      ensures 0 <= s.Column(i) < s.Columns() && 0 <= s.Row(i) < s.Rows()
    {
      GridInside(s, i);
    }
    hide Clamped, Quotient, Truncated;
  }

  /** The squares are searched in that order. */
  lemma SeenSooner(s: Scene, cx: int, cy: int, r: int, yy: int, xx: int)
    requires s.Ready() && r >= 1 && cy - r <= yy <= cy + r && cx - r <= xx <= cx + r
    requires !PassedOver(s, cx, cy, r, yy, xx)
    ensures SoonerThanSquare(s, SeenBefore(s, cx, cy, r, yy, xx), xx, yy, cx, cy)
  {
    hide Clamped, Quotient, Truncated;
  }

  lemma SeenNextRow(s: Scene, cx: int, cy: int, r: int, yy: int)
    requires s.Ready() && r >= 1
    ensures SeenBefore(s, cx, cy, r, yy, cx + r + 1) == SeenBefore(s, cx, cy, r, yy + 1, cx - r)
    ensures SeenBefore(s, cx, cy, r, cy - r, cx - r) == if r > 1 then s.Block(cx, cy, r - 1) else {}
    ensures SeenBefore(s, cx, cy, r, cy + r + 1, cx - r) == s.Block(cx, cy, r)
  {
    hide Clamped, Quotient, Truncated;
  }

  /** One row of one ring. */
  method ScanRow(s: Scene, x: int, y: int, start: array<int>, items: array<int>, cx: int, cy: int, r: int, yy: int,
                 two: Two) returns (next: Two)
    requires s.Ready() && s.Indexed(start[..], items[..]) && InRange(s, x, y) && r >= 1 && cy - r <= yy <= cy + r
    requires s.FirstTwo(x, y, cx, cy, SeenBefore(s, cx, cy, r, yy, cx - r), two)
    ensures s.FirstTwo(x, y, cx, cy, SeenBefore(s, cx, cy, r, yy + 1, cx - r), next)
  {
    hide SeenBefore, SquareSites, Indexes, SoonerThanSquare, Scene.FirstTwo, Scene.TwoNearest;
    next := two;
    SeenNextRow(s, cx, cy, r, yy);
    var xx := cx - r;
    while xx <= cx + r
      invariant cx - r <= xx <= cx + r + 1
      invariant s.FirstTwo(x, y, cx, cy, SeenBefore(s, cx, cy, r, yy, xx), next)
    {
      SeenNext(s, cx, cy, r, yy, xx);
      if !PassedOver(s, cx, cy, r, yy, xx) {
        SeenSooner(s, cx, cy, r, yy, xx);
        next := ScanSquare(s, x, y, start, items, xx, yy, next, cx, cy, SeenBefore(s, cx, cy, r, yy, xx));
      }
      xx := xx + 1;
    }
  }

  /** One ring of squares around the pixel's own. */
  method ScanRing(s: Scene, x: int, y: int, start: array<int>, items: array<int>, cx: int, cy: int, r: int,
                  two: Two) returns (next: Two)
    requires s.Ready() && s.Indexed(start[..], items[..]) && InRange(s, x, y) && r >= 1
    requires s.FirstTwo(x, y, cx, cy, if r > 1 then s.Block(cx, cy, r - 1) else {}, two)
    ensures s.FirstTwo(x, y, cx, cy, s.Block(cx, cy, r), next)
  {
    hide SeenBefore, Indexes, Scene.FirstTwo, Scene.TwoNearest;
    next := two;
    var yy := cy - r;
    SeenNextRow(s, cx, cy, r, yy);
    while yy <= cy + r
      invariant cy - r <= yy <= cy + r + 1
      invariant s.FirstTwo(x, y, cx, cy, SeenBefore(s, cx, cy, r, yy, cx - r), next)
    {
      next := ScanRow(s, x, y, start, items, cx, cy, r, yy, next);
      yy := yy + 1;
    }
  }

  /** A search that stopped early has the two nearest of all the sites. */
  lemma EarlyExitIsGlobal(s: Scene, x: nat, y: nat, r: nat, two: Two)
    requires s.Ready() && x < s.dw && y < s.dh && s.TwoNearest(x, y, s.Block(x / s.bs, y / s.bs, r), two)
    requires two.second >= 0 && two.d2 < Reach(r, s.bs)
    ensures s.TwoNearest(x, y, s.All(), two) && two.best >= 0
  {
    forall i | i in s.All()
      ensures s.Distance(i, x, y) >= two.d1 && (i != two.best ==> s.Distance(i, x, y) >= two.d2)
    {
      BlockOrFar(s, i, x, y, r);
      hide SquareSum, Reach;
    }
  }

  lemma BlockOrFar(s: Scene, i: nat, x: nat, y: nat, r: nat)
    requires s.Ready() && i < |s.sites| && x < s.dw && y < s.dh
    ensures i in s.Block(x / s.bs, y / s.bs, r) || s.Distance(i, x, y) > Reach(r, s.bs)
  {
    hide SquareSum, Reach, Clamped, Quotient, Truncated;
    if !s.InBlock(i, x / s.bs, y / s.bs, r) { OutsideBlockIsFar(s, i, x, y, r); }
  }

  /** Even without an early exit, a nearest site within the searched rings' width is nearest of all. */
  lemma NearBestIsGlobal(s: Scene, x: nat, y: nat, r: nat, two: Two)
    requires s.Ready() && x < s.dw && y < s.dh && s.TwoNearest(x, y, s.Block(x / s.bs, y / s.bs, r), two)
    requires two.best >= 0 && two.d1 <= Reach(r, s.bs)
    ensures forall i :: 0 <= i < |s.sites| ==> s.Distance(i, x, y) >= s.Distance(two.best, x, y)
  {
    forall i | 0 <= i < |s.sites| ensures s.Distance(i, x, y) >= two.d1 {
      BlockOrFar(s, i, x, y, r);
      hide SquareSum, Reach;
    }
  }

  /** What a search finds for a pixel: of the rings it may search the first two, of all sites the two nearest if the
    second is within the rings' width. */
  ghost predicate Found(s: Scene, x: nat, y: nat, two: Two)
    requires s.Ready()
  {
    && s.FirstTwo(x, y, x / s.bs, y / s.bs, s.Block(x / s.bs, y / s.bs, RINGS), two)
    && (two.second >= 0 && two.d2 < Reach(RINGS, s.bs) ==> s.TwoNearest(x, y, s.All(), two))
  }

  /** A search that stopped early would have found no other by going on. */
  lemma EarlyExitIsFinal(s: Scene, x: nat, y: nat, r: nat, two: Two)
    requires s.Ready() && x < s.dw && y < s.dh && 1 <= r <= RINGS
    requires s.FirstTwo(x, y, x / s.bs, y / s.bs, s.Block(x / s.bs, y / s.bs, r), two)
    requires two.second >= 0 && two.d2 < Reach(r, s.bs)
    ensures Found(s, x, y, two)
  {
    hide SquareSum, Reach, Scene.Sooner, Scene.Distance;
    var cx, cy := x / s.bs, y / s.bs;
    EarlyExitIsGlobal(s, x, y, r, two);
    forall i | i in s.Block(cx, cy, RINGS)
      ensures i in s.Block(cx, cy, r) || s.Distance(i, x, y) > two.d2
    {
      BlockOrFar(s, i, x, y, r);
    }
  }

  /** Of a pixel's two sites there is one choice. */
  lemma FoundIsOne(s: Scene, x: nat, y: nat, two: Two, other: Two)
    requires s.Ready() && Found(s, x, y, two) && Found(s, x, y, other)
    ensures two == other
  {
    hide SquareSum, Reach, Scene.Distance, Scene.Ring, Scene.Row, Scene.Column, Scene.Block;
  }

  lemma DistanceIs(s: Scene, i: nat, x: int, y: int)
    requires i < |s.sites|
    ensures s.Distance(i, x, y) == (s.sites[i].x - x as real) * (s.sites[i].x - x as real)
                                   + (s.sites[i].y - y as real) * (s.sites[i].y - y as real)
  {
  }

  lemma WidthIs(s: Scene)
    ensures Reach(RINGS, s.bs) == (3 * s.bs) as real * (3 * s.bs) as real
  {
  }

  /** In straight distance: the two found are as far from the pixel as they say... */
  lemma FoundDistances(s: Scene, x: nat, y: nat, two: Two)
    requires s.Ready() && Found(s, x, y, two)
    ensures -1 <= two.best < |s.sites| && -1 <= two.second < |s.sites|
    ensures two.second >= 0 ==> two.best >= 0 && two.second != two.best
    ensures two.best >= 0 ==> var p := s.sites[two.best];
              two.d1 == (p.x - x as real) * (p.x - x as real) + (p.y - y as real) * (p.y - y as real)
    ensures two.second >= 0 ==> var p := s.sites[two.second];
              two.d2 == (p.x - x as real) * (p.x - x as real) + (p.y - y as real) * (p.y - y as real)
  {
    hide SquareSum, Scene.Distance, Reach, Scene.Sooner, Scene.InBlock;
    if two.best >= 0 { DistanceIs(s, two.best, x, y); }
    if two.second >= 0 { DistanceIs(s, two.second, x, y); }
  }

  /** ... and within three squares' width no site is nearer than the first, nor any but that than the second. */
  lemma NoSiteNearer(s: Scene, x: nat, y: nat, two: Two, i: nat)
    requires s.Ready() && x < s.dw && y < s.dh && Found(s, x, y, two) && i < |s.sites|
    ensures var p, width := s.sites[i], (3 * s.bs) as real;
            var d := (p.x - x as real) * (p.x - x as real) + (p.y - y as real) * (p.y - y as real);
            && (two.best >= 0 && two.d1 <= width * width ==> d >= two.d1)
            && (two.second >= 0 && two.d2 <= width * width && i != two.best ==> d >= two.d2)
            && (d <= width * width ==> two.best >= 0 && d >= two.d1 && (i != two.best ==> two.second >= 0 && d >= two.d2))
  {
    hide SquareSum, Scene.Distance, Reach, Scene.Sooner, Scene.InBlock;
    DistanceIs(s, i, x, y);
    WidthIs(s);
    BlockOrFar(s, i, x, y, RINGS);
  }

  /** Of two sites equally near, both searched, `b` is found and not `i` if it is in as inner a ring; in one ring it is
    the one in the upper row; in one row the one further left; in one square the one of the smaller number. */
  lemma TieGoesToFirst(s: Scene, x: int, y: int, cx: int, cy: int, seen: set<int>, two: Two, b: nat, i: nat, q: int)
    requires s.Ready() && i < |s.sites| && b < |s.sites| && i in seen && i != two.best
    requires b == two.best || (b == two.second && i != two.second)
    requires s.Distance(i, x, y) == if b == two.best then two.d1 else two.d2
    requires q >= 1 && -q <= s.Column(i) - cx <= q && -q <= s.Row(i) - cy <= q
    requires s.FirstTwo(x, y, cx, cy, seen, two)
    ensures var across, down := s.Column(b) - cx, s.Row(b) - cy;
            && -q <= across <= q && -q <= down <= q
            && (q == 1 || across == -q || across == q || down == -q || down == q ==>
                  || s.Row(b) < s.Row(i)
                  || (s.Row(b) == s.Row(i) && s.Column(b) < s.Column(i))
                  || (s.Row(b) == s.Row(i) && s.Column(b) == s.Column(i) && b < i))
  {
    hide SquareSum, Scene.Distance, Clamped, Quotient, Truncated;
  }

  /** The search for a pixel's two nearest sites. */
  method FindTwo(s: Scene, x: nat, y: nat, start: array<int>, items: array<int>) returns (two: Two)
    requires s.Ready() && s.Indexed(start[..], items[..]) && InRange(s, x, y) && x < s.dw && y < s.dh
    ensures Found(s, x, y, two)
    ensures two.best >= 0 && two.d1 <= Reach(RINGS, s.bs) ==>
              forall i :: 0 <= i < |s.sites| ==> s.Distance(i, x, y) >= s.Distance(two.best, x, y)
  {
    var cx, cy := x / s.bs, y / s.bs;
    two := Two(-1, -1, FAR, FAR);
    assert s.FirstTwo(x, y, cx, cy, {}, two);
    hide SquareSum, Reach, Indexes, Scene.TwoNearest, Scene.FirstTwo, Scene.Block, Scene.Distance;
    var r := 1;
    while r <= RINGS
      invariant 1 <= r <= RINGS + 1
      invariant s.FirstTwo(x, y, cx, cy, if r > 1 then s.Block(cx, cy, r - 1) else {}, two)
      invariant r > 1 ==> !(two.second >= 0 && two.d2 < Reach(r - 1, s.bs))
    {
      two := ScanRing(s, x, y, start, items, cx, cy, r, two);
      if two.second >= 0 && two.d2 < Reach(r, s.bs) {
        EarlyExitIsFinal(s, x, y, r, two);
        ReachGrows(r, RINGS, s.bs);
        BestIsNearest(s, x, y, two);
        return;
      }
      r := r + 1;
    }
    if two.best >= 0 && two.d1 <= Reach(RINGS, s.bs) {
      NearBestIsGlobal(s, x, y, RINGS, two);
    }
  }

  /** What a search finds first is the nearest of all sites... */
  ghost predicate NearestOfAll(s: Scene, x: nat, y: nat, two: Two) {
    0 <= two.best < |s.sites| && forall i :: 0 <= i < |s.sites| ==> s.Distance(i, x, y) >= s.Distance(two.best, x, y)
  }

  /** ... and some site in the squares searched is at least as near as every site outside them. */
  ghost predicate NoneNearerOutside(s: Scene, x: nat, y: nat)
    requires s.Ready()
  {
    exists j :: j in s.Block(x / s.bs, y / s.bs, RINGS) && AheadOfOutside(s, x, y, j)
  }

  ghost predicate AheadOfOutside(s: Scene, x: nat, y: nat, j: nat)
    requires s.Ready() && j < |s.sites|
  {
    forall i :: 0 <= i < |s.sites| && i !in s.Block(x / s.bs, y / s.bs, RINGS) ==>
      s.Distance(j, x, y) <= s.Distance(i, x, y)
  }

  /** The one is so exactly when the other is, early exit or not. */
  lemma NearestFoundExactly(s: Scene, x: nat, y: nat, two: Two)
    requires s.Ready() && x < s.dw && y < s.dh && |s.sites| > 0 && Found(s, x, y, two)
    ensures NearestOfAll(s, x, y, two) <==> NoneNearerOutside(s, x, y)
  {
    hide SquareSum, Reach, Scene.Distance, Scene.InBlock, Scene.Sooner;
    assert NearestOfAll(s, x, y, two) ==> two.best in s.Block(x / s.bs, y / s.bs, RINGS) && AheadOfOutside(s, x, y, two.best);
    if NoneNearerOutside(s, x, y) {
      var j :| j in s.Block(x / s.bs, y / s.bs, RINGS) && AheadOfOutside(s, x, y, j);
      assert s.Distance(j, x, y) >= two.d1;
    }
  }

  /** With no site in the squares searched, none is found. */
  lemma EmptySquaresFindNone(s: Scene, x: nat, y: nat, two: Two)
    requires s.Ready() && Found(s, x, y, two) && s.Block(x / s.bs, y / s.bs, RINGS) == {}
    ensures two.best == -1
  {
  }

  /** With two sites nearer than the searched rings' width, both found are right. */
  lemma TwoNearAreGlobal(s: Scene, x: nat, y: nat, two: Two, i: nat, j: nat)
    requires s.Ready() && x < s.dw && y < s.dh && Found(s, x, y, two) && i < |s.sites| && j < |s.sites| && i != j
    requires s.Distance(i, x, y) < Reach(RINGS, s.bs) && s.Distance(j, x, y) < Reach(RINGS, s.bs)
    ensures s.TwoNearest(x, y, s.All(), two)
  {
    hide SquareSum, Reach, Scene.Distance, Scene.InBlock, Scene.Sooner;
    BlockOrFar(s, i, x, y, RINGS);
    BlockOrFar(s, j, x, y, RINGS);
    assert i != two.best || j != two.best;
  }

  lemma BestIsNearest(s: Scene, x: nat, y: nat, two: Two)
    requires s.TwoNearest(x, y, s.All(), two) && two.best >= 0
    ensures two.best < |s.sites| && forall i :: 0 <= i < |s.sites| ==> s.Distance(i, x, y) >= s.Distance(two.best, x, y)
  {
    hide SquareSum;
    assert forall i :: 0 <= i < |s.sites| ==> i in s.All();
  }

  lemma ReachGrows(r: nat, q: nat, bs: nat)
    requires r <= q
    ensures Reach(r, bs) <= Reach(q, bs)
  {
    TimesMonotone(bs, r, q);
    var a, b := (r * bs) as real, (q * bs) as real;
    assert 0.0 <= a <= b;
    assert b * b - a * a == (b - a) * (b + a);
  }

  // ----- a box of the screen, drawn

  /** A window, and the margin round it, that the cells keep out of: up to, not including, `x1` and `y1`. */
  datatype Pane = Pane(x0: int, y0: int, x1: int, y1: int) {
    predicate Holds(x: int, y: int) {
      x0 <= x < x1 && y0 <= y < y1
    }
  }

  /** The lead's colour. */
  const LEAD := 0x221e28

  /** What the cells are drawn from: the sites, the windows, the picture of a leaded wallpaper (else none),
    and the colour of glass shaded by its two sites. */
  datatype Glass = Glass(scene: Scene, panes: seq<Pane>, picture: seq<int>, shade: (nat, nat, Two) -> int) {

    /** The coordinates a screen and its sites can have. */
    ghost predicate Sane() {
      && scene.Ready() && scene.dw <= 100000 && scene.dh <= 100000
      && (picture == [] || |picture| == scene.dw * scene.dh)
      && forall i :: 0 <= i < |scene.sites| ==>
           -1000000.0 <= scene.sites[i].x <= 1000000.0 && -1000000.0 <= scene.sites[i].y <= 1000000.0
    }

    ghost predicate InWindow(x: int, y: int) {
      exists p :: 0 <= p < |panes| && panes[p].Holds(x, y)
    }

    /** A pixel is this colour: lead in a window, else by the two sites a search finds. */
    ghost predicate Paints(x: nat, y: nat, color: int)
      requires Sane() && x < scene.dw && y < scene.dh
    {
      if InWindow(x, y) then color == LEAD
      else exists two :: Found(scene, x, y, two) && ColorOf(x, y, two) == color
    }

    function ColorOf(x: nat, y: nat, two: Two): int {
      if two.best < 0 then LEAD
      else if two.best < |scene.sites| && !scene.sites[two.best].near && scene.dw * y + x < |picture| then
        picture[scene.dw * y + x]
      else shade(x, y, two)
    }
  }

  /** A pixel's colour: lead in a window and where no site is found; a leaded picture's own by a site that is near no
    window; else the glass's. */
  lemma ColorIs(g: Glass, x: nat, y: nat, color: int) returns (two: Two)
    requires g.Sane() && x < g.scene.dw && y < g.scene.dh && g.Paints(x, y, color)
    ensures (exists p :: p in g.panes && p.x0 <= x < p.x1 && p.y0 <= y < p.y1) ==> color == 0x221e28
    ensures (forall p :: p in g.panes ==> x < p.x0 || p.x1 <= x || y < p.y0 || p.y1 <= y) ==>
      && Found(g.scene, x, y, two) && 0 <= g.scene.dw * y + x < g.scene.dw * g.scene.dh
      && (two.best < 0 ==> color == 0x221e28)
      && (0 <= two.best < |g.scene.sites| && !g.scene.sites[two.best].near && g.picture != [] ==>
            color == g.picture[g.scene.dw * y + x])
      && (0 <= two.best < |g.scene.sites| && (g.scene.sites[two.best].near || g.picture == []) ==> color == g.shade(x, y, two))
  {
    hide Found, SquareSum;
    two := Two(-1, -1, FAR, FAR);
    PlaceInside(g.scene.dw, g.scene.dh, x, y);
    if p :| p in g.panes && p.x0 <= x < p.x1 && p.y0 <= y < p.y1 {
      var k :| 0 <= k < |g.panes| && g.panes[k] == p;
      assert g.panes[k].Holds(x, y);
    }
    if !g.InWindow(x, y) { two :| Found(g.scene, x, y, two) && g.ColorOf(x, y, two) == color; }
  }

  lemma SaneInRange(g: Glass, x: nat, y: nat)
    requires g.Sane() && x < g.scene.dw && y < g.scene.dh
    ensures InRange(g.scene, x, y)
  {
    forall i | 0 <= i < |g.scene.sites| ensures g.scene.Distance(i, x, y) < FAR {
      SmallSquares(g.scene.sites[i].x - x as real, g.scene.sites[i].y - y as real);
    }
  }

  lemma SmallSquares(a: real, b: real)
    requires -1100000.0 <= a <= 1100000.0 && -1100000.0 <= b <= 1100000.0
    ensures SquareSum(a, b) < FAR
  {
    SmallSquare(a);
    SmallSquare(b);
  }

  lemma SmallSquare(a: real)
    requires -1100000.0 <= a <= 1100000.0
    ensures a * a <= 1210000000000.0
  {
    var m := if a >= 0.0 then a else -a;
    assert m * m <= m * 1100000.0;
  }

  /** Whether the pixel is in a window. */
  method FindWindow(g: Glass, x: int, y: int) returns (inside: bool)
    ensures inside <==> g.InWindow(x, y)
  {
    inside := false;
    var p := 0;
    while p < |g.panes|
      invariant 0 <= p <= |g.panes|
      invariant forall q :: 0 <= q < p ==> !g.panes[q].Holds(x, y)
    {
      if g.panes[p].Holds(x, y) { return true; }
      p := p + 1;
    }
  }

  /** One pixel. */
  method PixelColor(g: Glass, x: nat, y: nat, start: array<int>, items: array<int>) returns (color: int)
    requires g.Sane() && g.scene.Indexed(start[..], items[..]) && x < g.scene.dw && y < g.scene.dh
    ensures g.Paints(x, y, color)
  {
    var inside := FindWindow(g, x, y);
    if inside { return LEAD; }
    SaneInRange(g, x, y);
    var two := FindTwo(g.scene, x, y, start, items);
    color := g.ColorOf(x, y, two);
  }

  datatype Area = Area(x0: int, y0: int, x1: int, y1: int) {
    predicate Holds(x: int, y: int) {
      x0 <= x < x1 && y0 <= y < y1
    }
  }

  /** The pixels of an area, in row-major order before (`y`, `x`), are drawn; all others are as they were. */
  ghost predicate Drawn(g: Glass, was: seq<int>, data: seq<int>, area: Area, y: int, x: int)
    requires g.Sane() && g.scene.dw > 0
  {
    && |data| == |was| == g.scene.dw * g.scene.dh
    && forall p :: 0 <= p < |data| ==> DrawnAt(g, was[p], data[p], area, y, x, p % g.scene.dw, p / g.scene.dw)
  }

  ghost predicate DrawnAt(g: Glass, was: int, now: int, area: Area, y: int, x: int, px: int, py: int)
    requires g.Sane()
  {
    if area.Holds(px, py) && (py < y || (py == y && px < x))
    then 0 <= px < g.scene.dw && 0 <= py < g.scene.dh && g.Paints(px, py, now)
    else now == was
  }

  /** A box drawn: pixel (`x`, `y`), in row-major order, has its colour if it is in the box, and is as it was if not. */
  lemma DrawnIs(g: Glass, was: seq<int>, data: seq<int>, box: Area, x: nat, y: nat)
    requires g.Sane() && x < g.scene.dw && y < g.scene.dh && Drawn(g, was, data, box, g.scene.dh, 0)
    ensures 0 <= g.scene.dw * y + x < |data| && |was| == |data|
    ensures box.x0 <= x < box.x1 && box.y0 <= y < box.y1 ==> g.Paints(x, y, data[g.scene.dw * y + x])
    ensures x < box.x0 || box.x1 <= x || y < box.y0 || box.y1 <= y ==> data[g.scene.dw * y + x] == was[g.scene.dw * y + x]
  {
    PlaceInside(g.scene.dw, g.scene.dh, x, y);
    var at := g.scene.dw * y + x;
    SplitUnique(g.scene.dw, y, x, at);
    assert DrawnAt(g, was[at], data[at], box, g.scene.dh, 0, x, y);
    hide Glass.Paints, Glass.Sane;
  }

  lemma DrawnStep(g: Glass, was: seq<int>, data: seq<int>, area: Area, y: nat, x: nat, color: int)
    requires g.Sane() && area.Holds(x, y) && x < g.scene.dw && y < g.scene.dh && g.Paints(x, y, color)
    requires Drawn(g, was, data, area, y, x)
    ensures 0 <= g.scene.dw * y + x < |data|
    ensures Drawn(g, was, data[g.scene.dw * y + x := color], area, y, x + 1)
  {
    PlaceInside(g.scene.dw, g.scene.dh, x, y);
    var at := g.scene.dw * y + x;
    SplitUnique(g.scene.dw, y, x, at);
    var next := data[at := color];
    forall p | 0 <= p < |next|
      ensures DrawnAt(g, was[p], next[p], area, y, x + 1, p % g.scene.dw, p / g.scene.dw)
    {
      RowOf(g.scene.dw, g.scene.dh, p);
      hide Glass.Paints, Glass.Sane;
    }
  }

  lemma DrawnRow(g: Glass, was: seq<int>, data: seq<int>, area: Area, y: int)
    requires g.Sane() && g.scene.dw > 0 && Drawn(g, was, data, area, y, area.x1)
    ensures Drawn(g, was, data, area, y + 1, area.x0)
  {
    hide Glass.Paints, Glass.Sane;
    forall p | 0 <= p < |data|
      ensures DrawnAt(g, was[p], data[p], area, y + 1, area.x0, p % g.scene.dw, p / g.scene.dw)
    {
    }
  }

  /** A box and the part of it on the screen hold the same pixels. */
  lemma ClippedHolds(box: Area, dw: nat, dh: nat, x: int, y: int)
    requires 0 <= x < dw && 0 <= y < dh
    ensures Clipped(box, dw, dh).Holds(x, y) <==> box.Holds(x, y)
  {
  }

  function Clipped(box: Area, dw: nat, dh: nat): Area {
    Area(Greatest(box.x0, 0), Greatest(box.y0, 0), Least(box.x1, dw), Least(box.y1, dh))
  }

  lemma DrawnBox(g: Glass, was: seq<int>, data: seq<int>, box: Area)
    requires g.Sane() && g.scene.dw > 0 && |was| == |data| == g.scene.dw * g.scene.dh
    requires var area := Clipped(box, g.scene.dw, g.scene.dh);
      if area.x0 < area.x1 && area.y0 < area.y1 then Drawn(g, was, data, area, area.y1, area.x0) else data == was
    ensures Drawn(g, was, data, box, g.scene.dh, 0)
  {
    var area := Clipped(box, g.scene.dw, g.scene.dh);
    forall p | 0 <= p < |data|
      ensures DrawnAt(g, was[p], data[p], box, g.scene.dh, 0, p % g.scene.dw, p / g.scene.dw)
    {
      RowOf(g.scene.dw, g.scene.dh, p);
      var px, py := p % g.scene.dw, p / g.scene.dw;
      ClippedHolds(box, g.scene.dw, g.scene.dh, px, py);
      assert area.x0 < area.x1 && area.y0 < area.y1 ==> DrawnAt(g, was[p], data[p], area, area.y1, area.x0, px, py);
      hide Glass.Paints, Glass.Sane;
    }
  }

  /** Draws the part of a box that is on the screen, and nothing else. */
  method RenderBox(g: Glass, data: array<int>, box: Area)
    requires g.Sane() && data.Length == g.scene.dw * g.scene.dh && g.scene.dw > 0
    modifies data
    ensures Drawn(g, old(data[..]), data[..], box, g.scene.dh, 0)
  {
    var s := g.scene;
    var area := Clipped(box, s.dw, s.dh);
    ghost var was := data[..];
    hide Drawn, DrawnAt, Scene.Cells, Scene.Columns, Scene.Rows, Indexes;
    if area.x0 < area.x1 && area.y0 < area.y1 {
      CellsInside(s);
      var start, items := BuildIndex(s.Cells(), s.Columns() * s.Rows());
      RenderRows(g, data, area, start, items);
    }
    DrawnBox(g, was, data[..], box);
  }

  lemma CellsInside(s: Scene)
    requires s.Ready()
    ensures forall i :: 0 <= i < |s.Cells()| ==> 0 <= s.Cells()[i] < s.Columns() * s.Rows()
  {
    forall i | 0 <= i < |s.sites| ensures 0 <= s.Cells()[i] < s.Columns() * s.Rows() { GridInside(s, i); }
  }

  method RenderRows(g: Glass, data: array<int>, area: Area, start: array<int>, items: array<int>)
    requires g.Sane() && g.scene.Indexed(start[..], items[..])
    requires data.Length == g.scene.dw * g.scene.dh && data != start && data != items
    requires 0 <= area.x0 < area.x1 <= g.scene.dw && 0 <= area.y0 < area.y1 <= g.scene.dh
    modifies data
    ensures Drawn(g, old(data[..]), data[..], area, area.y1, area.x0)
  {
    ghost var was := data[..];
    NothingDrawn(g, was, area);
    hide Drawn, DrawnAt, Glass.Paints, Glass.Sane, Scene.Indexed;
    var y := area.y0;
    while y < area.y1
      invariant area.y0 <= y <= area.y1 && Drawn(g, was, data[..], area, y, area.x0)
    {
      var x := area.x0;
      while x < area.x1
        invariant area.x0 <= x <= area.x1 && Drawn(g, was, data[..], area, y, x)
      {
        var color := PixelColor(g, x, y, start, items);
        DrawnStep(g, was, data[..], area, y, x, color);
        data[g.scene.dw * y + x] := color;
        x := x + 1;
      }
      DrawnRow(g, was, data[..], area, y);
      y := y + 1;
    }
  }

  lemma NothingDrawn(g: Glass, data: seq<int>, area: Area)
    requires g.Sane() && g.scene.dw > 0 && |data| == g.scene.dw * g.scene.dh
    ensures Drawn(g, data, data, area, area.y0, area.x0)
  {
    forall p | 0 <= p < |data|
      ensures DrawnAt(g, data[p], data[p], area, area.y0, area.x0, p % g.scene.dw, p / g.scene.dw)
    {
    }
  }
}
