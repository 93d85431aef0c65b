/** Where the cells' sites are placed (`place_sites` in sg-deskcomp.c): a jittered grid less what is in or by a
  window, and borders just outside each window's sides.

  The hash that scatters the sites is a parameter; their colours come later and are not part of this.
 */
module SitePlacement {
  import opened Raster
  import opened CellSearch

  const MAX_SITES: nat := 2000
  const MAX_BASE: nat := 1000

  /** The hash is of a 32-bit word. */
  const WORD: nat := 0x1_0000_0000

  function Spacing(dw: nat, dh: nat): (s: nat)
    ensures s >= 40
  {
    var s := (if dh > dw then dw else dh) / 9;
    if s < 40 then 40 else s
  }

  /** A point is in a pane grown by a margin. */
  predicate Within(q: Pane, x: real, y: real, margin: int) {
    && (q.x0 - margin) as real <= x < (q.x1 + margin) as real
    && (q.y0 - margin) as real <= y < (q.y1 + margin) as real
  }

  ghost predicate InSome(panes: seq<Pane>, x: real, y: real, margin: int) {
    exists i :: 0 <= i < |panes| && Within(panes[i], x, y, margin)
  }

  method InPane(panes: seq<Pane>, x: real, y: real, margin: int) returns (inside: bool)
    ensures inside <==> InSome(panes, x, y, margin)
    ensures inside <==>
      exists i :: 0 <= i < |panes|
                  && (panes[i].x0 - margin) as real <= x < (panes[i].x1 + margin) as real
                  && (panes[i].y0 - margin) as real <= y < (panes[i].y1 + margin) as real
  {
    for i := 0 to |panes|
      invariant forall k :: 0 <= k < i ==> !Within(panes[k], x, y, margin)
    {
      if Within(panes[i], x, y, margin) { return true; }
    }
    return false;
  }

  // ---- the grid ----

  /** The squares of side `s` the grid has along a side of the screen. */
  function Squares(n: nat, s: nat): (c: nat)
    requires s > 0
    ensures c > 0
  {
    (n + s - 1) / s + 1
  }

  lemma SquaresExact(n: nat, s: nat, g: nat)
    requires s > 0
    ensures g * s < n + s <==> g < Squares(n, s)
  {
    var c := (n + s - 1) / s;
    TimesMonotone(s, g, c);
    TimesMonotone(s, c + 1, g);
    assert s * c <= n + s - 1 < s * (c + 1);
  }

  function GridSite(gx: nat, gy: nat, s: nat, hash: nat -> nat): Site
    requires s > 0
  {
    var h := hash((gx * 7919 + gy * 104729 + 17) % WORD);
    Site((gx * s) as real + (h % s) as real - s as real / 2.0,
         (gy * s) as real + (h / 4096 % s) as real - s as real / 2.0, 0, false)
  }

  /** A grid site stays in the square of its own, centred on its grid point. */
  lemma GridSiteInItsSquare(gx: nat, gy: nat, s: nat, hash: nat -> nat)
    requires s > 0
    ensures var p, half := GridSite(gx, gy, s, hash), s as real / 2.0;
            && (gx * s) as real - half <= p.x < (gx * s) as real + half
            && (gy * s) as real - half <= p.y < (gy * s) as real + half
  {
  }

  ghost predicate IsBase(base: seq<Site>, c: nat, s: nat, hash: nat -> nat)
    requires s > 0 && c > 0
  {
    forall i: nat :: i < |base| ==> base[i] == GridSite(i % c, i / c, s, hash)
  }

  /** The grid, row by row, as far as there is room. */
  method BaseSites(dw: nat, dh: nat, s: nat, hash: nat -> nat) returns (base: seq<Site>)
    requires s > 0
    ensures IsBase(base, Squares(dw, s), s, hash)
    ensures |base| == Least(MAX_BASE, Squares(dw, s) * Squares(dh, s))
    ensures forall i: nat :: i < |base| ==>
              var gx, gy := i % Squares(dw, s), i / Squares(dw, s);
              var h := hash((gx * 7919 + gy * 104729 + 17) % 0x1_0000_0000);
              && base[i].x == (gx * s) as real + (h % s) as real - s as real / 2.0
              && base[i].y == (gy * s) as real + (h / 4096 % s) as real - s as real / 2.0
  {
    base := [];
    var gy, c := 0, Squares(dw, s);
    while gy * s < dh + s && |base| < MAX_BASE
      invariant gy <= Squares(dh, s) && IsBase(base, c, s, hash) && |base| == Least(MAX_BASE, c * gy)
      decreases Squares(dh, s) - gy
    {
      SquaresExact(dh, s, gy);
      var gx := 0;
      assert c * (gy + 1) == c * gy + c;
      while gx * s < dw + s && |base| < MAX_BASE
        invariant gx <= c && IsBase(base, c, s, hash) && |base| == Least(MAX_BASE, c * gy + gx)
        invariant |base| < MAX_BASE ==> |base| == c * gy + gx
        decreases c - gx
      {
        SquaresExact(dw, s, gx);
        SplitUnique(c, gy, gx, |base|);
        base := base + [GridSite(gx, gy, s, hash)];
        gx := gx + 1;
      }
      SquaresExact(dw, s, gx);
      gy := gy + 1;
    }
    SquaresExact(dh, s, gy);
    TimesMonotone(c, gy, Squares(dh, s));
  }

  /** The grid's sites outside two thirds of the spacing round every pane; near ones are those within three halves. */
  ghost function Kept(base: seq<Site>, panes: seq<Pane>, s: nat): (kept: seq<Site>)
    ensures |kept| <= |base|
  {
    if base == [] then []
    else
      var p, rest := base[|base| - 1], Kept(base[..|base| - 1], panes, s);
      if InSome(panes, p.x, p.y, s * 2 / 3) then rest else rest + [p.(near := InSome(panes, p.x, p.y, s * 3 / 2))]
  }

  ghost predicate GridPlaced(panes: seq<Pane>, s: nat, site: Site) {
    && !InSome(panes, site.x, site.y, s * 2 / 3)
    && (site.near <==> InSome(panes, site.x, site.y, s * 3 / 2))
  }

  lemma {:induction false} KeptArePlaced(base: seq<Site>, panes: seq<Pane>, s: nat)
    ensures forall site :: site in Kept(base, panes, s) ==>
              !InSome(panes, site.x, site.y, s * 2 / 3) && (site.near <==> InSome(panes, site.x, site.y, s * 3 / 2))
    ensures forall site :: site in Kept(base, panes, s) ==>
              GridPlaced(panes, s, site) && exists i :: 0 <= i < |base| && base[i] == site.(near := base[i].near)
    ensures forall i :: 0 <= i < |base| && !InSome(panes, base[i].x, base[i].y, s * 2 / 3) ==>
              base[i].(near := InSome(panes, base[i].x, base[i].y, s * 3 / 2)) in Kept(base, panes, s)
  {
    if base != [] {
      var n := |base| - 1;
      KeptArePlaced(base[..n], panes, s);
      assert forall i :: 0 <= i < n ==> base[..n][i] == base[i];
    }
  }

  method KeepGrid(base: seq<Site>, panes: seq<Pane>, s: nat) returns (sites: seq<Site>)
    requires |base| <= MAX_SITES
    ensures sites == Kept(base, panes, s)
  {
    sites := [];
    var i := 0;
    while i < |base| && |sites| < MAX_SITES
      invariant i <= |base| && sites == Kept(base[..i], panes, s)
    {
      assert base[..i + 1][..i] == base[..i];
      var inside := InPane(panes, base[i].x, base[i].y, s * 2 / 3);
      if !inside {
        var near := InPane(panes, base[i].x, base[i].y, s * 3 / 2);
        sites := sites + [base[i].(near := near)];
      }
      i := i + 1;
    }
    assert base[..i] == base;
  }

  // ---- the borders ----

  /** Steps along a side, and a border site's place: `along` the side, a little off its step, and `depth` out of it. */
  function Step(s: nat): (step: nat)
    ensures s >= 40 ==> step >= 18
  {
    s * 9 / 20
  }

  function Length(q: Pane, side: nat): int {
    if side < 2 then q.x1 - q.x0 else q.y1 - q.y0
  }

  predicate Solid(q: Pane) {
    q.x0 < q.x1 && q.y0 < q.y1
  }

  function Steps(q: Pane, side: nat, s: nat): (m: nat)
    requires s >= 40 && Solid(q)
    ensures m > 0
  {
    Length(q, side) / Step(s) + 1
  }

  /** The count of sites tried on the sides before this one. */
  function Before(q: Pane, side: nat, s: nat): nat
    requires s >= 40 && Solid(q)
  {
    if side == 0 then 0 else Before(q, side - 1, s) + Steps(q, side - 1, s) + 1
  }

  function Along(q: Pane, side: nat, j: nat, h: nat, s: nat): real
    requires s >= 40 && Solid(q)
  {
    (j * Length(q, side)) as real / Steps(q, side, s) as real + (h % (Step(s) / 2 + 1) - Step(s) / 4) as real
  }

  function Depth(h: nat, s: nat): real {
    s as real / 3.0 + (h / 1024 % (s / 6 + 1)) as real
  }

  function SideSite(q: Pane, side: nat, j: nat, s: nat, hash: nat -> nat): Site
    requires s >= 40 && Solid(q)
  {
    SideSiteAt(q, side, j, Before(q, side, s) + j, s, hash)
  }

  /** The site of step `j`, the `k`th tried round the pane. */
  function SideSiteAt(q: Pane, side: nat, j: nat, k: nat, s: nat, hash: nat -> nat): Site
    requires s >= 40 && Solid(q)
  {
    var h := hash((k * 2654435761 + 7) % WORD);
    var along, depth := Along(q, side, j, h, s), Depth(h, s);
    if side == 0 then Site(q.x0 as real + along, q.y0 as real - depth, 0, true)
    else if side == 1 then Site(q.x0 as real + along, q.y1 as real + depth, 0, true)
    else if side == 2 then Site(q.x0 as real - depth, q.y0 as real + along, 0, true)
    else Site(q.x1 as real + depth, q.y0 as real + along, 0, true)
  }

  /** The first `n` places of a side, less those within 2 pixels of a pane. */
  ghost function SideSites(panes: seq<Pane>, q: Pane, side: nat, n: nat, s: nat, hash: nat -> nat): seq<Site>
    requires s >= 40 && Solid(q)
  {
    if n == 0 then []
    else
      var p, rest := SideSite(q, side, n - 1, s, hash), SideSites(panes, q, side, n - 1, s, hash);
      if InSome(panes, p.x, p.y, 2) then rest else rest + [p]
  }

  ghost function PaneSites(panes: seq<Pane>, q: Pane, sides: nat, s: nat, hash: nat -> nat): seq<Site>
    requires s >= 40 && Solid(q)
  {
    if sides == 0 then []
    else PaneSites(panes, q, sides - 1, s, hash) + SideSites(panes, q, sides - 1, Steps(q, sides - 1, s) + 1, s, hash)
  }

  ghost function BorderSites(panes: seq<Pane>, n: nat, s: nat, hash: nat -> nat): seq<Site>
    requires s >= 40 && n <= |panes| && forall i :: 0 <= i < |panes| ==> Solid(panes[i])
  {
    if n == 0 then [] else BorderSites(panes, n - 1, s, hash) + PaneSites(panes, panes[n - 1], 4, s, hash)
  }

  /** As many as there is room for. */
  ghost function Room(all: seq<Site>): (some: seq<Site>)
    ensures some <= all && |some| <= MAX_SITES && (|some| < MAX_SITES ==> some == all)
  {
    if |all| > MAX_SITES then all[..MAX_SITES] else all
  }

  lemma FullStays(all: seq<Site>, more: seq<Site>)
    requires all <= more && |Room(all)| == MAX_SITES
    ensures Room(more) == Room(all)
  {
  }

  lemma {:induction false} SideGrows(panes: seq<Pane>, q: Pane, side: nat, n: nat, m: nat, s: nat, hash: nat -> nat)
    requires s >= 40 && Solid(q) && n <= m
    ensures SideSites(panes, q, side, n, s, hash) <= SideSites(panes, q, side, m, s, hash)
    decreases m
  {
    hide SideSite, InSome;
    if n < m { SideGrows(panes, q, side, n, m - 1, s, hash); }
  }

  method PlaceSide(panes: seq<Pane>, q: Pane, side: nat, s: nat, hash: nat -> nat, had: seq<Site>, tried: nat, ghost all: seq<Site>)
    returns (sites: seq<Site>, k: nat)
    requires s >= 40 && Solid(q) && had == Room(all)
    requires |had| < MAX_SITES ==> tried == Before(q, side, s)
    ensures sites == Room(all + SideSites(panes, q, side, Steps(q, side, s) + 1, s, hash))
    ensures |sites| < MAX_SITES ==> k == Before(q, side + 1, s)
  {
    hide InSome, SideSiteAt, Steps;
    sites, k := had, tried;
    var m, j := Steps(q, side, s), 0;
    assert all + [] == all;
    while j <= m && |sites| < MAX_SITES
      invariant j <= m + 1 && sites == Room(all + SideSites(panes, q, side, j, s, hash))
      invariant |sites| < MAX_SITES ==> k == Before(q, side, s) + j
    {
      var p := SideSiteAt(q, side, j, k, s, hash);
      var inside := InPane(panes, p.x, p.y, 2);
      ghost var before := SideSites(panes, q, side, j, s, hash);
      assert all + (before + [p]) == (all + before) + [p];
      if !inside {
        sites := sites + [p];
      }
      j, k := j + 1, k + 1;
    }
    if j <= m {
      SideGrows(panes, q, side, j, m + 1, s, hash);
      FullStays(all + SideSites(panes, q, side, j, s, hash), all + SideSites(panes, q, side, m + 1, s, hash));
    }
  }

  method PlacePane(panes: seq<Pane>, q: Pane, s: nat, hash: nat -> nat, had: seq<Site>, ghost all: seq<Site>)
    returns (sites: seq<Site>)
    requires s >= 40 && Solid(q) && had == Room(all)
    ensures sites == Room(all + PaneSites(panes, q, 4, s, hash))
  {
    hide SideSites, Room, Steps;
    sites := had;
    var k := 0;
    assert all + [] == all;
    for side := 0 to 4
      invariant sites == Room(all + PaneSites(panes, q, side, s, hash))
      invariant |sites| < MAX_SITES ==> k == Before(q, side, s)
    {
      ghost var before := PaneSites(panes, q, side, s, hash);
      sites, k := PlaceSide(panes, q, side, s, hash, sites, k, all + before);
      ghost var more := SideSites(panes, q, side, Steps(q, side, s) + 1, s, hash);
      assert all + (before + more) == (all + before) + more;
    }
  }

  /** The sites: the grid's that are kept, then each pane's border, as far as there is room. A grid is made once. */
  method PlaceSites(had: seq<Site>, dw: nat, dh: nat, panes: seq<Pane>, hash: nat -> nat)
    returns (base: seq<Site>, sites: seq<Site>)
    requires |had| <= MAX_BASE && forall i :: 0 <= i < |panes| ==> Solid(panes[i])
    ensures |base| <= MAX_BASE && (had != [] ==> base == had)
    ensures had == [] ==> IsBase(base, Squares(dw, Spacing(dw, dh)), Spacing(dw, dh), hash)
    ensures var s := Spacing(dw, dh); sites == Room(Kept(base, panes, s) + BorderSites(panes, |panes|, s, hash))
    ensures var s := Spacing(dw, dh); var all := Kept(base, panes, s) + BorderSites(panes, |panes|, s, hash);
            sites == if |all| <= 2000 then all else all[..2000]
  {
    hide PaneSites, Kept, Spacing, IsBase;
    var s := Spacing(dw, dh);
    base := had;
    if base == [] {
      base := BaseSites(dw, dh, s, hash);
    }
    sites := KeepGrid(base, panes, s);
    ghost var grid := sites;
    assert grid + [] == grid;
    for p := 0 to |panes|
      invariant sites == Room(grid + BorderSites(panes, p, s, hash))
    {
      ghost var before, more := BorderSites(panes, p, s, hash), PaneSites(panes, panes[p], 4, s, hash);
      sites := PlacePane(panes, panes[p], s, hash, sites, grid + before);
      assert grid + (before + more) == (grid + before) + more;
    }
  }

  // ---- where they are ----

  /** A border site lies out of its own side by a third to a half of the spacing, and along it but for half a step. */
  lemma SideSiteOutside(q: Pane, side: nat, j: nat, s: nat, hash: nat -> nat)
    requires s >= 40 && Solid(q) && side < 4 && j <= Steps(q, side, s)
    ensures var p, third, half := SideSite(q, side, j, s, hash), s as real / 3.0, s as real / 2.0;
            && (side == 0 ==> third <= q.y0 as real - p.y <= half)
            && (side == 1 ==> third <= p.y - q.y1 as real <= half)
            && (side == 2 ==> third <= q.x0 as real - p.x <= half)
            && (side == 3 ==> third <= p.x - q.x1 as real <= half)
            && (side < 2 ==> (q.x0 - Step(s) / 4) as real <= p.x <= (q.x1 + Step(s) / 2) as real)
            && (side >= 2 ==> (q.y0 - Step(s) / 4) as real <= p.y <= (q.y1 + Step(s) / 2) as real)
  {
    var h := hash(((Before(q, side, s) + j) * 2654435761 + 7) % WORD);
    AlongInRange(q, side, j, h, s);
  }

  lemma AlongInRange(q: Pane, side: nat, j: nat, h: nat, s: nat)
    requires s >= 40 && Solid(q) && j <= Steps(q, side, s)
    ensures -(Step(s) / 4) as real <= Along(q, side, j, h, s) <= (Length(q, side) + Step(s) / 2) as real
  {
    var len, m := Length(q, side), Steps(q, side, s);
    TimesMonotone(len, j, m);
    Fraction(len * j, len, m);
    assert len * j == j * len;
  }

  lemma Fraction(a: nat, len: nat, m: nat)
    requires m > 0 && a <= len * m
    ensures 0.0 <= a as real / m as real <= len as real
  {
    var f := a as real / m as real;
    assert f * m as real == a as real;
    assert (len * m) as real == len as real * m as real;
  }

  /** A border site is by a window, less than the spacing from it, but 2 pixels clear of every pane. */
  ghost predicate BorderPlaced(panes: seq<Pane>, s: nat, site: Site) {
    site.near && !InSome(panes, site.x, site.y, 2) && InSome(panes, site.x, site.y, s)
  }

  lemma SideSiteByPane(q: Pane, side: nat, j: nat, s: nat, hash: nat -> nat)
    requires s >= 40 && Solid(q) && side < 4 && j <= Steps(q, side, s)
    ensures var site := SideSite(q, side, j, s, hash); site.near && Within(q, site.x, site.y, s)
  {
    SideSiteOutside(q, side, j, s, hash);
  }

  lemma {:induction false} SidePlaced(panes: seq<Pane>, p: nat, side: nat, n: nat, s: nat, hash: nat -> nat)
    requires s >= 40 && p < |panes| && Solid(panes[p]) && side < 4 && n <= Steps(panes[p], side, s) + 1
    ensures forall site :: site in SideSites(panes, panes[p], side, n, s, hash) ==> BorderPlaced(panes, s, site)
  {
    hide SideSite, Within;
    if n > 0 {
      SidePlaced(panes, p, side, n - 1, s, hash);
      var site := SideSite(panes[p], side, n - 1, s, hash);
      SideSiteByPane(panes[p], side, n - 1, s, hash);
    }
  }

  lemma {:induction false} PanePlaced(panes: seq<Pane>, p: nat, sides: nat, s: nat, hash: nat -> nat)
    requires s >= 40 && p < |panes| && Solid(panes[p]) && sides <= 4
    ensures forall site :: site in PaneSites(panes, panes[p], sides, s, hash) ==> BorderPlaced(panes, s, site)
  {
    hide BorderPlaced, SideSites;
    if sides > 0 {
      PanePlaced(panes, p, sides - 1, s, hash);
      SidePlaced(panes, p, sides - 1, Steps(panes[p], sides - 1, s) + 1, s, hash);
    }
  }

  lemma {:induction false} BordersPlaced(panes: seq<Pane>, n: nat, s: nat, hash: nat -> nat)
    requires s >= 40 && n <= |panes| && forall i :: 0 <= i < |panes| ==> Solid(panes[i])
    ensures forall site :: site in BorderSites(panes, n, s, hash) ==> BorderPlaced(panes, s, site)
  {
    hide BorderPlaced, PaneSites;
    if n > 0 {
      BordersPlaced(panes, n - 1, s, hash);
      PanePlaced(panes, n - 1, 4, s, hash);
    }
  }

  /** The grid's sites all have room, and come first; each site is clear of the windows as its kind is to be. */
  lemma SitesPlaced(base: seq<Site>, panes: seq<Pane>, s: nat, hash: nat -> nat)
    requires |base| <= MAX_BASE && s >= 40 && forall i :: 0 <= i < |panes| ==> Solid(panes[i])
    ensures var kept, sites := Kept(base, panes, s), Room(Kept(base, panes, s) + BorderSites(panes, |panes|, s, hash));
            && kept <= sites && |sites| <= MAX_SITES
            && (forall i :: 0 <= i < |kept| ==> GridPlaced(panes, s, sites[i]))
            && (forall i :: |kept| <= i < |sites| ==> BorderPlaced(panes, s, sites[i]))
  {
    hide GridPlaced, BorderPlaced, Kept, BorderSites;
    KeptArePlaced(base, panes, s);
    BordersPlaced(panes, |panes|, s, hash);
  }

  /** The spacing is a ninth of the screen's smaller side, and 40 at least. */
  lemma SpacingIs(dw: nat, dh: nat)
    ensures var s := Spacing(dw, dh);
            && s >= 40 && (s == 40 || (9 * s <= dw && 9 * s <= dh)) && (dw < 9 * (s + 1) || dh < 9 * (s + 1))
  {
  }

  /** Every place tried along each of the four sides that is clear of all windows has its site... */
  lemma BorderHas(panes: seq<Pane>, n: nat, p: nat, side: nat, j: nat, s: nat, hash: nat -> nat)
    requires s >= 40 && p < n <= |panes| && (forall i :: 0 <= i < |panes| ==> Solid(panes[i])) && side < 4
    requires var q := panes[p]; j <= (if side < 2 then q.x1 - q.x0 else q.y1 - q.y0) / (s * 9 / 20) + 1
    requires var site := SideSite(panes[p], side, j, s, hash); !InSome(panes, site.x, site.y, 2)
    ensures SideSite(panes[p], side, j, s, hash) in BorderSites(panes, n, s, hash)
    decreases n
  {
    hide PaneSites, InSome, SideSite;
    if p < n - 1 { BorderHas(panes, n - 1, p, side, j, s, hash); } else { PaneHas(panes, panes[p], 4, side, j, s, hash); }
  }

  lemma {:induction false} PaneHas(panes: seq<Pane>, q: Pane, sides: nat, side: nat, j: nat, s: nat, hash: nat -> nat)
    requires s >= 40 && Solid(q) && side < sides && j <= Steps(q, side, s)
    requires var site := SideSite(q, side, j, s, hash); !InSome(panes, site.x, site.y, 2)
    ensures SideSite(q, side, j, s, hash) in PaneSites(panes, q, sides, s, hash)
    decreases sides
  {
    hide SideSites, InSome, SideSite;
    if side < sides - 1 { PaneHas(panes, q, sides - 1, side, j, s, hash); }
    else { SideHas(panes, q, side, Steps(q, side, s) + 1, j, s, hash); }
  }

  lemma {:induction false} SideHas(panes: seq<Pane>, q: Pane, side: nat, n: nat, j: nat, s: nat, hash: nat -> nat)
    requires s >= 40 && Solid(q) && j < n
    requires var site := SideSite(q, side, j, s, hash); !InSome(panes, site.x, site.y, 2)
    ensures SideSite(q, side, j, s, hash) in SideSites(panes, q, side, n, s, hash)
    decreases n
  {
    hide InSome, SideSite;
    if j < n - 1 { SideHas(panes, q, side, n - 1, j, s, hash); }
  }

  /** ... at its step of the side but for the hash's shift, and out of it by a third of the spacing and what the hash
    adds; the hash is of the number of places tried before round the window. */
  lemma SideSiteIs(q: Pane, side: nat, j: nat, s: nat, hash: nat -> nat)
    requires s >= 40 && Solid(q) && side < 4 && j <= Steps(q, side, s)
    ensures var len, m, step := if side < 2 then q.x1 - q.x0 else q.y1 - q.y0, Steps(q, side, s), s * 9 / 20;
            var h := hash(((Before(q, side, s) + j) * 2654435761 + 7) % 0x1_0000_0000);
            var along := (j * len) as real / m as real + (h % (step / 2 + 1) - step / 4) as real;
            var depth := s as real / 3.0 + (h / 1024 % (s / 6 + 1)) as real;
            var p := SideSite(q, side, j, s, hash);
            && p.x == (if side < 2 then q.x0 as real + along else if side == 2 then q.x0 as real - depth else q.x1 as real + depth)
            && p.y == (if side == 0 then q.y0 as real - depth else if side == 1 then q.y1 as real + depth else q.y0 as real + along)
            && p.near
  {
    hide Steps, Before;
  }

  /** A side has as many steps as fit it and one more, and a place at each end of each. */
  lemma TriedBefore(q: Pane, s: nat)
    requires s >= 40 && Solid(q)
    ensures var a, b := (q.x1 - q.x0) / (s * 9 / 20) + 2, (q.y1 - q.y0) / (s * 9 / 20) + 2;
            Before(q, 0, s) == 0 && Before(q, 1, s) == a && Before(q, 2, s) == 2 * a && Before(q, 3, s) == 2 * a + b
  {
    hide Steps;
    StepsIs(q, 0, s);
    StepsIs(q, 1, s);
    StepsIs(q, 2, s);
    assert Before(q, 1, s) == Before(q, 0, s) + Steps(q, 0, s) + 1;
    assert Before(q, 2, s) == Before(q, 1, s) + Steps(q, 1, s) + 1;
  }

  lemma StepsIs(q: Pane, side: nat, s: nat)
    requires s >= 40 && Solid(q)
    ensures Steps(q, side, s) == (if side < 2 then q.x1 - q.x0 else q.y1 - q.y0) / (s * 9 / 20) + 1
  {
  }

  predicate Modest(q: Pane) {
    -100000 <= q.x0 && q.x1 <= 100000 && -100000 <= q.y0 && q.y1 <= 100000
  }

  predicate Bounded(site: Site) {
    -1000000.0 <= site.x <= 1000000.0 && -1000000.0 <= site.y <= 1000000.0
  }

  lemma GridSiteBounded(gx: nat, gy: nat, dw: nat, dh: nat, s: nat, hash: nat -> nat)
    requires 0 < s <= 100000 && dw <= 100000 && dh <= 100000 && gx < Squares(dw, s) && gy < Squares(dh, s)
    ensures Bounded(GridSite(gx, gy, s, hash))
  {
    hide Squares, GridSite;
    SquaresExact(dw, s, gx);
    SquaresExact(dh, s, gy);
    GridSiteInItsSquare(gx, gy, s, hash);
  }

  lemma BaseBounded(base: seq<Site>, dw: nat, dh: nat, s: nat, hash: nat -> nat)
    requires 0 < s <= 100000 && dw <= 100000 && dh <= 100000
    requires IsBase(base, Squares(dw, s), s, hash) && |base| <= Squares(dw, s) * Squares(dh, s)
    ensures forall i :: 0 <= i < |base| ==> Bounded(base[i])
  {
    hide GridSite, Bounded;
    var c, rows := Squares(dw, s), Squares(dh, s);
    hide Squares;
    forall i | 0 <= i < |base|
      ensures Bounded(base[i])
    {
      RowOf(c, rows, i);
      GridSiteBounded(i % c, i / c, dw, dh, s, hash);
    }
  }

  lemma ByPaneBounded(panes: seq<Pane>, s: nat, site: Site)
    requires s <= 100000 && BorderPlaced(panes, s, site) && forall i :: 0 <= i < |panes| ==> Modest(panes[i])
    ensures Bounded(site)
  {
    hide Modest;
    var i :| 0 <= i < |panes| && Within(panes[i], site.x, site.y, s);
    assert Modest(panes[i]);
    WithinBounded(panes[i], s, site);
  }

  lemma WithinBounded(q: Pane, s: nat, site: Site)
    requires s <= 100000 && Within(q, site.x, site.y, s) && Modest(q)
    ensures Bounded(site)
  {
  }

  /** So the search over the sites placed for a screen has the coordinates it counts on. */
  lemma PlacedForSearch(base: seq<Site>, dw: nat, dh: nat, panes: seq<Pane>, hash: nat -> nat, g: Glass)
    requires dw <= 100000 && dh <= 100000 && forall i :: 0 <= i < |panes| ==> Solid(panes[i]) && Modest(panes[i])
    requires var s := Spacing(dw, dh);
             && IsBase(base, Squares(dw, s), s, hash)
             && |base| == Least(MAX_BASE, Squares(dw, s) * Squares(dh, s))
             && g.scene == Scene(dw, dh, s, Room(Kept(base, panes, s) + BorderSites(panes, |panes|, s, hash)))
    requires g.picture == [] || |g.picture| == dw * dh
    ensures g.Sane()
  {
    var s := Spacing(dw, dh);
    hide Kept, BorderSites, BorderPlaced, GridPlaced, IsBase, Solid, Squares;
    SitesPlaced(base, panes, s, hash);
    KeptArePlaced(base, panes, s);
    BaseBounded(base, dw, dh, s, hash);
    var sites, kept := g.scene.sites, Kept(base, panes, s);
    forall i | 0 <= i < |sites|
      ensures Bounded(sites[i])
    {
      if i < |kept| {
        assert sites[i] == kept[i] && kept[i] in kept;
        var j :| 0 <= j < |base| && base[j] == sites[i].(near := base[j].near);
        assert Bounded(base[j]);
      } else {
        ByPaneBounded(panes, s, sites[i]);
      }
    }
  }

  // ---- what the search makes of them

  /** The sites of a screen with these windows. */
  ghost function Placed(base: seq<Site>, panes: seq<Pane>, s: nat, hash: nat -> nat): seq<Site>
    requires s >= 40 && forall i :: 0 <= i < |panes| ==> Solid(panes[i])
  {
    Room(Kept(base, panes, s) + BorderSites(panes, |panes|, s, hash))
  }

  lemma {:induction false} AllKept(base: seq<Site>, s: nat)
    requires forall i :: 0 <= i < |base| ==> !base[i].near
    ensures Kept(base, [], s) == base
  {
    if base != [] { AllKept(base[..|base| - 1], s); }
  }

  lemma SquareUpTo(a: real, b: real, limit: real)
    requires -limit <= a <= limit && -limit <= b <= limit
    ensures SquareSum(a, b) <= 2.0 * (limit * limit)
  {
    SquareWithin(a, limit);
    SquareWithin(b, limit);
  }

  lemma SquareWithin(a: real, limit: real)
    requires -limit <= a <= limit
    ensures a * a <= limit * limit
  {
    var m := if a >= 0.0 then a else -a;
    assert m * m <= m * limit <= limit * limit;
  }

  lemma OwnOrNextSquare(g: nat, p: nat, s: nat)
    requires s > 0 && (g == p / s || g == p / s + 1)
    ensures 0 <= g * s - p + s <= 2 * s
  {
    assert p == s * (p / s) + p % s;
    assert (p / s + 1) * s == s * (p / s) + s;
  }

  lemma WithinHalfMore(v: real, corner: nat, p: nat, s: nat)
    requires 0 <= corner - p + s <= 2 * s && corner as real - s as real / 2.0 <= v < corner as real + s as real / 2.0
    ensures -(1.5 * s as real) <= v - p as real <= 1.5 * s as real
  {
  }

  /** The grid sites of a pixel's own square and of the next are within one and a half squares of it each way. */
  lemma GridSiteNear(gx: nat, gy: nat, x: nat, y: nat, s: nat, hash: nat -> nat)
    requires s > 0 && (gx == x / s || gx == x / s + 1) && gy == y / s
    ensures var p := GridSite(gx, gy, s, hash);
            SquareSum(p.x - x as real, p.y - y as real) < Reach(RINGS, s)
  {
    hide *;
    var p := GridSite(gx, gy, s, hash);
    GridSiteInItsSquare(gx, gy, s, hash);
    OwnOrNextSquare(gx, x, s);
    OwnOrNextSquare(gy, y, s);
    WithinHalfMore(p.x, gx * s, x, s);
    WithinHalfMore(p.y, gy * s, y, s);
    SquareUpTo(p.x - x as real, p.y - y as real, 1.5 * s as real);
    NineIsMore(s);
  }

  lemma NineIsMore(s: nat)
    requires s > 0
    ensures 2.0 * ((1.5 * s as real) * (1.5 * s as real)) < Reach(RINGS, s)
  {
    var r := s as real;
    assert (RINGS * s) as real == 3.0 * r;
    assert (3.0 * r) * (3.0 * r) == 9.0 * (r * r) && (1.5 * r) * (1.5 * r) == 2.25 * (r * r);
    assert r * r > 0.0;
  }

  /** A grid site, by its place in the list. */
  lemma GridSiteOf(base: seq<Site>, dw: nat, dh: nat, s: nat, hash: nat -> nat, gx: nat, gy: nat) returns (i: nat)
    requires s > 0 && gx < Squares(dw, s) && gy < Squares(dh, s)
    requires IsBase(base, Squares(dw, s), s, hash) && |base| == Squares(dw, s) * Squares(dh, s)
    ensures i < |base| && base[i] == GridSite(gx, gy, s, hash) && i % Squares(dw, s) == gx
  {
    hide Squares, GridSite;
    i := GridPlace(dw, dh, s, gx, gy);
  }

  lemma WholeGridFindsBoth(base: seq<Site>, dw: nat, dh: nat, s: nat, hash: nat -> nat, x: nat, y: nat, two: Two)
    requires s > 0 && x < dw && y < dh && Found(Scene(dw, dh, s, base), x, y, two)
    requires IsBase(base, Squares(dw, s), s, hash) && |base| == Squares(dw, s) * Squares(dh, s)
    ensures Scene(dw, dh, s, base).TwoNearest(x, y, Scene(dw, dh, s, base).All(), two)
  {
    hide Squares, GridSite, SquareSum, Reach, Found, Scene.TwoNearest, Scene.Block, Scene.All, IsBase;
    InGrid(x, dw, s);
    InGrid(y, dh, s);
    var i := GridSiteOf(base, dw, dh, s, hash, x / s, y / s);
    var j := GridSiteOf(base, dw, dh, s, hash, x / s + 1, y / s);
    GridSiteNear(x / s, y / s, x, y, s, hash);
    GridSiteNear(x / s + 1, y / s, x, y, s, hash);
    TwoNearAreGlobal(Scene(dw, dh, s, base), x, y, two, i, j);
  }

  /** The whole grid of a screen, and the screen with its sites. */
  ghost function WholeGrid(dw: nat, dh: nat, s: nat, hash: nat -> nat): (base: seq<Site>)
    requires s > 0
    ensures IsBase(base, Squares(dw, s), s, hash) && |base| == Squares(dw, s) * Squares(dh, s)
  {
    var c := Squares(dw, s);
    seq(c * Squares(dh, s), i requires 0 <= i => GridSite(i % c, i / c, s, hash))
  }

  ghost function OpenScene(dw: nat, dh: nat, hash: nat -> nat): Scene {
    var s := Spacing(dw, dh);
    Scene(dw, dh, s, Placed(WholeGrid(dw, dh, s, hash), [], s, hash))
  }

  /** The grid placed is the whole one when it has room. */
  lemma GridWithRoomIsWhole(base: seq<Site>, dw: nat, dh: nat, s: nat, hash: nat -> nat)
    requires s > 0 && Squares(dw, s) * Squares(dh, s) <= MAX_BASE
    requires IsBase(base, Squares(dw, s), s, hash) && |base| == Least(MAX_BASE, Squares(dw, s) * Squares(dh, s))
    ensures base == WholeGrid(dw, dh, s, hash)
  {
    hide Squares, GridSite;
    var whole := WholeGrid(dw, dh, s, hash);
    assert forall i: nat :: i < |base| ==> base[i] == whole[i];
  }

  /** With no windows, and all of the grid within its 1000, every pixel's two nearest of all sites are found. */
  lemma OpenGridFindsBoth(dw: nat, dh: nat, hash: nat -> nat, x: nat, y: nat, two: Two)
    requires x < dw && y < dh && Squares(dw, Spacing(dw, dh)) * Squares(dh, Spacing(dw, dh)) <= MAX_BASE
    ensures var g := OpenScene(dw, dh, hash); Found(g, x, y, two) ==> g.TwoNearest(x, y, g.All(), two)
  {
    hide Spacing, Squares, Found, Scene.TwoNearest, Scene.All, WholeGrid;
    var s := Spacing(dw, dh);
    var base := WholeGrid(dw, dh, s, hash);
    assert forall i: nat :: i < |base| ==> !base[i].near;
    AllKept(base, s);
    assert base + [] == base;
    hide IsBase;
    if Found(Scene(dw, dh, s, base), x, y, two) {
      WholeGridFindsBoth(base, dw, dh, s, hash, x, y, two);
    }
  }

  lemma InGrid(p: nat, n: nat, s: nat)
    requires s > 0 && p < n
    ensures p / s + 1 < Squares(n, s)
  {
    assert p == s * (p / s) + p % s;
    assert (p / s + 1) * s == s * (p / s) + s;
    SquaresExact(n, s, p / s + 1);
  }

  /** Where a grid point's site is. */
  lemma GridPlace(dw: nat, dh: nat, s: nat, gx: nat, gy: nat) returns (i: nat)
    requires s > 0 && gx < Squares(dw, s) && gy < Squares(dh, s)
    ensures i < Squares(dw, s) * Squares(dh, s) && i % Squares(dw, s) == gx && i / Squares(dw, s) == gy
  {
    var c, rows := Squares(dw, s), Squares(dh, s);
    hide Squares;
    PlaceInside(c, rows, gx, gy);
    i := c * gy + gx;
    SplitUnique(c, gy, gx, i);
  }

  /** Two windows side by side on a screen of 360 by 360, ten pixels between them. */
  const SIDE_BY_SIDE: seq<Pane> := [Pane(-3, -3, 179, 363), Pane(183, -3, 363, 363)]

  /** A screen with windows, whatever grid it has. */
  ghost function SceneOf(dw: nat, dh: nat, base: seq<Site>, panes: seq<Pane>, hash: nat -> nat): Scene
    requires forall i :: 0 <= i < |panes| ==> Solid(panes[i])
  {
    var s := Spacing(dw, dh);
    Scene(dw, dh, s, Placed(base, panes, s, hash))
  }

  /** Between them no site is placed within three squares: a pixel in the gap finds none, though there are some. */
  lemma GapFindsNone(dw: nat, dh: nat, base: seq<Site>, panes: seq<Pane>, hash: nat -> nat, two: Two)
    requires dw == dh == 360 && panes == SIDE_BY_SIDE && |base| <= MAX_BASE
    ensures forall i :: 0 <= i < |panes| ==> !panes[i].Holds(180, 180)
    ensures var g := SceneOf(dw, dh, base, panes, hash); g.sites != [] && (Found(g, 180, 180, two) ==> two.best == -1)
  {
    hide Placed, OffScreen, Squares, Found, Spacing, Scene.TwoNearest, SquareSum;
    SpacingOfGap(dw, dh);
    var g := SceneOf(dw, dh, base, panes, hash);
    GapHasSites(base, panes, g.bs, hash);
    forall i | 0 <= i < |g.sites|
      ensures OffScreen(g.sites[i].x) || OffScreen(g.sites[i].y)
    {
      NotInGap(base, panes, g.bs, hash, i);
    }
    if Found(g, 180, 180, two) { AllOffScreen(g, 180, 180, two); }
  }

  lemma SpacingOfGap(dw: nat, dh: nat)
    requires dw == dh == 360
    ensures Spacing(dw, dh) == 40
  {
  }

  /** Then a pixel in the middle of the screen finds none. */
  lemma AllOffScreen(g: Scene, x: nat, y: nat, two: Two)
    requires g.dw == g.dh == 360 && g.bs == 40 && 160 <= x < 240 && 160 <= y < 240 && Found(g, x, y, two)
    requires forall i :: 0 <= i < |g.sites| ==> OffScreen(g.sites[i].x) || OffScreen(g.sites[i].y)
    ensures two.best == -1
  {
    hide OffScreen, Found, Clamped, Truncated, Quotient, Reach, SquareSum;
    assert g.Columns() == 10 && g.Rows() == 10 && 4 <= x / 40 <= 5 && 4 <= y / 40 <= 5;
    forall i | 0 <= i < |g.sites|
      ensures !g.InBlock(i, x / 40, y / 40, RINGS)
    {
      if OffScreen(g.sites[i].x) { OffScreenColumn(g.sites[i].x); } else { OffScreenColumn(g.sites[i].y); }
    }
    assert g.Block(x / 40, y / 40, RINGS) == {};
    EmptySquaresFindNone(g, x, y, two);
  }

  /** Every site is off the screen, by 2 pixels and the windows' margin or more. */
  lemma NotInGap(base: seq<Site>, panes: seq<Pane>, s: nat, hash: nat -> nat, i: nat)
    requires panes == SIDE_BY_SIDE && s >= 40 && |base| <= MAX_BASE && i < |Placed(base, panes, s, hash)|
    ensures var p := Placed(base, panes, s, hash)[i]; OffScreen(p.x) || OffScreen(p.y)
  {
    hide Kept, BorderSites, InSome, OffScreen;
    SitesPlaced(base, panes, s, hash);
    var p := Placed(base, panes, s, hash)[i];
    if i < |Kept(base, panes, s)| {
      assert GridPlaced(panes, s, p);
      ClearOfBoth(panes, p, s * 2 / 3);
    } else {
      assert BorderPlaced(panes, s, p);
      ClearOfBoth(panes, p, 2);
    }
  }

  lemma ClearOfBoth(panes: seq<Pane>, p: Site, margin: int)
    requires panes == SIDE_BY_SIDE && margin >= 2 && !InSome(panes, p.x, p.y, margin)
    ensures OffScreen(p.x) || OffScreen(p.y)
  {
    var a, b := panes[0], panes[1];
    assert !Within(a, p.x, p.y, margin) && !Within(b, p.x, p.y, margin);
  }

  predicate OffScreen(v: real) {
    v < -5.0 || v >= 365.0
  }

  lemma OffScreenColumn(v: real)
    requires OffScreen(v)
    ensures var c := Clamped(Quotient(Truncated(v), 40), 10); c == 0 || c == 9
  {
    hide Clamped, Truncated, Quotient;
    ClampedColumn(Clamped(Quotient(Truncated(v), 40), 10), 10, v, 40);
  }

  lemma GapHasSites(base: seq<Site>, panes: seq<Pane>, s: nat, hash: nat -> nat)
    requires panes == SIDE_BY_SIDE && s == 40
    ensures Placed(base, panes, s, hash) != []
  {
    hide Kept, PaneSites;
    FirstSideHasSites(panes, s, hash);
    assert BorderSites(panes, 1, s, hash) == BorderSites(panes, 0, s, hash) + PaneSites(panes, panes[0], 4, s, hash);
    assert BorderSites(panes, 2, s, hash) == BorderSites(panes, 1, s, hash) + PaneSites(panes, panes[1], 4, s, hash);
  }

  lemma FirstSideHasSites(panes: seq<Pane>, s: nat, hash: nat -> nat)
    requires panes == SIDE_BY_SIDE && s == 40
    ensures PaneSites(panes, panes[0], 4, s, hash) != []
  {
    hide SideSite, Steps, SideSites;
    var q := panes[0];
    FirstTryStays(panes, s, hash);
    SideGrows(panes, q, 0, 1, Steps(q, 0, s) + 1, s, hash);
    assert PaneSites(panes, q, 1, s, hash) ==
           PaneSites(panes, q, 0, s, hash) + SideSites(panes, q, 0, Steps(q, 0, s) + 1, s, hash);
    PaneSitesGrow(panes, q, 1, 4, s, hash);
  }

  lemma FirstTryStays(panes: seq<Pane>, s: nat, hash: nat -> nat)
    requires panes == SIDE_BY_SIDE && s == 40
    ensures SideSites(panes, panes[0], 0, 1, s, hash) != []
  {
    hide SideSite, Steps;
    var q := panes[0];
    var p := SideSite(q, 0, 0, s, hash);
    SideSiteOutside(q, 0, 0, s, hash);
    assert p.y < -5.0;
    assert !InSome(panes, p.x, p.y, 2);
    assert SideSites(panes, q, 0, 0, s, hash) == [];
  }

  lemma {:induction false} PaneSitesGrow(panes: seq<Pane>, q: Pane, a: nat, b: nat, s: nat, hash: nat -> nat)
    requires s >= 40 && Solid(q) && a <= b
    ensures PaneSites(panes, q, a, s, hash) <= PaneSites(panes, q, b, s, hash)
    decreases b
  {
    hide SideSites;
    if a < b { PaneSitesGrow(panes, q, a, b - 1, s, hash); }
  }
}
