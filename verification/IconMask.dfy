/** Where the desktop's icons are (`load_wallpaper` and `update_icon_mask` in sg-deskcomp.c).

  The mask marks every pixel where the desktop's picture differs from the plain wallpaper, and a pixel round
  each. It is found once for the whole screen; when a part of the picture is drawn again, only that part and
  what a pixel's mark can reach from it are found again.
 */
module IconMask {

  const MARKED := 255

  /** A part of the screen: a corner and a size, which may reach past the screen. */
  datatype Part = Part(x: int, y: int, w: nat, h: nat) {
    predicate Holds(px: int, py: int) {
      x <= px < x + w && y <= py < y + h
    }
  }

  /** The pixels differ in colour; what their unused top byte holds does not matter. */
  predicate Differ(a: bv32, b: bv32) {
    (a ^ b) & 0xffffff != 0
  }

  /** Both pictures, a row after another. */
  datatype Pictures = Pictures(dw: nat, dh: nat, wallpaper: seq<seq<bv32>>, desktop: seq<seq<bv32>>) {

    ghost predicate Whole() {
      && |wallpaper| == |desktop| == dh
      && (forall y :: 0 <= y < dh ==> |wallpaper[y]| == dw)
      && (forall y :: 0 <= y < dh ==> |desktop[y]| == dw)
    }

    /** There is an icon, or part of one, on the pixel. */
    predicate IconAt(x: int, y: int)
      requires Whole()
    {
      0 <= x < dw && 0 <= y < dh && Differ(wallpaper[y][x], desktop[y][x])
    }

    /** There is one on the pixel or next to it, corners included. */
    ghost predicate IconNear(x: int, y: int)
      requires Whole()
    {
      exists ix, iy :: x - 1 <= ix <= x + 1 && y - 1 <= iy <= y + 1 && IconAt(ix, iy)
    }
  }

  /** The mask is exactly the icons and a pixel round them. */
  ghost predicate Masks(mask: array2<int>, p: Pictures)
    requires p.Whole()
    reads mask
  {
    && mask.Length0 == p.dh && mask.Length1 == p.dw
    && forall x, y :: 0 <= x < p.dw && 0 <= y < p.dh ==> mask[y, x] == if p.IconNear(x, y) then MARKED else 0
  }

  /** In its red, its green or its blue. */
  lemma DifferInColor(a: bv32, b: bv32)
    ensures Differ(a, b) <==>
      (a >> 16) & 0xff != (b >> 16) & 0xff || (a >> 8) & 0xff != (b >> 8) & 0xff || a & 0xff != b & 0xff
  {
  }

  /** A pixel of the mask is 255 when a pixel of the screen, it or one of the eight round it, differs in colour from the
    wallpaper's; else it is 0. */
  lemma MaskIs(mask: array2<int>, p: Pictures, x: int, y: int)
    requires p.Whole() && Masks(mask, p) && 0 <= x < p.dw && 0 <= y < p.dh
    ensures mask[y, x] == 0 || mask[y, x] == 255
    ensures mask[y, x] == 255 <==>
      exists ix, iy :: -1 <= ix - x <= 1 && -1 <= iy - y <= 1 && 0 <= ix < p.dw && 0 <= iy < p.dh
                       && Differ(p.wallpaper[iy][ix], p.desktop[iy][ix])
  {
    hide Differ;
    if p.IconNear(x, y) {
      var ix, iy :| x - 1 <= ix <= x + 1 && y - 1 <= iy <= y + 1 && p.IconAt(ix, iy);
      assert Differ(p.wallpaper[iy][ix], p.desktop[iy][ix]);
    }
    if ix, iy :| -1 <= ix - x <= 1 && -1 <= iy - y <= 1 && 0 <= ix < p.dw && 0 <= iy < p.dh
                 && Differ(p.wallpaper[iy][ix], p.desktop[iy][ix]) {
      assert p.IconAt(ix, iy);
    }
  }

  /** The place of column `x` of row `y` in the order the source's loops visit an area from column `x0` on. */
  ghost predicate Visited(ix: int, iy: int, x: int, y: int) {
    iy < y || (iy == y && ix < x)
  }

  /** The marks of a part of the screen, from the icons of an area visited before (`vx`, `vy`). */
  ghost predicate Marks(m: array2<int>, x0: int, y0: int, p: Pictures, area: Part, vx: int, vy: int)
    requires p.Whole()
    reads m
  {
    forall px, py :: 0 <= px < m.Length1 && 0 <= py < m.Length0 ==>
      m[py, px] == if MarkedBy(px + x0, py + y0, p, area, vx, vy) then MARKED else 0
  }

  ghost predicate MarkedBy(x: int, y: int, p: Pictures, area: Part, vx: int, vy: int)
    requires p.Whole()
  {
    exists ix, iy :: x - 1 <= ix <= x + 1 && y - 1 <= iy <= y + 1 && p.IconAt(ix, iy) &&
      area.Holds(ix, iy) && Visited(ix, iy, vx, vy)
  }

  lemma MarkedByOneMore(x: int, y: int, p: Pictures, area: Part, vx: int, vy: int)
    requires p.Whole() && area.Holds(vx, vy)
    ensures MarkedBy(x, y, p, area, vx + 1, vy) <==>
      MarkedBy(x, y, p, area, vx, vy) || (p.IconAt(vx, vy) && x - 1 <= vx <= x + 1 && y - 1 <= vy <= y + 1)
  {
    forall ix, iy
      ensures Visited(ix, iy, vx + 1, vy) <==> Visited(ix, iy, vx, vy) || (ix == vx && iy == vy)
    {
    }
  }

  /** An icon's mark: its pixel and those round it, as far as they are in the part. */
  method Stamp(m: array2<int>, x0: int, y0: int, x: int, y: int)
    modifies m
    ensures forall px, py :: 0 <= px < m.Length1 && 0 <= py < m.Length0 ==>
      m[py, px] == if x - 1 <= px + x0 <= x + 1 && y - 1 <= py + y0 <= y + 1 then MARKED else old(m[py, px])
  {
    var py := y - 1;
    while py <= y + 1
      invariant y - 1 <= py <= y + 2
      invariant forall qx, qy :: 0 <= qx < m.Length1 && 0 <= qy < m.Length0 ==>
        m[qy, qx] == if x - 1 <= qx + x0 <= x + 1 && y - 1 <= qy + y0 < py then MARKED else old(m[qy, qx])
    {
      var px := x - 1;
      while px <= x + 1
        invariant x - 1 <= px <= x + 2
        invariant forall qx, qy :: 0 <= qx < m.Length1 && 0 <= qy < m.Length0 ==>
          m[qy, qx] == if (x - 1 <= qx + x0 <= x + 1 && y - 1 <= qy + y0 < py) ||
                          (x - 1 <= qx + x0 < px && qy + y0 == py) then MARKED else old(m[qy, qx])
      {
        if y0 <= py < y0 + m.Length0 && x0 <= px < x0 + m.Length1 {
          m[py - y0, px - x0] := MARKED;
        }
        px := px + 1;
      }
      py := py + 1;
    }
  }

  ghost function Snapshot(m: array2<int>): map<(int, int), int>
    reads m
  {
    map py, px | 0 <= py < m.Length0 && 0 <= px < m.Length1 :: (py, px) := m[py, px]
  }

  /** Marks the icons of an area into a part of the screen that starts out unmarked. */
  method MarkIcons(m: array2<int>, x0: int, y0: int, p: Pictures, area: Part)
    requires p.Whole() && 0 <= area.x && 0 <= area.y && area.x + area.w <= p.dw && area.y + area.h <= p.dh
    requires forall px, py :: 0 <= px < m.Length1 && 0 <= py < m.Length0 ==> m[py, px] == 0
    modifies m
    ensures Marks(m, x0, y0, p, area, area.x, area.y + area.h)
  {
    var y := area.y;
    while y < area.y + area.h
      invariant area.y <= y <= area.y + area.h && Marks(m, x0, y0, p, area, area.x, y)
    {
      var x := area.x;
      while x < area.x + area.w
        invariant area.x <= x <= area.x + area.w && Marks(m, x0, y0, p, area, x, y)
      {
        ghost var before := Snapshot(m);
        if Differ(p.wallpaper[y][x], p.desktop[y][x]) {
          Stamp(m, x0, y0, x, y);
        }
        forall px, py | 0 <= px < m.Length1 && 0 <= py < m.Length0
          ensures m[py, px] == if MarkedBy(px + x0, py + y0, p, area, x + 1, y) then MARKED else 0
        {
          MarkedByOneMore(px + x0, py + y0, p, area, x, y);
          assert before[(py, px)] == if MarkedBy(px + x0, py + y0, p, area, x, y) then MARKED else 0;
          hide MarkedBy;
        }
        x := x + 1;
      }
      y := y + 1;
    }
  }

  /** The whole mask, found at once. */
  method LoadWallpaper(p: Pictures) returns (mask: array2<int>)
    requires p.Whole()
    ensures fresh(mask) && Masks(mask, p)
  {
    mask := new int[p.dh, p.dw]((i, j) => 0);
    var screen := Part(0, 0, p.dw, p.dh);
    MarkIcons(mask, 0, 0, p, screen);
    forall x, y | 0 <= x < p.dw && 0 <= y < p.dh
      ensures MarkedBy(x, y, p, screen, 0, p.dh) <==> p.IconNear(x, y)
    {
    }
  }

  /** The pictures agree with earlier ones outside a part of the screen. */
  ghost predicate ChangedOnlyIn(p: Pictures, was: Pictures, part: Part)
    requires p.Whole() && was.Whole()
  {
    && p.dw == was.dw && p.dh == was.dh
    && forall x, y :: 0 <= x < p.dw && 0 <= y < p.dh && !part.Holds(x, y) ==>
         p.wallpaper[y][x] == was.wallpaper[y][x] && p.desktop[y][x] == was.desktop[y][x]
  }

  function Least(a: int, b: int): int { if a < b then a else b }

  function Greatest(a: int, b: int): int { if a > b then a else b }

  /** A part that changed, found again; unless the pictures cannot be fetched, when the mask stays as it was. */
  method UpdateIconMask(mask: array2<int>, p: Pictures, part: Part, fetched: bool, ghost was: Pictures)
    requires p.Whole() && was.Whole() && ChangedOnlyIn(p, was, part) && Masks(mask, was)
    modifies mask
    ensures fetched ==> Masks(mask, p)
    ensures !fetched ==> forall y, x :: 0 <= y < mask.Length0 && 0 <= x < mask.Length1 ==> mask[y, x] == old(mask[y, x])
  {
    var x0, y0 := Greatest(part.x - 1, 0), Greatest(part.y - 1, 0);
    var x1, y1 := Least(part.x + part.w + 1, p.dw), Least(part.y + part.h + 1, p.dh);
    if x1 <= x0 || y1 <= y0 {
      UnchangedIfOutside(p, was, part);
      return;
    }
    var gx0, gy0 := Greatest(x0 - 1, 0), Greatest(y0 - 1, 0);
    var gx1, gy1 := Least(x1 + 1, p.dw), Least(y1 + 1, p.dh);
    if !fetched { return; }
    var m := new int[y1 - y0, x1 - x0]((i, j) => 0);
    var area := Part(gx0, gy0, gx1 - gx0, gy1 - gy0);
    MarkIcons(m, x0, y0, p, area);
    var y := 0;
    while y < y1 - y0
      invariant 0 <= y <= y1 - y0 && Marks(m, x0, y0, p, area, gx0, gy1)
      invariant forall py, px :: 0 <= py < p.dh && 0 <= px < p.dw ==>
        mask[py, px] == if y0 <= py < y0 + y && x0 <= px < x1 then m[py - y0, px - x0] else old(mask[py, px])
    {
      var x := 0;
      while x < x1 - x0
        invariant 0 <= x <= x1 - x0 && Marks(m, x0, y0, p, area, gx0, gy1)
        invariant forall py, px :: 0 <= py < p.dh && 0 <= px < p.dw ==>
          mask[py, px] == if (y0 <= py < y0 + y && x0 <= px < x1) || (py == y0 + y && x0 <= px < x0 + x)
                          then m[py - y0, px - x0] else old(mask[py, px])
      {
        mask[y0 + y, x0 + x] := m[y, x];
        x := x + 1;
      }
      y := y + 1;
    }
    forall px, py | 0 <= px < p.dw && 0 <= py < p.dh
      ensures mask[py, px] == if p.IconNear(px, py) then MARKED else 0
    {
      if x0 <= px < x1 && y0 <= py < y1 {
        MarkedInPart(px, py, p, area, x0, y0, x1, y1);
        assert m[py - y0, px - x0] == if MarkedBy(px - x0 + x0, py - y0 + y0, p, area, gx0, gy1) then MARKED else 0;
      } else {
        UntouchedOutside(px, py, p, was, part);
      }
    }
  }

  /** In the part and a pixel round it, the icons of the area round that decide the marks. */
  lemma MarkedInPart(px: int, py: int, p: Pictures, area: Part, x0: int, y0: int, x1: int, y1: int)
    requires p.Whole() && 0 <= x0 <= px < x1 <= p.dw && 0 <= y0 <= py < y1 <= p.dh
    requires area.x == Greatest(x0 - 1, 0) && area.x + area.w == Least(x1 + 1, p.dw)
    requires area.y == Greatest(y0 - 1, 0) && area.y + area.h == Least(y1 + 1, p.dh)
    ensures MarkedBy(px, py, p, area, area.x, area.y + area.h) <==> p.IconNear(px, py)
  {
    if p.IconNear(px, py) {
      var ix, iy :| px - 1 <= ix <= px + 1 && py - 1 <= iy <= py + 1 && p.IconAt(ix, iy);
      assert area.Holds(ix, iy) && Visited(ix, iy, area.x, area.y + area.h);
    }
  }

  /** A mark further than a pixel from the part that changed stays what it was. */
  lemma UntouchedOutside(px: int, py: int, p: Pictures, was: Pictures, part: Part)
    requires p.Whole() && was.Whole() && ChangedOnlyIn(p, was, part) && 0 <= px < p.dw && 0 <= py < p.dh
    requires !(part.x - 1 <= px < part.x + part.w + 1 && part.y - 1 <= py < part.y + part.h + 1)
    ensures p.IconNear(px, py) <==> was.IconNear(px, py)
  {
    forall ix, iy | px - 1 <= ix <= px + 1 && py - 1 <= iy <= py + 1
      ensures p.IconAt(ix, iy) <==> was.IconAt(ix, iy)
    {
      assert !part.Holds(ix, iy);
    }
  }

  lemma UnchangedIfOutside(p: Pictures, was: Pictures, part: Part)
    requires p.Whole() && was.Whole() && ChangedOnlyIn(p, was, part)
    requires Least(part.x + part.w + 1, p.dw) <= Greatest(part.x - 1, 0) ||
      Least(part.y + part.h + 1, p.dh) <= Greatest(part.y - 1, 0)
    ensures forall x, y :: 0 <= x < p.dw && 0 <= y < p.dh ==> (p.IconNear(x, y) <==> was.IconNear(x, y))
  {
    forall x, y | 0 <= x < p.dw && 0 <= y < p.dh ensures p.IconNear(x, y) <==> was.IconNear(x, y) {
      UntouchedOutside(x, y, p, was, part);
    }
  }

  /** A part of the screen drawn again, and the pictures after that. */
  datatype Change = Change(part: Part, after: Pictures)

  function After(p: Pictures, changes: seq<Change>): Pictures {
    if changes == [] then p else changes[|changes| - 1].after
  }

  ghost predicate Chained(p: Pictures, changes: seq<Change>)
    requires p.Whole()
  {
    forall k :: 0 <= k < |changes| ==>
      && changes[k].after.Whole()
      && After(p, changes[..k]).Whole()
      && ChangedOnlyIn(changes[k].after, After(p, changes[..k]), changes[k].part)
  }

  /** Kept up through any changes in place, the mask is the one that would be found at once. */
  method FollowChanges(p: Pictures, changes: seq<Change>) returns (mask: array2<int>)
    requires p.Whole() && Chained(p, changes)
    ensures After(p, changes).Whole() && Masks(mask, After(p, changes))
  {
    mask := LoadWallpaper(p);
    var k := 0;
    while k < |changes|
      invariant 0 <= k <= |changes| && fresh(mask)
      invariant After(p, changes[..k]).Whole() && Masks(mask, After(p, changes[..k]))
    {
      UpdateIconMask(mask, changes[k].after, changes[k].part, true, After(p, changes[..k]));
      assert After(p, changes[..k + 1]) == changes[k].after;
      k := k + 1;
    }
    assert changes[..k] == changes;
  }
}
