/** What of the cells is drawn again when the windows change (`render_cells` in sg-deskcomp.c).

  Only boxes about the old and the new place of each window that came, went or moved are drawn again. That leaves
  what drawing the whole screen again would, exactly when no pixel outside the boxes has another colour now.
 */
module CellRedraw {
  import opened Raster
  import opened CellSearch
  import opened SitePlacement

  /** A window's pane, with the window's number. */
  datatype Framed = Framed(id: int, pane: Pane)

  function Panes(list: seq<Framed>): seq<Pane> {
    seq(|list|, i requires 0 <= i < |list| => list[i].pane)
  }

  function Widened(pane: Pane, margin: nat): Area {
    Area(pane.x0 - margin, pane.y0 - margin, pane.x1 + margin, pane.y1 + margin)
  }

  /** The window is in the other list, first of its number, and just where it is here. */
  ghost predicate Stays(q: Framed, others: seq<Framed>) {
    exists j :: 0 <= j < |others| && others[j] == q && forall k :: 0 <= k < j ==> others[k].id != q.id
  }

  /** A box about each window of a list that is not in the other as it is here. */
  ghost function Moved(list: seq<Framed>, others: seq<Framed>, margin: nat): seq<Area> {
    if list == [] then []
    else
      var q := list[|list| - 1];
      Moved(list[..|list| - 1], others, margin) + if Stays(q, others) then [] else [Widened(q.pane, margin)]
  }

  /** The boxes about every window's new place and old one, of those that came, went or moved. */
  ghost function Changed(now: seq<Framed>, drawn: seq<Framed>, margin: nat): seq<Area> {
    Moved(now, drawn, margin) + Moved(drawn, now, margin)
  }

  ghost predicate InBoxes(boxes: seq<Area>, x: int, y: int) {
    exists k :: 0 <= k < |boxes| && boxes[k].Holds(x, y)
  }

  // ----- a screen drawn, and one drawn in part

  /** Every pixel has its colour. */
  ghost predicate Shows(g: Glass, data: seq<int>)
    requires g.Sane()
  {
    && g.scene.dw > 0 && |data| == g.scene.dw * g.scene.dh
    && forall p :: 0 <= p < |data| ==> Right(g, p, data[p])
  }

  ghost predicate Right(g: Glass, p: int, color: int)
    requires g.Sane() && g.scene.dw > 0
  {
    var x, y := p % g.scene.dw, p / g.scene.dw;
    x < g.scene.dw && 0 <= y < g.scene.dh && g.Paints(x, y, color)
  }

  /** What is in the boxes has its colour, the rest is as it was. */
  ghost predicate Redrawn(g: Glass, was: seq<int>, data: seq<int>, boxes: seq<Area>)
    requires g.Sane()
  {
    && g.scene.dw > 0 && |data| == |was| == g.scene.dw * g.scene.dh
    && forall p :: 0 <= p < |data| ==> RedrawnAt(g, was[p], data[p], boxes, p)
  }

  ghost predicate RedrawnAt(g: Glass, was: int, now: int, boxes: seq<Area>, p: int)
    requires g.Sane() && g.scene.dw > 0
  {
    if InBoxes(boxes, p % g.scene.dw, p / g.scene.dw) then Right(g, p, now) else now == was
  }

  /** Pixel (`x`, `y`), in row-major order, has its colour: everywhere in a screen drawn, in the boxes in one drawn again,
    which is as it was elsewhere. */
  lemma ShownIs(g: Glass, was: seq<int>, data: seq<int>, boxes: seq<Area>, x: nat, y: nat)
    requires g.Sane() && x < g.scene.dw && y < g.scene.dh && |data| == |was| == g.scene.dw * g.scene.dh
    ensures 0 <= g.scene.dw * y + x < |data|
    ensures Shows(g, data) ==> g.Paints(x, y, data[g.scene.dw * y + x])
    ensures Redrawn(g, was, data, boxes) && (exists b :: b in boxes && b.x0 <= x < b.x1 && b.y0 <= y < b.y1) ==>
              g.Paints(x, y, data[g.scene.dw * y + x])
    ensures Redrawn(g, was, data, boxes) && (forall b :: b in boxes ==> x < b.x0 || b.x1 <= x || y < b.y0 || b.y1 <= y) ==>
              data[g.scene.dw * y + x] == was[g.scene.dw * y + x]
  {
    PlaceInside(g.scene.dw, g.scene.dh, x, y);
    var at := g.scene.dw * y + x;
    SplitUnique(g.scene.dw, y, x, at);
    if b :| b in boxes && b.x0 <= x < b.x1 && b.y0 <= y < b.y1 {
      var k :| 0 <= k < |boxes| && boxes[k] == b;
      assert boxes[k].Holds(x, y);
    }
    assert Shows(g, data) ==> Right(g, at, data[at]);
    assert Redrawn(g, was, data, boxes) ==> RedrawnAt(g, was[at], data[at], boxes, at);
    hide Glass.Paints, Glass.Sane;
  }

  /** A pixel has one colour. */
  lemma PaintsIsOne(g: Glass, x: nat, y: nat, color: int, other: int)
    requires g.Sane() && x < g.scene.dw && y < g.scene.dh && g.Paints(x, y, color) && g.Paints(x, y, other)
    ensures color == other
  {
    if !g.InWindow(x, y) {
      var two :| Found(g.scene, x, y, two) && g.ColorOf(x, y, two) == color;
      var too :| Found(g.scene, x, y, too) && g.ColorOf(x, y, too) == other;
      FoundIsOne(g.scene, x, y, two, too);
    }
  }

  lemma RightIsOne(g: Glass, p: int, color: int, other: int)
    requires g.Sane() && g.scene.dw > 0 && Right(g, p, color) && Right(g, p, other)
    ensures color == other
  {
    PaintsIsOne(g, p % g.scene.dw, p / g.scene.dw, color, other);
  }

  /** So a screen has one picture. */
  lemma ShowsIsOne(g: Glass, data: seq<int>, other: seq<int>)
    requires g.Sane() && Shows(g, data) && Shows(g, other)
    ensures data == other
  {
    hide Right;
    forall p | 0 <= p < |data|
      ensures data[p] == other[p]
    {
      RightIsOne(g, p, data[p], other[p]);
    }
  }

  /** The pixel's colour is the same in both. */
  ghost predicate SameColor(g0: Glass, g: Glass, p: int)
    requires g0.Sane() && g.Sane() && g0.scene.dw > 0 && g.scene.dw > 0
  {
    exists color :: Right(g0, p, color) && Right(g, p, color)
  }

  /** What was drawn for one state of the windows, and is drawn again in boxes for another, shows that other exactly
    when every pixel outside the boxes has the same colour in both. */
  lemma PartShowsAllExactly(g0: Glass, g: Glass, was: seq<int>, data: seq<int>, boxes: seq<Area>)
    requires g0.Sane() && g.Sane() && g0.scene.dw == g.scene.dw && g0.scene.dh == g.scene.dh
    requires Shows(g0, was) && Redrawn(g, was, data, boxes)
    ensures Shows(g, data) <==> SameElsewhere(g0, g, boxes)
  {
    hide Right, InBoxes;
    if Shows(g, data) {
      forall p | 0 <= p < |data| && !InBoxes(boxes, p % g.scene.dw, p / g.scene.dw)
        ensures SameColor(g0, g, p)
      {
        assert RedrawnAt(g, was[p], data[p], boxes, p);
        assert Right(g0, p, was[p]) && Right(g, p, data[p]);
      }
    }
    if SameElsewhere(g0, g, boxes) {
      forall p | 0 <= p < |data|
        ensures Right(g, p, data[p])
      {
        assert RedrawnAt(g, was[p], data[p], boxes, p);
        if !InBoxes(boxes, p % g.scene.dw, p / g.scene.dw) {
          var color :| Right(g0, p, color) && Right(g, p, color);
          RightIsOne(g0, p, color, was[p]);
        }
      }
    }
  }

  ghost predicate SameElsewhere(g0: Glass, g: Glass, boxes: seq<Area>)
    requires g0.Sane() && g.Sane() && g0.scene.dw > 0 && g.scene.dw > 0
  {
    forall p :: 0 <= p < g.scene.dw * g.scene.dh && !InBoxes(boxes, p % g.scene.dw, p / g.scene.dw) ==> SameColor(g0, g, p)
  }

  /** That is: each pixel of the screen that is in no box has one colour in both. */
  lemma SameElsewhereIs(g0: Glass, g: Glass, boxes: seq<Area>)
    requires g0.Sane() && g.Sane() && g0.scene.dw == g.scene.dw > 0 && g0.scene.dh == g.scene.dh
    ensures SameElsewhere(g0, g, boxes) <==>
      forall x: nat, y: nat :: x < g.scene.dw && y < g.scene.dh && !InBoxes(boxes, x, y) ==>
        exists color :: g0.Paints(x, y, color) && g.Paints(x, y, color)
  {
    hide Glass.Paints, Glass.Sane, InBoxes;
    var dw, dh := g.scene.dw, g.scene.dh;
    if SameElsewhere(g0, g, boxes) {
      forall x: nat, y: nat | x < dw && y < dh && !InBoxes(boxes, x, y)
        ensures exists color :: g0.Paints(x, y, color) && g.Paints(x, y, color)
      {
        PlaceInside(dw, dh, x, y);
        SplitUnique(dw, y, x, dw * y + x);
        assert SameColor(g0, g, dw * y + x);
      }
    }
    if forall x: nat, y: nat :: x < dw && y < dh && !InBoxes(boxes, x, y) ==>
        exists color :: g0.Paints(x, y, color) && g.Paints(x, y, color) {
      forall p | 0 <= p < dw * dh && !InBoxes(boxes, p % dw, p / dw)
        ensures SameColor(g0, g, p)
      {
        RowOf(dw, dh, p);
        var color :| g0.Paints(p % dw, p / dw, color) && g.Paints(p % dw, p / dw, color);
        assert Right(g0, p, color) && Right(g, p, color);
      }
    }
  }

  lemma {:induction false} MovedHas(list: seq<Framed>, others: seq<Framed>, margin: nat, i: nat, x: int, y: int)
    requires i < |list| && !Stays(list[i], others) && Widened(list[i].pane, margin).Holds(x, y)
    ensures InBoxes(Moved(list, others, margin), x, y)
  {
    hide Stays, Widened;
    var n := |list| - 1;
    var before := Moved(list[..n], others, margin);
    if i < n {
      MovedHas(list[..n], others, margin, i, x, y);
      var k :| 0 <= k < |before| && before[k].Holds(x, y);
      assert Moved(list, others, margin)[k].Holds(x, y);
    } else {
      assert Moved(list, others, margin)[|before|].Holds(x, y);
    }
  }

  /** No two windows of a list have one number. */
  ghost predicate DistinctIds(list: seq<Framed>) {
    forall j, k :: 0 <= j < k < |list| ==> list[j].id != list[k].id
  }

  lemma {:induction false} MovedIs(list: seq<Framed>, others: seq<Framed>, margin: nat, x: int, y: int)
    requires DistinctIds(others)
    ensures InBoxes(Moved(list, others, margin), x, y) <==>
      exists q :: q in list && q !in others && q.pane.x0 - margin <= x < q.pane.x1 + margin
                  && q.pane.y0 - margin <= y < q.pane.y1 + margin
  {
    if list != [] {
      var n := |list| - 1;
      var q := list[n];
      MovedIs(list[..n], others, margin, x, y);
      assert list == list[..n] + [q];
      StaysIs(q, others);
      InEither(Moved(list[..n], others, margin), if Stays(q, others) then [] else [Widened(q.pane, margin)], x, y);
      InOne(Widened(q.pane, margin), x, y);
    }
  }

  lemma StaysIs(q: Framed, others: seq<Framed>)
    requires DistinctIds(others)
    ensures Stays(q, others) <==> q in others
  {
  }

  /** What is drawn again: all within the margin of a window that is in one list and not, just so, in the other. */
  lemma ChangedIs(now: seq<Framed>, drawn: seq<Framed>, margin: nat, x: int, y: int)
    requires DistinctIds(now) && DistinctIds(drawn)
    ensures InBoxes(Changed(now, drawn, margin), x, y) <==>
      exists q :: (q in now) != (q in drawn) && q.pane.x0 - margin <= x < q.pane.x1 + margin
                  && q.pane.y0 - margin <= y < q.pane.y1 + margin
  {
    MovedIs(now, drawn, margin, x, y);
    MovedIs(drawn, now, margin, x, y);
    InEither(Moved(now, drawn, margin), Moved(drawn, now, margin), x, y);
    hide Moved, InBoxes;
  }

  lemma InEither(a: seq<Area>, b: seq<Area>, x: int, y: int)
    ensures InBoxes(a + b, x, y) <==> InBoxes(a, x, y) || InBoxes(b, x, y)
  {
    if k :| 0 <= k < |a| && a[k].Holds(x, y) { assert (a + b)[k] == a[k]; }
    if k :| 0 <= k < |b| && b[k].Holds(x, y) { assert (a + b)[|a| + k] == b[k]; }
  }

  /** Outside the boxes the windows cover what they covered. */
  lemma WindowsKeptElsewhere(g0: Glass, g: Glass, now: seq<Framed>, drawn: seq<Framed>, margin: nat, x: int, y: int)
    requires g0.panes == Panes(drawn) && g.panes == Panes(now) && !InBoxes(Changed(now, drawn, margin), x, y)
    ensures g0.InWindow(x, y) <==> g.InWindow(x, y)
  {
    var here, there := Moved(now, drawn, margin), Moved(drawn, now, margin);
    InEither(here, there, x, y);
    if g.InWindow(x, y) { InOther(now, drawn, margin, x, y); }
    if g0.InWindow(x, y) { InOther(drawn, now, margin, x, y); }
  }

  lemma InOther(list: seq<Framed>, others: seq<Framed>, margin: nat, x: int, y: int)
    requires exists i :: 0 <= i < |Panes(list)| && Panes(list)[i].Holds(x, y)
    requires !InBoxes(Moved(list, others, margin), x, y)
    ensures exists j :: 0 <= j < |Panes(others)| && Panes(others)[j].Holds(x, y)
  {
    var i :| 0 <= i < |Panes(list)| && Panes(list)[i].Holds(x, y);
    assert Widened(list[i].pane, margin).Holds(x, y);
    if !Stays(list[i], others) { MovedHas(list, others, margin, i, x, y); }
    var j :| 0 <= j < |others| && others[j] == list[i];
    assert Panes(others)[j].Holds(x, y);
  }

  // ----- the drawing

  method IsWhereItWas(q: Framed, others: seq<Framed>) returns (stays: bool)
    ensures stays <==> Stays(q, others)
  {
    stays := false;
    for j := 0 to |others|
      invariant forall k :: 0 <= k < j ==> others[k].id != q.id
    {
      if others[j].id == q.id { return others[j] == q; }
    }
  }

  /** A box drawn on top of those drawn before. */
  lemma OneMoreBox(g: Glass, was: seq<int>, mid: seq<int>, data: seq<int>, boxes: seq<Area>, box: Area)
    requires g.Sane() && Redrawn(g, was, mid, boxes) && Drawn(g, mid, data, box, g.scene.dh, 0)
    ensures Redrawn(g, was, data, boxes + [box])
  {
    hide Glass.Paints, Glass.Sane, InBoxes;
    forall p | 0 <= p < |data|
      ensures RedrawnAt(g, was[p], data[p], boxes + [box], p)
    {
      RowOf(g.scene.dw, g.scene.dh, p);
      InEither(boxes, [box], p % g.scene.dw, p / g.scene.dw);
      InOne(box, p % g.scene.dw, p / g.scene.dw);
      assert RedrawnAt(g, was[p], mid[p], boxes, p);
      assert DrawnAt(g, mid[p], data[p], box, g.scene.dh, 0, p % g.scene.dw, p / g.scene.dw);
    }
  }

  lemma InOne(box: Area, x: int, y: int)
    ensures InBoxes([box], x, y) <==> box.Holds(x, y)
  {
    assert [box][0] == box;
  }

  /** The whole screen in one box. */
  lemma WholeShows(g: Glass, was: seq<int>, data: seq<int>)
    requires g.Sane() && g.scene.dw > 0 && Drawn(g, was, data, Area(0, 0, g.scene.dw, g.scene.dh), g.scene.dh, 0)
    ensures Shows(g, data)
  {
    hide Glass.Paints, Glass.Sane;
    forall p | 0 <= p < |data|
      ensures Right(g, p, data[p])
    {
      RowOf(g.scene.dw, g.scene.dh, p);
      assert DrawnAt(g, was[p], data[p], Area(0, 0, g.scene.dw, g.scene.dh), g.scene.dh, 0, p % g.scene.dw, p / g.scene.dw);
    }
  }

  /** What a frame is drawn from: the glass, its windows by number, and whether all is to be drawn. */
  datatype Frame = Frame(glass: Glass, now: seq<Framed>, all: bool)

  /** No pixel outside the boxes about what changed has another colour. */
  ghost predicate Follows(f0: Frame, f: Frame)
    requires f0.glass.Sane() && f.glass.Sane() && f0.glass.scene.dw > 0 && f.glass.scene.dw > 0
  {
    SameElsewhere(f0.glass, f.glass, Changed(f.now, f0.now, f.glass.scene.bs * 2))
  }

  lemma FollowsIs(f0: Frame, f: Frame)
    requires f0.glass.Sane() && f.glass.Sane() && f0.glass.scene.dw > 0 && f.glass.scene.dw > 0
    ensures Follows(f0, f) <==> SameElsewhere(f0.glass, f.glass, Changed(f.now, f0.now, 2 * f.glass.scene.bs))
  {
  }

  /** The cells of one screen, and the windows they were last drawn for. */
  class Cells {
    const data: array<int>
    var drawn: seq<Framed>

    constructor (size: nat)
      ensures fresh(data) && data.Length == size && drawn == []
    {
      data := new int[size];
      drawn := [];
    }

    /** Boxes about the windows of one list that are not in the other as they are here. */
    method RenderMoved(g: Glass, list: seq<Framed>, others: seq<Framed>, margin: nat, ghost was: seq<int>,
                       ghost boxes: seq<Area>)
      requires g.Sane() && Redrawn(g, was, data[..], boxes)
      modifies data
      ensures Redrawn(g, was, data[..], boxes + Moved(list, others, margin))
    {
      hide Redrawn, Drawn, Glass.Sane, Stays, Widened;
      assert boxes + [] == boxes;
      for i := 0 to |list|
        invariant Redrawn(g, was, data[..], boxes + Moved(list[..i], others, margin))
      {
        ghost var before := boxes + Moved(list[..i], others, margin);
        assert list[..i + 1][..i] == list[..i] && before + [] == before;
        var stays := IsWhereItWas(list[i], others);
        if !stays {
          ghost var mid := data[..];
          RedrawnSize(g, was, mid, before);
          RenderBox(g, data, Widened(list[i].pane, margin));
          OneMoreBox(g, was, mid, data[..], before, Widened(list[i].pane, margin));
        }
        assert boxes + Moved(list[..i + 1], others, margin)
            == before + if stays then [] else [Widened(list[i].pane, margin)];
      }
      assert list[..|list|] == list;
    }

    lemma RedrawnSize(g: Glass, was: seq<int>, mid: seq<int>, boxes: seq<Area>)
      requires g.Sane() && Redrawn(g, was, mid, boxes)
      ensures g.scene.dw > 0 && |mid| == g.scene.dw * g.scene.dh
    {
    }

    /** The cells again: all of them, or about what changed, two squares' widths around. */
    method Render(f: Frame)
      requires f.glass.Sane() && f.glass.scene.dw > 0 && data.Length == f.glass.scene.dw * f.glass.scene.dh
      modifies data, this`drawn
      ensures drawn == f.now
      ensures f.all ==> Shows(f.glass, data[..])
      ensures !f.all ==> Redrawn(f.glass, old(data[..]), data[..], Changed(f.now, old(drawn), f.glass.scene.bs * 2))
    {
      hide Redrawn, Drawn, Glass.Sane, Moved;
      ghost var was := data[..];
      var g, margin := f.glass, f.glass.scene.bs * 2;
      if f.all {
        RenderBox(g, data, Area(0, 0, g.scene.dw, g.scene.dh));
        WholeShows(g, was, data[..]);
      } else {
        NothingRedrawn(g, was);
        RenderMoved(g, f.now, drawn, margin, was, []);
        RenderMoved(g, drawn, f.now, margin, was, [] + Moved(f.now, drawn, margin));
        assert [] + Moved(f.now, drawn, margin) + Moved(drawn, f.now, margin) == Changed(f.now, drawn, margin);
      }
      drawn := f.now;
    }

    /** Frame after frame, the first in full: the cells show every frame in full exactly when what each draws in part
      keeps its colours elsewhere. `shots` are the pictures, one a frame. */
    method RenderAll(frames: seq<Frame>) returns (ghost shots: seq<seq<int>>)
      requires frames != [] && frames[0].all
      requires forall k :: 0 <= k < |frames| ==>
        && frames[k].glass.Sane() && frames[k].glass.scene.dw > 0
        && frames[k].glass.scene.dw == frames[0].glass.scene.dw && frames[k].glass.scene.dh == frames[0].glass.scene.dh
        && data.Length == frames[k].glass.scene.dw * frames[k].glass.scene.dh
      modifies data, this`drawn
      ensures |shots| == |frames| && data[..] == shots[|frames| - 1] && drawn == frames[|frames| - 1].now
      ensures (forall k :: 0 <= k < |frames| ==> Shows(frames[k].glass, shots[k])) <==>
              (forall k :: 0 < k < |frames| ==> frames[k].all || Follows(frames[k - 1], frames[k]))
    {
      hide Glass.Sane, Shows, Redrawn, SameElsewhere, Changed;
      Render(frames[0]);
      shots := [data[..]];
      for k := 1 to |frames|
        invariant |shots| == k && data[..] == shots[k - 1] && drawn == frames[k - 1].now
        invariant (forall j :: 0 <= j < k ==> Shows(frames[j].glass, shots[j])) <==>
                  (forall j :: 0 < j < k ==> frames[j].all || Follows(frames[j - 1], frames[j]))
      {
        ghost var was := data[..];
        Render(frames[k]);
        if !frames[k].all && Shows(frames[k - 1].glass, was) {
          PartShowsAllExactly(frames[k - 1].glass, frames[k].glass, was, data[..],
                              Changed(frames[k].now, frames[k - 1].now, frames[k].glass.scene.bs * 2));
        }
        shots := shots + [data[..]];
      }
    }
  }

  lemma NothingRedrawn(g: Glass, data: seq<int>)
    requires g.Sane() && g.scene.dw > 0 && |data| == g.scene.dw * g.scene.dh
    ensures Redrawn(g, data, data, [])
  {
  }

  // ----- a pixel that is missed

  /** Two windows side by side on a screen of 360 by 360, a few pixels between them; and one above both. */
  const WALLS: seq<Pane> := [Pane(183, 126, 363, 363), Pane(-3, 126, 179, 363)]
  const LID: Pane := Pane(-3, -3, 363, 122)

  /** With the lid on, every site is off the screen. */
  lemma UnderLidNoSites(base: seq<Site>, panes: seq<Pane>, s: nat, hash: nat -> nat, i: nat)
    requires panes == WALLS + [LID] && s >= 40 && |base| <= MAX_BASE && i < |Placed(base, panes, s, hash)|
    ensures var p := Placed(base, panes, s, hash)[i]; OffScreen(p.x) || OffScreen(p.y)
  {
    hide Kept, BorderSites, InSome, OffScreen;
    SitesPlaced(base, panes, s, hash);
    var p := Placed(base, panes, s, hash)[i];
    if i < |Kept(base, panes, s)| {
      assert GridPlaced(panes, s, p);
      ClearOfAll(panes, p, s * 2 / 3);
    } else {
      assert BorderPlaced(panes, s, p);
      ClearOfAll(panes, p, 2);
    }
  }

  lemma ClearOfAll(panes: seq<Pane>, p: Site, margin: int)
    requires panes == WALLS + [LID] && margin >= 2 && !InSome(panes, p.x, p.y, margin)
    ensures OffScreen(p.x) || OffScreen(p.y)
  {
    var a, b, c := panes[0], panes[1], panes[2];
    assert !Within(a, p.x, p.y, margin) && !Within(b, p.x, p.y, margin) && !Within(c, p.x, p.y, margin);
  }

  /** Without it, the first border site of the right window is in the squares searched. */
  lemma WithoutLidASite(base: seq<Site>, panes: seq<Pane>, s: nat, hash: nat -> nat) returns (i: nat)
    requires panes == WALLS && s == 40 && |base| <= MAX_BASE
    ensures i < |Placed(base, panes, s, hash)|
    ensures var p := Placed(base, panes, s, hash)[i]; 179.0 <= p.x <= 188.0 && 106.0 <= p.y <= 113.0
  {
    hide Kept, SideSites, Placed, BorderSites, SideSite, InSome;
    FirstPlace(panes[0], s, hash);
    BetweenWalls(panes, SideSite(panes[0], 0, 0, s, hash));
    FirstBorderSite(panes, s, hash);
    i := FirstAfterGrid(base, panes, s, hash);
  }

  /** The first border site comes right after the sites of the grid. */
  lemma FirstAfterGrid(base: seq<Site>, panes: seq<Pane>, s: nat, hash: nat -> nat) returns (i: nat)
    requires panes == WALLS && s == 40 && |base| <= MAX_BASE && BorderSites(panes, 2, s, hash) != []
    ensures i < |Placed(base, panes, s, hash)| && Placed(base, panes, s, hash)[i] == BorderSites(panes, 2, s, hash)[0]
  {
    hide BorderSites, SideSites, PaneSites, SideSite;
    i := |Kept(base, panes, s)|;
  }

  lemma BetweenWalls(panes: seq<Pane>, p: Site)
    requires panes == WALLS && 179.0 <= p.x <= 188.0 && 106.0 <= p.y <= 113.0
    ensures !InSome(panes, p.x, p.y, 2)
  {
  }

  lemma FirstPlace(q: Pane, s: nat, hash: nat -> nat)
    requires q == WALLS[0] && s == 40
    ensures var p := SideSite(q, 0, 0, s, hash); 179.0 <= p.x <= 188.0 && 106.0 <= p.y <= 113.0
  {
    SideSiteOutside(q, 0, 0, s, hash);
  }

  lemma FirstBorderSite(panes: seq<Pane>, s: nat, hash: nat -> nat)
    requires panes == WALLS && s == 40 && var p := SideSite(panes[0], 0, 0, s, hash); !InSome(panes, p.x, p.y, 2)
    ensures BorderSites(panes, 2, s, hash) != [] && BorderSites(panes, 2, s, hash)[0] == SideSite(panes[0], 0, 0, s, hash)
  {
    hide SideSite, Steps, InSome;
    var q := panes[0];
    FirstTry(panes, q, s, hash);
    FirstOfPane(panes, q, s, hash);
    hide PaneSites;
    assert BorderSites(panes, 1, s, hash) == BorderSites(panes, 0, s, hash) + PaneSites(panes, q, 4, s, hash);
    assert BorderSites(panes, 2, s, hash) == BorderSites(panes, 1, s, hash) + PaneSites(panes, panes[1], 4, s, hash);
  }

  lemma FirstTry(panes: seq<Pane>, q: Pane, s: nat, hash: nat -> nat)
    requires s >= 40 && Solid(q) && var p := SideSite(q, 0, 0, s, hash); !InSome(panes, p.x, p.y, 2)
    ensures SideSites(panes, q, 0, 1, s, hash) == [SideSite(q, 0, 0, s, hash)]
  {
    hide SideSite, InSome;
    assert SideSites(panes, q, 0, 0, s, hash) == [];
  }

  lemma FirstOfPane(panes: seq<Pane>, q: Pane, s: nat, hash: nat -> nat)
    requires s >= 40 && Solid(q) && SideSites(panes, q, 0, 1, s, hash) == [SideSite(q, 0, 0, s, hash)]
    ensures PaneSites(panes, q, 4, s, hash) != [] && PaneSites(panes, q, 4, s, hash)[0] == SideSite(q, 0, 0, s, hash)
  {
    hide SideSite, SideSites, Steps;
    SideGrows(panes, q, 0, 1, Steps(q, 0, s) + 1, s, hash);
    assert PaneSites(panes, q, 1, s, hash) ==
           PaneSites(panes, q, 0, s, hash) + SideSites(panes, q, 0, Steps(q, 0, s) + 1, s, hash);
    PaneSitesGrow(panes, q, 1, 4, s, hash);
  }

  /** Between the walls, a pixel just outside the box about the lid. */
  const MISSED_X := 180
  const MISSED_Y := 202

  lemma WithoutLidFound(base: seq<Site>, panes: seq<Pane>, hash: nat -> nat, x: nat, y: nat, two: Two)
    requires panes == WALLS && |base| <= MAX_BASE && x == MISSED_X && y == MISSED_Y
    requires Found(SceneOf(360, 360, base, panes, hash), x, y, two)
    ensures two.best >= 0
  {
    hide Placed, Spacing, SquareSum, Reach, Clamped, Quotient, Truncated, Scene.Sooner, Scene.Distance;
    SpacingOfGap(360, 360);
    var g := SceneOf(360, 360, base, panes, hash);
    var i := WithoutLidASite(base, panes, 40, hash);
    assert g.Columns() == 10 && g.Rows() == 10;
    ClampedColumn(g.Column(i), 10, g.sites[i].x, 40);
    ClampedColumn(g.Row(i), 10, g.sites[i].y, 40);
    assert i in g.Block(x / 40, y / 40, RINGS);
  }

  lemma UnderLidNoneFound(base: seq<Site>, panes: seq<Pane>, hash: nat -> nat, x: nat, y: nat, two: Two)
    requires panes == WALLS + [LID] && |base| <= MAX_BASE && x == MISSED_X && y == MISSED_Y
    requires Found(SceneOf(360, 360, base, panes, hash), x, y, two)
    ensures two.best == -1
  {
    hide Placed, Spacing, SquareSum, OffScreen, Found;
    SpacingOfGap(360, 360);
    var g := SceneOf(360, 360, base, panes, hash);
    forall i | 0 <= i < |g.sites|
      ensures OffScreen(g.sites[i].x) || OffScreen(g.sites[i].y)
    {
      UnderLidNoSites(base, panes, 40, hash, i);
    }
    AllOffScreen(g, x, y, two);
  }

  /** The two windows as drawn before, and with the lid opened on top of them. */
  const DRAWN := [Framed(1, WALLS[0]), Framed(2, WALLS[1])]
  const OPENED := DRAWN + [Framed(3, LID)]

  lemma OnlyTheLidMoved(margin: nat)
    requires margin == 80
    ensures !InBoxes(Changed(OPENED, DRAWN, margin), MISSED_X, MISSED_Y)
  {
    var a, b := DRAWN[0], DRAWN[1];
    assert Stays(a, OPENED) && Stays(b, OPENED) by { assert OPENED[0] == a && OPENED[1] == b; }
    assert Stays(a, DRAWN) && Stays(b, DRAWN);
    hide Stays;
    NoneMoved(DRAWN, OPENED, margin);
    NoneMoved(DRAWN, DRAWN, margin);
    assert OPENED[..2] == DRAWN;
  }

  lemma {:induction false} NoneMoved(list: seq<Framed>, others: seq<Framed>, margin: nat)
    requires forall i :: 0 <= i < |list| ==> Stays(list[i], others)
    ensures Moved(list, others, margin) == []
  {
    hide Stays;
    if list != [] { NoneMoved(list[..|list| - 1], others, margin); }
  }

  lemma WithoutLidNotLead(base: seq<Site>, hash: nat -> nat, g: Glass, x: nat, y: nat, color: int)
    requires |base| <= MAX_BASE && g.Sane() && x == MISSED_X && y == MISSED_Y
    requires g.scene == SceneOf(360, 360, base, WALLS, hash) && g.panes == WALLS
    requires g.picture == [] && forall two :: Found(g.scene, x, y, two) ==> g.shade(x, y, two) != LEAD
    requires g.Paints(x, y, color)
    ensures color != LEAD
  {
    assert !g.InWindow(x, y);
    var two :| Found(g.scene, x, y, two) && g.ColorOf(x, y, two) == color;
    hide Found, SceneOf;
    WithoutLidFound(base, WALLS, hash, x, y, two);
  }

  lemma UnderLidLead(base: seq<Site>, hash: nat -> nat, g: Glass, x: nat, y: nat, color: int)
    requires |base| <= MAX_BASE && g.Sane() && x == MISSED_X && y == MISSED_Y
    requires g.scene == SceneOf(360, 360, base, WALLS + [LID], hash) && g.panes == WALLS + [LID]
    requires g.Paints(x, y, color)
    ensures color == LEAD
  {
    if !g.InWindow(x, y) {
      var two :| Found(g.scene, x, y, two) && g.ColorOf(x, y, two) == color;
      hide Found, SceneOf;
      UnderLidNoneFound(base, WALLS + [LID], hash, x, y, two);
    }
  }

  /** Two spacings are not always as far as a change of sites reaches: with any hash and grid, when a window opens above
    the two, a pixel between them that was not lead becomes so, and is not drawn again. */
  lemma OpenedLidMissesAPixel(base: seq<Site>, hash: nat -> nat, g0: Glass, g: Glass, was: seq<int>, data: seq<int>)
    requires |base| <= MAX_BASE && g0.Sane() && g.Sane()
    requires g0.scene == SceneOf(360, 360, base, WALLS, hash) && g0.panes == WALLS
    requires g.scene == SceneOf(360, 360, base, WALLS + [LID], hash) && g.panes == WALLS + [LID]
    requires g0.picture == []
    requires forall two :: Found(g0.scene, MISSED_X, MISSED_Y, two) ==> g0.shade(MISSED_X, MISSED_Y, two) != LEAD
    requires Shows(g0, was) && Redrawn(g, was, data, Changed(OPENED, DRAWN, g.scene.bs * 2))
    ensures Panes(DRAWN) == g0.panes && Panes(OPENED) == g.panes
    ensures !Shows(g, data)
  {
    hide Changed, InBoxes, SceneOf, Found, Shows, Redrawn, Glass.Sane, Glass.Paints;
    SceneSize(base, WALLS, hash);
    SceneSize(base, WALLS + [LID], hash);
    OnlyTheLidMoved(80);
    var p := 360 * MISSED_Y + MISSED_X;
    if color :| Right(g0, p, color) && Right(g, p, color) {
      WithoutLidNotLead(base, hash, g0, MISSED_X, MISSED_Y, color);
      UnderLidLead(base, hash, g, MISSED_X, MISSED_Y, color);
    }
    assert !SameColor(g0, g, p);
    PartShowsAllExactly(g0, g, was, data, Changed(OPENED, DRAWN, g.scene.bs * 2));
  }

  lemma SceneSize(base: seq<Site>, panes: seq<Pane>, hash: nat -> nat)
    requires forall i :: 0 <= i < |panes| ==> Solid(panes[i])
    ensures var g := SceneOf(360, 360, base, panes, hash); g.dw == g.dh == 360 && g.bs == 40
  {
    SpacingOfGap(360, 360);
  }
}
