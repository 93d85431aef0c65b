/** The sites in a grid of squares (`grid_cell` and the counting sort of `render_cells_box` in sg-deskcomp.c).

  Each site falls into one square of a grid over the screen, a site off the screen into the nearest square at
  its edge. A stable counting sort lists each square's sites together, in increasing order.
 */
module SiteIndex {

  /** The sites of square `c`, in increasing order: what the index must list there. */
  function SitesIn(cell: seq<int>, c: int): seq<int> {
    if cell == [] then []
    else
      var i := |cell| - 1;
      if cell[i] == c then SitesIn(cell[..i], c) + [i] else SitesIn(cell[..i], c)
  }

  /** How many sites lie in the squares before `c`. */
  function Before(cell: seq<int>, c: nat): nat {
    if c == 0 then 0 else Before(cell, c - 1) + |SitesIn(cell, c - 1)|
  }

  /** The index: square `c`'s sites stand in `items` from `start[c]` up to `start[c + 1]`. */
  ghost predicate Indexes(cell: seq<int>, cells: nat, start: seq<int>, items: seq<int>) {
    && |start| == cells + 1 && |items| >= |cell|
    && start[0] == 0 && start[cells] == |cell|
    && forall c :: 0 <= c < cells ==> Lists(cell, start, items, c)
  }

  ghost predicate Lists(cell: seq<int>, start: seq<int>, items: seq<int>, c: int) {
    && 0 <= c && c + 1 < |start|
    && 0 <= start[c] <= start[c + 1] <= |items|
    && items[start[c]..start[c + 1]] == SitesIn(cell, c)
  }

  // ----- what the listing of a square holds

  lemma {:induction false} SitesInExactly(cell: seq<int>, c: int, i: int)
    ensures i in SitesIn(cell, c) <==> 0 <= i < |cell| && cell[i] == c
  {
    if cell != [] {
      SitesInExactly(cell[..|cell| - 1], c, i);
    }
  }

  lemma {:induction false} SitesInIncreasing(cell: seq<int>, c: int, j: int, k: int)
    requires 0 <= j < k < |SitesIn(cell, c)|
    ensures 0 <= SitesIn(cell, c)[j] < SitesIn(cell, c)[k] < |cell|
  {
    var i := |cell| - 1;
    var s := SitesIn(cell[..i], c);
    if k < |s| {
      SitesInIncreasing(cell[..i], c, j, k);
    } else {
      SitesInExactly(cell[..i], c, s[j]);
    }
  }

  lemma {:induction false} SitesInBounds(cell: seq<int>, n: nat, c: int)
    requires n <= |cell|
    ensures |SitesIn(cell[..n], c)| <= |SitesIn(cell, c)|
    ensures n < |cell| && cell[n] == c ==> |SitesIn(cell[..n], c)| < |SitesIn(cell, c)|
  {
    if n == |cell| {
      assert cell[..n] == cell;
    } else {
      var m := |cell| - 1;
      SitesInBounds(cell[..m], n, c);
      assert cell[..m][..n] == cell[..n];
    }
  }

  lemma {:induction false} BeforeMonotone(cell: seq<int>, c: nat, d: nat)
    requires c <= d
    ensures Before(cell, c) <= Before(cell, d)
    ensures c < d ==> Before(cell, c) + |SitesIn(cell, c)| <= Before(cell, d)
  {
    if c < d { BeforeMonotone(cell, c, d - 1); }
  }

  lemma {:induction false} BeforeCountsAll(cell: seq<int>, cells: nat)
    requires forall i :: 0 <= i < |cell| ==> 0 <= cell[i] < cells
    ensures Before(cell, cells) == |cell|
  {
    if cell == [] {
      BeforeEmpty(cells);
    } else {
      var m := |cell| - 1;
      BeforeCountsAll(cell[..m], cells);
      BeforeStep(cell, cells);
    }
  }

  lemma {:induction false} BeforeEmpty(c: nat)
    ensures Before([], c) == 0
  {
    if c > 0 { BeforeEmpty(c - 1); }
  }

  lemma {:induction false} BeforeStep(cell: seq<int>, c: nat)
    requires cell != [] && cell[|cell| - 1] >= 0
    ensures Before(cell, c) == Before(cell[..|cell| - 1], c) + if cell[|cell| - 1] < c then 1 else 0
  {
    if c > 0 { BeforeStep(cell, c - 1); }
  }

  // ----- the three passes

  /** The first pass: how many sites each square has, counted one place up. */
  method CountSites(cell: seq<int>, cells: nat) returns (start: array<int>)
    requires forall i :: 0 <= i < |cell| ==> 0 <= cell[i] < cells
    ensures fresh(start) && start.Length == cells + 1 && start[0] == 0
    ensures forall c :: 0 <= c < cells ==> start[c + 1] == |SitesIn(cell, c)|
  {
    start := new int[cells + 1](_ => 0);
    var i := 0;
    while i < |cell|
      invariant 0 <= i <= |cell| && start[0] == 0
      invariant forall c :: 0 <= c < cells ==> start[c + 1] == |SitesIn(cell[..i], c)|
    {
      start[cell[i] + 1] := start[cell[i] + 1] + 1;
      assert cell[..i + 1][..i] == cell[..i];
      i := i + 1;
    }
    assert cell[..i] == cell;
  }

  /** The second pass: the counts summed, so each square knows where its sites start. */
  method SumStarts(cell: seq<int>, cells: nat, start: array<int>)
    requires start.Length == cells + 1 && start[0] == 0
    requires forall c :: 0 <= c < cells ==> start[c + 1] == |SitesIn(cell, c)|
    modifies start
    ensures forall c :: 0 <= c <= cells ==> start[c] == Before(cell, c)
  {
    BeforeNone(cell);
    hide SitesIn, Before;
    var c := 0;
    while c < cells
      invariant 0 <= c <= cells
      invariant forall d :: 0 <= d <= c ==> start[d] == Before(cell, d)
      invariant forall d {:trigger SitesIn(cell, d)} :: c <= d < cells ==> start[d + 1] == |SitesIn(cell, d)|
    {
      assert start[c + 1] == |SitesIn(cell, c)|;
      BeforeNext(cell, c);
      start[c + 1] := start[c + 1] + start[c];
      c := c + 1;
    }
  }

  /** The sites `sites` stand in `items` from place `base` on. */
  ghost predicate StandAt(items: seq<int>, base: nat, sites: seq<int>) {
    base + |sites| <= |items| && forall k :: base <= k < base + |sites| ==> items[k] == sites[k - base]
  }

  /** What the third pass has put in place after `i` sites, of one square and of all. */
  ghost predicate PlacedIn(cell: seq<int>, items: seq<int>, filled: int, i: nat, c: nat)
    requires i <= |cell|
  {
    filled == |SitesIn(cell[..i], c)| && StandAt(items, Before(cell, c), SitesIn(cell[..i], c))
  }

  ghost predicate Placed(cell: seq<int>, cells: nat, items: seq<int>, fill: seq<int>, i: nat)
    requires i <= |cell|
  {
    && |fill| == cells && |items| >= |cell|
    && forall c :: 0 <= c < cells ==> PlacedIn(cell, items, fill[c], i, c)
  }

  lemma SitesInNext(cell: seq<int>, i: nat, c: int)
    requires i < |cell|
    ensures SitesIn(cell[..i + 1], c) == SitesIn(cell[..i], c) + if cell[i] == c then [i] else []
  {
    assert cell[..i + 1][..i] == cell[..i];
  }

  lemma StandStep(items: seq<int>, base: nat, sites: seq<int>, at: nat, x: int)
    requires StandAt(items, base, sites) && at < |items|
    ensures at == base + |sites| ==> StandAt(items[at := x], base, sites + [x])
    ensures !(base <= at < base + |sites|) ==> StandAt(items[at := x], base, sites)
  {
  }

  /** A square's free place lies in its own slice, clear of what any square has placed. */
  lemma FreePlace(cell: seq<int>, cells: nat, i: nat, d: nat)
    requires forall j :: 0 <= j < |cell| ==> 0 <= cell[j] < cells
    requires i < |cell| && d < cells
    ensures var c := cell[i]; var at := Before(cell, c) + |SitesIn(cell[..i], c)|;
      at < |cell| && !(Before(cell, d) <= at < Before(cell, d) + |SitesIn(cell[..i], d)|)
  {
    var c := cell[i];
    SitesInBounds(cell, i, c);
    SitesInBounds(cell, i, d);
    BeforeMonotone(cell, c, cells);
    BeforeCountsAll(cell, cells);
    if d < c { BeforeMonotone(cell, d, c); }
    if d > c { BeforeMonotone(cell, c, d); }
  }

  lemma PlaceOne(cell: seq<int>, cells: nat, items: seq<int>, fill: seq<int>, i: nat)
    requires forall j :: 0 <= j < |cell| ==> 0 <= cell[j] < cells
    requires i < |cell| && Placed(cell, cells, items, fill, i)
    ensures var c := cell[i]; var at := Before(cell, c) + fill[c];
      0 <= at < |cell| && Placed(cell, cells, items[at := i], fill[c := fill[c] + 1], i + 1)
  {
    hide SitesIn, Before, PlacedIn;
    var c, filled := cell[i], fill[cell[i]];
    assert PlacedIn(cell, items, filled, i, c);
    PlaceOneIn(cell, cells, items, filled, i, c);
    var at, fill' := Before(cell, c) + filled, fill[c := filled + 1];
    forall d | 0 <= d < cells
      ensures PlacedIn(cell, items[at := i], fill'[d], i + 1, d)
    {
      assert PlacedIn(cell, items, fill[d], i, d);
      PlaceOneIn(cell, cells, items, fill[d], i, d);
    }
  }

  lemma PlaceOneIn(cell: seq<int>, cells: nat, items: seq<int>, filled: int, i: nat, d: nat)
    requires forall j :: 0 <= j < |cell| ==> 0 <= cell[j] < cells
    requires i < |cell| <= |items| && d < cells && PlacedIn(cell, items, filled, i, d)
    ensures d == cell[i] ==> filled == |SitesIn(cell[..i], cell[i])|
    ensures var at := Before(cell, cell[i]) + |SitesIn(cell[..i], cell[i])|;
      at < |cell| && PlacedIn(cell, items[at := i], if d == cell[i] then filled + 1 else filled, i + 1, d)
  {
    hide SitesIn, Before, StandAt;
    FreePlace(cell, cells, i, d);
    SitesInNext(cell, i, d);
    StandStep(items, Before(cell, d), SitesIn(cell[..i], d), Before(cell, cell[i]) + |SitesIn(cell[..i], cell[i])|, i);
    assert SitesIn(cell[..i], d) + [] == SitesIn(cell[..i], d);
  }

  /** The third pass: each site put into the next free place of its square. */
  method PlaceSites(cell: seq<int>, cells: nat, start: array<int>) returns (items: array<int>, fill: array<int>)
    requires forall i :: 0 <= i < |cell| ==> 0 <= cell[i] < cells
    requires start.Length == cells + 1 && forall c :: 0 <= c <= cells ==> start[c] == Before(cell, c)
    ensures fresh(items) && fill.Length == cells && Placed(cell, cells, items[..], fill[..], |cell|)
  {
    items := new int[|cell| + 1];
    fill := new int[cells](_ => 0);
    var i := 0;
    NonePlaced(cell, cells, items[..], fill[..]);
    hide SitesIn, Before, Placed;
    while i < |cell|
      invariant 0 <= i <= |cell| && fresh(items) && items.Length == |cell| + 1 && fresh(fill) && fill.Length == cells
      invariant Placed(cell, cells, items[..], fill[..], i)
    {
      var c := cell[i];
      PlaceOne(cell, cells, items[..], fill[..], i);
      items[start[c] + fill[c]] := i;
      fill[c] := fill[c] + 1;
      i := i + 1;
    }
  }

  /** A stable counting sort of the sites by their squares. */
  method BuildIndex(cell: seq<int>, cells: nat) returns (start: array<int>, items: array<int>)
    requires forall i :: 0 <= i < |cell| ==> 0 <= cell[i] < cells
    ensures fresh(start) && fresh(items) && Indexes(cell, cells, start[..], items[..])
  {
    hide SitesIn, Before, Placed, Indexes;
    start := CountSites(cell, cells);
    SumStarts(cell, cells, start);
    var fill;
    items, fill := PlaceSites(cell, cells, start);
    AllPlaced(cell, cells, start[..], items[..], fill[..]);
  }

  lemma NonePlaced(cell: seq<int>, cells: nat, items: seq<int>, fill: seq<int>)
    requires forall i :: 0 <= i < |cell| ==> 0 <= cell[i] < cells
    requires |fill| == cells && |items| >= |cell| && forall c :: 0 <= c < cells ==> fill[c] == 0
    ensures Placed(cell, cells, items, fill, 0)
  {
    BeforeCountsAll(cell, cells);
    forall c | 0 <= c < cells
      ensures fill[c] == |SitesIn(cell[..0], c)| && StandAt(items, Before(cell, c), SitesIn(cell[..0], c))
    {
      BeforeMonotone(cell, c, cells);
    }
  }

  lemma AllPlaced(cell: seq<int>, cells: nat, start: seq<int>, items: seq<int>, fill: seq<int>)
    requires forall i :: 0 <= i < |cell| ==> 0 <= cell[i] < cells
    requires |start| == cells + 1 && forall c :: 0 <= c <= cells ==> start[c] == Before(cell, c)
    requires Placed(cell, cells, items, fill, |cell|)
    ensures Indexes(cell, cells, start, items)
  {
    BeforeCountsAll(cell, cells);
    assert cell[..|cell|] == cell;
    forall c | 0 <= c < cells ensures Lists(cell, start, items, c) {
      SliceListed(cell, cells, items, fill, c);
    }
  }

  lemma SliceListed(cell: seq<int>, cells: nat, items: seq<int>, fill: seq<int>, c: nat)
    requires Placed(cell, cells, items, fill, |cell|) && c < cells && Before(cell, cells) == |cell|
    ensures Before(cell, c) <= Before(cell, c + 1) <= |cell| <= |items|
    ensures items[Before(cell, c)..Before(cell, c + 1)] == SitesIn(cell, c)
  {
    BeforeNext(cell, c);
    hide SitesIn, Before;
    BeforeMonotone(cell, c + 1, cells);
    assert cell[..|cell|] == cell;
    assert PlacedIn(cell, items, fill[c], |cell|, c);
  }

  lemma BeforeNone(cell: seq<int>)
    ensures Before(cell, 0) == 0
  {
  }

  lemma BeforeNext(cell: seq<int>, c: nat)
    ensures Before(cell, c + 1) == Before(cell, c) + |SitesIn(cell, c)|
  {
  }

  // ----- what the index is good for

  /** Where site `i` stands in an index, and that it stands nowhere else: `items` is a permutation of the sites. */
  lemma EachSiteOnce(cell: seq<int>, cells: nat, start: seq<int>, items: seq<int>, i: nat)
    requires Indexes(cell, cells, start, items) && i < |cell| && 0 <= cell[i] < cells
    ensures exists k :: 0 <= k < |items| && start[cell[i]] <= k < start[cell[i] + 1] && items[k] == i
    ensures forall j, k :: 0 <= j < |cell| && 0 <= k < |cell| && items[j] == items[k] == i ==> j == k
  {
    var c := cell[i];
    SitesInExactly(cell, c, i);
    var at :| 0 <= at < |SitesIn(cell, c)| && SitesIn(cell, c)[at] == i;
    assert Lists(cell, start, items, c);
    assert items[start[c] + at] == items[start[c]..start[c + 1]][at];
    forall j, k | 0 <= j < |cell| && 0 <= k < |cell| && items[j] == items[k] == i ensures j == k {
      OnlyInItsSlice(cell, cells, start, items, i, j);
      OnlyInItsSlice(cell, cells, start, items, i, k);
      var s := SitesIn(cell, c);
      assert s[j - start[c]] == items[j] && s[k - start[c]] == items[k];
      if j < k { SitesInIncreasing(cell, c, j - start[c], k - start[c]); }
      if k < j { SitesInIncreasing(cell, c, k - start[c], j - start[c]); }
    }
  }

  lemma OnlyInItsSlice(cell: seq<int>, cells: nat, start: seq<int>, items: seq<int>, i: nat, k: nat)
    requires Indexes(cell, cells, start, items) && i < |cell| && 0 <= cell[i] < cells && k < |cell| && items[k] == i
    ensures start[cell[i]] <= k < start[cell[i] + 1]
  {
    var c := SliceOf(start, cells, k);
    assert Lists(cell, start, items, c);
    assert items[k] == items[start[c]..start[c + 1]][k - start[c]];
    SitesInExactly(cell, c, i);
  }

  /** The slices cover `items`: every place is in one of them. */
  lemma {:induction false} SliceOf(start: seq<int>, cells: nat, k: nat) returns (c: nat)
    requires |start| > cells && start[0] == 0 && k < start[cells]
    ensures c < cells && start[c] <= k < start[c + 1]
  {
    if k >= start[cells - 1] { c := cells - 1; } else { c := SliceOf(start, cells - 1, k); }
  }
}
