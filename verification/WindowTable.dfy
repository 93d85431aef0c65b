/** The stacked table of windows (`new_entry`, `find`, `add_window`, `forget`, `make_ghost`, `restack`,
  `get_pictures`, `get_shape` and the event handlers of sg-deskcomp.c).

  A window's entry owns what the X server keeps for it: its damage object, its picture and the pixmap under
  it, its shadow and its shape. A ghost is a second entry that takes over all but the damage, to be drawn
  once more while the window closes or is minimized.
 */
module WindowTable {

  /** A handle of something the X server keeps; 0 is none. */
  type Handle = nat

  datatype Kind = Plain | Framed | Popup

  datatype Win = Win(id: int, isGhost: bool, mapped: bool, managed: bool, kind: Kind, offscreen: bool,
                     damage: Handle, pixmap: Handle, pict: Handle, shadow: Handle, shape: Handle)

  // ----- the order of the table

  /** The entries of a window, or of its ghosts, in table order. */
  function Entries(wins: seq<Win>, id: int, ghosts: bool): seq<Win> {
    if wins == [] then []
    else
      var w := wins[|wins| - 1];
      Entries(wins[..|wins| - 1], id, ghosts) + if w.id == id && w.isGhost == ghosts then [w] else []
  }

  /** A window and, directly above it, its ghosts. */
  function Group(wins: seq<Win>, id: int): seq<Win> {
    Entries(wins, id, false) + Entries(wins, id, true)
  }

  /** The groups of the X server's children, bottom to top, a child named twice only once. */
  function Grouped(wins: seq<Win>, children: seq<int>): seq<Win> {
    if children == [] then []
    else
      var id, before := children[|children| - 1], children[..|children| - 1];
      Grouped(wins, before) + if id in before then [] else Group(wins, id)
  }

  /** The entries of windows that are no longer children, in table order. */
  function Others(wins: seq<Win>, children: seq<int>): seq<Win> {
    if wins == [] then []
    else
      var w := wins[|wins| - 1];
      Others(wins[..|wins| - 1], children) + if w.id in children then [] else [w]
  }

  function Restacked(wins: seq<Win>, children: seq<int>): seq<Win> {
    Grouped(wins, children) + Others(wins, children)
  }

  lemma {:induction false} EntriesConcat(a: seq<Win>, b: seq<Win>, id: int, ghosts: bool)
    ensures Entries(a + b, id, ghosts) == Entries(a, id, ghosts) + Entries(b, id, ghosts)
  {
    if b == [] {
      assert a + b == a;
    } else {
      var c := b[..|b| - 1];
      EntriesConcat(a, c, id, ghosts);
      assert (a + b)[..|a + b| - 1] == a + c;
    }
  }

  lemma {:induction false} EntriesOfEntries(wins: seq<Win>, k: int, g: bool, id: int, ghosts: bool)
    ensures Entries(Entries(wins, k, g), id, ghosts) == if k == id && g == ghosts then Entries(wins, id, ghosts) else []
  {
    if wins != [] {
      var w := wins[|wins| - 1];
      EntriesOfEntries(wins[..|wins| - 1], k, g, id, ghosts);
      EntriesConcat(Entries(wins[..|wins| - 1], k, g), if w.id == k && w.isGhost == g then [w] else [], id, ghosts);
    }
  }

  lemma EntriesOfGroup(wins: seq<Win>, k: int, id: int, ghosts: bool)
    ensures Entries(Group(wins, k), id, ghosts) == if k == id then Entries(wins, id, ghosts) else []
  {
    hide Entries;
    EntriesConcat(Entries(wins, k, false), Entries(wins, k, true), id, ghosts);
    EntriesOfEntries(wins, k, false, id, ghosts);
    EntriesOfEntries(wins, k, true, id, ghosts);
  }

  lemma {:induction false} EntriesOfGrouped(wins: seq<Win>, children: seq<int>, id: int, ghosts: bool)
    ensures Entries(Grouped(wins, children), id, ghosts) == if id in children then Entries(wins, id, ghosts) else []
  {
    if children != [] {
      hide Entries, Group;
      var k, before := children[|children| - 1], children[..|children| - 1];
      EntriesOfGrouped(wins, before, id, ghosts);
      assert id in children <==> id in before || id == k;
      if k in before {
        assert Grouped(wins, children) == Grouped(wins, before);
      } else {
        EntriesConcat(Grouped(wins, before), Group(wins, k), id, ghosts);
        EntriesOfGroup(wins, k, id, ghosts);
      }
    }
  }

  lemma {:induction false} EntriesOfOthers(wins: seq<Win>, children: seq<int>, id: int, ghosts: bool)
    ensures Entries(Others(wins, children), id, ghosts) == if id in children then [] else Entries(wins, id, ghosts)
  {
    if wins != [] {
      var w := wins[|wins| - 1];
      EntriesOfOthers(wins[..|wins| - 1], children, id, ghosts);
      EntriesConcat(Others(wins[..|wins| - 1], children), if w.id in children then [] else [w], id, ghosts);
    }
  }

  /** Restacking keeps each window's entries, and each window's ghosts, in the order they had. */
  lemma RestackIsStable(wins: seq<Win>, children: seq<int>, id: int, ghosts: bool)
    ensures Entries(Restacked(wins, children), id, ghosts) == Entries(wins, id, ghosts)
  {
    EntriesConcat(Grouped(wins, children), Others(wins, children), id, ghosts);
    EntriesOfGrouped(wins, children, id, ghosts);
    EntriesOfOthers(wins, children, id, ghosts);
  }

  lemma CountAppended(wins: seq<Win>, last: Win, w: Win)
    ensures multiset(wins + [last])[w] == multiset(wins)[w] + if last == w then 1 else 0
  {
  }

  lemma {:induction false} EntriesCount(wins: seq<Win>, w: Win)
    ensures multiset(wins)[w] == multiset(Entries(wins, w.id, w.isGhost))[w]
  {
    if wins != [] {
      var init, last := wins[..|wins| - 1], wins[|wins| - 1];
      var some := Entries(init, w.id, w.isGhost);
      assert wins == init + [last];
      assert Entries(wins, w.id, w.isGhost) == some + if last.id == w.id && last.isGhost == w.isGhost then [last] else [];
      hide *;
      EntriesCount(init, w);
      CountAppended(init, last, w);
      CountAppended(some, last, w);
      assert some + [] == some;
    }
  }

  /** No entry is lost or doubled. */
  lemma RestackIsPermutation(wins: seq<Win>, children: seq<int>)
    ensures multiset(Restacked(wins, children)) == multiset(wins)
  {
    forall w: Win ensures multiset(Restacked(wins, children))[w] == multiset(wins)[w] {
      EntriesCount(wins, w);
      EntriesCount(Restacked(wins, children), w);
      RestackIsStable(wins, children, w.id, w.isGhost);
    }
  }

  lemma {:induction false} GroupedByEntries(a: seq<Win>, b: seq<Win>, children: seq<int>)
    requires forall id, g :: Entries(a, id, g) == Entries(b, id, g)
    ensures Grouped(a, children) == Grouped(b, children)
  {
    if children != [] {
      GroupedByEntries(a, b, children[..|children| - 1]);
    }
  }

  lemma {:induction false} OthersConcat(a: seq<Win>, b: seq<Win>, children: seq<int>)
    ensures Others(a + b, children) == Others(a, children) + Others(b, children)
  {
    if b == [] {
      assert a + b == a;
    } else {
      OthersConcat(a, b[..|b| - 1], children);
      assert (a + b)[..|a + b| - 1] == a + b[..|b| - 1];
    }
  }

  lemma {:induction false} OthersOfOthers(wins: seq<Win>, children: seq<int>)
    ensures Others(Others(wins, children), children) == Others(wins, children)
  {
    if wins != [] {
      var w := wins[|wins| - 1];
      OthersOfOthers(wins[..|wins| - 1], children);
      OthersConcat(Others(wins[..|wins| - 1], children), if w.id in children then [] else [w], children);
    }
  }

  lemma {:induction false} NoOthersInEntries(wins: seq<Win>, id: int, ghosts: bool, children: seq<int>)
    requires id in children
    ensures Others(Entries(wins, id, ghosts), children) == []
  {
    if wins != [] {
      var w := wins[|wins| - 1];
      NoOthersInEntries(wins[..|wins| - 1], id, ghosts, children);
      OthersConcat(Entries(wins[..|wins| - 1], id, ghosts), if w.id == id && w.isGhost == ghosts then [w] else [], children);
    }
  }

  lemma {:induction false} NoOthersGrouped(wins: seq<Win>, some: seq<int>, children: seq<int>)
    requires forall id :: id in some ==> id in children
    ensures Others(Grouped(wins, some), children) == []
  {
    if some != [] {
      var id, before := some[|some| - 1], some[..|some| - 1];
      NoOthersGrouped(wins, before, children);
      OthersConcat(Grouped(wins, before), if id in before then [] else Group(wins, id), children);
      OthersConcat(Entries(wins, id, false), Entries(wins, id, true), children);
      NoOthersInEntries(wins, id, false, children);
      NoOthersInEntries(wins, id, true, children);
    }
  }

  /** Doing it twice changes nothing. */
  lemma RestackIsIdempotent(wins: seq<Win>, children: seq<int>)
    ensures Restacked(Restacked(wins, children), children) == Restacked(wins, children)
  {
    hide Entries, Others, Grouped;
    var g, o := Grouped(wins, children), Others(wins, children);
    RestackKeepsGroups(wins, children);
    OthersConcat(g, o, children);
    NoOthersGrouped(wins, children, children);
    OthersOfOthers(wins, children);
    assert Others(g + o, children) == o;
  }

  lemma RestackKeepsGroups(wins: seq<Win>, children: seq<int>)
    ensures Grouped(Restacked(wins, children), children) == Grouped(wins, children)
  {
    hide Entries, Others, Grouped, Restacked;
    forall id, g ensures Entries(Restacked(wins, children), id, g) == Entries(wins, id, g) {
      RestackIsStable(wins, children, id, g);
    }
    GroupedByEntries(Restacked(wins, children), wins, children);
  }

  lemma Regroup(a: seq<Win>, b: seq<Win>, c: seq<Win>, d: seq<Win>)
    ensures a + b + c + d == a + b + (c + d)
  {
  }

  /** A child's group stands in one piece: its ghosts directly above the window. */
  lemma {:induction false} GroupInOnePiece(wins: seq<Win>, children: seq<int>, id: int) returns (below: seq<Win>, above: seq<Win>)
    requires id in children
    ensures Grouped(wins, children) == below + Group(wins, id) + above
  {
    var k, before := children[|children| - 1], children[..|children| - 1];
    hide Entries, Group;
    if id in before {
      below, above := GroupInOnePiece(wins, before, id);
      var top := if k in before then [] else Group(wins, k);
      Regroup(below, Group(wins, id), above, top);
      above := above + top;
    } else {
      below, above := Grouped(wins, before), [];
    }
  }

  /** The place of a window in the X server's order; after all of them if it is not a child. */
  function Rank(children: seq<int>, id: int): (r: nat)
    ensures r <= |children| && (r < |children| <==> id in children) && (r < |children| ==> children[r] == id)
  {
    if children == [] then 0
    else
      var before := children[..|children| - 1];
      if id in before then Rank(before, id) else if children[|children| - 1] == id then |before| else |children|
  }

  lemma {:induction false} EntriesHave(wins: seq<Win>, id: int, ghosts: bool, w: Win)
    ensures w in Entries(wins, id, ghosts) <==> w in wins && w.id == id && w.isGhost == ghosts
  {
    if wins != [] {
      EntriesHave(wins[..|wins| - 1], id, ghosts, w);
      assert wins == wins[..|wins| - 1] + [wins[|wins| - 1]];
    }
  }

  lemma {:induction false} OthersHave(wins: seq<Win>, children: seq<int>, w: Win)
    ensures w in Others(wins, children) <==> w in wins && w.id !in children
  {
    if wins != [] {
      OthersHave(wins[..|wins| - 1], children, w);
      assert wins == wins[..|wins| - 1] + [wins[|wins| - 1]];
    }
  }

  lemma {:induction false} GroupedAreChildren(wins: seq<Win>, children: seq<int>, p: nat)
    requires p < |Grouped(wins, children)|
    ensures Grouped(wins, children)[p].id in children
  {
    hide Group;
    var id, before := children[|children| - 1], children[..|children| - 1];
    var low := |Grouped(wins, before)|;
    if p < low { GroupedAreChildren(wins, before, p); } else { GroupHas(wins, id, p - low); }
  }

  /** The windows follow the X server's order. */
  lemma {:induction false} GroupedFollowsChildren(wins: seq<Win>, children: seq<int>, p: nat, q: nat)
    requires p < q < |Grouped(wins, children)|
    ensures Rank(children, Grouped(wins, children)[p].id) <= Rank(children, Grouped(wins, children)[q].id)
  {
    hide Group;
    var id, before := children[|children| - 1], children[..|children| - 1];
    var low := |Grouped(wins, before)|;
    if q < low {
      GroupedAreChildren(wins, before, p);
      GroupedAreChildren(wins, before, q);
      GroupedFollowsChildren(wins, before, p, q);
    } else {
      GroupHas(wins, id, q - low);
      if p < low { GroupedAreChildren(wins, before, p); } else { GroupHas(wins, id, p - low); }
    }
  }

  lemma GroupHas(wins: seq<Win>, id: int, p: nat)
    requires p < |Group(wins, id)|
    ensures Group(wins, id)[p].id == id
  {
    EntriesHave(wins, id, false, Group(wins, id)[p]);
    EntriesHave(wins, id, true, Group(wins, id)[p]);
  }

  /** The windows follow the X server's order, entries of windows gone on top. */
  lemma RestackFollowsChildren(wins: seq<Win>, children: seq<int>, p: nat, q: nat)
    requires p < q < |Restacked(wins, children)|
    ensures Rank(children, Restacked(wins, children)[p].id) <= Rank(children, Restacked(wins, children)[q].id)
  {
    var low := |Grouped(wins, children)|;
    if q < low {
      GroupedFollowsChildren(wins, children, p, q);
    } else {
      OthersHave(wins, children, Others(wins, children)[q - low]);
    }
  }

  // ----- who owns what the X server keeps

  function Is(a: Handle, h: Handle): nat { if a == h then 1 else 0 }

  /** How many of an entry's places hold a handle. */
  function Holds(w: Win, h: Handle): nat {
    Is(w.damage, h) + Is(w.pixmap, h) + Is(w.pict, h) + Is(w.shadow, h) + Is(w.shape, h)
  }

  /** How many places of the table hold it. */
  function Owners(wins: seq<Win>, h: Handle): nat {
    if wins == [] then 0 else Owners(wins[..|wins| - 1], h) + Holds(wins[|wins| - 1], h)
  }

  lemma {:induction false} OwnersConcat(a: seq<Win>, b: seq<Win>, h: Handle)
    ensures Owners(a + b, h) == Owners(a, h) + Owners(b, h)
  {
    if b == [] {
      assert a + b == a;
    } else {
      OwnersConcat(a, b[..|b| - 1], h);
      assert (a + b)[..|a + b| - 1] == a + b[..|b| - 1];
    }
  }

  lemma OwnersSplit(wins: seq<Win>, i: nat, h: Handle)
    requires i < |wins|
    ensures Owners(wins, h) == Owners(wins[..i], h) + Holds(wins[i], h) + Owners(wins[i + 1..], h)
  {
    OwnersConcat(wins[..i + 1], wins[i + 1..], h);
    assert wins == wins[..i + 1] + wins[i + 1..];
    assert wins[..i + 1][..i] == wins[..i];
  }

  lemma OwnersUpdate(wins: seq<Win>, i: nat, w: Win, h: Handle)
    requires i < |wins|
    ensures Owners(wins[i := w], h) == Owners(wins, h) - Holds(wins[i], h) + Holds(w, h)
    ensures Holds(wins[i], h) <= Owners(wins, h)
  {
    OwnersSplit(wins, i, h);
    OwnersSplit(wins[i := w], i, h);
    assert wins[i := w][..i] == wins[..i] && wins[i := w][i + 1..] == wins[i + 1..];
  }

  lemma OwnersWithout(b: seq<Win>, i: nat, h: Handle)
    requires i < |b|
    ensures Owners(b, h) == Owners(b[..i] + b[i + 1..], h) + Holds(b[i], h)
    ensures multiset(b[..i] + b[i + 1..]) == multiset(b) - multiset{b[i]}
  {
    hide *;
    OwnersSplit(b, i, h);
    OwnersConcat(b[..i], b[i + 1..], h);
    WithoutOne(b[..i], b[i], b[i + 1..]);
    assert b == b[..i] + [b[i]] + b[i + 1..];
  }

  lemma WithoutOne(low: seq<Win>, w: Win, high: seq<Win>)
    ensures multiset(low + high) == multiset(low + [w] + high) - multiset{w}
  {
    assert multiset(low + [w]) == multiset(low) + multiset{w};
  }

  /** Who owns what does not depend on the table's order. */
  lemma {:induction false} OwnersAnyOrder(a: seq<Win>, b: seq<Win>, h: Handle)
    requires multiset(a) == multiset(b)
    ensures Owners(a, h) == Owners(b, h)
  {
    if a == [] {
      assert |b| == |multiset(b)| == 0;
    } else {
      hide Holds;
      var w, init := a[|a| - 1], a[..|a| - 1];
      assert a == init + [w];
      assert w in multiset(b);
      var i :| 0 <= i < |b| && b[i] == w;
      OwnersWithout(b, i, h);
      assert multiset(init) == multiset(a) - multiset{w};
      OwnersAnyOrder(init, b[..i] + b[i + 1..], h);
    }
  }

  /** Each window has at most one entry that is not a ghost. */
  ghost predicate UniqueIds(wins: seq<Win>) {
    forall id :: |Entries(wins, id, false)| <= 1
  }

  ghost predicate GhostsUndamaged(wins: seq<Win>) {
    forall w :: w in wins && w.isGhost ==> w.damage == 0
  }

  /** Everything the X server keeps for the compositor is owned by exactly one place of one entry. */
  ghost predicate OwnsAll(wins: seq<Win>, live: set<Handle>) {
    && 0 !in live
    && forall h :: h != 0 ==> Owners(wins, h) == if h in live then 1 else 0
  }

  /** One entry gives up handles and takes over others. */
  ghost predicate Exchanges(was: Win, now: Win, freed: set<Handle>, made: set<Handle>) {
    && 0 !in freed && 0 !in made && freed !! made
    && forall h :: h != 0 ==> Holds(now, h) + (if h in freed then 1 else 0) == Holds(was, h) + (if h in made then 1 else 0)
  }

  lemma {:induction false} EntriesUpdate(wins: seq<Win>, i: nat, w: Win, id: int, ghosts: bool)
    requires i < |wins| && w.id == wins[i].id && w.isGhost == wins[i].isGhost
    ensures |Entries(wins[i := w], id, ghosts)| == |Entries(wins, id, ghosts)|
  {
    var n := |wins| - 1;
    if i < n {
      EntriesUpdate(wins[..n], i, w, id, ghosts);
      assert wins[i := w][..n] == wins[..n][i := w];
    } else {
      assert wins[i := w][..n] == wins[..n];
    }
  }

  lemma OwnsAfterExchange(wins: seq<Win>, live: set<Handle>, i: nat, w: Win, freed: set<Handle>, made: set<Handle>)
    requires OwnsAll(wins, live) && i < |wins| && made !! live && Exchanges(wins[i], w, freed, made)
    ensures OwnsAll(wins[i := w], live - freed + made)
    ensures freed <= live
  {
    hide Owners, Holds;
    forall h | h != 0
      ensures Owners(wins[i := w], h) == if h in live - freed + made then 1 else 0
      ensures h in freed ==> h in live
    {
      OwnersUpdate(wins, i, w, h);
    }
    assert forall h :: h in freed ==> h != 0 && h in live;
  }

  lemma OwnedOnce(wins: seq<Win>, live: set<Handle>, i: nat, h: Handle)
    requires OwnsAll(wins, live) && i < |wins|
    ensures h != 0 ==> Holds(wins[i], h) <= 1 && (Holds(wins[i], h) == 1 ==> h in live)
  {
    OwnersUpdate(wins, i, wins[i], h);
  }

  lemma EntriesWithout(b: seq<Win>, i: nat, id: int, ghosts: bool)
    requires i < |b|
    ensures |Entries(b[..i] + b[i + 1..], id, ghosts)| ==
            |Entries(b, id, ghosts)| - if b[i].id == id && b[i].isGhost == ghosts then 1 else 0
  {
    EntriesOne(b[i], id, ghosts);
    var low, one, high := b[..i], [b[i]], b[i + 1..];
    assert b == (low + one) + high;
    hide Entries;
    EntriesConcat(low, high, id, ghosts);
    EntriesConcat(low, one, id, ghosts);
    EntriesConcat(low + one, high, id, ghosts);
  }

  lemma EntriesOne(w: Win, id: int, ghosts: bool)
    ensures Entries([w], id, ghosts) == if w.id == id && w.isGhost == ghosts then [w] else []
  {
    assert [w][..0] == [];
  }

  lemma {:induction false} EntriesAnyOrder(a: seq<Win>, b: seq<Win>, id: int, ghosts: bool)
    requires multiset(a) == multiset(b)
    ensures |Entries(a, id, ghosts)| == |Entries(b, id, ghosts)|
  {
    if a == [] {
      assert |b| == |multiset(b)| == 0;
    } else {
      var w, init := a[|a| - 1], a[..|a| - 1];
      assert a == init + [w];
      assert w in multiset(b);
      var i :| 0 <= i < |b| && b[i] == w;
      OwnersWithout(b, i, 1);
      EntriesWithout(b, i, id, ghosts);
      assert multiset(init) == multiset(a) - multiset{w};
      EntriesAnyOrder(init, b[..i] + b[i + 1..], id, ghosts);
    }
  }

  /** The last entry moved into the place of one that is forgotten. */
  function Dropped(wins: seq<Win>, i: nat): seq<Win>
    requires i < |wins|
  {
    var n := |wins| - 1;
    if i == n then wins[..n] else wins[..n][i := wins[n]]
  }

  lemma DroppedIsRest(wins: seq<Win>, i: nat)
    requires i < |wins|
    ensures multiset(Dropped(wins, i)) == multiset(wins[..i] + wins[i + 1..]) == multiset(wins) - multiset{wins[i]}
  {
    var n := |wins| - 1;
    OwnersWithout(wins, i, 1);
    if i < n {
      var low, high := wins[..i], wins[i + 1..n];
      assert wins[i + 1..] == high + [wins[n]];
      assert Dropped(wins, i) == low + [wins[n]] + high;
    } else {
      assert Dropped(wins, i) == wins[..i] + wins[i + 1..];
    }
  }

  /** The handles an entry holds. */
  function HandleSet(w: Win): set<Handle> {
    {w.damage, w.pixmap, w.pict, w.shadow, w.shape} - {0}
  }

  lemma AfterDrop(wins: seq<Win>, live: set<Handle>, i: nat)
    requires i < |wins| && UniqueIds(wins) && GhostsUndamaged(wins) && OwnsAll(wins, live)
    ensures UniqueIds(Dropped(wins, i)) && GhostsUndamaged(Dropped(wins, i))
    ensures OwnsAll(Dropped(wins, i), live - HandleSet(wins[i])) && HandleSet(wins[i]) <= live
  {
    DroppedIsRest(wins, i);
    var rest := wins[..i] + wins[i + 1..];
    forall id ensures |Entries(Dropped(wins, i), id, false)| <= 1 {
      EntriesAnyOrder(Dropped(wins, i), rest, id, false);
      EntriesWithout(wins, i, id, false);
    }
    forall h | h != 0
      ensures Owners(Dropped(wins, i), h) == if h in live - HandleSet(wins[i]) then 1 else 0
      ensures h in HandleSet(wins[i]) ==> h in live
    {
      OwnersAnyOrder(Dropped(wins, i), rest, h);
      OwnersWithout(wins, i, h);
      OwnedOnce(wins, live, i, h);
    }
    forall w | w in Dropped(wins, i) && w.isGhost ensures w.damage == 0 {
      assert w in multiset(Dropped(wins, i));
      assert w in multiset(wins);
    }
  }

  lemma AfterRestack(wins: seq<Win>, live: set<Handle>, children: seq<int>)
    requires UniqueIds(wins) && GhostsUndamaged(wins) && OwnsAll(wins, live)
    ensures UniqueIds(Restacked(wins, children)) && GhostsUndamaged(Restacked(wins, children))
    ensures OwnsAll(Restacked(wins, children), live)
  {
    hide Restacked, Entries, Owners;
    var next := Restacked(wins, children);
    RestackIsPermutation(wins, children);
    forall id ensures |Entries(next, id, false)| <= 1 { RestackIsStable(wins, children, id, false); }
    forall h | h != 0 ensures Owners(next, h) == if h in live then 1 else 0 { OwnersAnyOrder(next, wins, h); }
    forall w | w in next && w.isGhost ensures w.damage == 0 {
      assert w in multiset(next);
      assert w in multiset(wins);
    }
  }

  /** The entry a window keeps when its ghost takes the rest, and that ghost. */
  function Drained(w: Win): Win { w.(pict := 0, pixmap := 0, shadow := 0, shape := 0) }

  function GhostOf(w: Win): Win { w.(damage := 0, isGhost := true) }

  lemma AfterGhost(wins: seq<Win>, live: set<Handle>, i: nat)
    requires i < |wins| && !wins[i].isGhost && UniqueIds(wins) && GhostsUndamaged(wins) && OwnsAll(wins, live)
    ensures var next := wins[i := Drained(wins[i])] + [GhostOf(wins[i])];
      UniqueIds(next) && GhostsUndamaged(next) && OwnsAll(next, live)
  {
    var w := wins[i];
    var one := wins[i := Drained(w)];
    var next := one + [GhostOf(w)];
    forall id ensures |Entries(next, id, false)| <= 1 {
      EntriesUpdate(wins, i, Drained(w), id, false);
      EntriesConcat(one, [GhostOf(w)], id, false);
    }
    forall h | h != 0 ensures Owners(next, h) == if h in live then 1 else 0 {
      OwnersUpdate(wins, i, Drained(w), h);
      OwnersConcat(one, [GhostOf(w)], h);
    }
  }

  /** A window's new entry owns nothing yet. */
  lemma AfterAppend(wins: seq<Win>, live: set<Handle>, w: Win)
    requires UniqueIds(wins) && GhostsUndamaged(wins) && OwnsAll(wins, live)
    requires !w.isGhost && w.damage == w.pixmap == w.pict == w.shadow == w.shape == 0
    requires forall v :: v in wins ==> v.id != w.id || v.isGhost
    ensures UniqueIds(wins + [w]) && GhostsUndamaged(wins + [w]) && OwnsAll(wins + [w], live)
  {
    forall id ensures |Entries(wins + [w], id, false)| <= 1 {
      EntriesConcat(wins, [w], id, false);
      if id == w.id && Entries(wins, id, false) != [] {
        EntriesHave(wins, id, false, Entries(wins, id, false)[0]);
      }
    }
    forall h | h != 0 ensures Owners(wins + [w], h) == if h in live then 1 else 0 { OwnersConcat(wins, [w], h); }
  }

  /** The places of an entry for what the X server keeps. */
  function Places(w: Win): seq<Handle> {
    [w.damage, w.pixmap, w.pict, w.shadow, w.shape]
  }

  lemma PlacesHold(w: Win, h: Handle)
    ensures h in Places(w) <==> Holds(w, h) > 0
    ensures Holds(w, h) <= 1 ==> forall a, b :: 0 <= a < b < 5 && Places(w)[a] == h ==> Places(w)[b] != h
  {
    var p := Places(w);
    assert p[0] == w.damage && p[1] == w.pixmap && p[2] == w.pict && p[3] == w.shadow && p[4] == w.shape;
  }

  lemma LeftLive(wins: seq<Win>, live: set<Handle>, w: Win)
    requires OwnsAll(wins, live)
    ensures forall h :: h in live - HandleSet(w) <==>
              h in live && h != w.damage && h != w.pixmap && h != w.pict && h != w.shadow && h != w.shape
  {
  }

  lemma TwoOwners(wins: seq<Win>, j: nat, k: nat, h: Handle)
    requires j < k < |wins|
    ensures Owners(wins, h) >= Holds(wins[j], h) + Holds(wins[k], h)
  {
    hide Holds, Owners;
    OwnersSplit(wins, k, h);
    OwnersSplit(wins[..k], j, h);
  }

  lemma {:induction false} InEntries(wins: seq<Win>, k: nat, id: int, ghosts: bool)
    requires k < |wins| && wins[k].id == id && wins[k].isGhost == ghosts
    ensures |Entries(wins, id, ghosts)| >= 1
  {
    if k < |wins| - 1 { InEntries(wins[..|wins| - 1], k, id, ghosts); }
  }

  lemma {:induction false} TwoEntries(wins: seq<Win>, j: nat, k: nat)
    requires j < k < |wins| && wins[j].id == wins[k].id && !wins[j].isGhost && !wins[k].isGhost
    ensures |Entries(wins, wins[j].id, false)| >= 2
  {
    var init := wins[..|wins| - 1];
    if k < |wins| - 1 { TwoEntries(init, j, k); } else { InEntries(init, j, wins[j].id, false); }
  }

  lemma {:induction false} SomeOwner(wins: seq<Win>, h: Handle)
    ensures Owners(wins, h) > 0 ==> exists i :: 0 <= i < |wins| && h in Places(wins[i])
  {
    if wins != [] {
      var n := |wins| - 1;
      SomeOwner(wins[..n], h);
      PlacesHold(wins[n], h);
      if i :| 0 <= i < n && h in Places(wins[..n][i]) { assert h in Places(wins[i]); }
    }
  }

  // ----- the table, event by event

  /** What the X server answers when its stacking order is asked for. */
  datatype TreeReply = NoTree | Tree(children: seq<int>)

  function RestackedBy(wins: seq<Win>, tree: TreeReply): seq<Win> {
    if tree.NoTree? then wins else Restacked(wins, tree.children)
  }

  /** What the X server answers when a window's picture is asked for. */
  datatype PictureReply = NoAttributes | Trapped | Named(pixmap: Handle, pict: Handle) {
    function Numbers(): seq<Handle> {
      if Named? then [pixmap, pict] else []
    }

    predicate Sane() {
      Named? ==> pixmap != 0 && pict != 0
    }
  }

  /** What happens to the table, with what X gives for it. */
  datatype XEvent =
    | Created(id: int, isCanvas: bool, visible: bool, viewable: bool, redirected: bool, kind: Kind, offscreen: bool,
              damage: Handle, shape: Handle, reply: PictureReply, tree: TreeReply)
    | Mapped(id: int, kind: Kind, shape: Handle, reply: PictureReply, tree: TreeReply)
    | Unmapped(id: int, wantOpen: bool, tree: TreeReply)
    | Configured(id: int, offscreen: bool, resized: bool, wantMinimize: bool, reply: PictureReply, tree: TreeReply)
    | Destroyed(id: int)
    | Reparented(id: int)
    | Shaped(id: int, shape: Handle)
    | KindChanged(id: int, kind: Kind)
    | PaintBegins(tree: TreeReply)
    | GhostOver(k: nat)
    | Shadowed(k: nat, shadow: Handle)
    | MadeDirect(k: nat)
    | EndedDirect(redirected: bool, reply: PictureReply)
    | Detached
  {
    /** The numbers X gave in it. */
    function Numbers(): seq<Handle> {
      match this
      case Created(_, _, _, _, _, _, _, damage, shape, reply, _) => reply.Numbers() + [damage, shape]
      case Mapped(_, _, shape, reply, _) => reply.Numbers() + [shape]
      case Configured(_, _, _, _, reply, _) => reply.Numbers() + []
      case EndedDirect(_, reply) => reply.Numbers() + []
      case Shaped(_, shape) => [shape]
      case Shadowed(_, shadow) => [shadow]
      case _ => []
    }

    predicate Sane() {
      && (Created? || Mapped? || Configured? || EndedDirect? ==> reply.Sane())
      && (Created? ==> damage != 0)
    }
  }

  class Table {
    var wins: seq<Win>
    var direct: int               // the window X draws itself
    var live: set<Handle>         // what the X server keeps for this table
    ghost var made: multiset<Handle>    // all it ever made, and all that was freed or went by itself
    ghost var gone: multiset<Handle>

    ghost predicate Valid()
      reads this
    {
      UniqueIds(wins) && GhostsUndamaged(wins) && OwnsAll(wins, live) && Balanced()
    }

    /** What that says of two entries, and of a number. */
    lemma ValidIs(j: nat, k: nat, h: Handle)
      requires Valid() && j < |wins| && k < |wins| && h != 0
      ensures j != k && wins[j].id == wins[k].id ==> wins[j].isGhost || wins[k].isGhost
      ensures wins[j].isGhost ==> wins[j].damage == 0
      ensures h in Places(wins[j]) ==> h in live && (j != k ==> h !in Places(wins[k]))
      ensures forall a, b :: 0 <= a < b < 5 && Places(wins[j])[a] == h ==> Places(wins[j])[b] != h
      ensures h in live ==> exists i :: 0 <= i < |wins| && h in Places(wins[i])
      ensures made[h] == gone[h] + if h in live then 1 else 0
    {
      if j < k { TwoOwners(wins, j, k, h); } else if k < j { TwoOwners(wins, k, j, h); }
      if j < k && wins[j].id == wins[k].id && !wins[j].isGhost && !wins[k].isGhost { TwoEntries(wins, j, k); }
      if k < j && wins[j].id == wins[k].id && !wins[j].isGhost && !wins[k].isGhost { TwoEntries(wins, k, j); }
      OwnersSplit(wins, j, h);
      PlacesHold(wins[j], h);
      PlacesHold(wins[k], h);
      SomeOwner(wins, h);
      hide Entries, Owners, Holds, Places;
    }

    /** Each number went as often as it was made, but once less while it is in use. */
    ghost predicate Balanced()
      reads this`live, this`made, this`gone
    {
      forall h :: made[h] == gone[h] + if h in live then 1 else 0
    }

    /** Handles the X server may give next: in use for nothing, and all different. */
    predicate Fresh(handles: seq<Handle>)
      reads this
    {
      && (forall k :: 0 <= k < |handles| ==> handles[k] !in live)
      && (forall j, k :: 0 <= j < k < |handles| ==> handles[j] != handles[k] || handles[j] == 0)
    }

    ghost predicate FreshReply(reply: PictureReply, others: seq<Handle>)
      reads this
    {
      match reply
      case Named(pixmap, pict) => pixmap != 0 && pict != 0 && Fresh([pixmap, pict] + others)
      case _ => Fresh(others)
    }

    constructor ()
      ensures Valid() && wins == [] && live == {} && direct == 0
    {
      wins, direct, live, made, gone := [], 0, {}, multiset{}, multiset{};
    }

    /** The window's own entry. */
    method Find(id: int) returns (i: int)
      ensures -1 <= i < |wins|
      ensures i >= 0 ==> wins[i].id == id && !wins[i].isGhost
      ensures i < 0 ==> forall w :: w in wins ==> w.id != id || w.isGhost
    {
      i := 0;
      while i < |wins|
        invariant 0 <= i <= |wins|
        invariant forall j :: 0 <= j < i ==> wins[j].id != id || wins[j].isGhost
      {
        if wins[i].id == id && !wins[i].isGhost { return; }
        i := i + 1;
      }
      i := -1;
    }

    /** An entry changes what it owns; what it gives up is freed, just once. */
    method Exchange(i: nat, w: Win, freed: set<Handle>, taken: set<Handle>)
      requires Valid() && i < |wins| && w.id == wins[i].id && w.isGhost == wins[i].isGhost
      requires w.isGhost ==> w.damage == 0
      requires taken !! live && Exchanges(wins[i], w, freed, taken)
      modifies this`wins, this`live, this`made, this`gone
      ensures Valid() && wins == old(wins)[i := w] && live == old(live) - freed + taken && freed <= old(live)
    {
      OwnsAfterExchange(wins, live, i, w, freed, taken);
      var next := wins[i := w];
      forall id ensures |Entries(next, id, false)| <= 1 {
        EntriesUpdate(wins, i, w, id, false);
      }
      wins := wins[i := w];
      Turn(freed, taken);
    }

    /** Numbers go and others are given. */
    method Turn(freed: set<Handle>, taken: set<Handle>)
      requires Balanced() && freed <= live && taken !! live
      modifies this`live, this`made, this`gone
      ensures Balanced() && live == old(live) - freed + taken
    {
      gone, made := gone + multiset(freed), made + multiset(taken);
      live := live - freed + taken;
    }

    function Some(h: Handle): set<Handle> { if h == 0 then {} else {h} }

    /** What the X server made for an answer. */
    ghost function Made(reply: PictureReply): set<Handle> {
      if reply.Named? then {reply.pixmap, reply.pict} else {}
    }

    method FreePictures(i: nat)
      requires Valid() && i < |wins|
      modifies this`wins, this`live, this`made, this`gone
      ensures Valid() && wins == old(wins)[i := old(wins)[i].(pict := 0, pixmap := 0)]
      ensures live == old(live) - Some(old(wins)[i].pict) - Some(old(wins)[i].pixmap)
    {
      OwnedOnce(wins, live, i, wins[i].pict);
      Exchange(i, wins[i].(pict := 0, pixmap := 0), Some(wins[i].pict) + Some(wins[i].pixmap), {});
    }

    /** The window's shape asked for again; 0: it is a rectangle. */
    method GetShape(i: nat, shape: Handle)
      requires Valid() && i < |wins| && Fresh([shape])
      modifies this`wins, this`live, this`made, this`gone
      ensures Valid() && wins == old(wins)[i := old(wins)[i].(shape := shape)]
      ensures live == old(live) - Some(old(wins)[i].shape) + Some(shape)
    {
      assert [shape][0] == shape;
      OwnedOnce(wins, live, i, wins[i].shape);
      OwnedOnce(wins, live, i, shape);
      Exchange(i, wins[i].(shape := shape), Some(wins[i].shape), Some(shape));
    }

    /** What the window's entry shows after its picture was asked for. */
    function Pictured(w: Win, reply: PictureReply): Win
      reads this`direct
    {
      if w.mapped && w.managed && w.id != direct && reply.Named? then w.(pixmap := reply.pixmap, pict := reply.pict)
      else w.(pixmap := 0, pict := 0)
    }

    /** The new picture, where the window is mapped, takes pictures and is not X's own, and X gives one; else none. */
    lemma PicturedIs(w: Win, reply: PictureReply)
      ensures var p := Pictured(w, reply);
              && p == w.(pixmap := p.pixmap, pict := p.pict)
              && (w.mapped && w.managed && w.id != direct && reply.Named? ==> p.pixmap == reply.pixmap && p.pict == reply.pict)
              && (!w.mapped || !w.managed || w.id == direct || !reply.Named? ==> p.pixmap == 0 && p.pict == 0)
    {
    }

    /** The window's picture asked for again. */
    method GetPictures(i: nat, reply: PictureReply)
      requires Valid() && i < |wins| && FreshReply(reply, [])
      modifies this`wins, this`live, this`made, this`gone
      ensures Valid() && wins == old(wins)[i := Pictured(old(wins)[i], reply)]
      ensures live == old(live) - Some(old(wins)[i].pict) - Some(old(wins)[i].pixmap)
                      + Some(wins[i].pict) + Some(wins[i].pixmap)
    {
      FreePictures(i);
      if !wins[i].mapped || !wins[i].managed || wins[i].id == direct || !reply.Named? { return; }
      var hs := [reply.pixmap, reply.pict] + [];
      assert hs[0] == reply.pixmap && hs[1] == reply.pict;
      OwnedOnce(wins, live, i, reply.pixmap);
      OwnedOnce(wins, live, i, reply.pict);
      Exchange(i, wins[i].(pixmap := reply.pixmap, pict := reply.pict), {}, {reply.pixmap, reply.pict});
    }

    /** An entry leaves the table, and the last one takes its place. */
    method Forget(i: nat)
      requires Valid() && i < |wins|
      modifies this`wins, this`live, this`made, this`gone
      ensures Valid() && wins == Dropped(old(wins), i)
      ensures live == old(live) - HandleSet(old(wins)[i]) && HandleSet(old(wins)[i]) <= old(live)
      ensures |wins| == |old(wins)| - 1 && forall k :: 0 <= k < |wins| ==> wins[k] == old(wins)[if k == i then |wins| else k]
      ensures var w := old(wins)[i];
              forall h :: h in live <==> h in old(live) && h != w.damage && h != w.pixmap && h != w.pict && h != w.shadow && h != w.shape
    {
      hide Entries, Owners, Holds, OwnsAll, UniqueIds, GhostsUndamaged, Balanced, HandleSet;
      AfterDrop(wins, live, i);
      LeftLive(wins, live, wins[i]);
      Turn(HandleSet(wins[i]), {});
      assert live == old(live) - HandleSet(wins[i]);
      var last := wins[|wins| - 1];
      if i < |wins| - 1 { wins := wins[i := last]; }
      wins := wins[..|wins| - 1];
    }

    /** A ghost takes over the window's picture, shadow and shape. */
    method MakeGhost(i: nat)
      requires Valid() && i < |wins| && !wins[i].isGhost
      modifies this`wins
      ensures Valid() && wins == old(wins)[i := Drained(old(wins)[i])] + [GhostOf(old(wins)[i])]
      ensures |wins| == |old(wins)| + 1 && forall k :: 0 <= k < |old(wins)| && k != i ==> wins[k] == old(wins)[k]
      ensures var w, g := old(wins)[i], wins[|old(wins)|];
              && g.pict == w.pict && g.pixmap == w.pixmap && g.shadow == w.shadow && g.shape == w.shape
              && g.damage == 0 && g.isGhost && g.id == w.id && g.kind == w.kind && g.offscreen == w.offscreen
              && g.mapped == w.mapped && g.managed == w.managed
      ensures var w, d := old(wins)[i], wins[i];
              && d.damage == w.damage && d.pict == 0 && d.pixmap == 0 && d.shadow == 0 && d.shape == 0
              && !d.isGhost && d.id == w.id && d.kind == w.kind && d.offscreen == w.offscreen
              && d.mapped == w.mapped && d.managed == w.managed
    {
      AfterGhost(wins, live, i);
      var copy := wins[i];
      wins := wins[i := Drained(wins[i])];
      wins := wins + [GhostOf(copy)];
    }

    /** The table put into the X server's stacking order, if the server tells it. */
    method Restack(tree: TreeReply)
      requires Valid()
      modifies this`wins
      ensures Valid() && wins == RestackedBy(old(wins), tree)
      ensures wins == if tree.NoTree? then old(wins) else Restacked(old(wins), tree.children)
    {
      if tree.NoTree? { return; }
      AfterRestack(wins, live, tree.children);
      var sorted := SortByChildren(wins, tree.children);
      wins := sorted;
    }

    /** The entry event handlers act on: the window's own, if there is one. */
    ghost predicate IsOwn(table: seq<Win>, id: int, i: int) {
      && -1 <= i < |table|
      && (i >= 0 ==> table[i].id == id && !table[i].isGhost)
      && (i < 0 ==> forall w :: w in table ==> w.id != id || w.isGhost)
    }

    /** A window appears: an entry for it, unless it has one, is the canvas, or takes no picture. `redirected`
      tells whether it could be redirected to this compositor, `damage`, `shape` and `reply` what X gives for it. */
    method AddWindow(id: int, isCanvas: bool, visible: bool, viewable: bool, redirected: bool, kind: Kind, offscreen: bool,
                     damage: Handle, shape: Handle, reply: PictureReply) returns (added: bool)
      requires Valid() && damage != 0 && FreshReply(reply, [damage, shape])
      modifies this`wins, this`live, this`made, this`gone
      ensures Valid()
      ensures added <==> !isCanvas && visible && forall w :: w in old(wins) ==> w.id != id || w.isGhost
      ensures !added ==> wins == old(wins) && live == old(live)
      ensures added ==> wins == old(wins) + [NewEntry(id, viewable, redirected, kind, offscreen, damage, shape, reply)]
      ensures added ==> live == old(live) + HandleSet(wins[|old(wins)|])
      ensures added ==>
        var w := wins[|old(wins)|];
        && w.id == id && !w.isGhost && w.mapped == viewable && w.managed == redirected && w.offscreen == offscreen && w.shadow == 0
        && (redirected ==> w.kind == kind && w.damage == damage && w.shape == shape)
        && (redirected && viewable && id != direct && reply.Named? ==> w.pict == reply.pict && w.pixmap == reply.pixmap)
        && (!(redirected && viewable && id != direct && reply.Named?) ==> w.pict == w.pixmap == 0)
        && (!redirected ==> w.kind == Plain && w.damage == w.shape == 0)
      ensures live <= old(live) + {damage} + Some(shape) + Made(reply)
    {
      hide Entries, Owners, Holds, OwnsAll, UniqueIds, GhostsUndamaged, Balanced;
      added := false;
      if isCanvas { return; }
      var i := Find(id);
      if i >= 0 || !visible { return; }
      added := true;
      var bare := Win(id, false, viewable, redirected, Plain, offscreen, 0, 0, 0, 0, 0);
      AfterAppend(wins, live, bare);
      wins := wins + [bare];
      if redirected { Equip(|wins| - 1, kind, damage, shape, reply); }
    }

    /** What a redirected window's new entry gets: its damage object, its shape, and its picture if it can be seen. */
    method Equip(n: nat, kind: Kind, damage: Handle, shape: Handle, reply: PictureReply)
      requires Valid() && n < |wins| && !wins[n].isGhost && wins[n].managed && HandleSet(wins[n]) == {}
      requires damage != 0 && FreshReply(reply, [damage, shape])
      modifies this`wins, this`live, this`made, this`gone
      ensures Valid() && wins == old(wins)[n := Pictured(old(wins)[n].(damage := damage, kind := kind, shape := shape), reply)]
      ensures live == old(live) + HandleSet(wins[n])
    {
      hide Entries, Owners, Holds, OwnsAll, UniqueIds, GhostsUndamaged, Balanced;
      FreshApart(reply, damage, shape);
      ghost var w := wins[n];
      assert w.damage == w.pixmap == w.pict == w.shadow == w.shape == 0 by { NoHandles(w); }
      TakeDamage(n, damage, kind);
      assert [shape][0] == shape;
      GetShape(n, shape);
      if wins[n].mapped {
        assert reply.Named? ==> ([reply.pixmap, reply.pict] + [])[0] == reply.pixmap;
        assert reply.Named? ==> ([reply.pixmap, reply.pict] + [])[1] == reply.pict;
        GetPictures(n, reply);
      }
    }

    lemma NoHandles(w: Win)
      requires HandleSet(w) == {}
      ensures w.damage == w.pixmap == w.pict == w.shadow == w.shape == 0
    {
      assert w.damage in HandleSet(w) || w.damage == 0;
      assert w.pixmap in HandleSet(w) || w.pixmap == 0;
      assert w.pict in HandleSet(w) || w.pict == 0;
      assert w.shadow in HandleSet(w) || w.shadow == 0;
      assert w.shape in HandleSet(w) || w.shape == 0;
    }

    /** CreateNotify. */
    method OnCreate(id: int, isCanvas: bool, visible: bool, viewable: bool, redirected: bool, kind: Kind, offscreen: bool,
                    damage: Handle, shape: Handle, reply: PictureReply, tree: TreeReply)
      requires Valid() && damage != 0 && FreshReply(reply, [damage, shape])
      modifies this`wins, this`live, this`made, this`gone
      ensures Valid()
      ensures var entry := NewEntry(id, viewable, redirected, kind, offscreen, damage, shape, reply);
              var has := exists w :: w in old(wins) && w.id == id && !w.isGhost;
              wins == RestackedBy(old(wins) + if isCanvas || !visible || has then [] else [entry], tree)
    {
      hide Entries, Owners, Holds, OwnsAll, UniqueIds, GhostsUndamaged, Balanced, RestackedBy, HandleSet, Table.Pictured;
      var added := AddWindow(id, isCanvas, visible, viewable, redirected, kind, offscreen, damage, shape, reply);
      assert old(wins) + [] == old(wins);
      Restack(tree);
    }

    /** MapNotify. */
    method OnMap(id: int, kind: Kind, shape: Handle, reply: PictureReply, tree: TreeReply) returns (ghost i: int)
      requires Valid() && FreshReply(reply, [shape])
      modifies this`wins, this`live, this`made, this`gone
      ensures Valid() && IsOwn(old(wins), id, i)
      ensures i < 0 ==> wins == old(wins) && live == old(live)
      ensures i >= 0 ==>
        var w := old(wins)[i].(mapped := true, kind := kind, shape := shape);
        wins == RestackedBy(old(wins)[i := Pictured(w, reply)], tree)
      ensures live <= old(live) + Some(shape) + Made(reply)
    {
      hide Entries, Owners, Holds, OwnsAll, UniqueIds, GhostsUndamaged, RestackedBy, Balanced;
      var at := Find(id);
      i := at;
      if at < 0 { return; }
      ReplyApart(reply, shape);
      SetState(at, wins[at].(mapped := true, kind := kind));
      assert [shape][0] == shape;
      GetShape(at, shape);
      GetPictures(at, reply);
      assert wins == old(wins)[i := Pictured(old(wins)[i].(mapped := true, kind := kind, shape := shape), reply)];
      Restack(tree);
    }

    lemma ReplyApart(reply: PictureReply, shape: Handle)
      requires FreshReply(reply, [shape])
      ensures shape !in live && Fresh([shape])
      ensures reply.Named? ==> reply.pixmap !in live + {shape} && reply.pict !in live + {shape} &&
                               reply.pixmap != reply.pict && reply.pixmap != 0 && reply.pict != 0
    {
      if reply.Named? {
        var hs := [reply.pixmap, reply.pict] + [shape];
        assert hs[0] == reply.pixmap && hs[1] == reply.pict && hs[2] == shape;
      } else {
        assert [shape][0] == shape;
      }
    }

    /** An entry's flags change; what it owns does not. */
    method SetState(i: nat, w: Win)
      requires Valid() && i < |wins| && w.id == wins[i].id && w.isGhost == wins[i].isGhost
      requires w.damage == wins[i].damage && w.pixmap == wins[i].pixmap && w.pict == wins[i].pict &&
               w.shadow == wins[i].shadow && w.shape == wins[i].shape
      modifies this`wins
      ensures Valid() && wins == old(wins)[i := w]
    {
      ghost var kept := live;
      OwnsAfterExchange(wins, live, i, w, {}, {});
      assert live - {} + {} == live;
      var next := wins[i := w];
      forall id ensures |Entries(next, id, false)| <= 1 {
        EntriesUpdate(wins, i, w, id, false);
      }
      wins := wins[i := w];
    }

    /** UnmapNotify: the window goes, with a ghost to fade out where windows are animated, else without its picture. */
    method OnUnmap(id: int, wantOpen: bool, tree: TreeReply) returns (ghost i: int)
      requires Valid()
      modifies this`wins, this`live, this`made, this`gone
      ensures Valid() && IsOwn(old(wins), id, i)
      ensures i < 0 ==> wins == old(wins) && live == old(live)
      ensures i >= 0 ==>
        var w := old(wins)[i].(mapped := false);
        if wantOpen && !w.kind.Plain? && w.pict != 0 && !w.offscreen
        then wins == RestackedBy(old(wins)[i := Drained(w)] + [GhostOf(w)], tree) && live == old(live)
        else wins == old(wins)[i := w.(pict := 0, pixmap := 0)] && live == old(live) - Some(w.pict) - Some(w.pixmap)
    {
      hide Entries, Owners, Holds, OwnsAll, UniqueIds, GhostsUndamaged, RestackedBy, Balanced;
      var at := Find(id);
      i := at;
      if at < 0 { return; }
      SetState(at, wins[at].(mapped := false));
      if wantOpen && !wins[at].kind.Plain? && wins[at].pict != 0 && !wins[at].offscreen {
        MakeGhost(at);
        ghost var w := old(wins)[i].(mapped := false);
        assert wins == old(wins)[i := Drained(w)] + [GhostOf(w)];
        Restack(tree);
      } else {
        FreePictures(at);
      }
    }

    method GhostIf(i: nat, wanted: bool)
      requires Valid() && i < |wins| && !wins[i].isGhost
      modifies this`wins
      ensures Valid()
      ensures wins == old(wins)[i := if wanted then Drained(old(wins)[i]) else old(wins)[i]]
                      + if wanted then [GhostOf(old(wins)[i])] else []
    {
      hide Entries, Owners, Holds, OwnsAll, UniqueIds, GhostsUndamaged, Balanced, Drained, GhostOf;
      if wanted { MakeGhost(i); }
    }

    /** A window moved is on the screen or off it, and gets a new picture when resized or without one. */
    method PutAt(i: nat, offscreen: bool, resized: bool, reply: PictureReply)
      requires Valid() && i < |wins| && FreshReply(reply, [])
      modifies this`wins, this`live, this`made, this`gone
      ensures Valid() && live <= old(live) + Made(reply)
      ensures var w := old(wins)[i].(offscreen := offscreen);
              wins == old(wins)[i := if (resized || w.pict == 0) && w.mapped then Pictured(w, reply) else w]
    {
      hide Entries, Owners, Holds, OwnsAll, UniqueIds, GhostsUndamaged, Balanced;
      SetState(i, wins[i].(offscreen := offscreen));
      if (resized || wins[i].pict == 0) && wins[i].mapped { GetPictures(i, reply); }
    }

    /** ConfigureNotify: moved, resized, minimized (put off the screen) or restored. */
    method OnConfigure(id: int, offscreen: bool, resized: bool, wantMinimize: bool, reply: PictureReply, tree: TreeReply)
        returns (ghost i: int)
      requires Valid() && FreshReply(reply, [])
      modifies this`wins, this`live, this`made, this`gone
      ensures Valid() && IsOwn(old(wins), id, i)
      ensures i < 0 ==> wins == old(wins) && live == old(live)
      ensures i >= 0 ==>
        var w := old(wins)[i];
        var ghosted := offscreen && !w.offscreen && w.mapped && w.pict != 0 && wantMinimize && w.kind.Framed?;
        var kept := (if ghosted then Drained(w) else w).(offscreen := offscreen);
        var shown := if (resized || kept.pict == 0) && w.mapped then Pictured(kept, reply) else kept;
        wins == RestackedBy(old(wins)[i := shown] + if ghosted then [GhostOf(w)] else [], tree)
      ensures live <= old(live) + Made(reply)
    {
      hide Entries, Owners, Holds, OwnsAll, UniqueIds, GhostsUndamaged, RestackedBy, Balanced;
      var at := Find(id);
      i := at;
      if at < 0 { return; }
      var ghosted := offscreen && !wins[at].offscreen && wins[at].mapped && wins[at].pict != 0 && wantMinimize &&
                     wins[at].kind.Framed?;
      ghost var w := wins[i];
      ghost var kept := (if ghosted then Drained(w) else w).(offscreen := offscreen);
      GhostIf(at, ghosted);
      ghost var tail := if ghosted then [GhostOf(w)] else [];
      PutAt(at, offscreen, resized, reply);
      ghost var shown := if (resized || kept.pict == 0) && w.mapped then Pictured(kept, reply) else kept;
      assert wins == old(wins)[i := shown] + tail;
      Restack(tree);
    }

    /** DestroyNotify: the damage object went with the window, everything else is freed. */
    method OnDestroy(id: int) returns (ghost i: int)
      requires Valid()
      modifies this`wins, this`live, this`made, this`gone
      ensures Valid() && IsOwn(old(wins), id, i)
      ensures i < 0 ==> wins == old(wins) && live == old(live)
      ensures i >= 0 ==> multiset(wins) == multiset(old(wins)) - multiset{old(wins)[i]} && live == old(live) - HandleSet(old(wins)[i])
    {
      hide Entries, Owners, OwnsAll, UniqueIds, GhostsUndamaged, Balanced;
      var at := Find(id);
      i := at;
      if at < 0 { return; }
      DamageGone(at);
      Forget(at);
      DroppedIsRest(old(wins), i);
      assert wins == Dropped(old(wins), i);
    }

    method DamageGone(i: nat)
      requires Valid() && i < |wins|
      modifies this`wins, this`live, this`made, this`gone
      ensures Valid() && wins == old(wins)[i := old(wins)[i].(damage := 0)] && live == old(live) - Some(old(wins)[i].damage)
    {
      OwnedOnce(wins, live, i, wins[i].damage);
      Exchange(i, wins[i].(damage := 0), Some(wins[i].damage), {});
    }

    /** ReparentNotify to another parent: the window is no longer the desktop's. */
    method OnReparentAway(id: int) returns (ghost i: int)
      requires Valid()
      modifies this`wins, this`live, this`made, this`gone
      ensures Valid() && IsOwn(old(wins), id, i)
      ensures i < 0 ==> wins == old(wins) && live == old(live)
      ensures i >= 0 ==> multiset(wins) == multiset(old(wins)) - multiset{old(wins)[i]} && live == old(live) - HandleSet(old(wins)[i])
    {
      var at := Find(id);
      i := at;
      if at < 0 { return; }
      DroppedIsRest(wins, at);
      Forget(at);
    }

    /** ShapeNotify. */
    method OnShape(id: int, shape: Handle) returns (ghost i: int)
      requires Valid() && Fresh([shape])
      modifies this`wins, this`live, this`made, this`gone
      ensures Valid() && IsOwn(old(wins), id, i)
      ensures i < 0 ==> wins == old(wins) && live == old(live)
      ensures i >= 0 ==> wins == old(wins)[i := old(wins)[i].(shape := shape)]
      ensures live <= old(live) + Some(shape)
    {
      var at := Find(id);
      i := at;
      if at >= 0 { GetShape(at, shape); }
    }

    /** PropertyNotify: the window has another kind of frame. */
    method OnKind(id: int, kind: Kind) returns (ghost i: int)
      requires Valid()
      modifies this`wins
      ensures Valid() && IsOwn(old(wins), id, i)
      ensures wins == if i < 0 then old(wins) else old(wins)[i := old(wins)[i].(kind := kind)]
    {
      var at := Find(id);
      i := at;
      if at >= 0 { SetState(at, wins[at].(kind := kind)); }
    }

    /** A shadow made again for an entry that is drawn. */
    method DrawShadow(i: nat, shadow: Handle)
      requires Valid() && i < |wins| && Fresh([shadow])
      modifies this`wins, this`live, this`made, this`gone
      ensures Valid() && wins == old(wins)[i := old(wins)[i].(shadow := shadow)]
      ensures live == old(live) - Some(old(wins)[i].shadow) + Some(shadow)
    {
      assert [shadow][0] == shadow;
      OwnedOnce(wins, live, i, wins[i].shadow);
      OwnedOnce(wins, live, i, shadow);
      Exchange(i, wins[i].(shadow := shadow), Some(wins[i].shadow), Some(shadow));
    }

    /** A full-screen window X is to draw itself gives its picture up. */
    method MakeDirect(i: nat)
      requires Valid() && i < |wins| && !wins[i].isGhost
      modifies this
      ensures Valid() && wins == old(wins)[i := old(wins)[i].(pict := 0, pixmap := 0)] && direct == wins[i].id
      ensures live <= old(live)
    {
      FreePictures(i);
      direct := wins[i].id;
    }

    /** X no longer draws a window itself: its picture is asked for again. */
    method EndDirect(redirected: bool, reply: PictureReply) returns (ghost i: int)
      requires Valid() && FreshReply(reply, [])
      modifies this
      ensures Valid() && direct == 0 && IsOwn(old(wins), old(direct), i)
      ensures wins == if i < 0 then old(wins) else old(wins)[i := Pictured(old(wins)[i].(managed := redirected), reply)]
      ensures live <= old(live) + Made(reply)
    {
      hide Entries, Owners, Holds, OwnsAll, UniqueIds, GhostsUndamaged, Balanced;
      var at := Find(direct);
      i := at;
      direct := 0;
      if at < 0 { return; }
      SetState(at, wins[at].(managed := redirected));
      GetPictures(at, reply);
    }

    /** The desktop is gone, its windows' damage objects with it: the table is emptied and nothing is kept. */
    method Detach()
      requires Valid()
      modifies this
      ensures Valid() && wins == [] && live == {} && direct == 0 && made == gone
    {
      while |wins| > 0
        invariant Valid()
        decreases |wins|
      {
        DamageGone(0);
        Forget(0);
      }
      NothingOwned(live);
      direct := 0;
    }

    /** What happens in a painted frame, or to the whole desktop. */
    method InFrame(e: XEvent) returns (ghost i: int)
      requires Valid() && e.Sane() && Fresh(e.Numbers())
      requires e.PaintBegins? || e.GhostOver? || e.Shadowed? || e.MadeDirect? || e.EndedDirect? || e.Detached?
      modifies this
      ensures Valid() && (e.Detached? ==> wins == [] && live == {} && direct == 0 && made == gone)
      ensures !e.MadeDirect? && !e.EndedDirect? && !e.Detached? ==> direct == old(direct)
      ensures e.PaintBegins? ==> wins == RestackedBy(old(wins), e.tree)
      ensures e.GhostOver? ==>
        if e.k < |old(wins)| && old(wins)[e.k].isGhost then wins == Dropped(old(wins), e.k) else wins == old(wins)
      ensures e.Shadowed? ==>
        wins == if e.k < |old(wins)| then old(wins)[e.k := old(wins)[e.k].(shadow := e.shadow)] else old(wins)
      ensures e.MadeDirect? ==>
        if e.k < |old(wins)| && !old(wins)[e.k].isGhost
        then wins == old(wins)[e.k := old(wins)[e.k].(pict := 0, pixmap := 0)] && direct == old(wins)[e.k].id
        else wins == old(wins) && direct == old(direct)
      ensures e.EndedDirect? ==>
        && direct == 0 && -1 <= i < |old(wins)|
        && (i >= 0 ==> old(wins)[i].id == old(direct) && !old(wins)[i].isGhost)
        && (i < 0 ==> (forall w :: w in old(wins) ==> w.id != old(direct) || w.isGhost) && wins == old(wins))
        && (i >= 0 ==> wins == old(wins)[i := Pictured(old(wins)[i].(managed := e.redirected), e.reply)])
    {
      hide Entries, Owners, Holds, OwnsAll, UniqueIds, GhostsUndamaged, RestackedBy, Balanced, Drained, GhostOf, Dropped, HandleSet, Table.NewEntry, Table.Pictured, Table.Valid, Restacked;
      i := -1;
      match e
      case PaintBegins(tree) => Restack(tree);
      case GhostOver(k) => if k < |wins| && wins[k].isGhost { Forget(k); }
      case Shadowed(k, shadow) => if k < |wins| { DrawShadow(k, shadow); }
      case MadeDirect(k) => if k < |wins| && !wins[k].isGhost { MakeDirect(k); }
      case EndedDirect(redirected, reply) =>
        OfReply(reply, []);
        i := EndDirect(redirected, reply);
      case Detached => Detach();
    }

    /** An event about one window. */
    method OfWindow(e: XEvent) returns (ghost i: int)
      requires Valid() && e.Sane() && Fresh(e.Numbers())
      requires e.Created? || e.Mapped? || e.Unmapped? || e.Configured? || e.Destroyed? || e.Reparented? || e.Shaped? || e.KindChanged?
      modifies this
      ensures Valid() && direct == old(direct)
      ensures e.Mapped? || e.Unmapped? || e.Configured? || e.Destroyed? || e.Reparented? || e.Shaped? || e.KindChanged? ==>
        && -1 <= i < |old(wins)|
        && (i >= 0 ==> old(wins)[i].id == e.id && !old(wins)[i].isGhost)
        && (i < 0 ==> (forall w :: w in old(wins) ==> w.id != e.id || w.isGhost) && wins == old(wins))
      ensures e.Created? ==>
        var entry := NewEntry(e.id, e.viewable, e.redirected, e.kind, e.offscreen, e.damage, e.shape, e.reply);
        var has := exists w :: w in old(wins) && w.id == e.id && !w.isGhost;
        wins == RestackedBy(old(wins) + if e.isCanvas || !e.visible || has then [] else [entry], e.tree)
      ensures e.Mapped? && i >= 0 ==>
        var w := old(wins)[i].(mapped := true, kind := e.kind, shape := e.shape);
        wins == RestackedBy(old(wins)[i := Pictured(w, e.reply)], e.tree)
      ensures e.Unmapped? && i >= 0 ==>
        var w := old(wins)[i].(mapped := false);
        wins == if e.wantOpen && w.kind != Plain && w.pict != 0 && !w.offscreen
                then RestackedBy(old(wins)[i := Drained(w)] + [GhostOf(w)], e.tree)
                else old(wins)[i := w.(pict := 0, pixmap := 0)]
      ensures e.Configured? && i >= 0 ==>
        var w := old(wins)[i];
        var ghosted := e.offscreen && !w.offscreen && w.mapped && w.pict != 0 && e.wantMinimize && w.kind == Framed;
        var kept := (if ghosted then Drained(w) else w).(offscreen := e.offscreen);
        var shown := if (e.resized || kept.pict == 0) && w.mapped then Pictured(kept, e.reply) else kept;
        wins == RestackedBy(old(wins)[i := shown] + if ghosted then [GhostOf(w)] else [], e.tree)
      ensures (e.Destroyed? || e.Reparented?) && i >= 0 ==>
        multiset(wins) == multiset(old(wins)) - multiset{old(wins)[i]} && live == old(live) - HandleSet(old(wins)[i])
      ensures e.Shaped? && i >= 0 ==> wins == old(wins)[i := old(wins)[i].(shape := e.shape)]
      ensures e.KindChanged? && i >= 0 ==> wins == old(wins)[i := old(wins)[i].(kind := e.kind)]
    {
      hide Entries, Owners, Holds, OwnsAll, UniqueIds, GhostsUndamaged, RestackedBy, Balanced, Drained, GhostOf, Dropped, HandleSet, Table.NewEntry, Table.Pictured, Table.Valid, Restacked;
      i := -1;
      match e
      case Created(id, isCanvas, visible, viewable, redirected, kind, offscreen, damage, shape, reply, tree) =>
        OfReply(reply, [damage, shape]);
        OnCreate(id, isCanvas, visible, viewable, redirected, kind, offscreen, damage, shape, reply, tree);
      case Mapped(id, kind, shape, reply, tree) =>
        OfReply(reply, [shape]);
        i := OnMap(id, kind, shape, reply, tree);
      case Unmapped(id, wantOpen, tree) => i := OnUnmap(id, wantOpen, tree);
      case Configured(id, offscreen, resized, wantMinimize, reply, tree) =>
        OfReply(reply, []);
        i := OnConfigure(id, offscreen, resized, wantMinimize, reply, tree);
      case Destroyed(id) => i := OnDestroy(id);
      case Reparented(id) => i := OnReparentAway(id);
      case Shaped(id, shape) => i := OnShape(id, shape);
      case KindChanged(id, kind) => i := OnKind(id, kind);
    }

    /** One event or one pass of the compositor's own, for what X answered. `i` is the entry of the window the event is
      about, its own, or -1. */
    method Happen(e: XEvent) returns (ghost i: int)
      requires Valid() && e.Sane() && Fresh(e.Numbers())
      modifies this
      ensures Valid() && (e.Detached? ==> wins == [] && live == {} && direct == 0 && made == gone)
      ensures !e.MadeDirect? && !e.EndedDirect? && !e.Detached? ==> direct == old(direct)
      ensures e.Mapped? || e.Unmapped? || e.Configured? || e.Destroyed? || e.Reparented? || e.Shaped? || e.KindChanged? ==>
        && -1 <= i < |old(wins)|
        && (i >= 0 ==> old(wins)[i].id == e.id && !old(wins)[i].isGhost)
        && (i < 0 ==> (forall w :: w in old(wins) ==> w.id != e.id || w.isGhost) && wins == old(wins))
      ensures e.Created? ==>
        var entry := NewEntry(e.id, e.viewable, e.redirected, e.kind, e.offscreen, e.damage, e.shape, e.reply);
        var has := exists w :: w in old(wins) && w.id == e.id && !w.isGhost;
        wins == RestackedBy(old(wins) + if e.isCanvas || !e.visible || has then [] else [entry], e.tree)
      ensures e.Mapped? && i >= 0 ==>
        var w := old(wins)[i].(mapped := true, kind := e.kind, shape := e.shape);
        wins == RestackedBy(old(wins)[i := Pictured(w, e.reply)], e.tree)
      ensures e.Unmapped? && i >= 0 ==>
        var w := old(wins)[i].(mapped := false);
        wins == if e.wantOpen && w.kind != Plain && w.pict != 0 && !w.offscreen
                then RestackedBy(old(wins)[i := Drained(w)] + [GhostOf(w)], e.tree)
                else old(wins)[i := w.(pict := 0, pixmap := 0)]
      ensures e.Configured? && i >= 0 ==>
        var w := old(wins)[i];
        var ghosted := e.offscreen && !w.offscreen && w.mapped && w.pict != 0 && e.wantMinimize && w.kind == Framed;
        var kept := (if ghosted then Drained(w) else w).(offscreen := e.offscreen);
        var shown := if (e.resized || kept.pict == 0) && w.mapped then Pictured(kept, e.reply) else kept;
        wins == RestackedBy(old(wins)[i := shown] + if ghosted then [GhostOf(w)] else [], e.tree)
      ensures (e.Destroyed? || e.Reparented?) && i >= 0 ==>
        multiset(wins) == multiset(old(wins)) - multiset{old(wins)[i]} && live == old(live) - HandleSet(old(wins)[i])
      ensures e.Shaped? && i >= 0 ==> wins == old(wins)[i := old(wins)[i].(shape := e.shape)]
      ensures e.KindChanged? && i >= 0 ==> wins == old(wins)[i := old(wins)[i].(kind := e.kind)]
      ensures e.PaintBegins? ==> wins == RestackedBy(old(wins), e.tree)
      ensures e.GhostOver? ==>
        if e.k < |old(wins)| && old(wins)[e.k].isGhost then wins == Dropped(old(wins), e.k) else wins == old(wins)
      ensures e.Shadowed? ==>
        wins == if e.k < |old(wins)| then old(wins)[e.k := old(wins)[e.k].(shadow := e.shadow)] else old(wins)
      ensures e.MadeDirect? ==>
        if e.k < |old(wins)| && !old(wins)[e.k].isGhost
        then wins == old(wins)[e.k := old(wins)[e.k].(pict := 0, pixmap := 0)] && direct == old(wins)[e.k].id
        else wins == old(wins) && direct == old(direct)
      ensures e.EndedDirect? ==>
        && direct == 0 && -1 <= i < |old(wins)|
        && (i >= 0 ==> old(wins)[i].id == old(direct) && !old(wins)[i].isGhost)
        && (i < 0 ==> (forall w :: w in old(wins) ==> w.id != old(direct) || w.isGhost) && wins == old(wins))
        && (i >= 0 ==> wins == old(wins)[i := Pictured(old(wins)[i].(managed := e.redirected), e.reply)])
    {
      hide Entries, Owners, Holds, OwnsAll, UniqueIds, GhostsUndamaged, RestackedBy, Balanced, Drained, GhostOf, Dropped, HandleSet, Table.NewEntry, Table.Pictured, Table.Valid, Restacked;
      if e.Created? || e.Mapped? || e.Unmapped? || e.Configured? || e.Destroyed? || e.Reparented? || e.Shaped? || e.KindChanged? {
        i := OfWindow(e);
      } else {
        i := InFrame(e);
      }
    }

    lemma OfReply(reply: PictureReply, others: seq<Handle>)
      requires reply.Sane() && Fresh(reply.Numbers() + others)
      ensures FreshReply(reply, others)
      ensures forall h :: h in Made(reply) ==> h in reply.Numbers() + others
      ensures forall h :: h in others ==> h in reply.Numbers() + others
    {
      assert reply.Numbers() + others == if reply.Named? then [reply.pixmap, reply.pict] + others else others;
    }

    /** X can give these numbers now: none of them is in use. */
    predicate CanGive(e: XEvent)
      reads this
    {
      e.Sane() && Fresh(e.Numbers())
    }

    /** Over any run, each window keeps at most one entry of its own, ghosts hold no damage object, everything there is
      is owned by just one entry, and each number went once for every time it was made, but for those in use. A number
      may be given again once it is free; what X could not give does not happen. */
    method HappenAll(es: seq<XEvent>)
      requires Valid()
      modifies this
      ensures Valid()
    {
      hide Valid, XEvent.Numbers, XEvent.Sane, Table.Fresh;
      for n := 0 to |es|
        invariant Valid()
      {
        if CanGive(es[n]) { ghost var i := Happen(es[n]); }
      }
    }

    lemma NothingOwned(live: set<Handle>)
      requires OwnsAll([], live)
      ensures live == {}
    {
      forall h ensures h !in live {
        if h != 0 { assert Owners([], h) == 0; }
      }
    }

    method TakeDamage(n: nat, damage: Handle, kind: Kind)
      requires Valid() && n < |wins| && !wins[n].isGhost && wins[n].damage == 0 && damage != 0 && damage !in live
      modifies this`wins, this`live, this`made, this`gone
      ensures Valid() && wins == old(wins)[n := old(wins)[n].(damage := damage, kind := kind)]
      ensures live == old(live) + {damage}
    {
      OwnedOnce(wins, live, n, damage);
      Exchange(n, wins[n].(damage := damage, kind := kind), {}, {damage});
    }

    /** The entry a window gets when it appears. */
    function NewEntry(id: int, viewable: bool, redirected: bool, kind: Kind, offscreen: bool,
                      damage: Handle, shape: Handle, reply: PictureReply): Win
      reads this`direct
    {
      var bare := Win(id, false, viewable, redirected, Plain, offscreen, 0, 0, 0, 0, 0);
      if redirected then Pictured(bare.(damage := damage, kind := kind, shape := shape), reply) else bare
    }

    lemma FreshApart(reply: PictureReply, damage: Handle, shape: Handle)
      requires damage != 0 && FreshReply(reply, [damage, shape])
      ensures damage !in live && shape !in live && damage != shape
      ensures reply.Named? ==> reply.pixmap !in live && reply.pict !in live && reply.pixmap != reply.pict &&
                               {reply.pixmap, reply.pict} !! {damage, shape}
    {
      if reply.Named? {
        var hs := [reply.pixmap, reply.pict] + [damage, shape];
        assert hs[0] == reply.pixmap && hs[1] == reply.pict && hs[2] == damage && hs[3] == shape;
      } else {
        var hs := [damage, shape];
        assert hs[0] == damage && hs[1] == shape;
      }
    }
  }

  lemma GroupedNext(wins: seq<Win>, children: seq<int>, i: nat)
    requires i < |children|
    ensures Grouped(wins, children[..i + 1]) ==
            Grouped(wins, children[..i]) + if children[i] in children[..i] then [] else Group(wins, children[i])
    ensures forall id :: id in children[..i + 1] <==> id in children[..i] || id == children[i]
  {
    assert children[..i + 1][..i] == children[..i];
    assert children[..i + 1] == children[..i] + [children[i]];
  }

  lemma OthersNext(wins: seq<Win>, children: seq<int>, j: nat)
    requires j < |wins|
    ensures Others(wins[..j + 1], children) == Others(wins[..j], children) + if wins[j].id in children then [] else [wins[j]]
  {
    assert wins[..j + 1][..j] == wins[..j];
  }

  method SortByChildren(wins: seq<Win>, children: seq<int>) returns (sorted: seq<Win>)
    ensures sorted == Restacked(wins, children)
  {
    var used := new bool[|wins|](_ => false);
    sorted := [];
    var i := 0;
    hide Entries, Grouped, Group, Others;
    assert Grouped(wins, children[..0]) == [] by { GroupedNone(wins); }
    while i < |children|
      invariant 0 <= i <= |children| && sorted == Grouped(wins, children[..i])
      invariant forall j :: 0 <= j < |wins| ==> (used[j] <==> wins[j].id in children[..i])
    {
      var id := children[i];
      ghost var before := sorted;
      sorted := AddEntries(wins, used, id, false, sorted, children[..i]);
      sorted := AddEntries(wins, used, id, true, sorted, children[..i]);
      GroupAdded(wins, children, i, before, sorted);
      i := i + 1;
    }
    assert children[..i] == children;
    sorted := AddOthers(wins, used, sorted, children);
  }

  lemma GroupAdded(wins: seq<Win>, children: seq<int>, i: nat, before: seq<Win>, after: seq<Win>)
    requires i < |children| && before == Grouped(wins, children[..i])
    requires var again, id := children[i] in children[..i], children[i];
             after == before + (if again then [] else Entries(wins, id, false)) + (if again then [] else Entries(wins, id, true))
    ensures after == Grouped(wins, children[..i + 1])
    ensures forall id :: id in children[..i + 1] <==> id in children[..i] || id == children[i]
  {
    GroupedNext(wins, children, i);
    hide Entries, Grouped;
    var a, b := Entries(wins, children[i], false), Entries(wins, children[i], true);
    assert before + a + b == before + (a + b);
    assert before + [] + [] == before + [];
  }

  lemma GroupedNone(wins: seq<Win>)
    ensures Grouped(wins, []) == []
  {
  }

  /** What no child took, in table order. */
  method AddOthers(wins: seq<Win>, used: array<bool>, sorted: seq<Win>, ghost children: seq<int>) returns (more: seq<Win>)
    requires used.Length == |wins| && forall j :: 0 <= j < |wins| ==> (used[j] <==> wins[j].id in children)
    ensures more == sorted + Others(wins, children)
  {
    more := sorted;
    var j := 0;
    while j < |wins|
      invariant 0 <= j <= |wins| && more == sorted + Others(wins[..j], children)
    {
      OthersNext(wins, children, j);
      if !used[j] { more := more + [wins[j]]; }
      j := j + 1;
    }
    assert wins[..j] == wins;
  }

  /** One of the two passes for a child: its window's entries, or its ghosts, unless a child of the same name took them. */
  method AddEntries(wins: seq<Win>, used: array<bool>, id: int, ghosts: bool, sorted: seq<Win>, ghost before: seq<int>)
      returns (more: seq<Win>)
    requires used.Length == |wins|
    requires forall j :: 0 <= j < |wins| && wins[j].isGhost == ghosts && wins[j].id == id ==> (used[j] <==> id in before)
    modifies used
    ensures more == sorted + if id in before then [] else Entries(wins, id, ghosts)
    ensures forall j :: 0 <= j < |wins| ==>
      used[j] == (old(used[j]) || (wins[j].id == id && wins[j].isGhost == ghosts))
  {
    more := sorted;
    var j := 0;
    while j < |wins|
      invariant 0 <= j <= |wins|
      invariant more == sorted + if id in before then [] else Entries(wins[..j], id, ghosts)
      invariant forall k :: 0 <= k < |wins| ==>
        used[k] == (old(used[k]) || (k < j && wins[k].id == id && wins[k].isGhost == ghosts))
    {
      assert wins[..j + 1][..j] == wins[..j];
      if !used[j] && wins[j].isGhost == ghosts && wins[j].id == id {
        more := more + [wins[j]];
        used[j] := true;
      }
      j := j + 1;
    }
    assert wins[..j] == wins;
  }
}
