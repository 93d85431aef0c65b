/** The split of a picture into its panes of glass (`make_panes` in sg-deskcomp.c).

  A picture of `w` columns is stored row by row. A pixel is lead (dark) or glass; a pane is a
  4-connected region of glass. The source fills one pane after another from its first pixel,
  with an explicit stack, and writes the pane's number over the pixels in place.
 */
module PaneFill {
  import opened Raster

  /** The label of a glass pixel no pane has taken yet; and the most panes there are. */
  const GLASS := 0xffff
  const MAX_PANES := 0xfffe

  /** The source's luminance threshold, and its weights for red, green and blue. */
  const LEAD_BELOW := 56

  datatype Color = Color(red: nat, green: nat, blue: nat)

  function Luminance(c: Color): nat {
    (c.red * 3 + c.green * 6 + c.blue) / 10
  }

  // ----- glass, neighbours, and what a pane is

  predicate Adjacent(w: nat, p: int, q: int)
    requires w > 0
  {
    || (p / w == q / w && (p % w == q % w + 1 || q % w == p % w + 1))
    || (p % w == q % w && (p / w == q / w + 1 || q / w == p / w + 1))
  }

  ghost predicate GlassAt(glass: seq<bool>, p: int) {
    0 <= p < |glass| && glass[p]
  }

  ghost predicate GlassPath(glass: seq<bool>, w: nat, path: seq<int>)
    requires w > 0
  {
    && (forall k :: 0 <= k < |path| ==> GlassAt(glass, path[k]))
    && (forall k :: 0 < k < |path| ==> Adjacent(w, path[k - 1], path[k]))
  }

  ghost predicate PathJoins(glass: seq<bool>, w: nat, path: seq<int>, p: int, q: int)
    requires w > 0
  {
    path != [] && path[0] == p && path[|path| - 1] == q && GlassPath(glass, w, path)
  }

  /** A 4-connected path of glass leads from one pixel to the other. */
  ghost predicate Joined(glass: seq<bool>, w: nat, p: int, q: int)
    requires w > 0
  {
    exists path: seq<int> :: PathJoins(glass, w, path, p, q)
  }

  lemma JoinedSelf(glass: seq<bool>, w: nat, p: int)
    requires w > 0 && GlassAt(glass, p)
    ensures Joined(glass, w, p, p)
  {
    assert PathJoins(glass, w, [p], p, p);
  }

  lemma JoinedStep(glass: seq<bool>, w: nat, p: int, q: int, r: int)
    requires w > 0 && Joined(glass, w, p, q) && GlassAt(glass, r) && Adjacent(w, q, r)
    ensures Joined(glass, w, p, r)
  {
    var path :| PathJoins(glass, w, path, p, q);
    assert PathJoins(glass, w, path + [r], p, r);
  }

  lemma JoinedSymmetric(glass: seq<bool>, w: nat, p: int, q: int)
    requires w > 0 && Joined(glass, w, p, q)
    ensures Joined(glass, w, q, p)
  {
    var path :| PathJoins(glass, w, path, p, q);
    var back := seq(|path|, k requires 0 <= k < |path| => path[|path| - 1 - k]);
    assert PathJoins(glass, w, back, q, p) by {
      forall k | 0 < k < |back| ensures Adjacent(w, back[k - 1], back[k]) {
        assert Adjacent(w, path[|path| - 1 - k], path[|path| - k]);
      }
    }
  }

  lemma JoinedTransitive(glass: seq<bool>, w: nat, p: int, q: int, r: int)
    requires w > 0 && Joined(glass, w, p, q) && Joined(glass, w, q, r)
    ensures Joined(glass, w, p, r)
  {
    var path :| PathJoins(glass, w, path, p, q);
    var rest :| PathJoins(glass, w, rest, q, r);
    var whole := path + rest[1..];
    assert PathJoins(glass, w, whole, p, r) by {
      forall k | 0 < k < |whole| ensures Adjacent(w, whole[k - 1], whole[k]) {
        if k >= |path| {
          assert whole[k] == rest[k - |path| + 1] && whole[k - 1] == rest[k - |path|];
        }
      }
    }
  }

  /** Glass joined is what is reached from one pixel by steps between neighbours of glass, and no more. */
  lemma JoinedIsLeast(glass: seq<bool>, w: nat, p: int, q: int, reached: set<int>)
    requires w > 0 && Joined(glass, w, p, q) && p in reached
    requires forall a, b {:trigger Adjacent(w, a, b)} :: a in reached && GlassAt(glass, b) && Adjacent(w, a, b) ==> b in reached
    ensures GlassAt(glass, p) && GlassAt(glass, q) && q in reached
  {
    var path :| PathJoins(glass, w, path, p, q);
    PathIsReached(glass, w, path, reached, |path| - 1);
  }

  lemma {:induction false} PathIsReached(glass: seq<bool>, w: nat, path: seq<int>, reached: set<int>, k: nat)
    requires w > 0 && k < |path| && GlassPath(glass, w, path) && path[0] in reached
    requires forall a, b {:trigger Adjacent(w, a, b)} :: a in reached && GlassAt(glass, b) && Adjacent(w, a, b) ==> b in reached
    ensures path[k] in reached
  {
    if k > 0 {
      PathIsReached(glass, w, path, reached, k - 1);
      assert GlassAt(glass, path[k]) && Adjacent(w, path[k - 1], path[k]);
    }
  }

  lemma LeftOf(w: nat, h: nat, p: int, q: int)
    requires w > 0 && 0 <= p < w * h && 0 <= q < w * h
    ensures p / w == q / w && p % w == q % w + 1 <==> p % w > 0 && q == p - 1
  {
    RowOf(w, h, p);
    RowOf(w, h, q);
    if p % w > 0 && q == p - 1 { SplitUnique(w, p / w, p % w - 1, q); }
  }

  lemma RightOf(w: nat, h: nat, p: int, q: int)
    requires w > 0 && 0 <= p < w * h && 0 <= q < w * h
    ensures p / w == q / w && q % w == p % w + 1 <==> p % w < w - 1 && q == p + 1
  {
    RowOf(w, h, p);
    RowOf(w, h, q);
    if p % w < w - 1 && q == p + 1 { SplitUnique(w, p / w, p % w + 1, q); }
  }

  lemma Above(w: nat, h: nat, p: int, q: int)
    requires w > 0 && 0 <= p < w * h && 0 <= q < w * h
    ensures p % w == q % w && p / w == q / w + 1 <==> p / w > 0 && q == p - w
  {
    RowOf(w, h, p);
    RowOf(w, h, q);
    assert w * (q / w + 1) == w * (q / w) + w && w * (p / w - 1) == w * (p / w) - w;
    if p / w > 0 && q == p - w { SplitUnique(w, p / w - 1, p % w, q); }
  }

  lemma Below(w: nat, h: nat, p: int, q: int)
    requires w > 0 && 0 <= p < w * h && 0 <= q < w * h
    ensures p % w == q % w && q / w == p / w + 1 <==> p / w < h - 1 && q == p + w
  {
    RowOf(w, h, p);
    RowOf(w, h, q);
    assert w * (p / w + 1) == w * (p / w) + w;
    if p / w < h - 1 && q == p + w { SplitUnique(w, p / w + 1, p % w, q); }
  }

  /** The source's four bounds tests name exactly the neighbours of a pixel. */
  lemma Neighbours(w: nat, h: nat, p: int, q: int)
    requires w > 0 && 0 <= p < w * h && 0 <= q < w * h
    ensures Adjacent(w, p, q) <==>
      || (p % w > 0 && q == p - 1) || (p % w < w - 1 && q == p + 1)
      || (p / w > 0 && q == p - w) || (p / w < h - 1 && q == p + w)
  {
    LeftOf(w, h, p, q);
    RightOf(w, h, p, q);
    Above(w, h, p, q);
    Below(w, h, p, q);
  }

  /** The source's four bounds tests keep the neighbour inside the picture. */
  lemma NeighboursInside(w: nat, h: nat, p: int)
    requires w > 0 && 0 <= p < w * h
    ensures p % w > 0 ==> 0 <= p - 1
    ensures p % w < w - 1 ==> p + 1 < w * h
    ensures p / w > 0 ==> 0 <= p - w
    ensures p / w < h - 1 ==> p + w < w * h
  {
    RowOf(w, h, p);
    StepsInside(w, h, p % w, p / w, p);
  }

  lemma StepsInside(w: nat, h: nat, px: int, py: int, p: int)
    requires 0 <= px < w && 0 <= py < h && p == w * py + px
    ensures (px > 0 ==> 0 <= p - 1) && (px < w - 1 ==> p + 1 < w * h)
    ensures (py > 0 ==> 0 <= p - w) && (py < h - 1 ==> p + w < w * h)
  {
    TimesMonotone(w, 0, py);
    TimesMonotone(w, 1, py);
    TimesMonotone(w, py + 1, h);
    TimesMonotone(w, py + 2, h);
    assert w * (py + 1) == w * py + w && w * (py + 2) == w * py + w + w;
  }

  // ----- what an exact labelling is

  ghost predicate Numbered(glass: seq<bool>, w: nat, pane: seq<int>, first: seq<int>, p: int)
    requires w > 0 && 0 <= p < |pane|
  {
    && 0 <= pane[p] <= |first|
    && (pane[p] > 0 ==> first[pane[p] - 1] <= p && Joined(glass, w, first[pane[p] - 1], p))
    && (pane[p] == 0 ==> |first| == MAX_PANES && first[|first| - 1] < p)
  }

  /** `first[k]` is the first pixel, in row-major order, of pane `k + 1`. Lead keeps 0, every pane is a
    whole connected region of glass, panes are numbered in the order of their first pixels, and glass
    is left out only when all the numbers are spent on panes that start earlier. */
  ghost predicate Exact(glass: seq<bool>, w: nat, pane: seq<int>, first: seq<int>)
    requires w > 0
  {
    && |pane| == |glass|
    && |first| <= MAX_PANES
    && (forall k :: 0 <= k < |first| ==> 0 <= first[k] < |glass| && glass[first[k]] && pane[first[k]] == k + 1)
    && (forall j, k :: 0 <= j < k < |first| ==> first[j] < first[k])
    && (forall p :: 0 <= p < |glass| && !glass[p] ==> pane[p] == 0)
    && (forall p {:trigger GlassAt(glass, p)} :: GlassAt(glass, p) ==> Numbered(glass, w, pane, first, p))
    && (forall p, q {:trigger Joined(glass, w, p, q)} :: Joined(glass, w, p, q) ==>
          0 <= p < |glass| && 0 <= q < |glass| && pane[p] == pane[q])
  }

  lemma {:induction false} PathKeepsLabel(glass: seq<bool>, w: nat, pane: seq<int>, path: seq<int>)
    requires w > 0 && |pane| == |glass| && path != [] && GlassPath(glass, w, path)
    requires forall p, q :: GlassAt(glass, p) && GlassAt(glass, q) && Adjacent(w, p, q) ==> pane[p] == pane[q]
    ensures pane[path[0]] == pane[path[|path| - 1]]
  {
    if |path| > 1 {
      PathKeepsLabel(glass, w, pane, path[1..]);
      assert Adjacent(w, path[0], path[1]);
    }
  }

  lemma JoinedKeepsLabel(glass: seq<bool>, w: nat, pane: seq<int>, p: int, q: int)
    requires w > 0 && |pane| == |glass| && Joined(glass, w, p, q)
    requires forall p, q :: GlassAt(glass, p) && GlassAt(glass, q) && Adjacent(w, p, q) ==> pane[p] == pane[q]
    ensures GlassAt(glass, p) && GlassAt(glass, q) && pane[p] == pane[q]
  {
    var path :| PathJoins(glass, w, path, p, q);
    PathKeepsLabel(glass, w, pane, path);
  }

  /** Two labelled glass pixels share a pane if and only if a path of glass joins them. */
  lemma SharedLabelIffJoined(glass: seq<bool>, w: nat, pane: seq<int>, first: seq<int>, p: int, q: int)
    requires w > 0 && Exact(glass, w, pane, first)
    requires GlassAt(glass, p) && GlassAt(glass, q) && pane[p] > 0
    ensures pane[p] == pane[q] <==> Joined(glass, w, p, q)
  {
    hide Joined;
    if pane[p] == pane[q] {
      JoinedSymmetric(glass, w, first[pane[p] - 1], p);
      JoinedTransitive(glass, w, p, first[pane[p] - 1], q);
    }
  }

  /** With fewer panes than numbers every glass pixel has one; and lead never has. */
  lemma GlassIffLabelled(glass: seq<bool>, w: nat, pane: seq<int>, first: seq<int>, p: int)
    requires w > 0 && Exact(glass, w, pane, first) && |first| < MAX_PANES && 0 <= p < |glass|
    ensures glass[p] <==> pane[p] != 0
  {
    assert glass[p] ==> GlassAt(glass, p);
  }

  /** A pane's first pixel in one exact labelling bounds the same pane's in another. */
  lemma FirstNotBefore(glass: seq<bool>, w: nat, a: seq<int>, fa: seq<int>, b: seq<int>, fb: seq<int>, k: nat)
    requires w > 0 && Exact(glass, w, a, fa) && Exact(glass, w, b, fb)
    requires k < |fa| && k <= |fb| && fa[..k] == fb[..k]
    ensures k < |fb| && fb[k] <= fa[k]
  {
    hide Joined;
    var s := fa[k];
    var m := b[s];
    assert GlassAt(glass, s);
    assert forall j :: 0 <= j < k ==> fa[j] == fa[..k][j] && fb[j] == fb[..k][j];
    assert m > 0 ==> Joined(glass, w, fb[m - 1], s);
    assert m > 0 ==> k <= m - 1;
  }

  lemma {:induction false} FirstPixelsAgree(glass: seq<bool>, w: nat, a: seq<int>, fa: seq<int>, b: seq<int>, fb: seq<int>, k: nat)
    requires w > 0 && Exact(glass, w, a, fa) && Exact(glass, w, b, fb) && k <= |fa|
    ensures k <= |fb| && fa[..k] == fb[..k]
  {
    hide Exact;
    if k > 0 {
      FirstPixelsAgree(glass, w, a, fa, b, fb, k - 1);
      FirstNotBefore(glass, w, a, fa, b, fb, k - 1);
      assert fb[..k - 1] == fa[..k - 1];
      FirstNotBefore(glass, w, b, fb, a, fa, k - 1);
      assert fa[..k] == fa[..k - 1] + [fa[k - 1]];
      assert fb[..k] == fb[..k - 1] + [fb[k - 1]];
    }
  }

  lemma LabelCarriesOver(glass: seq<bool>, w: nat, a: seq<int>, b: seq<int>, first: seq<int>, p: int)
    requires w > 0 && Exact(glass, w, a, first) && Exact(glass, w, b, first) && GlassAt(glass, p) && a[p] > 0
    ensures b[p] == a[p]
  {
    hide Joined;
    assert Joined(glass, w, first[a[p] - 1], p);
  }

  /** The picture alone decides the labelling: there is only one exact one. */
  lemma ExactIsUnique(glass: seq<bool>, w: nat, a: seq<int>, fa: seq<int>, b: seq<int>, fb: seq<int>)
    requires w > 0 && Exact(glass, w, a, fa) && Exact(glass, w, b, fb)
    ensures a == b && fa == fb
  {
    hide Joined;
    FirstPixelsAgree(glass, w, a, fa, b, fb, |fa|);
    FirstPixelsAgree(glass, w, b, fb, a, fa, |fb|);
    assert fa[..|fa|] == fa && fb[..|fb|] == fb;
    forall p | 0 <= p < |glass| ensures a[p] == b[p] {
      if glass[p] {
        assert GlassAt(glass, p);
        if a[p] > 0 { LabelCarriesOver(glass, w, a, b, fa, p); }
        if b[p] > 0 { LabelCarriesOver(glass, w, b, a, fa, p); }
      }
    }
  }

  // ----- the fill itself, in place

  /** The stack holds distinct pixels of the pane being filled. */
  ghost predicate StackOf(stack: seq<int>, pane: seq<int>, n: int) {
    && (forall k :: 0 <= k < |stack| ==> 0 <= stack[k] < |pane| && pane[stack[k]] == n)
    && (forall j, k :: 0 <= j < k < |stack| ==> stack[j] != stack[k])
  }

  /** Distinct pixels, none of them `q`, leave room for `q`. */
  lemma {:induction false} RoomOnStack(stack: seq<int>, size: nat, q: int)
    requires forall k :: 0 <= k < |stack| ==> 0 <= stack[k] < size && stack[k] != q
    requires forall j, k :: 0 <= j < k < |stack| ==> stack[j] != stack[k]
    requires 0 <= q < size
    ensures |stack| < size
  {
    var used := set k | 0 <= k < |stack| :: stack[k];
    DistinctCount(stack);
    var ids := seq(size, i => i);
    DistinctCount(ids);
    var all := set k | 0 <= k < |ids| :: ids[k];
    assert forall k :: 0 <= k < |stack| ==> ids[stack[k]] == stack[k];
    assert ids[q] == q;
    assert used <= all - {q};
    SubsetCount(used, all - {q});
  }

  lemma {:induction false} DistinctCount(s: seq<int>)
    requires forall j, k :: 0 <= j < k < |s| ==> s[j] != s[k]
    ensures |set k | 0 <= k < |s| :: s[k]| == |s|
  {
    if s != [] {
      var t := s[..|s| - 1];
      DistinctCount(t);
      assert (set k | 0 <= k < |s| :: s[k]) == (set k | 0 <= k < |t| :: t[k]) + {s[|s| - 1]};
    }
  }

  lemma {:induction false} SubsetCount<T>(a: set<T>, b: set<T>)
    requires a <= b
    ensures |a| <= |b|
  {
    if a != {} {
      var x :| x in a;
      SubsetCount(a - {x}, b - {x});
    }
  }

  /** The stack grew by pixels that were untaken glass and now have the number `n`; nothing else changed. */
  ghost predicate Grew(was: seq<int>, stackWas: seq<int>, pane: seq<int>, stack: seq<int>, n: int) {
    && |pane| == |was| && |stackWas| <= |stack| && stack[..|stackWas|] == stackWas
    && (forall p :: 0 <= p < |pane| ==> pane[p] == if p in stack[|stackWas|..] then n else was[p])
    && (forall k :: |stackWas| <= k < |stack| ==> 0 <= stack[k] < |pane| && was[stack[k]] == GLASS)
  }

  lemma GrewAgain(p0: seq<int>, s0: seq<int>, p1: seq<int>, s1: seq<int>, p2: seq<int>, s2: seq<int>, n: int)
    requires Grew(p0, s0, p1, s1, n) && Grew(p1, s1, p2, s2, n) && n != GLASS
    ensures Grew(p0, s0, p2, s2, n)
  {
    assert s2[|s0|..] == s1[|s0|..] + s2[|s1|..];
    assert forall k :: |s0| <= k < |s1| ==> s2[k] == s1[k] && s1[k] in s1[|s0|..];
    assert s2[..|s0|] == s2[..|s1|][..|s0|];
  }

  /** One of the four tests: glass no pane has is taken and put on the stack, which has room for it. */
  method Take(inside: bool, pane: array<int>, stack: array<int>, top: nat, n: int, q: int) returns (newTop: nat)
    requires pane != stack && pane.Length == stack.Length && (inside ==> 0 <= q < pane.Length)
    requires top <= stack.Length && n != GLASS && StackOf(stack[..top], pane[..], n)
    modifies pane, stack
    ensures newTop <= stack.Length && StackOf(stack[..newTop], pane[..], n) && (inside ==> pane[q] != GLASS)
    ensures Grew(old(pane[..]), old(stack[..top]), pane[..], stack[..newTop], n)
    ensures forall p :: 0 <= p < pane.Length ==>
      pane[p] == old(pane[p]) || (inside && p == q && old(pane[p]) == GLASS && pane[p] == n)
  {
    newTop := top;
    if inside && pane[q] == GLASS {
      RoomOnStack(stack[..top], pane.Length, q);
      pane[q] := n;
      stack[newTop] := q;
      newTop := newTop + 1;
      assert stack[..newTop] == old(stack[..top]) + [q];
    }
  }

  /** Every pixel of pane `n` that is off the stack has had its neighbours taken. */
  ghost predicate Spread(glass: seq<bool>, w: nat, pane: seq<int>, stack: seq<int>, n: int)
    requires w > 0
  {
    forall p, q {:trigger Adjacent(w, p, q)} ::
      (0 <= p < |pane| && 0 <= q < |pane| && Adjacent(w, p, q) && pane[p] == n && p !in stack) ==> pane[q] != GLASS
  }

  /** How a fill may change the labels: it takes glass joined to its seed, and nothing else. */
  ghost predicate Taken(glass: seq<bool>, w: nat, was: seq<int>, pane: seq<int>, n: int, seed: int)
    requires w > 0
  {
    && |pane| == |was| == |glass|
    && forall p :: 0 <= p < |pane| && pane[p] != was[p] ==>
         was[p] == GLASS && pane[p] == n && glass[p] && Joined(glass, w, seed, p)
  }

  /** The labels while panes are being filled: whole panes have their numbers, the rest of the glass none. */
  ghost predicate Progress(glass: seq<bool>, w: nat, pane: seq<int>, n: nat)
    requires w > 0
  {
    && |pane| == |glass|
    && (forall p :: 0 <= p < |pane| ==> if glass[p] then pane[p] == GLASS || 1 <= pane[p] <= n else pane[p] == 0)
    && (forall p, q {:trigger Adjacent(w, p, q)} ::
          (GlassAt(glass, p) && GlassAt(glass, q) && Adjacent(w, p, q)) ==> pane[p] == pane[q])
  }

  /** The bounds tests of the fill: which of a pixel's four neighbours are in the picture. */
  method BoundsTests(w: nat, h: nat, q: int) returns (left: bool, right: bool, up: bool, down: bool)
    requires w > 0 && 0 <= q < w * h
    ensures (left ==> q >= 1) && (right ==> q + 1 < w * h) && (up ==> q >= w) && (down ==> q + w < w * h)
    ensures forall p {:trigger Adjacent(w, q, p)} :: 0 <= p < w * h ==>
      (Adjacent(w, q, p) <==> (left && p == q - 1) || (right && p == q + 1) || (up && p == q - w) || (down && p == q + w))
  {
    var qx, qy := q % w, q / w;
    left, right, up, down := qx > 0, qx < w - 1, qy > 0, qy < h - 1;
    NeighboursInside(w, h, q);
    forall p | 0 <= p < w * h
      ensures Adjacent(w, q, p) <==>
        (left && p == q - 1) || (right && p == q + 1) || (up && p == q - w) || (down && p == q + w)
    {
      Neighbours(w, h, q, p);
    }
  }

  /** The four tests about pixel `q` take its untaken glass neighbours, and leave none. */
  method TakeNeighbours(pane: array<int>, stack: array<int>, top: nat, w: nat, h: nat, n: int, q: int)
      returns (newTop: nat)
    requires pane != stack && pane.Length == stack.Length == w * h && w > 0 && 0 <= q < pane.Length
    requires top <= stack.Length && n != GLASS && StackOf(stack[..top], pane[..], n)
    modifies pane, stack
    ensures newTop <= stack.Length && StackOf(stack[..newTop], pane[..], n)
    ensures Grew(old(pane[..]), old(stack[..top]), pane[..], stack[..newTop], n)
    ensures forall p :: 0 <= p < pane.Length && Adjacent(w, q, p) ==> pane[p] != GLASS
    ensures forall p :: 0 <= p < pane.Length && pane[p] != old(pane[p]) ==> Adjacent(w, q, p)
  {
    hide Adjacent, Grew, StackOf;
    var left, right, up, down := BoundsTests(w, h, q);
    newTop := top;
    newTop := Take(left, pane, stack, newTop, n, q - 1);
    ghost var p1, s1 := pane[..], stack[..newTop];
    newTop := Take(right, pane, stack, newTop, n, q + 1);
    GrewAgain(old(pane[..]), old(stack[..top]), p1, s1, pane[..], stack[..newTop], n);
    ghost var p2, s2 := pane[..], stack[..newTop];
    newTop := Take(up, pane, stack, newTop, n, q - w);
    GrewAgain(old(pane[..]), old(stack[..top]), p2, s2, pane[..], stack[..newTop], n);
    ghost var p3, s3 := pane[..], stack[..newTop];
    newTop := Take(down, pane, stack, newTop, n, q + w);
    GrewAgain(old(pane[..]), old(stack[..top]), p3, s3, pane[..], stack[..newTop], n);
  }

  /** The glass no pane has. */
  ghost function Untaken(pane: seq<int>): set<int> {
    set p | 0 <= p < |pane| && pane[p] == GLASS
  }

  lemma SpreadStep(glass: seq<bool>, w: nat, p0: seq<int>, s0: seq<int>, q: int, p1: seq<int>, s1: seq<int>, n: int)
    requires w > 0 && n != GLASS && Spread(glass, w, p0, s0 + [q], n) && Grew(p0, s0, p1, s1, n)
    requires forall p :: 0 <= p < |p1| && Adjacent(w, q, p) ==> p1[p] != GLASS
    ensures Spread(glass, w, p1, s1, n)
  {
    hide Adjacent;
    forall p, r | 0 <= p < |p1| && 0 <= r < |p1| && Adjacent(w, p, r) && p1[p] == n && p !in s1
      ensures p1[r] != GLASS
    {
      assert p !in s1[|s0|..] && p !in s1[..|s0|];
      if p != q { assert p !in s0 + [q] && p0[r] != GLASS; }
    }
  }

  lemma TakenStep(glass: seq<bool>, w: nat, was: seq<int>, p0: seq<int>, q: int, p1: seq<int>, n: int, seed: int)
    requires w > 0 && Taken(glass, w, was, p0, n, seed) && 0 <= q < |p0| && p0[q] == n && was[q] != n
    requires |p1| == |p0| && forall p :: 0 <= p < |was| && was[p] == GLASS ==> glass[p]
    requires forall p :: 0 <= p < |p1| && p1[p] != p0[p] ==> Adjacent(w, q, p) && p0[p] == GLASS && p1[p] == n
    ensures Taken(glass, w, was, p1, n, seed)
  {
    hide Adjacent;
    forall p | 0 <= p < |p1| && p1[p] != was[p]
      ensures was[p] == GLASS && p1[p] == n && glass[p] && Joined(glass, w, seed, p)
    {
      if p1[p] != p0[p] {
        JoinedStep(glass, w, seed, q, p);
      }
    }
  }

  lemma UntakenStep(p0: seq<int>, s0: seq<int>, p1: seq<int>, s1: seq<int>, n: int)
    requires Grew(p0, s0, p1, s1, n) && n != GLASS
    ensures if |s1| == |s0| then Untaken(p1) == Untaken(p0) else Untaken(p1) < Untaken(p0)
  {
    assert Untaken(p1) <= Untaken(p0);
    if |s1| > |s0| {
      var x := s1[|s0|];
      assert x in s1[|s0|..] && x in Untaken(p0) && x !in Untaken(p1);
    } else {
      assert p0 == p1;
    }
  }

  /** A fill that ran out of work took the whole pane of its seed. */
  lemma FillComplete(glass: seq<bool>, w: nat, was: seq<int>, pane: seq<int>, n: nat, seed: int)
    requires w > 0 && n >= 1 && n != GLASS && Progress(glass, w, was, n - 1)
    requires Taken(glass, w, was, pane, n, seed) && Spread(glass, w, pane, [], n)
    ensures Progress(glass, w, pane, n)
  {
    forall p, q | GlassAt(glass, p) && GlassAt(glass, q) && Adjacent(w, p, q)
      ensures pane[p] == pane[q]
    {
      assert Adjacent(w, q, p);
      hide Adjacent, Joined;
    }
  }

  lemma FillBegins(glass: seq<bool>, w: nat, was: seq<int>, n: nat, seed: int)
    requires w > 0 && 1 <= n <= MAX_PANES && Progress(glass, w, was, n - 1)
    requires 0 <= seed < |was| && was[seed] == GLASS
    ensures var now := was[seed := n];
            StackOf([seed], now, n) && Taken(glass, w, was, now, n, seed) && Spread(glass, w, now, [seed], n)
  {
    hide Adjacent, Joined;
    ProgressFacts(glass, w, was, n, seed);
    JoinedSelf(glass, w, seed);
  }

  /** The last stacked pixel goes, and its untaken glass neighbours are taken. */
  lemma FillStep(glass: seq<bool>, w: nat, was: seq<int>, p0: seq<int>, s0: seq<int>, q: int, p1: seq<int>,
                 s1: seq<int>, n: nat, seed: int)
    requires w > 0 && 1 <= n <= MAX_PANES && Progress(glass, w, was, n - 1) && 0 <= seed < |was| && was[seed] == GLASS
    requires 0 <= q < |p0| == |was| && p0[q] == n && p0[seed] == n && Grew(p0, s0, p1, s1, n)
    requires Taken(glass, w, was, p0, n, seed) && Spread(glass, w, p0, s0 + [q], n)
    requires forall p :: 0 <= p < |p1| && Adjacent(w, q, p) ==> p1[p] != GLASS
    requires forall p :: 0 <= p < |p1| && p1[p] != p0[p] ==> Adjacent(w, q, p)
    ensures Taken(glass, w, was, p1, n, seed) && Spread(glass, w, p1, s1, n) && p1[seed] == n
    ensures if |s1| == |s0| then Untaken(p1) == Untaken(p0) else Untaken(p1) < Untaken(p0)
  {
    hide Adjacent, Joined, Progress, Taken, Spread, Untaken;
    ProgressFacts(glass, w, was, n, seed);
    SpreadStep(glass, w, p0, s0, q, p1, s1, n);
    TakenStep(glass, w, was, p0, q, p1, n, seed);
    UntakenStep(p0, s0, p1, s1, n);
  }

  /** The pane of `seed`: everything joined to it and nothing else gets the number `n`. */
  method FillPane(pane: array<int>, stack: array<int>, w: nat, h: nat, n: nat, seed: int, ghost glass: seq<bool>)
    requires pane != stack && pane.Length == stack.Length == w * h && w > 0 && 0 <= seed < pane.Length
    requires 1 <= n <= MAX_PANES && Progress(glass, w, pane[..], n - 1) && pane[seed] == GLASS
    modifies pane, stack
    ensures Progress(glass, w, pane[..], n) && Taken(glass, w, old(pane[..]), pane[..], n, seed)
    ensures pane[seed] == n
  {
    hide Adjacent, Joined, Progress, StackOf, Spread, Taken, Grew, Untaken;
    ghost var was := pane[..];
    pane[seed] := n;
    stack[0] := seed;
    var top := 1;
    FillBegins(glass, w, was, n, seed);
    assert stack[..1] == [seed] && pane[..] == was[seed := n];
    while top > 0
      invariant top <= stack.Length && StackOf(stack[..top], pane[..], n)
      invariant Taken(glass, w, was, pane[..], n, seed) && Spread(glass, w, pane[..], stack[..top], n)
      invariant pane[seed] == n
      decreases Untaken(pane[..]), top
    {
      ghost var p0, s0 := pane[..], stack[..top - 1];
      var q := stack[top - 1];
      assert stack[..top] == s0 + [q];
      StackPop(s0, q, p0, n);
      top := TakeNeighbours(pane, stack, top - 1, w, h, n, q);
      FillStep(glass, w, was, p0, s0, q, pane[..], stack[..top], n, seed);
    }
    assert stack[..0] == [];
    FillComplete(glass, w, was, pane[..], n, seed);
  }

  lemma ProgressFacts(glass: seq<bool>, w: nat, was: seq<int>, n: nat, seed: int)
    requires w > 0 && 1 <= n <= MAX_PANES && Progress(glass, w, was, n - 1)
    requires 0 <= seed < |was| && was[seed] == GLASS
    ensures |glass| == |was| && GlassAt(glass, seed)
    ensures forall p :: 0 <= p < |was| ==> was[p] != n && (was[p] == GLASS ==> glass[p])
  {
  }

  lemma StackPop(stack: seq<int>, q: int, pane: seq<int>, n: int)
    requires StackOf(stack + [q], pane, n)
    ensures StackOf(stack, pane, n) && 0 <= q < |pane| && pane[q] == n
  {
    var whole := stack + [q];
    assert whole[|stack|] == q;
    assert forall k :: 0 <= k < |stack| ==> whole[k] == stack[k];
  }

  /** The first pixels found so far, all of them before pixel `i`, and that each pane hangs on its own. */
  ghost predicate Firsts(glass: seq<bool>, w: nat, pane: seq<int>, first: seq<int>, i: int)
    requires w > 0
  {
    && |pane| == |glass|
    && (forall k :: 0 <= k < |first| ==> 0 <= first[k] < i && first[k] < |glass| && glass[first[k]] && pane[first[k]] == k + 1)
    && (forall j, k :: 0 <= j < k < |first| ==> first[j] < first[k])
    && (forall p {:trigger GlassAt(glass, p)} :: GlassAt(glass, p) && 1 <= pane[p] <= |first| ==>
          first[pane[p] - 1] <= p && Joined(glass, w, first[pane[p] - 1], p))
  }

  lemma FirstsStep(glass: seq<bool>, w: nat, was: seq<int>, pane: seq<int>, first: seq<int>, i: int)
    requires w > 0 && 0 <= i < |glass| && |first| < MAX_PANES
    requires Firsts(glass, w, was, first, i) && Progress(glass, w, was, |first|)
    requires Taken(glass, w, was, pane, |first| + 1, i) && pane[i] == |first| + 1 && was[i] == GLASS
    requires forall p :: 0 <= p < i ==> was[p] != GLASS
    ensures Firsts(glass, w, pane, first + [i], i + 1)
    ensures forall p :: 0 <= p < i + 1 ==> pane[p] != GLASS
  {
    hide Joined, Adjacent;
    var grown := first + [i];
    forall p | GlassAt(glass, p) && 1 <= pane[p] <= |grown|
      ensures grown[pane[p] - 1] <= p && Joined(glass, w, grown[pane[p] - 1], p)
    {
      if pane[p] == was[p] { assert grown[pane[p] - 1] == first[pane[p] - 1]; }
    }
  }

  /** What the fill leaves, with untaken glass turned to lead, is the exact labelling. */
  lemma FirstsExact(glass: seq<bool>, w: nat, pane: seq<int>, first: seq<int>, i: int, done: seq<int>)
    requires w > 0 && |first| <= MAX_PANES && 0 <= i <= |glass| && (i < |glass| ==> |first| == MAX_PANES)
    requires Firsts(glass, w, pane, first, i) && Progress(glass, w, pane, |first|)
    requires forall p :: 0 <= p < i ==> pane[p] != GLASS
    requires |done| == |pane| && forall p :: 0 <= p < |pane| ==> done[p] == if pane[p] == GLASS then 0 else pane[p]
    ensures Exact(glass, w, done, first)
  {
    hide Joined, Adjacent;
    forall p, q | Joined(glass, w, p, q)
      ensures 0 <= p < |glass| && 0 <= q < |glass| && done[p] == done[q]
    {
      JoinedKeepsLabel(glass, w, pane, p, q);
    }
    forall p | GlassAt(glass, p) ensures Numbered(glass, w, done, first, p) {
      assert pane[p] == GLASS || 1 <= pane[p] <= |first|;
    }
  }

  /** Fills every pane from its first pixel, in row-major order, until the numbers run out. */
  method FillPanes(pane: array<int>, w: nat, h: nat, ghost glass: seq<bool>) returns (n: nat, ghost first: seq<int>)
    requires w > 0 && pane.Length == w * h == |glass|
    requires forall p :: 0 <= p < pane.Length ==> pane[p] == if glass[p] then GLASS else 0
    modifies pane
    ensures n == |first| && Exact(glass, w, pane[..], first)
  {
    var stack := new int[pane.Length];
    n, first := 0, [];
    var i := 0;
    hide Joined, Adjacent;
    while i < pane.Length && n < MAX_PANES
      invariant 0 <= i <= pane.Length && n == |first| <= MAX_PANES
      invariant Progress(glass, w, pane[..], n) && Firsts(glass, w, pane[..], first, i)
      invariant forall p :: 0 <= p < i ==> pane[p] != GLASS
    {
      if pane[i] == GLASS {
        ghost var was := pane[..];
        n := n + 1;
        FillPane(pane, stack, w, h, n, i, glass);
        FirstsStep(glass, w, was, pane[..], first, i);
        first := first + [i];
      }
      i := i + 1;
    }
    ghost var filled, reached := pane[..], i;
    i := 0;
    while i < pane.Length
      invariant 0 <= i <= pane.Length == |filled|
      invariant forall p :: 0 <= p < i ==> pane[p] == if filled[p] == GLASS then 0 else filled[p]
      invariant forall p :: i <= p < pane.Length ==> pane[p] == filled[p]
    {
      if pane[i] == GLASS { pane[i] := 0; }
      i := i + 1;
    }
    FirstsExact(glass, w, filled, first, reached, pane[..]);
  }

  /** Where the picture is glass. */
  function GlassOf(image: seq<Color>): seq<bool> {
    seq(|image|, i requires 0 <= i < |image| => Luminance(image[i]) >= LEAD_BELOW)
  }

  /** The panes of a picture of `w` columns and `h` rows. */
  method MakePanes(image: seq<Color>, w: nat, h: nat) returns (pane: array<int>, n: nat)
    requires w > 0 && |image| == w * h
    ensures exists first: seq<int> :: n == |first| && Exact(GlassOf(image), w, pane[..], first)
    ensures pane.Length == |image| && n <= 65534
    ensures forall p :: 0 <= p < |image| && 3 * image[p].red + 6 * image[p].green + image[p].blue < 560 ==> pane[p] == 0
    ensures n < 65534 ==> forall p :: 0 <= p < |image| && 3 * image[p].red + 6 * image[p].green + image[p].blue >= 560 ==>
              1 <= pane[p] <= n
    ensures forall p :: 0 <= p < |image| - 1 && p % w < w - 1 && pane[p] != 0 && pane[p + 1] != 0 ==> pane[p] == pane[p + 1]
    ensures forall p :: 0 <= p < |image| - w && pane[p] != 0 && pane[p + w] != 0 ==> pane[p] == pane[p + w]
  {
    pane := new int[|image|];
    var i := 0;
    while i < pane.Length
      invariant 0 <= i <= pane.Length == |image|
      invariant forall p :: 0 <= p < i ==> pane[p] == if GlassOf(image)[p] then GLASS else 0
    {
      pane[i] := if Luminance(image[i]) < LEAD_BELOW then 0 else GLASS;
      i := i + 1;
    }
    ghost var first;
    n, first := FillPanes(pane, w, h, GlassOf(image));
    ByWeights(image);
    hide GlassOf, Luminance, Joined, Adjacent;
    forall p | 0 <= p < |image| && GlassOf(image)[p]
      ensures GlassAt(GlassOf(image), p) && Numbered(GlassOf(image), w, pane[..], first, p)
    {
      assert GlassAt(GlassOf(image), p);
    }
    forall p, q | 0 <= p < |image| && 0 <= q < |image| && (q == p + w || (q == p + 1 && p % w < w - 1)) && pane[p] != 0 && pane[q] != 0
      ensures pane[p] == pane[q]
    {
      NextShares(GlassOf(image), w, h, pane[..], first, p, q);
    }
  }

  lemma ByWeights(image: seq<Color>)
    ensures forall p :: 0 <= p < |image| ==>
              (GlassOf(image)[p] <==> 3 * image[p].red + 6 * image[p].green + image[p].blue >= 560)
  {
  }

  lemma NextShares(glass: seq<bool>, w: nat, h: nat, pane: seq<int>, first: seq<int>, p: int, q: int)
    requires w > 0 && |glass| == w * h && Exact(glass, w, pane, first) && 0 <= p < |pane| && 0 <= q < |pane|
    requires (q == p + w || (q == p + 1 && p % w < w - 1)) && pane[p] != 0 && pane[q] != 0
    ensures pane[p] == pane[q]
  {
    RowOf(w, h, p);
    RowOf(w, h, q);
    if q == p + 1 { RightOf(w, h, p, q); } else { LowerRow(w, h, p, q); Below(w, h, p, q); }
    assert GlassAt(glass, p) && GlassAt(glass, q);
    JoinedSelf(glass, w, p);
    JoinedStep(glass, w, p, p, q);
  }

  lemma LowerRow(w: nat, h: nat, p: int, q: int)
    requires w > 0 && 0 <= p && q == p + w && q < w * h
    ensures p / w < h - 1
  {
    RowOf(w, h, q);
    SplitUnique(w, p / w + 1, p % w, q);
  }
}
