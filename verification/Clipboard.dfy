/** The clipboard between the session and the elevated programs' displays (elevated.c).

  A proxy source stands between two seats: it offers the text of the source it wraps, and goes when that goes.
  A seat's selection is destroyed when it is replaced, its owner goes, or the seat does; whoever wraps a
  destroyed source is told, and its own selection, the proxy, is destroyed in turn.

  Sources and seats are known by number here, and `sources` holds those that exist: an access to one that was
  freed would be an access outside the map.
 */
module Clipboard {

  datatype Maybe<T> = Nothing | Just(value: T)

  /** The session's own seat; every other number is an elevated display's hidden one. */
  const SESSION: nat := 0

  const TEXT_TYPES := [
    "text/plain;charset=utf-8", "text/plain;charset=UTF-8", "text/plain", "UTF8_STRING", "STRING", "TEXT"]

  /** The types that may cross. */
  function Text(types: seq<string>): seq<string> {
    if types == [] then []
    else
      var rest := Text(types[..|types| - 1]);
      if types[|types| - 1] in TEXT_TYPES then rest + [types[|types| - 1]] else rest
  }

  /** One by one: the six text types cross, each as often as it is offered and in that order, and no other. */
  lemma TextOneMore(types: seq<string>, t: string)
    ensures Text([]) == []
    ensures Text(types + [t]) == Text(types)
      + if t == "text/plain;charset=utf-8" || t == "text/plain;charset=UTF-8" || t == "text/plain"
           || t == "UTF8_STRING" || t == "STRING" || t == "TEXT" then [t] else []
  {
    assert (types + [t])[..|types|] == types;
  }

  lemma {:induction false} TextCounts(types: seq<string>, t: string)
    ensures multiset(Text(types))[t] ==
      if t in TEXT_TYPES then multiset(types)[t] else 0
  {
    if types != [] {
      var init, last := types[..|types| - 1], types[|types| - 1];
      TextCounts(init, t);
      assert types == init + [last];
    }
  }

  /** So nothing but text is among it, and it is empty just when there is none. */
  lemma TextIs(types: seq<string>)
    ensures forall t :: t in Text(types) <==> t in types && t in TEXT_TYPES
  {
    forall t
      ensures t in Text(types) <==> t in types && t in TEXT_TYPES
    {
      TextCounts(types, t);
      assert t in Text(types) <==> t in multiset(Text(types));
      assert t in types <==> t in multiset(types);
    }
  }

  /** A source some program offers, or a proxy for one, made for a seat. A proxy's `inner` is nothing once it has
    been told that it is gone. */
  datatype Source =
    | Plain(types: seq<string>)
    | Proxy(types: seq<string>, inner: Maybe<nat>, target: nat)
  {
    /** How many proxies can stand between it and a program's source. */
    function Rank(): nat {
      if Plain? then 0 else if target == SESSION then 1 else 2
    }

    predicate Wraps(s: nat) {
      Proxy? && inner == Just(s)
    }
  }

  /** A proxy wraps a source with fewer proxies under it. */
  ghost predicate Ranked(sources: map<nat, Source>) {
    forall p :: p in sources && sources[p].Proxy? && sources[p].inner.Just? && sources[p].inner.value in sources ==>
      sources[sources[p].inner.value].Rank() < sources[p].Rank()
  }

  /** `q` is the source, or a proxy for it, or a proxy for such a proxy. */
  ghost predicate Hangs(sources: map<nat, Source>, q: nat, s: nat)
    decreases if q in sources then sources[q].Rank() else 0
  {
    q in sources && (q == s || (
      && sources[q].Proxy? && sources[q].inner.Just? && sources[q].inner.value in sources
      && sources[sources[q].inner.value].Rank() < sources[q].Rank()
      && Hangs(sources, sources[q].inner.value, s)))
  }

  /** What is left when a source is destroyed, with all that hangs on it. */
  ghost function Left(sources: map<nat, Source>, s: nat): map<nat, Source> {
    map q | q in sources && !Hangs(sources, q, s) :: sources[q]
  }

  ghost function LeftSelected(selection: map<nat, nat>, left: map<nat, Source>): map<nat, nat> {
    map t | t in selection && selection[t] in left :: selection[t]
  }

  lemma {:induction false} HangsRank(sources: map<nat, Source>, q: nat, s: nat)
    requires Hangs(sources, q, s)
    ensures s in sources && (q == s || sources[q].Rank() > sources[s].Rank())
    decreases if q in sources then sources[q].Rank() else 0
  {
    if q != s { HangsRank(sources, sources[q].inner.value, s); }
  }

  lemma {:induction false} HangsTransitive(sources: map<nat, Source>, q: nat, p: nat, s: nat)
    requires Hangs(sources, q, p) && Hangs(sources, p, s)
    ensures Hangs(sources, q, s)
    decreases if q in sources then sources[q].Rank() else 0
  {
    if q != p { HangsTransitive(sources, sources[q].inner.value, p, s); }
  }

  /** Which sources hang on `p` does not depend on what `p` wraps. */
  lemma {:induction false} HangsOnMuted(sources: map<nat, Source>, q: nat, p: nat)
    requires p in sources && sources[p].Proxy?
    ensures Hangs(sources[p := sources[p].(inner := Nothing)], q, p) <==> Hangs(sources, q, p)
    decreases if q in sources then sources[q].Rank() else 0
  {
    if q in sources && q != p && sources[q].Proxy? && sources[q].inner.Just? && sources[q].inner.value in sources
      && sources[sources[q].inner.value].Rank() < sources[q].Rank() {
      HangsOnMuted(sources, sources[q].inner.value, p);
    }
  }

  /** When fewer sources are left, nothing new hangs on one of them. */
  lemma {:induction false} HangsInMore(some: map<nat, Source>, all: map<nat, Source>, q: nat, s: nat)
    requires forall x :: x in some ==> x in all && all[x] == some[x]
    requires Hangs(some, q, s)
    ensures Hangs(all, q, s)
    decreases if q in some then some[q].Rank() else 0
  {
    if q != s { HangsInMore(some, all, some[q].inner.value, s); }
  }

  /** The proxies but `except` are their seat's selection, what they wrap exists, and no source is two seats'. */
  ghost predicate Linked(sources: map<nat, Source>, selection: map<nat, nat>, except: set<nat>) {
    && Ranked(sources)
    && (forall p :: p in sources && p !in except && sources[p].Proxy? ==>
          && sources[p].inner.Just? && sources[p].inner.value in sources
          && sources[p].target in selection && selection[sources[p].target] == p)
    && (forall t :: t in selection ==> selection[t] in sources)
    && (forall t, u :: t in selection && u in selection && selection[t] == selection[u] ==> t == u)
  }

  /** If `left` is some of the sources, keeps all that do not hang on `s`, and no proxy for `s`, then nothing in it
    hangs on `s` but `s`. */
  lemma {:induction false} NothingHangs(was: map<nat, Source>, left: map<nat, Source>, selection: map<nat, nat>,
                                        except: set<nat>, q: nat, s: nat)
    requires forall x :: x in left ==> x in was && was[x] == left[x]
    requires forall x :: x in left ==> !left[x].Wraps(s)
    requires Linked(left, selection, except + {s}) && forall x :: x in except ==> !Hangs(was, x, s)
    requires q in left && q != s
    ensures !Hangs(was, q, s)
    decreases was[q].Rank()
  {
    if Hangs(was, q, s) {
      NothingHangs(was, left, selection, except, was[q].inner.value, s);
    }
  }

  /** The clipboards at one moment: the sources, each seat's selection if it has one, and the elevated displays'
    seats. */
  datatype Board = Board(sources: map<nat, Source>, selection: map<nat, nat>, seats: set<nat>) {

    /** After a source, with all that hangs on it, is destroyed. */
    ghost function Without(s: nat): Board {
      var left := Left(sources, s);
      Board(left, LeftSelected(selection, left), seats)
    }

    /** After a seat is given a selection, or none: what it had is destroyed. */
    ghost function Chosen(t: nat, src: Maybe<nat>): Board {
      if t in selection && src == Just(selection[t]) then this
      else
        var b := if t in selection then Without(selection[t]) else this;
        if src.Just? then b.(selection := b.selection[t := src.value]) else b
    }

    /** After a source's text is offered to another seat, by a proxy of number `p`. */
    ghost function Offer(p: nat, s: nat, t: nat): Board
      requires s in sources
    {
      var types := Text(sources[s].types);
      if types == [] then this
      else this.(sources := sources[p := Proxy(types, Just(s), t)]).Chosen(t, Just(p))
    }

    predicate Holds(t: nat, s: nat) {
      t in selection && selection[t] == s
    }

    /** The elevated seat has the session's selection already, or the session has this seat's. */
    predicate AlreadyThere(e: nat)
      requires SESSION in selection && forall t :: t in selection ==> selection[t] in sources
    {
      var src := selection[SESSION];
      (e in selection && sources[selection[e]].Wraps(src)) || Echoes(e)
    }

    /** The session's selection is a proxy for this seat's. */
    predicate Echoes(e: nat)
      requires SESSION in selection && selection[SESSION] in sources
    {
      e in selection && sources[selection[SESSION]].Wraps(selection[e])
    }

    /** A session's proxy is for some elevated seat's own source; an elevated seat's is for what the session has. */
    ghost predicate Placed(p: nat)
      requires p in sources && sources[p].Proxy? && sources[p].inner.Just?
    {
      var s := sources[p].inner.value;
      if sources[p].target == SESSION
      then s in sources && sources[s].Plain? && exists e :: e != SESSION && Holds(e, s)
      else Holds(SESSION, s)
    }

    /** The invariant: every proxy is its target seat's selection, is for the selection of another seat, and offers
      that source's text types, at least one. */
    ghost predicate Sound() {
      && Linked(sources, selection, {})
      && SESSION !in seats && (forall t :: t in selection ==> t == SESSION || t in seats)
      && (forall p :: p in sources && sources[p].Proxy? ==>
            Placed(p) && sources[p].types != [] && sources[p].types == Text(sources[sources[p].inner.value].types))
    }
  }

  /** What can happen to the clipboards. Numbers of new sources and proxies come with the event. */
  datatype Event =
    | NewSource(s: nat, types: seq<string>)
    | SourceGone(s: nat)
    | SessionSelects(src: Maybe<nat>)
    | ClipRequest(e: nat, src: Maybe<nat>, p: nat)
    | UserInput(e: nat, p: nat)
    | SeatOpens(e: nat)
    | SeatCloses(e: nat)

  /** A program's source that is nobody's selection yet, the seat's present selection, or nothing. */
  ghost predicate Offerable(b: Board, t: nat, src: Maybe<nat>) {
    src.Just? ==>
      && src.value in b.sources
      && (b.Holds(t, src.value) || (b.sources[src.value].Plain? && forall u :: !b.Holds(u, src.value)))
  }

  ghost predicate CanHappen(b: Board, event: Event) {
    match event
    case NewSource(s, types) => s !in b.sources
    case SourceGone(s) => s in b.sources && b.sources[s].Plain?
    case SessionSelects(src) => Offerable(b, SESSION, src)
    case ClipRequest(e, src, p) => e in b.seats && Offerable(b, e, src) && p !in b.sources
    case UserInput(e, p) => e != SESSION && p !in b.sources
    case SeatOpens(e) => e != SESSION && e !in b.seats
    case SeatCloses(e) => e in b.seats
  }

  /** What can happen at all: a seat selects nothing, what it has, or a program's source that no seat has; a program makes
    or takes back a source of its own; an elevated seat opens, closes, copies, and has input. */
  lemma WhatCanHappen(b: Board, t: nat, s: nat, types: seq<string>, p: nat)
    ensures Offerable(b, t, Nothing)
    ensures Offerable(b, t, Just(s)) <==>
      s in b.sources && ((t in b.selection && b.selection[t] == s) ||
                         (b.sources[s].Plain? && forall u :: u in b.selection ==> b.selection[u] != s))
    ensures forall src :: CanHappen(b, SessionSelects(src)) <==> Offerable(b, 0, src)
    ensures forall src :: CanHappen(b, ClipRequest(t, src, p)) <==> t in b.seats && Offerable(b, t, src) && p !in b.sources
    ensures CanHappen(b, UserInput(t, p)) <==> t != 0 && p !in b.sources
    ensures CanHappen(b, NewSource(s, types)) <==> s !in b.sources
    ensures CanHappen(b, SourceGone(s)) <==> s in b.sources && b.sources[s].Plain?
    ensures CanHappen(b, SeatOpens(t)) <==> t != 0 && t !in b.seats
    ensures CanHappen(b, SeatCloses(t)) <==> t in b.seats
  {
    assert forall u :: b.Holds(u, s) <==> u in b.selection && b.selection[u] == s;
  }

  ghost function Step(b: Board, event: Event): Board
    requires b.Sound() && CanHappen(b, event)
  {
    match event
    case NewSource(s, types) => b.(sources := b.sources[s := Plain(types)])
    case SourceGone(s) => b.Without(s)
    case SessionSelects(src) => b.Chosen(SESSION, src)
    case ClipRequest(e, src, p) =>
      var c := b.Chosen(e, src);
      if src.Just? && src.value in c.sources && c.sources[src.value].Plain? then c.Offer(p, src.value, SESSION) else c
    case UserInput(e, p) =>
      if e in b.seats && SESSION in b.selection && !b.AlreadyThere(e) then b.Offer(p, b.selection[SESSION], e) else b
    case SeatOpens(e) => b.(seats := b.seats + {e})
    case SeatCloses(e) => (if e in b.selection then b.Without(b.selection[e]) else b).(seats := b.seats - {e})
  }

  lemma WithoutSound(b: Board, s: nat)
    requires b.Sound()
    ensures b.Without(s).Sound()
  {
    var c := b.Without(s);
    forall p | p in c.sources && c.sources[p].Proxy?
      ensures c.Placed(p)
    {
      var i := c.sources[p].inner.value;
      assert b.Placed(p) && !Hangs(b.sources, i, s);
      if c.sources[p].target == SESSION {
        var e :| e != SESSION && b.Holds(e, i);
        assert c.Holds(e, i);
      }
    }
  }

  /** What the invariant says of a proxy: it is its seat's selection; the session's is for a program's own source that an
    elevated seat has, an elevated seat's for what the session has; and what it offers is that source's text, all of
    it and nothing else, some. */
  lemma SoundIs(b: Board, p: nat)
    requires b.Sound() && p in b.sources && b.sources[p].Proxy?
    ensures var x := b.sources[p];
            && x.inner.Just? && x.inner.value in b.sources && x.target in b.selection && b.selection[x.target] == p
            && (x.target == 0 ==> b.sources[x.inner.value].Plain?)
            && (x.target == 0 ==> exists e :: e in b.seats && e in b.selection && b.selection[e] == x.inner.value)
            && (x.target != 0 ==> x.target in b.seats && 0 in b.selection && b.selection[0] == x.inner.value)
            && x.types != []
    ensures forall t ::
      multiset(b.sources[p].types)[t] == if t in TEXT_TYPES then multiset(b.sources[b.sources[p].inner.value].types)[t] else 0
  {
    assert b.Placed(p);
    if b.sources[p].target == 0 {
      var e :| e != SESSION && b.Holds(e, b.sources[p].inner.value);
      assert e in b.seats && e in b.selection;
    }
    forall t { TextCounts(b.sources[b.sources[p].inner.value].types, t); }
  }

  /** And of the selections: each is a source there is, of the session or an open seat, and no two are one. */
  lemma SelectionsAre(b: Board, t: nat, u: nat)
    requires b.Sound() && t in b.selection && u in b.selection
    ensures b.selection[t] in b.sources && (t == 0 || t in b.seats) && 0 !in b.seats
    ensures b.selection[t] == b.selection[u] ==> t == u
  {
  }

  /** A source destroyed is gone, and of the others just those proxies whose source is gone; a selection stays with the
    source it is. */
  lemma WithoutIs(b: Board, s: nat, q: nat)
    requires b.Sound() && s in b.sources
    ensures var d := b.Without(s);
            && s !in d.sources && d.seats == b.seats
            && (q in d.sources <==> q in b.sources && q != s && (b.sources[q].Proxy? ==> b.sources[q].inner.value in d.sources))
            && (q in d.sources ==> d.sources[q] == b.sources[q])
            && (q in d.selection <==> q in b.selection && b.selection[q] in d.sources)
            && (q in d.selection ==> d.selection[q] == b.selection[q])
  {
    assert Hangs(b.sources, s, s);
  }

  /** A seat given a source has it, given nothing has nothing, and what it had before, if another, is destroyed. */
  lemma ChosenIs(b: Board, t: nat, src: Maybe<nat>)
    requires b.Sound() && Offerable(b, t, src)
    ensures var d := b.Chosen(t, src);
            && d.seats == b.seats
            && (src.Just? ==> t in d.selection && d.selection[t] == src.value && src.value in d.sources)
            && (src.Nothing? ==> t !in d.selection)
            && (t in b.selection && src != Just(b.selection[t]) ==> d.sources == b.Without(b.selection[t]).sources)
            && (t !in b.selection || src == Just(b.selection[t]) ==> d.sources == b.sources)
  {
    if t in b.selection && src != Just(b.selection[t]) {
      WithoutIs(b, b.selection[t], b.selection[t]);
      if src.Just? { assert b.Holds(t, b.selection[t]); WithoutIs(b, b.selection[t], src.value); }
    }
  }

  /** A copy in an elevated program is its seat's selection, and the session's is then its text, if it has any. */
  lemma ClipRequestBrings(b: Board, e: nat, src: nat, p: nat)
    requires b.Sound() && CanHappen(b, ClipRequest(e, Just(src), p)) && b.sources[src].Plain?
    requires exists t :: t in b.sources[src].types && t in TEXT_TYPES
    ensures var d := Step(b, ClipRequest(e, Just(src), p));
            && e in d.selection && d.selection[e] == src && src in d.sources && d.sources[src] == b.sources[src]
            && 0 in d.selection && d.selection[0] == p && p in d.sources
            && d.sources[p] == Proxy(Text(b.sources[src].types), Just(src), 0)
  {
    var c := b.Chosen(e, Just(src));
    TextIs(b.sources[src].types);
    ChosenSound(b, e, Just(src));
    ChosenOnlyDrops(b, e, Just(src));
    assert c.Holds(e, src);
    OfferIs(c, p, src, 0);
  }

  /** What else can happen does as it says: a new source is there, one that goes goes with all that hangs on it, the
    session selects, a seat opens or closes. */
  lemma StepsAre(b: Board, s: nat, types: seq<string>, src: Maybe<nat>, e: nat)
    requires b.Sound()
    ensures s !in b.sources ==> Step(b, NewSource(s, types)) == Board(b.sources[s := Plain(types)], b.selection, b.seats)
    ensures s in b.sources && b.sources[s].Plain? ==> Step(b, SourceGone(s)) == b.Without(s)
    ensures Offerable(b, 0, src) ==> Step(b, SessionSelects(src)) == b.Chosen(0, src)
    ensures e != 0 && e !in b.seats ==> Step(b, SeatOpens(e)) == Board(b.sources, b.selection, b.seats + {e})
    ensures e in b.seats ==>
      var d := Step(b, SeatCloses(e));
      d.seats == b.seats - {e} && e !in d.selection
      && d.sources == if e in b.selection then b.Without(b.selection[e]).sources else b.sources
  {
    if e in b.selection { WithoutIs(b, b.selection[e], b.selection[e]); WithoutIs(b, b.selection[e], e); }
  }

  /** Every proxy is the session's selection or a proxy for it. */
  lemma ProxiesHangOnTheSession(b: Board, p: nat)
    requires b.Sound() && p in b.sources && b.sources[p].Proxy?
    ensures SESSION in b.selection && Hangs(b.sources, p, b.selection[SESSION])
  {
    assert b.Placed(p);
    if b.sources[p].target != SESSION {
      assert Hangs(b.sources, b.selection[SESSION], b.selection[SESSION]);
    }
  }

  /** The seats without what this one had. */
  ghost function Cleared(b: Board, t: nat): Board {
    if t in b.selection then b.Without(b.selection[t]) else b
  }

  lemma ClearedSound(b: Board, t: nat)
    requires b.Sound()
    ensures Cleared(b, t).Sound() && t !in Cleared(b, t).selection && Cleared(b, t).seats == b.seats
  {
    if t in b.selection { WithoutSound(b, b.selection[t]); }
  }

  /** An idle seat takes a program's source. */
  lemma TakingSound(c: Board, t: nat, s: nat)
    requires c.Sound() && t !in c.selection && (t == SESSION || t in c.seats)
    requires s in c.sources && c.sources[s].Plain? && forall u :: !c.Holds(u, s)
    ensures c.(selection := c.selection[t := s]).Sound()
  {
    var d := c.(selection := c.selection[t := s]);
    forall u | u in c.selection
      ensures c.selection[u] != s
    {
      assert !c.Holds(u, s);
    }
    forall p | p in d.sources && d.sources[p].Proxy?
      ensures d.Placed(p)
    {
      assert c.Placed(p);
      if c.sources[p].target == SESSION {
        var e :| e != SESSION && c.Holds(e, c.sources[p].inner.value);
        assert d.Holds(e, c.sources[p].inner.value);
      }
    }
  }

  /** What `Offerable` is for: choosing keeps the invariant, and the source chosen is there and is the seat's. */
  lemma ChosenSound(b: Board, t: nat, src: Maybe<nat>)
    requires b.Sound() && Offerable(b, t, src) && (t == SESSION || t in b.seats)
    ensures b.Chosen(t, src).Sound()
    ensures src.Just? ==> b.Chosen(t, src).Holds(t, src.value) && src.value in b.Chosen(t, src).sources
    ensures src.Nothing? ==> t !in b.Chosen(t, src).selection
  {
    if !(t in b.selection && src == Just(b.selection[t])) {
      ClearedSound(b, t);
      if src.Just? {
        assert forall u :: Cleared(b, t).Holds(u, src.value) ==> b.Holds(u, src.value);
        assert src.value in Cleared(b, t).sources;
        TakingSound(Cleared(b, t), t, src.value);
      }
    }
  }

  /** What an offer of `s` to seat `t` needs: a source the two seats do not share, of the right side. */
  ghost predicate Crossing(b: Board, s: nat, t: nat) {
    && s in b.sources
    && if t == SESSION
       then b.sources[s].Plain? && exists e :: e != SESSION && b.Holds(e, s)
       else t in b.seats && b.Holds(SESSION, s)
  }

  /** A new proxy changes nothing of what hangs on what. */
  lemma {:induction false} HangsWithMore(b: Board, p: nat, x: Source, q: nat, s: nat)
    requires b.Sound() && p !in b.sources && q in b.sources
    ensures Hangs(b.sources[p := x], q, s) <==> Hangs(b.sources, q, s)
    decreases b.sources[q].Rank()
  {
    if q != s && b.sources[q].Proxy? {
      HangsWithMore(b, p, x, b.sources[q].inner.value, s);
    }
  }

  /** What crosses does not hang on what it takes the place of, unless it came from there. */
  lemma CrossingStays(b: Board, s: nat, t: nat)
    requires b.Sound() && Crossing(b, s, t) && t in b.selection
    ensures Hangs(b.sources, s, b.selection[t]) <==> t != SESSION && b.Echoes(t)
  {
    if t != SESSION && b.sources[s].Proxy? {
      assert b.Placed(s);
    }
  }

  lemma LeftWithMore(b: Board, p: nat, x: Source, had: nat)
    requires b.Sound() && p !in b.sources && !Hangs(b.sources[p := x], p, had)
    ensures Left(b.sources[p := x], had) == Left(b.sources, had)[p := x]
  {
    forall q | q in b.sources
      ensures Hangs(b.sources[p := x], q, had) <==> Hangs(b.sources, q, had)
    {
      HangsWithMore(b, p, x, q, had);
    }
    hide Hangs;
  }

  lemma OfferOver(b: Board, p: nat, s: nat, t: nat)
    requires b.Sound() && s in b.sources && p !in b.sources && Text(b.sources[s].types) != [] && t in b.selection
    requires Left(b.sources[p := Proxy(Text(b.sources[s].types), Just(s), t)], b.selection[t]) ==
             Left(b.sources, b.selection[t])[p := Proxy(Text(b.sources[s].types), Just(s), t)]
    requires s in Left(b.sources, b.selection[t])
    ensures s in Cleared(b, t).sources && b.Offer(p, s, t) == Offered(Cleared(b, t), p, s, t)
  {
    assert forall u :: u in b.selection ==> b.selection[u] in b.sources;
    hide Board.Sound, Text, Hangs, Crossing;
  }

  lemma OfferIs(b: Board, p: nat, s: nat, t: nat)
    requires b.Sound() && Crossing(b, s, t) && p !in b.sources && Text(b.sources[s].types) != []
    requires t == SESSION || !b.Echoes(t)
    ensures Crossing(Cleared(b, t), s, t) && Cleared(b, t).sources[s] == b.sources[s]
    ensures b.Offer(p, s, t) == Offered(Cleared(b, t), p, s, t)
  {
    var x := Proxy(Text(b.sources[s].types), Just(s), t);
    if t in b.selection {
      var had := b.selection[t];
      CrossingStays(b, s, t);
      HangsWithMore(b, p, x, s, had);
      assert !Hangs(b.sources[p := x], p, had);
      LeftWithMore(b, p, x, had);
      OfferOver(b, p, s, t);
      if t == SESSION {
        var e :| e != SESSION && b.Holds(e, s);
        assert Cleared(b, t).Holds(e, s);
      }
    }
  }

  /** An idle seat takes a proxy for what crosses. */
  ghost function Offered(c: Board, p: nat, s: nat, t: nat): Board
    requires s in c.sources
  {
    Board(c.sources[p := Proxy(Text(c.sources[s].types), Just(s), t)], c.selection[t := p], c.seats)
  }

  lemma OfferedSound(c: Board, p: nat, s: nat, t: nat)
    requires c.Sound() && Crossing(c, s, t) && p !in c.sources && t !in c.selection && Text(c.sources[s].types) != []
    ensures Offered(c, p, s, t).Sound()
  {
    var d := Offered(c, p, s, t);
    forall q | q in d.sources && d.sources[q].Proxy?
      ensures d.Placed(q)
    {
      var i := d.sources[q].inner.value;
      assert q != p ==> c.Placed(q);
      if d.sources[q].target == SESSION {
        var e :| e != SESSION && c.Holds(e, i);
        assert d.Holds(e, i);
      }
    }
  }

  /** An offer keeps the invariant, but where the session's selection is the target's own come back. */
  lemma OfferSound(b: Board, p: nat, s: nat, t: nat)
    requires b.Sound() && Crossing(b, s, t) && p !in b.sources
    requires t == SESSION || !b.Echoes(t)
    ensures b.Offer(p, s, t).Sound()
  {
    if Text(b.sources[s].types) != [] {
      ClearedSound(b, t);
      OfferIs(b, p, s, t);
      OfferedSound(Cleared(b, t), p, s, t);
    }
  }

  /** Why the second "already there" check is needed, and that it is enough: offering the session's selection to a
    seat is sound just when it is not that seat's own text come back. */
  lemma EchoGuardExact(b: Board, p: nat, e: nat)
    requires b.Sound() && e in b.seats && SESSION in b.selection && p !in b.sources
    requires Text(b.sources[b.selection[SESSION]].types) != []
    ensures b.Offer(p, b.selection[SESSION], e).Sound() <==> !b.Echoes(e)
  {
    var s := b.selection[SESSION];
    if b.Echoes(e) {
      var had := b.selection[e];
      assert b.Placed(s);
      var all := b.sources[p := Proxy(Text(b.sources[s].types), Just(s), e)];
      assert Hangs(all, had, had) && Hangs(all, s, had) && Hangs(all, p, had);
      var d := b.Offer(p, s, e);
      assert d.selection[e] == p && p !in d.sources;
    } else {
      OfferSound(b, p, s, e);
    }
  }

  lemma StepSound(b: Board, event: Event)
    requires b.Sound() && CanHappen(b, event)
    ensures Step(b, event).Sound()
  {
    match event
    case NewSource(s, types) => NewSourceSound(b, s, types);
    case SourceGone(s) => WithoutSound(b, s);
    case SessionSelects(src) => ChosenSound(b, SESSION, src);
    case ClipRequest(e, src, p) => ClipRequestSound(b, e, src, p);
    case UserInput(e, p) =>
      if e in b.seats && SESSION in b.selection && !b.AlreadyThere(e) { OfferSound(b, p, b.selection[SESSION], e); }
    case SeatOpens(e) => SeatsSound(b, b.seats + {e});
    case SeatCloses(e) =>
      ClearedSound(b, e);
      SeatsSound(Cleared(b, e), b.seats - {e});
  }

  lemma NewSourceSound(b: Board, s: nat, types: seq<string>)
    requires b.Sound() && s !in b.sources
    ensures b.(sources := b.sources[s := Plain(types)]).Sound()
  {
    var d := b.(sources := b.sources[s := Plain(types)]);
    forall p | p in d.sources && d.sources[p].Proxy?
      ensures d.Placed(p)
    {
      assert b.Placed(p);
      if b.sources[p].target == SESSION {
        var e :| e != SESSION && b.Holds(e, b.sources[p].inner.value);
        assert d.Holds(e, b.sources[p].inner.value);
      }
    }
  }

  lemma SeatsSound(b: Board, seats: set<nat>)
    requires b.Sound() && SESSION !in seats && forall t :: t in b.selection ==> t == SESSION || t in seats
    ensures b.(seats := seats).Sound()
  {
    var d := b.(seats := seats);
    forall p | p in d.sources && d.sources[p].Proxy?
      ensures d.Placed(p)
    {
      assert b.Placed(p);
      if b.sources[p].target == SESSION {
        var e :| e != SESSION && b.Holds(e, b.sources[p].inner.value);
        assert d.Holds(e, b.sources[p].inner.value);
      }
    }
  }

  lemma ClipRequestSound(b: Board, e: nat, src: Maybe<nat>, p: nat)
    requires b.Sound() && CanHappen(b, ClipRequest(e, src, p))
    ensures Step(b, ClipRequest(e, src, p)).Sound()
  {
    var c := b.Chosen(e, src);
    ChosenSound(b, e, src);
    if src.Just? && c.sources[src.value].Plain? {
      assert c.Holds(e, src.value);
      ChosenOnlyDrops(b, e, src);
      OfferSound(c, p, src.value, SESSION);
    }
  }

  lemma ChosenOnlyDrops(b: Board, t: nat, src: Maybe<nat>)
    ensures forall q :: q in b.Chosen(t, src).sources ==> q in b.sources && b.Chosen(t, src).sources[q] == b.sources[q]
    ensures b.Chosen(t, src).seats == b.seats
    ensures forall u :: u != t && u in b.Chosen(t, src).selection ==> b.Holds(u, b.Chosen(t, src).selection[u])
  {
  }

  /** A chain of proxies is one of at most two: an elevated seat's over the session's over a program's source. */
  lemma ChainsEndSoon(b: Board, p: nat)
    requires b.Sound() && p in b.sources && b.sources[p].Proxy?
    ensures var s := b.sources[p].inner.value;
            || b.sources[s].Plain?
            || (b.sources[p].target != SESSION && b.sources[s].target == SESSION
                && b.sources[b.sources[s].inner.value].Plain?)
  {
    assert b.Placed(p);
    var s := b.sources[p].inner.value;
    if b.sources[s].Proxy? { assert b.Placed(s); }
  }

  /** What the seat offers that is not its own programs' it offered before. */
  ghost predicate NothingNewAt(b: Board, d: Board, e: nat) {
    e in d.selection && d.selection[e] in d.sources && d.sources[d.selection[e]].Proxy? ==>
      b.Holds(e, d.selection[e]) && d.selection[e] in b.sources && b.sources[d.selection[e]] == d.sources[d.selection[e]]
  }

  lemma OfferKeepsAway(b: Board, p: nat, s: nat, t: nat, e: nat)
    requires b.Sound() && p !in b.sources && s in b.sources && e != t
    ensures NothingNewAt(b, b.Offer(p, s, t), e)
  {
    var all := b.(sources := b.sources[p := Proxy(Text(b.sources[s].types), Just(s), t)]);
    ChosenOnlyDrops(all, t, Just(p));
  }

  /** Only input by the user on an elevated display brings the session's clipboard to it. */
  lemma OnlyUserInputBrings(b: Board, event: Event, e: nat)
    requires b.Sound() && CanHappen(b, event) && e != SESSION
    requires !(event.UserInput? && event.e == e)
    ensures NothingNewAt(b, Step(b, event), e)
  {
    match event
    case ClipRequest(f, src, p) =>
      var c := b.Chosen(f, src);
      ChosenSound(b, f, src);
      ChosenOnlyDrops(b, f, src);
      assert NothingNewAt(b, c, e);
      if src.Just? && c.sources[src.value].Plain? { OfferKeepsAway(c, p, src.value, SESSION, e); }
    case UserInput(f, p) =>
      if SESSION in b.selection { OfferKeepsAway(b, p, b.selection[SESSION], f, e); }
    case SessionSelects(src) => ChosenOnlyDrops(b, SESSION, src);
    case _ =>
  }

  /** What the user's input does bring: the session's selection, if it has any text to give, is then on both sides:
    the seat's is a proxy for it, or it is one for the seat's. */
  lemma UserInputBrings(b: Board, e: nat, p: nat)
    requires b.Sound() && CanHappen(b, UserInput(e, p)) && e in b.seats && SESSION in b.selection
    requires Text(b.sources[b.selection[SESSION]].types) != []
    ensures var d := Step(b, UserInput(e, p));
            && d.Holds(SESSION, b.selection[SESSION]) && e in d.selection && d.selection[e] in d.sources
            && (d.Echoes(e) || d.sources[d.selection[e]].Wraps(b.selection[SESSION]))
  {
    if !b.AlreadyThere(e) {
      OfferIs(b, p, b.selection[SESSION], e);
    }
  }

  /** And else nothing: to no such display, of no selection or one without text, or of what either has from the other. */
  lemma UserInputElse(b: Board, e: nat, p: nat)
    requires b.Sound() && CanHappen(b, UserInput(e, p))
    requires e in b.seats && 0 in b.selection && (exists t :: t in b.sources[b.selection[0]].types && t in TEXT_TYPES) ==>
               e in b.selection && (b.sources[b.selection[e]] == Proxy(b.sources[b.selection[e]].types, Just(b.selection[0]), e)
                                    || b.sources[b.selection[0]] == Proxy(b.sources[b.selection[0]].types, Just(b.selection[e]), 0))
    ensures Step(b, UserInput(e, p)) == b
  {
    if 0 in b.selection {
      var text := Text(b.sources[b.selection[0]].types);
      TextIs(b.sources[b.selection[0]].types);
      assert text != [] ==> text[0] in text;
    }
  }

  ghost predicate Possible(b: Board, events: seq<Event>)
    decreases |events|
  {
    b.Sound() && (events == [] || (CanHappen(b, events[0]) && Possible(Step(b, events[0]), events[1..])))
  }

  ghost function Run(b: Board, events: seq<Event>): Board
    requires Possible(b, events)
    decreases |events|
  {
    if events == [] then b else Run(Step(b, events[0]), events[1..])
  }

  /** The invariant holds over every run; only what each event needs by itself is asked. */
  lemma {:induction false} RunSound(b: Board, events: seq<Event>)
    requires b.Sound()
    requires forall k :: 0 <= k < |events| && Possible(b, events[..k]) ==> CanHappen(Run(b, events[..k]), events[k])
    ensures Possible(b, events) && Run(b, events).Sound()
    decreases |events|
  {
    if events != [] {
      assert events[..0] == [];
      assert CanHappen(b, events[0]);
      StepSound(b, events[0]);
      var c, rest := Step(b, events[0]), events[1..];
      forall k | 0 <= k < |rest| && Possible(c, rest[..k])
        ensures CanHappen(Run(c, rest[..k]), rest[k])
      {
        assert events[..k + 1][0] == events[0] && events[..k + 1][1..] == rest[..k];
        assert Possible(b, events[..k + 1]);
      }
      RunSound(c, rest);
    }
  }

  /** So over a run without input on its display, an elevated seat comes to hold nothing of the session's. */
  lemma {:induction false} RunBringsNothing(b: Board, events: seq<Event>, e: nat)
    requires Possible(b, events) && e != SESSION
    requires forall event :: event in events ==> !(event.UserInput? && event.e == e)
    ensures NothingNewAt(b, Run(b, events), e)
    decreases |events|
  {
    if events != [] {
      OnlyUserInputBrings(b, events[0], e);
      RunBringsNothing(Step(b, events[0]), events[1..], e);
    }
  }

  /** What the loop in `Destroy` keeps: what is left is as it was, and what is gone hung on `s`. */
  ghost predicate Falling(was: map<nat, Source>, left: map<nat, Source>, s: nat) {
    && s in left
    && (forall q :: q in left ==> q in was && was[q] == left[q])
    && (forall q :: q in was && q !in left ==> Hangs(was, q, s))
  }

  lemma FallsFurther(was: map<nat, Source>, left: map<nat, Source>, p: nat, s: nat)
    requires Falling(was, left, s) && Ranked(was) && p in left && left[p].Wraps(s)
    ensures Falling(was, Left(left, p), s)
  {
    assert Hangs(was, s, s) && Hangs(was, p, s);
    forall q | q in left && Hangs(left, q, p)
      ensures Hangs(was, q, s) && q != s
    {
      HangsInMore(left, was, q, p);
      HangsTransitive(was, q, p, s);
      HangsRank(left, q, p);
    }
  }

  /** When no proxy for `s` is left, what hung on it is gone. */
  lemma Fallen(was: map<nat, Source>, left: map<nat, Source>, selection: map<nat, nat>, except: set<nat>, s: nat)
    requires Falling(was, left, s) && Linked(left, selection, except + {s})
    requires forall x :: x in left ==> !left[x].Wraps(s)
    requires forall x :: x in except ==> !Hangs(was, x, s)
    ensures left - {s} == Left(was, s)
  {
    forall q | q in left && q != s
      ensures !Hangs(was, q, s)
    {
      NothingHangs(was, left, selection, except, q, s);
    }
  }

  class Clip {
    var sources: map<nat, Source>
    var selection: map<nat, nat>
    var seats: set<nat>

    constructor ()
      ensures Now() == Board(map[], map[], {}) && Now().Sound()
    {
      sources, selection, seats := map[], map[], {};
    }

    ghost function Now(): Board
      reads this
    {
      Board(sources, selection, seats)
    }

    /** A source is destroyed: its seat forgets it, then each proxy for it is told and, being its seat's selection,
      destroyed in turn. `except` are sources on their way in or out that do not hang on it. */
    method Destroy(s: nat, ghost except: set<nat>)
      requires s in sources && Linked(sources, selection, except + {s})
      requires forall x :: x in except ==> !Hangs(sources, x, s)
      modifies this`sources, this`selection
      ensures Linked(sources, selection, except)
      ensures Now() == old(Now()).Without(s)
      decreases 2 - sources[s].Rank(), 0
    {
      ghost var was, wasSelected := sources, selection;
      Forgotten(sources, selection, s, except);
      hide *;
      selection := map t | t in selection && selection[t] != s :: selection[t];
      var p := FindProxy(s);
      while p.Just?
        invariant Falling(was, sources, s) && Linked(sources, selection, except + {s})
        invariant selection == LeftSelected(wasSelected, sources - {s})
        invariant p.Just? ==> p.value in sources && sources[p.value].Wraps(s)
        invariant p.Nothing? ==> forall q :: q in sources ==> !sources[q].Wraps(s)
        decreases sources.Keys
      {
        FallsFurther(was, sources, p.value, s);
        StillOut(was, sources, p.value, s, except);
        ForgottenFurther(wasSelected, was, sources, p.value, s);
        InnerGone(p.value, s, except);
        p := FindProxy(s);
      }
      Fallen(was, sources, selection, except, s);
      LetGo(sources, selection, s, except);
      sources := sources - {s};
    }

    /** A proxy is told that what it wraps goes: it is destroyed by taking it from its seat. */
    method InnerGone(p: nat, s: nat, ghost except: set<nat>)
      requires p in sources && s in sources && sources[p].Wraps(s) && p !in except && p != s
      requires Linked(sources, selection, except + {s})
      requires forall x :: x in except ==> !Hangs(sources, x, p)
      modifies this`sources, this`selection
      ensures Linked(sources, selection, except + {s})
      ensures Now() == old(Now()).Without(p)
      decreases 2 - sources[p].Rank(), 2
    {
      ghost var was := sources;
      sources := sources[p := sources[p].(inner := Nothing)];
      var target := sources[p].target;
      forall q
        ensures Hangs(sources, q, p) <==> Hangs(was, q, p)
      {
        HangsOnMuted(was, q, p);
      }
      WrappedDoesNotHang(was, s, p);
      if target in selection && selection[target] == p {
        SetSelection(target, Nothing, except + {s});
      }
      assert sources == Left(was, p);
    }

    /** A seat is given a selection, or none; what it had is destroyed first. */
    method SetSelection(t: nat, src: Maybe<nat>, ghost except: set<nat>)
      requires Linked(sources, selection, except + Leaving(selection, t, src))
      requires src.Just? ==>
                 && src.value in sources && (forall u :: u in selection && selection[u] == src.value ==> u == t)
                 && (sources[src.value].Proxy? ==>
                       && sources[src.value].target == t
                       && sources[src.value].inner.Just? && sources[src.value].inner.value in sources)
      requires forall had :: had in Leaving(selection, t, src) ==>
                 && (forall x :: x in except ==> !Hangs(sources, x, had))
                 && (src.Just? ==> !Hangs(sources, src.value, had))
      modifies this`sources, this`selection
      ensures Now() == old(Now()).Chosen(t, src)
      ensures Linked(sources, selection, except - NowSet(src))
      decreases if t in selection && selection[t] in sources then 2 - sources[selection[t]].Rank() else 0, 1
    {
      if t in selection && src == Just(selection[t]) {
        return;
      }
      if t in selection {
        Destroy(selection[t], except);
      }
      if src.Just? {
        selection := selection[t := src.value];
      }
    }

    method FindProxy(s: nat) returns (p: Maybe<nat>)
      ensures p.Just? ==> p.value in sources && sources[p.value].Wraps(s)
      ensures p.Nothing? ==> forall q :: q in sources ==> !sources[q].Wraps(s)
    {
      if q :| q in sources && sources[q].Wraps(s) { p := Just(q); } else { p := Nothing; }
    }

    /** A proxy is made for the text of a source; where there is none, no proxy. */
    method ProxyCreate(p: nat, s: nat, target: nat) returns (made: bool)
      requires s in sources && p !in sources
      modifies this`sources
      ensures made <==> Text(old(sources)[s].types) != []
      ensures made <==> exists t :: t in old(sources)[s].types && t in TEXT_TYPES
      ensures sources ==
              if made then old(sources)[p := Proxy(Text(old(sources)[s].types), Just(s), target)] else old(sources)
    {
      var types, all := [], sources[s].types;
      for i := 0 to |all|
        invariant types == Text(all[..i])
      {
        assert all[..i + 1][..i] == all[..i];
        if all[i] in TEXT_TYPES { types := types + [all[i]]; }
      }
      assert all[..|all|] == all;
      TextIs(all);
      assert types != [] ==> types[0] in types;
      made := types != [];
      if made {
        sources := sources[p := Proxy(types, Just(s), target)];
      }
    }

    /** A source's text is offered to another seat. */
    method OfferTo(p: nat, s: nat, t: nat)
      requires Now().Sound() && Crossing(Now(), s, t) && p !in sources
      requires t == SESSION || !Now().Echoes(t)
      modifies this`sources, this`selection
      ensures Now() == old(Now()).Offer(p, s, t)
    {
      ghost var b := Now();
      var made := ProxyCreate(p, s, t);
      if made {
        ProxyMayBeSet(b, p, s, t);
        SetSelection(t, Just(p), {p});
      }
    }

    /** An elevated program copied something: the session is offered its text. */
    method ClipRequest(e: nat, src: Maybe<nat>, p: nat)
      requires Now().Sound() && CanHappen(Now(), Event.ClipRequest(e, src, p))
      modifies this`sources, this`selection
      ensures Now() == Step(old(Now()), Event.ClipRequest(e, src, p))
    {
      ghost var b := Now();
      OfferableMayBeSet(b, e, src);
      ChosenSound(b, e, src);
      ChosenOnlyDrops(b, e, src);
      SetSelection(e, src, {});
      if src.Nothing? || sources[src.value].Proxy? {
        return;
      }
      assert Now().Holds(e, src.value);
      OfferTo(p, src.value, SESSION);
    }

    /** The user typed or clicked in an elevated window: its display is offered the session's text, unless that is
      there already. */
    method UserInput(e: nat, p: nat)
      requires Now().Sound() && CanHappen(Now(), Event.UserInput(e, p))
      modifies this`sources, this`selection
      ensures Now() == Step(old(Now()), Event.UserInput(e, p))
    {
      if e !in seats || SESSION !in selection {
        return;
      }
      var src := selection[SESSION];
      if e in selection && sources[selection[e]].Wraps(src) {
        return;
      }
      if e in selection && sources[src].Wraps(selection[e]) {
        return;
      }
      OfferTo(p, src, e);
    }

    method SessionSelects(src: Maybe<nat>)
      requires Now().Sound() && CanHappen(Now(), Event.SessionSelects(src))
      modifies this`sources, this`selection
      ensures Now() == Step(old(Now()), Event.SessionSelects(src))
    {
      OfferableMayBeSet(Now(), SESSION, src);
      SetSelection(SESSION, src, {});
    }

    method SeatCloses(e: nat)
      requires Now().Sound() && CanHappen(Now(), Event.SeatCloses(e))
      modifies this
      ensures Now() == Step(old(Now()), Event.SeatCloses(e))
    {
      if e in selection {
        Destroy(selection[e], {});
      }
      seats := seats - {e};
    }

    method Happen(event: Event)
      requires Now().Sound() && CanHappen(Now(), event)
      modifies this
      ensures Now() == Step(old(Now()), event) && Now().Sound()
    {
      StepSound(Now(), event);
      match event {
        case NewSource(s, types) => sources := sources[s := Plain(types)];
        case SourceGone(s) => Destroy(s, {});
        case SessionSelects(src) => SessionSelects(src);
        case ClipRequest(e, src, p) => ClipRequest(e, src, p);
        case UserInput(e, p) => UserInput(e, p);
        case SeatOpens(e) => seats := seats + {e};
        case SeatCloses(e) => SeatCloses(e);
      }
    }

    method HappenAll(events: seq<Event>)
      requires Possible(Now(), events)
      modifies this
      ensures Now() == Run(old(Now()), events) && Now().Sound()
      decreases |events|
    {
      if events != [] {
        Happen(events[0]);
        HappenAll(events[1..]);
      }
    }

    /** A paste: the source asked in the end is a program's own, and through a proxy it is asked for text only. */
    method Send(s: nat, mime: string) returns (asked: Maybe<nat>)
      requires s in sources && Now().Sound()
      ensures asked.Just? <==> sources[s].Plain? || mime in TEXT_TYPES
      ensures asked.Just? ==>
                asked.value in sources && sources[asked.value].Plain? && Hangs(sources, s, asked.value)
      decreases sources[s].Rank()
    {
      if sources[s].Plain? {
        return Just(s);
      }
      if sources[s].inner.Just? && mime in TEXT_TYPES {
        assert Now().Placed(s);
        asked := Send(sources[s].inner.value, mime);
      } else {
        asked := Nothing;
      }
    }
  }

  /** What `SetSelection` asks, of a new proxy for what crosses. */
  lemma ProxyMayBeSet(b: Board, p: nat, s: nat, t: nat)
    requires b.Sound() && Crossing(b, s, t) && p !in b.sources && (t == SESSION || !b.Echoes(t))
    ensures var all := b.sources[p := Proxy(Text(b.sources[s].types), Just(s), t)];
            && Ranked(all) && Linked(all, b.selection, {p})
            && Linked(all, b.selection, {p} + Leaving(b.selection, t, Just(p)))
            && (forall had :: had in Leaving(b.selection, t, Just(p)) ==> !Hangs(all, p, had))
  {
    var x := Proxy(Text(b.sources[s].types), Just(s), t);
    if t in b.selection {
      CrossingStays(b, s, t);
      HangsWithMore(b, p, x, s, b.selection[t]);
    }
    if t == SESSION { assert b.sources[s].Plain?; } else if b.sources[s].Proxy? { assert b.Placed(s); }
  }

  /** What `SetSelection` asks, of what may be offered. */
  lemma OfferableMayBeSet(b: Board, t: nat, src: Maybe<nat>)
    requires b.Sound() && Offerable(b, t, src)
    ensures Linked(b.sources, b.selection, {} + Leaving(b.selection, t, src))
    ensures src.Just? ==> forall u :: u in b.selection && b.selection[u] == src.value ==> u == t
    ensures src.Just? && b.sources[src.value].Proxy? ==> b.sources[src.value].target == t
    ensures src.Just? ==> forall had :: had in Leaving(b.selection, t, src) ==> !Hangs(b.sources, src.value, had)
  {
    if src.Just? {
      forall u | u in b.selection && b.selection[u] == src.value
        ensures u == t
      {
        assert b.Holds(u, src.value);
      }
      if t in b.selection { assert b.Holds(t, b.selection[t]); }
    }
  }

  /** What a seat loses by being given `src`. */
  ghost function Leaving(selection: map<nat, nat>, t: nat, src: Maybe<nat>): set<nat> {
    if t in selection && src != Just(selection[t]) then {selection[t]} else {}
  }

  ghost function NowSet(src: Maybe<nat>): set<nat> {
    if src.Just? then {src.value} else {}
  }

  lemma WrappedDoesNotHang(sources: map<nat, Source>, s: nat, p: nat)
    requires Ranked(sources) && p in sources && s in sources && sources[p].Wraps(s)
    ensures !Hangs(sources, s, p)
  {
    if Hangs(sources, s, p) { HangsRank(sources, s, p); }
  }

  lemma StillOut(was: map<nat, Source>, left: map<nat, Source>, p: nat, s: nat, except: set<nat>)
    requires Falling(was, left, s) && Ranked(was) && p in left && left[p].Wraps(s)
    requires forall x :: x in except ==> !Hangs(was, x, s)
    ensures p !in except && forall x :: x in except ==> !Hangs(left, x, p)
  {
    assert Hangs(was, s, s) && Hangs(was, p, s);
    forall x | Hangs(left, x, p)
      ensures Hangs(was, x, s)
    {
      HangsInMore(left, was, x, p);
      HangsTransitive(was, x, p, s);
    }
  }

  lemma Forgotten(sources: map<nat, Source>, selection: map<nat, nat>, s: nat, except: set<nat>)
    requires s in sources && Linked(sources, selection, except + {s})
    ensures var rest := map t | t in selection && selection[t] != s :: selection[t];
            && Linked(sources, rest, except + {s})
            && rest == LeftSelected(selection, sources - {s})
    ensures Ranked(sources) && Falling(sources, sources, s)
  {
  }

  lemma ForgottenFurther(selected: map<nat, nat>, was: map<nat, Source>, left: map<nat, Source>, p: nat, s: nat)
    requires p in left && left[p].Wraps(s) && Ranked(left) && s in left
    ensures LeftSelected(LeftSelected(selected, left - {s}), Left(left, p)) == LeftSelected(selected, Left(left, p) - {s})
    ensures Left(left, p).Keys < left.Keys && left[p].Rank() > left[s].Rank() && p != s && left[p].Rank() <= 2
  {
    assert Hangs(left, p, p) && p !in Left(left, p);
  }

  lemma LetGo(sources: map<nat, Source>, selection: map<nat, nat>, s: nat, except: set<nat>)
    requires Linked(sources, selection, except + {s}) && forall q :: q in sources ==> !sources[q].Wraps(s)
    requires forall t :: t in selection ==> selection[t] != s
    ensures Linked(sources - {s}, selection, except)
  {
  }
}
