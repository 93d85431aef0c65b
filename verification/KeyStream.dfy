/** Keys on their way to the focused window (seat.c): reserved keys are consumed with their releases, and a shell
  key's press is held while the focus moves.

  One keyboard. What a key event finds around it (the modifiers, the symbols the keyboard gives for it, whether the
  session is unlocked, viewed or taken over, what has the focus, whether the desktop takes the keyboard) comes with
  the event.
 */
module KeyStream {

  datatype Maybe<T> = Nothing | Just(value: T)

  datatype Sym =
    | RaiseVolume | LowerVolume | Mute | SmallL | LargeL | Delete | KeypadDelete | BackSpace | TerminateServer
    | Tab | LeftTab | SuperL | SuperR | Escape | SwitchVT(n: nat) | Other(n: nat)

  /** What the compositor does for itself on a key. */
  datatype Act = VolumeUp | VolumeDown | MuteToggle | LockUp | Reload | Attention | BackToSession | EndViewing | TakeBack

  /** A key as the focused window is told of it, by its evdev code. */
  datatype Key = Key(code: nat, pressed: bool)

  datatype Input = Input(key: Key, ctrl: bool, alt: bool, shift: bool, logo: bool, syms: seq<Sym>,
                         unlocked: bool, onElevated: bool, desktopTakes: bool, maySwitchVT: bool,
                         viewed: bool, remote: bool)
  {
    /** The console's own Ctrl+Alt+Del. `viewed`: someone else than this keyboard's owner views the session;
      `remote`: the session is taken over and the keyboard is not the taker's. */
    predicate IsAttention() {
      key.pressed && ctrl && alt && (Delete in syms || KeypadDelete in syms)
    }

    /** What one symbol reserves: the volume keys, Win+L, the reload keys while unlocked, Ctrl+Alt+Del. */
    function ActOn(sym: Sym): Maybe<Act> {
      if sym == RaiseVolume then Just(VolumeUp)
      else if sym == LowerVolume then Just(VolumeDown)
      else if sym == Mute then Just(MuteToggle)
      else if logo && (sym == SmallL || sym == LargeL) then Just(LockUp)
      else if (sym == TerminateServer || (ctrl && alt && sym == BackSpace)) && unlocked then Just(Reload)
      else if ctrl && alt && (sym == Delete || sym == KeypadDelete) then Just(Attention)
      else Nothing
    }

    /** The first of the symbols that reserves something decides. */
    ghost predicate Reserves(act: Act) {
      exists k :: 0 <= k < |syms| && ActOn(syms[k]) == Just(act) && forall j :: 0 <= j < k ==> ActOn(syms[j]).Nothing?
    }

    ghost predicate Reserved() {
      exists k :: 0 <= k < |syms| && ActOn(syms[k]).Just?
    }

    predicate Has(sym: Sym) {
      sym in syms || (sym == Tab && LeftTab in syms)
    }

    predicate ForSwitcher() {
      alt && onElevated && Has(Tab)
    }

    /** Of several symbols the last says whether a VT was switched to. */
    predicate SwitchesVT() {
      alt && syms != [] && maySwitchVT && var sym := syms[|syms| - 1]; sym.SwitchVT? && 1 <= sym.n <= 12
    }

    predicate ForShell() {
      Has(SuperL) || Has(SuperR) || logo || (alt && Has(Tab)) || (ctrl && shift && Has(Escape))
    }

    /** A press no window sees: reserved, for the switcher, a switch to another VT, or the console's Ctrl+Alt+Del
      during a takeover. All but the switch are noted in the table of consumed keys. */
    ghost predicate Noted() {
      if remote then IsAttention() else key.pressed && (Reserved() || ForSwitcher())
    }

    ghost predicate Consumed() {
      Noted() || (!remote && key.pressed && SwitchesVT())
    }

    /** A release that is looked up in that table. */
    predicate LetGo() {
      !remote && !key.pressed
    }

    /** A press that goes after the focus has moved. */
    ghost predicate Waits() {
      !remote && key.pressed && !Consumed() && ForShell() && desktopTakes
    }

    /** A press that is to wait whose code reads as "none waits". */
    ghost predicate Lost() {
      Waits() && key.code == 0
    }
  }

  const SLOTS: nat := 8

  /** The keyboard's own code for an evdev code. */
  function Keycode(code: nat): nat {
    code + 8
  }

  function First(table: seq<nat>, x: nat): (i: nat)
    requires x in table
    ensures i < |table| && table[i] == x && x !in table[..i]
  {
    if table[0] == x then 0 else First(table[1..], x) + 1
  }

  /** An empty slot holds 0, a taken one the keyboard's own code, never 0. */
  function Marked(table: seq<nat>, keycode: nat): seq<nat> {
    if 0 in table then table[First(table, 0) := keycode] else table
  }

  function Unmarked(table: seq<nat>, keycode: nat): seq<nat> {
    if keycode in table then table[First(table, keycode) := 0] else table
  }

  /** `held` is a waiting press's evdev code, or 0; `switching` the key whose release goes back to the session. */
  datatype State = State(table: seq<nat>, held: nat, switching: nat, out: seq<Key>) {
    /** The keys the window has been told of, then the one waiting. */
    function Stream(): seq<Key> {
      if held != 0 then out + [Key(held, true)] else out
    }
  }

  const START := State([0, 0, 0, 0, 0, 0, 0, 0], 0, 0, [])

  ghost function Step(st: State, i: Input): State {
    var out, keycode := st.Stream(), Keycode(i.key.code);
    if i.remote then if i.IsAttention() then st.(table := Marked(st.table, keycode)) else st
    else if !i.key.pressed then
      if keycode in st.table
      then State(Unmarked(st.table, keycode), 0, if st.switching == keycode then 0 else st.switching, out)
      else State(st.table, 0, st.switching, out + [i.key])
    else if i.Reserved() then State(Marked(st.table, keycode), 0, st.switching, out)
    else if i.ForSwitcher() then State(Marked(st.table, keycode), 0, keycode, out)
    else if i.SwitchesVT() then State(st.table, 0, st.switching, out)
    else if i.ForShell() && i.desktopTakes then State(st.table, i.key.code, st.switching, out)
    else State(st.table, 0, st.switching, out + [i.key])
  }

  /** What the compositor does for itself on an event. */
  ghost predicate Does(st: State, i: Input, acts: seq<Act>) {
    if i.remote then acts == if i.IsAttention() then [TakeBack] else []
    else if !i.key.pressed then
      acts == if Keycode(i.key.code) in st.table && st.switching == Keycode(i.key.code) then [BackToSession] else []
    else if i.Reserved() then exists act :: i.Reserves(act) && acts == [act]
    else acts == []
  }

  ghost function Run(ins: seq<Input>): State {
    if ins == [] then START else Step(Run(ins[..|ins| - 1]), ins[|ins| - 1])
  }

  // ---- which key does what ----

  /** Each act has its keys: the volume keys; Win+L; while unlocked the terminate key and Ctrl+Alt+Backspace;
    Ctrl+Alt+Del. */
  lemma ActOf(i: Input, sym: Sym)
    ensures i.ActOn(sym) == Just(VolumeUp) <==> sym == RaiseVolume
    ensures i.ActOn(sym) == Just(VolumeDown) <==> sym == LowerVolume
    ensures i.ActOn(sym) == Just(MuteToggle) <==> sym == Mute
    ensures i.ActOn(sym) == Just(LockUp) <==> i.logo && (sym == SmallL || sym == LargeL)
    ensures i.ActOn(sym) == Just(Reload) <==> i.unlocked && (sym == TerminateServer || (i.ctrl && i.alt && sym == BackSpace))
    ensures i.ActOn(sym) == Just(Attention) <==> i.ctrl && i.alt && (sym == Delete || sym == KeypadDelete)
    ensures i.ActOn(sym) == Nothing || i.ActOn(sym).value in {VolumeUp, VolumeDown, MuteToggle, LockUp, Reload, Attention}
  {
  }

  /** A key's act is that of the first of its symbols that has one. */
  lemma FirstSymbolDecides(i: Input, k: nat)
    requires k <= |i.syms| && forall j :: 0 <= j < k ==> i.ActOn(i.syms[j]) == Nothing
    ensures k == |i.syms| ==> !i.Reserved()
    ensures k < |i.syms| && i.ActOn(i.syms[k]).Just? ==>
      i.Reserved() && forall act :: i.Reserves(act) <==> act == i.ActOn(i.syms[k]).value
  {
  }

  /** The other keys that matter, by their symbols: the console's own Ctrl+Alt+Del, Alt+Tab from an elevated window, a
    switch to VT 1 to 12, and those the shell's desktop is for. */
  lemma KeysOf(i: Input)
    ensures i.IsAttention() <==> i.key.pressed && i.ctrl && i.alt && (Delete in i.syms || KeypadDelete in i.syms)
    ensures i.ForSwitcher() <==> i.alt && i.onElevated && (Tab in i.syms || LeftTab in i.syms)
    ensures i.SwitchesVT() <==> i.alt && i.maySwitchVT && exists n :: 1 <= n <= 12 && i.syms != [] && i.syms[|i.syms| - 1] == SwitchVT(n)
    ensures i.ForShell() <==>
      || SuperL in i.syms || SuperR in i.syms || i.logo || (i.alt && (Tab in i.syms || LeftTab in i.syms))
      || (i.ctrl && i.shift && Escape in i.syms)
  {
    if i.syms != [] && i.syms[|i.syms| - 1].SwitchVT? {
      assert i.syms[|i.syms| - 1] == SwitchVT(i.syms[|i.syms| - 1].n);
    }
  }

  /** Which presses are consumed, which releases looked up, and which presses wait. */
  lemma PressesOf(i: Input)
    ensures i.Noted() <==> if i.remote then i.IsAttention() else i.key.pressed && (i.Reserved() || i.ForSwitcher())
    ensures i.Consumed() <==> i.Noted() || (!i.remote && i.key.pressed && i.SwitchesVT())
    ensures i.LetGo() <==> !i.remote && !i.key.pressed
    ensures i.Waits() <==> !i.remote && i.key.pressed && !i.Consumed() && i.ForShell() && i.desktopTakes
    ensures i.Lost() <==> i.Waits() && i.key.code == 0
  {
  }

  /** What the compositor does for itself: a session taken over is taken back by the console's Ctrl+Alt+Del alone; else a
    reserved press has its act, and the release of Alt+Tab's goes back to the session. */
  lemma ActsAre(st: State, i: Input, acts: seq<Act>)
    ensures i.remote ==> (Does(st, i, acts) <==> acts == if i.IsAttention() then [TakeBack] else [])
    ensures !i.remote && i.key.pressed && !i.Reserved() ==> (Does(st, i, acts) <==> acts == [])
    ensures !i.remote && i.key.pressed && i.Reserved() ==> (Does(st, i, acts) <==> |acts| == 1 && i.Reserves(acts[0]))
    ensures !i.remote && !i.key.pressed && (i.key.code + 8 !in st.table || st.switching != i.key.code + 8) ==>
      (Does(st, i, acts) <==> acts == [])
    ensures !i.remote && !i.key.pressed && i.key.code + 8 in st.table && st.switching == i.key.code + 8 ==>
      (Does(st, i, acts) <==> acts == [BackToSession])
  {
    hide Input.Reserves;
    if |acts| == 1 { assert acts == [acts[0]]; }
  }

  /** Alt+Tab in an elevated window, and the same key let go: the window is told of neither, and with room in the table
    the keys go back to the session on the release. */
  lemma SwitcherGoesBack(st: State, press: Input, letGo: Input)
    requires !press.remote && press.key.pressed && !press.Reserved() && press.ForSwitcher() && 0 in st.table
    requires !letGo.remote && letGo.key == Key(press.key.code, false)
    ensures Step(Step(st, press), letGo).out == st.Stream() && Step(Step(st, press), letGo).switching == 0
    ensures Does(Step(st, press), letGo, [BackToSession])
  {
    var f := First(st.table, 0);
    assert Step(st, press).table[f] == Keycode(press.key.code);
  }

  /** A press that waits is told first thing on the next event that is not the console's during a takeover. */
  lemma WaitingGoesFirst(st: State, press: Input, next: Input)
    requires press.Waits() && press.key.code != 0 && !next.remote
    ensures Step(st, press).out == st.Stream() && Step(st, press).held == press.key.code
    ensures st.Stream() + [Key(press.key.code, true)] <= Step(Step(st, press), next).out
  {
  }

  // ---- what a window should see ----

  /** `j` is the latest event of its key before `k`. */
  ghost predicate JustBefore(ins: seq<Input>, j: int, k: int) {
    0 <= j < k <= |ins| && forall m :: j < m < k ==> ins[m].key.code != ins[j].key.code
  }

  /** Before event `k`, the key is down by a consumed press: that is its latest event. */
  ghost predicate DownConsumed(ins: seq<Input>, k: nat, code: nat) {
    exists j :: JustBefore(ins, j, k) && ins[j].key.code == code && ins[j].Consumed()
  }

  /** Event `k` is the console's during a takeover, a consumed press, or the release that belongs to one. */
  ghost predicate Withheld(ins: seq<Input>, k: nat)
    requires k < |ins|
  {
    ins[k].remote || ins[k].Consumed() || (!ins[k].key.pressed && DownConsumed(ins, k, ins[k].key.code))
  }

  /** The keys with exactly those taken out, in order. */
  ghost function Expected(ins: seq<Input>): seq<Key> {
    if ins == [] then []
    else
      var n := |ins| - 1;
      Expected(ins[..n]) + (if Withheld(ins, n) then [] else [ins[n].key])
  }

  // ---- when it does ----

  /** A noted press takes a slot while there is one, and a release looked up gives one back. */
  ghost function SlotsAfter(before: multiset<nat>, i: Input): multiset<nat> {
    if i.Noted() then (if |before| < SLOTS then before + multiset{i.key.code} else before)
    else if i.LetGo() then before - multiset{i.key.code}
    else before
  }

  lemma SlotsAfterIs(before: multiset<nat>, i: Input, code: nat)
    ensures SlotsAfter(before, i)[code] ==
      if i.key.code != code then before[code]
      else if i.Noted() then (if |before| < 8 then before[code] + 1 else before[code])
      else if !i.remote && !i.key.pressed && before[code] > 0 then before[code] - 1
      else before[code]
  {
    hide Input.Noted;
    PressedNoted(i);
  }

  lemma PressedNoted(i: Input)
    ensures i.Noted() ==> i.key.pressed
  {
  }

  /** The keys in the table, as often as they are. */
  ghost function Slots(ins: seq<Input>): multiset<nat> {
    if ins == [] then multiset{} else SlotsAfter(Slots(ins[..|ins| - 1]), ins[|ins| - 1])
  }

  /** A release is told whose press was consumed, or swallowed whose press was told: its key has a slot and is not down
    by a consumed press, or the other way round. */
  ghost predicate Astray(ins: seq<Input>, k: nat)
    requires k < |ins|
  {
    ins[k].LetGo() && (ins[k].key.code in Slots(ins[..k])) != DownConsumed(ins, k, ins[k].key.code)
  }

  ghost predicate Clean(ins: seq<Input>) {
    forall k :: 0 <= k < |ins| ==> !Astray(ins, k) && !ins[k].Lost()
  }

  /** It is that before every event: a release not the console's during a takeover has a slot just when its key is down
    by a consumed press, and a press that is to wait has a code. */
  lemma CleanIs(ins: seq<Input>)
    ensures Clean(ins) <==> forall k :: 0 <= k < |ins| ==>
      && (!ins[k].remote && !ins[k].key.pressed ==>
            (ins[k].key.code in Slots(ins[..k]) <==> DownConsumed(ins, k, ins[k].key.code)))
      && (ins[k].Waits() ==> ins[k].key.code != 0)
  {
    hide Input.Waits, Slots, DownConsumed;
    forall k | 0 <= k < |ins|
      ensures !Astray(ins, k) && !ins[k].Lost() <==>
        && (!ins[k].remote && !ins[k].key.pressed ==>
              (ins[k].key.code in Slots(ins[..k]) <==> DownConsumed(ins, k, ins[k].key.code)))
        && (ins[k].Waits() ==> ins[k].key.code != 0)
    {
    }
  }

  lemma PrefixSame(ins: seq<Input>, n: nat, j: int, k: int)
    requires 0 <= j < k <= n <= |ins|
    ensures JustBefore(ins[..n], j, k) <==> JustBefore(ins, j, k)
  {
  }

  lemma DownPrefix(ins: seq<Input>, n: nat, k: nat, code: nat)
    requires k <= n <= |ins|
    ensures DownConsumed(ins[..n], k, code) <==> DownConsumed(ins, k, code)
  {
    if DownConsumed(ins[..n], k, code) {
      var j :| JustBefore(ins[..n], j, k) && ins[j].key.code == code && ins[j].Consumed();
      PrefixSame(ins, n, j, k);
    }
    if DownConsumed(ins, k, code) {
      var j :| JustBefore(ins, j, k) && ins[j].key.code == code && ins[j].Consumed();
      PrefixSame(ins, n, j, k);
    }
  }

  /** One more event: its own key's state is what the event says, the others' are as they were. */
  lemma DownStep(ins: seq<Input>, code: nat)
    requires ins != []
    ensures DownConsumed(ins, |ins|, code) <==>
            if ins[|ins| - 1].key.code == code then ins[|ins| - 1].Consumed() else DownConsumed(ins, |ins| - 1, code)
  {
    var n := |ins| - 1;
    if ins[n].key.code == code {
      assert JustBefore(ins, n, n + 1);
    } else {
      if DownConsumed(ins, n, code) {
        var j :| JustBefore(ins, j, n) && ins[j].key.code == code && ins[j].Consumed();
        assert JustBefore(ins, j, n + 1);
      }
      if DownConsumed(ins, n + 1, code) {
        var j :| JustBefore(ins, j, n + 1) && ins[j].key.code == code && ins[j].Consumed();
        assert JustBefore(ins, j, n);
      }
    }
  }

  // ---- the table ----

  /** The table holds just these keys, each as often. */
  ghost predicate Tracks(table: seq<nat>, slots: multiset<nat>) {
    && |table| == SLOTS
    && (forall c: nat :: Times(table, Keycode(c)) == slots[c])
    && Times(table, 0) + |slots| == SLOTS
  }

  ghost function Times(table: seq<nat>, x: nat): nat {
    multiset(table)[x]
  }

  lemma RoomWhileFewerThanEight(table: seq<nat>, slots: multiset<nat>)
    requires Tracks(table, slots)
    ensures 0 in table <==> |slots| < SLOTS
    ensures forall c: nat :: c in slots <==> Keycode(c) in table
  {
    assert 0 in table <==> 0 in multiset(table);
    forall c: nat
      ensures c in slots <==> Keycode(c) in table
    {
      assert Keycode(c) in table <==> Keycode(c) in multiset(table);
      assert Times(table, Keycode(c)) == slots[c];
    }
  }

  lemma SlotReplaced(table: seq<nat>, f: nat, x: nat)
    requires f < |table|
    ensures multiset(table[f := x]) == multiset(table) - multiset{table[f]} + multiset{x}
  {
  }

  lemma MarkTracks(table: seq<nat>, slots: multiset<nat>, code: nat)
    requires Tracks(table, slots) && 0 in table
    ensures Tracks(Marked(table, Keycode(code)), slots + multiset{code})
  {
    var f, after := First(table, 0), Marked(table, Keycode(code));
    SlotReplaced(table, f, Keycode(code));
    assert 0 in multiset(table);
    forall c: nat
      ensures Times(after, Keycode(c)) == (slots + multiset{code})[c]
    {
      assert Times(table, Keycode(c)) == slots[c];
      assert Keycode(c) == Keycode(code) <==> c == code;
    }
  }

  lemma UnmarkTracks(table: seq<nat>, slots: multiset<nat>, code: nat)
    requires Tracks(table, slots) && code in slots
    ensures Tracks(Unmarked(table, Keycode(code)), slots - multiset{code})
  {
    RoomWhileFewerThanEight(table, slots);
    var f, after := First(table, Keycode(code)), Unmarked(table, Keycode(code));
    SlotReplaced(table, f, 0);
    assert Keycode(code) in multiset(table);
    forall c: nat
      ensures Times(after, Keycode(c)) == (slots - multiset{code})[c]
    {
      assert Times(table, Keycode(c)) == slots[c];
      assert Keycode(c) == Keycode(code) <==> c == code;
    }
  }

  lemma NoneTracked()
    ensures Tracks(START.table, multiset{})
  {
    var t := START.table;
    forall c: nat
      ensures Times(t, Keycode(c)) == 0
    {
      assert Keycode(c) !in t;
      assert Keycode(c) !in multiset(t);
    }
    assert multiset(t) == multiset{0, 0, 0, 0, 0, 0, 0, 0};
  }

  lemma TableStep(st: State, slots: multiset<nat>, i: Input)
    requires Tracks(st.table, slots)
    ensures Tracks(Step(st, i).table, SlotsAfter(slots, i))
  {
    hide Tracks, Input.Reserved, Input.SwitchesVT, Input.ForShell, Input.ForSwitcher, Input.IsAttention;
    RoomWhileFewerThanEight(st.table, slots);
    if i.Noted() {
      if 0 in st.table { MarkTracks(st.table, slots, i.key.code); }
    } else if i.LetGo() {
      if i.key.code in slots {
        UnmarkTracks(st.table, slots, i.key.code);
      } else {
        assert slots - multiset{i.key.code} == slots;
      }
    }
  }

  /** Whatever the events, the table holds the keys that took a slot and have not given it back. */
  lemma {:induction false} TableTracks(ins: seq<Input>)
    ensures Tracks(Run(ins).table, Slots(ins))
  {
    hide Tracks, Step, SlotsAfter;
    if ins == [] {
      NoneTracked();
    } else {
      TableTracks(ins[..|ins| - 1]);
      TableStep(Run(ins[..|ins| - 1]), Slots(ins[..|ins| - 1]), ins[|ins| - 1]);
    }
  }

  // ---- the stream ----

  /** What an event adds to the keys told and waiting. */
  ghost function Added(table: seq<nat>, i: Input): seq<Key> {
    if i.remote || (i.LetGo() && Keycode(i.key.code) in table) || i.Consumed() || i.Lost() then [] else [i.key]
  }

  lemma StreamGrows(st: State, i: Input)
    ensures Step(st, i).Stream() == st.Stream() + Added(st.table, i)
  {
  }

  ghost function ShouldAdd(ins: seq<Input>, k: nat): seq<Key>
    requires k < |ins|
  {
    if Withheld(ins, k) then [] else [ins[k].key]
  }

  /** The event adds just what it should, unless it is a release astray or a press lost. */
  lemma AddedAsExpected(ins: seq<Input>, k: nat)
    requires k < |ins|
    ensures Added(Run(ins[..k]).table, ins[k]) == ShouldAdd(ins, k) <==> !Astray(ins, k) && !ins[k].Lost()
  {
    hide Run, Slots, DownConsumed, Tracks, Input.Consumed;
    PressedConsumed(ins[k]);
    TableTracks(ins[..k]);
    RoomWhileFewerThanEight(Run(ins[..k]).table, Slots(ins[..k]));
  }

  lemma RunStep(ins: seq<Input>, k: nat)
    requires k < |ins|
    ensures Run(ins[..k + 1]).Stream() == Run(ins[..k]).Stream() + Added(Run(ins[..k]).table, ins[k])
    ensures Expected(ins[..k + 1]) == Expected(ins[..k]) + ShouldAdd(ins, k)
  {
    hide Step, Added, Input.Consumed, DownConsumed;
    var one := ins[..k + 1];
    assert one[..k] == ins[..k];
    StreamGrows(Run(ins[..k]), ins[k]);
    DownPrefix(ins, k + 1, k, ins[k].key.code);
  }

  ghost predicate RightAfter(ins: seq<Input>, n: nat)
    requires n <= |ins|
  {
    Run(ins[..n]).Stream() == Expected(ins[..n])
  }

  lemma RightAfterIs(ins: seq<Input>, n: nat)
    requires n <= |ins|
    ensures RightAfter(ins, n) <==> Run(ins[..n]).Stream() == Expected(ins[..n])
  {
  }

  lemma SameEnd(keys: seq<Key>, x: seq<Key>, y: seq<Key>)
    requires keys + x == keys + y
    ensures x == y
  {
    assert (keys + x)[|keys|..] == x && (keys + y)[|keys|..] == y;
  }

  /** The window is told of exactly the keys it should be, in order and at all times, just when no release goes astray
    and no press waits whose code is 0: whatever the events, with takeovers or without. */
  lemma StreamRightThroughoutExactlyWhenClean(ins: seq<Input>)
    ensures (forall n :: 0 <= n <= |ins| ==> RightAfter(ins, n)) <==> Clean(ins)
  {
    hide Run, Expected, Added, ShouldAdd, Astray, Input.Lost;
    if forall n :: 0 <= n <= |ins| ==> RightAfter(ins, n) {
      forall k | 0 <= k < |ins|
        ensures !Astray(ins, k) && !ins[k].Lost()
      {
        assert RightAfter(ins, k) && RightAfter(ins, k + 1);
        RunStep(ins, k);
        AddedAsExpected(ins, k);
        SameEnd(Expected(ins[..k]), Added(Run(ins[..k]).table, ins[k]), ShouldAdd(ins, k));
      }
    }
    if Clean(ins) {
      forall n | 0 <= n <= |ins|
        ensures RightAfter(ins, n)
      {
        CleanIsRight(ins, n);
      }
    }
  }

  lemma {:induction false} CleanIsRight(ins: seq<Input>, n: nat)
    requires n <= |ins| && forall k :: 0 <= k < n ==> !Astray(ins, k) && !ins[k].Lost()
    ensures RightAfter(ins, n)
  {
    if n == 0 {
      assert ins[..0] == [];
    } else {
      hide Run, Expected, Added, ShouldAdd, Astray, Input.Lost;
      CleanIsRight(ins, n - 1);
      RunStep(ins, n - 1);
      AddedAsExpected(ins, n - 1);
    }
  }

  /** One event after the others: what it adds is settled by the slots alone. */
  lemma OneMore(ins: seq<Input>, i: Input)
    ensures Slots(ins + [i]) == SlotsAfter(Slots(ins), i)
    ensures Run(ins + [i]).Stream() == Run(ins).Stream()
            + (if i.remote || (i.LetGo() && i.key.code in Slots(ins)) || i.Consumed() || i.Lost() then [] else [i.key])
  {
    hide Run, Expected, SlotsAfter, Tracks, ShouldAdd, Input.LetGo, Input.Consumed, Input.Lost;
    var all, n := ins + [i], |ins|;
    assert all[..n] == ins && all[..n + 1] == all;
    RunStep(all, n);
    TableTracks(ins);
    RoomWhileFewerThanEight(Run(ins).table, Slots(ins));
  }

  /** What it should add is settled by the key's latest event. */
  lemma OneMoreExpected(ins: seq<Input>, i: Input)
    ensures Expected(ins + [i]) == Expected(ins)
            + (if i.remote || i.Consumed() || (!i.key.pressed && DownConsumed(ins, |ins|, i.key.code)) then [] else [i.key])
  {
    hide Run, Expected, DownConsumed, Added, Input.Consumed;
    var all, n := ins + [i], |ins|;
    assert all[..n] == ins && all[..n + 1] == all;
    RunStep(all, n);
    DownPrefix(all, n, n, i.key.code);
  }

  lemma OneMoreDown(ins: seq<Input>, i: Input, code: nat)
    ensures DownConsumed(ins + [i], |ins| + 1, code) <==>
            if i.key.code == code then i.Consumed() else DownConsumed(ins, |ins|, code)
  {
    hide DownConsumed, Input.Consumed;
    var all, n := ins + [i], |ins|;
    assert all[..n] == ins;
    DownPrefix(all, n, n, code);
    DownStep(all, code);
  }

  // ---- with no takeover ----

  /** Each key is pressed and let go in turn, and no one has taken the session over. */
  ghost predicate OneKeyboard(ins: seq<Input>) {
    && (forall k :: 0 <= k < |ins| ==> !ins[k].remote)
    && forall j, k :: JustBefore(ins, j, k) && k < |ins| && ins[j].key.code == ins[k].key.code ==>
      ins[j].key.pressed != ins[k].key.pressed
  }

  lemma OneKeyboardPrefix(ins: seq<Input>, n: nat)
    requires OneKeyboard(ins) && n <= |ins|
    ensures OneKeyboard(ins[..n])
  {
    forall j, k | JustBefore(ins[..n], j, k) && k < n && ins[j].key.code == ins[k].key.code
      ensures ins[j].key.pressed != ins[k].key.pressed
    {
      PrefixSame(ins, n, j, k);
    }
  }

  lemma NotTakenOver(ins: seq<Input>, k: nat)
    requires OneKeyboard(ins) && k < |ins|
    ensures !ins[k].remote
  {
  }

  /** A key down is not pressed again. */
  lemma DownNotPressed(ins: seq<Input>, k: nat)
    requires OneKeyboard(ins) && k < |ins| && DownConsumed(ins, k, ins[k].key.code)
    ensures !ins[k].key.pressed
  {
    var j :| JustBefore(ins, j, k) && ins[j].key.code == ins[k].key.code && ins[j].Consumed();
  }

  /** Then every slot is for a key down by a consumed press, and no two for one. */
  lemma {:induction false} SlotsAreOfKeysDown(ins: seq<Input>, code: nat)
    requires OneKeyboard(ins)
    ensures Slots(ins)[code] <= 1 && (code in Slots(ins) ==> DownConsumed(ins, |ins|, code))
  {
    hide Input.Noted, Input.SwitchesVT, DownConsumed, OneKeyboard;
    if ins != [] {
      var n := |ins| - 1;
      PressedConsumed(ins[n]);
      NotTakenOver(ins, n);
      OneKeyboardPrefix(ins, n);
      SlotsAreOfKeysDown(ins[..n], code);
      DownPrefix(ins, n, n, code);
      DownStep(ins, code);
      if DownConsumed(ins, n, ins[n].key.code) { DownNotPressed(ins, n); }
    }
  }

  /** So no release is swallowed that should be told: those astray are of keys down that have no slot. */
  lemma AstrayAreStray(ins: seq<Input>, k: nat)
    requires OneKeyboard(ins) && k < |ins| && Astray(ins, k)
    ensures Withheld(ins, k) && Added(Run(ins[..k]).table, ins[k]) == [ins[k].key] && !ins[k].key.pressed
  {
    hide Run, Input.Consumed, Slots, Tracks;
    OneKeyboardPrefix(ins, k);
    SlotsAreOfKeysDown(ins[..k], ins[k].key.code);
    DownPrefix(ins, k, k, ins[k].key.code);
    assert |ins[..k]| == k;
    TableTracks(ins[..k]);
    RoomWhileFewerThanEight(Run(ins[..k]).table, Slots(ins[..k]));
    PressedConsumed(ins[k]);
  }

  lemma PressedConsumed(i: Input)
    ensures i.Consumed() ==> i.key.pressed
  {
  }

  ghost function Count(keys: seq<Key>, pressed: bool): nat {
    if keys == [] then 0
    else Count(keys[..|keys| - 1], pressed) + (if keys[|keys| - 1].pressed == pressed then 1 else 0)
  }

  lemma CountAdded(keys: seq<Key>, more: seq<Key>, pressed: bool)
    requires |more| <= 1
    ensures Count(keys + more, pressed) == Count(keys, pressed) + Count(more, pressed)
  {
    if more == [] {
      assert keys + more == keys;
    } else {
      assert (keys + more)[..|keys|] == keys && more[..0] == [];
    }
  }

  ghost function StraysIn(ins: seq<Input>): nat {
    if ins == [] then 0
    else StraysIn(ins[..|ins| - 1]) + (if Astray(ins, |ins| - 1) then 1 else 0)
  }

  ghost function LostIn(ins: seq<Input>): nat {
    if ins == [] then 0
    else LostIn(ins[..|ins| - 1]) + (if ins[|ins| - 1].Lost() then 1 else 0)
  }

  /** What one event does to the counts of releases and of presses. */
  lemma CountsOfOne(ins: seq<Input>, k: nat)
    requires OneKeyboard(ins) && k < |ins|
    ensures var added, should := Added(Run(ins[..k]).table, ins[k]), ShouldAdd(ins, k);
            && |added| <= 1 && |should| <= 1
            && Count(added, false) == Count(should, false) + (if Astray(ins, k) then 1 else 0)
            && Count(added, true) + (if ins[k].Lost() then 1 else 0) == Count(should, true)
  {
    hide Run, OneKeyboard, Input.Noted, Input.ForShell, Input.SwitchesVT, DownConsumed;
    CountOne(ins[k].key);
    AddedAsExpected(ins, k);
    if Astray(ins, k) { AstrayAreStray(ins, k); }
    hide Astray;
  }

  lemma CountOne(key: Key)
    ensures Count([key], false) == (if key.pressed then 0 else 1) && Count([key], true) == (if key.pressed then 1 else 0)
    ensures Count([], false) == 0 && Count([], true) == 0
  {
    assert [key][..0] == [];
  }

  /** Every release astray is one too many... */
  lemma {:induction false} ReleasesCounted(ins: seq<Input>)
    requires OneKeyboard(ins)
    ensures Count(Run(ins).Stream(), false) == Count(Expected(ins), false) + StraysIn(ins)
  {
    if ins != [] {
      hide Run, Expected, Added, ShouldAdd, Astray, Count, OneKeyboard;
      var n := |ins| - 1;
      assert ins[..n + 1] == ins;
      OneKeyboardPrefix(ins, n);
      ReleasesCounted(ins[..n]);
      RunStep(ins, n);
      CountsOfOne(ins, n);
      CountAdded(Run(ins[..n]).Stream(), Added(Run(ins[..n]).table, ins[n]), false);
      CountAdded(Expected(ins[..n]), ShouldAdd(ins, n), false);
    }
  }

  /** ... and every press lost one too few. */
  lemma {:induction false} PressesCounted(ins: seq<Input>)
    requires OneKeyboard(ins)
    ensures Count(Run(ins).Stream(), true) + LostIn(ins) == Count(Expected(ins), true)
  {
    if ins != [] {
      hide Run, Expected, Added, ShouldAdd, Input.Lost, Count, OneKeyboard;
      var n := |ins| - 1;
      assert ins[..n + 1] == ins;
      OneKeyboardPrefix(ins, n);
      PressesCounted(ins[..n]);
      RunStep(ins, n);
      CountsOfOne(ins, n);
      CountAdded(Run(ins[..n]).Stream(), Added(Run(ins[..n]).table, ins[n]), true);
      CountAdded(Expected(ins[..n]), ShouldAdd(ins, n), true);
    }
  }

  lemma AstrayPrefix(ins: seq<Input>, n: nat, k: nat)
    requires k < n <= |ins|
    ensures Astray(ins[..n], k) <==> Astray(ins, k)
  {
    hide Slots, DownConsumed;
    assert ins[..n][..k] == ins[..k];
    DownPrefix(ins, n, k, ins[k].key.code);
  }

  lemma CleanStep(ins: seq<Input>, n: nat)
    requires n + 1 == |ins|
    ensures Clean(ins) <==> Clean(ins[..n]) && !Astray(ins, n) && !ins[n].Lost()
  {
    hide Input.Lost, Astray;
    forall k | 0 <= k < n
      ensures Astray(ins[..n], k) <==> Astray(ins, k)
    {
      AstrayPrefix(ins, n, k);
    }
  }

  lemma {:induction false} CleanIsNoneCounted(ins: seq<Input>)
    ensures Clean(ins) <==> StraysIn(ins) == 0 && LostIn(ins) == 0
  {
    if ins != [] {
      hide Input.Lost, Astray, Clean;
      CleanStep(ins, |ins| - 1);
      CleanIsNoneCounted(ins[..|ins| - 1]);
    } else {
      assert Clean(ins);
    }
  }

  /** With no takeover nothing makes up for a release astray: the stream is the right one in the end just when it was
    all along. */
  lemma StreamIsExpectedExactlyWhenClean(ins: seq<Input>)
    requires OneKeyboard(ins)
    ensures Run(ins).Stream() == Expected(ins) <==> Clean(ins)
  {
    hide Run, Expected, Clean, OneKeyboard;
    StreamRightThroughoutExactlyWhenClean(ins);
    if Clean(ins) {
      assert RightAfter(ins, |ins|) && ins[..|ins|] == ins;
    } else {
      ReleasesCounted(ins);
      PressesCounted(ins);
      CleanIsNoneCounted(ins);
    }
  }

  /** The keys down by a consumed press. */
  ghost function Downs(ins: seq<Input>): set<nat> {
    if ins == [] then {}
    else
      var before, i := Downs(ins[..|ins| - 1]), ins[|ins| - 1];
      if i.Consumed() then before + {i.key.code} else before - {i.key.code}
  }

  lemma {:induction false} DownsAre(ins: seq<Input>, code: nat)
    ensures code in Downs(ins) <==> DownConsumed(ins, |ins|, code)
  {
    if ins != [] {
      hide Input.Consumed;
      var n := |ins| - 1;
      DownsAre(ins[..n], code);
      DownPrefix(ins, n, n, code);
      DownStep(ins, code);
    }
  }

  /** It is clean while no VT is switched to, no key has the code 0, and no more than eight consumed keys are ever
    down at once. */
  lemma EightKeysAreClean(ins: seq<Input>)
    requires OneKeyboard(ins) && forall k :: 0 <= k < |ins| ==> ins[k].key.code != 0 && !ins[k].SwitchesVT()
    requires forall k :: 0 <= k <= |ins| ==> |Downs(ins[..k])| <= SLOTS
    ensures Clean(ins)
  {
    forall k | 0 <= k < |ins|
      ensures !Astray(ins, k)
    {
      hide Slots, DownConsumed, Downs, OneKeyboard;
      AllHaveSlots(ins, k);
      DownsAre(ins[..k], ins[k].key.code);
      DownPrefix(ins, k, k, ins[k].key.code);
      assert |ins[..k]| == k;
    }
  }

  lemma DownsNotPressed(ins: seq<Input>, k: nat)
    requires OneKeyboard(ins) && k < |ins| && ins[k].key.code in Downs(ins[..k])
    ensures !ins[k].key.pressed
  {
    hide OneKeyboard, DownConsumed, Downs;
    DownsAre(ins[..k], ins[k].key.code);
    assert |ins[..k]| == k;
    DownPrefix(ins, k, k, ins[k].key.code);
    DownNotPressed(ins, k);
  }

  lemma {:induction false} AllHaveSlots(ins: seq<Input>, k: nat)
    requires OneKeyboard(ins) && k <= |ins| && forall k :: 0 <= k < |ins| ==> !ins[k].SwitchesVT()
    requires forall k :: 0 <= k <= |ins| ==> |Downs(ins[..k])| <= SLOTS
    ensures Slots(ins[..k]) == multiset(Downs(ins[..k]))
  {
    hide Slots, Downs, OneKeyboard, Input.Consumed, Input.SwitchesVT;
    if k > 0 {
      AllHaveSlots(ins, k - 1);
      var all := ins[..k];
      assert all[..k - 1] == ins[..k - 1];
      NotTakenOver(ins, k - 1);
      if ins[k - 1].key.code in Downs(ins[..k - 1]) { DownsNotPressed(ins, k - 1); }
      AllHaveSlotsStep(all);
    } else {
      NoneDown();
    }
  }

  lemma NoneDown()
    ensures Slots([]) == multiset{} && Downs([]) == {} && multiset(Downs([])) == multiset{}
  {
  }

  lemma AllHaveSlotsStep(ins: seq<Input>)
    requires ins != [] && |Downs(ins)| <= SLOTS
    requires var before, i := ins[..|ins| - 1], ins[|ins| - 1];
             Slots(before) == multiset(Downs(before)) && !i.remote && !i.SwitchesVT()
             && (i.key.pressed ==> i.key.code !in Downs(before))
    ensures Slots(ins) == multiset(Downs(ins))
  {
    hide Input.Noted, Input.SwitchesVT;
    var before, i := Downs(ins[..|ins| - 1]), ins[|ins| - 1];
    PressedConsumed(i);
    var code := i.key.code;
    if i.Noted() {
      assert |before + {code}| == |before| + 1;
      assert multiset(before + {code}) == multiset(before) + multiset{code};
    } else if i.key.pressed {
      assert before - {code} == before;
    } else {
      assert multiset(before - {code}) == multiset(before) - multiset{code};
    }
  }

  function Plain(code: nat, pressed: bool): Input {
    Input(Key(code, pressed), false, false, false, false, [], true, false, false, false, false, false)
  }

  /** A switch to another VT takes no slot: the key's release, if next, is told. */
  lemma {:induction false} VTSwitchLeaksTheNext(ins: seq<Input>, press: Input, letGo: Input)
    requires press.key.code !in Slots(ins) && press.Consumed() && !press.Noted() && !press.remote
    requires letGo.key == Key(press.key.code, false) && !letGo.remote
    ensures Run(ins + [press, letGo]).Stream() == Run(ins).Stream() + [letGo.key]
    ensures Expected(ins + [press, letGo]) == Expected(ins)
  {
    hide Run, Expected, Slots, DownConsumed, Input.Reserved, Input.ForSwitcher, Input.SwitchesVT;
    assert ins + [press, letGo] == ins + [press] + [letGo];
    OneMore(ins, press);
    OneMoreExpected(ins, press);
    OneMoreDown(ins, press, press.key.code);
    OneMore(ins + [press], letGo);
    OneMoreExpected(ins + [press], letGo);
  }

  const TO_VT := Plain(59, true).(alt := true, syms := [SwitchVT(1)], maySwitchVT := true)

  lemma ToVTNotNoted()
    ensures TO_VT.Consumed() && !TO_VT.Noted() && TO_VT.key == Key(59, true) && !TO_VT.remote
  {
  }

  /** The window is told of a release of a key it never saw pressed. */
  lemma VTSwitchLeaksARelease()
    ensures var ins := [TO_VT, Plain(59, false)];
            OneKeyboard(ins) && Expected(ins) == [] && Run(ins).Stream() == [Key(59, false)]
  {
    ToVTNotNoted();
    NothingYet();
    hide Run, Expected, Slots, TO_VT;
    assert [] + [TO_VT, Plain(59, false)] == [TO_VT, Plain(59, false)];
    VTSwitchLeaksTheNext([], TO_VT, Plain(59, false));
  }

  lemma NothingYet()
    ensures Run([]).Stream() == [] && Expected([]) == [] && Slots([]) == multiset{}
    ensures forall code: nat :: !DownConsumed([], 0, code)
  {
  }

  /** A press that is to wait is lost when its code is 0. */
  lemma CodeZeroIsLost()
    ensures var ins := [Plain(0, true).(syms := [SuperL], desktopTakes := true)];
            Expected(ins) == [Key(0, true)] && Run(ins).Stream() == []
  {
    var press := Plain(0, true).(syms := [SuperL], desktopTakes := true);
    var ins := [press];
    assert ins[..0] == [];
    assert press.Waits();
  }

  /** A key consumed while the table is full: its release, if next, is told. */
  lemma NinthKeyLeaksItsRelease(ins: seq<Input>, press: Input, letGo: Input)
    requires OneKeyboard(ins + [press, letGo]) && |Slots(ins)| >= SLOTS
    requires press.Noted() && letGo.key == Key(press.key.code, false)
    ensures Run(ins + [press, letGo]).Stream() != Expected(ins + [press, letGo])
  {
    hide Run, Expected, Input.Noted, Clean;
    var all, n, code := ins + [press, letGo], |ins|, press.key.code;
    var one := all[..n + 1];
    assert one == ins + [press] && one[..n] == ins;
    assert JustBefore(all, n, n + 1) && all[n].Consumed();
    assert DownConsumed(all, n + 1, code);
    NoSlotTaken(ins, press, all);
    NotClean(all, n + 1);
    StreamIsExpectedExactlyWhenClean(all);
  }

  lemma NoSlotTaken(ins: seq<Input>, press: Input, all: seq<Input>)
    requires OneKeyboard(all) && |ins| < |all| && ins == all[..|ins|] && press == all[|ins|]
    requires press.Noted() && |Slots(ins)| >= SLOTS
    ensures press.key.code !in Slots(all[..|ins| + 1])
  {
    hide Input.Noted;
    var n := |ins|;
    assert all[..n + 1][..n] == ins;
    OneKeyboardPrefix(all, n);
    SlotsAreOfKeysDown(ins, press.key.code);
    DownPrefix(all, n, n, press.key.code);
    PressedConsumed(press);
    if DownConsumed(all, n, press.key.code) { DownNotPressed(all, n); }
  }

  lemma NotClean(ins: seq<Input>, k: nat)
    requires k < |ins| && Astray(ins, k)
    ensures !Clean(ins)
  {
  }

  function MutePress(code: nat): Input {
    Plain(code, true).(syms := [Mute])
  }

  lemma MutePressNoted(code: nat)
    ensures MutePress(code).Noted() && MutePress(code).key == Key(code, true) && !MutePress(code).remote
  {
    assert MutePress(code).ActOn(MutePress(code).syms[0]).Just?;
  }

  /** That many keys muting, one after another. */
  function Mutes(n: nat): seq<Input> {
    if n == 0 then [] else Mutes(n - 1) + [MutePress(n)]
  }

  lemma {:induction false} MutesAre(n: nat)
    ensures |Mutes(n)| == n && forall k :: 0 <= k < n ==> Mutes(n)[k] == MutePress(k + 1)
  {
    hide MutePress;
    if n > 0 { MutesAre(n - 1); }
  }

  lemma {:induction false} MutesTakeSlots(n: nat)
    requires n <= SLOTS
    ensures |Slots(Mutes(n))| == n
  {
    hide MutePress, Input.Noted, Slots, Run, Input.Consumed;
    if n > 0 {
      MutesTakeSlots(n - 1);
      MutePressNoted(n);
      OneMore(Mutes(n - 1), MutePress(n));
    } else {
      NothingYet();
    }
  }

  /** Nine keys muting at once: the ninth's release is told. */
  lemma NineKeysLeak()
    ensures var ins := Mutes(8) + [MutePress(9), Plain(9, false)];
            OneKeyboard(ins) && Run(ins).Stream() != Expected(ins)
  {
    hide MutePress, Input.Noted, Mutes, Slots, Run, Expected, Input.Consumed;
    MutesAre(8);
    MutesTakeSlots(8);
    MutePressNoted(9);
    var all := Mutes(8) + [MutePress(9), Plain(9, false)];
    forall k | 0 <= k < 10
      ensures all[k].key.code == (if k < 9 then k + 1 else 9) && all[k].key.pressed == (k < 9) && !all[k].remote
    {
      if k < 8 { MutePressNoted(k + 1); }
    }
    NinthKeyLeaksItsRelease(Mutes(8), MutePress(9), Plain(9, false));
  }

  /** A release dropped during a takeover leaves its slot taken. Pressed again the key is told, and its release, if
    next, is swallowed: the window has a key pressed and never let go. */
  lemma {:induction false} DroppedReleaseSwallowsTheNext(ins: seq<Input>, dropped: Input, press: Input, letGo: Input)
    requires press.key.code in Slots(ins) && dropped.remote && !dropped.IsAttention()
    requires press.key.pressed && !press.remote && !press.Consumed()
    requires letGo.key == Key(press.key.code, false) && !letGo.remote
    ensures Astray(ins + [dropped, press, letGo], |ins| + 2)
    ensures Run(ins + [dropped, press, letGo]).Stream() == Run(ins + [dropped, press]).Stream()
    ensures Expected(ins + [dropped, press, letGo]) == Expected(ins + [dropped, press]) + [letGo.key]
    ensures Slots(ins + [dropped, press, letGo]) == Slots(ins) - multiset{press.key.code}
  {
    hide Run, Expected, Slots, DownConsumed, Input.Reserved, Input.ForSwitcher, Input.SwitchesVT;
    var all, n := ins + [dropped, press, letGo], |ins|;
    var one, two := ins + [dropped], ins + [dropped, press];
    assert two == one + [press] && all == two + [letGo] && all[..n + 2] == two;
    OneMore(ins, dropped);
    OneMore(one, press);
    OneMoreDown(one, press, press.key.code);
    OneMore(two, letGo);
    OneMoreExpected(two, letGo);
    DownPrefix(all, n + 2, n + 2, letGo.key.code);
  }

  const MUTED := MutePress(59)
  const DROPPED := Plain(59, false).(remote := true)

  lemma MutedNoted()
    ensures MUTED.Noted() && MUTED.key == Key(59, true) && !MUTED.remote
    ensures !Plain(59, true).Consumed() && !Plain(59, true).ForShell()
  {
    MutePressNoted(59);
  }

  /** As when the mute key's release comes during a takeover. */
  lemma DroppedReleaseSwallowsALater()
    ensures var ins := [MUTED, DROPPED, Plain(59, true), Plain(59, false)];
            Run(ins).Stream() == [Key(59, true)] && Expected(ins) == [Key(59, true), Key(59, false)] && !Clean(ins)
            && Slots(ins) == multiset{}
  {
    MutedNoted();
    NothingYet();
    hide Run, Expected, Slots, Astray, DownConsumed, MUTED;
    var a, b, c, d := MUTED, DROPPED, Plain(59, true), Plain(59, false);
    OneMore([], a);
    OneMoreExpected([], a);
    assert [] + [a] == [a] && Slots([a]) == multiset{59};
    DroppedReleaseSwallowsTheNext([a], b, c, d);
    assert [a] + [b, c, d] == [a, b, c, d] && [a] + [b] == [a, b] && [a] + [b, c] == [a, b] + [c];
    NotClean([a, b, c, d], 3);
    OneMore([a], b);
    OneMoreExpected([a], b);
    OneMore([a, b], c);
    OneMoreExpected([a, b], c);
  }

  /** With takeovers the stream can be right in the end that was not all along: if the key then switches to another VT,
    the release told that should not be stands for the one swallowed. */
  lemma TwoWrongsCancel()
    ensures var ins := [MUTED, DROPPED, Plain(59, true), Plain(59, false)] + [TO_VT, Plain(59, false)];
            Run(ins).Stream() == Expected(ins) && !Clean(ins)
  {
    ToVTNotNoted();
    DroppedReleaseSwallowsALater();
    hide Run, Expected, Slots, Clean, MUTED, TO_VT, DROPPED;
    var ins := [MUTED, DROPPED, Plain(59, true), Plain(59, false)];
    VTSwitchLeaksTheNext(ins, TO_VT, Plain(59, false));
    var all := ins + [TO_VT, Plain(59, false)];
    assert all[..4] == ins;
    if Clean(all) { CleanPrefix(all, 4); }
  }

  lemma CleanPrefix(ins: seq<Input>, n: nat)
    requires n <= |ins| && Clean(ins)
    ensures Clean(ins[..n])
  {
    hide Astray;
    forall k | 0 <= k < n
      ensures !Astray(ins[..n], k)
    {
      AstrayPrefix(ins, n, k);
    }
  }

  lemma {:induction false} FirstIs(table: seq<nat>, x: nat, k: nat)
    requires k < |table| && table[k] == x && x !in table[..k]
    ensures First(table, x) == k
  {
    if k > 0 {
      assert table[..k] == [table[0]] + table[1..][..k - 1];
      FirstIs(table[1..], x, k - 1);
    }
  }

  class Keyboard {
    const consumed: array<nat>
    var held: nat
    var switching: nat
    var out: seq<Key>
    var acts: seq<Act>

    constructor ()
      ensures Now() == START && acts == [] && fresh(consumed)
    {
      consumed := new nat[SLOTS](_ => 0);
      held, switching, out, acts := 0, 0, [], [];
    }

    ghost function Now(): State
      reads this, consumed
    {
      State(consumed[..], held, switching, out)
    }

    method TakeConsumedRelease(keycode: nat) returns (taken: bool)
      modifies consumed
      ensures taken <==> keycode in old(consumed[..])
      ensures consumed[..] == Unmarked(old(consumed[..]), keycode)
    {
      for k := 0 to consumed.Length
        invariant keycode !in consumed[..k] && consumed[..] == old(consumed[..])
      {
        if consumed[k] == keycode {
          FirstIs(consumed[..], keycode, k);
          consumed[k] := 0;
          return true;
        }
      }
      return false;
    }

    method MarkConsumed(keycode: nat)
      modifies consumed
      ensures consumed[..] == Marked(old(consumed[..]), keycode)
    {
      for k := 0 to consumed.Length
        invariant 0 !in consumed[..k] && consumed[..] == old(consumed[..])
      {
        if consumed[k] == 0 {
          FirstIs(consumed[..], 0, k);
          consumed[k] := keycode;
          return;
        }
      }
    }

    method HandleReservedKey(i: Input) returns (act: Maybe<Act>)
      ensures act.Just? <==> i.Reserved()
      ensures act.Just? ==> i.Reserves(act.value)
    {
      for k := 0 to |i.syms|
        invariant forall j :: 0 <= j < k ==> i.ActOn(i.syms[j]).Nothing?
      {
        act := i.ActOn(i.syms[k]);
        if act.Just? {
          return;
        }
      }
      act := Nothing;
    }

    method SwitchesVT(i: Input) returns (handled: bool)
      requires i.alt
      ensures handled <==> i.SwitchesVT()
    {
      handled := false;
      for k := 0 to |i.syms|
        invariant handled <==> k > 0 && i.maySwitchVT && i.syms[k - 1].SwitchVT? && 1 <= i.syms[k - 1].n <= 12
      {
        var sym := i.syms[k];
        handled := i.maySwitchVT && sym.SwitchVT? && 1 <= sym.n <= 12;
      }
    }

    method HandleKey(i: Input)
      modifies this, consumed
      ensures Now() == Step(old(Now()), i)
      ensures exists more :: Does(old(Now()), i, more)
                             && acts == old(acts) + (if i.viewed && i.IsAttention() then [EndViewing] else []) + more
    {
      if i.viewed && i.IsAttention() {
        acts := acts + [EndViewing];
      }
      if i.remote {
        assert Does(Now(), i, if i.IsAttention() then [TakeBack] else []);
        if i.IsAttention() {
          acts := acts + [TakeBack];
          MarkConsumed(Keycode(i.key.code));
        }
      } else {
        ghost var more := LocalKey(i);
      }
    }

    /** A key that no one has taken over: the waiting press goes first. */
    method LocalKey(i: Input) returns (ghost more: seq<Act>)
      requires !i.remote
      modifies this, consumed
      ensures Now() == Step(old(Now()), i) && Does(old(Now()), i, more) && acts == old(acts) + more
    {
      hide Input.Reserved, Input.Reserves, Input.ActOn, Input.Has;
      var keycode := Keycode(i.key.code);
      var handled := false;
      more := [];
      if held != 0 {
        var waiting := held;
        held := 0;
        out := out + [Key(waiting, true)];
      }
      if !i.key.pressed {
        handled := TakeConsumedRelease(keycode);
        if handled && switching == keycode {
          switching := 0;
          acts, more := acts + [BackToSession], [BackToSession];
        }
      } else {
        var act := HandleReservedKey(i);
        if act.Just? {
          acts, more := acts + [act.value], [act.value];
          MarkConsumed(keycode);
          handled := true;
        } else if i.ForSwitcher() {
          MarkConsumed(keycode);
          switching := keycode;
          handled := true;
        } else if i.alt {
          handled := SwitchesVT(i);
        }
      }
      if !handled && i.key.pressed && i.ForShell() && i.desktopTakes {
        held := i.key.code;
        handled := true;
      }
      if !handled {
        out := out + [i.key];
      }
    }

    method HandleAll(ins: seq<Input>)
      requires Now() == START
      modifies this, consumed
      ensures Now() == Run(ins)
      ensures Clean(ins) ==> Now().Stream() == Expected(ins)
      ensures OneKeyboard(ins) ==> (Now().Stream() == Expected(ins) <==> Clean(ins))
    {
      for k := 0 to |ins|
        invariant Now() == Run(ins[..k])
      {
        assert ins[..k + 1][..k] == ins[..k];
        HandleKey(ins[k]);
      }
      assert ins[..|ins|] == ins;
      StreamRightThroughoutExactlyWhenClean(ins);
      assert Clean(ins) ==> RightAfter(ins, |ins|);
      if OneKeyboard(ins) { StreamIsExpectedExactlyWhenClean(ins); }
    }
  }
}
