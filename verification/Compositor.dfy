/** The compositor's state machine: the lock (lock.c), the windows' views (view.c, session_x11.c, wayland_app.c,
  elevated.c) and the seat's focus (seat.c).

  Every path that shows a view or gives it the focus has to respect the mode. The invariant `Valid` says what
  that means; every method keeps it, so it holds after any run of them.
 */
module Compositor {
  import opened SessionProtocol

  /** A Wayland surface of a client; `view` is the view it is mapped for. */
  class Surface {
    const client: int
    var view: View?

    constructor (client: int)
      ensures this.client == client && view == null
    {
      this.client, view := client, null;
    }
  }

  /** A window. It is mapped while it has a surface; `enabled` says its node is shown. */
  class View {
    const elevated: bool      // of an elevated program's display
    const unmanaged: bool     // override-redirect: a menu, a list, a tooltip
    const primary: bool       // has no parent: not moved to the front by the focus
    const program: bool       // a Linux program's X11 window, which the taskbar may frame
    const shell: bool         // the shell's desktop
    const wantsFocus: bool    // an X11 window may refuse the focus
    var surface: Surface?
    var enabled: bool
    var minimized: bool

    constructor (elevated: bool, unmanaged: bool, primary: bool, program: bool, shell: bool, wantsFocus: bool)
      ensures surface == null && !minimized && !enabled
    {
      this.elevated, this.unmanaged, this.primary := elevated, unmanaged, primary;
      this.program, this.shell, this.wantsFocus := program, shell, wantsFocus;
      surface, enabled, minimized := null, false, false;
    }
  }

  /** A WATCH connection: how many events there had been, and those it was told. */
  datatype Watcher = Watcher(id: int, from: nat, told: seq<Event>)

  /** A SESSION connection: likewise, and its opening reply. */
  datatype SessionWatcher = SessionWatcher(id: int, from: nat, opening: Status, told: seq<Note>)

  datatype Connection = NoOne | Client(id: int)

  /** What is found under the cursor: nothing, or a view and the surface of it, or of a menu of its, that is there. */
  datatype Under = Nowhere | On(view: View, surface: Surface)

  class Server {
    const accounts: Accounts
    const backend: bool                      // Remote Desktop has an output to be had
    var locked: bool
    var secure: bool
    var sas: bool
    var told: Status                         // what the SESSION connections were last told
    var dimmed: bool
    var privileged: set<int>                 // clients of the privileged socket
    var watchers: seq<Watcher>
    var sessionWatchers: seq<SessionWatcher>
    var hungUp: set<int>                     // connections whose next send fails
    var remote: bool
    var remoteClient: Connection
    var shadowClient: Connection
    var views: seq<View>                     // the mapped views, the front one first
    var holds: seq<View>                     // views the taskbar is about to frame
    var keyboard: Surface?                   // the surface the keys go to
    var pointer: Surface?                    // the surface the pointer is on
    var hits: seq<Under>                     // what the next looks under the cursor will find, if it is shown then
    ghost var mapped: set<View>              // the views, in no order
    ghost var known: set<Surface>            // all surfaces
    ghost var leaving: set<int>              // clients being destroyed
    var events: seq<Event>                   // all that was said to WATCH connections
    var notes: seq<Note>                     // all that was said to SESSION connections

    // ----- the invariant

    ghost predicate Shape()
      reads this`views, this`mapped, this`holds, this`keyboard, this`known, mapped`surface, known`view
    {
      && Distinct(views) && Distinct(holds)
      && (forall v :: v in views ==> v in mapped) && (forall v :: v in mapped ==> v in views)
      && (forall v :: v in mapped ==> v.surface != null && v.surface in known && v.surface.view == v)
      && (forall s :: s in known && s.view != null ==> s.view in mapped && s.view.surface == s)
      && (keyboard != null ==> keyboard in known)
      && (forall h :: h in holds ==> h in mapped)
    }

    /** The surface's client is privileged, or going away and was. */
    ghost predicate Trusted(s: Surface)
      reads this`privileged, this`leaving
    {
      s.client in privileged || s.client in leaving
    }

    /** While locked, keys and pointer go to privileged clients or to no one, and under a lock or the
      security screen nothing else is shown. */
    ghost predicate Isolated()
      reads this`locked, this`secure, this`keyboard, this`pointer, this`mapped, this`privileged, this`leaving
      reads mapped`surface, mapped`enabled
    {
      && (locked && keyboard != null ==> Trusted(keyboard))
      && (locked && pointer != null ==> Trusted(pointer))
      && (locked && !secure ==> forall v :: v in mapped && v.surface != null && v.enabled ==> Trusted(v.surface))
    }

    /** While unlocked, a view is shown exactly when it is not minimized, holds aside. */
    ghost predicate Shown()
      reads this`locked, this`mapped, this`holds, mapped`enabled, mapped`minimized
    {
      !locked ==> forall v :: v in mapped && v !in holds ==> (v.enabled <==> !v.minimized)
    }

    /** Three booleans, four modes; the dimming is on exactly under a secure prompt. */
    ghost predicate Moded()
      reads this`locked, this`secure, this`sas, this`dimmed
    {
      (secure || sas ==> locked) && !(secure && sas) && (dimmed <==> secure)
    }

    function ModeNow(): Mode
      reads this`locked, this`secure, this`sas
    {
      if !locked then Unlocked else if secure then Secure else if sas then SecurityScreen else Locked
    }

    function StatusNow(): Status
      reads this`locked, this`secure, this`sas, this`remote, this`shadowClient
    {
      Status(locked && !secure && !sas, remote, shadowClient != NoOne)
    }

    /** Each WATCH connection was told what has been said since it registered, and nothing else. */
    ghost predicate WatchLogs()
      reads this`watchers, this`events
    {
      forall w :: w in watchers ==> w.from <= |events| && w.told == events[w.from..]
    }

    /** Each SESSION connection likewise, over an opening reply that told it the session; `told` is what
      all of it adds up to. */
    ghost predicate SessionLogs()
      reads this`sessionWatchers, this`notes, this`told
    {
      && (forall w :: w in sessionWatchers ==> SessionLog(w))
      && Replayed(Status(false, false, false), notes) == told
    }

    ghost predicate SessionLog(w: SessionWatcher)
      reads this`notes
    {
      && w.from <= |notes| && w.told == notes[w.from..]
      && w.opening == Replayed(Status(false, false, false), notes[..w.from])
    }

    /** The connections and the protocol. */
    ghost predicate Connected()
      reads this`locked, this`secure, this`sas, this`dimmed, this`remote, this`shadowClient
      reads this`watchers, this`events, this`sessionWatchers, this`notes, this`told
    {
      && Moded() && WatchLogs() && SessionLogs() && told == StatusNow()
      && ModeRead(Unlocked, events) == ModeNow()
      && !(remote && shadowClient != NoOne)
    }

    /** Everything, but that a remote connection was handed over for a takeover that is still to come. */
    ghost predicate Taking()
      reads this, mapped, known
    {
      Shape() && Isolated() && Shown() && Connected()
    }

    ghost predicate Valid()
      reads this, mapped, known
    {
      Taking() && (remoteClient != NoOne ==> remote)
    }

    /** What the invariant says: while locked, keys and pointer are on privileged clients' surfaces or on none; under a
      lock or the security screen nothing else is shown; while unlocked a view is shown unless minimized, holds aside;
      the dimming is on just under a prompt; no one views a session taken over. */
    lemma ValidIs()
      requires Valid() && leaving == {}
      ensures locked && keyboard != null ==> keyboard.client in privileged
      ensures locked && pointer != null ==> pointer.client in privileged
      ensures locked && !secure ==> forall v :: v in views && v.enabled ==> v.surface != null && v.surface.client in privileged
      ensures !locked ==> forall v :: v in views && v !in holds ==> (v.enabled <==> !v.minimized)
      ensures (secure || sas ==> locked) && !(secure && sas) && (dimmed <==> secure)
      ensures !(remote && shadowClient != NoOne) && (remoteClient != NoOne ==> remote)
      ensures forall v :: v in views ==> v.surface != null && v.surface.view == v
      ensures forall j, k :: 0 <= j < k < |views| ==> views[j] != views[k]
      ensures forall h :: h in holds ==> h in views
    {
    }

    /** And the protocol state: what the four modes are of the three flags, and what is seen of the connections. */
    lemma ProtocolIs()
      ensures var s := Protocol();
              && (s.mode == Unlocked <==> !locked) && (s.mode == Secure <==> locked && secure)
              && (s.mode == SecurityScreen <==> locked && !secure && sas) && (s.mode == Locked <==> locked && !secure && !sas)
              && s.remote == remote && (s.client <==> remoteClient != NoOne) && (s.shadow <==> shadowClient != NoOne)
              && s.backend == backend && s.events == events && s.notes == notes
      ensures StatusNow() == Status(locked && !secure && !sas, remote, shadowClient != NoOne)
    {
    }

    /** The protocol state these fields hold. */
    function Protocol(): Session
      reads this`locked, this`secure, this`sas, this`remote, this`remoteClient, this`shadowClient, this`events, this`notes
    {
      Session(ModeNow(), backend, remote, remoteClient != NoOne, shadowClient != NoOne, events, notes)
    }

    constructor (accounts: Accounts, backend: bool)
      ensures Valid() && Protocol() == Start(backend) && views == [] && watchers == [] && sessionWatchers == []
      ensures this.accounts == accounts && this.backend == backend && leaving == {} && privileged == {} && hungUp == {}
    {
      this.accounts, this.backend := accounts, backend;
      locked, secure, sas, dimmed, remote := false, false, false, false, false;
      told := Status(false, false, false);
      privileged, hungUp, leaving, known, mapped := {}, {}, {}, {}, {};
      watchers, sessionWatchers, views, holds, events, notes := [], [], [], [], [], [];
      remoteClient, shadowClient := NoOne, NoOne;
      keyboard, pointer, hits := null, null, [];
    }

    // ----- what the connections are told

    /** Every WATCH connection is sent an event; those that cannot be reached are dropped. */
    method SendWatchers(event: Event)
      requires WatchLogs()
      modifies this`watchers, this`events
      ensures WatchLogs() && events == old(events) + [event]
      ensures watchers == Heard(old(watchers), hungUp, event)
    {
      var kept: seq<Watcher> := [];
      ghost var next := events + [event];
      var k := 0;
      while k < |watchers|
        invariant 0 <= k <= |watchers| && watchers == old(watchers)
        invariant forall w :: w in kept ==> w.from <= |next| && w.told == next[w.from..]
        invariant kept == Heard(watchers[..k], hungUp, event)
      {
        var u := watchers[k];
        assert watchers[..k + 1][..k] == watchers[..k];
        if u.id !in hungUp {
          assert next[u.from..] == events[u.from..] + [event];
          kept := kept + [u.(told := u.told + [event])];
        }
        k := k + 1;
      }
      assert watchers[..k] == watchers;
      watchers := kept;
      events := events + [event];
    }

    /** Every SESSION connection is sent a note; those that cannot be reached are dropped. */
    method SendSession(note: Note)
      requires SessionLogs()
      modifies this`sessionWatchers, this`notes, this`told
      ensures SessionLogs() && notes == old(notes) + [note] && told == Noted(old(told), note)
      ensures sessionWatchers == HeardNote(old(sessionWatchers), hungUp, note)
    {
      var kept: seq<SessionWatcher> := [];
      ghost var next := notes + [note];
      ReplayedOneMore(Status(false, false, false), notes, note);
      hide Replayed;
      var k := 0;
      while k < |sessionWatchers|
        invariant 0 <= k <= |sessionWatchers| && sessionWatchers == old(sessionWatchers)
        invariant forall w :: w in kept ==> w.from <= |notes| && w.told == next[w.from..]
        invariant forall w :: w in kept ==> w.opening == Replayed(Status(false, false, false), notes[..w.from])
        invariant kept == HeardNote(sessionWatchers[..k], hungUp, note)
      {
        var u := sessionWatchers[k];
        assert SessionLog(u) && sessionWatchers[..k + 1][..k] == sessionWatchers[..k];
        if u.id !in hungUp {
          assert next[u.from..] == notes[u.from..] + [note];
          kept := kept + [u.(told := u.told + [note])];
        }
        k := k + 1;
      }
      assert sessionWatchers[..k] == sessionWatchers;
      sessionWatchers := kept;
      told := Noted(told, note);
      forall w | w in sessionWatchers ensures w.from <= |next| && next[..w.from] == notes[..w.from] {}
      notes := notes + [note];
    }

    method SayChange(changed: bool, note: Note)
      requires SessionLogs()
      modifies this`sessionWatchers, this`notes, this`told
      ensures SessionLogs() && notes == old(notes) + if changed then [note] else []
      ensures told == if changed then Noted(old(told), note) else old(told)
    {
      hide SessionLogs, Replayed, HeardNote;
      if changed { SendSession(note); }
    }

    /** The SESSION connections are told what changed: Remote Desktop's coming and going first. */
    method SessionUpdate()
      requires SessionLogs()
      modifies this`sessionWatchers, this`notes, this`told
      ensures SessionLogs() && told == StatusNow() && notes == old(notes) + News(old(told), StatusNow())
    {
      hide SessionLogs, Replayed, HeardNote;
      var now := StatusNow();
      SayChange(now.remote != told.remote, if now.remote then RemoteConnect else RemoteDisconnect);
      SayChange(now.locked != told.locked, if now.locked then LockNote else UnlockNote);
      SayChange(now.shadow != told.shadow, if now.shadow then ShadowStart else ShadowEnd);
    }

    method Notify(event: Event)
      requires WatchLogs() && SessionLogs()
      modifies this`watchers, this`events, this`sessionWatchers, this`notes, this`told
      ensures WatchLogs() && SessionLogs() && told == StatusNow()
      ensures events == old(events) + [event] && notes == old(notes) + News(old(told), StatusNow())
      ensures watchers == Heard(old(watchers), hungUp, event)
    {
      SendWatchers(event);
      SessionUpdate();
    }

    // ----- the seat

    function Privileged(v: View): bool
      reads this`privileged, v`surface
    {
      v.surface != null && v.surface.client in privileged
    }

    /** May the view be seen, focused or receive input now? */
    function Allowed(v: View): bool
      reads this`locked, this`privileged, v`surface
    {
      !locked || Privileged(v)
    }

    /** The view whose surface has the keyboard, if it is mapped. */
    function Focus(): View?
      reads this`keyboard, keyboard
    {
      if keyboard == null then null else keyboard.view
    }

    /** Where the keys go once a view is given the focus: it must be allowed it and want it. */
    function GivenTo(v: View?): Surface?
      reads this`keyboard, keyboard, this`locked, this`privileged, (if v == null then {} else {v})`surface
    {
      if v == null || Focus() == v || !Allowed(v) || !v.wantsFocus then keyboard else v.surface
    }

    /** The order of the views after that: transients and elevated windows come to the front. */
    function OrderWith(v: View?): seq<View>
      reads this`keyboard, keyboard, this`locked, this`privileged, this`views, (if v == null then {} else {v})`surface
    {
      if v == null || Focus() == v || !Allowed(v) || !v.wantsFocus || (v.primary && !v.elevated) then views
      else [v] + Without(views, v)
    }

    /** A view is given the focus if it wants it, has not got it, and the session is not locked or it is privileged. */
    lemma FocusGoes(v: View?)
      ensures var given := v != null && v.wantsFocus && (keyboard == null || keyboard.view != v)
                           && (!locked || (v.surface != null && v.surface.client in privileged));
              && GivenTo(v) == (if given then v.surface else keyboard)
              && OrderWith(v) == if given && (!v.primary || v.elevated) then [v] + Without(views, v) else views
    {
    }

    /** The first of some views that is a client of the privileged socket's. */
    function FirstPrivileged(vs: seq<View>): (v: View?)
      requires forall u :: u in vs ==> u in mapped
      reads this`mapped, this`privileged, mapped`surface
      ensures v != null ==> v in vs && Privileged(v)
    {
      if vs == [] then null else if Privileged(vs[0]) then vs[0] else FirstPrivileged(vs[1..])
    }

    /** The first that is not, and is not minimized. */
    function FirstOrdinary(vs: seq<View>): (v: View?)
      requires forall u :: u in vs ==> u in mapped
      reads this`mapped, this`privileged, mapped`surface, mapped`minimized
      ensures v != null ==> v in vs && !Privileged(v) && !v.minimized
    {
      if vs == [] then null else if !Privileged(vs[0]) && !vs[0].minimized then vs[0] else FirstOrdinary(vs[1..])
    }

    /** The first that is shown and neither elevated nor privileged. */
    function FirstOfSession(vs: seq<View>): (v: View?)
      requires forall u :: u in vs ==> u in mapped
      reads this`mapped, this`privileged, mapped`surface, mapped`minimized, mapped`enabled
      ensures v != null ==> v in vs && !v.elevated && !Privileged(v) && v.enabled && !v.minimized
    {
      if vs == [] then null
      else if !vs[0].elevated && !Privileged(vs[0]) && vs[0].enabled && !vs[0].minimized then vs[0]
      else FirstOfSession(vs[1..])
    }

    /** They are the first of their kind. */
    lemma {:induction false} FirstPrivilegedIs(vs: seq<View>, k: nat)
      requires (forall u :: u in vs ==> u in mapped) && k <= |vs|
      requires forall j :: 0 <= j < k ==> vs[j].surface == null || vs[j].surface.client !in privileged
      requires k < |vs| ==> vs[k].surface != null && vs[k].surface.client in privileged
      ensures FirstPrivileged(vs) == if k < |vs| then vs[k] else null
    {
      if k > 0 { FirstPrivilegedIs(vs[1..], k - 1); }
    }

    lemma {:induction false} FirstOrdinaryIs(vs: seq<View>, k: nat)
      requires (forall u :: u in vs ==> u in mapped) && k <= |vs|
      requires forall j :: 0 <= j < k ==> vs[j].minimized || (vs[j].surface != null && vs[j].surface.client in privileged)
      requires k < |vs| ==> !vs[k].minimized && (vs[k].surface == null || vs[k].surface.client !in privileged)
      ensures FirstOrdinary(vs) == if k < |vs| then vs[k] else null
    {
      if k > 0 { FirstOrdinaryIs(vs[1..], k - 1); }
    }

    lemma {:induction false} FirstOfSessionIs(vs: seq<View>, k: nat)
      requires (forall u :: u in vs ==> u in mapped) && k <= |vs|
      requires forall j :: 0 <= j < k ==>
        vs[j].elevated || !vs[j].enabled || vs[j].minimized || (vs[j].surface != null && vs[j].surface.client in privileged)
      requires k < |vs| ==>
        !vs[k].elevated && vs[k].enabled && !vs[k].minimized && (vs[k].surface == null || vs[k].surface.client !in privileged)
      ensures FirstOfSession(vs) == if k < |vs| then vs[k] else null
    {
      if k > 0 { FirstOfSessionIs(vs[1..], k - 1); }
    }

    /** What is under the cursor: a shown view and one of its client's surfaces, or nothing. */
    method UnderCursor() returns (u: Under)
      modifies this`hits
      ensures hits == if old(hits) == [] then [] else old(hits)[1..]
      ensures u.On? <==> old(hits) != [] && old(hits)[0].On? && var v := old(hits)[0].view;
                         v in views && v.enabled && v.surface != null && old(hits)[0].surface.client == v.surface.client
      ensures u.On? ==> u == old(hits)[0]
    {
      u := Nowhere;
      if hits == [] { return; }
      var h := hits[0];
      hits := hits[1..];
      if h.On? && h.view in views && h.view.enabled && h.view.surface != null && h.surface.client == h.view.surface.client {
        u := h;
      }
    }

    /** The pointer moved, or what is under it did; `grabbed`: a window being moved or resized takes the motion. Else the
      pointer is on the surface there, if its view may have it, or on nothing. */
    method CursorMotion(grabbed: bool)
      modifies this`pointer, this`hits
      ensures pointer == old(pointer) || pointer == null || !locked || pointer.client in privileged
      ensures grabbed ==> pointer == old(pointer) && hits == old(hits)
      ensures !grabbed ==>
        && (pointer != null <==> old(hits) != [] && old(hits)[0].On? && var v := old(hits)[0].view;
              && v in views && v.enabled && v.surface != null && old(hits)[0].surface.client == v.surface.client
              && (!locked || v.surface.client in privileged))
        && (pointer != null ==> pointer == old(hits)[0].surface)
    {
      if grabbed { return; }
      var u := UnderCursor();
      if u.On? && Allowed(u.view) { pointer := u.surface; } else { pointer := null; }
    }

    method ClearPointer()
      requires Isolated()
      modifies this`pointer, this`hits
      ensures Isolated() && pointer == null
    {
      pointer := null;
    }

    method ClearKeyboard()
      requires Shape()
      modifies this`keyboard
      ensures Shape() && keyboard == null
    {
      keyboard := null;
    }

    /** The view goes to the front of the list. */
    method MoveToFront(v: View)
      requires Shape() && v in mapped
      modifies this`views
      ensures Shape() && views == [v] + Without(old(views), v)
    {
      WithoutKeeps(views, v);
      views := [v] + Without(views, v);
    }

    /** The keyboard goes to a view, if it may have it and wants it. */
    method SetFocus(v: View?, grabbed: bool)
      requires Shape() && (v != null ==> v in views)
      modifies this`views, this`keyboard, this`pointer, this`hits
      ensures Shape()
      ensures keyboard == old(GivenTo(v)) && views == old(OrderWith(v))
      ensures pointer == old(pointer) || pointer == null || !locked || pointer.client in privileged
    {
      var before := Focus();
      if v == null || before == v { return; }
      if !Allowed(v) { return; }
      if !v.wantsFocus { return; }
      if !v.primary || v.elevated { MoveToFront(v); }
      keyboard := v.surface;
      CursorMotion(grabbed);
    }

    /** Back to the session: its first shown window that is neither elevated nor privileged. */
    method FocusSession(grabbed: bool)
      requires Shape()
      modifies this`views, this`keyboard, this`pointer, this`hits
      ensures Shape() && keyboard == old(GivenTo(FirstOfSession(views)))
      ensures pointer == old(pointer) || pointer == null || !locked || pointer.client in privileged
    {
      var k := 0;
      while k < |views|
        invariant 0 <= k <= |views| && views == old(views) && keyboard == old(keyboard) && pointer == old(pointer)
        invariant FirstOfSession(views) == FirstOfSession(views[k..])
      {
        var v := views[k];
        if !v.elevated && !Privileged(v) && v.enabled && !v.minimized {
          SetFocus(v, grabbed);
          return;
        }
        k := k + 1;
      }
    }

    // ----- the lock

    /** What the lock's operations need: everything but that the views and the focus are as the mode wants. */
    ghost predicate Sound()
      reads this, mapped`surface, known`view
    {
      Shape() && WatchLogs() && SessionLogs()
    }

    /** Under a lock or the security screen only privileged views are shown; the first of them is found. */
    method ShowPrivileged() returns (lockView: View?)
      requires Shape()
      modifies mapped`enabled
      ensures lockView == old(FirstPrivileged(views))
      ensures !secure ==> forall v :: v in views ==> v.enabled == Privileged(v)
      ensures secure ==> forall v :: v in views ==> v.enabled == old(v.enabled)
    {
      lockView := null;
      var k := 0;
      while k < |views|
        invariant 0 <= k <= |views|
        invariant FirstPrivileged(views) == if lockView != null then lockView else FirstPrivileged(views[k..])
        invariant !secure ==> forall j :: 0 <= j < k ==> views[j].enabled == Privileged(views[j])
        invariant secure ==> forall v :: v in views ==> v.enabled == old(v.enabled)
      {
        var v := views[k];
        if !secure { v.enabled := Privileged(v); }
        if Privileged(v) && lockView == null { lockView := v; }
        k := k + 1;
      }
    }

    /** Where the keys go in an isolation: to the first privileged view, if it wants them, or to nothing. */
    function IsolatedKeys(): Surface?
      requires forall v :: v in views ==> v in mapped
      reads this`views, this`mapped, this`privileged, mapped`surface
    {
      var v := FirstPrivileged(views);
      if v == null || !v.wantsFocus then null else v.surface
    }

    /** Privileged views are shown and the others hidden; under a secure prompt all are as they were. */
    twostate predicate OthersHidden()
      reads this`mapped, this`secure, this`privileged, mapped`enabled, mapped`surface
    {
      forall v :: v in mapped && v in old(mapped) ==> v.enabled == if secure then old(v.enabled) else Privileged(v)
    }

    twostate lemma OthersHiddenIs(v: View)
      requires OthersHidden() && v in mapped && v in old(mapped)
      ensures !secure ==> (v.enabled <==> v.surface != null && v.surface.client in privileged)
      ensures secure ==> v.enabled == old(v.enabled)
    {
    }

    /** All but privileged views are hidden (under a secure prompt dimmed instead), and the focus taken from
      everything, then given to the first privileged view if there is one. */
    method HideAndFocus(grabbed: bool)
      requires Shape() && locked
      modifies this`dimmed, this`views, this`keyboard, this`pointer, this`hits, mapped`enabled
      ensures Shape() && Isolated() && dimmed == secure && keyboard == old(IsolatedKeys())
      ensures OthersHidden()
    {
      hide Shape, Isolated;
      MappedAreViews();
      var lockView := ShowPrivileged();
      dimmed := secure;
      ClearKeyboard();
      pointer := null;
      if lockView != null { SetFocus(lockView, grabbed); }
      OnlyPrivileged();
    }

    lemma OnlyPrivileged()
      requires keyboard != null ==> keyboard.client in privileged
      requires pointer != null ==> pointer.client in privileged
      requires !secure ==> forall v :: v in mapped && v.enabled ==> Privileged(v)
      ensures Isolated()
    {
    }

    /** The session is isolated: the watchers are told, then the views hidden and the focus moved. */
    method Isolate(event: Event, grabbed: bool)
      requires Sound()
      modifies this`locked, this`dimmed, this`watchers, this`events, this`sessionWatchers, this`notes, this`told
      modifies this`views, this`keyboard, this`pointer, this`hits, mapped`enabled
      ensures Sound() && Isolated() && locked && dimmed == secure && keyboard == old(IsolatedKeys())
      ensures OthersHidden()
      ensures told == StatusNow() && events == old(events) + [event] && notes == old(notes) + News(old(told), StatusNow())
      ensures watchers == Heard(old(watchers), hungUp, event)
    {
      hide WatchLogs, SessionLogs, Heard, Shape, News, Isolated, IsolatedKeys, Replayed;
      MappedAreViews();
      Lock(event);
      HideAndFocus(grabbed);
    }

    method Lock(event: Event)
      requires WatchLogs() && SessionLogs()
      modifies this`locked, this`watchers, this`events, this`sessionWatchers, this`notes, this`told
      ensures WatchLogs() && SessionLogs() && locked && told == StatusNow()
      ensures events == old(events) + [event] && notes == old(notes) + News(old(told), StatusNow())
      ensures watchers == Heard(old(watchers), hungUp, event)
    {
      hide WatchLogs, SessionLogs, Heard, News, Replayed;
      locked := true;
      Notify(event);
    }

    /** Every view is shown unless it is minimized. */
    method ShowAll()
      requires Shape()
      modifies mapped`enabled
      ensures forall v :: v in views ==> (v.enabled <==> !v.minimized)
    {
      var k := 0;
      while k < |views|
        invariant 0 <= k <= |views|
        invariant forall j :: 0 <= j < k ==> (views[j].enabled <==> !views[j].minimized)
      {
        views[k].enabled := !views[k].minimized;
        k := k + 1;
      }
    }

    /** Where the keys go after an isolation: to the first ordinary view, if it wants them, or to nothing. */
    function OrdinaryKeys(): Surface?
      requires forall v :: v in views ==> v in mapped
      reads this`views, this`mapped, this`privileged, mapped`surface, mapped`minimized
    {
      var v := FirstOrdinary(views);
      if v == null || !v.wantsFocus then null else v.surface
    }

    lemma KeysAre()
      requires forall v :: v in views ==> v in mapped
      ensures var v := FirstPrivileged(views); IsolatedKeys() == if v != null && v.wantsFocus then v.surface else null
      ensures var v := FirstOrdinary(views); OrdinaryKeys() == if v != null && v.wantsFocus then v.surface else null
    {
    }

    /** The focus goes to the first ordinary view. */
    method FocusOrdinary(grabbed: bool)
      requires Shape() && !locked && keyboard == null
      modifies this`views, this`keyboard, this`pointer, this`hits
      ensures Shape() && keyboard == old(OrdinaryKeys())
    {
      var k := 0;
      while k < |views|
        invariant 0 <= k <= |views| && views == old(views) && Shape() && keyboard == null
        invariant FirstOrdinary(views) == FirstOrdinary(views[k..])
      {
        var v := views[k];
        if !Privileged(v) && !v.minimized {
          SetFocus(v, grabbed);
          return;
        }
        k := k + 1;
      }
    }

    method ShowAndFocus(grabbed: bool)
      requires Shape() && !locked
      modifies this`views, this`keyboard, this`pointer, this`hits, mapped`enabled
      ensures Shape() && Isolated() && Shown() && keyboard == old(OrdinaryKeys())
      ensures forall v :: v in mapped ==> (v.enabled <==> !v.minimized)
    {
      hide Shape;
      MappedAreViews();
      ClearKeyboard();
      ShowAll();
      FocusOrdinary(grabbed);
    }

    /** The session is given back: every view shown unless minimized, and the focus to the first ordinary one. */
    method Unisolate(event: Event, grabbed: bool)
      requires Sound()
      modifies this`locked, this`secure, this`sas, this`dimmed
      modifies this`watchers, this`events, this`sessionWatchers, this`notes, this`told
      modifies this`views, this`keyboard, this`pointer, this`hits, mapped`enabled
      ensures Sound() && !locked && !secure && !sas && !dimmed && Isolated() && Shown() && keyboard == old(OrdinaryKeys())
      ensures forall v :: v in mapped ==> (v.enabled <==> !v.minimized)
      ensures told == StatusNow() && events == old(events) + [event] && notes == old(notes) + News(old(told), StatusNow())
    {
      hide WatchLogs, SessionLogs, Heard, Shape, News, Isolated, Shown, OrdinaryKeys, Replayed;
      MappedAreViews();
      Unlock(event);
      ShowAndFocus(grabbed);
    }

    method Unlock(event: Event)
      requires WatchLogs() && SessionLogs()
      modifies this`locked, this`secure, this`sas, this`dimmed
      modifies this`watchers, this`events, this`sessionWatchers, this`notes, this`told
      ensures WatchLogs() && SessionLogs() && !locked && !secure && !sas && !dimmed && told == StatusNow()
      ensures events == old(events) + [event] && notes == old(notes) + News(old(told), StatusNow())
    {
      hide WatchLogs, SessionLogs, Heard, News, Replayed;
      locked, secure, sas, dimmed := false, false, false, false;
      Notify(event);
    }

    /** Everything but privileged views is hidden, and the dimming ends. */
    method HideUnprivileged()
      requires Shape() && (locked && keyboard != null ==> Trusted(keyboard)) && (locked && pointer != null ==> Trusted(pointer))
      modifies this`dimmed, mapped`enabled
      ensures Shape() && !dimmed && Isolated()
      ensures forall v :: v in mapped ==> v.enabled == (old(v.enabled) && Privileged(v))
    {
      var k := 0;
      while k < |views|
        invariant 0 <= k <= |views|
        invariant forall j :: 0 <= j < k ==> views[j].enabled == (old(views[j].enabled) && Privileged(views[j]))
        invariant forall j :: k <= j < |views| ==> views[j].enabled == old(views[j].enabled)
      {
        if !Privileged(views[k]) { views[k].enabled := false; }
        k := k + 1;
      }
      dimmed := false;
    }

    /** Lock chosen on the security screen, or Win+L over it. */
    method LockOverScreen()
      requires Valid() && locked && sas
      modifies this`sas, this`watchers, this`events, this`sessionWatchers, this`notes, this`told
      ensures Valid() && Protocol() == Engage(old(Protocol()))
    {
      hide WatchLogs, SessionLogs, Heard, Shape, News;
      sas := false;
      Notify(SaidLocked);
    }

    lemma IsolatedFocus()
      requires Isolated()
      ensures (locked && keyboard != null ==> Trusted(keyboard)) && (locked && pointer != null ==> Trusted(pointer))
    {
    }

    /** Locked during a secure prompt: it becomes a real lock. */
    method LockOverPrompt()
      requires Valid() && locked && secure
      modifies this`secure, this`dimmed, mapped`enabled
      modifies this`watchers, this`events, this`sessionWatchers, this`notes, this`told
      ensures Valid() && Protocol() == Engage(old(Protocol()))
    {
      hide WatchLogs, SessionLogs, Heard, Shape, News, Replayed, Isolated;
      IsolatedFocus();
      secure := false;
      HideUnprivileged();
      Notify(SaidLocked);
    }

    /** The session is isolated for one of the three reasons. */
    method Enclose(mode: Mode, event: Event, grabbed: bool)
      requires Valid() && !locked && mode != Unlocked && ModeSaid(event) == mode
      modifies this`locked, this`secure, this`sas, this`dimmed, this`views, this`keyboard, this`pointer, this`hits, mapped`enabled
      modifies this`watchers, this`events, this`sessionWatchers, this`notes, this`told
      ensures Valid() && Protocol() == Enter(old(Protocol()), mode, event) && keyboard == old(IsolatedKeys())
      ensures OthersHidden()
      ensures watchers == Heard(old(watchers), hungUp, event)
    {
      hide WatchLogs, SessionLogs, Heard, Shape, News, IsolatedKeys;
      MappedAreViews();
      secure := mode == Secure;
      sas := mode == SecurityScreen;
      Isolate(event, grabbed);
    }

    /** LOCK, Win+L, and what Ctrl+Alt+Del does with no one to draw a security screen. */
    method LockEngage(grabbed: bool)
      requires Valid()
      modifies this`locked, this`secure, this`sas, this`dimmed, this`views, this`keyboard, this`pointer, this`hits, mapped`enabled
      modifies this`watchers, this`events, this`sessionWatchers, this`notes, this`told
      ensures Valid() && Protocol() == Engage(old(Protocol()))
    {
      hide Valid;
      if locked && sas { LockOverScreen(); }
      else if locked && secure { LockOverPrompt(); }
      else if !locked { Enclose(Locked, SaidLocked, grabbed); }
    }

    /** The isolation ends. */
    method Open(event: Event, grabbed: bool)
      requires Taking() && locked && ModeSaid(event) == Unlocked
      modifies this`locked, this`secure, this`sas, this`dimmed, this`views, this`keyboard, this`pointer, this`hits, mapped`enabled
      modifies this`watchers, this`events, this`sessionWatchers, this`notes, this`told
      ensures Taking() && Protocol() == Enter(old(Protocol()), Unlocked, event) && keyboard == old(OrdinaryKeys())
      ensures forall v :: v in mapped ==> (v.enabled <==> !v.minimized)
    {
      hide WatchLogs, SessionLogs, Heard, Shape, News, OrdinaryKeys, Isolated, Shown, Replayed;
      MappedAreViews();
      Unisolate(event, grabbed);
    }

    /** UNLOCK. */
    method LockRelease(grabbed: bool)
      requires Valid()
      modifies this`locked, this`secure, this`sas, this`dimmed, this`views, this`keyboard, this`pointer, this`hits, mapped`enabled
      modifies this`watchers, this`events, this`sessionWatchers, this`notes, this`told
      ensures Valid()
      ensures Protocol() == if old(locked) then Enter(old(Protocol()), Unlocked, SaidUnlocked) else old(Protocol())
    {
      if !locked { return; }
      Open(SaidUnlocked, grabbed);
    }

    /** SECURE: no consent prompt over a locked machine. */
    method SecureEngage(grabbed: bool) returns (ok: bool)
      requires Valid()
      modifies this`locked, this`secure, this`sas, this`dimmed, this`views, this`keyboard, this`pointer, this`hits, mapped`enabled
      modifies this`watchers, this`events, this`sessionWatchers, this`notes, this`told
      ensures Valid() && ok == !old(locked)
      ensures Protocol() == if ok then Enter(old(Protocol()), Secure, SaidSecure) else old(Protocol())
      ensures forall v :: v in mapped ==> v.enabled == old(v.enabled)
    {
      hide Valid;
      if locked { return false; }
      Enclose(Secure, SaidSecure, grabbed);
      ProtocolIs();
      ok := true;
    }

    /** RELEASE: only a secure prompt's isolation is its to end. */
    method SecureRelease(grabbed: bool)
      requires Valid()
      modifies this`locked, this`secure, this`sas, this`dimmed, this`views, this`keyboard, this`pointer, this`hits, mapped`enabled
      modifies this`watchers, this`events, this`sessionWatchers, this`notes, this`told
      ensures Valid()
      ensures Protocol() == if old(secure) then Enter(old(Protocol()), Unlocked, SaidReleased) else old(Protocol())
    {
      if !locked || !secure { return; }
      Open(SaidReleased, grabbed);
    }

    /** Ctrl+Alt+Del: the security screen, or with no one to draw it, a lock. */
    method SasEngage(grabbed: bool) returns (ok: bool)
      requires Valid()
      modifies this`locked, this`secure, this`sas, this`dimmed, this`views, this`keyboard, this`pointer, this`hits, mapped`enabled
      modifies this`watchers, this`events, this`sessionWatchers, this`notes, this`told
      ensures Valid() && ok == !old(locked)
      ensures Protocol() == if !ok then old(Protocol())
        else if old(watchers) == [] then Engage(old(Protocol())) else Enter(old(Protocol()), SecurityScreen, SaidSas)
      ensures ok ==>
        (sas && watchers == [] <==> old(watchers) != [] && forall w :: w in old(watchers) ==> w.id in hungUp)
    {
      NoneHeard(watchers, hungUp, SaidSas);
      if locked { return false; }
      if watchers == [] { LockEngage(grabbed); } else { Enclose(SecurityScreen, SaidSas, grabbed); }
      ok := true;
    }

    /** SAS <action>. */
    method SasAction(action: string, grabbed: bool) returns (ok: bool)
      requires Valid()
      modifies this`locked, this`secure, this`sas, this`dimmed, this`views, this`keyboard, this`pointer, this`hits, mapped`enabled
      modifies this`watchers, this`events, this`sessionWatchers, this`notes, this`told
      ensures Valid() && ok == (old(sas) && action in ["cancel", "taskmgr", "signout"])
      ensures Protocol() == if ok then Enter(old(Protocol()), Unlocked, SaidUnlocked) else old(Protocol())
    {
      if !locked || !sas { return false; }
      if action != "cancel" && action != "taskmgr" && action != "signout" { return false; }
      Open(SaidUnlocked, grabbed);
      ok := true;
    }

    // ----- Remote Desktop and console shadow

    /** The session moves to Remote Desktop's output: a locked one is unlocked there... */
    method TakeLocked(grabbed: bool)
      requires Taking() && !remote && locked && !secure && shadowClient == NoOne
      modifies this`remote, this`locked, this`secure, this`sas, this`dimmed, this`views, this`keyboard, this`pointer, this`hits
      modifies mapped`enabled, this`watchers, this`events, this`sessionWatchers, this`notes, this`told
      ensures Taking() && remote && Protocol() == TakeOver(old(Protocol()))
    {
      hide WatchLogs, SessionLogs, Heard, Shape, News, Replayed, Isolated, Shown;
      remote := true;
      Unisolate(SaidUnlocked, grabbed);   // which tells the SESSION connections of both
      ClearPointer();
    }

    /** ... and another is as it was. */
    method TakeUnlocked()
      requires Taking() && !remote && !locked && shadowClient == NoOne
      modifies this`remote, this`pointer, this`hits, this`sessionWatchers, this`notes, this`told
      ensures Taking() && remote && Protocol() == TakeOver(old(Protocol()))
    {
      hide WatchLogs, SessionLogs, Heard, Shape, News, Replayed, Isolated, Shown;
      remote := true;
      SessionUpdate();
      ClearPointer();
    }

    /** Remote Desktop takes the session over, if it can; the session is unlocked. */
    method RemoteAttach(output: bool, grabbed: bool) returns (ok: bool)
      requires Taking() && shadowClient == NoOne
      modifies this`remote, this`locked, this`secure, this`sas, this`dimmed, this`views, this`keyboard, this`pointer, this`hits
      modifies mapped`enabled, this`watchers, this`events, this`sessionWatchers, this`notes, this`told
      ensures Taking() && ok == (backend && !old(secure) && (old(remote) || output))
      ensures Protocol() == if ok && !old(remote) then TakeOver(old(Protocol())) else old(Protocol())
      ensures remote == (old(remote) || ok)
    {
      hide Connected, Isolated, Shown, Shape;
      if !backend || secure { return false; }
      if !remote {
        if !output { return false; }
        if locked { TakeLocked(grabbed); } else { TakeUnlocked(); }
      }
      ok := true;
    }

    /** Remote Desktop lets go of the session. */
    method LetGo()
      requires Valid() && remote
      modifies this`remote, this`remoteClient, this`sessionWatchers, this`notes, this`told
      ensures Valid() && !remote && remoteClient == NoOne
      ensures Protocol() == Moved(old(Protocol()), old(Protocol()).(remote := false, client := false))
    {
      hide WatchLogs, SessionLogs, Heard, Shape, News, Replayed;
      remote, remoteClient := false, NoOne;
      SessionUpdate();
    }

    /** The session goes back to the console, locked before its windows are there. */
    method GiveSessionBack(grabbed: bool)
      requires Valid() && remote
      modifies this`remoteClient, this`remote, this`locked, this`secure, this`sas, this`dimmed, this`views, this`keyboard, this`pointer, this`hits
      modifies mapped`enabled, this`watchers, this`events, this`sessionWatchers, this`notes, this`told
      ensures Valid() && Protocol() == GiveBack(old(Protocol())) && !remote && remoteClient == NoOne
    {
      hide Valid;
      LetGo();
      LockEngage(grabbed);
    }

    // ----- the views

    /** The views and the focus are as the mode wants. */
    ghost predicate Scene()
      reads this, mapped, known
    {
      Shape() && Isolated() && Shown()
    }

    /** A Linux program's window the taskbar is about to frame. */
    function Held(v: View, asking: bool): bool
      reads this`privileged, v`surface
    {
      !v.unmanaged && !v.elevated && v.program && !Privileged(v) && asking
    }

    lemma NotHeldYet(v: View)
      requires Scene() && v !in mapped
      ensures v !in holds
    {
    }

    /** It is not shown until then. */
    method HoldView(v: View, asking: bool)
      requires Scene() && v in mapped && !v.unmanaged && !v.elevated
      modifies this`holds, v`enabled
      ensures Scene()
      ensures holds == if Held(v, asking) && v !in old(holds) then [v] + old(holds) else old(holds)
      ensures v.enabled == (old(v.enabled) && holds == old(holds))
    {
      if !v.program || Privileged(v) || !asking || v in holds { return; }
      holds := [v] + holds;
      v.enabled := false;
    }

    /** The hold ran out with no frame: the window is shown, if it may be. */
    method HoldExpired(v: View)
      requires Scene() && v in holds
      modifies this`holds, v`enabled
      ensures Scene() && v !in holds && (v.enabled <==> !v.minimized && Allowed(v))
    {
      WithoutKeeps(holds, v);
      holds := Without(holds, v);
      v.enabled := !v.minimized && Allowed(v);
    }

    /** The focus, given in a scene, leaves the scene as the mode wants. */
    method GiveFocus(v: View, grabbed: bool)
      requires Scene() && v in mapped
      modifies this`views, this`keyboard, this`pointer, this`hits
      ensures Scene() && keyboard == old(GivenTo(v)) && views == old(OrderWith(v))
    {
      SetFocus(v, grabbed);
    }

    /** A view gets a surface, and is shown if it may be. */
    method PutUp(v: View, s: Surface)
      requires Scene() && v !in mapped && v.surface == null && s.view == null
      modifies this`views, this`mapped, this`known, v`surface, v`enabled, s`view
      ensures Scene() && mapped == old(mapped) + {v} && v.surface == s && known == old(known) + {s}
      ensures v.enabled <==> (Allowed(v) || secure) && !v.minimized
    {
      v.surface, s.view := s, v;
      known := known + {s};
      views, mapped := [v] + views, mapped + {v};
      v.enabled := (Allowed(v) || secure) && !v.minimized;
    }

    /** A view is mapped: shown if it may be, given the focus if it may have it, and held if the taskbar asks. */
    method MapView(v: View, s: Surface, asking: bool, grabbed: bool)
      requires Scene() && v !in mapped && v.surface == null && s.view == null
      modifies this`views, this`mapped, this`known, this`holds, this`keyboard, this`pointer, this`hits, v`surface, v`enabled, s`view
      ensures Scene() && mapped == old(mapped) + {v} && v.surface == s && known == old(known) + {s}
      ensures holds == if Held(v, asking) then [v] + old(holds) else old(holds)
      ensures v.enabled <==> (Allowed(v) || secure) && !v.minimized && !Held(v, asking)
      ensures keyboard == if v.unmanaged || !Allowed(v) || !v.wantsFocus then old(keyboard) else s
    {
      NotHeldYet(v);
      hide Scene, Shape;
      PutUp(v, s);
      if !v.unmanaged { GiveFocus(v, grabbed); }
      if !v.unmanaged && !v.elevated { HoldView(v, asking); }
    }

    /** Where the keys go when the view that has them is unmapped: on to the window then in front, or nowhere else. */
    function KeysAfter(v: View): Surface?
      requires forall u :: u in views ==> u in mapped
      reads this`views, this`mapped, this`keyboard, this`locked, this`privileged, mapped`surface
    {
      WithoutKeeps(views, v);
      var next := FirstManaged(Without(views, v));
      if next == null || !Allowed(next) || !next.wantsFocus then keyboard else next.surface
    }

    lemma KeysAfterIs(v: View)
      requires forall u :: u in views ==> u in mapped
      ensures var next := FirstManaged(Without(views, v));
              KeysAfter(v) == if next != null && next.wantsFocus
                                 && (!locked || (next.surface != null && next.surface.client in privileged))
                              then next.surface else keyboard
    {
    }

    /** A view loses its surface, and is in no list. */
    method TakeDown(v: View)
      requires Scene() && v in mapped
      modifies this`views, this`mapped, this`holds, v`surface, known`view
      ensures Scene() && mapped == old(mapped) - {v} && v.surface == null
      ensures holds == Without(old(holds), v) && views == Without(old(views), v)
      ensures forall s :: s in known ==> s.view == if s == old(v.surface) then null else old(s.view)
    {
      var s := v.surface;
      WithoutKeeps(views, v);
      WithoutKeeps(holds, v);
      holds := Without(holds, v);
      views, mapped := Without(views, v), mapped - {v};
      s.view := null;
      v.surface := null;
    }

    /** A view is unmapped; the keyboard, if it was its own, goes on to the window now in front, if that may have it. */
    method UnmapView(v: View, grabbed: bool)
      requires Scene() && v in mapped
      modifies this`views, this`mapped, this`holds, this`keyboard, this`pointer, this`hits, v`surface, known`view
      ensures Scene() && mapped == old(mapped) - {v} && v.surface == null && holds == Without(old(holds), v)
      ensures keyboard == if old(keyboard) == old(v.surface) then old(KeysAfter(v)) else old(keyboard)
      ensures old(keyboard) != old(v.surface) ==> views == Without(old(views), v)
    {
      hide Isolated, Shown;
      var hadFocus := keyboard == v.surface;
      WithoutKeeps(views, v);
      TakeDown(v);
      if hadFocus { FocusNext(grabbed); }
    }

    /** The keyboard goes to the first managed view, if that may have it. */
    method FocusNext(grabbed: bool)
      requires Scene()
      modifies this`views, this`keyboard, this`pointer, this`hits
      ensures Scene() && keyboard == old(GivenTo(FirstManaged(views)))
    {
      var k := 0;
      while k < |views|
        invariant 0 <= k <= |views| && views == old(views) && keyboard == old(keyboard) && Scene()
        invariant FirstManaged(views) == FirstManaged(views[k..])
      {
        if !views[k].unmanaged {
          GiveFocus(views[k], grabbed);
          return;
        }
        k := k + 1;
      }
    }

    /** A view is destroyed; the front view has the focus, if it may. */
    method DestroyView(v: View, grabbed: bool)
      requires Scene() && (v in mapped || v.surface == null)
      modifies this`views, this`mapped, this`holds, this`keyboard, this`pointer, this`hits, v`surface, known`view
      ensures Scene() && mapped == old(mapped) - {v} && v.surface == null
      ensures views != [] && Allowed(views[0]) && views[0].wantsFocus ==> keyboard == views[0].surface
    {
      if v.surface != null { UnmapView(v, grabbed); }
      if |views| > 0 { GiveFocus(views[0], grabbed); }
    }

    /** A window is asked for again: the taskbar (XACTIVATE, ACTIVATE), or the program itself. */
    method Activate(v: View, grabbed: bool)
      requires Scene() && v in mapped
      modifies this`views, this`keyboard, this`pointer, this`hits, v`minimized, v`enabled
      ensures Scene() && !v.minimized && v.enabled == if old(v.minimized) then Allowed(v) else old(v.enabled)
      ensures keyboard == old(GivenTo(v)) && views == old(OrderWith(v))
    {
      Restore(v);
      GiveFocus(v, grabbed);
    }

    method Restore(v: View)
      requires Scene() && v in mapped
      modifies v`minimized, v`enabled
      ensures Scene() && !v.minimized && v.enabled == if old(v.minimized) then Allowed(v) else old(v.enabled)
    {
      if v.minimized {
        v.minimized := false;
        v.enabled := Allowed(v);
      }
    }

    /** A window is minimized; the focus it had goes back to the session. */
    method Minimize(v: View, grabbed: bool)
      requires Scene() && v in mapped
      modifies this`views, this`keyboard, this`pointer, this`hits, v`minimized, v`enabled
      ensures Scene() && v.minimized && (v.enabled <==> old(v.enabled) && old(v.minimized))
      ensures old(v.minimized) || old(Focus()) != v ==> keyboard == old(keyboard) && views == old(views)
      ensures !old(v.minimized) && old(Focus()) == v ==>
                var next := FirstOfSession(old(views));
                keyboard == if next == null || !Allowed(next) || !next.wantsFocus then old(keyboard) else next.surface
    {
      if v.minimized { return; }
      v.minimized := true;
      v.enabled := false;
      label hidden:
      if Focus() == v { FocusSession(grabbed); }
      SameOfSession@hidden(old(views));
    }

    twostate lemma {:induction false} SameOfSession(vs: seq<View>)
      requires privileged == old(privileged) && forall u :: u in vs ==> u in mapped && u in old(mapped)
      requires forall u :: u in vs ==>
                 u.surface == old(u.surface) && u.enabled == old(u.enabled) && u.minimized == old(u.minimized)
      ensures FirstOfSession(vs) == old(FirstOfSession(vs))
    {
      if vs != [] { SameOfSession(vs[1..]); }
    }

    /** The shell's desktop comes forward (XDESKTOP, and the shell's keys). */
    method DesktopFront(grabbed: bool) returns (ok: bool)
      requires Scene()
      modifies this`views, this`keyboard, this`pointer, this`hits
      ensures Scene() && ok == (FirstShell(old(views)) != null) && keyboard == old(GivenTo(FirstShell(views)))
    {
      ok := false;
      var k := 0;
      while k < |views|
        invariant 0 <= k <= |views| && views == old(views) && keyboard == old(keyboard) && Scene()
        invariant FirstShell(views) == FirstShell(views[k..])
      {
        if views[k].shell {
          GiveFocus(views[k], grabbed);
          return true;
        }
        k := k + 1;
      }
    }

    /** A button pressed: the view under the cursor has the focus, unless it is a menu or the focused view's parent. */
    method PressButton(transient: bool, grabbed: bool)
      requires Scene()
      modifies this`views, this`keyboard, this`pointer, this`hits
      ensures Scene()
      ensures keyboard ==
        if old(hits) == [] || old(hits)[0].Nowhere? then old(keyboard)
        else var v := old(hits)[0].view;
             if v in old(views) && v.enabled && v.surface != null && old(hits)[0].surface.client == v.surface.client
                && (!locked || v.surface.client in privileged) && !v.unmanaged && v.wantsFocus && !transient
             then v.surface else old(keyboard)
    {
      hide Isolated, Shown;
      var u := UnderCursor();
      if u.Nowhere? || !Allowed(u.view) || u.view == Focus() || u.view.unmanaged || transient { return; }
      GiveFocus(u.view, grabbed);
    }

    // ----- clients that go away

    /** A client is destroyed: what it was to the session ends, its views are unmapped, and no focus stays on it. */
    method ClientGone(c: int, grabbed: bool)
      requires Taking() && leaving == {} && (remoteClient != NoOne ==> remote || remoteClient == Client(c))
      modifies this`privileged, this`leaving, this`remoteClient, this`shadowClient, this`mapped, this`holds
      modifies this`remote, this`locked, this`secure, this`sas, this`dimmed, this`views, this`keyboard, this`pointer, this`hits
      modifies mapped`enabled, mapped`surface, known`view
      modifies this`watchers, this`events, this`sessionWatchers, this`notes, this`told
      ensures privileged == old(privileged) - {c}
      ensures Valid() && leaving == {} && (old(remoteClient) != Client(c) ==> watchers == old(watchers)) && mapped <= old(mapped)
      ensures Protocol() == Ended(old(Protocol()), old(remoteClient) == Client(c), old(shadowClient) == Client(c))
      ensures forall v :: v in mapped ==> v.surface != null && v.surface.client != c
      ensures (keyboard != null ==> keyboard.client != c) && (pointer != null ==> pointer.client != c)
    {
      hide Shape, Isolated, Shown, Connected;
      StartEnding(c, grabbed);
      DropClient(c, grabbed);
    }

    method StartEnding(c: int, grabbed: bool)
      requires Taking() && leaving == {} && (remoteClient != NoOne ==> remote || remoteClient == Client(c))
      modifies this`privileged, this`leaving, this`remoteClient, this`shadowClient
      modifies this`remote, this`locked, this`secure, this`sas, this`dimmed, this`views, this`keyboard, this`pointer, this`hits
      modifies mapped`enabled, this`watchers, this`events, this`sessionWatchers, this`notes, this`told
      ensures privileged == old(privileged) - {c}
      ensures Valid() && leaving <= {c} && (old(remoteClient) != Client(c) ==> watchers == old(watchers))
      ensures Protocol() == Ended(old(Protocol()), old(remoteClient) == Client(c), old(shadowClient) == Client(c))
    {
      hide Shape, Isolated, Shown, Connected;
      StartLeaving(c);
      EndSessions(c, grabbed);
    }

    /** Its views are unmapped and the focus is taken off it. */
    method DropClient(c: int, grabbed: bool)
      requires Scene() && leaving <= {c}
      modifies this`views, this`mapped, this`holds, this`keyboard, this`pointer, this`hits, this`leaving, mapped`surface, known`view
      ensures Scene() && mapped <= old(mapped) && leaving == {}
      ensures forall v :: v in mapped ==> v.surface != null && v.surface.client != c
      ensures (keyboard != null ==> keyboard.client != c) && (pointer != null ==> pointer.client != c)
    {
      hide Scene;
      UnmapClient(c, grabbed);
      DropFocus(c);
    }

    /** From here on the client is not privileged, though what it was trusted with is still its own. */
    method StartLeaving(c: int)
      requires Isolated() && leaving == {}
      modifies this`privileged, this`leaving
      ensures Isolated() && leaving <= {c} && privileged == old(privileged) - {c}
    {
      if c in privileged { leaving, privileged := {c}, privileged - {c}; }
    }

    /** Its surfaces are gone, and the focus with them. */
    method DropFocus(c: int)
      requires Scene() && leaving <= {c}
      requires forall v :: v in mapped ==> v.surface != null && v.surface.client != c
      modifies this`keyboard, this`pointer, this`hits, this`leaving
      ensures Scene() && leaving == {}
      ensures (keyboard != null ==> keyboard.client != c) && (pointer != null ==> pointer.client != c)
    {
      if keyboard != null && keyboard.client == c { keyboard := null; }
      if pointer != null && pointer.client == c { pointer := null; }
      leaving := {};
    }

    /** What a client was to the session. */
    ghost function Ended(s: Session, remoteEnd: bool, viewerEnd: bool): Session {
      var t := if remoteEnd then GiveBack(s.(client := false)) else s;
      if viewerEnd then EndShadow(t) else t
    }

    /** The remote session or the viewing that a client was the other end of. */
    method EndSessions(c: int, grabbed: bool)
      requires Taking() && (remoteClient != NoOne ==> remote || remoteClient == Client(c))
      modifies this`remoteClient, this`shadowClient
      modifies this`remote, this`locked, this`secure, this`sas, this`dimmed, this`views, this`keyboard, this`pointer, this`hits
      modifies mapped`enabled, this`watchers, this`events, this`sessionWatchers, this`notes, this`told
      ensures Valid() && (old(remoteClient) != Client(c) ==> watchers == old(watchers))
      ensures Protocol() == Ended(old(Protocol()), old(remoteClient) == Client(c), old(shadowClient) == Client(c))
    {
      hide Shape, Isolated, Shown, Connected;
      if remoteClient == Client(c) {
        remoteClient := NoOne;
        if remote { GiveSessionBack(grabbed); }
      }
      if shadowClient == Client(c) { ViewerGone(); }
    }

    /** The viewer's connection closed: the frame goes and the session's programs are told. */
    method ViewerGone()
      requires Valid() && shadowClient != NoOne
      modifies this`shadowClient, this`sessionWatchers, this`notes, this`told
      ensures Valid() && shadowClient == NoOne && Protocol() == EndShadow(old(Protocol()))
    {
      hide WatchLogs, SessionLogs, Heard, Shape, News, Replayed, Isolated, Shown;
      shadowClient := NoOne;
      SessionUpdate();
    }

    method FindView(c: int) returns (v: View?)
      requires Shape()
      ensures v != null ==> v in mapped && v.surface.client == c
      ensures v == null ==> forall u :: u in mapped ==> u.surface.client != c
    {
      var k := 0;
      while k < |views|
        invariant 0 <= k <= |views| && forall j :: 0 <= j < k ==> views[j].surface.client != c
      {
        if views[k].surface.client == c { return views[k]; }
        k := k + 1;
      }
      v := null;
    }

    method UnmapClient(c: int, grabbed: bool)
      requires Scene()
      modifies this`views, this`mapped, this`holds, this`keyboard, this`pointer, this`hits, mapped`surface, known`view
      ensures Scene() && mapped <= old(mapped)
      ensures forall v :: v in mapped ==> v.surface != null && v.surface.client != c
    {
      var v := FindView(c);
      while v != null
        invariant Scene() && mapped <= old(mapped)
        invariant v != null ==> v in mapped && v.surface.client == c
        invariant v == null ==> forall u :: u in mapped ==> u.surface != null && u.surface.client != c
        decreases mapped
      {
        DestroyView(v, grabbed);
        v := FindView(c);
      }
    }

    // ----- commands and keys

    lemma ConnectedFacts()
      requires Connected()
      ensures (secure <==> ModeNow() == Secure) && (sas <==> ModeNow() == SecurityScreen) && (locked <==> ModeNow() != Unlocked)
      ensures remote ==> shadowClient == NoOne
    {
    }

    /** A remote connection is adopted as a privileged client. */
    method AdoptRemote(client: int)
      requires Valid() && remoteClient == NoOne
      modifies this`privileged, this`remoteClient
      ensures privileged == old(privileged) + {client}
      ensures Taking() && remoteClient == Client(client) && Protocol() == old(Protocol()).(client := true)
    {
      hide Shape, Shown, Connected;
      privileged := privileged + {client};
      remoteClient := Client(client);
    }

    /** REMOTE, from an authorised account: with a descriptor, the remote connection is adopted first; if then the
      session cannot be moved, it is let go. */
    method RemoteCommand(fd: bool, connected: bool, output: bool, client: int, grabbed: bool)
      requires Valid() && leaving == {}
      modifies this`privileged, this`leaving, this`remoteClient, this`shadowClient, this`mapped, this`holds
      modifies this`remote, this`locked, this`secure, this`sas, this`dimmed, this`views, this`keyboard, this`pointer, this`hits
      modifies mapped`enabled, mapped`surface, known`view
      modifies this`watchers, this`events, this`sessionWatchers, this`notes, this`told
      ensures Valid() && leaving == {} && mapped <= old(mapped) && Protocol() == Remoted(old(Protocol()), fd, connected, output)
      ensures var adopts := fd && connected && old(shadowClient) == NoOne && old(remoteClient) == NoOne;
              var refused := !backend || old(secure) || (!old(remote) && !output);
              && (adopts && refused ==> (remoteClient == Client(client) <==> old(remote)) && (client in privileged <==> old(remote)))
              && (adopts && !refused ==> remoteClient == Client(client) && client in privileged)
              && (!adopts ==> remoteClient == old(remoteClient) && privileged == old(privileged))
    {
      hide Valid, TakeOver;
      if shadowClient != NoOne || (fd && (remoteClient != NoOne || !connected)) { return; }
      if fd { RemoteAdopted(output, client, grabbed); } else { RemotePlain(output, grabbed); }
    }

    method RemotePlain(output: bool, grabbed: bool)
      requires Valid() && shadowClient == NoOne
      modifies this`remote, this`locked, this`secure, this`sas, this`dimmed, this`views, this`keyboard, this`pointer, this`hits
      modifies mapped`enabled, this`watchers, this`events, this`sessionWatchers, this`notes, this`told
      ensures Valid() && Protocol() == Remoted(old(Protocol()), false, true, output)
    {
      hide Shape, Isolated, Shown, Connected, TakeOver;
      ConnectedFacts();
      var taken := RemoteAttach(output, grabbed);
    }

    method RemoteAdopted(output: bool, client: int, grabbed: bool)
      requires Valid() && leaving == {} && shadowClient == NoOne && remoteClient == NoOne
      modifies this`privileged, this`leaving, this`remoteClient, this`shadowClient, this`mapped, this`holds
      modifies this`remote, this`locked, this`secure, this`sas, this`dimmed, this`views, this`keyboard, this`pointer, this`hits
      modifies mapped`enabled, mapped`surface, known`view
      modifies this`watchers, this`events, this`sessionWatchers, this`notes, this`told
      ensures Valid() && leaving == {} && mapped <= old(mapped) && Protocol() == Remoted(old(Protocol()), true, true, output)
      ensures var kept := old(remote) || (backend && !old(secure) && output);
              && remoteClient == (if kept then Client(client) else NoOne)
              && privileged == if kept then old(privileged) + {client} else old(privileged) - {client}
    {
      hide Shape, Isolated, Shown, Connected;
      ConnectedFacts();
      AdoptRemote(client);
      var ok := RemoteAttach(output, grabbed);
      if !ok && !remote { LetGoOf(client, grabbed); }
    }

    method LetGoOf(client: int, grabbed: bool)
      requires Taking() && leaving == {} && remoteClient == Client(client) && !remote && shadowClient == NoOne
      modifies this`privileged, this`leaving, this`remoteClient, this`shadowClient, this`mapped, this`holds
      modifies this`remote, this`locked, this`secure, this`sas, this`dimmed, this`views, this`keyboard, this`pointer, this`hits
      modifies mapped`enabled, mapped`surface, known`view
      modifies this`watchers, this`events, this`sessionWatchers, this`notes, this`told
      ensures remoteClient == NoOne && privileged == old(privileged) - {client}
      ensures Valid() && leaving == {} && mapped <= old(mapped) && Protocol() == old(Protocol()).(client := false)
    {
      hide Shape, Isolated, Shown, Connected;
      ClientGone(client, grabbed);
    }

    /** SHADOW with a descriptor, from an authorised account. */
    method ShadowCommand(connected: bool, client: int)
      requires Valid() && leaving == {}
      modifies this`privileged, this`shadowClient, this`sessionWatchers, this`notes, this`told
      ensures Valid() && Protocol() == if connected && !old(Protocol()).shadow && !old(Protocol()).client && !old(Protocol()).remote
        then Moved(old(Protocol()), old(Protocol()).(shadow := true)) else old(Protocol())
    {
      hide WatchLogs, SessionLogs, Heard, Shape, News, Replayed, Shown;
      if shadowClient != NoOne || remoteClient != NoOne || remote || !connected { return; }
      privileged := privileged + {client};
      shadowClient := Client(client);
      SessionUpdate();
    }

    /** The console takes the session back, and the remote connection is cut. */
    method RemoteDetach(grabbed: bool)
      requires Valid() && leaving == {}
      modifies this`privileged, this`leaving, this`remoteClient, this`shadowClient, this`mapped, this`holds
      modifies this`remote, this`locked, this`secure, this`sas, this`dimmed, this`views, this`keyboard, this`pointer, this`hits
      modifies mapped`enabled, mapped`surface, known`view
      modifies this`watchers, this`events, this`sessionWatchers, this`notes, this`told
      ensures Valid() && leaving == {} && mapped <= old(mapped) && Protocol() == GiveBack(old(Protocol()))
    {
      hide Shape, Isolated, Shown, Connected;
      ConnectedFacts();
      var client := remoteClient;
      if !remote { return; }
      GiveSessionBack(grabbed);
      if client != NoOne { ClientGone(client.id, grabbed); }
    }

    /** Ctrl+Alt+Del. At the console it ends a viewing; of a session that was taken over it takes the console's back. */
    method CtrlAltDelKey(injected: bool, viewer: bool, grabbed: bool)
      requires Valid() && leaving == {}
      modifies this`privileged, this`leaving, this`remoteClient, this`shadowClient, this`mapped, this`holds
      modifies this`remote, this`locked, this`secure, this`sas, this`dimmed, this`views, this`keyboard, this`pointer, this`hits
      modifies mapped`enabled, mapped`surface, known`view
      modifies this`watchers, this`events, this`sessionWatchers, this`notes, this`told
      ensures Valid() && leaving == {} && mapped <= old(mapped)
      ensures Protocol() == Step(accounts, old(Protocol()), CtrlAltDel(injected, viewer, old(watchers) != []))
    {
      hide Valid, EndShadow, Attention;
      if !viewer { ViewerConnectionGone(grabbed); }
      SecureAttention(injected, grabbed);
    }

    method SecureAttention(injected: bool, grabbed: bool)
      requires Valid() && leaving == {}
      modifies this`privileged, this`leaving, this`remoteClient, this`shadowClient, this`mapped, this`holds
      modifies this`remote, this`locked, this`secure, this`sas, this`dimmed, this`views, this`keyboard, this`pointer, this`hits
      modifies mapped`enabled, mapped`surface, known`view
      modifies this`watchers, this`events, this`sessionWatchers, this`notes, this`told
      ensures Valid() && leaving == {} && mapped <= old(mapped)
      ensures Protocol() == Attention(old(Protocol()), injected, old(watchers) != [])
    {
      hide Shape, Isolated, Shown, Connected, GiveBack, Engage, Enter;
      ConnectedFacts();
      if remote && !injected { RemoteDetach(grabbed); }
      else { var ok := SasEngage(grabbed); }
    }

    /** A command on the control socket, a reserved key, or the end of a remote connection. `client` is the client
      of a connection that is handed over. */
    method Execute(c: Command, client: int, grabbed: bool)
      requires Valid() && leaving == {} && (c.CtrlAltDel? ==> c.watched == (watchers != []))
      modifies this`privileged, this`leaving, this`remoteClient, this`shadowClient, this`mapped, this`holds
      modifies this`remote, this`locked, this`secure, this`sas, this`dimmed, this`views, this`keyboard, this`pointer, this`hits
      modifies mapped`enabled, mapped`surface, known`view
      modifies this`watchers, this`events, this`sessionWatchers, this`notes, this`told
      ensures Valid() && leaving == {} && mapped <= old(mapped) && Protocol() == Step(accounts, old(Protocol()), c)
      ensures var root := (c.UnlockCmd? || c.SecureCmd? || c.ReleaseCmd? || c.SasCmd? || c.LocalCmd? || c.LockCmd?) &&
                          (c.uid == 0 || (accounts.known && c.uid == accounts.machine));
              && (c.LockCmd? && (root || c.uid == accounts.user) ==> locked && !secure && !sas)
              && (c.WinL? && (!old(remote) || c.injected) ==> locked && !secure && !sas)
              && (c.UnlockCmd? && root ==> !locked)
              && (c.SecureCmd? && root && !old(locked) ==> locked && secure)
              && (c.ReleaseCmd? && root && old(locked && secure) ==> !locked)
              && (c.SasCmd? && root && old(locked && !secure && sas) && c.action in ["cancel", "taskmgr", "signout"] ==> !locked)
              && (c.LocalCmd? && root && old(remote) ==> !remote && remoteClient == NoOne && locked && !secure && !sas)
      ensures c.CtrlAltDel? ==>
              && (old(remote) && !c.injected ==> !remote && remoteClient == NoOne && locked && !secure && !sas)
              && (!(old(remote) && !c.injected) && !old(locked) ==> locked && !secure && (sas <==> c.watched))
              && (!c.viewer ==> shadowClient == NoOne)
    {
      hide Valid, Step;
      Does(c);
      if c.LockCmd? || c.UnlockCmd? || c.SecureCmd? || c.ReleaseCmd? || c.SasCmd? || c.WinL? { ExecuteLock(c, grabbed); }
      else { ExecuteRemote(c, client, grabbed); }
    }

    lemma Does(c: Command)
      ensures var s := Step(accounts, Protocol(), c);
              var root := (c.UnlockCmd? || c.SecureCmd? || c.ReleaseCmd? || c.SasCmd? || c.LocalCmd? || c.LockCmd?) &&
                          (c.uid == 0 || (accounts.known && c.uid == accounts.machine));
              && (c.LockCmd? && (root || c.uid == accounts.user) ==> s.mode == Locked)
              && (c.WinL? && (!remote || c.injected) ==> s.mode == Locked)
              && (c.UnlockCmd? && root ==> s.mode == Unlocked)
              && (c.SecureCmd? && root && !locked ==> s.mode == Secure)
              && (c.ReleaseCmd? && root && locked && secure ==> s.mode == Unlocked)
              && (c.SasCmd? && root && locked && !secure && sas && c.action in ["cancel", "taskmgr", "signout"] ==> s.mode == Unlocked)
              && (c.LocalCmd? && root && remote ==> !s.remote && !s.client && s.mode == Locked)
              && (c.CtrlAltDel? && remote && !c.injected ==> !s.remote && !s.client && s.mode == Locked)
              && (c.CtrlAltDel? && !(remote && !c.injected) && !locked ==> s.mode == if c.watched then SecurityScreen else Locked)
              && (c.CtrlAltDel? && !c.viewer ==> !s.shadow)
    {
      hide Step;
      match c
      case LockCmd(uid) => LockDoes(accounts, Protocol(), uid);
      case UnlockCmd(uid) => UnlockDoes(accounts, Protocol(), uid);
      case SecureCmd(uid) => SecureDoes(accounts, Protocol(), uid);
      case ReleaseCmd(uid) => SecureDoes(accounts, Protocol(), uid);
      case SasCmd(uid, action) => SasDoes(accounts, Protocol(), uid, action);
      case LocalCmd(uid) => LocalDoes(accounts, Protocol(), uid);
      case WinL(injected) => WinLDoes(accounts, Protocol(), injected);
      case CtrlAltDel(injected, viewer, watched) => CtrlAltDelDoes(accounts, Protocol(), injected, viewer, watched);
      case _ =>
    }

    method ExecuteLock(c: Command, grabbed: bool)
      requires Valid() && (c.LockCmd? || c.UnlockCmd? || c.SecureCmd? || c.ReleaseCmd? || c.SasCmd? || c.WinL?)
      modifies this`locked, this`secure, this`sas, this`dimmed, this`views, this`keyboard, this`pointer, this`hits, mapped`enabled
      modifies this`watchers, this`events, this`sessionWatchers, this`notes, this`told
      ensures Valid() && Protocol() == Step(accounts, old(Protocol()), c)
    {
      ConnectedFacts();
      hide Shape, Isolated, Shown, Connected, Enter, Engage, Valid;
      match c
      case LockCmd(uid) => if accounts.MayLock(uid) { LockEngage(grabbed); }
      case UnlockCmd(uid) => if accounts.MayUnlock(uid) { LockRelease(grabbed); }
      case SecureCmd(uid) => if accounts.MayUnlock(uid) { var ok := SecureEngage(grabbed); }
      case ReleaseCmd(uid) => if accounts.MayUnlock(uid) { SecureRelease(grabbed); }
      case SasCmd(uid, action) => if accounts.MayUnlock(uid) { var ok := SasAction(action, grabbed); }
      case WinL(injected) => if !remote || injected { LockEngage(grabbed); }
    }

    method ExecuteRemote(c: Command, client: int, grabbed: bool)
      requires Valid() && leaving == {} && (c.CtrlAltDel? ==> c.watched == (watchers != []))
      requires !(c.LockCmd? || c.UnlockCmd? || c.SecureCmd? || c.ReleaseCmd? || c.SasCmd? || c.WinL?)
      modifies this`privileged, this`leaving, this`remoteClient, this`shadowClient, this`mapped, this`holds
      modifies this`remote, this`locked, this`secure, this`sas, this`dimmed, this`views, this`keyboard, this`pointer, this`hits
      modifies mapped`enabled, mapped`surface, known`view
      modifies this`watchers, this`events, this`sessionWatchers, this`notes, this`told
      ensures Valid() && leaving == {} && mapped <= old(mapped) && Protocol() == Step(accounts, old(Protocol()), c)
    {
      hide Shape, Isolated, Shown, Connected, GiveBack, EndShadow, Remoted, Enter, Engage;
      ConnectedFacts();
      match c
      case RemoteCmd(uid, fd, connected, output) =>
        if accounts.MayUnlock(uid) { RemoteCommand(fd, connected, output, client, grabbed); }
      case LocalCmd(uid) => if accounts.MayUnlock(uid) { RemoteDetach(grabbed); }
      case ShadowCmd(uid, fd, connected) => if accounts.MayUnlock(uid) && fd { ShadowCommand(connected, client); }
      case CtrlAltDel(injected, viewer, watched) => CtrlAltDelKey(injected, viewer, grabbed);
      case RemoteGone => RemoteConnectionGone(grabbed);
      case ShadowGone => ViewerConnectionGone(grabbed);
    }

    method RemoteConnectionGone(grabbed: bool)
      requires Valid() && leaving == {}
      modifies this`privileged, this`leaving, this`remoteClient, this`shadowClient, this`mapped, this`holds
      modifies this`remote, this`locked, this`secure, this`sas, this`dimmed, this`views, this`keyboard, this`pointer, this`hits
      modifies mapped`enabled, mapped`surface, known`view
      modifies this`watchers, this`events, this`sessionWatchers, this`notes, this`told
      ensures Valid() && leaving == {} && mapped <= old(mapped) && Protocol() == Step(accounts, old(Protocol()), RemoteGone)
    {
      hide Shape, Isolated, Shown, Connected, GiveBack;
      ConnectedFacts();
      if remoteClient != NoOne { ClientGone(remoteClient.id, grabbed); }
    }

    method ViewerConnectionGone(grabbed: bool)
      requires Valid() && leaving == {}
      modifies this`privileged, this`leaving, this`remoteClient, this`shadowClient, this`mapped, this`holds
      modifies this`remote, this`locked, this`secure, this`sas, this`dimmed, this`views, this`keyboard, this`pointer, this`hits
      modifies mapped`enabled, mapped`surface, known`view
      modifies this`watchers, this`events, this`sessionWatchers, this`notes, this`told
      ensures Valid() && leaving == {} && mapped <= old(mapped) && Protocol() == EndShadow(old(Protocol())) && watchers == old(watchers)
    {
      hide Shape, Isolated, Shown, Connected, GiveBack;
      ConnectedFacts();
      if shadowClient != NoOne { ClientGone(shadowClient.id, grabbed); }
    }

    /** Any commands and keys, one after another. `done` is what was carried out: the commands given, with what
      Ctrl+Alt+Del found of watchers. */
    method ExecuteAll(orders: seq<Order>) returns (done: seq<Command>)
      requires Valid() && leaving == {}
      modifies this`privileged, this`leaving, this`remoteClient, this`shadowClient, this`mapped, this`holds
      modifies this`remote, this`locked, this`secure, this`sas, this`dimmed, this`views, this`keyboard, this`pointer, this`hits
      modifies mapped`enabled, mapped`surface, known`view
      modifies this`watchers, this`events, this`sessionWatchers, this`notes, this`told
      ensures Valid() && leaving == {} && Protocol() == Run(accounts, old(Protocol()), done)
      ensures |done| == |orders| && forall k :: 0 <= k < |orders| ==> Carries(done[k], orders[k].c)
    {
      hide Valid, Step;
      done := [];
      while |done| < |orders|
        invariant |done| <= |orders| && Valid() && leaving == {} && mapped <= old(mapped) && known == old(known)
        invariant Protocol() == Run(accounts, old(Protocol()), done)
        invariant forall k :: 0 <= k < |done| ==> Carries(done[k], orders[k].c)
      {
        var order := orders[|done|];
        var c := if order.c.CtrlAltDel? then order.c.(watched := watchers != []) else order.c;
        Execute(c, order.client, order.grabbed);
        assert (done + [c])[..|done|] == done;
        done := done + [c];
      }
    }

    // ----- connections that come and go

    /** WATCH, from an authorised account: told from now on, unless the reply cannot be sent. */
    method Watch(uid: int, id: int) returns (ok: bool, saidLocked: bool)
      requires Valid()
      modifies this`watchers
      ensures Valid() && ok == accounts.MayUnlock(uid) && saidLocked == locked
      ensures watchers == if ok && id !in hungUp then [Watcher(id, |events|, [])] + old(watchers) else old(watchers)
    {
      hide Shape, Isolated, Shown, SessionLogs;
      ok, saidLocked := accounts.MayUnlock(uid), locked;
      if ok && id !in hungUp { watchers := [Watcher(id, |events|, [])] + watchers; }
    }

    /** SESSION, from anyone in the session: the reply gives the session as it was last told. */
    method WatchSession(uid: int, id: int) returns (ok: bool, opening: Status)
      requires Valid()
      modifies this`sessionWatchers
      ensures Valid() && ok == accounts.MayLock(uid) && opening == StatusNow()
      ensures sessionWatchers ==
        if ok && id !in hungUp then [SessionWatcher(id, |notes|, opening, [])] + old(sessionWatchers) else old(sessionWatchers)
    {
      hide Shape, Isolated, Shown, WatchLogs, Replayed;
      ok, opening := accounts.MayLock(uid), told;
      assert notes[..|notes|] == notes;
      if ok && id !in hungUp { sessionWatchers := [SessionWatcher(id, |notes|, opening, [])] + sessionWatchers; }
    }

    /** A watcher's connection is readable: it hung up, or wrote something, and is done either way. */
    method WatcherDone(id: int)
      requires Valid()
      modifies this`watchers, this`sessionWatchers
      ensures Valid() && watchers == Others(old(watchers), id) && sessionWatchers == OtherSessions(old(sessionWatchers), id)
    {
      hide Shape, Isolated, Shown, Replayed;
      OthersKept(watchers, id);
      OtherSessionsKept(sessionWatchers, id);
      watchers := Others(watchers, id);
      sessionWatchers := OtherSessions(sessionWatchers, id);
    }

    /** A connection's other end is gone; the next send to it fails. */
    method HangUp(id: int)
      requires Valid()
      modifies this`hungUp
      ensures Valid() && hungUp == old(hungUp) + {id}
    {
      hide Shape, Isolated, Shown, Connected;
      hungUp := hungUp + {id};
    }

    /** A WATCH connection that has heard anything knows the mode. */
    lemma WatcherKnowsMode(w: Watcher)
      requires Valid() && w in watchers && w.told != []
      ensures ModeSaid(w.told[|w.told| - 1]) == ModeNow()
    {
      assert w.told == events[w.from..];
    }

    /** A SESSION connection that adds what it was told to its opening reply has the session. */
    lemma WatcherKnowsSession(w: SessionWatcher)
      requires Valid() && w in sessionWatchers
      ensures Replayed(w.opening, w.told) == StatusNow()
    {
      assert SessionLog(w);
      ReplayedConcat(Status(false, false, false), notes[..w.from], notes[w.from..]);
      assert notes == notes[..w.from] + notes[w.from..];
    }

    /** A client on the privileged socket, from an authorised account. */
    method ConnectPrivileged(uid: int, client: int) returns (ok: bool)
      requires Valid()
      modifies this`privileged
      ensures Valid() && ok == accounts.MayUnlock(uid)
      ensures privileged == if ok then old(privileged) + {client} else old(privileged)
    {
      hide Shape, Shown, Connected;
      ok := accounts.MayUnlock(uid);
      if ok { privileged := privileged + {client}; }
    }

    // ----- every run

    /** A view was treated so, if it could be: unmapped or destroyed, the keys its own gone on; asked for or restored, shown
      as it may be; minimized; its hold over. */
    twostate predicate Treated(v: View, what: ToView)
      requires forall u :: u in old(views) ==> u in old(mapped)
      reads this, v, set u | u in views
    {
      match what
      case Unmapped =>
        if v !in old(views) then keyboard == old(keyboard) && views == old(views)
        else v !in views && v.surface == null && keyboard == if old(keyboard) == old(v.surface) then old(KeysAfter(v)) else old(keyboard)
      case Destroyed =>
        v in old(views) ==>
          && v !in views && v.surface == null
          && (views != [] && Allowed(views[0]) && views[0].wantsFocus ==> keyboard == views[0].surface)
      case Activated =>
        if v !in old(views) then keyboard == old(keyboard) && views == old(views)
        else
          && !v.minimized && v.enabled == (if old(v.minimized) then Allowed(v) else old(v.enabled))
          && keyboard == old(GivenTo(v)) && views == old(OrderWith(v))
      case Restored =>
        && keyboard == old(keyboard) && views == old(views)
        && (v in views ==> !v.minimized && v.enabled == if old(v.minimized) then Allowed(v) else old(v.enabled))
      case Minimized =>
        if v !in old(views) then keyboard == old(keyboard) && views == old(views)
        else v.minimized && (v.enabled <==> old(v.enabled) && old(v.minimized))
      case HoldOver =>
        && keyboard == old(keyboard) && views == old(views)
        && (v in old(holds) ==> v !in holds && (v.enabled <==> !v.minimized && Allowed(v)))
    }

    /** Case by case. */
    twostate lemma TreatedIs(v: View, what: ToView)
      requires (forall u :: u in old(views) ==> u in old(mapped)) && Treated(v, what)
      ensures (what.Unmapped? || what.Destroyed?) && v in old(views) ==> v !in views && v.surface == null
      ensures what.Unmapped? && v in old(views) && old(keyboard) != old(v.surface) ==> keyboard == old(keyboard)
      ensures what.Unmapped? && v in old(views) && old(keyboard) == old(v.surface) ==> keyboard == old(KeysAfter(v))
      ensures what.Destroyed? && v in old(views) && views != [] && Allowed(views[0]) && views[0].wantsFocus ==>
        keyboard == views[0].surface
      ensures (what.Activated? || what.Restored?) && v in old(views) ==>
        !v.minimized && v.enabled == if old(v.minimized) then Allowed(v) else old(v.enabled)
      ensures what.Activated? && v in old(views) ==> keyboard == old(GivenTo(v)) && views == old(OrderWith(v))
      ensures what.Minimized? && v in old(views) ==> v.minimized && (v.enabled <==> old(v.enabled) && old(v.minimized))
      ensures what.HoldOver? && v in old(holds) ==> v !in holds && (v.enabled <==> !v.minimized && Allowed(v))
      ensures what.Restored? || what.HoldOver? || (v !in old(views) && !what.Destroyed?) ==>
        keyboard == old(keyboard) && views == old(views)
    {
    }

    /** A view got a surface, if it could: shown if it may be, with the keys if it may have them and wants them. */
    twostate predicate PutOn(v: View, s: Surface, asking: bool)
      reads this, v, s
    {
      v !in old(views) && old(v.surface) == null && old(s.view) == null ==>
        && v in views && v.surface == s
        && (v.enabled <==> (Allowed(v) || secure) && !v.minimized && !Held(v, asking))
        && keyboard == if v.unmanaged || !Allowed(v) || !v.wantsFocus then old(keyboard) else s
    }

    twostate lemma PutOnIs(v: View, s: Surface, asking: bool)
      requires PutOn(v, s, asking) && v !in old(views) && old(v.surface) == null && old(s.view) == null
      ensures v in views && v.surface == s
      ensures v.enabled <==> (!locked || s.client in privileged || secure) && !v.minimized
                             && (v.unmanaged || v.elevated || !v.program || s.client in privileged || !asking)
      ensures keyboard == if !v.unmanaged && (!locked || s.client in privileged) && v.wantsFocus then s else old(keyboard)
    {
    }

    /** Something happens to a view, if it can. */
    method HappenTo(h: Happening, grabbed: bool)
      requires Valid() && leaving == {} && (h.Of? || h.MapOf?) && forall u :: u in views ==> u in mapped
      modifies this`views, this`mapped, this`known, this`holds, this`keyboard, this`pointer, this`hits, known`view
      modifies h.v`surface, h.v`minimized, h.v`enabled, (if h.MapOf? then {h.s} else {})`view
      ensures Valid() && leaving == {} && mapped <= old(mapped) + {h.v} && old(known) <= known
      ensures known <= old(known) + if h.MapOf? then {h.s} else {}
      ensures h.Of? ==> Treated(h.v, h.what)
      ensures h.MapOf? ==> PutOn(h.v, h.s, h.asking)
    {
      MappedAreViews();
      hide Connected, Shape, Isolated, Shown, Server.Treated;
      if h.MapOf? {
        if h.v !in views && h.v.surface == null && h.s.view == null { MapNow(h.v, h.s, h.asking, grabbed); }
      } else if h.what.Unmapped? || h.what.Destroyed? {
        GoAway(h.v, h.what, grabbed);
      } else {
        ComeOrGo(h.v, h.what, grabbed);
      }
    }

    method MapNow(v: View, s: Surface, asking: bool, grabbed: bool)
      requires Scene() && v !in mapped && v.surface == null && s.view == null
      modifies this`views, this`mapped, this`known, this`holds, this`keyboard, this`pointer, this`hits
      modifies v`surface, v`enabled, s`view
      ensures Scene() && mapped == old(mapped) + {v} && known == old(known) + {s} && PutOn(v, s, asking)
    {
      hide Scene, Held, Allowed;
      MapView(v, s, asking, grabbed);
      ViewsAreMapped();
    }

    method GoAway(v: View, what: ToView, grabbed: bool)
      requires Scene() && (what.Unmapped? || what.Destroyed?) && forall u :: u in views ==> u in mapped
      modifies this`views, this`mapped, this`holds, this`keyboard, this`pointer, this`hits, v`surface, known`view
      ensures Scene() && mapped <= old(mapped) && Treated(v, what)
    {
      MappedAreViews();
      hide Scene, KeysAfter, Without, Allowed;
      if what.Destroyed? && (v in views || v.surface == null) { DestroyView(v, grabbed); }
      else if v in views { UnmapView(v, grabbed); }
      ViewsAreMapped();
    }

    lemma ViewsAreMapped()
      requires Scene()
      ensures forall v :: (v in views ==> v in mapped) && (v in mapped ==> v in views)
    {
    }

    method ComeOrGo(v: View, what: ToView, grabbed: bool)
      requires Scene() && !what.Unmapped? && !what.Destroyed? && forall u :: u in views ==> u in mapped
      modifies this`views, this`holds, this`keyboard, this`pointer, this`hits, v`minimized, v`enabled
      ensures Scene() && Treated(v, what)
    {
      MappedAreViews();
      hide Scene, GivenTo, OrderWith, FirstOfSession, Without, Allowed;
      match what
      case Activated => if v in views { Activate(v, grabbed); }
      case Restored => if v in views { Restore(v); }
      case Minimized => if v in views { Minimize(v, grabbed); }
      case HoldOver => if v in holds { HoldExpired(v); }
    }

    lemma MappedAreViews()
      requires Shape()
      ensures forall v :: (v in views ==> v in mapped) && (v in mapped ==> v in views)
    {
    }

    /** What a happening is to the protocol: a command, with what Ctrl+Alt+Del finds of watchers; or that a client went
      which was the remote connection or the viewer. */
    function Did(h: Happening): seq<Command>
      reads this`watchers, this`remoteClient, this`shadowClient
    {
      if h.Given? then [if h.c.CtrlAltDel? then h.c.(watched := watchers != []) else h.c]
      else if h.ClientLeaves? && remoteClient == Client(h.gone) then [RemoteGone]
      else if h.ClientLeaves? && shadowClient == Client(h.gone) then [ShadowGone]
      else []
    }

    /** The seat or a connection does something. */
    method HappenElse(h: Happening, grabbed: bool)
      requires Valid() && leaving == {} && !h.Of? && !h.MapOf? && forall u :: u in views ==> u in mapped
      modifies this`privileged, this`leaving, this`remoteClient, this`shadowClient, this`mapped, this`holds
      modifies this`remote, this`locked, this`secure, this`sas, this`dimmed, this`views, this`keyboard, this`pointer, this`hits
      modifies mapped`enabled, mapped`surface, known`view
      modifies this`watchers, this`events, this`sessionWatchers, this`notes, this`told
      modifies this`hungUp
      ensures Valid() && leaving == {} && mapped <= old(mapped)
      ensures Protocol() == Run(accounts, old(Protocol()), old(Did(h)))
      ensures h.ClientLeaves? ==>
        && (forall v :: v in mapped ==> v.surface != null && v.surface.client != h.gone)
        && (keyboard != null ==> keyboard.client != h.gone) && (pointer != null ==> pointer.client != h.gone)
      ensures Seated(h, grabbed)
    {
      hide Connected, Shape, Isolated, Shown, Run, Step;
      RunOfOne(accounts, Protocol(), Did(h));
      if h.Given? {
        var c := if h.c.CtrlAltDel? then h.c.(watched := watchers != []) else h.c;
        Execute(c, h.client, grabbed);
      } else if h.ClientLeaves? {
        ClientDone(h.gone, grabbed);
      } else {
        HappenQuietly(h, grabbed);
      }
    }

    /** The seat or a connection did so: keys and pointer go where the cursor is or the order says, and lists of connections
      grow or shrink by theirs. */
    twostate predicate Seated(h: Happening, grabbed: bool)
      requires !h.Of? && !h.MapOf? && forall u :: u in old(views) ==> u in old(mapped)
      reads this
    {
      && (h.PrivilegedComes? ==>
          privileged == if h.uid == 0 || (accounts.known && h.uid == accounts.machine) then old(privileged) + {h.client} else old(privileged))
      && (h.DesktopComes? ==> keyboard == old(GivenTo(FirstShell(views))))
      && (h.SwitchedBack? ==> keyboard == old(GivenTo(FirstOfSession(views))))
      && (h.Pressed? && old(hits) != [] && old(hits)[0].On? ==>
          var v := old(hits)[0].view;
          keyboard == if v in old(views) && old(v.enabled) && old(v.surface) != null && old(hits)[0].surface.client == old(v.surface).client
                         && (!locked || old(v.surface).client in privileged) && !v.unmanaged && v.wantsFocus && !h.transient
                      then old(v.surface) else old(keyboard))
      && (h.Pointed? && grabbed ==> pointer == old(pointer))
      && (h.Pointed? && !grabbed ==>
          && (pointer != null <==> old(hits) != [] && old(hits)[0].On? && var v := old(hits)[0].view;
                && v in old(views) && old(v.enabled) && old(v.surface) != null && old(hits)[0].surface.client == old(v.surface).client
                && (!locked || old(v.surface).client in privileged))
          && (pointer != null ==> pointer == old(hits)[0].surface))
      && (h.Watches? ==>
          var more := (h.uid == 0 || (accounts.known && h.uid == accounts.machine)) && h.id !in hungUp;
          watchers == (if more then [Watcher(h.id, |events|, [])] else []) + old(watchers))
      && (h.WatchesSession? ==>
          var more := (h.uid == 0 || h.uid == accounts.user || (accounts.known && h.uid == accounts.machine)) && h.id !in hungUp;
          sessionWatchers == (if more then [SessionWatcher(h.id, |notes|, StatusNow(), [])] else []) + old(sessionWatchers))
      && (h.HangsUp? ==> hungUp == old(hungUp) + {h.id})
      && (h.WatcherReadable? ==>
          && (forall w :: w in watchers <==> w in old(watchers) && w.id != h.id)
          && (forall w :: w in sessionWatchers <==> w in old(sessionWatchers) && w.id != h.id))
    }

    /** Case by case. */
    twostate lemma SeatedIs(h: Happening, grabbed: bool)
      requires !h.Of? && !h.MapOf? && (forall u :: u in old(views) ==> u in old(mapped)) && Seated(h, grabbed)
      ensures h.PrivilegedComes? ==>
        privileged == if h.uid == 0 || (accounts.known && h.uid == accounts.machine) then old(privileged) + {h.client} else old(privileged)
      ensures h.DesktopComes? ==> keyboard == old(GivenTo(FirstShell(views)))
      ensures h.SwitchedBack? ==> keyboard == old(GivenTo(FirstOfSession(views)))
      ensures h.Pressed? && old(hits) != [] && old(hits)[0].On? ==>
        var v := old(hits)[0].view;
        keyboard == if v in old(views) && old(v.enabled) && old(v.surface) != null && old(hits)[0].surface.client == old(v.surface).client
                       && (!locked || old(v.surface).client in privileged) && !v.unmanaged && v.wantsFocus && !h.transient
                    then old(v.surface) else old(keyboard)
      ensures h.Pointed? && grabbed ==> pointer == old(pointer)
      ensures h.Pointed? && !grabbed ==>
        && (pointer != null <==> old(hits) != [] && old(hits)[0].On? && var v := old(hits)[0].view;
              && v in old(views) && old(v.enabled) && old(v.surface) != null && old(hits)[0].surface.client == old(v.surface).client
              && (!locked || old(v.surface).client in privileged))
        && (pointer != null ==> pointer == old(hits)[0].surface)
      ensures h.Watches? ==>
        var more := (h.uid == 0 || (accounts.known && h.uid == accounts.machine)) && h.id !in hungUp;
        watchers == (if more then [Watcher(h.id, |events|, [])] else []) + old(watchers)
      ensures h.WatchesSession? ==>
        var more := (h.uid == 0 || h.uid == accounts.user || (accounts.known && h.uid == accounts.machine)) && h.id !in hungUp;
        sessionWatchers == (if more then [SessionWatcher(h.id, |notes|, StatusNow(), [])] else []) + old(sessionWatchers)
      ensures h.HangsUp? ==> hungUp == old(hungUp) + {h.id}
      ensures h.WatcherReadable? ==>
        && (forall w :: w in watchers <==> w in old(watchers) && w.id != h.id)
        && (forall w :: w in sessionWatchers <==> w in old(sessionWatchers) && w.id != h.id)
    {
    }

    /** What is nothing to the protocol. */
    method HappenQuietly(h: Happening, grabbed: bool)
      requires Valid() && leaving == {} && !h.Of? && !h.MapOf? && !h.Given? && !h.ClientLeaves?
      requires forall u :: u in views ==> u in mapped
      modifies this`privileged, this`views, this`keyboard, this`pointer, this`hits, this`watchers, this`sessionWatchers, this`hungUp
      ensures Valid()
      ensures Seated(h, grabbed)
    {
      hide Connected, Shape, Isolated, Shown, GivenTo;
      OthersKept(watchers, if h.WatcherReadable? then h.id else 0);
      OtherSessionsKept(sessionWatchers, if h.WatcherReadable? then h.id else 0);
      match h
      case PrivilegedComes(uid, c) => var ok := ConnectPrivileged(uid, c);
      case DesktopComes => var ok := DesktopFront(grabbed);
      case Pressed(transient) => PressButton(transient, grabbed);
      case Pointed => PointerMoves(grabbed);
      case SwitchedBack => SwitchBack(grabbed);
      case Watches(uid, id) => var ok, said := Watch(uid, id);
      case WatchesSession(uid, id) => var ok, opening := WatchSession(uid, id);
      case HangsUp(id) => HangUp(id);
      case WatcherReadable(id) => WatcherDone(id);
    }

    /** A client goes: to the protocol, the end of the connection it was, if any. */
    method ClientDone(c: int, grabbed: bool)
      requires Valid() && leaving == {}
      modifies this`privileged, this`leaving, this`remoteClient, this`shadowClient, this`mapped, this`holds
      modifies this`remote, this`locked, this`secure, this`sas, this`dimmed, this`views, this`keyboard, this`pointer, this`hits
      modifies mapped`enabled, mapped`surface, known`view
      modifies this`watchers, this`events, this`sessionWatchers, this`notes, this`told
      ensures Valid() && leaving == {} && mapped <= old(mapped)
      ensures Protocol() ==
        if old(remoteClient) == Client(c) then Step(accounts, old(Protocol()), RemoteGone)
        else if old(shadowClient) == Client(c) then Step(accounts, old(Protocol()), ShadowGone)
        else old(Protocol())
      ensures forall v :: v in mapped ==> v.surface != null && v.surface.client != c
      ensures (keyboard != null ==> keyboard.client != c) && (pointer != null ==> pointer.client != c)
    {
      hide Shape, Isolated, Shown, Connected, Ended, Step;
      ConnectedFacts();
      EndedIsStep(accounts, Protocol(), remoteClient == Client(c), shadowClient == Client(c));
      ClientGone(c, grabbed);
    }

    lemma EndedIsStep(a: Accounts, s: Session, remoteEnd: bool, viewerEnd: bool)
      requires (remoteEnd ==> s.client) && (viewerEnd ==> s.shadow) && !(remoteEnd && viewerEnd)
      ensures Ended(s, remoteEnd, viewerEnd) ==
              if remoteEnd then Step(a, s, RemoteGone) else if viewerEnd then Step(a, s, ShadowGone) else s
    {
      hide GiveBack, EndShadow;
    }

    method PointerMoves(grabbed: bool)
      requires Scene()
      modifies this`pointer, this`hits
      ensures Scene()
      ensures grabbed ==> pointer == old(pointer)
      ensures !grabbed ==>
        && (pointer != null <==> old(hits) != [] && old(hits)[0].On? && var v := old(hits)[0].view;
              && v in views && v.enabled && v.surface != null && old(hits)[0].surface.client == v.surface.client
              && (!locked || v.surface.client in privileged))
        && (pointer != null ==> pointer == old(hits)[0].surface)
    {
      CursorMotion(grabbed);
    }

    /** Alt+Tab from an elevated window. */
    method SwitchBack(grabbed: bool)
      requires Scene()
      modifies this`views, this`keyboard, this`pointer, this`hits
      ensures Scene() && keyboard == old(GivenTo(FirstOfSession(views)))
    {
      FocusSession(grabbed);
    }

    /** One thing that happens, if it can. The invariant holds after it, and the protocol has made its step. */
    method Happen(h: Happening, grabbed: bool, ghost all: set<View>, ghost surfaces: set<Surface>)
      requires Valid() && leaving == {} && mapped <= all && known <= surfaces && forall u :: u in views ==> u in mapped
      requires (h.Of? || h.MapOf? ==> h.v in all) && (h.MapOf? ==> h.s in surfaces)
      modifies this, all, surfaces
      ensures Valid() && leaving == {} && mapped <= all && known <= surfaces
      ensures Protocol() == Run(accounts, old(Protocol()), old(Did(h)))
      ensures h.Of? ==> Treated(h.v, h.what)
      ensures h.MapOf? ==> PutOn(h.v, h.s, h.asking)
      ensures !h.Of? && !h.MapOf? ==> Seated(h, grabbed)
      ensures h.ClientLeaves? ==>
        && (forall v :: v in mapped ==> v.surface != null && v.surface.client != h.gone)
        && (keyboard != null ==> keyboard.client != h.gone) && (pointer != null ==> pointer.client != h.gone)
    {
      MappedAreViews();
      hide Connected, Shape, Isolated, Shown, Step, Did, Server.Treated, Server.PutOn, Server.Seated;
      if h.Of? || h.MapOf? {
        Quiet(h);
        HappenTo(h, grabbed);
      } else {
        HappenElse(h, grabbed);
      }
    }

    lemma Quiet(h: Happening)
      requires h.Of? || h.MapOf?
      ensures Did(h) == []
    {
    }

    /** What the next looks under the cursor will find. */
    method LookFor(under: seq<Under>)
      requires Valid()
      modifies this`hits
      ensures Valid() && hits == under && forall u :: u in views ==> u in mapped
    {
      hide Connected, Isolated, Shown;
      hits := under;
    }

    /** Anything that happens, for as long as it happens: the protocol has run what of it was to it, `done`. Without a
      command of an authorised account among it, a session that is not unlocked does not become so, nor anything but
      more locked. */
    method HappenAll(moments: seq<Moment>, ghost all: set<View>, ghost surfaces: set<Surface>)
        returns (done: seq<Command>)
      requires Valid() && leaving == {} && mapped <= all && known <= surfaces
      requires forall m :: m in moments ==>
                 (m.h.Of? || m.h.MapOf? ==> m.h.v in all) && (m.h.MapOf? ==> m.h.s in surfaces)
      modifies this, all, surfaces
      ensures Valid() && leaving == {} && Protocol() == Run(accounts, old(Protocol()), done)
      ensures Follows(done, moments)
      ensures old(locked) && (forall m :: m in moments && m.h.Given? ==> !Authorised(accounts, m.h.c)) ==>
                ModeNow() == old(ModeNow()) || ModeNow() == Locked
    {
      hide Valid, Step, Run, Did;
      ghost var s := Protocol();
      done := [];
      RunOfNone(accounts, s);
      for k := 0 to |moments|
        invariant Valid() && leaving == {} && mapped <= all && known <= surfaces
        invariant Protocol() == Run(accounts, s, done)
        invariant Follows(done, moments[..k])
      {
        var did := Did(moments[k].h);
        assert moments[..k + 1][..k] == moments[..k];
        FollowsMore(moments[..k + 1], done);
        LookFor(moments[k].under);
        Happen(moments[k].h, moments[k].grabbed, all, surfaces);
        RunMore(accounts, s, done, did);
        done := done + did;
      }
      assert moments[..|moments|] == moments;
      if s.mode != Unlocked && forall m :: m in moments && m.h.Given? ==> !Authorised(accounts, m.h.c) {
        forall c | c in done
          ensures !Authorised(accounts, c)
        {
          FollowsCame(done, moments, c);
        }
        OnlyAuthorityUnlocks(accounts, s, done);
      }
    }

    lemma FollowsMore(moments: seq<Moment>, done: seq<Command>)
      requires moments != [] && Follows(done, moments[..|moments| - 1])
      ensures |Did(moments[|moments| - 1].h)| <= 1
      ensures Follows(done + Did(moments[|moments| - 1].h), moments)
    {
      var did := Did(moments[|moments| - 1].h);
      assert (done + did)[..|done|] == done && done + [] == done;
    }
  }

  /** The security screen can come up with no one to draw it: the one watcher had gone, and had not been missed. */
  method UndrawnScreen(accounts: Accounts, backend: bool) returns (server: Server)
    ensures fresh(server) && server.Valid() && server.sas && server.watchers == []
  {
    server := new Server(accounts, backend);
    var watches, said := server.Watch(0, 7);
    server.HangUp(7);
    var ok := server.SasEngage(false);
  }

  /** The command carried out is the one given, but that the compositor finds out who watches. */
  predicate Carries(done: Command, given: Command) {
    if given.CtrlAltDel? then done.CtrlAltDel? && done == given.(watched := done.watched) else done == given
  }

  /** What was carried out is, in order, the commands given and the ends of the remote connections and viewings that
    went with their clients. */
  ghost predicate Follows(done: seq<Command>, moments: seq<Moment>)
    decreases |moments|
  {
    if moments == [] then done == []
    else
      var h, before := moments[|moments| - 1].h, moments[..|moments| - 1];
      if h.Given? then done != [] && Carries(done[|done| - 1], h.c) && Follows(done[..|done| - 1], before)
      else if h.ClientLeaves? && done != [] && IsEnd(done[|done| - 1]) && Follows(done[..|done| - 1], before) then true
      else Follows(done, before)
  }

  predicate IsEnd(c: Command) {
    c.RemoteGone? || c.ShadowGone?
  }

  lemma {:induction false} FollowsCame(done: seq<Command>, moments: seq<Moment>, c: Command)
    requires Follows(done, moments) && c in done
    ensures IsEnd(c) || exists m :: m in moments && m.h.Given? && Carries(c, m.h.c)
    decreases |moments|
  {
    var last, before := moments[|moments| - 1], moments[..|moments| - 1];
    assert last in moments && forall m :: m in before ==> m in moments;
    if Follows(done, before) {
      FollowsCame(done, before, c);
    } else {
      var init := done[..|done| - 1];
      assert done == init + [done[|done| - 1]];
      if c in init { FollowsCame(init, before, c); }
    }
  }

  lemma RunOfNone(a: Accounts, s: Session)
    ensures Run(a, s, []) == s
  {
  }

  lemma RunOfOne(a: Accounts, s: Session, cs: seq<Command>)
    requires |cs| <= 1
    ensures Run(a, s, cs) == if cs == [] then s else Step(a, s, cs[0])
  {
    if cs != [] { assert cs[..0] == []; }
  }

  lemma RunMore(a: Accounts, s: Session, cs: seq<Command>, more: seq<Command>)
    requires |more| <= 1
    ensures Run(a, s, cs + more) == Run(a, Run(a, s, cs), more)
  {
    if more == [] {
      assert cs + more == cs;
    } else {
      assert (cs + more)[..|cs|] == cs && more[..0] == [];
    }
  }

  function Others(ws: seq<Watcher>, id: int): seq<Watcher> {
    if ws == [] then [] else (if ws[0].id == id then [] else [ws[0]]) + Others(ws[1..], id)
  }

  lemma {:induction false} OthersKept(ws: seq<Watcher>, id: int)
    ensures forall w :: w in Others(ws, id) <==> w in ws && w.id != id
  {
    if ws != [] {
      OthersKept(ws[1..], id);
      assert forall w :: w in ws <==> w == ws[0] || w in ws[1..];
    }
  }

  function OtherSessions(ws: seq<SessionWatcher>, id: int): seq<SessionWatcher> {
    if ws == [] then [] else (if ws[0].id == id then [] else [ws[0]]) + OtherSessions(ws[1..], id)
  }

  lemma {:induction false} OtherSessionsKept(ws: seq<SessionWatcher>, id: int)
    ensures forall w :: w in OtherSessions(ws, id) <==> w in ws && w.id != id
  {
    if ws != [] {
      OtherSessionsKept(ws[1..], id);
      assert forall w :: w in ws <==> w == ws[0] || w in ws[1..];
    }
  }

  /** The connections that can be reached, each told one more event. */
  function Heard(ws: seq<Watcher>, hungUp: set<int>, event: Event): seq<Watcher> {
    if ws == [] then []
    else
      var u, rest := ws[|ws| - 1], Heard(ws[..|ws| - 1], hungUp, event);
      if u.id in hungUp then rest else rest + [u.(told := u.told + [event])]
  }

  /** Likewise the SESSION connections. */
  function HeardNote(ws: seq<SessionWatcher>, hungUp: set<int>, note: Note): seq<SessionWatcher> {
    if ws == [] then []
    else
      var u, rest := ws[|ws| - 1], HeardNote(ws[..|ws| - 1], hungUp, note);
      if u.id in hungUp then rest else rest + [u.(told := u.told + [note])]
  }

  /** One by one: one that can be reached is told once more and stays, in order, one that cannot is dropped. */
  lemma HeardOneMore(ws: seq<Watcher>, w: Watcher, hungUp: set<int>, event: Event)
    ensures Heard([], hungUp, event) == []
    ensures Heard(ws + [w], hungUp, event) ==
            Heard(ws, hungUp, event) + if w.id in hungUp then [] else [Watcher(w.id, w.from, w.told + [event])]
  {
    assert (ws + [w])[..|ws|] == ws;
  }

  lemma HeardNoteOneMore(ws: seq<SessionWatcher>, w: SessionWatcher, hungUp: set<int>, note: Note)
    ensures HeardNote([], hungUp, note) == []
    ensures HeardNote(ws + [w], hungUp, note) ==
            HeardNote(ws, hungUp, note) + if w.id in hungUp then [] else [SessionWatcher(w.id, w.from, w.opening, w.told + [note])]
  {
    assert (ws + [w])[..|ws|] == ws;
  }

  lemma {:induction false} NoneHeard(ws: seq<Watcher>, hungUp: set<int>, event: Event)
    ensures Heard(ws, hungUp, event) == [] <==> forall w :: w in ws ==> w.id in hungUp
  {
    if ws != [] {
      var u, init := ws[|ws| - 1], ws[..|ws| - 1];
      NoneHeard(init, hungUp, event);
      assert forall w :: w in ws <==> w in init || w == u;
    }
  }

  datatype ToView = Unmapped | Destroyed | Activated | Restored | Minimized | HoldOver

  /** What can happen to the compositor. */
  datatype Happening =
    | Of(v: View, what: ToView)
    | MapOf(v: View, s: Surface, asking: bool)
    | Given(c: Command, client: int)
    | ClientLeaves(gone: int)
    | PrivilegedComes(uid: int, client: int)
    | DesktopComes
    | Pressed(transient: bool)
    | Pointed
    | SwitchedBack
    | Watches(uid: int, id: int)
    | WatchesSession(uid: int, id: int)
    | HangsUp(id: int)
    | WatcherReadable(id: int)

  /** A thing that happens; `grabbed`: while a window is being moved or resized; `under`: what is found under the cursor,
    each time it is looked for. */
  datatype Moment = Moment(h: Happening, grabbed: bool, under: seq<Under>)

  /** A command, with the client of a connection handed over with it. */
  datatype Order = Order(c: Command, client: int, grabbed: bool)

  function FirstManaged(vs: seq<View>): (v: View?)
    ensures v != null ==> v in vs && !v.unmanaged
  {
    if vs == [] then null else if !vs[0].unmanaged then vs[0] else FirstManaged(vs[1..])
  }

  function FirstShell(vs: seq<View>): (v: View?)
    ensures v != null ==> v in vs && v.shell
  {
    if vs == [] then null else if vs[0].shell then vs[0] else FirstShell(vs[1..])
  }

  lemma {:induction false} FirstManagedIs(vs: seq<View>, k: nat)
    requires k <= |vs| && (forall j :: 0 <= j < k ==> vs[j].unmanaged) && (k < |vs| ==> !vs[k].unmanaged)
    ensures FirstManaged(vs) == if k < |vs| then vs[k] else null
  {
    if k > 0 { FirstManagedIs(vs[1..], k - 1); }
  }

  lemma {:induction false} FirstShellIs(vs: seq<View>, k: nat)
    requires k <= |vs| && (forall j :: 0 <= j < k ==> !vs[j].shell) && (k < |vs| ==> vs[k].shell)
    ensures FirstShell(vs) == if k < |vs| then vs[k] else null
  {
    if k > 0 { FirstShellIs(vs[1..], k - 1); }
  }

  /** A view is taken out, and the others keep their order. */
  lemma {:induction false} WithoutIs(a: seq<View>, v: View, b: seq<View>)
    requires v !in a && v !in b
    ensures Without(a + [v] + b, v) == a + b && Without(b, v) == b
  {
    hide Without;
    NotThere(b, v);
    if a != [] {
      WithoutFirst(a[0], a[1..] + [v] + b, v);
      WithoutIs(a[1..], v, b);
      assert [a[0]] + (a[1..] + [v] + b) == a + [v] + b;
      assert [a[0]] + (a[1..] + b) == a + b;
    } else {
      WithoutFirst(v, b, v);
      assert a + [v] + b == [v] + b && a + b == b;
    }
  }

  lemma WithoutFirst(u: View, rest: seq<View>, v: View)
    ensures Without([u] + rest, v) == (if u == v then [] else [u]) + Without(rest, v)
  {
    assert ([u] + rest)[1..] == rest;
  }

  lemma {:induction false} NotThere(b: seq<View>, v: View)
    requires v !in b
    ensures Without(b, v) == b
  {
    if b != [] { NotThere(b[1..], v); }
  }

  function Without(views: seq<View>, v: View): seq<View> {
    if views == [] then [] else (if views[0] == v then [] else [views[0]]) + Without(views[1..], v)
  }

  ghost predicate Distinct(views: seq<View>) {
    forall j, k :: 0 <= j < k < |views| ==> views[j] != views[k]
  }

  lemma {:induction false} WithoutKeeps(views: seq<View>, v: View)
    ensures forall u :: u in Without(views, v) <==> u in views && u != v
    ensures Distinct(views) ==> Distinct(Without(views, v))
  {
    if views != [] {
      var rest := Without(views[1..], v);
      WithoutKeeps(views[1..], v);
      assert forall u :: u in views <==> u == views[0] || u in views[1..];
      if Distinct(views) && views[0] != v {
        assert Without(views, v) == [views[0]] + rest;
        assert views[0] !in views[1..];
      }
    }
  }
}
