/** The session's protocol: locking, secure prompts, the security screen, Remote Desktop and console shadow, as
  commands and keys change them (lock.c, and the key path of seat.c), with what the watchers are told.

  This is the specification the compositor's methods are proved against, and what is proved of every run.
 */
module SessionProtocol {

  /** The source's three booleans encode one of these. */
  datatype Mode = Unlocked | Locked | Secure | SecurityScreen

  /** What WATCH connections are told. */
  datatype Event = SaidLocked | SaidSecure | SaidSas | SaidUnlocked | SaidReleased

  /** What SESSION connections are told. */
  datatype Note = RemoteConnect | RemoteDisconnect | LockNote | UnlockNote | ShadowStart | ShadowEnd

  /** The session as its programs see it. */
  datatype Status = Status(locked: bool, remote: bool, shadow: bool)

  /** `backend`: there is an output for Remote Desktop to be had. `client`: the remote connection is handed over. */
  datatype Session = Session(mode: Mode, backend: bool, remote: bool, client: bool, shadow: bool,
                             events: seq<Event>, notes: seq<Note>)
  {
    function Seen(): Status {
      Status(mode == Locked, remote, shadow)
    }
  }

  /** Who is who: this session's user, and the machine session's account, if it is known. */
  datatype Accounts = Accounts(user: int, known: bool, machine: int) {
    predicate MayUnlock(uid: int) {
      uid == 0 || (known && uid == machine)
    }

    predicate MayLock(uid: int) {
      uid == user || MayUnlock(uid)
    }
  }

  datatype Command =
    | LockCmd(uid: int)
    | UnlockCmd(uid: int)
    | SecureCmd(uid: int)
    | ReleaseCmd(uid: int)
    | SasCmd(uid: int, action: string)
    | RemoteCmd(uid: int, fd: bool, connected: bool, output: bool)
    | LocalCmd(uid: int)
    | ShadowCmd(uid: int, fd: bool, connected: bool)
    | WinL(injected: bool)
    | CtrlAltDel(injected: bool, viewer: bool, watched: bool)
    | RemoteGone
    | ShadowGone

  // ----- one step

  /** The session's programs are told what changed: where the session is first, then whether it is locked. */
  function News(was: Status, now: Status): seq<Note> {
    (if was.remote == now.remote then [] else [if now.remote then RemoteConnect else RemoteDisconnect]) +
    (if was.locked == now.locked then [] else [if now.locked then LockNote else UnlockNote]) +
    (if was.shadow == now.shadow then [] else [if now.shadow then ShadowStart else ShadowEnd])
  }

  /** A mode is entered: the watchers are told, then the session's programs. */
  function Enter(s: Session, mode: Mode, event: Event): Session {
    var next := s.(mode := mode, events := s.events + [event]);
    next.(notes := s.notes + News(s.Seen(), next.Seen()))
  }

  function Engage(s: Session): Session {
    if s.mode == Locked then s else Enter(s, Locked, SaidLocked)
  }

  /** Remote Desktop comes or goes, or a viewer does: only the session's programs are told. */
  function Moved(s: Session, next: Session): Session {
    next.(notes := s.notes + News(s.Seen(), next.Seen()))
  }

  /** The console has the session back, locked. */
  function GiveBack(s: Session): Session {
    if s.remote then Engage(Moved(s, s.(remote := false, client := false))) else s
  }

  function TakeOver(s: Session): Session {
    var moved := s.(remote := true);
    if s.mode == Unlocked then Moved(s, moved)
    else moved.(mode := Unlocked, events := s.events + [SaidUnlocked],
                notes := s.notes + News(s.Seen(), Status(false, true, s.shadow)))
  }

  function EndShadow(s: Session): Session {
    if s.shadow then Moved(s, s.(shadow := false)) else s
  }

  /** REMOTE from an authorised account. */
  function Remoted(s: Session, fd: bool, connected: bool, output: bool): Session {
    if s.shadow || (fd && (s.client || !connected)) then s
    else if !s.backend || s.mode == Secure || (!s.remote && !output) then s.(client := if fd then s.remote else s.client)
    else (if s.remote then s else TakeOver(s)).(client := s.client || fd)
  }

  /** Ctrl+Alt+Del, once no one views the session: the console's takes the session back from Remote Desktop, any
    other puts up the security screen, or with no one to draw it locks. */
  function Attention(s: Session, injected: bool, watched: bool): Session {
    if s.remote && !injected then GiveBack(s)
    else if s.mode != Unlocked then s
    else if watched then Enter(s, SecurityScreen, SaidSas) else Engage(s)
  }

  function Step(a: Accounts, s: Session, c: Command): Session {
    match c
    case LockCmd(uid) => if a.MayLock(uid) then Engage(s) else s
    case UnlockCmd(uid) => if a.MayUnlock(uid) && s.mode != Unlocked then Enter(s, Unlocked, SaidUnlocked) else s
    case SecureCmd(uid) => if a.MayUnlock(uid) && s.mode == Unlocked then Enter(s, Secure, SaidSecure) else s
    case ReleaseCmd(uid) => if a.MayUnlock(uid) && s.mode == Secure then Enter(s, Unlocked, SaidReleased) else s
    case SasCmd(uid, action) =>
      if a.MayUnlock(uid) && s.mode == SecurityScreen && action in ["cancel", "taskmgr", "signout"]
      then Enter(s, Unlocked, SaidUnlocked) else s
    case RemoteCmd(uid, fd, connected, output) => if a.MayUnlock(uid) then Remoted(s, fd, connected, output) else s
    case LocalCmd(uid) => if a.MayUnlock(uid) then GiveBack(s) else s
    case ShadowCmd(uid, fd, connected) =>
      if a.MayUnlock(uid) && fd && connected && !s.shadow && !s.client && !s.remote then Moved(s, s.(shadow := true)) else s
    case WinL(injected) => if s.remote && !injected then s else Engage(s)
    case CtrlAltDel(injected, viewer, watched) => Attention(if viewer then s else EndShadow(s), injected, watched)
    case RemoteGone => if s.client then GiveBack(s.(client := false)) else s
    case ShadowGone => EndShadow(s)
  }

  function Run(a: Accounts, s: Session, cs: seq<Command>): Session {
    if cs == [] then s else Step(a, Run(a, s, cs[..|cs| - 1]), cs[|cs| - 1])
  }

  function Start(backend: bool): Session {
    Session(Unlocked, backend, false, false, false, [], [])
  }

  // ----- what each command does

  /** LOCK, from root, the session's user or the machine session's account, leaves a real lock over whatever there was. */
  lemma LockDoes(a: Accounts, s: Session, uid: int)
    ensures Step(a, s, LockCmd(uid)) ==
      if (uid == 0 || uid == a.user || (a.known && uid == a.machine)) && s.mode != Locked
      then s.(mode := Locked, events := s.events + [SaidLocked], notes := s.notes + [LockNote]) else s
  {
  }

  /** So does Win+L, but at a console whose session was taken over. */
  lemma WinLDoes(a: Accounts, s: Session, injected: bool)
    ensures Step(a, s, WinL(injected)) ==
      if (!s.remote || injected) && s.mode != Locked
      then s.(mode := Locked, events := s.events + [SaidLocked], notes := s.notes + [LockNote]) else s
  {
  }

  /** UNLOCK, from root or the machine session's account, leaves the session unlocked. */
  lemma UnlockDoes(a: Accounts, s: Session, uid: int)
    ensures Step(a, s, UnlockCmd(uid)) ==
      if (uid == 0 || (a.known && uid == a.machine)) && s.mode != Unlocked
      then s.(mode := Unlocked, events := s.events + [SaidUnlocked],
              notes := s.notes + if s.mode == Locked then [UnlockNote] else [])
      else s
  {
  }

  /** SECURE puts a prompt over an unlocked session only, and its programs hear nothing of it; RELEASE ends a prompt. */
  lemma SecureDoes(a: Accounts, s: Session, uid: int)
    ensures Step(a, s, SecureCmd(uid)) ==
      if (uid == 0 || (a.known && uid == a.machine)) && s.mode == Unlocked
      then s.(mode := Secure, events := s.events + [SaidSecure]) else s
    ensures Step(a, s, ReleaseCmd(uid)) ==
      if (uid == 0 || (a.known && uid == a.machine)) && s.mode == Secure
      then s.(mode := Unlocked, events := s.events + [SaidReleased]) else s
  {
  }

  /** The security screen's three actions end it; anything else does not. */
  lemma SasDoes(a: Accounts, s: Session, uid: int, action: string)
    ensures Step(a, s, SasCmd(uid, action)) ==
      if (uid == 0 || (a.known && uid == a.machine)) && s.mode == SecurityScreen
         && (action == "cancel" || action == "taskmgr" || action == "signout")
      then s.(mode := Unlocked, events := s.events + [SaidUnlocked]) else s
  {
  }

  /** A takeover begins, and unlocks the session, when there is an output to be had, no viewer and no prompt, and what
    is handed over, if anything, can be had; a connection handed over stays if the session is taken over then. */
  lemma RemoteDoes(a: Accounts, s: Session, uid: int, fd: bool, connected: bool, output: bool)
    ensures Step(a, s, RemoteCmd(uid, fd, connected, output)) ==
      if !(uid == 0 || (a.known && uid == a.machine)) || s.shadow || (fd && (s.client || !connected)) then s
      else if s.remote then s.(client := s.client || fd)
      else if s.backend && s.mode != Secure && output
      then s.(remote := true, client := s.client || fd, mode := Unlocked,
              events := s.events + (if s.mode == Unlocked then [] else [SaidUnlocked]),
              notes := s.notes + [RemoteConnect] + if s.mode == Locked then [UnlockNote] else [])
      else s.(client := !fd && s.client)
  {
  }

  /** LOCAL gives the console the session back, locked; so does the end of the remote connection. */
  lemma LocalDoes(a: Accounts, s: Session, uid: int)
    ensures Step(a, s, LocalCmd(uid)) ==
      if (uid == 0 || (a.known && uid == a.machine)) && s.remote
      then s.(remote := false, client := false, mode := Locked,
              events := s.events + (if s.mode == Locked then [] else [SaidLocked]),
              notes := s.notes + [RemoteDisconnect] + if s.mode == Locked then [] else [LockNote])
      else s
    ensures Step(a, s, RemoteGone) ==
      if s.client && s.remote
      then s.(remote := false, client := false, mode := Locked,
              events := s.events + (if s.mode == Locked then [] else [SaidLocked]),
              notes := s.notes + [RemoteDisconnect] + if s.mode == Locked then [] else [LockNote])
      else s.(client := false)
  {
    GiveBackIs(s);
    GiveBackIs(s.(client := false));
    hide GiveBack;
  }

  lemma GiveBackIs(s: Session)
    ensures GiveBack(s) ==
      if s.remote
      then s.(remote := false, client := false, mode := Locked,
              events := s.events + (if s.mode == Locked then [] else [SaidLocked]),
              notes := s.notes + [RemoteDisconnect] + if s.mode == Locked then [] else [LockNote])
      else s
  {
    if s.remote {
      var moved := s.(remote := false, client := false, notes := s.notes + [RemoteDisconnect]);
      assert Moved(s, s.(remote := false, client := false)) == moved;
      EngageIs(moved);
      hide Engage;
    }
  }

  lemma EngageIs(s: Session)
    ensures Engage(s) ==
      if s.mode != Locked then s.(mode := Locked, events := s.events + [SaidLocked], notes := s.notes + [LockNote]) else s
  {
  }

  /** SHADOW begins a viewing of a session no one views and no one took over; it ends with its connection. */
  lemma ShadowDoes(a: Accounts, s: Session, uid: int, fd: bool, connected: bool)
    ensures Step(a, s, ShadowCmd(uid, fd, connected)) ==
      if (uid == 0 || (a.known && uid == a.machine)) && fd && connected && !s.shadow && !s.client && !s.remote
      then s.(shadow := true, notes := s.notes + [ShadowStart]) else s
    ensures Step(a, s, ShadowGone) == if s.shadow then s.(shadow := false, notes := s.notes + [ShadowEnd]) else s
  {
  }

  /** Ctrl+Alt+Del, but a viewer's, ends a viewing first. Then the console's gives the session back; else, unlocked, the
    session gets the security screen where there are watchers and a lock where there are none. */
  lemma CtrlAltDelDoes(a: Accounts, s: Session, injected: bool, viewer: bool, watched: bool)
    ensures var t := if s.shadow && !viewer then s.(shadow := false, notes := s.notes + [ShadowEnd]) else s;
            Step(a, s, CtrlAltDel(injected, viewer, watched)) ==
            if s.remote && !injected
            then t.(remote := false, client := false, mode := Locked,
                    events := s.events + (if s.mode == Locked then [] else [SaidLocked]),
                    notes := t.notes + [RemoteDisconnect] + if s.mode == Locked then [] else [LockNote])
            else if s.mode != Unlocked then t
            else if watched then t.(mode := SecurityScreen, events := s.events + [SaidSas])
            else t.(mode := Locked, events := s.events + [SaidLocked], notes := t.notes + [LockNote])
  {
    var t := if viewer then s else EndShadow(s);
    assert t == if s.shadow && !viewer then s.(shadow := false, notes := s.notes + [ShadowEnd]) else s;
    assert t.mode == Unlocked ==> Enter(t, SecurityScreen, SaidSas) == t.(mode := SecurityScreen, events := s.events + [SaidSas]);
    GiveBackIs(t);
    EngageIs(t);
    hide GiveBack, Engage, Enter, EndShadow;
  }

  // ----- what holds after every step

  /** A remote connection means a takeover, and a viewer never watches a session that was taken over. */
  predicate Consistent(s: Session) {
    (s.client ==> s.remote) && !(s.shadow && s.remote)
  }

  /** The mode a WATCH connection reads from an event. */
  function ModeSaid(event: Event): Mode {
    match event
    case SaidLocked => Locked
    case SaidSecure => Secure
    case SaidSas => SecurityScreen
    case _ => Unlocked
  }

  /** The mode a WATCH connection has read from all the events since some mode. */
  function ModeRead(mode: Mode, events: seq<Event>): Mode {
    if events == [] then mode else ModeSaid(events[|events| - 1])
  }

  /** What one note tells. */
  function Noted(v: Status, note: Note): Status {
    match note
    case RemoteConnect => v.(remote := true)
    case RemoteDisconnect => v.(remote := false)
    case LockNote => v.(locked := true)
    case UnlockNote => v.(locked := false)
    case ShadowStart => v.(shadow := true)
    case ShadowEnd => v.(shadow := false)
  }

  /** The session a SESSION connection puts together from its opening reply and what it was told. */
  function Replayed(opening: Status, notes: seq<Note>): Status {
    if notes == [] then opening else Noted(Replayed(opening, notes[..|notes| - 1]), notes[|notes| - 1])
  }

  lemma ReplayedOneMore(opening: Status, notes: seq<Note>, note: Note)
    ensures Replayed(opening, notes + [note]) == Noted(Replayed(opening, notes), note)
  {
    assert (notes + [note])[..|notes|] == notes;
  }

  lemma {:induction false} ReplayedConcat(v: Status, a: seq<Note>, b: seq<Note>)
    ensures Replayed(v, a + b) == Replayed(Replayed(v, a), b)
  {
    if b == [] {
      assert a + b == a;
    } else {
      ReplayedConcat(v, a, b[..|b| - 1]);
      assert (a + b)[..|a + b| - 1] == a + b[..|b| - 1];
    }
  }

  /** The news of a change replays it, whatever changed. */
  lemma NewsReplays(was: Status, now: Status)
    ensures Replayed(was, News(was, now)) == now
  {
    var r := if was.remote == now.remote then [] else [if now.remote then RemoteConnect else RemoteDisconnect];
    var l := if was.locked == now.locked then [] else [if now.locked then LockNote else UnlockNote];
    var s := if was.shadow == now.shadow then [] else [if now.shadow then ShadowStart else ShadowEnd];
    ReplayedConcat(was, r + l, s);
    ReplayedConcat(was, r, l);
  }

  /** One step's effect on what watchers hold: at most one event, exactly when the mode changes, and the event
    names the new mode; and the news of the step replays it. */
  ghost predicate Told(s: Session, next: Session) {
    && next.backend == s.backend
    && (if next.mode == s.mode then next.events == s.events
        else |next.events| == |s.events| + 1 && s.events <= next.events && ModeSaid(next.events[|s.events|]) == next.mode)
    && s.notes <= next.notes
    && Replayed(s.Seen(), next.notes[|s.notes|..]) == next.Seen()
  }

  lemma ToldByNews(s: Session, next: Session)
    requires next.notes == s.notes + News(s.Seen(), next.Seen())
    ensures s.notes <= next.notes && Replayed(s.Seen(), next.notes[|s.notes|..]) == next.Seen()
  {
    NewsReplays(s.Seen(), next.Seen());
    assert next.notes[|s.notes|..] == News(s.Seen(), next.Seen());
  }

  lemma ToldTwice(s: Session, t: Session, u: Session)
    requires Told(s, t) && Told(t, u) && (t.mode == s.mode || t == u)
    ensures Told(s, u)
  {
    ReplayedConcat(s.Seen(), t.notes[|s.notes|..], u.notes[|t.notes|..]);
    assert u.notes[|s.notes|..] == t.notes[|s.notes|..] + u.notes[|t.notes|..];
  }

  lemma NothingTold(s: Session, next: Session)
    requires next.(client := s.client) == s
    ensures Told(s, next)
  {
    assert s.notes[|s.notes|..] == [];
  }

  lemma EngageTold(s: Session)
    ensures Told(s, Engage(s))
  {
    if s.mode == Locked { NothingTold(s, s); } else { ToldByNews(s, Engage(s)); }
  }

  lemma MovedTold(s: Session, next: Session)
    requires next.mode == s.mode && next.backend == s.backend && next.events == s.events
    ensures Told(s, Moved(s, next))
  {
    ToldByNews(s, Moved(s, next));
  }

  lemma GiveBackTold(s: Session)
    ensures Told(s, GiveBack(s))
  {
    if s.remote {
      var moved := Moved(s, s.(remote := false, client := false));
      MovedTold(s, s.(remote := false, client := false));
      EngageTold(moved);
      ToldTwice(s, moved, Engage(moved));
    } else {
      NothingTold(s, s);
    }
  }

  lemma EndShadowTold(s: Session)
    ensures Told(s, EndShadow(s))
  {
    if s.shadow { MovedTold(s, s.(shadow := false)); } else { NothingTold(s, s); }
  }

  lemma EnterTold(s: Session, mode: Mode, event: Event)
    requires mode != s.mode && ModeSaid(event) == mode
    ensures Told(s, Enter(s, mode, event))
  {
    ToldByNews(s, Enter(s, mode, event));
  }

  lemma RemotedTold(s: Session, fd: bool, connected: bool, output: bool)
    ensures Told(s, Remoted(s, fd, connected, output))
  {
    var next := Remoted(s, fd, connected, output);
    if next.(client := s.client) == s {
      NothingTold(s, next);
    } else {
      ToldByNews(s, next);
    }
  }

  /** Every command tells the watchers what it changed, once. */
  lemma StepTells(a: Accounts, s: Session, c: Command)
    ensures Told(s, Step(a, s, c))
  {
    hide Told, News, Replayed, Engage, GiveBack, EndShadow, Remoted;
    var next := Step(a, s, c);
    EngageTold(s);
    GiveBackTold(s);
    EndShadowTold(s);
    NothingTold(s, s);
    match c
    case UnlockCmd(uid) => if next != s { EnterTold(s, Unlocked, SaidUnlocked); }
    case SecureCmd(uid) => if next != s { EnterTold(s, Secure, SaidSecure); }
    case ReleaseCmd(uid) => if next != s { EnterTold(s, Unlocked, SaidReleased); }
    case SasCmd(uid, action) => if next != s { EnterTold(s, Unlocked, SaidUnlocked); }
    case RemoteCmd(uid, fd, connected, output) => RemotedTold(s, fd, connected, output);
    case ShadowCmd(uid, fd, connected) => if next != s { MovedTold(s, s.(shadow := true)); }
    case CtrlAltDel(injected, viewer, watched) => CtrlAltDelTold(a, s, injected, viewer, watched);
    case RemoteGone => RemoteGoneTold(s);
    case _ =>
  }

  lemma RemoteGoneTold(s: Session)
    ensures s.client ==> Told(s, GiveBack(s.(client := false)))
  {
    var t := s.(client := false);
    NothingTold(s, t);
    GiveBackTold(t);
    ToldTwice(s, t, GiveBack(t));
  }

  lemma CtrlAltDelTold(a: Accounts, s: Session, injected: bool, viewer: bool, watched: bool)
    ensures Told(s, Step(a, s, CtrlAltDel(injected, viewer, watched)))
  {
    var t := if viewer then s else EndShadow(s);
    var u := Step(a, s, CtrlAltDel(injected, viewer, watched));
    EndShadowTold(s);
    NothingTold(s, s);
    GiveBackTold(t);
    EngageTold(t);
    NothingTold(t, t);
    if t.mode == Unlocked { EnterTold(t, SecurityScreen, SaidSas); }
    ToldTwice(s, t, u);
  }

  // ----- what holds of every run

  /** What is said from one session to a later one tells a connection made at the first all about the second. */
  ghost predicate TellsAll(s: Session, next: Session) {
    && s.events <= next.events && s.notes <= next.notes
    && ModeRead(s.mode, next.events[|s.events|..]) == next.mode
    && Replayed(s.Seen(), next.notes[|s.notes|..]) == next.Seen()
  }

  lemma TellsMore(s: Session, mid: Session, next: Session)
    requires TellsAll(s, mid) && Told(mid, next)
    ensures TellsAll(s, next)
  {
    hide Replayed;
    ReplayedConcat(s.Seen(), mid.notes[|s.notes|..], next.notes[|mid.notes|..]);
    assert next.notes[|s.notes|..] == mid.notes[|s.notes|..] + next.notes[|mid.notes|..];
    assert next.mode != mid.mode ==> next.events[|s.events|..] == mid.events[|s.events|..] + [next.events[|mid.events|]];
  }

  /** A connection made in mid-run reads the same from what it is told after that. */
  lemma {:induction false} LateWatcherIsTold(a: Accounts, s: Session, cs: seq<Command>)
    ensures TellsAll(s, Run(a, s, cs))
  {
    if cs == [] {
      assert s.events[|s.events|..] == [] && s.notes[|s.notes|..] == [];
    } else {
      hide Step, TellsAll, Told;
      var init, c := cs[..|cs| - 1], cs[|cs| - 1];
      LateWatcherIsTold(a, s, init);
      StepTells(a, Run(a, s, init), c);
      TellsMore(s, Run(a, s, init), Run(a, s, cs));
    }
  }

  /** After any run a WATCH connection's events tell the mode, a SESSION connection's notes the session, and
    a remote connection means a takeover that no one views. */
  lemma {:induction false} RunIsTold(a: Accounts, backend: bool, cs: seq<Command>)
    ensures var s := Run(a, Start(backend), cs);
      && Consistent(s)
      && ModeRead(Unlocked, s.events) == s.mode
      && Replayed(Status(false, false, false), s.notes) == s.Seen()
  {
    LateWatcherIsTold(a, Start(backend), cs);
    var s := Run(a, Start(backend), cs);
    assert s.events[0..] == s.events && s.notes[0..] == s.notes;
    RunConsistent(a, Start(backend), cs);
  }

  lemma {:induction false} RunConsistent(a: Accounts, s: Session, cs: seq<Command>)
    requires Consistent(s)
    ensures Consistent(Run(a, s, cs))
  {
    if cs != [] {
      RunConsistent(a, s, cs[..|cs| - 1]);
      StepConsistent(a, Run(a, s, cs[..|cs| - 1]), cs[|cs| - 1]);
    }
  }

  lemma StepConsistent(a: Accounts, s: Session, c: Command)
    requires Consistent(s)
    ensures Consistent(Step(a, s, c))
  {
  }

  /** A command an authorised account gives. */
  predicate Authorised(a: Accounts, c: Command) {
    match c
    case UnlockCmd(uid) => a.MayUnlock(uid)
    case SecureCmd(uid) => a.MayUnlock(uid)
    case ReleaseCmd(uid) => a.MayUnlock(uid)
    case SasCmd(uid, action) => a.MayUnlock(uid)
    case RemoteCmd(uid, fd, connected, output) => a.MayUnlock(uid)
    case LocalCmd(uid) => a.MayUnlock(uid)
    case ShadowCmd(uid, fd, connected) => a.MayUnlock(uid)
    case _ => false
  }

  /** Without an authorised account no run unlocks; a prompt or the security screen can only become a real lock. */
  lemma {:induction false} OnlyAuthorityUnlocks(a: Accounts, s: Session, cs: seq<Command>)
    requires s.mode != Unlocked && forall c :: c in cs ==> !Authorised(a, c)
    ensures Run(a, s, cs).mode == s.mode || Run(a, s, cs).mode == Locked
  {
    if cs != [] {
      hide Step;
      OnlyAuthorityUnlocks(a, s, cs[..|cs| - 1]);
      assert cs[|cs| - 1] in cs;
      StepNeedsAuthority(a, Run(a, s, cs[..|cs| - 1]), cs[|cs| - 1]);
    }
  }

  lemma StepNeedsAuthority(a: Accounts, s: Session, c: Command)
    requires s.mode != Unlocked && !Authorised(a, c)
    ensures Step(a, s, c).mode == s.mode || Step(a, s, c).mode == Locked
  {
    hide News;
  }

  /** What can end a real lock: UNLOCK, or REMOTE beginning a takeover. */
  predicate EndsLock(a: Accounts, s: Session, c: Command) {
    match c
    case UnlockCmd(uid) => a.MayUnlock(uid)
    case RemoteCmd(uid, fd, connected, output) =>
      a.MayUnlock(uid) && !s.shadow && s.backend && !s.remote && output && (fd ==> !s.client && connected)
    case _ => false
  }

  lemma LockEndsOnlyBy(a: Accounts, s: Session, c: Command)
    requires s.mode == Locked
    ensures Step(a, s, c).mode != Locked <==> EndsLock(a, s, c)
    ensures EndsLock(a, s, c) ==> Step(a, s, c).mode == Unlocked && (c.RemoteCmd? ==> Step(a, s, c).remote)
  {
  }

  /** A real lock lasts through any run without one of those, whoever gives the other commands. */
  lemma {:induction false} LockLasts(a: Accounts, s: Session, cs: seq<Command>)
    requires s.mode == Locked && forall k :: 0 <= k < |cs| ==> !EndsLock(a, Run(a, s, cs[..k]), cs[k])
    ensures Run(a, s, cs).mode == Locked
  {
    if cs != [] {
      var init := cs[..|cs| - 1];
      assert forall k :: 0 <= k < |init| ==> init[..k] == cs[..k];
      LockLasts(a, s, init);
      LockEndsOnlyBy(a, Run(a, s, init), cs[|cs| - 1]);
    }
  }

  /** However a takeover ends, the console gets the session locked, and its programs hear of the move first. */
  lemma TakeoverEndsLocked(a: Accounts, s: Session, c: Command)
    requires s.remote && !Step(a, s, c).remote && Consistent(s)
    ensures Step(a, s, c).mode == Locked && !Step(a, s, c).client
    ensures Step(a, s, c).notes == s.notes + [RemoteDisconnect] + if s.mode == Locked then [] else [LockNote]
  {
    GivenBack(s);
    GivenBack(s.(client := false));
    hide News, GiveBack;
  }

  lemma GivenBack(s: Session)
    requires s.remote
    ensures !GiveBack(s).remote && !GiveBack(s).client && GiveBack(s).mode == Locked
    ensures GiveBack(s).notes == s.notes + [RemoteDisconnect] + if s.mode == Locked then [] else [LockNote]
  {
  }

  /** A takeover of a locked session unlocks it, and its programs hear of the move first. */
  lemma TakeoverUnlocks(a: Accounts, s: Session, c: Command)
    requires !s.remote && Step(a, s, c).remote
    ensures Step(a, s, c).mode == Unlocked
    ensures Step(a, s, c).notes == s.notes + [RemoteConnect] + if s.mode == Locked then [UnlockNote] else []
  {
    TakenOver(s);
    hide TakeOver, News;
  }

  lemma TakenOver(s: Session)
    ensures TakeOver(s).remote && TakeOver(s).mode == Unlocked
    ensures !s.remote ==> TakeOver(s).notes == s.notes + [RemoteConnect] + if s.mode == Locked then [UnlockNote] else []
  {
  }

  /** REMOTE is refused: there is no output to be had, or a secure prompt is up. */
  predicate RemoteRefused(s: Session, output: bool) {
    !s.backend || s.mode == Secure || (!s.remote && !output)
  }

  /** A refused REMOTE that came with a connection keeps it exactly when the session was taken over already. */
  lemma RefusedRemoteKeepsConnectionExactly(a: Accounts, s: Session, uid: int, output: bool)
    requires a.MayUnlock(uid) && Consistent(s) && !s.shadow && !s.client && RemoteRefused(s, output)
    ensures Step(a, s, RemoteCmd(uid, true, true, output)) == s.(client := s.remote)
  {
    var c := RemoteCmd(uid, true, true, output);
    assert Step(a, s, c) == Remoted(s, true, true, output);
  }

  /** And that happens: taken over without a connection, then a secure prompt, then REMOTE with one. */
  lemma RefusedConnectionKept(a: Accounts)
    ensures var before := [RemoteCmd(0, false, false, true), SecureCmd(0)];
            && !Run(a, Start(true), before).client && RemoteRefused(Run(a, Start(true), before), true)
            && Run(a, Start(true), before + [RemoteCmd(0, true, true, true)]).client
  {
    var s, c0, c1, c2 := Start(true), RemoteCmd(0, false, false, true), SecureCmd(0), RemoteCmd(0, true, true, true);
    assert [c0][..0] == [] && [c0, c1][..1] == [c0];
    assert ([c0, c1] + [c2])[..2] == [c0, c1];
    assert Run(a, s, [c0]) == Step(a, s, c0);
    assert Run(a, s, [c0, c1]) == Step(a, Run(a, s, [c0]), c1);
    assert Run(a, s, [c0, c1] + [c2]) == Step(a, Run(a, s, [c0, c1]), c2);
  }
}
