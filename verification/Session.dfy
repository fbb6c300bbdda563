/**
 The session of a runtime over whole sequences of calls, each undisturbed: connects,
 logins, errors, recoveries and closes. Module Reconnect is about calls that overlap.
 */
module Session {
  import opened Wrappers
  import opened Text
  import opened Replication

  /** How the transport answers a dial; a session it holds already may be closed and dialled once more. */
  datatype Dial = Connected | AlreadyConnected(retried: bool) | Refused

  /** What comes back from the hub on a request: nothing in time, a refusal, or an identity. */
  datatype Reply = Silence | Refusal | Granted(nodeId: nat, hubId: nat)

  /** The identity as it is kept in memory and on disk. */
  datatype Snapshot = Snapshot(auth: Auth, device: string)

  datatype Link = Link(me: Snapshot, saved: Option<Snapshot>, addr: string, connected: bool,
                       intent: bool,     // reconnectDesired
                       running: bool,    // reconnectRunning
                       cancelled: bool,  // the context of the loop that runs
                       reporting: bool, listening: bool)

  datatype Call =
    | Connect(text: string, dial: Dial)
    | Login(device: string, nodeId: nat, reply: Reply)
    | Register(device: string, reply: Reply)
    | ClearAuth
    | SessionError
    | Close
    | Recover(dial: Dial, reply: Reply)  // one attempt of the recovery loop
    | LoopEnds
    | Report(on: bool)
    | Listen(on: bool)

  const Nobody := Snapshot(Auth(false, 0, 0), "")

  function LoggedOff(s: Snapshot): Snapshot {
    Snapshot(Auth(false, s.auth.nodeId, s.auth.hubId), s.device)
  }

  /** A process starts with the identity it saved, logged out, and nothing else. */
  function Started(saved: Option<Snapshot>): Link {
    var kept := if saved.Some? then Some(LoggedOff(saved.value)) else None;
    Link(if kept.Some? then kept.value else Nobody, kept, "", false, false, false, false, false, false)
  }

  /** markSessionLoggedOut. */
  function LogOut(l: Link): Link {
    l.(me := LoggedOff(l.me), saved := Some(LoggedOff(l.me)))
  }

  /** scheduleReconnect. */
  function Schedule(l: Link): Link {
    if !l.intent || l.running then l else l.(running := true, cancelled := false)
  }

  /** onClientError. */
  function Errored(l: Link): Link {
    Schedule(LogOut(l.(connected := false)))
  }

  /** Close. */
  function Closed(l: Link): Link {
    var me := LoggedOff(l.me);
    Link(me, Some(me), "", false, false, l.running, l.cancelled || l.running, false, false)
  }

  /** The dial ends with a connection; a session the transport holds is kept only if it is known to be up. */
  predicate Reaches(l: Link, dial: Dial) {
    dial.Connected? || (dial.AlreadyConnected? && (l.connected || dial.retried))
  }

  /** connectTransport. */
  function Dialled(l: Link, text: string, dial: Dial): Link {
    if Blank(text) then l
    else if Reaches(l, dial) then l.(connected := true, addr := TrimSpace(text))
    else if dial.Refused? then l
    else l.(connected := false)
  }

  /** The state a connect dials from: closed first if it leaves another address. */
  function Begun(l: Link, target: string): Link {
    (if l.addr != "" && l.addr != target then Closed(l) else l).(addr := target)
  }

  /** Connect: another address than the one in use closes first; only a connection made raises the intent. */
  function ConnectedTo(l: Link, text: string, dial: Dial): Link {
    if Blank(text) then l
    else
      var target := TrimSpace(text);
      var begun := Begun(l, target);
      var dialled := Dialled(begun, target, dial);
      if Reaches(begun, dial) then dialled.(intent := true) else dialled
  }

  /** What a login or registration that was sent makes of the identity. */
  function Replied(l: Link, device: string, reply: Reply): Link {
    match reply
    case Granted(nodeId, hubId) =>
      var s := Snapshot(Auth(true, nodeId, hubId), TrimSpace(device));
      l.(me := s, saved := Some(s))
    case _ => l.(me := LoggedOff(l.me))
  }

  /** Login. */
  function LoginAs(l: Link, device: string, nodeId: nat, reply: Reply): Link {
    if Blank(device) || nodeId == 0 || !l.connected then l
    else
      var answered := Replied(l, device, reply);
      if reply.Granted? then answered.(intent := true) else answered
  }

  /** Register. */
  function RegisterAs(l: Link, device: string, reply: Reply): Link {
    if Blank(device) || !l.connected then l else Replied(l, device, reply)
  }

  /** ClearAuth. */
  function Cleared(l: Link): Link {
    l.(me := Nobody, saved := Some(Nobody))
  }

  /** The identity a recovery can log in with. */
  predicate Identified(s: Snapshot) {
    !Blank(s.device) && s.auth.nodeId != 0
  }

  /** recoverOnce, not cancelled on the way. */
  function Recovered(l: Link, dial: Dial, reply: Reply): Link {
    if l.cancelled || Blank(l.addr) then l
    else
      var down := l.(connected := false);
      var dialled := Dialled(down, l.addr, dial);
      if !Reaches(down, dial) || !Identified(l.me) then dialled
      else LoginAs(dialled, l.me.device, l.me.auth.nodeId, reply)
  }

  /**
   The loop attempts while it runs and the intent stands, and ends when cancelled, no longer
   wanted, or connected; reporting and listening start only logged in.
   */
  predicate Allowed(l: Link, c: Call) {
    match c
    case Recover(_, _) => l.running && l.intent
    case LoopEnds => l.running && (l.cancelled || !l.intent || l.connected)
    case Report(on) => on ==> Active(l.me.auth)
    case Listen(on) => on ==> Active(l.me.auth)
    case _ => true
  }

  function After(l: Link, c: Call): Link {
    match c
    case Connect(text, dial) => ConnectedTo(l, text, dial)
    case Login(device, nodeId, reply) => LoginAs(l, device, nodeId, reply)
    case Register(device, reply) => RegisterAs(l, device, reply)
    case ClearAuth => Cleared(l)
    case SessionError => Errored(l)
    case Close => Closed(l)
    case Recover(dial, reply) => Recovered(l, dial, reply)
    case LoopEnds => l.(running := false)
    case Report(on) => l.(reporting := on)
    case Listen(on) => l.(listening := on)
  }

  predicate Legal(l: Link, cs: seq<Call>)
    decreases |cs|, 0
  {
    cs == [] || (Legal(l, cs[..|cs| - 1]) && Allowed(Run(l, cs[..|cs| - 1]), cs[|cs| - 1]))
  }

  function Run(l: Link, cs: seq<Call>): Link
    requires Legal(l, cs)
    decreases |cs|, 1
  {
    if cs == [] then l else After(Run(l, cs[..|cs| - 1]), cs[|cs| - 1])
  }

  // ------------------------------------------------------------------ what every run keeps

  /** A connection or a login is wanted, what is wanted has an address, and the disk knows who the runtime is. */
  predicate Sound(l: Link) {
    && (l.connected || l.me.auth.loggedIn ==> l.intent)
    && (l.intent ==> !Blank(l.addr))
    && TrimSpace(l.addr) == l.addr
    && LoggedOff(if l.saved.Some? then l.saved.value else Nobody) == LoggedOff(l.me)
    && (l.me.auth.loggedIn ==> l.me.device != "" && TrimSpace(l.me.device) == l.me.device)
  }

  /** A dial changes the connection and the address only. */
  lemma {:induction false} DialIs(l: Link, text: string, dial: Dial)
    requires !Blank(text) && TrimSpace(text) == text
    ensures var t := Dialled(l, text, dial);
            && t == l.(connected := t.connected, addr := t.addr) && (t.addr == l.addr || t.addr == text)
            && (Reaches(l, dial) ==> t.connected) && (t.connected ==> Reaches(l, dial) || l.connected)
  {
    hide TrimSpace, Trimmed;
  }

  /** A recovery in its steps. */
  lemma {:induction false} RecoveredIs(l: Link, dial: Dial, reply: Reply)
    ensures var down := l.(connected := false);
            var dialled := Dialled(down, TrimSpace(l.addr), dial);
            Recovered(l, dial, reply) ==
              if l.cancelled || Blank(l.addr) then l
              else if !Reaches(down, dial) || !Identified(l.me) then dialled
              else LoginAs(dialled, l.me.device, l.me.auth.nodeId, reply)
  {
    hide TrimSpace, Trimmed, Reaches, LoginAs, Identified;
    assert TrimSpace(TrimSpace(l.addr)) == TrimSpace(l.addr);
  }

  lemma CloseForgetsAddress(l: Link, text: string)
    ensures Closed(l.(addr := text)) == Closed(l)
  {
  }

  lemma {:induction false} SoundStays(l: Link, addr: string, connected: bool, intent: bool)
    requires Sound(l) && (connected || l.intent ==> intent) && !Blank(addr) && TrimSpace(addr) == addr
    ensures Sound(l.(addr := addr, connected := connected, intent := intent))
  {
    hide TrimSpace, Trimmed;
  }

  lemma UnwantedIsDown(l: Link)
    requires Sound(l)
    ensures l.connected ==> l.intent
  {
    hide TrimSpace, Trimmed;
  }

  lemma {:induction false} ConnectedIs(l: Link, text: string, dial: Dial)
    requires !Blank(text)
    ensures var begun := Begun(l, TrimSpace(text));
            ConnectedTo(l, text, dial)
            == begun.(connected := Reaches(begun, dial) || (begun.connected && dial.Refused?),
                      intent := begun.intent || Reaches(begun, dial))
  {
    hide TrimSpace, Trimmed, Closed;
    assert TrimSpace(TrimSpace(text)) == TrimSpace(text);
  }

  lemma BlankConnectsNothing(l: Link, text: string, dial: Dial)
    requires Blank(text)
    ensures ConnectedTo(l, text, dial) == l
  {
    hide TrimSpace;
  }

  lemma {:induction false} ConnectKeepsSound(l: Link, text: string, dial: Dial)
    requires Sound(l)
    ensures Sound(ConnectedTo(l, text, dial))
  {
    hide TrimSpace, Trimmed, Dialled, Closed, Reaches, Sound, ConnectedTo;
    var target := TrimSpace(text);
    if !Blank(text) {
      CloseKeepsSound(l);
      var left := if l.addr != "" && l.addr != target then Closed(l) else l;
      UnwantedIsDown(left);
      ConnectedIs(l, text, dial);
      var t := ConnectedTo(l, text, dial);
      assert TrimSpace(target) == target && t == left.(addr := target, connected := t.connected, intent := t.intent);
      SoundStays(left, target, t.connected, t.intent);
    } else {
      BlankConnectsNothing(l, text, dial);
    }
  }

  lemma {:induction false} CloseKeepsSound(l: Link)
    requires Sound(l)
    ensures Sound(Closed(l))
  {
    hide TrimSpace, Trimmed;
    EmptyIsBlank();
  }

  lemma {:induction false} ReplyKeepsSound(l: Link, device: string, reply: Reply)
    requires Sound(l) && l.intent && !Blank(device)
    ensures Sound(Replied(l, device, reply)) && Replied(l, device, reply).intent
  {
    hide TrimSpace, Trimmed;
    assert TrimSpace(TrimSpace(device)) == TrimSpace(device);
  }

  lemma {:induction false} LoginKeepsSound(l: Link, device: string, nodeId: nat, reply: Reply)
    requires Sound(l)
    ensures Sound(LoginAs(l, device, nodeId, reply)) && Sound(RegisterAs(l, device, reply))
  {
    hide TrimSpace, Trimmed, Replied, Sound;
    if !Blank(device) && l.connected {
      UnwantedIsDown(l);
      ReplyKeepsSound(l, device, reply);
      var t := Replied(l, device, reply);
      assert t == t.(intent := true);
    }
  }

  lemma {:induction false} RecoverKeepsSound(l: Link, dial: Dial, reply: Reply)
    requires Sound(l) && l.intent
    ensures Sound(Recovered(l, dial, reply))
  {
    hide TrimSpace, Trimmed, Dialled, LoginAs, Reaches, Identified;
    var down := l.(connected := false);
    assert Sound(down);
    DialIs(down, l.addr, dial);
    assert Sound(Dialled(down, l.addr, dial));
    LoginKeepsSound(Dialled(down, l.addr, dial), l.me.device, l.me.auth.nodeId, reply);
  }

  lemma {:induction false} ErrorKeepsSound(l: Link)
    requires Sound(l)
    ensures Sound(Errored(l)) && Sound(Cleared(l))
  {
    hide TrimSpace, Trimmed;
  }

  lemma {:induction false} CallKeepsSound(l: Link, c: Call)
    requires Sound(l) && Allowed(l, c)
    ensures Sound(After(l, c))
  {
    hide TrimSpace, Trimmed, Active, ConnectedTo, Recovered, LoginAs, RegisterAs, Errored, Cleared, Closed;
    match c
    case Connect(text, dial) => ConnectKeepsSound(l, text, dial);
    case Login(device, nodeId, reply) => LoginKeepsSound(l, device, nodeId, reply);
    case Register(device, reply) => LoginKeepsSound(l, device, 0, reply);
    case Recover(dial, reply) => RecoverKeepsSound(l, dial, reply);
    case Close => CloseKeepsSound(l);
    case SessionError => ErrorKeepsSound(l);
    case ClearAuth => ErrorKeepsSound(l);
    case _ =>
  }

  /**
   In every run of a process, whatever the hub and the transport answer, a connection
   or a login is one the user wants, and whatever is wanted has an address to dial.
   */
  lemma {:induction false} RunsAreSound(saved: Option<Snapshot>, cs: seq<Call>)
    requires Legal(Started(saved), cs)
    ensures Sound(Run(Started(saved), cs))
  {
    hide After, Allowed;
    if cs == [] {
      assert TrimSpace("") == "";
    } else {
      RunsAreSound(saved, cs[..|cs| - 1]);
      CallKeepsSound(Run(Started(saved), cs[..|cs| - 1]), cs[|cs| - 1]);
    }
  }

  /** A process started on what any run has saved takes up the identity of that run, logged out. */
  lemma {:induction false} RestartTakesUp(saved: Option<Snapshot>, cs: seq<Call>)
    requires Legal(Started(saved), cs)
    ensures var l := Run(Started(saved), cs); Started(l.saved).me == LoggedOff(l.me)
  {
    hide Run, TrimSpace;
    RunsAreSound(saved, cs);
  }

  // ---------------------------------------------------------------- logged in and connected

  /** The recovery that breaks a login: it takes the session down, and its dial fails. */
  predicate Breaks(l: Link, c: Call) {
    c.Recover? && l.me.auth.loggedIn && !l.cancelled && !Reaches(l.(connected := false), c.dial)
  }

  predicate Paired(l: Link) {
    l.me.auth.loggedIn ==> l.connected
  }

  lemma {:induction false} ConnectStaysPaired(l: Link, text: string, dial: Dial)
    requires Paired(l)
    ensures Paired(ConnectedTo(l, text, dial))
  {
    hide TrimSpace, Trimmed;
  }

  lemma {:induction false} RecoverBreaksExactly(l: Link, dial: Dial, reply: Reply)
    requires Paired(l) && l.intent && Sound(l)
    ensures Paired(Recovered(l, dial, reply)) <==> !Breaks(l, Recover(dial, reply))
  {
    hide TrimSpace, Trimmed;
  }

  /** One call takes the connection away under a login exactly if it is such a recovery. */
  lemma {:induction false} CallBreaksExactly(l: Link, c: Call)
    requires Sound(l) && Allowed(l, c) && Paired(l)
    ensures Paired(After(l, c)) <==> !Breaks(l, c)
  {
    hide TrimSpace, Trimmed, Active, ConnectedTo, Recovered, Sound;
    match c
    case Connect(text, dial) => ConnectStaysPaired(l, text, dial);
    case Recover(dial, reply) => RecoverBreaksExactly(l, dial, reply);
    case _ =>
  }

  predicate Breakless(l: Link, cs: seq<Call>)
    requires Legal(l, cs)
  {
    cs == []
    || (Breakless(l, cs[..|cs| - 1]) && !Breaks(Run(l, cs[..|cs| - 1]), cs[|cs| - 1]))
  }

  /** So a runtime that is logged in is connected, in every run without one. */
  lemma {:induction false} LoginNeedsConnection(saved: Option<Snapshot>, cs: seq<Call>)
    requires Legal(Started(saved), cs) && Breakless(Started(saved), cs)
    ensures Paired(Run(Started(saved), cs))
  {
    hide After, Allowed, Breaks, Sound;
    if cs != [] {
      var before := Run(Started(saved), cs[..|cs| - 1]);
      LoginNeedsConnection(saved, cs[..|cs| - 1]);
      RunsAreSound(saved, cs[..|cs| - 1]);
      CallBreaksExactly(before, cs[|cs| - 1]);
    }
  }

  // ------------------------------------------------------------------- recovery

  /**
   A recovery undoes a session error. From any state of a run with the login up and no
   loop yet, an error and then an attempt that reaches the hub, which grants the same
   identity, give the state back in every respect, if and only if the node has a number.
   */
  lemma {:induction false} RecoveryUndoesError(saved: Option<Snapshot>, cs: seq<Call>, dial: Dial)
    requires Legal(Started(saved), cs)
    ensures var l := Run(Started(saved), cs);
            l.me.auth.loggedIn && l.connected && !l.running && Reaches(l.(connected := false), dial) ==>
              var reply := Granted(l.me.auth.nodeId, l.me.auth.hubId);
              && Errored(l) == LogOut(l).(connected := false, running := true, cancelled := false)
              && (Recovered(Errored(l), dial, reply) == l.(saved := Some(l.me), running := true, cancelled := false)
                  <==> l.me.auth.nodeId != 0)
  {
    hide Run, TrimSpace, Trimmed, Recovered, Errored, Sound;
    RunsAreSound(saved, cs);
    var l := Run(Started(saved), cs);
    if l.me.auth.loggedIn && l.connected && !l.running && Reaches(l.(connected := false), dial) {
      ErrorIs(l);
      RecoveryIs(l, Errored(l), dial);
    }
  }

  lemma {:induction false} ErrorIs(l: Link)
    requires Sound(l) && l.connected && !l.running
    ensures Errored(l) == LogOut(l).(connected := false, running := true, cancelled := false)
  {
    hide TrimSpace, Trimmed;
  }

  lemma {:induction false} RecoveryIs(l: Link, error: Link, dial: Dial)
    requires Sound(l) && l.me.auth.loggedIn && l.connected && Reaches(l.(connected := false), dial)
    requires error == LogOut(l).(connected := false, running := true, cancelled := false)
    ensures var reply := Granted(l.me.auth.nodeId, l.me.auth.hubId);
            Recovered(error, dial, reply) == l.(saved := Some(l.me), running := true, cancelled := false)
            <==> l.me.auth.nodeId != 0
  {
    hide TrimSpace, Trimmed;
    assert Dialled(error, error.addr, dial) == error.(connected := true);
  }

  // ------------------------------------------------------------------- stranding

  /** Wanted, not connected, and no loop that still attempts. */
  predicate Stranded(l: Link) {
    l.intent && !l.connected && !(l.running && !l.cancelled)
  }

  /** A loop whose context was cancelled by a Close has not ended, and a connect has been made since. */
  predicate Outlived(l: Link) {
    l.intent && l.running && l.cancelled
  }

  lemma {:induction false} ConnectStrandsNothing(l: Link, text: string, dial: Dial)
    requires !Stranded(l)
    ensures !Stranded(ConnectedTo(l, text, dial))
  {
    hide TrimSpace, Trimmed;
  }

  lemma {:induction false} RecoverStrandsNothing(l: Link, dial: Dial, reply: Reply)
    requires !Stranded(l) && l.running
    ensures !Stranded(Recovered(l, dial, reply))
  {
    hide TrimSpace, Trimmed;
  }

  /** One call strands the runtime exactly if it is an error that finds such a loop, whose flag keeps a new one away. */
  lemma {:induction false} CallStrandsExactly(l: Link, c: Call)
    requires Sound(l) && Allowed(l, c) && !Stranded(l)
    ensures Stranded(After(l, c)) <==> c.SessionError? && Outlived(l)
  {
    hide TrimSpace, Trimmed, Active, ConnectedTo, Recovered;
    match c
    case Connect(text, dial) => ConnectStrandsNothing(l, text, dial);
    case Recover(dial, reply) => RecoverStrandsNothing(l, dial, reply);
    case _ =>
  }

  predicate NoneOutlived(l: Link, cs: seq<Call>)
    requires Legal(l, cs)
  {
    cs == []
    || (NoneOutlived(l, cs[..|cs| - 1])
        && !(cs[|cs| - 1].SessionError? && Outlived(Run(l, cs[..|cs| - 1]))))
  }

  /** So in every run without one, a connection that is wanted and down has a loop working for it. */
  lemma {:induction false} WantedIsWorkedFor(saved: Option<Snapshot>, cs: seq<Call>)
    requires Legal(Started(saved), cs) && NoneOutlived(Started(saved), cs)
    ensures !Stranded(Run(Started(saved), cs))
  {
    hide After, Allowed, Sound, Outlived;
    if cs != [] {
      var before := Run(Started(saved), cs[..|cs| - 1]);
      WantedIsWorkedFor(saved, cs[..|cs| - 1]);
      RunsAreSound(saved, cs[..|cs| - 1]);
      CallStrandsExactly(before, cs[|cs| - 1]);
    }
  }

  // ---------------------------------------------------------------- both do happen

  lemma Next(l: Link, cs: seq<Call>, c: Call) returns (longer: seq<Call>)
    requires Legal(l, cs) && Allowed(Run(l, cs), c)
    ensures longer == cs + [c] && Legal(l, longer) && Run(l, longer) == After(Run(l, cs), c)
  {
    hide After, Allowed;
    longer := cs + [c];
    assert longer[..|longer| - 1] == cs;
  }

  lemma NoCalls(l: Link)
    ensures Legal(l, []) && Run(l, []) == l
  {
  }

  /** A new address, where none is in use. */
  lemma {:induction false} FreshConnect(l: Link, text: string)
    requires !Blank(text) && (l.addr == "" || l.addr == TrimSpace(text))
    ensures ConnectedTo(l, text, Connected) == l.(addr := TrimSpace(text), connected := true, intent := true)
  {
    hide TrimSpace, Trimmed, Dialled, Closed, ConnectedTo;
    ConnectedIs(l, text, Connected);
  }

  /** A first connect and a session error: down, and a loop at work. */
  lemma {:induction false} DownAfterError(saved: Option<Snapshot>, text: string) returns (cs: seq<Call>)
    requires !Blank(text)
    ensures Legal(Started(saved), cs)
    ensures Run(Started(saved), cs)
            == LogOut(Started(saved)).(addr := TrimSpace(text), intent := true, running := true)
  {
    hide TrimSpace, Trimmed, Legal, Run, ConnectedTo, Active;
    var l := Started(saved);
    NoCalls(l);
    cs := Next(l, [], Connect(text, Connected));
    FreshConnect(l, text);
    cs := Next(l, cs, SessionError);
  }

  /**
   A close and a new connect before the old loop has ended, then an error: the loop ends
   cancelled, and nothing is left that would bring the wanted connection back.
   */
  lemma {:induction false} ReconnectCanStrand(saved: Option<Snapshot>, text: string) returns (cs: seq<Call>)
    requires !Blank(text)
    ensures Legal(Started(saved), cs)
    ensures var l := Run(Started(saved), cs); l.intent && !l.connected && !l.running
  {
    hide TrimSpace, Trimmed, Legal, Run, ConnectedTo, Active;
    var l := Started(saved);
    cs := DownAfterError(saved, text);
    cs := Next(l, cs, Close);
    FreshConnect(Run(l, cs), text);
    cs := Next(l, cs, Connect(text, Connected));
    cs := Next(l, cs, SessionError);
    cs := Next(l, cs, LoopEnds);
  }

  /**
   A connect and a login by hand while the loop waits, and then its next attempt: it takes
   the session down that is up, and where its dial fails a login is left without one.
   */
  lemma {:induction false} RecoveryCanBreak(saved: Option<Snapshot>, text: string, device: string, nodeId: nat)
    returns (cs: seq<Call>)
    requires !Blank(text) && !Blank(device) && nodeId != 0
    ensures Legal(Started(saved), cs)
    ensures var l := Run(Started(saved), cs); l.me.auth.loggedIn && !l.connected
  {
    hide TrimSpace, Trimmed, Legal, Run, ConnectedTo, Active;
    var l := Started(saved);
    cs := DownAfterError(saved, text);
    FreshConnect(Run(l, cs), text);
    cs := Next(l, cs, Connect(text, Connected));
    cs := Next(l, cs, Login(device, nodeId, Granted(nodeId, 1)));
    cs := Next(l, cs, Recover(Refused, Silence));
  }
}
