/**
 The session of a runtime as threads see it: the user's Close, any number of
 session-error callbacks, and the recovery loops they start. Each thread moves
 one mutex section or one atomic load or store at a time; the only larger step is
 the first of Close, which drops the reconnect intent and cancels the loop.
 */
module Reconnect {

  /** Where Close is; the step it names comes next. */
  datatype ClosePc = Idle | StopReporting | StopListening | LogOut | CloseSession | DropConnection | ForgetAddr | Closed

  /** Where one recovery loop is; the step it names comes next. */
  datatype LoopPc =
    | Guard | CheckCtx                                          // head of the loop
    | AttemptCtx | ReadAddr | CloseOld | DropOld                // one attempt begins
    | Dial | MarkConnected | MarkAddr | CheckAfterDial          // the transport
    | AbortClose | AbortDrop                                    // cancelled after dialling
    | Identity | LoginCheck | LoginAwait | LoginFailed          // the login
    | SetAuth | SetIntent | Subscribe | CheckAfterLogin
    | CancelIntent | CancelLogin | CancelClose | CancelDrop     // cancelled after the login
    | TestConnected | Wait                                      // the attempt is over
    | Exit | Ended

  datatype Loop = Loop(pc: LoopPc, cancelled: bool)

  datatype ErrorPc = MarkDown | MarkLoggedOut | ReadIntent | Schedule | Finished

  /** What the runtime shows of itself. */
  datatype Flags = Flags(
    intent: bool,      // reconnectDesired
    connected: bool,
    session: bool,     // the transport session is open
    loggedIn: bool,
    reporting: bool,
    listening: bool,   // notifyRunning
    addr: bool,        // an address is recorded
    identity: bool     // a device id and a node id are recorded
  )

  datatype State = State(
    flags: Flags,
    running: bool,     // reconnectRunning; a cancel function is recorded exactly while it is set
    closing: ClosePc,
    loops: seq<Loop>,
    errors: seq<ErrorPc>,
    missed: bool       // history: an error was left to a loop that had already judged itself done
  )

  /** `ok` is the outcome of a dial or a login, or which side of a wait comes first. */
  datatype Move = CloseMove | LoopMove(i: nat, ok: bool) | SessionError | ErrorMove(i: nat)

  predicate Live(s: State, i: nat) {
    i < |s.loops| && s.loops[i].pc != Ended
  }

  /** What the step of Close named by `pc` does to the flags. */
  function CloseDoes(f: Flags, pc: ClosePc): Flags {
    match pc
    case Idle => f.(intent := false)
    case StopReporting => f.(reporting := false)
    case StopListening => f.(listening := false)
    case LogOut => f.(loggedIn := false)
    case CloseSession => f.(session := false)
    case DropConnection => f.(connected := false)
    case ForgetAddr => f.(addr := false)
    case Closed => f
  }

  function CloseGoes(pc: ClosePc): ClosePc {
    match pc
    case Idle => StopReporting
    case StopReporting => StopListening
    case StopListening => LogOut
    case LogOut => CloseSession
    case CloseSession => DropConnection
    case DropConnection => ForgetAddr
    case ForgetAddr => Closed
    case Closed => Closed
  }

  /** What the step of a loop named by `pc` does to the flags. */
  function LoopDoes(f: Flags, pc: LoopPc, ok: bool): Flags {
    match pc
    case CloseOld | AbortClose | CancelClose => f.(session := false)
    case DropOld | AbortDrop | CancelDrop => f.(connected := false)
    case Dial => if ok then f.(session := true) else f
    case MarkConnected => f.(connected := true)
    case MarkAddr => f.(addr := true)
    case LoginFailed | CancelLogin => f.(loggedIn := false)
    case SetAuth => f.(loggedIn := true)
    case SetIntent => f.(intent := true)
    case CancelIntent => f.(intent := false)
    case _ => f
  }

  /** Where that step leads. `atomicExit` joins the test of success to the loop's end. */
  function LoopGoes(f: Flags, l: Loop, ok: bool, atomicExit: bool): LoopPc {
    match l.pc
    case Guard => if f.intent then CheckCtx else Exit
    case CheckCtx => if l.cancelled then Exit else AttemptCtx
    case AttemptCtx => if l.cancelled then Wait else ReadAddr
    case ReadAddr => if f.addr then CloseOld else Wait
    case CloseOld => DropOld
    case DropOld => Dial
    case Dial => if ok then MarkConnected else Wait
    case MarkConnected => MarkAddr
    case MarkAddr => CheckAfterDial
    case CheckAfterDial => if l.cancelled then AbortClose else Identity
    case AbortClose => AbortDrop
    case AbortDrop => Wait
    case Identity =>
      if f.identity then LoginCheck else if f.reporting || f.listening then Wait else TestConnected
    case LoginCheck => if f.connected then LoginAwait else Wait
    case LoginAwait => if f.session && ok then SetAuth else LoginFailed
    case LoginFailed => Wait
    case SetAuth => SetIntent
    case SetIntent => Subscribe
    case Subscribe => CheckAfterLogin
    case CheckAfterLogin => if l.cancelled then CancelIntent else TestConnected
    case CancelIntent => CancelLogin
    case CancelLogin => CancelClose
    case CancelClose => CancelDrop
    case CancelDrop => Wait
    case TestConnected => if !f.connected then Wait else if atomicExit then Ended else Exit
    case Wait => if ok then Guard else if l.cancelled then Exit else Wait
    case Exit => Ended
    case Ended => Ended
  }

  function ErrorDoes(f: Flags, pc: ErrorPc): Flags {
    match pc
    case MarkDown => f.(connected := false)
    case MarkLoggedOut => f.(loggedIn := false)
    case _ => f
  }

  function ErrorGoes(f: Flags, pc: ErrorPc): ErrorPc {
    match pc
    case MarkDown => MarkLoggedOut
    case MarkLoggedOut => ReadIntent
    case ReadIntent => if f.intent then Schedule else Finished
    case Schedule => Finished
    case Finished => Finished
  }

  /** The newest loop, or an ended one when none was ever started. */
  function Newest(s: State): Loop {
    if |s.loops| == 0 then Loop(Ended, false) else s.loops[|s.loops| - 1]
  }

  /** The section of scheduleReconnect under its lock: start a loop unless one runs. */
  function ScheduleSection(s: State): State {
    if s.running then s.(missed := s.missed || (Newest(s).pc == Exit && !s.flags.connected))
    else s.(running := true, loops := s.loops + [Loop(Guard, false)], missed := false)
  }

  /** The cancel function, if one is recorded, is that of the newest loop. */
  function Cancelled(s: State): seq<Loop> {
    if s.running && |s.loops| > 0
    then s.loops[|s.loops| - 1 := s.loops[|s.loops| - 1].(cancelled := true)] else s.loops
  }

  function Next(s: State, move: Move, atomicExit: bool): State {
    match move
    case CloseMove =>
      s.(flags := CloseDoes(s.flags, s.closing), closing := CloseGoes(s.closing),
         loops := if s.closing == Idle then Cancelled(s) else s.loops)
    case LoopMove(i, ok) =>
      if !Live(s, i) then s
      else
        var pc := LoopGoes(s.flags, s.loops[i], ok, atomicExit);
        s.(flags := LoopDoes(s.flags, s.loops[i].pc, ok), running := s.running && pc != Ended,
           loops := s.loops[i := s.loops[i].(pc := pc)])
    case SessionError => s.(flags := s.flags.(session := false), errors := s.errors + [MarkDown])
    case ErrorMove(i) =>
      if i >= |s.errors| then s
      else
        var t := if s.errors[i] == Schedule then ScheduleSection(s) else s;
        t.(flags := ErrorDoes(s.flags, s.errors[i]), errors := s.errors[i := ErrorGoes(s.flags, s.errors[i])])
  }

  function Reached(s: State, moves: seq<Move>, atomicExit: bool): State {
    if moves == [] then s else Next(Reached(s, moves[..|moves| - 1], atomicExit), moves[|moves| - 1], atomicExit)
  }

  // ------------------------------------------------------------------ one loop

  /** Only the newest loop can be live, and it is exactly when the flag is set. */
  predicate Single(s: State) {
    && (forall i :: 0 <= i < |s.loops| - 1 ==> s.loops[i].pc == Ended)
    && (s.running <==> Newest(s).pc != Ended)
  }

  lemma SingleIsKept(s: State, move: Move, atomicExit: bool)
    requires Single(s)
    ensures Single(Next(s, move, atomicExit))
  {
  }

  lemma {:induction false} SingleHolds(s: State, moves: seq<Move>, atomicExit: bool)
    requires Single(s)
    ensures Single(Reached(s, moves, atomicExit))
  {
    if moves != [] {
      SingleHolds(s, moves[..|moves| - 1], atomicExit);
      SingleIsKept(Reached(s, moves[..|moves| - 1], atomicExit), moves[|moves| - 1], atomicExit);
    }
  }

  /** However many errors arrive at once, at most one loop is live, exactly while the flag is set. */
  lemma AtMostOneLoop(s: State, moves: seq<Move>, atomicExit: bool)
    requires Single(s)
    ensures var t := Reached(s, moves, atomicExit);
            && (forall i, j :: Live(t, i) && Live(t, j) ==> i == j)
            && (t.running <==> exists i :: Live(t, i))
  {
    hide Reached;
    SingleHolds(s, moves, atomicExit);
    var t := Reached(s, moves, atomicExit);
    if t.running {
      assert Live(t, |t.loops| - 1);
    }
  }

  // ---------------------------------------------------------------- Close wins

  function CloseRank(pc: ClosePc): nat {
    match pc
    case Idle => 0 case StopReporting => 1 case StopListening => 2 case LogOut => 3
    case CloseSession => 4 case DropConnection => 5 case ForgetAddr => 6 case Closed => 7
  }

  predicate HoldsIntent(pc: LoopPc) { pc.Subscribe? || pc.CheckAfterLogin? || pc.CancelIntent? }

  predicate HoldsLogin(pc: LoopPc) { pc.SetIntent? || HoldsIntent(pc) || pc.CancelLogin? }

  predicate HoldsSession(pc: LoopPc) { pc.MarkConnected? || pc.MarkAddr? || pc.CheckAfterDial? || pc.AbortClose? }

  predicate HoldsConnection(pc: LoopPc) { pc.MarkAddr? || pc.CheckAfterDial? || pc.AbortClose? || pc.AbortDrop? }

  /**
   Once Close has started, whatever it has taken down can be up again only in the
   hands of a cancelled loop that has yet to pass its next context check or is
   undoing its own work.
   */
  predicate Overtaken(f: Flags, closing: ClosePc, l: Loop) {
    var done := CloseRank(closing);
    && (done > 0 ==> l.cancelled || l.pc.Guard? || l.pc.Exit? || l.pc.Ended?)
    && (done > 0 && f.intent ==> HoldsIntent(l.pc))
    && (done > 1 ==> !f.reporting)
    && (done > 2 ==> !f.listening)
    && (done > 3 && f.loggedIn ==> HoldsLogin(l.pc))
    && (done > 4 && f.session ==> HoldsSession(l.pc))
    && (done > 5 && f.connected ==> HoldsConnection(l.pc))
  }

  predicate CloseInv(s: State) {
    Single(s) && Overtaken(s.flags, s.closing, Newest(s))
  }

  lemma LoopStaysOvertaken(f: Flags, closing: ClosePc, l: Loop, ok: bool, atomicExit: bool)
    requires Overtaken(f, closing, l) && l.pc != Ended
    ensures Overtaken(LoopDoes(f, l.pc, ok), closing, l.(pc := LoopGoes(f, l, ok, atomicExit)))
  {
  }

  lemma LoopKeepsCloseInv(s: State, i: nat, ok: bool, atomicExit: bool)
    requires CloseInv(s)
    ensures CloseInv(Next(s, LoopMove(i, ok), atomicExit))
  {
    SingleIsKept(s, LoopMove(i, ok), atomicExit);
    if Live(s, i) {
      LoopStaysOvertaken(s.flags, s.closing, Newest(s), ok, atomicExit);
    }
  }

  lemma CloseKeepsCloseInv(s: State, atomicExit: bool)
    requires CloseInv(s)
    ensures CloseInv(Next(s, CloseMove, atomicExit))
  {
    hide LoopDoes, LoopGoes, ErrorDoes, ErrorGoes;
    SingleIsKept(s, CloseMove, atomicExit);
    assert Newest(Next(s, CloseMove, atomicExit)).pc == Newest(s).pc;
  }

  lemma ErrorStaysOvertaken(f: Flags, closing: ClosePc, l: Loop, pc: ErrorPc)
    requires Overtaken(f, closing, l)
    ensures Overtaken(ErrorDoes(f, pc), closing, l)
    ensures l.pc == Ended ==> Overtaken(f, closing, Loop(Guard, false))
  {
  }

  lemma ErrorKeepsCloseInv(s: State, i: nat, atomicExit: bool)
    requires CloseInv(s)
    ensures CloseInv(Next(s, ErrorMove(i), atomicExit))
  {
    hide Overtaken, LoopDoes, LoopGoes, CloseDoes, CloseGoes;
    SingleIsKept(s, ErrorMove(i), atomicExit);
    if i < |s.errors| {
      ErrorStaysOvertaken(s.flags, s.closing, Newest(s), s.errors[i]);
    }
  }

  lemma CloseInvIsKept(s: State, move: Move, atomicExit: bool)
    requires CloseInv(s)
    ensures CloseInv(Next(s, move, atomicExit))
  {
    hide CloseInv;
    match move
    case LoopMove(i, ok) => LoopKeepsCloseInv(s, i, ok, atomicExit);
    case CloseMove => CloseKeepsCloseInv(s, atomicExit);
    case SessionError => EndedSessionKeepsCloseInv(s, atomicExit);
    case ErrorMove(i) => ErrorKeepsCloseInv(s, i, atomicExit);
  }

  lemma EndedSessionKeepsCloseInv(s: State, atomicExit: bool)
    requires CloseInv(s)
    ensures CloseInv(Next(s, SessionError, atomicExit))
  {
    hide LoopDoes, LoopGoes, CloseDoes, CloseGoes;
    SingleIsKept(s, SessionError, atomicExit);
  }

  lemma {:induction false} CloseInvHolds(s: State, moves: seq<Move>, atomicExit: bool)
    requires Single(s) && s.closing == Idle
    ensures CloseInv(Reached(s, moves, atomicExit))
  {
    if moves != [] {
      CloseInvHolds(s, moves[..|moves| - 1], atomicExit);
      CloseInvIsKept(Reached(s, moves[..|moves| - 1], atomicExit), moves[|moves| - 1], atomicExit);
    }
  }

  predicate AtRest(f: Flags) {
    !f.intent && !f.connected && !f.session && !f.loggedIn && !f.reporting && !f.listening
  }

  /**
   An explicit Close wins: however it interleaves with a recovery in flight and
   with session errors, once Close is through and no loop is live nothing is up.
   */
  lemma CloseWins(s: State, moves: seq<Move>, atomicExit: bool)
    requires Single(s) && s.closing == Idle
    ensures var t := Reached(s, moves, atomicExit);
            t.closing == Closed && !t.running ==> AtRest(t.flags)
  {
    CloseInvHolds(s, moves, atomicExit);
  }

  /** Steps a loop still takes once Close has started. */
  function Remaining(pc: LoopPc): nat {
    match pc
    case Ended => 0 case Exit => 1 case Guard => 2 case CheckCtx => 2 case Wait => 3
    case TestConnected => 4 case AttemptCtx => 4
    case CancelDrop => 4 case CancelClose => 5 case CancelLogin => 6 case CancelIntent => 7
    case CheckAfterLogin => 8 case Subscribe => 9 case SetIntent => 10 case SetAuth => 11
    case LoginFailed => 4 case LoginAwait => 12 case LoginCheck => 13 case Identity => 14
    case AbortDrop => 4 case AbortClose => 5 case CheckAfterDial => 15 case MarkAddr => 16
    case MarkConnected => 17 case Dial => 18 case DropOld => 19 case CloseOld => 20 case ReadAddr => 21
  }

  /** A recovery overtaken by Close does finish: each of its steps brings it nearer its end. */
  lemma OvertakenLoopEnds(s: State, i: nat, ok: bool, atomicExit: bool)
    requires CloseInv(s) && s.closing != Idle && Live(s, i)
    ensures Remaining(Next(s, LoopMove(i, ok), atomicExit).loops[i].pc) < Remaining(s.loops[i].pc) <= 21
  {
    hide Remaining, LoopGoes, LoopDoes, Overtaken;
    assert i == |s.loops| - 1;
    OvertakenStepLowers(s.flags, s.closing, s.loops[i], ok, atomicExit);
  }

  lemma OvertakenStepLowers(f: Flags, closing: ClosePc, l: Loop, ok: bool, atomicExit: bool)
    requires Overtaken(f, closing, l) && CloseRank(closing) > 0 && l.pc != Ended
    ensures Remaining(LoopGoes(f, l, ok, atomicExit)) < Remaining(l.pc) <= 21
  {
  }

  // ------------------------------------------------------------------ liveness

  predicate Handling(pc: ErrorPc) {
    pc == MarkLoggedOut || pc == ReadIntent || pc == Schedule
  }

  /** An error callback that has marked the runtime down has yet to schedule a recovery. */
  predicate ErrorInFlight(s: State) {
    exists i :: 0 <= i < |s.errors| && Handling(s.errors[i])
  }

  /** Nobody is left to bring the session back although the user wants it. */
  predicate Stranded(s: State) {
    s.flags.intent && !s.flags.connected && !s.running && !ErrorInFlight(s)
  }

  predicate Undoing(pc: LoopPc) { pc.CancelIntent? || pc.CancelLogin? || pc.CancelClose? || pc.CancelDrop? }

  /** What a loop keeps when nobody closes the runtime. */
  predicate Wanted(f: Flags, l: Loop) {
    f.intent && !l.cancelled && !Undoing(l.pc)
  }

  predicate LiveInv(s: State) {
    && Single(s) && s.closing == Idle && Wanted(s.flags, Newest(s))
    && (!s.flags.connected ==> Restoring(Newest(s).pc) || ErrorInFlight(s) || s.missed)
    && (s.missed ==> !s.flags.connected && !Restoring(Newest(s).pc))
  }

  predicate Restoring(pc: LoopPc) { pc != Exit && pc != Ended }

  /** A runtime under reconnect intent, before any recovery. */
  predicate Healthy(s: State) {
    s.flags.intent && s.flags.connected && !s.running && s.loops == [] && s.closing == Idle && !s.missed
  }

  predicate NoClose(moves: seq<Move>) {
    forall i :: 0 <= i < |moves| ==> moves[i] != CloseMove
  }

  lemma LoopStaysWanted(f: Flags, l: Loop, ok: bool, atomicExit: bool)
    requires Wanted(f, l) && l.pc != Ended
    ensures var g, pc := LoopDoes(f, l.pc, ok), LoopGoes(f, l, ok, atomicExit);
            && Wanted(g, l.(pc := pc))
            && (Restoring(l.pc) ==> Restoring(pc) || g.connected)
            && (!Restoring(l.pc) ==> !Restoring(pc) && g.connected == f.connected)
            && (atomicExit && Restoring(l.pc) ==> pc != Exit)
  {
  }

  lemma InFlightAfter(s: State, t: State, i: nat)
    requires ErrorInFlight(s) && |t.errors| >= |s.errors|
    requires forall j :: 0 <= j < |s.errors| && j != i ==> t.errors[j] == s.errors[j]
    requires i < |s.errors| && Handling(s.errors[i]) ==> Handling(t.errors[i])
    ensures ErrorInFlight(t)
  {
    var j :| 0 <= j < |s.errors| && Handling(s.errors[j]);
    assert Handling(t.errors[j]);
  }

  lemma ErrorKeepsLiveInv(s: State, i: nat)
    requires LiveInv(s) && i < |s.errors|
    ensures LiveInv(Next(s, ErrorMove(i), false))
  {
    SingleIsKept(s, ErrorMove(i), false);
    var t := Next(s, ErrorMove(i), false);
    assert t.errors[i] == ErrorGoes(s.flags, s.errors[i]);
    if Handling(t.errors[i]) {
      assert ErrorInFlight(t);
    } else if s.errors[i] == Finished {
      assert t.errors == s.errors;
    } else {
      assert s.errors[i] == Schedule;
    }
  }

  lemma LoopKeepsLiveInv(s: State, i: nat, ok: bool, atomicExit: bool)
    requires LiveInv(s) && Live(s, i)
    ensures LiveInv(Next(s, LoopMove(i, ok), atomicExit))
  {
    hide LoopDoes, LoopGoes, CloseDoes, CloseGoes, ErrorDoes, ErrorGoes;
    SingleIsKept(s, LoopMove(i, ok), atomicExit);
    LoopStaysWanted(s.flags, s.loops[i], ok, atomicExit);
    assert ErrorInFlight(s) <==> ErrorInFlight(Next(s, LoopMove(i, ok), atomicExit));
  }

  lemma LiveInvIsKept(s: State, move: Move, atomicExit: bool)
    requires LiveInv(s) && move != CloseMove
    ensures LiveInv(Next(s, move, atomicExit))
  {
    hide LoopDoes, LoopGoes, CloseDoes, CloseGoes, ErrorDoes, ErrorGoes;
    var t := Next(s, move, atomicExit);
    match move
    case LoopMove(i, ok) =>
      if Live(s, i) {
        LoopKeepsLiveInv(s, i, ok, atomicExit);
      }
    case SessionError =>
      SingleIsKept(s, move, atomicExit);
      if ErrorInFlight(s) {
        InFlightAfter(s, t, |s.errors|);
      }
    case ErrorMove(i) =>
      if i < |s.errors| {
        ErrorKeepsLiveInv(s, i);
      }
  }

  lemma {:induction false} LiveInvHolds(s: State, moves: seq<Move>, atomicExit: bool)
    requires Healthy(s) && NoClose(moves)
    ensures LiveInv(Reached(s, moves, atomicExit))
  {
    if moves != [] {
      assert NoClose(moves[..|moves| - 1]);
      LiveInvHolds(s, moves[..|moves| - 1], atomicExit);
      LiveInvIsKept(Reached(s, moves[..|moves| - 1], atomicExit), moves[|moves| - 1], atomicExit);
    }
  }

  /**
   Without a Close, the runtime is left stranded exactly when an error found the
   running flag still set by a loop that had already judged itself done, and that
   loop has since reset it.
   */
  lemma StrandedExactlyWhenMissed(s: State, moves: seq<Move>, atomicExit: bool)
    requires Healthy(s) && NoClose(moves)
    ensures var t := Reached(s, moves, atomicExit);
            Stranded(t) <==> t.missed && !t.running && !ErrorInFlight(t)
  {
    LiveInvHolds(s, moves, atomicExit);
  }

  predicate NeverMissed(s: State) {
    LiveInv(s) && !s.missed && Newest(s).pc != Exit
  }

  lemma NeverMissedIsKept(s: State, move: Move)
    requires NeverMissed(s) && move != CloseMove
    ensures NeverMissed(Next(s, move, true))
  {
    hide LoopDoes, LoopGoes, CloseDoes, CloseGoes, ErrorDoes, Stranded;
    LiveInvIsKept(s, move, true);
    if move.LoopMove? && Live(s, move.i) {
      LoopStaysWanted(s.flags, Newest(s), move.ok, true);
    }
  }

  /** With the success test and the reset joined, an error under intent is never lost. */
  lemma {:induction false} NeverStranded(s: State, moves: seq<Move>)
    requires Healthy(s) && NoClose(moves)
    ensures NeverMissed(Reached(s, moves, true)) && !Stranded(Reached(s, moves, true))
  {
    if moves == [] {
      LiveInvHolds(s, [], true);
    } else {
      assert NoClose(moves[..|moves| - 1]);
      NeverStranded(s, moves[..|moves| - 1]);
      NeverMissedIsKept(Reached(s, moves[..|moves| - 1], true), moves[|moves| - 1]);
    }
  }

  /** And the callback that reports it leaves a loop at work. */
  lemma ErrorLeavesALoop(s: State, moves: seq<Move>, i: nat)
    requires Healthy(s) && NoClose(moves)
    requires var t := Reached(s, moves, true); i < |t.errors| && t.errors[i] == Schedule
    ensures var t := Next(Reached(s, moves, true), ErrorMove(i), true);
            t.running && Restoring(Newest(t).pc)
  {
    NeverStranded(s, moves);
  }

  lemma Then(s: State, moves: seq<Move>, move: Move) returns (longer: seq<Move>)
    requires NoClose(moves) && move != CloseMove
    ensures NoClose(longer)
    ensures Reached(s, longer, false) == Next(Reached(s, moves, false), move, false)
  {
    longer := moves + [move];
    assert longer[..|longer| - 1] == moves;
  }

  /** Runs the callback of one new session error to its end. */
  lemma ReportError(s: State, moves: seq<Move>) returns (longer: seq<Move>)
    requires NoClose(moves) && Reached(s, moves, false).flags.intent
    ensures NoClose(longer)
    ensures var t := Reached(s, moves, false);
            Reached(s, longer, false) ==
              ScheduleSection(t.(flags := t.flags.(session := false, connected := false, loggedIn := false),
                                 errors := t.errors + [Finished]))
  {
    hide LoopGoes, LoopDoes, CloseGoes, CloseDoes, ScheduleSection;
    var t := Reached(s, moves, false);
    var n, f := |t.errors|, t.flags.(session := false);
    longer := Then(s, moves, SessionError);
    LastError(t.(flags := f), MarkDown);
    longer := Then(s, longer, ErrorMove(n));
    f := f.(connected := false);
    LastError(t.(flags := f), MarkLoggedOut);
    longer := Then(s, longer, ErrorMove(n));
    f := f.(loggedIn := false);
    LastError(t.(flags := f), ReadIntent);
    longer := Then(s, longer, ErrorMove(n));
    LastError(t.(flags := f), Schedule);
    longer := Then(s, longer, ErrorMove(n));
    ScheduleLeavesErrors(t.(flags := f), t.errors + [Finished]);
  }

  lemma ScheduleLeavesErrors(s: State, errors: seq<ErrorPc>)
    ensures ScheduleSection(s).(flags := s.flags, errors := errors) == ScheduleSection(s.(errors := errors))
  {
  }

  lemma LastError(s: State, pc: ErrorPc)
    ensures var t := if pc == Schedule then ScheduleSection(s) else s;
            Next(s.(errors := s.errors + [pc]), ErrorMove(|s.errors|), false)
              == t.(flags := ErrorDoes(s.flags, pc), errors := s.errors + [ErrorGoes(s.flags, pc)])
  {
    var longer := s.errors + [pc];
    assert longer[|s.errors| := ErrorGoes(s.flags, pc)] == s.errors + [ErrorGoes(s.flags, pc)];
  }

  /**
   As the code stands the two are separate steps, and the window is real: a
   second error reported inside it leaves the runtime down with nobody recovering.
   */
  lemma SplitExitCanStrand(s: State) returns (moves: seq<Move>)
    requires Healthy(s) && s.flags.identity && s.flags.addr && s.errors == []
    ensures NoClose(moves) && Stranded(Reached(s, moves, false))
  {
    hide Next, LoopGoes, LoopDoes, CloseGoes, CloseDoes, ErrorGoes, ErrorDoes, Stranded;
    var reported, judged := RecoveryIsExact(s, Outcome(true, true));
    moves := ErrorInTheWindow(s, judged);
  }

  /** An error reported to a loop that has judged itself done but not yet reset the flag. */
  lemma ErrorInTheWindow(s: State, judged: seq<Move>) returns (moves: seq<Move>)
    requires NoClose(judged)
    requires var t := Reached(s, judged, false);
             t.loops == [Loop(Exit, false)] && t.running && t.flags.intent && t.errors == [Finished]
    ensures NoClose(moves) && Stranded(Reached(s, moves, false))
  {
    hide Next, Stranded;
    var again := ReportError(s, judged);
    ResetStrands(Reached(s, again, false));
    moves := Then(s, again, LoopMove(0, true));
  }

  lemma ResetStrands(s: State)
    requires s.loops == [Loop(Exit, false)] && s.running && s.flags.intent && !s.flags.connected
    requires s.errors == [Finished, Finished]
    ensures Stranded(Next(s, LoopMove(0, true), false))
  {
    hide CloseGoes, CloseDoes, ErrorGoes, ErrorDoes;
    assert Live(s, 0);
  }

  // ------------------------------------------------------------ an undisturbed attempt

  /** One attempt, as the dial and the login turn out. */
  datatype Outcome = Outcome(dial: bool, login: bool)

  /** The attempt gives its loop no reason to go on. Without an identity that takes having nothing to restore. */
  predicate Succeeds(f: Flags, o: Outcome) {
    o.dial && if f.identity then o.login else !f.reporting && !f.listening
  }

  function OkAt(pc: LoopPc, o: Outcome): bool {
    if pc == Dial then o.dial else if pc == LoginAwait then o.login else true
  }

  /** What an attempt begun with flags `f` leaves of them. */
  function Attempted(f: Flags, o: Outcome): Flags {
    f.(session := o.dial, connected := o.dial, loggedIn := if o.dial && f.identity then o.login else f.loggedIn)
  }

  /** And what it has made of them on its way. */
  function FlagsAt(f: Flags, pc: LoopPc, o: Outcome): Flags {
    match pc
    case Guard | CheckCtx | AttemptCtx | ReadAddr | CloseOld => f
    case DropOld => f.(session := false)
    case Dial => f.(session := false, connected := false)
    case MarkConnected => f.(session := true, connected := false)
    case MarkAddr | CheckAfterDial | Identity | LoginCheck | LoginAwait | LoginFailed | SetAuth =>
      f.(session := true, connected := true)
    case _ => Attempted(f, o)
  }

  /** Steps left to the verdict, at most, plus one; 0 where the attempt never comes. */
  function StepsLeft(f: Flags, pc: LoopPc, o: Outcome): nat {
    match pc
    case Guard => 19 case CheckCtx => 18 case AttemptCtx => 17 case ReadAddr => 16 case CloseOld => 15
    case DropOld => 14 case Dial => 13
    case MarkConnected => if o.dial then 12 else 0
    case MarkAddr => if o.dial then 11 else 0
    case CheckAfterDial => if o.dial then 10 else 0
    case Identity => if o.dial then 9 else 0
    case LoginCheck => if o.dial && f.identity then 8 else 0
    case LoginAwait => if o.dial && f.identity then 7 else 0
    case LoginFailed => if o.dial && f.identity && !o.login then 6 else 0
    case SetAuth => if o.dial && f.identity && o.login then 6 else 0
    case SetIntent => if o.dial && f.identity && o.login then 5 else 0
    case Subscribe => if o.dial && f.identity && o.login then 4 else 0
    case CheckAfterLogin => if o.dial && f.identity && o.login then 3 else 0
    case TestConnected => if Succeeds(f, o) then 2 else 0
    case Exit => if Succeeds(f, o) then 1 else 0
    case Wait => if Succeeds(f, o) then 0 else 1
    case _ => 0
  }

  /** The step that follows. */
  function AttemptNext(f: Flags, pc: LoopPc, o: Outcome): LoopPc {
    match pc
    case Guard => CheckCtx case CheckCtx => AttemptCtx case AttemptCtx => ReadAddr case ReadAddr => CloseOld
    case CloseOld => DropOld case DropOld => Dial case Dial => if o.dial then MarkConnected else Wait
    case MarkConnected => MarkAddr case MarkAddr => CheckAfterDial case CheckAfterDial => Identity
    case Identity => if f.identity then LoginCheck else if f.reporting || f.listening then Wait else TestConnected
    case LoginCheck => LoginAwait case LoginAwait => if o.login then SetAuth else LoginFailed
    case SetAuth => SetIntent case SetIntent => Subscribe case Subscribe => CheckAfterLogin
    case CheckAfterLogin => TestConnected case TestConnected => Exit
    case _ => Wait
  }

  lemma DialGoes(f: Flags, pc: LoopPc, o: Outcome)
    requires f.intent && f.addr
    requires pc.Guard? || pc.CheckCtx? || pc.AttemptCtx? || pc.ReadAddr? || pc.CloseOld? || pc.DropOld? || pc.Dial?
    ensures LoopGoes(FlagsAt(f, pc, o), Loop(pc, false), OkAt(pc, o), false) == AttemptNext(f, pc, o)
  {
    hide LoopDoes, StepsLeft, Succeeds;
  }

  lemma LoginGoes(f: Flags, pc: LoopPc, o: Outcome)
    requires StepsLeft(f, pc, o) > 1
    requires !(pc.Guard? || pc.CheckCtx? || pc.AttemptCtx? || pc.ReadAddr? || pc.CloseOld? || pc.DropOld? || pc.Dial?)
    ensures LoopGoes(FlagsAt(f, pc, o), Loop(pc, false), OkAt(pc, o), false) == AttemptNext(f, pc, o)
  {
    hide LoopDoes;
  }

  lemma AttemptGoes(f: Flags, pc: LoopPc, o: Outcome)
    requires f.intent && f.addr && StepsLeft(f, pc, o) > 1
    ensures LoopGoes(FlagsAt(f, pc, o), Loop(pc, false), OkAt(pc, o), false) == AttemptNext(f, pc, o)
  {
    hide LoopGoes, LoopDoes, FlagsAt, OkAt, AttemptNext, StepsLeft, Succeeds;
    match pc
    case Guard | CheckCtx | AttemptCtx | ReadAddr | CloseOld | DropOld | Dial => DialGoes(f, pc, o);
    case _ => LoginGoes(f, pc, o);
  }

  lemma DialDoes(f: Flags, pc: LoopPc, o: Outcome)
    requires pc.Guard? || pc.CheckCtx? || pc.AttemptCtx? || pc.ReadAddr? || pc.CloseOld? || pc.DropOld? || pc.Dial?
    ensures LoopDoes(FlagsAt(f, pc, o), pc, OkAt(pc, o)) == FlagsAt(f, AttemptNext(f, pc, o), o)
  {
    hide LoopGoes, StepsLeft, Succeeds;
  }

  lemma ConnectionDoes(f: Flags, pc: LoopPc, o: Outcome)
    requires f.addr && StepsLeft(f, pc, o) > 1
    requires pc.MarkConnected? || pc.MarkAddr? || pc.CheckAfterDial? || pc.Identity? || pc.LoginCheck?
    ensures LoopDoes(FlagsAt(f, pc, o), pc, OkAt(pc, o)) == FlagsAt(f, AttemptNext(f, pc, o), o)
  {
    hide LoopGoes;
  }

  lemma AnswerDoes(f: Flags, pc: LoopPc, o: Outcome)
    requires StepsLeft(f, pc, o) > 1 && (pc.LoginAwait? || pc.LoginFailed? || pc.SetAuth?)
    ensures LoopDoes(FlagsAt(f, pc, o), pc, OkAt(pc, o)) == FlagsAt(f, AttemptNext(f, pc, o), o)
  {
    hide LoopGoes, Succeeds;
  }

  lemma LoginDoes(f: Flags, pc: LoopPc, o: Outcome)
    requires f.intent && (pc.SetIntent? || pc.Subscribe? || pc.CheckAfterLogin? || pc.TestConnected?)
    ensures LoopDoes(FlagsAt(f, pc, o), pc, OkAt(pc, o)) == FlagsAt(f, AttemptNext(f, pc, o), o)
  {
    hide LoopGoes, StepsLeft, Succeeds;
  }

  lemma AttemptDoes(f: Flags, pc: LoopPc, o: Outcome)
    requires f.intent && f.addr && StepsLeft(f, pc, o) > 1
    ensures LoopDoes(FlagsAt(f, pc, o), pc, OkAt(pc, o)) == FlagsAt(f, AttemptNext(f, pc, o), o)
  {
    hide LoopDoes, FlagsAt, OkAt, AttemptNext, Succeeds;
    match pc
    case MarkConnected | MarkAddr | CheckAfterDial | Identity | LoginCheck => ConnectionDoes(f, pc, o);
    case LoginAwait | LoginFailed | SetAuth => AnswerDoes(f, pc, o);
    case SetIntent | Subscribe | CheckAfterLogin | TestConnected => LoginDoes(f, pc, o);
    case _ => DialDoes(f, pc, o);
  }

  lemma AttemptShortens(f: Flags, pc: LoopPc, o: Outcome)
    requires StepsLeft(f, pc, o) > 1
    ensures 0 < StepsLeft(f, AttemptNext(f, pc, o), o) < StepsLeft(f, pc, o)
    ensures pc != Ended && AttemptNext(f, pc, o) != Ended
  {
  }

  lemma {:induction false} RunToVerdict(s: State, moves: seq<Move>, f: Flags, pc: LoopPc, o: Outcome)
    returns (longer: seq<Move>)
    requires f.intent && f.addr && StepsLeft(f, pc, o) > 0
    requires var t := Reached(s, moves, false);
             NoClose(moves) && t.running && t.loops == [Loop(pc, false)] && t.flags == FlagsAt(f, pc, o)
    ensures NoClose(longer)
    ensures var t, u := Reached(s, moves, false), Reached(s, longer, false);
            u == t.(flags := Attempted(f, o), loops := [Loop(if Succeeds(f, o) then Exit else Wait, false)])
    decreases StepsLeft(f, pc, o)
  {
    hide Attempted, Succeeds, LoopGoes, LoopDoes, OkAt, StepsLeft, FlagsAt, AttemptNext, Next;
    if StepsLeft(f, pc, o) == 1 {
      AtVerdict(f, pc, o);
      longer := moves;
    } else {
      var t := Reached(s, moves, false);
      AttemptGoes(f, pc, o);
      AttemptDoes(f, pc, o);
      AttemptShortens(f, pc, o);
      StillLive(t, pc, OkAt(pc, o));
      longer := Then(s, moves, LoopMove(0, OkAt(pc, o)));
      longer := RunToVerdict(s, longer, f, AttemptNext(f, pc, o), o);
    }
  }

  lemma AtVerdict(f: Flags, pc: LoopPc, o: Outcome)
    requires StepsLeft(f, pc, o) == 1
    ensures pc == (if Succeeds(f, o) then Exit else Wait) && FlagsAt(f, pc, o) == Attempted(f, o)
  {
  }

  lemma StillLive(s: State, pc: LoopPc, ok: bool)
    requires s.loops == [Loop(pc, false)] && pc != Ended && s.running
    requires LoopGoes(s.flags, Loop(pc, false), ok, false) != Ended
    ensures var pc' := LoopGoes(s.flags, Loop(pc, false), ok, false);
            Next(s, LoopMove(0, ok), false) == s.(flags := LoopDoes(s.flags, pc, ok), loops := [Loop(pc', false)])
  {
    hide LoopGoes, LoopDoes;
    assert Live(s, 0);
  }

  /**
   One attempt of a recovery that nobody disturbs, in every outcome: from an error in any
   healthy state with an address it comes to its verdict with session and connection exactly
   as the dial went, the login as it was answered, and reporting, listening and the intent as
   they were; the loop goes on if and only if the attempt did not succeed.
   */
  lemma RecoveryIsExact(s: State, o: Outcome) returns (reported: seq<Move>, moves: seq<Move>)
    requires Healthy(s) && s.flags.addr && s.errors == []
    ensures NoClose(reported) && NoClose(moves)
    ensures var down := s.flags.(session := false, connected := false, loggedIn := false);
            var t, u := Reached(s, reported, false), Reached(s, moves, false);
            && t.flags == down && t.loops == [Loop(Guard, false)] && t.running && t.errors == [Finished]
            && u == t.(flags := down.(session := o.dial, connected := o.dial,
                                      loggedIn := o.dial && down.identity && o.login),
                       loops := [Loop(if Succeeds(down, o) then Exit else Wait, false)])
  {
    hide Next, LoopGoes, LoopDoes, CloseGoes, CloseDoes, ErrorGoes, ErrorDoes, Succeeds;
    reported := ReportError(s, []);
    var t := Reached(s, reported, false);
    assert t.loops == [Loop(Guard, false)];
    moves := RunToVerdict(s, reported, t.flags, Guard, o);
  }
}
