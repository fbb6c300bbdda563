/** The main results on replication over a session, and where its promises end. */
module ReplicationResults {
  import opened Wrappers
  import opened Text
  import opened Metrics
  import opened Config
  import opened Replication
  import opened ReplicationFacts
  import opened ReplicationAsync
  import opened ReplicationLogins
  import Traces = ReplicationTraces

  /** The hub once everything the node has sent has arrived. */
  function Drained(hub: map<string, Published>, sent: seq<Msg>): map<string, Published> {
    if sent == [] then hub else Store(Drained(hub, sent[..|sent| - 1]), sent[|sent| - 1])
  }

  lemma {:induction false} DrainedShowsLast(hub: map<string, Published>, sent: seq<Msg>, name: string)
    ensures var after := Drained(hub, sent);
            match Last(sent, name)
            case Some(v) => name in after && after[name].value == v
            case None => (name in after <==> name in hub) && (name in hub ==> after[name] == hub[name])
  {
    if sent != [] {
      DrainedShowsLast(hub, sent[..|sent| - 1], name);
    }
  }

  /** What convergence means of a variable: of the cache at once, of the hub once what is under way has arrived. */
  predicate Converges(w: World, name: string)
    requires Target(w.node, name).Some?
  {
    var v, hub := Target(w.node, name).value, Drained(w.hub, w.node.sent);
    && name in w.node.published && w.node.published[name].value == v
    && name in hub
    && (TrimSpace(hub[name].value) == v || Last(w.down, name) == Some(hub[name].value))
    && (w.node.sent == [] && w.down == [] ==> HubHolds(w, name, v))
  }

  lemma {:induction false} KeptConverges(w: World, name: string)
    requires Kept(w, name) && Active(w.node.auth) && Target(w.node, name).Some?
    ensures Converges(w, name)
  {
    hide TrimSpace, Target, Last, Drained;
    DrainedShowsLast(w.hub, w.node.sent, name);
    if w.node.sent == [] && w.down == [] {
      NothingIsLast(name);
      NothingDrains(w.hub);
    }
  }

  lemma NothingIsLast(name: string)
    ensures Last([], name) == None && LastSet([], name) == None
  {
  }

  lemma NothingDrains(hub: map<string, Published>)
    ensures Drained(hub, []) == hub
  {
  }

  /**
   Asynchronous convergence. In every state of an orderly run the cache holds the value
   the node stands for, and the hub, once it has received what is under way, holds it
   too, unless its different value is the last notification still to come. Whenever both
   channels are empty the hub holds it.
   */
  lemma {:induction false} CacheAndHubConverge(w: World, es: seq<Event>, name: string)
    requires Starts(w) && Legal(w, es) && Orderly(w, es)
    ensures var t := Run(w, es);
            Active(t.node.auth) && Owned(t.node, name) && Target(t.node, name).Some? ==> Converges(t, name)
  {
    hide Starts, Orderly, Owned, Target, Converges, Kept, WellFormed;
    OrderlyLeavesNothing(w, es);
    InvHolds(w, es);
    var t := Run(w, es);
    if Active(t.node.auth) && Owned(t.node, name) && Target(t.node, name).Some? {
      KeptConverges(t, name);
    }
  }

  /** So whenever both channels are empty the hub holds the node's value. */
  lemma {:induction false} QuietHubAgrees(w: World, es: seq<Event>, name: string)
    requires Starts(w) && Legal(w, es) && Orderly(w, es)
    ensures var t := Run(w, es);
            && Active(t.node.auth) && Owned(t.node, name) && Target(t.node, name).Some?
            && t.node.sent == [] && t.down == [] ==>
              HubHolds(t, name, Target(t.node, name).value)
  {
    hide Starts, Orderly, Owned, Target, HubHolds, Drained, Last;
    CacheAndHubConverge(w, es, name);
  }

  /**
   The same of a single variable, in any run in which no event has left that variable
   behind since the last login that republished.
   */
  lemma {:induction false} SparedConverges(w: World, es: seq<Event>, name: string)
    requires Starts(w) && Legal(w, es) && Spared(w, es, name)
    ensures var t := Run(w, es);
            Active(t.node.auth) && Owned(t.node, name) && Target(t.node, name).Some? ==> Converges(t, name)
  {
    hide Starts, Spared, Owned, Target, Converges, Kept;
    SparedIsKept(w, es, name);
    var t := Run(w, es);
    if Active(t.node.auth) && Owned(t.node, name) && Target(t.node, name).Some? {
      KeptConverges(t, name);
    }
  }

  // --------------------------------------------------------------- termination

  /** The message says of its variable what the node would answer. */
  predicate Agrees(n: Node, m: Msg) {
    Owned(n, m.name) && Target(n, m.name).Some? ==> TrimSpace(m.value) == Target(n, m.name).value
  }

  /** Work left: up and wrong 4, down and wrong 3, up and right 2, down and right 1. */
  function WorkUp(n: Node, channel: seq<Msg>): nat {
    if channel == [] then 0 else (if Agrees(n, channel[0]) then 2 else 4) + WorkUp(n, channel[1..])
  }

  function WorkDown(n: Node, channel: seq<Msg>): nat {
    if channel == [] then 0 else (if Agrees(n, channel[0]) then 1 else 3) + WorkDown(n, channel[1..])
  }

  function Work(w: World): nat {
    WorkUp(w.node, w.node.sent) + WorkDown(w.node, w.down)
  }

  lemma {:induction false} WorkUpAppended(n: Node, channel: seq<Msg>, m: Msg)
    ensures WorkUp(n, channel + [m]) == WorkUp(n, channel) + if Agrees(n, m) then 2 else 4
  {
    hide Agrees;
    if channel == [] {
      assert [m][1..] == [];
    } else {
      assert (channel + [m])[1..] == channel[1..] + [m];
      WorkUpAppended(n, channel[1..], m);
    }
  }

  lemma {:induction false} WorkDownAppended(n: Node, channel: seq<Msg>, m: Msg)
    ensures WorkDown(n, channel + [m]) == WorkDown(n, channel) + if Agrees(n, m) then 1 else 3
  {
    hide Agrees;
    if channel == [] {
      assert [m][1..] == [];
    } else {
      assert (channel + [m])[1..] == channel[1..] + [m];
      WorkDownAppended(n, channel[1..], m);
    }
  }

  /** What counts as right depends on the readings and the configuration only. */
  lemma {:induction false} SameWork(n: Node, after: Node, channel: seq<Msg>)
    requires after.cfg == n.cfg && after.metrics == n.metrics
    ensures WorkUp(after, channel) == WorkUp(n, channel) && WorkDown(after, channel) == WorkDown(n, channel)
  {
    hide TrimSpace, Target, Owned;
    if channel != [] {
      SameOwned(n, after, channel[0].name);
      SameTarget(n, after, channel[0].name);
      SameWork(n, after, channel[1..]);
    }
  }

  predicate Delivery(e: Event) {
    e.DeliverUp? || e.DeliverDown?
  }

  lemma {:induction false} DeliverUpWorks(w: World, echo: bool)
    requires w.node.sent != []
    ensures Work(Step(w, DeliverUp(echo))) < Work(w)
  {
    hide Agrees;
    var t := Step(w, DeliverUp(echo));
    SameWork(w.node, t.node, t.node.sent);
    SameWork(w.node, t.node, t.down);
    WorkDownAppended(w.node, w.down, w.node.sent[0]);
  }

  /** The answer to a notification: none, or the value the node stands for. */
  function Answer(n: Node, m: Msg): seq<Msg> {
    if !Active(n.auth) || Agrees(n, m) || !Owned(n, m.name) then []
    else match Target(n, m.name)
      case None => []
      case Some(v) => [Msg(m.name, v, VisibilityOf(n.cfg.visibility), n.auth.nodeId)]
  }

  /**
   A notification addressed to the node is answered, in any state, exactly when it is of
   a variable of the node with a known value and says something else: then with one
   message, the value.
   */
  lemma {:induction false} HandlingSends(w: World, m: Msg)
    requires WellFormed(w) && Enabled(w, Foreign(m))
    ensures HandleNotify(w.node, m).sent == w.node.sent + Answer(w.node, m)
  {
    hide TrimLeft, TrimRight, ValidVarName, Target, HandleNotify, VisibilityOf, Owned, Correct, Bound, ConfigOk, Shadow;
    var n, value := w.node, TrimSpace(m.value);
    if Active(n.auth) && Owned(n, m.name) {
      HandledOwned(n, m, m.name, value);
      CorrectionSends(w, Shadow(n, m.name, value, m.visibility), m, value);
    } else {
      UnansweredSendsNothing(n, m);
    }
  }

  lemma {:induction false} UnansweredSendsNothing(n: Node, m: Msg)
    requires ValidVarName(m.name) && !(Active(n.auth) && Owned(n, m.name))
    ensures HandleNotify(n, m).sent == n.sent && Answer(n, m) == []
  {
    hide TrimSpace, Bound, ValidVarName, ControlValue, VisibilityOf, Target;
    ValidNameIsTrimmed(m.name);
  }

  /** A correction is never suppressed: the cache has just taken over the value it corrects. */
  lemma {:induction false} CorrectionSends(w: World, shadowed: Node, m: Msg, value: string)
    requires WellFormed(w) && Active(w.node.auth) && Owned(w.node, m.name) && value == TrimSpace(m.value)
    requires shadowed == w.node.(published := w.node.published[m.name := Published(value, VisibilityOf(m.visibility))])
    ensures Correct(shadowed, m.name, value, Bound(w.node.cfg, m.name).value.metric).sent
            == w.node.sent + Answer(w.node, m)
  {
    hide TrimSpace, Bound, ValidVarName, VisibilityOf, ConfigOk, Transform;
    NamedNotEmpty(m.name);
    assert w.node.sent + [] == w.node.sent;
    if Target(w.node, m.name).Some? {
      TargetIsClean(w, m.name);
    }
  }

  lemma {:induction false} AnswerAgrees(w: World, m: Msg)
    requires WellFormed(w)
    ensures forall s :: s in Answer(w.node, m) ==> Agrees(w.node, s)
    ensures |Answer(w.node, m)| <= 1 && (Agrees(w.node, m) ==> Answer(w.node, m) == [])
  {
    hide TrimSpace, VisibilityOf, Target, Owned, ConfigOk;
    if Target(w.node, m.name).Some? {
      TargetIsClean(w, m.name);
    }
  }

  lemma {:induction false} DeliverDownWorks(w: World)
    requires WellFormed(w) && w.down != []
    ensures Work(Step(w, DeliverDown)) < Work(w)
  {
    hide Agrees, HandleNotify, ConfigOk, ValidVarName, TrimSpace, Answer, Kept, SentOk;
    var t, m := Step(w, DeliverDown), w.down[0];
    HandleTouchesOnly(w, m, "");
    HandlingSends(w, m);
    SameWork(w.node, t.node, t.node.sent);
    SameWork(w.node, t.node, t.down);
    AnswerWorks(w, m);
  }

  /** What a notification loses in coming down pays for the answer to it. */
  lemma {:induction false} AnswerWorks(w: World, m: Msg)
    requires WellFormed(w)
    ensures var n := w.node;
            WorkUp(n, n.sent + Answer(n, m)) <= WorkUp(n, n.sent) + if Agrees(n, m) then 0 else 2
  {
    hide Agrees, Answer, WellFormed;
    var n := w.node;
    AnswerAgrees(w, m);
    if Answer(n, m) == [] {
      assert n.sent + Answer(n, m) == n.sent;
    } else {
      assert Answer(n, m) == [Answer(n, m)[0]] && Answer(n, m)[0] in Answer(n, m);
      WorkUpAppended(n, n.sent, Answer(n, m)[0]);
    }
  }

  /**
   The exchange of corrections terminates, even with a hub that echoes every set:
   once foreign writes and readings stop, no run of deliveries is longer than the
   work that was under way.
   */
  lemma {:induction false} CorrectionsTerminate(w: World, es: seq<Event>)
    requires Inv(w) && Legal(w, es) && forall i :: 0 <= i < |es| ==> Delivery(es[i])
    ensures Inv(Run(w, es)) && |es| + Work(Run(w, es)) <= Work(w)
  {
    hide Inv, Work;
    if es != [] {
      var before := Run(w, es[..|es| - 1]);
      CorrectionsTerminate(w, es[..|es| - 1]);
      StepKeepsInv(before, es[|es| - 1]);
      DeliveryWorks(before, es[|es| - 1]);
    }
  }

  lemma {:induction false} DeliveryWorks(w: World, e: Event)
    requires Inv(w) && Enabled(w, e) && Delivery(e)
    ensures Work(Step(w, e)) < Work(w)
  {
    hide Work;
    match e
    case DeliverUp(echo) => DeliverUpWorks(w, echo);
    case DeliverDown => DeliverDownWorks(w);
  }

  // ------------------------------------------------------------------ new session

  lemma {:induction false} InvIsWellFormed(w: World)
    requires Inv(w)
    ensures WellFormed(w)
  {
  }

  /**
   A login while reporting repairs whatever was lost: from any reachable state, on a
   new session with any hub or on the one that is up, every bound variable with a
   reading, writable or not, is sent again and left behind no more.
   */
  lemma {:induction false} ReloginResends(w: World, es: seq<Event>, e: Event, name: string)
    requires Starts(w) && Legal(w, es) && (e.Login? || e.Relogin?)
    ensures var s, t := Run(w, es), AfterLogin(Run(w, es), e);
            Republishes(s, e) && ValidVarName(name) && Target(s.node, name).Some? ==>
              && Inv(t) && Active(t.node.auth) && name !in t.stale
              && Target(t.node, name) == Target(s.node, name)
              && var p := Published(Target(s.node, name).value, s.node.cfg.visibility);
                 LastSet(t.node.sent, name) == Some(p) && name in t.node.published && t.node.published[name] == p
  {
    hide AfterLogin, TrimSpace, ValidVarName, Target, LastSet, WellFormed, Inv, ConfigOk, Republishes;
    InvHolds(w, es);
    InvIsWellFormed(Run(w, es));
    if Republishes(Run(w, es), e) && ValidVarName(name) && Target(Run(w, es).node, name).Some? {
      LoginResends(Run(w, es), e, name);
      LoginKeepsInv(Run(w, es), e);
    }
  }

  function AfterLogin(w: World, e: Event): World
    requires e.Login? || e.Relogin?
  {
    Step(w, e)
  }

  lemma LoginKeepsInv(w: World, e: Event)
    requires Inv(w) && (e.Login? || e.Relogin?)
    ensures Inv(AfterLogin(w, e))
  {
    hide Inv, Step;
    StepKeepsInv(w, e);
  }

  lemma {:induction false} LoginResends(w: World, e: Event, name: string)
    requires WellFormed(w) && (e.Login? || e.Relogin?) && Republishes(w, e)
    requires ValidVarName(name) && Target(w.node, name).Some?
    ensures var t := AfterLogin(w, e);
            && Active(t.node.auth) && name !in t.stale
            && Target(t.node, name) == Target(w.node, name)
            && var p := Published(Target(w.node, name).value, w.node.cfg.visibility);
               LastSet(t.node.sent, name) == Some(p) && name in t.node.published && t.node.published[name] == p
  {
    hide TrimSpace, ValidVarName, Target, LastSet, LoggedIn, Republish, ConfigOk, Kept, OwnedNames, Owned;
    var t := Move(w, e);
    var n := if e.Login? then Cleared(w.node.(sent := []), e.nodeId, e.hubId)
             else Cleared(w.node, w.node.auth.nodeId, e.hubId);
    LoginRepublishes(if e.Login? then w.node.(sent := []) else w.node, n.auth.nodeId, n.auth.hubId);
    assert t.node == Republish(n);
    SameTarget(w.node, n, name);
    var begun := t.(node := n);
    assert WellFormed(begun) by { ClearedIsWellFormed(w, begun); }
    RepublishSends(begun, name);
    RepublishKeepsRest(n);
    SameTarget(n, t.node, name);
    ConvergentIsKept(t, name);
  }

  lemma {:induction false} ClearedIsWellFormed(w: World, t: World)
    requires WellFormed(w) && t.node.cfg == w.node.cfg && t.node.metrics == w.node.metrics
    requires (t.node.sent == [] && t.down == [])
             || (t.node.sent == w.node.sent && t.down == w.down && t.node.auth.nodeId == w.node.auth.nodeId)
    ensures WellFormed(t)
  {
    hide TrimSpace, ConfigOk, ValidVarName;
  }

  /** From an empty cache, a republish sends every known value. */
  lemma {:induction false} RepublishSends(w: World, name: string)
    requires WellFormed(w) && Active(w.node.auth) && w.node.reporting && w.node.published == map[]
    requires ValidVarName(name) && Target(w.node, name).Some?
    ensures var after, p := Republish(w.node), Published(Target(w.node, name).value, w.node.cfg.visibility);
            LastSet(after.sent, name) == Some(p) && name in after.published && after.published[name] == p
    ensures Convergent(w.(node := Republish(w.node)), name)
  {
    hide TrimSpace, ValidVarName, Bound, Transform, Last, LastSet, VisibilityOf, PublishEach, Refresh, KnownValue,
         Convergent, Coherent;
    var n := w.node;
    RefreshPlan(n.cfg.bindings, n, name);
    var i := BoundIsListed(n.cfg, name);
    assert n.cfg.bindings[i].varName == name;
    var value := Target(n, name).value;
    EachMarks(n, Refresh(n.cfg.bindings, n.metrics, n.cfg), n.cfg.visibility, name, value);
    Traces.DefaultVisibilityIsStable(n.cfg);
    TargetIsClean(w, name);
    SameTarget(n, Republish(n), name);
    MarkedIsConvergent(w, w.(node := Republish(n)), name, value, VisibilityOf(n.cfg.visibility));
  }

  // ---------------------------------------------------------- where promises end

  /** A world with nothing under way whose node answers for `m`'s variable. */
  predicate Quiet(w: World, m: Msg) {
    && Active(w.node.auth) && Owned(w.node, m.name) && w.node.sent == [] && w.down == []
    && Enabled(w, Foreign(m)) && Target(w.node, m.name).Some?
  }

  function AfterNotice(w: World, m: Msg): World
    requires Enabled(w, Foreign(m))
  {
    Step(Step(w, Foreign(m)), DeliverDown)
  }

  /** From any quiet state of a run, a foreign write draws a correction exactly when it changes the value. */
  lemma {:induction false} CorrectedExactlyWhenChanged(w: World, es: seq<Event>, m: Msg)
    requires Starts(w) && Legal(w, es)
    ensures var s := Run(w, es);
            Quiet(s, m) ==> (AfterNotice(s, m).node.sent == [] <==> TrimSpace(m.value) == Target(s.node, m.name).value)
  {
    hide TrimSpace, ValidVarName, Target, Owned, HandleNotify, Inv, WellFormed, AfterNotice;
    InvHolds(w, es);
    var s := Run(w, es);
    InvIsWellFormed(s);
    if Quiet(s, m) {
      NoticeHandled(s, m);
      HandlingSends(s, m);
      AnswersDisagreement(s.node, m);
    }
  }

  lemma {:induction false} AnswersDisagreement(n: Node, m: Msg)
    requires Active(n.auth) && Owned(n, m.name) && Target(n, m.name).Some?
    ensures Answer(n, m) == [] <==> TrimSpace(m.value) == Target(n, m.name).value
  {
    hide TrimSpace, VisibilityOf, Target, Owned;
  }

  /**
   A foreign write may therefore change the visibility alone and keep it: nothing
   is under way, and the hub is left with a visibility the node did not choose.
   */
  lemma {:induction false} VisibilityIsNotCorrected(w: World, es: seq<Event>, m: Msg)
    requires Starts(w) && Legal(w, es)
    ensures var s := Run(w, es);
            && Quiet(s, m) && Target(s.node, m.name) == Some(TrimSpace(m.value))
            && m.visibility != s.node.cfg.visibility ==>
              var t := AfterNotice(s, m);
              && t.node.sent == [] && t.down == []
              && m.name in t.hub && t.hub[m.name].visibility != t.node.cfg.visibility
  {
    hide TrimSpace, ValidVarName, Target, Owned, HandleNotify, Inv, WellFormed, ConfigOk, AfterNotice;
    CorrectedExactlyWhenChanged(w, es, m);
    InvHolds(w, es);
    var s := Run(w, es);
    InvIsWellFormed(s);
    if Quiet(s, m) {
      NoticeHandled(s, m);
      assert HandleNotify(s.node, m).cfg == s.node.cfg by { HandleTouchesOnly(s, m, ""); }
    }
  }

  lemma {:induction false} NoticeHandled(w: World, m: Msg)
    requires w.down == [] && Enabled(w, Foreign(m))
    ensures var t := AfterNotice(w, m);
            t.node == HandleNotify(w.node, m) && t.hub == Store(w.hub, m) && t.down == []
  {
    hide TrimSpace, ValidVarName, HandleNotify, Kept;
    assert [] + [m] == [m];
  }
}
