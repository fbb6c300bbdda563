/** Logins made while reporting is off: exactly which variables they leave behind. */
module ReplicationLogins {
  import opened Wrappers
  import opened Text
  import opened Metrics
  import opened Config
  import opened Replication
  import opened ReplicationFacts
  import opened ReplicationAsync
  import opened ReplicationTraces

  // ------------------------------------------------------------ the ordinary case

  /** Nothing is known or under way yet, so a login or a change of defaults has nothing to leave behind. */
  predicate Unused(w: World, e: Event) {
    && w.node.metrics == map[]
    && (e.Defaults? || w.node.published == map[])
    && (e.Relogin? ==> w.node.sent == [] && w.down == [])
  }

  /**
   A run in which, since the last login that republished, logins without reporting
   and changes of defaults without a republish came before the first reading: the
   first session of a process, and every session whose login was made while reporting.
   */
  predicate Orderly(w: World, es: seq<Event>)
    requires Legal(w, es)
  {
    es == []
    || (var before, e := Run(w, es[..|es| - 1]), es[|es| - 1];
        if LeavesBehind(before, e) then Orderly(w, es[..|es| - 1]) && Unused(before, e)
        else e.Login? || Orderly(w, es[..|es| - 1]))
  }

  predicate StaleIsOwned(w: World) {
    forall name :: name in w.stale ==> Owned(w.node, name)
  }

  lemma {:induction false} StaleStaysOwned(w: World, e: Event)
    requires Inv(w) && Enabled(w, e) && StaleIsOwned(w)
    ensures StaleIsOwned(Step(w, e))
  {
    hide WellFormed, Kept, Move, LeavesBehind, Owned;
    MoveIsWellFormed(w, e);
    var t, s := Move(w, e), Step(w, e);
    forall name | name in s.stale ensures Owned(s.node, name) {
      SameBound(w.node, t.node, name);
      OwnedAsNamed(t.node, name);
    }
  }

  lemma OwnedAsNamed(n: Node, name: string)
    ensures name in OwnedNames(n) ==> Owned(n, name)
  {
    hide Owned;
  }

  /** With no readings, an event that republishes nothing leaves no variable behind. */
  lemma {:induction false} BlankLeavesNothing(w: World, e: Event, name: string)
    requires Inv(w) && w.stale == {} && Enabled(w, e) && LeavesBehind(w, e) && Unused(w, e) && Owned(w.node, name)
    ensures Kept(Move(w, e), name)
  {
    hide TrimSpace, Bound, ValidVarName, Owned, ConfigOk, KnownValue, Transform;
    var t := Move(w, e);
    NothingIsKnown(w.node, name);
    NothingIsKnown(t.node, name) by { NoReadings(w, e); }
    if e.Defaults? {
      RepublishKeepsRest(w.node.(cfg := w.node.cfg.(visibility := e.visibility, noBattery := e.noBattery)));
      if Active(w.node.auth) {
        ChangedDefaults(w, e.visibility, e.noBattery, name);
      }
    } else {
      NothingUnderWay(w, e);
      if Active(t.node.auth) {
        QuietIsKept(t, name);
      }
    }
  }

  lemma {:induction false} NothingIsKnown(n: Node, name: string)
    requires n.metrics == map[]
    ensures Target(n, name).None?
  {
    hide Bound;
  }

  lemma {:induction false} NoReadings(w: World, e: Event)
    requires Enabled(w, e) && LeavesBehind(w, e) && w.node.metrics == map[]
    ensures Move(w, e).node.metrics == map[]
  {
    hide TrimSpace, ValidVarName, PublishEach, Refresh;
    match e
    case Login(nodeId, hubId, _) => RepublishKeepsRest(Cleared(w.node.(sent := []), nodeId, hubId));
    case Relogin(hubId) => RepublishKeepsRest(Cleared(w.node, w.node.auth.nodeId, hubId));
    case Defaults(v, d) => RepublishKeepsRest(w.node.(cfg := w.node.cfg.(visibility := v, noBattery := d)));
    case Register(_, _, _) =>
  }

  lemma {:induction false} NothingUnderWay(w: World, e: Event)
    requires Enabled(w, e) && LeavesBehind(w, e) && Unused(w, e) && !e.Defaults?
    ensures var t := Move(w, e); t.node.sent == [] && t.down == [] && t.node.published == map[]
  {
    hide TrimSpace, ValidVarName;
    var n := if e.Relogin? then w.node else w.node.(sent := []);
    var nodeId := if e.Relogin? then n.auth.nodeId else e.nodeId;
    LoginRepublishes(n, nodeId, e.hubId);
    NothingToRefresh(n.cfg.bindings, n.cfg);
  }

  lemma {:induction false} NothingToRefresh(bindings: seq<Binding>, cfg: PublishConfig)
    ensures Refresh(bindings, map[], cfg) == []
  {
    hide TrimSpace;
    if bindings != [] {
      NothingToRefresh(bindings[..|bindings| - 1], cfg);
    }
  }

  lemma {:induction false} OrderlyHolds(w: World, es: seq<Event>)
    requires Starts(w) && Legal(w, es)
    ensures Inv(Run(w, es)) && StaleIsOwned(Run(w, es))
    ensures Orderly(w, es) ==> Run(w, es).stale == {}
  {
    hide Inv, Step, StaleIsOwned, LeavesBehind, Unused, Enabled;
    if es == [] {
      StartIsOrderly(w);
    } else {
      var before, e := Run(w, es[..|es| - 1]), es[|es| - 1];
      OrderlyHolds(w, es[..|es| - 1]);
      StepKeepsInv(before, e);
      StaleStaysOwned(before, e);
      if Orderly(w, es) {
        OrderlyStep(before, e);
      }
    }
  }

  /** In such a run no variable is left behind, so that the cache and the hub converge on all of them. */
  lemma {:induction false} OrderlyLeavesNothing(w: World, es: seq<Event>)
    requires Starts(w) && Legal(w, es) && Orderly(w, es)
    ensures Run(w, es).stale == {}
  {
    hide Starts, Run, Orderly, Inv, StaleIsOwned;
    OrderlyHolds(w, es);
  }

  lemma StartIsOrderly(w: World)
    requires Starts(w)
    ensures Inv(w) && StaleIsOwned(w)
  {
    hide ConfigOk, Owned, Last, TrimSpace;
    InvHolds(w, []);
  }

  lemma {:induction false} OrderlyStep(w: World, e: Event)
    requires Inv(w) && StaleIsOwned(w) && Enabled(w, e)
    requires if LeavesBehind(w, e) then w.stale == {} && Unused(w, e) else e.Login? || w.stale == {}
    ensures Step(w, e).stale == {}
  {
    hide Owned, Kept, Move, LeavesBehind, Unused, WellFormed, Enabled;
    var t := Move(w, e);
    MoveIsWellFormed(w, e);
    var candidates := if LeavesBehind(w, e) then OwnedNames(t.node) else w.stale;
    forall name | name in candidates ensures Kept(t, name) {
      SameBound(w.node, t.node, name);
      OwnedAsNamed(t.node, name);
      if LeavesBehind(w, e) {
        BlankLeavesNothing(w, e, name);
      } else {
        LoginKeeps(w, e.nodeId, e.hubId, e.hub, name);
      }
    }
    assert StillBehind(t, candidates) == {};
  }

  /** One session: a login or a registration, and after it no event that leaves variables behind. */
  predicate OneSession(w: World, es: seq<Event>)
    requires Legal(w, es)
  {
    es == []
    || (|es| == 1 && (es[0].Login? || es[0].Register?))
    || (OneSession(w, es[..|es| - 1]) && !LeavesBehind(Run(w, es[..|es| - 1]), es[|es| - 1]))
  }

  lemma {:induction false} OneSessionIsOrderly(w: World, es: seq<Event>)
    requires Starts(w) && Legal(w, es) && OneSession(w, es)
    ensures Orderly(w, es)
  {
    hide ConfigOk, Step, LeavesBehind, Enabled;
    if es != [] {
      var front := es[..|es| - 1];
      if |es| == 1 {
        assert front == [] && Orderly(w, front) && Run(w, front) == w;
      }
      if OneSession(w, front) {
        OneSessionIsOrderly(w, front);
      }
    }
  }

  /** So the first session of a process, whose login comes before it reports, leaves no variable behind. */
  lemma {:induction false} FirstSessionLeavesNothing(w: World, es: seq<Event>)
    requires Starts(w) && Legal(w, es) && OneSession(w, es)
    ensures Run(w, es).stale == {}
  {
    hide Starts, Run, Orderly, OneSession;
    OneSessionIsOrderly(w, es);
    OrderlyLeavesNothing(w, es);
  }

  // ------------------------------------------------------------- the exact condition

  /** A login, or a registration, on a new session while nothing is republished. */
  predicate Silent(w: World, e: Event) {
    match e
    case Login(nodeId, hubId, _) => !w.node.reporting && nodeId != 0 && hubId != 0
    case Register(nodeId, hubId, _) => nodeId != 0 && hubId != 0
    case _ => false
  }

  /**
   Exactly which variables a silent login leaves behind, in any reachable state and
   for any hub: a variable whose metric has been read, when the hub does not hold the
   value; one that has not been read, when the cache holds something the hub does not.
   */
  lemma {:induction false} SilentLoginLeavesExactly(w: World, es: seq<Event>, e: Event, name: string)
    requires Starts(w) && Legal(w, es) && (e.Login? || e.Register?)
    ensures var s, t := Run(w, es), AfterSilent(Run(w, es), e);
            Silent(s, e) && Owned(s.node, name) ==>
              && t.node.sent == [] && t.down == []
              && match Target(s.node, name)
                 case Some(v) =>
                   && Target(t.node, name) == Some(v)
                   && (name in t.stale <==> !(CacheKnows(s.node, name) && HubHolds(t, name, v)))
                   && (name !in s.stale ==> CacheKnows(s.node, name))
                 case None =>
                   name in t.stale <==> name in s.node.published && !HubHolds(t, name, s.node.published[name].value)
  {
    hide TrimSpace, Owned, Target, Kept, ConfigOk, ValidVarName, AfterSilent;
    InvHolds(w, es);
    var s := Run(w, es);
    if Silent(s, e) && Owned(s.node, name) {
      KeptMeansKnown(s, name);
      SilentStep(s, e, name);
    }
  }

  function AfterSilent(w: World, e: Event): World
    requires e.Login? || e.Register?
  {
    Step(w, e)
  }

  lemma KeptMeansKnown(w: World, name: string)
    ensures Kept(w, name) ==> CacheKnows(w.node, name)
  {
    hide Target;
  }

  lemma {:induction false} SilentStep(w: World, e: Event, name: string)
    requires Inv(w) && (e.Login? || e.Register?) && Silent(w, e) && Owned(w.node, name)
    ensures var t := AfterSilent(w, e);
            && t.node.sent == [] && t.down == []
            && match Target(w.node, name)
               case Some(v) =>
                 && Target(t.node, name) == Some(v)
                 && (name in t.stale <==> !(CacheKnows(w.node, name) && HubHolds(t, name, v)))
               case None =>
                 name in t.stale <==> name in w.node.published && !HubHolds(t, name, w.node.published[name].value)
  {
    hide TrimSpace, Target, ConfigOk, ValidVarName, Owned, Kept, Bound;
    var t := Move(w, e);
    assert t.node == w.node.(auth := t.node.auth, sent := []);
    SameTarget(w.node, t.node, name);
    SameOwned(w.node, t.node, name);
    OwnedIsNamed(t.node, name);
    QuietIsKept(t, name);
  }

  /** With nothing under way, a variable is kept exactly when the cache speaks the truth about it. */
  lemma {:induction false} QuietIsKept(w: World, name: string)
    requires w.node.sent == [] && w.down == [] && Active(w.node.auth)
    ensures Kept(w, name) <==>
              match Target(w.node, name)
              case Some(v) => CacheKnows(w.node, name) && HubHolds(w, name, v)
              case None => name in w.node.published ==> HubHolds(w, name, w.node.published[name].value)
  {
    hide Target, TrimSpace;
  }

  /** The variable shows a missing battery. */
  predicate ShowsNoBattery(n: Node, name: string) {
    && Bound(n.cfg, name).Some? && Bound(n.cfg, name).value.metric == BATTERY_PERCENT
    && BATTERY_PERCENT in n.metrics && n.metrics[BATTERY_PERCENT] == "-1"
  }

  /**
   And exactly which variables a change of defaults leaves behind when no republish
   follows it: those that show a missing battery, when its text changes.
   */
  lemma {:induction false} SilentDefaultsLeaveExactly(w: World, es: seq<Event>, v: string, d: string, name: string)
    requires Starts(w) && Legal(w, es) && Enabled(w, Defaults(v, d))
    ensures var s, t := Run(w, es), AfterDefaults(Run(w, es), v, d);
            LeavesBehind(s, Defaults(v, d)) && Owned(s.node, name) && name !in s.stale ==>
              (name in t.stale <==> ShowsNoBattery(s.node, name) && d != s.node.cfg.noBattery)
  {
    hide TrimSpace, Owned, Target, Kept, ConfigOk, ValidVarName, AfterDefaults, ShowsNoBattery;
    InvHolds(w, es);
    var s := Run(w, es);
    if LeavesBehind(s, Defaults(v, d)) && Owned(s.node, name) && name !in s.stale {
      DefaultsStep(s, v, d, name);
    }
  }

  function AfterDefaults(w: World, v: string, d: string): World
    requires (v == PUBLIC || v == PRIVATE) && Clean(d)
  {
    Step(w, Defaults(v, d))
  }

  lemma {:induction false} DefaultsStep(w: World, v: string, d: string, name: string)
    requires Inv(w) && (v == PUBLIC || v == PRIVATE) && Clean(d) && LeavesBehind(w, Defaults(v, d))
    requires Owned(w.node, name) && name !in w.stale
    ensures name in AfterDefaults(w, v, d).stale <==> ShowsNoBattery(w.node, name) && d != w.node.cfg.noBattery
  {
    hide TrimSpace, Target, ConfigOk, ValidVarName, Owned, Kept, Bound, Clean;
    var t := Move(w, Defaults(v, d));
    assert t == w.(node := w.node.(cfg := w.node.cfg.(visibility := v, noBattery := d)));
    DefaultsAreWellFormed(w, v, d);
    OwnedIgnoresDefaults(w.node, v, d, name);
    OwnedIsNamed(t.node, name);
    ChangedTarget(w, v, d, name);
    TargetDecides(w, t, name);
  }

  /** The value a variable stands for changes exactly when it shows a missing battery under a new text. */
  lemma {:induction false} ChangedTarget(w: World, v: string, d: string, name: string)
    requires WellFormed(w) && Clean(d)
    ensures var n, after := w.node, w.node.(cfg := w.node.cfg.(visibility := v, noBattery := d));
            && (Target(n, name).Some? <==> Target(after, name).Some?)
            && (Target(n, name) != Target(after, name) <==> ShowsNoBattery(n, name) && d != n.cfg.noBattery)
  {
    hide TrimLeft, TrimRight, BindingByVarName, ValidVarName;
    var cfg := w.node.cfg.(visibility := v, noBattery := d);
    assert Bound(cfg, name) == Bound(w.node.cfg, name);
  }

  lemma {:induction false} TargetDecides(w: World, t: World, name: string)
    requires Kept(w, name) && t.node == w.node.(cfg := t.node.cfg) && t.hub == w.hub && t.down == w.down
    requires Target(w.node, name).Some? <==> Target(t.node, name).Some?
    ensures Kept(t, name) <==> Target(t.node, name) == Target(w.node, name)
  {
    hide Target, Last, TrimSpace;
  }

  // ----------------------------------------------------- one variable along a run

  /** What the cache says of the variable, and what it stands for, is what `hub` holds. */
  predicate Speaks(n: Node, hub: map<string, Published>, name: string) {
    match Target(n, name)
    case Some(v) => CacheKnows(n, name) && name in hub && TrimSpace(hub[name].value) == v
    case None => name in n.published ==> name in hub && TrimSpace(hub[name].value) == n.published[name].value
  }

  /**
   A session that is up can be taken up again: what is under way ends in what the node
   stands for. A republish asks this only of a variable that has not been read.
   */
  predicate Resumes(w: World, name: string) {
    var up, down := Last(w.node.sent, name), Last(w.down, name);
    match Target(w.node, name)
    case Some(v) =>
      w.node.reporting
      || (CacheKnows(w.node, name)
          && if up.Some? then up.value == v else HubHolds(w, name, v) || HubIsNotifying(w, name))
    case None =>
      && up.None? && (down.Some? ==> HubIsNotifying(w, name))
      && (down.None? && !w.node.reporting && name in w.node.published ==>
            HubHolds(w, name, w.node.published[name].value))
  }

  /** The identity a login asks for can become active. */
  predicate Whole(w: World, e: Event) {
    match e
    case Login(nodeId, hubId, _) => nodeId != 0 && hubId != 0
    case Register(nodeId, hubId, _) => nodeId != 0 && hubId != 0
    case Relogin(hubId) => w.node.auth.nodeId != 0 && hubId != 0
    case _ => true
  }

  /** Clearing the cache, where the event does, loses nothing known of the variable. */
  predicate Forgettable(w: World, e: Event, name: string) {
    e.Register? || !w.node.reporting || Target(w.node, name).None?
  }

  /** The event leaves `name` as it should be; said of the state before it. */
  predicate Harmless(w: World, e: Event, name: string) {
    !LeavesBehind(w, e)
    || match e
       case Login(_, _, hub) => if Whole(w, e) then Speaks(w.node, hub, name) else Forgettable(w, e, name)
       case Register(_, _, hub) => if Whole(w, e) then Speaks(w.node, hub, name) else Forgettable(w, e, name)
       case Relogin(_) => if Whole(w, e) then Resumes(w, name) else Forgettable(w, e, name)
       case Defaults(_, d) => !ShowsNoBattery(w.node, name) || d == w.node.cfg.noBattery
       case _ => true
  }

  lemma {:induction false} SilentIsHarmless(w: World, e: Event, name: string)
    requires WellFormed(w) && (e.Login? || e.Register?) && Silent(w, e) && Owned(w.node, name)
    ensures Kept(Move(w, e), name) <==> Speaks(w.node, Move(w, e).hub, name)
  {
    hide TrimSpace, Target, ConfigOk, ValidVarName, Owned, Kept, Bound;
    var t := Move(w, e);
    assert t.node == w.node.(auth := t.node.auth, sent := []);
    SameTarget(w.node, t.node, name);
    QuietIsKept(t, name);
  }

  lemma {:induction false} DefaultsAreHarmless(w: World, v: string, d: string, name: string)
    requires WellFormed(w) && Enabled(w, Defaults(v, d)) && LeavesBehind(w, Defaults(v, d)) && Kept(w, name)
    ensures Kept(Move(w, Defaults(v, d)), name) <==> !ShowsNoBattery(w.node, name) || d == w.node.cfg.noBattery
  {
    hide TrimSpace, Target, ConfigOk, ValidVarName, Kept, Bound, Clean;
    ChangedTarget(w, v, d, name);
    TargetDecides(w, Move(w, Defaults(v, d)), name);
  }

  /** A login on a session that is still up after a failed one, exactly. */
  lemma {:induction false} LateReloginKeeps(w: World, hubId: nat, name: string)
    requires WellFormed(w) && Owned(w.node, name) && !Active(w.node.auth) && w.node.auth.nodeId != 0 && hubId != 0
    ensures Kept(Move(w, Relogin(hubId)), name) <==> Resumes(w, name)
  {
    hide TrimSpace, Bound, ValidVarName, Target, Last, Owned, LoggedIn, ConfigOk, Convergent, Resumes, Republish;
    var nodeId := w.node.auth.nodeId;
    var t := Move(w, Relogin(hubId));
    LoginRepublishes(w.node, nodeId, hubId);
    if !w.node.reporting {
      SameTarget(w.node, t.node, name);
      QuietlyResumed(w, t, name);
    } else if Target(w.node, name).Some? {
      IdentityIsAside(w, hubId);
      LoginConverges(w, nodeId, hubId, name);
      ConvergentIsKept(t, name);
      ReportingResumes(w, name);
    } else {
      var cleared := w.(node := Cleared(w.node, nodeId, hubId));
      IdentityIsAside(w, hubId);
      assert WellFormed(cleared);
      SameTarget(w.node, cleared.node, name);
      SameOwned(w.node, cleared.node, name);
      UnreadIsUntouched(cleared, name);
      RepublishKeepsRest(cleared.node);
      UnreadResumes(w, cleared, t, name);
    }
  }

  lemma {:induction false} QuietlyResumed(w: World, t: World, name: string)
    requires !w.node.reporting && t.node == w.node.(auth := t.node.auth) && t.hub == w.hub && t.down == w.down
    requires Active(t.node.auth) && Target(t.node, name) == Target(w.node, name)
    requires SentOk(w.node.sent, w.node.auth.nodeId)
    ensures Kept(t, name) <==> Resumes(w, name)
  {
    hide TrimSpace, Target, Last, ValidVarName;
    LastIsClean(w.node.sent, w.node.auth.nodeId, name);
  }

  lemma {:induction false} ReportingResumes(w: World, name: string)
    requires w.node.reporting && Target(w.node, name).Some?
    ensures Resumes(w, name)
  {
    hide Target, Last;
  }

  lemma {:induction false} UnreadResumes(w: World, cleared: World, t: World, name: string)
    requires w.node.reporting && Target(w.node, name).None? && Target(t.node, name).None?
    requires cleared == w.(node := cleared.node)
    requires cleared.node == w.node.(auth := cleared.node.auth, published := map[])
    requires Untouched(cleared.node, t.node, name) && t.hub == w.hub && t.down == w.down && Active(t.node.auth)
    ensures Kept(t, name) <==> Resumes(w, name)
  {
    hide Target, Last, TrimSpace;
  }

  /** A republish leaves a variable alone that has not been read. */
  lemma {:induction false} UnreadIsUntouched(w: World, name: string)
    requires WellFormed(w) && Owned(w.node, name) && Target(w.node, name).None?
    ensures Untouched(w.node, Republish(w.node), name) && Target(Republish(w.node), name).None?
  {
    hide TrimSpace, Bound, Last, ValidVarName, Transform, VisibilityOf, PublishEach, Refresh, KnownValue;
    var n := w.node;
    RepublishKeepsRest(n);
    SameTarget(n, Republish(n), name);
    if n.reporting && Active(n.auth) {
      RefreshPlan(n.cfg.bindings, n, name);
      EachMarks(n, Refresh(n.cfg.bindings, n.metrics, n.cfg), n.cfg.visibility, name, "");
    }
  }

  lemma {:induction false} PartialIsHarmless(w: World, e: Event, name: string)
    requires e.Login? || e.Register? || e.Relogin?
    requires LeavesBehind(w, e) && !Whole(w, e) && CacheKnows(w.node, name)
    ensures Kept(Move(w, e), name) <==> Forgettable(w, e, name)
  {
    hide TrimSpace, Bound, Last, Transform, PublishEach, Refresh, VisibilityOf;
    SameTarget(w.node, Move(w, e).node, name);
  }

  /** The condition is exact. */
  lemma {:induction false} HarmlessExactly(w: World, e: Event, name: string)
    requires WellFormed(w) && Enabled(w, e) && Owned(w.node, name) && Kept(w, name)
    ensures Kept(Move(w, e), name) <==> Harmless(w, e, name)
  {
    hide WellFormed, Owned, Move, Speaks, Resumes, ShowsNoBattery, Enabled, Forgettable, Convergent, CacheKnows;
    if !LeavesBehind(w, e) {
      MoveKeeps(w, e, name);
    } else if !Whole(w, e) {
      PartialIsHarmless(w, e, name);
    } else {
      match e
      case Relogin(hubId) => LateReloginKeeps(w, hubId, name);
      case Defaults(v, d) => DefaultsAreHarmless(w, v, d, name);
      case _ =>
        SilentIsHarmless(w, e, name);
        NewHub(w, e);
    }
  }

  lemma NewHub(w: World, e: Event)
    requires e.Login? || e.Register?
    ensures Move(w, e).hub == e.hub
  {
    hide LoggedIn;
  }

  /** The event sends the variable's value again, whatever was lost. */
  predicate Repairs(w: World, e: Event, name: string) {
    Republishes(w, e) && (e.Login? || Target(w.node, name).Some?)
  }

  lemma {:induction false} RepairedIsKept(w: World, e: Event, name: string)
    requires WellFormed(w) && Repairs(w, e, name) && Owned(w.node, name)
    ensures Kept(Move(w, e), name)
  {
    hide TrimSpace, Bound, ValidVarName, Target, Owned, LoggedIn, ConfigOk, Convergent;
    if e.Login? {
      LoginKeeps(w, e.nodeId, e.hubId, e.hub, name);
    } else {
      IdentityIsAside(w, e.hubId);
      LoginConverges(w, w.node.auth.nodeId, e.hubId, name);
      ConvergentIsKept(Move(w, e), name);
    }
  }

  /** No event of `es`, from `w` on, does `name` harm. */
  predicate HarmlessAlong(w: World, es: seq<Event>, name: string)
    requires Legal(w, es)
  {
    es == []
    || (HarmlessAlong(w, es[..|es| - 1], name) && Harmless(Run(w, es[..|es| - 1]), es[|es| - 1], name))
  }

  lemma {:induction false} StepIsWellFormed(w: World, e: Event, name: string)
    requires WellFormed(w) && Enabled(w, e)
    ensures WellFormed(Step(w, e))
    ensures Kept(Step(w, e), name) <==> Kept(Move(w, e), name)
    ensures Owned(Step(w, e).node, name) <==> Owned(w.node, name)
  {
    hide Move, Kept, LeavesBehind, OwnedNames, Owned, Enabled, ConfigOk, ValidVarName;
    MoveIsWellFormed(w, e);
    IgnoresHistory(Move(w, e), Step(w, e).stale, name);
    SameBound(w.node, Move(w, e).node, name);
  }

  /**
   Convergence lasts: a variable the node has kept in some state stays kept over any
   further events that do it no harm, those that leave nothing behind among them.
   */
  lemma {:induction false} KeptAlong(w: World, es: seq<Event>, name: string)
    requires WellFormed(w) && Legal(w, es) && Owned(w.node, name) && Kept(w, name) && HarmlessAlong(w, es, name)
    ensures WellFormed(Run(w, es)) && Owned(Run(w, es).node, name) && Kept(Run(w, es), name)
  {
    hide WellFormed, Kept, Owned, Step, Harmless, Enabled;
    if es != [] {
      var before, e := Run(w, es[..|es| - 1]), es[|es| - 1];
      KeptAlong(w, es[..|es| - 1], name);
      HarmlessExactly(before, e, name);
      StepIsWellFormed(before, e, name);
    }
  }

  /** Since the last event that sent it again, no event has done `name` harm. */
  predicate Spared(w: World, es: seq<Event>, name: string)
    requires Legal(w, es)
  {
    es == []
    || (var before, e := Run(w, es[..|es| - 1]), es[|es| - 1];
        Repairs(before, e, name) || (Spared(w, es[..|es| - 1], name) && Harmless(before, e, name)))
  }

  lemma {:induction false} SparedIsKept(w: World, es: seq<Event>, name: string)
    requires Starts(w) && Legal(w, es)
    ensures WellFormed(Run(w, es))
    ensures Owned(Run(w, es).node, name) && Spared(w, es, name) ==> Kept(Run(w, es), name)
  {
    hide Starts, WellFormed, Kept, Owned, Step, Harmless, Enabled, Repairs;
    if es == [] {
      StartIsKept(w, name);
    } else {
      var before, e := Run(w, es[..|es| - 1]), es[|es| - 1];
      SparedIsKept(w, es[..|es| - 1], name);
      StepIsWellFormed(before, e, name);
      if Owned(before.node, name) && Spared(w, es, name) {
        if Repairs(before, e, name) {
          RepairedIsKept(before, e, name);
        } else {
          HarmlessExactly(before, e, name);
        }
      }
    }
  }

  lemma StartIsKept(w: World, name: string)
    requires Starts(w)
    ensures WellFormed(w) && (Owned(w.node, name) ==> Kept(w, name))
  {
    hide Starts, Kept, Owned, ConfigOk, ValidVarName;
    StartIsInv(w);
    NothingStale(w);
  }

  lemma NothingStale(w: World)
    requires Starts(w)
    ensures w.stale == {}
  {
    hide ConfigOk;
  }

  /**
   The failing case is reached by a run: read and sent, the session lost while not
   reporting, a login to a hub that lost the value, and the same reading again. It is
   suppressed, and with nothing under way the hub does not know the variable.
   */
  lemma {:induction false} SilentLoginRepairsNothing(w: World, metric: string, name: string, v: string)
    returns (es: seq<Event>)
    requires Starts(w) && w.node.dedupe && Alone(w.node.cfg, metric, name) && Clean(v)
    ensures Legal(w, es)
    ensures var t := Run(w, es);
            && Active(t.node.auth) && t.node.reporting && t.node.sent == [] && t.down == []
            && metric in t.node.metrics && t.node.metrics[metric] == v && name !in t.hub
  {
    hide TrimSpace, ValidVarName, ConfigOk, MetricUpdate, HandleNotify, Clean, Alone, Run;
    es := FirstReading(w, metric, name, v);
    var n := Reporting(w.node, metric, name, v);
    var m := n.sent[0];
    es := Then(w, es, DeliverUp(false));
    n := n.(sent := []);
    assert Bare(Run(w, es)) == World(n, Store(map[], m), [], {});
    es := Then(w, es, SetReporting(false));
    es := Then(w, es, Lose);
    assert Bare(Run(w, es)) == World(n.(reporting := false, auth := Auth(false, 1, 1)), Store(map[], m), [], {});
    es := Then(w, es, Login(1, 1, map[]));
    assert Bare(Run(w, es)) == World(n.(reporting := false), map[], [], {});
    es := Then(w, es, SetReporting(true));
    assert Bare(Run(w, es)) == World(n, map[], [], {});
    es := Then(w, es, Reading(metric, v));
    AloneReads(n, metric, name, v);
  }
}
