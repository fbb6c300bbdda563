/**
 Variables of every kind, those others may write included: when the cache and the
 hub agree. They do as long as no set and no notification cross on the way; where two
 cross, the hub ends with the set and the cache with the notification.
 */
module ReplicationWritable {
  import opened Wrappers
  import opened Text
  import opened Metrics
  import opened Config
  import opened Replication
  import opened ReplicationFacts
  import opened ReplicationAsync
  import opened ReplicationEffects
  import opened ReplicationResults
  import Traces = ReplicationTraces

  /** A variable of the node, whoever may write it. */
  predicate Listed(n: Node, name: string) {
    ValidVarName(name) && Bound(n.cfg, name).Some?
  }

  /** A set of the variable is on its way up while a notification of it is on its way down. */
  predicate Crossing(w: World, name: string) {
    LastSet(w.node.sent, name).Some? && LastSet(w.down, name).Some?
  }

  /** The hub's entry reads as `p`. */
  predicate HubSays(w: World, name: string, p: Published) {
    name in w.hub && Read(w.hub[name]) == p
  }

  /** A set as the node sends it. */
  predicate Proper(p: Published) {
    Clean(p.value) && Read(p) == p
  }

  /** What is under way is known: a set has a reading behind it, a last notification the hub's entry. */
  predicate Tracked(w: World, name: string) {
    var up := LastSet(w.node.sent, name);
    && (up.Some? ==> Target(w.node, name).Some? && Proper(up.value))
    && (up.None? && LastSet(w.down, name).Some? ==> name in w.hub && LastSet(w.down, name) == Some(w.hub[name]))
  }

  /**
   And the cache says what is on its way up or, with nothing under way, what the hub
   holds: value and visibility.
   */
  predicate Agreeing(w: World, name: string) {
    var up, known := LastSet(w.node.sent, name), name in w.node.published;
    && Tracked(w, name)
    && (up.Some? ==> known && w.node.published[name] == up.value)
    && (up.None? && LastSet(w.down, name).None? && known ==> HubSays(w, name, w.node.published[name]))
  }

  predicate Follows(w: World, name: string) {
    Tracked(w, name) && (Active(w.node.auth) ==> Agreeing(w, name))
  }

  // ------------------------------------------------------------ publishing one variable

  /** A handler either leaves the variable as it was, or sends the value it stands for. */
  predicate Told(n: Node, after: Node, name: string) {
    && (Target(n, name).Some? ==> Target(after, name).Some?)
    && (|| Untouched(n, after, name)
        || (&& name in after.published && Target(after, name) == Some(after.published[name].value)
            && LastSet(after.sent, name) == Some(after.published[name]) && Proper(after.published[name])))
  }

  lemma {:induction false} TellingFollows(w: World, t: World, name: string)
    requires Told(w.node, t.node, name) && t.hub == w.hub && t.down == w.down && t.node.auth == w.node.auth
    requires Follows(w, name)
    ensures Follows(t, name)
  {
    hide TrimSpace, Target, LastSet;
  }

  lemma {:induction false} MarkedIsTold(n: Node, after: Node, name: string, value: string, vis: string)
    requires Marked(n, after, name, value, vis) && Proper(Published(value, vis))
    requires Target(after, name) == Some(value)
    ensures Told(n, after, name)
  {
    hide TrimSpace, Target, LastSet;
  }

  lemma {:induction false} ReadingTells(w: World, metric: string, text: string, name: string)
    requires WellFormed(w) && Listed(w.node, name)
    ensures var after := MetricUpdate(w.node, metric, text);
            Told(w.node, after, name) && after.auth == w.node.auth
  {
    hide TrimLeft, TrimRight, Bound, LastSet, ValidVarName, Matching, PublishEach, KnownValue, Target, ConfigOk,
         VisibilityOf;
    var n, after := w.node, MetricUpdate(w.node, metric, text);
    var m, raw := TrimSpace(metric), TrimSpace(text);
    if m == "" || raw == "" || !n.reporting || !Active(n.auth) {
      return;
    }
    var value := Transform(m, raw, n.cfg);
    DefaultsAreClean(n.cfg);
    TransformIsClean(m, raw, n.cfg);
    var known := n.(metrics := n.metrics[m := raw]);
    var plan := Matching(n.cfg.bindings, m, value);
    PlanOfReading(w, m, value);
    EachMarks(known, plan, UpdateVisibility(n.cfg), name, value);
    ReadingTarget(w, m, raw, name);
    SameTarget(known, after, name);
    if Binds(n.cfg.bindings, m, name) {
      VisibilityIsStable(UpdateVisibility(n.cfg));
      MarkedIsTold(known, after, name, value, VisibilityOf(UpdateVisibility(n.cfg)));
    }
  }

  /** What a new reading makes of the value a variable stands for. */
  lemma {:induction false} ReadingTarget(w: World, metric: string, raw: string, name: string)
    requires WellFormed(w) && Listed(w.node, name) && Clean(raw)
    ensures var known := w.node.(metrics := w.node.metrics[metric := raw]);
            if Binds(w.node.cfg.bindings, metric, name)
            then Target(known, name) == Some(Transform(metric, raw, w.node.cfg))
            else Target(known, name) == Target(w.node, name)
  {
    hide TrimSpace, Bound, ValidVarName, Transform;
    var i := BoundIsListed(w.node.cfg, name);
    TransformIsClean(metric, raw, w.node.cfg);
    CleanIsNotBlank(Transform(metric, raw, w.node.cfg));
    NamedOnce(w.node.cfg, metric, name);
  }

  lemma {:induction false} RepublishTells(w: World, name: string)
    requires WellFormed(w) && Listed(w.node, name)
    ensures Told(w.node, Republish(w.node), name)
  {
    hide TrimSpace, Bound, LastSet, ValidVarName, Transform, VisibilityOf, PublishEach, Refresh, KnownValue, Target,
         ConfigOk;
    var n, after := w.node, Republish(w.node);
    RepublishKeepsRest(n);
    SameTarget(n, after, name);
    if n.reporting && Active(n.auth) {
      PlanOfRefresh(w, name);
      var plan := Refresh(n.cfg.bindings, n.metrics, n.cfg);
      var value := if Target(n, name).Some? then Target(n, name).value else "";
      EachMarks(n, plan, n.cfg.visibility, name, value);
      if Target(n, name).Some? {
        TargetIsClean(w, name);
        VisibilityIsStable(n.cfg.visibility);
        MarkedIsTold(n, after, name, value, VisibilityOf(n.cfg.visibility));
      }
    }
  }

  lemma {:induction false} PlanOfRefresh(w: World, name: string)
    requires WellFormed(w) && Listed(w.node, name)
    ensures var plan := Refresh(w.node.cfg.bindings, w.node.metrics, w.node.cfg);
            && PlanOk(plan)
            && (Target(w.node, name).Some? ==> PlansOnly(plan, name, Target(w.node, name).value))
            && (Plans(plan, name) <==> Target(w.node, name).Some?)
  {
    hide TrimSpace, Bound, ValidVarName, Target;
    RefreshPlan(w.node.cfg.bindings, w.node, name);
    var i := BoundIsListed(w.node.cfg, name);
    assert w.node.cfg.bindings[i].varName == name;
  }

  // -------------------------------------------------------------- the steps of a run

  lemma {:induction false} DefaultsFollow(w: World, v: string, d: string, name: string)
    requires WellFormed(w) && Enabled(w, Defaults(v, d)) && Listed(w.node, name) && Follows(w, name)
    ensures Follows(Move(w, Defaults(v, d)), name)
  {
    hide TrimSpace, BindingByVarName, LastSet, ValidVarName, Republish, Told, Target, ConfigOk;
    var changed := w.(node := w.node.(cfg := w.node.cfg.(visibility := v, noBattery := d)));
    DefaultsAreWellFormed(w, v, d);
    SameReadings(w, v, d, name);
    RepublishTells(changed, name);
    RepublishKeepsRest(changed.node);
    TellingFollows(changed, Move(w, Defaults(v, d)), name);
  }

  lemma {:induction false} SameReadings(w: World, v: string, d: string, name: string)
    requires WellFormed(w) && Clean(d)
    ensures var after := w.node.(cfg := w.node.cfg.(visibility := v, noBattery := d));
            && (Target(after, name).Some? <==> Target(w.node, name).Some?)
            && Bound(after.cfg, name) == Bound(w.node.cfg, name)
  {
    hide TrimLeft, TrimRight, BindingByVarName, ValidVarName;
    var cfg := w.node.cfg.(visibility := v, noBattery := d);
    assert Bound(cfg, name) == Bound(w.node.cfg, name);
  }

  lemma {:induction false} ForeignFollows(w: World, m: Msg, name: string)
    requires Enabled(w, Foreign(m)) && Follows(w, name) && !Crossing(Move(w, Foreign(m)), name)
    ensures Follows(Move(w, Foreign(m)), name)
  {
    hide TrimSpace, ValidVarName, Target, LastSet;
    LastSetAfterSend(w.down, m, name);
  }

  lemma {:induction false} DeliverUpFollows(w: World, echo: bool, name: string)
    requires WellFormed(w) && w.node.sent != [] && Follows(w, name) && !Crossing(w, name)
    requires !Crossing(Move(w, DeliverUp(echo)), name)
    ensures Follows(Move(w, DeliverUp(echo)), name)
  {
    hide TrimSpace, ValidVarName, Target, LastSet, ConfigOk;
    var t, m := Move(w, DeliverUp(echo)), w.node.sent[0];
    SameTarget(w.node, t.node, name);
    LastSetAfterReceive(w.node.sent, name);
    LastSetAfterSend(w.down, m, name);
    assert Clean(m.value);
  }

  /** A notification of any variable of the node: recorded, or answered with the node's own value. */
  predicate Heard(n: Node, after: Node, m: Msg) {
    && m.name in after.published
    && (|| (after.sent == n.sent && after.published[m.name] == Read(Published(m.value, m.visibility)))
        || (&& Target(n, m.name) == Some(after.published[m.name].value) && Proper(after.published[m.name])
            && LastSet(after.sent, m.name) == Some(after.published[m.name])))
  }

  /** A variable others may write is recorded and never answered. */
  lemma {:induction false} FreeIsShadowed(n: Node, m: Msg)
    requires Active(n.auth) && Listed(n, m.name) && !Owned(n, m.name) && !Blank(m.value)
    requires m.owner == 0 || m.owner == n.auth.nodeId
    ensures var after := HandleNotify(n, m);
            && after.sent == n.sent && m.name in after.published
            && after.published[m.name] == Read(Published(m.value, m.visibility))
  {
    hide TrimLeft, TrimRight, Bound, VisibilityOf, ControlValue, Correct;
    ValidNameIsTrimmed(m.name);
  }

  lemma {:induction false} ListedIsHeard(w: World, m: Msg)
    requires WellFormed(w) && Active(w.node.auth) && Listed(w.node, m.name) && !Blank(m.value)
    requires m.owner == 0 || m.owner == w.node.auth.nodeId
    ensures Heard(w.node, HandleNotify(w.node, m), m)
  {
    hide TrimSpace, Bound, HandleNotify, ConfigOk, ValidVarName, LastSet, Target, Protected, VisibilityOf;
    if Owned(w.node, m.name) {
      OwnedIsHeard(w, m);
    } else {
      FreeIsShadowed(w.node, m);
    }
  }

  lemma {:induction false} OwnedIsHeard(w: World, m: Msg)
    requires WellFormed(w) && Addressed(w.node, m) && Owned(w.node, m.name)
    ensures Heard(w.node, HandleNotify(w.node, m), m)
  {
    hide TrimSpace, Bound, HandleNotify, ConfigOk, ValidVarName, LastSet, Protected, VisibilityOf, Shown, Owned,
         KnownValue, Recorded;
    var n := w.node;
    OwnedIsRefused(n, m.name);
    var metric :| Refused(n, m.name, metric);
    RefusedIsAnswered(w, m, metric);
    KnownIsShown(w, metric);
    RecordedIs(m);
    Traces.DefaultVisibilityIsStable(n.cfg);
    if metric in n.metrics {
      LastSetAfterSend(n.sent, Msg(m.name, Shown(n.cfg, metric, n.metrics[metric]), n.cfg.visibility, n.auth.nodeId),
                       m.name);
    }
  }

  lemma {:induction false} DeliverDownFollows(w: World, name: string)
    requires WellFormed(w) && w.down != [] && Listed(w.node, name) && Follows(w, name) && !Crossing(w, name)
    ensures Follows(Move(w, DeliverDown), name)
  {
    hide TrimSpace, Bound, HandleNotify, ConfigOk, ValidVarName, Target, LastSet, Heard;
    var t, m := Move(w, DeliverDown), w.down[0];
    HandleTouchesOnly(w, m, name);
    SameTarget(w.node, t.node, name);
    LastSetAfterReceive(w.down, name);
    if !Active(w.node.auth) {
      IgnoredWhenInactive(w.node, m);
    } else if m.name == name {
      ListedIsHeard(w, m);
      if Target(w.node, name).Some? {
        TargetIsClean(w, name);
      }
      HeardFollows(w, t.node, name);
    }
  }

  lemma {:induction false} HeardFollows(w: World, after: Node, name: string)
    requires w.down != [] && w.down[0].name == name && Agreeing(w, name) && !Crossing(w, name)
    requires Heard(w.node, after, w.down[0]) && Target(after, name) == Target(w.node, name)
    requires Target(w.node, name).Some? ==> Clean(Target(w.node, name).value)
    ensures Agreeing(w.(node := after, down := w.down[1..]), name)
  {
    hide TrimSpace, Target, LastSet;
    LastSetAfterReceive(w.down, name);
  }

  // --------------------------------------------------------------------- logins

  predicate Opens(e: Event) {
    e.Login? || e.Register? || e.Relogin?
  }

  /** The cache speaks the truth about the hub, with nothing under way that says otherwise. */
  predicate Truthful(w: World, name: string) {
    && LastSet(w.node.sent, name).None? && LastSet(w.down, name).None?
    && (name in w.node.published ==> HubSays(w, name, w.node.published[name]))
  }

  /** A login or registration takes the cache over as it is. */
  predicate TakesOver(w: World, e: Event) {
    Opens(e) && !Republishes(w, e) && !(e.Relogin? && Active(w.node.auth))
  }

  lemma {:induction false} OpeningFollows(w: World, e: Event, name: string)
    requires WellFormed(w) && Opens(e) && Listed(w.node, name) && Follows(w, name)
    requires TakesOver(w, e) ==> Truthful(Move(w, e), name)
    ensures Follows(Move(w, e), name)
  {
    hide TrimSpace, Bound, ValidVarName, Target, LastSet, LoggedIn, ConfigOk, HubSays;
    if Republishes(w, e) {
      ForcedFollows(w, e, name);
    } else if TakesOver(w, e) {
      assert Follows(Move(w, e), name);
    } else {
      ReloginFollows(w, e.hubId, name);
    }
  }

  lemma {:induction false} ReloginFollows(w: World, hubId: nat, name: string)
    requires Follows(w, name) && Active(w.node.auth) && !Republishes(w, Relogin(hubId))
    ensures Follows(Move(w, Relogin(hubId)), name)
  {
    hide TrimSpace, Target, LastSet, LoggedIn;
    SilentRelogin(w, hubId);
    SameTarget(w.node, Move(w, Relogin(hubId)).node, name);
  }

  /**
   A login on a live session that republishes nothing changes the identity, and the cache only of an
   inactive node.
   */
  lemma SilentRelogin(w: World, hubId: nat)
    requires !Republishes(w, Relogin(hubId)) && Active(w.node.auth)
    ensures var after := Move(w, Relogin(hubId)).node;
            && after == w.node.(auth := after.auth, published := after.published)
            && (Active(after.auth) ==> after.published == w.node.published)
  {
    LoginRepublishes(w.node, w.node.auth.nodeId, hubId);
  }

  lemma {:induction false} ForcedFollows(w: World, e: Event, name: string)
    requires WellFormed(w) && Opens(e) && Republishes(w, e) && Listed(w.node, name) && Follows(w, name)
    ensures Follows(Move(w, e), name)
  {
    hide TrimSpace, Bound, ValidVarName, Target, LastSet, LoggedIn, ConfigOk, Republish, Told;
    var n := if e.Login? then Cleared(w.node.(sent := []), e.nodeId, e.hubId)
             else Cleared(w.node, w.node.auth.nodeId, e.hubId);
    var t := Move(w, e);
    LoginRepublishes(if e.Login? then w.node.(sent := []) else w.node, n.auth.nodeId, n.auth.hubId);
    var begun := t.(node := n);
    assert WellFormed(begun) by { ClearedIsWellFormed(w, begun); }
    SameTarget(w.node, n, name);
    RepublishKeepsRest(n);
    NothingIsLast(name);
    RepublishTells(begun, name);
    if Target(n, name).Some? {
      RepublishSays(begun, name);
      SameTarget(n, t.node, name);
    } else {
      TellingFollows(begun, t, name);
    }
  }

  /** A republish from an empty cache says every known value. */
  lemma {:induction false} RepublishSays(w: World, name: string)
    requires WellFormed(w) && Active(w.node.auth) && w.node.reporting && w.node.published == map[]
    requires Listed(w.node, name) && Target(w.node, name).Some?
    ensures var after := Republish(w.node);
            && name in after.published && LastSet(after.sent, name) == Some(after.published[name])
            && Proper(after.published[name])
  {
    hide TrimSpace, Bound, LastSet, ValidVarName, Transform, VisibilityOf, PublishEach, Refresh, KnownValue, Target,
         ConfigOk;
    var n := w.node;
    PlanOfRefresh(w, name);
    TargetIsClean(w, name);
    VisibilityIsStable(n.cfg.visibility);
    EachMarks(n, Refresh(n.cfg.bindings, n.metrics, n.cfg), n.cfg.visibility, name, Target(n, name).value);
  }

  // ------------------------------------------------------------------------ runs

  /** The step of a run that an agreement on `name` survives. */
  predicate Smooth(w: World, e: Event, name: string)
    requires Enabled(w, e)
  {
    !Crossing(Move(w, e), name) && (TakesOver(w, e) ==> Truthful(Move(w, e), name))
  }

  lemma {:induction false} MoveFollows(w: World, e: Event, name: string)
    requires WellFormed(w) && Enabled(w, e) && Listed(w.node, name) && Follows(w, name) && !Crossing(w, name)
    requires Smooth(w, e, name)
    ensures Follows(Move(w, e), name)
  {
    hide TrimSpace, WellFormed, Listed, Follows, Crossing, HandleNotify, MetricUpdate, Republish, LoggedIn, Truthful,
         ValidVarName;
    match e
    case Reading(metric, value) =>
      ReadingTells(w, metric, value, name);
      TellingFollows(w, Move(w, e), name);
    case Foreign(m) => ForeignFollows(w, m, name);
    case DeliverUp(echo) => DeliverUpFollows(w, echo, name);
    case DeliverDown => DeliverDownFollows(w, name);
    case Defaults(v, d) => DefaultsFollow(w, v, d, name);
    case Lose => SwitchFollows(w, e, name);
    case LoginFails => SwitchFollows(w, e, name);
    case SetReporting(_) => SwitchFollows(w, e, name);
    case _ => OpeningFollows(w, e, name);
  }

  lemma {:induction false} SwitchFollows(w: World, e: Event, name: string)
    requires Enabled(w, e) && (e.Lose? || e.LoginFails? || e.SetReporting?) && Follows(w, name)
    ensures Follows(Move(w, e), name)
  {
    hide TrimSpace, Target;
    SameTarget(w.node, Move(w, e).node, name);
  }

  /**
   No set and notification of `name` ever cross, and a login that republishes nothing
   is made to a hub that holds what the cache says of it.
   */
  predicate Untroubled(w: World, es: seq<Event>, name: string)
    requires Legal(w, es)
  {
    es == []
    || (Untroubled(w, es[..|es| - 1], name) && Smooth(Run(w, es[..|es| - 1]), es[|es| - 1], name))
  }

  lemma {:induction false} ListedStays(w: World, e: Event, name: string)
    requires WellFormed(w) && Enabled(w, e)
    ensures Listed(Move(w, e).node, name) <==> Listed(w.node, name)
  {
    hide WellFormed, Move, BindingByVarName, ValidVarName;
    MoveIsWellFormed(w, e);
  }

  lemma {:induction false} HistoryIsAside(w: World, stale: set<string>, name: string)
    requires Follows(w, name) && !Crossing(w, name)
    ensures Follows(w.(stale := stale), name) && !Crossing(w.(stale := stale), name)
  {
    hide Target, TrimSpace, LastSet;
  }

  lemma {:induction false} FollowHolds(w: World, es: seq<Event>, name: string)
    requires Starts(w) && Legal(w, es) && Listed(w.node, name) && Untroubled(w, es, name)
    ensures var t := Run(w, es);
            WellFormed(t) && Listed(t.node, name) && Follows(t, name) && !Crossing(t, name)
  {
    hide WellFormed, Listed, Follows, Crossing, Move, Kept, Smooth, OwnedNames, LeavesBehind;
    InvHolds(w, es);
    InvIsWellFormed(Run(w, es));
    if es == [] {
      StartFollows(w, name);
    } else {
      var front, e := es[..|es| - 1], es[|es| - 1];
      var before := Run(w, front);
      FollowHolds(w, front, name);
      MoveFollows(before, e, name);
      ListedStays(before, e, name);
      assert !Crossing(Move(before, e), name) by { SmoothIsUncrossed(before, e, name); }
      HistoryIsAside(Move(before, e), Run(w, es).stale, name);
    }
  }

  lemma SmoothIsUncrossed(w: World, e: Event, name: string)
    requires Enabled(w, e) && Smooth(w, e, name)
    ensures !Crossing(Move(w, e), name)
  {
    hide Crossing, Move, Truthful, TakesOver;
  }

  lemma StartFollows(w: World, name: string)
    requires Starts(w)
    ensures Follows(w, name) && !Crossing(w, name)
  {
    hide ConfigOk, Target, TrimSpace;
  }

  /**
   In such a run, writable variables included, whenever nothing of a variable is under
   way the hub holds what the cache holds of it.
   */
  lemma {:induction false} UncrossedAgrees(w: World, es: seq<Event>, name: string)
    requires Starts(w) && Legal(w, es) && Listed(w.node, name) && Untroubled(w, es, name)
    ensures var t := Run(w, es);
            && Active(t.node.auth) && name in t.node.published
            && LastSet(t.node.sent, name).None? && LastSet(t.down, name).None? ==>
              HubSays(t, name, t.node.published[name])
  {
    hide Target, TrimSpace, LastSet, Bound, ValidVarName, HubSays;
    FollowHolds(w, es, name);
  }

  // ------------------------------------------------------------------- crossings

  /** A variable others may write: bound, and not the node's alone to set. */
  predicate Free(n: Node, name: string) {
    Listed(n, name) && !Owned(n, name)
  }

  /** What the hub will hold once everything sent has arrived. */
  function HubEnds(w: World, name: string): Option<Published> {
    if LastSet(w.node.sent, name).Some? then LastSet(w.node.sent, name)
    else if name in w.hub then Some(w.hub[name]) else None
  }

  /** What the cache will hold of a variable others may write once every notification has arrived. */
  function CacheEnds(w: World, name: string, echo: bool): Option<Published> {
    if echo && LastSet(w.node.sent, name).Some? then Some(Read(LastSet(w.node.sent, name).value))
    else if LastSet(w.down, name).Some? then Some(Read(LastSet(w.down, name).value))
    else if name in w.node.published then Some(w.node.published[name]) else None
  }

  /** A delivery, by a hub that echoes every set to its owner or none. */
  predicate DeliveryBy(e: Event, echo: bool) {
    e == DeliverUp(echo) || e == DeliverDown
  }

  lemma {:induction false} DeliveryKeepsEnds(w: World, e: Event, name: string, echo: bool)
    requires WellFormed(w) && Active(w.node.auth) && Free(w.node, name) && Enabled(w, e) && DeliveryBy(e, echo)
    ensures var t := Move(w, e);
            && HubEnds(t, name) == HubEnds(w, name) && CacheEnds(t, name, echo) == CacheEnds(w, name, echo)
            && t.node.auth == w.node.auth
  {
    hide TrimSpace, Bound, HandleNotify, ConfigOk, ValidVarName, LastSet, Protected;
    if e.DeliverUp? {
      assert Clean(w.node.sent[0].value);
      LastSetAfterReceive(w.node.sent, name);
      LastSetAfterSend(w.down, w.node.sent[0], name);
    } else {
      var m := w.down[0];
      LastSetAfterReceive(w.down, name);
      HandleTouchesOnly(w, m, name);
      if m.name == name {
        FreeIsShadowed(w.node, m);
      }
    }
  }

  lemma {:induction false} DeliveriesKeepEnds(w: World, es: seq<Event>, name: string, echo: bool)
    requires WellFormed(w) && Active(w.node.auth) && Free(w.node, name)
    requires Legal(w, es) && forall i :: 0 <= i < |es| ==> DeliveryBy(es[i], echo)
    ensures var t := Run(w, es);
            && WellFormed(t) && Active(t.node.auth) && Free(t.node, name)
            && HubEnds(t, name) == HubEnds(w, name) && CacheEnds(t, name, echo) == CacheEnds(w, name, echo)
  {
    hide WellFormed, Move, Kept, OwnedNames, LeavesBehind, LastSet, TrimSpace, Bound, ValidVarName, Protected, Enabled;
    if es != [] {
      var before, e := Run(w, es[..|es| - 1]), es[|es| - 1];
      DeliveriesKeepEnds(w, es[..|es| - 1], name, echo);
      DeliveryKeepsEnds(before, e, name, echo);
      MoveIsWellFormed(before, e);
      ListedStays(before, e, name);
      SameBound(before.node, Move(before, e).node, name);
      HistoryIsIrrelevant(Move(before, e), Run(w, es).stale);
    }
  }

  lemma HistoryIsIrrelevant(w: World, stale: set<string>)
    requires WellFormed(w)
    ensures WellFormed(w.(stale := stale))
  {
    hide ConfigOk, TrimSpace, ValidVarName;
  }

  lemma {:induction false} CrossingEnds(w: World, es: seq<Event>, name: string, echo: bool)
    requires WellFormed(w) && Active(w.node.auth) && Free(w.node, name) && Crossing(w, name)
    requires Legal(w, es) && forall i :: 0 <= i < |es| ==> DeliveryBy(es[i], echo)
    requires Run(w, es).node.sent == [] && Run(w, es).down == []
    ensures EndsExactly(w, Run(w, es), name, echo)
  {
    hide TrimSpace, Bound, ValidVarName, Protected, Run, ConfigOk, LastSet;
    DeliveriesKeepEnds(w, es, name, echo);
    NothingIsLast(name);
  }

  /** What a crossing in `w` has come to in `t`, and exactly when cache and hub agree there. */
  predicate EndsExactly(w: World, t: World, name: string, echo: bool)
    requires Crossing(w, name)
  {
    var sets, notice := LastSet(w.node.sent, name).value, LastSet(w.down, name).value;
    && name in t.hub && t.hub[name] == sets
    && name in t.node.published && t.node.published[name] == Read(if echo then sets else notice)
    && (HubSays(t, name, t.node.published[name]) <==> echo || Read(notice) == Read(sets))
  }

  /** Nothing but deliveries, by a hub that always or never echoes, until nothing is under way. */
  predicate Drains(w: World, es: seq<Event>, echo: bool) {
    && Legal(w, es) && (forall i :: 0 <= i < |es| ==> DeliveryBy(es[i], echo))
    && Run(w, es).node.sent == [] && Run(w, es).down == []
  }

  /**
   Where, in any reachable state, a set and a notification of a variable others may
   write cross, and everything then arrives with no further reading, in whatever order:
   the hub ends with the last set; the cache ends with it too when the hub echoes sets,
   and otherwise with the last notification. So the two agree if and only if the hub
   echoes or both say the same.
   */
  lemma {:induction false} CrossingAgreesExactly(w: World, es: seq<Event>, rest: seq<Event>, name: string, echo: bool)
    requires Starts(w) && Legal(w, es)
    ensures var s := Run(w, es);
            Active(s.node.auth) && Free(s.node, name) && Crossing(s, name) && Drains(s, rest, echo) ==>
              EndsExactly(s, Run(s, rest), name, echo)
  {
    hide Starts, Run, Legal, Inv, WellFormed, Free, Crossing, EndsExactly, Active;
    InvHolds(w, es);
    InvIsWellFormed(Run(w, es));
    var s := Run(w, es);
    if Active(s.node.auth) && Free(s.node, name) && Crossing(s, name) && Drains(s, rest, echo) {
      CrossingEnds(s, rest, name, echo);
    }
  }
}
