/**
 Variables others may write: when the hub ends with what the metric was last read
 as. A reading decides it, unless the cache says the same already and suppresses it.
 */
module ReplicationSettling {
  import opened Wrappers
  import opened Text
  import opened Metrics
  import opened Config
  import opened Replication
  import opened ReplicationFacts
  import opened ReplicationAsync
  import opened ReplicationEffects
  import opened ReplicationResults
  import opened ReplicationTraces
  import opened ReplicationWritable

  /** The event is a reading of the metric `name` is bound to. */
  predicate Takes(n: Node, e: Event, name: string) {
    e.Reading? && !Blank(e.metric) && !Blank(e.value) && Binds(n.cfg.bindings, TrimSpace(e.metric), name)
  }

  /** What the reading shows as. */
  function ShownBy(n: Node, e: Event): string
    requires e.Reading?
  {
    Shown(n.cfg, TrimSpace(e.metric), TrimSpace(e.value))
  }

  /** The cache would suppress a publish of `v`. */
  predicate Suppresses(n: Node, name: string, v: string) {
    Holds(n, name, Published(v, n.cfg.visibility))
  }

  /** Once everything sent has arrived, the hub will read `v`. */
  predicate HubEndsAt(w: World, name: string, v: string) {
    HubEnds(w, name).Some? && TrimSpace(HubEnds(w, name).value.value) == v
  }

  /** Where a reading leads: the hub will end with it, unless it is suppressed and so changes nothing. */
  lemma {:induction false} ReadingEnds(w: World, e: Event, name: string)
    requires WellFormed(w) && Active(w.node.auth) && w.node.reporting && w.node.dedupe && Takes(w.node, e, name)
    ensures var v, t := ShownBy(w.node, e), Move(w, e);
            && Clean(v) && Target(t.node, name) == Some(v)
            && HubEnds(t, name) == if Suppresses(w.node, name, v) then HubEnds(w, name)
                                   else Some(Published(v, w.node.cfg.visibility))
  {
    hide TrimLeft, TrimRight, Bound, About, ValidVarName, KnownValue, ConfigOk, Target, MetricUpdate;
    var n, m, raw := w.node, TrimSpace(e.metric), TrimSpace(e.value);
    DefaultsAreClean(n.cfg);
    ReadingIsPublished(w, e.metric, e.value, name);
    ReadIsListed(n.cfg, m, name);
    ReadingTarget(w, m, raw, name);
    SameTarget(n.(metrics := n.metrics[m := raw]), Move(w, e).node, name);
  }

  lemma {:induction false} ReadIsListed(cfg: PublishConfig, metric: string, name: string)
    requires ConfigOk(cfg) && Binds(cfg.bindings, metric, name)
    ensures ValidVarName(name) && Bound(cfg, name).Some?
  {
    hide TrimSpace, Bound, ValidVarName;
    var i :| 0 <= i < |cfg.bindings| && cfg.bindings[i] == Binding(metric, name);
    assert cfg.bindings[i].varName == name;
  }

  /** Deliveries alone: the hub ends where it was going, and the node's value stays. */
  lemma {:induction false} DrainedReadsEnd(w: World, rest: seq<Event>, name: string, echo: bool, v: string)
    requires WellFormed(w) && Active(w.node.auth) && Free(w.node, name) && Drains(w, rest, echo)
    ensures var t := Run(w, rest);
            (HubHolds(t, name, v) <==> HubEndsAt(w, name, v)) && Target(t.node, name) == Target(w.node, name)
  {
    hide TrimSpace, Bound, ValidVarName, Protected, Run, Legal, WellFormed, LastSet, Target;
    DeliveriesKeepEnds(w, rest, name, echo);
    DeliveriesKeepTarget(w, rest, name, echo);
    NothingIsLast(name);
  }

  lemma {:induction false} DeliveriesKeepTarget(w: World, rest: seq<Event>, name: string, echo: bool)
    requires WellFormed(w) && Legal(w, rest) && forall i :: 0 <= i < |rest| ==> DeliveryBy(rest[i], echo)
    ensures WellFormed(Run(w, rest)) && Target(Run(w, rest).node, name) == Target(w.node, name)
  {
    hide WellFormed, Move, Target, Kept, OwnedNames, LeavesBehind, Enabled;
    if rest != [] {
      var before, e := Run(w, rest[..|rest| - 1]), rest[|rest| - 1];
      DeliveriesKeepTarget(w, rest[..|rest| - 1], name, echo);
      DeliveryKeepsTarget(before, e, name);
      MoveIsWellFormed(before, e);
      HistoryIsIrrelevant(Move(before, e), Run(w, rest).stale);
    }
  }

  lemma {:induction false} DeliveryKeepsTarget(w: World, e: Event, name: string)
    requires WellFormed(w) && Enabled(w, e) && Delivery(e)
    ensures Target(Move(w, e).node, name) == Target(w.node, name)
  {
    hide TrimSpace, Target, HandleNotify, ConfigOk, ValidVarName;
    if e.DeliverDown? {
      HandleTouchesOnly(w, w.down[0], name);
    }
    SameTarget(w.node, Move(w, e).node, name);
  }

  /**
   When the hub ends with the metric, exactly. From any reachable state of a reporting
   node, whatever is under way, let the metric of a variable others may write be read and
   everything then arrive: the hub ends with the reading if and only if the cache did not
   suppress it, or the hub was going to read the same anyway.
   */
  lemma {:induction false} ReadingSettlesExactly(w: World, es: seq<Event>, e: Event, rest: seq<Event>, name: string,
                                                 echo: bool)
    requires Starts(w) && w.node.dedupe && Legal(w, es)
    ensures var s := Run(w, es);
            && Active(s.node.auth) && s.node.reporting && Free(s.node, name) && Takes(s.node, e, name)
            && Drains(Step(s, e), rest, echo) ==>
              var v, t := ShownBy(s.node, e), Run(Step(s, e), rest);
              && Target(t.node, name) == Some(v)
              && (HubHolds(t, name, v) <==> !Suppresses(s.node, name, v) || HubEndsAt(s, name, v))
  {
    hide Starts, Run, Legal, Inv, WellFormed, Free, Active, HubHolds, HubEnds, Target, Step, Drains, Suppresses,
         ShownBy, Takes, TrimSpace;
    InvHolds(w, es);
    InvIsWellFormed(Run(w, es));
    var s := Run(w, es);
    ReadIsReading(s.node, e, name);
    if Active(s.node.auth) && s.node.reporting && Free(s.node, name) && Takes(s.node, e, name)
       && Drains(Step(s, e), rest, echo) {
      var v := ShownBy(s.node, e);
      DedupeStays(w, es);
      ReadingEnds(s, e, name);
      ReadStep(s, e, name);
      DrainedReadsEnd(Step(s, e), rest, name, echo, v);
    }
  }

  lemma ReadIsReading(n: Node, e: Event, name: string)
    ensures Takes(n, e, name) ==> e.Reading?
  {
    hide TrimSpace, Binds;
  }

  /** The node is the runtime's own in every state of a run. */
  lemma {:induction false} DedupeStays(w: World, es: seq<Event>)
    requires Starts(w) && Legal(w, es)
    ensures Run(w, es).node.dedupe == w.node.dedupe
  {
    hide Starts, WellFormed, Inv, Move, Kept, OwnedNames, LeavesBehind, Enabled;
    if es != [] {
      DedupeStays(w, es[..|es| - 1]);
      InvHolds(w, es[..|es| - 1]);
      InvIsWellFormed(Run(w, es[..|es| - 1]));
      MoveKeepsDedupe(Run(w, es[..|es| - 1]), es[|es| - 1]);
    }
  }

  lemma {:induction false} MoveKeepsDedupe(w: World, e: Event)
    requires WellFormed(w) && Enabled(w, e)
    ensures Move(w, e).node.dedupe == w.node.dedupe
  {
    hide TrimSpace, Transform, PublishEach, Matching, UpdateVisibility, HandleNotify, Republish, ConfigOk, ValidVarName;
    match e
    case Reading(_, _) =>
      var n, m, raw := w.node, TrimSpace(e.metric), TrimSpace(e.value);
      EachKeepsRest(n.(metrics := n.metrics[m := raw]), Matching(n.cfg.bindings, m, Transform(m, raw, n.cfg)),
                    UpdateVisibility(n.cfg));
    case DeliverDown => HandleTouchesOnly(w, w.down[0], "");
    case Defaults(v, d) => RepublishKeepsRest(w.node.(cfg := w.node.cfg.(visibility := v, noBattery := d)));
    case Login(nodeId, hubId, _) => RepublishKeepsRest(Cleared(w.node.(sent := []), nodeId, hubId));
    case Relogin(hubId) => RepublishKeepsRest(Cleared(w.node, w.node.auth.nodeId, hubId));
    case _ =>
  }

  lemma {:induction false} ReadStep(w: World, e: Event, name: string)
    requires WellFormed(w) && Takes(w.node, e, name)
    ensures var t := Step(w, e);
            && WellFormed(t) && t.node.auth == w.node.auth && (Free(t.node, name) <==> Free(w.node, name))
            && HubEnds(t, name) == HubEnds(Move(w, e), name) && t.node == Move(w, e).node
  {
    hide WellFormed, Move, Kept, OwnedNames, LeavesBehind, BindingByVarName, ValidVarName, TrimSpace, LastSet,
         Protected;
    MoveIsWellFormed(w, e);
    HistoryIsIrrelevant(Move(w, e), Step(w, e).stale);
    AuthStays(w, e);
  }

  lemma {:induction false} AuthStays(w: World, e: Event)
    requires WellFormed(w) && e.Reading?
    ensures Move(w, e).node.auth == w.node.auth
  {
    hide TrimSpace, Transform, PublishEach, Matching, UpdateVisibility;
    var n, m, raw := w.node, TrimSpace(e.metric), TrimSpace(e.value);
    EachKeepsRest(n.(metrics := n.metrics[m := raw]), Matching(n.cfg.bindings, m, Transform(m, raw, n.cfg)),
                  UpdateVisibility(n.cfg));
  }

  /** And with no further reading it ends with the node's value exactly if it was going there. */
  lemma {:induction false} UnreadSettlesExactly(w: World, es: seq<Event>, rest: seq<Event>, name: string, echo: bool)
    requires Starts(w) && Legal(w, es)
    ensures var s := Run(w, es);
            && Active(s.node.auth) && Free(s.node, name) && Target(s.node, name).Some? && Drains(s, rest, echo) ==>
              var v, t := Target(s.node, name).value, Run(s, rest);
              Target(t.node, name) == Some(v) && (HubHolds(t, name, v) <==> HubEndsAt(s, name, v))
  {
    hide Starts, Run, Legal, Inv, WellFormed, Free, Active, HubHolds, HubEnds, Target, Drains, TrimSpace;
    InvHolds(w, es);
    InvIsWellFormed(Run(w, es));
    var s := Run(w, es);
    if Active(s.node.auth) && Free(s.node, name) && Target(s.node, name).Some? && Drains(s, rest, echo) {
      DrainedReadsEnd(s, rest, name, echo, Target(s.node, name).value);
    }
  }

  /**
   So where nothing of the variable has ever crossed, a reading made with nothing of it
   under way always settles: the hub ends with it.
   */
  lemma {:induction false} UncrossedReadingSettles(w: World, es: seq<Event>, e: Event, rest: seq<Event>, name: string,
                                                   echo: bool)
    requires Starts(w) && w.node.dedupe && Legal(w, es) && Untroubled(w, es, name)
    ensures var s := Run(w, es);
            && Active(s.node.auth) && s.node.reporting && Free(s.node, name) && Takes(s.node, e, name)
            && LastSet(s.node.sent, name).None? && LastSet(s.down, name).None? && Drains(Step(s, e), rest, echo) ==>
              HubHolds(Run(Step(s, e), rest), name, ShownBy(s.node, e))
  {
    hide Starts, Run, Legal, Inv, WellFormed, Active, Target, Step, Drains, Untroubled, ShownBy, Takes, TrimSpace,
         LastSet, Bound, ValidVarName, Owned;
    ReadingSettlesExactly(w, es, e, rest, name, echo);
    ListedFromStart(w, es, name);
    if Listed(w.node, name) {
      UncrossedAgrees(w, es, name);
    }
  }

  lemma {:induction false} ListedFromStart(w: World, es: seq<Event>, name: string)
    requires Starts(w) && Legal(w, es)
    ensures Listed(Run(w, es).node, name) <==> Listed(w.node, name)
  {
    hide Starts, Inv, WellFormed, Listed, Move, Kept, OwnedNames, LeavesBehind, Enabled;
    if es != [] {
      var before, e := Run(w, es[..|es| - 1]), es[|es| - 1];
      ListedFromStart(w, es[..|es| - 1], name);
      InvHolds(w, es[..|es| - 1]);
      InvIsWellFormed(before);
      ListedStays(before, e, name);
    }
  }

  // ------------------------------------------------------------- runs that do not settle

  /**
   A run that does not settle: a foreign write reaches the hub just before the node's
   set, the node acts on the notification and reads the new value back, and the reading
   is suppressed. Nothing is under way, and the hub keeps the old reading.
   */
  lemma {:induction false} WritableMayDiverge(w: World, name: string, reading: string, write: string)
    returns (es: seq<Event>)
    requires Starts(w) && w.node.dedupe && Alone(w.node.cfg, VOLUME_PERCENT, name)
    requires Bound(w.node.cfg, name) == Some(VarBinding(VOLUME_PERCENT, true))
    requires Clean(reading) && Clean(write) && reading != write
    ensures Legal(w, es)
    ensures var t := Run(w, es);
            && Active(t.node.auth) && t.node.reporting && t.node.sent == [] && t.down == []
            && VOLUME_PERCENT in t.node.metrics && t.node.metrics[VOLUME_PERCENT] == write
            && name in t.hub && t.hub[name].value == reading
  {
    hide TrimSpace, ValidVarName, ConfigOk, MetricUpdate, HandleNotify, Clean, Alone, Run, Bound;
    es := FirstReading(w, VOLUME_PERCENT, name, reading);
    var n := Reporting(w.node, VOLUME_PERCENT, name, reading);
    var m, own := Msg(name, write, w.node.cfg.visibility, 0), n.sent[0];
    assert Enabled(World(n, map[], [], {}), Foreign(m)) by { ForeignIsEnabled(w.node.cfg, n, m); }
    es := Then(w, es, Foreign(m));
    assert [] + [m] == [m];
    assert Bare(Run(w, es)) == World(n, Store(map[], m), [m], {});
    es := Then(w, es, DeliverUp(false));
    var hub := Store(Store(map[], m), own);
    assert Bare(Run(w, es)) == World(n.(sent := []), hub, [m], {});
    es := Then(w, es, DeliverDown);
    ActsOnWrite(n.(sent := []), m);
    var after := HandleNotify(n.(sent := []), m);
    assert Bare(Run(w, es)) == World(after, hub, [], {});
    es := Then(w, es, Reading(VOLUME_PERCENT, write));
    DefaultVisibilityIsStable(n.cfg) by { AloneIsOk(n.cfg, name); }
    AloneReads(after, VOLUME_PERCENT, name, write);
  }

  /**
   And one in which nothing crosses: a foreign write that reaches an idle hub stands
   there, against the last reading, until the metric is read again.
   */
  lemma {:induction false} WriteStandsUntilRead(w: World, name: string, reading: string, write: string)
    returns (es: seq<Event>)
    requires Starts(w) && w.node.dedupe && Alone(w.node.cfg, VOLUME_PERCENT, name)
    requires Bound(w.node.cfg, name) == Some(VarBinding(VOLUME_PERCENT, true))
    requires Clean(reading) && Clean(write) && reading != write
    ensures Legal(w, es)
    ensures var t := Run(w, es);
            && Active(t.node.auth) && t.node.reporting && t.node.sent == [] && t.down == []
            && VOLUME_PERCENT in t.node.metrics && t.node.metrics[VOLUME_PERCENT] == reading
            && name in t.hub && t.hub[name].value == write
  {
    hide TrimSpace, ValidVarName, ConfigOk, MetricUpdate, HandleNotify, Clean, Alone, Run, Bound;
    es := FirstReading(w, VOLUME_PERCENT, name, reading);
    var n := Reporting(w.node, VOLUME_PERCENT, name, reading);
    var m, hub := Msg(name, write, w.node.cfg.visibility, 0), Store(map[], n.sent[0]);
    es := Then(w, es, DeliverUp(false));
    n := n.(sent := []);
    assert Bare(Run(w, es)) == World(n, hub, [], {});
    assert Enabled(World(n, hub, [], {}), Foreign(m)) by { ForeignIsEnabled(w.node.cfg, n, m); }
    es := Then(w, es, Foreign(m));
    assert [] + [m] == [m];
    assert Bare(Run(w, es)) == World(n, Store(hub, m), [m], {});
    es := Then(w, es, DeliverDown);
    ActsOnWrite(n, m);
  }

  lemma AloneIsOk(cfg: PublishConfig, name: string)
    requires Alone(cfg, VOLUME_PERCENT, name)
    ensures ConfigOk(cfg)
  {
    hide ConfigOk, TrimSpace, ValidVarName;
  }

  lemma ForeignIsEnabled(cfg: PublishConfig, n: Node, m: Msg)
    requires Alone(cfg, VOLUME_PERCENT, m.name) && Clean(m.value) && m.owner == 0
    ensures Enabled(World(n, map[], [], {}), Foreign(m))
  {
    hide ConfigOk, TrimSpace, ValidVarName;
  }

  lemma {:induction false} ActsOnWrite(n: Node, m: Msg)
    requires Active(n.auth) && Alone(n.cfg, VOLUME_PERCENT, m.name) && Clean(m.value) && m.owner == 0
    requires Bound(n.cfg, m.name) == Some(VarBinding(VOLUME_PERCENT, true))
    ensures var after := HandleNotify(n, m);
            after == n.(published := n.published[m.name := Published(m.value, VisibilityOf(m.visibility))],
                        pending := after.pending)
  {
    hide TrimLeft, TrimRight, Bound, VisibilityOf, ControlValue, ConfigOk;
    ValidNameIsTrimmed(m.name);
  }
}
