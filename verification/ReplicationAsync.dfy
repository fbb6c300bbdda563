/**
 Replication over a session: the node, the hub, and a first-in first-out channel
 each way. Foreign writes may reach the hub at any moment, and the hub may or may
 not notify the node of the node's own sets.
 */
module ReplicationAsync {
  import opened Wrappers
  import opened Text
  import opened Metrics
  import opened Config
  import opened Replication
  import opened ReplicationFacts

  /**
   `node.sent` is the channel to the hub, `down` the one back. `stale` is history:
   the variables a login or a change of defaults has left behind, because no
   republish followed it.
   */
  datatype World = World(node: Node, hub: map<string, Published>, down: seq<Msg>, stale: set<string>)

  datatype Event =
    | Reading(metric: string, value: string)
    | Foreign(write: Msg)
    | DeliverUp(echo: bool)
    | DeliverDown
    | Defaults(visibility: string, noBattery: string)
    | Lose                                                            // the session ends
    | Login(nodeId: nat, hubId: nat, hub: map<string, Published>)     // on a new session
    | Register(nodeId: nat, hubId: nat, hub: map<string, Published>)  // as a new node
    | Relogin(hubId: nat)                                             // on the session that is up
    | LoginFails
    | SetReporting(on: bool)

  /**
   What the environment may do: foreign writes name a variable, say something, and
   are addressed to the node; reporting starts only logged in.
   */
  predicate Enabled(w: World, e: Event) {
    match e
    case Foreign(m) => ValidVarName(m.name) && !Blank(m.value) && (m.owner == 0 || m.owner == w.node.auth.nodeId)
    case DeliverUp(_) => w.node.sent != []
    case DeliverDown => w.down != []
    case Defaults(v, b) => (v == PUBLIC || v == PRIVATE) && Clean(b)
    case SetReporting(on) => on ==> Active(w.node.auth)
    case _ => true
  }

  function Store(hub: map<string, Published>, m: Msg): map<string, Published> {
    hub[m.name := Published(m.value, m.visibility)]
  }

  /** What an event does to the node, the hub and the channels. */
  function Move(w: World, e: Event): World
    requires Enabled(w, e)
  {
    match e
    case Reading(metric, value) => w.(node := MetricUpdate(w.node, metric, value))
    case Foreign(m) => w.(hub := Store(w.hub, m), down := w.down + [m])
    case DeliverUp(echo) =>
      var m := w.node.sent[0];
      w.(node := w.node.(sent := w.node.sent[1..]), hub := Store(w.hub, m),
         down := if echo then w.down + [m] else w.down)
    case DeliverDown => w.(node := HandleNotify(w.node, w.down[0]), down := w.down[1..])
    case Defaults(v, b) => w.(node := Republish(w.node.(cfg := w.node.cfg.(visibility := v, noBattery := b))))
    case Lose => w.(node := w.node.(auth := w.node.auth.(loggedIn := false), sent := []), down := [])
    case Login(nodeId, hubId, hub) => World(LoggedIn(w.node.(sent := []), nodeId, hubId), hub, [], w.stale)
    case Register(nodeId, hubId, hub) =>
      World(w.node.(sent := [], auth := Auth(true, nodeId, hubId)), hub, [], w.stale)
    case Relogin(hubId) => w.(node := LoggedIn(w.node, w.node.auth.nodeId, hubId))
    case LoginFails => w.(node := w.node.(auth := w.node.auth.(loggedIn := false)))
    case SetReporting(on) => w.(node := w.node.(reporting := on))
  }

  /** The event asks for a republish that does not take place, so variables can be left behind. */
  predicate LeavesBehind(w: World, e: Event) {
    match e
    case Login(nodeId, hubId, _) => !(w.node.reporting && nodeId != 0 && hubId != 0)
    case Register(_, _, _) => true
    case Relogin(hubId) => !Active(w.node.auth) || hubId == 0
    case Defaults(_, _) => !(w.node.reporting && Active(w.node.auth))
    case _ => false
  }

  /** A login that republishes: on a new session or on the one that is up. */
  predicate Republishes(w: World, e: Event) {
    && w.node.reporting
    && match e
       case Login(nodeId, hubId, _) => nodeId != 0 && hubId != 0
       case Relogin(hubId) => w.node.auth.nodeId != 0 && hubId != 0
       case _ => false
  }

  /** The variables that are the node's alone to set. */
  function OwnedNames(n: Node): set<string> {
    set b | b in n.cfg.bindings && Owned(n, b.varName) :: b.varName
  }

  function StillBehind(w: World, names: set<string>): set<string> {
    set name | name in names && !Kept(w, name)
  }

  function Step(w: World, e: Event): World
    requires Enabled(w, e)
  {
    var t := Move(w, e);
    t.(stale := StillBehind(t, if LeavesBehind(w, e) then OwnedNames(t.node) else w.stale))
  }

  predicate Legal(w: World, es: seq<Event>)
    decreases |es|, 0
  {
    es == [] || (Legal(w, es[..|es| - 1]) && Enabled(Run(w, es[..|es| - 1]), es[|es| - 1]))
  }

  function Run(w: World, es: seq<Event>): World
    requires Legal(w, es)
    decreases |es|, 1
  {
    if es == [] then w else Step(Run(w, es[..|es| - 1]), es[|es| - 1])
  }

  // ------------------------------------------------------------------ invariant

  /** A variable whose value is the node's alone to set. */
  predicate Owned(n: Node, name: string) {
    ValidVarName(name) && Bound(n.cfg, name).Some? && Protected(Bound(n.cfg, name).value)
  }

  /** The value the node stands for, once the variable's metric has been read. */
  function Target(n: Node, name: string): Option<string> {
    match Bound(n.cfg, name) case None => None case Some(b) => KnownValue(n, b.metric)
  }

  predicate HubHolds(w: World, name: string, value: string) {
    name in w.hub && TrimSpace(w.hub[name].value) == value
  }

  /** The hub's value is the last one still on its way to the node. */
  predicate HubIsNotifying(w: World, name: string) {
    name in w.hub && Last(w.down, name) == Some(w.hub[name].value)
  }

  /**
   The cache says of `name` what its last set under way says; with none under way
   it says what the hub holds, or the hub's value is still coming back.
   */
  predicate Coherent(w: World, name: string) {
    var up, known := Last(w.node.sent, name), name in w.node.published;
    && (up.Some? ==> known && w.node.published[name].value == up.value && Clean(up.value))
    && (up.None? && known ==> HubHolds(w, name, w.node.published[name].value) || HubIsNotifying(w, name))
    && (up.None? && !known && Last(w.down, name).Some? ==> HubIsNotifying(w, name))
  }

  /** A variable with a known value: the cache holds that value. */
  predicate Convergent(w: World, name: string) {
    match Target(w.node, name)
    case Some(v) => Coherent(w, name) && name in w.node.published && w.node.published[name].value == v
    case None =>
      && Last(w.node.sent, name).None?
      && (Last(w.down, name).Some? ==> HubIsNotifying(w, name))
      && (Last(w.down, name).None? && name in w.node.published ==> HubHolds(w, name, w.node.published[name].value))
  }

  predicate NotesOk(down: seq<Msg>, nodeId: nat) {
    forall i :: 0 <= i < |down| ==>
      ValidVarName(down[i].name) && !Blank(down[i].value) && (down[i].owner == 0 || down[i].owner == nodeId)
  }

  ghost predicate WellFormed(w: World) {
    && ConfigOk(w.node.cfg)
    && (forall m :: m in w.node.metrics ==> Clean(w.node.metrics[m]))
    && SentOk(w.node.sent, w.node.auth.nodeId)
    && NotesOk(w.down, w.node.auth.nodeId)
  }

  /** The cache holds the value the node stands for. */
  predicate CacheKnows(n: Node, name: string) {
    match Target(n, name)
    case Some(v) => name in n.published && n.published[name].value == v
    case None => true
  }

  /** What the node keeps of each of its variables: convergent while it is logged in. */
  predicate Kept(w: World, name: string) {
    (Active(w.node.auth) ==> Convergent(w, name)) && CacheKnows(w.node, name)
  }

  ghost predicate Inv(w: World) {
    WellFormed(w) && forall name :: Owned(w.node, name) && name !in w.stale ==> Kept(w, name)
  }

  // ------------------------------------------------------------- publishing steps

  lemma {:induction false} TransformIsClean(metric: string, raw: string, cfg: PublishConfig)
    requires Clean(raw) && Clean(cfg.noBattery)
    ensures Clean(Transform(metric, raw, cfg))
  {
    hide TrimSpace;
  }

  lemma {:induction false} MarkedIsConvergent(w: World, after: World, name: string, value: string, vis: string)
    requires (Coherent(w, name) || name !in w.node.published) && Clean(value)
    requires Marked(w.node, after.node, name, value, vis) && after.hub == w.hub && after.down == w.down
    requires Target(after.node, name) == Some(value)
    ensures Convergent(after, name)
  {
    hide TrimSpace, Last, Target;
  }

  lemma {:induction false} UntouchedIsConvergent(w: World, after: World, name: string)
    requires Convergent(w, name) && Untouched(w.node, after.node, name)
    requires after.hub == w.hub && after.down == w.down
    requires Target(after.node, name) == Target(w.node, name)
    ensures Convergent(after, name)
  {
    hide TrimSpace, Last, Target;
  }

  lemma {:induction false} ConvergentIsCoherent(w: World, name: string)
    requires Convergent(w, name)
    ensures Coherent(w, name)
  {
    hide TrimSpace, Last, Target;
  }

  lemma {:induction false} BoundIsListed(cfg: PublishConfig, name: string) returns (i: nat)
    requires ConfigOk(cfg) && Bound(cfg, name).Some? && ValidVarName(name)
    ensures i < |cfg.bindings| && cfg.bindings[i] == Binding(Bound(cfg, name).value.metric, name)
  {
    hide TrimSpace, Bound;
    ValidNameIsTrimmed(name);
    var b := Binding(Bound(cfg, name).value.metric, name);
    assert b in cfg.bindings;
    i :| 0 <= i < |cfg.bindings| && cfg.bindings[i] == b;
  }

  predicate Binds(bindings: seq<Binding>, metric: string, name: string) {
    exists i :: 0 <= i < |bindings| && bindings[i] == Binding(metric, name)
  }

  lemma {:induction false} MatchingPlan(bindings: seq<Binding>, metric: string, value: string)
    requires forall i :: 0 <= i < |bindings| ==> ValidVarName(bindings[i].varName)
    requires Clean(value)
    ensures var plan := Matching(bindings, metric, value);
            && PlanOk(plan) && (forall i :: 0 <= i < |plan| ==> plan[i].value == value)
            && (forall name :: Plans(plan, name) <==> Binds(bindings, metric, name))
  {
    hide TrimSpace, ValidVarName;
    if bindings != [] {
      var n := |bindings| - 1;
      MatchingPlan(bindings[..n], metric, value);
      var before, plan := Matching(bindings[..n], metric, value), Matching(bindings, metric, value);
      forall name ensures Plans(plan, name) <==> Binds(bindings, metric, name) {
        if Plans(before, name) {
          var i :| 0 <= i < |before| && before[i].name == name;
          assert plan[i].name == name;
        }
        if Binds(bindings[..n], metric, name) {
          var i :| 0 <= i < n && bindings[..n][i] == Binding(metric, name);
          assert bindings[i] == Binding(metric, name);
        }
        if bindings[n] == Binding(metric, name) {
          assert plan[|plan| - 1].name == name;
        }
        if Plans(plan, name) && !Plans(before, name) {
          var i :| 0 <= i < |plan| && plan[i].name == name;
          assert i >= |before|;
        }
      }
    }
  }

  lemma DefaultsAreClean(cfg: PublishConfig)
    requires ConfigOk(cfg)
    ensures Clean(cfg.noBattery)
  {
    hide TrimSpace, Bound, ValidVarName;
  }

  lemma {:induction false} PlanOfReading(w: World, metric: string, value: string)
    requires WellFormed(w) && Clean(value)
    ensures var plan := Matching(w.node.cfg.bindings, metric, value);
            && PlanOk(plan) && (forall i :: 0 <= i < |plan| ==> plan[i].value == value)
            && (forall name :: Plans(plan, name) <==> Binds(w.node.cfg.bindings, metric, name))
  {
    hide TrimSpace, Bound, ValidVarName;
    MatchingPlan(w.node.cfg.bindings, metric, value);
  }

  /** A refresh plans every bound name whose metric has been read, with that metric's value. */
  lemma {:induction false} RefreshPlan(bindings: seq<Binding>, n: Node, name: string)
    requires Clean(n.cfg.noBattery) && forall m :: m in n.metrics ==> Clean(n.metrics[m])
    requires forall i :: 0 <= i < |bindings| ==>
      ValidVarName(bindings[i].varName) && Bound(n.cfg, bindings[i].varName).Some?
      && Bound(n.cfg, bindings[i].varName).value.metric == bindings[i].metric
    ensures var plan := Refresh(bindings, n.metrics, n.cfg);
            && PlanOk(plan)
            && (Target(n, name).Some? ==> PlansOnly(plan, name, Target(n, name).value))
            && (Plans(plan, name) <==>
                  Target(n, name).Some? && exists i :: 0 <= i < |bindings| && bindings[i].varName == name)
  {
    hide TrimSpace, ValidVarName, Bound, Transform;
    if bindings != [] {
      var k := |bindings| - 1;
      var b := bindings[k];
      RefreshPlan(bindings[..k], n, name);
      var before, plan := Refresh(bindings[..k], n.metrics, n.cfg), Refresh(bindings, n.metrics, n.cfg);
      if b.metric in n.metrics {
        TransformIsClean(b.metric, n.metrics[b.metric], n.cfg);
        CleanIsNotBlank(n.metrics[b.metric]);
        CleanIsNotBlank(Transform(b.metric, n.metrics[b.metric], n.cfg));
        assert plan == before + [Pub(b.varName, Transform(b.metric, n.metrics[b.metric], n.cfg))];
        assert KnownValue(n, b.metric) == Some(plan[|plan| - 1].value);
      }
      PlansPrefix(before, plan, name);
      if exists i :: 0 <= i < k && bindings[..k][i].varName == name {
        var i :| 0 <= i < k && bindings[..k][i].varName == name;
        assert bindings[i].varName == name;
      }
    }
  }

  lemma {:induction false} CleanIsNotBlank(s: string)
    requires Clean(s)
    ensures !Blank(s)
  {
    hide TrimSpace;
  }

  lemma {:induction false} PlansPrefix(before: seq<Pub>, plan: seq<Pub>, name: string)
    requires before <= plan && |plan| <= |before| + 1
    ensures Plans(plan, name) <==> Plans(before, name) || (|plan| > |before| && plan[|plan| - 1].name == name)
  {
    if Plans(before, name) {
      var i :| 0 <= i < |before| && before[i].name == name;
      assert plan[i].name == name;
    }
  }

  // ------------------------------------------------------------- the steps of a run

  lemma {:induction false} ReadingIsWellFormed(w: World, metric: string, text: string)
    requires WellFormed(w)
    ensures WellFormed(Move(w, Reading(metric, text)))
  {
    hide TrimLeft, TrimRight, ConfigOk, ValidVarName, Matching, PublishEach, Marked, Untouched;
    var n, m, raw := w.node, TrimSpace(metric), TrimSpace(text);
    DefaultsAreClean(n.cfg);
    if Clean(raw) {
      TransformIsClean(m, raw, n.cfg);
      var value := Transform(m, raw, n.cfg);
      PlanOfReading(w, m, value);
      EachMarks(n.(metrics := n.metrics[m := raw]), Matching(n.cfg.bindings, m, value), UpdateVisibility(n.cfg), "",
                value);
    }
  }

  lemma {:induction false} ReadingKeeps(w: World, metric: string, text: string, name: string)
    requires WellFormed(w) && Owned(w.node, name) && Kept(w, name)
    ensures Kept(Move(w, Reading(metric, text)), name)
  {
    hide TrimLeft, TrimRight, Bound, Last, Convergent, Coherent, ValidVarName, Matching, PublishEach, KnownValue,
         Target,
         ConfigOk, VisibilityOf, UpdateVisibility, SentOk, NotesOk;
    var n, after := w.node, MetricUpdate(w.node, metric, text);
    var m, raw := TrimSpace(metric), TrimSpace(text);
    if m == "" || raw == "" || !n.reporting || !Active(n.auth) {
      return;
    }
    var value := Transform(m, raw, n.cfg);
    DefaultsAreClean(n.cfg);
    TransformIsClean(m, raw, n.cfg);
    PlanOfReading(w, m, value);
    assert SentOk(n.sent, n.auth.nodeId);
    EachMarks(n.(metrics := n.metrics[m := raw]), Matching(n.cfg.bindings, m, value), UpdateVisibility(n.cfg), name,
              value);
    ReadingConverges(w, m, raw, after, name);
    ConvergentIsKept(w.(node := after), name);
  }

  lemma {:induction false} ConvergentIsKept(w: World, name: string)
    requires Convergent(w, name)
    ensures Kept(w, name)
  {
    hide Target, Coherent, Last;
  }

  lemma {:induction false} ReadingConverges(w: World, m: string, raw: string, after: Node, name: string)
    requires WellFormed(w) && Convergent(w, name) && Owned(w.node, name) && Clean(raw)
    requires var known := w.node.(metrics := w.node.metrics[m := raw]);
             var value := Transform(m, raw, w.node.cfg);
             var vis := VisibilityOf(UpdateVisibility(w.node.cfg));
             && SameOtherwise(known, after)
             && (if Binds(w.node.cfg.bindings, m, name) then Marked(known, after, name, value, vis)
                 else Untouched(known, after, name))
    ensures Convergent(w.(node := after), name)
  {
    hide TrimSpace, Bound, Last, Convergent, Coherent, ValidVarName, Transform, VisibilityOf, UpdateVisibility,
         ConfigOk;
    var value := Transform(m, raw, w.node.cfg);
    var i := BoundIsListed(w.node.cfg, name);
    var metric := w.node.cfg.bindings[i].metric;
    DefaultsAreClean(w.node.cfg);
    TransformIsClean(m, raw, w.node.cfg);
    CleanIsNotBlank(value);
    if metric == m {
      ConvergentIsCoherent(w, name);
      assert Target(after, name) == Some(value);
      MarkedIsConvergent(w, w.(node := after), name, value, VisibilityOf(UpdateVisibility(w.node.cfg)));
    } else {
      NamedOnce(w.node.cfg, m, name);
      assert Target(after, name) == Target(w.node, name);
      UntouchedIsConvergent(w, w.(node := after), name);
    }
  }

  lemma {:induction false} NamedOnce(cfg: PublishConfig, metric: string, name: string)
    requires ConfigOk(cfg)
    ensures Binds(cfg.bindings, metric, name) ==> Bound(cfg, name).Some? && Bound(cfg, name).value.metric == metric
  {
    hide TrimSpace, Bound;
    if Binds(cfg.bindings, metric, name) {
      var i :| 0 <= i < |cfg.bindings| && cfg.bindings[i] == Binding(metric, name);
      assert cfg.bindings[i].varName == name;
    }
  }

  /** Republishing everything makes every owned variable convergent, from a coherent cache. */
  lemma {:induction false} RepublishConverges(w: World, name: string)
    requires WellFormed(w) && Active(w.node.auth) && w.node.reporting && Owned(w.node, name)
    requires Target(w.node, name).Some? ==> Coherent(w, name) || name !in w.node.published
    requires Target(w.node, name).None? ==> Convergent(w, name)
    ensures Convergent(w.(node := Republish(w.node)), name)
  {
    hide TrimSpace, Bound, Last, Convergent, Coherent, ValidVarName, Transform, VisibilityOf, PublishEach, Refresh,
         KnownValue;
    var n := w.node;
    var plan := Refresh(n.cfg.bindings, n.metrics, n.cfg);
    RefreshPlan(n.cfg.bindings, n, name);
    var i := BoundIsListed(n.cfg, name);
    assert n.cfg.bindings[i].varName == name;
    var after := w.(node := Republish(n));
    var value := if Target(n, name).Some? then Target(n, name).value else "";
    EachMarks(n, plan, n.cfg.visibility, name, value);
    assert Target(after.node, name) == Target(n, name) by {
      SameTarget(n, after.node, name);
    }
    if Target(n, name).Some? {
      TargetIsClean(w, name);
      MarkedIsConvergent(w, after, name, value, VisibilityOf(n.cfg.visibility));
    } else {
      UntouchedIsConvergent(w, after, name);
    }
  }

  lemma {:induction false} SameTarget(n: Node, after: Node, name: string)
    requires after.cfg == n.cfg && after.metrics == n.metrics
    ensures Target(after, name) == Target(n, name)
  {
    hide TrimSpace, Bound, Transform;
  }

  lemma {:induction false} TargetIsClean(w: World, name: string)
    requires WellFormed(w) && Target(w.node, name).Some?
    ensures Clean(Target(w.node, name).value)
  {
    hide TrimSpace, Bound, Transform, Last, ValidVarName;
    var metric := Bound(w.node.cfg, name).value.metric;
    TransformIsClean(metric, w.node.metrics[metric], w.node.cfg);
  }

  lemma {:induction false} RepublishIsWellFormed(w: World)
    requires WellFormed(w)
    ensures WellFormed(w.(node := Republish(w.node)))
  {
    hide TrimSpace, Bound, Last, ValidVarName, Transform, VisibilityOf, PublishEach, Refresh, KnownValue;
    var n := w.node;
    RefreshPlan(n.cfg.bindings, n, "");
    var value := if Target(n, "").Some? then Target(n, "").value else "";
    assert PlansOnly(Refresh(n.cfg.bindings, n.metrics, n.cfg), "", value);
    EachMarks(n, Refresh(n.cfg.bindings, n.metrics, n.cfg), n.cfg.visibility, "", value);
  }

  lemma {:induction false} ForeignKeeps(w: World, m: Msg, name: string)
    requires WellFormed(w) && Enabled(w, Foreign(m))
    ensures WellFormed(Move(w, Foreign(m)))
    ensures Owned(w.node, name) && Kept(w, name) ==> Kept(Move(w, Foreign(m)), name)
  {
    hide TrimSpace, Bound, ValidVarName, Transform, Target, Last, Owned, ConfigOk;
    LastAfterSend(w.down, m, name);
  }

  lemma {:induction false} DeliverUpKeeps(w: World, echo: bool, name: string)
    requires WellFormed(w) && w.node.sent != []
    ensures WellFormed(Move(w, DeliverUp(echo)))
    ensures Owned(w.node, name) && Kept(w, name) ==> Kept(Move(w, DeliverUp(echo)), name)
  {
    hide TrimSpace, Bound, ValidVarName, Transform, Target, Last, Owned, Convergent, ConfigOk;
    var t, m := Move(w, DeliverUp(echo)), w.node.sent[0];
    CleanIsNotBlank(m.value);
    SameTarget(w.node, t.node, name);
    if Convergent(w, name) {
      DeliverUpConverges(w, echo, name);
    }
  }

  lemma {:induction false} SameOwned(n: Node, after: Node, name: string)
    requires after.cfg == n.cfg
    ensures Owned(after, name) <==> Owned(n, name)
  {
    hide TrimSpace, Bound, ValidVarName;
  }

  lemma {:induction false} DeliverUpConverges(w: World, echo: bool, name: string)
    requires WellFormed(w) && w.node.sent != [] && Convergent(w, name)
    ensures Convergent(Move(w, DeliverUp(echo)), name)
  {
    hide TrimSpace, Bound, ValidVarName, Transform, Target, Last;
    var t, m := Move(w, DeliverUp(echo)), w.node.sent[0];
    SameTarget(w.node, t.node, name);
    LastAfterReceive(w.node.sent, name);
    LastAfterSend(w.down, m, name);
    assert Clean(m.value);
  }

  lemma {:induction false} HandledOwned(n: Node, m: Msg, name: string, value: string)
    requires Active(n.auth) && m.name == name && Owned(n, name) && value == TrimSpace(m.value) && value != ""
    requires m.owner == 0 || m.owner == n.auth.nodeId
    ensures HandleNotify(n, m) == Correct(Shadow(n, name, value, m.visibility), name, value,
        Bound(n.cfg, name).value.metric)
    ensures Shadow(n, name, value, m.visibility)
              == n.(published := n.published[name := Published(value, VisibilityOf(m.visibility))])
  {
    hide TrimLeft, TrimRight, Bound, VisibilityOf, Correct;
    ValidNameIsTrimmed(name);
  }

  /** What a notification leaves in the cache and in the channel: the node's own value, if it has one. */
  predicate Answered(n: Node, after: Node, name: string, value: string) {
    && name in after.published
    && match Target(n, name)
       case None => after.sent == n.sent && after.published[name].value == value
       case Some(v) =>
         && after.published[name].value == v
         && (if v == value then after.sent == n.sent else Last(after.sent, name) == Some(v))
  }

  lemma {:induction false} OwnedIsAnswered(w: World, m: Msg, name: string)
    requires WellFormed(w) && Active(w.node.auth) && m.name == name && Owned(w.node, name) && !Blank(m.value)
    requires m.owner == 0 || m.owner == w.node.auth.nodeId
    ensures var after := HandleNotify(w.node, m);
            && Answered(w.node, after, name, TrimSpace(m.value))
            && SameOtherwise(w.node, after) && SentOk(after.sent, w.node.auth.nodeId)
  {
    hide TrimLeft, TrimRight, Bound, ValidVarName, Transform, Last, VisibilityOf, Publish, KnownValue, HandleNotify,
         ConfigOk;
    var n, value := w.node, TrimSpace(m.value);
    HandledOwned(n, m, name, value);
    var shadowed := Shadow(n, name, value, m.visibility);
    SameTarget(n, shadowed, name);
    var target := Target(n, name);
    if target.Some? && target.value != value {
      TargetIsClean(w, name);
      PublishMarks(shadowed, name, target.value, n.cfg.visibility, name);
    }
  }

  lemma {:induction false} AnsweredIsConvergent(w: World, after: Node, name: string)
    requires w.down != [] && w.down[0].name == name && Convergent(w, name)
    requires Answered(w.node, after, name, TrimSpace(w.down[0].value)) && Target(after, name) == Target(w.node, name)
    requires Target(w.node, name).Some? ==> Clean(Target(w.node, name).value)
    ensures Convergent(w.(node := after, down := w.down[1..]), name)
  {
    hide TrimSpace, Last, Target;
    LastAfterReceive(w.down, name);
  }

  /** What a notification does to the variable it names, when the node owns it. */
  lemma {:induction false} DownConverges(w: World, name: string)
    requires WellFormed(w) && Active(w.node.auth) && w.down != [] && w.down[0].name == name
    requires Owned(w.node, name) && Convergent(w, name)
    ensures Convergent(w.(node := HandleNotify(w.node, w.down[0]), down := w.down[1..]), name)
  {
    hide Blank, TrimSpace, Owned, Target, Convergent, Answered, HandleNotify, ConfigOk, ValidVarName, SentOk, Active;
    assert !Blank(w.down[0].value);
    OwnedIsAnswered(w, w.down[0], name);
    var after := HandleNotify(w.node, w.down[0]);
    SameTarget(w.node, after, name);
    if Target(w.node, name).Some? {
      TargetIsClean(w, name);
    }
    AnsweredIsConvergent(w, after, name);
  }

  /** Handling a notification touches no variable but the one it names. */
  lemma {:induction false} HandleTouchesOnly(w: World, m: Msg, other: string)
    requires WellFormed(w) && ValidVarName(m.name)
    ensures var n, after := w.node, HandleNotify(w.node, m);
            && after == n.(published := after.published, sent := after.sent, pending := after.pending)
            && SentOk(after.sent, n.auth.nodeId)
            && (other != m.name ==> Untouched(n, after, other))
  {
    hide TrimLeft, TrimRight, Bound, ValidVarName, Transform, Last, VisibilityOf, Publish, KnownValue, ControlValue,
         Correct, Shadow,
         ConfigOk, Untouched, SentOk, Protected;
    var n, value := w.node, TrimSpace(m.value);
    ValidNameIsTrimmed(m.name);
    UntouchedItself(n, other);
    var shadowed := Shadow(n, m.name, value, m.visibility);
    ShadowTouchesOnly(n, m.name, value, m.visibility, other);
    if Bound(n.cfg, m.name).Some? {
      var metric := Bound(n.cfg, m.name).value.metric;
      CorrectTouchesOnly(w.(node := shadowed), m.name, value, metric, other);
      if other != m.name {
        UntouchedTwice(n, shadowed, Correct(shadowed, m.name, value, metric), other);
        PendingIsAside(n, shadowed, other);
      }
    }
  }

  /** What is queued for control does not touch what is published. */
  lemma PendingIsAside(n: Node, after: Node, name: string)
    requires Untouched(n, after, name)
    ensures forall pending :: Untouched(n, after.(pending := pending), name)
  {
    hide Last;
  }

  lemma UntouchedItself(n: Node, name: string)
    ensures Untouched(n, n, name)
  {
  }

  /** Two steps that leave a name alone leave it alone together. */
  lemma UntouchedTwice(a: Node, b: Node, c: Node, name: string)
    requires Untouched(a, b, name) && Untouched(b, c, name)
    ensures Untouched(a, c, name)
  {
    hide Last;
  }

  lemma {:induction false} ShadowTouchesOnly(n: Node, name: string, value: string, visibility: string, other: string)
    requires TrimSpace(name) == name
    ensures var after := Shadow(n, name, value, visibility);
            && after == n.(published := after.published) && (other != name ==> Untouched(n, after, other))
  {
    hide TrimLeft, TrimRight, Last, VisibilityOf;
  }

  lemma {:induction false} CorrectTouchesOnly(w: World, name: string, value: string, metric: string, other: string)
    requires WellFormed(w) && ValidVarName(name)
    ensures var n, after := w.node, Correct(w.node, name, value, metric);
            && SameOtherwise(n, after) && SentOk(after.sent, n.auth.nodeId)
            && (other != name ==> Untouched(n, after, other))
  {
    hide TrimLeft, TrimRight, Bound, ValidVarName, Transform, Last, VisibilityOf, Publish;
    var n := w.node;
    if KnownValue(n, metric).Some? {
      TransformIsClean(metric, n.metrics[metric], n.cfg);
      PublishMarks(n, name, KnownValue(n, metric).value, n.cfg.visibility, other);
    }
  }

  lemma {:induction false} DeliverDownKeeps(w: World, name: string)
    requires WellFormed(w) && w.down != []
    ensures WellFormed(Move(w, DeliverDown))
    ensures Owned(w.node, name) && Kept(w, name) ==> Kept(Move(w, DeliverDown), name)
  {
    hide TrimSpace, Bound, ValidVarName, Transform, Target, Last, Owned, Convergent, HandleNotify, ConfigOk;
    var t, m := Move(w, DeliverDown), w.down[0];
    HandleTouchesOnly(w, m, name);
    SameTarget(w.node, t.node, name);
    if Owned(w.node, name) && Kept(w, name) {
      if !Active(w.node.auth) {
        IgnoredWhenInactive(w.node, m);
      } else {
        if m.name == name {
          DownConverges(w, name);
        } else {
          OtherDownConverges(w, name);
        }
        ConvergentIsKept(t, name);
      }
    }
  }

  lemma IgnoredWhenInactive(n: Node, m: Msg)
    requires !Active(n.auth)
    ensures HandleNotify(n, m) == n
  {
    hide TrimSpace, Bound;
  }

  lemma {:induction false} OtherDownConverges(w: World, name: string)
    requires w.down != [] && w.down[0].name != name && Convergent(w, name)
    requires var after := HandleNotify(w.node, w.down[0]);
             Untouched(w.node, after, name) && after.cfg == w.node.cfg && after.metrics == w.node.metrics
    ensures Convergent(Move(w, DeliverDown), name)
  {
    hide TrimSpace, Bound, Transform, Target, Last, HandleNotify;
    LastAfterReceive(w.down, name);
    SameTarget(w.node, HandleNotify(w.node, w.down[0]), name);
  }

  lemma {:induction false} DefaultsAreWellFormed(w: World, visibility: string, noBattery: string)
    requires WellFormed(w) && Enabled(w, Defaults(visibility, noBattery))
    ensures WellFormed(w.(node := w.node.(cfg := w.node.cfg.(visibility := visibility, noBattery := noBattery))))
    ensures WellFormed(Move(w, Defaults(visibility, noBattery)))
  {
    hide TrimSpace, ConfigOk, ValidVarName, Republish;
    SameBindings(w.node.cfg, visibility, noBattery);
    RepublishIsWellFormed(w.(node := w.node.(cfg := w.node.cfg.(visibility := visibility, noBattery := noBattery))));
  }

  lemma {:induction false} DefaultsKeep(w: World, visibility: string, noBattery: string, name: string)
    requires WellFormed(w) && Enabled(w, Defaults(visibility, noBattery)) &&
        !LeavesBehind(w, Defaults(visibility, noBattery))
    requires Owned(w.node, name) && Kept(w, name)
    ensures Kept(Move(w, Defaults(visibility, noBattery)), name)
  {
    hide TrimSpace, Bound, ValidVarName, Transform, Target, Last, Owned, Convergent, Coherent, Republish, ConfigOk;
    var n := w.node;
    var changed := w.(node := n.(cfg := n.cfg.(visibility := visibility, noBattery := noBattery)));
    DefaultsAreWellFormed(w, visibility, noBattery);
    RepublishKeepsRest(changed.node);
    OwnedIgnoresDefaults(n, visibility, noBattery, name);
    ConvergentIsCoherent(w, name);
    ChangedDefaults(w, visibility, noBattery, name);
    RepublishConverges(changed, name);
    ConvergentIsKept(changed.(node := Republish(changed.node)), name);
  }

  lemma {:induction false} SameBindings(cfg: PublishConfig, visibility: string, noBattery: string)
    requires ConfigOk(cfg) && Clean(noBattery) && (visibility == PUBLIC || visibility == PRIVATE)
    ensures ConfigOk(cfg.(visibility := visibility, noBattery := noBattery))
    ensures forall name :: Bound(cfg.(visibility := visibility, noBattery := noBattery), name) == Bound(cfg, name)
  {
    hide TrimSpace, ValidVarName, BindingByVarName;
    var changed := cfg.(visibility := visibility, noBattery := noBattery);
    forall name ensures Bound(changed, name) == Bound(cfg, name) {
    }
  }

  lemma {:induction false} OwnedIgnoresDefaults(n: Node, visibility: string, noBattery: string, name: string)
    ensures Owned(n.(cfg := n.cfg.(visibility := visibility, noBattery := noBattery)), name) <==> Owned(n, name)
  {
    hide TrimSpace, ValidVarName, BindingByVarName;
  }

  lemma {:induction false} IgnoresHistory(w: World, stale: set<string>, name: string)
    ensures Kept(w.(stale := stale), name) <==> Kept(w, name)
  {
    hide TrimSpace, Last, Target;
  }

  /** New defaults can change the value a variable stands for, not whether it has one. */
  lemma {:induction false} ChangedDefaults(w: World, visibility: string, noBattery: string, name: string)
    requires WellFormed(w) && Clean(noBattery)
    requires Convergent(w, name)
    ensures var t := w.(node := w.node.(cfg := w.node.cfg.(visibility := visibility, noBattery := noBattery)));
            && (Target(t.node, name).None? ==> Convergent(t, name))
            && Coherent(t, name)
  {
    hide TrimSpace, BindingByVarName, Last, ValidVarName, Transform;
    var n := w.node;
    var changed := n.cfg.(visibility := visibility, noBattery := noBattery);
    assert Bound(changed, name) == Bound(n.cfg, name);
    if Bound(n.cfg, name).Some? {
      var metric := Bound(n.cfg, name).value.metric;
      if metric in n.metrics {
        TransformIsClean(metric, n.metrics[metric], n.cfg);
        TransformIsClean(metric, n.metrics[metric], changed);
        CleanIsNotBlank(Transform(metric, n.metrics[metric], n.cfg));
        CleanIsNotBlank(Transform(metric, n.metrics[metric], changed));
      }
    }
  }

  lemma {:induction false} RepublishKeepsRest(n: Node)
    ensures SameOtherwise(n, Republish(n))
  {
    hide TrimSpace, Refresh;
    EachKeepsRest(n, Refresh(n.cfg.bindings, n.metrics, n.cfg), n.cfg.visibility);
  }

  lemma {:induction false} EachKeepsRest(n: Node, plan: seq<Pub>, visibility: string)
    ensures SameOtherwise(n, PublishEach(n, plan, visibility))
  {
    hide TrimSpace, VisibilityOf, ValidVarName;
    if plan != [] {
      EachKeepsRest(n, plan[..|plan| - 1], visibility);
    }
  }

  /** The node a login that republishes starts from: identified, with an empty cache. */
  function Cleared(n: Node, nodeId: nat, hubId: nat): Node {
    n.(auth := Auth(true, nodeId, hubId), published := map[])
  }

  lemma {:induction false} LoginRepublishes(n: Node, nodeId: nat, hubId: nat)
    ensures LoggedIn(n, nodeId, hubId)
         == if n.reporting then Republish(Cleared(n, nodeId, hubId)) else n.(auth := Auth(true, nodeId, hubId))
  {
    hide Republish;
  }

  lemma {:induction false} EmptiedIsWellFormed(w: World, t: World)
    requires WellFormed(w) && t.node.cfg == w.node.cfg && t.node.metrics == w.node.metrics && t.node.sent == [] &&
        t.down == []
    ensures WellFormed(t)
  {
    hide TrimSpace, ConfigOk;
  }

  lemma {:induction false} LoggedInIsWellFormed(w: World, nodeId: nat, hubId: nat)
    requires WellFormed(w.(node := w.node.(auth := Auth(true, nodeId, hubId))))
    ensures WellFormed(w.(node := LoggedIn(w.node, nodeId, hubId)))
  {
    hide TrimSpace, ConfigOk, Republish, LoggedIn, ValidVarName;
    LoginRepublishes(w.node, nodeId, hubId);
    if w.node.reporting {
      var cleared := w.(node := Cleared(w.node, nodeId, hubId));
      assert WellFormed(cleared);
      RepublishIsWellFormed(cleared);
    }
  }

  /** A forced republish answers for every variable of the node, whatever is under way. */
  lemma {:induction false} LoginConverges(w: World, nodeId: nat, hubId: nat, name: string)
    requires WellFormed(w.(node := w.node.(auth := Auth(true, nodeId, hubId))))
    requires w.node.reporting && nodeId != 0 && hubId != 0 && Owned(w.node, name)
    requires Target(w.node, name).None? ==> Last(w.node.sent, name).None?
    requires Target(w.node, name).None? && Last(w.down, name).Some? ==> HubIsNotifying(w, name)
    ensures Convergent(w.(node := LoggedIn(w.node, nodeId, hubId)), name)
  {
    hide TrimSpace, Bound, ValidVarName, Transform, Target, Last, Owned, Coherent, Republish, LoggedIn, ConfigOk;
    LoginRepublishes(w.node, nodeId, hubId);
    var cleared := w.(node := Cleared(w.node, nodeId, hubId));
    assert WellFormed(cleared);
    SameOwned(w.node, cleared.node, name);
    SameTarget(w.node, cleared.node, name);
    RepublishConverges(cleared, name);
  }

  lemma {:induction false} LoginKeeps(w: World, nodeId: nat, hubId: nat, hub: map<string, Published>, name: string)
    requires WellFormed(w) && !LeavesBehind(w, Login(nodeId, hubId, hub)) && Owned(w.node, name)
    ensures Kept(Move(w, Login(nodeId, hubId, hub)), name)
  {
    hide TrimSpace, Bound, ValidVarName, Transform, Target, Owned, Convergent, LoggedIn, ConfigOk;
    var begun := World(w.node.(sent := []), hub, [], w.stale);
    EmptiedIsWellFormed(w, begun.(node := begun.node.(auth := Auth(true, nodeId, hubId))));
    SameOwned(w.node, begun.node, name);
    LoginConverges(begun, nodeId, hubId, name);
    ConvergentIsKept(Move(w, Login(nodeId, hubId, hub)), name);
  }

  lemma {:induction false} ReloginKeeps(w: World, hubId: nat, name: string)
    requires WellFormed(w) && !LeavesBehind(w, Relogin(hubId)) && Owned(w.node, name) && Kept(w, name)
    ensures Kept(Move(w, Relogin(hubId)), name)
  {
    hide TrimSpace, Bound, ValidVarName, Transform, Target, Last, Owned, LoggedIn, ConfigOk;
    var nodeId := w.node.auth.nodeId;
    LoginRepublishes(w.node, nodeId, hubId);
    if w.node.reporting {
      LoginConverges(w, nodeId, hubId, name);
      ConvergentIsKept(Move(w, Relogin(hubId)), name);
    } else {
      SameTarget(w.node, Move(w, Relogin(hubId)).node, name);
    }
  }

  lemma {:induction false} SwitchKeeps(w: World, e: Event, name: string)
    requires WellFormed(w) && Enabled(w, e) && (e.Lose? || e.LoginFails? || e.SetReporting?)
    ensures WellFormed(Move(w, e))
    ensures Kept(w, name) ==> Kept(Move(w, e), name)
  {
    hide TrimSpace, ConfigOk, Target, Last;
    SameTarget(w.node, Move(w, e).node, name);
  }

  lemma {:induction false} MoveIsWellFormed(w: World, e: Event)
    requires WellFormed(w) && Enabled(w, e)
    ensures WellFormed(Move(w, e))
    ensures Move(w, e).node.cfg.bindings == w.node.cfg.bindings && Move(w, e).node.cfg.byVarName == w.node.cfg.byVarName
  {
    hide WellFormed, MetricUpdate, HandleNotify, Republish, LoggedIn, TrimSpace, ValidVarName, Active;
    ConfigStays(w, e);
    match e
    case Reading(metric, value) => ReadingIsWellFormed(w, metric, value);
    case Foreign(m) => ForeignKeeps(w, m, "");
    case DeliverUp(echo) => DeliverUpKeeps(w, echo, "");
    case DeliverDown => DeliverDownKeeps(w, "");
    case Defaults(v, b) => DefaultsAreWellFormed(w, v, b);
    case Login(nodeId, hubId, hub) =>
      EmptiedIsWellFormed(w, World(w.node.(sent := [], auth := Auth(true, nodeId, hubId)), hub, [], w.stale));
      LoggedInIsWellFormed(World(w.node.(sent := []), hub, [], w.stale), nodeId, hubId);
    case Register(nodeId, hubId, hub) => EmptiedIsWellFormed(w, Move(w, e));
    case Relogin(hubId) =>
      IdentityIsAside(w, hubId);
      LoggedInIsWellFormed(w, w.node.auth.nodeId, hubId);
    case _ => SwitchKeeps(w, e, "");
  }

  lemma IdentityIsAside(w: World, hubId: nat)
    requires WellFormed(w)
    ensures WellFormed(w.(node := w.node.(auth := Auth(true, w.node.auth.nodeId, hubId))))
  {
    hide TrimSpace, ConfigOk, ValidVarName;
  }

  /** No event changes which variable is bound to which metric. */
  lemma {:induction false} ConfigStays(w: World, e: Event)
    requires Enabled(w, e)
    ensures var cfg, after := w.node.cfg, Move(w, e).node.cfg;
            after == if e.Defaults? then cfg.(visibility := e.visibility, noBattery := e.noBattery) else cfg
  {
    hide TrimSpace, VisibilityOf, ValidVarName, Bound, Transform, ControlValue, KnownValue, PublishEach, Republish;
    match e
    case Reading(metric, value) =>
      var n, m, raw := w.node, TrimSpace(metric), TrimSpace(value);
      EachKeepsRest(n.(metrics := n.metrics[m := raw]), Matching(n.cfg.bindings, m, Transform(m, raw, n.cfg)),
                    UpdateVisibility(n.cfg));
    case Defaults(v, d) => RepublishKeepsRest(w.node.(cfg := w.node.cfg.(visibility := v, noBattery := d)));
    case Login(nodeId, hubId, _) => RepublishKeepsRest(Cleared(w.node.(sent := []), nodeId, hubId));
    case Relogin(hubId) => RepublishKeepsRest(Cleared(w.node, w.node.auth.nodeId, hubId));
    case _ =>
  }

  /** An event that leaves nothing behind keeps what the node keeps of a variable. */
  lemma {:induction false} MoveKeeps(w: World, e: Event, name: string)
    requires WellFormed(w) && Enabled(w, e) && !LeavesBehind(w, e) && Owned(w.node, name) && Kept(w, name)
    ensures Kept(Move(w, e), name)
  {
    hide WellFormed, Owned, Kept, MetricUpdate, HandleNotify, Republish, LoggedIn, TrimSpace, ValidVarName, Active;
    match e
    case Reading(metric, value) => ReadingKeeps(w, metric, value, name);
    case Foreign(m) => ForeignKeeps(w, m, name);
    case DeliverUp(echo) => DeliverUpKeeps(w, echo, name);
    case DeliverDown => DeliverDownKeeps(w, name);
    case Defaults(v, b) => DefaultsKeep(w, v, b, name);
    case Login(nodeId, hubId, hub) => LoginKeeps(w, nodeId, hubId, hub, name);
    case Relogin(hubId) => ReloginKeeps(w, hubId, name);
    case Register(_, _, _) => assert false;
    case _ => SwitchKeeps(w, e, name);
  }

  lemma {:induction false} SameBound(n: Node, after: Node, name: string)
    requires after.cfg.bindings == n.cfg.bindings && after.cfg.byVarName == n.cfg.byVarName
    ensures Owned(after, name) <==> Owned(n, name)
  {
    hide BindingByVarName, ValidVarName;
  }

  lemma {:induction false} OwnedIsNamed(n: Node, name: string)
    requires ConfigOk(n.cfg)
    ensures name in OwnedNames(n) <==> Owned(n, name)
  {
    hide ConfigOk, Protected;
    if Owned(n, name) {
      var i := BoundIsListed(n.cfg, name);
      assert n.cfg.bindings[i] in n.cfg.bindings && n.cfg.bindings[i].varName == name;
    }
  }

  lemma {:induction false} StepKeepsInv(w: World, e: Event)
    requires Inv(w) && Enabled(w, e)
    ensures Inv(Step(w, e))
  {
    hide ConfigOk, Owned, Kept, Move, LeavesBehind, OwnedNames, Enabled;
    var t := Move(w, e);
    MoveIsWellFormed(w, e);
    var s := Step(w, e);
    forall name | Owned(s.node, name) && name !in s.stale ensures Kept(s, name) {
      SameBound(w.node, t.node, name);
      OwnedIsNamed(t.node, name);
      IgnoresHistory(t, s.stale, name);
      if !LeavesBehind(w, e) && name !in w.stale {
        MoveKeeps(w, e, name);
      }
    }
  }

  // -------------------------------------------------------------- the main results

  /** A runtime that has just started: configured, logged out, nothing published. */
  ghost predicate Starts(w: World) {
    && ConfigOk(w.node.cfg) && !w.node.auth.loggedIn && !w.node.reporting
    && w.node.sent == [] && w.down == [] && w.node.metrics == map[] && w.node.published == map[] && w.stale == {}
  }

  lemma StartIsInv(w: World)
    requires Starts(w)
    ensures Inv(w)
  {
    hide ConfigOk, Owned, TrimSpace, BindingByVarName;
  }

  lemma {:induction false} InvHolds(w: World, es: seq<Event>)
    requires Starts(w) && Legal(w, es)
    ensures Inv(Run(w, es))
  {
    hide Inv, Step, Starts;
    StartIsInv(w);
    if es != [] {
      InvHolds(w, es[..|es| - 1]);
      StepKeepsInv(Run(w, es[..|es| - 1]), es[|es| - 1]);
    }
  }
}
