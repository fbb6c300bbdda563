/** What single readings and foreign writes do, said without the functions that compute it. */
module ReplicationEffects {
  import opened Wrappers
  import opened Text
  import opened Decimal
  import opened Metrics
  import opened Config
  import opened Replication
  import opened ReplicationFacts
  import opened ReplicationAsync
  import Traces = ReplicationTraces

  /** How a reading shows: a missing battery as the configured text, anything else as it is. */
  function Shown(cfg: PublishConfig, metric: string, raw: string): string {
    if metric == "battery_percent" && raw == "-1" then cfg.noBattery else raw
  }

  /** The node has a session it may act in. */
  predicate Serving(n: Node) {
    n.auth.loggedIn && n.auth.nodeId != 0 && n.auth.hubId != 0
  }

  // ---------------------------------------------------------------------- readings

  /** A node that does not report, or has no session, takes no notice of a reading; nor does any of a blank one. */
  lemma ReadingIsIgnored(n: Node, metric: string, text: string)
    requires !n.reporting || !Serving(n) || Blank(metric) || Blank(text)
    ensures MetricUpdate(n, metric, text) == n
  {
    hide TrimSpace;
  }

  /** What the cache says already. */
  predicate Holds(n: Node, name: string, p: Published) {
    name in n.published && n.published[name] == p
  }

  /** The one message, if any, that a publish of `v` adds. */
  function Added(n: Node, name: string, v: string): seq<Msg> {
    if Holds(n, name, Published(v, n.cfg.visibility)) then []
    else [Msg(name, v, n.cfg.visibility, n.auth.nodeId)]
  }

  /** Exactly one publish of `v`: the cache says so, and one message is added unless it said so already. */
  predicate PublishedOnce(n: Node, after: Node, name: string, v: string) {
    && name in after.published && after.published[name] == Published(v, n.cfg.visibility)
    && About(after.sent, name) == About(n.sent, name) + Added(n, name, v)
  }

  /** No publish at all. */
  predicate Passed(n: Node, after: Node, name: string) {
    && About(after.sent, name) == About(n.sent, name)
    && (name in after.published <==> name in n.published)
    && (name in n.published ==> after.published[name] == n.published[name])
  }

  lemma {:induction false} EachOnce(n: Node, plan: seq<Pub>, name: string, value: string)
    requires PlanOk(plan) && PlansOnly(plan, name, value) && n.dedupe
    requires VisibilityOf(n.cfg.visibility) == n.cfg.visibility
    ensures var after := PublishEach(n, plan, n.cfg.visibility);
            && SameOtherwise(n, after)
            && if Plans(plan, name) then PublishedOnce(n, after, name, value) else Passed(n, after, name)
  {
    hide TrimSpace, VisibilityOf, About, Publish, ValidVarName;
    if plan != [] {
      var front, p := plan[..|plan| - 1], plan[|plan| - 1];
      EachOnce(n, front, name, value);
      PlansPrefix(front, plan, name);
      OneOnce(PublishEach(n, front, n.cfg.visibility), p, name);
    }
  }

  lemma {:induction false} OneOnce(n: Node, p: Pub, name: string)
    requires ValidVarName(p.name) && Clean(p.value) && n.dedupe && VisibilityOf(n.cfg.visibility) == n.cfg.visibility
    ensures var after := Publish(n, p.name, p.value, n.cfg.visibility);
            && SameOtherwise(n, after)
            && if p.name == name then PublishedOnce(n, after, name, p.value) else Passed(n, after, name)
  {
    hide TrimLeft, TrimRight, VisibilityOf, About;
    ValidNameIsTrimmed(p.name);
    AboutAfterSend(n.sent, Msg(p.name, p.value, n.cfg.visibility, n.auth.nodeId), name);
  }

  /**
   A reading is recorded and reaches every variable bound to its metric, under the
   default visibility, and no other variable: the cache says what it shows as, and one
   message is sent unless the cache said so already.
   */
  lemma {:induction false} ReadingIsPublished(w: World, metric: string, text: string, name: string)
    requires WellFormed(w) && Serving(w.node) && w.node.reporting && w.node.dedupe && !Blank(metric) && !Blank(text)
    ensures var n, after := w.node, MetricUpdate(w.node, metric, text);
            var m, raw := TrimSpace(metric), TrimSpace(text);
            && after == n.(metrics := n.metrics[m := raw], published := after.published, sent := after.sent)
            && if Binds(n.cfg.bindings, m, name) then PublishedOnce(n, after, name, Shown(n.cfg, m, raw))
               else Passed(n, after, name)
  {
    hide TrimLeft, TrimRight, Bound, ValidVarName, Matching, PublishEach, VisibilityOf, UpdateVisibility, About;
    var n, m, raw := w.node, TrimSpace(metric), TrimSpace(text);
    var value := Transform(m, raw, n.cfg);
    DefaultsAreClean(n.cfg);
    assert value == Shown(n.cfg, m, raw);
    TransformIsClean(m, raw, n.cfg);
    var known := n.(metrics := n.metrics[m := raw]);
    PlanOfReading(w, m, value);
    Traces.DefaultVisibilityIsStable(n.cfg);
    EachOnce(known, Matching(n.cfg.bindings, m, value), name, value);
  }

  // -------------------------------------------------------------------- republishing

  /** The metric of a bound variable has been read, and shows as `v`. */
  predicate Reads(n: Node, name: string, v: string) {
    && Bound(n.cfg, name).Some?
    && var metric := Bound(n.cfg, name).value.metric;
       metric in n.metrics && Shown(n.cfg, metric, n.metrics[metric]) == v
  }

  /**
   A republish, of the whole configuration at once: every bound variable whose metric
   has been read is published, under the default visibility, as that reading shows now,
   and once; no other is touched, nor is anything else of the node.
   */
  lemma {:induction false} RepublishIsExact(w: World, name: string)
    requires WellFormed(w) && w.node.dedupe && ValidVarName(name)
    ensures var n, after := w.node, Republish(w.node);
            && after == n.(published := after.published, sent := after.sent)
            && (!n.reporting || !Serving(n) ==> after == n)
            && (n.reporting && Serving(n) ==> forall v :: Reads(n, name, v) ==> PublishedOnce(n, after, name, v))
            && (!(exists v :: Reads(n, name, v)) ==> Passed(n, after, name))
  {
    hide TrimSpace, Bound, ValidVarName, PublishEach, Refresh, Republish, VisibilityOf, About, Transform;
    RepublishKeepsRest(w.node);
    ReadsIsTarget(w, name);
    if w.node.reporting && Serving(w.node) {
      RepublishOnce(w, name);
    } else {
      NoRepublish(w.node);
    }
  }

  lemma NoRepublish(n: Node)
    requires !n.reporting || !Serving(n)
    ensures Republish(n) == n
  {
  }

  lemma {:induction false} ReadsIsTarget(w: World, name: string)
    requires WellFormed(w)
    ensures forall v :: Reads(w.node, name, v) <==> Target(w.node, name) == Some(v)
  {
    hide TrimLeft, TrimRight, Bound, ValidVarName;
    DefaultsAreClean(w.node.cfg);
  }

  lemma {:induction false} RepublishOnce(w: World, name: string)
    requires WellFormed(w) && w.node.dedupe && ValidVarName(name) && w.node.reporting && Serving(w.node)
    ensures var n, after := w.node, Republish(w.node);
            match Target(n, name)
            case Some(v) => PublishedOnce(n, after, name, v)
            case None => Passed(n, after, name)
  {
    hide TrimSpace, Bound, ValidVarName, PublishEach, Refresh, VisibilityOf, About, KnownValue, PublishedOnce, Passed;
    var n := w.node;
    RefreshPlan(n.cfg.bindings, n, name);
    Traces.DefaultVisibilityIsStable(n.cfg);
    var value := if Target(n, name).Some? then Target(n, name).value else "";
    EachOnce(n, Refresh(n.cfg.bindings, n.metrics, n.cfg), name, value);
    if Target(n, name).Some? {
      var i := BoundIsListed(n.cfg, name);
      assert n.cfg.bindings[i].varName == name;
    }
  }

  /** `out` names variables in the order of the bindings: the k-th message is of the one at position `at[k]`. */
  predicate Along(out: seq<Msg>, bindings: seq<Binding>, at: seq<nat>) {
    && |at| == |out| && (forall k, l :: 0 <= k < l < |at| ==> at[k] < at[l])
    && forall k :: 0 <= k < |at| ==> at[k] < |bindings| && out[k].name == bindings[at[k]].varName
  }

  lemma {:induction false} RefreshAlong(n: Node, bindings: seq<Binding>) returns (at: seq<nat>)
    requires forall i :: 0 <= i < |bindings| ==> ValidVarName(bindings[i].varName)
    ensures var after := PublishEach(n, Refresh(bindings, n.metrics, n.cfg), n.cfg.visibility);
            n.sent <= after.sent && Along(after.sent[|n.sent|..], bindings, at)
  {
    hide TrimSpace, ValidVarName, Transform, VisibilityOf, Publish;
    if bindings == [] {
      at := [];
    } else {
      var k, b := |bindings| - 1, bindings[|bindings| - 1];
      at := RefreshAlong(n, bindings[..k]);
      var plan := Refresh(bindings[..k], n.metrics, n.cfg);
      var before := PublishEach(n, plan, n.cfg.visibility);
      if b.metric in n.metrics && !Blank(n.metrics[b.metric]) {
        var p := Pub(b.varName, Transform(b.metric, n.metrics[b.metric], n.cfg));
        assert (plan + [p])[..|plan|] == plan;
        at := PublishAlong(n, before, bindings, at, p.value);
      }
    }
  }

  lemma {:induction false} PublishAlong(n: Node, before: Node, bindings: seq<Binding>, at: seq<nat>, value: string)
    returns (longer: seq<nat>)
    requires bindings != [] && ValidVarName(bindings[|bindings| - 1].varName)
    requires n.sent <= before.sent && Along(before.sent[|n.sent|..], bindings[..|bindings| - 1], at)
    ensures var after := Publish(before, bindings[|bindings| - 1].varName, value, n.cfg.visibility);
            n.sent <= after.sent && Along(after.sent[|n.sent|..], bindings, longer)
  {
    hide TrimLeft, TrimRight, ValidVarName, VisibilityOf;
    var b := bindings[|bindings| - 1];
    ValidNameIsTrimmed(b.varName);
    var after := Publish(before, b.varName, value, n.cfg.visibility);
    if after.sent == before.sent {
      longer := at;
    } else {
      longer := at + [|bindings| - 1];
      assert after.sent[|n.sent|..] == before.sent[|n.sent|..] + [after.sent[|before.sent|]];
    }
  }

  /** The messages of a republish leave in the order of the bindings. */
  lemma {:induction false} RepublishIsOrdered(w: World) returns (at: seq<nat>)
    requires WellFormed(w)
    ensures var n, after := w.node, Republish(w.node);
            n.sent <= after.sent && Along(after.sent[|n.sent|..], n.cfg.bindings, at)
  {
    hide TrimSpace, ValidVarName, Bound, PublishEach, Refresh;
    at := [];
    if w.node.reporting && Active(w.node.auth) {
      at := RefreshAlong(w.node, w.node.cfg.bindings);
    }
  }

  /** A login on the session given: the identity, in this order, and if the node reports a republish from nothing. */
  lemma {:induction false} LoginIsExact(w: World, nodeId: nat, hubId: nat, name: string)
    requires WellFormed(w.(node := w.node.(auth := Auth(true, nodeId, hubId)))) && w.node.dedupe && ValidVarName(name)
    ensures var n, after := w.node, LoggedIn(w.node, nodeId, hubId);
            && after == n.(auth := after.auth, published := after.published, sent := after.sent)
            && after.auth.loggedIn && after.auth.nodeId == nodeId && after.auth.hubId == hubId
            && (!n.reporting ==> after.published == n.published && after.sent == n.sent)
            && (n.reporting && (nodeId == 0 || hubId == 0) ==> after.published == map[] && after.sent == n.sent)
            && (n.reporting && nodeId != 0 && hubId != 0 ==>
                  && (forall v :: Reads(n, name, v) ==>
                        && name in after.published && after.published[name] == Published(v, n.cfg.visibility)
                        && About(after.sent, name) == About(n.sent, name) + [Msg(name, v, n.cfg.visibility, nodeId)])
                  && (!(exists v :: Reads(n, name, v)) ==>
                        name !in after.published && About(after.sent, name) == About(n.sent, name)))
  {
    hide TrimSpace, Bound, ValidVarName, ConfigOk, Republish, VisibilityOf, About, LoggedIn;
    LoginRepublishes(w.node, nodeId, hubId);
    var cleared := w.(node := Cleared(w.node, nodeId, hubId));
    assert WellFormed(cleared);
    RepublishIsExact(cleared, name);
    assert forall v :: Reads(cleared.node, name, v) <==> Reads(w.node, name, v);
  }

  // ------------------------------------------------------------------- notifications

  /** A notification for the node of a variable it has, saying something. */
  predicate Addressed(n: Node, m: Msg) {
    Serving(n) && ValidVarName(m.name) && !Blank(m.value) && (m.owner == 0 || m.owner == n.auth.nodeId)
  }

  /** What a notification says, as the cache records it. */
  function Recorded(m: Msg): Published {
    Published(TrimSpace(m.value), if Blank(m.visibility) then "public" else ToLower(TrimSpace(m.visibility)))
  }

  lemma RecordedIs(m: Msg)
    ensures Recorded(m) == Published(TrimSpace(m.value), VisibilityOf(m.visibility))
  {
    hide TrimSpace;
  }

  /** Without a session, without a name or a value, for another node, or of no variable of this one: no effect. */
  lemma NoticeIsIgnored(n: Node, m: Msg)
    requires !Serving(n) || Blank(m.name) || Blank(m.value) || (m.owner != 0 && m.owner != n.auth.nodeId)
             || Bound(n.cfg, TrimSpace(m.name)).None?
    ensures HandleNotify(n, m) == n
  {
    hide TrimSpace, BindingByVarName;
  }

  /** The node does not let others set the variable: it shows a reading, or its control is turned off. */
  predicate Refused(n: Node, name: string, metric: string) {
    && Bound(n.cfg, name).Some? && Bound(n.cfg, name).value.metric == metric
    && (metric in READINGS || (metric in CONTROLS && !Bound(n.cfg, name).value.writable))
  }

  /** These are the variables all results on convergence are about. */
  lemma {:induction false} OwnedIsRefused(n: Node, name: string)
    ensures Owned(n, name) <==> ValidVarName(name) && exists metric :: Refused(n, name, metric)
  {
    hide Bound, ValidVarName;
    if Bound(n.cfg, name).Some? {
      ClassesAreListed(Bound(n.cfg, name).value.metric);
      assert Protected(Bound(n.cfg, name).value) ==> Refused(n, name, Bound(n.cfg, name).value.metric);
    }
  }

  /**
   A write to a variable the node does not let others set queues nothing. Once the
   metric has been read, one message sets the hub right unless the write said the same;
   the cache says what the hub will hold. Without a reading the write stands.
   */
  lemma {:induction false} RefusedIsAnswered(w: World, m: Msg, metric: string)
    requires WellFormed(w) && Addressed(w.node, m) && Refused(w.node, m.name, metric)
    ensures var n, after, said := w.node, HandleNotify(w.node, m), Recorded(m);
            if metric in n.metrics && Shown(n.cfg, metric, n.metrics[metric]) != said.value then
              var v := Shown(n.cfg, metric, n.metrics[metric]);
              after == n.(published := n.published[m.name := Published(v, n.cfg.visibility)],
                          sent := n.sent + [Msg(m.name, v, n.cfg.visibility, n.auth.nodeId)])
            else after == n.(published := n.published[m.name := said])
  {
    hide TrimLeft, TrimRight, Bound, ValidVarName, VisibilityOf, ControlValue, HandleNotify, Owned, ConfigOk, Refused;
    var n, value := w.node, TrimSpace(m.value);
    OwnedIsRefused(n, m.name);
    HandledOwned(n, m, m.name, value);
    RecordedIs(m);
    RefusedMetric(n, m.name, metric);
    CorrectionIs(w, Shadow(n, m.name, value, m.visibility), m, metric);
  }

  lemma RefusedMetric(n: Node, name: string, metric: string)
    requires Refused(n, name, metric)
    ensures Bound(n.cfg, name).Some? && Bound(n.cfg, name).value.metric == metric
  {
  }

  lemma {:induction false} CorrectionIs(w: World, shadowed: Node, m: Msg, metric: string)
    requires WellFormed(w) && ValidVarName(m.name)
    requires shadowed == w.node.(published := w.node.published[m.name := Recorded(m)])
    ensures var n, after := w.node, Correct(shadowed, m.name, TrimSpace(m.value), metric);
            if metric in n.metrics && Shown(n.cfg, metric, n.metrics[metric]) != TrimSpace(m.value) then
              var v := Shown(n.cfg, metric, n.metrics[metric]);
              after == n.(published := n.published[m.name := Published(v, n.cfg.visibility)],
                          sent := n.sent + [Msg(m.name, v, n.cfg.visibility, n.auth.nodeId)])
            else after == shadowed
  {
    hide TrimSpace, Bound, ValidVarName, VisibilityOf, KnownValue, Shown, ConfigOk, Recorded;
    KnownIsShown(w.(node := shadowed), metric);
    NamedNotEmpty(m.name);
    var v := if metric in w.node.metrics then Shown(w.node.cfg, metric, w.node.metrics[metric]) else "";
    assert shadowed.published[m.name := Published(v, w.node.cfg.visibility)]
      == w.node.published[m.name := Published(v, w.node.cfg.visibility)];
    Traces.DefaultVisibilityIsStable(w.node.cfg);
    assert Recorded(m).value == TrimSpace(m.value) by { RecordedIs(m); }
  }

  lemma {:induction false} KnownIsShown(w: World, metric: string)
    requires WellFormed(w)
    ensures var n := w.node;
            if metric in n.metrics
            then KnownValue(n, metric) == Some(Shown(n.cfg, metric, n.metrics[metric]))
                 && Clean(Shown(n.cfg, metric, n.metrics[metric]))
            else KnownValue(n, metric) == None
  {
    hide TrimLeft, TrimRight, Bound, ValidVarName;
    DefaultsAreClean(w.node.cfg);
  }

  /** The node lets others write the variable, which controls `metric`. */
  predicate Writable(n: Node, m: Msg, metric: string) {
    Addressed(n, m) && metric in CONTROLS && Bound(n.cfg, m.name) == Some(VarBinding(metric, true))
  }

  /** What handling leaves when it asks for `value`, or for nothing: the write stands, and no message is sent. */
  predicate Queues(n: Node, after: Node, m: Msg, metric: string, value: Option<string>) {
    after == n.(published := n.published[m.name := Recorded(m)],
                pending := if value.None? then n.pending else n.pending[metric := value.value])
  }

  lemma {:induction false} WritableIsQueued(n: Node, m: Msg, metric: string)
    requires Writable(n, m, metric)
    ensures Queues(n, HandleNotify(n, m), m, metric, ControlValue(metric, TrimSpace(m.value)))
  {
    hide TrimLeft, TrimRight, BindingByVarName, ControlValue, IsReadOnly, IsControllable;
    ClassesAreListed(metric);
    RecordedIs(m);
    ValidNameIsTrimmed(m.name);
    ControllableIsName(metric);
    ValidNameIsTrimmed(metric);
    var asked := ControlValue(metric, TrimSpace(m.value));
    if asked.Some? {
      ValueSurvives(metric, TrimSpace(m.value));
    }
  }

  lemma {:induction false} ValueSurvives(metric: string, text: string)
    requires ControlValue(metric, text).Some?
    ensures var v := ControlValue(metric, text).value; TrimSpace(v) == v != ""
  {
    hide TrimSpace, ParseInt, ParseBoolish, PrintInt;
    PlainIsTrimmed("0");
    PlainIsTrimmed("1");
    if metric == VOLUME_PERCENT || metric == BRIGHTNESS_PERCENT {
      PrintedIsPlain(ClampInt(ParseInt(text).value, 0, 100));
      PlainIsTrimmed(PrintInt(ClampInt(ParseInt(text).value, 0, 100)));
    }
  }

  /** A written number is queued as the nearest percent, whatever 64-bit number it is and however it is spelled. */
  lemma {:induction false} PercentIsQueued(n: Node, m: Msg, metric: string, k: int)
    requires Writable(n, m, metric) && (metric == VOLUME_PERCENT || metric == BRIGHTNESS_PERCENT)
    requires Atoi(TrimSpace(m.value)) == Some(k)
    ensures Queues(n, HandleNotify(n, m), m, metric,
                   Some(if k < 0 then "0" else if k > 100 then "100" else PrintInt(k)))
  {
    hide TrimLeft, TrimRight, PrintNat, Atoi, Writable, HandleNotify;
    WritableIsQueued(n, m, metric);
    PrintedEnds();
    assert TrimSpace(TrimSpace(m.value)) == TrimSpace(m.value);
  }

  /** A percent that is no number queues nothing. */
  lemma {:induction false} NoNumberQueuesNothing(n: Node, m: Msg, metric: string)
    requires Writable(n, m, metric) && (metric == VOLUME_PERCENT || metric == BRIGHTNESS_PERCENT)
    requires Atoi(TrimSpace(m.value)) == None
    ensures Queues(n, HandleNotify(n, m), m, metric, None)
  {
    hide TrimLeft, TrimRight, Atoi, Writable, HandleNotify;
    WritableIsQueued(n, m, metric);
    assert TrimSpace(TrimSpace(m.value)) == TrimSpace(m.value);
  }

  lemma PrintedEnds()
    ensures PrintInt(0) == "0" && PrintInt(100) == "100"
  {
    assert PrintNat(1) == "1";
    assert PrintNat(10) == "10";
  }

  const ON_WORDS := ["1", "true", "yes", "y", "on"]
  const OFF_WORDS := ["0", "false", "no", "n", "off"]

  /** A written switch is queued as 1 or 0, in any case; other words queue nothing. */
  lemma {:induction false} SwitchIsQueued(n: Node, m: Msg, metric: string)
    requires Writable(n, m, metric) && (metric == VOLUME_MUTED || metric == FLASHLIGHT_ENABLED)
    ensures var word := ToLower(TrimSpace(m.value));
            Queues(n, HandleNotify(n, m), m, metric,
                   if word in ON_WORDS then Some("1") else if word in OFF_WORDS then Some("0") else None)
  {
    hide TrimLeft, TrimRight, Writable, HandleNotify;
    WritableIsQueued(n, m, metric);
    WordsAreListed(ToLower(TrimSpace(m.value)));
  }

  lemma WordsAreListed(w: string)
    ensures w in ON_WORDS <==> w == "1" || w == "true" || w == "yes" || w == "y" || w == "on"
    ensures w in OFF_WORDS <==> w == "0" || w == "false" || w == "no" || w == "n" || w == "off"
  {
    assert ON_WORDS[0] == "1" && ON_WORDS[1] == "true" && ON_WORDS[2] == "yes" && ON_WORDS[3] == "y" &&
      ON_WORDS[4] == "on";
    assert OFF_WORDS[0] == "0" && OFF_WORDS[1] == "false" && OFF_WORDS[2] == "no" && OFF_WORDS[3] == "n" &&
      OFF_WORDS[4] == "off";
  }
}
