/**
 Replication when every message arrives at once: the caching node beside a
 reference node that has no cache and sends every publish.
 */
module ReplicationSync {
  import opened Wrappers
  import opened Text
  import opened Metrics
  import opened Config
  import opened Replication
  import opened ReplicationFacts
  import opened ReplicationResults
  import ActionQueue
  import Async = ReplicationAsync

  /** A node and its hub; nothing is ever under way between two events. */
  datatype Pair = Pair(node: Node, hub: map<string, Published>)

  datatype Event =
    | Reading(metric: string, value: string)
    | Foreign(write: Msg)
    | Defaults(visibility: string, noBattery: string)
    | SetReporting(on: bool)

  predicate Allowed(n: Node, e: Event) {
    match e
    case Foreign(m) => ValidVarName(m.name) && !Blank(m.value) && (m.owner == 0 || m.owner == n.auth.nodeId)
    case Defaults(v, b) => (v == PUBLIC || v == PRIVATE) && Clean(b)
    case _ => true
  }

  /** The event's effect before the node's messages arrive. */
  function React(p: Pair, e: Event): Pair {
    match e
    case Reading(metric, value) => p.(node := MetricUpdate(p.node, metric, value))
    case Foreign(m) => Pair(HandleNotify(p.node, m), Async.Store(p.hub, m))
    case Defaults(v, b) => p.(node := Republish(p.node.(cfg := p.node.cfg.(visibility := v, noBattery := b))))
    case SetReporting(on) => p.(node := p.node.(reporting := on))
  }

  function Flush(p: Pair): Pair {
    Pair(p.node.(sent := []), Drained(p.hub, p.node.sent))
  }

  function Run(p: Pair, es: seq<Event>): Pair {
    if es == [] then p else Flush(React(Run(p, es[..|es| - 1]), es[|es| - 1]))
  }

  predicate AllAllowed(n: Node, es: seq<Event>) {
    forall i :: 0 <= i < |es| ==> Allowed(n, es[i])
  }

  predicate SameEntry(a: map<string, Published>, b: map<string, Published>, name: string) {
    (name in a <==> name in b) && (name in a ==> Read(a[name]) == Read(b[name]))
  }

  /** Two hubs no reader can tell apart. */
  ghost predicate SameHub(a: map<string, Published>, b: map<string, Published>) {
    forall name :: SameEntry(a, b, name)
  }

  predicate CacheAgreesOn(n: Node, hub: map<string, Published>, name: string) {
    name in n.published ==> name in hub && Read(hub[name]) == n.published[name] && Bound(n.cfg, name).Some?
  }

  /** The cache says of every name what the hub holds. */
  ghost predicate CacheAgrees(n: Node, hub: map<string, Published>) {
    forall name :: CacheAgreesOn(n, hub, name)
  }

  /** The caching node beside the reference, once what each has sent has arrived. */
  ghost predicate Beside(a: Pair, b: Pair) {
    && a.node.dedupe && !b.node.dedupe
    && b.node == a.node.(published := b.node.published, sent := b.node.sent, dedupe := false)
    && SameHub(Drained(a.hub, a.node.sent), Drained(b.hub, b.node.sent))
    && CacheAgrees(a.node, Drained(a.hub, a.node.sent))
  }

  lemma {:induction false} DrainedAfterSend(hub: map<string, Published>, sent: seq<Msg>, m: Msg)
    ensures Drained(hub, sent + [m]) == Async.Store(Drained(hub, sent), m)
  {
    assert (sent + [m])[..|sent|] == sent;
  }

  lemma {:induction false} SentReadsBack(value: string, visibility: string)
    requires TrimSpace(value) == value
    ensures Read(Published(value, VisibilityOf(visibility))) == Published(value, VisibilityOf(visibility))
  {
    hide TrimSpace, VisibilityOf;
    VisibilityIsStable(visibility);
  }

  /** One publish: suppressed or sent, the two sides stay alike. */
  lemma {:induction false} PublishBeside(a: Pair, b: Pair, name: string, value: string, visibility: string)
    requires Beside(a, b) && ValidVarName(name) && Bound(a.node.cfg, name).Some?
    ensures Beside(a.(node := Publish(a.node, name, value, visibility)),
        b.(node := Publish(b.node, name, value, visibility)))
  {
    hide TrimLeft, TrimRight, VisibilityOf, ValidVarName, Bound, Drained;
    ValidNameIsTrimmed(name);
    var v, vis := TrimSpace(value), VisibilityOf(visibility);
    var m := Msg(name, v, vis, a.node.auth.nodeId);
    SentReadsBack(v, visibility);
    DrainedAfterSend(a.hub, a.node.sent, m);
    DrainedAfterSend(b.hub, b.node.sent, m);
    if v == "" || name == "" {
      return;
    }
    var hubA, hubB := Drained(a.hub, a.node.sent), Drained(b.hub, b.node.sent);
    var a', b' := a.(node := Publish(a.node, name, value, visibility)),
      b.(node := Publish(b.node, name, value, visibility));
    assert Drained(b'.hub, b'.node.sent) == Async.Store(hubB, m);
    if name in a.node.published && a.node.published[name] == Published(v, vis) {
      assert a' == a;
      assert CacheAgreesOn(a.node, hubA, name);
      StoredSame(hubA, hubB, m);
    } else {
      assert a'.node == a.node.(published := a.node.published[name := Published(v, vis)], sent := a.node.sent + [m]);
      assert Drained(a'.hub, a'.node.sent) == Async.Store(hubA, m);
      BothStored(hubA, hubB, m, m);
      CacheStored(a.node, hubA, m);
      var stored := a.node.(published := a.node.published[name := Read(Published(v, vis))]);
      SameCache(stored, a'.node, Async.Store(hubA, m));
    }
  }

  /** Storing what is already there, as it reads, changes nothing a reader sees. */
  lemma {:induction false} StoredSame(a: map<string, Published>, b: map<string, Published>, m: Msg)
    requires SameHub(a, b)
    requires m.name in a && Read(a[m.name]) == Read(Published(m.value, m.visibility))
    ensures SameHub(a, Async.Store(b, m))
  {
    hide Read;
    forall name ensures SameEntry(a, Async.Store(b, m), name) {
      assert SameEntry(a, b, name);
    }
  }

  lemma {:induction false} BothStored(a: map<string, Published>, b: map<string, Published>, m: Msg, m': Msg)
    requires SameHub(a, b)
    requires m.name == m'.name && Read(Published(m.value, m.visibility)) == Read(Published(m'.value, m'.visibility))
    ensures SameHub(Async.Store(a, m), Async.Store(b, m'))
  {
    hide Read;
    forall name ensures SameEntry(Async.Store(a, m), Async.Store(b, m'), name) {
      assert SameEntry(a, b, name);
    }
  }

  lemma {:induction false} CacheStored(n: Node, hub: map<string, Published>, m: Msg)
    requires CacheAgrees(n, hub) && Bound(n.cfg, m.name).Some?
    ensures CacheAgrees(n.(published := n.published[m.name := Read(Published(m.value, m.visibility))]),
        Async.Store(hub, m))
  {
    hide Read, Bound;
    var after := n.(published := n.published[m.name := Read(Published(m.value, m.visibility))]);
    forall name ensures CacheAgreesOn(after, Async.Store(hub, m), name) {
      assert CacheAgreesOn(n, hub, name);
    }
  }

  lemma {:induction false} SameCache(n: Node, after: Node, hub: map<string, Published>)
    requires CacheAgrees(n, hub) && after.published == n.published && after.cfg == n.cfg
    ensures CacheAgrees(after, hub)
  {
    hide Read, Bound;
    forall name ensures CacheAgreesOn(after, hub, name) {
      assert CacheAgreesOn(n, hub, name);
    }
  }

  predicate PlanBound(cfg: PublishConfig, plan: seq<Pub>) {
    forall i :: 0 <= i < |plan| ==> ValidVarName(plan[i].name) && Bound(cfg, plan[i].name).Some?
  }

  lemma {:induction false} EachBeside(a: Pair, b: Pair, plan: seq<Pub>, visibility: string)
    requires Beside(a, b) && PlanBound(a.node.cfg, plan)
    ensures Beside(a.(node := PublishEach(a.node, plan, visibility)), b.(node := PublishEach(b.node, plan, visibility)))
  {
    hide TrimSpace, VisibilityOf, ValidVarName, Bound, Drained, SameHub, CacheAgrees, Publish;
    if plan != [] {
      var front, p := plan[..|plan| - 1], plan[|plan| - 1];
      EachBeside(a, b, front, visibility);
      Async.EachKeepsRest(a.node, front, visibility);
      PublishBeside(a.(node := PublishEach(a.node, front, visibility)),
                    b.(node := PublishEach(b.node, front, visibility)),
                    p.name, p.value, visibility);
    }
  }

  lemma {:induction false} MatchingIsBound(cfg: PublishConfig, bindings: seq<Binding>, metric: string, value: string)
    requires forall i :: 0 <= i < |bindings| ==>
      ValidVarName(bindings[i].varName) && Bound(cfg, bindings[i].varName).Some?
    ensures PlanBound(cfg, Matching(bindings, metric, value))
  {
    hide ValidVarName, Bound;
    if bindings != [] {
      MatchingIsBound(cfg, bindings[..|bindings| - 1], metric, value);
    }
  }

  lemma {:induction false} RefreshIsBound(cfg: PublishConfig, bindings: seq<Binding>, metrics: map<string, string>)
    requires forall i :: 0 <= i < |bindings| ==>
      ValidVarName(bindings[i].varName) && Bound(cfg, bindings[i].varName).Some?
    ensures PlanBound(cfg, Refresh(bindings, metrics, cfg))
  {
    hide ValidVarName, Bound, TrimSpace, Transform;
    if bindings != [] {
      RefreshIsBound(cfg, bindings[..|bindings| - 1], metrics);
    }
  }

  lemma {:induction false} ReadingBeside(a: Pair, b: Pair, metric: string, text: string)
    requires Beside(a, b) && ConfigOk(a.node.cfg)
    ensures Beside(React(a, Reading(metric, text)), React(b, Reading(metric, text)))
  {
    hide TrimSpace, VisibilityOf, ValidVarName, Bound, Drained, SameHub, Transform, PublishEach, Matching;
    var n, m, raw := a.node, TrimSpace(metric), TrimSpace(text);
    var known := n.(metrics := n.metrics[m := raw]);
    var value := Transform(m, raw, n.cfg);
    var plan := Matching(n.cfg.bindings, m, value);
    MatchingIsBound(n.cfg, n.cfg.bindings, m, value);
    var a', b' := a.(node := known), b.(node := b.node.(metrics := known.metrics));
    assert Beside(a', b') by { OtherFieldsBeside(a, b, a', b'); }
    EachBeside(a', b', plan, UpdateVisibility(n.cfg));
  }

  /** The relation does not look at readings, defaults or reporting. */
  lemma {:induction false} OtherFieldsBeside(a: Pair, b: Pair, a': Pair, b': Pair)
    requires Beside(a, b) && a'.hub == a.hub && b'.hub == b.hub
    requires a'.node.published == a.node.published && b'.node.published == b.node.published
    requires a'.node.sent == a.node.sent && b'.node.sent == b.node.sent && a'.node.dedupe && !b'.node.dedupe
    requires b'.node == a'.node.(published := b'.node.published, sent := b'.node.sent, dedupe := false)
    requires a'.node.cfg.bindings == a.node.cfg.bindings && a'.node.cfg.byVarName == a.node.cfg.byVarName
    ensures Beside(a', b')
  {
    hide Read, Drained, BindingByVarName;
    var hub := Drained(a.hub, a.node.sent);
    forall name ensures CacheAgreesOn(a'.node, hub, name) {
      assert CacheAgreesOn(a.node, hub, name);
    }
  }

  lemma {:induction false} DefaultsBeside(a: Pair, b: Pair, v: string, d: string)
    requires Beside(a, b) && ConfigOk(a.node.cfg) && Allowed(a.node, Defaults(v, d))
    ensures Beside(React(a, Defaults(v, d)), React(b, Defaults(v, d)))
    ensures ConfigOk(a.node.cfg.(visibility := v, noBattery := d))
  {
    hide TrimSpace, VisibilityOf, ValidVarName, Bound, Drained, SameHub, PublishEach, Refresh;
    var cfg := a.node.cfg.(visibility := v, noBattery := d);
    Async.SameBindings(a.node.cfg, v, d);
    var a', b' := a.(node := a.node.(cfg := cfg)), b.(node := b.node.(cfg := cfg));
    OtherFieldsBeside(a, b, a', b');
    RefreshIsBound(cfg, cfg.bindings, a.node.metrics);
    EachBeside(a', b', Refresh(cfg.bindings, a.node.metrics, cfg), v);
  }

  lemma {:induction false} ForeignBeside(a: Pair, b: Pair, m: Msg)
    requires Beside(a, b) && a.node.sent == [] && b.node.sent == [] && Active(a.node.auth) &&
        Allowed(a.node, Foreign(m))
    ensures Beside(React(a, Foreign(m)), React(b, Foreign(m)))
  {
    hide TrimLeft, TrimRight, VisibilityOf, ValidVarName, Bound, SameHub, CacheAgrees, ControlValue, KnownValue,
         Publish, Read;
    NamedNotEmpty(m.name);
    BothStored(a.hub, b.hub, m, m);
    var value := TrimSpace(m.value);
    if Bound(a.node.cfg, m.name).Some? {
      var a', b' := Pair(Shadow(a.node, m.name, value, m.visibility), Async.Store(a.hub, m)),
                    Pair(Shadow(b.node, m.name, value, m.visibility), Async.Store(b.hub, m));
      CacheStored(a.node, a.hub, m);
      ShadowIsRead(a.node, m);
      ShadowIsRead(b.node, m);
      assert Beside(a', b');
      var bound := Bound(a.node.cfg, m.name).value;
      if Protected(bound) {
        CorrectBeside(a', b', m.name, value, bound.metric);
      } else if ControlValue(bound.metric, value).Some? {
        var pending := ActionQueue.Enqueued(a.node.pending, bound.metric, ControlValue(bound.metric, value).value);
        OtherFieldsBeside(a', b', a'.(node := a'.node.(pending := pending)), b'.(node := b'.node.(pending := pending)));
      }
    } else {
      UnboundStored(a.node, a.hub, m);
    }
  }

  lemma {:induction false} ShadowIsRead(n: Node, m: Msg)
    requires TrimSpace(m.name) == m.name && m.name != "" && !Blank(m.value)
    ensures Shadow(n, m.name, TrimSpace(m.value), m.visibility)
         == n.(published := n.published[m.name := Read(Published(m.value, m.visibility))])
  {
    hide TrimLeft, TrimRight, VisibilityOf;
  }

  lemma {:induction false} UnboundStored(n: Node, hub: map<string, Published>, m: Msg)
    requires CacheAgrees(n, hub) && Bound(n.cfg, m.name).None?
    ensures CacheAgrees(n, Async.Store(hub, m))
  {
    hide Read, Bound;
    forall name ensures CacheAgreesOn(n, Async.Store(hub, m), name) {
      assert CacheAgreesOn(n, hub, name);
    }
  }

  lemma {:induction false} CorrectBeside(a: Pair, b: Pair, name: string, value: string, metric: string)
    requires Beside(a, b) && ValidVarName(name) && Bound(a.node.cfg, name).Some?
    ensures Beside(a.(node := Correct(a.node, name, value, metric)), b.(node := Correct(b.node, name, value, metric)))
  {
    hide TrimSpace, VisibilityOf, ValidVarName, Bound, Drained, SameHub, CacheAgrees, Publish, Transform;
    if KnownValue(a.node, metric).Some? {
      PublishBeside(a, b, name, KnownValue(a.node, metric).value, a.node.cfg.visibility);
    }
  }

  /** Two sides that start alike, logged in, with nothing published. */
  ghost predicate StartsAlike(a: Pair, b: Pair) {
    && a.node.dedupe && b.node == a.node.(dedupe := false) && b.hub == a.hub
    && a.node.sent == [] && a.node.published == map[] && Active(a.node.auth) && ConfigOk(a.node.cfg)
  }

  ghost predicate Alike(a: Pair, b: Pair, auth: Auth) {
    && Beside(a, b) && a.node.sent == [] && b.node.sent == []
    && ConfigOk(a.node.cfg) && a.node.auth == auth
  }

  lemma {:induction false} FlushedIsAlike(a: Pair, b: Pair)
    requires Beside(a, b)
    ensures Beside(Flush(a), Flush(b))
  {
    hide Read, Bound, SameHub;
    var fa := Flush(a);
    forall name ensures CacheAgreesOn(fa.node, fa.hub, name) {
      assert CacheAgreesOn(a.node, Drained(a.hub, a.node.sent), name);
    }
  }

  lemma {:induction false} StepIsAlike(a: Pair, b: Pair, auth: Auth, e: Event)
    requires Alike(a, b, auth) && Active(auth) && Allowed(a.node, e)
    ensures Alike(Flush(React(a, e)), Flush(React(b, e)), auth)
  {
    hide Beside, ConfigOk, ValidVarName, TrimSpace, MetricUpdate, HandleNotify, Republish;
    match e {
      case Reading(metric, value) =>
        ReadingBeside(a, b, metric, value);
      case Foreign(m) =>
        ForeignBeside(a, b, m);
      case Defaults(v, d) =>
        DefaultsBeside(a, b, v, d);
      case SetReporting(on) =>
        SwitchBeside(a, b, on);
    }
    KeepsIdentity(a, e);
    FlushedIsAlike(React(a, e), React(b, e));
  }

  lemma {:induction false} SwitchBeside(a: Pair, b: Pair, on: bool)
    requires Beside(a, b)
    ensures Beside(React(a, SetReporting(on)), React(b, SetReporting(on)))
  {
    hide SameHub, CacheAgrees;
    OtherFieldsBeside(a, b, React(a, SetReporting(on)), React(b, SetReporting(on)));
  }

  /** No event of a session changes who the node is; only Defaults changes its configuration. */
  lemma {:induction false} KeepsIdentity(p: Pair, e: Event)
    ensures var t := React(p, e);
            && t.node.auth == p.node.auth
            && t.node.cfg ==
                 if e.Defaults? then p.node.cfg.(visibility := e.visibility, noBattery := e.noBattery)
                 else p.node.cfg
  {
    hide TrimSpace, VisibilityOf, ValidVarName, Bound, Transform, ControlValue, KnownValue, PublishEach;
    match e
    case Reading(metric, value) =>
      var n, m, raw := p.node, TrimSpace(metric), TrimSpace(value);
      Async.EachKeepsRest(n.(metrics := n.metrics[m := raw]), Matching(n.cfg.bindings, m, Transform(m, raw, n.cfg)),
                          UpdateVisibility(n.cfg));
    case Defaults(v, d) =>
      Async.RepublishKeepsRest(p.node.(cfg := p.node.cfg.(visibility := v, noBattery := d)));
    case _ =>
  }

  lemma {:induction false} RunIsAlike(a: Pair, b: Pair, es: seq<Event>)
    requires StartsAlike(a, b) && AllAllowed(a.node, es)
    ensures Alike(Run(a, es), Run(b, es), a.node.auth)
  {
    hide ConfigOk, React;
    if es != [] {
      var before := es[..|es| - 1];
      RunIsAlike(a, b, before);
      AllowedByOwner(a.node, Run(a, before).node, es[|es| - 1]);
      StepIsAlike(Run(a, before), Run(b, before), a.node.auth, es[|es| - 1]);
    }
  }

  lemma {:induction false} AllowedByOwner(n: Node, n': Node, e: Event)
    requires n.auth == n'.auth
    ensures Allowed(n, e) <==> Allowed(n', e)
  {
    hide TrimSpace, ValidVarName;
  }

  /**
   De-duplication is invisible: over any run of readings, foreign writes and changed
   defaults, writable variables included, the hub reads as if every publish had
   been sent, and the control actions are the same.
   */
  lemma {:induction false} DedupeIsInvisible(a: Pair, b: Pair, es: seq<Event>)
    requires StartsAlike(a, b) && AllAllowed(a.node, es)
    ensures SameHub(Run(a, es).hub, Run(b, es).hub)
    ensures Run(a, es).node.pending == Run(b, es).node.pending && Run(a, es).node.metrics == Run(b, es).node.metrics
  {
    hide ConfigOk, SameHub, CacheAgrees;
    RunIsAlike(a, b, es);
  }

  /** And the cache equals the hub's entry, as it reads, for every name it holds. */
  lemma {:induction false} CacheEqualsHub(a: Pair, b: Pair, es: seq<Event>, name: string)
    requires StartsAlike(a, b) && AllAllowed(a.node, es)
    ensures var t := Run(a, es);
            name in t.node.published ==>
              && name in t.hub
              && t.node.published[name] == Published(TrimSpace(t.hub[name].value), VisibilityOf(t.hub[name].visibility))
  {
    hide ConfigOk, SameHub, TrimSpace, VisibilityOf, Bound;
    RunIsAlike(a, b, es);
    assert CacheAgreesOn(Run(a, es).node, Run(a, es).hub, name);
  }
}
