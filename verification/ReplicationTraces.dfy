/** Single runs, told event by event: what a node with one variable does along them. */
module ReplicationTraces {
  import opened Wrappers
  import opened Text
  import opened Metrics
  import opened Config
  import opened Replication
  import opened ReplicationFacts
  import opened ReplicationAsync

  /** A world without its history: the history has no part in what happens next. */
  function Bare(w: World): World {
    w.(stale := {})
  }

  /** One more event of a run. */
  lemma {:induction false} Then(w: World, es: seq<Event>, e: Event) returns (longer: seq<Event>)
    requires Legal(w, es) && Enabled(Bare(Run(w, es)), e)
    ensures longer == es + [e] && Legal(w, longer)
    ensures Bare(Run(w, longer)) == Bare(Move(Bare(Run(w, es)), e))
  {
    hide Kept, TrimSpace, ValidVarName, Clean, MetricUpdate, HandleNotify, LoggedIn, Republish, LeavesBehind,
         OwnedNames;
    longer := es + [e];
    assert longer[..|longer| - 1] == es;
  }

  lemma NothingYet(w: World)
    ensures Legal(w, []) && Run(w, []) == w
  {
  }

  /** A configuration with one variable, of a metric that shows as it is read. */
  ghost predicate Alone(cfg: PublishConfig, metric: string, name: string) {
    && ConfigOk(cfg) && cfg.bindings == [Binding(metric, name)]
    && ValidVarName(name) && Clean(metric) && metric != BATTERY_PERCENT
  }

  lemma {:induction false} DefaultVisibilityIsStable(cfg: PublishConfig)
    requires ConfigOk(cfg)
    ensures VisibilityOf(cfg.visibility) == cfg.visibility && UpdateVisibility(cfg) == cfg.visibility
  {
    hide TrimSpace, Bound, ValidVarName, VisibilityOf;
    NormalVisibility(cfg.visibility);
  }

  /** A reading is sent, unless the cache holds it already. */
  lemma {:induction false} AloneReads(n: Node, metric: string, name: string, v: string)
    requires Active(n.auth) && n.reporting && n.dedupe && Alone(n.cfg, metric, name) && Clean(v)
    ensures var known, p := n.(metrics := n.metrics[metric := v]), Published(v, n.cfg.visibility);
            MetricUpdate(n, metric, v) ==
              if name in n.published && n.published[name] == p then known
              else known.(published := n.published[name := p],
                          sent := n.sent + [Msg(name, v, n.cfg.visibility, n.auth.nodeId)])
  {
    hide TrimSpace, ValidVarName, VisibilityOf, UpdateVisibility, PublishEach, ConfigOk, Publish;
    DefaultVisibilityIsStable(n.cfg);
    assert Transform(metric, v, n.cfg) == v;
    var known := n.(metrics := n.metrics[metric := v]);
    OneMatches(metric, name, v);
    OnePublish(known, Pub(name, v), n.cfg.visibility);
    PublishIs(known, name, v);
  }

  lemma {:induction false} OneMatches(metric: string, name: string, v: string)
    ensures Matching([Binding(metric, name)], metric, v) == [Pub(name, v)]
  {
    var one := [Binding(metric, name)];
    assert one[..0] == [];
    assert Matching([], metric, v) == [];
  }

  lemma {:induction false} OnePublish(n: Node, p: Pub, visibility: string)
    ensures PublishEach(n, [p], visibility) == Publish(n, p.name, p.value, visibility)
  {
    hide TrimSpace, VisibilityOf, Publish;
    assert [p][..0] == [];
  }

  lemma {:induction false} PublishIs(n: Node, name: string, v: string)
    requires ValidVarName(name) && Clean(v) && VisibilityOf(n.cfg.visibility) == n.cfg.visibility && n.dedupe
    ensures var p := Published(v, n.cfg.visibility);
            Publish(n, name, v, n.cfg.visibility) ==
              if name in n.published && n.published[name] == p then n
              else n.(published := n.published[name := p],
                      sent := n.sent + [Msg(name, v, n.cfg.visibility, n.auth.nodeId)])
  {
    hide TrimLeft, TrimRight, VisibilityOf;
    ValidNameIsTrimmed(name);
  }

  /** The node once it has logged in, started to report, and read and sent one value. */
  function Reporting(n: Node, metric: string, name: string, v: string): Node {
    n.(auth := Auth(true, 1, 1), reporting := true, metrics := map[metric := v],
       published := map[name := Published(v, n.cfg.visibility)], sent := [Msg(name, v, n.cfg.visibility, 1)])
  }

  /** How every process begins: log in, start to report, read. */
  lemma {:induction false} FirstReading(w: World, metric: string, name: string, v: string) returns (es: seq<Event>)
    requires Starts(w) && w.node.dedupe && Alone(w.node.cfg, metric, name) && Clean(v)
    ensures Legal(w, es) && Bare(Run(w, es)) == World(Reporting(w.node, metric, name, v), map[], [], {})
  {
    hide TrimSpace, ValidVarName, ConfigOk, MetricUpdate, HandleNotify, Clean, Alone, Run, Legal;
    var n := w.node;
    NothingYet(w);
    es := Then(w, [], Login(1, 1, map[]));
    assert Bare(Run(w, es)) == World(n.(auth := Auth(true, 1, 1)), map[], [], {});
    es := Then(w, es, SetReporting(true));
    n := n.(auth := Auth(true, 1, 1), reporting := true);
    assert Bare(Run(w, es)) == World(n, map[], [], {});
    es := Then(w, es, Reading(metric, v));
    AloneReads(n, metric, name, v);
    assert n.metrics[metric := v] == map[metric := v];
  }
}
