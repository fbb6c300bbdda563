/**
 Publishing local metrics to a remote variable store, with a cache of what was
 last published, and answering foreign writes to the same variables.
 */
module Replication {
  import opened Wrappers
  import opened Text
  import opened Decimal
  import opened Metrics
  import opened Config
  import ActionQueue

  datatype Auth = Auth(loggedIn: bool, nodeId: nat, hubId: nat)

  datatype Published = Published(value: string, visibility: string)

  /** A set request or a notification of one; `owner` 0 stands for an absent owner. */
  datatype Msg = Msg(name: string, value: string, visibility: string, owner: nat)

  /** The part of the live configuration that publishing reads. */
  datatype PublishConfig = PublishConfig(bindings: seq<Binding>, byVarName: map<string, VarBinding>,
                                         visibility: string, noBattery: string)

  /**
   What one runtime remembers, and `sent`, the requests it has handed to its
   session. `dedupe` is false only in the reference node that sends every publish.
   */
  datatype Node = Node(auth: Auth, reporting: bool, cfg: PublishConfig,
                       metrics: map<string, string>, published: map<string, Published>,
                       pending: map<string, string>, sent: seq<Msg>, dedupe: bool)

  predicate Active(a: Auth) {
    a.loggedIn && a.nodeId != 0 && a.hubId != 0
  }

  function Bound(cfg: PublishConfig, name: string): Option<VarBinding> {
    BindingByVarName(cfg.bindings, cfg.byVarName, name)
  }

  /** transformMetricValue: a missing battery shows as the configured text. */
  function Transform(metric: string, text: string, cfg: PublishConfig): string {
    var raw := TrimSpace(text);
    if raw == "" then ""
    else if metric == BATTERY_PERCENT && raw == "-1" then
      var v := TrimSpace(cfg.noBattery);
      if v == "" then DEFAULT_NO_BATTERY else v
    else raw
  }

  /** currentPublishedMetricValue. */
  function KnownValue(n: Node, metric: string): Option<string> {
    if metric !in n.metrics then None
    else
      var v := Transform(metric, n.metrics[metric], n.cfg);
      if Blank(v) then None else Some(v)
  }

  /** publishVar: record and send as one step, unless the cache already holds the value. */
  function Publish(n: Node, varName: string, text: string, visibility: string): Node {
    var name, value, vis := TrimSpace(varName), TrimSpace(text), VisibilityOf(visibility);
    if name == "" || value == "" || !ValidVarName(name) then n
    else if n.dedupe && name in n.published && n.published[name] == Published(value, vis) then n
    else n.(published := n.published[name := Published(value, vis)],
            sent := n.sent + [Msg(name, value, vis, n.auth.nodeId)])
  }

  /** updatePublishedShadow: what a foreign write leaves at the hub. */
  function Shadow(n: Node, varName: string, text: string, visibility: string): Node {
    var name, value := TrimSpace(varName), TrimSpace(text);
    if name == "" || value == "" then n
    else n.(published := n.published[name := Published(value, VisibilityOf(visibility))])
  }

  /** One intended publish. */
  datatype Pub = Pub(name: string, value: string)

  function PublishEach(n: Node, plan: seq<Pub>, visibility: string): Node {
    if plan == [] then n
    else
      var before, p := PublishEach(n, plan[..|plan| - 1], visibility), plan[|plan| - 1];
      Publish(before, p.name, p.value, visibility)
  }

  /** The publishes one metric reading calls for. */
  function Matching(bindings: seq<Binding>, metric: string, value: string): seq<Pub> {
    if bindings == [] then []
    else
      var before, b := Matching(bindings[..|bindings| - 1], metric, value), bindings[|bindings| - 1];
      if b.metric == metric then before + [Pub(b.varName, value)] else before
  }

  /** The publishes that bring every bound variable with a reading up to date. */
  function Refresh(bindings: seq<Binding>, metrics: map<string, string>, cfg: PublishConfig): seq<Pub> {
    if bindings == [] then []
    else
      var before, b := Refresh(bindings[..|bindings| - 1], metrics, cfg), bindings[|bindings| - 1];
      if b.metric in metrics && !Blank(metrics[b.metric])
      then before + [Pub(b.varName, Transform(b.metric, metrics[b.metric], cfg))] else before
  }

  /** The visibility of a metric update: blank means public. */
  function UpdateVisibility(cfg: PublishConfig): string {
    var v := TrimSpace(cfg.visibility);
    if v == "" then PUBLIC else v
  }

  /** handleMetricUpdate. */
  function MetricUpdate(n: Node, name: string, text: string): Node {
    var metric, raw := TrimSpace(name), TrimSpace(text);
    if metric == "" || raw == "" || !n.reporting || !Active(n.auth) then n
    else
      var known := n.(metrics := n.metrics[metric := raw]);
      var value := Transform(metric, raw, n.cfg);
      if value == "" then known
      else PublishEach(known, Matching(n.cfg.bindings, metric, value), UpdateVisibility(n.cfg))
  }

  /** republishFromConfig. */
  function Republish(n: Node): Node {
    if !n.reporting || !Active(n.auth) then n
    else PublishEach(n, Refresh(n.cfg.bindings, n.metrics, n.cfg), n.cfg.visibility)
  }

  /** forceRepublishFromConfig: forget what was published, then republish. */
  function ForceRepublish(n: Node): Node {
    if !n.reporting then n else Republish(n.(published := map[]))
  }

  /** What a successful login does: fresh identity, then a forced republish. */
  function LoggedIn(n: Node, nodeId: nat, hubId: nat): Node {
    ForceRepublish(n.(auth := Auth(true, nodeId, hubId)))
  }

  // ---------------------------------------------------------------- foreign writes

  function ClampInt(n: int, min: int, max: int): int {
    if n < min then min else if n > max then max else n
  }

  function ParseInt(text: string): Option<int> {
    Atoi(TrimSpace(text))
  }

  function ParseBoolish(text: string): Option<bool> {
    var v := ToLower(TrimSpace(text));
    if v == "1" || v == "true" || v == "yes" || v == "y" || v == "on" then Some(true)
    else if v == "0" || v == "false" || v == "no" || v == "n" || v == "off" then Some(false)
    else None
  }

  /** The control value a write asks for, in canonical form: 0..100, or 0 and 1. */
  function ControlValue(metric: string, value: string): Option<string> {
    if metric == VOLUME_PERCENT || metric == BRIGHTNESS_PERCENT then
      match ParseInt(value) case None => None case Some(p) => Some(PrintInt(ClampInt(p, 0, 100)))
    else if metric == VOLUME_MUTED || metric == FLASHLIGHT_ENABLED then
      match ParseBoolish(value) case None => None case Some(b) => Some(if b then "1" else "0")
    else None
  }

  /** Writes back the metric's own value, if there is one and the write changed it. */
  function Correct(n: Node, name: string, value: string, metric: string): Node {
    match KnownValue(n, metric)
    case None => n
    case Some(correct) => if value == correct then n else Publish(n, name, correct, n.cfg.visibility)
  }

  /** A bound variable the node does not let others write. */
  predicate Protected(b: VarBinding) {
    if IsControllable(b.metric) then !b.writable else IsReadOnly(b.metric)
  }

  /** handleVarStoreNotifySet. */
  function HandleNotify(n: Node, m: Msg): Node {
    var name, value := TrimSpace(m.name), TrimSpace(m.value);
    if !Active(n.auth) || name == "" || value == "" || (m.owner != 0 && m.owner != n.auth.nodeId) then n
    else
      match Bound(n.cfg, name)
      case None => n
      case Some(b) =>
        var shadowed := Shadow(n, name, value, m.visibility);
        if Protected(b) then Correct(shadowed, name, value, b.metric)
        else
          match ControlValue(b.metric, value)
          case None => shadowed
          case Some(v) => shadowed.(pending := ActionQueue.Enqueued(shadowed.pending, b.metric, v))
  }
}
