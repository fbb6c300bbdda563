/**
 The runtime object as its handlers update it, one call at a time. Each method is
 tied to the functions that say what it makes of a node, in module Replication, and
 of a session, in module Session, where whole runs of calls are reasoned about.
 */
module RuntimeNode {
  import opened Wrappers
  import opened Text
  import opened Metrics
  import opened Config
  import opened Replication
  import Session
  import ActionQueue
  import Decimal

  /** Publishing one more variable after the planned ones. */
  lemma {:induction false} EachAppended(n: Node, plan: seq<Pub>, p: Pub, visibility: string)
    ensures PublishEach(n, plan + [p], visibility) == Publish(PublishEach(n, plan, visibility), p.name, p.value,
        visibility)
  {
    hide Publish;
    assert (plan + [p])[..|plan|] == plan;
  }

  lemma {:induction false} MatchingAppended(bindings: seq<Binding>, k: nat, metric: string, value: string)
    requires k < |bindings|
    ensures var before, b := Matching(bindings[..k], metric, value), bindings[k];
            Matching(bindings[..k + 1], metric, value) ==
              if b.metric == metric then before + [Pub(b.varName, value)] else before
  {
    assert bindings[..k + 1][..k] == bindings[..k];
  }

  lemma {:induction false} RefreshAppended(bindings: seq<Binding>, k: nat, metrics: map<string, string>,
                                           cfg: PublishConfig)
    requires k < |bindings|
    ensures var before, b := Refresh(bindings[..k], metrics, cfg), bindings[k];
            Refresh(bindings[..k + 1], metrics, cfg) ==
              if b.metric in metrics && !Blank(metrics[b.metric])
              then before + [Pub(b.varName, Transform(b.metric, metrics[b.metric], cfg))] else before
  {
    hide TrimSpace, Transform;
    assert bindings[..k + 1][..k] == bindings[..k];
  }

  class Runtime {
    var auth: Auth
    var device: string
    var saved: Option<Session.Snapshot>  // on disk
    var addr: string
    var connected: bool
    var reconnectDesired: bool
    var reconnectRunning: bool
    var reconnectCancelled: bool
    var reportEnabled: bool
    var notifyRunning: bool
    var cfg: PublishConfig
    var lastMetrics: map<string, string>
    var lastPublished: map<string, Published>
    var sent: seq<Msg>  // handed to the session so far
    const controlQ: ActionQueue.Queue

    ghost function View(): Node reads this, controlQ {
      Node(auth, reportEnabled, cfg, lastMetrics, lastPublished, controlQ.latest, sent, true)
    }

    ghost function Link(): Session.Link reads this {
      Session.Link(Session.Snapshot(auth, device), saved, addr, connected, reconnectDesired, reconnectRunning,
                   reconnectCancelled, reportEnabled, notifyRunning)
    }

    /** A process starts with the identity it saved, and never logged in. */
    constructor (config: PublishConfig, snapshot: Option<Session.Snapshot>)
      ensures fresh(controlQ) && Link() == Session.Started(snapshot)
      ensures View() == Node(auth, false, config, map[], map[], map[], [], true)
    {
      var kept := if snapshot.Some? then Some(Session.LoggedOff(snapshot.value)) else None;
      auth := if kept.Some? then kept.value.auth else Auth(false, 0, 0);
      device := if kept.Some? then kept.value.device else "";
      saved := kept;
      addr, connected, reconnectDesired, reconnectRunning, reconnectCancelled := "", false, false, false, false;
      reportEnabled, notifyRunning := false, false;
      cfg := config;
      lastMetrics, lastPublished, sent := map[], map[], [];
      controlQ := new ActionQueue.Queue();
    }

    method PublishVar(sourceId: nat, varName: string, text: string, visibility: string)
      requires sourceId == auth.nodeId
      modifies this`lastPublished, this`sent
      ensures View() == Publish(old(View()), varName, text, visibility)
    {
      hide TrimSpace, ValidVarName;
      var name, value, vis := TrimSpace(varName), TrimSpace(text), ToLower(TrimSpace(visibility));
      if name == "" || value == "" {
        return;
      }
      if vis == "" {
        vis := PUBLIC;
      }
      if !ValidVarName(name) {
        return;
      }
      if name in lastPublished && lastPublished[name].value == value && lastPublished[name].visibility == vis {
        return;
      }
      lastPublished := lastPublished[name := Published(value, vis)];
      sent := sent + [Msg(name, value, vis, sourceId)];
    }

    method HandleMetricUpdate(name: string, text: string)
      modifies this`lastMetrics, this`lastPublished, this`sent
      ensures View() == MetricUpdate(old(View()), name, text)
    {
      hide TrimSpace, VisibilityOf, Transform, Publish;
      var metric, raw := TrimSpace(name), TrimSpace(text);
      if metric == "" || raw == "" || !reportEnabled || !Active(auth) {
        return;
      }
      lastMetrics := lastMetrics[metric := raw];
      ghost var known := View();
      if |cfg.bindings| == 0 {
        assert Matching([], metric, Transform(metric, raw, cfg)) == [];
        return;
      }
      var visibility := TrimSpace(cfg.visibility);
      if visibility == "" {
        visibility := PUBLIC;
      }
      var publishValue := Transform(metric, raw, cfg);
      if publishValue == "" {
        return;
      }
      for i := 0 to |cfg.bindings|
        invariant auth == old(auth) && cfg == old(cfg) && controlQ.latest == old(controlQ.latest)
        invariant View() == PublishEach(known, Matching(cfg.bindings[..i], metric, publishValue), visibility)
      {
        var b := cfg.bindings[i];
        MatchingAppended(cfg.bindings, i, metric, publishValue);
        if b.metric != metric {
          continue;
        }
        EachAppended(known, Matching(cfg.bindings[..i], metric, publishValue), Pub(b.varName, publishValue),
                     visibility);
        PublishVar(auth.nodeId, b.varName, publishValue, visibility);
      }
      assert cfg.bindings[..|cfg.bindings|] == cfg.bindings;
    }

    method RepublishFromConfig()
      modifies this`lastPublished, this`sent
      ensures View() == Republish(old(View()))
    {
      hide TrimSpace, VisibilityOf, Transform, Publish;
      if !reportEnabled || !Active(auth) {
        return;
      }
      var rawMetrics := lastMetrics;
      for i := 0 to |cfg.bindings|
        invariant auth == old(auth) && cfg == old(cfg) && controlQ.latest == old(controlQ.latest)
        invariant View() == PublishEach(old(View()), Refresh(cfg.bindings[..i], rawMetrics, cfg), cfg.visibility)
      {
        var b := cfg.bindings[i];
        RefreshAppended(cfg.bindings, i, rawMetrics, cfg);
        if b.metric !in rawMetrics || Blank(rawMetrics[b.metric]) {
          continue;
        }
        var val := Transform(b.metric, rawMetrics[b.metric], cfg);
        EachAppended(old(View()), Refresh(cfg.bindings[..i], rawMetrics, cfg), Pub(b.varName, val), cfg.visibility);
        PublishVar(auth.nodeId, b.varName, val, cfg.visibility);
      }
      assert cfg.bindings[..|cfg.bindings|] == cfg.bindings;
    }

    method ForceRepublishFromConfig()
      modifies this`lastPublished, this`sent
      ensures View() == ForceRepublish(old(View()))
    {
      if !reportEnabled {
        return;
      }
      lastPublished := map[];
      RepublishFromConfig();
    }

    method UpdatePublishedShadow(varName: string, text: string, visibility: string)
      modifies this`lastPublished
      ensures View() == Shadow(old(View()), varName, text, visibility)
    {
      hide TrimSpace;
      var name, value := TrimSpace(varName), TrimSpace(text);
      if name == "" || value == "" {
        return;
      }
      var vis := ToLower(TrimSpace(visibility));
      if vis == "" {
        vis := PUBLIC;
      }
      lastPublished := lastPublished[name := Published(value, vis)];
    }

    method CurrentPublishedMetricValue(metric: string) returns (val: string, ok: bool)
      ensures (if ok then Some(val) else None) == KnownValue(View(), metric)
    {
      hide TrimSpace, Transform;
      if metric !in lastMetrics {
        return "", false;
      }
      val := Transform(metric, lastMetrics[metric], cfg);
      if Blank(val) {
        return "", false;
      }
      return val, true;
    }

    /** The correction both branches for protected variables end in. */
    method WriteBack(name: string, value: string, metric: string)
      modifies this`lastPublished, this`sent
      ensures View() == Correct(old(View()), name, value, metric)
    {
      hide TrimSpace, Transform, Publish;
      var correct, ok := CurrentPublishedMetricValue(metric);
      if !ok || correct == "" {
        assert ok ==> Blank(correct) by { EmptyIsBlank(); }
        return;
      }
      if value == correct {
        return;
      }
      PublishVar(auth.nodeId, name, correct, cfg.visibility);
    }

    method HandleVarStoreNotifySet(m: Msg)
      modifies this`lastPublished, this`sent, controlQ
      ensures View() == HandleNotify(old(View()), m)
    {
      hide TrimSpace, BindingByVarName, ParseInt, ParseBoolish, Correct, Shadow;
      var name, value := TrimSpace(m.name), TrimSpace(m.value);
      if !Active(auth) || name == "" || value == "" {
        return;
      }
      if m.owner != 0 && m.owner != auth.nodeId {
        return;
      }
      var binding := BindingByVarName(cfg.bindings, cfg.byVarName, name);
      if binding.None? {
        return;
      }
      var metric := binding.value.metric;
      UpdatePublishedShadow(name, value, m.visibility);
      if IsControllable(metric) && !binding.value.writable {
        WriteBack(name, value, metric);
        return;
      }
      if metric == VOLUME_PERCENT || metric == BRIGHTNESS_PERCENT {
        var percent := ParseInt(value);
        if percent.Some? {
          controlQ.Enqueue(metric, Decimal.PrintInt(ClampInt(percent.value, 0, 100)));
        }
      } else if metric == VOLUME_MUTED || metric == FLASHLIGHT_ENABLED {
        var on := ParseBoolish(value);
        if on.Some? {
          controlQ.Enqueue(metric, if on.value then "1" else "0");
        }
      } else if IsReadOnly(metric) {
        WriteBack(name, value, metric);
      }
    }

    /** Reporting starts only for a node that is logged in. */
    method StartReporting() returns (ok: bool)
      modifies this
      ensures ok == Active(auth)
      ensures unchanged(this`cfg, this`lastMetrics, this`lastPublished, this`sent)
      ensures Link() == if ok then Session.After(old(Link()), Session.Report(true)) else old(Link())
    {
      if !Active(auth) {
        return false;
      }
      reportEnabled := true;
      return true;
    }

    method StopReporting()
      modifies this`reportEnabled
      ensures !reportEnabled
    {
      reportEnabled := false;
    }

    /** A reply to a login or a registration: only a grant brings an identity, which is saved. */
    method TakeReply(deviceId: string, reply: Session.Reply) returns (ok: bool)
      modifies this
      ensures ok == reply.Granted? && Link() == Session.Replied(old(Link()), deviceId, reply)
      ensures unchanged(this`cfg, this`lastMetrics, this`lastPublished, this`sent)
    {
      hide TrimSpace;
      if !reply.Granted? {
        auth := auth.(loggedIn := false);
        return false;
      }
      auth, device := Auth(true, reply.nodeId, reply.hubId), TrimSpace(deviceId);
      saved := Some(Session.Snapshot(auth, device));
      return true;
    }

    /**
     Login, given the hub's reply. A grant brings, besides the identity, the wish to stay
     connected and a forced republish; a running listener is then to subscribe again.
     */
    method Login(deviceId: string, nodeId: nat, reply: Session.Reply) returns (ok: bool, resubscribe: bool)
      modifies this
      ensures ok <==> !Blank(deviceId) && nodeId != 0 && old(connected) && reply.Granted?
      ensures Link() == Session.LoginAs(old(Link()), deviceId, nodeId, reply)
      ensures View() == if ok then LoggedIn(old(View()), reply.nodeId, reply.hubId) else old(View()).(auth := auth)
      ensures resubscribe == (ok && notifyRunning)
    {
      hide TrimSpace, ForceRepublish;
      if Blank(deviceId) || nodeId == 0 || !connected {
        return false, false;
      }
      ok := TakeReply(deviceId, reply);
      if !ok {
        return false, false;
      }
      reconnectDesired := true;
      ForceRepublishFromConfig();
      return true, notifyRunning;
    }

    /** Register: a grant logs the node in, but brings neither the wish to stay connected nor a republish. */
    method Register(deviceId: string, reply: Session.Reply) returns (ok: bool)
      modifies this
      ensures ok <==> !Blank(deviceId) && old(connected) && reply.Granted?
      ensures Link() == Session.RegisterAs(old(Link()), deviceId, reply)
      ensures unchanged(this`cfg, this`lastMetrics, this`lastPublished, this`sent)
    {
      hide TrimSpace, Session.Replied;
      if Blank(deviceId) || !connected {
        return false;
      }
      ok := TakeReply(deviceId, reply);
    }

    method ClearAuth()
      modifies this
      ensures Link() == Session.Cleared(old(Link()))
      ensures unchanged(this`cfg, this`lastMetrics, this`lastPublished, this`sent)
    {
      auth, device := Auth(false, 0, 0), "";
      saved := Some(Session.Snapshot(auth, device));
    }

    method MarkSessionLoggedOut()
      modifies this`auth, this`saved
      ensures auth == old(auth).(loggedIn := false) && saved == Some(Session.Snapshot(auth, device))
    {
      auth := auth.(loggedIn := false);
      saved := Some(Session.Snapshot(auth, device));
    }

    /** A recovery loop is started when the user wants the connection and none runs. */
    method ScheduleReconnect() returns (started: bool)
      modifies this`reconnectRunning, this`reconnectCancelled
      ensures started == (reconnectDesired && !old(reconnectRunning))
      ensures reconnectRunning == (old(reconnectRunning) || started)
      ensures reconnectCancelled == (old(reconnectCancelled) && !started)
    {
      if !reconnectDesired || reconnectRunning {
        return false;
      }
      reconnectRunning, reconnectCancelled := true, false;
      return true;
    }

    /** A session error: down and logged out, nothing forgotten, and a recovery under way if it is wanted. */
    method OnClientError() returns (started: bool)
      modifies this
      ensures started == (reconnectDesired && !old(reconnectRunning)) && Link() == Session.Errored(old(Link()))
      ensures unchanged(this`cfg, this`lastMetrics, this`lastPublished, this`sent)
    {
      connected := false;
      MarkSessionLoggedOut();
      started := ScheduleReconnect();
    }

    method CancelReconnect()
      modifies this`reconnectCancelled
      ensures reconnectCancelled == (old(reconnectCancelled) || reconnectRunning)
    {
      if reconnectRunning {
        reconnectCancelled := true;
      }
    }

    twostate lemma ClosedIs()
      requires auth == old(auth).(loggedIn := false) && saved == Some(Session.Snapshot(auth, device))
      requires addr == "" && !connected && !reconnectDesired && !reportEnabled && !notifyRunning
      requires unchanged(this`device, this`reconnectRunning)
      requires reconnectCancelled == (old(reconnectCancelled) || reconnectRunning)
      ensures Link() == Session.Closed(old(Link()))
    {
    }

    /** Close, undisturbed. */
    method Close()
      modifies this
      ensures Link() == Session.Closed(old(Link()))
      ensures unchanged(this`cfg, this`lastMetrics, this`lastPublished, this`sent)
    {
      hide Link, Session.Closed;
      reconnectDesired := false;
      CancelReconnect();
      StopReporting();
      notifyRunning := false;
      MarkSessionLoggedOut();
      connected := false;
      addr := "";
      ClosedIs();
    }

    method LastAddr() returns (text: string)
      ensures text == Link().addr
    {
      text := addr;
    }

    method RecordAddr(text: string)
      modifies this`addr
      ensures Link() == old(Link()).(addr := text)
    {
      addr := text;
    }

    method KeepConnected()
      modifies this`reconnectDesired
      ensures Link() == old(Link()).(intent := true)
    {
      reconnectDesired := true;
    }

    /** connectTransport: a session the transport holds is kept only if it is known to be up. */
    method ConnectTransport(text: string, dial: Session.Dial) returns (ok: bool)
      modifies this
      ensures ok <==> !Blank(text) && Session.Reaches(old(Link()), dial)
      ensures unchanged(this`cfg, this`lastMetrics, this`lastPublished, this`sent)
      ensures Link() == Session.Dialled(old(Link()), text, dial)
    {
      hide TrimSpace;
      var target := TrimSpace(text);
      if target == "" || dial.Refused? {
        return false;
      }
      if dial.AlreadyConnected? {
        if connected {
          addr := target;
          return true;
        }
        connected := false;
        if !dial.retried {
          return false;
        }
      }
      connected := true;
      addr := target;
      return true;
    }

    /**
     Connect. Another address than the one in use closes first, login, reporting and
     intent included; only a connection made brings the wish to keep it.
     */
    method Connect(text: string, dial: Session.Dial) returns (ok: bool, resubscribe: bool)
      modifies this
      ensures ok <==> !Blank(text) && Session.Reaches(Session.Begun(old(Link()), TrimSpace(text)), dial)
      ensures Link() == Session.ConnectedTo(old(Link()), text, dial)
      ensures unchanged(this`cfg, this`lastMetrics, this`lastPublished, this`sent)
      ensures resubscribe == (ok && notifyRunning)
    {
      hide TrimSpace, Trimmed, Link;
      hide Session.Closed, Session.Reaches, Session.Dialled;
      var target := TrimSpace(text);
      if target == "" {
        return false, false;
      }
      assert TrimSpace(target) == target;
      var prev := LastAddr();
      RecordAddr(target);
      if prev != "" && prev != target {
        Close();
        RecordAddr(target);
        Session.CloseForgetsAddress(old(Link()), target);
      }
      assert Link() == Session.Begun(old(Link()), target);
      ok := ConnectTransport(target, dial);
      if !ok {
        return false, false;
      }
      KeepConnected();
      return true, notifyRunning;
    }

    /**
     One attempt of the recovery loop: the session is taken down, dialled and logged in
     again. Without an identity it is enough to be connected, unless something is to be restored.
     */
    method RecoverOnce(dial: Session.Dial, reply: Session.Reply) returns (ok: bool)
      modifies this
      ensures Link() == Session.Recovered(old(Link()), dial, reply)
      ensures ok <==>
                && !old(reconnectCancelled) && !Blank(old(addr))
                && Session.Reaches(old(Link()).(connected := false), dial)
                && if Session.Identified(old(Link()).me) then reply.Granted?
                   else !old(reportEnabled) && !old(notifyRunning)
      ensures View() == if reply.Granted? && ok && Session.Identified(old(Link()).me)
                        then LoggedIn(old(View()), reply.nodeId, reply.hubId) else old(View()).(auth := auth)
    {
      hide TrimSpace, Trimmed, LoggedIn;
      hide Session.LoginAs, Session.Dialled, Session.Recovered, Session.Reaches;
      var target := TrimSpace(addr);
      Session.RecoveredIs(old(Link()), dial, reply);
      if reconnectCancelled || target == "" {
        return false;
      }
      connected := false;
      ghost var down := Link();
      assert TrimSpace(target) == target;
      ok := ConnectTransport(target, dial);
      Session.DialIs(down, target, dial);
      if !ok {
        return false;
      }
      if Blank(device) || auth.nodeId == 0 {
        return !reportEnabled && !notifyRunning;
      }
      var loggedIn, _ := Login(device, auth.nodeId, reply);
      return loggedIn;
    }
  }
}
