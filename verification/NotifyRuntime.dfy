/**
 The listener for notifications: it subscribes to the enabled topics, turns frames
 of the topic bus into events, and queues them. Each call is one step.
 */
module NotifyRuntime {
  import opened Wrappers
  import opened Text
  import opened NotifyEvent
  import Config
  import EventQueue
  import Replication

  type Settings = seq<Config.TopicSetting>

  predicate EnabledAt(settings: Settings, i: nat, topic: string)
    requires i < |settings|
  {
    settings[i].enabled && TrimSpace(settings[i].topic) == topic
  }

  predicate Enables(settings: Settings, topic: string) {
    topic != "" && exists i :: 0 <= i < |settings| && EnabledAt(settings, i, topic)
  }

  /** The topics that are enabled, white space removed. */
  function EnabledSet(settings: Settings): set<string> {
    if settings == [] then {}
    else
      var before, last := EnabledSet(settings[..|settings| - 1]), settings[|settings| - 1];
      if last.enabled && !Blank(last.topic) then before + {TrimSpace(last.topic)} else before
  }

  /** isNotifyTopicEnabled: subscribed, or enabled by now. */
  predicate TopicEnabled(subscribed: set<string>, settings: Settings, topic: string) {
    var t := TrimSpace(topic);
    t != "" && (t in subscribed || Enables(settings, t))
  }

  /** An event let into the queue, and what was known of topics when it was. */
  datatype Admission = Admission(event: Event, subscribed: set<string>, settings: Settings)

  datatype Listener = Listener(
    auth: Replication.Auth,
    connected: bool,
    settings: Settings,
    running: bool,
    subscribed: set<string>,
    queue: EventQueue.History<Event>,
    admitted: seq<Admission>  // history
  )

  /** `accepted` is the hub's answer to a subscribe request, if one is made. */
  datatype Call =
    | Start(accepted: bool)
    | Stop
    | SetTopics(settings: Settings, accepted: bool)
    | Receive(frame: Frame, now: int)
    | Drain
    | Connect(accepted: bool)
    | Login(nodeId: nat, hubId: nat, accepted: bool)
    | LoseSession

  predicate CanSubscribe(s: Listener, accepted: bool) {
    Replication.Active(s.auth) && s.connected && (EnabledSet(s.settings) == {} || accepted)
  }

  /** subscribeNotifyTopics: it fails without a trace, or takes over the enabled topics. */
  function Subscribed(s: Listener, accepted: bool): Listener {
    if CanSubscribe(s, accepted) then s.(subscribed := EnabledSet(s.settings)) else s
  }

  function Stopped(s: Listener): Listener {
    s.(running := false, subscribed := {})
  }

  function Resubscribed(s: Listener, accepted: bool): Listener {
    if s.running then Subscribed(s, accepted) else s
  }

  /** handleTopicBusFrame: the event a frame makes for this listener. */
  function Admits(s: Listener, frame: Frame, now: int): Option<Event> {
    var p := ParsePublishEnvelope(frame);
    if !s.running || p.None? || !TopicEnabled(s.subscribed, s.settings, p.value.topic) then None
    else Some(EventOf(p.value, now))
  }

  function Step(s: Listener, c: Call): Listener {
    match c
    case Start(accepted) =>
      if !Replication.Active(s.auth) || EnabledSet(s.settings) == {} then s
      else Subscribed(s, accepted).(running := CanSubscribe(s, accepted))
    case Stop => Stopped(s)
    case SetTopics(settings, accepted) =>
      var t := s.(settings := settings);
      if t.running && EnabledSet(settings) == {} then Stopped(t) else Resubscribed(t, accepted)
    case Receive(frame, now) =>
      var e := Admits(s, frame, now);
      if e.None? then s
      else s.(queue := EventQueue.Step(EventQueue.DEFAULT_CAPACITY, s.queue, EventQueue.Put(e.value)),
              admitted := s.admitted + [Admission(e.value, s.subscribed, s.settings)])
    case Drain => s.(queue := EventQueue.Step(EventQueue.DEFAULT_CAPACITY, s.queue, EventQueue.Drain))
    case Connect(accepted) => Resubscribed(s.(connected := true), accepted)
    case Login(nodeId, hubId, accepted) => Resubscribed(s.(auth := Replication.Auth(true, nodeId, hubId)), accepted)
    case LoseSession => s.(connected := false, auth := s.auth.(loggedIn := false))
  }

  function Reached(s: Listener, calls: seq<Call>): Listener {
    if calls == [] then s else Step(Reached(s, calls[..|calls| - 1]), calls[|calls| - 1])
  }

  lemma {:induction false} EnabledSetIsExact(settings: Settings, topic: string)
    ensures topic in EnabledSet(settings) <==> Enables(settings, topic)
  {
    hide TrimSpace;
    if settings != [] {
      var n := |settings| - 1;
      EnabledSetIsExact(settings[..n], topic);
      if Enables(settings[..n], topic) {
        var i :| 0 <= i < n && EnabledAt(settings[..n], i, topic);
        assert EnabledAt(settings, i, topic);
      }
      if Enables(settings, topic) {
        var i :| 0 <= i < |settings| && EnabledAt(settings, i, topic);
        assert i < n ==> EnabledAt(settings[..n], i, topic);
      }
      assert settings[n].enabled && TrimSpace(settings[n].topic) == topic ==> EnabledAt(settings, n, topic);
    }
  }

  function Elements(topics: seq<string>): set<string> {
    set x | x in topics
  }

  /** notify.EnabledTopics. */
  method EnabledTopics(settings: Settings) returns (out: seq<string>)
    ensures Elements(out) == EnabledSet(settings)
    ensures out == [] <==> EnabledSet(settings) == {}
    ensures forall i, j :: 0 <= i < j < |out| ==> out[i] != out[j]
  {
    hide TrimSpace;
    out := [];
    var seen: set<string> := {};
    for i := 0 to |settings|
      invariant Elements(out) == seen == EnabledSet(settings[..i])
      invariant forall i, j :: 0 <= i < j < |out| ==> out[i] != out[j]
    {
      assert settings[..i + 1][..i] == settings[..i];
      if !settings[i].enabled {
        continue;
      }
      var topic := TrimSpace(settings[i].topic);
      if topic == "" || topic in seen {
        continue;
      }
      seen := seen + {topic};
      out := out + [topic];
    }
    assert settings[..|settings|] == settings;
    assert out != [] ==> out[0] in Elements(out);
  }

  class NotifyListener {
    var auth: Replication.Auth
    var connected: bool
    var notifySettings: Settings
    var notifyRunning: bool
    var notifyTopics: set<string>
    const notifyQ: EventQueue.Queue<Event>
    ghost var admitted: seq<Admission>

    ghost predicate Valid() reads notifyQ {
      notifyQ.Valid() && notifyQ.cap == EventQueue.DEFAULT_CAPACITY
    }

    ghost function View(): Listener reads this, notifyQ {
      Listener(auth, connected, notifySettings, notifyRunning, notifyTopics, notifyQ.View(), admitted)
    }

    constructor (settings: Settings)
      ensures Valid() && fresh(notifyQ)
      ensures View() == Listener(Replication.Auth(false, 0, 0), false, settings, false, {},
          EventQueue.History([], 0, []), [])
    {
      auth := Replication.Auth(false, 0, 0);
      connected, notifyRunning := false, false;
      notifySettings, notifyTopics := settings, {};
      notifyQ := new EventQueue.Queue(EventQueue.DEFAULT_CAPACITY);
      admitted := [];
    }

    method SubscribeNotifyTopics(accepted: bool) returns (ok: bool)
      requires Valid()
      modifies this`notifyTopics
      ensures Valid() && ok == CanSubscribe(old(View()), accepted)
      ensures View() == Subscribed(old(View()), accepted)
    {
      if !Replication.Active(auth) || !connected {
        return false;
      }
      var topics := EnabledTopics(notifySettings);
      if |topics| == 0 {
        notifyTopics := {};
        return true;
      }
      if !accepted {
        return false;
      }
      notifyTopics := Elements(topics);
      return true;
    }

    method StartNotify(accepted: bool) returns (ok: bool)
      requires Valid()
      modifies this`notifyTopics, this`notifyRunning
      ensures Valid() && View() == Step(old(View()), Start(accepted))
      ensures ok <==>
                && Replication.Active(auth) && EnabledSet(notifySettings) != {}
                && CanSubscribe(old(View()), accepted)
    {
      if !Replication.Active(auth) {
        return false;
      }
      var topics := EnabledTopics(notifySettings);
      if |topics| == 0 {
        return false;
      }
      ok := SubscribeNotifyTopics(accepted);
      if !ok {
        notifyRunning := false;
        return false;
      }
      notifyRunning := true;
    }

    method StopNotify()
      requires Valid()
      modifies this`notifyTopics, this`notifyRunning
      ensures Valid() && View() == Step(old(View()), Stop)
    {
      notifyRunning := false;
      notifyTopics := {};
    }

    /** The end of a reload for new topic settings. */
    method ApplyTopics(settings: Settings, accepted: bool)
      requires Valid()
      modifies this`notifySettings, this`notifyTopics, this`notifyRunning
      ensures Valid() && View() == Step(old(View()), SetTopics(settings, accepted))
    {
      notifySettings := settings;
      if !notifyRunning {
        return;
      }
      var topics := EnabledTopics(settings);
      if |topics| == 0 {
        StopNotify();
      } else {
        var ok := SubscribeNotifyTopics(accepted);
      }
    }

    method IsNotifyTopicEnabled(topic: string) returns (ok: bool)
      ensures ok == TopicEnabled(notifyTopics, notifySettings, topic)
    {
      hide TrimSpace;
      var t := TrimSpace(topic);
      if t == "" {
        return false;
      }
      if t in notifyTopics {
        return true;
      }
      for i := 0 to |notifySettings|
        invariant forall j :: 0 <= j < i ==> !EnabledAt(notifySettings, j, t)
      {
        if notifySettings[i].enabled && TrimSpace(notifySettings[i].topic) == t {
          assert EnabledAt(notifySettings, i, t);
          return true;
        }
      }
      return false;
    }

    method HandleTopicBusFrame(frame: Frame, now: int)
      requires Valid()
      modifies this`admitted, notifyQ
      ensures Valid() && View() == Step(old(View()), Receive(frame, now))
    {
      hide TrimSpace, EventOf, TopicEnabled;
      if !notifyRunning {
        return;
      }
      var req := ParsePublishEnvelope(frame);
      if req.None? {
        return;
      }
      ParsedIsTrimmed(frame);
      var enabled := IsNotifyTopicEnabled(req.value.topic);
      var evt := EventFromPublish(req.value, Some((topic: string) => enabled), now);
      if evt.None? {
        return;
      }
      notifyQ.Enqueue(evt.value);
      admitted := admitted + [Admission(evt.value, notifyTopics, notifySettings)];
    }

    method DequeueNotifications() returns (out: seq<Event>)
      requires Valid()
      modifies notifyQ
      ensures Valid() && View() == Step(old(View()), Drain) && out == old(notifyQ.items)
    {
      out := notifyQ.DequeueAll();
    }

    method OnConnect(accepted: bool)
      requires Valid()
      modifies this`connected, this`notifyTopics
      ensures Valid() && View() == Step(old(View()), Connect(accepted))
    {
      connected := true;
      if notifyRunning {
        var ok := SubscribeNotifyTopics(accepted);
      }
    }

    method OnLogin(nodeId: nat, hubId: nat, accepted: bool)
      requires Valid()
      modifies this`auth, this`notifyTopics
      ensures Valid() && View() == Step(old(View()), Login(nodeId, hubId, accepted))
    {
      auth := Replication.Auth(true, nodeId, hubId);
      if notifyRunning {
        var ok := SubscribeNotifyTopics(accepted);
      }
    }
  }

  /** The names of a parsed publish are trimmed and not blank. */
  lemma {:induction false} ParsedIsTrimmed(frame: Frame)
    ensures var p := ParsePublishEnvelope(frame);
            p.Some? ==> !Blank(p.value.topic) && !Blank(p.value.name) && TrimSpace(p.value.topic) == p.value.topic
  {
    var p := ParsePublishEnvelope(frame);
    if p.Some? {
      TrimIsStable(frame.message.value.request.value.topic);
      TrimIsStable(frame.message.value.request.value.name);
    }
  }

  // ------------------------------------------------------------------------ runs

  predicate Proper(a: Admission) {
    WellMade(a.event) && TopicEnabled(a.subscribed, a.settings, a.event.topic)
  }

  predicate Admitted(s: Listener, e: Event) {
    exists i :: 0 <= i < |s.admitted| && s.admitted[i].event == e
  }

  predicate Inv(s: Listener) {
    && (forall i :: 0 <= i < |s.admitted| ==> Proper(s.admitted[i]))
    && (forall i :: 0 <= i < |s.queue.items| ==> Admitted(s, s.queue.items[i]))
    && (forall i :: 0 <= i < |s.queue.delivered| ==> Admitted(s, s.queue.delivered[i]))
    && |s.queue.items| <= EventQueue.DEFAULT_CAPACITY
  }

  lemma {:induction false} AdmittedIsProper(s: Listener, frame: Frame, now: int)
    ensures var e := Admits(s, frame, now);
            e.Some? ==> Proper(Admission(e.value, s.subscribed, s.settings))
  {
    hide TrimSpace, WellMade, Enables;
    ParsedIsTrimmed(frame);
    if Admits(s, frame, now).Some? {
      EventsAreWellMade(ParsePublishEnvelope(frame).value, now);
    }
  }

  lemma {:induction false} ReceiveKeepsInv(s: Listener, frame: Frame, now: int)
    requires Inv(s)
    ensures Inv(Step(s, Receive(frame, now)))
  {
    hide Proper, Admits;
    var e := Admits(s, frame, now);
    if e.Some? {
      AdmittedIsProper(s, frame, now);
      var t := Step(s, Receive(frame, now));
      forall x | Admitted(s, x) || x == e.value ensures Admitted(t, x) {
        if Admitted(s, x) {
          var i :| 0 <= i < |s.admitted| && s.admitted[i].event == x;
          assert t.admitted[i].event == x;
        } else {
          assert t.admitted[|s.admitted|].event == x;
        }
      }
    }
  }

  lemma {:induction false} DrainKeepsInv(s: Listener)
    requires Inv(s)
    ensures Inv(Step(s, Drain))
  {
    hide Proper, Admitted;
    assert forall e :: Admitted(s, e) == Admitted(Step(s, Drain), e) by { SameAdmissions(s, Step(s, Drain)); }
  }

  lemma SameAdmissions(s: Listener, t: Listener)
    requires t.admitted == s.admitted
    ensures forall e :: Admitted(s, e) == Admitted(t, e)
  {
  }

  lemma {:induction false} OtherKeepsInv(s: Listener, t: Listener)
    requires Inv(s) && t.admitted == s.admitted && t.queue == s.queue
    ensures Inv(t)
  {
    hide Proper, Admitted;
    SameAdmissions(s, t);
  }

  lemma {:induction false} StepKeepsInv(s: Listener, c: Call)
    requires Inv(s)
    ensures Inv(Step(s, c))
  {
    hide Inv, Proper, EnabledSet;
    match c
    case Receive(frame, now) => ReceiveKeepsInv(s, frame, now);
    case Drain => DrainKeepsInv(s);
    case _ => OtherKeepsInv(s, Step(s, c));
  }

  predicate Starts(s: Listener) {
    s.queue == EventQueue.History([], 0, []) && s.admitted == [] && !s.running
  }

  lemma {:induction false} InvHolds(s: Listener, calls: seq<Call>)
    requires Starts(s)
    ensures Inv(Reached(s, calls))
  {
    hide Step;
    if calls != [] {
      InvHolds(s, calls[..|calls| - 1]);
      StepKeepsInv(Reached(s, calls[..|calls| - 1]), calls[|calls| - 1]);
    }
  }

  /**
   Every event held or handed out, in any run, is fit to show, and its topic was
   subscribed or enabled when it was queued.
   */
  lemma {:induction false} QueuedEventsAreProper(s: Listener, calls: seq<Call>, e: Event) returns (a: Admission)
    requires Starts(s)
    requires e in Reached(s, calls).queue.items || e in Reached(s, calls).queue.delivered
    ensures a in Reached(s, calls).admitted && a.event == e
    ensures WellMade(e) && TopicEnabled(a.subscribed, a.settings, e.topic)
  {
    hide WellMade, TopicEnabled, Reached;
    InvHolds(s, calls);
    var t := Reached(s, calls);
    assert Admitted(t, e);
    var i :| 0 <= i < |t.admitted| && t.admitted[i].event == e;
    a := t.admitted[i];
    assert Proper(t.admitted[i]);
  }

  predicate NoStart(calls: seq<Call>) {
    forall i :: 0 <= i < |calls| ==> !calls[i].Start?
  }

  /** A listener that is stopped stays stopped and lets nothing in until it is started again. */
  lemma {:induction false} StoppedStaysQuiet(s: Listener, calls: seq<Call>)
    requires !s.running && NoStart(calls)
    ensures var t := Reached(s, calls);
            !t.running && t.admitted == s.admitted && t.queue.dropped == s.queue.dropped
  {
    hide EnabledSet, TopicEnabled;
    if calls != [] {
      StoppedStaysQuiet(s, calls[..|calls| - 1]);
    }
  }

  /** After a successful subscription exactly the enabled topics are let in. */
  lemma {:induction false} FreshSubscriptionIsExact(s: Listener, accepted: bool, frame: Frame, now: int)
    requires s.running && CanSubscribe(s, accepted) && ParsePublishEnvelope(frame).Some?
    ensures Admits(Subscribed(s, accepted), frame, now).Some? <==>
        Enables(s.settings, ParsePublishEnvelope(frame).value.topic)
  {
    hide TrimSpace, EventOf, Enables;
    ParsedIsTrimmed(frame);
    EnabledSetIsExact(s.settings, ParsePublishEnvelope(frame).value.topic);
    EnabledIsNamed(s.settings, ParsePublishEnvelope(frame).value.topic);
  }

  lemma EnabledIsNamed(settings: Settings, topic: string)
    ensures Enables(settings, topic) ==> topic != ""
  {
  }

  /**
   A topic the new settings no longer enable is still let in exactly when it was
   subscribed before and the new subscription could not be made.
   */
  lemma {:induction false} DisabledTopicLingersExactly(s: Listener, settings: Settings, accepted: bool, frame: Frame,
                                                       now: int)
    requires s.running && EnabledSet(settings) != {} && ParsePublishEnvelope(frame).Some?
    requires !Enables(settings, ParsePublishEnvelope(frame).value.topic)
    ensures var topic := ParsePublishEnvelope(frame).value.topic;
            Admits(Step(s, SetTopics(settings, accepted)), frame, now).Some? <==>
              topic in s.subscribed && !CanSubscribe(s.(settings := settings), accepted)
  {
    hide TrimSpace, EventOf, Enables, EnabledSet;
    var t := s.(settings := settings);
    ParsedIsTrimmed(frame);
    EnabledSetIsExact(settings, ParsePublishEnvelope(frame).value.topic);
  }
}
