/** What becomes of one publish and of one call to the listener, said without the functions that compute it. */
module NotifyEffects {
  import opened Wrappers
  import opened Text
  import opened EventText
  import opened NotifyEvent
  import opened NotifyRuntime
  import Decimal
  import EventQueue

  // ---------------------------------------------------------------------------- one event

  /** What the payload's own member `key` says, if the payload is a JSON object with such a member. */
  function Told(p: Payload, key: string): Option<string> {
    if p.raw == "" || p.raw == "null" || p.value.None? || p.value.value.members.None?
       || key !in p.value.value.members.value
    then None
    else match p.value.value.members.value[key]
      case Str(text) => if Blank(text) then None else Some(TrimSpace(text))
      case Num(text) => Some(TrimSpace(text))
      case Flag(on) => Some(if on then "true" else "false")
      case Nested => None
  }

  function Or(first: Option<string>, second: Option<string>): Option<string> {
    if first.Some? then first else second
  }

  /** Text that says nothing gives way. */
  function Unless(text: Option<string>, other: string): string {
    if text.None? || Blank(text.value) then other else text.value
  }

  /** A payload for want of a member: the bytes, or what decoding them compacts to, cut at 180. */
  function Shortened(p: Payload): string {
    if p.raw == "" then "" else LimitText(if p.value.None? then p.raw else p.value.value.compact, 180)
  }

  lemma {:induction false} FirstToldIs(p: Payload, keys: seq<string>)
    ensures FirstString(Members(p), keys)
            == if keys == [] then ""
               else if Told(p, keys[0]).Some? then Told(p, keys[0]).value else FirstString(Members(p), keys[1..])
  {
    hide TrimSpace;
  }

  lemma {:induction false} TitleIsTold(p: Payload)
    ensures FirstString(Members(p), TITLE_KEYS)
            == match Or(Told(p, "title"), Or(Told(p, "subject"), Told(p, "summary"))) case Some(s) => s case None => ""
  {
    hide TrimSpace, Members, Told;
    assert TITLE_KEYS[1..] == ["subject", "summary"] && ["subject", "summary"][1..] == ["summary"];
    FirstToldIs(p, TITLE_KEYS);
    FirstToldIs(p, ["subject", "summary"]);
    FirstToldIs(p, ["summary"]);
  }

  lemma {:induction false} BodyIsTold(p: Payload)
    ensures FirstString(Members(p), BODY_KEYS)
            == match Or(Told(p, "body"), Or(Told(p, "message"), Or(Told(p, "text"), Or(Told(p, "content"),
                                                                                        Told(p, "summary")))))
               case Some(s) => s case None => ""
  {
    hide TrimSpace, Members, Told;
    var k := BODY_KEYS;
    assert k[1..] == ["message", "text", "content", "summary"];
    assert k[1..][1..] == ["text", "content", "summary"];
    assert k[1..][1..][1..] == ["content", "summary"] && k[1..][1..][1..][1..] == ["summary"];
    FirstToldIs(p, k);
    FirstToldIs(p, k[1..]);
    FirstToldIs(p, k[1..][1..]);
    FirstToldIs(p, k[1..][1..][1..]);
    FirstToldIs(p, ["summary"]);
  }

  /**
   Where each part of an event comes from. The title is what the payload says under title,
   subject or summary, in this order, or else the name; the body what it says under body,
   message, text, content or summary, or else the payload itself, or else the topic.
   */
  lemma {:induction false} EventSays(p: Publish, now: int)
    ensures var e := EventOf(p, now);
            var topic, name, ts := TrimSpace(p.topic), TrimSpace(p.name), if p.ts == 0 then now else p.ts;
            var title := Or(Told(p.payload, "title"), Or(Told(p.payload, "subject"), Told(p.payload, "summary")));
            var body := Or(Told(p.payload, "body"), Or(Told(p.payload, "message"), Or(Told(p.payload, "text"),
                           Or(Told(p.payload, "content"), Told(p.payload, "summary")))));
            && e.title == LimitText(Unless(title, name), 96)
            && e.body == LimitText(Unless(body, Unless(Some(Shortened(p.payload)), topic)), 220)
            && e.id == LimitText(Decimal.PrintInt(ts) + ":" + topic + ":" + name, 316)
            && e.topic == topic && e.name == name && e.ts == ts && e.payload == p.payload.raw
  {
    hide TrimSpace, LimitText, Told, FirstString;
    TitleIsTold(p.payload);
    BodyIsTold(p.payload);
    EmptyIsBlank();
  }

  /** Which frames carry a publish: those of 1 to 32768 bytes that spell one with a topic and a name. */
  lemma {:induction false} FrameIsRead(f: Frame)
    ensures var p := ParsePublishEnvelope(f);
            && (p.Some? <==>
                  && 0 < f.size <= 32768 && f.message.Some? && TrimSpace(f.message.value.action) == "publish"
                  && f.message.value.request.Some?
                  && !Blank(f.message.value.request.value.topic) && !Blank(f.message.value.request.value.name))
            && (p.Some? ==>
                  var req := f.message.value.request.value;
                  && p.value.topic == TrimSpace(req.topic) && p.value.name == TrimSpace(req.name)
                  && p.value.ts == req.ts && p.value.payload == req.payload)
  {
    hide TrimSpace;
  }

  // ------------------------------------------------------------------------------- one call

  /** The hub answers for this listener: it has a session and an identity. */
  predicate Reachable(s: Listener) {
    s.auth.loggedIn && s.auth.nodeId != 0 && s.auth.hubId != 0 && s.connected
  }

  ghost predicate SomeEnabled(settings: Settings) {
    exists topic :: Enables(settings, topic)
  }

  /** The subscription is for exactly the enabled topics. */
  ghost predicate SubscribedTo(s: Listener, settings: Settings) {
    forall topic :: topic in s.subscribed <==> Enables(settings, topic)
  }

  lemma {:induction false} EnabledSetIs(settings: Settings)
    ensures forall topic :: topic in EnabledSet(settings) <==> Enables(settings, topic)
    ensures EnabledSet(settings) == {} <==> !SomeEnabled(settings)
  {
    hide Enables;
    forall topic ensures topic in EnabledSet(settings) <==> Enables(settings, topic) {
      EnabledSetIsExact(settings, topic);
    }
    if EnabledSet(settings) != {} {
      var topic :| topic in EnabledSet(settings);
      assert Enables(settings, topic);
    }
  }

  /** A start: refused without a login or a topic, and otherwise as good as its subscription. */
  lemma {:induction false} StartIsExact(s: Listener, accepted: bool)
    ensures var t := Step(s, Start(accepted));
            && t == s.(running := t.running, subscribed := t.subscribed)
            && if !(s.auth.loggedIn && s.auth.nodeId != 0 && s.auth.hubId != 0) || !SomeEnabled(s.settings) then t == s
               else if Reachable(s) && accepted then t.running && SubscribedTo(t, s.settings)
               else !t.running && t.subscribed == s.subscribed
  {
    hide Enables;
    EnabledSetIs(s.settings);
  }

  /** A stop ends the subscription and nothing else. */
  lemma StopIsExact(s: Listener)
    ensures Step(s, Stop) == s.(running := false, subscribed := {})
  {
  }

  /**
   New topics: a listener that does not run takes note of them; a running one stops if none
   is enabled, and otherwise subscribes anew, keeping its old subscription if that fails.
   */
  lemma {:induction false} TopicsAreApplied(s: Listener, settings: Settings, accepted: bool)
    ensures var t := Step(s, SetTopics(settings, accepted));
            && t == s.(settings := settings, running := t.running, subscribed := t.subscribed)
            && if !s.running then t == s.(settings := settings)
               else if !SomeEnabled(settings) then !t.running && t.subscribed == {}
               else t.running && if Reachable(s) && accepted then SubscribedTo(t, settings)
                                 else t.subscribed == s.subscribed
  {
    hide Enables;
    EnabledSetIs(settings);
  }

  /** A new connection or login: a running listener subscribes anew, if it can by then. */
  lemma {:induction false} SessionIsTakenUp(s: Listener, c: Call)
    requires c.Connect? || c.Login?
    ensures var t := Step(s, c);
            && t == s.(connected := t.connected, auth := t.auth, subscribed := t.subscribed)
            && (c.Connect? ==> t.connected && t.auth == s.auth)
            && (c.Login? ==> t.connected == s.connected && t.auth.loggedIn && t.auth.nodeId == c.nodeId
                             && t.auth.hubId == c.hubId)
            && if s.running && Reachable(t) && (c.accepted || !SomeEnabled(s.settings)) then SubscribedTo(t, s.settings)
               else t.subscribed == s.subscribed
  {
    hide Enables;
    EnabledSetIs(s.settings);
  }

  /** A lost session takes the login; what is subscribed and that the listener runs is kept for the next one. */
  lemma LossIsExact(s: Listener)
    ensures var t := Step(s, LoseSession);
            && t == s.(connected := false, auth := t.auth)
            && !t.auth.loggedIn && t.auth.nodeId == s.auth.nodeId && t.auth.hubId == s.auth.hubId
  {
  }

  lemma {:induction false} FrameIsAdmitted(s: Listener, frame: Frame, now: int)
    ensures var e, p := Admits(s, frame, now), ParsePublishEnvelope(frame);
            if s.running && p.Some? && (p.value.topic in s.subscribed || Enables(s.settings, p.value.topic))
            then e == Some(EventOf(p.value, now)) else e == None
  {
    hide TrimSpace, EventOf, Enables;
    ParsedIsTrimmed(frame);
  }

  /** The newest event is last; nothing held is lost while there is room for 128, and the oldest otherwise. */
  predicate HoldsLast(before: EventQueue.History<Event>, after: EventQueue.History<Event>, e: Event) {
    && after.items != [] && after.items[|after.items| - 1] == e && after.delivered == before.delivered
    && (|before.items| < 128 ==> after.items == before.items + [e] && after.dropped == before.dropped)
    && (|before.items| >= 128 ==> after.items == before.items[1..] + [e] && after.dropped == before.dropped + 1)
  }

  lemma PutIsLast(before: EventQueue.History<Event>, e: Event)
    ensures HoldsLast(before, EventQueue.Step(EventQueue.DEFAULT_CAPACITY, before, EventQueue.Put(e)), e)
  {
  }

  /** A frame makes its event exactly if the listener runs and the topic is subscribed or enabled. */
  lemma {:induction false} FrameIsTaken(s: Listener, frame: Frame, now: int)
    ensures var t, p := Step(s, Receive(frame, now)), ParsePublishEnvelope(frame);
            if s.running && p.Some? && (p.value.topic in s.subscribed || Enables(s.settings, p.value.topic))
            then
              && t == s.(queue := t.queue, admitted := t.admitted)
              && HoldsLast(s.queue, t.queue, EventOf(p.value, now))
            else t == s
  {
    hide TrimSpace, EventOf, Enables, Admits, ParsePublishEnvelope, HoldsLast, EventQueue.Step;
    FrameIsAdmitted(s, frame, now);
    if Admits(s, frame, now).Some? {
      PutIsLast(s.queue, Admits(s, frame, now).value);
    }
  }
}
