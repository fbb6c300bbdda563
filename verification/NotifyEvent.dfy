/**
 From a frame of the topic bus to a notification event. A frame and a payload keep
 what decoding them yields; a number keeps the text it prints as.
 */
module NotifyEvent {
  import opened Wrappers
  import opened Text
  import opened EventText
  import Decimal

  const MAX_TITLE_LENGTH := 96
  const MAX_BODY_LENGTH := 220
  const MAX_PAYLOAD_TEXT_LENGTH := 180
  const MAX_PAYLOAD_BYTES := 32 * 1024
  const PUBLISH := "publish"

  datatype Member = Str(text: string) | Num(text: string) | Flag(on: bool) | Nested

  /** `members` is None for JSON that is not an object; a JSON null decodes to no members. */
  datatype Json = Json(members: Option<map<string, Member>>, compact: string)

  /** `value` is None for bytes that are no JSON. */
  datatype Payload = Payload(raw: string, value: Option<Json>)

  datatype Publish = Publish(topic: string, name: string, ts: int, payload: Payload)

  /** A frame of `size` bytes, the action it spells and the publish request it carries. */
  datatype Message = Message(action: string, request: Option<Publish>)
  datatype Frame = Frame(size: nat, message: Option<Message>)

  datatype Event = Event(id: string, topic: string, name: string, title: string, body: string, ts: int, payload: string)

  /** ParsePublishEnvelope. */
  function ParsePublishEnvelope(f: Frame): Option<Publish> {
    if f.size == 0 || f.size > MAX_PAYLOAD_BYTES || f.message.None? then None
    else if TrimSpace(f.message.value.action) != PUBLISH || f.message.value.request.None? then None
    else
      var req := f.message.value.request.value;
      var p := req.(topic := TrimSpace(req.topic), name := TrimSpace(req.name));
      if p.topic == "" || p.name == "" then None else Some(p)
  }

  /** What a member says as text, if it says anything. */
  function Said(m: Member): Option<string> {
    match m
    case Str(text) => if Blank(text) then None else Some(TrimSpace(text))
    case Num(text) => Some(TrimSpace(text))
    case Flag(on) => Some(if on then "true" else "false")
    case Nested => None
  }

  /** firstString: the first of the keys whose member says something. */
  function FirstString(members: map<string, Member>, keys: seq<string>): string {
    if keys == [] then ""
    else if keys[0] in members && Said(members[keys[0]]).Some? then Said(members[keys[0]]).value
    else FirstString(members, keys[1..])
  }

  const TITLE_KEYS := ["title", "subject", "summary"]
  const BODY_KEYS := ["body", "message", "text", "content", "summary"]

  /** The members of a payload that is a JSON object. */
  function Members(p: Payload): map<string, Member> {
    if p.raw == "" || p.raw == "null" || p.value.None? || p.value.value.members.None? then map[]
    else p.value.value.members.value
  }

  /** payloadPreview. */
  function Preview(p: Payload): string {
    if p.raw == "" then ""
    else LimitText(if p.value.None? then p.raw else p.value.value.compact, MAX_PAYLOAD_TEXT_LENGTH)
  }

  function OrWhenBlank(text: string, other: string): string {
    if Blank(text) then other else text
  }

  function TitleOf(p: Publish): string {
    OrWhenBlank(FirstString(Members(p.payload), TITLE_KEYS), p.name)
  }

  function BodyOf(p: Publish): string {
    OrWhenBlank(OrWhenBlank(FirstString(Members(p.payload), BODY_KEYS), Preview(p.payload)), p.topic)
  }

  /** The event a publish makes at `now`, white space around its names removed. */
  function EventOf(p: Publish, now: int): Event {
    var topic, name, ts := TrimSpace(p.topic), TrimSpace(p.name), if p.ts == 0 then now else p.ts;
    var q := p.(topic := topic, name := name);
    Event(LimitText(Decimal.PrintInt(ts) + ":" + topic + ":" + name, MAX_TITLE_LENGTH + MAX_BODY_LENGTH),
          topic, name, LimitText(TitleOf(q), MAX_TITLE_LENGTH), LimitText(BodyOf(q), MAX_BODY_LENGTH),
          ts, p.payload.raw)
  }

  method ExtractTitleBody(req: Publish) returns (title: string, body: string)
    ensures title == LimitText(TitleOf(req), MAX_TITLE_LENGTH) && body == LimitText(BodyOf(req), MAX_BODY_LENGTH)
  {
    hide TrimSpace, LimitText, FirstString, Preview;
    title, body := "", "";
    NothingIsSaid(TITLE_KEYS);
    NothingIsSaid(BODY_KEYS);
    if |req.payload.raw| > 0 && req.payload.raw != "null" {
      var json := req.payload.value;
      if json.Some? && json.value.members.Some? {
        title := FirstString(json.value.members.value, TITLE_KEYS);
        body := FirstString(json.value.members.value, BODY_KEYS);
      }
    }
    if Blank(title) {
      title := req.name;
    }
    if Blank(body) {
      body := Preview(req.payload);
    }
    if Blank(body) {
      body := req.topic;
    }
    title, body := LimitText(title, MAX_TITLE_LENGTH), LimitText(body, MAX_BODY_LENGTH);
  }

  lemma {:induction false} NothingIsSaid(keys: seq<string>)
    ensures FirstString(map[], keys) == ""
  {
    if keys != [] {
      NothingIsSaid(keys[1..]);
    }
  }

  /** EventFromPublish. Without a filter every topic is let through. */
  method EventFromPublish(p: Publish, topicEnabled: Option<string -> bool>, now: int) returns (evt: Option<Event>)
    ensures evt == if Blank(p.topic) || Blank(p.name) || (topicEnabled.Some? && !topicEnabled.value(TrimSpace(p.topic)))
                   then None else Some(EventOf(p, now))
  {
    hide TrimSpace, LimitText, TitleOf, BodyOf;
    var req := p.(topic := TrimSpace(p.topic), name := TrimSpace(p.name));
    if req.topic == "" || req.name == "" {
      return None;
    }
    if topicEnabled.Some? && !topicEnabled.value(req.topic) {
      return None;
    }
    var ts := req.ts;
    if ts == 0 {
      ts := now;
    }
    var title, body := ExtractTitleBody(req);
    var id := Decimal.PrintInt(ts) + ":" + req.topic + ":" + req.name;
    return Some(Event(LimitText(id, MAX_TITLE_LENGTH + MAX_BODY_LENGTH), req.topic, req.name, title, body, ts,
      req.payload.raw));
  }

  // ------------------------------------------------------------------- guarantees

  /** Text fit to show: something, single-spaced, within its limit. */
  predicate Fit(text: string, max: nat) {
    text != "" && SingleSpaced(text) && |text| <= max
  }

  predicate WellMade(e: Event) {
    && Fit(e.title, 96) && Fit(e.body, 220) && Fit(e.id, 316)
    && e.topic != "" && TrimSpace(e.topic) == e.topic && e.name != "" && TrimSpace(e.name) == e.name
  }

  lemma {:induction false} LimitedIsFit(text: string, max: nat)
    requires max > 3 && !Blank(text)
    ensures Fit(LimitText(text, max), max)
  {
    hide LimitText, TrimSpace, SingleSpaced;
    LimitedIsSingleSpaced(text, max);
  }

  lemma TrimmedIsNotBlank(text: string)
    requires text != "" && TrimSpace(text) == text
    ensures !Blank(text)
  {
    hide TrimSpace;
  }

  lemma TrimIsStable(text: string)
    ensures TrimSpace(TrimSpace(text)) == TrimSpace(text)
  {
  }

  /** An id starts with a digit or a sign, so it is never blank. */
  lemma {:induction false} NumberedIsNotBlank(ts: int, rest: string)
    ensures !Blank(Decimal.PrintInt(ts) + rest)
  {
    hide Fields, TrimSpace, Plain;
    var digits := Decimal.PrintInt(ts);
    Decimal.PrintedIsPlain(ts);
    var s := digits + rest;
    FirstIsPlain(digits);
    assert s[0] == digits[0];
    BlankHasNoWords(s);
    PlainStartHasWords(s);
  }

  lemma FirstIsPlain(s: string)
    requires Plain(s) && s != ""
    ensures PlainChar(s[0])
  {
  }

  lemma PlainStartHasWords(s: string)
    requires s != "" && PlainChar(s[0])
    ensures Fields(s) != []
  {
    assert SpacePrefix(s) == 0;
  }

  lemma {:induction false} IdIsFit(ts: int, topic: string, name: string)
    ensures Fit(LimitText(Decimal.PrintInt(ts) + ":" + topic + ":" + name, 316), 316)
  {
    hide LimitText, Fit, Fields, TrimSpace;
    var tail := ":" + topic + ":" + name;
    NumberedIsNotBlank(ts, tail);
    assert Decimal.PrintInt(ts) + ":" + topic + ":" + name == Decimal.PrintInt(ts) + tail;
    LimitedIsFit(Decimal.PrintInt(ts) + tail, 316);
  }

  /** Every event is fit to show: a title, a body and an id within their limits, none of them blank. */
  lemma {:induction false} EventsAreWellMade(p: Publish, now: int)
    requires !Blank(p.topic) && !Blank(p.name)
    ensures WellMade(EventOf(p, now))
  {
    hide TrimSpace, LimitText, Fit, FirstString, Preview;
    var e := EventOf(p, now);
    TrimIsStable(p.topic);
    TrimIsStable(p.name);
    TrimmedIsNotBlank(e.topic);
    TrimmedIsNotBlank(e.name);
    var q := p.(topic := e.topic, name := e.name);
    LimitedIsFit(TitleOf(q), 96);
    LimitedIsFit(BodyOf(q), 220);
    IdIsFit(e.ts, e.topic, e.name);
  }

  /** Which member a title or body is taken from: the first that says something. */
  lemma {:induction false} FirstStringIsFirst(members: map<string, Member>, keys: seq<string>, k: nat)
    requires k < |keys| && keys[k] in members && Said(members[keys[k]]).Some?
    requires forall j :: 0 <= j < k ==> keys[j] !in members || Said(members[keys[j]]).None?
    ensures FirstString(members, keys) == Said(members[keys[k]]).value
  {
    hide Said;
    if k > 0 {
      FirstStringIsFirst(members, keys[1..], k - 1);
    }
  }

  /** A body that is the payload itself was cut once: its own limit leaves the preview alone. */
  lemma {:induction false} PreviewIsCutOnce(p: Publish)
    requires Blank(FirstString(Members(p.payload), BODY_KEYS)) && !Blank(Preview(p.payload))
    ensures LimitText(BodyOf(p), MAX_BODY_LENGTH) == Preview(p.payload)
  {
    hide TrimSpace, LimitText, FirstString, SingleSpaced;
    EmptyIsBlank();
    var text := if p.payload.value.None? then p.payload.raw else p.payload.value.value.compact;
    LimitedIsSingleSpaced(text, MAX_PAYLOAD_TEXT_LENGTH);
    FittingIsKept(Preview(p.payload), MAX_BODY_LENGTH);
  }
}
