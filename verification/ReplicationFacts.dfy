/** What publishing does to one variable, and what a usable configuration is. */
module ReplicationFacts {
  import opened Wrappers
  import opened Text
  import opened Metrics
  import opened Config
  import opened ConfigFacts
  import opened ConfigRuns
  import opened Replication

  /** The last message about `name`, if any is under way. */
  function Last(channel: seq<Msg>, name: string): Option<string> {
    if channel == [] then None
    else if channel[|channel| - 1].name == name then Some(channel[|channel| - 1].value)
    else Last(channel[..|channel| - 1], name)
  }

  lemma {:induction false} LastAfterSend(channel: seq<Msg>, m: Msg, name: string)
    ensures Last(channel + [m], name) == if m.name == name then Some(m.value) else Last(channel, name)
  {
    assert (channel + [m])[..|channel|] == channel;
  }

  lemma {:induction false} LastAfterReceive(channel: seq<Msg>, name: string)
    requires channel != []
    ensures Last(channel, name) ==
      if Last(channel[1..], name).Some? then Last(channel[1..], name)
      else if channel[0].name == name then Some(channel[0].value) else None
  {
    if |channel| > 1 {
      var front := channel[..|channel| - 1];
      assert channel[1..][..|channel| - 2] == front[1..];
      LastAfterReceive(front, name);
    }
  }

  /** The messages about `name`, in order. */
  function About(channel: seq<Msg>, name: string): seq<Msg> {
    if channel == [] then []
    else
      var before, m := About(channel[..|channel| - 1], name), channel[|channel| - 1];
      if m.name == name then before + [m] else before
  }

  lemma {:induction false} AboutAfterSend(channel: seq<Msg>, m: Msg, name: string)
    ensures About(channel + [m], name) == About(channel, name) + if m.name == name then [m] else []
  {
    assert (channel + [m])[..|channel|] == channel;
  }

  lemma {:induction false} AboutAfterReceive(channel: seq<Msg>, name: string)
    requires channel != []
    ensures About(channel, name) == (if channel[0].name == name then [channel[0]] else []) + About(channel[1..], name)
  {
    if |channel| > 1 {
      var front := channel[..|channel| - 1];
      assert channel[1..][..|channel| - 2] == front[1..];
      AboutAfterReceive(front, name);
    } else {
      assert channel[..0] == [] && channel[1..] == [];
    }
  }

  /** What the last message about `name` says, value and visibility. */
  function LastSet(channel: seq<Msg>, name: string): Option<Published> {
    var about := About(channel, name);
    if about == [] then None else Some(Published(about[|about| - 1].value, about[|about| - 1].visibility))
  }

  lemma LastSetAfterSend(channel: seq<Msg>, m: Msg, name: string)
    ensures LastSet(channel + [m], name) ==
      if m.name == name then Some(Published(m.value, m.visibility)) else LastSet(channel, name)
  {
    hide About;
    AboutAfterSend(channel, m, name);
  }

  lemma LastSetAfterReceive(channel: seq<Msg>, name: string)
    requires channel != []
    ensures LastSet(channel, name) ==
      if LastSet(channel[1..], name).Some? then LastSet(channel[1..], name)
      else if channel[0].name == name then Some(Published(channel[0].value, channel[0].visibility)) else None
  {
    hide About;
    AboutAfterReceive(channel, name);
  }

  predicate Clean(text: string) {
    text != "" && TrimSpace(text) == text
  }

  /** An entry as the node reads it. */
  function Read(p: Published): Published {
    Published(TrimSpace(p.value), VisibilityOf(p.visibility))
  }

  /** A publish of `value` has left its mark on `name`, sending it or finding it recorded. */
  predicate Marked(n: Node, after: Node, name: string, value: string, vis: string) {
    && name in after.published && after.published[name] == Published(value, vis)
    && ((Last(after.sent, name) == Some(value) && LastSet(after.sent, name) == Some(Published(value, vis)))
        || (Last(after.sent, name) == Last(n.sent, name) && LastSet(after.sent, name) == LastSet(n.sent, name)
            && name in n.published && n.published[name] == Published(value, vis)))
  }

  predicate Untouched(n: Node, after: Node, name: string) {
    && Last(after.sent, name) == Last(n.sent, name) && LastSet(after.sent, name) == LastSet(n.sent, name)
    && (name in after.published <==> name in n.published)
    && (name in n.published ==> after.published[name] == n.published[name])
  }

  /** Publishing changes the cache and the channel, nothing else. */
  predicate SameOtherwise(n: Node, after: Node) {
    after == n.(published := after.published, sent := after.sent)
  }

  predicate SentOk(sent: seq<Msg>, nodeId: nat) {
    forall i :: 0 <= i < |sent| ==>
      ValidVarName(sent[i].name) && Clean(sent[i].value) && sent[i].owner == nodeId
  }

  lemma {:induction false} LastIsClean(sent: seq<Msg>, nodeId: nat, name: string)
    requires SentOk(sent, nodeId)
    ensures Last(sent, name).Some? ==> Clean(Last(sent, name).value)
  {
    hide TrimSpace, ValidVarName;
    if sent != [] {
      LastIsClean(sent[..|sent| - 1], nodeId, name);
    }
  }

  lemma {:induction false} PublishMarks(n: Node, name: string, value: string, visibility: string, other: string)
    requires ValidVarName(name) && Clean(value) && SentOk(n.sent, n.auth.nodeId)
    ensures var after := Publish(n, name, value, visibility);
            && SameOtherwise(n, after) && SentOk(after.sent, n.auth.nodeId)
            && Marked(n, after, name, value, VisibilityOf(visibility))
            && (other != name ==> Untouched(n, after, other))
  {
    hide TrimLeft, TrimRight, VisibilityOf, Last, LastSet;
    ValidNameIsTrimmed(name);
    var m := Msg(name, value, VisibilityOf(visibility), n.auth.nodeId);
    LastAfterSend(n.sent, m, name);
    LastAfterSend(n.sent, m, other);
    LastSetAfterSend(n.sent, m, name);
    LastSetAfterSend(n.sent, m, other);
  }

  predicate PlanOk(plan: seq<Pub>) {
    forall i :: 0 <= i < |plan| ==> ValidVarName(plan[i].name) && Clean(plan[i].value)
  }

  /** Every publish of `name` in the plan has the same value. */
  predicate PlansOnly(plan: seq<Pub>, name: string, value: string) {
    forall i :: 0 <= i < |plan| && plan[i].name == name ==> plan[i].value == value
  }

  predicate Plans(plan: seq<Pub>, name: string) {
    exists i :: 0 <= i < |plan| && plan[i].name == name
  }

  lemma {:induction false} EachMarks(n: Node, plan: seq<Pub>, visibility: string, name: string, value: string)
    requires PlanOk(plan) && SentOk(n.sent, n.auth.nodeId) && PlansOnly(plan, name, value)
    ensures var after := PublishEach(n, plan, visibility);
            && SameOtherwise(n, after) && SentOk(after.sent, n.auth.nodeId)
            && (if Plans(plan, name) then Marked(n, after, name, value, VisibilityOf(visibility))
                else Untouched(n, after, name))
  {
    hide TrimSpace, VisibilityOf, Last, LastSet, Publish, ValidVarName;
    if plan != [] {
      var front, p := plan[..|plan| - 1], plan[|plan| - 1];
      EachMarks(n, front, visibility, name, value);
      PublishMarks(PublishEach(n, front, visibility), p.name, p.value, visibility, name);
      assert Plans(plan, name) <==> Plans(front, name) || p.name == name by {
        if Plans(front, name) {
          var i :| 0 <= i < |front| && front[i].name == name;
          assert plan[i].name == name;
        }
        if p.name == name {
          assert plan[|plan| - 1].name == name;
        }
      }
    }
  }

  // ------------------------------------------------------------- configuration

  /** Names and metrics of a configuration determine each other, and texts are in normal form. */
  ghost predicate ConfigOk(cfg: PublishConfig) {
    && (forall i :: 0 <= i < |cfg.bindings| ==>
          && ValidVarName(cfg.bindings[i].varName)
          && Bound(cfg, cfg.bindings[i].varName).Some?
          && Bound(cfg, cfg.bindings[i].varName).value.metric == cfg.bindings[i].metric)
    && (forall name :: Bound(cfg, name).Some? ==>
          Binding(Bound(cfg, name).value.metric, TrimSpace(name)) in cfg.bindings)
    && Clean(cfg.noBattery) && (cfg.visibility == PUBLIC || cfg.visibility == PRIVATE)
  }

  /** The text of a JSON list, white space around it removed. */
  predicate SpellsList(text: string) {
    text != "" && text[0] == '[' && text[|text| - 1] == ']'
  }

  /** A stored document as the text it is; `spell` gives the text of a list. */
  function Spelled(doc: Doc, spell: seq<Item> -> string): string {
    match doc case Text(text) => text case Items(items) => spell(items)
  }

  function PublishConfigOf(live: Live, spell: seq<Item> -> string): PublishConfig {
    PublishConfig(live.bindings, live.byVarName, live.visibility, Spelled(live.noBattery, spell))
  }

  /** Every configuration the runtime can reach is usable for publishing. */
  lemma {:induction false} ReachedConfigIsOk(t: Table, file: map<Key, Doc>, ops: seq<Op>, spell: seq<Item> -> string)
    requires TableOk(t) && forall items :: SpellsList(spell(items))
    ensures ConfigOk(PublishConfigOf(ConfigRuns.Run(t, file, ops).live, spell))
  {
    hide TrimSpace, ConfigRuns.Run, EnabledOf, EnabledIndex, NameIndex, BindingByVarName, Scan, Canonical, TableOk,
         Spelled;
    InvHolds(t, file, ops);
    var live := ConfigRuns.Run(t, file, ops).live;
    var cfg := PublishConfigOf(live, spell);
    BindingsOfCanonical(t, live.settings);
    forall i | 0 <= i < |cfg.bindings|
      ensures Bound(cfg, cfg.bindings[i].varName).Some?
      ensures Bound(cfg, cfg.bindings[i].varName).value.metric == cfg.bindings[i].metric
    {
      NamedBindingIsFound(t, live, cfg.bindings[i]);
    }
    forall name | Bound(cfg, name).Some?
      ensures Binding(Bound(cfg, name).value.metric, TrimSpace(name)) in cfg.bindings
    {
      IndexMatchesScan(t, live, name);
      ScanIsExact(live.bindings, TrimSpace(name));
    }
    NoBatteryIsClean(t, file, ops, spell);
  }

  lemma {:induction false} NamedBindingIsFound(t: Table, live: Live, b: Binding)
    requires TableOk(t) && Derived(t, live) && b in live.bindings
    requires BindingsOk(t, live.bindings)
    ensures var found := BindingByVarName(live.bindings, live.byVarName, b.varName);
            found.Some? && found.value.metric == b.metric
  {
    ValidNameIsTrimmed(b.varName);
    IndexMatchesScan(t, live, b.varName);
    ScanIsExact(live.bindings, b.varName);
    var scanned := Binding(Scan(live.bindings, b.varName).value.metric, b.varName);
    SameNameSameBinding(live.bindings, b, scanned);
  }

  lemma {:induction false} NoBatteryIsClean(t: Table, file: map<Key, Doc>, ops: seq<Op>, spell: seq<Item> -> string)
    requires TableOk(t) && forall items :: SpellsList(spell(items))
    ensures Clean(Spelled(ConfigRuns.Run(t, file, ops).live.noBattery, spell))
  {
    hide TrimLeft, TrimRight, ConfigRuns.Run, Derived, TableOk, EnabledBindings, EnabledIndex, NameIndex, Spelled,
         SpellsList;
    InvHolds(t, file, ops);
    var s := ConfigRuns.Run(t, file, ops);
    assert s.live.noBattery == LiveFrom(s.live.settings, s.data).noBattery;
    NoBatteryTextIsClean(Lookup(s.data, NoBatteryKey), spell);
  }

  lemma {:induction false} NoBatteryTextIsClean(doc: Doc, spell: seq<Item> -> string)
    requires forall items :: SpellsList(spell(items))
    ensures Clean(Spelled(OrElse(ParsedNoBattery(doc), Text(DEFAULT_NO_BATTERY)), spell))
  {
    PlainIsTrimmed(DEFAULT_NO_BATTERY);
    if doc.Items? {
      assert SpellsList(spell(doc.items));
      PlainEndsAreTrimmed(spell(doc.items));
    }
  }
}
