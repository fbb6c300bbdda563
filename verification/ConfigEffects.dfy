/** What a change of the configuration does in any state a run can reach, and what it leaves as it was. */
module ConfigEffects {
  import opened Wrappers
  import opened Text
  import opened Metrics
  import opened Config
  import opened ConfigFacts
  import opened ConfigRuns
  import opened ConfigStarts
  import opened ConfigStore

  /** The views that come from settings. */
  predicate SameMetrics(a: Live, b: Live) {
    a.settings == b.settings && a.bindings == b.bindings && a.enabledByMetric == b.enabledByMetric &&
      a.byVarName == b.byVarName
  }

  predicate SameDefaults(a: Live, b: Live) {
    a.visibility == b.visibility && a.noBattery == b.noBattery && a.topics == b.topics
  }

  /** The names of the runtime's own keys. */
  lemma KeysAreSpelled()
    ensures KeyText(SettingsKey) == "metrics.settings_json" && KeyText(BindingsKey) == "metrics.bindings_json"
    ensures KeyText(VisibilityKey) == "metrics.visibility_default" && KeyText(TopicsKey) == "notify.topics_json"
    ensures KeyText(NoBatteryKey) == "metrics.battery.no_battery_value"
  {
  }

  /** Setting one of the runtime's own keys, however it is spelled. */
  lemma {:induction false} KnownSet(t: Table, s: State, spelled: string, key: Key, value: Doc)
    requires IsKnown(key) && TrimSpace(spelled) == KeyText(key)
    ensures SetConfig(t, s, spelled, value) ==
              match Accepted(t, key, value)
              case None => (false, s)
              case Some(doc) => (true, Reload(t, s.data[key := doc], key))
  {
    hide TrimSpace, KeyOf, KeyText, Accepted, Reload;
    KnownKeyIsItself(key);
  }

  /** What a reload for anything but bindings makes of a store whose settings are in order. */
  lemma {:induction false} ReloadedViews(t: Table, data: map<Key, Doc>, key: Key, settings: seq<Setting>)
    requires key != BindingsKey && SettingsKey in data && ParsedSettings(t, data[SettingsKey]) == Some(settings)
    ensures Reload(t, data, key).live == LiveFrom(settings, data)
  {
    hide ParsedSettings, Views, BindingItems, TopicItems, SettingItems;
  }

  /**
   New settings are accepted exactly when they validate; they take effect as they
   are, and the defaults beside them stay.
   */
  lemma {:induction false} SettingsTakeEffect(t: Table, file: map<Key, Doc>, ops: seq<Op>, spelled: string,
                                              items: seq<Item>)
    requires TableOk(t) && TrimSpace(spelled) == "metrics.settings_json"
    ensures var s := Run(t, file, ops);
            var (ok, after) := SetConfig(t, s, spelled, Items(items));
            && (ok <==> AcceptedSettings(t, items).Some?)
            && (ok ==> Some(after.live.settings) == AcceptedSettings(t, items) && SameDefaults(after.live, s.live))
            && (!ok ==> after == s)
  {
    hide Run, TrimSpace, KeyText, TableOk, AcceptedSettings, SettingItems, Derived, ParsedVisibility,
         ParsedNoBattery, ParsedTopics,
         EnabledBindings, EnabledIndex, NameIndex, Reload;
    InvHolds(t, file, ops);
    var s := Run(t, file, ops);
    KeysAreSpelled();
    KnownSet(t, s, spelled, SettingsKey, Items(items));
    var accepted := AcceptedSettings(t, items);
    if accepted.Some? {
      AcceptedIsCanonical(t, items);
      CanonicalIsAccepted(t, accepted.value);
      ReloadedViews(t, s.data[SettingsKey := Items(SettingItems(accepted.value))], SettingsKey, accepted.value);
    }
  }

  lemma {:induction false} NewBindingsControl(t: Table, data: map<Key, Doc>, bindings: seq<Binding>)
    requires TableOk(t) && BindingsKey in data && ParsedBindings(t, data[BindingsKey]) == Some(bindings)
    requires VisibilityKey in data && NoBatteryKey in data
    ensures AllControllable(Reload(t, data, BindingsKey).live)
    ensures Reload(t, data, BindingsKey).live.settings == SettingsFrom(t, bindings)
  {
    hide TrimSpace, TableOk, Derived, ParsedBindings, ParsedSettings, SettingFrom, TrimmedList, AllControllable,
         EnabledBindings, EnabledIndex, NameIndex, ParsedTopics, ParsedVisibility, ParsedNoBattery;
    ReloadHolds(t, data, BindingsKey);
    MadeSettingsControl(t, bindings);
    SettingsControl(t, Reload(t, data, BindingsKey).live);
  }

  /**
   New bindings are accepted exactly when they validate; the last one of each metric takes
   effect, and what can be controlled may be.
   */
  lemma {:induction false} BindingsTakeEffect(t: Table, file: map<Key, Doc>, ops: seq<Op>, spelled: string,
                                              items: seq<Item>, b: Binding)
    requires TableOk(t) && TrimSpace(spelled) == "metrics.bindings_json"
    ensures var s := Run(t, file, ops);
            var (ok, after) := SetConfig(t, s, spelled, Items(items));
            && (ok <==> BindingsOk(t, TrimmedBindings(items)))
            && (ok ==> (b in after.live.bindings <==> SurvivesIn(TrimmedBindings(items), b)))
            && (ok ==> SameDefaults(after.live, s.live) && AllControllable(after.live))
            && (!ok ==> after == s)
  {
    hide Run, TrimSpace, KeyText, TableOk, BindingsOk, Derived, ParsedVisibility, ParsedNoBattery, ParsedTopics,
         SurvivesIn,
         EnabledBindings, EnabledIndex, NameIndex, SettingsFrom, TrimmedBindings, ParsedSettings, SettingItems,
         BindingItems, TopicItems;
    InvHolds(t, file, ops);
    var s := Run(t, file, ops);
    KeysAreSpelled();
    KnownSet(t, s, spelled, BindingsKey, Items(items));
    if BindingsOk(t, TrimmedBindings(items)) {
      RoundTripKeepsTheLast(t, TrimmedBindings(items), b);
      NewBindingsControl(t, s.data[BindingsKey := Items(items)], TrimmedBindings(items));
    }
  }

  /** The default visibility: public, private, or blank for public, in any case; nothing else is accepted. */
  lemma {:induction false} VisibilityTakesEffect(t: Table, file: map<Key, Doc>, ops: seq<Op>, spelled: string,
                                                 value: Doc)
    requires TableOk(t) && TrimSpace(spelled) == "metrics.visibility_default"
    ensures var s := Run(t, file, ops);
            var (ok, after) := SetConfig(t, s, spelled, value);
            var v := if value.Text? then ToLower(TrimSpace(value.text)) else "[";
            && (ok <==> v == "" || v == "public" || v == "private")
            && (ok ==> after.live.visibility == (if v == "private" then "private" else "public")
                       && SameMetrics(after.live, s.live)
                       && after.live.noBattery == s.live.noBattery && after.live.topics == s.live.topics)
            && (!ok ==> after == s)
  {
    hide Run, TrimLeft, TrimRight, ToLower, KeyText, TableOk, Derived, ParsedNoBattery, ParsedTopics, ParsedSettings,
         EnabledBindings, EnabledIndex, NameIndex, Reload;
    InvHolds(t, file, ops);
    var s := Run(t, file, ops);
    KeysAreSpelled();
    KnownSet(t, s, spelled, VisibilityKey, value);
    if ParsedVisibility(value).Some? {
      ReloadedViews(t, s.data[VisibilityKey := value], VisibilityKey, s.live.settings);
    }
  }

  /** The text for a missing battery: anything that is not blank, trimmed; a list is text like any other here. */
  lemma {:induction false} NoBatteryTakesEffect(t: Table, file: map<Key, Doc>, ops: seq<Op>, spelled: string,
                                                value: Doc)
    requires TableOk(t) && TrimSpace(spelled) == "metrics.battery.no_battery_value"
    ensures var s := Run(t, file, ops);
            var (ok, after) := SetConfig(t, s, spelled, value);
            && (ok <==> value.Items? || !Blank(value.text))
            && (ok ==> after.live.noBattery == (if value.Items? then value else Text(TrimSpace(value.text)))
                       && SameMetrics(after.live, s.live)
                       && after.live.visibility == s.live.visibility && after.live.topics == s.live.topics)
            && (!ok ==> after == s)
  {
    hide Run, TrimLeft, TrimRight, KeyText, TableOk, Derived, ParsedVisibility, ParsedTopics, ParsedSettings,
         EnabledBindings, EnabledIndex, NameIndex, Reload;
    InvHolds(t, file, ops);
    var s := Run(t, file, ops);
    KeysAreSpelled();
    KnownSet(t, s, spelled, NoBatteryKey, value);
    if value.Items? || !Blank(value.text) {
      ReloadedViews(t, s.data[NoBatteryKey := value], NoBatteryKey, s.live.settings);
    }
  }

  /** The notification topics: the first entry of each topic takes effect. */
  lemma {:induction false} TopicsTakeEffect(t: Table, file: map<Key, Doc>, ops: seq<Op>, spelled: string,
                                            items: seq<Item>)
    requires TableOk(t) && TrimSpace(spelled) == "notify.topics_json"
    ensures var s := Run(t, file, ops);
            var (ok, after) := SetConfig(t, s, spelled, Items(items));
            && (ok <==> forall i :: 0 <= i < |items| ==> !Blank(items[i].topic) && |TrimSpace(items[i].topic)| <= 256)
            && (ok ==> after.live.topics == FirstTopics(ReadTopics(items)) && SameMetrics(after.live, s.live)
                       && after.live.visibility == s.live.visibility && after.live.noBattery == s.live.noBattery)
            && (!ok ==> after == s)
  {
    hide Run, TrimSpace, KeyText, TableOk, Derived, ParsedVisibility, ParsedNoBattery, ParsedSettings, FirstTopics,
         ParsedTopics,
         EnabledBindings, EnabledIndex, NameIndex, Reload, TopicItems;
    InvHolds(t, file, ops);
    var s := Run(t, file, ops);
    KeysAreSpelled();
    KnownSet(t, s, spelled, TopicsKey, Items(items));
    TopicsAccepted(items);
    if ParsedTopics(Items(items)).Some? {
      TopicsReadBack(Items(items));
      ReloadedViews(t, s.data[TopicsKey := Items(TopicItems(ParsedTopics(Items(items)).value))], TopicsKey,
                    s.live.settings);
    }
  }

  lemma {:induction false} TopicsAccepted(items: seq<Item>)
    ensures var parsed := ParsedTopics(Items(items));
            && (parsed.Some? <==> forall i :: 0 <= i < |items| ==>
              !Blank(items[i].topic) && |TrimSpace(items[i].topic)| <= 256)
            && (parsed.Some? ==> parsed.value == FirstTopics(ReadTopics(items)))
  {
    hide TrimSpace, FirstTopics;
    var topics := ReadTopics(items);
    assert forall i :: 0 <= i < |items| ==> topics[i].topic == TrimSpace(items[i].topic);
    if ParsedTopics(Items(items)).Some? {
      assert forall i :: 0 <= i < |items| ==> TopicOk(topics[i]);
    }
  }

  /** Where a list of topics is read from: the first entry of each topic, in order, off unless it says on. */
  ghost predicate FirstOfEach(items: seq<Item>, topics: seq<TopicSetting>, at: seq<nat>) {
    && |at| == |topics| && (forall k, l :: 0 <= k < l < |at| ==> at[k] < at[l])
    && (forall k :: 0 <= k < |at| ==>
          && at[k] < |items| && IsFirst(items, at[k])
          && topics[k] == TopicRead(items[at[k]]))
    && (forall i :: 0 <= i < |items| && IsFirst(items, i) ==> i in at)
  }

  function TopicRead(item: Item): TopicSetting {
    TopicSetting(TrimSpace(item.topic), item.enabled == Some(true))
  }

  predicate IsFirst(items: seq<Item>, i: nat)
    requires i < |items|
  {
    forall j :: 0 <= j < i ==> TrimSpace(items[j].topic) != TrimSpace(items[i].topic)
  }

  lemma {:induction false} FirstAppended(items: seq<Item>, topics: seq<TopicSetting>, at: seq<nat>)
    requires items != [] && FirstOfEach(items[..|items| - 1], topics, at) && IsFirst(items, |items| - 1)
    ensures FirstOfEach(items, topics + [TopicRead(items[|items| - 1])], at + [|items| - 1])
  {
    hide TrimSpace, TopicRead;
    var n, after := |items| - 1, at + [|items| - 1];
    forall i | 0 <= i < |items| && IsFirst(items, i) ensures i in after {
      if i < n {
        assert IsFirst(items[..n], i);
        var k :| 0 <= k < |at| && at[k] == i;
        assert after[k] == i;
      } else {
        assert after[|at|] == n;
      }
    }
    forall k | 0 <= k < |at| ensures IsFirst(items, at[k]) {
      assert IsFirst(items[..n], at[k]);
    }
  }

  lemma {:induction false} RepeatedAppended(items: seq<Item>, topics: seq<TopicSetting>, at: seq<nat>)
    requires items != [] && FirstOfEach(items[..|items| - 1], topics, at) && !IsFirst(items, |items| - 1)
    ensures FirstOfEach(items, topics, at)
  {
    hide TrimSpace, TopicRead;
    var n := |items| - 1;
    forall i | 0 <= i < |items| && IsFirst(items, i) ensures i in at {
      assert i < n && IsFirst(items[..n], i);
    }
    forall k | 0 <= k < |at| ensures IsFirst(items, at[k]) {
      assert IsFirst(items[..n], at[k]);
    }
  }

  lemma {:induction false} TopicsAreRead(items: seq<Item>) returns (at: seq<nat>)
    ensures FirstOfEach(items, FirstTopics(ReadTopics(items)), at)
  {
    hide TrimSpace, FirstOfEach, IsFirst, ListsTopic;
    if items == [] {
      at := [];
      NothingIsFirst();
    } else {
      var n := |items| - 1;
      at := TopicsAreRead(items[..n]);
      assert ReadTopics(items)[..n] == ReadTopics(items[..n]);
      assert ReadTopics(items)[n] == TopicRead(items[n]);
      var before := FirstTopics(ReadTopics(items[..n]));
      FirstIsUnlisted(items, before, at);
      if IsFirst(items, n) {
        FirstAppended(items, before, at);
        at := at + [n];
      } else {
        RepeatedAppended(items, before, at);
      }
    }
  }

  lemma NothingIsFirst()
    ensures FirstOfEach([], FirstTopics(ReadTopics([])), [])
  {
  }

  lemma {:induction false} FirstIsUnlisted(items: seq<Item>, before: seq<TopicSetting>, at: seq<nat>)
    requires items != [] && before == FirstTopics(ReadTopics(items[..|items| - 1]))
    requires FirstOfEach(items[..|items| - 1], before, at)
    ensures IsFirst(items, |items| - 1) <==> !ListsTopic(before, TrimSpace(items[|items| - 1].topic))
  {
    hide TrimSpace, FirstTopics;
    var n := |items| - 1;
    var topic, read := TrimSpace(items[n].topic), ReadTopics(items[..n]);
    FirstTopicsAreDistinct(read);
    if ListsTopic(before, topic) {
      var k :| 0 <= k < |before| && before[k].topic == topic;
      assert TrimSpace(items[at[k]].topic) == topic;
    }
    if !IsFirst(items, n) {
      var j :| 0 <= j < n && TrimSpace(items[j].topic) == topic;
      assert read[j] in read && read[j].topic == topic;
    }
  }

  // --------------------------------------------------------- what validation accepts and reads

  predicate LastOfMetric(items: seq<Item>, i: nat)
    requires i < |items|
  {
    forall j :: i < j < |items| ==> TrimSpace(items[j].metric) != TrimSpace(items[i].metric)
  }

  /** Two metrics end up enabled under one name. */
  predicate Clash(items: seq<Item>, i: nat, j: nat)
    requires i < |items| && j < |items|
  {
    && i != j && LastOfMetric(items, i) && LastOfMetric(items, j)
    && items[i].enabled != Some(false) && items[j].enabled != Some(false)
    && TrimSpace(items[i].varName) == TrimSpace(items[j].varName)
  }

  predicate Usable(t: Table, item: Item) {
    SupportedMetric(t.android, TrimSpace(item.metric)) && ValidVarName(TrimSpace(item.varName))
  }

  /** Settings validate exactly if every entry is usable and no two metrics end up enabled under one name. */
  lemma {:induction false} SettingsAcceptedExactly(t: Table, items: seq<Item>)
    requires TableOk(t)
    ensures AcceptedSettings(t, items).Some? <==>
              && (forall i :: 0 <= i < |items| ==> Usable(t, items[i]))
              && (forall i, j :: 0 <= i < |items| && 0 <= j < |items| ==> !Clash(items, i, j))
  {
    hide TrimSpace, Clash, Usable, ValidVarName, IsReadOnly, IsControllable, SupportedMetric, EnabledNamesDistinct;
    var read := ReadSettings(items);
    var out := SettingsFor(t, read);
    forall i | 0 <= i < |items| ensures Usable(t, items[i]) <==> SettingOk(t, read[i]) {
      UsableIsOk(t, items[i]);
    }
    if forall i :: 0 <= i < |items| ==> Usable(t, items[i]) {
      if EnabledNamesDistinct(out) {
        forall i, j | 0 <= i < |items| && 0 <= j < |items| ensures !Clash(items, i, j) {
          DistinctNeverClash(t, items, i, j);
        }
      }
      if forall i, j :: 0 <= i < |items| && 0 <= j < |items| ==> !Clash(items, i, j) {
        UnclashedIsDistinct(t, items);
      }
    }
  }

  lemma UsableIsOk(t: Table, item: Item)
    ensures Usable(t, item) <==> SettingOk(t, FromItem(item))
  {
    hide TrimSpace, SupportedMetric, ValidVarName;
  }

  /** Where the last entry of a metric is found among the settings. */
  lemma {:induction false} LastIsSetting(t: Table, items: seq<Item>, i: nat) returns (k: nat)
    requires TableOk(t) && i < |items| && LastOfMetric(items, i) && Usable(t, items[i])
    ensures k < |t.defaults| && t.defaults[k].metric == TrimSpace(items[i].metric)
    ensures SettingsFor(t, ReadSettings(items))[k] == FromItem(items[i])
  {
    hide TrimSpace, ValidVarName, IsReadOnly, IsControllable, SupportedMetric;
    var read := ReadSettings(items);
    assert Covers(t.defaults, TrimSpace(items[i].metric));
    k :| 0 <= k < |t.defaults| && t.defaults[k].metric == TrimSpace(items[i].metric);
    LastSettingAt(read, t.defaults[k].metric, i);
  }

  lemma {:induction false} DistinctNeverClash(t: Table, items: seq<Item>, i: nat, j: nat)
    requires TableOk(t) && i < |items| && j < |items| && Usable(t, items[i]) && Usable(t, items[j])
    requires EnabledNamesDistinct(SettingsFor(t, ReadSettings(items)))
    ensures !Clash(items, i, j)
  {
    hide TrimSpace, ValidVarName, IsReadOnly, IsControllable, SupportedMetric, Usable, ReadSettings, SettingFor;
    if Clash(items, i, j) {
      var k := LastIsSetting(t, items, i);
      var l := LastIsSetting(t, items, j);
    }
  }

  lemma {:induction false} UnclashedIsDistinct(t: Table, items: seq<Item>)
    requires TableOk(t) && forall i, j :: 0 <= i < |items| && 0 <= j < |items| ==> !Clash(items, i, j)
    ensures EnabledNamesDistinct(SettingsFor(t, ReadSettings(items)))
  {
    hide TrimSpace, ValidVarName, IsReadOnly, IsControllable, SupportedMetric, LastSetting, Clash;
    var out := SettingsFor(t, ReadSettings(items));
    forall k, l | 0 <= k < l < |out| && out[k].enabled && out[l].enabled ensures out[k].varName != out[l].varName {
      var i := EnabledIsLast(items, t.defaults[k]);
      var j := EnabledIsLast(items, t.defaults[l]);
      assert out[k] == FromItem(items[i]) && out[l] == FromItem(items[j]);
      ClashIs(items, i, j);
    }
  }

  lemma ClashIs(items: seq<Item>, i: nat, j: nat)
    requires i < |items| && j < |items| && !Clash(items, i, j) && LastOfMetric(items, i) && LastOfMetric(items, j)
    requires FromItem(items[i]).enabled && FromItem(items[j]).enabled && i != j
    ensures FromItem(items[i]).varName != FromItem(items[j]).varName
  {
    hide TrimSpace, LastOfMetric;
  }

  /** An enabled setting comes from the last entry of its metric. */
  lemma {:induction false} EnabledIsLast(items: seq<Item>, d: Binding) returns (i: nat)
    requires SettingFor(ReadSettings(items), d).enabled
    ensures i < |items| && LastOfMetric(items, i) && TrimSpace(items[i].metric) == d.metric
    ensures SettingFor(ReadSettings(items), d) == FromItem(items[i])
  {
    hide TrimSpace, IsControllable;
    i := LastEntry(items, d.metric);
  }

  lemma {:induction false} LastEntry(items: seq<Item>, metric: string) returns (i: nat)
    requires LastSetting(ReadSettings(items), metric).Some?
    ensures i < |items| && LastOfMetric(items, i) && TrimSpace(items[i].metric) == metric
    ensures LastSetting(ReadSettings(items), metric) == Some(FromItem(items[i]))
  {
    hide TrimSpace, IsControllable, LastOfMetric;
    var n := |items| - 1;
    var read := ReadSettings(items);
    assert read[n] == FromItem(items[n]) && read[n].metric == TrimSpace(items[n].metric);
    if read[n].metric == metric {
      i := n;
      LastIsLast(items, n);
    } else {
      assert read[..n] == ReadSettings(items[..n]);
      i := LastEntry(items[..n], metric);
      StillLast(items, i);
    }
  }

  lemma LastIsLast(items: seq<Item>, i: nat)
    requires i == |items| - 1
    ensures LastOfMetric(items, i)
  {
  }

  lemma StillLast(items: seq<Item>, i: nat)
    requires i < |items| - 1 && LastOfMetric(items[..|items| - 1], i)
    requires TrimSpace(items[|items| - 1].metric) != TrimSpace(items[i].metric)
    ensures LastOfMetric(items, i)
  {
    hide TrimSpace;
    var front := items[..|items| - 1];
    forall j | i < j < |items| ensures TrimSpace(items[j].metric) != TrimSpace(items[i].metric) {
      assert j < |front| ==> front[j] == items[j];
    }
  }

  // ------------------------------------------------------------------------- plain text

  /**
   Text where a list belongs: blank text brings the default settings, everything else is
   rejected and changes nothing.
   */
  lemma {:induction false} SettingsTextTakesEffect(t: Table, file: map<Key, Doc>, ops: seq<Op>, spelled: string,
                                                  text: string, k: nat)
    requires TableOk(t) && TrimSpace(spelled) == "metrics.settings_json" && k < |t.defaults|
    ensures var s := Run(t, file, ops);
            var (ok, after) := SetConfig(t, s, spelled, Text(text));
            && (ok <==> Blank(text)) && (!ok ==> after == s)
            && (ok ==>
                  && AllControllable(after.live) && SameDefaults(after.live, s.live)
                  && |after.live.settings| == |t.defaults| && after.live.settings[k].enabled
                  && after.live.settings[k].metric == t.defaults[k].metric
                  && after.live.settings[k].varName == t.defaults[k].varName)
  {
    hide Run, TrimSpace, KeyText, TableOk, AcceptedSettings, SettingItems, Derived, ParsedVisibility, ParsedNoBattery,
         ParsedTopics, EnabledBindings, EnabledIndex, NameIndex, Reload, AllControllable;
    InvHolds(t, file, ops);
    var s := Run(t, file, ops);
    KeysAreSpelled();
    KnownSet(t, s, spelled, SettingsKey, Text(text));
    if Blank(text) {
      var data := s.data[SettingsKey := Items(SettingItems(DefaultSettings(t)))];
      DefaultsAreCanonical(t);
      CanonicalIsAccepted(t, DefaultSettings(t));
      ReloadedViews(t, data, SettingsKey, DefaultSettings(t));
      ReloadHolds(t, data, SettingsKey);
      MadeSettingsControl(t, []);
      SettingsControl(t, Reload(t, data, SettingsKey).live);
    }
  }

  /** The same for bindings: blank text binds every supported metric under its default name. */
  lemma {:induction false} BindingsTextTakesEffect(t: Table, file: map<Key, Doc>, ops: seq<Op>, spelled: string,
                                                  text: string, b: Binding)
    requires TableOk(t) && TrimSpace(spelled) == "metrics.bindings_json"
    ensures var s := Run(t, file, ops);
            var (ok, after) := SetConfig(t, s, spelled, Text(text));
            && (ok <==> Blank(text)) && (!ok ==> after == s)
            && (ok ==>
                  && AllControllable(after.live) && SameDefaults(after.live, s.live)
                  && (b in after.live.bindings <==> b in t.defaults))
  {
    hide Run, TrimSpace, KeyText, TableOk, BindingsOk, Derived, ParsedVisibility, ParsedNoBattery, ParsedTopics,
         SurvivesIn, EnabledBindings, EnabledIndex, NameIndex, SettingsFrom, ParsedSettings, SettingItems,
         BindingItems, TopicItems, AllControllable;
    InvHolds(t, file, ops);
    var s := Run(t, file, ops);
    KeysAreSpelled();
    KnownSet(t, s, spelled, BindingsKey, Text(text));
    if Blank(text) {
      DefaultsAreCanonical(t);
      NewBindingsControl(t, s.data[BindingsKey := Text(text)], t.defaults);
      RoundTripKeepsTheLast(t, t.defaults, b);
      DefaultsSurvive(t, b);
    }
  }

  lemma {:induction false} DefaultsSurvive(t: Table, b: Binding)
    requires TableOk(t)
    ensures SurvivesIn(t.defaults, b) <==> b in t.defaults
  {
    if b in t.defaults {
      var k :| 0 <= k < |t.defaults| && t.defaults[k] == b;
      assert IsLast(t.defaults, k);
    }
  }

  /** And for topics: blank text leaves none. */
  lemma {:induction false} TopicsTextTakesEffect(t: Table, file: map<Key, Doc>, ops: seq<Op>, spelled: string,
                                                text: string)
    requires TableOk(t) && TrimSpace(spelled) == "notify.topics_json"
    ensures var s := Run(t, file, ops);
            var (ok, after) := SetConfig(t, s, spelled, Text(text));
            && (ok <==> Blank(text)) && (!ok ==> after == s)
            && (ok ==> after.live.topics == [] && SameMetrics(after.live, s.live))
  {
    hide Run, TrimSpace, KeyText, TableOk, Derived, ParsedVisibility, ParsedNoBattery, ParsedSettings, ReadTopics,
         EnabledBindings, EnabledIndex, NameIndex, Reload, FirstTopics;
    InvHolds(t, file, ops);
    var s := Run(t, file, ops);
    KeysAreSpelled();
    KnownSet(t, s, spelled, TopicsKey, Text(text));
    NoTopics();
    if Blank(text) {
      assert TopicItems([]) == [];
      ReloadedViews(t, s.data[TopicsKey := Items([])], TopicsKey, s.live.settings);
    }
  }

  /** A key the runtime does not know is stored and changes no view. */
  lemma {:induction false} OtherKeysAreKept(t: Table, file: map<Key, Doc>, ops: seq<Op>, spelled: string, value: Doc)
    requires TableOk(t) && !Blank(spelled) && KeyOf(TrimSpace(spelled)).OtherKey?
    ensures var s := Run(t, file, ops);
            var (ok, after) := SetConfig(t, s, spelled, value);
            ok && after.live == s.live && after.data == s.data[KeyOf(TrimSpace(spelled)) := value]
  {
    hide Run, TrimSpace, KeyOf, TableOk, Derived, ParsedVisibility, ParsedNoBattery, ParsedSettings, ParsedTopics,
         EnabledBindings, EnabledIndex, NameIndex, TopicItems, BindingItems, SettingItems;
    InvHolds(t, file, ops);
    var s := Run(t, file, ops);
    var key := KeyOf(TrimSpace(spelled));
    var data := s.data[key := value];
    ReloadedViews(t, data, key, s.live.settings);
    assert data[BindingsKey := s.data[BindingsKey]][TopicsKey := s.data[TopicsKey]] == data;
  }
}
