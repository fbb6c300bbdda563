/**
 The runtime configuration as the code computes and keeps it: validation loops over
 maps and lists, and the object that owns the store and the live views. Each member
 is tied to the function of module Config that says what it computes.
 */
module RuntimeConfig {
  import opened Wrappers
  import opened Text
  import opened Metrics
  import opened Config
  import opened ConfigFacts
  import opened ConfigStore

  // ---------------------------------------------------------------- validation

  method ValidateBindings(t: Table, items: seq<Item>) returns (r: Option<seq<Binding>>)
    ensures r == AcceptedBindings(t, items)
  {
    hide TrimSpace, SupportedMetric, ValidVarName;
    ghost var trimmed := TrimmedBindings(items);
    var out: seq<Binding> := [];
    var seenVar: set<string> := {};
    for i := 0 to |items|
      invariant out == trimmed[..i] && BindingsOk(t, out)
      invariant forall name :: name in seenVar <==> exists j :: 0 <= j < i && trimmed[j].varName == name
    {
      var b := Binding(TrimSpace(items[i].metric), TrimSpace(items[i].varName));
      assert b == trimmed[i];
      if !SupportedMetric(t.android, b.metric) {
        return None;
      }
      if !ValidVarName(b.varName) {
        return None;
      }
      if b.varName in seenVar {
        return None;
      }
      seenVar := seenVar + {b.varName};
      out := out + [b];
    }
    assert trimmed[..|items|] == trimmed;
    return Some(out);
  }

  /** What a map filled entry by entry holds after the settings read so far. */
  ghost predicate HoldsLast(byMetric: map<string, Setting>, read: seq<Setting>) {
    forall m :: LastSetting(read, m) == if m in byMetric then Some(byMetric[m]) else None
  }

  lemma {:induction false} HoldsLastAppended(byMetric: map<string, Setting>, read: seq<Setting>, k: nat)
    requires k < |read| && HoldsLast(byMetric, read[..k])
    ensures HoldsLast(byMetric[read[k].metric := read[k]], read[..k + 1])
  {
    assert read[..k + 1][..k] == read[..k];
  }

  lemma DefaultIsTrimmed(t: Table, k: nat)
    requires TableOk(t) && k < |t.defaults|
    ensures TrimmedBinding(t.defaults[k]) == t.defaults[k]
  {
    hide TrimSpace;
    SupportedIsTrimmed(t, t.defaults[k].metric);
    ValidNameIsTrimmed(t.defaults[k].varName);
  }

  /** The two tables validation starts from: the supported metrics in order, and their default names. */
  method SupportedTables(t: Table) returns (ordered: seq<string>, defaultVarByMetric: map<string, string>)
    requires TableOk(t)
    ensures |ordered| == |t.defaults|
    ensures forall k :: 0 <= k < |ordered| ==>
              && ordered[k] == t.defaults[k].metric
              && ordered[k] in defaultVarByMetric && defaultVarByMetric[ordered[k]] == t.defaults[k].varName
  {
    hide TrimSpace;
    ordered, defaultVarByMetric := [], map[];
    for k := 0 to |t.defaults|
      invariant |ordered| == k
      invariant forall j :: 0 <= j < k ==>
                  && ordered[j] == t.defaults[j].metric
                  && ordered[j] in defaultVarByMetric && defaultVarByMetric[ordered[j]] == t.defaults[j].varName
    {
      DefaultIsTrimmed(t, k);
      var metric := TrimSpace(t.defaults[k].metric);
      ordered := ordered + [metric];
      defaultVarByMetric := defaultVarByMetric[metric := TrimSpace(t.defaults[k].varName)];
    }
  }

  /** The last setting of every metric the list names, or None at the first one that is not usable. */
  method CollectSettings(t: Table, items: seq<Item>) returns (r: Option<map<string, Setting>>)
    ensures r.Some? <==> forall i :: 0 <= i < |items| ==> SettingOk(t, FromItem(items[i]))
    ensures r.Some? ==> HoldsLast(r.value, ReadSettings(items))
  {
    hide TrimSpace, SupportedMetric, ValidVarName, IsControllable;
    ghost var read := ReadSettings(items);
    var byMetric: map<string, Setting> := map[];
    for i := 0 to |items|
      invariant forall j :: 0 <= j < i ==> SettingOk(t, FromItem(items[j]))
      invariant HoldsLast(byMetric, read[..i])
    {
      var metric, varName := TrimSpace(items[i].metric), TrimSpace(items[i].varName);
      if !SupportedMetric(t.android, metric) || !ValidVarName(varName) {
        assert !SettingOk(t, FromItem(items[i]));
        return None;
      }
      var enabled := true;
      if items[i].enabled.Some? {
        enabled := items[i].enabled.value;
      }
      var writable := IsControllable(metric);
      if items[i].writable.Some? {
        writable := items[i].writable.value;
      }
      if !IsControllable(metric) {
        writable := false;
      }
      HoldsLastAppended(byMetric, read, i);
      byMetric := byMetric[metric := Setting(metric, varName, enabled, writable)];
    }
    assert read[..|items|] == read;
    return Some(byMetric);
  }

  /** No two enabled settings share a name. */
  method NamesAreDistinct(out: seq<Setting>) returns (distinct: bool)
    ensures distinct <==> EnabledNamesDistinct(out)
  {
    var seenEnabledVar: set<string> := {};
    for i := 0 to |out|
      invariant EnabledNamesDistinct(out[..i])
      invariant forall name :: name in seenEnabledVar <==>
                  exists j :: 0 <= j < i && out[j].enabled && out[j].varName == name
    {
      if !out[i].enabled {
        continue;
      }
      if out[i].varName in seenEnabledVar {
        return false;
      }
      seenEnabledVar := seenEnabledVar + {out[i].varName};
    }
    assert out[..|out|] == out;
    return true;
  }

  method ValidateSettings(t: Table, items: seq<Item>) returns (r: Option<seq<Setting>>)
    requires TableOk(t)
    ensures r == AcceptedSettings(t, items)
  {
    hide TrimSpace, TableOk, SettingOk, IsControllable, EnabledNamesDistinct;
    var ordered, defaultVarByMetric := SupportedTables(t);
    var collected := CollectSettings(t, items);
    ghost var read := ReadSettings(items);
    if collected.None? {
      assert exists i :: 0 <= i < |read| && !SettingOk(t, read[i]) by {
        var i :| 0 <= i < |items| && !SettingOk(t, FromItem(items[i]));
        assert read[i] == FromItem(items[i]);
      }
      return None;
    }
    var byMetric := collected.value;
    var out: seq<Setting> := [];
    for k := 0 to |ordered|
      invariant |out| == k
      invariant forall j :: 0 <= j < k ==> out[j] == SettingFor(read, t.defaults[j])
    {
      var metric := ordered[k];
      if metric in byMetric {
        out := out + [byMetric[metric]];
        continue;
      }
      assert LastSetting(read, metric).None?;
      out := out + [Setting(metric, defaultVarByMetric[metric], false, IsControllable(metric))];
    }
    assert out == SettingsFor(t, read);
    var distinct := NamesAreDistinct(out);
    if !distinct {
      return None;
    }
    return Some(out);
  }

  // ---------------------------------------------------- bindings and settings

  ghost predicate HoldsLastName(byMetric: map<string, string>, list: seq<Binding>) {
    forall m :: LastName(list, m) == if m in byMetric then Some(byMetric[m]) else None
  }

  method CollectNames(bindings: seq<Binding>) returns (byMetric: map<string, string>)
    ensures HoldsLastName(byMetric, TrimmedList(bindings))
  {
    hide TrimSpace;
    ghost var list := TrimmedList(bindings);
    byMetric := map[];
    for i := 0 to |bindings|
      invariant HoldsLastName(byMetric, list[..i])
    {
      var metric := TrimSpace(bindings[i].metric);
      assert list[..i + 1][..i] == list[..i];
      byMetric := byMetric[metric := TrimSpace(bindings[i].varName)];
    }
    assert list[..|bindings|] == list;
  }

  method SettingsFromBindings(t: Table, bindings: seq<Binding>) returns (out: seq<Setting>)
    requires TableOk(t)
    ensures out == SettingsFrom(t, bindings)
  {
    hide TrimLeft, TrimRight, TableOk, IsControllable, LastName, TrimmedList;
    ghost var list := TrimmedList(bindings);
    var byMetric := CollectNames(bindings);
    out := [];
    for k := 0 to |t.defaults|
      invariant |out| == k
      invariant forall j :: 0 <= j < k ==> out[j] == SettingFrom(list, t.defaults[j])
    {
      DefaultIsTrimmed(t, k);
      var metric, varName := TrimSpace(t.defaults[k].metric), TrimSpace(t.defaults[k].varName);
      var enabled := metric in byMetric;
      if enabled && !Blank(byMetric[metric]) {
        varName := byMetric[metric];
      }
      NamesAreTrimmed(bindings, metric);
      out := out + [Setting(metric, varName, enabled, IsControllable(metric))];
    }
  }

  lemma {:induction false} NamesAreTrimmed(bindings: seq<Binding>, metric: string)
    ensures var name := LastName(TrimmedList(bindings), metric);
            name.Some? ==> (Blank(name.value) <==> name.value == "")
  {
    hide TrimLeft, TrimRight;
    var list := TrimmedList(bindings);
    if LastName(list, metric).Some? {
      var k := LastNameIsBound(list, metric);
      assert list[k] == TrimmedBinding(bindings[k]);
    }
  }

  method SettingsToBindings(settings: seq<Setting>) returns (out: seq<Binding>)
    ensures out == EnabledBindings(settings)
  {
    hide TrimSpace;
    ghost var trimmed := TrimmedSettings(settings);
    out := [];
    for i := 0 to |settings|
      invariant out == EnabledOf(trimmed[..i])
    {
      assert trimmed[..i + 1][..i] == trimmed[..i];
      if !settings[i].enabled {
        continue;
      }
      out := out + [Binding(TrimSpace(settings[i].metric), TrimSpace(settings[i].varName))];
    }
    assert trimmed[..|settings|] == trimmed;
  }

  /** The enabled metrics and the names they are published under. */
  method IndexSettings(settings: seq<Setting>)
    returns (enabledByMetric: map<string, bool>, byVarName: map<string, VarBinding>)
    ensures enabledByMetric == EnabledIndex(settings) && byVarName == NameIndex(settings)
  {
    enabledByMetric, byVarName := map[], map[];
    for i := 0 to |settings|
      invariant enabledByMetric == EnabledIndex(settings[..i]) && byVarName == NameIndex(settings[..i])
    {
      var s := settings[i];
      assert settings[..i + 1][..i] == settings[..i];
      if !s.enabled {
        continue;
      }
      enabledByMetric := enabledByMetric[s.metric := true];
      byVarName := byVarName[s.varName := VarBinding(s.metric, s.writable)];
    }
    assert settings[..|settings|] == settings;
  }

  /** notify.NormalizeSettings. */
  method NormalizeTopics(items: seq<Item>) returns (r: Option<seq<TopicSetting>>)
    ensures r == ParsedTopics(Items(items))
  {
    hide TrimSpace, ListsTopic;
    ghost var topics := ReadTopics(items);
    var out: seq<TopicSetting> := [];
    var seen: set<string> := {};
    NothingIsListed();
    for i := 0 to |items|
      invariant forall j :: 0 <= j < i ==> TopicOk(topics[j])
      invariant out == FirstTopics(topics[..i])
      invariant forall topic :: topic in seen <==> ListsTopic(out, topic)
    {
      var topic := TrimSpace(items[i].topic);
      assert topics[..i + 1][..i] == topics[..i];
      if topic == "" || |topic| > MAX_TOPIC_LENGTH {
        assert !TopicOk(topics[i]);
        return None;
      }
      if topic in seen {
        continue;
      }
      seen := seen + {topic};
      ListedAppended(out, topics[i]);
      out := out + [TopicSetting(topic, items[i].enabled.Some? && items[i].enabled.value)];
    }
    assert topics[..|items|] == topics;
    return Some(out);
  }

  lemma ListedAppended(out: seq<TopicSetting>, t: TopicSetting)
    ensures forall topic :: ListsTopic(out + [t], topic) <==> ListsTopic(out, topic) || topic == t.topic
  {
    forall topic ensures ListsTopic(out + [t], topic) <==> ListsTopic(out, topic) || topic == t.topic {
      if ListsTopic(out, topic) {
        var i :| 0 <= i < |out| && out[i].topic == topic;
        assert (out + [t])[i].topic == topic;
      }
      assert (out + [t])[|out|].topic == t.topic;
    }
  }

  lemma NothingIsListed()
    ensures forall topic :: !ListsTopic([], topic)
  {
  }

  // ---------------------------------------------------------------- documents

  method ParseBindingsJson(t: Table, doc: Doc) returns (r: Option<seq<Binding>>)
    ensures r == ParsedBindings(t, doc)
  {
    hide AcceptedBindings, TrimSpace;
    match doc
    case Text(text) => r := if Blank(text) then Some(t.defaults) else None;
    case Items(items) => r := ValidateBindings(t, items);
  }

  method ParseSettingsJson(t: Table, doc: Doc) returns (r: Option<seq<Setting>>)
    requires TableOk(t)
    ensures r == ParsedSettings(t, doc)
  {
    hide AcceptedSettings, TrimSpace;
    match doc
    case Text(text) => r := if Blank(text) then Some(DefaultSettings(t)) else None;
    case Items(items) => r := ValidateSettings(t, items);
  }

  method ParseTopicsJson(doc: Doc) returns (r: Option<seq<TopicSetting>>)
    ensures r == ParsedTopics(doc)
  {
    match doc
    case Text(text) => r := if Blank(text) then Some([]) else None;
    case Items(items) => r := NormalizeTopics(items);
  }

  // ------------------------------------------------------------- live configuration

  /** The part of the runtime that owns the configuration. */
  class Configuration {
    const t: Table
    const store: Store
    var live: Live
    var signals: nat  // how often the change broadcast has been renewed

    ghost predicate Valid() reads store {
      TableOk(t) && store.disk == store.data
    }

    ghost function View(): State reads this, store {
      State(store.data, live)
    }

    /** initRuntimeConfig, on what the store file holds. */
    constructor (table: Table, file: map<Key, Doc>)
      requires TableOk(table)
      ensures Valid() && fresh(store) && t == table
      ensures View() == Init(t, file)
    {
      t := table;
      store := new Store(StoreDefaults(table), file);
      live := Live([], [], map[], map[], "", Text(""), []);
      signals := 0;
      new;
      MigrateBindings();
      SettleSettings();
      ReloadRuntimeConfig(INIT);
    }

    method GetKnown(key: Key) returns (val: Doc, ok: bool)
      requires IsKnown(key)
      ensures ok == (key in store.data) && val == Lookup(store.data, key)
    {
      hide TrimSpace, KeyText, KeyOf;
      KnownKeyIsItself(key);
      val, ok := store.Get(KeyText(key));
    }

    method SetKnown(key: Key, val: Doc)
      requires Valid() && IsKnown(key)
      modifies store
      ensures Valid() && store.data == old(store.data)[key := val]
    {
      hide TrimSpace, KeyText, KeyOf;
      KnownKeyIsItself(key);
      var ok := store.Set(KeyText(key), val);
    }

    /** storeSetIfChanged: nothing is written when nothing would change. */
    method StoreSetIfChanged(key: Key, val: Doc)
      requires Valid() && IsKnown(key)
      modifies store
      ensures Valid() && store.data == old(store.data)[key := val]
    {
      hide TableOk;
      var cur, ok := GetKnown(key);
      if ok && cur == val {
        return;
      }
      SetKnown(key, val);
    }

    /** Old default bindings give way to the current ones. */
    method MigrateBindings()
      requires Valid()
      modifies store
      ensures Valid() && store.data == Migrated(t, old(store.data))
    {
      hide TableOk, ParsedBindings, IsLegacy;
      var raw, ok := GetKnown(BindingsKey);
      if !ok {
        return;
      }
      var list := ParseBindingsJson(t, raw);
      if list.Some? && IsLegacy(list.value) {
        SetKnown(BindingsKey, Items(BindingItems(t.defaults)));
      }
    }

    /** A store without settings gets those its bindings spell. */
    method SettleSettings()
      requires Valid()
      modifies store
      ensures Valid() && store.data == Settled(t, old(store.data))
    {
      hide TableOk, ParsedBindings, SettingsFrom;
      var raw, ok := GetKnown(SettingsKey);
      if ok {
        return;
      }
      raw, ok := GetKnown(BindingsKey);
      var parsed := ParseBindingsJson(t, raw);
      var bindings := if parsed.Some? then parsed.value else t.defaults;
      var settings := SettingsFromBindings(t, bindings);
      SetKnown(SettingsKey, Items(SettingItems(settings)));
    }

    /** The settings a reload works from; the store's own copy is brought into line. */
    method SettingsForReload(reason: Key) returns (settings: seq<Setting>)
      requires Valid()
      modifies store
      ensures Valid() && settings == SettingsAfter(t, old(store.data), reason)
      ensures store.data ==
        if reason != BindingsKey && SettingsUsable(t, old(store.data)) then old(store.data)
        else old(store.data)[SettingsKey := Items(SettingItems(settings))]
    {
      hide TableOk, ParsedBindings, ParsedSettings, SettingsFrom, DefaultSettings;
      if reason == BindingsKey {
        var raw, ok := GetKnown(BindingsKey);
        var bindings := ParseBindingsJson(t, raw);
        settings := SettingsFromBindings(t, if bindings.Some? then bindings.value else t.defaults);
      } else {
        var raw, ok := GetKnown(SettingsKey);
        if ok {
          var list := ParseSettingsJson(t, raw);
          if list.Some? {
            return list.value;
          }
        }
        settings := DefaultSettings(t);
      }
      StoreSetIfChanged(SettingsKey, Items(SettingItems(settings)));
    }

    /** reloadRuntimeConfig: derive every view again and announce the change. */
    method ReloadRuntimeConfig(reason: Key)
      requires Valid()
      modifies this`live, this`signals, store
      ensures Valid() && View() == Reload(t, old(store.data), reason)
      ensures signals == old(signals) + 1
    {
      hide TableOk, SettingsAfter, SettingsUsable, EnabledBindings, EnabledIndex, NameIndex, ParsedTopics,
           ParsedVisibility, ParsedNoBattery,
           TopicItems, BindingItems, SettingItems;
      var settings := SettingsForReload(reason);
      var bindings := SettingsToBindings(settings);
      StoreSetIfChanged(BindingsKey, Items(BindingItems(bindings)));
      var visRaw, _ := GetKnown(VisibilityKey);
      var vis := OrElse(ParsedVisibility(visRaw), PUBLIC);
      var noBatRaw, _ := GetKnown(NoBatteryKey);
      var noBat := OrElse(ParsedNoBattery(noBatRaw), Text(DEFAULT_NO_BATTERY));
      var notifyRaw, _ := GetKnown(TopicsKey);
      var parsed := ParseTopicsJson(notifyRaw);
      var topics := OrElse(parsed, []);
      StoreSetIfChanged(TopicsKey, Items(TopicItems(topics)));
      var enabledByMetric, byVarName := IndexSettings(settings);
      live := Live(bindings, settings, enabledByMetric, byVarName, vis, noBat, topics);
      signals := signals + 1;
    }

    /** The document stored for a value, or None when the value is rejected. */
    method Normalize(key: Key, value: Doc) returns (r: Option<Doc>)
      requires Valid()
      ensures r == Accepted(t, key, value)
    {
      hide TableOk, ParsedBindings, ParsedSettings, ParsedTopics, ParsedVisibility, ParsedNoBattery, SettingItems,
           TopicItems;
      match key
      case SettingsKey =>
        var settings := ParseSettingsJson(t, value);
        return if settings.None? then None else Some(Items(SettingItems(settings.value)));
      case TopicsKey =>
        var topics := ParseTopicsJson(value);
        return if topics.None? then None else Some(Items(TopicItems(topics.value)));
      case BindingsKey =>
        var bindings := ParseBindingsJson(t, value);
        return if bindings.None? then None else Some(value);
      case VisibilityKey =>
        return if ParsedVisibility(value).None? then None else Some(value);
      case NoBatteryKey =>
        return if ParsedNoBattery(value).None? then None else Some(value);
      case OtherKey(_) =>
        return Some(value);
    }

    /** RuntimeConfigSet: a rejected change leaves everything as it was and wakes nobody. */
    method RuntimeConfigSet(key: string, value: Doc) returns (ok: bool)
      requires Valid()
      modifies this`live, this`signals, store
      ensures Valid() && (ok, View()) == SetConfig(t, old(View()), key, value)
      ensures signals == old(signals) + if ok then 1 else 0
    {
      hide TableOk, TrimSpace, KeyOf, Accepted, Reload;
      if Blank(key) {
        return false;
      }
      var k := KeyOf(TrimSpace(key));
      var doc := Normalize(k, value);
      if doc.None? {
        return false;
      }
      var stored := store.Set(key, doc.value);
      ReloadRuntimeConfig(k);
      return true;
    }
  }
}
