/**
 The runtime configuration on values: two stored documents, settings and
 bindings, and the views derived from them. A stored document is either text or
 a JSON list whose objects keep the members the runtime reads.
 */
module Config {
  import opened Wrappers
  import opened Text
  import opened Metrics

  datatype Binding = Binding(metric: string, varName: string)
  datatype Setting = Setting(metric: string, varName: string, enabled: bool, writable: bool)
  datatype TopicSetting = TopicSetting(topic: string, enabled: bool)
  datatype VarBinding = VarBinding(metric: string, writable: bool)

  /** One object of a JSON list; absent texts are blank, absent flags are None. */
  datatype Item = Item(metric: string, varName: string, enabled: Option<bool>, writable: Option<bool>, topic: string)

  datatype Doc = Text(text: string) | Items(items: seq<Item>)

  /** The keys of the store: those the runtime knows, and any other text. */
  datatype Key = BindingsKey | SettingsKey | VisibilityKey | NoBatteryKey | TopicsKey | OtherKey(text: string)

  function KeyText(key: Key): string {
    match key
    case BindingsKey => "metrics.bindings_json"
    case SettingsKey => "metrics.settings_json"
    case VisibilityKey => "metrics.visibility_default"
    case NoBatteryKey => "metrics.battery.no_battery_value"
    case TopicsKey => "notify.topics_json"
    case OtherKey(text) => text
  }

  function KeyOf(text: string): (key: Key)
    ensures KeyText(key) == text
  {
    if text == KeyText(BindingsKey) then BindingsKey
    else if text == KeyText(SettingsKey) then SettingsKey
    else if text == KeyText(VisibilityKey) then VisibilityKey
    else if text == KeyText(NoBatteryKey) then NoBatteryKey
    else if text == KeyText(TopicsKey) then TopicsKey
    else OtherKey(text)
  }

  const DEFAULT_NO_BATTERY := "-1"
  const MAX_TOPIC_LENGTH := 256

  // ------------------------------------------------------------ default tables

  /** The supported metrics of one platform, in order, with their default names. */
  datatype Table = Table(android: bool, defaults: seq<Binding>)

  /** Every default name is the metric's own with a prefix. */
  function DefaultBinding(metric: string): Binding {
    Binding(metric, "sys_" + metric)
  }

  function Defaults(metrics: seq<string>): seq<Binding> {
    seq(|metrics|, i requires 0 <= i < |metrics| => DefaultBinding(metrics[i]))
  }

  function DefaultMetrics(android: bool): seq<string> {
    [BATTERY_PERCENT, BATTERY_CHARGING, BATTERY_ON_AC, VOLUME_PERCENT, VOLUME_MUTED, BRIGHTNESS_PERCENT,
     NET_ONLINE, NET_TYPE, CPU_PERCENT, MEM_PERCENT]
    + if android then [FLASHLIGHT_ENABLED] else []
  }

  function LegacyV0(): seq<Binding> {
    Defaults([BATTERY_PERCENT, VOLUME_PERCENT, VOLUME_MUTED])
  }

  function LegacyV1(): seq<Binding> {
    Defaults([BATTERY_PERCENT, VOLUME_PERCENT, VOLUME_MUTED, BRIGHTNESS_PERCENT])
  }

  predicate IsLegacy(bindings: seq<Binding>) {
    bindings == LegacyV0() || bindings == LegacyV1()
  }

  predicate DistinctMetrics(bindings: seq<Binding>) {
    forall i, j :: 0 <= i < j < |bindings| ==> bindings[i].metric != bindings[j].metric
  }

  predicate DistinctNames(bindings: seq<Binding>) {
    forall i, j :: 0 <= i < j < |bindings| ==> bindings[i].varName != bindings[j].varName
  }

  /** What the proofs use of a table: it covers the supported metrics once each, under valid names. */
  ghost predicate TableOk(t: Table) {
    && (forall i :: 0 <= i < |t.defaults| ==>
          && SupportedMetric(t.android, t.defaults[i].metric) && ValidVarName(t.defaults[i].metric)
          && ValidVarName(t.defaults[i].varName))
    && DistinctMetrics(t.defaults) && DistinctNames(t.defaults)
    && (forall m :: SupportedMetric(t.android, m) ==> Covers(t.defaults, m))
  }

  predicate Covers(bindings: seq<Binding>, metric: string) {
    exists i :: 0 <= i < |bindings| && bindings[i].metric == metric
  }

  function TableFor(android: bool): Table {
    Table(android, Defaults(DefaultMetrics(android)))
  }

  // ----------------------------------------------------------------- documents

  function BindingItems(bindings: seq<Binding>): seq<Item> {
    seq(|bindings|, i requires 0 <= i < |bindings| =>
      Item(bindings[i].metric, bindings[i].varName, None, None, ""))
  }

  function SettingItems(settings: seq<Setting>): seq<Item> {
    seq(|settings|, i requires 0 <= i < |settings| =>
      Item(settings[i].metric, settings[i].varName, Some(settings[i].enabled), Some(settings[i].writable), ""))
  }

  function TopicItems(topics: seq<TopicSetting>): seq<Item> {
    seq(|topics|, i requires 0 <= i < |topics| => Item("", "", Some(topics[i].enabled), None, topics[i].topic))
  }

  /** The bindings a list spells, white space removed. */
  function TrimmedBindings(items: seq<Item>): seq<Binding> {
    seq(|items|, i requires 0 <= i < |items| => TrimmedBinding(Binding(items[i].metric, items[i].varName)))
  }

  predicate BindingsOk(t: Table, bindings: seq<Binding>) {
    && (forall i :: 0 <= i < |bindings| ==>
          SupportedMetric(t.android, bindings[i].metric) && ValidVarName(bindings[i].varName))
    && DistinctNames(bindings)
  }

  /** validateBindings: all or nothing; one metric may be bound more than once. */
  function AcceptedBindings(t: Table, items: seq<Item>): Option<seq<Binding>> {
    var bindings := TrimmedBindings(items);
    if BindingsOk(t, bindings) then Some(bindings) else None
  }

  /** parseBindingsJSON: blank text stands for the defaults. */
  function ParsedBindings(t: Table, doc: Doc): Option<seq<Binding>> {
    match doc
    case Text(text) => if Blank(text) then Some(t.defaults) else None
    case Items(items) => AcceptedBindings(t, items)
  }

  /** What an object says of a metric: enabled and, if it can be, writable, unless it says otherwise. */
  function FromItem(item: Item): Setting {
    var metric := TrimSpace(item.metric);
    Setting(metric, TrimSpace(item.varName),
            item.enabled.None? || item.enabled.value,
            IsControllable(metric) && (item.writable.None? || item.writable.value))
  }

  function ReadSettings(items: seq<Item>): seq<Setting> {
    seq(|items|, i requires 0 <= i < |items| => FromItem(items[i]))
  }

  predicate SettingOk(t: Table, s: Setting) {
    SupportedMetric(t.android, s.metric) && ValidVarName(s.varName)
  }

  /** The last setting of `metric`. */
  function LastSetting(settings: seq<Setting>, metric: string): Option<Setting> {
    if settings == [] then None
    else if settings[|settings| - 1].metric == metric then Some(settings[|settings| - 1])
    else LastSetting(settings[..|settings| - 1], metric)
  }

  /** The setting of one supported metric: the last word on it, or disabled under its default name. */
  function SettingFor(settings: seq<Setting>, d: Binding): Setting {
    match LastSetting(settings, d.metric)
    case Some(s) => s
    case None => Setting(d.metric, d.varName, false, IsControllable(d.metric))
  }

  function SettingsFor(t: Table, settings: seq<Setting>): seq<Setting> {
    seq(|t.defaults|, i requires 0 <= i < |t.defaults| => SettingFor(settings, t.defaults[i]))
  }

  predicate EnabledNamesDistinct(settings: seq<Setting>) {
    forall i, j :: 0 <= i < j < |settings| && settings[i].enabled && settings[j].enabled ==>
      settings[i].varName != settings[j].varName
  }

  /** validateSettings. */
  function AcceptedSettings(t: Table, items: seq<Item>): Option<seq<Setting>> {
    var read := ReadSettings(items);
    var out := SettingsFor(t, read);
    if (forall i :: 0 <= i < |read| ==> SettingOk(t, read[i])) && EnabledNamesDistinct(out) then Some(out) else None
  }

  function DefaultSettings(t: Table): seq<Setting> {
    seq(|t.defaults|, i requires 0 <= i < |t.defaults| =>
      Setting(t.defaults[i].metric, t.defaults[i].varName, true, IsControllable(t.defaults[i].metric)))
  }

  /** parseSettingsJSON. */
  function ParsedSettings(t: Table, doc: Doc): Option<seq<Setting>> {
    match doc
    case Text(text) => if Blank(text) then Some(DefaultSettings(t)) else None
    case Items(items) => AcceptedSettings(t, items)
  }

  function TrimmedBinding(b: Binding): Binding {
    Binding(TrimSpace(b.metric), TrimSpace(b.varName))
  }

  function TrimmedList(bindings: seq<Binding>): seq<Binding> {
    seq(|bindings|, i requires 0 <= i < |bindings| => TrimmedBinding(bindings[i]))
  }

  /** The name the last binding of `metric` gives it. */
  function LastName(bindings: seq<Binding>, metric: string): Option<string> {
    if bindings == [] then None
    else if bindings[|bindings| - 1].metric == metric then Some(bindings[|bindings| - 1].varName)
    else LastName(bindings[..|bindings| - 1], metric)
  }

  function SettingFrom(bindings: seq<Binding>, d: Binding): Setting {
    var name := LastName(bindings, d.metric);
    Setting(d.metric, if name.None? || name.value == "" then d.varName else name.value,
            name.Some?, IsControllable(d.metric))
  }

  /** settingsFromBindings, white space removed first. */
  function SettingsFrom(t: Table, bindings: seq<Binding>): seq<Setting> {
    var list := TrimmedList(bindings);
    seq(|t.defaults|, i requires 0 <= i < |t.defaults| => SettingFrom(list, t.defaults[i]))
  }

  function TrimmedSetting(s: Setting): Setting {
    s.(metric := TrimSpace(s.metric), varName := TrimSpace(s.varName))
  }

  function TrimmedSettings(settings: seq<Setting>): seq<Setting> {
    seq(|settings|, i requires 0 <= i < |settings| => TrimmedSetting(settings[i]))
  }

  /** The enabled settings, in order. */
  function EnabledOf(settings: seq<Setting>): seq<Binding> {
    if settings == [] then []
    else
      var before, s := EnabledOf(settings[..|settings| - 1]), settings[|settings| - 1];
      if s.enabled then before + [Binding(s.metric, s.varName)] else before
  }

  /** settingsToBindings. */
  function EnabledBindings(settings: seq<Setting>): seq<Binding> {
    EnabledOf(TrimmedSettings(settings))
  }

  /** normalizeVisibility. */
  function ParsedVisibility(doc: Doc): Option<string> {
    if doc.Items? then None
    else
      var v := VisibilityOf(doc.text);
      if v == PUBLIC || v == PRIVATE then Some(v) else None
  }

  /** normalizeNoBatteryValue. A JSON list is text like any other here. */
  function ParsedNoBattery(doc: Doc): Option<Doc> {
    match doc
    case Items(_) => Some(doc)
    case Text(text) => if Blank(text) then None else Some(Text(TrimSpace(text)))
  }

  function ReadTopics(items: seq<Item>): seq<TopicSetting> {
    seq(|items|, i requires 0 <= i < |items| =>
      TopicSetting(TrimSpace(items[i].topic), items[i].enabled.Some? && items[i].enabled.value))
  }

  predicate TopicOk(t: TopicSetting) {
    t.topic != "" && |t.topic| <= MAX_TOPIC_LENGTH
  }

  predicate ListsTopic(topics: seq<TopicSetting>, topic: string) {
    exists i :: 0 <= i < |topics| && topics[i].topic == topic
  }

  /** The first setting of every topic, in order. */
  function FirstTopics(topics: seq<TopicSetting>): seq<TopicSetting> {
    if topics == [] then []
    else
      var before, t := FirstTopics(topics[..|topics| - 1]), topics[|topics| - 1];
      if ListsTopic(before, t.topic) then before else before + [t]
  }

  /** notify.ParseSettingsJSON. */
  function ParsedTopics(doc: Doc): Option<seq<TopicSetting>> {
    match doc
    case Text(text) => if Blank(text) then Some([]) else None
    case Items(items) =>
      var topics := ReadTopics(items);
      if forall i :: 0 <= i < |topics| ==> TopicOk(topics[i]) then Some(FirstTopics(topics)) else None
  }

  // --------------------------------------------------------------- derived views

  function EnabledIndex(settings: seq<Setting>): map<string, bool> {
    if settings == [] then map[]
    else
      var before, s := EnabledIndex(settings[..|settings| - 1]), settings[|settings| - 1];
      if s.enabled then before[s.metric := true] else before
  }

  function NameIndex(settings: seq<Setting>): map<string, VarBinding> {
    if settings == [] then map[]
    else
      var before, s := NameIndex(settings[..|settings| - 1]), settings[|settings| - 1];
      if s.enabled then before[s.varName := VarBinding(s.metric, s.writable)] else before
  }

  /** The live configuration. */
  datatype Live = Live(bindings: seq<Binding>, settings: seq<Setting>, enabledByMetric: map<string, bool>,
                       byVarName: map<string, VarBinding>, visibility: string, noBattery: Doc,
                       topics: seq<TopicSetting>)

  /** The scan that backs up the index: the first binding of a name. */
  function Scan(bindings: seq<Binding>, name: string): Option<VarBinding> {
    if bindings == [] then None
    else if bindings[0].varName == name then Some(VarBinding(bindings[0].metric, IsControllable(bindings[0].metric)))
    else Scan(bindings[1..], name)
  }

  /** bindingByVarName: the index first, then the scan. */
  function BindingByVarName(bindings: seq<Binding>, byVarName: map<string, VarBinding>, varName: string)
    : Option<VarBinding>
  {
    var name := TrimSpace(varName);
    if name == "" then None
    else if name in byVarName && !Blank(byVarName[name].metric) then Some(byVarName[name])
    else Scan(bindings, name)
  }

  // ---------------------------------------------------------------- transitions

  datatype State = State(data: map<Key, Doc>, live: Live)

  function Lookup(data: map<Key, Doc>, key: Key): Doc {
    if key in data then data[key] else Text("")
  }

  function OrElse<T>(o: Option<T>, default: T): T {
    match o case Some(v) => v case None => default
  }

  predicate SettingsUsable(t: Table, data: map<Key, Doc>) {
    SettingsKey in data && ParsedSettings(t, data[SettingsKey]).Some?
  }

  function SettingsAfter(t: Table, data: map<Key, Doc>, key: Key): seq<Setting> {
    if key == BindingsKey then SettingsFrom(t, OrElse(ParsedBindings(t, Lookup(data, BindingsKey)), t.defaults))
    else if SettingsUsable(t, data) then ParsedSettings(t, data[SettingsKey]).value
    else DefaultSettings(t)
  }

  /** The views of settings and of the three documents beside them. */
  function Views(settings: seq<Setting>, visibility: Doc, noBattery: Doc, topics: Doc): Live {
    Live(EnabledBindings(settings), settings, EnabledIndex(settings), NameIndex(settings),
         OrElse(ParsedVisibility(visibility), PUBLIC),
         OrElse(ParsedNoBattery(noBattery), Text(DEFAULT_NO_BATTERY)),
         OrElse(ParsedTopics(topics), []))
  }

  /** The views of a store for given settings. */
  function LiveFrom(settings: seq<Setting>, data: map<Key, Doc>): Live {
    Views(settings, Lookup(data, VisibilityKey), Lookup(data, NoBatteryKey), Lookup(data, TopicsKey))
  }

  /** reloadRuntimeConfig: what a change of `key` makes of the store and the live views. */
  function Reload(t: Table, data: map<Key, Doc>, key: Key): State {
    var settings := SettingsAfter(t, data, key);
    var synced :=
      if key != BindingsKey && SettingsUsable(t, data) then data
      else data[SettingsKey := Items(SettingItems(settings))];
    var live := LiveFrom(settings, data);
    State(synced[BindingsKey := Items(BindingItems(live.bindings))][TopicsKey := Items(TopicItems(live.topics))], live)
  }

  /** The document RuntimeConfigSet stores for a value, or None when it rejects it. */
  function Accepted(t: Table, key: Key, value: Doc): Option<Doc> {
    if key == SettingsKey then
      match ParsedSettings(t, value) case None => None case Some(s) => Some(Items(SettingItems(s)))
    else if key == TopicsKey then
      match ParsedTopics(value) case None => None case Some(s) => Some(Items(TopicItems(s)))
    else if key == BindingsKey && ParsedBindings(t, value).None? then None
    else if key == VisibilityKey && ParsedVisibility(value).None? then None
    else if key == NoBatteryKey && ParsedNoBattery(value).None? then None
    else Some(value)
  }

  /** RuntimeConfigSet: whether it accepts, and the state it leaves. */
  function SetConfig(t: Table, s: State, key: string, value: Doc): (bool, State) {
    var k := KeyOf(TrimSpace(key));
    if Blank(key) then (false, s)
    else match Accepted(t, k, value)
      case None => (false, s)
      case Some(doc) => (true, Reload(t, s.data[k := doc], k))
  }

  function StoreDefaults(t: Table): map<Key, Doc> {
    map[BindingsKey := Items(BindingItems(t.defaults)),
        VisibilityKey := Text(PUBLIC),
        NoBatteryKey := Text(DEFAULT_NO_BATTERY),
        TopicsKey := Items([])]
  }

  /** The upgrade of bindings that are still one of the old defaults. */
  function Migrated(t: Table, data: map<Key, Doc>): map<Key, Doc> {
    var bindings := ParsedBindings(t, Lookup(data, BindingsKey));
    if BindingsKey in data && bindings.Some? && IsLegacy(bindings.value)
    then data[BindingsKey := Items(BindingItems(t.defaults))] else data
  }

  /** Settings derived from the bindings when the store has none. */
  function Settled(t: Table, data: map<Key, Doc>): map<Key, Doc> {
    if SettingsKey in data then data
    else
      var bindings := OrElse(ParsedBindings(t, Lookup(data, BindingsKey)), t.defaults);
      data[SettingsKey := Items(SettingItems(SettingsFrom(t, bindings)))]
  }

  const INIT := OtherKey("init")

  /** initRuntimeConfig on what a store file held: overlay, migrate, settle, reload. */
  function Init(t: Table, file: map<Key, Doc>): State {
    Reload(t, Settled(t, Migrated(t, StoreDefaults(t) + file)), INIT)
  }
}
