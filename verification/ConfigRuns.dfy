/** The configuration over whole runs: startup, changes accepted or rejected, restarts. */
module ConfigRuns {
  import opened Wrappers
  import opened Text
  import opened Metrics
  import opened Config
  import opened ConfigFacts

  // -------------------------------------------------------------------- topics

  predicate TopicsOk(topics: seq<TopicSetting>) {
    && (forall i :: 0 <= i < |topics| ==> TopicOk(topics[i]) && TrimSpace(topics[i].topic) == topics[i].topic)
    && (forall i, j :: 0 <= i < j < |topics| ==> topics[i].topic != topics[j].topic)
  }

  lemma {:induction false} FirstTopicsAreDistinct(topics: seq<TopicSetting>)
    ensures var first := FirstTopics(topics);
            && (forall x :: x in first ==> x in topics)
            && (forall i, j :: 0 <= i < j < |first| ==> first[i].topic != first[j].topic)
            && (forall x :: x in topics ==> ListsTopic(first, x.topic))
  {
    if topics != [] {
      var n := |topics| - 1;
      FirstTopicsAreDistinct(topics[..n]);
      var before := FirstTopics(topics[..n]);
      assert topics == topics[..n] + [topics[n]];
      forall x | x in topics ensures ListsTopic(FirstTopics(topics), x.topic) {
        if ListsTopic(before, x.topic) {
          var i :| 0 <= i < |before| && before[i].topic == x.topic;
          assert FirstTopics(topics)[i].topic == x.topic;
        } else {
          assert FirstTopics(topics)[|before|].topic == x.topic;
        }
      }
    }
  }

  lemma {:induction false} DistinctTopicsAreKept(topics: seq<TopicSetting>)
    requires forall i, j :: 0 <= i < j < |topics| ==> topics[i].topic != topics[j].topic
    ensures FirstTopics(topics) == topics
  {
    if topics != [] {
      DistinctTopicsAreKept(topics[..|topics| - 1]);
    }
  }

  /** Accepted topic settings read back from the store as they were. */
  lemma {:induction false} TopicsReadBack(doc: Doc)
    requires ParsedTopics(doc).Some?
    ensures TopicsOk(ParsedTopics(doc).value)
    ensures ParsedTopics(Items(TopicItems(ParsedTopics(doc).value))) == ParsedTopics(doc)
  {
    var topics := ParsedTopics(doc).value;
    if doc.Items? {
      var read := ReadTopics(doc.items);
      FirstTopicsAreDistinct(read);
      forall i | 0 <= i < |topics| ensures TopicOk(topics[i]) && TrimSpace(topics[i].topic) == topics[i].topic {
        assert topics[i] in read;
      }
    }
    TopicsAreAccepted(topics);
  }

  lemma {:induction false} TopicsAreAccepted(topics: seq<TopicSetting>)
    requires TopicsOk(topics)
    ensures ParsedTopics(Items(TopicItems(topics))) == Some(topics)
  {
    assert ReadTopics(TopicItems(topics)) == topics;
    DistinctTopicsAreKept(topics);
  }

  // --------------------------------------------------------------------- views

  predicate EnabledAs(s: Setting, metric: string) { s.enabled && s.metric == metric }

  predicate EnabledUnder(s: Setting, name: string) { s.enabled && s.varName == name }

  lemma {:induction false} EnabledIndexIsExact(settings: seq<Setting>, metric: string)
    ensures metric in EnabledIndex(settings) <==> exists i :: 0 <= i < |settings| && EnabledAs(settings[i], metric)
    ensures metric in EnabledIndex(settings) ==> EnabledIndex(settings)[metric]
  {
    if settings != [] {
      var n := |settings| - 1;
      EnabledIndexIsExact(settings[..n], metric);
      if exists i :: 0 <= i < n && EnabledAs(settings[..n][i], metric) {
        var i :| 0 <= i < n && EnabledAs(settings[..n][i], metric);
        assert EnabledAs(settings[i], metric);
      }
    }
  }

  lemma {:induction false} NameIndexIsExact(settings: seq<Setting>, name: string)
    requires EnabledNamesDistinct(settings)
    ensures name in NameIndex(settings) <==> exists i :: 0 <= i < |settings| && EnabledUnder(settings[i], name)
    ensures forall i :: 0 <= i < |settings| && EnabledUnder(settings[i], name) ==>
              && name in NameIndex(settings)
              && NameIndex(settings)[name] == VarBinding(settings[i].metric, settings[i].writable)
  {
    if settings != [] {
      var n := |settings| - 1;
      NameIndexIsExact(settings[..n], name);
      if exists i :: 0 <= i < n && EnabledUnder(settings[..n][i], name) {
        var i :| 0 <= i < n && EnabledUnder(settings[..n][i], name);
        assert EnabledUnder(settings[i], name);
      }
      forall i | 0 <= i < n && EnabledUnder(settings[i], name) ensures EnabledUnder(settings[..n][i], name) {
      }
    }
  }

  lemma {:induction false} ScanIsExact(bindings: seq<Binding>, name: string)
    ensures Scan(bindings, name).Some? ==> Binding(Scan(bindings, name).value.metric, name) in bindings
    ensures Scan(bindings, name).None? ==> forall b :: b in bindings ==> b.varName != name
  {
    if bindings != [] {
      ScanIsExact(bindings[1..], name);
      assert bindings == [bindings[0]] + bindings[1..];
    }
  }

  /** Live views as they are derived from canonical settings. */
  ghost predicate Derived(t: Table, live: Live) {
    && Canonical(t, live.settings)
    && live.bindings == EnabledOf(live.settings)
    && live.enabledByMetric == EnabledIndex(live.settings)
    && live.byVarName == NameIndex(live.settings)
  }

  /** The set of enabled metrics is the set of bound metrics. */
  lemma {:induction false} EnabledMeansBound(t: Table, live: Live, metric: string)
    requires TableOk(t) && Derived(t, live)
    ensures metric in live.enabledByMetric <==> Covers(live.bindings, metric)
    ensures metric in live.enabledByMetric ==> live.enabledByMetric[metric]
  {
    hide TrimSpace, TableOk, Canonical, EnabledBindings, EnabledIndex, NameIndex, BindingsOk;
    EnabledIndexIsExact(live.settings, metric);
    BindingsOfCanonical(t, live.settings);
    if Covers(live.bindings, metric) {
      var i :| 0 <= i < |live.bindings| && live.bindings[i].metric == metric;
      assert live.bindings[i] in live.bindings;
      var k :| 0 <= k < |live.settings| && Shows(live.settings[k], live.bindings[i]);
      assert EnabledAs(live.settings[k], metric);
    }
    if metric in live.enabledByMetric {
      var k :| 0 <= k < |live.settings| && EnabledAs(live.settings[k], metric);
      var b := Binding(metric, live.settings[k].varName);
      assert Shows(live.settings[k], b);
      assert b in live.bindings;
    }
  }

  /**
   Looking a name up in the index finds what a scan of the bindings finds, and says
   of it what the settings say.
   */
  lemma {:induction false} IndexMatchesScan(t: Table, live: Live, varName: string)
    requires TableOk(t) && Derived(t, live)
    ensures var found := BindingByVarName(live.bindings, live.byVarName, varName);
            var name := TrimSpace(varName);
            && (found.Some? <==> Scan(live.bindings, name).Some?)
            && (found.Some? ==>
                  && found.value.metric == Scan(live.bindings, name).value.metric
                  && exists i :: 0 <= i < |live.settings| && EnabledUnder(live.settings[i], name)
                       && found.value == VarBinding(live.settings[i].metric, live.settings[i].writable))
  {
    hide TrimLeft, TrimRight, TableOk, EnabledBindings, EnabledIndex, NameIndex;
    var name := TrimSpace(varName);
    NameIndexIsExact(live.settings, name);
    ScanIsExact(live.bindings, name);
    BindingsOfCanonical(t, live.settings);
    CanonicalIsTrimmed(t, live.settings);
    if name in live.byVarName {
      var i :| 0 <= i < |live.settings| && EnabledUnder(live.settings[i], name);
      var b := Binding(live.settings[i].metric, name);
      assert Shows(live.settings[i], b);
      assert b in live.bindings;
      assert TrimmedSettings(live.settings)[i] == live.settings[i];
      assert !Blank(live.settings[i].metric);
      var c := Binding(Scan(live.bindings, name).value.metric, name);
      SameNameSameBinding(live.bindings, b, c);
    } else if Scan(live.bindings, name).Some? {
      NamedInNeither(live, name);
    }
    EmptyNameIsUnbound(t, live);
  }

  lemma {:induction false} SameNameSameBinding(bindings: seq<Binding>, b: Binding, c: Binding)
    requires DistinctNames(bindings) && b in bindings && c in bindings && b.varName == c.varName
    ensures b == c
  {
  }

  lemma {:induction false} NamedInNeither(live: Live, name: string)
    requires forall b :: b in live.bindings <==> Shown(live.settings, b)
    requires !exists i :: 0 <= i < |live.settings| && EnabledUnder(live.settings[i], name)
    ensures forall b :: b in live.bindings ==> b.varName != name
  {
    forall b | b in live.bindings ensures b.varName != name {
      var i :| 0 <= i < |live.settings| && Shows(live.settings[i], b);
      assert !EnabledUnder(live.settings[i], name);
    }
  }

  lemma {:induction false} EmptyNameIsUnbound(t: Table, live: Live)
    requires TableOk(t) && Derived(t, live)
    ensures Scan(live.bindings, "").None?
  {
    ScanIsExact(live.bindings, "");
    BindingsOfCanonical(t, live.settings);
  }

  // ---------------------------------------------------------------------- runs

  datatype Op = Set(key: string, value: Doc) | Restart

  /** Start on what a file held, then any sequence of changes and restarts. */
  function Run(t: Table, file: map<Key, Doc>, ops: seq<Op>): State {
    if ops == [] then Init(t, file)
    else
      var before := Run(t, file, ops[..|ops| - 1]);
      match ops[|ops| - 1]
      case Set(key, value) => SetConfig(t, before, key, value).1
      case Restart => Init(t, before.data)
  }

  /** Store and live views agree. */
  ghost predicate Inv(t: Table, s: State) {
    && Derived(t, s.live) && s.live == LiveFrom(s.live.settings, s.data)
    && SettingsKey in s.data && ParsedSettings(t, s.data[SettingsKey]) == Some(s.live.settings)
    && BindingsKey in s.data && s.data[BindingsKey] == Items(BindingItems(s.live.bindings))
    && TopicsKey in s.data && s.data[TopicsKey] == Items(TopicItems(s.live.topics))
    && TopicsOk(s.live.topics)
    && VisibilityKey in s.data && NoBatteryKey in s.data
  }

  lemma {:induction false} SettingsAreCanonical(t: Table, data: map<Key, Doc>, key: Key)
    requires TableOk(t)
    ensures Canonical(t, SettingsAfter(t, data, key))
  {
    DefaultsAreCanonical(t);
    if key == BindingsKey {
      SettingsFromAreCanonical(t, OrElse(ParsedBindings(t, Lookup(data, BindingsKey)), t.defaults));
    } else if SettingsUsable(t, data) && data[SettingsKey].Items? {
      AcceptedIsCanonical(t, data[SettingsKey].items);
    }
  }

  /** What a reload stores as settings reads back as the live settings. */
  lemma {:induction false} ReloadedSettings(t: Table, data: map<Key, Doc>, key: Key)
    requires TableOk(t)
    ensures var s := Reload(t, data, key);
            && Canonical(t, s.live.settings)
            && SettingsKey in s.data && ParsedSettings(t, s.data[SettingsKey]) == Some(s.live.settings)
  {
    hide Canonical, TableOk, TrimSpace, EnabledOf, EnabledIndex, NameIndex, ParsedVisibility, ParsedNoBattery,
         ParsedBindings,
         ParsedTopics, SettingItems, AcceptedSettings, SettingsFrom, DefaultSettings, TopicItems;
    SettingsAreCanonical(t, data, key);
    CanonicalIsAccepted(t, SettingsAfter(t, data, key));
  }

  lemma {:induction false} ParsedTopicsAreOk(doc: Doc)
    ensures TopicsOk(OrElse(ParsedTopics(doc), []))
  {
    hide ParsedTopics;
    if ParsedTopics(doc).Some? {
      TopicsReadBack(doc);
    }
  }

  lemma {:induction false} ReloadHolds(t: Table, data: map<Key, Doc>, key: Key)
    requires TableOk(t) && VisibilityKey in data && NoBatteryKey in data
    ensures Inv(t, Reload(t, data, key))
  {
    hide Canonical, TableOk, TrimSpace, EnabledOf, EnabledIndex, NameIndex, ParsedVisibility, ParsedNoBattery,
         ParsedBindings,
         ParsedSettings, SettingsAfter, TopicsOk, TopicItems, BindingItems, SettingItems;
    ReloadedSettings(t, data, key);
    var s := Reload(t, data, key);
    BindingsOfCanonical(t, s.live.settings);
    ParsedTopicsAreOk(Lookup(data, TopicsKey));
    TopicsAreAccepted(s.live.topics);
  }

  lemma {:induction false} StartHolds(t: Table, file: map<Key, Doc>)
    requires TableOk(t)
    ensures Inv(t, Init(t, file))
  {
    var data := StoreDefaults(t) + file;
    assert VisibilityKey in data && NoBatteryKey in data;
    ReloadHolds(t, Settled(t, Migrated(t, data)), INIT);
  }

  lemma {:induction false} SetHolds(t: Table, s: State, key: string, value: Doc)
    requires TableOk(t) && Inv(t, s)
    ensures Inv(t, SetConfig(t, s, key, value).1)
  {
    var k := KeyOf(TrimSpace(key));
    var doc := Accepted(t, k, value);
    if !Blank(key) && doc.Some? {
      ReloadHolds(t, s.data[k := doc.value], k);
    }
  }

  /** The configuration invariant holds after startup and after every change and restart. */
  lemma {:induction false} InvHolds(t: Table, file: map<Key, Doc>, ops: seq<Op>)
    requires TableOk(t)
    ensures Inv(t, Run(t, file, ops))
  {
    hide Inv, Init, SetConfig, TableOk;
    if ops == [] {
      StartHolds(t, file);
    } else {
      var before := Run(t, file, ops[..|ops| - 1]);
      InvHolds(t, file, ops[..|ops| - 1]);
      match ops[|ops| - 1]
      case Set(key, value) => SetHolds(t, before, key, value);
      case Restart => StartHolds(t, before.data);
    }
  }

  /** Whatever the bindings document says, the settings restore the state. */
  lemma {:induction false} ReloadRestores(t: Table, s: State, doc: Doc)
    requires TableOk(t) && Inv(t, s)
    ensures Reload(t, s.data[BindingsKey := doc], INIT) == s
  {
    hide ParsedSettings, Views, ParsedTopics, Canonical;
    var data := s.data[BindingsKey := doc];
    assert SettingsAfter(t, data, INIT) == s.live.settings;
    assert LiveFrom(s.live.settings, data) == s.live;
    assert data[BindingsKey := s.data[BindingsKey]][TopicsKey := s.data[TopicsKey]] == s.data;
  }

  lemma {:induction false} RestartKeeps(t: Table, s: State)
    requires TableOk(t) && Inv(t, s)
    ensures Init(t, s.data) == s
  {
    hide ParsedSettings, Views, ParsedTopics, ParsedBindings, Canonical, Reload;
    assert StoreDefaults(t) + s.data == s.data;
    assert s.data[BindingsKey := s.data[BindingsKey]] == s.data;
    var migrated := Migrated(t, s.data);
    assert SettingsKey in migrated;
    ReloadRestores(t, s, migrated[BindingsKey]);
    assert s.data[BindingsKey := migrated[BindingsKey]] == migrated;
  }

  /** A restart changes neither the live configuration nor the store. */
  lemma {:induction false} RestartIsStable(t: Table, file: map<Key, Doc>, ops: seq<Op>)
    requires TableOk(t)
    ensures Init(t, Run(t, file, ops).data) == Run(t, file, ops)
  {
    InvHolds(t, file, ops);
    RestartKeeps(t, Run(t, file, ops));
  }

  lemma {:induction false} BindingsReadBack(t: Table, bindings: seq<Binding>)
    requires TableOk(t) && BindingsOk(t, bindings)
    ensures ParsedBindings(t, Items(BindingItems(bindings))) == Some(bindings)
  {
    OkBindingsAreTrimmed(t, bindings);
    forall i | 0 <= i < |bindings| ensures TrimmedBindings(BindingItems(bindings))[i] == bindings[i] {
      assert TrimmedList(bindings)[i] == bindings[i];
    }
    assert TrimmedBindings(BindingItems(bindings)) == bindings;
  }

  /**
   A user may disable metrics until an old default list is left. The upgrade branch
   then fires on every restart, and still no disabled metric comes back.
   */
  lemma {:induction false} UpgradeFiresInVain(t: Table, file: map<Key, Doc>, ops: seq<Op>)
    requires TableOk(t) && IsLegacy(Run(t, file, ops).live.bindings)
    ensures var s := Run(t, file, ops);
            && Migrated(t, s.data) == s.data[BindingsKey := Items(BindingItems(t.defaults))]
            && Init(t, s.data).live.bindings == s.live.bindings
  {
    hide Run, Init, Views, ParsedSettings, Canonical, TrimSpace, TableOk, EnabledOf, ParsedBindings, BindingsOk;
    InvHolds(t, file, ops);
    var s := Run(t, file, ops);
    BindingsOfCanonical(t, s.live.settings);
    BindingsReadBack(t, s.live.bindings);
    RestartIsStable(t, file, ops);
  }

  /** The bindings a first start works from. */
  function StartingBindings(t: Table, file: map<Key, Doc>): seq<Binding> {
    var parsed := ParsedBindings(t, Lookup(StoreDefaults(t) + file, BindingsKey));
    if parsed.None? || IsLegacy(parsed.value) then t.defaults else parsed.value
  }

  /**
   The first start on a file without settings enables exactly the bindings the
   file names, the last one of each metric; only unreadable or old default lists
   are replaced by the full default list.
   */
  lemma {:induction false} FirstStartKeepsCustomBindings(t: Table, file: map<Key, Doc>, b: Binding)
    requires TableOk(t) && SettingsKey !in file
    ensures b in Init(t, file).live.bindings <==> SurvivesIn(StartingBindings(t, file), b)
  {
    hide TrimSpace, TableOk, Canonical, EnabledOf, EnabledIndex, NameIndex, BindingsOk, SurvivesIn;
    var data := StoreDefaults(t) + file;
    var migrated := Migrated(t, data);
    var bindings := StartingBindings(t, file);
    DefaultsAreCanonical(t);
    BindingsReadBack(t, t.defaults);
    var settings := SettingsFrom(t, bindings);
    assert Settled(t, migrated) == migrated[SettingsKey := Items(SettingItems(settings))];
    SettingsFromAreCanonical(t, bindings);
    CanonicalIsAccepted(t, settings);
    assert Init(t, file).live.settings == settings;
    RoundTripKeepsTheLast(t, bindings, b);
  }
}
