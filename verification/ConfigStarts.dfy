/** What a process makes of the configuration it finds: the lists it is born with, and every file it may start on. */
module ConfigStarts {
  import opened Wrappers
  import opened Text
  import opened Metrics
  import opened Config
  import opened ConfigFacts
  import opened ConfigRuns

  /** One binding for each of the metrics, in order, under its own name with a prefix. */
  predicate Lists(bindings: seq<Binding>, metrics: seq<string>) {
    && |bindings| == |metrics|
    && forall i :: 0 <= i < |metrics| ==> bindings[i] == Binding(metrics[i], "sys_" + metrics[i])
  }

  /** The default list, metric by metric; the flashlight is Android's alone. */
  lemma {:induction false} DefaultsAreListed(android: bool)
    ensures Lists(TableFor(android).defaults,
                  ["battery_percent", "battery_charging", "battery_on_ac", "volume_percent", "volume_muted",
                   "brightness_percent", "net_online", "net_type", "cpu_percent", "mem_percent"]
                  + if android then ["flashlight_enabled"] else [])
  {
  }

  /** The old lists that are upgraded: battery and volume, and these with brightness. */
  lemma {:induction false} OldListsAreListed(bindings: seq<Binding>)
    ensures IsLegacy(bindings) <==>
              || Lists(bindings, ["battery_percent", "volume_percent", "volume_muted"])
              || Lists(bindings, ["battery_percent", "volume_percent", "volume_muted", "brightness_percent"])
  {
    ListedOnce(bindings, LegacyV0(), ["battery_percent", "volume_percent", "volume_muted"]);
    ListedOnce(bindings, LegacyV1(), ["battery_percent", "volume_percent", "volume_muted", "brightness_percent"]);
  }

  lemma ListedOnce(bindings: seq<Binding>, list: seq<Binding>, metrics: seq<string>)
    requires Lists(list, metrics)
    ensures bindings == list <==> Lists(bindings, metrics)
  {
  }

  // ------------------------------------------------------------------- what can be controlled

  /** Every metric that can be controlled may be, and its name finds it so; no other may. */
  ghost predicate AllControllable(live: Live) {
    && (forall i :: 0 <= i < |live.settings| ==> live.settings[i].writable == (live.settings[i].metric in CONTROLS))
    && (forall b :: b in live.bindings ==>
          BindingByVarName(live.bindings, live.byVarName, b.varName)
          == Some(VarBinding(b.metric, b.metric in CONTROLS)))
  }

  lemma {:induction false} SettingsControl(t: Table, live: Live)
    requires TableOk(t) && Derived(t, live)
    requires forall i :: 0 <= i < |live.settings| ==>
      live.settings[i].writable == IsControllable(live.settings[i].metric)
    ensures AllControllable(live)
  {
    hide TrimSpace, TableOk, Canonical, EnabledOf, EnabledIndex, NameIndex, BindingByVarName, Scan, IsControllable,
         BindingsOk;
    forall i | 0 <= i < |live.settings|
      ensures live.settings[i].writable == (live.settings[i].metric in CONTROLS)
    {
      ClassesAreListed(live.settings[i].metric);
    }
    BindingsOfCanonical(t, live.settings);
    forall b | b in live.bindings
      ensures BindingByVarName(live.bindings, live.byVarName, b.varName)
              == Some(VarBinding(b.metric, b.metric in CONTROLS))
    {
      BoundNameIsFound(t, live, b);
      ClassesAreListed(b.metric);
    }
  }

  lemma {:induction false} BoundNameIsFound(t: Table, live: Live, b: Binding)
    requires TableOk(t) && Derived(t, live) && b in live.bindings && BindingsOk(t, live.bindings)
    requires forall i :: 0 <= i < |live.settings| ==>
      live.settings[i].writable == IsControllable(live.settings[i].metric)
    ensures BindingByVarName(live.bindings, live.byVarName, b.varName)
            == Some(VarBinding(b.metric, IsControllable(b.metric)))
  {
    hide TrimSpace, TableOk, Canonical, EnabledOf, EnabledIndex, NameIndex, BindingByVarName, Scan, IsControllable;
    ValidNameIsTrimmed(b.varName);
    IndexMatchesScan(t, live, b.varName);
    ScanIsExact(live.bindings, b.varName);
    var scanned := Binding(Scan(live.bindings, b.varName).value.metric, b.varName);
    SameNameSameBinding(live.bindings, b, scanned);
  }

  /** What bindings say of the k-th supported metric. */
  lemma {:induction false} BindingsMakeSettings(t: Table, bindings: seq<Binding>, k: nat)
    requires TableOk(t) && BindingsOk(t, bindings) && k < |t.defaults|
    ensures var s := SettingsFrom(t, bindings)[k];
            && s.metric == t.defaults[k].metric && (s.writable <==> s.metric in CONTROLS)
            && (s.enabled <==> Covers(bindings, s.metric))
            && (s.enabled ==> SurvivesIn(bindings, Binding(s.metric, s.varName)))
            && (!s.enabled ==> s.varName == t.defaults[k].varName)
  {
    hide TrimSpace, TrimmedList, IsControllable, IsReadOnly, ValidVarName;
    OkBindingsAreTrimmed(t, bindings);
    ClassesAreListed(t.defaults[k].metric);
    var metric := t.defaults[k].metric;
    if LastName(bindings, metric).Some? {
      var l := LastNameIsBound(bindings, metric);
      NamedNotEmpty(bindings[l].varName);
      assert bindings[l].metric == metric;
    }
    if Covers(bindings, metric) {
      var l :| 0 <= l < |bindings| && bindings[l].metric == metric;
      LastNameIsSome(bindings, l);
    }
  }

  /** The settings bindings make, or that are the default, leave control on. */
  lemma {:induction false} MadeSettingsControl(t: Table, bindings: seq<Binding>)
    ensures forall i :: 0 <= i < |t.defaults| ==>
              && SettingsFrom(t, bindings)[i].writable == IsControllable(SettingsFrom(t, bindings)[i].metric)
              && DefaultSettings(t)[i].writable == IsControllable(DefaultSettings(t)[i].metric)
  {
    hide TrimmedList, LastName, IsControllable;
  }

  // ------------------------------------------------------------------------------ starting

  /** What a store says under `key` before the first start has changed it. */
  function Said(file: map<Key, Doc>, key: Key, otherwise: Doc): Doc {
    if key in file then file[key] else otherwise
  }

  /** The bindings a file names: those it spells, or the default list for none, for no list, for an old one. */
  ghost predicate Names(t: Table, file: map<Key, Doc>, bindings: seq<Binding>) {
    match Said(file, BindingsKey, Text(""))
    case Text(_) => bindings == t.defaults
    case Items(items) =>
      var spelled := TrimmedBindings(items);
      if BindingsOk(t, spelled) && !IsLegacy(spelled) then bindings == spelled else bindings == t.defaults
  }

  lemma {:induction false} StartingBindingsAreNamed(t: Table, file: map<Key, Doc>)
    requires TableOk(t)
    ensures Names(t, file, StartingBindings(t, file)) && BindingsOk(t, StartingBindings(t, file))
  {
    hide TrimSpace, TableOk, IsLegacy, BindingsOk, BindingItems, TrimmedBindings;
    DefaultsAreCanonical(t);
    BindingsReadBack(t, t.defaults);
    assert (StoreDefaults(t) + file)[BindingsKey]
        == if BindingsKey in file then file[BindingsKey] else Items(BindingItems(t.defaults));
  }

  /**
   A first start, on a file without settings: each supported metric is enabled exactly if
   the file's bindings cover it, under the name the last of them gives it, and may be
   controlled if it can be.
   */
  lemma {:induction false} FirstStartSettles(t: Table, file: map<Key, Doc>, bindings: seq<Binding>, k: nat)
    requires TableOk(t) && SettingsKey !in file && Names(t, file, bindings) && k < |t.defaults|
    ensures var live := Init(t, file).live;
            && AllControllable(live) && |live.settings| == |t.defaults|
            && var s := live.settings[k];
               && s.metric == t.defaults[k].metric
               && (s.enabled <==> Covers(bindings, s.metric))
               && (s.enabled ==> SurvivesIn(bindings, Binding(s.metric, s.varName)))
               && (!s.enabled ==> s.varName == t.defaults[k].varName)
  {
    hide TrimSpace, TableOk, Canonical, EnabledOf, EnabledIndex, NameIndex, BindingsOk, SurvivesIn, AllControllable,
         Init, Names, Covers, SettingFrom, TrimmedList;
    StartingBindingsAreNamed(t, file);
    NamesAreUnique(t, file, bindings, StartingBindings(t, file));
    FirstSettings(t, file);
    StartIsDerived(t, file);
    MadeSettingsControl(t, bindings);
    SettingsControl(t, Init(t, file).live);
    BindingsMakeSettings(t, bindings, k);
  }

  lemma NamesAreUnique(t: Table, file: map<Key, Doc>, a: seq<Binding>, b: seq<Binding>)
    requires Names(t, file, a) && Names(t, file, b)
    ensures a == b
  {
  }

  lemma {:induction false} StartIsDerived(t: Table, file: map<Key, Doc>)
    requires TableOk(t)
    ensures Derived(t, Init(t, file).live)
  {
    hide Init, Derived;
    StartHolds(t, file);
  }

  lemma {:induction false} FirstSettings(t: Table, file: map<Key, Doc>)
    requires TableOk(t) && SettingsKey !in file
    ensures Init(t, file).live.settings == SettingsFrom(t, StartingBindings(t, file))
  {
    hide TrimSpace, TableOk, Canonical, EnabledOf, EnabledIndex, NameIndex, BindingsOk;
    var migrated := Migrated(t, StoreDefaults(t) + file);
    var bindings := StartingBindings(t, file);
    DefaultsAreCanonical(t);
    BindingsReadBack(t, t.defaults);
    var settings := SettingsFrom(t, bindings);
    assert Settled(t, migrated) == migrated[SettingsKey := Items(SettingItems(settings))];
    StartingBindingsAreNamed(t, file);
    SettingsFromAreCanonical(t, bindings);
    CanonicalIsAccepted(t, settings);
  }

  /**
   A start on a file with settings: a list that validates is taken as it is, and blank or
   unusable settings, text or list, give way to the defaults, all enabled and controllable.
   */
  lemma {:induction false} StartReadsSettings(t: Table, file: map<Key, Doc>)
    requires TableOk(t) && SettingsKey in file
    ensures var live := Init(t, file).live;
            if file[SettingsKey].Items? && AcceptedSettings(t, file[SettingsKey].items).Some?
            then live.settings == AcceptedSettings(t, file[SettingsKey].items).value
            else
              && AllControllable(live) && |live.settings| == |t.defaults|
              && forall k :: 0 <= k < |t.defaults| ==>
                   && live.settings[k].metric == t.defaults[k].metric && live.settings[k].enabled
                   && live.settings[k].varName == t.defaults[k].varName
  {
    hide TrimSpace, TableOk, AcceptedSettings, Derived, EnabledOf, EnabledIndex, NameIndex, AllControllable;
    StartIsDerived(t, file);
    MadeSettingsControl(t, []);
    var settings := Init(t, file).live.settings;
    assert Settled(t, Migrated(t, StoreDefaults(t) + file))[SettingsKey] == file[SettingsKey];
    if !(file[SettingsKey].Items? && AcceptedSettings(t, file[SettingsKey].items).Some?) {
      assert settings == DefaultSettings(t);
      SettingsControl(t, Init(t, file).live);
    }
  }

  /** The three documents beside the settings, whatever the file holds: what cannot be used is replaced. */
  lemma {:induction false} StartReadsDefaults(t: Table, file: map<Key, Doc>)
    requires TableOk(t)
    ensures var live := Init(t, file).live;
            var vis, none, topics :=
              Said(file, VisibilityKey, Text("public")), Said(file, NoBatteryKey, Text("-1")),
              Said(file, TopicsKey, Text(""));
            && live.visibility == (if vis.Text? && ToLower(TrimSpace(vis.text)) == "private" then "private"
                                   else "public")
            && live.noBattery == (if none.Items? then none
                                  else if Blank(none.text) then Text("-1") else Text(TrimSpace(none.text)))
            && live.topics == (if topics.Items? && ParsedTopics(topics).Some? then ParsedTopics(topics).value else [])
  {
    hide TrimSpace, ToLower, TableOk, ParsedSettings, ParsedBindings, SettingsFrom, EnabledBindings, EnabledIndex,
         NameIndex, FirstTopics, IsLegacy;
    assert ReadTopics([]) == [] && FirstTopics([]) == [] by { NoTopics(); }
    var data := Settled(t, Migrated(t, StoreDefaults(t) + file));
    assert data[VisibilityKey] == Said(file, VisibilityKey, Text("public"));
    assert data[NoBatteryKey] == Said(file, NoBatteryKey, Text("-1"));
    assert data[TopicsKey] == Said(file, TopicsKey, Items([]));
  }

  lemma NoTopics()
    ensures ReadTopics([]) == [] && FirstTopics([]) == []
  {
  }

  /** A first start on nothing: everything enabled under its default name, public, -1 for no battery, no topics. */
  lemma {:induction false} EmptyStart(t: Table, k: nat)
    requires TableOk(t) && k < |t.defaults|
    ensures var live := Init(t, map[]).live;
            && AllControllable(live) && |live.settings| == |t.defaults|
            && live.settings[k].metric == t.defaults[k].metric && live.settings[k].varName == t.defaults[k].varName
            && live.settings[k].enabled
            && live.visibility == "public" && live.noBattery == Text("-1") && live.topics == []
  {
    hide Init, TrimSpace, Canonical, AllControllable;
    FirstStartSettles(t, map[], t.defaults, k);
    StartReadsDefaults(t, map[]);
    PlainVisibility();
    assert t.defaults[k].metric == Init(t, map[]).live.settings[k].metric;
    assert Covers(t.defaults, t.defaults[k].metric);
  }

  lemma PlainVisibility()
    ensures TrimSpace("public") == "public" && ToLower("public") == "public" && TrimSpace("-1") == "-1"
  {
    PlainIsTrimmed("public");
    PlainIsTrimmed("-1");
  }
}
