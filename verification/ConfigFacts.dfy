/** What the configuration promises over every sequence of changes and restarts. */
module ConfigFacts {
  import opened Wrappers
  import opened Text
  import opened Metrics
  import opened Config

  // ------------------------------------------------------------ canonical settings

  /** Every supported metric once, in the default order, under a usable name. */
  predicate Canonical(t: Table, settings: seq<Setting>) {
    && |settings| == |t.defaults|
    && (forall i :: 0 <= i < |settings| ==>
          && settings[i].metric == t.defaults[i].metric && ValidVarName(settings[i].varName)
          && (settings[i].writable ==> IsControllable(settings[i].metric)))
    && EnabledNamesDistinct(settings)
  }

  /** The length and the first letter tell the supported metrics apart. */
  function Mark(i: nat): (nat, char)
    requires i <= 10
  {
    [(15, 'b'), (16, 'b'), (13, 'b'), (14, 'v'), (12, 'v'), (18, 'b'), (10, 'n'), (8, 'n'), (11, 'c'), (11, 'm'),
     (18, 'f')][i]
  }

  lemma {:induction false} DefaultsAreMarked(android: bool)
    ensures var m := DefaultMetrics(android);
            |m| <= 11 && forall i :: 0 <= i < |m| ==> m[i] != "" && Mark(i) == (|m[i]|, m[i][0])
  {
  }

  lemma {:induction false} MarksDiffer(i: nat, j: nat)
    requires i < j <= 10
    ensures Mark(i) != Mark(j)
  {
  }

  lemma {:induction false} DefaultsCover(android: bool, m: string)
    ensures m in DefaultMetrics(android) <==> SupportedMetric(android, m)
  {
    var d := DefaultMetrics(android);
    assert d[0] == BATTERY_PERCENT && d[1] == BATTERY_CHARGING && d[2] == BATTERY_ON_AC;
    assert d[3] == VOLUME_PERCENT && d[4] == VOLUME_MUTED && d[5] == BRIGHTNESS_PERCENT;
    assert d[6] == NET_ONLINE && d[7] == NET_TYPE && d[8] == CPU_PERCENT;
    assert d[9] == MEM_PERCENT && (android ==> d[10] == FLASHLIGHT_ENABLED);
  }

  lemma {:induction false} PrefixedIsName(metric: string)
    requires ValidVarName(metric)
    ensures ValidVarName(DefaultBinding(metric).varName)
    ensures DefaultBinding(metric).varName[4..] == metric
  {
  }

  lemma {:induction false} TablesAreOk(android: bool)
    ensures TableOk(TableFor(android))
  {
    var metrics := DefaultMetrics(android);
    var d := Defaults(metrics);
    DefaultsAreMarked(android);
    forall i | 0 <= i < |d|
      ensures SupportedMetric(android, d[i].metric) && ValidVarName(d[i].metric) && ValidVarName(d[i].varName)
      ensures d[i].varName[4..] == d[i].metric
    {
      DefaultsCover(android, metrics[i]);
      if IsReadOnly(metrics[i]) { ReadOnlyIsName(metrics[i]); } else { ControllableIsName(metrics[i]); }
      PrefixedIsName(metrics[i]);
    }
    forall i, j | 0 <= i < j < |d| ensures d[i].metric != d[j].metric && d[i].varName != d[j].varName {
      MarksDiffer(i, j);
    }
    forall m | SupportedMetric(android, m) ensures Covers(d, m) {
      DefaultsCover(android, m);
      var i :| 0 <= i < |metrics| && metrics[i] == m;
      assert d[i].metric == m;
    }
  }

  lemma {:induction false} SupportedIsTrimmed(t: Table, metric: string)
    requires SupportedMetric(t.android, metric)
    ensures TrimSpace(metric) == metric && metric != ""
  {
    if IsReadOnly(metric) { ReadOnlyIsName(metric); } else { ControllableIsName(metric); }
    ValidNameIsTrimmed(metric);
  }

  lemma {:induction false} LastSettingIsNamed(settings: seq<Setting>, metric: string)
    ensures var found := LastSetting(settings, metric);
            found.Some? ==> found.value in settings && found.value.metric == metric
  {
    if settings != [] {
      LastSettingIsNamed(settings[..|settings| - 1], metric);
    }
  }

  /** Where the last word on a metric stands. */
  lemma {:induction false} LastSettingAt(settings: seq<Setting>, metric: string, i: nat)
    requires i < |settings| && settings[i].metric == metric
    requires forall j :: i < j < |settings| ==> settings[j].metric != metric
    ensures LastSetting(settings, metric) == Some(settings[i])
  {
    if i < |settings| - 1 {
      LastSettingAt(settings[..|settings| - 1], metric, i);
    }
  }

  /** Accepted settings are canonical. */
  lemma {:induction false} AcceptedIsCanonical(t: Table, items: seq<Item>)
    requires TableOk(t) && AcceptedSettings(t, items).Some?
    ensures Canonical(t, AcceptedSettings(t, items).value)
  {
    var read, out := ReadSettings(items), AcceptedSettings(t, items).value;
    forall i | 0 <= i < |out|
      ensures out[i].metric == t.defaults[i].metric && ValidVarName(out[i].varName)
      ensures out[i].writable ==> IsControllable(out[i].metric)
    {
      LastSettingIsNamed(read, t.defaults[i].metric);
    }
  }

  /** Each is the last word of the input on its metric; only a controllable one can be writable. */
  lemma {:induction false} LastDuplicateWins(t: Table, items: seq<Item>, i: nat, k: nat)
    requires TableOk(t) && AcceptedSettings(t, items).Some? && i < |items| && k < |t.defaults|
    requires TrimSpace(items[i].metric) == t.defaults[k].metric
    requires forall j :: i < j < |items| ==> TrimSpace(items[j].metric) != t.defaults[k].metric
    ensures var s, item := AcceptedSettings(t, items).value[k], items[i];
            && s.metric == t.defaults[k].metric && s.varName == TrimSpace(item.varName)
            && s.enabled == (item.enabled != Some(false))
            && s.writable == (s.metric in CONTROLS && item.writable != Some(false))
  {
    hide TableOk, SettingOk, TrimSpace, IsControllable;
    ClassesAreListed(t.defaults[k].metric);
    LastSettingAt(ReadSettings(items), t.defaults[k].metric, i);
  }

  lemma {:induction false} NeverNamed(settings: seq<Setting>, metric: string)
    requires forall j :: 0 <= j < |settings| ==> settings[j].metric != metric
    ensures LastSetting(settings, metric) == None
  {
    if settings != [] {
      NeverNamed(settings[..|settings| - 1], metric);
    }
  }

  /** A metric the input does not name is disabled, under its default name. */
  lemma {:induction false} UnnamedIsDisabled(t: Table, items: seq<Item>, k: nat)
    requires TableOk(t) && AcceptedSettings(t, items).Some? && k < |t.defaults|
    requires forall j :: 0 <= j < |items| ==> TrimSpace(items[j].metric) != t.defaults[k].metric
    ensures var s := AcceptedSettings(t, items).value[k];
            s.metric == t.defaults[k].metric && s.varName == t.defaults[k].varName && !s.enabled
            && s.writable == (s.metric in CONTROLS)
  {
    hide TableOk, SettingOk, TrimSpace, IsControllable;
    ClassesAreListed(t.defaults[k].metric);
    NeverNamed(ReadSettings(items), t.defaults[k].metric);
  }

  lemma {:induction false} CanonicalIsTrimmed(t: Table, settings: seq<Setting>)
    requires TableOk(t) && Canonical(t, settings)
    ensures TrimmedSettings(settings) == settings
    ensures forall i :: 0 <= i < |settings| ==> settings[i].metric != ""
  {
    forall i | 0 <= i < |settings| ensures TrimmedSetting(settings[i]) == settings[i] && settings[i].metric != "" {
      SupportedIsTrimmed(t, settings[i].metric);
      ValidNameIsTrimmed(settings[i].varName);
    }
  }

  lemma {:induction false} CanonicalReadsBack(t: Table, settings: seq<Setting>)
    requires TableOk(t) && Canonical(t, settings)
    ensures ReadSettings(SettingItems(settings)) == settings
  {
    CanonicalIsTrimmed(t, settings);
    forall i | 0 <= i < |settings| ensures FromItem(SettingItems(settings)[i]) == settings[i] {
      assert TrimmedSettings(settings)[i] == settings[i];
    }
  }

  /** Validation is the identity on canonical settings: what is stored reads back as it was. */
  lemma {:induction false} CanonicalIsAccepted(t: Table, settings: seq<Setting>)
    requires TableOk(t) && Canonical(t, settings)
    ensures AcceptedSettings(t, SettingItems(settings)) == Some(settings)
  {
    CanonicalReadsBack(t, settings);
    forall i | 0 <= i < |settings| ensures SettingsFor(t, settings)[i] == settings[i] {
      LastSettingAt(settings, t.defaults[i].metric, i);
    }
    assert SettingsFor(t, settings) == settings;
  }

  // --------------------------------------------------- bindings and settings

  lemma {:induction false} OkBindingsAreTrimmed(t: Table, bindings: seq<Binding>)
    requires TableOk(t) && BindingsOk(t, bindings)
    ensures TrimmedList(bindings) == bindings
  {
    forall i | 0 <= i < |bindings| ensures TrimmedBinding(bindings[i]) == bindings[i] {
      SupportedIsTrimmed(t, bindings[i].metric);
      ValidNameIsTrimmed(bindings[i].varName);
    }
  }

  predicate IsLast(bindings: seq<Binding>, k: nat)
    requires k < |bindings|
  {
    forall j :: k < j < |bindings| ==> bindings[j].metric != bindings[k].metric
  }

  lemma {:induction false} LastNameIsBound(bindings: seq<Binding>, metric: string) returns (k: nat)
    requires LastName(bindings, metric).Some?
    ensures k < |bindings| && bindings[k].metric == metric && IsLast(bindings, k)
    ensures LastName(bindings, metric).value == bindings[k].varName
  {
    var n := |bindings| - 1;
    if bindings[n].metric == metric {
      k := n;
    } else {
      k := LastNameIsBound(bindings[..n], metric);
    }
  }

  lemma {:induction false} LastNameIsSome(bindings: seq<Binding>, k: nat)
    requires k < |bindings|
    ensures LastName(bindings, bindings[k].metric).Some?
  {
    if k < |bindings| - 1 {
      LastNameIsSome(bindings[..|bindings| - 1], k);
    }
  }

  lemma {:induction false} SettingsFromAreCanonical(t: Table, bindings: seq<Binding>)
    requires TableOk(t) && BindingsOk(t, bindings)
    ensures Canonical(t, SettingsFrom(t, bindings))
  {
    var out := SettingsFrom(t, bindings);
    OkBindingsAreTrimmed(t, bindings);
    forall i | 0 <= i < |out| ensures ValidVarName(out[i].varName) {
      if out[i].enabled {
        var k := LastNameIsBound(bindings, t.defaults[i].metric);
      }
    }
    forall i, j | 0 <= i < j < |out| && out[i].enabled && out[j].enabled
      ensures out[i].varName != out[j].varName
    {
      var k := LastNameIsBound(bindings, t.defaults[i].metric);
      var l := LastNameIsBound(bindings, t.defaults[j].metric);
      assert k != l;
    }
  }

  lemma {:induction false} DefaultsAreCanonical(t: Table)
    requires TableOk(t)
    ensures Canonical(t, DefaultSettings(t)) && BindingsOk(t, t.defaults)
  {
  }

  predicate Shows(s: Setting, b: Binding) {
    s.enabled && b == Binding(s.metric, s.varName)
  }

  /** `bs` lists the enabled settings, in order: the k-th is the one at position `at[k]`. */
  ghost predicate Projects(settings: seq<Setting>, bs: seq<Binding>, at: seq<nat>) {
    && |at| == |bs|
    && (forall k :: 0 <= k < |bs| ==> at[k] < |settings| && Shows(settings[at[k]], bs[k]))
    && (forall k, l :: 0 <= k < l < |bs| ==> at[k] < at[l])
    && (forall i :: 0 <= i < |settings| && settings[i].enabled ==> i in at)
  }

  lemma {:induction false} EnabledAppended(settings: seq<Setting>, s: Setting, bs: seq<Binding>, at: seq<nat>)
    requires Projects(settings, bs, at) && s.enabled
    ensures Projects(settings + [s], bs + [Binding(s.metric, s.varName)], at + [|settings|])
  {
    var longer, after := settings + [s], at + [|settings|];
    forall i | 0 <= i < |longer| && longer[i].enabled ensures i in after {
      if i < |settings| {
        assert i in at;
        var k :| 0 <= k < |at| && at[k] == i;
        assert after[k] == i;
      } else {
        assert after[|at|] == i;
      }
    }
  }

  lemma {:induction false} DisabledAppended(settings: seq<Setting>, s: Setting, bs: seq<Binding>, at: seq<nat>)
    requires Projects(settings, bs, at) && !s.enabled
    ensures Projects(settings + [s], bs, at)
  {
    forall i | 0 <= i < |settings + [s]| && (settings + [s])[i].enabled ensures i in at {
      assert i < |settings| && settings[i].enabled;
    }
  }

  lemma {:induction false} EnabledAreProjected(settings: seq<Setting>) returns (at: seq<nat>)
    ensures Projects(settings, EnabledOf(settings), at)
    decreases |settings|, 1
  {
    if settings == [] {
      at := [];
    } else {
      at := ProjectionGrows(settings);
    }
  }

  lemma {:induction false} ProjectionGrows(settings: seq<Setting>) returns (at: seq<nat>)
    requires settings != []
    ensures Projects(settings, EnabledOf(settings), at)
    decreases |settings|, 0
  {
    hide Projects;
    var n := |settings| - 1;
    var before := EnabledOf(settings[..n]);
    at := EnabledAreProjected(settings[..n]);
    assert settings == settings[..n] + [settings[n]];
    if settings[n].enabled {
      EnabledAppended(settings[..n], settings[n], before, at);
      at := at + [n];
    } else {
      DisabledAppended(settings[..n], settings[n], before, at);
    }
  }

  lemma {:induction false} ProjectionIsOk(t: Table, settings: seq<Setting>, bs: seq<Binding>, at: seq<nat>)
    requires TableOk(t) && Canonical(t, settings) && Projects(settings, bs, at)
    ensures BindingsOk(t, bs) && DistinctMetrics(bs)
  {
    forall k | 0 <= k < |bs| ensures SupportedMetric(t.android, bs[k].metric) && ValidVarName(bs[k].varName) {
      assert Shows(settings[at[k]], bs[k]);
    }
    forall k, l | 0 <= k < l < |bs| ensures bs[k].metric != bs[l].metric && bs[k].varName != bs[l].varName {
      assert Shows(settings[at[k]], bs[k]) && Shows(settings[at[l]], bs[l]) && at[k] < at[l];
    }
  }

  predicate Shown(settings: seq<Setting>, b: Binding) {
    exists i :: 0 <= i < |settings| && Shows(settings[i], b)
  }

  lemma {:induction false} ProjectionIsExact(settings: seq<Setting>, bs: seq<Binding>, at: seq<nat>, b: Binding)
    requires Projects(settings, bs, at)
    ensures b in bs <==> Shown(settings, b)
  {
    if b in bs {
      var k :| 0 <= k < |bs| && bs[k] == b;
      assert Shows(settings[at[k]], b);
    }
    if Shown(settings, b) {
      var i :| 0 <= i < |settings| && Shows(settings[i], b);
      var k :| 0 <= k < |at| && at[k] == i;
      assert bs[k] == b;
    }
  }

  /** Canonical settings and their bindings: who is bound, under which name, and nothing twice. */
  lemma {:induction false} BindingsOfCanonical(t: Table, settings: seq<Setting>)
    requires TableOk(t) && Canonical(t, settings)
    ensures var bs := EnabledOf(settings);
            && EnabledBindings(settings) == bs
            && BindingsOk(t, bs) && DistinctMetrics(bs)
            && (forall b :: b in bs <==> Shown(settings, b))
  {
    CanonicalIsTrimmed(t, settings);
    var at := EnabledAreProjected(settings);
    var bs := EnabledOf(settings);
    ProjectionIsOk(t, settings, bs, at);
    forall b ensures b in bs <==> Shown(settings, b) {
      ProjectionIsExact(settings, bs, at, b);
    }
  }

  ghost predicate SurvivesIn(bindings: seq<Binding>, b: Binding) {
    exists k :: 0 <= k < |bindings| && bindings[k] == b && IsLast(bindings, k)
  }

  /**
   Bindings to settings and back: the binding of a metric that comes last survives,
   and nothing else does.
   */
  lemma {:induction false} RoundTripKeepsTheLast(t: Table, bindings: seq<Binding>, b: Binding)
    requires TableOk(t) && BindingsOk(t, bindings)
    ensures b in EnabledBindings(SettingsFrom(t, bindings)) <==> SurvivesIn(bindings, b)
  {
    hide TrimSpace, Canonical, EnabledBindings, ValidVarName, SurvivesIn, IsControllable, IsReadOnly, Shown;
    var settings := SettingsFrom(t, bindings);
    OkBindingsAreTrimmed(t, bindings);
    SettingsFromAreCanonical(t, bindings);
    BindingsOfCanonical(t, settings);
    ShownComesFromLast(t, bindings, b);
    if SurvivesIn(bindings, b) {
      LastIsShown(t, bindings, b);
    }
  }

  lemma {:induction false} ShownComesFromLast(t: Table, bindings: seq<Binding>, b: Binding)
    requires TrimmedList(bindings) == bindings
    ensures Shown(SettingsFrom(t, bindings), b) && ValidNames(bindings) ==> SurvivesIn(bindings, b)
  {
    hide TrimmedList, IsControllable, ValidVarName;
    var settings := SettingsFrom(t, bindings);
    if Shown(settings, b) && ValidNames(bindings) {
      var i :| 0 <= i < |settings| && Shows(settings[i], b);
      var k := LastNameIsBound(bindings, t.defaults[i].metric);
      assert bindings[k] == b by { NamedNotEmpty(bindings[k].varName); }
    }
  }

  predicate ValidNames(bindings: seq<Binding>) {
    forall i :: 0 <= i < |bindings| ==> ValidVarName(bindings[i].varName)
  }

  lemma {:induction false} LastIsShown(t: Table, bindings: seq<Binding>, b: Binding)
    requires TableOk(t) && BindingsOk(t, bindings) && TrimmedList(bindings) == bindings && SurvivesIn(bindings, b)
    ensures Shown(SettingsFrom(t, bindings), b)
  {
    hide TrimmedList, IsControllable, IsReadOnly, ValidVarName;
    var settings := SettingsFrom(t, bindings);
    var k :| 0 <= k < |bindings| && bindings[k] == b && IsLast(bindings, k);
    assert Covers(t.defaults, b.metric);
    var i :| 0 <= i < |t.defaults| && t.defaults[i].metric == b.metric;
    LastNameIsSome(bindings, k);
    var l := LastNameIsBound(bindings, b.metric);
    assert l == k;
    NamedNotEmpty(b.varName);
    assert Shows(settings[i], b);
  }

  /**
   The round trip is a reordering that loses nothing exactly when no metric is
   bound twice.
   */
  lemma {:induction false} RoundTripIsLossless(t: Table, bindings: seq<Binding>)
    requires TableOk(t) && BindingsOk(t, bindings)
    ensures multiset(EnabledBindings(SettingsFrom(t, bindings))) == multiset(bindings) <==> DistinctMetrics(bindings)
  {
    var back := EnabledBindings(SettingsFrom(t, bindings));
    SettingsFromAreCanonical(t, bindings);
    BindingsOfCanonical(t, SettingsFrom(t, bindings));
    if DistinctMetrics(bindings) {
      forall b ensures b in back <==> b in bindings {
        RoundTripKeepsTheLast(t, bindings, b);
        if b in bindings {
          var k :| 0 <= k < |bindings| && bindings[k] == b;
          assert IsLast(bindings, k);
        }
      }
      DistinctMultisets(back, bindings);
    } else {
      var i, j :| 0 <= i < j < |bindings| && bindings[i].metric == bindings[j].metric;
      RoundTripKeepsTheLast(t, bindings, bindings[i]);
      LostWhenRebound(bindings, i, j);
      assert bindings[i] !in back;
      assert bindings[i] in multiset(bindings);
    }
  }

  lemma {:induction false} LostWhenRebound(bindings: seq<Binding>, i: nat, j: nat)
    requires i < j < |bindings| && bindings[i].metric == bindings[j].metric && DistinctNames(bindings)
    ensures !SurvivesIn(bindings, bindings[i])
  {
    forall k | 0 <= k < |bindings| && bindings[k] == bindings[i] ensures !IsLast(bindings, k) {
      assert k == i;
      assert bindings[j].metric == bindings[k].metric;
    }
  }

  lemma {:induction false} DistinctMultisets(a: seq<Binding>, b: seq<Binding>)
    requires DistinctMetrics(a) && DistinctMetrics(b)
    requires forall x :: x in a <==> x in b
    ensures multiset(a) == multiset(b)
  {
    forall x ensures multiset(a)[x] == multiset(b)[x] {
      CountDistinct(a, x);
      CountDistinct(b, x);
    }
  }

  lemma {:induction false} CountDistinct(a: seq<Binding>, x: Binding)
    requires DistinctMetrics(a)
    ensures multiset(a)[x] == if x in a then 1 else 0
  {
    if a != [] {
      var n := |a| - 1;
      assert a == a[..n] + [a[n]];
      CountDistinct(a[..n], x);
    }
  }
}
