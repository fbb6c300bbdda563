/** The metrics a node knows, their classes, and the names variables may carry. */
module Metrics {
  import opened Text

  const BATTERY_PERCENT := "battery_percent"
  const BATTERY_CHARGING := "battery_charging"
  const BATTERY_ON_AC := "battery_on_ac"
  const NET_ONLINE := "net_online"
  const NET_TYPE := "net_type"
  const CPU_PERCENT := "cpu_percent"
  const MEM_PERCENT := "mem_percent"
  const VOLUME_PERCENT := "volume_percent"
  const VOLUME_MUTED := "volume_muted"
  const BRIGHTNESS_PERCENT := "brightness_percent"
  const FLASHLIGHT_ENABLED := "flashlight_enabled"

  predicate IsControllable(metric: string) {
    metric == VOLUME_PERCENT || metric == VOLUME_MUTED || metric == BRIGHTNESS_PERCENT || metric == FLASHLIGHT_ENABLED
  }

  predicate IsReadOnly(metric: string) {
    || metric == BATTERY_PERCENT || metric == BATTERY_CHARGING || metric == BATTERY_ON_AC || metric == NET_ONLINE
    || metric == NET_TYPE || metric == CPU_PERCENT || metric == MEM_PERCENT
  }

  predicate NameChar(c: char) {
    'a' <= c <= 'z' || 'A' <= c <= 'Z' || '0' <= c <= '9' || c == '_'
  }

  predicate ValidVarName(name: string) {
    name != "" && forall i :: 0 <= i < |name| ==> NameChar(name[i])
  }

  lemma ReadOnlyIsName(metric: string)
    requires IsReadOnly(metric)
    ensures ValidVarName(metric)
  {
  }

  lemma ControllableIsName(metric: string)
    requires IsControllable(metric)
    ensures ValidVarName(metric)
  {
  }

  lemma ValidNameIsTrimmed(name: string)
    requires ValidVarName(name)
    ensures TrimSpace(name) == name
  {
    assert Plain(name);
    PlainIsTrimmed(name);
  }

  lemma NamedNotEmpty(name: string)
    ensures ValidVarName(name) ==> name != "" && TrimSpace(name) == name
  {
    hide TrimSpace;
    if ValidVarName(name) {
      ValidNameIsTrimmed(name);
    }
  }

  /** The classes partition the supported metrics. */
  predicate SupportedMetric(android: bool, metric: string) {
    (IsReadOnly(metric) || IsControllable(metric)) && (android || metric != FLASHLIGHT_ENABLED)
  }

  const CONTROLS := ["volume_percent", "volume_muted", "brightness_percent", "flashlight_enabled"]
  const READINGS := ["battery_percent", "battery_charging", "battery_on_ac", "net_online", "net_type", "cpu_percent",
                     "mem_percent"]

  /** The two classes of metrics, name by name. */
  lemma {:induction false} ClassesAreListed(metric: string)
    ensures IsControllable(metric) <==> metric in CONTROLS
    ensures IsReadOnly(metric) <==> metric in READINGS
    ensures !(metric in CONTROLS && metric in READINGS)
  {
    assert CONTROLS[0] == VOLUME_PERCENT && CONTROLS[1] == VOLUME_MUTED && CONTROLS[2] == BRIGHTNESS_PERCENT;
    assert CONTROLS[3] == FLASHLIGHT_ENABLED;
    assert READINGS[0] == BATTERY_PERCENT && READINGS[1] == BATTERY_CHARGING && READINGS[2] == BATTERY_ON_AC;
    assert READINGS[3] == NET_ONLINE && READINGS[4] == NET_TYPE && READINGS[5] == CPU_PERCENT;
    assert READINGS[6] == MEM_PERCENT;
  }
}
