/**
 The worker that carries drained control actions out on a desktop: it picks the
 actions it knows, parses and clamps their values, and drives the devices.
 */
module ControlWorker {
  import opened Wrappers
  import opened Text
  import opened Decimal
  import opened Metrics
  import opened Replication
  import opened ActionQueue
  import Async = ReplicationAsync

  datatype Command = SetVolume(percent: int) | SetMuted(on: bool) | SetBrightness(percent: int)

  /** How the devices answer while one batch is worked on. */
  datatype Devices = Devices(opens: bool, volumeOk: bool, mutedOk: bool)

  /** The value a scan of the batch ends with. */
  function Selected(actions: seq<ControlAction>, metric: string): Option<string> {
    if actions == [] then None
    else if actions[|actions| - 1].metric == metric then Some(actions[|actions| - 1].value)
    else Selected(actions[..|actions| - 1], metric)
  }

  function Percent(value: Option<string>): Option<int> {
    if value.None? then None
    else match ParseInt(value.value) case None => None case Some(p) => Some(ClampInt(p, 0, 100))
  }

  function Flag(value: Option<string>): Option<bool> {
    if value.None? then None else ParseBoolish(value.value)
  }

  /** The audio endpoint is there, or could be opened for a batch that needs it. */
  predicate Ready(open: bool, d: Devices) {
    open || d.opens
  }

  function VolumePart(volume: Option<int>, ready: bool): seq<Command> {
    if volume.Some? && ready then [SetVolume(volume.value)] else []
  }

  function MutePart(muted: Option<bool>, ready: bool): seq<Command> {
    if muted.Some? && ready then [SetMuted(muted.value)] else []
  }

  function BrightnessPart(brightness: Option<int>): seq<Command> {
    if brightness.Some? then [SetBrightness(brightness.value)] else []
  }

  /** The commands for parsed values, in order. A failed volume change closes the endpoint under the mute. */
  function Commands(volume: Option<int>, muted: Option<bool>, brightness: Option<int>, open: bool,
                    d: Devices): seq<Command> {
    VolumePart(volume, Ready(open, d))
    + MutePart(muted, Ready(open, d) && (volume.None? || d.volumeOk))
    + BrightnessPart(brightness)
  }

  /** What one batch makes of the devices. */
  function Carried(actions: seq<ControlAction>, open: bool, d: Devices): seq<Command> {
    Commands(Percent(Selected(actions, VOLUME_PERCENT)), Flag(Selected(actions, VOLUME_MUTED)),
             Percent(Selected(actions, BRIGHTNESS_PERCENT)), open, d)
  }

  /** Whether the audio endpoint is open after a batch: opened on demand, given up when a call on it fails. */
  predicate OpenAfter(actions: seq<ControlAction>, open: bool, d: Devices) {
    var volume, muted := Selected(actions, VOLUME_PERCENT), Selected(actions, VOLUME_MUTED);
    && (if volume.Some? || muted.Some? then Ready(open, d) else open)
    && (Percent(volume).None? || d.volumeOk) && (Flag(muted).None? || d.mutedOk)
  }

  /** One scan of the batch for the three metrics the worker knows. */
  method Select(actions: seq<ControlAction>)
    returns (volume: Option<string>, muted: Option<string>, brightness: Option<string>)
    ensures volume == Selected(actions, VOLUME_PERCENT) && muted == Selected(actions, VOLUME_MUTED)
    ensures brightness == Selected(actions, BRIGHTNESS_PERCENT)
  {
    volume, muted, brightness := None, None, None;
    for i := 0 to |actions|
      invariant volume == Selected(actions[..i], VOLUME_PERCENT) && muted == Selected(actions[..i], VOLUME_MUTED)
      invariant brightness == Selected(actions[..i], BRIGHTNESS_PERCENT)
    {
      assert actions[..i + 1][..i] == actions[..i];
      var a := actions[i];
      if a.metric == VOLUME_PERCENT {
        volume := Some(a.value);
      } else if a.metric == VOLUME_MUTED {
        muted := Some(a.value);
      } else if a.metric == BRIGHTNESS_PERCENT {
        brightness := Some(a.value);
      }
    }
    assert actions[..|actions|] == actions;
  }

  class Worker {
    var endpoint: bool  // the audio endpoint is open
    var issued: seq<Command>

    constructor ()
      ensures !endpoint && issued == []
    {
      endpoint := false;
      issued := [];
    }

    method Issue(c: Command)
      modifies this`issued
      ensures issued == old(issued) + [c]
    {
      issued := issued + [c];
    }

    /** The volume part of a turn. A failed call gives the endpoint up. */
    method DriveVolume(volume: Option<string>, ready: bool, d: Devices)
      modifies this
      ensures issued == old(issued) + VolumePart(Percent(volume), ready)
      ensures endpoint == (old(endpoint) && (!ready || Percent(volume).None? || d.volumeOk))
    {
      hide ParseInt, ClampInt;
      if volume.Some? && ready {
        var percent := ParseInt(volume.value);
        if percent.Some? {
          Issue(SetVolume(ClampInt(percent.value, 0, 100)));
          if !d.volumeOk {
            endpoint := false;
          }
        }
      }
    }

    /** The mute part: without an endpoint the call fails and reaches nothing. */
    method DriveMute(muted: Option<string>, ready: bool, d: Devices)
      modifies this
      ensures issued == old(issued) + MutePart(Flag(muted), ready && old(endpoint))
      ensures endpoint == (old(endpoint) && (!ready || Flag(muted).None? || d.mutedOk))
    {
      hide ParseBoolish;
      if muted.Some? && ready {
        var m := ParseBoolish(muted.value);
        if m.Some? && endpoint {
          Issue(SetMuted(m.value));
          if !d.mutedOk {
            endpoint := false;
          }
        }
      }
    }

    method DriveBrightness(brightness: Option<string>)
      modifies this`issued
      ensures issued == old(issued) + BrightnessPart(Percent(brightness))
    {
      hide ParseInt, ClampInt;
      if brightness.Some? {
        var percent := ParseInt(brightness.value);
        if percent.Some? {
          Issue(SetBrightness(ClampInt(percent.value, 0, 100)));
        }
      }
    }

    /** One turn of the worker's loop. */
    method Work(actions: seq<ControlAction>, d: Devices)
      modifies this
      ensures issued == old(issued) + Carried(actions, old(endpoint), d)
      ensures endpoint == OpenAfter(actions, old(endpoint), d)
    {
      hide Percent, Flag, VolumePart, MutePart, BrightnessPart;
      if |actions| == 0 {
        NothingToParse();
        NothingToDo();
        return;
      }
      var volume, muted, brightness := Select(actions);
      NothingToParse();
      NothingToDo();
      var volumeReady := true;
      if volume.Some? || muted.Some? {
        endpoint := endpoint || d.opens;
        volumeReady := endpoint;
      }
      DriveVolume(volume, volumeReady, d);
      DriveMute(muted, volumeReady, d);
      DriveBrightness(brightness);
    }
  }

  lemma NothingToParse()
    ensures Percent(None) == None && Flag(None) == None
  {
  }

  lemma NothingToDo()
    ensures forall ready :: VolumePart(None, ready) == [] && MutePart(None, ready) == []
    ensures BrightnessPart(None) == []
  {
  }

  // ------------------------------------------------------------- canonical values

  /** The texts the inbound handler queues: a percent as it prints, or 0 and 1. */
  ghost predicate Canonical(metric: string, value: string) {
    if metric == VOLUME_PERCENT || metric == BRIGHTNESS_PERCENT
    then exists p :: 0 <= p <= 100 && value == PrintInt(p)
    else (metric == VOLUME_MUTED || metric == FLASHLIGHT_ENABLED) && (value == "0" || value == "1")
  }

  ghost predicate AllCanonical(latest: map<string, string>) {
    forall m :: m in latest ==> Canonical(m, latest[m])
  }

  lemma {:induction false} ControlValuesAreCanonical(metric: string, text: string)
    requires ControlValue(metric, text).Some?
    ensures Canonical(metric, ControlValue(metric, text).value)
  {
    hide ParseInt, ParseBoolish, PrintInt;
    if metric == VOLUME_PERCENT || metric == BRIGHTNESS_PERCENT {
      var p := ClampInt(ParseInt(text).value, 0, 100);
      assert ControlValue(metric, text).value == PrintInt(p);
    }
  }

  /** A printed percent parses back to itself, and clamping it changes nothing. */
  lemma {:induction false} PercentSurvives(p: int)
    requires 0 <= p <= 100
    ensures Percent(Some(PrintInt(p))) == Some(p)
    ensures TrimSpace(PrintInt(p)) == PrintInt(p) != ""
  {
    hide TrimSpace, PrintInt, Atoi, Plain;
    PrintedIsPlain(p);
    PlainIsTrimmed(PrintInt(p));
    PrintThenAtoi(p);
  }

  lemma {:induction false} FlagSurvives(on: bool)
    ensures var text := if on then "1" else "0";
            Flag(Some(text)) == Some(on) && TrimSpace(text) == text
  {
    PlainIsTrimmed("1");
    PlainIsTrimmed("0");
    assert ToLower("1") == "1" && ToLower("0") == "0";
  }

  lemma {:induction false} CanonicalIsTrimmed(metric: string, value: string)
    requires Canonical(metric, value)
    ensures TrimSpace(value) == value != ""
  {
    hide TrimSpace, PrintInt;
    FlagSurvives(true);
    FlagSurvives(false);
    if metric == VOLUME_PERCENT || metric == BRIGHTNESS_PERCENT {
      var p :| 0 <= p <= 100 && value == PrintInt(p);
      PercentSurvives(p);
    }
  }

  /** What a notification queues is canonical, and the queue stores it as it is. */
  lemma {:induction false} HandlingQueuesCanonical(n: Node, m: Msg)
    requires AllCanonical(n.pending)
    ensures AllCanonical(HandleNotify(n, m).pending)
  {
    hide TrimSpace, Config.BindingByVarName, Canonical, ControlValue, Correct, Shadow, Protected;
    var name, value := TrimSpace(m.name), TrimSpace(m.value);
    var bound := Bound(n.cfg, name);
    if bound.Some? {
      SidesKeepPending(n, name, value, m.visibility, bound.value.metric);
    }
    if bound.Some? && ControlValue(bound.value.metric, value).Some? {
      var metric, v := bound.value.metric, ControlValue(bound.value.metric, value).value;
      ControlValuesAreCanonical(metric, value);
      CanonicalIsTrimmed(metric, v);
      CanonicalMetricIsTrimmed(metric, v);
    }
  }

  lemma {:induction false} SidesKeepPending(n: Node, name: string, value: string, visibility: string, metric: string)
    ensures var shadowed := Shadow(n, name, value, visibility);
            shadowed.pending == n.pending && Correct(shadowed, name, value, metric).pending == n.pending
  {
    hide TrimSpace, VisibilityOf, ValidVarName, KnownValue;
  }

  lemma {:induction false} CanonicalMetricIsTrimmed(metric: string, value: string)
    requires Canonical(metric, value)
    ensures TrimSpace(metric) == metric
  {
    hide TrimSpace, PrintInt;
    ControllableIsName(metric);
    ValidNameIsTrimmed(metric);
  }

  // ---------------------------------------------------------------------- runs

  /** The runtime and its session move, or the worker drains what is pending. */
  datatype Move = Session(event: Async.Event) | Handed(batch: seq<ControlAction>)

  ghost predicate Legal(w: Async.World, moves: seq<Move>)
    decreases |moves|, 0
  {
    moves == []
    || (Legal(w, moves[..|moves| - 1])
        && match moves[|moves| - 1]
           case Session(e) => Async.Enabled(Run(w, moves[..|moves| - 1]), e)
           case Handed(batch) => BatchOf(batch, Run(w, moves[..|moves| - 1]).node.pending))
  }

  ghost function Run(w: Async.World, moves: seq<Move>): Async.World
    requires Legal(w, moves)
    decreases |moves|, 1
  {
    if moves == [] then w
    else
      var before := Run(w, moves[..|moves| - 1]);
      match moves[|moves| - 1]
      case Session(e) => Async.Step(before, e)
      case Handed(_) => before.(node := before.node.(pending := map[]))
  }

  lemma {:induction false} SessionKeepsCanonical(w: Async.World, e: Async.Event)
    requires Async.Enabled(w, e) && AllCanonical(w.node.pending)
    ensures AllCanonical(Async.Step(w, e).node.pending)
  {
    hide TrimSpace, ValidVarName, Transform, VisibilityOf, HandleNotify, MetricUpdate, Republish, LoggedIn, Canonical,
         Async.Kept, Async.LeavesBehind, Async.OwnedNames;
    match e
    case DeliverDown => HandlingQueuesCanonical(w.node, w.down[0]);
    case Reading(metric, value) => ReadingQueuesNothing(w.node, metric, value);
    case Defaults(v, b) => Async.RepublishKeepsRest(w.node.(cfg := w.node.cfg.(visibility := v, noBattery := b)));
    case Login(nodeId, hubId, _) => LoginQueuesNothing(w.node.(sent := []), nodeId, hubId);
    case Relogin(hubId) => LoginQueuesNothing(w.node, w.node.auth.nodeId, hubId);
    case _ =>
  }

  lemma {:induction false} LoginQueuesNothing(n: Node, nodeId: nat, hubId: nat)
    ensures LoggedIn(n, nodeId, hubId).pending == n.pending
  {
    hide TrimSpace, Republish;
    Async.RepublishKeepsRest(Async.Cleared(n, nodeId, hubId));
  }

  lemma {:induction false} ReadingQueuesNothing(n: Node, name: string, text: string)
    ensures MetricUpdate(n, name, text).pending == n.pending
  {
    hide TrimSpace, Transform, VisibilityOf, PublishEach;
    var metric, raw := TrimSpace(name), TrimSpace(text);
    Async.EachKeepsRest(n.(metrics := n.metrics[metric := raw]),
                        Matching(n.cfg.bindings, metric, Transform(metric, raw, n.cfg)), UpdateVisibility(n.cfg));
  }

  /** Whatever arrives and wherever drains fall, only canonical values are ever pending. */
  lemma {:induction false} PendingIsCanonical(w: Async.World, moves: seq<Move>)
    requires Legal(w, moves) && w.node.pending == map[]
    ensures AllCanonical(Run(w, moves).node.pending)
  {
    hide Canonical;
    if moves != [] {
      var before := moves[..|moves| - 1];
      PendingIsCanonical(w, before);
      match moves[|moves| - 1]
      case Session(e) => SessionKeepsCanonical(Run(w, before), e);
      case Handed(_) =>
    }
  }

  /** A command the pending values spell out. */
  predicate Asks(latest: map<string, string>, c: Command) {
    match c
    case SetVolume(p) => 0 <= p <= 100 && VOLUME_PERCENT in latest && latest[VOLUME_PERCENT] == PrintInt(p)
    case SetMuted(on) => VOLUME_MUTED in latest && latest[VOLUME_MUTED] == (if on then "1" else "0")
    case SetBrightness(p) => 0 <= p <= 100 && BRIGHTNESS_PERCENT in latest && latest[BRIGHTNESS_PERCENT] == PrintInt(p)
  }

  /** The device is there when the command's turn comes. */
  predicate Reaches(latest: map<string, string>, open: bool, d: Devices, c: Command) {
    match c
    case SetVolume(_) => Ready(open, d)
    case SetMuted(_) => Ready(open, d) && (VOLUME_PERCENT !in latest || d.volumeOk)
    case SetBrightness(_) => true
  }

  lemma {:induction false} SelectedIsPending(actions: seq<ControlAction>, latest: map<string, string>, metric: string)
    requires BatchOf(actions, latest)
    ensures Selected(actions, metric) == if metric in latest then Some(latest[metric]) else None
  {
    SelectedIsTaken(actions, latest, metric);
    if metric in latest {
      var i :| 0 <= i < |actions| && actions[i] == ControlAction(metric, latest[metric]);
      SelectedIsSome(actions, i);
    }
  }

  lemma {:induction false} SelectedIsTaken(actions: seq<ControlAction>, latest: map<string, string>, metric: string)
    requires TakenFrom(actions, latest)
    ensures Selected(actions, metric).Some? ==> metric in latest && Selected(actions, metric).value == latest[metric]
  {
    if actions != [] {
      assert actions[|actions| - 1] in actions;
      var front := actions[..|actions| - 1];
      assert forall a :: a in front ==> a in actions;
      SelectedIsTaken(front, latest, metric);
    }
  }

  lemma {:induction false} SelectedIsSome(actions: seq<ControlAction>, i: nat)
    requires i < |actions|
    ensures Selected(actions, actions[i].metric).Some?
  {
    if i < |actions| - 1 {
      SelectedIsSome(actions[..|actions| - 1], i);
    }
  }

  /** A canonical percent is parsed to exactly the number it prints. */
  lemma {:induction false} PercentIsExact(metric: string, value: string, p: int)
    requires Canonical(metric, value) && (metric == VOLUME_PERCENT || metric == BRIGHTNESS_PERCENT)
    ensures Percent(Some(value)) == Some(p) <==> 0 <= p <= 100 && value == PrintInt(p)
    ensures Percent(Some(value)).Some?
  {
    hide PrintInt, ParseInt;
    var q :| 0 <= q <= 100 && value == PrintInt(q);
    PercentSurvives(q);
    if 0 <= p <= 100 {
      PercentSurvives(p);
    }
  }

  lemma {:induction false} FlagIsExact(value: string, on: bool)
    requires Canonical(VOLUME_MUTED, value)
    ensures Flag(Some(value)) == Some(on) <==> value == if on then "1" else "0"
  {
    hide ParseBoolish;
    FlagSurvives(true);
    FlagSurvives(false);
  }

  /**
   The worker issues exactly the commands the drained values spell out and whose
   device is there: no value fails to parse, none is changed by clamping.
   */
  lemma {:induction false} CarriesExactly(actions: seq<ControlAction>, latest: map<string, string>,
                                          open: bool, d: Devices, c: Command)
    requires BatchOf(actions, latest) && AllCanonical(latest)
    ensures c in Carried(actions, open, d) <==> Asks(latest, c) && Reaches(latest, open, d, c)
  {
    hide Selected, BatchOf, Percent, Flag, Canonical, PrintInt;
    SelectedIsPending(actions, latest, VOLUME_PERCENT);
    SelectedIsPending(actions, latest, VOLUME_MUTED);
    SelectedIsPending(actions, latest, BRIGHTNESS_PERCENT);
    NothingToParse();
    var p := if c.SetMuted? then 0 else c.percent;
    if VOLUME_PERCENT in latest {
      PercentIsExact(VOLUME_PERCENT, latest[VOLUME_PERCENT], p);
    }
    if BRIGHTNESS_PERCENT in latest {
      PercentIsExact(BRIGHTNESS_PERCENT, latest[BRIGHTNESS_PERCENT], p);
    }
    if VOLUME_MUTED in latest && c.SetMuted? {
      FlagIsExact(latest[VOLUME_MUTED], c.on);
    }
  }

  function Rank(c: Command): nat {
    match c case SetVolume(_) => 0 case SetMuted(_) => 1 case SetBrightness(_) => 2
  }

  /** Each device is driven at most once for a batch: the volume first, then the mute, then the brightness. */
  lemma {:induction false} CarriedInOrder(actions: seq<ControlAction>, open: bool, d: Devices)
    ensures var cs := Carried(actions, open, d); forall i, j :: 0 <= i < j < |cs| ==> Rank(cs[i]) < Rank(cs[j])
  {
    hide Selected, Percent, Flag;
  }

  /**
   The audio endpoint after a batch of canonical values: opened if volume or mute asked for
   it, kept otherwise, and given up exactly when one of the two calls failed.
   */
  lemma {:induction false} EndpointAfter(actions: seq<ControlAction>, latest: map<string, string>, open: bool,
                                         d: Devices)
    requires BatchOf(actions, latest) && AllCanonical(latest)
    ensures var audio := VOLUME_PERCENT in latest || VOLUME_MUTED in latest;
            OpenAfter(actions, open, d) <==>
              && (open || (audio && d.opens))
              && (VOLUME_PERCENT in latest ==> d.volumeOk) && (VOLUME_MUTED in latest ==> d.mutedOk)
  {
    hide Selected, BatchOf, Percent, Flag, PrintInt;
    SelectedIsPending(actions, latest, VOLUME_PERCENT);
    SelectedIsPending(actions, latest, VOLUME_MUTED);
    NothingToParse();
    if VOLUME_PERCENT in latest {
      assert Canonical(VOLUME_PERCENT, latest[VOLUME_PERCENT]);
      var p :| 0 <= p <= 100 && latest[VOLUME_PERCENT] == PrintInt(p);
      PercentSurvives(p);
    }
    if VOLUME_MUTED in latest {
      assert Canonical(VOLUME_MUTED, latest[VOLUME_MUTED]);
      FlagSurvives(latest[VOLUME_MUTED] == "1");
    }
  }

  /** In any run, draining hands the worker a batch it carries out to the letter. */
  lemma {:induction false} EveryDrainIsCarriedOut(w: Async.World, moves: seq<Move>, batch: seq<ControlAction>,
                                                  open: bool, d: Devices, c: Command)
    requires w.node.pending == map[] && Legal(w, moves + [Handed(batch)])
    ensures Legal(w, moves)
    ensures var latest := Run(w, moves).node.pending;
            c in Carried(batch, open, d) <==> Asks(latest, c) && Reaches(latest, open, d, c)
  {
    hide Carried, Asks, Reaches, AllCanonical, BatchOf;
    assert (moves + [Handed(batch)])[..|moves|] == moves;
    PendingIsCanonical(w, moves);
    CarriesExactly(batch, Run(w, moves).node.pending, open, d, c);
  }
}
