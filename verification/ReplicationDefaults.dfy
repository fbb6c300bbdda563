/**
 New defaults while the node reports: every variable whose metric has been read is
 brought to them, in the cache at once and at the hub once its set has arrived.
 */
module ReplicationDefaults {
  import opened Wrappers
  import opened Text
  import opened Metrics
  import opened Config
  import opened Replication
  import opened ReplicationFacts
  import opened ReplicationAsync
  import opened ReplicationEffects
  import opened ReplicationResults
  import opened ReplicationWritable
  import opened ReplicationSettling
  import Logins = ReplicationLogins

  /** Every message about `name` reads as `p`. */
  predicate AllSay(channel: seq<Msg>, name: string, p: Published) {
    forall i :: 0 <= i < |About(channel, name)| ==> Says(About(channel, name)[i], p)
  }

  predicate Says(m: Msg, p: Published) {
    Read(Published(m.value, m.visibility)) == p
  }

  /** The node stands for `p`: cache and hub say so, or the hub will; nothing coming back says otherwise. */
  predicate Settled(w: World, name: string, p: Published) {
    && Active(w.node.auth) && Listed(w.node, name) && Target(w.node, name) == Some(p.value) && Proper(p)
    && Holds(w.node, name, p) && AllSay(w.down, name, p)
    && match LastSet(w.node.sent, name)
       case Some(up) => up == p
       case None => HubSays(w, name, p)
  }

  lemma {:induction false} DeliverUpSettled(w: World, echo: bool, name: string, p: Published)
    requires WellFormed(w) && w.node.sent != [] && Settled(w, name, p) && !Crossing(Move(w, DeliverUp(echo)), name)
    ensures Settled(Move(w, DeliverUp(echo)), name, p)
  {
    hide TrimSpace, ValidVarName, Target, About, ConfigOk, BindingByVarName, Read, VisibilityOf;
    var t, m := Move(w, DeliverUp(echo)), w.node.sent[0];
    SameTarget(w.node, t.node, name);
    LastSetAfterReceive(w.node.sent, name);
    AboutAfterSend(w.down, m, name);
    LastSetAfterSend(w.down, m, name);
  }

  lemma {:induction false} DeliverDownSettled(w: World, name: string, p: Published)
    requires WellFormed(w) && w.down != [] && Settled(w, name, p)
    ensures Settled(Move(w, DeliverDown), name, p)
  {
    hide TrimSpace, ValidVarName, Target, About, ConfigOk, BindingByVarName, HandleNotify, Read, Protected, LastSet;
    var t, m := Move(w, DeliverDown), w.down[0];
    AboutAfterReceive(w.down, name);
    HandleTouchesOnly(w, m, name);
    SameTarget(w.node, t.node, name);
    if m.name == name {
      assert About(w.down, name)[0] == m;
      AgreeingNotice(w, m, p);
    }
    assert forall i :: 0 <= i < |About(w.down[1..], name)| ==>
      About(w.down[1..], name)[i] == About(w.down, name)[if m.name == name then i + 1 else i];
  }

  /** A notification that says what the node stands for is recorded, and that is all. */
  lemma {:induction false} AgreeingNotice(w: World, m: Msg, p: Published)
    requires WellFormed(w) && Enabled(w, Foreign(m)) && Active(w.node.auth) && Listed(w.node, m.name)
    requires Target(w.node, m.name) == Some(p.value) && Says(m, p)
    ensures var after := HandleNotify(w.node, m); Holds(after, m.name, p) && after.sent == w.node.sent
  {
    hide TrimSpace, ValidVarName, ConfigOk, Bound, HandleNotify, VisibilityOf, KnownValue, Recorded, Shown, Refused,
         Owned;
    if Owned(w.node, m.name) {
      OwnedIsRefused(w.node, m.name);
      var metric :| Refused(w.node, m.name, metric);
      RefusedMetric(w.node, m.name, metric);
      RefusedIsAnswered(w, m, metric);
      KnownIsShown(w, metric);
      RecordedIs(m);
    } else {
      FreeIsShadowed(w.node, m);
    }
  }

  /** No set and notification of `name` cross in any state of the run. */
  predicate Uncrossed(w: World, es: seq<Event>, name: string)
    requires Legal(w, es)
  {
    es == [] || (Uncrossed(w, es[..|es| - 1], name) && !Crossing(Run(w, es), name))
  }

  lemma {:induction false} DeliveriesSettle(w: World, es: seq<Event>, name: string, p: Published)
    requires WellFormed(w) && Settled(w, name, p)
    requires Legal(w, es) && Uncrossed(w, es, name) && forall i :: 0 <= i < |es| ==> Delivery(es[i])
    ensures WellFormed(Run(w, es)) && Settled(Run(w, es), name, p)
  {
    hide WellFormed, Settled, Move, Crossing, Kept, OwnedNames, Enabled, LeavesBehind;
    if es != [] {
      var before, e := Run(w, es[..|es| - 1]), es[|es| - 1];
      DeliveriesSettle(w, es[..|es| - 1], name, p);
      MoveIsWellFormed(before, e);
      HistoryIsIrrelevant(Move(before, e), Run(w, es).stale);
      CrossingIgnoresHistory(Move(before, e), Run(w, es).stale, name);
      match e {
        case DeliverUp(echo) =>
          UpEnabled(before, echo);
          DeliverUpSettled(before, echo, name, p);
        case DeliverDown =>
          DownEnabled(before);
          DeliverDownSettled(before, name, p);
      }
      SettledIgnoresHistory(Move(before, e), Run(w, es).stale, name, p);
    }
  }

  lemma UpEnabled(w: World, echo: bool)
    requires Enabled(w, DeliverUp(echo))
    ensures w.node.sent != []
  {
  }

  lemma DownEnabled(w: World)
    requires Enabled(w, DeliverDown)
    ensures w.down != []
  {
  }

  lemma CrossingIgnoresHistory(w: World, stale: set<string>, name: string)
    ensures Crossing(w.(stale := stale), name) <==> Crossing(w, name)
  {
    hide LastSet;
  }

  lemma SettledIgnoresHistory(w: World, stale: set<string>, name: string, p: Published)
    requires Settled(w, name, p)
    ensures Settled(w.(stale := stale), name, p)
  {
    hide LastSet, Target, AllSay, Read, ValidVarName, BindingByVarName;
  }

  /** What the change itself leaves, wherever a cache speaks the truth and nothing is coming back. */
  lemma {:induction false} DefaultsSettle(w: World, v: string, d: string, name: string, shown: string)
    requires WellFormed(w) && Enabled(w, Defaults(v, d)) && Active(w.node.auth) && w.node.reporting && w.node.dedupe
    requires Listed(w.node, name) && Agreeing(w, name) && About(w.down, name) == []
    requires Reads(w.node.(cfg := w.node.cfg.(visibility := v, noBattery := d)), name, shown)
    ensures Settled(Move(w, Defaults(v, d)), name, Published(shown, v))
  {
    hide TrimSpace, ValidVarName, ConfigOk, BindingByVarName, Republish, About, VisibilityOf, Target, Reads, Protected;
    var changed := w.(node := w.node.(cfg := w.node.cfg.(visibility := v, noBattery := d)));
    DefaultsAreWellFormed(w, v, d);
    ReadsIsTarget(changed, name);
    TargetIsClean(changed, name);
    RepublishIsExact(changed, name);
    NormalVisibility(v);
    var after := Republish(changed.node);
    SameTarget(changed.node, after, name);
    assert About(after.sent, name) == About(w.node.sent, name) + Added(changed.node, name, shown);
    assert Listed(after, name) by { assert Bound(after.cfg, name) == Bound(w.node.cfg, name); }
  }

  /** Nothing but deliveries, and none with a crossing. */
  predicate Delivers(w: World, rest: seq<Event>, name: string) {
    Legal(w, rest) && Uncrossed(w, rest, name) && forall i :: 0 <= i < |rest| ==> Delivery(rest[i])
  }

  /** The cache says `p`, and so does the hub once nothing of the variable is on its way up. */
  predicate Arrived(w: World, name: string, p: Published) {
    Holds(w.node, name, p) && (About(w.node.sent, name) == [] ==> HubSays(w, name, p))
  }

  lemma {:induction false} DefaultsArriveFrom(s: World, v: string, d: string, after: World, name: string, shown: string)
    requires Enabled(s, Defaults(v, d)) && after == Logins.AfterDefaults(s, v, d)
    requires WellFormed(s) && Active(s.node.auth) && s.node.reporting && s.node.dedupe
    requires Listed(s.node, name) && Agreeing(s, name) && About(s.down, name) == []
    requires Reads(s.node.(cfg := s.node.cfg.(visibility := v, noBattery := d)), name, shown)
    ensures WellFormed(after) && Settled(after, name, Published(shown, v))
  {
    hide WellFormed, Listed, Agreeing, Reads, Settled, Active, Move, About, Kept, OwnedNames, LeavesBehind, Republish,
         BindingByVarName;
    var moved := Move(s, Defaults(v, d));
    DefaultsSettle(s, v, d, name, shown);
    MoveIsWellFormed(s, Defaults(v, d));
    HistoryIsIrrelevant(moved, after.stale);
    SettledIgnoresHistory(moved, after.stale, name, Published(shown, v));
  }

  lemma {:induction false} SettledArrives(w: World, rest: seq<Event>, name: string, p: Published)
    requires WellFormed(w) && Settled(w, name, p) && Delivers(w, rest, name)
    ensures Arrived(Run(w, rest), name, p)
  {
    hide Run, Legal, WellFormed, Settled, Uncrossed, Delivery, Arrived;
    DeliveriesSettle(w, rest, name, p);
    SettledHolds(Run(w, rest), name, p);
  }

  lemma FollowsAgrees(w: World, name: string)
    requires Follows(w, name) && Active(w.node.auth)
    ensures Agreeing(w, name)
  {
    hide Agreeing, Tracked;
  }

  /**
   New defaults arrive. In any state of a run without crossings in which the node reports
   and nothing of a variable is coming back, let the defaults change: if the metric has been
   read, the cache holds what it shows as now, under the new visibility, through any further
   deliveries without a crossing, and the hub too once nothing of it is on its way up.
   */
  lemma {:induction false} NewDefaultsArrive(w: World, es: seq<Event>, v: string, d: string, rest: seq<Event>,
                                             name: string, shown: string)
    requires Starts(w) && w.node.dedupe && Legal(w, es) && Listed(w.node, name) && Untroubled(w, es, name)
    requires Enabled(w, Defaults(v, d))
    ensures var s, after := Run(w, es), Logins.AfterDefaults(Run(w, es), v, d);
            && Active(s.node.auth) && s.node.reporting && About(s.down, name) == []
            && Reads(s.node.(cfg := s.node.cfg.(visibility := v, noBattery := d)), name, shown)
            && Delivers(after, rest, name) ==>
              Arrived(Run(after, rest), name, Published(shown, v))
  {
    hide Starts, Run, Legal, WellFormed, Listed, Agreeing, Follows, Reads, Untroubled, Active, Settled, Crossing, About,
         Logins.AfterDefaults, Delivers, Arrived;
    FollowHolds(w, es, name);
    DedupeStays(w, es);
    var s := Run(w, es);
    var after := Logins.AfterDefaults(s, v, d);
    if Active(s.node.auth) && s.node.reporting && About(s.down, name) == []
       && Reads(s.node.(cfg := s.node.cfg.(visibility := v, noBattery := d)), name, shown)
       && Delivers(after, rest, name) {
      FollowsAgrees(s, name);
      DefaultsArriveFrom(s, v, d, after, name, shown);
      SettledArrives(after, rest, name, Published(shown, v));
    }
  }

  lemma SettledHolds(w: World, name: string, p: Published)
    requires Settled(w, name, p)
    ensures Arrived(w, name, p)
  {
    hide Target, AllSay, Read, Listed;
  }
}
