/**
 The queue of control actions. It keeps only the newest value of each metric, and
 a one-slot token tells a sleeping worker that there is something to drain.
 */
module ActionQueue {
  import opened Text

  datatype ControlAction = ControlAction(metric: string, value: string)

  /** The pending map after one Enqueue: blank metrics and values are ignored. */
  function Enqueued(latest: map<string, string>, metric: string, value: string): map<string, string> {
    var m, v := TrimSpace(metric), TrimSpace(value);
    if m == "" || v == "" then latest else latest[m := v]
  }

  /** Go's string order: bytes, left to right. */
  predicate Less(a: string, b: string) {
    b != "" && (a == "" || a[0] < b[0] || (a[0] == b[0] && Less(a[1..], b[1..])))
  }

  lemma {:induction false} LessIsTransitive(a: string, b: string, c: string)
    requires Less(a, b) && Less(b, c)
    ensures Less(a, c)
  {
    if a != "" && a[0] == b[0] == c[0] {
      LessIsTransitive(a[1..], b[1..], c[1..]);
    }
  }

  lemma {:induction false} LessIsTotal(a: string, b: string)
    ensures Less(a, b) || a == b || Less(b, a)
    ensures !(Less(a, b) && Less(b, a)) && !Less(a, a)
  {
    if a != "" && b != "" {
      LessIsTotal(a[1..], b[1..]);
      if a[0] == b[0] && a[1..] == b[1..] {
        assert a == [a[0]] + a[1..] && b == [b[0]] + b[1..];
      }
    }
    if a != "" {
      LessIsTotal(a[1..], a[1..]);
    }
  }

  /** The order is that of the first byte that differs; a text comes before what it begins. */
  lemma {:induction false} LessIsByBytes(a: string, b: string) returns (k: nat)
    ensures k <= |a| && k <= |b| && a[..k] == b[..k]
    ensures (k == |a| || k == |b| || a[k] != b[k])
    ensures Less(a, b) <==> k < |b| && (k == |a| || a[k] < b[k])
  {
    if a == "" || b == "" || a[0] != b[0] {
      k := 0;
    } else {
      k := LessIsByBytes(a[1..], b[1..]);
      k := k + 1;
      assert a[..k] == [a[0]] + a[1..][..k - 1] && b[..k] == [b[0]] + b[1..][..k - 1];
    }
  }

  predicate StrictlySorted(actions: seq<ControlAction>) {
    forall i, j :: 0 <= i < j < |actions| ==> Less(actions[i].metric, actions[j].metric)
  }

  predicate TakenFrom(actions: seq<ControlAction>, latest: map<string, string>) {
    forall a :: a in actions ==> a.metric in latest && latest[a.metric] == a.value
  }

  /** `actions` is what draining `latest` hands out: every entry once, by metric. */
  predicate BatchOf(actions: seq<ControlAction>, latest: map<string, string>) {
    && StrictlySorted(actions)
    && TakenFrom(actions, latest)
    && forall m :: m in latest ==> ControlAction(m, latest[m]) in actions
  }

  lemma ConsIsSorted(a: ControlAction, rest: seq<ControlAction>)
    requires StrictlySorted(rest)
    requires forall x :: x in rest ==> Less(a.metric, x.metric)
    ensures StrictlySorted([a] + rest)
  {
    var r := [a] + rest;
    forall i, j | 0 <= i < j < |r| ensures Less(r[i].metric, r[j].metric) {
      assert r[j] == rest[j - 1] && r[j] in rest;
    }
  }

  lemma HeadIsLeast(actions: seq<ControlAction>)
    requires StrictlySorted(actions) && actions != []
    ensures forall x :: x in actions[1..] ==> Less(actions[0].metric, x.metric)
    ensures forall x :: x in actions[1..] <==> x in actions && x != actions[0]
  {
    assert actions == [actions[0]] + actions[1..];
    LessIsTotal(actions[0].metric, actions[0].metric);
  }

  function InsertSorted(actions: seq<ControlAction>, a: ControlAction): (r: seq<ControlAction>)
    requires StrictlySorted(actions)
    requires forall x :: x in actions ==> x.metric != a.metric
    ensures StrictlySorted(r)
    ensures forall x :: x in r <==> x == a || x in actions
  {
    if actions == [] then [a]
    else if Less(a.metric, actions[0].metric) then
      HeadIsLeast(actions);
      assert forall x :: x in actions[1..] ==> Less(a.metric, x.metric) by {
        forall x | x in actions[1..] ensures Less(a.metric, x.metric) {
          LessIsTransitive(a.metric, actions[0].metric, x.metric);
        }
      }
      ConsIsSorted(a, actions);
      [a] + actions
    else
      LessIsTotal(a.metric, actions[0].metric);
      HeadIsLeast(actions);
      var rest := InsertSorted(actions[1..], a);
      ConsIsSorted(actions[0], rest);
      [actions[0]] + rest
  }

  class Queue {
    var latest: map<string, string>
    var token: bool

    constructor ()
      ensures latest == map[] && !token
    {
      latest := map[];
      token := false;
    }

    method Enqueue(metric: string, value: string)
      modifies this
      ensures latest == Enqueued(old(latest), metric, value)
      ensures token == (old(token) || (!Blank(metric) && !Blank(value)))
    {
      var m, v := TrimSpace(metric), TrimSpace(value);
      if m == "" || v == "" {
        return;
      }
      latest := latest[m := v];
      token := true;
    }

    /** The order in which the map is walked is arbitrary; the batch is not. */
    method DequeueAll() returns (actions: seq<ControlAction>)
      modifies this`latest
      ensures BatchOf(actions, old(latest)) && latest == map[]
    {
      var walked: seq<ControlAction> := [];
      var keys := latest.Keys;
      while keys != {}
        invariant keys <= latest.Keys && latest == old(latest)
        invariant TakenFrom(walked, latest)
        invariant forall m :: m in latest && m !in keys ==> ControlAction(m, latest[m]) in walked
        invariant forall a :: a in walked ==> a.metric !in keys
        invariant forall i, j :: 0 <= i < j < |walked| ==> walked[i].metric != walked[j].metric
        decreases keys
      {
        var m :| m in keys;
        walked := walked + [ControlAction(m, latest[m])];
        keys := keys - {m};
      }
      latest := map[];
      actions := [];
      for i := 0 to |walked|
        invariant StrictlySorted(actions)
        invariant forall a :: a in actions <==> a in walked[..i]
      {
        actions := InsertSorted(actions, walked[i]);
      }
      assert walked[..|walked|] == walked;
    }

    /** A receive that does not block: it succeeds exactly when a token is there. */
    method TakeToken() returns (ok: bool)
      modifies this`token
      ensures ok == old(token) && !token
    {
      ok := token;
      token := false;
    }
  }

  /** The batch is a function of the pending map: no trace of the map order is left. */
  lemma {:induction false} BatchIsUnique(a: seq<ControlAction>, b: seq<ControlAction>, latest: map<string, string>)
    requires BatchOf(a, latest) && BatchOf(b, latest)
    ensures a == b
  {
    assert forall x :: x in a <==> x in b by {
      forall x | x in a || x in b ensures x in a && x in b {
        assert x == ControlAction(x.metric, latest[x.metric]);
      }
    }
    SortedSetsAreEqual(a, b);
  }

  lemma {:induction false} SortedSetsAreEqual(a: seq<ControlAction>, b: seq<ControlAction>)
    requires StrictlySorted(a) && StrictlySorted(b)
    requires forall x :: x in a <==> x in b
    ensures a == b
  {
    assert a != [] ==> a[0] in b;
    assert b != [] ==> b[0] in a;
    if a != [] && b != [] {
      HeadIsLeast(a);
      HeadIsLeast(b);
      LessIsTotal(a[0].metric, b[0].metric);
      SortedSetsAreEqual(a[1..], b[1..]);
      assert a == [a[0]] + a[1..] && b == [b[0]] + b[1..];
    }
  }

  // ---------------------------------------------------------------- coalescing

  /** Producers put, the worker drains; a drain records the batch it was handed. */
  datatype Op = Put(metric: string, value: string) | Drain(batch: seq<ControlAction>)

  function Pending(ops: seq<Op>): map<string, string> {
    if ops == [] then map[]
    else match ops[|ops| - 1]
      case Put(m, v) => Enqueued(Pending(ops[..|ops| - 1]), m, v)
      case Drain(_) => map[]
  }

  predicate Legal(ops: seq<Op>) {
    ops == []
    || (Legal(ops[..|ops| - 1])
        && (ops[|ops| - 1].Drain? ==> BatchOf(ops[|ops| - 1].batch, Pending(ops[..|ops| - 1]))))
  }

  /** Everything the worker was handed, in order. */
  function Delivered(ops: seq<Op>): seq<ControlAction> {
    if ops == [] then []
    else
      var before := Delivered(ops[..|ops| - 1]);
      match ops[|ops| - 1] case Put(_, _) => before case Drain(batch) => before + batch
  }

  /** Setting the device's metrics one action at a time. */
  function Apply(device: map<string, string>, actions: seq<ControlAction>): map<string, string> {
    if actions == [] then device
    else
      var a := actions[|actions| - 1];
      Apply(device, actions[..|actions| - 1])[a.metric := a.value]
  }

  /** The device had every put reached it at once, none merged with a later one. */
  function ApplyEveryPut(device: map<string, string>, ops: seq<Op>): map<string, string> {
    if ops == [] then device
    else
      var before := ApplyEveryPut(device, ops[..|ops| - 1]);
      match ops[|ops| - 1]
      case Put(m, v) => if Blank(m) || Blank(v) then before else before[TrimSpace(m) := TrimSpace(v)]
      case Drain(_) => before
  }

  lemma {:induction false} ApplyAppended(device: map<string, string>, a: seq<ControlAction>, b: seq<ControlAction>)
    ensures Apply(device, a + b) == Apply(Apply(device, a), b)
  {
    if b == [] {
      assert a + b == a;
    } else {
      assert (a + b)[..|a + b| - 1] == a + b[..|b| - 1];
      ApplyAppended(device, a, b[..|b| - 1]);
    }
  }

  lemma ApplyNone(device: map<string, string>)
    ensures Apply(device, []) == device
  {
  }

  predicate Sets(actions: seq<ControlAction>, m: string) {
    exists i :: 0 <= i < |actions| && actions[i].metric == m
  }

  lemma {:induction false} ApplyTaken(device: map<string, string>, actions: seq<ControlAction>,
                                      latest: map<string, string>, m: string)
    requires TakenFrom(actions, latest)
    ensures Sets(actions, m) ==> m in latest && m in Apply(device, actions) && Apply(device, actions)[m] == latest[m]
    ensures !Sets(actions, m) ==> (m in Apply(device, actions) <==> m in device)
    ensures !Sets(actions, m) && m in device ==> Apply(device, actions)[m] == device[m]
  {
    if actions != [] {
      var front, last := actions[..|actions| - 1], actions[|actions| - 1];
      assert last in actions && forall a :: a in front ==> a in actions;
      ApplyTaken(device, front, latest, m);
      if Sets(front, m) {
        var i :| 0 <= i < |front| && front[i].metric == m;
        assert actions[i].metric == m;
      } else if last.metric != m {
        assert !Sets(actions, m);
      }
    }
  }

  /** Draining a batch brings the device exactly up to date with the pending map. */
  lemma ApplyBatch(device: map<string, string>, actions: seq<ControlAction>, latest: map<string, string>)
    requires BatchOf(actions, latest)
    ensures Apply(device, actions) == device + latest
  {
    forall m
      ensures m in Apply(device, actions) <==> m in device + latest
      ensures m in device + latest ==> Apply(device, actions)[m] == (device + latest)[m]
    {
      ApplyTaken(device, actions, latest, m);
      if m in latest {
        assert ControlAction(m, latest[m]) in actions;
      }
    }
  }

  lemma PutOnTop(device: map<string, string>, latest: map<string, string>, m: string, v: string)
    ensures device + Enqueued(latest, m, v)
            == if Blank(m) || Blank(v) then device + latest else (device + latest)[TrimSpace(m) := TrimSpace(v)]
  {
    hide TrimSpace;
  }

  /**
   Coalescing loses nothing but stale values: wherever the drains fall, the
   delivered batches followed by what is still pending set the device as every
   put in order would have.
   */
  lemma {:induction false} CoalescingPreservesMeaning(device: map<string, string>, ops: seq<Op>)
    requires Legal(ops)
    ensures Apply(device, Delivered(ops)) + Pending(ops) == ApplyEveryPut(device, ops)
  {
    hide Apply, Enqueued, StrictlySorted, TakenFrom;
    ApplyNone(device);
    if ops != [] {
      var before := ops[..|ops| - 1];
      CoalescingPreservesMeaning(device, before);
      var reached, pending := Apply(device, Delivered(before)), Pending(before);
      match ops[|ops| - 1]
      case Put(m, v) =>
        PutOnTop(reached, pending, m, v);
        assert Delivered(ops) == Delivered(before);
      case Drain(batch) =>
        ApplyAppended(device, Delivered(before), batch);
        ApplyBatch(reached, batch, pending);
        assert Delivered(ops) == Delivered(before) + batch;
        assert Pending(ops) == map[];
    }
  }

  // ------------------------------------------------------------------- wake-up

  /**
   The queue shared by any number of producers and consumers, cut where its lock
   is released: `sending` producers have stored a value and not yet offered the
   token, `draining` consumers have taken a token and not yet drained.
   */
  datatype Shared = Shared(latest: map<string, string>, token: bool, sending: nat, draining: nat)

  datatype Move =
    | Store(metric: string, value: string)
    | Offer
    | Take
    | DrainAfterTake
    | DrainUnasked

  const START := Shared(map[], false, 0, 0)

  function Next(s: Shared, move: Move): Shared {
    match move
    case Store(m, v) =>
      if Blank(m) || Blank(v) then s
      else s.(latest := Enqueued(s.latest, m, v), sending := s.sending + 1)
    case Offer => if s.sending == 0 then s else s.(token := true, sending := s.sending - 1)
    case Take => if !s.token then s else s.(token := false, draining := s.draining + 1)
    case DrainAfterTake => if s.draining == 0 then s else s.(latest := map[], draining := s.draining - 1)
    case DrainUnasked => s.(latest := map[])
  }

  function Reached(moves: seq<Move>): Shared {
    if moves == [] then START else Next(Reached(moves[..|moves| - 1]), moves[|moves| - 1])
  }

  /** A pending action always has a token, or someone on the way to one or past one. */
  lemma {:induction false} NoStrandedAction(moves: seq<Move>)
    ensures var s := Reached(moves);
            s.latest != map[] ==> s.token || s.sending > 0 || s.draining > 0
  {
    if moves != [] {
      NoStrandedAction(moves[..|moves| - 1]);
    }
  }
}
