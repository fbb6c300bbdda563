/** The bounded queue of notification events: when it is full the oldest is dropped. */
module EventQueue {

  const DEFAULT_CAPACITY := 128

  /** What one queue holds and has dropped, and what its drains have handed out. */
  datatype History<T> = History(items: seq<T>, dropped: nat, delivered: seq<T>)

  datatype Op<T> = Put(event: T) | Drain

  function Room(capacity: int): nat {
    if capacity <= 0 then 0 else capacity
  }

  function Step<T>(capacity: int, h: History<T>, op: Op<T>): History<T> {
    match op
    case Drain => History([], h.dropped, h.delivered + h.items)
    case Put(e) =>
      if capacity <= 0 then h.(dropped := h.dropped + 1)
      else if |h.items| >= capacity then h.(items := h.items[1..] + [e], dropped := h.dropped + 1)
      else h.(items := h.items + [e])
  }

  class Queue<T> {
    var cap: int
    var items: seq<T>
    var dropped: nat
    ghost var delivered: seq<T>  // everything drained so far

    ghost predicate Valid() reads this {
      |items| <= Room(cap)
    }

    ghost function View(): History<T> reads this {
      History(items, dropped, delivered)
    }

    constructor (capacity: int)
      ensures Valid() && View() == History([], 0, [])
      ensures cap == if capacity <= 0 then DEFAULT_CAPACITY else capacity
    {
      cap := if capacity <= 0 then DEFAULT_CAPACITY else capacity;
      items := [];
      dropped := 0;
      delivered := [];
    }

    method Enqueue(evt: T)
      requires Valid()
      modifies this`items, this`dropped
      ensures Valid() && View() == Step(cap, old(View()), Put(evt))
    {
      if cap <= 0 {
        dropped := dropped + 1;
        return;
      }
      if |items| >= cap {
        items := items[1..] + [evt];
        dropped := dropped + 1;
        return;
      }
      items := items + [evt];
    }

    method DequeueAll() returns (out: seq<T>)
      requires Valid()
      modifies this`items, this`delivered
      ensures Valid() && View() == Step(cap, old(View()), Drain)
      ensures out == old(items)
    {
      if |items| == 0 {
        return [];
      }
      out := items;
      items := [];
      delivered := delivered + out;
    }
  }

  /** A queue's history over a run of operations, from empty. */
  function Play<T>(capacity: int, ops: seq<Op<T>>): History<T> {
    if ops == [] then History([], 0, [])
    else Step(capacity, Play(capacity, ops[..|ops| - 1]), ops[|ops| - 1])
  }

  /** Every event put, in order. */
  function AllPut<T>(ops: seq<Op<T>>): seq<T> {
    if ops == [] then []
    else
      var before := AllPut(ops[..|ops| - 1]);
      match ops[|ops| - 1] case Put(e) => before + [e] case Drain => before
  }

  /** The events put since the last drain, in order. */
  function SinceDrain<T>(ops: seq<Op<T>>): seq<T> {
    if ops == [] then []
    else match ops[|ops| - 1]
      case Put(e) => SinceDrain(ops[..|ops| - 1]) + [e]
      case Drain => []
  }

  function LastOf<T>(s: seq<T>, n: nat): seq<T> {
    if |s| <= n then s else s[|s| - n..]
  }

  /** The queue holds exactly the newest events since the last drain, as many as fit. */
  lemma {:induction false} HoldsTheNewest<T>(capacity: int, ops: seq<Op<T>>)
    ensures Play(capacity, ops).items == LastOf(SinceDrain(ops), Room(capacity))
  {
    if ops != [] {
      HoldsTheNewest(capacity, ops[..|ops| - 1]);
      match ops[|ops| - 1]
      case Put(e) => NewestAfterPut(SinceDrain(ops[..|ops| - 1]), e, Room(capacity));
      case Drain =>
    }
  }

  lemma NewestAfterPut<T>(s: seq<T>, e: T, n: nat)
    ensures LastOf(s + [e], n) ==
      if n == 0 then [] else if |s| >= n then LastOf(s, n)[1..] + [e] else s + [e]
  {
    if n > 0 && |s| >= n {
      assert LastOf(s + [e], n) == LastOf(s, n)[1..] + [e];
    }
  }

  /** No event is unaccounted for: put = delivered + held + dropped. */
  lemma {:induction false} NothingVanishes<T>(capacity: int, ops: seq<Op<T>>)
    ensures var h := Play(capacity, ops);
            |AllPut(ops)| == |h.delivered| + |h.items| + h.dropped
  {
    if ops != [] {
      NothingVanishes(capacity, ops[..|ops| - 1]);
    }
  }

  /** `part` is found in `whole` at the increasing positions `at`. */
  ghost predicate EmbedsAt<T>(part: seq<T>, whole: seq<T>, at: seq<nat>) {
    && |at| == |part|
    && (forall i :: 0 <= i < |at| ==> at[i] < |whole| && whole[at[i]] == part[i])
    && (forall i, j :: 0 <= i < j < |at| ==> at[i] < at[j])
  }

  lemma EmbedAppended<T>(part: seq<T>, whole: seq<T>, at: seq<nat>, e: T)
    requires EmbedsAt(part, whole, at)
    ensures EmbedsAt(part + [e], whole + [e], at + [|whole|])
  {
  }

  lemma EmbedWithout<T>(part: seq<T>, whole: seq<T>, at: seq<nat>, k: nat)
    requires EmbedsAt(part, whole, at) && k < |part|
    ensures EmbedsAt(part[..k] + part[k + 1..], whole, at[..k] + at[k + 1..])
  {
  }

  /** One event put: what was delivered and held so far still embeds, with the event last if it was kept. */
  lemma {:induction false} PutEmbeds<T>(capacity: int, h: History<T>, all: seq<T>, at: seq<nat>, e: T)
    returns (after: seq<nat>)
    requires EmbedsAt(h.delivered + h.items, all, at)
    ensures var g := Step(capacity, h, Put(e)); EmbedsAt(g.delivered + g.items, all + [e], after)
  {
    hide EmbedsAt;
    var kept, n := h.delivered + h.items, |h.delivered|;
    after := at;
    if capacity <= 0 {
      after := WidenEmbed(kept, all, at, e);
      return;
    }
    if |h.items| >= capacity {
      EmbedIsAligned(kept, all, at);
      EmbedWithout(kept, all, at, n);
      assert kept[..n] + kept[n + 1..] == h.delivered + h.items[1..];
      kept, after := h.delivered + h.items[1..], at[..n] + at[n + 1..];
    }
    EmbedAppended(kept, all, after, e);
    assert (kept + [e]) == h.delivered + Step(capacity, h, Put(e)).items;
    after := after + [|all|];
  }

  lemma EmbedIsAligned<T>(part: seq<T>, whole: seq<T>, at: seq<nat>)
    requires EmbedsAt(part, whole, at)
    ensures |at| == |part|
  {
  }

  /** Everything delivered, then everything held, is a subsequence of what was put. */
  lemma {:induction false} DeliversInOrder<T>(capacity: int, ops: seq<Op<T>>) returns (at: seq<nat>)
    ensures var h := Play(capacity, ops);
            EmbedsAt(h.delivered + h.items, AllPut(ops), at)
  {
    if ops == [] {
      at := [];
      return;
    }
    var before := ops[..|ops| - 1];
    var h := Play(capacity, before);
    at := DeliversInOrder(capacity, before);
    match ops[|ops| - 1]
    case Drain =>
      assert h.delivered + h.items + [] == h.delivered + h.items;
    case Put(e) =>
      at := PutEmbeds(capacity, h, AllPut(before), at, e);
  }

  lemma WidenEmbed<T>(part: seq<T>, whole: seq<T>, at: seq<nat>, e: T) returns (same: seq<nat>)
    requires EmbedsAt(part, whole, at)
    ensures EmbedsAt(part, whole + [e], same)
  {
    same := at;
  }
}
