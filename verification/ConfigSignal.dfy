/**
 How a collector sleeps until one of its metrics is enabled. Every configuration
 change closes the current broadcast channel and opens a new one. Channels are
 numbered: the newest is open, all earlier ones are closed.
 */
module ConfigSignal {
  import opened Wrappers

  datatype Pc =
    | First(i: nat)   // testing metric i before any channel is held
    | Fetch
    | Test(i: nat)    // testing metric i while holding a channel
    | Blocked
    | Done

  /** One collector among any number; the writers between storing and signalling are counted. */
  datatype State = State(enabled: set<string>, open: nat, unsignalled: nat,
                         metrics: seq<string>, pc: Pc, held: nat)

  datatype Move = StoreConfig(enabled: set<string>) | Signal | Collector

  /** The test over all metrics at one instant; without a way to tell, everything counts as enabled. */
  method AnyMetricEnabled(enabled: Option<set<string>>, metrics: seq<string>) returns (any: bool)
    ensures any <==> enabled.None? || exists i :: 0 <= i < |metrics| && metrics[i] in enabled.value
  {
    if enabled.None? {
      return true;
    }
    for i := 0 to |metrics|
      invariant forall j :: 0 <= j < i ==> metrics[j] !in enabled.value
    {
      if metrics[i] in enabled.value {
        return true;
      }
    }
    return false;
  }

  /** One step of the collector. Each metric is tested under its own lock. */
  function Run(s: State): State {
    match s.pc
    case First(i) =>
      if i >= |s.metrics| then s.(pc := Fetch)
      else if s.metrics[i] in s.enabled then s.(pc := Done) else s.(pc := First(i + 1))
    case Fetch => s.(held := s.open, pc := Test(0))
    case Test(i) =>
      if i >= |s.metrics| then s.(pc := Blocked)
      else if s.metrics[i] in s.enabled then s.(pc := Done) else s.(pc := Test(i + 1))
    case Blocked => if s.held < s.open then s.(pc := Fetch) else s
    case Done => s
  }

  function Next(s: State, move: Move): State {
    match move
    case StoreConfig(e) => s.(enabled := e, unsignalled := s.unsignalled + 1)
    case Signal => if s.unsignalled == 0 then s else s.(open := s.open + 1, unsignalled := s.unsignalled - 1)
    case Collector => Run(s)
  }

  function Reached(s: State, moves: seq<Move>): State {
    if moves == [] then s else Next(Reached(s, moves[..|moves| - 1]), moves[|moves| - 1])
  }

  /** A collector that starts at any moment of the writers' work. */
  predicate Starts(s: State) {
    s.pc == First(0) && s.held <= s.open
  }

  /** How many metrics have been found disabled since the held channel was fetched. */
  function TestedSinceFetch(s: State): nat {
    match s.pc case Test(i) => (if i <= |s.metrics| then i else |s.metrics|) case Blocked => |s.metrics| case _ => 0
  }

  predicate Inv(s: State) {
    && s.held <= s.open
    && (s.held == s.open && s.unsignalled == 0 ==>
          forall j :: 0 <= j < TestedSinceFetch(s) ==> s.metrics[j] !in s.enabled)
  }

  lemma {:induction false} InvHolds(s: State, moves: seq<Move>)
    requires Starts(s)
    ensures Inv(Reached(s, moves)) && Reached(s, moves).metrics == s.metrics
  {
    if moves != [] {
      InvHolds(s, moves[..|moves| - 1]);
    }
  }

  /**
   No lost wake-up: a collector asleep on the channel that is still open has
   nothing to do, unless a writer is about to signal.
   */
  lemma NoLostWakeUp(s: State, moves: seq<Move>)
    requires Starts(s)
    ensures var t := Reached(s, moves);
            t.pc == Blocked && t.held == t.open && t.unsignalled == 0 ==>
              forall m :: m in t.metrics ==> m !in t.enabled
  {
    InvHolds(s, moves);
  }

  /** And a collector goes to work only when, at that moment, one of its metrics is enabled. */
  lemma {:induction false} WorksOnlyWhenEnabled(s: State, moves: seq<Move>)
    requires Starts(s) && Reached(s, moves).pc == Done
    ensures exists k :: 0 <= k < |moves| && SeesWork(Reached(s, moves[..k]))
  {
    var front := moves[..|moves| - 1];
    if Reached(s, front).pc == Done {
      WorksOnlyWhenEnabled(s, front);
      var k :| 0 <= k < |front| && SeesWork(Reached(s, front[..k]));
      assert moves[..k] == front[..k];
    } else {
      assert moves[..|front|] == front && SeesWork(Reached(s, front));
    }
  }

  predicate SeesWork(s: State) {
    exists m :: m in s.metrics && m in s.enabled
  }

  function RunFor(s: State, steps: nat): State
    decreases steps
  {
    if steps == 0 then s else RunFor(Run(s), steps - 1)
  }

  /** Steps the collector still needs once the writers are quiet. */
  function Rank(s: State): nat {
    var n := |s.metrics|;
    match s.pc
    case Done => 0
    case Test(i) => (if s.held == s.open then 1 else n + 4) + (if i <= n then n - i else 0)
    case Fetch => n + 2
    case Blocked => n + 3
    case First(i) => 2 * n + 6 + (if i <= n then n - i else 0)
  }

  /** And it does wake: once the writers are quiet it finishes within 3n + 6 of its own steps. */
  lemma {:induction false} WakesUp(s: State)
    requires Inv(s) && s.unsignalled == 0
    requires exists m :: m in s.metrics && m in s.enabled
    ensures RunFor(s, Rank(s)).pc == Done
    ensures Rank(s) <= 3 * |s.metrics| + 6
    decreases Rank(s)
  {
    if s.pc != Done {
      var t := Run(s);
      assert Inv(t);
      var m :| m in s.metrics && m in s.enabled;
      var k :| 0 <= k < |s.metrics| && s.metrics[k] == m;
      assert Rank(t) < Rank(s);
      WakesUp(t);
      StaysDone(t, Rank(t), Rank(s) - 1);
    }
  }

  lemma {:induction false} StaysDone(s: State, few: nat, many: nat)
    requires few <= many && RunFor(s, few).pc == Done
    ensures RunFor(s, many).pc == Done
    decreases many
  {
    if few > 0 {
      StaysDone(Run(s), few - 1, many - 1);
    } else if many > 0 {
      StaysDone(Run(s), 0, many - 1);
    }
  }
}
