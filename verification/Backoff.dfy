/** The waits between recovery attempts, in nanoseconds. */
module Backoff {

  const SECOND := 1_000_000_000
  const INITIAL_DELAY := 1 * SECOND
  const MAX_DELAY := 30 * SECOND

  function Pow2(k: nat): (p: nat)
    ensures p >= 1
  {
    if k == 0 then 1 else 2 * Pow2(k - 1)
  }

  function Min(a: int, b: int): int { if a <= b then a else b }

  /** The first wait: a non-positive setting falls back to one second. */
  function FirstDelay(initial: int): (d: int)
    ensures d > 0
  {
    if initial <= 0 then SECOND else initial
  }

  /** Doubling from the first wait up to the maximum; a first wait beyond it is kept. */
  function WaitAt(initial: int, max: int, k: nat): int {
    var first := FirstDelay(initial);
    if first >= max then first else Min(first * Pow2(k), max)
  }

  /** The values `delay` takes over `attempts` failed attempts of one loop. */
  method Waits(initial: int, max: int, attempts: nat) returns (waits: seq<int>)
    ensures |waits| == attempts
    ensures forall k :: 0 <= k < attempts ==> waits[k] == WaitAt(initial, max, k)
  {
    var delay := initial;
    waits := [];
    for k := 0 to attempts
      invariant |waits| == k
      invariant forall j :: 0 <= j < k ==> waits[j] == WaitAt(initial, max, j)
      invariant delay == if k == 0 then initial else WaitAt(initial, max, k)
      invariant k > 0 ==> delay > 0
    {
      if delay <= 0 {
        delay := SECOND;
      }
      waits := waits + [delay];
      NextWait(initial, max, k);
      if delay < max {
        delay := delay * 2;
        if delay > max {
          delay := max;
        }
      }
    }
  }

  /** From one wait to the next: a first of one second if none is set, doubled while below the maximum, up to it. */
  lemma NextWait(initial: int, max: int, k: nat)
    ensures WaitAt(initial, max, 0) == if initial <= 0 then 1_000_000_000 else initial
    ensures var w := WaitAt(initial, max, k);
            && w > 0
            && WaitAt(initial, max, k + 1) == if w >= max then w else if 2 * w <= max then 2 * w else max
  {
    var first, p := FirstDelay(initial), Pow2(k);
    assert first * Pow2(k + 1) == 2 * (first * p);
    assert first * p >= first;
  }

  /** Waits never shrink and, for settings in order, stay between the two of them. */
  lemma {:induction false} WaitsGrow(initial: int, max: int, j: nat, k: nat)
    requires j <= k
    ensures WaitAt(initial, max, j) <= WaitAt(initial, max, k)
    ensures 0 < initial <= max ==> initial <= WaitAt(initial, max, k) <= max
    decreases k
  {
    NextWait(initial, max, k);
    if j < k {
      NextWait(initial, max, k - 1);
      WaitsGrow(initial, max, j, k - 1);
    } else if k > 0 {
      NextWait(initial, max, k - 1);
      WaitsGrow(initial, max, k - 1, k - 1);
    }
  }

  /** With the runtime's own settings the waits are 1, 2, 4, 8 and 16 seconds, and 30 from then on. */
  lemma {:induction false} DefaultWaits(k: nat)
    ensures WaitAt(INITIAL_DELAY, MAX_DELAY, k) == SECOND * if k < 5 then Pow2(k) else 30
  {
    if k < 5 {
      assert Pow2(k) <= 16;
    } else {
      PowersGrow(5, k);
      assert Pow2(5) == 32;
    }
  }

  lemma {:induction false} PowersGrow(j: nat, k: nat)
    requires j <= k
    ensures Pow2(j) <= Pow2(k)
  {
    if j < k {
      PowersGrow(j, k - 1);
    }
  }
}
