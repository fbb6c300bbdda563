/**
 Percent conversion between the monitor's raw brightness scale and 0..100, in
 both directions, with the unsigned 32- and 64-bit arithmetic of the callers.
 */
module Brightness {
  import opened Wrappers

  const TWO_32 := 0x1_0000_0000
  const TWO_64 := 0x1_0000_0000_0000_0000

  function Clamp(percent: int): (p: nat)
    ensures p <= 100
    ensures 0 <= percent <= 100 ==> p == percent
  {
    if percent < 0 then 0 else if percent > 100 then 100 else percent
  }

  /** The offset above the minimum that stands for `percent` on a scale of `range` steps. */
  function Offset(range: nat, percent: nat): nat {
    (range * percent + 50) / 100
  }

  /** Wrapping leaves a number that fits alone. */
  lemma FitsIn(n: nat, width: nat)
    requires n < width
    ensures n % width == n
  {
  }

  /** The same offset in wrapping arithmetic: 64 bits inside, narrowed to 32 at the end. */
  function ScaledStep(range: nat, percent: nat): (step: nat)
    requires range < TWO_32 && percent <= 100
    ensures step == Offset(range, percent)
  {
    ProductBound(range, percent, TWO_32, 100);
    OffsetBounds(range, percent);
    var scaled := range * percent;
    FitsIn(scaled + 50, TWO_64);
    FitsIn((scaled + 50) / 100, TWO_32);
    (scaled + 50) % TWO_64 / 100 % TWO_32
  }

  /** The raw value written for a requested percent, or None when the monitor reports no range. */
  method WriteRaw(min: nat, max: nat, requested: int) returns (raw: Option<nat>)
    requires min < TWO_32 && max < TWO_32
    ensures raw.None? <==> max <= min
    ensures raw.Some? ==>
              && raw.value == min + Offset(max - min, Clamp(requested))
              && min <= raw.value <= max
              && (requested <= 0 ==> raw.value == min) && (requested >= 100 ==> raw.value == max)
  {
    hide Offset, ScaledStep;
    var percent := Clamp(requested);
    if max <= min {
      return None;
    }
    var range := max - min;
    OffsetBounds(range, percent);
    var step := ScaledStep(range, percent);
    var newVal := (min + step) % TWO_32;
    if newVal < min {
      newVal := min;
    }
    if newVal > max {
      newVal := max;
    }
    return Some(newVal);
  }

  /** The percent read back from the raw triple the monitor reports, or None without a range. */
  method ReadPercent(min: nat, current: nat, max: nat) returns (r: Option<nat>)
    requires min < TWO_32 && max < TWO_32 && current < TWO_32
    ensures r.None? <==> max <= min
    ensures r.Some? ==>
              var c := Within(min, current, max) - min;
              && r.value == Clamp(Reading(c, max - min))
              && (c * 100 < TWO_32 ==> r.value == c * 100 / (max - min))
  {
    if max <= min {
      return None;
    }
    var cur := current;
    if cur < min {
      cur := min;
    }
    if cur > max {
      cur := max;
    }
    var percent := Reading(cur - min, max - min);
    if percent > 100 {
      percent := 100;
    }
    if (cur - min) * 100 < TWO_32 {
      FitsIn((cur - min) * 100, TWO_32);
      ReadingBound(cur - min, max - min);
    }
    return Some(percent);
  }

  /** The quotient in wrapping arithmetic, before it is capped. */
  function Reading(c: nat, range: nat): nat
    requires range >= 1
  {
    c * 100 % TWO_32 / range
  }

  function Within(min: nat, current: nat, max: nat): nat
    requires min <= max
  {
    if current < min then min else if current > max then max else current
  }

  /** The ends of a scale, and what a monitor may report beyond them, read as 0 and, unless it wraps, as 100. */
  lemma EndsReadExactly(min: nat, current: nat, max: nat)
    requires min < max
    ensures var percent := Clamp(Reading(Within(min, current, max) - min, max - min));
            (current <= min ==> percent == 0) && (current >= max && (max - min) * 100 < TWO_32 ==> percent == 100)
  {
    hide Within;
    WithinIs(min, current, max);
    if current >= max && (max - min) * 100 < TWO_32 {
      FitsIn((max - min) * 100, TWO_32);
      QuotientIs((max - min) * 100, max - min, 100);
    }
  }

  lemma WithinIs(min: nat, current: nat, max: nat)
    requires min <= max
    ensures min <= Within(min, current, max) <= max
    ensures current <= min ==> Within(min, current, max) == min
    ensures current >= max ==> Within(min, current, max) == max
    ensures min <= current <= max ==> Within(min, current, max) == current
  {
  }

  lemma ProductBound(a: nat, b: nat, x: nat, y: nat)
    requires a <= x && b <= y
    ensures a * b <= x * y
  {
    assert a * b <= x * b <= x * y;
  }

  lemma OffsetBounds(range: nat, percent: nat)
    requires percent <= 100
    ensures Offset(range, percent) <= range
    ensures Offset(range, 0) == 0 && Offset(range, 100) == range
  {
    ProductBound(range, percent, range, 100);
  }

  lemma ReadingBound(c: nat, range: nat)
    requires range >= 1 && c <= range
    ensures c * 100 / range <= 100
  {
    var q := c * 100 / range;
    assert q * range <= c * 100;
    if q > 100 {
      ProductBound(101, range, q, range);
      assert false;
    }
  }

  /** A larger percent never writes a smaller value. */
  lemma OffsetIsMonotone(range: nat, p: nat, q: nat)
    requires p <= q
    ensures Offset(range, p) <= Offset(range, q)
  {
    ProductBound(range, p, range, q);
  }

  /** Quotients by a positive divisor are pinned by two products. */
  lemma QuotientIs(a: nat, d: nat, q: nat)
    requires d > 0 && q * d <= a < (q + 1) * d
    ensures a / d == q
  {
    var r := a / d;
    assert r * d <= a < (r + 1) * d;
    if r > q {
      ProductBound(q + 1, d, r, d);
      assert false;
    } else if r < q {
      ProductBound(r + 1, d, q, d);
      assert false;
    }
  }

  /** The percent a scale of `range` steps reads back after `percent` was written. */
  function ReadBack(range: nat, percent: nat): nat
    requires range >= 1
  {
    Clamp(Reading(Offset(range, percent), range))
  }

  predicate WithinOne(range: nat, p: nat)
    requires range >= 1
  {
    ReadBack(range, p) == p || ReadBack(range, p) == p - 1
  }

  /** On a scale whose products fit, the reading is the exact quotient, and at most 100. */
  lemma FittingReading(range: nat, c: nat)
    requires range >= 1 && c <= range && c * 100 < TWO_32
    ensures Clamp(Reading(c, range)) == c * 100 / range
  {
    FitsIn(c * 100, TWO_32);
    ReadingBound(c, range);
  }

  lemma WideScaleReadsBack(range: nat, p: nat)
    requires range > 50 && range * 100 < TWO_32 && p <= 100
    ensures WithinOne(range, p)
  {
    var w := Offset(range, p);
    OffsetBounds(range, p);
    FittingReading(range, w);
    var product := range * p;
    assert product - 49 <= 100 * w <= product + 50;
    if 100 * w >= product {
      assert (p + 1) * range == product + range;
      QuotientIs(w * 100, range, p);
    } else {
      assert (p - 1) * range == product - range;
      QuotientIs(w * 100, range, p - 1);
    }
  }

  lemma NarrowScaleOvershoots(range: nat) returns (p: nat)
    requires 1 <= range <= 50
    ensures p <= 100 && !WithinOne(range, p)
  {
    p := if range % 2 == 0 then 49 else 50;
    OffsetBounds(range, p);
    FittingReading(range, Offset(range, p));
    if range % 2 == 0 {
      assert Offset(range, 49) == range / 2;
      QuotientIs(Offset(range, 49) * 100, range, 50);
    } else {
      OddScaleOvershoots(range);
    }
  }

  lemma OddScaleOvershoots(range: nat)
    requires 1 <= range <= 50 && range % 2 == 1
    ensures Offset(range, 50) * 100 / range >= 51
  {
    var w := Offset(range, 50);
    assert w == (range + 1) / 2;
    assert w * 100 == 50 * range + 50;
    assert w * 100 >= 51 * range;
    QuotientAtLeast(w * 100, range, 51);
  }

  lemma QuotientAtLeast(a: nat, d: nat, q: nat)
    requires d > 0 && q * d <= a
    ensures a / d >= q
  {
    var r := a / d;
    assert a < (r + 1) * d;
    if r < q {
      ProductBound(r + 1, d, q, d);
      assert false;
    }
  }

  /** Where the product wraps, the top of the scale reads below 99. */
  lemma WrappedTopReadsLow(range: nat)
    requires range < TWO_32 && range * 100 >= TWO_32
    ensures Reading(range, range) < 99
  {
    var wrapped := range * 100 % TWO_32;
    var k := range * 100 / TWO_32;
    assert k >= 1 && range * 100 == k * TWO_32 + wrapped;
    assert wrapped <= range * 100 - TWO_32 < range * 99;
    assert wrapped / range * range <= wrapped;
    assert wrapped / range < 99;
  }

  /**
   Reading back every written percent gives it or one less exactly on scales of more
   than fifty steps whose products fit 32 bits.
   */
  lemma ReadBackIsClose(range: nat)
    requires 1 <= range < TWO_32
    ensures (forall p: nat | p <= 100 :: WithinOne(range, p)) <==> range > 50 && range * 100 < TWO_32
  {
    if range <= 50 {
      var p := NarrowScaleOvershoots(range);
    } else if range * 100 < TWO_32 {
      forall p: nat | p <= 100 ensures WithinOne(range, p) {
        WideScaleReadsBack(range, p);
      }
    } else {
      OffsetBounds(range, 100);
      WrappedTopReadsLow(range);
      assert !WithinOne(range, 100);
    }
  }

  /** The position written back after a reading of `c`. */
  function WriteBack(range: nat, c: nat): nat
    requires range >= 1
  {
    Offset(range, Clamp(Reading(c, range)))
  }

  /** Writing back a reading dims the screen by a bounded step at most. */
  predicate WritesBackClose(range: nat, c: nat)
    requires range >= 1
  {
    c - (range + 48) / 100 <= WriteBack(range, c)
  }

  lemma FittingWriteBack(range: nat, c: nat)
    requires range >= 1 && c <= range && c * 100 < TWO_32
    ensures WritesBackClose(range, c)
  {
    FittingReading(range, c);
    var p := c * 100 / range;
    var product := range * p;
    assert product == p * range;
    assert p * range <= c * 100 < (p + 1) * range;
    assert (p + 1) * range == p * range + range;
    assert 100 * c - (range - 1) <= product <= 100 * c;
  }

  lemma WrappingLowers(n: nat, width: nat)
    requires width > 0
    ensures n % width <= n
  {
  }

  lemma QuotientFloor(n: nat, d: nat)
    requires d > 0
    ensures n / d * d <= n
  {
  }

  lemma ReadingIsLow(range: nat, c: nat)
    requires range >= 1
    ensures Reading(c, range) * range <= c * 100
  {
    var wrapped := c * 100 % TWO_32;
    WrappingLowers(c * 100, TWO_32);
    QuotientFloor(wrapped, range);
  }

  lemma LowReadingRaisesNothing(range: nat, q: nat, c: nat)
    requires q * range <= c * 100
    ensures Offset(range, Clamp(q)) <= c
  {
    ProductBound(Clamp(q), range, q, range);
    assert range * Clamp(q) == Clamp(q) * range;
  }

  /** It never brightens it, whatever the product does: a wrapped product only reads lower. */
  lemma WriteBackNeverRaises(range: nat, c: nat)
    requires range >= 1 && c <= range
    ensures WriteBack(range, c) <= c
  {
    hide Offset, Clamp, Reading;
    ReadingIsLow(range, c);
    LowReadingRaisesNothing(range, Reading(c, range), c);
  }

  /** The bound on the step holds at every position of a scale if and only if its products fit 32 bits. */
  lemma WriteBackIsClose(range: nat)
    requires 1 <= range < TWO_32
    ensures (forall c: nat | c <= range :: WritesBackClose(range, c)) <==> range * 100 < TWO_32
  {
    if range * 100 < TWO_32 {
      forall c: nat | c <= range ensures WritesBackClose(range, c) {
        FittingWriteBack(range, c);
      }
    } else {
      WrappedTopReadsLow(range);
      var p := Clamp(Reading(range, range));
      ProductBound(range, p, range, 98);
      assert WriteBack(range, range) <= (range * 98 + 50) / 100;
      assert !WritesBackClose(range, range);
    }
  }

  predicate ReadsExactly(range: nat, c: nat)
    requires range >= 1
  {
    Reading(c, range) == c * 100 / range
  }

  /** Every position of a scale is read exactly if and only if the widest product fits 32 bits. */
  lemma ReadingIsExactUnlessItWraps(range: nat)
    requires range >= 1
    ensures (forall c: nat | c <= range :: ReadsExactly(range, c)) <==> range * 100 < TWO_32
  {
    if range * 100 < TWO_32 {
      forall c: nat | c <= range ensures ReadsExactly(range, c) {
        FitsIn(c * 100, TWO_32);
      }
    } else {
      var wrapped := range * 100 % TWO_32;
      assert wrapped < range * 100;
      assert wrapped / range * range <= wrapped;
      assert wrapped / range < 100;
      QuotientIs(range * 100, range, 100);
      assert !ReadsExactly(range, range);
    }
  }
}
