/** When a periodic that repeats by an interval is due next. */
module Periodics {

  import opened Watchers

  const MIN_INTERVAL: Tstamp := 0.0001220703125   // 1/2**13

  function Times(c: real, a: real): real { c * a }

  /** The k-th time of a periodic. */
  function Nth(offset: Tstamp, interval: Tstamp, k: int): Tstamp {
    offset + Times(interval, k as real)
  }

  function Ratio(a: real, c: real): real
    requires c > 0.0
  {
    a / c
  }

  lemma TimesMore(c: real, a: real)
    ensures Times(c, a + 1.0) == Times(c, a) + c
  {
  }

  lemma TimesOrder(c: real, a: real, b: real)
    requires c > 0.0
    ensures a <= b ==> Times(c, a) <= Times(c, b)
    ensures a < b ==> Times(c, a) < Times(c, b)
  {
  }

  lemma TimesRatio(a: real, c: real)
    requires c > 0.0
    ensures Times(c, Ratio(a, c)) == a
  {
  }

  /** How often the interval fits. */
  lemma FloorBelow(offset: Tstamp, interval: Tstamp, now: Tstamp)
    requires interval > 0.0
    ensures var k := Ratio(now - offset, interval).Floor;
            Nth(offset, interval, k) <= now < Nth(offset, interval, k) + interval
  {
    hide Times, Ratio;
    var x := Ratio(now - offset, interval);
    var f := x.Floor as real;
    TimesRatio(now - offset, interval);
    TimesOrder(interval, f, x);
    TimesOrder(interval, x, f + 1.0);
    TimesMore(interval, f);
  }

  lemma NthMore(offset: Tstamp, interval: Tstamp, k: int)
    ensures Nth(offset, interval, k + 1) == Nth(offset, interval, k) + interval
  {
    hide Times;
    TimesMore(interval, k as real);
  }

  /** The first one is at the offset. */
  lemma NthIs(offset: Tstamp, interval: Tstamp, k: int)
    ensures Nth(offset, interval, 0) == offset && Nth(offset, interval, k + 1) == Nth(offset, interval, k) + interval
  {
    NthMore(offset, interval, k);
  }

  /** Times come one interval after the other. */
  lemma NextIsLeast(offset: Tstamp, interval: Tstamp, now: Tstamp, k: int, j: int)
    requires interval > 0.0 && Nth(offset, interval, k) <= now + interval && Nth(offset, interval, j) > now
    ensures Nth(offset, interval, k) <= Nth(offset, interval, j)
  {
    hide Times;
    if j < k {
      NthMore(offset, interval, j);
      TimesOrder(interval, (j + 1) as real, k as real);
    } else {
      TimesOrder(interval, k as real, j as real);
    }
  }

  /** One interval less fits one time less. */
  lemma Closer(d: real, interval: real)
    requires d >= 0.0 && interval > 0.0
    ensures Ratio(d - interval, interval) == Ratio(d, interval) - 1.0 && Ratio(d, interval) >= 0.0
  {
    hide Times, Ratio;
    var x, y := Ratio(d, interval), Ratio(d - interval, interval);
    TimesRatio(d, interval);
    TimesRatio(d - interval, interval);
    TimesMore(interval, x - 1.0);
    TimesOrder(interval, y, x - 1.0);
    TimesOrder(interval, x - 1.0, y);
    TimesZero(interval);
    TimesOrder(interval, x, 0.0);
  }

  lemma TimesZero(c: real)
    ensures Times(c, 0.0) == 0.0
  {
  }

  /** The first of the times after now; for an interval below MIN_INTERVAL only some time between now and now + interval. */
  ghost predicate IsNext(offset: Tstamp, interval: Tstamp, now: Tstamp, at: Tstamp) {
    && now < at <= now + interval
    && (interval >= MIN_INTERVAL ==>
          && (exists k: int :: at == Nth(offset, interval, k))
          && (forall j: int :: Nth(offset, interval, j) > now ==> at <= Nth(offset, interval, j)))
  }

  /** periodic_recalc */
  method Recalc(offset: Tstamp, interval: Tstamp, now: Tstamp) returns (at: Tstamp)
    requires interval > 0.0
    ensures IsNext(offset, interval, now, at)
  {
    hide Times, Ratio, Nth;
    var step := if interval > MIN_INTERVAL then interval else MIN_INTERVAL;
    var k := Ratio(now - offset, step).Floor;
    at := Nth(offset, step, k);
    FloorBelow(offset, step, now);
    while at <= now
      invariant at <= now + interval
      invariant interval >= MIN_INTERVAL ==> at == Nth(offset, interval, k)
      decreases Ratio(now - at, interval).Floor + 1
    {
      NthMore(offset, interval, k);
      Closer(now - at, interval);
      assert now - (at + interval) == now - at - interval;
      at, k := at + interval, k + 1;
    }
    if interval >= MIN_INTERVAL {
      forall j: int | Nth(offset, interval, j) > now ensures at <= Nth(offset, interval, j) {
        NextIsLeast(offset, interval, now, k, j);
      }
    }
  }

  /** The time of a periodic when it is started: whatever its callback returns, the next one of its interval, or its
      offset. */
  ghost predicate FirstTime(x: Watcher, now: Tstamp, t: Tstamp) {
    !x.custom ==> if x.repeat != 0.0 then IsNext(x.offset, x.repeat, now, t) else t == x.offset
  }

  /** Its time after a jump of the clock. */
  ghost predicate TimeAfterJump(x: Watcher, now: Tstamp, t: Tstamp) {
    !x.custom ==> if x.repeat != 0.0 then IsNext(x.offset, x.repeat, now, t) else t == x.at
  }

  /** Its time after it fired; the callback must not go back in time. */
  ghost predicate TimeAfterFiring(x: Watcher, now: Tstamp, t: Tstamp) {
    if x.custom then t >= now
    else if x.repeat != 0.0 then IsNext(x.offset, x.repeat, now, t)
    else t == x.at
  }
}
