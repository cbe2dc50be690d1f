/** The debounce timer shared by every Hermit Retro driver: one millisecond
    timestamp of the last accepted event, and the unsigned 64-bit
    "elapsed < interval" test the polls use to throw away input that comes
    too soon after it. The wall clock is a parameter: `now` is the
    millisecond value of a gettimeofday reading (see Millis). */
module GpioCommon {

  const TwoTo64: int := 0x1_0000_0000_0000_0000

  /** `unsigned long long` */
  type U64 = x: int | 0 <= x < TwoTo64

  /** The timestamp a gettimeofday reading turns into: seconds times 1000
      plus microseconds divided by 1000, in unsigned 64-bit arithmetic. */
  function Millis(sec: U64, usec: U64): (m: U64)
    ensures sec * 1000 + usec / 1000 < TwoTo64 ==> m == sec * 1000 + usec / 1000
    ensures usec < 1000000 && sec * 1000 + 999 < TwoTo64 ==> m / 1000 == sec && m % 1000 == usec / 1000
  {
    (sec * 1000 + usec / 1000) % TwoTo64
  }

  /** The unsigned difference `now - last`, which wraps when the clock has
      gone backwards. */
  function Elapsed(last: U64, now: U64): (e: U64)
    ensures now >= last ==> e == now - last
    ensures now < last ==> e == TwoTo64 - (last - now)
  {
    (now - last) % TwoTo64
  }

  /** The answer of debounceEvent: discard the event when less than
      `interval` milliseconds have elapsed since `last`. */
  predicate Discards(last: U64, now: U64, interval: U64): (d: bool)
    ensures now >= last ==> (d <==> now - last < interval)
    ensures now < last ==> (d <==> TwoTo64 - (last - now) < interval)
    ensures interval == 0 ==> !d
  {
    Elapsed(last, now) < interval
  }

  /** A poll interval scaled up while a menu is open (`interval *= factor`
      on an unsigned 64-bit value). */
  function ScaledInterval(interval: U64, factor: U64, inWidget: bool): (r: U64)
    ensures !inWidget ==> r == interval
    ensures inWidget && interval * factor < TwoTo64 ==> r == interval * factor
  {
    if inWidget then
      var product := interval * factor;
      assert product >= 0;
      product % TwoTo64
    else interval
  }

  class DebounceTimer {
    /** `lastEventTime`, the process-wide timestamp of the last accepted event */
    var lastEventTime: U64

    /** The static initialiser: the timestamp starts at 0. */
    constructor ()
      ensures lastEventTime == 0
    {
      lastEventTime := 0;
    }

    /** `gpio_common_init`: stamps the start-up time. */
    method Init(now: U64)
      modifies this
      ensures lastEventTime == now
    {
      UpdateLastEventTime(now);
    }

    /** `updateLastEventTime`: overwrites the timestamp with the clock. */
    method UpdateLastEventTime(now: U64)
      modifies this
      ensures lastEventTime == now
    {
      lastEventTime := now;
    }

    /** `debounceEvent`: true (1 in the source) when the caller should
      discard its event. It reads the timestamp and never changes it. */
    predicate DebounceEvent(interval: U64, now: U64): (d: bool)
      reads this
      ensures lastEventTime <= now ==> (d <==> now - lastEventTime < interval)
      ensures interval == 0 ==> !d
    {
      Discards(lastEventTime, now, interval)
    }
  }

  /** Right after an update in the same millisecond, every positive
      interval discards and interval 0 never does. */
  lemma DiscardsRightAfterUpdate(t: U64, interval: U64)
    ensures Discards(t, t, interval) <==> interval > 0
    ensures !Discards(t, t, 0)
  {
  }

  /** Discarding is monotone in the interval. */
  lemma DiscardsMonotoneInInterval(last: U64, now: U64, i: U64, j: U64)
    requires i <= j
    ensures Discards(last, now, i) ==> Discards(last, now, j)
    ensures !Discards(last, now, j) ==> !Discards(last, now, i)
  {
  }

  /** With the clock moving forward and no update in between, an accepted
      event stays accepted at every later time. */
  lemma AcceptStaysAccepted(last: U64, t: U64, t': U64, interval: U64)
    requires last <= t <= t'
    requires !Discards(last, t, interval)
    ensures !Discards(last, t', interval)
  {
  }

  /** If the clock has gone backwards the unsigned difference wraps, and the
      event is accepted for every interval that does not reach past 2^64
      from the stored timestamp. */
  lemma BackwardsClockAccepts(last: U64, now: U64, interval: U64)
    requires now < last
    requires last + interval <= TwoTo64
    ensures !Discards(last, now, interval)
  {
  }

  /** Within the range where the 64-bit arithmetic does not wrap, later
      gettimeofday readings give timestamps that are no smaller. */
  lemma MillisMonotone(sec: U64, usec: U64, sec': U64, usec': U64)
    requires usec < 1000000 && usec' < 1000000
    requires sec < sec' || (sec == sec' && usec <= usec')
    requires sec' * 1000 + usec' / 1000 < TwoTo64
    ensures Millis(sec, usec) <= Millis(sec', usec')
  {
  }
}
