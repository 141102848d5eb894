/** Constant-time catch-up of interval schedules, over int64 durations. */
module Schedule {
  import opened Prelude

  const MAX_DURATION: int := 0x7FFF_FFFF_FFFF_FFFF
  const MIN_DURATION: int := -0x8000_0000_0000_0000

  const MINUTE: int := 60_000_000_000

  newtype Duration = x: int | MIN_DURATION <= x <= MAX_DURATION

  /** Two's-complement reduction, as int64 arithmetic performs it. */
  function Wrap(x: int): (r: int)
    ensures MIN_DURATION <= r <= MAX_DURATION
    ensures MIN_DURATION <= x <= MAX_DURATION ==> r == x
  {
    (x - MIN_DURATION) % 0x1_0000_0000_0000_0000 + MIN_DURATION
  }

  /** The distance between two instants, saturating at the ends of the duration range. */
  function Sub(a: Time, b: Time): int {
    if a - b > MAX_DURATION then MAX_DURATION
    else if a - b < MIN_DURATION then MIN_DURATION
    else a - b
  }

  datatype Fault = IntervalNotPositive | SpanTooLong | ArithmeticOverflow | DidNotAdvance

  /** The next slot of an interval schedule, in the order the checks are made. */
  function NextIntervalDueAfter(nextDue: Time, now: Time, interval: Duration): Result<Time, Fault> {
    var step := interval as int;
    if step <= 0 then Err(IntervalNotPositive)
    else if nextDue > now then Ok(nextDue)
    else
      var delta := Sub(now, nextDue);
      if now > nextDue && delta == MAX_DURATION then Err(SpanTooLong)
      else
        var steps := Wrap(delta / step + 1);
        if steps <= 0 || steps > MAX_DURATION / step then Err(ArithmeticOverflow)
        else
          var candidate := nextDue + Wrap(steps * step);
          if candidate <= now then Err(DidNotAdvance) else Ok(candidate)
  }

  /** The simple form: one interval at a time until the slot lies in the future. */
  function CatchUp(nextDue: Time, now: Time, interval: Time): Time
    requires interval > 0
    decreases if now >= nextDue then now - nextDue + 1 else 0
  {
    if nextDue > now then nextDue else CatchUp(nextDue + interval, now, interval)
  }

  lemma {:induction false} CatchUpTo(nextDue: Time, now: Time, interval: Time, n: nat)
    requires interval > 0 && nextDue + n * interval > now
    requires n > 0 ==> nextDue + (n - 1) * interval <= now
    ensures CatchUp(nextDue, now, interval) == nextDue + n * interval
    decreases n
  {
    if n > 0 {
      assert nextDue + interval + (n - 1) * interval == nextDue + n * interval;
      if n > 1 {
        assert nextDue + interval + (n - 2) * interval == nextDue + (n - 1) * interval;
        Grows(interval, n - 1);
      }
      CatchUpTo(nextDue + interval, now, interval, n - 1);
    }
  }

  lemma Grows(step: int, n: nat)
    requires step > 0
    ensures n * step >= 0
  {
  }

  /** The distance to the slot after now, in whole intervals. */
  function Steps(nextDue: Time, now: Time, interval: Time): nat
    requires interval > 0
  {
    if nextDue > now then 0 else (now - nextDue) / interval + 1
  }

  lemma StepsBracket(nextDue: Time, now: Time, step: int)
    requires step > 0 && nextDue <= now
    ensures var n := Steps(nextDue, now, step); n > 0 && (n - 1) * step <= now - nextDue < n * step
  {
    var q := (now - nextDue) / step;
    assert now - nextDue == q * step + (now - nextDue) % step;
    assert (q + 1) * step == q * step + step;
  }

  lemma QuotientBound(n: int, step: int)
    requires step > 0
    ensures n > MAX_DURATION / step <==> n * step > MAX_DURATION
  {
    var q := MAX_DURATION / step;
    assert q * step <= MAX_DURATION < (q + 1) * step by { assert (q + 1) * step == q * step + step; }
    if n > q { assert n * step >= (q + 1) * step by { Monotone(q + 1, n, step); } }
    else { Monotone(n, q, step); }
  }

  lemma Monotone(a: int, b: int, step: int)
    requires step > 0 && a <= b
    ensures a * step <= b * step
  {
    assert (b - a) * step >= 0;
    assert b * step - a * step == (b - a) * step;
  }

  lemma QuotientSmall(d: int, step: int)
    requires step > 0 && d >= 0
    ensures 0 <= d / step <= d
  {
    var q := d / step;
    assert d == q * step + d % step;
    if q < 0 {
      Monotone(q, -1, step);
    } else if q > d {
      Monotone(d + 1, q, step);
      Monotone(1, step, d + 1);
    }
  }

  /**
   * The whole behaviour: a positive interval succeeds exactly when the total advance is a duration, the int64
   * product then never wraps, and the result is what the one-interval-at-a-time form gives. The check that the
   * candidate advanced never fires.
   */
  lemma CatchUpExact(nextDue: Time, now: Time, interval: Duration)
    requires interval as int > 0
    ensures var step := interval as int;
            var advance := Steps(nextDue, now, step) * step;
            var r := NextIntervalDueAfter(nextDue, now, interval);
            && (r.Ok? <==> nextDue > now || advance <= MAX_DURATION)
            && (r.Ok? ==> r.value == nextDue + advance == CatchUp(nextDue, now, step))
            && r != Err(DidNotAdvance) && r != Err(IntervalNotPositive)
  {
    var step := interval as int;
    var n := Steps(nextDue, now, step);
    if nextDue <= now {
      StepsBracket(nextDue, now, step);
      QuotientBound(n, step);
      QuotientSmall(now - nextDue, step);
      CatchUpTo(nextDue, now, step, n);
      if Sub(now, nextDue) == MAX_DURATION {
        assert n * step > MAX_DURATION;
      }
    }
  }

  /** A slot found for a due schedule lies after now, by no more than one interval, and keeps the phase. */
  lemma NextDueIsLeastSlot(nextDue: Time, now: Time, interval: Duration, k: nat)
    requires nextDue <= now && NextIntervalDueAfter(nextDue, now, interval).Ok?
    ensures var r := NextIntervalDueAfter(nextDue, now, interval).value;
            && now < r <= now + interval as int
            && (r - nextDue) % interval as int == 0
            && (nextDue + k * interval as int > now ==> r <= nextDue + k * interval as int)
  {
    var step := interval as int;
    CatchUpExact(nextDue, now, interval);
    StepsBracket(nextDue, now, step);
    var n := Steps(nextDue, now, step);
    assert n * step == (n - 1) * step + step;
    MultipleOf(n, step);
    if nextDue + k * step > now {
      if k < n { Monotone(k, n - 1, step); }
      Monotone(n, if k < n then n else k, step);
    }
  }

  lemma MultipleOf(n: int, step: int)
    requires step > 0
    ensures (n * step) % step == 0
  {
    var q, m := (n * step) / step, (n * step) % step;
    assert n * step == q * step + m;
    assert m == (n - q) * step;
    if n - q > 0 { Monotone(1, n - q, step); }
    else if n - q < 0 { Monotone(n - q, -1, step); }
  }

  // ----- what is done with a due schedule

  datatype Recurrence = Once | Every(interval: Duration)

  datatype Plan = Disable(fault: Fault) | Skip(next: Time) | Materialize(next: Time)

  /** The timing decision for one due schedule. */
  function PlanDue(recurrence: Recurrence, skipMisfires: bool, nextDue: Time, now: Time): Plan {
    match recurrence
    case Once => Materialize(nextDue)
    case Every(given) =>
      var interval: Duration := if given as int <= 0 then MINUTE as Duration else given;
      match NextIntervalDueAfter(nextDue, now, interval)
      case Err(e) => Disable(e)
      case Ok(next) =>
        if skipMisfires && now >= nextDue + interval as int then Skip(next) else Materialize(next)
  }

  /**
   * A recurring schedule always leaves the due list: it is disabled or moved past now. A slot is skipped exactly
   * when at least one more slot of the schedule has come due as well.
   */
  lemma PlanLeavesDueList(given: Duration, skipMisfires: bool, nextDue: Time, now: Time)
    requires nextDue <= now
    ensures var p := PlanDue(Every(given), skipMisfires, nextDue, now);
            var step := if given as int <= 0 then MINUTE else given as int;
            && (p.Disable? || p.next > now)
            && (p.Disable? <==> Steps(nextDue, now, step) * step > MAX_DURATION)
            && (!p.Disable? ==> (p.Skip? <==> skipMisfires && p.next > nextDue + step))
  {
    var interval: Duration := if given as int <= 0 then MINUTE as Duration else given;
    var step := interval as int;
    CatchUpExact(nextDue, now, interval);
    StepsBracket(nextDue, now, step);
    var n := Steps(nextDue, now, step);
    if n >= 2 { Monotone(1, n - 1, step); Monotone(2, n, step); }
  }
}
