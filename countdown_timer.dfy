/**
 * The countdown breakdown (`calcTimeLeft` in
 * src/components/ui/CountdownTimer.tsx) over the integer number of
 * milliseconds left, `diff`.
 */
module CountdownTimer {
  import opened Wrappers

  datatype TimeLeft = TimeLeft(days: int, hours: int, minutes: int, seconds: int)

  const MS_PER_SECOND: int := 1000
  const MS_PER_MINUTE: int := 1000 * 60
  const MS_PER_HOUR: int := 1000 * 60 * 60
  const MS_PER_DAY: int := 1000 * 60 * 60 * 24

  /**
   * No countdown once the deadline has passed; otherwise whole days, and the
   * hours, minutes and seconds within the current day, hour and minute. For a
   * positive integer `diff` the source's `Math.floor` of a floating-point
   * quotient taken modulo 24 or 60 is this integer quotient and remainder.
   */
  function CalcTimeLeft(diff: int): (r: Option<TimeLeft>)
    ensures r.None? <==> diff <= 0
    ensures r.Some? ==> r.value.days == diff / 86400000
    ensures r.Some? ==> 0 <= r.value.hours < 24 && 0 <= r.value.minutes < 60 && 0 <= r.value.seconds < 60
  {
    if diff <= 0 then None
    else Some(TimeLeft(
      diff / MS_PER_DAY,
      (diff / MS_PER_HOUR) % 24,
      (diff / MS_PER_MINUTE) % 60,
      (diff / MS_PER_SECOND) % 60))
  }

  /** The parts add back up to the whole seconds left. */
  lemma BreakdownIsExact(diff: int)
    requires diff > 0
    ensures var t := CalcTimeLeft(diff).value;
            t.days * 86400 + t.hours * 3600 + t.minutes * 60 + t.seconds == diff / 1000
  {
    var s := diff / 1000;
    var m := s / 60;
    var h := m / 60;
    assert diff / MS_PER_MINUTE == m;
    assert diff / MS_PER_HOUR == h;
    assert diff / MS_PER_DAY == h / 24;
    var t := CalcTimeLeft(diff).value;
    assert t.seconds == s % 60 && t.minutes == m % 60 && t.hours == h % 24 && t.days == h / 24;
    assert s == m * 60 + s % 60;
    assert m == h * 60 + m % 60;
    assert h == (h / 24) * 24 + h % 24;
  }

  /** One millisecond before the deadline shows all zeros; a day and a second shows one day and one second. */
  lemma BreakdownExamples()
    ensures CalcTimeLeft(1) == Some(TimeLeft(0, 0, 0, 0))
    ensures CalcTimeLeft(86401000) == Some(TimeLeft(1, 0, 0, 1))
    ensures CalcTimeLeft(0).None?
  {
  }
}
