/** The bonus countdown (src/components/BonusSection.tsx): a deadline on the
    10th of this or next month, fixed once when the module loads, and a
    ticking time-left display. */
module BonusSection {
  import opened Calendar
  import opened TimeUnits
  import AccessCountdown

  /** Lines 7-11: `new Date()` (`load`) with its day set to 10, moved one
      month on when that is before `Date.now()` (`checkedAt`). */
  function Deadline(load: LocalDateTime, checkedAt: LocalDateTime): (d: LocalDateTime)
    requires load.Valid()
    ensures d.Valid() && d.day == 10 && d.msOfDay == load.msOfDay
  {
    var tenth := load.(day := 10);
    if Before(tenth, checkedAt) then tenth.(ym := NextMonth(load.ym)) else tenth
  }

  /** The deadline stays in the month of loading unless the 10th of that
      month (at the load's time of day) has already passed, and then it is
      the 10th of the following month, December rolling into January. */
  lemma DeadlineMonth(load: LocalDateTime, checkedAt: LocalDateTime)
    requires load.Valid()
    ensures Before(load.(day := 10), checkedAt) ==> Deadline(load, checkedAt).ym == NextMonth(load.ym)
    ensures !Before(load.(day := 10), checkedAt) ==> Deadline(load, checkedAt).ym == load.ym
    ensures load.ym.month == 11 && Before(load.(day := 10), checkedAt) ==>
      Deadline(load, checkedAt).ym == YearMonth(load.ym.year + 1, 0)
  {
  }

  /** When the second clock read is no later than the 10th of the month
      after loading, at the load's time of day, the deadline is never before
      it. The two reads are consecutive statements, so this covers a load
      just before a month ends and a check just after. */
  lemma DeadlineNotBeforeCheck(load: LocalDateTime, checkedAt: LocalDateTime)
    requires load.Valid()
    requires !Before(load.(ym := NextMonth(load.ym), day := 10), checkedAt)
    ensures !Before(Deadline(load, checkedAt), checkedAt)
  {
  }

  /** `tick`: `diff = Math.max(0, DEADLINE - Date.now())`, then the same
      floor/modulo split as the access countdown. */
  function Tick(deadlineMs: int, nowMs: int): TimeLeft {
    var diff := if deadlineMs - nowMs > 0 then deadlineMs - nowMs else 0;
    Decompose(diff)
  }

  /** The clamped difference is never negative, every tick is a proper
      clock reading, and it adds up to the time left floored to seconds. */
  lemma TickSpec(deadlineMs: int, nowMs: int)
    ensures var t := Tick(deadlineMs, nowMs);
      && t.days >= 0 && 0 <= t.hours < 24 && 0 <= t.minutes < 60 && 0 <= t.seconds < 60
      && (nowMs >= deadlineMs ==> t.TotalMs() == 0)
      && (nowMs < deadlineMs ==> t.TotalMs() == (deadlineMs - nowMs) - (deadlineMs - nowMs) % SecondMs)
  {
  }

  /** The deadline is fixed at load, so from the first tick at or after it
      every later tick reads all zeros. */
  lemma ZeroForeverAfterDeadline(deadlineMs: int, nowMs: int, laterMs: int)
    requires deadlineMs <= nowMs <= laterMs
    ensures Tick(deadlineMs, nowMs) == Zero && Tick(deadlineMs, laterMs) == Zero
  {
  }

  /** The bonus tick and the access countdown compute the same reading from
      the same two instants, though one clamps with `Math.max` and the
      other returns early on `diff <= 0`. */
  lemma TickAgreesWithAccessCountdown(deadlineMs: int, nowMs: int)
    ensures Tick(deadlineMs, nowMs) == AccessCountdown.CalculateTimeLeft(deadlineMs, nowMs)
  {
  }
}
