/** The access countdown card (src/components/AccessCountdown.tsx): the time
    left until `access_until`, the share of the 180-day window still left,
    and the two flags that pick the card's look. Each timer tick is one
    evaluation of these functions at the tick's `now`. */
module AccessCountdown {
  import opened TimeUnits

  /** `180 * 24 * 60 * 60 * 1000`: the window the progress bar spans. */
  const WindowMs: int := 180 * 24 * 60 * 60 * 1000

  /** `calculateTimeLeft`: zeros once the end has been reached, otherwise
      the whole days, hours, minutes and seconds left. */
  function CalculateTimeLeft(accessUntil: int, now: int): TimeLeft {
    var diff := accessUntil - now;
    if diff <= 0 then Zero else Decompose(diff)
  }

  /** Past the end every component is 0; before it every component is a
      proper clock reading of the time left, floored to whole seconds. */
  lemma TimeLeftSpec(accessUntil: int, now: int)
    ensures var t := CalculateTimeLeft(accessUntil, now);
      && (accessUntil - now <= 0 ==> t == Zero)
      && t.days >= 0 && 0 <= t.hours < 24 && 0 <= t.minutes < 60 && 0 <= t.seconds < 60
      && (accessUntil - now > 0 ==>
            t.TotalMs() == (accessUntil - now) - (accessUntil - now) % SecondMs)
  {
  }

  function Max(a: real, b: real): real { if a >= b then a else b }
  function Min(a: real, b: real): real { if a <= b then a else b }

  /** `calculatePercentage`: the window starts 180 days before the end, and
      `100 - elapsed / total * 100` is clamped into [0, 100]. */
  function CalculatePercentage(accessUntil: int, now: int): (p: real)
    ensures 0.0 <= p <= 100.0
  {
    var start := accessUntil - WindowMs;
    var total := accessUntil - start;
    var elapsed := now - start;
    Max(0.0, Min(100.0, 100.0 - (elapsed as real / total as real) * 100.0))
  }

  /** Before the window starts the bar is full, once it has ended the bar is
      empty, and in between it is the share of the window still ahead. */
  lemma PercentageShape(accessUntil: int, now: int)
    ensures now <= accessUntil - WindowMs ==> CalculatePercentage(accessUntil, now) == 100.0
    ensures now >= accessUntil ==> CalculatePercentage(accessUntil, now) == 0.0
    ensures accessUntil - WindowMs <= now <= accessUntil ==>
      CalculatePercentage(accessUntil, now) == (accessUntil - now) as real * 100.0 / WindowMs as real
  {
  }

  /** The share left never grows as time passes. */
  lemma PercentageNonIncreasing(accessUntil: int, now1: int, now2: int)
    requires now1 <= now2
    ensures CalculatePercentage(accessUntil, now2) <= CalculatePercentage(accessUntil, now1)
  {
  }

  /** `isExpiringSoon`: fewer than 14 whole days left. */
  predicate IsExpiringSoon(t: TimeLeft) { t.days < 14 }

  /** `isExpired`: all four components are 0. */
  predicate IsExpired(t: TimeLeft) { t.IsZero() }

  /** The card shows "expired" exactly when less than one second is left,
      so also for the last sub-second before the end; an expired card is
      always also "expiring soon". */
  lemma ExpiredIff(accessUntil: int, now: int)
    ensures IsExpired(CalculateTimeLeft(accessUntil, now)) <==> accessUntil - now < SecondMs
    ensures IsExpired(CalculateTimeLeft(accessUntil, now)) ==>
      IsExpiringSoon(CalculateTimeLeft(accessUntil, now))
  {
    if accessUntil - now > 0 {
      DecomposeZeroIff(accessUntil - now);
    }
  }

  /** "Expiring soon" holds exactly when fewer than 14 days are left. */
  lemma ExpiringSoonIff(accessUntil: int, now: int)
    ensures IsExpiringSoon(CalculateTimeLeft(accessUntil, now)) <==> accessUntil - now < 14 * DayMs
  {
    var diff := accessUntil - now;
    if diff > 0 {
      var t := Decompose(diff);
      assert t.days == diff / DayMs;
    }
  }
}
