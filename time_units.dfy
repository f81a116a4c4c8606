/** The countdown arithmetic shared by the access countdown and the bonus
    countdown: a non-negative number of milliseconds split into whole days,
    hours, minutes and seconds with `Math.floor` and `%`. */
module TimeUnits {

  const SecondMs: int := 1000
  const MinuteMs: int := 60 * 1000
  const HourMs: int := 60 * 60 * 1000
  const DayMs: int := 24 * 60 * 60 * 1000

  datatype TimeLeft = TimeLeft(days: int, hours: int, minutes: int, seconds: int) {
    /** The milliseconds the four components stand for. */
    function TotalMs(): int {
      days * DayMs + hours * HourMs + minutes * MinuteMs + seconds * SecondMs
    }
    /** Every component is 0. */
    predicate IsZero() { days == 0 && hours == 0 && minutes == 0 && seconds == 0 }
  }

  const Zero: TimeLeft := TimeLeft(0, 0, 0, 0)

  /** `{ days: floor(diff / 86400000), hours: floor((diff % 86400000) / 3600000),
      minutes: floor((diff % 3600000) / 60000), seconds: floor((diff % 60000) / 1000) }`
      for `diff >= 0` (where JavaScript's `%` and Dafny's agree).
      The result is a proper clock reading that stands for `diff` floored to
      whole seconds. */
  function Decompose(diff: nat): (t: TimeLeft)
    ensures t.days >= 0 && 0 <= t.hours < 24 && 0 <= t.minutes < 60 && 0 <= t.seconds < 60
    ensures t.TotalMs() == diff - diff % SecondMs
  {
    var t := TimeLeft(diff / DayMs, (diff % DayMs) / HourMs,
                      (diff % HourMs) / MinuteMs, (diff % MinuteMs) / SecondMs);
    RecombineSteps(diff);
    t
  }

  /** The three congruences that make the components add up: since each unit
      is a whole multiple of the next, reducing modulo the larger unit first
      does not change the remainder modulo the smaller. */
  lemma RecombineSteps(x: nat)
    ensures (x % DayMs) % HourMs == x % HourMs
    ensures (x % HourMs) % MinuteMs == x % MinuteMs
    ensures (x % MinuteMs) % SecondMs == x % SecondMs
  {
    ModOfMultiple(x, HourMs, 24);
    ModOfMultiple(x, MinuteMs, 60);
    ModOfMultiple(x, SecondMs, 60);
  }

  /** Reducing modulo `k * a` first does not change the remainder modulo `a`. */
  lemma ModOfMultiple(x: nat, a: int, k: int)
    requires a > 0 && k > 0
    ensures (x % (k * a)) % a == x % a
  {
    var m := k * a;
    var q, r := x / m, x % m;
    var q2, r2 := r / a, r % a;
    assert x == q * m + r;
    assert r == q2 * a + r2;
    assert q * m == (q * k) * a;
    DivModUnique(x, a, q * k + q2, r2);
  }

  /** Quotient and remainder are unique. */
  lemma DivModUnique(x: int, a: int, q: int, r: int)
    requires a > 0 && 0 <= r < a && x == q * a + r
    ensures x % a == r
  {
    var q0, r0 := x / a, x % a;
    assert x == q0 * a + r0;
    assert (q0 - q) * a == r - r0 by {
      assert (q0 - q) * a == q0 * a - q * a;
    }
    if q0 > q {
      MulAtLeast(q0 - q, a);
    } else if q0 < q {
      MulAtLeast(q - q0, a);
    }
  }

  lemma MulAtLeast(k: int, a: int)
    requires k >= 1 && a > 0
    ensures k * a >= a
  {
    assert k * a == (k - 1) * a + a;
  }

  /** The decomposition reads all zeros exactly when less than a whole second
      is left. */
  lemma DecomposeZeroIff(diff: nat)
    ensures Decompose(diff).IsZero() <==> diff < SecondMs
  {
    var t := Decompose(diff);
    if t.IsZero() {
      assert diff - diff % SecondMs == 0;
    }
  }
}
