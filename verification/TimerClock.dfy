/** The times a timer descriptor is set to. All are microseconds. */
module TimerClock {
  const FLOOR := 100
  const MICROS_PER_SECOND := 1_000_000

  datatype TimeSpec = TimeSpec(seconds: nat, nanoseconds: nat)

  function HowMuchTimeFromNow(when: int, clock: int): TimeSpec
  {
    var micros: nat := if when - clock < FLOOR then FLOOR else when - clock;
    TimeSpec(micros / MICROS_PER_SECOND, micros % MICROS_PER_SECOND * 1000)
  }

  function Max(a: int, b: int): int
  {
    if a < b then b else a
  }

  /** The split is normalised and exact: the descriptor fires at the wanted time, or 100 microseconds from now when
      that is too close or past. */
  lemma TimeSpecExact(when: int, clock: int)
    ensures var ts := HowMuchTimeFromNow(when, clock);
            && ts.nanoseconds < 1_000_000_000
            && clock * 1000 + ts.seconds * 1_000_000_000 + ts.nanoseconds == Max(when, clock + 100) * 1000
  {
    var micros: nat := if when - clock < FLOOR then FLOOR else when - clock;
    assert micros == micros / MICROS_PER_SECOND * MICROS_PER_SECOND + micros % MICROS_PER_SECOND;
  }

  /** timerfd_settime: when it was set, and when the descriptor becomes readable. */
  datatype Armed = Armed(setAt: int, deadline: int)

  function Arm(clock: int, when: int): Armed
  {
    var ts := HowMuchTimeFromNow(when, clock);
    Armed(clock, clock + ts.seconds * MICROS_PER_SECOND + ts.nanoseconds / 1000)
  }

  lemma ArmDeadline(clock: int, when: int)
    ensures Arm(clock, when) == Armed(clock, Max(when, clock + 100))
  {
    var micros: nat := if when - clock < FLOOR then FLOOR else when - clock;
    assert micros == micros / MICROS_PER_SECOND * MICROS_PER_SECOND + micros % MICROS_PER_SECOND;
    assert micros % MICROS_PER_SECOND * 1000 / 1000 == micros % MICROS_PER_SECOND;
  }
}
