/**
 * The time arithmetic of `Clock` (vedo/applications.py:3121-3243): the
 * hours and minutes are reduced modulo 24 and 60 and turned into the
 * fraction `t` of a half day; the hour hand stands at `t` turns, the
 * minute hand at `12 t` turns and the seconds hand at `s / 60` turns.
 *
 * The hand positions are fractions of a turn here: the sines and cosines
 * that place the hands, the drawing and the elapsed-time counter are left
 * out, and the local time is a parameter.
 */
module ClockFace {
  import opened Wrappers

  /** `h = int(h) % 24; m = int(m) % 60; t = (h * 60 + m) / 12 / 60`. */
  function HalfDays(h: int, m: int): (t: real)
    ensures 0.0 <= t < 2.0
  {
    ((h % 24) * 60 + m % 60) as real / 720.0
  }

  /** `s = int(s) % 60`, as a fraction of a turn of the seconds hand. */
  function SecondsTurn(s: int): (r: real)
    ensures 0.0 <= r < 1.0
  {
    (s % 60) as real / 60.0
  }

  /** A day later, or an hour later counted in minutes, the clock reads the same. */
  lemma HalfDaysPeriodic(h: int, m: int)
    ensures HalfDays(h + 24, m) == HalfDays(h, m)
    ensures HalfDays(h, m + 60) == HalfDays(h, m)
    ensures HalfDays(h - 24, m) == HalfDays(h, m)
  {
  }

  /** In the morning, twelve hours later the hour hand has gone exactly one more turn. */
  lemma AfternoonOneTurnMore(h: int, m: int)
    requires 0 <= h % 24 < 12
    ensures HalfDays(h + 12, m) == HalfDays(h, m) + 1.0
  {
    assert (h + 12) % 24 == h % 24 + 12;
  }

  /** The minute hand, at `12 t` turns, is `m / 60` of a turn past the whole turns the hours give it. */
  lemma MinuteHandShowsMinutes(h: int, m: int)
    ensures 12.0 * HalfDays(h, m) - (h % 24) as real == (m % 60) as real / 60.0
  {
  }

  /** The hour hand moves one twelfth of a turn per hour, minutes included. */
  lemma HourHandShowsHours(h: int, m: int)
    ensures HalfDays(h, m) == (h % 24) as real / 12.0 + (m % 60) as real / 720.0
  {
  }

  /** What the clock shows: the hour hand's turns since noon or midnight, and the seconds hand's turn if any. */
  datatype Hands = Hands(t: real, seconds: Option<real>)

  /** `int(None)` when only one of the hours and minutes is given. */
  datatype ClockError = TypeError

  /** The local time: hours, minutes and seconds. */
  datatype LocalTime = LocalTime(hour: int, minute: int, second: int)

  /**
   * `__init__`: with neither hours nor minutes given the clock
   * shows the local time, seconds included (replacing any `s` given);
   * otherwise it shows what it was given, with a seconds hand only when
   * `s` is given.
   */
  function Face(h: Option<int>, m: Option<int>, s: Option<int>, now: LocalTime): (r: Result<Hands, ClockError>)
    ensures r.Failure? <==> h.None? != m.None?
    ensures h.None? && m.None? ==>
      r == Success(Hands(HalfDays(now.hour, now.minute), Some(SecondsTurn(now.second))))
    ensures h.Some? && m.Some? ==>
      && r.Success? && r.value.t == HalfDays(h.value, m.value)
      && (r.value.seconds.Some? <==> s.Some?)
      && (s.Some? ==> r.value.seconds == Some(SecondsTurn(s.value)))
  {
    var (h, m, s) := if h.None? && m.None? then (Some(now.hour), Some(now.minute), Some(now.second)) else (h, m, s);
    if h.None? || m.None? then Failure(TypeError)
    else Success(Hands(HalfDays(h.value, m.value), if s.Some? then Some(SecondsTurn(s.value)) else None))
  }
}
