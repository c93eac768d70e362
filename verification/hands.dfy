/** Positions of the three clock hands as fractions of a full turn,
    0 at twelve o'clock and increasing clockwise. */
module Hands {

  /** The ranges `time.localtime()` yields for the fields the hands read.
      A leap second (second 60) is excluded: the LED ring indexes slot
      `second // 5`, which would then be out of range. */
  predicate ValidTime(hour: int, minute: int, second: int)
  {
    0 <= hour < 24 && 0 <= minute < 60 && 0 <= second < 60
  }

  /** Python's `x % 1` on a float: the part of `x` above its floor. */
  function Frac(x: real): (r: real)
    ensures 0.0 <= r < 1.0
    ensures (x - r).Floor as real == x - r
  {
    x - x.Floor as real
  }

  /** `(hour + minute / 60) / 12 % 1`. */
  function HourFraction(hour: int, minute: int): real
  {
    Frac((hour as real + minute as real / 60.0) / 12.0)
  }

  /** `(minute + second / 60) / 60`. */
  function MinuteFraction(minute: int, second: int): real
  {
    (minute as real + second as real / 60.0) / 60.0
  }

  /** `second / 60`. */
  function SecondFraction(second: int): real
  {
    second as real / 60.0
  }

  /** The hour hand is the number of minutes past the last twelve o'clock
      out of the 720 minutes of a half day; the `% 1` folds the afternoon
      onto the morning. */
  lemma HourFractionIsHalfDay(hour: int, minute: int)
    requires 0 <= hour < 24 && 0 <= minute < 60
    ensures HourFraction(hour, minute) == ((hour % 12) * 60 + minute) as real / 720.0
  {
    var x := (hour as real + minute as real / 60.0) / 12.0;
    assert x == (hour * 60 + minute) as real / 720.0;
    if hour < 12 {
      assert 0.0 <= x < 1.0;
      assert x.Floor == 0;
    } else {
      assert 1.0 <= x < 2.0;
      assert x.Floor == 1;
      assert x - 1.0 == ((hour - 12) * 60 + minute) as real / 720.0;
    }
  }

  /** The minute hand is the seconds past the hour out of 3600. */
  lemma MinuteFractionIsHour(minute: int, second: int)
    ensures MinuteFraction(minute, second) == (minute * 60 + second) as real / 3600.0
  {
  }

  /** For a valid time every hand lies in [0, 1), and a hand on the hour
      mark (minute zero) points at `hour mod 12` twelfths of a turn. */
  lemma HandsInRange(hour: int, minute: int, second: int)
    requires ValidTime(hour, minute, second)
    ensures 0.0 <= HourFraction(hour, minute) < 1.0
    ensures 0.0 <= MinuteFraction(minute, second) < 1.0
    ensures 0.0 <= SecondFraction(second) < 1.0
    ensures minute == 0 ==> HourFraction(hour, minute) == (hour % 12) as real / 12.0
  {
    HourFractionIsHalfDay(hour, minute);
    MinuteFractionIsHour(minute, second);
  }

  /** Twelve hours later the hour hand is in the same place. */
  lemma HourFractionPeriodic(hour: int, minute: int)
    requires 0 <= hour < 12 && 0 <= minute < 60
    ensures HourFraction(hour + 12, minute) == HourFraction(hour, minute)
  {
    HourFractionIsHalfDay(hour, minute);
    HourFractionIsHalfDay(hour + 12, minute);
  }
}
