/** A time in seconds split into hours, minutes, seconds and
    milliseconds the way the timestamp and time formatters split it. */
module Clocks {
  import opened Common

  /** The fields of a timestamp. */
  datatype Clock = Clock(hours: int, minutes: int, seconds: int, millis: int)

  /** The arithmetic `_format_timestamp` and `format_time` share:
      `seconds // 3600`, `(seconds % 3600) // 60`, `int(seconds % 60)`, and
      for the timestamp `int((seconds % 1) * 1000)`, with Python's
      floor-based `//` and `%`. */
  function ClockOf(x: real): (c: Clock)
    ensures 0 <= c.minutes < 60 && 0 <= c.seconds < 60 && 0 <= c.millis < 1000
    ensures x >= 0.0 ==> c.hours >= 0
    ensures x < 360000.0 ==> c.hours < 100
  {
    var m := FloorDiv(Mod(x, 3600.0), 60.0);
    Clock(FloorDiv(x, 3600.0), m, Trunc(Mod(x, 60.0)), Trunc(Mod(x, 1.0) * 1000.0))
  }

  /** The milliseconds a clock stands for. */
  function ClockMillis(c: Clock): int {
    c.hours * 3600000 + c.minutes * 60000 + c.seconds * 1000 + c.millis
  }

  /** An integer `k` with `k <= x < k + 1` is `x`'s floor. */
  lemma FloorUnique(x: real, k: int)
    requires k as real <= x < k as real + 1.0
    ensures x.Floor == k
  {
  }

  /** The whole seconds of the clock are the floor of the time. */
  lemma ClockSeconds(x: real)
    ensures var c := ClockOf(x);
      c.hours * 3600 + c.minutes * 60 + c.seconds == x.Floor
  {
    var c := ClockOf(x);
    var h := FloorDiv(x, 3600.0);
    var r1 := Mod(x, 3600.0);
    var m := FloorDiv(r1, 60.0);
    var q := FloorDiv(x, 60.0);
    assert r1 == x - h as real * 3600.0;
    assert q == h * 60 + m by {
      assert (h * 60 + m) as real * 60.0 <= x;
      assert x < (h * 60 + m + 1) as real * 60.0;
    }
    var r2 := Mod(x, 60.0);
    assert r2 == x - (h * 3600 + m * 60) as real;
    FloorUnique(x, h * 3600 + m * 60 + c.seconds);
  }

  /** A timestamp is the time cut down to whole milliseconds. */
  lemma ClockTotal(x: real)
    ensures ClockMillis(ClockOf(x)) == (x * 1000.0).Floor
  {
    var c := ClockOf(x);
    ClockSeconds(x);
    var k := x.Floor;
    assert FloorDiv(x, 1.0) == k;
    var f := Mod(x, 1.0);
    assert f == x - k as real;
    assert x * 1000.0 == k as real * 1000.0 + f * 1000.0;
    FloorUnique(x * 1000.0, k * 1000 + c.millis);
  }
}
