/** The formatting helpers: times as clock text or in words, clock text
    read back into seconds, byte sizes in binary units, percentages, string
    truncation and digit grouping of integers. Printing a float with a
    fixed number of decimals (`:.Nf`) is the parameter `fixed`. */
module FormatUtils {
  import opened Common
  import opened Text
  import opened Clocks

  type FixedPoint = (real, int) -> string

  // ----------------------------------------------------------- format_time

  /** `HH:MM:SS`: the three fields zero-padded to two digits. */
  function HmsText(c: Clock): string {
    Join([FormatInt(c.hours, 2), FormatInt(c.minutes, 2), FormatInt(c.seconds, 2)], ":")
  }

  /** The parts of the `verbose` form: hours and minutes only when positive,
      seconds when positive or when nothing else is shown. */
  function VerboseParts(c: Clock): (parts: seq<string>)
    ensures 1 <= |parts| <= 3
    ensures c.hours > 0 ==> parts[0] == IntToString(c.hours) + "小时"
    ensures c.hours <= 0 && c.minutes > 0 ==> parts[0] == IntToString(c.minutes) + "分钟"
    ensures c.seconds > 0 || (c.hours <= 0 && c.minutes <= 0) ==> parts[|parts| - 1] == IntToString(c.seconds) + "秒"
    ensures |parts| == (if c.hours > 0 then 1 else 0) + (if c.minutes > 0 then 1 else 0)
                       + (if c.seconds > 0 || (c.hours <= 0 && c.minutes <= 0) then 1 else 0)
  {
    var withHours := if c.hours > 0 then [IntToString(c.hours) + "小时"] else [];
    var withMinutes := withHours + (if c.minutes > 0 then [IntToString(c.minutes) + "分钟"] else []);
    if c.seconds > 0 || withMinutes == [] then withMinutes + [IntToString(c.seconds) + "秒"] else withMinutes
  }

  /** `format_time`: `HH:MM:SS`, `MM:SS` (whole minutes, which may exceed
      59) or `verbose`; any other format is a `ValueError`. */
  function FormatTime(seconds: real, format: string): (r: Result<string, string>)
    ensures r.Err? <==> format != "HH:MM:SS" && format != "MM:SS" && format != "verbose"
    ensures r.Err? ==> r.error == "不支持的格式: " + format
  {
    var c := ClockOf(seconds);
    if format == "HH:MM:SS" then Ok(HmsText(c))
    else if format == "MM:SS" then Ok(Join([FormatInt(FloorDiv(seconds, 60.0), 2), FormatInt(c.seconds, 2)], ":"))
    else if format == "verbose" then Ok(Join(VerboseParts(c), ""))
    else Err("不支持的格式: " + format)
  }

  /** The verbose form of 0 is `0秒`: the seconds are shown when nothing
      else is. */
  lemma VerboseZero()
    ensures FormatTime(0.0, "verbose") == Ok("0秒")
  {
    assert ClockOf(0.0) == Clock(0, 0, 0, 0) by {
      assert FloorDiv(0.0, 3600.0) == 0 && FloorDiv(0.0, 60.0) == 0;
    }
    assert IntToString(0) + "秒" == "0秒";
    assert VerboseParts(Clock(0, 0, 0, 0)) == ["0秒"];
    assert Join(["0秒"], "") == "0秒";
  }

  /** The verbose form of 3661 seconds is `1小时1分钟1秒`. */
  lemma VerboseAllParts()
    ensures FormatTime(3661.0, "verbose") == Ok("1小时1分钟1秒")
  {
    assert ClockOf(3661.0) == Clock(1, 1, 1, 0) by {
      assert FloorDiv(3661.0, 3600.0) == 1 && Mod(3661.0, 3600.0) == 61.0;
      assert FloorDiv(61.0, 60.0) == 1 && Mod(3661.0, 60.0) == 1.0;
    }
    assert IntToString(1) == "1";
    assert IntToString(1) + "小时" == "1小时" && IntToString(1) + "分钟" == "1分钟" && IntToString(1) + "秒" == "1秒";
    assert VerboseParts(Clock(1, 1, 1, 0)) == ["1小时", "1分钟", "1秒"];
    assert Join(["1小时", "1分钟", "1秒"], "") == "1小时1分钟1秒";
  }

  /** The verbose form of 120 seconds is `2分钟`: zero seconds are left out
      when minutes are shown. */
  lemma VerboseNoSeconds()
    ensures FormatTime(120.0, "verbose") == Ok("2分钟")
  {
    assert ClockOf(120.0) == Clock(0, 2, 0, 0) by {
      assert FloorDiv(120.0, 3600.0) == 0 && Mod(120.0, 3600.0) == 120.0;
      assert FloorDiv(120.0, 60.0) == 2 && Mod(120.0, 60.0) == 0.0;
    }
    assert IntToString(2) == "2";
    assert IntToString(2) + "分钟" == "2分钟";
    assert VerboseParts(Clock(0, 2, 0, 0)) == ["2分钟"];
    assert Join(["2分钟"], "") == "2分钟";
  }

  // ------------------------------------------------------------ parse_time

  /** The message of the `ValueError` that `int` raises on a bad part. */
  function IntError(part: string): string {
    "invalid literal for int() with base 10: '" + part + "'"
  }

  /** `parse_time`: `H:M:S` or `M:S`, each part read by `int` (the first
      part that does not read raises); any other number of colon-separated
      parts is a `ValueError`. */
  function ParseTime(timeStr: string): (r: Result<int, string>)
    ensures var n := |Split(timeStr, ':')|; n != 2 && n != 3 ==> r == Err("无效的时间格式: " + timeStr)
    ensures r.Ok? ==> |Split(timeStr, ':')| == 2 || |Split(timeStr, ':')| == 3
  {
    var parts := Split(timeStr, ':');
    if |parts| == 3 then
      var h, m, s := ParseInt(parts[0]), ParseInt(parts[1]), ParseInt(parts[2]);
      if h.None? then Err(IntError(parts[0]))
      else if m.None? then Err(IntError(parts[1]))
      else if s.None? then Err(IntError(parts[2]))
      else Ok(h.value * 3600 + m.value * 60 + s.value)
    else if |parts| == 2 then
      var m, s := ParseInt(parts[0]), ParseInt(parts[1]);
      if m.None? then Err(IntError(parts[0]))
      else if s.None? then Err(IntError(parts[1]))
      else Ok(m.value * 60 + s.value)
    else Err("无效的时间格式: " + timeStr)
  }

  /** Three colon-free parts that read as integers, joined by colons, read
      back as hours, minutes and seconds. */
  lemma ParseJoinedThree(a: string, b: string, c: string, h: int, m: int, s: int)
    requires ':' !in a && ':' !in b && ':' !in c
    requires ParseInt(a) == Some(h) && ParseInt(b) == Some(m) && ParseInt(c) == Some(s)
    ensures ParseTime(Join([a, b, c], ":")) == Ok(h * 3600 + m * 60 + s)
  {
    SplitJoin([a, b, c], ':');
    var parts := Split(Join([a, b, c], ":"), ':');
    assert parts == [a, b, c];
    assert parts[0] == a && parts[1] == b && parts[2] == c;
  }

  /** Two colon-free parts that read as integers, joined by a colon, read
      back as minutes and seconds. */
  lemma ParseJoinedTwo(a: string, b: string, m: int, s: int)
    requires ':' !in a && ':' !in b
    requires ParseInt(a) == Some(m) && ParseInt(b) == Some(s)
    ensures ParseTime(Join([a, b], ":")) == Ok(m * 60 + s)
  {
    SplitJoin([a, b], ':');
    var parts := Split(Join([a, b], ":"), ':');
    assert parts == [a, b];
    assert parts[0] == a && parts[1] == b;
  }

  /** Three printed fields joined by colons read back as hours, minutes
      and seconds. */
  lemma ParseThreeFields(h: int, m: int, s: int)
    ensures ParseTime(Join([FormatInt(h, 2), FormatInt(m, 2), FormatInt(s, 2)], ":")) == Ok(h * 3600 + m * 60 + s)
  {
    FormatIntChars(h, 2, ':');
    FormatIntChars(m, 2, ':');
    FormatIntChars(s, 2, ':');
    ParseIntFormat(h, 2);
    ParseIntFormat(m, 2);
    ParseIntFormat(s, 2);
    ParseJoinedThree(FormatInt(h, 2), FormatInt(m, 2), FormatInt(s, 2), h, m, s);
  }

  /** Two printed fields joined by a colon read back as minutes and
      seconds. */
  lemma ParseTwoFields(m: int, s: int)
    ensures ParseTime(Join([FormatInt(m, 2), FormatInt(s, 2)], ":")) == Ok(m * 60 + s)
  {
    FormatIntChars(m, 2, ':');
    FormatIntChars(s, 2, ':');
    ParseIntFormat(m, 2);
    ParseIntFormat(s, 2);
    ParseJoinedTwo(FormatInt(m, 2), FormatInt(s, 2), m, s);
  }

  /** Reading back the `HH:MM:SS` text of a clock gives its seconds. */
  lemma ParseHmsText(c: Clock)
    ensures ParseTime(HmsText(c)) == Ok(c.hours * 3600 + c.minutes * 60 + c.seconds)
  {
    ParseThreeFields(c.hours, c.minutes, c.seconds);
  }

  /** Reading back `HH:MM:SS` gives the whole seconds of the time, for any
      time (a negative one prints a signed hour count). */
  lemma ParseFormatHms(x: real)
    ensures ParseTime(FormatTime(x, "HH:MM:SS").value) == Ok(x.Floor)
  {
    var c := ClockOf(x);
    ParseHmsText(c);
    ClockSeconds(x);
  }

  /** Reading back `MM:SS` gives the whole seconds of the time. */
  lemma ParseFormatMs(x: real)
    ensures ParseTime(FormatTime(x, "MM:SS").value) == Ok(x.Floor)
  {
    var minutes, seconds := FloorDiv(x, 60.0), ClockOf(x).seconds;
    var text := Join([FormatInt(minutes, 2), FormatInt(seconds, 2)], ":");
    assert ParseTime(text) == Ok(minutes * 60 + seconds) by {
      ParseTwoFields(minutes, seconds);
    }
    assert minutes * 60 + seconds == x.Floor by {
      MinutesSeconds(x);
    }
    assert FormatTime(x, "MM:SS").value == text;
  }

  /** Whole minutes and the seconds left over add up to the whole seconds. */
  lemma MinutesSeconds(x: real)
    ensures FloorDiv(x, 60.0) * 60 + Trunc(Mod(x, 60.0)) == x.Floor
  {
    var q := FloorDiv(x, 60.0);
    var m := Mod(x, 60.0);
    assert x == q as real * 60.0 + m;
    FloorUnique(x, q * 60 + m.Floor);
  }

  /** A whole number of seconds survives both clock formats. */
  lemma ParseTimeRoundTrip(n: int)
    ensures ParseTime(FormatTime(n as real, "HH:MM:SS").value) == Ok(n)
    ensures ParseTime(FormatTime(n as real, "MM:SS").value) == Ok(n)
  {
    ParseFormatHms(n as real);
    ParseFormatMs(n as real);
  }

  // ----------------------------------------------------------- format_size

  const Units: seq<string> := ["B", "KB", "MB", "GB", "TB", "PB"]

  function Pow1024(k: nat): (r: real)
    ensures r >= 1.0
  {
    if k == 0 then 1.0 else 1024.0 * Pow1024(k - 1)
  }

  /** What the loop of `format_size` ends with from `size` at unit
      `unitIndex`: the value times 1024 to the number of divisions is the
      start value, the value is below 1024 unless the unit is PB, and a
      value that was divided is at least 1. */
  function Scaled(size: real, unitIndex: nat): (r: (real, nat))
    requires unitIndex < |Units|
    ensures unitIndex <= r.1 < |Units|
    ensures r.0 * Pow1024(r.1 - unitIndex) == size
    ensures r.1 < |Units| - 1 ==> r.0 < 1024.0
    ensures r.1 > unitIndex ==> r.0 >= 1.0
    ensures size < 1024.0 ==> r == (size, unitIndex)
    decreases |Units| - unitIndex
  {
    if size >= 1024.0 && unitIndex < |Units| - 1 then
      var r := Scaled(size / 1024.0, unitIndex + 1);
      PowStep(r.0, r.1 - unitIndex - 1);
      r
    else (size, unitIndex)
  }

  lemma PowStep(v: real, k: nat)
    ensures v * Pow1024(k + 1) == (v * Pow1024(k)) * 1024.0
  {
  }

  /** `format_size`: divide by 1024 while the value is at least 1024 and a
      larger unit exists, then print the value and the unit. */
  method FormatSize(bytes: int, precision: int, fixed: FixedPoint) returns (s: string)
    ensures var r := Scaled(bytes as real, 0); s == fixed(r.0, precision) + " " + Units[r.1]
  {
    var size := bytes as real;
    var unitIndex := 0;
    while size >= 1024.0 && unitIndex < |Units| - 1
      invariant 0 <= unitIndex < |Units|
      invariant Scaled(size, unitIndex) == Scaled(bytes as real, 0)
      decreases |Units| - unitIndex
    {
      size := size / 1024.0;
      unitIndex := unitIndex + 1;
    }
    s := fixed(size, precision) + " " + Units[unitIndex];
  }

  // ----------------------------------------------------- format_percentage

  /** `format_percentage`: `0%` for a zero total, otherwise the percentage
      printed with `precision` decimals and a percent sign. */
  function FormatPercentage(value: real, total: real, precision: int, fixed: FixedPoint): (r: string)
    ensures EndsWith(r, "%")
    ensures total == 0.0 ==> r == "0%"
    ensures total != 0.0 ==> r[..|r| - 1] == fixed(value / total * 100.0, precision)
  {
    if total == 0.0 then "0%" else fixed(value / total * 100.0, precision) + "%"
  }

  // ------------------------------------------------------- truncate_string

  /** `truncate_string`: a text no longer than `max_length` is kept; a
      longer one is cut to `text[:max_length - len(suffix)]` and gets the
      suffix. With `max_length >= len(suffix)` the result is exactly
      `max_length` long. */
  function TruncateString(text: string, maxLength: int, suffix: string): (r: string)
    ensures |text| <= maxLength ==> r == text
    ensures |text| > maxLength ==> EndsWith(r, suffix)
    ensures |text| > maxLength && maxLength >= |suffix| ==>
      |r| == maxLength && r[..maxLength - |suffix|] == text[..maxLength - |suffix|]
  {
    if |text| <= maxLength then text else PyPrefix(text, maxLength - |suffix|) + suffix
  }

  /** With a limit shorter than the suffix, the slice bound is negative and
      counts from the end of the text: the result is longer than the text
      it replaces. */
  lemma TruncateOverlong()
    ensures TruncateString("abcdef", 2, "...") == "abcde..."
    ensures |TruncateString("abcdef", 2, "...")| > 2
  {
  }

  /** Truncation that never exceeds the limit: as `truncate_string` when the
      suffix fits, otherwise the suffix itself cut to the limit. */
  function TruncateWithin(text: string, maxLength: nat, suffix: string): (r: string)
    ensures |r| <= maxLength
    ensures |text| <= maxLength ==> r == text
    ensures maxLength >= |suffix| ==> r == TruncateString(text, maxLength, suffix)
  {
    if |text| <= maxLength then text
    else if maxLength >= |suffix| then text[..maxLength - |suffix|] + suffix
    else suffix[..maxLength]
  }

  // --------------------------------------------------------- format_number

  /** The digits cut into groups of three from the right; the first group
      has one to three digits. */
  function Groups(digits: string): (g: seq<string>)
    requires |digits| >= 1
    ensures |g| >= 1 && 1 <= |g[0]| <= 3
    ensures forall i :: 1 <= i < |g| ==> |g[i]| == 3
    ensures Concat(g) == digits
    decreases |digits|
  {
    if |digits| <= 3 then
      assert Concat([digits]) == Concat([]) + digits;
      [digits]
    else
      var init := Groups(digits[..|digits| - 3]);
      var last := digits[|digits| - 3..];
      assert (init + [last])[..|init|] == init;
      assert digits == digits[..|digits| - 3] + last;
      init + [last]
  }

  /** `format_number` for an integer: `{n:,}` with the commas replaced by
      the separator, that is the sign and the digit groups joined by it. */
  function FormatNumber(n: int, sep: string): string {
    (if n < 0 then "-" else "") + Join(Groups(NatToString(if n < 0 then -n else n)), sep)
  }

  /** Splitting at a non-digit separator and putting the groups back
      together gives the digits of the number. */
  lemma FormatNumberDigits(n: nat, c: char)
    requires !IsDigit(c)
    ensures Concat(Split(FormatNumber(n, [c]), c)) == NatToString(n)
    ensures ParseDigits(Concat(Split(FormatNumber(n, [c]), c))) == n
  {
    var digits := NatToString(n);
    var g := Groups(digits);
    forall i | 0 <= i < |g| ensures c !in g[i] {
      assert g[i] in g;
      if c in g[i] {
        var k :| 0 <= k < |g[i]| && g[i][k] == c;
        ConcatMember(g, i, k);
      }
    }
    assert FormatNumber(n, [c]) == Join(g, [c]);
    SplitJoin(g, c);
    ParseNatToString(n);
  }

  /** A negative integer is its magnitude's grouping behind a minus sign. */
  lemma FormatNumberNegative(n: int, sep: string)
    requires n < 0
    ensures FormatNumber(n, sep) == "-" + FormatNumber(-n, sep)
  {
  }

  /** For any integer, the separators split the digits of its magnitude
      back out, behind a minus sign when it is negative. */
  lemma FormatNumberSigned(n: int, c: char)
    requires !IsDigit(c)
    ensures var s := FormatNumber(n, [c]);
      var magnitude := if n < 0 then -n else n;
      |s| >= 1 && (n < 0 ==> s[0] == '-') &&
      Concat(Split(if n < 0 then s[1..] else s, c)) == NatToString(magnitude)
  {
    var magnitude := if n < 0 then -n else n;
    FormatNumberDigits(magnitude, c);
    var s := FormatNumber(n, [c]);
    var body := FormatNumber(magnitude, [c]);
    if n < 0 {
      assert s == "-" + body;
      assert s[1..] == body;
    }
  }

  /** Every character of a part is a character of the concatenation. */
  lemma {:induction false} ConcatMember(g: seq<string>, i: nat, k: nat)
    requires i < |g| && k < |g[i]|
    ensures g[i][k] in Concat(g)
  {
    var init := g[..|g| - 1];
    assert Concat(g) == Concat(init) + g[|g| - 1];
    if i < |g| - 1 {
      assert init[i] == g[i];
      ConcatMember(init, i, k);
    } else {
      assert Concat(g)[|Concat(init)| + k] == g[i][k];
    }
  }
}
