/** Python string operations the core relies on: `str.join`, `str.split`,
    `str.strip`, decimal and hexadecimal digits and `{n:0Wd}` formatting.
    Strings are sequences of characters. */
module Text {
  import opened Common

  // ---------------------------------------------------------------- strip

  /** Python's `str.isspace` for one character: the ASCII whitespace and
      separator controls plus the Unicode space and line/paragraph
      separators. */
  predicate IsSpace(c: char) {
    c == ' ' || c == '\t' || c == '\n' || c == '\r' || c == '\U{B}' || c == '\U{C}'
    || ('\U{1C}' <= c <= '\U{1F}') || c == '\U{85}' || c == '\U{A0}' || c == '\U{1680}'
    || ('\U{2000}' <= c <= '\U{200A}') || c == '\U{2028}' || c == '\U{2029}'
    || c == '\U{202F}' || c == '\U{205F}' || c == '\U{3000}'
  }

  /** How many whitespace characters `s` starts with. */
  function LeadingSpaces(s: string): (n: nat)
    ensures n <= |s|
    ensures forall k :: 0 <= k < n ==> IsSpace(s[k])
    ensures n < |s| ==> !IsSpace(s[n])
  {
    if |s| == 0 || !IsSpace(s[0]) then 0 else 1 + LeadingSpaces(s[1..])
  }

  /** How many whitespace characters `s` ends with. */
  function TrailingSpaces(s: string): (n: nat)
    ensures n <= |s|
    ensures forall k :: |s| - n <= k < |s| ==> IsSpace(s[k])
    ensures n < |s| ==> !IsSpace(s[|s| - 1 - n])
  {
    if |s| == 0 || !IsSpace(s[|s| - 1]) then 0 else 1 + TrailingSpaces(s[..|s| - 1])
  }

  /** Python `s.strip()`: the longest middle part of `s` that neither starts
      nor ends with whitespace; everything removed is whitespace. */
  function Strip(s: string): (r: string)
    ensures |r| <= |s|
    ensures r == [] || (!IsSpace(r[0]) && !IsSpace(r[|r| - 1]))
    ensures LeadingSpaces(s) + |r| <= |s|
    ensures r == s[LeadingSpaces(s)..LeadingSpaces(s) + |r|]
    ensures forall k :: 0 <= k < |s| && !(LeadingSpaces(s) <= k < LeadingSpaces(s) + |r|) ==> IsSpace(s[k])
  {
    var i := LeadingSpaces(s);
    var t := s[i..];
    var r := t[..|t| - TrailingSpaces(t)];
    assert r == [] || !IsSpace(r[0]) by {
      if r != [] {
        assert r[0] == s[i];
      }
    }
    r
  }

  /** Stripping twice is stripping once. */
  lemma StripIdempotent(s: string)
    ensures Strip(Strip(s)) == Strip(s)
  {
    var r := Strip(s);
    if r != [] {
      assert LeadingSpaces(r) == 0;
      var t := r[0..];
      assert t == r;
      assert TrailingSpaces(r) == 0;
    }
  }

  /** A string that neither starts nor ends with whitespace is its own strip. */
  lemma StripOfTrimmed(s: string)
    requires s == [] || (!IsSpace(s[0]) && !IsSpace(s[|s| - 1]))
    ensures Strip(s) == s
  {
    if s != [] {
      assert LeadingSpaces(s) == 0;
      assert s[0..] == s;
      assert TrailingSpaces(s) == 0;
    }
  }

  // ---------------------------------------------------------- join, split

  /** Python `sep.join(parts)`. */
  function Join(parts: seq<string>, sep: string): (r: string)
    ensures |parts| == 1 ==> r == parts[0]
  {
    if |parts| == 0 then ""
    else if |parts| == 1 then parts[0]
    else parts[0] + sep + Join(parts[1..], sep)
  }

  /** The summed length of the parts. */
  function TotalLength(parts: seq<string>): nat {
    if |parts| == 0 then 0 else |parts[0]| + TotalLength(parts[1..])
  }

  /** A join is as long as its parts plus one separator between each two
      neighbours. */
  lemma {:induction false} JoinLength(parts: seq<string>, sep: string)
    requires |parts| > 0
    ensures |Join(parts, sep)| == TotalLength(parts) + (|parts| - 1) * |sep|
  {
    if |parts| > 1 {
      JoinLength(parts[1..], sep);
    }
  }

  /** Joining one more part at the end. */
  lemma {:induction false} JoinSnoc(parts: seq<string>, last: string, sep: string)
    ensures Join(parts + [last], sep) == if |parts| == 0 then last else Join(parts, sep) + sep + last
  {
    if |parts| == 0 {
      assert parts + [last] == [last];
    } else if |parts| == 1 {
      assert parts + [last] == [parts[0], last];
      assert [parts[0], last][1..] == [last];
    } else {
      assert (parts + [last])[1..] == parts[1..] + [last];
      JoinSnoc(parts[1..], last, sep);
    }
  }

  /** Python `s.split(c)` for a one-character separator: always at least one
      part; neighbouring separators give empty parts. */
  function Split(s: string, c: char): (r: seq<string>)
    ensures |r| >= 1
    decreases |s|
  {
    if |s| == 0 then [""]
    else
      var rest := Split(s[1..], c);
      if s[0] == c then [""] + rest else [[s[0]] + rest[0]] + rest[1..]
  }

  /** A part free of the separator runs on into whatever follows it. */
  lemma {:induction false} SplitPrefix(p: string, t: string, c: char)
    requires c !in p
    ensures Split(p + t, c) == [p + Split(t, c)[0]] + Split(t, c)[1..]
    decreases |p|
  {
    if |p| == 0 {
      assert p + t == t;
      assert p + Split(t, c)[0] == Split(t, c)[0];
      assert [Split(t, c)[0]] + Split(t, c)[1..] == Split(t, c);
    } else {
      assert (p + t)[0] == p[0];
      assert (p + t)[1..] == p[1..] + t;
      SplitPrefix(p[1..], t, c);
      assert [p[0]] + (p[1..] + Split(t, c)[0]) == p + Split(t, c)[0];
    }
  }

  /** `split` undoes `join` when no part contains the separator. */
  lemma {:induction false} SplitJoin(parts: seq<string>, c: char)
    requires |parts| >= 1
    requires forall i :: 0 <= i < |parts| ==> c !in parts[i]
    ensures Split(Join(parts, [c]), c) == parts
  {
    if |parts| == 1 {
      SplitPrefix(parts[0], "", c);
      assert parts[0] + "" == parts[0];
    } else {
      var tail := Join(parts[1..], [c]);
      SplitJoin(parts[1..], c);
      assert Join(parts, [c]) == parts[0] + ([c] + tail);
      SplitPrefix(parts[0], [c] + tail, c);
      assert ([c] + tail)[1..] == tail;
      assert Split([c] + tail, c) == [""] + parts[1..];
      assert parts[0] + "" == parts[0];
      assert [parts[0]] + parts[1..] == parts;
    }
  }

  // ---------------------------------------------------------------- paths

  /** A component `pathlib` keeps: empty components (from `//` or a
      trailing `/`) and `.` are dropped. */
  predicate IsPathPart(part: string) {
    part != "" && part != "."
  }

  /** The components of a POSIX path as `pathlib` parses them. */
  function PathParts(s: string): seq<string> {
    Filter(Split(s, '/'), IsPathPart)
  }

  /** `str(PurePosixPath(...))` of a parsed path: a root then the
      components joined by `/`; a relative path with no components is `.`. */
  function PathString(absolute: bool, parts: seq<string>): string {
    if absolute then "/" + Join(parts, "/")
    else if |parts| == 0 then "."
    else Join(parts, "/")
  }

  /** `str(Path(dir) / name)`: an absolute `name` replaces `dir`. */
  function PathJoin(dir: string, name: string): string {
    if |name| > 0 && name[0] == '/' then PathString(true, PathParts(name))
    else PathString(|dir| > 0 && dir[0] == '/', PathParts(dir) + PathParts(name))
  }

  /** Joining a one-component name leaves it as the last component: the
      path ends with it, right after a `/` or as the whole path. */
  lemma PathJoinLast(dir: string, name: string)
    requires '/' !in name && IsPathPart(name)
    ensures var p := PathJoin(dir, name);
      EndsWith(p, name) && (|p| == |name| || p[|p| - |name| - 1] == '/')
  {
    var absolute := |dir| > 0 && dir[0] == '/';
    var parts := PathParts(dir);
    assert PathJoin(dir, name) == PathString(absolute, parts + [name]) by {
      assert name[0] in name;
      PathPartsPlain(name);
    }
    PathStringLast(absolute, parts, name);
  }

  /** A single component parses to itself. */
  lemma PathPartsPlain(part: string)
    requires '/' !in part && IsPathPart(part)
    ensures PathParts(part) == [part]
  {
    SplitJoin([part], '/');
    assert Split(part, '/') == [part];
    assert Filter([part], IsPathPart) == Filter([part][..0], IsPathPart) + [part];
  }

  /** The last component of a path string follows a `/` or starts it. */
  lemma PathStringLast(absolute: bool, parts: seq<string>, last: string)
    ensures var p := PathString(absolute, parts + [last]);
      EndsWith(p, last) && (|p| == |last| || p[|p| - |last| - 1] == '/')
  {
    JoinSnoc(parts, last, "/");
    var lead := if |parts| == 0 then "" else Join(parts, "/") + "/";
    var dirPart := if absolute then "/" + lead else lead;
    assert Join(parts + [last], "/") == lead + last;
    assert PathString(absolute, parts + [last]) == dirPart + last;
    AfterSlash(dirPart, last);
  }

  /** A string after a prefix that is empty or ends in `/`. */
  lemma AfterSlash(dirPart: string, last: string)
    requires dirPart == "" || dirPart[|dirPart| - 1] == '/'
    ensures var p := dirPart + last;
      EndsWith(p, last) && (|p| == |last| || p[|p| - |last| - 1] == '/')
  {
    var p := dirPart + last;
    assert p[|dirPart|..] == last;
    if dirPart != "" {
      assert p[|p| - |last| - 1] == dirPart[|dirPart| - 1];
    }
  }

  /** A trailing `/` is dropped. */
  lemma PathPartsTrailing(part: string)
    requires '/' !in part && IsPathPart(part)
    ensures PathParts(part + "/") == [part]
  {
    SplitJoin([part, ""], '/');
    assert Join([part, ""], "/") == part + "/";
    assert [part, ""][..1] == [part];
    assert Filter([part], IsPathPart) == Filter([part][..0], IsPathPart) + [part];
  }

  /** A leading `./` is dropped. */
  lemma PathPartsDot(part: string)
    requires '/' !in part && IsPathPart(part)
    ensures PathParts("./" + part) == [part]
  {
    SplitJoin([".", part], '/');
    assert Join([".", part], "/") == "./" + part;
    assert [".", part][..1] == ["."];
    assert Filter(["."], IsPathPart) == Filter(["."][..0], IsPathPart) + [];
  }

  /** `.` alone has no components. */
  lemma PathPartsCurrent()
    ensures PathParts(".") == []
  {
    SplitJoin(["."], '/');
    assert Join(["."], "/") == ".";
    assert Filter(["."], IsPathPart) == Filter(["."][..0], IsPathPart) + [];
  }

  /** Trailing slashes and `./` do not change a one-component directory,
      which is joined to a one-component name with a single `/`; the
      directory `.` disappears. */
  lemma PathJoinNormalises(dir: string, name: string)
    requires '/' !in dir && IsPathPart(dir)
    requires '/' !in name && IsPathPart(name)
    ensures PathJoin(dir, name) == dir + "/" + name
    ensures PathJoin(dir + "/", name) == dir + "/" + name
    ensures PathJoin("./" + dir, name) == dir + "/" + name
    ensures PathJoin(".", name) == name
  {
    assert name[0] != '/' && dir[0] != '/' by { assert name[0] in name && dir[0] in dir; }
    PathPartsPlain(dir);
    PathPartsPlain(name);
    PathPartsTrailing(dir);
    PathPartsDot(dir);
    PathPartsCurrent();
    assert Join([dir, name], "/") == dir + "/" + name;
    assert PathJoin(dir, name) == PathString(false, [dir, name]);
    assert PathJoin(dir + "/", name) == PathString(false, [dir, name]);
    assert PathJoin("./" + dir, name) == PathString(false, [dir, name]);
    assert PathJoin(".", name) == PathString(false, [] + [name]);
  }

  // ------------------------------------------------------- decimal digits

  predicate IsDigit(c: char) {
    '0' <= c <= '9'
  }

  predicate AllDigits(s: string) {
    forall i :: 0 <= i < |s| ==> IsDigit(s[i])
  }

  function DigitChar(d: nat): (c: char)
    requires d < 10
    ensures IsDigit(c) && (c as int) - ('0' as int) == d
  {
    (d + '0' as int) as char
  }

  function DigitValue(c: char): (d: nat)
    requires IsDigit(c)
    ensures d < 10 && DigitChar(d) == c
  {
    (c as int) - ('0' as int)
  }

  /** Python `str(n)` for a natural number: decimal, no leading zeros. */
  function NatToString(n: nat): (r: string)
    ensures |r| >= 1 && AllDigits(r)
    ensures r[0] == '0' ==> n == 0 && |r| == 1
    decreases n
  {
    if n < 10 then [DigitChar(n)] else NatToString(n / 10) + [DigitChar(n % 10)]
  }

  /** The value of a string of decimal digits (leading zeros allowed). */
  function ParseDigits(s: string): nat
    requires AllDigits(s)
  {
    if |s| == 0 then 0 else ParseDigits(s[..|s| - 1]) * 10 + DigitValue(s[|s| - 1])
  }

  /** Reading back a printed natural number gives the number. */
  lemma {:induction false} ParseNatToString(n: nat)
    ensures ParseDigits(NatToString(n)) == n
    decreases n
  {
    if n >= 10 {
      var s := NatToString(n);
      assert s[..|s| - 1] == NatToString(n / 10);
      ParseNatToString(n / 10);
    }
  }

  /** `k` zero characters. */
  function Zeros(k: nat): (r: string)
    ensures |r| == k && AllDigits(r)
    ensures forall i :: 0 <= i < k ==> r[i] == '0'
  {
    seq(k, _ => '0')
  }

  /** Leading zeros do not change the value of a digit string. */
  lemma {:induction false} ParseLeadingZeros(k: nat, s: string)
    requires AllDigits(s)
    ensures ParseDigits(Zeros(k) + s) == ParseDigits(s)
    decreases |s|
  {
    if |s| == 0 {
      assert Zeros(k) + s == Zeros(k);
      ParseZeros(k);
    } else {
      var t := Zeros(k) + s;
      assert t[..|t| - 1] == Zeros(k) + s[..|s| - 1];
      ParseLeadingZeros(k, s[..|s| - 1]);
    }
  }

  lemma {:induction false} ParseZeros(k: nat)
    ensures ParseDigits(Zeros(k)) == 0
  {
    if k > 0 {
      assert Zeros(k)[..k - 1] == Zeros(k - 1);
      ParseZeros(k - 1);
    }
  }

  /** Left-pad a digit string with zeros to at least `width` characters. */
  function ZeroPad(s: string, width: nat): (r: string)
    ensures |r| == if |s| >= width then |s| else width
    ensures AllDigits(s) ==> AllDigits(r)
  {
    if |s| >= width then s else Zeros(width - |s|) + s
  }

  /** Python `f"{n:0{width}d}"` (and `str(n)` when width is 0): the sign
      counts toward the width and the zeros go after it. */
  function FormatInt(n: int, width: nat): (r: string)
    ensures n >= 0 ==> AllDigits(r) && |r| >= width && |r| >= 1
    ensures n < 0 ==> |r| >= 2 && r[0] == '-' && AllDigits(r[1..])
  {
    if n >= 0 then ZeroPad(NatToString(n), width)
    else "-" + ZeroPad(NatToString(-n), if width >= 1 then width - 1 else 0)
  }

  /** A printed integer holds only digits and a leading minus sign. */
  lemma FormatIntChars(n: int, width: nat, c: char)
    requires !IsDigit(c) && c != '-'
    ensures c !in FormatInt(n, width)
  {
    var r := FormatInt(n, width);
    if n < 0 {
      assert forall i :: 1 <= i < |r| ==> r[i] == r[1..][i - 1];
    }
  }

  /** Python `str(n)` for any integer. */
  function IntToString(n: int): (r: string)
    ensures |r| >= 1
  {
    FormatInt(n, 0)
  }

  /** Python `int(s)` on a string: surrounding whitespace is ignored, then
      one optional sign and at least one decimal digit; anything else raises
      `ValueError`, which is `None` here. */
  function ParseInt(s: string): (r: Option<int>)
    ensures r.Some? ==> |Strip(s)| >= 1
  {
    var t := Strip(s);
    if |t| >= 2 && (t[0] == '-' || t[0] == '+') && AllDigits(t[1..]) then
      Some(if t[0] == '-' then -(ParseDigits(t[1..]) as int) else ParseDigits(t[1..]) as int)
    else if |t| >= 1 && AllDigits(t) then Some(ParseDigits(t) as int)
    else None
  }

  /** Every printed integer reads back as itself, whatever its padding. */
  lemma ParseIntFormat(n: int, width: nat)
    ensures ParseInt(FormatInt(n, width)) == Some(n)
  {
    if n >= 0 {
      ParseIntFormatNat(n, width);
    } else {
      ParseIntFormatNegative(n, width);
    }
  }

  lemma ParseIntFormatNat(n: nat, width: nat)
    ensures ParseInt(FormatInt(n, width)) == Some(n)
  {
    ParseIntDigits(FormatInt(n, width));
    ParseFormatInt(n, width);
  }

  lemma ParseIntFormatNegative(n: int, width: nat)
    requires n < 0
    ensures ParseInt(FormatInt(n, width)) == Some(n)
  {
    var r := FormatInt(n, width);
    var w := if width >= 1 then width - 1 else 0;
    var digits := FormatInt(-n, w);
    assert r == "-" + digits;
    assert r[1..] == digits;
    ParseFormatInt(-n, w);
    assert ParseDigits(r[1..]) == -n;
    ParseIntNegative(r);
  }

  /** A string of digits reads as its value. */
  lemma ParseIntDigits(s: string)
    requires |s| >= 1 && AllDigits(s)
    ensures ParseInt(s) == Some(ParseDigits(s) as int)
  {
    assert !IsSpace(s[0]) && !IsSpace(s[|s| - 1]);
    StripOfTrimmed(s);
  }

  /** A minus sign followed by digits reads as the negated value. */
  lemma ParseIntNegative(s: string)
    requires |s| >= 2 && s[0] == '-' && AllDigits(s[1..])
    ensures ParseInt(s) == Some(-(ParseDigits(s[1..]) as int))
  {
    assert s[|s| - 1] == s[1..][|s| - 2];
    assert !IsSpace(s[0]) && !IsSpace(s[|s| - 1]);
    StripOfTrimmed(s);
  }

  /** A zero-padded natural number reads back as itself. */
  lemma ParseFormatInt(n: nat, width: nat)
    ensures ParseDigits(FormatInt(n, width)) == n
  {
    var s := NatToString(n);
    ParseNatToString(n);
    if |s| < width {
      assert FormatInt(n, width) == Zeros(width - |s|) + s;
      ParseLeadingZeros(width - |s|, s);
    } else {
      assert FormatInt(n, width) == s;
    }
  }

  /** Numbers below 10^width print in exactly `width` characters. */
  lemma FormatIntWidth(n: nat, width: nat)
    requires 1 <= width && n < Pow10(width)
    ensures |FormatInt(n, width)| == width
  {
    NatToStringLength(n, width);
  }

  function Pow10(k: nat): (r: nat)
    ensures r >= 1
  {
    if k == 0 then 1 else 10 * Pow10(k - 1)
  }

  lemma {:induction false} NatToStringLength(n: nat, width: nat)
    requires 1 <= width && n < Pow10(width)
    ensures |NatToString(n)| <= width
    decreases n
  {
    if n >= 10 {
      assert width != 1 by {
        assert Pow10(1) == 10;
      }
      assert n / 10 < Pow10(width - 1);
      NatToStringLength(n / 10, width - 1);
    }
  }

  // -------------------------------------------------------------- prefixes

  predicate StartsWith(s: string, prefix: string) {
    |prefix| <= |s| && s[..|prefix|] == prefix
  }

  predicate EndsWith(s: string, suffix: string) {
    |suffix| <= |s| && s[|s| - |suffix|..] == suffix
  }
}
