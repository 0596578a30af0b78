/** The subtitle extractor's data handling: turning a recognition result
    into subtitle records, the SRT, WebVTT and plain-text exports, the
    timestamp format they use, and the alignment of subtitles with scenes.
    Audio extraction and the speech recognition itself are not modelled;
    their results come in as values. */
module SubtitleExtractor {
  import opened Common
  import opened Text
  import opened Intervals
  import opened Records
  import opened Clocks

  // ------------------------------------------------------ recognition results

  /** A segment of a local recognition result: `id`, `start`, `end` and
      `text` are required, `avg_logprob` is optional. */
  datatype WhisperSegment = WhisperSegment(id: int, start: real, end: real, text: string, avgLogprob: Option<real>)

  /** The subtitle `_process_result` makes of a segment. */
  function SubtitleOf(seg: WhisperSegment): (sub: Subtitle)
    ensures sub.id == seg.id && sub.start == seg.start && sub.end == seg.end
    ensures sub.text == Strip(seg.text)
    ensures sub.confidence == seg.avgLogprob.GetOr(0.0)
  {
    Subtitle(seg.id, seg.start, seg.end, Strip(seg.text), seg.avgLogprob.GetOr(0.0))
  }

  /** `_process_result`: one subtitle per segment, in order. */
  method ProcessResult(segments: seq<WhisperSegment>) returns (subs: seq<Subtitle>)
    ensures |subs| == |segments|
    ensures forall i :: 0 <= i < |segments| ==> subs[i] == SubtitleOf(segments[i])
  {
    subs := [];
    for i := 0 to |segments|
      invariant |subs| == i
      invariant forall k :: 0 <= k < i ==> subs[k] == SubtitleOf(segments[k])
    {
      var segment := segments[i];
      subs := subs + [Subtitle(segment.id, segment.start, segment.end, Strip(segment.text), segment.avgLogprob.GetOr(0.0))];
    }
  }

  /** A segment of a result from the remote API: every key is optional. */
  datatype ApiSegment = ApiSegment(start: Option<real>, end: Option<real>, text: Option<string>, avgLogprob: Option<real>)

  /** The decoded API response: `segments` and `text` are optional keys. */
  datatype ApiResult = ApiResult(segments: Option<seq<ApiSegment>>, text: Option<string>)

  /** No white space at either end. */
  predicate Trimmed(t: string) {
    t == [] || (!IsSpace(t[0]) && !IsSpace(t[|t| - 1]))
  }

  /** The subtitle made of the `idx`-th API segment: missing times and
      confidence become 0, a missing text the empty string. */
  function ApiSubtitle(seg: ApiSegment, idx: nat): (sub: Subtitle)
    ensures sub.id == idx && Trimmed(sub.text)
  {
    Subtitle(idx, seg.start.GetOr(0.0), seg.end.GetOr(0.0), Strip(seg.text.GetOr("")), seg.avgLogprob.GetOr(0.0))
  }

  /** The subtitles parsed from an API response: one per segment, numbered
      from 0; without segments, one subtitle at time 0 holding the whole
      text if that text is non-empty, none otherwise. */
  function ApiSubtitles(result: ApiResult): (subs: seq<Subtitle>)
    ensures result.segments.Some? ==> |subs| == |result.segments.value|
    ensures result.segments.None? ==> |subs| == (if result.text.GetOr("") != "" then 1 else 0)
    ensures forall i :: 0 <= i < |subs| ==> subs[i].id == i
    ensures forall i :: 0 <= i < |subs| ==> Trimmed(subs[i].text)
    ensures result.segments.None? && |subs| == 1 ==>
      subs[0] == Subtitle(0, 0.0, 0.0, Strip(result.text.value), 0.0)
  {
    match result.segments
    case Some(segs) => seq(|segs|, i requires 0 <= i < |segs| => ApiSubtitle(segs[i], i))
    case None =>
      var text := result.text.GetOr("");
      if text != "" then [Subtitle(0, 0.0, 0.0, Strip(text), 0.0)] else []
  }

  /** The parsed texts are already stripped: stripping them again changes
      nothing. */
  lemma ApiTextsStripped(result: ApiResult, i: nat)
    requires i < |ApiSubtitles(result)|
    ensures Strip(ApiSubtitles(result)[i].text) == ApiSubtitles(result)[i].text
  {
    StripOfTrimmed(ApiSubtitles(result)[i].text);
  }

  /** A text made only of white space still yields a subtitle when the
      response has no segments: the non-empty test comes before the strip. */
  lemma BlankTextKept()
    ensures ApiSubtitles(ApiResult(None, Some(" "))) == [Subtitle(0, 0.0, 0.0, "", 0.0)]
  {
    assert LeadingSpaces(" ") == 1;
  }

  /** The parsing loop of the API call. */
  method ParseApiResult(result: ApiResult) returns (subtitles: seq<Subtitle>)
    ensures subtitles == ApiSubtitles(result)
  {
    subtitles := [];
    if result.segments.Some? {
      var segs := result.segments.value;
      for idx := 0 to |segs|
        invariant |subtitles| == idx
        invariant forall k :: 0 <= k < idx ==> subtitles[k] == ApiSubtitle(segs[k], k)
      {
        var segment := segs[idx];
        subtitles := subtitles + [Subtitle(idx, segment.start.GetOr(0.0), segment.end.GetOr(0.0),
                                           Strip(segment.text.GetOr("")), segment.avgLogprob.GetOr(0.0))];
      }
    } else {
      var text := result.text.GetOr("");
      if text != "" {
        subtitles := subtitles + [Subtitle(0, 0.0, 0.0, Strip(text), 0.0)];
      }
    }
  }

  // ------------------------------------------------------------- timestamps

  /** The timestamp text: `HH:MM:SS,mmm`, or `HH:MM:SS.mmm` for WebVTT, each
      field zero-padded (and a negative hour count keeping its sign). */
  function FormatTimestamp(x: real, vtt: bool): (s: string)
    ensures |s| >= 12
  {
    var c := ClockOf(x);
    FormatInt(c.hours, 2) + ":" + FormatInt(c.minutes, 2) + ":" + FormatInt(c.seconds, 2)
      + (if vtt then "." else ",") + FormatInt(c.millis, 3)
  }

  /** A timestamp in the fixed-width form both formats share, with the given
      millisecond separator: two-digit hours, minutes and seconds below 60,
      three-digit milliseconds: the SRT timing syntax, and the WebVTT
      timestamp syntax with the hours present. */
  predicate WellFormedTimestamp(s: string, sep: char) {
    |s| == 12 && AllDigits(s[0..2]) && s[2] == ':' && AllDigits(s[3..5]) && s[5] == ':'
    && AllDigits(s[6..8]) && s[8] == sep && AllDigits(s[9..12])
    && ParseDigits(s[3..5]) < 60 && ParseDigits(s[6..8]) < 60
  }

  /** The milliseconds a well-formed timestamp stands for. */
  function TimestampMillis(s: string, sep: char): nat
    requires WellFormedTimestamp(s, sep)
  {
    ParseDigits(s[0..2]) * 3600000 + ParseDigits(s[3..5]) * 60000 + ParseDigits(s[6..8]) * 1000 + ParseDigits(s[9..12])
  }

  /** A number below 10^width printed in `width` digits reads back as
      itself. */
  lemma PaddedField(n: int, width: nat)
    requires 0 <= n && 1 <= width && n < Pow10(width)
    ensures |FormatInt(n, width)| == width && AllDigits(FormatInt(n, width))
    ensures ParseDigits(FormatInt(n, width)) == n
  {
    FormatIntWidth(n, width);
    ParseFormatInt(n, width);
  }

  /** Below 100 hours, a timestamp is well formed and reads back as the
      time cut down to whole milliseconds. */
  lemma TimestampRoundTrip(x: real, vtt: bool)
    requires 0.0 <= x < 360000.0
    ensures var sep := if vtt then '.' else ',';
      WellFormedTimestamp(FormatTimestamp(x, vtt), sep)
      && TimestampMillis(FormatTimestamp(x, vtt), sep) == (x * 1000.0).Floor
  {
    var c := ClockOf(x);
    assert Pow10(2) == 100 && Pow10(3) == 1000;
    PaddedField(c.hours, 2);
    PaddedField(c.minutes, 2);
    PaddedField(c.seconds, 2);
    PaddedField(c.millis, 3);
    TimestampLayout(FormatInt(c.hours, 2), FormatInt(c.minutes, 2), FormatInt(c.seconds, 2),
                    FormatInt(c.millis, 3), if vtt then '.' else ',');
    ClockTotal(x);
  }

  /** Fields of the right widths, joined with the right separators, form a
      well-formed timestamp whose fields are the given ones. */
  lemma TimestampLayout(hh: string, mm: string, ss: string, ms: string, sep: char)
    requires |hh| == 2 && |mm| == 2 && |ss| == 2 && |ms| == 3
    requires AllDigits(hh) && AllDigits(mm) && AllDigits(ss) && AllDigits(ms)
    requires ParseDigits(mm) < 60 && ParseDigits(ss) < 60
    ensures var s := hh + ":" + mm + ":" + ss + [sep] + ms;
      && s[0..2] == hh && s[3..5] == mm && s[6..8] == ss && s[9..12] == ms
      && WellFormedTimestamp(s, sep)
  {
    var s := hh + ":" + mm + ":" + ss + [sep] + ms;
    assert |s| == 12;
    assert s[0..2] == hh;
    assert s[3..5] == mm;
    assert s[6..8] == ss;
    assert s[9..12] == ms;
    assert s[2] == ':' && s[5] == ':' && s[8] == sep;
  }

  /** A printed timestamp never contains a line break. */
  lemma NoNewlineInTimestamp(x: real, vtt: bool)
    ensures '\n' !in FormatTimestamp(x, vtt)
  {
    var c := ClockOf(x);
    FormatIntChars(c.hours, 2, '\n');
    FormatIntChars(c.minutes, 2, '\n');
    FormatIntChars(c.seconds, 2, '\n');
    FormatIntChars(c.millis, 3, '\n');
  }

  // ---------------------------------------------------------------- exports

  /** The timing line of a cue. */
  function TimingLine(sub: Subtitle, vtt: bool): string {
    FormatTimestamp(sub.start, vtt) + " --> " + FormatTimestamp(sub.end, vtt)
  }

  lemma NoNewlineInTiming(sub: Subtitle, vtt: bool)
    ensures '\n' !in TimingLine(sub, vtt)
  {
    NoNewlineInTimestamp(sub.start, vtt);
    NoNewlineInTimestamp(sub.end, vtt);
  }

  /** An SRT cue: its number, the timing line, the text and a blank line. */
  function SrtCue(n: int, sub: Subtitle): string {
    IntToString(n) + "\n" + TimingLine(sub, false) + "\n" + sub.text + "\n\n"
  }

  /** The SRT file: the cues numbered from 1. */
  function SrtDocument(subs: seq<Subtitle>): string {
    if |subs| == 0 then "" else SrtDocument(subs[..|subs| - 1]) + SrtCue(|subs|, subs[|subs| - 1])
  }

  /** A single-line text makes an SRT cue of exactly five lines: the number,
      the timing, the text and the blank separator. */
  lemma SrtCueLines(n: int, sub: Subtitle)
    requires '\n' !in sub.text
    ensures Split(SrtCue(n, sub), '\n') == [IntToString(n), TimingLine(sub, false), sub.text, "", ""]
  {
    FormatIntChars(n, 0, '\n');
    NoNewlineInTiming(sub, false);
    SplitFive(IntToString(n), TimingLine(sub, false), sub.text, '\n');
  }

  /** Three separator-free lines followed by a blank line split back into
      the three lines and two empty ones. */
  lemma SplitFive(a: string, b: string, t: string, c: char)
    requires c !in a && c !in b && c !in t
    ensures Split(a + [c] + b + [c] + t + [c, c], c) == [a, b, t, "", ""]
  {
    var lines := [a, b, t, "", ""];
    JoinFive(lines, [c]);
    assert Join(lines, [c]) == a + [c] + b + [c] + t + [c, c];
    SplitJoin(lines, c);
  }

  /** Two separator-free lines followed by a blank line split back into the
      two lines and two empty ones. */
  lemma SplitFour(b: string, t: string, c: char)
    requires c !in b && c !in t
    ensures Split(b + [c] + t + [c, c], c) == [b, t, "", ""]
  {
    var lines := [b, t, "", ""];
    JoinFour(lines, [c]);
    assert Join(lines, [c]) == b + [c] + t + [c, c];
    SplitJoin(lines, c);
  }

  lemma JoinFive(p: seq<string>, sep: string)
    requires |p| == 5
    ensures Join(p, sep) == p[0] + sep + p[1] + sep + p[2] + sep + p[3] + sep + p[4]
  {
    assert Join(p[4..], sep) == p[4];
    assert Join(p[3..], sep) == p[3] + sep + p[4] by { assert p[3..][1..] == p[4..]; }
    assert Join(p[2..], sep) == p[2] + sep + Join(p[3..], sep) by { assert p[2..][1..] == p[3..]; }
    assert Join(p[1..], sep) == p[1] + sep + Join(p[2..], sep) by { assert p[1..][1..] == p[2..]; }
  }

  lemma JoinFour(p: seq<string>, sep: string)
    requires |p| == 4
    ensures Join(p, sep) == p[0] + sep + p[1] + sep + p[2] + sep + p[3]
  {
    assert Join(p[3..], sep) == p[3];
    assert Join(p[2..], sep) == p[2] + sep + p[3] by { assert p[2..][1..] == p[3..]; }
    assert Join(p[1..], sep) == p[1] + sep + Join(p[2..], sep) by { assert p[1..][1..] == p[2..]; }
  }

  /** `export_srt`: the file content it writes. */
  method ExportSrt(subtitles: seq<Subtitle>) returns (content: string)
    ensures content == SrtDocument(subtitles)
  {
    content := "";
    for i := 0 to |subtitles|
      invariant content == SrtDocument(subtitles[..i])
    {
      var segment := subtitles[i];
      assert subtitles[..i + 1][..i] == subtitles[..i];
      // the number, timing and text writes of one cue
      content := content + SrtCue(i + 1, segment);
    }
    assert subtitles[..|subtitles|] == subtitles;
  }

  /** A WebVTT cue: the timing line, the text and a blank line. */
  function VttCue(sub: Subtitle): string {
    TimingLine(sub, true) + "\n" + sub.text + "\n\n"
  }

  function VttCues(subs: seq<Subtitle>): string {
    if |subs| == 0 then "" else VttCues(subs[..|subs| - 1]) + VttCue(subs[|subs| - 1])
  }

  /** The WebVTT file: the signature line, a blank line, then the cues. */
  function VttDocument(subs: seq<Subtitle>): (doc: string)
    ensures StartsWith(doc, "WEBVTT\n\n")
  {
    "WEBVTT\n\n" + VttCues(subs)
  }

  /** A single-line text makes a WebVTT cue of exactly four lines. */
  lemma VttCueLines(sub: Subtitle)
    requires '\n' !in sub.text
    ensures Split(VttCue(sub), '\n') == [TimingLine(sub, true), sub.text, "", ""]
  {
    NoNewlineInTiming(sub, true);
    SplitFour(TimingLine(sub, true), sub.text, '\n');
  }

  lemma AppendAssoc(a: string, b: string, c: string)
    ensures a + (b + c) == a + b + c
  {
  }

  /** `export_vtt`: the file content it writes. */
  method ExportVtt(subtitles: seq<Subtitle>) returns (content: string)
    ensures content == VttDocument(subtitles)
  {
    content := "WEBVTT\n\n";
    for i := 0 to |subtitles|
      invariant content == VttDocument(subtitles[..i])
    {
      var segment := subtitles[i];
      assert subtitles[..i + 1][..i] == subtitles[..i];
      AppendAssoc("WEBVTT\n\n", VttCues(subtitles[..i]), VttCue(segment));
      // the timing and text writes of one cue
      content := content + VttCue(segment);
    }
    assert subtitles[..|subtitles|] == subtitles;
  }

  /** `export_txt`: the texts joined by single spaces. */
  function ExportTxt(subtitles: seq<Subtitle>): (text: string)
    ensures |subtitles| == 0 ==> text == ""
    ensures |subtitles| == 1 ==> text == subtitles[0].text
  {
    Join(Texts(subtitles), " ")
  }

  /** One more subtitle adds its text after a single space (or is the
      whole text when it is the first). */
  lemma ExportTxtSnoc(subtitles: seq<Subtitle>, last: Subtitle)
    ensures ExportTxt(subtitles + [last]) ==
      if |subtitles| == 0 then last.text else ExportTxt(subtitles) + " " + last.text
  {
    assert Texts(subtitles + [last]) == Texts(subtitles) + [last.text];
    JoinSnoc(Texts(subtitles), last.text, " ");
  }

  /** The export holds every text and one space between neighbours. */
  lemma ExportTxtLength(subtitles: seq<Subtitle>)
    requires |subtitles| >= 1
    ensures |ExportTxt(subtitles)| == TotalLength(Texts(subtitles)) + |subtitles| - 1
  {
    JoinLength(Texts(subtitles), " ");
  }

  /** When no text contains a space, splitting the plain-text export on
      spaces gives the texts back. */
  lemma ExportTxtSplit(subtitles: seq<Subtitle>)
    requires |subtitles| >= 1
    requires forall i :: 0 <= i < |subtitles| ==> ' ' !in subtitles[i].text
    ensures Split(ExportTxt(subtitles), ' ') == Texts(subtitles)
  {
    SplitJoin(Texts(subtitles), ' ');
  }

  // -------------------------------------------------------------- alignment

  /** One entry of `align_with_scenes`: the scene's detector id, its
      attached texts joined by spaces, and how many there are. */
  datatype Aligned = Aligned(sceneId: int, text: string, segments: nat)

  /** The entry for one scene. */
  function AlignedOf(scene: Scene, subtitles: seq<Subtitle>): (a: Aligned)
    ensures a.sceneId == scene.id
    ensures a.segments == |SceneSubtitles(scene, subtitles)| && a.segments <= |subtitles|
    ensures a.segments == 0 ==> a.text == ""
  {
    var subs := SceneSubtitles(scene, subtitles);
    Aligned(scene.id, Join(Texts(subs), " "), |subs|)
  }

  /** One more subtitle: when it passes the overlap test its text joins
      the scene's text after a single space and the count grows by one;
      otherwise the entry is unchanged. */
  lemma AlignedSnoc(scene: Scene, subtitles: seq<Subtitle>, last: Subtitle)
    ensures var a := AlignedOf(scene, subtitles);
      AlignedOf(scene, subtitles + [last]) ==
        if Overlaps(last.start, last.end, scene.startTime, scene.endTime)
        then Aligned(scene.id, if a.segments == 0 then last.text else a.text + " " + last.text, a.segments + 1)
        else a
  {
    var subs := SceneSubtitles(scene, subtitles);
    SceneSubtitlesConcat(scene, subtitles, [last]);
    assert SceneSubtitles(scene, [last]) ==
      if Overlaps(last.start, last.end, scene.startTime, scene.endTime) then [last] else [];
    if Overlaps(last.start, last.end, scene.startTime, scene.endTime) {
      assert Texts(subs + [last]) == Texts(subs) + [last.text];
      JoinSnoc(Texts(subs), last.text, " ");
    } else {
      assert subs + [] == subs;
    }
  }

  /** When no text contains a space, an entry's text splits back into
      exactly `segments` texts, those of the overlapping subtitles in order. */
  lemma AlignedSplit(scene: Scene, subtitles: seq<Subtitle>)
    requires forall i :: 0 <= i < |subtitles| ==> ' ' !in subtitles[i].text
    requires AlignedOf(scene, subtitles).segments > 0
    ensures var a := AlignedOf(scene, subtitles);
      Split(a.text, ' ') == Texts(SceneSubtitles(scene, subtitles)) && |Split(a.text, ' ')| == a.segments
  {
    var subs := SceneSubtitles(scene, subtitles);
    forall i | 0 <= i < |subs| ensures ' ' !in Texts(subs)[i] {
      var j :| 0 <= j < |subtitles| && subtitles[j] == subs[i];
    }
    SplitJoin(Texts(subs), ' ');
  }

  /** `align_with_scenes`: for every scene in order, the subtitles passing
      the three-way overlap test. */
  method AlignWithScenes(subtitles: seq<Subtitle>, scenes: seq<Scene>) returns (aligned: seq<Aligned>)
    ensures |aligned| == |scenes|
    ensures forall i :: 0 <= i < |scenes| ==> aligned[i] == AlignedOf(scenes[i], subtitles)
  {
    aligned := [];
    for i := 0 to |scenes|
      invariant |aligned| == i
      invariant forall k :: 0 <= k < i ==> aligned[k] == AlignedOf(scenes[k], subtitles)
    {
      var scene := scenes[i];
      var sceneText := CollectSceneText(scene, subtitles);
      aligned := aligned + [Aligned(scene.id, Join(sceneText, " "), |sceneText|)];
    }
  }

  /** The inner loop of `align_with_scenes`: the texts of the subtitles
      overlapping one scene. */
  method CollectSceneText(scene: Scene, subtitles: seq<Subtitle>) returns (sceneText: seq<string>)
    ensures sceneText == Texts(SceneSubtitles(scene, subtitles))
  {
    sceneText := [];
    for j := 0 to |subtitles|
      invariant sceneText == Texts(SceneSubtitles(scene, subtitles[..j]))
    {
      var segment := subtitles[j];
      SceneSubtitlesConcat(scene, subtitles[..j], [segment]);
      assert subtitles[..j + 1] == subtitles[..j] + [segment];
      if Overlaps(segment.start, segment.end, scene.startTime, scene.endTime) {
        sceneText := sceneText + [segment.text];
      }
    }
    assert subtitles[..|subtitles|] == subtitles;
  }
}
