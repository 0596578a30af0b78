/** Keyframe extraction for one scene: sample times from a mode-dependent
    interval, read and score the frames, keep the best up to the per-scene
    limit in time order, name and hash them; and the exact-hash
    deduplication of the result. Frames come from a reader by frame number;
    the pixel statistics and the 8x8 grayscale grid of a frame are given. */
module KeyframeExtractor {
  import opened Common
  import opened Text
  import opened Sorting
  import opened Records

  // ------------------------------------------------------------------ modes

  /** The parameters of an extraction mode. `qualityThreshold` is never
      read by the extraction. */
  datatype ModeConfig = ModeConfig(interval: real, qualityThreshold: real)

  /** `mode_configs`. */
  const ModeConfigs: map<string, ModeConfig> :=
    map["low" := ModeConfig(3.0, 0.3), "medium" := ModeConfig(2.0, 0.5), "high" := ModeConfig(1.0, 0.7)]

  /** The sampling interval of a mode: its configured one, 2 seconds for any
      other (custom) mode. */
  function Interval(mode: string): (r: real)
    ensures r > 0.0
    ensures mode in ModeConfigs ==> r == ModeConfigs[mode].interval
    ensures mode !in ModeConfigs ==> r == 2.0
  {
    if mode in ModeConfigs then ModeConfigs[mode].interval else 2.0
  }

  /** The intervals by name: low 3 s, medium 2 s, high 1 s, otherwise 2 s. */
  lemma IntervalByMode(mode: string)
    ensures Interval("low") == 3.0 && Interval("medium") == 2.0 && Interval("high") == 1.0
    ensures mode != "low" && mode != "medium" && mode != "high" ==> Interval(mode) == 2.0
  {
  }

  // --------------------------------------------------------------- sampling

  /** The most entries a slice `[:k]` of a longer list keeps. */
  function Limit(k: int): nat {
    if k < 0 then 0 else k
  }

  /** The offset of the `k`-th grid point from the scene start. */
  function GridPoint(k: nat, interval: real): real {
    k as real * interval
  }

  /** How many grid points the sampling loop takes starting from the `k`-th:
      it goes on while the offset is below the duration and fewer than
      `maxFrames` are taken. */
  function GridCountFrom(k: nat, duration: real, interval: real, maxFrames: int): (n: nat)
    requires interval > 0.0
    ensures n >= k
    ensures k <= maxFrames ==> n <= maxFrames
    ensures forall j :: k <= j < n ==> GridPoint(j, interval) < duration
    ensures n >= maxFrames || GridPoint(n, interval) >= duration
    decreases maxFrames - k
  {
    if k < maxFrames && GridPoint(k, interval) < duration then GridCountFrom(k + 1, duration, interval, maxFrames)
    else k
  }

  /** The sample times of a scene: the grid `start + k * interval` while it
      stays inside the duration, up to `maxFrames` points; when the grid
      falls short of `maxFrames`, start, middle and end minus 0.1 instead,
      cut to `maxFrames`. */
  function SampleTimes(scene: Scene, interval: real, maxFrames: int): (times: seq<real>)
    requires interval > 0.0
    ensures |times| <= Limit(maxFrames)
    ensures var n := GridCountFrom(0, scene.duration, interval, maxFrames);
      n >= maxFrames ==>
        |times| == n && forall k :: 0 <= k < |times| ==>
          times[k] == scene.startTime + GridPoint(k, interval) && GridPoint(k, interval) < scene.duration
    ensures var n := GridCountFrom(0, scene.duration, interval, maxFrames);
      n < maxFrames ==>
        |times| == (if Limit(maxFrames) < 3 then Limit(maxFrames) else 3)
        && (|times| > 0 ==> times[0] == scene.startTime)
        && (|times| > 1 ==> times[1] == scene.startTime + scene.duration / 2.0)
        && (|times| > 2 ==> times[2] == scene.endTime - 0.1)
  {
    var n := GridCountFrom(0, scene.duration, interval, maxFrames);
    if n < maxFrames then
      PyPrefix([scene.startTime, scene.startTime + scene.duration / 2.0, scene.endTime - 0.1], maxFrames)
    else
      seq(n, k requires 0 <= k < n => scene.startTime + GridPoint(k, interval))
  }

  /** The sampling loop of `_extract_from_scene`. */
  method SampleSceneTimes(scene: Scene, interval: real, maxFrames: int) returns (sampleTimes: seq<real>)
    requires interval > 0.0
    ensures sampleTimes == SampleTimes(scene, interval, maxFrames)
  {
    sampleTimes := [];
    var currentTime := 0.0;
    ghost var n := GridCountFrom(0, scene.duration, interval, maxFrames);
    while currentTime < scene.duration && |sampleTimes| < maxFrames
      invariant currentTime == GridPoint(|sampleTimes|, interval)
      invariant GridCountFrom(|sampleTimes|, scene.duration, interval, maxFrames) == n
      invariant sampleTimes == seq(|sampleTimes|, k requires 0 <= k < |sampleTimes| => scene.startTime + GridPoint(k, interval))
      decreases maxFrames - |sampleTimes|
    {
      sampleTimes := sampleTimes + [scene.startTime + currentTime];
      currentTime := currentTime + interval;
    }
    if |sampleTimes| < maxFrames {
      sampleTimes := PyPrefix([scene.startTime, scene.startTime + scene.duration / 2.0, scene.endTime - 0.1], maxFrames);
    }
  }

  // ---------------------------------------------------------------- frames

  /** The 8x8 grayscale image after the area resize, row by row. */
  type Grid = g: seq<int> | |g| == 64 && forall i :: 0 <= i < |g| ==> 0 <= g[i] <= 255
    witness seq(64, _ => 0)

  /** What the extractor uses of a frame: the Laplacian variance, the
      grayscale standard deviation and mean, the mean HSV saturation, and
      the 8x8 grid. */
  datatype Frame = Frame(sharpness: real, contrast: real, brightness: real, saturation: real, grid: Grid)

  /** `_evaluate_frame_quality` before rounding: 40% sharpness (full at
      1000), 30% contrast (full at 80), 20% closeness of the mean to 127.5,
      10% saturation. It is a mark out of 1 for statistics in their ranges,
      and 1 exactly when each part is full. */
  function FrameQuality(f: Frame): (q: real)
    ensures f.sharpness >= 0.0 && f.contrast >= 0.0 && 0.0 <= f.brightness <= 255.0 && 0.0 <= f.saturation <= 255.0 ==>
      0.0 <= q <= 1.0
        && (q == 1.0 <==> f.sharpness >= 1000.0 && f.contrast >= 80.0 && f.brightness == 127.5 && f.saturation == 255.0)
  {
    var sharpnessScore := Min(f.sharpness / 1000.0, 1.0);
    var contrastScore := Min(f.contrast / 80.0, 1.0);
    var brightnessScore := 1.0 - Abs(f.brightness - 127.5) / 127.5;
    var colorScore := f.saturation / 255.0;
    sharpnessScore * 0.4 + contrastScore * 0.3 + brightnessScore * 0.2 + colorScore * 0.1
  }

  // ------------------------------------------------------------------ hash

  function SumInts(s: seq<int>): int {
    if |s| == 0 then 0 else SumInts(s[..|s| - 1]) + s[|s| - 1]
  }

  /** The grid's mean pixel value. */
  function Mean(g: Grid): real {
    SumInts(g) as real / 64.0
  }

  /** Bit i is set iff pixel i is strictly brighter than the mean. */
  function HashBits(g: Grid): (bits: seq<bool>)
    ensures |bits| == 64 && forall i :: 0 <= i < 64 ==> (bits[i] <==> g[i] as real > Mean(g))
  {
    seq(64, i requires 0 <= i < 64 => g[i] as real > Mean(g))
  }

  function Pow2(k: nat): (r: nat)
    ensures r >= 1
  {
    if k == 0 then 1 else 2 * Pow2(k - 1)
  }

  function Pow16(k: nat): (r: nat)
    ensures r >= 1
  {
    if k == 0 then 1 else 16 * Pow16(k - 1)
  }

  /** `int(bits, 2)`: the first bit is the most significant. */
  function BitsToNat(bits: seq<bool>): (v: nat)
    ensures v < Pow2(|bits|)
  {
    if |bits| == 0 then 0
    else BitsToNat(bits[..|bits| - 1]) * 2 + (if bits[|bits| - 1] then 1 else 0)
  }

  const HexAlphabet: string := "0123456789abcdef"

  /** Lower-case hexadecimal digits. */
  predicate IsHexDigit(c: char) {
    c in HexAlphabet
  }

  function HexValue(c: char): (d: nat)
    requires IsHexDigit(c)
    ensures d < 16 && HexAlphabet[d] == c
  {
    if '0' <= c <= '9' then (c as int) - ('0' as int) else (c as int) - ('a' as int) + 10
  }

  /** `format(v, '0{k}x')` for a value below 16^k: exactly `k` lower-case
      hexadecimal digits, zero-padded. */
  function HexDigits(v: nat, k: nat): (s: string)
    ensures |s| == k && forall i :: 0 <= i < k ==> IsHexDigit(s[i])
  {
    if k == 0 then "" else HexDigits(v / 16, k - 1) + [HexAlphabet[v % 16]]
  }

  /** The value of a string of hexadecimal digits. */
  function ParseHex(s: string): nat
    requires forall i :: 0 <= i < |s| ==> IsHexDigit(s[i])
  {
    if |s| == 0 then 0 else ParseHex(s[..|s| - 1]) * 16 + HexValue(s[|s| - 1])
  }

  /** Reading the digits back gives the value. */
  lemma {:induction false} ParseHexDigits(v: nat, k: nat)
    requires v < Pow16(k)
    ensures ParseHex(HexDigits(v, k)) == v
  {
    if k > 0 {
      var q, r := v / 16, v % 16;
      var s := HexDigits(v, k);
      assert s == HexDigits(q, k - 1) + [HexAlphabet[r]];
      assert s[..k - 1] == HexDigits(q, k - 1);
      HexValueOf(r);
      ParseHexDigits(q, k - 1);
    }
  }

  /** The digit of a value below 16 reads back as that value. */
  lemma HexValueOf(r: nat)
    requires r < 16
    ensures HexValue(HexAlphabet[r]) == r
  {
  }

  lemma {:induction false} Pow2Pow16(k: nat)
    ensures Pow2(4 * k) == Pow16(k)
  {
    if k > 0 {
      Pow2Pow16(k - 1);
      calc {
        Pow2(4 * k);
        2 * Pow2(4 * k - 1);
        4 * Pow2(4 * k - 2);
        8 * Pow2(4 * k - 3);
        16 * Pow2(4 * (k - 1));
      }
    }
  }

  /** `_calculate_image_hash`: the 64 mean-threshold bits as 16 hex digits. */
  function ImageHash(g: Grid): (h: string)
    ensures |h| == 16 && forall i :: 0 <= i < 16 ==> IsHexDigit(h[i])
  {
    HexDigits(BitsToNat(HashBits(g)), 16)
  }

  /** The hash is the bits: its digits read back as the bit value. */
  lemma ImageHashValue(g: Grid)
    ensures ParseHex(ImageHash(g)) == BitsToNat(HashBits(g))
  {
    HexOfBits(HashBits(g), 16);
  }

  /** Four bits per hex digit: k digits hold any 4k-bit value exactly. */
  lemma HexOfBits(bits: seq<bool>, k: nat)
    requires |bits| == 4 * k
    ensures ParseHex(HexDigits(BitsToNat(bits), k)) == BitsToNat(bits)
  {
    Pow2Pow16(k);
    ParseHexDigits(BitsToNat(bits), k);
  }

  /** Only all-one bits give the largest value. */
  lemma {:induction false} BitsAllOnes(bits: seq<bool>)
    requires BitsToNat(bits) == Pow2(|bits|) - 1
    ensures forall i :: 0 <= i < |bits| ==> bits[i]
  {
    if |bits| > 0 {
      var init := bits[..|bits| - 1];
      assert bits[|bits| - 1];
      BitsAllOnes(init);
      assert forall i :: 0 <= i < |init| ==> bits[i] == init[i];
    }
  }

  lemma {:induction false} HexDigitsZero(k: nat)
    ensures HexDigits(0, k) == seq(k, _ => '0')
  {
    if k > 0 {
      HexDigitsZero(k - 1);
    }
  }

  /** If every value is above `m`, so is their sum against `|s| * m`. */
  lemma {:induction false} SumAbove(s: seq<int>, m: real)
    requires forall i :: 0 <= i < |s| ==> s[i] as real > m
    ensures |s| > 0 ==> SumInts(s) as real > |s| as real * m
    ensures |s| == 0 ==> SumInts(s) == 0
  {
    if |s| > 0 {
      SumAbove(s[..|s| - 1], m);
    }
  }

  lemma {:induction false} SumConstant(s: seq<int>, c: int)
    requires forall i :: 0 <= i < |s| ==> s[i] == c
    ensures SumInts(s) == |s| * c
  {
    if |s| > 0 {
      SumConstant(s[..|s| - 1], c);
    }
  }

  /** A uniform grid hashes to sixteen zeros. */
  lemma UniformGridHash(g: Grid)
    requires forall i :: 0 <= i < 64 ==> g[i] == g[0]
    ensures ImageHash(g) == "0000000000000000"
  {
    SumConstant(g, g[0]);
    assert Mean(g) == g[0] as real;
    var bits := HashBits(g);
    assert bits == seq(64, _ => false);
    BitsZero(bits);
    HexDigitsZero(16);
  }

  lemma {:induction false} BitsZero(bits: seq<bool>)
    requires forall i :: 0 <= i < |bits| ==> !bits[i]
    ensures BitsToNat(bits) == 0
  {
    if |bits| > 0 {
      BitsZero(bits[..|bits| - 1]);
    }
  }

  /** The darkest pixel is not above the mean, so some bit is clear. */
  lemma SomeBitClear(g: Grid)
    ensures exists i :: 0 <= i < 64 && !HashBits(g)[i]
  {
    if forall i :: 0 <= i < 64 ==> HashBits(g)[i] {
      forall i | 0 <= i < |g| ensures g[i] as real > Mean(g) {
        assert HashBits(g)[i];
      }
      SumAbove(g, Mean(g));
      assert false;
    }
  }

  /** Bits that read as all f's are all set. */
  lemma AllFBitsSet(bits: seq<bool>, k: nat)
    requires |bits| == 4 * k && HexDigits(BitsToNat(bits), k) == seq(k, _ => 'f')
    ensures forall i :: 0 <= i < |bits| ==> bits[i]
  {
    Pow2Pow16(k);
    ParseHexDigits(BitsToNat(bits), k);
    ParseAllF(k);
    BitsAllOnes(bits);
  }

  lemma {:induction false} ParseAllF(k: nat)
    ensures ParseHex(seq(k, _ => 'f')) == Pow16(k) - 1
  {
    if k > 0 {
      assert seq(k, _ => 'f')[..k - 1] == seq(k - 1, _ => 'f');
      ParseAllF(k - 1);
    }
  }

  /** The hash is never sixteen f's. */
  lemma HashNeverAllOnes(g: Grid)
    ensures ImageHash(g) != "ffffffffffffffff"
  {
    var bits := HashBits(g);
    if ImageHash(g) == "ffffffffffffffff" {
      var k := |bits| / 4;
      assert "ffffffffffffffff" == seq(k, _ => 'f');
      AllFBitsSet(bits, k);
      SomeBitClear(g);
      assert false;
    }
  }

  // ------------------------------------------------------------- candidates

  /** A readable sample: its time, frame number, frame and rounded quality. */
  datatype Candidate = Candidate(time: real, frameNumber: int, frame: Frame, quality: real)

  function QualityOf(c: Candidate): real { c.quality }

  function TimeOf(c: Candidate): real { c.time }

  /** `int(time * fps)`: the frame shown at a time. */
  function FrameNumber(t: real, fps: real): int {
    Trunc(t * fps)
  }

  /** The candidate of one sample time, if the frame at `int(time * fps)`
      can be read; its quality is rounded to three places. */
  function CandidateAt(t: real, fps: real, read: int -> Option<Frame>, round: Rounding): (c: seq<Candidate>)
    ensures |c| <= 1
    ensures |c| == 1 <==> read(FrameNumber(t, fps)).Some?
    ensures |c| == 1 ==>
      c[0].time == t && c[0].frameNumber == FrameNumber(t, fps)
      && read(c[0].frameNumber) == Some(c[0].frame) && c[0].quality == round(FrameQuality(c[0].frame), 3)
  {
    var n := FrameNumber(t, fps);
    match read(n)
    case Some(f) => [Candidate(t, n, f, round(FrameQuality(f), 3))]
    case None => []
  }

  /** The candidates of some sample times, in sample order; unreadable
      samples are skipped. */
  function Candidates(times: seq<real>, fps: real, read: int -> Option<Frame>, round: Rounding): (cs: seq<Candidate>)
    ensures |cs| <= |times|
    ensures forall i :: 0 <= i < |cs| ==>
      cs[i].frameNumber == FrameNumber(cs[i].time, fps)
      && read(cs[i].frameNumber) == Some(cs[i].frame) && cs[i].quality == round(FrameQuality(cs[i].frame), 3)
  {
    if |times| == 0 then []
    else Candidates(times[..|times| - 1], fps, read, round) + CandidateAt(times[|times| - 1], fps, read, round)
  }

  /** Every candidate comes from a sample time. */
  lemma {:induction false} CandidatesFromTimes(times: seq<real>, fps: real, read: int -> Option<Frame>, round: Rounding)
    ensures forall c :: c in Candidates(times, fps, read, round) ==> c.time in times
  {
    if |times| > 0 {
      var init := times[..|times| - 1];
      CandidatesFromTimes(init, fps, read, round);
      forall c | c in Candidates(times, fps, read, round) ensures c.time in times {
        if c in Candidates(init, fps, read, round) {
          assert c.time in init;
        }
      }
    }
  }

  /** A readable sample is never lost. */
  lemma {:induction false} CandidatesComplete(times: seq<real>, fps: real, read: int -> Option<Frame>, round: Rounding, k: nat)
    requires k < |times| && read(FrameNumber(times[k], fps)).Some?
    ensures exists i :: 0 <= i < |Candidates(times, fps, read, round)| && Candidates(times, fps, read, round)[i].time == times[k]
  {
    var cs := Candidates(times, fps, read, round);
    var init := times[..|times| - 1];
    if k == |times| - 1 {
      assert cs[|cs| - 1].time == times[k];
    } else {
      assert init[k] == times[k];
      CandidatesComplete(init, fps, read, round, k);
      var i :| 0 <= i < |Candidates(init, fps, read, round)| && Candidates(init, fps, read, round)[i].time == times[k];
      assert cs[i] == Candidates(init, fps, read, round)[i];
    }
  }

  /** The reading loop of `_extract_from_scene`. */
  method ReadCandidates(sampleTimes: seq<real>, fps: real, read: int -> Option<Frame>, round: Rounding)
    returns (candidates: seq<Candidate>)
    ensures candidates == Candidates(sampleTimes, fps, read, round)
  {
    candidates := [];
    for i := 0 to |sampleTimes|
      invariant candidates == Candidates(sampleTimes[..i], fps, read, round)
    {
      var t := sampleTimes[i];
      var frameNumber := FrameNumber(t, fps);
      assert sampleTimes[..i + 1][..i] == sampleTimes[..i];
      var frame := read(frameNumber);
      if frame.Some? {
        candidates := candidates + [Candidate(t, frameNumber, frame.value, round(FrameQuality(frame.value), 3))];
      }
    }
    assert sampleTimes[..|sampleTimes|] == sampleTimes;
  }

  /** The best `maxFrames` candidates by quality, back in time order. */
  function Selected(candidates: seq<Candidate>, maxFrames: int): seq<Candidate> {
    StableSort(PyPrefix(StableSortDescending(candidates, QualityOf), maxFrames), TimeOf)
  }

  /** When there are no more candidates than `maxFrames` (as in the
      extractor) the cut drops nothing: the selection is the candidates in
      time order. */
  lemma SelectedFacts(candidates: seq<Candidate>, maxFrames: int)
    requires |candidates| <= Limit(maxFrames)
    ensures multiset(Selected(candidates, maxFrames)) == multiset(candidates)
    ensures forall i, j :: 0 <= i < j < |Selected(candidates, maxFrames)| ==>
      Selected(candidates, maxFrames)[i].time <= Selected(candidates, maxFrames)[j].time
  {
    var ranked := StableSortDescending(candidates, QualityOf);
    assert PyPrefix(ranked, maxFrames) == ranked;
    assert SortedBy(Selected(candidates, maxFrames), TimeOf);
  }

  // -------------------------------------------------------------- keyframes

  /** The keyframe dict the extractor produces. `imagePath` is present only
      when an output directory was given. */
  datatype KeyframeInfo = KeyframeInfo(
    sceneId: int, sceneIndex: int, keyframeIndex: nat, time: real, frameNumber: int,
    quality: real, imagePath: Option<string>, imageHash: string)

  /** `f"{prefix}{scene_id}_keyframe_{idx+1:02d}.jpg"`. */
  function KeyframeName(prefix: string, sceneId: int, idx: nat): (name: string)
    ensures StartsWith(name, prefix) && EndsWith(name, ".jpg")
  {
    prefix + IntToString(sceneId) + "_keyframe_" + FormatInt(idx + 1, 2) + ".jpg"
  }

  /** The number in a keyframe name is the 1-based index, in two digits
      below 100. */
  lemma KeyframeNameIndex(prefix: string, sceneId: int, idx: nat)
    requires idx + 1 < 100
    ensures |KeyframeName(prefix, sceneId, idx)| >= 6
    ensures var name := KeyframeName(prefix, sceneId, idx);
      var digits := name[|name| - 6..|name| - 4];
      name == prefix + IntToString(sceneId) + "_keyframe_" + digits + ".jpg"
      && AllDigits(digits) && ParseDigits(digits) == idx + 1
  {
    assert Pow10(2) == 100;
    FormatIntWidth(idx + 1, 2);
    ParseFormatInt(idx + 1, 2);
  }

  /** The image path `str(Path(output_dir) / name)`, when an output
      directory is given and non-empty. */
  function ImagePath(outputDir: Option<string>, prefix: string, sceneId: int, idx: nat): (p: Option<string>)
    ensures p.Some? <==> outputDir.Some? && outputDir.value != ""
  {
    match outputDir
    case Some(dir) => if dir != "" then Some(PathJoin(dir, KeyframeName(prefix, sceneId, idx))) else None
    case None => None
  }

  /** Without a `/` in the prefix, a keyframe name is one path component. */
  lemma KeyframeNamePlain(prefix: string, sceneId: int, idx: nat)
    requires '/' !in prefix
    ensures var name := KeyframeName(prefix, sceneId, idx);
      '/' !in name && IsPathPart(name)
  {
    var id := IntToString(sceneId);
    var number := FormatInt(idx + 1, 2);
    assert '/' !in id by {
      NoSlashInInt(sceneId, 0);
    }
    assert '/' !in number by {
      NoSlashInInt(idx + 1, 2);
    }
    var name := KeyframeName(prefix, sceneId, idx);
    assert name == prefix + id + "_keyframe_" + number + ".jpg";
    assert |name| >= 4;
  }

  /** A printed integer holds digits and at most a minus sign. */
  lemma NoSlashInInt(n: int, width: nat)
    ensures '/' !in FormatInt(n, width)
  {
    var s := FormatInt(n, width);
    if n < 0 {
      assert s == [s[0]] + s[1..];
      assert '/' !in s[1..] by { assert AllDigits(s[1..]); }
    } else {
      assert AllDigits(s);
    }
  }

  /** The stored path names the keyframe file: its last component is the
      keyframe name, whatever the directory. */
  lemma ImagePathFile(dir: string, prefix: string, sceneId: int, idx: nat)
    requires dir != "" && '/' !in prefix
    ensures var p := ImagePath(Some(dir), prefix, sceneId, idx).value;
      var name := KeyframeName(prefix, sceneId, idx);
      EndsWith(p, name) && (|p| == |name| || p[|p| - |name| - 1] == '/')
  {
    KeyframeNamePlain(prefix, sceneId, idx);
    PathJoinLast(dir, KeyframeName(prefix, sceneId, idx));
  }

  /** The keyframe index can be read back from the stored path: the two
      digits before `.jpg` are the 1-based index. */
  lemma ImagePathIndex(dir: string, prefix: string, sceneId: int, idx: nat, p: string)
    requires dir != "" && '/' !in prefix && idx + 1 < 100
    requires ImagePath(Some(dir), prefix, sceneId, idx) == Some(p)
    ensures |p| >= 6 && AllDigits(p[|p| - 6..|p| - 4]) && ParseDigits(p[|p| - 6..|p| - 4]) == idx + 1
  {
    ImagePathFile(dir, prefix, sceneId, idx);
    KeyframeNameIndex(prefix, sceneId, idx);
    SuffixDigits(p, KeyframeName(prefix, sceneId, idx), idx + 1);
  }

  /** The two digits before a four-character extension read the same in a
      path as in the file name it ends with. */
  lemma SuffixDigits(p: string, name: string, n: nat)
    requires EndsWith(p, name) && |name| >= 6
    requires AllDigits(name[|name| - 6..|name| - 4]) && ParseDigits(name[|name| - 6..|name| - 4]) == n
    ensures |p| >= 6 && AllDigits(p[|p| - 6..|p| - 4]) && ParseDigits(p[|p| - 6..|p| - 4]) == n
  {
    assert p[|p| - |name|..] == name;
    assert p[|p| - 6..|p| - 4] == name[|name| - 6..|name| - 4];
  }

  /** `pathlib` normalises the directory: `out/`, `./out` and `out` give
      the same path, and `.` gives the bare file name. */
  lemma ImagePathNormalised(dir: string, prefix: string, sceneId: int, idx: nat)
    requires '/' !in dir && IsPathPart(dir) && '/' !in prefix
    ensures var name := KeyframeName(prefix, sceneId, idx);
      && ImagePath(Some(dir), prefix, sceneId, idx) == Some(dir + "/" + name)
      && ImagePath(Some(dir + "/"), prefix, sceneId, idx) == Some(dir + "/" + name)
      && ImagePath(Some("./" + dir), prefix, sceneId, idx) == Some(dir + "/" + name)
      && ImagePath(Some("."), prefix, sceneId, idx) == Some(name)
  {
    var name := KeyframeName(prefix, sceneId, idx);
    assert PathJoin(dir, name) == dir + "/" + name && PathJoin(dir + "/", name) == dir + "/" + name
        && PathJoin("./" + dir, name) == dir + "/" + name && PathJoin(".", name) == name by {
      KeyframeNamePlain(prefix, sceneId, idx);
      PathJoinNormalises(dir, name);
    }
    assert dir + "/" != "" && "./" + dir != "";
  }

  /** The record of the `idx`-th selected candidate. */
  function KeyframeOf(c: Candidate, idx: nat, sceneId: int, sceneIndex: int, outputDir: Option<string>, prefix: string): KeyframeInfo {
    KeyframeInfo(sceneId, sceneIndex, idx, c.time, c.frameNumber, c.quality,
                 ImagePath(outputDir, prefix, sceneId, idx), ImageHash(c.frame.grid))
  }

  /** What `_extract_from_scene` returns for `scene`. */
  function SceneKeyframes(
    scene: Scene, mode: string, maxFrames: int, fps: real, read: int -> Option<Frame>, round: Rounding,
    outputDir: Option<string>, prefix: string): seq<KeyframeInfo>
  {
    var selected := Selected(Candidates(SampleTimes(scene, Interval(mode), maxFrames), fps, read, round), maxFrames);
    var sceneId := SceneKey(scene);
    seq(|selected|, i requires 0 <= i < |selected| =>
      KeyframeOf(selected[i], i, sceneId, scene.index.GetOr(sceneId), outputDir, prefix))
  }

  /** The keyframes of a scene are at most `maxFrames`, in time order. */
  lemma SceneKeyframesOrdered(
    scene: Scene, mode: string, maxFrames: int, fps: real, read: int -> Option<Frame>, round: Rounding,
    outputDir: Option<string>, prefix: string)
    ensures var keyframes := SceneKeyframes(scene, mode, maxFrames, fps, read, round, outputDir, prefix);
      |keyframes| <= Limit(maxFrames)
      && forall i, j :: 0 <= i < j < |keyframes| ==> keyframes[i].time <= keyframes[j].time
  {
    var cs := Candidates(SampleTimes(scene, Interval(mode), maxFrames), fps, read, round);
    SelectedFacts(cs, maxFrames);
    assert |Selected(cs, maxFrames)| == |cs|;
  }

  /** Each keyframe of a scene is indexed from 0, lies at a sample time and
      carries the frame number, rounded quality and hash of the frame read
      there and the path it was saved under. */
  lemma SceneKeyframesFrames(
    scene: Scene, mode: string, maxFrames: int, fps: real, read: int -> Option<Frame>, round: Rounding,
    outputDir: Option<string>, prefix: string)
    ensures var keyframes := SceneKeyframes(scene, mode, maxFrames, fps, read, round, outputDir, prefix);
      forall i :: 0 <= i < |keyframes| ==>
        keyframes[i].keyframeIndex == i && keyframes[i].sceneId == SceneKey(scene)
        && keyframes[i].time in SampleTimes(scene, Interval(mode), maxFrames)
        && keyframes[i].frameNumber == FrameNumber(keyframes[i].time, fps)
        && read(keyframes[i].frameNumber).Some?
        && keyframes[i].imageHash == ImageHash(read(keyframes[i].frameNumber).value.grid)
        && keyframes[i].quality == round(FrameQuality(read(keyframes[i].frameNumber).value), 3)
        && keyframes[i].imagePath == ImagePath(outputDir, prefix, SceneKey(scene), i)
  {
    var times := SampleTimes(scene, Interval(mode), maxFrames);
    var selected := Selected(Candidates(times, fps, read, round), maxFrames);
    var keyframes := SceneKeyframes(scene, mode, maxFrames, fps, read, round, outputDir, prefix);
    SelectedFromTimes(times, fps, read, round, maxFrames);
    forall i | 0 <= i < |keyframes|
      ensures keyframes[i].time in times
      ensures keyframes[i].frameNumber == FrameNumber(keyframes[i].time, fps)
      ensures read(keyframes[i].frameNumber) == Some(selected[i].frame)
      ensures keyframes[i].quality == round(FrameQuality(selected[i].frame), 3)
    {
      assert selected[i] in selected;
    }
  }

  /** Every selected candidate comes from a sample time, with the frame
      read there. */
  lemma SelectedFromTimes(times: seq<real>, fps: real, read: int -> Option<Frame>, round: Rounding, maxFrames: int)
    requires |times| <= Limit(maxFrames)
    ensures forall c :: c in Selected(Candidates(times, fps, read, round), maxFrames) ==>
      c.time in times && c.frameNumber == FrameNumber(c.time, fps) && read(c.frameNumber) == Some(c.frame)
      && c.quality == round(FrameQuality(c.frame), 3)
  {
    var cs := Candidates(times, fps, read, round);
    SelectedFacts(cs, maxFrames);
    CandidatesFromTimes(times, fps, read, round);
    forall c | c in Selected(cs, maxFrames)
      ensures c.time in times && c.frameNumber == FrameNumber(c.time, fps) && read(c.frameNumber) == Some(c.frame)
      ensures c.quality == round(FrameQuality(c.frame), 3)
    {
      assert c in multiset(Selected(cs, maxFrames));
      assert c in cs;
    }
  }

  /** The record-building loop of `_extract_from_scene`. */
  method BuildKeyframes(selected: seq<Candidate>, sceneId: int, sceneIndex: int, outputDir: Option<string>, prefix: string)
    returns (keyframes: seq<KeyframeInfo>)
    ensures |keyframes| == |selected|
    ensures forall i :: 0 <= i < |selected| ==> keyframes[i] == KeyframeOf(selected[i], i, sceneId, sceneIndex, outputDir, prefix)
  {
    keyframes := [];
    for idx := 0 to |selected|
      invariant |keyframes| == idx
      invariant forall i :: 0 <= i < idx ==> keyframes[i] == KeyframeOf(selected[i], i, sceneId, sceneIndex, outputDir, prefix)
    {
      var c := selected[idx];
      var imagePath: Option<string> := None;
      if outputDir.Some? && outputDir.value != "" {
        imagePath := Some(PathJoin(outputDir.value, KeyframeName(prefix, sceneId, idx)));
      }
      assert imagePath == ImagePath(outputDir, prefix, sceneId, idx);
      keyframes := keyframes + [KeyframeInfo(sceneId, sceneIndex, idx, c.time, c.frameNumber, c.quality,
                                             imagePath, ImageHash(c.frame.grid))];
    }
  }

  /** `_extract_from_scene`. The video capture becomes `read`, which gives
      the frame at a frame number or nothing; Python's `round` is `round`. */
  method ExtractFromScene(
    scene: Scene, mode: string, maxFrames: int, fps: real, read: int -> Option<Frame>, round: Rounding,
    outputDir: Option<string>, prefix: string)
    returns (keyframes: seq<KeyframeInfo>)
    ensures keyframes == SceneKeyframes(scene, mode, maxFrames, fps, read, round, outputDir, prefix)
  {
    var sceneId := SceneKey(scene);
    var sceneIndex := scene.index.GetOr(sceneId);
    var interval := Interval(mode);
    var sampleTimes := SampleSceneTimes(scene, interval, maxFrames);
    var candidates := ReadCandidates(sampleTimes, fps, read, round);
    // best first, cut, back to time order
    var ranked := StableSortDescending(candidates, QualityOf);
    var selected := PyPrefix(ranked, maxFrames);
    selected := StableSort(selected, TimeOf);
    keyframes := BuildKeyframes(selected, sceneId, sceneIndex, outputDir, prefix);
  }

  // ------------------------------------------------------------------ dedup

  /** A hash that takes part in deduplication: present and non-empty. */
  predicate Counts(h: Option<string>) {
    h.Some? && h.value != ""
  }

  /** Whether `remove_duplicates` keeps `s[i]`: it has no usable hash, or no
      earlier entry has the same one. */
  predicate KeptAt<T>(s: seq<T>, hash: T -> Option<string>, i: nat)
    requires i < |s|
  {
    !Counts(hash(s[i])) || forall j :: 0 <= j < i ==> hash(s[j]) != hash(s[i])
  }

  /** The deduplicated list: the kept entries in their original order. */
  function Dedup<T>(s: seq<T>, hash: T -> Option<string>): (r: seq<T>)
    ensures |r| <= |s|
  {
    if |s| == 0 then []
    else Dedup(s[..|s| - 1], hash) + (if KeptAt(s, hash, |s| - 1) then [s[|s| - 1]] else [])
  }

  /** The hashes already seen after the entries of `s`. */
  function SeenHashes<T>(s: seq<T>, hash: T -> Option<string>): set<string> {
    set i | 0 <= i < |s| && Counts(hash(s[i])) :: hash(s[i]).value
  }

  /** `a` is `b` with some entries left out, the rest in order. */
  ghost predicate IsSubsequence<T>(a: seq<T>, b: seq<T>)
    decreases |b|
  {
    if |a| == 0 then true
    else if |b| == 0 then false
    else if a[|a| - 1] == b[|b| - 1] && IsSubsequence(a[..|a| - 1], b[..|b| - 1]) then true
    else IsSubsequence(a, b[..|b| - 1])
  }

  /** The result is an order-preserving subsequence of the input. */
  lemma {:induction false} DedupSubsequence<T>(s: seq<T>, hash: T -> Option<string>)
    ensures IsSubsequence(Dedup(s, hash), s)
  {
    if |s| > 0 {
      var init := s[..|s| - 1];
      DedupSubsequence(init, hash);
      if !KeptAt(s, hash, |s| - 1) {
        assert Dedup(s, hash) == Dedup(init, hash);
        SubsequenceExtend(Dedup(init, hash), init, s[|s| - 1]);
      } else {
        var r := Dedup(s, hash);
        assert r == Dedup(init, hash) + [s[|s| - 1]];
        assert r[..|r| - 1] == Dedup(init, hash);
        assert s[..|s| - 1] == init;
      }
    }
  }

  lemma {:induction false} SubsequenceExtend<T>(a: seq<T>, b: seq<T>, x: T)
    requires IsSubsequence(a, b)
    ensures IsSubsequence(a, b + [x])
  {
    assert (b + [x])[..|b|] == b;
  }

  lemma {:induction false} SubsequenceMembers<T>(a: seq<T>, b: seq<T>)
    requires IsSubsequence(a, b)
    ensures forall i :: 0 <= i < |a| ==> a[i] in b
    decreases |b|
  {
    if |a| > 0 && |b| > 0 {
      if a[|a| - 1] == b[|b| - 1] && IsSubsequence(a[..|a| - 1], b[..|b| - 1]) {
        SubsequenceMembers(a[..|a| - 1], b[..|b| - 1]);
        forall i | 0 <= i < |a| ensures a[i] in b {
          if i < |a| - 1 {
            assert a[i] == a[..|a| - 1][i];
            assert a[i] in b[..|b| - 1];
          }
        }
      } else {
        SubsequenceMembers(a, b[..|b| - 1]);
        forall i | 0 <= i < |a| ensures a[i] in b {
          assert a[i] in b[..|b| - 1];
        }
      }
    }
  }

  /** No two entries of the result share a usable hash. */
  ghost predicate DistinctHashes<T>(s: seq<T>, hash: T -> Option<string>) {
    forall i, j :: 0 <= i < j < |s| && Counts(hash(s[i])) ==> hash(s[i]) != hash(s[j])
  }

  /** After deduplication no usable hash occurs twice. */
  lemma {:induction false} DedupDistinct<T>(s: seq<T>, hash: T -> Option<string>)
    ensures DistinctHashes(Dedup(s, hash), hash)
  {
    if |s| > 0 {
      var init, x := s[..|s| - 1], s[|s| - 1];
      DedupDistinct(init, hash);
      var p := Dedup(init, hash);
      if KeptAt(s, hash, |s| - 1) && Counts(hash(x)) {
        DedupSubsequence(init, hash);
        SubsequenceMembers(p, init);
        var r := p + [x];
        forall i | 0 <= i < |p|
          ensures hash(p[i]) != hash(x)
        {
          var j :| 0 <= j < |init| && init[j] == p[i];
          assert s[j] == p[i];
        }
        assert r == Dedup(s, hash);
      }
    }
  }

  /** Every usable hash of the input survives, on its first entry. */
  lemma {:induction false} DedupKeepsFirst<T>(s: seq<T>, hash: T -> Option<string>, i: nat)
    requires i < |s| && KeptAt(s, hash, i)
    ensures s[i] in Dedup(s, hash)
  {
    if i == |s| - 1 {
    } else {
      var init := s[..|s| - 1];
      assert KeptAt(init, hash, i) by {
        assert forall j :: 0 <= j < i ==> init[j] == s[j];
      }
      DedupKeepsFirst(init, hash, i);
      assert s[i] == init[i];
    }
  }

  /** A list whose usable hashes are distinct is left as it is. */
  lemma {:induction false} DedupOfDistinct<T>(s: seq<T>, hash: T -> Option<string>)
    requires DistinctHashes(s, hash)
    ensures Dedup(s, hash) == s
  {
    if |s| > 0 {
      var init := s[..|s| - 1];
      assert DistinctHashes(init, hash);
      DedupOfDistinct(init, hash);
      assert KeptAt(s, hash, |s| - 1);
    }
  }

  /** Deduplicating twice is deduplicating once. */
  lemma DedupIdempotent<T>(s: seq<T>, hash: T -> Option<string>)
    ensures Dedup(Dedup(s, hash), hash) == Dedup(s, hash)
  {
    DedupDistinct(s, hash);
    DedupOfDistinct(Dedup(s, hash), hash);
  }

  /** `remove_duplicates(keyframes, similarity_threshold)`: entries with no
      usable hash are kept, and of those sharing a hash only the first.
      `hash` reads an entry's `image_hash`; the threshold is never used. */
  method RemoveDuplicates<T>(keyframes: seq<T>, hash: T -> Option<string>, similarityThreshold: real)
    returns (unique: seq<T>)
    ensures unique == Dedup(keyframes, hash)
    ensures DistinctHashes(unique, hash)
  {
    DedupDistinct(keyframes, hash);
    if |keyframes| == 0 {
      return keyframes;
    }
    unique := [];
    var seen: set<string> := {};
    for i := 0 to |keyframes|
      invariant unique == Dedup(keyframes[..i], hash)
      invariant seen == SeenHashes(keyframes[..i], hash)
    {
      var kf := keyframes[i];
      var hashVal := hash(kf);
      var prefix := keyframes[..i + 1];
      assert prefix[..i] == keyframes[..i];
      assert KeptAt(prefix, hash, i) <==> !Counts(hashVal) || hashVal.value !in seen by {
        if Counts(hashVal) && hashVal.value in seen {
          var j :| 0 <= j < i && Counts(hash(keyframes[j])) && hash(keyframes[j]).value == hashVal.value;
          assert prefix[j] == keyframes[j];
        }
      }
      if !Counts(hashVal) || hashVal.value !in seen {
        unique := unique + [kf];
        if Counts(hashVal) {
          seen := seen + {hashVal.value};
        }
      }
      assert SeenHashes(prefix, hash) == SeenHashes(keyframes[..i], hash)
        + (if Counts(hashVal) then {hashVal.value} else {});
    }
    assert keyframes[..|keyframes|] == keyframes;
  }
}
