/** The video analyzer: the frame positions sampled for the quality
    estimate, the quality score computed from the sampled pixel statistics,
    the duration from the frame count, and the per-path cache of analysis
    results. Opening the file, seeking and reading frames, the pixel
    statistics themselves and the codec and audio probes are parameters. */
module VideoAnalyzer {
  import opened Common

  // -------------------------------------------------------------- duration

  /** The size and timing read from the container. */
  datatype BasicInfo = BasicInfo(width: int, height: int, fps: real, frameCount: int, duration: real)

  /** `_get_basic_info`: the duration is the frame count over the frame
      rate, and 0 when the rate is not positive. */
  function BasicInfoOf(width: int, height: int, fps: real, frameCount: int): (info: BasicInfo)
    ensures info.width == width && info.height == height && info.fps == fps && info.frameCount == frameCount
    ensures fps > 0.0 ==> info.duration * fps == frameCount as real
    ensures fps <= 0.0 ==> info.duration == 0.0
  {
    BasicInfo(width, height, fps, frameCount, if fps > 0.0 then frameCount as real / fps else 0.0)
  }

  // -------------------------------------------------------- sample indices

  /** How many frames are sampled: `min(10, frame_count)`. */
  function SampleCount(frameCount: int): int {
    if frameCount < 10 then frameCount else 10
  }

  /** The sampled frame positions: `int(i * frame_count / sample_count)`
      for `i` below the sample count. Both operands are non-negative, so
      truncating the quotient is integer division. */
  function SampleIndices(frameCount: int): (indices: seq<int>)
    ensures |indices| == if frameCount <= 0 then 0 else SampleCount(frameCount)
    ensures forall i :: 0 <= i < |indices| ==> 0 <= indices[i] < frameCount
    ensures forall i, j :: 0 <= i < j < |indices| ==> indices[i] < indices[j]
  {
    var n := SampleCount(frameCount);
    if n <= 0 then []
    else
      var indices := seq(n, i requires 0 <= i < n => i * frameCount / n);
      forall i | 0 <= i < n ensures 0 <= indices[i] < frameCount {
        IndexBelow(i, frameCount, n);
      }
      forall i, j | 0 <= i < j < n ensures indices[i] < indices[j] {
        IndexIncreasing(i, j, frameCount, n);
      }
      indices
  }

  /** Position `i` of `n` samples lies inside the video. */
  lemma IndexBelow(i: int, frameCount: int, n: int)
    requires 0 <= i < n && 0 < n <= frameCount
    ensures 0 <= i * frameCount / n < frameCount
  {
    var a := i * frameCount;
    MulLe(0, i, frameCount);
    MulLe(i + 1, n, frameCount);
    assert (i + 1) * frameCount == a + frameCount;
    DivBelow(a, frameCount, n);
  }

  /** Later samples are later frames: the step `frame_count / n` is at least
      one frame since `n <= frame_count`. */
  lemma IndexIncreasing(i: int, j: int, frameCount: int, n: int)
    requires 0 <= i < j < n && 0 < n <= frameCount
    ensures i * frameCount / n < j * frameCount / n
  {
    var a := i * frameCount;
    var b := j * frameCount;
    MulLe(i + 1, j, frameCount);
    assert (i + 1) * frameCount == a + frameCount;
    var r := a / n;
    assert a == r * n + a % n && a % n >= 0;
    assert (r + 1) * n == r * n + n;
    DivAtLeast(b, r + 1, n);
  }

  /** Multiplying by a non-negative factor keeps order. */
  lemma MulLe(x: int, y: int, c: int)
    requires x <= y && c >= 0
    ensures x * c <= y * c
  {
    assert y * c - x * c == (y - x) * c;
  }

  /** A non-negative value below `m` multiples of `n` has a quotient in
      [0, m). */
  lemma DivBelow(a: int, m: int, n: int)
    requires n > 0 && 0 <= a < m * n
    ensures 0 <= a / n < m
  {
    var r := a / n;
    assert a == r * n + a % n && 0 <= a % n < n;
    if r < 0 {
      MulLe(r, -1, n);
    }
    if m <= r {
      MulLe(m, r, n);
    }
  }

  /** A multiple of `n` not above `b` bounds `b / n` from below. */
  lemma DivAtLeast(b: int, q: int, n: int)
    requires n > 0 && q * n <= b
    ensures q <= b / n
  {
    var r := b / n;
    var m := b % n;
    assert b == r * n + m && m < n;
    assert (r + 1) * n == r * n + n;
    if r + 1 <= q {
      MulLe(r + 1, q, n);
    }
  }

  /** Dividing a multiple of `n` by `n` gives the factor back. */
  lemma DivExact(i: int, n: int)
    requires 0 <= i && n > 0
    ensures i * n / n == i
  {
    assert (i + 1) * n == i * n + n;
    DivAtLeast(i * n, i, n);
    DivBelow(i * n, i + 1, n);
  }

  /** Fewer than ten frames are sampled one by one. */
  lemma ShortVideoSamplesAll(frameCount: int)
    requires 0 < frameCount < 10
    ensures SampleIndices(frameCount) == seq(frameCount, i requires 0 <= i < frameCount => i)
  {
    var indices := SampleIndices(frameCount);
    forall i | 0 <= i < frameCount ensures indices[i] == i {
      DivExact(i, frameCount);
    }
  }

  // --------------------------------------------------------- quality score

  /** The statistics of one sampled grayscale frame: the mean, the standard
      deviation and the Laplacian variance. */
  datatype FrameStats = FrameStats(brightness: real, contrast: real, sharpness: real)

  /** The unrounded weighted score of the three averages: 30% brightness
      (full at 127.5, falling linearly to 0 at 0 and 255), 30% contrast
      (full from 80) and 40% sharpness (full from 1000). */
  function ScoreOfAverages(avgBrightness: real, avgContrast: real, avgSharpness: real): (r: real)
    ensures 0.0 <= avgBrightness <= 255.0 && avgContrast >= 0.0 && avgSharpness >= 0.0 ==> 0.0 <= r
    ensures r <= 100.0
    ensures r == 100.0 <==> avgBrightness == 127.5 && avgContrast >= 80.0 && avgSharpness >= 1000.0
  {
    var brightnessScore := 100.0 - Abs(avgBrightness - 127.5) / 127.5 * 100.0;
    var contrastScore := Min(avgContrast / 80.0 * 100.0, 100.0);
    var sharpnessScore := Min(avgSharpness / 1000.0 * 100.0, 100.0);
    brightnessScore * 0.3 + contrastScore * 0.3 + sharpnessScore * 0.4
  }

  /** `_calculate_quality_score` before rounding: 0 when any list is empty,
      the score of the three averages otherwise. */
  function QualityScore(brightness: seq<real>, contrast: seq<real>, sharpness: seq<real>): (r: real)
    ensures brightness == [] || contrast == [] || sharpness == [] ==> r == 0.0
    ensures r <= 100.0
  {
    if brightness == [] || contrast == [] || sharpness == [] then 0.0
    else ScoreOfAverages(Average(brightness), Average(contrast), Average(sharpness))
  }

  /** Frames whose brightness lies in [0, 255] and whose contrast and
      sharpness are not negative give a score in [0, 100]. */
  lemma QualityScoreBounds(brightness: seq<real>, contrast: seq<real>, sharpness: seq<real>)
    requires forall i :: 0 <= i < |brightness| ==> 0.0 <= brightness[i] <= 255.0
    requires forall i :: 0 <= i < |contrast| ==> 0.0 <= contrast[i]
    requires forall i :: 0 <= i < |sharpness| ==> 0.0 <= sharpness[i]
    ensures 0.0 <= QualityScore(brightness, contrast, sharpness) <= 100.0
  {
    if brightness != [] && contrast != [] && sharpness != [] {
      AverageBounds(brightness, 0.0, 255.0);
      AverageAtLeast(contrast, 0.0);
      AverageAtLeast(sharpness, 0.0);
    }
  }

  /** The score reported by `_calculate_quality_score`: 0.0 for an empty
      list, the score rounded to two decimals otherwise. */
  function ReportedScore(brightness: seq<real>, contrast: seq<real>, sharpness: seq<real>, round: Rounding): (r: real)
    ensures brightness == [] || contrast == [] || sharpness == [] ==> r == 0.0
    ensures brightness != [] && contrast != [] && sharpness != [] ==>
      r == round(QualityScore(brightness, contrast, sharpness), 2)
  {
    if brightness == [] || contrast == [] || sharpness == [] then 0.0
    else round(QualityScore(brightness, contrast, sharpness), 2)
  }

  // ---------------------------------------------------------- quality info

  /** The quality part of the analysis: the three averages (0 for no
      readable frame) and the reported score. */
  datatype QualityInfo = QualityInfo(avgBrightness: real, avgContrast: real, avgSharpness: real, qualityScore: real)

  function Brightnesses(stats: seq<FrameStats>): (r: seq<real>)
    ensures |r| == |stats|
  {
    if |stats| == 0 then [] else Brightnesses(stats[..|stats| - 1]) + [stats[|stats| - 1].brightness]
  }

  function Contrasts(stats: seq<FrameStats>): (r: seq<real>)
    ensures |r| == |stats|
  {
    if |stats| == 0 then [] else Contrasts(stats[..|stats| - 1]) + [stats[|stats| - 1].contrast]
  }

  function Sharpnesses(stats: seq<FrameStats>): (r: seq<real>)
    ensures |r| == |stats|
  {
    if |stats| == 0 then [] else Sharpnesses(stats[..|stats| - 1]) + [stats[|stats| - 1].sharpness]
  }

  /** Adding a readable frame adds its statistics to each list. */
  lemma StatsSnoc(stats: seq<FrameStats>, st: FrameStats)
    ensures Brightnesses(stats + [st]) == Brightnesses(stats) + [st.brightness]
    ensures Contrasts(stats + [st]) == Contrasts(stats) + [st.contrast]
    ensures Sharpnesses(stats + [st]) == Sharpnesses(stats) + [st.sharpness]
  {
    assert (stats + [st])[..|stats|] == stats;
  }

  /** Python's `sum(values) / len(values) if values else 0`. */
  function AverageOrZero(values: seq<real>): real {
    if values == [] then 0.0 else Average(values)
  }

  /** The statistics of the readable sampled frames, in index order. */
  function SampledStats(frameCount: int, read: int -> Option<FrameStats>): (stats: seq<FrameStats>)
    ensures |stats| <= |SampleIndices(frameCount)|
  {
    CollectSome(ReadAll(SampleIndices(frameCount), read))
  }

  /** The outcome of reading each of the given frames. */
  function ReadAll(indices: seq<int>, read: int -> Option<FrameStats>): (attempts: seq<Option<FrameStats>>)
    ensures |attempts| == |indices| && forall k :: 0 <= k < |indices| ==> attempts[k] == read(indices[k])
  {
    seq(|indices|, k requires 0 <= k < |indices| => read(indices[k]))
  }

  /** What `_get_quality_info` reports for the readable frames. */
  function QualityOf(stats: seq<FrameStats>, round: Rounding): (q: QualityInfo)
    ensures stats == [] ==> q == QualityInfo(0.0, 0.0, 0.0, 0.0)
    ensures stats != [] ==> q.qualityScore == round(QualityScore(Brightnesses(stats), Contrasts(stats), Sharpnesses(stats)), 2)
  {
    var b, c, s := Brightnesses(stats), Contrasts(stats), Sharpnesses(stats);
    QualityInfo(AverageOrZero(b), AverageOrZero(c), AverageOrZero(s), ReportedScore(b, c, s, round))
  }

  /** A video with no readable sampled frame reports zero quality. */
  lemma NoFramesNoQuality(frameCount: int, read: int -> Option<FrameStats>, round: Rounding)
    requires forall k :: 0 <= k < frameCount ==> read(k).None?
    ensures QualityOf(SampledStats(frameCount, read), round) == QualityInfo(0.0, 0.0, 0.0, 0.0)
  {
    var indices := SampleIndices(frameCount);
    var attempts := ReadAll(indices, read);
    CollectSomeNone(attempts);
  }

  /** `_get_quality_info`: read each sampled frame, skip the unreadable
      ones, collect the three statistics and average them. */
  method GetQualityInfo(frameCount: int, read: int -> Option<FrameStats>, round: Rounding)
    returns (info: QualityInfo)
    ensures info == QualityOf(SampledStats(frameCount, read), round)
  {
    var sampleIndices := SampleIndices(frameCount);
    var brightnessValues, contrastValues, sharpnessValues := ReadSamples(sampleIndices, read);
    info := QualityInfo(
      AverageOrZero(brightnessValues), AverageOrZero(contrastValues), AverageOrZero(sharpnessValues),
      ReportedScore(brightnessValues, contrastValues, sharpnessValues, round));
  }

  /** Three lists holding the brightness, contrast and sharpness of the
      given frames, in order. */
  ghost predicate ColumnsOf(stats: seq<FrameStats>, b: seq<real>, c: seq<real>, s: seq<real>) {
    b == Brightnesses(stats) && c == Contrasts(stats) && s == Sharpnesses(stats)
  }

  /** A readable frame adds one entry to each list. */
  lemma ColumnsSnoc(stats: seq<FrameStats>, st: FrameStats, b: seq<real>, c: seq<real>, s: seq<real>)
    requires ColumnsOf(stats, b, c, s)
    ensures ColumnsOf(stats + [st], b + [st.brightness], c + [st.contrast], s + [st.sharpness])
  {
    StatsSnoc(stats, st);
  }

  /** The loop of `_get_quality_info`: the three statistics of the readable
      frames among `indices`, in order. */
  method ReadSamples(indices: seq<int>, read: int -> Option<FrameStats>)
    returns (brightnessValues: seq<real>, contrastValues: seq<real>, sharpnessValues: seq<real>)
    ensures ColumnsOf(CollectSome(ReadAll(indices, read)), brightnessValues, contrastValues, sharpnessValues)
  {
    ghost var attempts := ReadAll(indices, read);
    ghost var stats: seq<FrameStats> := [];
    brightnessValues, contrastValues, sharpnessValues := [], [], [];
    for k := 0 to |indices|
      invariant stats == CollectSome(attempts[..k])
      invariant ColumnsOf(stats, brightnessValues, contrastValues, sharpnessValues)
    {
      CollectSomePrefix(attempts, k);
      var frame := read(indices[k]);
      assert attempts[k] == frame;
      if frame.None? {
        assert frame.ToSeq() == [];
        continue;
      }
      assert frame.ToSeq() == [frame.value];
      ColumnsSnoc(stats, frame.value, brightnessValues, contrastValues, sharpnessValues);
      stats := stats + [frame.value];
      brightnessValues := brightnessValues + [frame.value.brightness];
      contrastValues := contrastValues + [frame.value.contrast];
      sharpnessValues := sharpnessValues + [frame.value.sharpness];
    }
    assert attempts[..|indices|] == attempts;
  }

  // ----------------------------------------------------------------- cache

  /** What the probes of one file give: its basic and quality information
      and its size in bytes (the codec and audio probes are not modelled). */
  datatype Measurement = Measurement(basic: BasicInfo, quality: QualityInfo, fileSize: int)

  /** The merged analysis result of one file. */
  datatype VideoInfo = VideoInfo(basic: BasicInfo, quality: QualityInfo, filePath: string, fileSize: int)

  /** The analyzer with its result cache keyed by path. */
  class VideoAnalyzer {
    const cacheEnabled: bool
    var cache: map<string, VideoInfo>

    /** Every cached result is that of the path it is stored under, and a
        disabled cache stays empty. */
    ghost predicate Valid()
      reads this
    {
      (forall p :: p in cache ==> cache[p].filePath == p)
      && (!cacheEnabled ==> cache == map[])
    }

    /** `__init__`: an empty cache. */
    constructor(cacheEnabled: bool)
      ensures this.cacheEnabled == cacheEnabled && cache == map[]
      ensures Valid()
    {
      this.cacheEnabled := cacheEnabled;
      cache := map[];
    }

    /** `analyze`: a missing file is an error before anything else; a cached
        path returns its stored result; otherwise the file is measured, a
        failure is reported with its message, and a success is cached when
        caching is enabled. */
    method Analyze(path: string, fileExists: bool, measure: string -> Result<Measurement, string>)
      returns (r: Result<VideoInfo, string>)
      requires Valid()
      modifies this
      ensures Valid()
      ensures !fileExists ==> r == Err("视频文件不存在: " + path) && cache == old(cache)
      ensures fileExists && cacheEnabled && path in old(cache) ==> r == Ok(old(cache)[path]) && cache == old(cache)
      ensures fileExists && !(cacheEnabled && path in old(cache)) ==>
        && (measure(path).Err? ==> r == Err("视频分析失败: " + measure(path).error) && cache == old(cache))
        && (measure(path).Ok? ==>
              var m := measure(path).value;
              && r == Ok(VideoInfo(m.basic, m.quality, path, m.fileSize))
              && cache == if cacheEnabled then old(cache)[path := r.value] else old(cache))
      ensures r.Ok? ==> r.value.filePath == path
    {
      if !fileExists {
        return Err("视频文件不存在: " + path);
      }
      if cacheEnabled && path in cache {
        return Ok(cache[path]);
      }
      var measured := measure(path);
      if measured.Err? {
        return Err("视频分析失败: " + measured.error);
      }
      var m := measured.value;
      var result := VideoInfo(m.basic, m.quality, path, m.fileSize);
      if cacheEnabled {
        cache := cache[path := result];
      }
      return Ok(result);
    }

    /** `clear_cache`: the cache is empty afterwards. */
    method ClearCache()
      requires Valid()
      modifies this
      ensures cache == map[]
      ensures Valid()
    {
      cache := map[];
    }
  }

  /** With caching enabled, analysing a path again returns the first result
      unchanged, whatever the second measurement would give. */
  method RepeatAnalyzeIsCached(
    analyzer: VideoAnalyzer, path: string,
    first: string -> Result<Measurement, string>, second: string -> Result<Measurement, string>)
    returns (r1: Result<VideoInfo, string>, r2: Result<VideoInfo, string>)
    requires analyzer.Valid() && analyzer.cacheEnabled
    modifies analyzer
    ensures r1.Ok? ==> r2 == r1
  {
    r1 := analyzer.Analyze(path, true, first);
    r2 := analyzer.Analyze(path, true, second);
  }
}
