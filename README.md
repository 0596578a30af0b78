# AI-CUT scene pipeline in Dafny

This project models the deterministic core of AI-CUT, a tool that cuts a
film into a short commentary video. The modelled parts are:

- **Highlight selection** (`highlight_selector.dfy`). Subtitles are attached
  to each detected scene by a three-way overlap test. Each scene gets a score
  out of 100 from dialogue density, subtitle count and duration. A greedy pass
  takes scenes in descending score order under a duration budget and stops
  early at 95% of it. The chosen scenes are put back in time order and
  numbered 1..N.
- **Multimodal fusion** (`multimodal_fusion.dfy`). For each scene, the
  time-stamped vision, OCR and face results inside its closed interval are
  merged, the fully contained subtitles are joined, and the scene is scored
  with a second formula. That formula has no guard, so a zero-length scene
  raises a division error.
- **Keyframe extraction** (`keyframe_extractor.dfy`):
  - sample times from a mode-dependent interval, with a start/middle/end
    fallback;
  - candidate frames, ranked by quality, cut to the limit and put back in
    time order;
  - image names and paths;
  - the 64-bit average hash printed as 16 hex digits;
  - exact-hash deduplication.
- **Subtitles** (`subtitle_extractor.dfy`):
  - local recogniser segments and remote API responses turned into subtitle
    records;
  - SRT and WebVTT timestamps;
  - the SRT, WebVTT and plain-text layouts;
  - subtitle-to-scene alignment.
- **Script analysis** (`script_analyzer.dfy`):
  - which keyframes go with a scene, with the positional fallback;
  - which scenes are skipped;
  - the dialogue cut from the whole-video subtitles;
  - the shape of each script record.
- **Video analysis** (`video_analyzer.dfy`):
  - the duration from frame count and fps;
  - the sampled frame indices;
  - the quality score;
  - the analyzer's result cache.
- **Formatting utilities** (`format_utils.dfy`). Time formatting and parsing,
  size units, percentages, string truncation and thousands grouping.
- **Record types** (`models.dfy`). Scene, keyframe, audio, script and project
  records with their dictionary conversions, plus the two records that change
  in place (`Script.update` and `Project.update_timestamp`).
- **Plugins** (`plugins.dfy`). The plugin base class and the plugin manager's
  registry.

Shared definitions live in their own files:

| file | contents |
|---|---|
| `common.dfy` | `Option`/`Result`, Python slicing, floor and truncation, filtering, sums and averages |
| `text.dfy` | strip, join, split, integer printing and parsing |
| `clock.dfy` | hours/minutes/seconds/milliseconds of a time |
| `sorting.dfy` | Python's stable `list.sort` |
| `intervals.dfy` | the overlap and containment tests |
| `records.dfy` | scene and subtitle records |

Times, durations and scores are `real`. Several things become parameters:

- Python's `round(x, n)` (`Rounding`) and `:.Nf` float printing
  (`FixedPoint`);
- the frame reader (frame number to optional frame);
- the picture describer of the script analyzer;
- the probes of the video analyzer;
- the clock (`now`).

Methods carry the source's loops, and each method is proved equal to a
specification function about which the properties are stated as lemmas.

## Model

| member | source | states |
|---|---|---|
| Intervals.OverlapsCharacterized | core/highlight_selector.py:112-117 | for a well-formed subtitle and a non-empty scene, the three-way test holds iff the intervals intersect, or a zero-length subtitle sits on a scene boundary |
| Intervals.InsideOverlaps | core/multimodal_fusion.py:113-115 | a subtitle contained in a scene also passes the overlap test |
| Intervals.OverlapsNotInside | core/multimodal_fusion.py:113-115 | the two tests differ: a subtitle straddling the scene start overlaps but is not contained |
| Records.SceneKey | core/keyframe_extractor.py:109 | `selected_id or id`: a present non-zero `selected_id`, otherwise the detector `id` |
| Records.OverlappingSubtitles | core/highlight_selector.py:112-117 | exactly the subtitles passing the three-way overlap test, taken from the input |
| Records.OverlappingConcat | core/highlight_selector.py:112-117 | the overlap filter keeps input order: filtering a concatenation concatenates the filtered parts |
| Sorting.StableSort | core/highlight_selector.py:93 | `list.sort(key=...)`: a permutation of the input, ascending by key |
| Sorting.StableSortStable | core/highlight_selector.py:93 | the sort is stable: elements with equal keys keep their input order |
| Sorting.StableSortDescending | core/highlight_selector.py:66 | `sort(reverse=True)`: a permutation of the input, descending by key |
| Sorting.StableSortDescendingStable | core/highlight_selector.py:66 | `sort(reverse=True)` is stable: elements with equal keys come out in their input order, so of two equal-score scenes the earlier one is offered to the greedy pass first |
| Sorting.WithKeyNeg | core/highlight_selector.py:66 | negating the key and the key value selects the same elements, which is why the reverse sort is the ascending sort on the negated key |
| HighlightSelector.AddDialogue | core/highlight_selector.py:106-127 | the copy keeps the scene, its dialogue is the overlapping subtitles' texts space-joined in order, and its count is how many overlap |
| HighlightSelector.DialogueScore | core/highlight_selector.py:141-154 | the density mark lies in [0,100], is 0 without dialogue or without positive duration, and is 100 iff there are at least 8 characters per second |
| HighlightSelector.SubtitleScore | core/highlight_selector.py:156-165 | the count mark lies in [0,100] and is 100 iff there are at least 5 subtitles |
| HighlightSelector.DurationScore | core/highlight_selector.py:167-178 | the duration mark lies in [0,100] for non-negative durations, is 100 iff 5 <= d <= 15, and above 15 s is below 100, reaching 0 exactly from 15 + 100/falloff |
| HighlightSelector.DurationScoreExamples | core/highlight_selector.py:169-176 | 20 s gives 85, 30 s gives 55, 2 s gives 40 and 50 s gives 0 |
| HighlightSelector.HighlightScore | core/highlight_selector.py:129-180 | the unrounded score lies in [0,100] for non-negative durations and is 100 iff each of its three parts is full |
| HighlightSelector.Enriched | core/highlight_selector.py:50-56 | an enriched scene keeps its scene record and carries the score rounded to two places |
| HighlightSelector.Enrich | core/highlight_selector.py:47-59 | one enriched copy per input scene, in input order |
| HighlightSelector.Greedy | core/highlight_selector.py:73-90 | the running total is the sum of the picked durations, and within the target unless nothing was picked. A stop happens only at 95% of the target, and a full scan ends below it. The picks are a sub-multiset of the scanned scenes |
| HighlightSelector.GreedyPrefix | core/highlight_selector.py:77-90 | scanning one more scene is one more loop step |
| HighlightSelector.GreedyStopped | core/highlight_selector.py:88-90 | after the break, later scenes are never looked at |
| HighlightSelector.GreedyStoppedAt | core/highlight_selector.py:88-90 | a loop that broke after i scenes has the result of its first i scenes |
| HighlightSelector.OverflowSkipped | core/highlight_selector.py:77-80 | a scene that would overflow the target is skipped and the loop goes on |
| HighlightSelector.GreedyMaximal | core/highlight_selector.py:77-90 | with non-negative durations, a loop that never broke left out only scenes that would not have fit |
| HighlightSelector.GreedyNoOversized | core/highlight_selector.py:77-80 | with non-negative durations, no picked scene is longer than the target |
| HighlightSelector.SortKeepsSum | core/highlight_selector.py:93 | re-sorting by start time keeps the total duration |
| HighlightSelector.Number | core/highlight_selector.py:95-97 | `selected_id` becomes the 1-based position; nothing else changes |
| HighlightSelector.PicksFromEnriched | core/highlight_selector.py:50-56 | every chosen scene is an enriched input scene, each used at most once |
| HighlightSelector.SelectionEmpty | core/highlight_selector.py:40-42 | an empty scene list gives an empty selection |
| HighlightSelector.SelectionBudget | core/highlight_selector.py:74-80 | the selected durations add up to at most the target (or nothing is selected) |
| HighlightSelector.SelectionOrdered | core/highlight_selector.py:93-97 | the selection is in `start_time` order and numbered 1..N in that order |
| HighlightSelector.SelectionNoOversized | core/highlight_selector.py:77-80 | with non-negative durations, no selected scene is longer than the target |
| HighlightSelector.EnrichScenes | core/highlight_selector.py:47-59 | the enrichment loop builds `Enrich` |
| HighlightSelector.GreedyPass | core/highlight_selector.py:73-90 | the greedy loop with its break builds the picks and total of `Greedy` |
| HighlightSelector.NumberScenes | core/highlight_selector.py:95-97 | the numbering loop builds `Number` |
| HighlightSelector.SelectHighlights | core/highlight_selector.py:20-104 | the selection is empty for no scenes, fits the budget, is in start order and numbered 1..N |
| MultimodalFusion.DataInRange | core/multimodal_fusion.py:92-102 | exactly the items stamped inside the closed interval, taken from the input |
| MultimodalFusion.DataInRangeConcat | core/multimodal_fusion.py:99-102 | the range filter keeps input order |
| MultimodalFusion.ContainedSubtitles | core/multimodal_fusion.py:113-115 | exactly the subtitles wholly inside [start, end] |
| MultimodalFusion.DialogueInRange | core/multimodal_fusion.py:104-117 | the loop gives the contained subtitles' texts space-joined in order |
| MultimodalFusion.MergeVision | core/multimodal_fusion.py:119-131 | empty iff no frame is in range; otherwise the middle frame's labels, caption and motion, defaulting to empty list, empty string and 0 |
| MultimodalFusion.TextsOf | core/multimodal_fusion.py:138-139 | the `text` of each OCR entry, in order |
| MultimodalFusion.MergeOcr | core/multimodal_fusion.py:133-144 | no text appears twice, and a text is in the result iff some OCR entry in range carries it |
| MultimodalFusion.FaceLists | core/multimodal_fusion.py:150-151 | each frame's face list, an absent one as empty |
| MultimodalFusion.MergeFaces | core/multimodal_fusion.py:146-153 | the in-order concatenation of the face lists, as long as their lengths added up |
| MultimodalFusion.FusionScore | core/multimodal_fusion.py:155-197 | an error iff the duration is 0; otherwise in [0,100] for positive durations and motion in [0,1] |
| MultimodalFusion.FusionDurationFalloff | core/multimodal_fusion.py:187-195 | with falloff 5 the duration term is 0 iff the duration is 0 or at least 35 s |
| MultimodalFusion.FuseScene | core/multimodal_fusion.py:66-88 | one scene's fused record, holding its merged vision, OCR, faces, contained dialogue and score; an error iff its duration is 0 |
| MultimodalFusion.FuseMultimodal | core/multimodal_fusion.py:14-90 | succeeds iff no scene has duration 0, and then gives one fused record per scene in scene order |
| KeyframeExtractor.Interval | core/keyframe_extractor.py:117-124 | the configured interval of a known mode, 2.0 for any other; always positive |
| KeyframeExtractor.IntervalByMode | core/keyframe_extractor.py:38-42 | low 3.0, medium 2.0, high 1.0, anything else 2.0 |
| KeyframeExtractor.GridCountFrom | core/keyframe_extractor.py:129-131 | the number of grid points the sampling loop takes: all inside the duration, at most the limit, stopping at the first point outside or at the limit |
| KeyframeExtractor.SampleTimes | core/keyframe_extractor.py:126-139 | at most `max_frames` times. A full grid gives `start + k*interval` inside the duration; otherwise start, middle and end minus 0.1, cut to the limit |
| KeyframeExtractor.SampleSceneTimes | core/keyframe_extractor.py:127-139 | the sampling loop and fallback build `SampleTimes` |
| KeyframeExtractor.FrameQuality | core/keyframe_extractor.py:204-230 | for statistics in their ranges the quality lies in [0,1], and is 1 iff every part is full |
| KeyframeExtractor.HashBits | core/keyframe_extractor.py:249-252 | 64 bits, bit i set iff pixel i is strictly above the grid mean |
| KeyframeExtractor.HexDigits | core/keyframe_extractor.py:256 | k hex digits |
| KeyframeExtractor.ParseHexDigits | core/keyframe_extractor.py:255-256 | a number below 16^k printed in k hex digits reads back as itself |
| KeyframeExtractor.ImageHash | core/keyframe_extractor.py:234-256 | 16 lowercase hex digits |
| KeyframeExtractor.ImageHashValue | core/keyframe_extractor.py:252-256 | the printed hash is the value of the bit string, most significant pixel first |
| KeyframeExtractor.UniformGridHash | core/keyframe_extractor.py:244-256 | a uniform grid hashes to sixteen zeros |
| KeyframeExtractor.SomeBitClear | core/keyframe_extractor.py:249-252 | some pixel is not above the mean |
| KeyframeExtractor.HashNeverAllOnes | core/keyframe_extractor.py:244-256 | the hash is never sixteen `f`s |
| KeyframeExtractor.CandidateAt | core/keyframe_extractor.py:143-159 | a candidate exists iff the frame at `int(time*fps)` can be read, and holds that time, frame number, frame and rounded quality |
| KeyframeExtractor.Candidates | core/keyframe_extractor.py:142-159 | at most one candidate per sample, each with its frame read at its frame number and its rounded quality |
| KeyframeExtractor.CandidatesFromTimes | core/keyframe_extractor.py:142-159 | every candidate's time is a sample time |
| KeyframeExtractor.CandidatesComplete | core/keyframe_extractor.py:146-159 | every readable sample gives a candidate |
| KeyframeExtractor.ReadCandidates | core/keyframe_extractor.py:142-159 | the reading loop builds `Candidates` |
| KeyframeExtractor.SelectedFacts | core/keyframe_extractor.py:161-166 | with no more candidates than the limit, the top-N cut drops nothing and the result is the candidates in time order |
| KeyframeExtractor.KeyframeName | core/keyframe_extractor.py:182 | the name starts with the prefix and ends in `.jpg` |
| KeyframeExtractor.KeyframeNameIndex | core/keyframe_extractor.py:182 | below 99 keyframes, the name is prefix, scene id, `_keyframe_`, two digits reading back as the 1-based index, then `.jpg` |
| KeyframeExtractor.ImagePath | core/keyframe_extractor.py:181-185 | a path exists iff a non-empty output directory is given |
| KeyframeExtractor.KeyframeNamePlain | core/keyframe_extractor.py:182 | with no `/` in the prefix the file name is a single path component |
| KeyframeExtractor.ImagePathFile | core/keyframe_extractor.py:182-185 | the stored path's last component is the keyframe name, whatever the directory |
| KeyframeExtractor.ImagePathIndex | core/keyframe_extractor.py:182-185 | below 99 keyframes, the two digits before `.jpg` in the stored path read back as the 1-based index |
| KeyframeExtractor.ImagePathNormalised | core/keyframe_extractor.py:183 | `out`, `out/` and `./out` give the same path `out/<name>`, and `.` gives the bare name |
| Text.PathJoinLast | core/keyframe_extractor.py:183 | `Path(dir) / name` with a one-component name ends in that name, right after a `/` or as the whole path |
| Text.PathPartsPlain | core/keyframe_extractor.py:183 | a single component parses to itself |
| Text.PathPartsTrailing | core/keyframe_extractor.py:183 | a trailing `/` adds no component |
| Text.PathPartsDot | core/keyframe_extractor.py:183 | a leading `./` adds no component |
| Text.PathPartsCurrent | core/keyframe_extractor.py:183 | `.` has no components |
| Text.PathJoinNormalises | core/keyframe_extractor.py:183 | a one-component directory, with or without a trailing `/` or a leading `./`, is joined to a name by a single `/`; `.` leaves the bare name |
| KeyframeExtractor.SceneKeyframesOrdered | core/keyframe_extractor.py:161-192 | a scene has at most `max_frames` keyframes, in time order |
| KeyframeExtractor.SceneKeyframesFrames | core/keyframe_extractor.py:169-190 | each keyframe is indexed from 0 and lies at a sample time. It carries the frame number, rounded quality and hash of the frame read there, and its image path |
| KeyframeExtractor.SelectedFromTimes | core/keyframe_extractor.py:161-166 | every selected candidate comes from a readable sample time with its rounded quality |
| KeyframeExtractor.BuildKeyframes | core/keyframe_extractor.py:168-192 | the record loop gives one keyframe record per selected candidate, in order |
| KeyframeExtractor.ExtractFromScene | core/keyframe_extractor.py:102-192 | `_extract_from_scene` returns `SceneKeyframes` of the scene |
| KeyframeExtractor.Dedup | core/keyframe_extractor.py:276-282 | never longer than the input |
| KeyframeExtractor.DedupSubsequence | core/keyframe_extractor.py:276-282 | the result is an order-preserving subsequence of the input |
| KeyframeExtractor.DedupDistinct | core/keyframe_extractor.py:279-282 | no two kept entries share a present, non-empty hash |
| KeyframeExtractor.DedupKeepsFirst | core/keyframe_extractor.py:279-280 | an entry without a usable hash, or the first with its hash, is kept |
| KeyframeExtractor.DedupOfDistinct | core/keyframe_extractor.py:276-282 | a list with distinct hashes is returned unchanged |
| KeyframeExtractor.DedupIdempotent | core/keyframe_extractor.py:258-285 | deduplicating twice is deduplicating once |
| KeyframeExtractor.RemoveDuplicates | core/keyframe_extractor.py:258-285 | the loop with its seen-hash set builds `Dedup`, with distinct hashes; the threshold plays no part |
| SubtitleExtractor.SubtitleOf | core/subtitle_extractor.py:321-327 | same id, start and end, stripped text, confidence defaulting to 0 |
| SubtitleExtractor.ProcessResult | core/subtitle_extractor.py:308-329 | one subtitle per segment, in order |
| SubtitleExtractor.ApiSubtitles | core/subtitle_extractor.py:167-190 | with segments, one per segment numbered from 0; without, one entry at time 0 holding the stripped text iff the text is non-empty. Every text is stripped |
| SubtitleExtractor.ApiTextsStripped | core/subtitle_extractor.py:175 | stripping a parsed text again changes nothing |
| SubtitleExtractor.BlankTextKept | core/subtitle_extractor.py:180-188 | a whitespace-only text still gives one entry, with empty text |
| SubtitleExtractor.ParseApiResult | core/subtitle_extractor.py:167-190 | the parsing loop builds `ApiSubtitles` |
| SubtitleExtractor.FormatTimestamp | core/subtitle_extractor.py:390-409 | the timestamp is at least 12 characters |
| SubtitleExtractor.TimestampRoundTrip | core/subtitle_extractor.py:401-409 | below 100 hours, the timestamp is `HH:MM:SS,mmm` (`.` for WebVTT) with minutes and seconds below 60, and reads back as the time in whole milliseconds |
| SubtitleExtractor.NoNewlineInTimestamp | core/subtitle_extractor.py:401-409 | a timestamp never contains a line break |
| SubtitleExtractor.SrtCueLines | core/subtitle_extractor.py:342-352 | a single-line text makes an SRT block of index, timing line, text and a blank line |
| SubtitleExtractor.ExportSrt | core/subtitle_extractor.py:331-352 | the writing loop builds the SRT document |
| SubtitleExtractor.VttDocument | core/subtitle_extractor.py:364-374 | the document starts with `WEBVTT` and a blank line |
| SubtitleExtractor.VttCueLines | core/subtitle_extractor.py:367-374 | a single-line text makes a WebVTT cue of timing line, text and a blank line, with no index |
| SubtitleExtractor.ExportVtt | core/subtitle_extractor.py:354-374 | the writing loop builds the WebVTT document |
| SubtitleExtractor.ExportTxt | core/subtitle_extractor.py:376-388 | no subtitles give an empty file; a single subtitle is written as its text |
| SubtitleExtractor.ExportTxtSnoc | core/subtitle_extractor.py:387 | one more subtitle appends a single space and its text (its text alone when it is the first), for any list |
| SubtitleExtractor.ExportTxtLength | core/subtitle_extractor.py:387 | the file holds every text plus one space between neighbours |
| SubtitleExtractor.ExportTxtSplit | core/subtitle_extractor.py:387 | when no text contains a space, the file splits back at spaces into the subtitle texts |
| SubtitleExtractor.AlignedOf | core/subtitle_extractor.py:427-441 | the entry carries the scene's `id` and the number of overlapping subtitles; no overlap gives empty text |
| SubtitleExtractor.AlignedSnoc | core/subtitle_extractor.py:431-441 | one more subtitle that passes the overlap test appends a single space and its text (its text alone when first) and counts one more segment; one that fails leaves the entry unchanged |
| SubtitleExtractor.AlignedSplit | core/subtitle_extractor.py:432-441 | when no text contains a space, an entry's text splits back into exactly its `segments` overlapping texts, in order |
| SubtitleExtractor.AlignWithScenes | core/subtitle_extractor.py:411-443 | exactly one entry per scene, in scene order |
| SubtitleExtractor.CollectSceneText | core/subtitle_extractor.py:428-435 | the inner loop collects the overlapping subtitles' texts in order |
| ScriptAnalyzer.ExtractDialogue | core/script_analyzer.py:220-239 | empty when nothing overlaps, never with outer whitespace, and a single overlapping subtitle's stripped text |
| ScriptAnalyzer.DialogueAsSelector | core/script_analyzer.py:227-239 | the dialogue is the selector's dialogue for the same scene, stripped |
| ScriptAnalyzer.MatchingKeyframes | core/script_analyzer.py:83-93 | every keyframe whose `scene_id` matches is included. When any matches, only matching ones are; when none does, the keyframe at the scene's position, if any |
| ScriptAnalyzer.NoKeyframesIff | core/script_analyzer.py:92-97 | a scene is skipped iff nothing matches and the keyframe list is no longer than its position |
| ScriptAnalyzer.SceneEntry | core/script_analyzer.py:127-155 | the record has the scene key, the scene's times and duration, the keyframes' image paths in order, and the extracted dialogue |
| ScriptAnalyzer.EntryAt | core/script_analyzer.py:81-114 | a scene yields a record iff it has keyframes, all with an image path |
| ScriptAnalyzer.Script | core/script_analyzer.py:81-114 | no more records than scenes |
| ScriptAnalyzer.ScriptSound | core/script_analyzer.py:100-114 | every record is that of some scene |
| ScriptAnalyzer.ScriptComplete | core/script_analyzer.py:100-114 | every scene that can be analysed has its record, whatever happened to earlier scenes |
| ScriptAnalyzer.AnalyzeScenes | core/script_analyzer.py:37-125 | the loop with its two `continue`s builds `Script` |
| VideoAnalyzer.BasicInfoOf | core/video_analyzer.py:90-114 | duration times fps is the frame count when fps > 0; otherwise the duration is 0 |
| VideoAnalyzer.SampleIndices | core/video_analyzer.py:144-146 | min(10, frame_count) indices, each in [0, frame_count), strictly increasing |
| VideoAnalyzer.ShortVideoSamplesAll | core/video_analyzer.py:144-146 | a video of fewer than 10 frames samples every frame |
| VideoAnalyzer.ScoreOfAverages | core/video_analyzer.py:224-241 | at most 100, at least 0 for averages in their ranges, and 100 iff the brightness is 127.5, the contrast at least 80 and the sharpness at least 1000 |
| VideoAnalyzer.QualityScore | core/video_analyzer.py:209-241 | 0 if any list is empty, never above 100 |
| VideoAnalyzer.QualityScoreBounds | core/video_analyzer.py:224-241 | in [0,100] for measurements in their ranges |
| VideoAnalyzer.ReportedScore | core/video_analyzer.py:221-241 | 0 for an empty list, otherwise the score of the averages rounded to two places |
| VideoAnalyzer.SampledStats | core/video_analyzer.py:148-173 | no more measured frames than sample indices |
| VideoAnalyzer.ReadAll | core/video_analyzer.py:152-154 | one read attempt per sample index, in order |
| VideoAnalyzer.QualityOf | core/video_analyzer.py:175-180 | all zeros without measured frames, otherwise the rounded quality score of the measured columns |
| VideoAnalyzer.NoFramesNoQuality | core/video_analyzer.py:148-180 | when no frame can be read, every quality figure is 0 |
| VideoAnalyzer.GetQualityInfo | core/video_analyzer.py:138-182 | the sampling loop gives `QualityOf` the measured frames |
| VideoAnalyzer.ReadSamples | core/video_analyzer.py:152-173 | the three value lists are the columns of the frames that could be read, in order |
| VideoAnalyzer.VideoAnalyzer.constructor | core/video_analyzer.py:20-29 | an empty cache |
| VideoAnalyzer.VideoAnalyzer.Analyze | core/video_analyzer.py:31-88 | a missing file is an error before the cache is consulted. A cached path returns the stored result. Otherwise the result is measured, a failure reported with its message, and a success cached iff caching is on |
| VideoAnalyzer.VideoAnalyzer.ClearCache | core/video_analyzer.py:289-292 | the cache is empty afterwards |
| VideoAnalyzer.RepeatAnalyzeIsCached | core/video_analyzer.py:51-53 | with caching on, a second analysis of a path returns the first result unchanged |
| FormatUtils.VerboseParts | utils/format_utils.py:31-44 | one to three parts: hours only when positive, minutes only when positive, seconds when positive or nothing else is shown |
| FormatUtils.FormatTime | utils/format_utils.py:9-47 | an error iff the format is none of the three, with the message naming it |
| FormatUtils.VerboseZero | utils/format_utils.py:41-42 | 0 seconds prints as `0秒` |
| FormatUtils.VerboseAllParts | utils/format_utils.py:31-44 | 3661 seconds prints as `1小时1分钟1秒` |
| FormatUtils.VerboseNoSeconds | utils/format_utils.py:31-44 | 120 seconds prints as `2分钟` |
| FormatUtils.ParseTime | utils/format_utils.py:162-183 | other than two or three colon-separated parts is an error naming the input, and any success had two or three parts |
| FormatUtils.ParseJoinedThree | utils/format_utils.py:174-177 | three colon-free integer fields parse to h*3600 + m*60 + s |
| FormatUtils.ParseJoinedTwo | utils/format_utils.py:178-181 | two colon-free integer fields parse to m*60 + s |
| FormatUtils.ParseFormatHms | utils/format_utils.py:20-24 | parsing the `HH:MM:SS` form of any time gives its whole seconds |
| FormatUtils.ParseFormatMs | utils/format_utils.py:26-29 | parsing the `MM:SS` form of any time gives its whole seconds |
| FormatUtils.ParseTimeRoundTrip | utils/format_utils.py:162-181 | an integer number of seconds printed in either colon form parses back to itself |
| FormatUtils.Scaled | utils/format_utils.py:63-68 | value times 1024 to the number of divisions is the size. Below PB the value is under 1024, a divided value is at least 1, and a size under 1024 is left alone |
| FormatUtils.FormatSize | utils/format_utils.py:50-70 | the loop ends at the unit `Scaled` gives and prints that value with the unit name |
| FormatUtils.FormatPercentage | utils/format_utils.py:125-141 | always ends in `%`; a zero total gives `0%`, otherwise the printed percentage |
| FormatUtils.TruncateString | utils/format_utils.py:144-159 | a text within the limit is kept. A longer one ends with the suffix, and when the suffix fits it is exactly the limit long, starting with the text's head |
| FormatUtils.TruncateOverlong | utils/format_utils.py:159 | with a limit shorter than the suffix the result exceeds the limit |
| FormatUtils.TruncateWithin | utils/format_utils.py:144-159 | corrected truncation: never longer than the limit, a text within the limit is kept, and the result agrees with `truncate_string` whenever the suffix fits |
| FormatUtils.Groups | utils/format_utils.py:89 | digit groups of three from the right, the first of one to three, concatenating to the digits |
| FormatUtils.FormatNumberDigits | utils/format_utils.py:87-89 | removing a non-digit separator from a printed non-negative integer gives its digits, which read back as the number |
| FormatUtils.FormatNumberNegative | utils/format_utils.py:87-89 | a negative integer prints as a minus sign then its magnitude, grouped |
| FormatUtils.FormatNumberSigned | utils/format_utils.py:87-89 | for any integer: a negative one starts with a minus sign, and the separators removed from the rest give the digits of its magnitude |
| Models.RequiredStr | models/scene.py:45 | `data[key]` for a string: missing key or wrong type is an error naming the key |
| Models.RequiredInt | models/scene.py:46 | `data[key]` for an integer: missing key or wrong type is an error naming the key |
| Models.RequiredFloat | models/scene.py:47 | `data[key]` for a number: missing key or non-number is an error naming the key |
| Models.StrOr | models/audio.py:47 | `data.get(key, default)` for a string |
| Models.IntOr | models/project.py:56 | `data.get(key, default)` for an integer |
| Models.FloatOr | models/audio.py:46 | `data.get(key, default)` for a number |
| Models.OptionalStr | models/scene.py:52 | `data.get(key)` for an optional string: an absent key is None |
| Models.OptionalInt | models/keyframe.py:55 | `data.get(key)` for an optional integer: an absent key is None |
| Models.MetadataOf | models/scene.py:53 | `data.get('metadata', {})` |
| Models.SceneToDict | models/scene.py:27-39 | exactly the nine keys |
| Models.SceneFromDict | models/scene.py:41-54 | success needs the seven required keys; absent `project_id` is None and absent `metadata` empty; a missing-key error names a required absent key |
| Models.SceneRoundTrip | models/scene.py:27-54 | `from_dict(to_dict(s)) == s` |
| Models.SceneDefaults | models/scene.py:44-53 | a dict of the required keys alone gives a scene with no project and empty metadata |
| Models.KeyframeToDict | models/keyframe.py:28-41 | exactly the ten keys |
| Models.KeyframeFromDict | models/keyframe.py:43-57 | success needs the four required keys; the six optional ones take their defaults when absent; a missing-key error names a required absent key |
| Models.KeyframeRoundTrip | models/keyframe.py:28-57 | `from_dict(to_dict(k)) == k` |
| Models.KeyframeDefaults | models/keyframe.py:46-56 | a dict of the required keys alone gives the defaults |
| Models.AudioToDict | models/audio.py:28-38 | exactly the seven keys |
| Models.AudioFromDict | models/audio.py:40-51 | success needs `scene_id` and `audio_path`; duration 0.0, voice `''`, no project, creation time now and empty metadata when absent |
| Models.AudioRoundTrip | models/audio.py:28-51 | `from_dict(to_dict(a)) == a` |
| Models.AudioDefaults | models/audio.py:43-50 | a dict of the two required keys alone gives the defaults |
| Models.PostInit | models/script.py:28-31 | a zero word count becomes the script length; a non-zero one is kept; nothing else changes |
| Models.ScriptToDict | models/script.py:33-43 | exactly the seven keys |
| Models.ScriptFromDict | models/script.py:45-56 | success needs `scene_id` and `script`; the word count defaults to the script length and is set after construction; the other defaults as written |
| Models.ScriptRoundTrip | models/script.py:28-56 | `from_dict(to_dict(s)) == s` for every constructed script |
| Models.Script.constructor | models/script.py:28-31 | a new script holds its fields after `__post_init__` |
| Models.Script.FromDict | models/script.py:45-56 | a new script iff the dict converts, holding the converted fields, or the conversion's error |
| Models.Script.ToDict | models/script.py:33-43 | exactly the seven keys |
| Models.Script.Update | models/script.py:58-62 | the script and its length as word count are set, `updated_at` is now, nothing else changes |
| Models.ScriptReload | models/script.py:33-56 | converting a script to a dict and back gives a new script with the same fields |
| Models.ProjectToDict | models/project.py:32-44 | exactly the nine keys, without the relation lists |
| Models.ProjectFromDict | models/project.py:46-59 | success needs `id` and `name`; the other seven keys take their defaults when absent |
| Models.ProjectRoundTrip | models/project.py:32-59 | `from_dict(to_dict(p))` gives back the nine fields |
| Models.Project.constructor | models/project.py:10-30 | a new project holds its fields and empty relation lists |
| Models.Project.FromDict | models/project.py:46-59 | a new project with empty relation lists iff the dict converts, or the conversion's error |
| Models.Project.ToDict | models/project.py:32-44 | exactly the nine keys |
| Models.Project.UpdateTimestamp | models/project.py:61-64 | the version goes up by exactly one, `updated_at` is now, nothing else changes |
| Models.ProjectReload | models/project.py:32-59 | converting a project to a dict and back keeps its fields and drops its relation lists |
| Plugins.Plugin.constructor | plugins/base_plugin.py:15-23 | named after its class, version 1.0.0, no description or author, enabled |
| Plugins.Plugin.GetInfo | plugins/base_plugin.py:35-48 | exactly the five keys, with the current name and flag |
| Plugins.Plugin.Enable | plugins/base_plugin.py:50-53 | enabled afterwards, other fields unchanged |
| Plugins.Plugin.Disable | plugins/base_plugin.py:55-58 | disabled afterwards, other fields unchanged |
| Plugins.Plugin.Instantiate | plugins/plugin_manager.py:65 | the instance has exactly the fields its class's constructor sets |
| Plugins.LoadedClasses | plugins/plugin_manager.py:37-43 | every class of a loadable importable file is loaded, and every loaded class comes from one |
| Plugins.NamesOf | plugins/plugin_manager.py:68 | each loaded class registers under its instance's `name`, in order |
| Plugins.LastIndex | plugins/plugin_manager.py:68 | the class kept under a name is the last one registered under it: it has that name and no later class does |
| Plugins.LatestAppend | plugins/plugin_manager.py:68 | over two runs of classes, the later run's class wins whenever it has the name |
| Plugins.AppendNew | plugins/plugin_manager.py:68 | the key order after assigning names in turn: the old order is kept as a prefix, exactly the old and new names appear, and none twice |
| Plugins.AppendNewAppend | plugins/plugin_manager.py:68 | assigning two runs of names in turn is assigning their concatenation |
| Plugins.LoadedStep | plugins/plugin_manager.py:38-43 | one more file adds its classes after the earlier ones |
| Plugins.UnderscoreSkipped | plugins/plugin_manager.py:39-40 | a file whose stem starts with `_` adds nothing |
| Plugins.Without | plugins/plugin_manager.py:109 | deleting a key from the key order removes exactly that name, keeps every other name and leaves no name twice |
| Plugins.PluginManager.constructor | plugins/plugin_manager.py:19-27 | an empty registry |
| Plugins.PluginManager.Register | plugins/plugin_manager.py:65-68 | `on_load` is called and the plugin stored under its name, replacing an earlier one in place or appended at the end of the key order |
| Plugins.PluginManager.GetPlugin | plugins/plugin_manager.py:71-81 | None iff the name is unregistered, otherwise its plugin |
| Plugins.PluginManager.ListPlugins | plugins/plugin_manager.py:83-90 | one information record per registered plugin, in key order |
| Plugins.PluginManager.EnablePlugin | plugins/plugin_manager.py:92-96 | the named plugin is enabled with its version, description and author unchanged; no other plugin's flag changes; an unknown name does nothing |
| Plugins.PluginManager.DisablePlugin | plugins/plugin_manager.py:98-102 | the named plugin is disabled with its version, description and author unchanged; no other plugin's flag changes; an unknown name does nothing |
| Plugins.PluginManager.UnloadPlugin | plugins/plugin_manager.py:104-110 | a known plugin gets `on_unload` and exactly its key is removed; an unknown name changes nothing |
| Plugins.PluginManager.UnloadAll | plugins/plugin_manager.py:112-115 | the registry is empty and every plugin got `on_unload` in key order |
| Plugins.PluginManager.LoadPlugins | plugins/plugin_manager.py:31-47 | a missing directory changes nothing; otherwise the registry gains the loaded names (new ones appended to the key order in first-load order) and their `on_load` calls in file order; each loaded name holds a new instance of the last class registered under it, and every other plugin is untouched |
| Plugins.PluginManager.LoadEntry | plugins/plugin_manager.py:38-45 | a skipped or failing file changes nothing; otherwise as loading its classes |
| Plugins.PluginManager.LoadFile | plugins/plugin_manager.py:58-69 | every class is loaded in turn: keys, key order and `on_load` calls as for registering their names in order; each name holds a new instance of its last class; other plugins are untouched |
| Plugins.PluginManager.LoadClass | plugins/plugin_manager.py:64-69 | a new instance with the class's fields is registered under its name after its `on_load`; nothing else changes |
| Text.Strip | core/subtitle_extractor.py:325 | `str.strip()`: the longest middle slice without outer whitespace, everything cut off being whitespace |
| Text.StripIdempotent | core/script_analyzer.py:239 | stripping twice is stripping once |
| Text.SplitJoin | utils/format_utils.py:172 | splitting a join at a character no part contains gives the parts back |
| Text.ParseIntFormat | utils/format_utils.py:176 | `int()` reads back any integer printed with zero padding |
| Text.ParseFormatInt | core/subtitle_extractor.py:407 | a zero-padded non-negative integer's digits read back as the integer |
| Text.FormatIntWidth | core/subtitle_extractor.py:407 | a number below 10^width is printed in exactly `width` digits |
| Clocks.ClockOf | core/subtitle_extractor.py:401-404 | minutes and seconds below 60, milliseconds below 1000, hours non-negative for non-negative times and below 100 under 100 hours |
| Clocks.ClockSeconds | utils/format_utils.py:21-23 | hours*3600 + minutes*60 + seconds is the floor of the time |
| Clocks.ClockTotal | core/subtitle_extractor.py:401-404 | the clock's milliseconds add up to the time in whole milliseconds |
| Common.PyPrefix | utils/format_utils.py:159 | Python's `s[:k]`: the first k elements, a negative k counting from the end, clamped to the sequence |
| Common.Trunc | core/keyframe_extractor.py:144 | Python's `int()` on a float: rounds toward zero, never away from it |
| Common.FloorDiv | utils/format_utils.py:21-22 | Python's `//` on a positive divisor: the whole quotient with `q*y <= x < (q+1)*y` |
| Common.Mod | utils/format_utils.py:22-23 | Python's `%` on a positive divisor: a remainder in [0, y) completing the floor division |
| Text.ParseIntDigits | utils/format_utils.py:176 | `int()` reads a string of decimal digits as its value |
| Text.ParseIntNegative | utils/format_utils.py:176 | `int()` reads a minus sign followed by digits as the negated value |
| Common.CollectSomeSound | core/script_analyzer.py:108 | everything collected was present in the input |
| Common.CollectSomeComplete | core/script_analyzer.py:108 | everything present in the input is collected |
| Common.AverageBounds | core/video_analyzer.py:225-227 | an average lies between the bounds of its values |

## Left out

- Video decoding, frame seeking, colour conversion, resizing, the Laplacian and all other OpenCV work: frames come in as given statistics and an 8x8 grid through the `read` parameter.
- The ffmpeg codec and audio probes of the video analyzer and `os.path.getsize`: the whole measurement is the `measure` parameter; `file_name` and `aspect_ratio` are not modelled.
- The speech recogniser, the remote transcription API, the remote vision model and the audio extraction: their results come in as values or as the `describe` parameter.
- File writing: the exporters build the file contents, and the JSON dumps of the selector and the script analyzer are not modelled.
- Logging and progress callbacks.
- Python's `round(x, n)` on binary floats and `:.Nf` printing: they are the parameters `round` and `fixed`. Reals are exact, so float accumulation error is not modelled.
- Dynamic import in `_load_plugin_file`. A plugin file is its stem plus the plugin classes it defines, each given by the fields its constructor sets, or None when its import fails. A class whose constructor or `on_load` raises part way through a file is not modelled. `on_load`/`on_unload` are recorded as calls, not run.
- The order of `glob` and of `inspect.getmembers`: files and classes come in as sequences in loading order.
- Python dicts are dynamically typed. `from_dict` in the model rejects a wrongly typed value, where Python would store it. Required keys and defaults are modelled as written.
- `datetime.now().isoformat()` is the parameter `now`.
- `int()` accepting underscores and non-ASCII digits is not modelled. The error message quotes the text as given rather than with Python's `repr`.
- `format_number` for floats, `format_datetime` and `format_duration` are not modelled.
- `get_frame_at_time`, `get_thumbnail`, `extract`, `extract_custom` and `extract_segment` (file and video handling) are not modelled.
- `save_selected_scenes` is not modelled.
- The `try`/`except` around enrichment in `select_highlights`: a typed scene record has every key, so nothing there can raise.
- SubtitleExtractor.TimestampRoundTrip: stated for times in [0, 360000) only, since longer times print more than two hour digits.
- MultimodalFusion.MergeOcr: the order of the texts is not stated, because it follows Python's set iteration order.
- KeyframeExtractor.ImagePath: `pathlib` is modelled for POSIX paths (empty and `.` components dropped, an absolute name replacing the directory); a leading `//` is treated as `/`, and symbolic links and `..` are kept as written, as `pathlib` does.
- KeyframeExtractor.RemoveDuplicates: `similarity_threshold` is accepted and ignored, as in the source.
- FormatUtils.FormatSize: `float(bytes)` rounding for sizes beyond 2^53 is not modelled.
- Models.ProjectRoundTrip: states the round trip for the nine dictionary fields; the relation lists are not part of the dictionary.

## Findings

| source | as written | input that shows it | evidently intended | confidence | as-written member | corrected member |
|---|---|---|---|---|---|---|
| utils/format_utils.py:159 | `text[:max_length - len(suffix)] + suffix` when the text is too long | `truncate_string("abcdef", 2, "...")` gives `"abcde..."`, 8 characters for a limit of 2, because the negative slice bound counts from the end | a result never longer than `max_length` | medium, not executed | FormatUtils.TruncateOverlong | FormatUtils.TruncateWithin |
