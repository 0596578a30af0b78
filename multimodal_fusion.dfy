/** Multimodal fusion: for each scene, gather the time-stamped vision, OCR
    and face results that fall inside it, the subtitles it fully contains,
    and score the scene with a second formula of its own. */
module MultimodalFusion {
  import opened Common
  import opened Text
  import opened Intervals
  import opened Records
  import HighlightSelector

  /** One analysis result taken at `timestamp` seconds. */
  datatype Stamped<T> = Stamped(timestamp: real, item: T)

  /** A vision result; every key is optional. */
  datatype VisionFrame = VisionFrame(clipLabels: Option<seq<string>>, caption: Option<string>, motionScore: Option<real>)

  /** One recognised piece of text. */
  datatype OcrText = OcrText(text: string, confidence: real)

  /** An OCR result: the optional `texts` list. */
  datatype OcrFrame = OcrFrame(texts: Option<seq<OcrText>>)

  /** One detected face (the embedding vector is left out). */
  datatype Face = Face(bbox: seq<real>, age: int, gender: char, celebrity: Option<string>)

  /** A face result: the optional `faces` list. */
  datatype FaceFrame = FaceFrame(faces: Option<seq<Face>>)

  /** The merged `visual` dict: empty, or the three keys. */
  datatype Visual = NoVisual | Visual(clipLabels: seq<string>, caption: string, motionScore: real)

  /** A fused scene: the original scene plus the added keys. */
  datatype Fused = Fused(
    scene: Scene, visual: Visual, ocrTexts: seq<string>, faces: seq<Face>, dialogue: string, score: real)

  // ------------------------------------------------------------- in range

  /** `_get_data_in_range`: the items stamped inside the closed interval
      [start, end], in their original order. */
  function DataInRange<T(==)>(items: seq<Stamped<T>>, start: real, end: real): (r: seq<Stamped<T>>)
    ensures forall i :: 0 <= i < |r| ==> r[i] in items && start <= r[i].timestamp <= end
    ensures forall i :: 0 <= i < |items| && start <= items[i].timestamp <= end ==> items[i] in r
  {
    Filter(items, (x: Stamped<T>) => start <= x.timestamp <= end)
  }

  /** The filter keeps order: the items in range of a concatenation are
      those of each part, one after the other. */
  lemma DataInRangeConcat<T>(a: seq<Stamped<T>>, b: seq<Stamped<T>>, start: real, end: real)
    ensures DataInRange(a + b, start, end) == DataInRange(a, start, end) + DataInRange(b, start, end)
  {
    FilterConcat(a, b, (x: Stamped<T>) => start <= x.timestamp <= end);
  }

  /** The subtitles lying wholly inside [start, end], in order. */
  function ContainedSubtitles(subtitles: seq<Subtitle>, start: real, end: real): (r: seq<Subtitle>)
    ensures forall i :: 0 <= i < |r| ==> r[i] in subtitles && Inside(r[i].start, r[i].end, start, end)
    ensures forall i :: 0 <= i < |subtitles| && Inside(subtitles[i].start, subtitles[i].end, start, end) ==>
      subtitles[i] in r
  {
    Filter(subtitles, (sub: Subtitle) => Inside(sub.start, sub.end, start, end))
  }

  /** `_get_dialogue_in_range`: the texts of the contained subtitles,
      space-joined. Containment, not the selector's overlap test. */
  method DialogueInRange(subtitles: seq<Subtitle>, start: real, end: real) returns (dialogue: string)
    ensures dialogue == Join(Texts(ContainedSubtitles(subtitles, start, end)), " ")
  {
    var dialogues: seq<string> := [];
    for i := 0 to |subtitles|
      invariant dialogues == Texts(ContainedSubtitles(subtitles[..i], start, end))
    {
      var sub := subtitles[i];
      ContainedStep(subtitles, i, start, end);
      if sub.start >= start && sub.end <= end {
        dialogues := dialogues + [sub.text];
      }
    }
    assert subtitles[..|subtitles|] == subtitles;
    dialogue := Join(dialogues, " ");
  }

  /** One more subtitle adds its text iff it is contained. */
  lemma ContainedStep(subtitles: seq<Subtitle>, i: nat, start: real, end: real)
    requires i < |subtitles|
    ensures Texts(ContainedSubtitles(subtitles[..i + 1], start, end))
         == Texts(ContainedSubtitles(subtitles[..i], start, end))
            + (if Inside(subtitles[i].start, subtitles[i].end, start, end) then [subtitles[i].text] else [])
  {
    FilterSnoc(subtitles, i, (s: Subtitle) => Inside(s.start, s.end, start, end));
    var a := ContainedSubtitles(subtitles[..i], start, end);
    if Inside(subtitles[i].start, subtitles[i].end, start, end) {
      assert Texts(a + [subtitles[i]]) == Texts(a) + [subtitles[i].text];
    }
  }

  // ---------------------------------------------------------------- merging

  /** `_merge_vision_data`: nothing for no frames, otherwise the keys of the
      middle frame (index `len // 2`) with their defaults. */
  function MergeVision(frames: seq<Stamped<VisionFrame>>): (v: Visual)
    ensures v == NoVisual <==> frames == []
    ensures frames != [] ==>
      var mid := frames[|frames| / 2].item;
      v.clipLabels == mid.clipLabels.GetOr([]) && v.caption == mid.caption.GetOr("")
      && v.motionScore == mid.motionScore.GetOr(0.0)
  {
    if |frames| == 0 then NoVisual
    else
      var mid := frames[|frames| / 2].item;
      Visual(mid.clipLabels.GetOr([]), mid.caption.GetOr(""), mid.motionScore.GetOr(0.0))
  }

  /** All OCR texts of the frames, in order, duplicates included. */
  function OcrTexts(frames: seq<Stamped<OcrFrame>>): seq<string> {
    if |frames| == 0 then []
    else OcrTexts(frames[..|frames| - 1]) + TextsOf(frames[|frames| - 1].item.texts.GetOr([]))
  }

  function TextsOf(items: seq<OcrText>): (r: seq<string>)
    ensures |r| == |items| && forall i :: 0 <= i < |items| ==> r[i] == items[i].text
  {
    seq(|items|, i requires 0 <= i < |items| => items[i].text)
  }

  /** `_merge_ocr_data`: the distinct OCR texts. Python builds them through
      a `set`, so their order is unspecified; this model keeps first
      occurrences, and the contract says only what Python guarantees. */
  method MergeOcr(frames: seq<Stamped<OcrFrame>>) returns (texts: seq<string>)
    ensures NoDuplicates(texts)
    ensures forall t :: t in texts <==> t in OcrTexts(frames)
  {
    var all: seq<string> := [];
    for i := 0 to |frames|
      invariant all == OcrTexts(frames[..i])
    {
      var items := frames[i].item.texts.GetOr([]);
      assert frames[..i + 1][..i] == frames[..i];
      for j := 0 to |items|
        invariant all == OcrTexts(frames[..i]) + TextsOf(items[..j])
      {
        assert TextsOf(items[..j + 1]) == TextsOf(items[..j]) + [items[j].text];
        all := all + [items[j].text];
      }
      assert items[..|items|] == items;
    }
    assert frames[..|frames|] == frames;
    texts := [];
    var seen: set<string> := {};
    for i := 0 to |all|
      invariant NoDuplicates(texts)
      invariant seen == set t | t in texts
      invariant forall t :: t in texts <==> t in all[..i]
    {
      if all[i] !in seen {
        texts := texts + [all[i]];
        seen := seen + {all[i]};
      }
      assert all[..i + 1] == all[..i] + [all[i]];
    }
    assert all[..|all|] == all;
  }

  /** The per-frame face lists, missing lists read as empty. */
  function FaceLists(frames: seq<Stamped<FaceFrame>>): (r: seq<seq<Face>>)
    ensures |r| == |frames| && forall i :: 0 <= i < |frames| ==> r[i] == frames[i].item.faces.GetOr([])
  {
    seq(|frames|, i requires 0 <= i < |frames| => frames[i].item.faces.GetOr([]))
  }

  /** `_merge_face_data`: the face lists one after the other. */
  method MergeFaces(frames: seq<Stamped<FaceFrame>>) returns (faces: seq<Face>)
    ensures faces == Concat(FaceLists(frames))
    ensures |faces| == TotalCount(FaceLists(frames))
  {
    faces := [];
    for i := 0 to |frames|
      invariant faces == Concat(FaceLists(frames[..i]))
    {
      assert FaceLists(frames[..i + 1]) == FaceLists(frames[..i]) + [frames[i].item.faces.GetOr([])];
      faces := faces + frames[i].item.faces.GetOr([]);
    }
    assert frames[..|frames|] == frames;
    ConcatLength(FaceLists(frames));
  }

  // ---------------------------------------------------------------- scoring

  /** `_calculate_highlight_score` of the fusion, unrounded: 30% dialogue
      density (full at 10 characters per second), 25% motion, 20% faces
      (30 points each, up to 100), 15% OCR texts (20 points each, up to
      100), 10% duration (losing 5 points per second above 15). A scene of
      duration 0 makes the density a division by zero. */
  function FusionScore(dialogueLen: nat, visual: Visual, faceCount: nat, ocrCount: nat, duration: real)
    : (r: Result<real, string>)
    ensures r.Err? <==> duration == 0.0
    ensures r.Ok? && duration > 0.0 && (visual.Visual? ==> 0.0 <= visual.motionScore <= 1.0) ==>
      0.0 <= r.value <= 100.0
  {
    if duration == 0.0 then Err("division by zero")
    else
      var dialogueScore := Min(dialogueLen as real / duration / 10.0 * 100.0, 100.0);
      var motion := if visual.Visual? then visual.motionScore else 0.0;
      var faceScore := Min(faceCount as real * 30.0, 100.0);
      var specialScore := Min(ocrCount as real * 20.0, 100.0);
      assert duration > 0.0 ==> dialogueScore >= 0.0;
      Ok(dialogueScore * 0.3 + motion * 100.0 * 0.25 + faceScore * 0.2 + specialScore * 0.15
         + HighlightSelector.DurationScore(duration, 5.0) * 0.1)
  }

  /** The fusion's duration term vanishes from 35 seconds on and is positive
      below. */
  lemma FusionDurationFalloff(duration: real)
    requires duration >= 0.0
    ensures HighlightSelector.DurationScore(duration, 5.0) == 0.0 <==> duration == 0.0 || duration >= 35.0
  {
  }

  /** What a fused scene holds for its scene, given all results. */
  ghost predicate FusedFrom(
    f: Fused, scene: Scene, vision: seq<Stamped<VisionFrame>>, ocr: seq<Stamped<OcrFrame>>,
    faces: seq<Stamped<FaceFrame>>, subtitles: seq<Subtitle>)
  {
    var s, e := scene.startTime, scene.endTime;
    var ocrIn := DataInRange(ocr, s, e);
    var facesIn := FaceLists(DataInRange(faces, s, e));
    && f.scene == scene
    && f.visual == MergeVision(DataInRange(vision, s, e))
    && NoDuplicates(f.ocrTexts)
    && (forall t :: t in f.ocrTexts <==> t in OcrTexts(ocrIn))
    && f.faces == Concat(facesIn)
    && f.dialogue == Join(Texts(ContainedSubtitles(subtitles, s, e)), " ")
    && FusionScore(|f.dialogue|, f.visual, |f.faces|, |f.ocrTexts|, scene.duration) == Ok(f.score)
  }

  /** The body of the loop of `fuse_multimodal_data` for one scene. */
  method FuseScene(
    scene: Scene, vision: seq<Stamped<VisionFrame>>, ocr: seq<Stamped<OcrFrame>>,
    faces: seq<Stamped<FaceFrame>>, subtitles: seq<Subtitle>)
    returns (r: Result<Fused, string>)
    ensures r.Ok? <==> scene.duration != 0.0
    ensures r.Ok? ==> FusedFrom(r.value, scene, vision, ocr, faces, subtitles)
  {
    var start, end := scene.startTime, scene.endTime;
    var visual := MergeVision(DataInRange(vision, start, end));
    var ocrTexts := MergeOcr(DataInRange(ocr, start, end));
    var sceneFaces := MergeFaces(DataInRange(faces, start, end));
    var dialogue := DialogueInRange(subtitles, start, end);
    var score := FusionScore(|dialogue|, visual, |sceneFaces|, |ocrTexts|, scene.duration);
    if score.Err? {
      return Err(score.error);
    }
    return Ok(Fused(scene, visual, ocrTexts, sceneFaces, dialogue, score.value));
  }

  /** `fuse_multimodal_data`: one fused scene per input scene, in order;
      the first scene of duration 0 raises the division error. */
  method FuseMultimodal(
    scenes: seq<Scene>, vision: seq<Stamped<VisionFrame>>, ocr: seq<Stamped<OcrFrame>>,
    faces: seq<Stamped<FaceFrame>>, subtitles: seq<Subtitle>)
    returns (r: Result<seq<Fused>, string>)
    ensures r.Ok? <==> forall i :: 0 <= i < |scenes| ==> scenes[i].duration != 0.0
    ensures r.Ok? ==> |r.value| == |scenes|
    ensures r.Ok? ==> forall i :: 0 <= i < |scenes| ==> FusedFrom(r.value[i], scenes[i], vision, ocr, faces, subtitles)
  {
    var fused: seq<Fused> := [];
    for i := 0 to |scenes|
      invariant |fused| == i
      invariant forall j :: 0 <= j < i ==> scenes[j].duration != 0.0
      invariant forall j :: 0 <= j < i ==> FusedFrom(fused[j], scenes[j], vision, ocr, faces, subtitles)
    {
      var one := FuseScene(scenes[i], vision, ocr, faces, subtitles);
      if one.Err? {
        return Err(one.error);
      }
      ghost var before := fused;
      fused := fused + [one.value];
      assert forall j :: 0 <= j < i ==> fused[j] == before[j];
    }
    return Ok(fused);
  }
}
