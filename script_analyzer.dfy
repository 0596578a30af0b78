/** The script analyzer's bookkeeping: which keyframes belong to a scene,
    which scenes are skipped, the dialogue cut from the whole-video
    subtitles, and the shape of each script record. The picture
    description (a remote vision call with a textual fallback) comes in as
    the parameter `describe`, and the whole-video subtitles as a value (the
    empty list when their extraction failed). */
module ScriptAnalyzer {
  import opened Common
  import opened Text
  import opened Records
  import opened KeyframeExtractor
  import HighlightSelector

  /** One script record: the scene's key and times, the picture
      description, the dialogue and the keyframe image paths. */
  datatype ScriptEntry = ScriptEntry(
    sceneId: int, startTime: real, endTime: real, duration: real,
    visualDescription: string, dialogue: string, keyframes: seq<string>)

  /** `_extract_dialogue_from_subtitles`: the texts of the subtitles
      overlapping [start, end), space-joined and stripped, or "" when none
      overlaps. */
  function ExtractDialogue(subtitles: seq<Subtitle>, start: real, end: real): (d: string)
    ensures |OverlappingSubtitles(subtitles, start, end)| == 0 ==> d == ""
    ensures d == [] || (!IsSpace(d[0]) && !IsSpace(d[|d| - 1]))
    ensures |OverlappingSubtitles(subtitles, start, end)| == 1 ==>
      d == Strip(OverlappingSubtitles(subtitles, start, end)[0].text)
  {
    var matched := OverlappingSubtitles(subtitles, start, end);
    if |matched| == 0 then "" else Strip(Join(Texts(matched), " "))
  }

  /** The analyzer cuts a scene's dialogue with the selector's test: its
      dialogue is the selector's, stripped. */
  lemma DialogueAsSelector(scene: Scene, subtitles: seq<Subtitle>)
    ensures ExtractDialogue(subtitles, scene.startTime, scene.endTime)
         == Strip(HighlightSelector.AddDialogue(scene, subtitles).dialogue)
  {
    if |SceneSubtitles(scene, subtitles)| == 0 {
      assert Strip("") == "";
    }
  }

  /** Whether a keyframe is one of the scene's: its `scene_id` is the
      scene's `selected_id or id`, or the scene's detector `id`. */
  predicate BelongsTo(kf: KeyframeInfo, scene: Scene) {
    kf.sceneId == SceneKey(scene) || kf.sceneId == scene.id
  }

  /** The keyframes analysed with the `idx`-th scene: the matching ones in
      order, or, when none matches, the keyframe at the same position if
      there is one. */
  function MatchingKeyframes(scene: Scene, idx: nat, keyframes: seq<KeyframeInfo>): (kfs: seq<KeyframeInfo>)
    ensures forall i :: 0 <= i < |keyframes| && BelongsTo(keyframes[i], scene) ==> keyframes[i] in kfs
    ensures (exists i :: 0 <= i < |keyframes| && BelongsTo(keyframes[i], scene)) ==>
      forall k :: 0 <= k < |kfs| ==> kfs[k] in keyframes && BelongsTo(kfs[k], scene)
    ensures (forall i :: 0 <= i < |keyframes| ==> !BelongsTo(keyframes[i], scene)) ==>
      kfs == (if idx < |keyframes| then [keyframes[idx]] else [])
  {
    var p := (kf: KeyframeInfo) => BelongsTo(kf, scene);
    var matched := Filter(keyframes, p);
    // A keyframe matches on the scene's `selected_id or id` or on its `id`;
    // with no match the index fallback applies.
    if |matched| == 0 && idx < |keyframes| then [keyframes[idx]]
    // Both remaining branches give `matched`; the first only records that
    // it is empty when no keyframe matches.
    else if forall i :: 0 <= i < |keyframes| ==> !p(keyframes[i]) then FilterNone(keyframes, p); matched
    else matched
  }

  /** A scene is skipped exactly when it gets no keyframe: nothing matches
      it and the keyframe list is no longer than its position. */
  lemma NoKeyframesIff(scene: Scene, idx: nat, keyframes: seq<KeyframeInfo>)
    ensures MatchingKeyframes(scene, idx, keyframes) == []
        <==> idx >= |keyframes| && forall i :: 0 <= i < |keyframes| ==> !BelongsTo(keyframes[i], scene)
  {
    if exists i :: 0 <= i < |keyframes| && BelongsTo(keyframes[i], scene) {
      var i :| 0 <= i < |keyframes| && BelongsTo(keyframes[i], scene);
      assert keyframes[i] in MatchingKeyframes(scene, idx, keyframes);
    }
  }

  /** Whether every keyframe has an image path (a missing one raises a
      `KeyError` while the record is built). */
  predicate AllSaved(kfs: seq<KeyframeInfo>) {
    forall k :: 0 <= k < |kfs| ==> kfs[k].imagePath.Some?
  }

  /** `_analyze_single_scene`: the record of a scene with its keyframes. */
  function SceneEntry(
    scene: Scene, kfs: seq<KeyframeInfo>, subtitles: seq<Subtitle>, describe: (Scene, seq<KeyframeInfo>) -> string): (e: ScriptEntry)
    requires AllSaved(kfs)
    ensures e.sceneId == SceneKey(scene)
    ensures e.startTime == scene.startTime && e.endTime == scene.endTime && e.duration == scene.duration
    ensures |e.keyframes| == |kfs| && forall k :: 0 <= k < |kfs| ==> Some(e.keyframes[k]) == kfs[k].imagePath
    ensures e.dialogue == ExtractDialogue(subtitles, scene.startTime, scene.endTime)
  {
    ScriptEntry(SceneKey(scene), scene.startTime, scene.endTime, scene.duration, describe(scene, kfs),
                ExtractDialogue(subtitles, scene.startTime, scene.endTime),
                seq(|kfs|, k requires 0 <= k < |kfs| && AllSaved(kfs) => kfs[k].imagePath.value))
  }

  /** What the loop of `analyze_scenes` adds for the `idx`-th scene: nothing
      when it has no keyframes or its analysis fails, its record otherwise. */
  function EntryAt(
    scenes: seq<Scene>, idx: nat, keyframes: seq<KeyframeInfo>, subtitles: seq<Subtitle>,
    describe: (Scene, seq<KeyframeInfo>) -> string): (r: Option<ScriptEntry>)
    requires idx < |scenes|
    ensures r.Some? <==> MatchingKeyframes(scenes[idx], idx, keyframes) != [] && AllSaved(MatchingKeyframes(scenes[idx], idx, keyframes))
  {
    var kfs := MatchingKeyframes(scenes[idx], idx, keyframes);
    if kfs == [] || !AllSaved(kfs) then None else Some(SceneEntry(scenes[idx], kfs, subtitles, describe))
  }

  /** What the loop adds for each scene, in scene order. */
  function Entries(
    scenes: seq<Scene>, keyframes: seq<KeyframeInfo>, subtitles: seq<Subtitle>,
    describe: (Scene, seq<KeyframeInfo>) -> string): (es: seq<Option<ScriptEntry>>)
    ensures |es| == |scenes|
  {
    seq(|scenes|, i requires 0 <= i < |scenes| => EntryAt(scenes, i, keyframes, subtitles, describe))
  }

  /** The script: the records of the scenes that can be analysed, in scene
      order. */
  function Script(
    scenes: seq<Scene>, keyframes: seq<KeyframeInfo>, subtitles: seq<Subtitle>,
    describe: (Scene, seq<KeyframeInfo>) -> string): (script: seq<ScriptEntry>)
    ensures |script| <= |scenes|
  {
    CollectSome(Entries(scenes, keyframes, subtitles, describe))
  }

  /** Every record is that of some scene. */
  lemma ScriptSound(
    scenes: seq<Scene>, keyframes: seq<KeyframeInfo>, subtitles: seq<Subtitle>,
    describe: (Scene, seq<KeyframeInfo>) -> string, e: ScriptEntry)
    requires e in Script(scenes, keyframes, subtitles, describe)
    ensures exists i :: 0 <= i < |scenes| && EntryAt(scenes, i, keyframes, subtitles, describe) == Some(e)
  {
    var es := Entries(scenes, keyframes, subtitles, describe);
    CollectSomeSound(es);
    var i :| 0 <= i < |es| && es[i] == Some(e);
  }

  /** Every scene that can be analysed has its record: a skipped or failed
      scene does not stop the ones after it. */
  lemma ScriptComplete(
    scenes: seq<Scene>, keyframes: seq<KeyframeInfo>, subtitles: seq<Subtitle>,
    describe: (Scene, seq<KeyframeInfo>) -> string, i: nat)
    requires i < |scenes| && EntryAt(scenes, i, keyframes, subtitles, describe).Some?
    ensures EntryAt(scenes, i, keyframes, subtitles, describe).value in Script(scenes, keyframes, subtitles, describe)
  {
    CollectSomeComplete(Entries(scenes, keyframes, subtitles, describe), i);
  }

  /** `analyze_scenes` after the subtitles are extracted: one record per
      scene that has keyframes and whose analysis succeeds, in scene order.
      Writing the JSON file is not modelled. */
  method AnalyzeScenes(
    scenes: seq<Scene>, keyframes: seq<KeyframeInfo>, allSubtitles: seq<Subtitle>,
    describe: (Scene, seq<KeyframeInfo>) -> string)
    returns (scriptData: seq<ScriptEntry>)
    ensures scriptData == Script(scenes, keyframes, allSubtitles, describe)
  {
    ghost var entries := Entries(scenes, keyframes, allSubtitles, describe);
    scriptData := [];
    for idx := 0 to |scenes|
      invariant scriptData == CollectSome(entries[..idx])
    {
      CollectSomePrefix(entries, idx);
      var scene := scenes[idx];
      var sceneKeyframes := Filter(keyframes, (kf: KeyframeInfo) => BelongsTo(kf, scene));
      if |sceneKeyframes| == 0 && idx < |keyframes| {
        sceneKeyframes := [keyframes[idx]];
      }
      assert sceneKeyframes == MatchingKeyframes(scene, idx, keyframes);
      if |sceneKeyframes| == 0 {
        continue;
      }
      // a keyframe without an image path raises inside the try block
      if !AllSaved(sceneKeyframes) {
        continue;
      }
      var sceneScript := SceneEntry(scene, sceneKeyframes, allSubtitles, describe);
      scriptData := scriptData + [sceneScript];
    }
    assert entries[..|scenes|] == entries;
  }
}
