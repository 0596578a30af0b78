/** The records the pipeline stages hand to each other: scene dicts from
    scene detection and subtitle dicts from the subtitle extractor. Keys a
    stage adds (dialogue, scores, visual data) live in the stage's own
    result type. The three-way overlap test that attaches subtitles to a
    scene is shared by the selector, the subtitle aligner and the script
    analyzer, so it is defined here once. */
module Records {
  import opened Common
  import opened Intervals

  /** A detected scene. `index` and `selectedId` are the optional keys
      `index` and `selected_id`; the selector assigns `selected_id`. */
  datatype Scene = Scene(
    id: int,
    index: Option<int>,
    startTime: real,
    endTime: real,
    duration: real,
    startFrame: int,
    endFrame: int,
    selectedId: Option<int>)

  /** `scene.get('selected_id') or scene.get('id')`: an absent or zero
      `selected_id` falls back to the detector's `id`. */
  function SceneKey(s: Scene): (k: int)
    ensures s.selectedId.Some? && s.selectedId.value != 0 ==> k == s.selectedId.value
    ensures s.selectedId == None || s.selectedId == Some(0) ==> k == s.id
  {
    match s.selectedId
    case Some(v) => if v != 0 then v else s.id
    case None => s.id
  }

  /** One recognised speech segment. */
  datatype Subtitle = Subtitle(id: int, start: real, end: real, text: string, confidence: real)

  /** The texts of some subtitles, in order. */
  function Texts(subs: seq<Subtitle>): (r: seq<string>)
    ensures |r| == |subs|
    ensures forall i :: 0 <= i < |subs| ==> r[i] == subs[i].text
  {
    seq(|subs|, i requires 0 <= i < |subs| => subs[i].text)
  }

  /** The subtitles passing the three-way overlap test against [s, e), in
      subtitle order. */
  function OverlappingSubtitles(subtitles: seq<Subtitle>, s: real, e: real): (r: seq<Subtitle>)
    ensures |r| <= |subtitles|
    ensures forall i :: 0 <= i < |r| ==> r[i] in subtitles && Overlaps(r[i].start, r[i].end, s, e)
    ensures forall i :: 0 <= i < |subtitles| && Overlaps(subtitles[i].start, subtitles[i].end, s, e) ==>
      subtitles[i] in r
  {
    Filter(subtitles, (sub: Subtitle) => Overlaps(sub.start, sub.end, s, e))
  }

  /** The subtitles attached to a scene. */
  function SceneSubtitles(scene: Scene, subtitles: seq<Subtitle>): seq<Subtitle> {
    OverlappingSubtitles(subtitles, scene.startTime, scene.endTime)
  }

  /** The overlapping subtitles keep their order: those of a concatenation
      are those of each part, one after the other. */
  lemma OverlappingConcat(a: seq<Subtitle>, b: seq<Subtitle>, s: real, e: real)
    ensures OverlappingSubtitles(a + b, s, e) == OverlappingSubtitles(a, s, e) + OverlappingSubtitles(b, s, e)
  {
    FilterConcat(a, b, (sub: Subtitle) => Overlaps(sub.start, sub.end, s, e));
  }

  lemma SceneSubtitlesConcat(scene: Scene, a: seq<Subtitle>, b: seq<Subtitle>)
    ensures SceneSubtitles(scene, a + b) == SceneSubtitles(scene, a) + SceneSubtitles(scene, b)
  {
    OverlappingConcat(a, b, scene.startTime, scene.endTime);
  }
}
