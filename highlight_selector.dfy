/** Highlight selection: attach subtitles to scenes, score each scene, take
    scenes greedily in descending score order under a total-duration budget,
    then put the chosen scenes back in time order and number them 1..N. */
module HighlightSelector {
  import opened Common
  import opened Text
  import opened Sorting
  import opened Intervals
  import opened Records

  /** A scene with the keys the selector adds to its copy: `dialogue`,
      `subtitle_count` and `highlight_score`. */
  datatype Highlight = Highlight(scene: Scene, dialogue: string, subtitleCount: nat, score: real)

  // ------------------------------------------------------------ enrichment

  /** `_add_dialogue_to_scene`: a copy of the scene with the attached texts
      space-joined and counted; the score is filled in by the caller. */
  function AddDialogue(scene: Scene, subtitles: seq<Subtitle>): (h: Highlight)
    ensures h.scene == scene
    ensures h.subtitleCount == |SceneSubtitles(scene, subtitles)|
    ensures h.dialogue == Join(Texts(SceneSubtitles(scene, subtitles)), " ")
  {
    var subs := SceneSubtitles(scene, subtitles);
    Highlight(scene, Join(Texts(subs), " "), |subs|, 0.0)
  }

  // --------------------------------------------------------------- scoring

  /** Dialogue density: characters per second against a full mark of 8. */
  function DialogueScore(dialogueLen: nat, duration: real): (r: real)
    ensures 0.0 <= r <= 100.0
    ensures dialogueLen == 0 || duration <= 0.0 ==> r == 0.0
    ensures r == 100.0 <==> duration > 0.0 && dialogueLen as real >= 8.0 * duration
  {
    if dialogueLen > 0 then
      var density := if duration > 0.0 then dialogueLen as real / duration else 0.0;
      assert duration > 0.0 ==> (density >= 8.0 <==> dialogueLen as real >= 8.0 * duration);
      Min(density / 8.0 * 100.0, 100.0)
    else 0.0
  }

  /** Subtitle count: 20 points per subtitle up to 100. */
  function SubtitleScore(count: nat): (r: real)
    ensures 0.0 <= r <= 100.0
    ensures r == 100.0 <==> count >= 5
  {
    if count > 0 then Min(count as real * 20.0, 100.0) else 0.0
  }

  /** Duration: full marks for 5 to 15 seconds, proportional below 5, losing
      `falloff` points per second above 15 (3 here, 5 in multimodal fusion). */
  function DurationScore(duration: real, falloff: real): (r: real)
    requires falloff > 0.0
    ensures duration >= 0.0 ==> 0.0 <= r <= 100.0
    ensures r == 100.0 <==> 5.0 <= duration <= 15.0
    ensures duration > 15.0 ==> r < 100.0 && (r == 0.0 <==> duration >= 15.0 + 100.0 / falloff)
  {
    if 5.0 <= duration <= 15.0 then 100.0
    else if duration < 5.0 then duration / 5.0 * 100.0
    else
      assert 100.0 - (duration - 15.0) * falloff <= 0.0 <==> duration >= 15.0 + 100.0 / falloff by {
        assert (duration - 15.0) * falloff >= 100.0 <==> duration - 15.0 >= 100.0 / falloff;
      }
      Max(0.0, 100.0 - (duration - 15.0) * falloff)
  }

  /** The duration mark at a few points: 20 s gives 85, 30 s gives 55, 2 s
      gives 40 and anything from 48 1/3 s on gives 0. */
  lemma DurationScoreExamples()
    ensures DurationScore(20.0, 3.0) == 85.0
    ensures DurationScore(30.0, 3.0) == 55.0
    ensures DurationScore(2.0, 3.0) == 40.0
    ensures DurationScore(50.0, 3.0) == 0.0
  {
  }

  /** `_calculate_highlight_score` before rounding: 40% dialogue density,
      30% subtitle count, 30% duration. It is a mark out of 100, and it is
      100 exactly when every part is. */
  function HighlightScore(dialogueLen: nat, subtitleCount: nat, duration: real): (r: real)
    ensures duration >= 0.0 ==> 0.0 <= r <= 100.0
    ensures duration >= 0.0 ==>
      (r == 100.0 <==> dialogueLen as real >= 8.0 * duration && duration > 0.0
                       && subtitleCount >= 5 && 5.0 <= duration <= 15.0)
  {
    DialogueScore(dialogueLen, duration) * 0.4 + SubtitleScore(subtitleCount) * 0.3
      + DurationScore(duration, 3.0) * 0.3
  }

  /** One enriched scene: dialogue attached and the score rounded to two
      places. */
  function Enriched(scene: Scene, subtitles: seq<Subtitle>, round: Rounding): (h: Highlight)
    ensures h.scene == scene
    ensures h.score == round(HighlightScore(|h.dialogue|, h.subtitleCount, scene.duration), 2)
  {
    var h := AddDialogue(scene, subtitles);
    h.(score := round(HighlightScore(|h.dialogue|, h.subtitleCount, scene.duration), 2))
  }

  /** Step 1: one enriched copy per input scene, in input order. */
  function Enrich(scenes: seq<Scene>, subtitles: seq<Subtitle>, round: Rounding): (r: seq<Highlight>)
    ensures |r| == |scenes|
    ensures forall i :: 0 <= i < |scenes| ==> r[i] == Enriched(scenes[i], subtitles, round)
  {
    seq(|scenes|, i requires 0 <= i < |scenes| => Enriched(scenes[i], subtitles, round))
  }

  // ------------------------------------------------------ greedy selection

  function ScoreOf(h: Highlight): real { h.score }

  function StartOf(h: Highlight): real { h.scene.startTime }

  function SumDurations(hs: seq<Highlight>): real {
    if |hs| == 0 then 0.0 else SumDurations(hs[..|hs| - 1]) + hs[|hs| - 1].scene.duration
  }

  /** The state of the greedy loop: scenes taken so far, their total
      duration, and whether the loop has broken out. */
  datatype Scan = Scan(picked: seq<Highlight>, total: real, stopped: bool)

  /** One iteration of the greedy loop over a scene. */
  function Step(st: Scan, h: Highlight, target: real): Scan {
    if st.stopped then st
    else
      var fits := st.total + h.scene.duration <= target;
      var picked := if fits then st.picked + [h] else st.picked;
      var total := if fits then st.total + h.scene.duration else st.total;
      Scan(picked, total, total >= target * 0.95)
  }

  /** The greedy loop run over `xs` in order. The running total is the
      summed duration of what was taken, it never exceeds the target once
      something was taken, the loop stops at the first scene after
      which the total has reached 95% of the target, and every taken scene comes from `xs`. */
  function Greedy(xs: seq<Highlight>, target: real): (st: Scan)
    ensures st.total == SumDurations(st.picked)
    ensures st.picked == [] || st.total <= target
    ensures st.stopped ==> st.total >= target * 0.95
    ensures |xs| > 0 && !st.stopped ==> st.total < target * 0.95
    ensures multiset(st.picked) <= multiset(xs)
  {
    if |xs| == 0 then Scan([], 0.0, false)
    else
      var prev := Greedy(xs[..|xs| - 1], target);
      var h := xs[|xs| - 1];
      assert xs == xs[..|xs| - 1] + [h];
      assert SumDurations(prev.picked + [h]) == prev.total + h.scene.duration by {
        assert (prev.picked + [h])[..|prev.picked|] == prev.picked;
      }
      Step(prev, h, target)
  }

  /** The greedy loop over one more scene is one more step. */
  lemma GreedyPrefix(xs: seq<Highlight>, i: nat, target: real)
    requires i < |xs|
    ensures Greedy(xs[..i + 1], target) == Step(Greedy(xs[..i], target), xs[i], target)
  {
    assert xs[..i + 1][..i] == xs[..i];
  }

  /** Once the loop has broken out, later scenes are never looked at. */
  lemma {:induction false} GreedyStopped(xs: seq<Highlight>, ys: seq<Highlight>, target: real)
    requires Greedy(xs, target).stopped
    ensures Greedy(xs + ys, target) == Greedy(xs, target)
    decreases |ys|
  {
    if |ys| > 0 {
      var ys' := ys[..|ys| - 1];
      assert (xs + ys)[..|xs + ys| - 1] == xs + ys';
      assert (xs + ys)[|xs + ys| - 1] == ys[|ys| - 1];
      GreedyStopped(xs, ys', target);
    } else {
      assert xs + ys == xs;
    }
  }

  /** The same, for a loop over `xs` that broke out after `i` scenes. */
  lemma GreedyStoppedAt(xs: seq<Highlight>, i: nat, target: real)
    requires i <= |xs| && Greedy(xs[..i], target).stopped
    ensures Greedy(xs, target) == Greedy(xs[..i], target)
  {
    GreedyStopped(xs[..i], xs[i..], target);
    assert xs[..i] + xs[i..] == xs;
  }

  /** A scene that does not fit is skipped and the loop goes on. */
  lemma OverflowSkipped(xs: seq<Highlight>, h: Highlight, target: real)
    requires !Greedy(xs, target).stopped && Greedy(xs, target).total < target * 0.95
    requires Greedy(xs, target).total + h.scene.duration > target
    ensures Greedy(xs + [h], target) == Greedy(xs, target)
  {
    assert (xs + [h])[..|xs|] == xs;
  }

  /** With non-negative durations, a loop that ran to the end without
      breaking left out only scenes that would not have fit. */
  lemma {:induction false} GreedyMaximal(xs: seq<Highlight>, target: real)
    requires forall i :: 0 <= i < |xs| ==> xs[i].scene.duration >= 0.0
    requires !Greedy(xs, target).stopped
    ensures forall i :: 0 <= i < |xs| ==>
      xs[i] in Greedy(xs, target).picked || Greedy(xs, target).total + xs[i].scene.duration > target
  {
    if |xs| > 0 {
      var init, h := xs[..|xs| - 1], xs[|xs| - 1];
      var prev := Greedy(init, target);
      var st := Greedy(xs, target);
      assert st == Step(prev, h, target);
      GreedyMaximal(init, target);
      assert st.total >= prev.total;
      forall i | 0 <= i < |xs| ensures xs[i] in st.picked || st.total + xs[i].scene.duration > target {
        if i < |xs| - 1 {
          assert xs[i] == init[i];
          if xs[i] in prev.picked {
            assert prev.picked <= st.picked;
          }
        }
      }
    }
  }

  /** With non-negative durations, a scene longer than the target is never
      taken: every taken scene fits into the target on its own. */
  lemma {:induction false} GreedyNoOversized(xs: seq<Highlight>, target: real)
    requires forall i :: 0 <= i < |xs| ==> xs[i].scene.duration >= 0.0
    ensures forall i :: 0 <= i < |Greedy(xs, target).picked| ==>
      Greedy(xs, target).picked[i].scene.duration <= target
  {
    if |xs| > 0 {
      var init, h := xs[..|xs| - 1], xs[|xs| - 1];
      var prev := Greedy(init, target);
      var st := Greedy(xs, target);
      assert st == Step(prev, h, target);
      GreedyNoOversized(init, target);
      SumDurationsNonNegative(prev.picked, init);
      StepFits(prev, h, target);
    }
  }

  /** A step that starts from a non-negative total takes only a scene that
      fits on its own. */
  lemma StepFits(prev: Scan, h: Highlight, target: real)
    requires prev.total >= 0.0
    requires forall i :: 0 <= i < |prev.picked| ==> prev.picked[i].scene.duration <= target
    ensures forall i :: 0 <= i < |Step(prev, h, target).picked| ==> Step(prev, h, target).picked[i].scene.duration <= target
  {
    var st := Step(prev, h, target);
    if st.picked != prev.picked {
      assert st.picked == prev.picked + [h];
      forall i | 0 <= i < |st.picked| ensures st.picked[i].scene.duration <= target {
        if i < |prev.picked| {
          assert st.picked[i] == prev.picked[i];
        }
      }
    }
  }

  lemma {:induction false} SumDurationsNonNegative(hs: seq<Highlight>, from: seq<Highlight>)
    requires multiset(hs) <= multiset(from)
    requires forall i :: 0 <= i < |from| ==> from[i].scene.duration >= 0.0
    ensures SumDurations(hs) >= 0.0
  {
    if |hs| > 0 {
      var init := hs[..|hs| - 1];
      assert hs == init + [hs[|hs| - 1]];
      assert hs[|hs| - 1] in multiset(from);
      SumDurationsNonNegative(init, from);
    }
  }

  /** Inserting into a sorted list keeps the summed duration. */
  lemma {:induction false} InsertKeepsSum(s: seq<Highlight>, x: Highlight, key: Highlight -> real)
    ensures SumDurations(Insert(s, x, key)) == SumDurations(s) + x.scene.duration
    decreases |s|
  {
    if |s| == 0 || key(s[|s| - 1]) <= key(x) {
      assert (s + [x])[..|s|] == s;
    } else {
      var init := s[..|s| - 1];
      InsertKeepsSum(init, x, key);
      var p := Insert(init, x, key) + [s[|s| - 1]];
      assert p[..|p| - 1] == Insert(init, x, key);
    }
  }

  /** Sorting does not change the summed duration. */
  lemma {:induction false} SortKeepsSum(s: seq<Highlight>, key: Highlight -> real)
    ensures SumDurations(StableSort(s, key)) == SumDurations(s)
  {
    if |s| > 0 {
      SortKeepsSum(s[..|s| - 1], key);
      InsertKeepsSum(StableSort(s[..|s| - 1], key), s[|s| - 1], key);
    }
  }

  // ---------------------------------------------------------- the selection

  /** Steps 2 to 4 without the numbering: the scenes the greedy pass over
      the score-descending order takes, back in `start_time` order. */
  function Picks(scenes: seq<Scene>, subtitles: seq<Subtitle>, target: real, round: Rounding): seq<Highlight> {
    var byScore := StableSortDescending(Enrich(scenes, subtitles, round), ScoreOf);
    StableSort(Greedy(byScore, target).picked, StartOf)
  }

  /** Step 5: `selected_id` becomes the 1-based position. */
  function Number(hs: seq<Highlight>): (r: seq<Highlight>)
    ensures |r| == |hs|
    ensures forall i :: 0 <= i < |hs| ==> r[i] == hs[i].(scene := hs[i].scene.(selectedId := Some(i + 1)))
  {
    seq(|hs|, i requires 0 <= i < |hs| => hs[i].(scene := hs[i].scene.(selectedId := Some(i + 1))))
  }

  /** What `select_highlights` returns. */
  function Selection(scenes: seq<Scene>, subtitles: seq<Subtitle>, target: real, round: Rounding): seq<Highlight> {
    if |scenes| == 0 then [] else Number(Picks(scenes, subtitles, target, round))
  }

  /** The chosen scenes are enriched input scenes, each used at most once. */
  lemma PicksFromEnriched(scenes: seq<Scene>, subtitles: seq<Subtitle>, target: real, round: Rounding)
    ensures multiset(Picks(scenes, subtitles, target, round)) <= multiset(Enrich(scenes, subtitles, round))
  {
  }

  /** Numbering changes `selected_id` only, so the durations add up the same. */
  lemma {:induction false} NumberKeepsSum(hs: seq<Highlight>)
    ensures SumDurations(Number(hs)) == SumDurations(hs)
  {
    if |hs| > 0 {
      var init := hs[..|hs| - 1];
      NumberKeepsSum(init);
      assert Number(hs)[..|hs| - 1] == Number(init);
    }
  }

  /** An empty scene list gives an empty selection. */
  lemma SelectionEmpty(scenes: seq<Scene>, subtitles: seq<Subtitle>, target: real, round: Rounding)
    requires |scenes| == 0
    ensures Selection(scenes, subtitles, target, round) == []
  {
  }

  /** The selected scenes fit the duration budget. */
  lemma SelectionBudget(scenes: seq<Scene>, subtitles: seq<Subtitle>, target: real, round: Rounding)
    ensures var sel := Selection(scenes, subtitles, target, round);
      sel == [] || SumDurations(sel) <= target
  {
    if |scenes| > 0 {
      var byScore := StableSortDescending(Enrich(scenes, subtitles, round), ScoreOf);
      var picked := Greedy(byScore, target).picked;
      SortKeepsSum(picked, StartOf);
      NumberKeepsSum(StableSort(picked, StartOf));
    }
  }

  /** The selection is in `start_time` order and numbered 1..N in that
      order. */
  lemma SelectionOrdered(scenes: seq<Scene>, subtitles: seq<Subtitle>, target: real, round: Rounding)
    ensures var sel := Selection(scenes, subtitles, target, round);
      (forall i, j :: 0 <= i < j < |sel| ==> sel[i].scene.startTime <= sel[j].scene.startTime)
      && (forall i :: 0 <= i < |sel| ==> sel[i].scene.selectedId == Some(i + 1))
  {
    if |scenes| > 0 {
      var chrono := Picks(scenes, subtitles, target, round);
      var sel := Number(chrono);
      assert SortedBy(chrono, StartOf);
      forall i, j | 0 <= i < j < |sel|
        ensures sel[i].scene.startTime <= sel[j].scene.startTime
      {
        assert StartOf(chrono[i]) <= StartOf(chrono[j]);
      }
    }
  }

  /** With non-negative durations no selected scene is longer than the
      target. */
  lemma SelectionNoOversized(scenes: seq<Scene>, subtitles: seq<Subtitle>, target: real, round: Rounding)
    requires forall i :: 0 <= i < |scenes| ==> scenes[i].duration >= 0.0
    ensures forall h :: h in Selection(scenes, subtitles, target, round) ==> h.scene.duration <= target
  {
    if |scenes| > 0 {
      var enriched := Enrich(scenes, subtitles, round);
      var byScore := StableSortDescending(enriched, ScoreOf);
      forall i | 0 <= i < |byScore|
        ensures byScore[i].scene.duration >= 0.0
      {
        assert byScore[i] in multiset(enriched);
      }
      GreedyNoOversized(byScore, target);
      var picked := Greedy(byScore, target).picked;
      var chrono := StableSort(picked, StartOf);
      forall i | 0 <= i < |chrono|
        ensures chrono[i].scene.duration <= target
      {
        assert chrono[i] in multiset(picked);
      }
    }
  }

  /** Step 1, the enrichment loop. */
  method EnrichScenes(scenes: seq<Scene>, subtitles: seq<Subtitle>, round: Rounding)
    returns (enriched: seq<Highlight>)
    ensures enriched == Enrich(scenes, subtitles, round)
  {
    enriched := [];
    for k := 0 to |scenes|
      invariant |enriched| == k
      invariant forall j :: 0 <= j < k ==> enriched[j] == Enriched(scenes[j], subtitles, round)
    {
      var h := AddDialogue(scenes[k], subtitles);
      h := h.(score := round(HighlightScore(|h.dialogue|, h.subtitleCount, h.scene.duration), 2));
      enriched := enriched + [h];
    }
  }

  /** Step 3, the greedy loop with its early stop. */
  method GreedyPass(byScore: seq<Highlight>, target: real) returns (picked: seq<Highlight>, total: real)
    ensures picked == Greedy(byScore, target).picked
    ensures total == Greedy(byScore, target).total
  {
    picked, total := [], 0.0;
    var i := 0;
    while i < |byScore|
      invariant 0 <= i <= |byScore|
      invariant Greedy(byScore[..i], target) == Scan(picked, total, false)
    {
      var h := byScore[i];
      GreedyPrefix(byScore, i, target);
      if total + h.scene.duration <= target {
        picked := picked + [h];
        total := total + h.scene.duration;
      }
      i := i + 1;
      if total >= target * 0.95 {
        GreedyStoppedAt(byScore, i, target);
        break;
      }
    }
    assert i == |byScore| ==> byScore[..i] == byScore;
  }

  /** Step 5, the numbering loop. */
  method NumberScenes(chrono: seq<Highlight>) returns (selected: seq<Highlight>)
    ensures selected == Number(chrono)
  {
    selected := chrono;
    for k := 0 to |chrono|
      invariant |selected| == |chrono|
      invariant forall j :: 0 <= j < k ==> selected[j] == Number(chrono)[j]
      invariant forall j :: k <= j < |chrono| ==> selected[j] == chrono[j]
    {
      selected := selected[k := selected[k].(scene := selected[k].scene.(selectedId := Some(k + 1)))];
    }
  }

  /** `select_highlights(scenes, subtitles, target_duration)`. Python's
      `round` is passed in as `round`. */
  method SelectHighlights(scenes: seq<Scene>, subtitles: seq<Subtitle>, target: real, round: Rounding)
    returns (selected: seq<Highlight>)
    ensures selected == Selection(scenes, subtitles, target, round)
    ensures |scenes| == 0 ==> selected == []
    ensures selected == [] || SumDurations(selected) <= target
    ensures forall i, j :: 0 <= i < j < |selected| ==> selected[i].scene.startTime <= selected[j].scene.startTime
    ensures forall i :: 0 <= i < |selected| ==> selected[i].scene.selectedId == Some(i + 1)
  {
    SelectionBudget(scenes, subtitles, target, round);
    SelectionOrdered(scenes, subtitles, target, round);
    if |scenes| == 0 {
      return [];
    }
    var enriched := EnrichScenes(scenes, subtitles, round);
    enriched := StableSortDescending(enriched, ScoreOf);
    var picked, total := GreedyPass(enriched, target);
    picked := StableSort(picked, StartOf);
    selected := NumberScenes(picked);
  }
}
