/** The two ways the pipeline decides that a subtitle belongs to a scene.
    The selector, the subtitle aligner and the script analyzer use the
    three-way overlap test; multimodal fusion uses containment. */
module Intervals {

  /** A subtitle [start, end] touches the scene [s, e): it starts inside,
      ends inside, or covers the whole scene. */
  predicate Overlaps(start: real, end: real, s: real, e: real) {
    (start >= s && start < e) || (end > s && end <= e) || (start <= s && end >= e)
  }

  /** A subtitle lies wholly inside the closed scene [s, e]. */
  predicate Inside(start: real, end: real, s: real, e: real) {
    start >= s && end <= e
  }

  /** For a well-formed subtitle and a non-empty scene, the three-way test is
      the usual open-interval intersection, plus the two zero-length
      subtitles sitting exactly on a scene boundary. */
  lemma OverlapsCharacterized(start: real, end: real, s: real, e: real)
    requires start <= end && s < e
    ensures Overlaps(start, end, s, e)
        <==> (start < e && end > s) || (start == end && (start == s || start == e))
  {
  }

  /** A well-formed subtitle inside a non-empty scene also overlaps it. */
  lemma InsideOverlaps(start: real, end: real, s: real, e: real)
    requires start <= end && s < e
    requires Inside(start, end, s, e)
    ensures Overlaps(start, end, s, e)
  {
  }

  /** The converse fails: a subtitle that straddles the scene start overlaps
      but is not inside, so the two tests really differ. */
  lemma OverlapsNotInside()
    ensures Overlaps(4.0, 6.0, 5.0, 10.0) && !Inside(4.0, 6.0, 5.0, 10.0)
  {
  }
}
