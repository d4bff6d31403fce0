/**
 * Time ranges in minutes since midnight and the three conflict rules the
 * clinic's code applies to them.
 */
module Intervals {

  /** The half-open test `not (end1 <= start2 or start1 >= end2)`. */
  predicate Overlaps(start1: int, end1: int, start2: int, end2: int)
  {
    !(end1 <= start2 || start1 >= end2)
  }

  /**
   * The three-case test of the availability check: the new start lies in
   * [s, e), the new end lies in (s, e], or the new range contains [s, e].
   */
  predicate ThreeCaseConflict(start: int, end: int, s: int, e: int)
  {
    (s <= start && start < e) || (s < end && end <= e) || (start <= s && e <= end)
  }

  /** The rule of the scheduled-appointment handler: identical start times. */
  predicate SameStart(start: int, s: int)
  {
    start == s
  }

  lemma OverlapsSymmetric(a: int, b: int, c: int, d: int)
    ensures Overlaps(a, b, c, d) <==> Overlaps(c, d, a, b)
  {
  }

  /** Ranges that only touch do not overlap. */
  lemma TouchingDoNotOverlap(a: int, b: int, c: int)
    ensures !Overlaps(a, b, b, c) && !Overlaps(b, c, a, b)
  {
  }

  /** On non-empty ranges the three-case test and the half-open test agree. */
  lemma ThreeCaseIsOverlap(start: int, end: int, s: int, e: int)
    requires start < end && s < e
    ensures ThreeCaseConflict(start, end, s, e) <==> Overlaps(start, end, s, e)
  {
  }

  /** With an empty new range the two tests differ: [50, 50) at the start of [50, 100). */
  lemma ThreeCaseDiffersOnEmptyRange()
    ensures ThreeCaseConflict(50, 50, 50, 100) && !Overlaps(50, 50, 50, 100)
  {
  }

  /** On non-empty ranges an identical start is an overlap ... */
  lemma SameStartImpliesOverlap(start: int, end: int, s: int, e: int)
    requires start < end && s < e
    requires SameStart(start, s)
    ensures Overlaps(start, end, s, e)
  {
  }

  /** ... but not conversely: [9:00, 9:30) and [9:10, 9:40) overlap with different starts. */
  lemma OverlapWithoutSameStart()
    ensures Overlaps(540, 570, 550, 580) && !SameStart(540, 550)
  {
  }
}
