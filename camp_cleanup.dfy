/**
 * Section assignments of the camp clean-up puzzle: a range of section
 * numbers whose two ends are both included, and the containment test that
 * Python's `in` operator performs on two of them.
 */
module CampCleanup {

  datatype SectionRange = SectionRange(start: int, stop: int) {

    /** `item in this`: the item starts no earlier and stops no later than this range. */
    predicate Contains(item: SectionRange)
      ensures Contains(item) ==> item.stop - item.start <= stop - start
      ensures Contains(item) && item.start <= item.stop ==> Covers(item.start) && Covers(item.stop)
    {
      item.start >= start && item.stop <= stop
    }

    /** Whether section `x` is assigned by this range, both ends included. */
    predicate Covers(x: int) {
      start <= x <= stop
    }
  }

  /**
   * For a range that covers at least one section, containment is exactly
   * inclusion of the covered sections.
   */
  lemma ContainsIffCovers(outer: SectionRange, inner: SectionRange)
    requires inner.start <= inner.stop
    ensures outer.Contains(inner) <==> forall x :: inner.Covers(x) ==> outer.Covers(x)
  {
    if forall x :: inner.Covers(x) ==> outer.Covers(x) {
      assert inner.Covers(inner.start) && inner.Covers(inner.stop);
    }
  }

  /** Every range contains itself. */
  lemma ContainsReflexive(r: SectionRange)
    ensures r.Contains(r)
  {
  }

  /** Containment chains. */
  lemma ContainsTransitive(a: SectionRange, b: SectionRange, c: SectionRange)
    requires b.Contains(a) && c.Contains(b)
    ensures c.Contains(a)
  {
  }

  /** Two ranges that contain each other have the same ends. */
  lemma ContainsAntisymmetric(a: SectionRange, b: SectionRange)
    requires a.Contains(b) && b.Contains(a)
    ensures a == b
  {
  }

  /** Containment is not symmetric: 1-2 lies in 1-3, but 1-3 does not lie in 1-2. */
  lemma ContainsNotSymmetric()
    ensures SectionRange(1, 3).Contains(SectionRange(1, 2))
    ensures !SectionRange(1, 2).Contains(SectionRange(1, 3))
  {
  }

  /** A range lying wholly before another is not contained in it. */
  lemma DisjointNotContained(a: SectionRange, b: SectionRange)
    requires a.start <= a.stop < b.start <= b.stop
    ensures !b.Contains(a)
  {
  }

  /** A range that overlaps another but sticks out past its start is not contained in it. */
  lemma OverlapNotContained(a: SectionRange, b: SectionRange)
    requires a.start < b.start <= a.stop
    ensures !b.Contains(a)
  {
  }
}
