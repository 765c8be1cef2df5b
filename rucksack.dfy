/**
 * Rucksack reorganisation: a rucksack is a string of item types; its first
 * half is one compartment and the rest (which takes the middle item when the
 * length is odd) the other. The overlap is the set of item types that occur
 * in both compartments.
 */
module Rucksack {

  /** Index where the second compartment begins: `len(bag) // 2`. */
  function Middle(bag: string): (m: nat)
    ensures m <= |bag| && |bag| - m - 1 <= m <= |bag| - m
  {
    |bag| / 2
  }

  /** The distinct characters of `s`, as Python's `set(s)`. */
  function CharSet(s: string): (r: set<char>)
    ensures forall c :: c in r <==> c in s
    ensures |r| <= |s|
  {
    if s == [] then {} else {s[0]} + CharSet(s[1..])
  }

  /** `find_compartment_overlap`: intersect the item types of the two compartments. */
  function CompartmentOverlap(bag: string): (r: set<char>)
    ensures forall c :: c in r <==>
      (exists i :: 0 <= i < Middle(bag) && bag[i] == c) && (exists j :: Middle(bag) <= j < |bag| && bag[j] == c)
    ensures r <= CharSet(bag[..Middle(bag)]) && |r| <= |bag| / 2
  {
    var m := Middle(bag);
    var first, second := CharSet(bag[..m]), CharSet(bag[m..]);
    InSlice(bag, 0, m);
    InSlice(bag, m, |bag|);
    SubsetCardinality(first * second, first);
    first * second
  }

  /** A character is in `s[lo..hi]` iff it occurs at a position from `lo` up to `hi`. */
  lemma InSlice(s: string, lo: nat, hi: nat)
    requires lo <= hi <= |s|
    ensures forall c :: c in s[lo..hi] <==> exists i :: lo <= i < hi && s[i] == c
  {
    forall c | c in s[lo..hi]
      ensures exists i :: lo <= i < hi && s[i] == c
    {
      var k :| 0 <= k < hi - lo && s[lo..hi][k] == c;
      assert s[lo + k] == c;
    }
    forall i | lo <= i < hi
      ensures s[i] in s[lo..hi]
    {
      assert s[lo..hi][i - lo] == s[i];
    }
  }

  lemma SubsetCardinality<T>(a: set<T>, b: set<T>)
    requires a <= b
    ensures |a| <= |b|
  {
    assert b == a + (b - a);
  }

  /** An empty rucksack has no overlap. */
  lemma EmptyBagHasNoOverlap()
    ensures CompartmentOverlap("") == {}
  {
  }

  /** With a single item the first compartment is empty, so nothing overlaps. */
  lemma SingleItemHasNoOverlap(c: char)
    ensures CompartmentOverlap([c]) == {}
  {
  }

  /** An odd-length bag puts its middle item in the second compartment. */
  lemma MiddleItemInSecondCompartment()
    ensures CompartmentOverlap("121") == {'1'}
    ensures CompartmentOverlap("123") == {}
  {
    assert "121"[0] == '1' && "121"[2] == '1';
  }

  /** Repeats within one compartment are reported once. */
  lemma RepeatsCollapse()
    ensures CompartmentOverlap("1231") == {'1'}
  {
    assert "1231"[0] == '1' && "1231"[3] == '1';
  }
}
