/**
 * Calorie counting: the list of items the elves carry, bags separated by
 * blank lines, and the totals of the heaviest bag and of the three heaviest.
 */
module Calories {

  /** One line of the calorie list, already parsed: an amount, or the blank line that closes a bag. */
  datatype Item = Amount(calories: int) | Separator

  /**
   * The bags closed by the separators of `items`, when `open` holds the
   * amounts read since the last separator. Amounts after the last separator
   * belong to no closed bag.
   */
  function BagsFrom(items: seq<Item>, open: seq<int>): seq<seq<int>>
  {
    if items == [] then []
    else match items[0]
      case Separator => [open] + BagsFrom(items[1..], [])
      case Amount(n) => BagsFrom(items[1..], open + [n])
  }

  /** The bags `read_elf` yields, in order. */
  function Bags(items: seq<Item>): seq<seq<int>> {
    BagsFrom(items, [])
  }

  function SeparatorCount(items: seq<Item>): nat {
    if items == [] then 0
    else (if items[0] == Separator then 1 else 0) + SeparatorCount(items[1..])
  }

  /** The amounts of a stretch of items that holds no separator. */
  function Amounts(items: seq<Item>): (r: seq<int>)
    requires Separator !in items
    ensures |r| == |items|
    ensures forall k :: 0 <= k < |r| ==> items[k] == Amount(r[k])
  {
    if items == [] then [] else [items[0].calories] + Amounts(items[1..])
  }

  /**
   * `read_elf`: walks the items, collecting amounts into the open bag and
   * emitting it at each separator.
   */
  method ReadElf(items: seq<Item>) returns (bags: seq<seq<int>>)
    ensures bags == Bags(items)
  {
    bags := [];
    var elfBag: seq<int> := [];
    var i := 0;
    while i < |items|
      invariant 0 <= i <= |items|
      invariant bags + BagsFrom(items[i..], elfBag) == Bags(items)
    {
      assert items[i..][1..] == items[i + 1..];
      match items[i] {
        case Separator =>
          bags := bags + [elfBag];
          elfBag := [];
        case Amount(n) =>
          elfBag := elfBag + [n];
      }
      i := i + 1;
    }
  }

  /** One bag is yielded per separator, whatever amounts are open. */
  lemma {:induction false} BagCountIsSeparatorCount(items: seq<Item>, open: seq<int>)
    ensures |BagsFrom(items, open)| == SeparatorCount(items)
  {
    if items != [] {
      match items[0]
      case Separator => BagCountIsSeparatorCount(items[1..], []);
      case Amount(n) => BagCountIsSeparatorCount(items[1..], open + [n]);
    }
  }

  /** No list of items yields nothing. */
  lemma NoItemsNoBags()
    ensures Bags([]) == []
  {
  }

  /** Amounts after the last separator are never yielded. */
  lemma {:induction false} TrailingAmountsDropped(items: seq<Item>, tail: seq<Item>, open: seq<int>)
    requires Separator !in tail
    ensures BagsFrom(items + tail, open) == BagsFrom(items, open)
  {
    if items == [] {
      assert items + tail == tail;
      TrailingAmountsIgnored(tail, open);
    } else {
      assert (items + tail)[1..] == items[1..] + tail;
      match items[0]
      case Separator => TrailingAmountsDropped(items[1..], tail, []);
      case Amount(n) => TrailingAmountsDropped(items[1..], tail, open + [n]);
    }
  }

  lemma {:induction false} TrailingAmountsIgnored(tail: seq<Item>, open: seq<int>)
    requires Separator !in tail
    ensures BagsFrom(tail, open) == []
  {
    if tail != [] {
      TrailingAmountsIgnored(tail[1..], open + [tail[0].calories]);
    }
  }

  /**
   * The first bag holds exactly the amounts before the first separator, in
   * input order, and the remaining bags are read from what follows it. Two
   * adjacent separators (an empty `stretch`) thus yield an empty bag.
   */
  lemma {:induction false} FirstBag(stretch: seq<Item>, rest: seq<Item>, open: seq<int>)
    requires Separator !in stretch
    ensures BagsFrom(stretch + [Separator] + rest, open) == [open + Amounts(stretch)] + Bags(rest)
  {
    if stretch == [] {
      assert stretch + [Separator] + rest == [Separator] + rest;
      assert open + Amounts(stretch) == open;
    } else {
      assert (stretch + [Separator] + rest)[1..] == stretch[1..] + [Separator] + rest;
      assert open + Amounts(stretch) == (open + [stretch[0].calories]) + Amounts(stretch[1..]);
      FirstBag(stretch[1..], rest, open + [stretch[0].calories]);
    }
  }

  function Sum(bag: seq<int>): int {
    if bag == [] then 0 else bag[0] + Sum(bag[1..])
  }

  /** The total of each bag, in order: `map(sum, ...)`. */
  function Sums(bags: seq<seq<int>>): (r: seq<int>)
    ensures |r| == |bags| && forall k :: 0 <= k < |r| ==> r[k] == Sum(bags[k])
  {
    if bags == [] then [] else [Sum(bags[0])] + Sums(bags[1..])
  }

  /**
   * `heaviest_bag_calories`: the largest bag total. Python's `max` fails on
   * no bags at all, hence the precondition.
   */
  function Heaviest(bags: seq<seq<int>>): (r: int)
    requires |bags| > 0
    ensures exists k :: 0 <= k < |bags| && r == Sum(bags[k])
    ensures forall k :: 0 <= k < |bags| ==> Sum(bags[k]) <= r
  {
    if |bags| == 1 then Sum(bags[0])
    else
      var rest := Heaviest(bags[1..]);
      if Sum(bags[0]) >= rest then Sum(bags[0]) else rest
  }

  /** Three distinct positions of a sequence of length `n`. */
  predicate DistinctIndices(n: int, i: int, j: int, k: int) {
    0 <= i < n && 0 <= j < n && 0 <= k < n && i != j && i != k && j != k
  }

  /**
   * `total` is the largest sum of three totals at distinct positions, that is,
   * the sum of the three largest totals counted with multiplicity.
   */
  ghost predicate IsTopThreeTotal(sums: seq<int>, total: int) {
    && (exists i, j, k :: DistinctIndices(|sums|, i, j, k) && total == sums[i] + sums[j] + sums[k])
    && (forall i, j, k :: DistinctIndices(|sums|, i, j, k) ==> sums[i] + sums[j] + sums[k] <= total)
  }

  /** The defining property determines the total. */
  lemma TopThreeTotalUnique(sums: seq<int>, t1: int, t2: int)
    requires IsTopThreeTotal(sums, t1) && IsTopThreeTotal(sums, t2)
    ensures t1 == t2
  {
  }

  /** With exactly three bags the result is their grand total. */
  lemma TopThreeOfThree(sums: seq<int>, total: int)
    requires |sums| == 3 && IsTopThreeTotal(sums, total)
    ensures total == sums[0] + sums[1] + sums[2]
  {
    var i, j, k :| DistinctIndices(3, i, j, k) && total == sums[i] + sums[j] + sums[k];
    ThreeOfThree(sums, i, j, k);
  }

  /** Three distinct positions out of three are 0, 1 and 2 in some order. */
  lemma ThreeOfThree(sums: seq<int>, i: int, j: int, k: int)
    requires |sums| == 3 && DistinctIndices(3, i, j, k)
    ensures sums[i] + sums[j] + sums[k] == sums[0] + sums[1] + sums[2]
  {
  }

  /**
   * If positions `a`, `b`, `c` hold the three largest totals in that order,
   * no three distinct positions sum to more.
   */
  lemma TopThreeBound(sums: seq<int>, a: int, b: int, c: int, i: int, j: int, k: int)
    requires DistinctIndices(|sums|, a, b, c) && DistinctIndices(|sums|, i, j, k)
    requires sums[a] >= sums[b] >= sums[c]
    requires forall m :: 0 <= m < |sums| && m != a && m != b && m != c ==> sums[m] <= sums[c]
    ensures sums[i] + sums[j] + sums[k] <= sums[a] + sums[b] + sums[c]
  {
  }

  /**
   * Among the first `n` totals, positions `a`, `b` and `c` hold the three
   * largest, in descending order.
   */
  ghost predicate Tracks(sums: seq<int>, n: int, a: int, b: int, c: int) {
    && n <= |sums|
    && DistinctIndices(n, a, b, c)
    && sums[a] >= sums[b] >= sums[c]
    && forall m :: 0 <= m < n && m != a && m != b && m != c ==> sums[m] <= sums[c]
  }

  /** A total above the largest becomes the first; the others move down. */
  lemma TrackNewFirst(sums: seq<int>, n: int, a: int, b: int, c: int)
    requires Tracks(sums, n, a, b, c) && n < |sums| && sums[n] > sums[a]
    ensures Tracks(sums, n + 1, n, a, b)
  {
  }

  /** A total above the second only becomes the second. */
  lemma TrackNewSecond(sums: seq<int>, n: int, a: int, b: int, c: int)
    requires Tracks(sums, n, a, b, c) && n < |sums| && sums[a] >= sums[n] > sums[b]
    ensures Tracks(sums, n + 1, a, n, b)
  {
  }

  /** A total above the third only displaces the third. */
  lemma TrackNewThird(sums: seq<int>, n: int, a: int, b: int, c: int)
    requires Tracks(sums, n, a, b, c) && n < |sums| && sums[b] >= sums[n] > sums[c]
    ensures Tracks(sums, n + 1, a, b, n)
  {
  }

  /** A total no larger than the third changes nothing. */
  lemma TrackSmaller(sums: seq<int>, n: int, a: int, b: int, c: int)
    requires Tracks(sums, n, a, b, c) && n < |sums| && sums[n] <= sums[c]
    ensures Tracks(sums, n + 1, a, b, c)
  {
  }

  /** Positions holding the three largest totals give the top-three total. */
  lemma TrackedAreTopThree(sums: seq<int>, a: int, b: int, c: int)
    requires Tracks(sums, |sums|, a, b, c)
    ensures IsTopThreeTotal(sums, sums[a] + sums[b] + sums[c])
  {
    forall i, j, k | DistinctIndices(|sums|, i, j, k)
      ensures sums[i] + sums[j] + sums[k] <= sums[a] + sums[b] + sums[c]
    {
      TopThreeBound(sums, a, b, c, i, j, k);
    }
  }

  /**
   * `top_three_heaviest_calories`: primes a descending first, second, third
   * from the first three totals, then lets every further total push the
   * smaller ones down. The priming `next` calls need three bags.
   */
  method TopThreeHeaviest(bags: seq<seq<int>>) returns (total: int)
    requires |bags| >= 3
    ensures IsTopThreeTotal(Sums(bags), total)
  {
    ghost var sums := Sums(bags);
    // sorted(..., reverse=True) of the first three totals
    var first, second, third := Sum(bags[0]), Sum(bags[1]), Sum(bags[2]);
    ghost var a, b, c := 0, 1, 2;
    if second > first { first, second := second, first; a, b := b, a; }
    if third > second { second, third := third, second; b, c := c, b; }
    if second > first { first, second := second, first; a, b := b, a; }
    var n := 3;
    while n < |bags|
      invariant 3 <= n <= |bags|
      invariant Tracks(sums, n, a, b, c)
      invariant first == sums[a] && second == sums[b] && third == sums[c]
    {
      var bag := Sum(bags[n]);
      if bag > first {
        TrackNewFirst(sums, n, a, b, c);
        third, second, first := second, first, bag;
        c, b, a := b, a, n;
      } else if bag > second {
        TrackNewSecond(sums, n, a, b, c);
        third, second := second, bag;
        c, b := b, n;
      } else if bag > third {
        TrackNewThird(sums, n, a, b, c);
        third := bag;
        c := n;
      } else {
        TrackSmaller(sums, n, a, b, c);
      }
      n := n + 1;
    }
    total := first + second + third;
    TrackedAreTopThree(sums, a, b, c);
  }
}
