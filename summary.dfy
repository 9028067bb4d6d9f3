/**
 * `rollupFunction`: the five-number summary of one platform's records, drawn as a box
 * plot (whisker from min to max, box from q1 to q3, a line at the median).
 */
module BoxSummary {
  import opened Wrappers
  import opened Records
  import opened Stats

  datatype Summary = Summary(min: real, q1: real, median: real, q3: real, max: real)

  /** The box is drawn in the right order: each statistic is at most the next. */
  predicate Ordered(s: Summary)
  {
    s.min <= s.q1 <= s.median <= s.q3 <= s.max
  }

  /**
   * The object literal `{min, q1, median, q3, max}` built from `d3.min`, the 0.25, 0.5 and
   * 0.75 `d3.quantile`s and `d3.max` of the values. For no values every one of the five is
   * undefined; that object is `None` here.
   */
  function FiveNumbers(values: seq<real>): (r: Option<Summary>)
    ensures r.Some? <==> |values| > 0
  {
    var min, q1, median, q3, max :=
      Min(values), Quantile(values, 0.25), Quantile(values, 0.5), Quantile(values, 0.75), Max(values);
    if min.None? then
      None
    else
      Some(Summary(min.value, q1.value, median.value, q3.value, max.value))
  }

  /** `rollupFunction(groupData)`: sort the group's Likes ascending, then summarise them. */
  function RollupFunction(group: seq<Record>): (r: Option<Summary>)
    ensures r.Some? <==> |group| > 0
  {
    FiveNumbers(Sort(Likes(group)))
  }

  /** On sorted values min and max are the two ends and the quartiles are `quantileSorted`'s. */
  lemma FiveNumbersOfSorted(s: seq<real>)
    requires Sorted(s) && |s| > 0
    ensures FiveNumbers(s) == Some(Summary(s[0],
                                           QuantileSorted(s, 0.25).value,
                                           QuantileSorted(s, 0.5).value,
                                           QuantileSorted(s, 0.75).value,
                                           s[|s| - 1]))
  {
    MinMaxOfSorted(s);
    QuantileOfSorted(s, 0.25);
    QuantileOfSorted(s, 0.5);
    QuantileOfSorted(s, 0.75);
  }

  /** The group's Likes, sorted, are as many as the group's records. */
  lemma SortedLikesLength(group: seq<Record>)
    ensures |Sort(Likes(group))| == |group|
  {
  }

  /** `rollupFunction` summarises the group's sorted Likes. */
  lemma RollupOfSortedLikes(group: seq<Record>)
    ensures RollupFunction(group) == FiveNumbers(Sort(Likes(group)))
  {
  }

  /**
   * The summary read off the sorted values: min and max are their two ends, and the
   * quartiles are d3's interpolated quantiles of them.
   */
  lemma SummaryOfSorted(group: seq<Record>)
    requires |group| > 0
    ensures var sorted := Sort(Likes(group));
            |sorted| == |group| &&
            RollupFunction(group) == Some(Summary(sorted[0],
                                                  QuantileSorted(sorted, 0.25).value,
                                                  QuantileSorted(sorted, 0.5).value,
                                                  QuantileSorted(sorted, 0.75).value,
                                                  sorted[|sorted| - 1]))
  {
    SortedLikesLength(group);
    RollupOfSortedLikes(group);
    FiveNumbersOfSorted(Sort(Likes(group)));
  }

  /** The five numbers of sorted values are in box order. */
  lemma FiveNumbersOrdered(s: seq<real>)
    requires Sorted(s) && |s| > 0
    ensures FiveNumbers(s).Some? && Ordered(FiveNumbers(s).value)
  {
    FiveNumbersOfSorted(s);
    QuantileMonotone(s, 0.0, 0.25);
    QuantileMonotone(s, 0.25, 0.5);
    QuantileMonotone(s, 0.5, 0.75);
    QuantileMonotone(s, 0.75, 1.0);
  }

  /**
   * For every non-empty group, min <= q1 <= median <= q3 <= max; min is the smallest and
   * max the largest Like of the group.
   */
  lemma SummaryOrdered(group: seq<Record>)
    requires |group| > 0
    ensures RollupFunction(group).Some?
    ensures Ordered(RollupFunction(group).value)
    ensures RollupFunction(group).value.min in Likes(group)
    ensures RollupFunction(group).value.max in Likes(group)
    ensures forall i | 0 <= i < |group| ::
              RollupFunction(group).value.min <= group[i].likes <= RollupFunction(group).value.max
  {
    var sorted := Sort(Likes(group));
    SortedLikesLength(group);
    SummaryOfSorted(group);
    FiveNumbersOrdered(sorted);
    SortEnds(Likes(group));
    forall i | 0 <= i < |group|
      ensures sorted[0] <= group[i].likes <= sorted[|sorted| - 1]
    {
      assert group[i].likes == Likes(group)[i];
    }
  }

  /** A group with a single value x is summarised as {x, x, x, x, x}. */
  lemma SummaryOfSingleValue(r: Record)
    ensures RollupFunction([r]) == Some(Summary(r.likes, r.likes, r.likes, r.likes, r.likes))
  {
    assert Likes([r]) == [r.likes];
    SortOfSorted([r.likes]);
  }

  /**
   * The summary depends only on which values the group holds, not on the order of its
   * records: any rearrangement of the group gives the same summary.
   */
  lemma SummaryIgnoresOrder(a: seq<Record>, b: seq<Record>)
    requires multiset(a) == multiset(b)
    ensures RollupFunction(a) == RollupFunction(b)
  {
    LikesOfPermutation(a, b);
    SortOfPermutation(Likes(a), Likes(b));
  }

  /** d3's quartiles of the sorted values [1, 2, 3, 4] are 1.75, 2.5 and 3.25. */
  lemma QuartilesOfOneToFour()
    ensures QuantileSorted([1.0, 2.0, 3.0, 4.0], 0.25) == Some(1.75)
    ensures QuantileSorted([1.0, 2.0, 3.0, 4.0], 0.5) == Some(2.5)
    ensures QuantileSorted([1.0, 2.0, 3.0, 4.0], 0.75) == Some(3.25)
  {
    var s := [1.0, 2.0, 3.0, 4.0];
    assert Rank(4, 0.25) == 0.0 + 0.75;
    var lo1, f1 := QuantileInterior(s, 0.25);
    assert lo1 == 0 && f1 == 0.75;
    assert Rank(4, 0.5) == 1.0 + 0.5;
    var lo2, f2 := QuantileInterior(s, 0.5);
    assert lo2 == 1 && f2 == 0.5;
    assert Rank(4, 0.75) == 2.0 + 0.25;
    var lo3, f3 := QuantileInterior(s, 0.75);
    assert lo3 == 2 && f3 == 0.25;
  }

  /**
   * A group whose Likes are 1, 2, 3 and 4, in any order, has min 1, q1 1.75, median 2.5,
   * q3 3.25 and max 4.
   */
  lemma SummaryOfOneToFour(group: seq<Record>)
    requires multiset(Likes(group)) == multiset{1.0, 2.0, 3.0, 4.0}
    ensures RollupFunction(group) == Some(Summary(1.0, 1.75, 2.5, 3.25, 4.0))
  {
    var s := [1.0, 2.0, 3.0, 4.0];
    assert multiset(s) == multiset{1.0, 2.0, 3.0, 4.0};
    assert |group| == |Likes(group)| == 4;
    assert Sorted(s);
    SortedUnique(Sort(Likes(group)), s);
    SummaryOfSorted(group);
    QuartilesOfOneToFour();
  }
}
