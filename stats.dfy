/**
 * The d3-array helpers the box plot calls, over sequences of reals:
 * `d3.ascending` sorting, `d3.min`, `d3.max` and `d3.quantile`.
 * A result that d3 leaves `undefined` (an empty input) is `None`.
 */
module Stats {
  import opened Wrappers

  predicate Sorted(s: seq<real>)
  {
    forall i, j | 0 <= i < j < |s| :: s[i] <= s[j]
  }

  /** A value at most the head of a sorted sequence can go in front of it. */
  lemma SortedCons(x: real, t: seq<real>)
    requires Sorted(t) && (|t| == 0 || x <= t[0])
    ensures Sorted([x] + t)
  {
  }

  /** Places x among the elements of a sorted sequence. */
  function Insert(x: real, s: seq<real>): (r: seq<real>)
    requires Sorted(s)
    ensures Sorted(r)
    ensures multiset(r) == multiset(s) + multiset{x}
    ensures |r| == |s| + 1
    ensures r[0] == x || (|s| > 0 && r[0] == s[0])
  {
    if |s| == 0 || x <= s[0] then
      [x] + s
    else
      assert s == [s[0]] + s[1..];
      var t := Insert(x, s[1..]);
      SortedCons(s[0], t);
      [s[0]] + t
  }

  /**
   * `values.sort(d3.ascending)`. On reals `d3.ascending` is a total order, and all sorted
   * arrangements of the same values are equal (SortedUnique), so any correct sorting
   * algorithm gives this result.
   */
  function Sort(s: seq<real>): (r: seq<real>)
    ensures Sorted(r)
    ensures multiset(r) == multiset(s)
    ensures |r| == |s|
  {
    if |s| == 0 then
      []
    else
      assert s == [s[0]] + s[1..];
      Insert(s[0], Sort(s[1..]))
  }

  /** The first element of a sorted sequence is at most each of its values. */
  lemma SortedHeadIsLeast(s: seq<real>, x: real)
    requires Sorted(s) && x in multiset(s)
    ensures s[0] <= x
  {
    var j :| 0 <= j < |s| && s[j] == x;
  }

  /** Dropping the first element of a sorted sequence leaves a sorted sequence of the other values. */
  lemma SortedTail(s: seq<real>)
    requires Sorted(s) && |s| > 0
    ensures Sorted(s[1..])
    ensures multiset(s[1..]) == multiset(s) - multiset{s[0]}
    ensures s == [s[0]] + s[1..]
  {
    assert s == [s[0]] + s[1..];
  }

  /** Two sorted sequences holding the same values are the same sequence. */
  lemma {:induction false} SortedUnique(a: seq<real>, b: seq<real>)
    requires Sorted(a) && Sorted(b)
    requires multiset(a) == multiset(b)
    ensures a == b
    decreases |a|
  {
    assert |a| == |b| by {
      assert |a| == |multiset(a)| && |b| == |multiset(b)|;
    }
    if |a| > 0 {
      SortedHeadIsLeast(a, b[0]);
      SortedHeadIsLeast(b, a[0]);
      assert a[0] == b[0];
      SortedTail(a);
      SortedTail(b);
      SortedUnique(a[1..], b[1..]);
      assert a[1..] == b[1..];
    }
  }

  /** The ends of the sorted copy are values of the input, and the least and greatest. */
  lemma SortEnds(s: seq<real>)
    requires |s| > 0
    ensures Sort(s)[0] in s && Sort(s)[|s| - 1] in s
    ensures forall i | 0 <= i < |s| :: Sort(s)[0] <= s[i] <= Sort(s)[|s| - 1]
  {
    var t := Sort(s);
    assert t[0] in multiset(t) && t[|t| - 1] in multiset(t);
    forall i | 0 <= i < |s| ensures t[0] <= s[i] <= t[|t| - 1] {
      assert s[i] in multiset(s);
      SortedEndsBound(t, s[i]);
    }
  }

  /** Every value of a sorted sequence lies between its two ends. */
  lemma SortedEndsBound(t: seq<real>, x: real)
    requires Sorted(t) && x in multiset(t)
    ensures t[0] <= x <= t[|t| - 1]
  {
    var k :| 0 <= k < |t| && t[k] == x;
  }

  /** Sorting a sorted sequence leaves it as it is. */
  lemma SortOfSorted(s: seq<real>)
    requires Sorted(s)
    ensures Sort(s) == s
  {
    SortedUnique(Sort(s), s);
  }

  /** The sorted arrangement depends only on which values there are, not on their order. */
  lemma SortOfPermutation(a: seq<real>, b: seq<real>)
    requires multiset(a) == multiset(b)
    ensures Sort(a) == Sort(b)
  {
    SortedUnique(Sort(a), Sort(b));
  }

  /** `d3.min(values)`: the smallest value, found front to back; undefined for no values. */
  function Min(s: seq<real>): (r: Option<real>)
    ensures r.None? <==> |s| == 0
    ensures r.Some? ==> r.value in s && forall i | 0 <= i < |s| :: r.value <= s[i]
  {
    if |s| == 0 then
      None
    else
      var last := s[|s| - 1];
      assert s == s[..|s| - 1] + [last];
      match Min(s[..|s| - 1])
      case None => Some(last)
      case Some(m) => Some(if m > last then last else m)
  }

  /** `d3.max(values)`: the largest value, found front to back; undefined for no values. */
  function Max(s: seq<real>): (r: Option<real>)
    ensures r.None? <==> |s| == 0
    ensures r.Some? ==> r.value in s && forall i | 0 <= i < |s| :: s[i] <= r.value
  {
    if |s| == 0 then
      None
    else
      var last := s[|s| - 1];
      assert s == s[..|s| - 1] + [last];
      match Max(s[..|s| - 1])
      case None => Some(last)
      case Some(m) => Some(if m < last then last else m)
  }

  /** The smallest and largest values of a sorted sequence are its two ends. */
  lemma MinMaxOfSorted(s: seq<real>)
    requires Sorted(s) && |s| > 0
    ensures Min(s) == Some(s[0])
    ensures Max(s) == Some(s[|s| - 1])
  {
  }

  /** The fractional rank (n - 1)·p of d3's (R-7) quantile. */
  function Rank(n: nat, p: real): real
  {
    (n - 1) as real * p
  }

  /** Where rank h lies for 0 < p < 1: between two neighbouring positions of the sequence. */
  lemma RankInRange(n: nat, p: real)
    requires n >= 2 && 0.0 < p < 1.0
    ensures 0.0 < Rank(n, p) < (n - 1) as real
    ensures 0 <= Rank(n, p).Floor && Rank(n, p).Floor + 1 < n
  {
    var m := (n - 1) as real;
    assert m * p < m * 1.0;
  }

  /** `value0 + (value1 - value0) * (i - i0)`: the point a fraction f of the way from x to y. */
  function Interpolate(x: real, y: real, f: real): real
  {
    x + (y - x) * f
  }

  /**
   * d3's quantile of an already sorted sequence (`quantileSorted`): undefined for no values,
   * the first value when p <= 0 or there is only one, the last when p >= 1, and otherwise
   * linear interpolation between positions floor(h) and floor(h) + 1, h = (n - 1)·p.
   */
  function QuantileSorted(s: seq<real>, p: real): (r: Option<real>)
    ensures r.None? <==> |s| == 0
  {
    var n := |s|;
    if n == 0 then
      None
    else if p <= 0.0 || n < 2 then
      Some(s[0])
    else if p >= 1.0 then
      Some(s[n - 1])
    else
      var h := Rank(n, p);
      var lo := h.Floor;
      RankInRange(n, p);
      Some(Interpolate(s[lo], s[lo + 1], h - lo as real))
  }

  /**
   * `d3.quantile(values, p)`. d3 selects the order statistics it needs itself
   * (it does not rely on the input being sorted), so its value is that of the sorted copy.
   */
  function Quantile(values: seq<real>, p: real): (r: Option<real>)
    ensures r.None? <==> |values| == 0
  {
    QuantileSorted(Sort(values), p)
  }

  /** On values that are already sorted, `d3.quantile` and `quantileSorted` agree. */
  lemma QuantileOfSorted(s: seq<real>, p: real)
    requires Sorted(s)
    ensures Quantile(s, p) == QuantileSorted(s, p)
  {
    SortOfSorted(s);
  }

  /** The interior case of QuantileSorted, named: the value at fractional rank h. */
  lemma QuantileInterior(s: seq<real>, p: real) returns (lo: int, f: real)
    requires |s| >= 2 && 0.0 < p < 1.0
    ensures 0 <= lo && lo + 1 < |s| && 0.0 <= f < 1.0
    ensures lo == Rank(|s|, p).Floor && f == Rank(|s|, p) - lo as real
    ensures QuantileSorted(s, p) == Some(Interpolate(s[lo], s[lo + 1], f))
  {
    RankInRange(|s|, p);
    var n := |s|;
    var h := Rank(n, p);
    lo := h.Floor;
    f := h - lo as real;
  }

  /** Interpolating between x <= y stays between them. */
  lemma InterpolateBetween(x: real, y: real, f: real)
    requires x <= y && 0.0 <= f <= 1.0
    ensures x <= Interpolate(x, y, f) <= y
  {
    var d := y - x;
    NonnegProduct(d, f);
    NonnegProduct(d, 1.0 - f);
    assert d * (1.0 - f) == d - d * f;
  }

  /** Interpolating further along never goes back. */
  lemma InterpolateMonotone(x: real, y: real, f1: real, f2: real)
    requires x <= y && f1 <= f2
    ensures Interpolate(x, y, f1) <= Interpolate(x, y, f2)
  {
    NonnegProduct(y - x, f2 - f1);
    assert (y - x) * (f2 - f1) == (y - x) * f2 - (y - x) * f1;
  }

  lemma NonnegProduct(a: real, b: real)
    requires 0.0 <= a && 0.0 <= b
    ensures 0.0 <= a * b
  {
  }

  /** The interpolation never leaves the two neighbouring order statistics it mixes. */
  lemma QuantileBetween(s: seq<real>, p: real)
    requires Sorted(s) && |s| >= 2 && 0.0 < p < 1.0
    ensures var lo := Rank(|s|, p).Floor;
            0 <= lo && lo + 1 < |s| &&
            s[lo] <= QuantileSorted(s, p).value <= s[lo + 1]
  {
    var lo, f := QuantileInterior(s, p);
    InterpolateBetween(s[lo], s[lo + 1], f);
  }

  /** Every quantile lies between the smallest and the largest value. */
  lemma QuantileBounds(s: seq<real>, p: real)
    requires Sorted(s) && |s| > 0
    ensures s[0] <= QuantileSorted(s, p).value <= s[|s| - 1]
  {
    if |s| >= 2 && 0.0 < p < 1.0 {
      QuantileBetween(s, p);
    }
  }

  /** A larger p gives a larger (or equal) rank. */
  lemma RankMonotone(n: nat, p1: real, p2: real)
    requires n >= 1 && p1 <= p2
    ensures Rank(n, p1) <= Rank(n, p2)
  {
    NonnegProduct((n - 1) as real, p2 - p1);
    assert (n - 1) as real * (p2 - p1) == Rank(n, p2) - Rank(n, p1);
  }

  /** A larger p never gives a smaller quantile. */
  lemma QuantileMonotone(s: seq<real>, p1: real, p2: real)
    requires Sorted(s) && |s| > 0
    requires p1 <= p2
    ensures QuantileSorted(s, p1).value <= QuantileSorted(s, p2).value
  {
    var n := |s|;
    QuantileBounds(s, p1);
    QuantileBounds(s, p2);
    if n >= 2 && 0.0 < p1 && p2 < 1.0 {
      RankMonotone(n, p1, p2);
      var lo1, f1 := QuantileInterior(s, p1);
      var lo2, f2 := QuantileInterior(s, p2);
      if lo1 < lo2 {
        QuantileBetween(s, p1);
        QuantileBetween(s, p2);
        assert s[lo1 + 1] <= s[lo2];
      } else {
        InterpolateMonotone(s[lo1], s[lo1 + 1], f1, f2);
      }
    }
  }

  /** When the rank (n - 1)·p is a whole number k, the quantile is exactly the k-th smallest value. */
  lemma QuantileAtWholeRank(s: seq<real>, p: real, k: nat)
    requires k < |s| && 0.0 <= p <= 1.0
    requires Rank(|s|, p) == k as real
    ensures QuantileSorted(s, p) == Some(s[k])
  {
    var n := |s|;
    if n < 2 {
    } else if p == 0.0 {
      assert Rank(n, p) == 0.0;
    } else if p == 1.0 {
      assert Rank(n, p) == (n - 1) as real;
    } else {
      var lo, f := QuantileInterior(s, p);
      assert lo == k && f == 0.0;
    }
  }

  /**
   * d3 interpolates towards position floor(h) + 1; the textbook rule interpolates towards
   * ceil(h). The two agree: when h is whole the weight h - floor(h) is 0 and ceil(h) is
   * floor(h), and otherwise ceil(h) is floor(h) + 1.
   */
  lemma QuantileCeilNeighbour(s: seq<real>, p: real)
    requires |s| > 0 && 0.0 <= p <= 1.0
    ensures var h := Rank(|s|, p);
            var lo := h.Floor;
            var hi := if h == lo as real then lo else lo + 1;
            0 <= lo <= hi < |s| &&
            QuantileSorted(s, p) == Some(Interpolate(s[lo], s[hi], h - lo as real))
  {
    var n := |s|;
    if n < 2 {
      assert (n - 1) as real == 0.0;
      assert Rank(n, p) == 0.0;
    } else if p == 0.0 {
      assert Rank(n, p) == 0.0;
    } else if p == 1.0 {
      assert Rank(n, p) == (n - 1) as real;
    } else {
      var lo, f := QuantileInterior(s, p);
      if f == 0.0 {
        assert Interpolate(s[lo], s[lo + 1], 0.0) == s[lo] == Interpolate(s[lo], s[lo], 0.0);
      }
    }
  }

  /**
   * The median (p = 0.5) is the middle value of an odd number of values and the mean of
   * the two middle values of an even number.
   */
  lemma MedianIsMiddle(s: seq<real>)
    requires |s| > 0
    ensures |s| % 2 == 1 ==> QuantileSorted(s, 0.5) == Some(s[|s| / 2])
    ensures |s| % 2 == 0 ==> QuantileSorted(s, 0.5) == Some((s[|s| / 2 - 1] + s[|s| / 2]) / 2.0)
  {
    var n := |s|;
    if n % 2 == 1 {
      assert Rank(n, 0.5) == (n / 2) as real;
      QuantileAtWholeRank(s, 0.5, n / 2);
    } else {
      assert Rank(n, 0.5) == (n / 2 - 1) as real + 0.5;
      var lo, f := QuantileInterior(s, 0.5);
      assert lo == n / 2 - 1 && f == 0.5;
      assert Interpolate(s[lo], s[lo + 1], 0.5) == (s[lo] + s[lo + 1]) / 2.0;
    }
  }
}
