/**
 * Grouping the records by Platform: the x-domain `[...new Set(data.map(d => d.Platform))]`
 * and `d3.rollup(data, rollupFunction, d => d.Platform)`, an insertion-ordered map from
 * each platform to the summary of its records.
 */
module Grouping {
  import opened Wrappers
  import opened Records
  import opened Stats
  import opened BoxSummary

  predicate NoDuplicates(xs: seq<string>)
  {
    forall i, j | 0 <= i < j < |xs| :: xs[i] != xs[j]
  }

  /** The position of the first occurrence of x in xs. */
  function FirstIndex(xs: seq<string>, x: string): (k: nat)
    requires x in xs
    ensures k < |xs| && xs[k] == x && x !in xs[..k]
  {
    if xs[0] == x then 0 else 1 + FirstIndex(xs[1..], x)
  }

  /** A position holding x with no x before it is the first occurrence. */
  lemma FirstIndexUnique(xs: seq<string>, x: string, k: nat)
    requires k < |xs| && xs[k] == x && x !in xs[..k]
    ensures FirstIndex(xs, x) == k
  {
  }

  /**
   * `[...new Set(xs)]`: each value once, a value's place fixed when it is first added,
   * walking xs front to back.
   */
  function Distinct(xs: seq<string>): (r: seq<string>)
    ensures NoDuplicates(r)
    ensures forall x :: x in r <==> x in xs
  {
    if |xs| == 0 then
      []
    else
      var init, x := xs[..|xs| - 1], xs[|xs| - 1];
      assert xs == init + [x];
      var d := Distinct(init);
      if x in d then d else d + [x]
  }

  /**
   * The distinct values come in first-seen order: of two entries, the earlier one first
   * occurs earlier in xs.
   */
  lemma {:induction false} DistinctFirstSeen(xs: seq<string>)
    ensures forall i, j | 0 <= i < j < |Distinct(xs)| ::
              FirstIndex(xs, Distinct(xs)[i]) < FirstIndex(xs, Distinct(xs)[j])
    decreases |xs|
  {
    if |xs| > 0 {
      var init, x := xs[..|xs| - 1], xs[|xs| - 1];
      assert xs == init + [x];
      var d := Distinct(init);
      DistinctFirstSeen(init);
      forall y | y in init ensures FirstIndex(xs, y) == FirstIndex(init, y) {
        var k := FirstIndex(init, y);
        assert xs[..k] == init[..k];
        FirstIndexUnique(xs, y, k);
      }
      if x !in d {
        assert x !in xs[..|xs| - 1];
        FirstIndexUnique(xs, x, |xs| - 1);
      }
    }
  }

  /** The x-domain of the box plot: each platform once, in first-seen order. */
  function PlatformList(rs: seq<Record>): (r: seq<string>)
    ensures NoDuplicates(r)
    ensures forall k :: k in r <==> k in Platforms(rs)
  {
    Distinct(Platforms(rs))
  }

  /** The records of one platform, in input order. */
  function Filter(rs: seq<Record>, k: string): (r: seq<Record>)
    ensures forall i | 0 <= i < |r| :: r[i].platform == k && r[i] in rs
  {
    if |rs| == 0 then
      []
    else
      var init, last := rs[..|rs| - 1], rs[|rs| - 1];
      assert rs == init + [last];
      Filter(init, k) + (if last.platform == k then [last] else [])
  }

  /** A platform's group holds every record of that platform and no other record. */
  lemma {:induction false} FilterMembers(rs: seq<Record>, k: string, x: Record)
    ensures x in Filter(rs, k) <==> x in rs && x.platform == k
    decreases |rs|
  {
    if |rs| > 0 {
      var init := rs[..|rs| - 1];
      assert rs == init + [rs[|rs| - 1]];
      FilterMembers(init, k, x);
    }
  }

  /** Order of appearance, not alphabetical order: platforms b, a, b give the x-domain [b, a]. */
  lemma FirstSeenExample(x: real, y: real, z: real)
    ensures PlatformList([Record("b", x), Record("a", y), Record("b", z)]) == ["b", "a"]
  {
    var rs := [Record("b", x), Record("a", y), Record("b", z)];
    assert Platforms(rs) == ["b", "a", "b"];
    assert ["b", "a", "b"][..2] == ["b", "a"];
    assert ["b", "a"][..1] == ["b"];
    assert ["b"][..0] == [];
  }

  /** A platform's records are there exactly when the platform occurs. */
  lemma {:induction false} FilterNonEmpty(rs: seq<Record>, k: string)
    ensures |Filter(rs, k)| > 0 <==> k in Platforms(rs)
    decreases |rs|
  {
    if |rs| > 0 {
      var init := rs[..|rs| - 1];
      FilterNonEmpty(init, k);
      assert Platforms(rs) == Platforms(init) + [rs[|rs| - 1].platform];
    }
  }

  /** A group of `d3.group`: a key and the records that have it, in input order. */
  datatype Group = Group(key: string, members: seq<Record>)

  function Keys(gs: seq<Group>): seq<string>
  {
    seq(|gs|, i requires 0 <= i < |gs| => gs[i].key)
  }

  /** The position of the group with key k, or -1 when there is none (`groups.get(key)`). */
  function Find(gs: seq<Group>, k: string): (r: int)
    ensures -1 <= r < |gs|
    ensures r >= 0 ==> gs[r].key == k
    ensures r < 0 ==> k !in Keys(gs)
  {
    if |gs| == 0 then -1
    else if gs[0].key == k then 0
    else
      var r := Find(gs[1..], k);
      assert Keys(gs) == [gs[0].key] + Keys(gs[1..]);
      if r < 0 then -1 else r + 1
  }

  /** One step of `d3.group`: push the record onto its key's group, or open a new group. */
  function Add(gs: seq<Group>, r: Record): seq<Group>
  {
    var i := Find(gs, r.platform);
    if i < 0 then
      gs + [Group(r.platform, [r])]
    else
      gs[i := Group(gs[i].key, gs[i].members + [r])]
  }

  /** `d3.group(data, d => d.Platform)`, built front to back. */
  function GroupBy(rs: seq<Record>): (gs: seq<Group>)
    ensures forall i | 0 <= i < |gs| :: |gs[i].members| > 0
  {
    if |rs| == 0 then [] else Add(GroupBy(rs[..|rs| - 1]), rs[|rs| - 1])
  }

  /** gs is the grouping of rs: keyed by rs's platforms in first-seen order, each group its platform's records. */
  predicate GroupsOf(gs: seq<Group>, rs: seq<Record>)
  {
    && Keys(gs) == PlatformList(rs)
    && forall i | 0 <= i < |gs| :: gs[i].members == Filter(rs, gs[i].key)
  }

  /** Appending a record adds its platform to the x-domain unless it is already there. */
  lemma PlatformListSnoc(init: seq<Record>, r: Record)
    ensures PlatformList(init + [r])
            == if r.platform in PlatformList(init) then PlatformList(init) else PlatformList(init) + [r.platform]
  {
    var rs := init + [r];
    assert Platforms(rs)[..|rs| - 1] == Platforms(init);
  }

  /** Appending a record extends its own platform's records and no other's. */
  lemma FilterSnoc(init: seq<Record>, r: Record, k: string)
    ensures Filter(init + [r], k) == Filter(init, k) + (if r.platform == k then [r] else [])
  {
    var rs := init + [r];
    assert rs[..|rs| - 1] == init;
  }

  /** The first record of a new platform opens a group at the end. */
  lemma AddOpensGroup(gs: seq<Group>, init: seq<Record>, r: Record)
    requires GroupsOf(gs, init) && Find(gs, r.platform) < 0
    ensures GroupsOf(Add(gs, r), init + [r])
  {
    var rs := init + [r];
    PlatformListSnoc(init, r);
    assert Keys(Add(gs, r)) == Keys(gs) + [r.platform];
    FilterNonEmpty(init, r.platform);
    FilterSnoc(init, r, r.platform);
    forall i | 0 <= i < |gs| ensures Add(gs, r)[i].members == Filter(rs, Add(gs, r)[i].key) {
      assert Add(gs, r)[i] == gs[i];
      assert gs[i].key == Keys(gs)[i] != r.platform;
      FilterSnoc(init, r, gs[i].key);
    }
  }

  /** A record of a platform already seen is pushed onto that platform's group. */
  lemma AddJoinsGroup(gs: seq<Group>, init: seq<Record>, r: Record)
    requires GroupsOf(gs, init) && Find(gs, r.platform) >= 0
    ensures GroupsOf(Add(gs, r), init + [r])
  {
    var rs := init + [r];
    var j := Find(gs, r.platform);
    assert Keys(gs)[j] == r.platform;
    PlatformListSnoc(init, r);
    var gs' := Add(gs, r);
    assert Keys(gs') == Keys(gs);
    forall i | 0 <= i < |gs'| ensures gs'[i].members == Filter(rs, gs'[i].key) {
      FilterSnoc(init, r, gs[i].key);
      if i != j {
        assert Keys(gs)[i] != Keys(gs)[j];
      }
    }
  }

  /**
   * The groups are keyed by the distinct platforms in first-seen order, and each group holds
   * exactly the records of its platform, in input order.
   */
  lemma {:induction false} GroupByCorrect(rs: seq<Record>)
    ensures Keys(GroupBy(rs)) == PlatformList(rs)
    ensures forall i | 0 <= i < |GroupBy(rs)| :: GroupBy(rs)[i].members == Filter(rs, GroupBy(rs)[i].key)
    decreases |rs|
  {
    if |rs| > 0 {
      var init, r := rs[..|rs| - 1], rs[|rs| - 1];
      assert rs == init + [r];
      GroupByCorrect(init);
      if Find(GroupBy(init), r.platform) < 0 {
        AddOpensGroup(GroupBy(init), init, r);
      } else {
        AddJoinsGroup(GroupBy(init), init, r);
      }
    }
  }

  /** An entry of the rollup: a platform and the summary of its records. */
  datatype Entry = Entry(platform: string, summary: Summary)

  /** `d3.rollup(data, rollupFunction, d => d.Platform)`. */
  function Rollup(rs: seq<Record>): seq<Entry>
  {
    var gs := GroupBy(rs);
    seq(|gs|, i requires 0 <= i < |gs| => Entry(gs[i].key, RollupFunction(gs[i].members).value))
  }

  function EntryKeys(es: seq<Entry>): seq<string>
  {
    seq(|es|, i requires 0 <= i < |es| => es[i].platform)
  }

  /** `quantilesByGroups.get(k)`: the summary stored under k, undefined when there is none. */
  function Lookup(es: seq<Entry>, k: string): Option<Summary>
  {
    if |es| == 0 then None
    else if es[0].platform == k then Some(es[0].summary)
    else Lookup(es[1..], k)
  }

  /**
   * The rollup's keys are the x-domain: each platform of the data exactly once, in
   * first-seen order, whatever their alphabetical order.
   */
  lemma RollupKeys(rs: seq<Record>)
    ensures EntryKeys(Rollup(rs)) == PlatformList(rs)
    ensures NoDuplicates(EntryKeys(Rollup(rs)))
    ensures forall k :: k in EntryKeys(Rollup(rs)) <==> k in Platforms(rs)
    ensures forall i, j | 0 <= i < j < |Rollup(rs)| ::
              FirstIndex(Platforms(rs), EntryKeys(Rollup(rs))[i]) < FirstIndex(Platforms(rs), EntryKeys(Rollup(rs))[j])
  {
    GroupByCorrect(rs);
    assert EntryKeys(Rollup(rs)) == Keys(GroupBy(rs));
    DistinctFirstSeen(Platforms(rs));
  }

  /** The summary stored at each position is that of exactly the records of its platform. */
  lemma RollupEntries(rs: seq<Record>)
    ensures forall i | 0 <= i < |Rollup(rs)| ::
              Some(Rollup(rs)[i].summary) == RollupFunction(Filter(rs, Rollup(rs)[i].platform))
  {
    GroupByCorrect(rs);
  }

  lemma {:induction false} LookupAt(es: seq<Entry>, i: nat)
    requires i < |es| && NoDuplicates(EntryKeys(es))
    ensures Lookup(es, es[i].platform) == Some(es[i].summary)
  {
    if i > 0 {
      assert EntryKeys(es[1..]) == EntryKeys(es)[1..];
      assert es[0].platform == EntryKeys(es)[0] != EntryKeys(es)[i] == es[i].platform;
      LookupAt(es[1..], i - 1);
    }
  }

  lemma {:induction false} LookupMissing(es: seq<Entry>, k: string)
    requires k !in EntryKeys(es)
    ensures Lookup(es, k) == None
  {
    if |es| > 0 {
      assert EntryKeys(es) == [es[0].platform] + EntryKeys(es[1..]);
      LookupMissing(es[1..], k);
    }
  }

  /**
   * No cross-contamination: looking a platform up in the rollup gives the summary of that
   * platform's records and of nothing else, and nothing for a platform not in the data.
   */
  lemma RollupLookup(rs: seq<Record>, k: string)
    ensures Lookup(Rollup(rs), k) == RollupFunction(Filter(rs, k))
  {
    RollupKeys(rs);
    var es := Rollup(rs);
    if k in Platforms(rs) {
      var i :| 0 <= i < |es| && EntryKeys(es)[i] == k;
      RollupLookupPresent(rs, i);
    } else {
      RollupLookupAbsent(rs, k);
    }
  }

  /** The platform at position i of the rollup is looked up to its own records' summary. */
  lemma RollupLookupPresent(rs: seq<Record>, i: nat)
    requires i < |Rollup(rs)|
    ensures Lookup(Rollup(rs), Rollup(rs)[i].platform) == RollupFunction(Filter(rs, Rollup(rs)[i].platform))
  {
    RollupKeys(rs);
    RollupEntries(rs);
    LookupAt(Rollup(rs), i);
  }

  /** A platform absent from the data has no entry and no records to summarise. */
  lemma RollupLookupAbsent(rs: seq<Record>, k: string)
    requires k !in Platforms(rs)
    ensures Lookup(Rollup(rs), k) == None
    ensures RollupFunction(Filter(rs, k)) == None
  {
    RollupKeys(rs);
    LookupMissing(Rollup(rs), k);
    FilterNonEmpty(rs, k);
  }

  /**
   * A platform's summary changes only when its own records change: two tables whose records
   * for k are the same values give k the same summary.
   */
  lemma RollupIsolated(rs: seq<Record>, ts: seq<Record>, k: string)
    requires multiset(Filter(rs, k)) == multiset(Filter(ts, k))
    ensures Lookup(Rollup(rs), k) == Lookup(Rollup(ts), k)
  {
    RollupLookup(rs, k);
    RollupLookup(ts, k);
    SummaryIgnoresOrder(Filter(rs, k), Filter(ts, k));
  }

  /** Every group's summary is ordered: the box plot never draws an inverted box. */
  lemma RollupOrdered(rs: seq<Record>)
    ensures forall i | 0 <= i < |Rollup(rs)| :: Ordered(Rollup(rs)[i].summary)
  {
    forall i | 0 <= i < |Rollup(rs)| ensures Ordered(Rollup(rs)[i].summary) {
      SummaryOrdered(GroupBy(rs)[i].members);
    }
  }

  /** `d3.max(data, d => d.Likes)`: the upper end of the y-domain. */
  function MaxLikes(rs: seq<Record>): (r: Option<real>)
    ensures r.None? <==> |rs| == 0
  {
    Max(Likes(rs))
  }

  /** No record's Likes exceeds the y-domain's upper end. */
  lemma BelowMaxLikes(rs: seq<Record>, r: Record)
    requires r in rs
    ensures MaxLikes(rs).Some? && r.likes <= MaxLikes(rs).value
  {
    var k :| 0 <= k < |rs| && rs[k] == r;
    assert Likes(rs)[k] == r.likes;
  }

  /** Every whisker ends within the y-domain: a group's max is at most the overall maximum Likes. */
  lemma RollupWithinDomain(rs: seq<Record>)
    ensures |Rollup(rs)| > 0 ==> MaxLikes(rs).Some?
    ensures forall i | 0 <= i < |Rollup(rs)| :: Rollup(rs)[i].summary.max <= MaxLikes(rs).value
  {
    RollupEntries(rs);
    forall i | 0 <= i < |Rollup(rs)| ensures MaxLikes(rs).Some? && Rollup(rs)[i].summary.max <= MaxLikes(rs).value {
      var g := Filter(rs, Rollup(rs)[i].platform);
      SummaryOrdered(g);
      var j :| 0 <= j < |g| && g[j].likes == RollupFunction(g).value.max;
      BelowMaxLikes(rs, g[j]);
    }
  }
}
