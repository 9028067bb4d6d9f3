/**
 * The non-rendering part of the box-plot chart, end to end: coerce the loaded rows in
 * place, then compute the x-domain, the upper end of the y-domain and the rollup that the
 * drawing loop walks.
 */
module BoxPlot {
  import opened Wrappers
  import opened Records
  import opened Stats
  import opened BoxSummary
  import opened Coercion
  import opened Grouping

  /**
   * The callback run on the loaded table, without the drawing: the coercion loop, the
   * scale domains and `quantilesByGroups`.
   */
  method PrepareBoxPlot(rows: array<Row>) returns (domain: seq<string>, yMax: Option<real>, quantilesByGroups: seq<Entry>)
    modifies rows
    ensures rows[..] == CoercedRows(old(rows[..]))
    ensures Numeric(rows[..])
    ensures domain == PlatformList(ToRecords(rows[..]))
    ensures yMax == MaxLikes(ToRecords(rows[..]))
    ensures quantilesByGroups == Rollup(ToRecords(rows[..]))
    ensures EntryKeys(quantilesByGroups) == domain
  {
    ghost var raw := rows[..];
    CoerceLikes(rows);
    CoercedRowsCorrect(raw);
    var data := ToRecords(rows[..]);
    domain := PlatformList(data);
    yMax := MaxLikes(data);
    quantilesByGroups := Rollup(data);
    RollupKeys(data);
  }

  /**
   * A Likes value that is not a number takes part in its platform's statistics as exactly 0:
   * 0 is among the sorted values of that group, and the group's minimum is at most 0.
   */
  lemma NaNCountsAsZero(raw: seq<Row>, i: nat)
    requires i < |raw| && ToNumber(raw[i].likes).None?
    ensures Numeric(CoercedRows(raw))
    ensures var group := Filter(ToRecords(CoercedRows(raw)), raw[i].platform);
            0.0 in Sort(Likes(group)) &&
            Lookup(Rollup(ToRecords(CoercedRows(raw))), raw[i].platform) == RollupFunction(group) &&
            RollupFunction(group).Some? && RollupFunction(group).value.min <= 0.0
  {
    RecordsAfterCoercion(raw);
    var rs := ToRecords(CoercedRows(raw));
    var k := raw[i].platform;
    var group := Filter(rs, k);
    assert rs[i] == Record(k, 0.0);
    FilterMembers(rs, k, rs[i]);
    var j :| 0 <= j < |group| && group[j] == rs[i];
    assert Likes(group)[j] == 0.0;
    assert 0.0 in multiset(Sort(Likes(group)));
    RollupLookup(rs, k);
    SummaryOrdered(group);
  }
}
