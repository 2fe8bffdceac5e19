/**
 The buckets of a report. Totals per stored rollup start are added to the
 bucket that holds the start; each bucket then holds the usage of exactly its
 instants, and the buckets, like the groups of any breakdown, add up to the
 summary.
 */
module UsageBuckets {
  import opened Common
  import opened UsageWindow
  import opened UsageTable
  import opened UsageBatch
  import opened UsageReports

  const NOTHING := Totals(0, 0, 0, 0, 0, 0, 0, 0, 0, 0)

  function Add(a: Totals, b: Totals): Totals {
    Totals(
      a.requests + b.requests, a.errors + b.errors, a.inputTokens + b.inputTokens, a.outputTokens + b.outputTokens,
      a.cacheReadTokens + b.cacheReadTokens, a.cacheWriteTokens + b.cacheWriteTokens, a.costNanos + b.costNanos,
      a.subscriptionCostNanos + b.subscriptionCostNanos, a.subscriptionRequests + b.subscriptionRequests,
      a.unpricedRequests + b.unpricedRequests)
  }

  /** `Totals::add`. */
  function SaturatingTotals(a: Totals, b: Totals): Totals {
    Totals(
      SaturatingAdd(a.requests, b.requests), SaturatingAdd(a.errors, b.errors),
      SaturatingAdd(a.inputTokens, b.inputTokens), SaturatingAdd(a.outputTokens, b.outputTokens),
      SaturatingAdd(a.cacheReadTokens, b.cacheReadTokens), SaturatingAdd(a.cacheWriteTokens, b.cacheWriteTokens),
      SaturatingAdd(a.costNanos, b.costNanos), SaturatingAdd(a.subscriptionCostNanos, b.subscriptionCostNanos),
      SaturatingAdd(a.subscriptionRequests, b.subscriptionRequests),
      SaturatingAdd(a.unpricedRequests, b.unpricedRequests))
  }

  // Groups partition the summary

  lemma SumUnionStep(t: Table, a: set<RowKey>, b: set<RowKey>, k: RowKey)
    requires a <= t.Keys && b <= t.Keys && a !! b && k in a
    requires Sum(t, (a - {k}) + b) == Plus(Sum(t, a - {k}), Sum(t, b))
    ensures Sum(t, a + b) == Plus(Sum(t, a), Sum(t, b))
  {
    assert a + b - {k} == (a - {k}) + b;
    SumRemove(t, a, k);
    SumRemove(t, a + b, k);
    PlusAssociates(t[k], Sum(t, a - {k}), Sum(t, b));
  }

  lemma PlusZero(m: Measures)
    ensures Plus(ZERO, m) == m
  {
  }

  lemma {:induction false} SumUnion(t: Table, a: set<RowKey>, b: set<RowKey>)
    requires a <= t.Keys && b <= t.Keys && a !! b
    ensures Sum(t, a + b) == Plus(Sum(t, a), Sum(t, b))
    decreases a
  {
    if a == {} {
      assert a + b == b;
      PlusZero(Sum(t, b));
    } else {
      var k :| k in a;
      SumUnion(t, a - {k}, b);
      SumUnionStep(t, a, b, k);
    }
  }

  /** The rows of the query whose group is in `groups`. */
  ghost function RowsIn(q: Query, g: Grouping, t: Table, groups: set<Group>, billing: Billing): set<RowKey> {
    set k | k in Rows(q, t, billing) && GroupOf(g, k.key) in groups
  }

  ghost function TotalsIn(q: Query, g: Grouping, t: Table, groups: set<Group>): Totals {
    Split(Sum(t, RowsIn(q, g, t, groups, Api)), Sum(t, RowsIn(q, g, t, groups, Subscription)))
  }

  lemma FilterOneMore(q: Query, d: Dimension, name: string, key: RollupKey)
    ensures Matches(q.(filter := q.filter + [(d, name)]), key) <==> Matches(q, key) && Column(d, key) == name
  {
    var more := q.(filter := q.filter + [(d, name)]);
    if Matches(more, key) {
      assert Column(more.filter[|q.filter|].0, key) == more.filter[|q.filter|].1;
      forall i | 0 <= i < |q.filter|
        ensures Column(q.filter[i].0, key) == q.filter[i].1
      {
        assert more.filter[i] == q.filter[i];
      }
    }
  }

  /** The query of one group selects the group's rows. */
  lemma WithinSelects(q: Query, g: Grouping, t: Table, group: Group, billing: Billing)
    requires group in Groups(q, g, t)
    ensures Rows(Within(q, g, group), t, billing) == RowsIn(q, g, t, {group}, billing)
  {
    var member :| member in t && Matches(q, member.key) && GroupOf(g, member.key) == group;
    forall k | k in t
      ensures Matches(Within(q, g, group), k.key) <==> Matches(q, k.key) && GroupOf(g, k.key) == group
    {
      match g
      case ByColumn(d) => FilterOneMore(q, d, group.name, k.key);
      case ByStart =>
    }
  }

  lemma SumInAdd(q: Query, g: Grouping, t: Table, groups: set<Group>, group: Group, b: Billing)
    requires group in Groups(q, g, t) && group !in groups
    ensures Sum(t, RowsIn(q, g, t, groups + {group}, b)) ==
            Plus(Sum(t, RowsIn(q, g, t, groups, b)), RowSum(Within(q, g, group), t, b))
  {
    WithinSelects(q, g, t, group, b);
    var left, right := RowsIn(q, g, t, groups, b), RowsIn(q, g, t, {group}, b);
    assert RowsIn(q, g, t, groups + {group}, b) == left + right;
    SumUnion(t, left, right);
  }

  lemma SplitAdds(a: Measures, b: Measures, c: Measures, d: Measures)
    ensures Split(Plus(a, b), Plus(c, d)) == Add(Split(a, c), Split(b, d))
  {
  }

  /** One more group adds its totals. */
  lemma TotalsInAdd(q: Query, g: Grouping, t: Table, groups: set<Group>, group: Group)
    requires group in Groups(q, g, t) && group !in groups
    ensures TotalsIn(q, g, t, groups + {group}) == Add(TotalsIn(q, g, t, groups), TotalsOf(Within(q, g, group), t))
  {
    SumInAdd(q, g, t, groups, group, Api);
    SumInAdd(q, g, t, groups, group, Subscription);
    SplitAdds(
      Sum(t, RowsIn(q, g, t, groups, Api)), RowSum(Within(q, g, group), t, Api),
      Sum(t, RowsIn(q, g, t, groups, Subscription)), RowSum(Within(q, g, group), t, Subscription));
  }

  /** The totals of the groups of `order`, added up. */
  ghost function SumGroups(q: Query, g: Grouping, t: Table, order: seq<Group>): Totals {
    if order == [] then NOTHING
    else
      var n := |order| - 1;
      Add(SumGroups(q, g, t, order[..n]), TotalsOf(Within(q, g, order[n]), t))
  }

  ghost predicate Distinct(order: seq<Group>) {
    forall i, j :: 0 <= i < j < |order| ==> order[i] != order[j]
  }

  ghost function Elements(order: seq<Group>): set<Group> {
    set i | 0 <= i < |order| :: order[i]
  }

  lemma ElementsLast(order: seq<Group>)
    requires order != [] && Distinct(order)
    ensures Elements(order) == Elements(order[..|order| - 1]) + {order[|order| - 1]}
    ensures order[|order| - 1] !in Elements(order[..|order| - 1])
    ensures Distinct(order[..|order| - 1])
  {
    var n := |order| - 1;
    forall group | group in Elements(order)
      ensures group in Elements(order[..n]) + {order[n]}
    {
      var i :| 0 <= i < |order| && order[i] == group;
      assert i < n ==> order[..n][i] == group;
    }
    forall group | group in Elements(order[..n])
      ensures group in Elements(order)
    {
      var i :| 0 <= i < n && order[..n][i] == group;
      assert order[i] == group;
    }
  }

  lemma TotalsInNone(q: Query, g: Grouping, t: Table)
    ensures TotalsIn(q, g, t, {}) == NOTHING
  {
    assert RowsIn(q, g, t, {}, Api) == {} && RowsIn(q, g, t, {}, Subscription) == {};
  }

  lemma {:induction false} SumGroupsIn(q: Query, g: Grouping, t: Table, order: seq<Group>)
    requires Distinct(order) && Elements(order) <= Groups(q, g, t)
    ensures SumGroups(q, g, t, order) == TotalsIn(q, g, t, Elements(order))
  {
    if order == [] {
      assert Elements(order) == {};
      TotalsInNone(q, g, t);
    } else {
      var n := |order| - 1;
      ElementsLast(order);
      SumGroupsIn(q, g, t, order[..n]);
      TotalsInAdd(q, g, t, Elements(order[..n]), order[n]);
    }
  }

  /** Whatever order the groups of a breakdown or a series come in, they add up to the summary. */
  lemma GroupsAddUp(q: Query, g: Grouping, t: Table, order: seq<Group>)
    requires Distinct(order) && Elements(order) == Groups(q, g, t)
    ensures SumGroups(q, g, t, order) == TotalsOf(q, t)
  {
    SumGroupsIn(q, g, t, order);
    forall b
      ensures RowsIn(q, g, t, Elements(order), b) == Rows(q, t, b)
    {
      forall k | k in Rows(q, t, b)
        ensures GroupOf(g, k.key) in Groups(q, g, t)
      {
      }
    }
  }

  // Filling buckets

  /** The exact sum of the rows that bucket `index` receives. */
  function BucketSum(w: Window, rows: seq<(int, Totals)>, index: nat): Totals
    requires w.bucketSeconds > 0
  {
    if rows == [] then NOTHING
    else
      var n := |rows| - 1;
      var before := BucketSum(w, rows[..n], index);
      if BucketIndex(w, rows[n].0) == Some(index) then Add(before, rows[n].1) else before
  }

  /** The same sum as `Totals::add` makes it. */
  function BucketFold(w: Window, rows: seq<(int, Totals)>, index: nat): Totals
    requires w.bucketSeconds > 0
  {
    if rows == [] then NOTHING
    else
      var n := |rows| - 1;
      var before := BucketFold(w, rows[..n], index);
      if BucketIndex(w, rows[n].0) == Some(index) then SaturatingTotals(before, rows[n].1) else before
  }

  lemma BucketFoldStep(w: Window, rows: seq<(int, Totals)>, n: nat, i: nat)
    requires w.bucketSeconds > 0 && n < |rows|
    ensures BucketFold(w, rows[..n + 1], i) ==
            if BucketIndex(w, rows[n].0) == Some(i) then SaturatingTotals(BucketFold(w, rows[..n], i), rows[n].1)
            else BucketFold(w, rows[..n], i)
  {
    assert rows[..n + 1][..n] == rows[..n];
  }

  /** Every bucket of the window, including empty ones, from totals per stored rollup start. */
  method FillBuckets(w: Window, rows: seq<(int, Totals)>) returns (buckets: seq<Totals>)
    requires w.bucketSeconds > 0
    ensures |buckets| == BucketCount(w)
    ensures forall i: nat :: i < |buckets| ==> buckets[i] == BucketFold(w, rows, i)
  {
    buckets := seq(BucketCount(w), _ => NOTHING);
    for n := 0 to |rows|
      invariant |buckets| == BucketCount(w)
      invariant forall i: nat :: i < |buckets| ==> buckets[i] == BucketFold(w, rows[..n], i)
    {
      forall i: nat | i < |buckets|
        ensures BucketFold(w, rows[..n + 1], i) ==
                if BucketIndex(w, rows[n].0) == Some(i) then SaturatingTotals(buckets[i], rows[n].1)
                else buckets[i]
      {
        BucketFoldStep(w, rows, n, i);
      }
      var index := BucketIndex(w, rows[n].0);
      if index.Some? && index.value < |buckets| {
        buckets := buckets[index.value := SaturatingTotals(buckets[index.value], rows[n].1)];
      }
    }
    assert rows[..|rows|] == rows;
  }

  function AllRows(rows: seq<(int, Totals)>): Totals {
    if rows == [] then NOTHING
    else Add(AllRows(rows[..|rows| - 1]), rows[|rows| - 1].1)
  }

  predicate NotNegative(t: Totals) {
    && 0 <= t.requests && 0 <= t.errors && 0 <= t.inputTokens && 0 <= t.outputTokens
    && 0 <= t.cacheReadTokens && 0 <= t.cacheWriteTokens && 0 <= t.costNanos
    && 0 <= t.subscriptionCostNanos && 0 <= t.subscriptionRequests && 0 <= t.unpricedRequests
  }

  predicate NoMore(a: Totals, b: Totals) {
    && a.requests <= b.requests && a.errors <= b.errors && a.inputTokens <= b.inputTokens
    && a.outputTokens <= b.outputTokens && a.cacheReadTokens <= b.cacheReadTokens
    && a.cacheWriteTokens <= b.cacheWriteTokens && a.costNanos <= b.costNanos
    && a.subscriptionCostNanos <= b.subscriptionCostNanos && a.subscriptionRequests <= b.subscriptionRequests
    && a.unpricedRequests <= b.unpricedRequests
  }

  const MAX_TOTALS := Totals(I64_MAX, I64_MAX, I64_MAX, I64_MAX, I64_MAX, I64_MAX, I64_MAX, I64_MAX, I64_MAX, I64_MAX)

  lemma SaturatingTotalsExact(a: Totals, b: Totals)
    requires NotNegative(a) && NotNegative(b) && NoMore(Add(a, b), MAX_TOTALS)
    ensures SaturatingTotals(a, b) == Add(a, b)
  {
  }

  lemma BoundStep(before: Totals, all: Totals, row: Totals)
    requires NotNegative(before) && NoMore(before, all) && NotNegative(row)
    ensures NotNegative(Add(before, row)) && NoMore(Add(before, row), Add(all, row))
    ensures NoMore(before, Add(all, row)) && NoMore(all, Add(all, row))
  {
  }

  /** Buckets are exact when what the window adds up to fits. */
  lemma {:induction false} BucketFoldExact(w: Window, rows: seq<(int, Totals)>, i: nat)
    requires w.bucketSeconds > 0
    requires forall j :: 0 <= j < |rows| ==> NotNegative(rows[j].1)
    requires NoMore(AllRows(rows), MAX_TOTALS)
    ensures BucketFold(w, rows, i) == BucketSum(w, rows, i)
    ensures NotNegative(BucketSum(w, rows, i)) && NoMore(BucketSum(w, rows, i), AllRows(rows))
  {
    if rows != [] {
      var n := |rows| - 1;
      var all, row := AllRows(rows[..n]), rows[n].1;
      assert NotNegative(row);
      assert NoMore(all, MAX_TOTALS);
      BucketFoldExact(w, rows[..n], i);
      var before := BucketSum(w, rows[..n], i);
      BoundStep(before, all, row);
      if BucketIndex(w, rows[n].0) == Some(i) {
        SaturatingTotalsExact(before, row);
      }
    }
  }

  // A bucket holds the usage of exactly its instants

  /** The rows of a series, oldest first: one per stored rollup start. */
  ghost function SeriesRows(q: Query, t: Table, starts: seq<int>): (rows: seq<(int, Totals)>)
    ensures |rows| == |starts|
  {
    if starts == [] then []
    else
      var n := |starts| - 1;
      SeriesRows(q, t, starts[..n]) + [SeriesRow(q, t, starts[n])]
  }

  lemma {:induction false} SeriesRowsAt(q: Query, t: Table, starts: seq<int>, i: nat)
    requires i < |starts|
    ensures SeriesRows(q, t, starts)[i] == SeriesRow(q, t, starts[i])
  {
    if i < |starts| - 1 {
      SeriesRowsAt(q, t, starts[..|starts| - 1], i);
    }
  }

  ghost function SeriesRow(q: Query, t: Table, start: int): (int, Totals) {
    (start, TotalsOf(Within(q, ByStart, StartingAt(start)), t))
  }

  /** The part of the query that falls in bucket `index`. */
  function BucketQuery(w: Window, filter: seq<(Dimension, string)>, index: nat): Query {
    Query(BucketStart(w, index), BucketStart(w, index + 1), filter)
  }

  ghost function StartsIn(w: Window, starts: seq<int>, index: nat): seq<Group>
    requires w.bucketSeconds > 0
  {
    if starts == [] then []
    else
      var n := |starts| - 1;
      var before := StartsIn(w, starts[..n], index);
      if BucketIndex(w, starts[n]) == Some(index) then before + [StartingAt(starts[n])] else before
  }

  lemma DistinctSnoc(order: seq<Group>, g: Group)
    requires Distinct(order) && g !in Elements(order)
    ensures Distinct(order + [g])
  {
    forall i | 0 <= i < |order|
      ensures order[i] != g
    {
      assert order[i] in Elements(order);
    }
  }

  lemma {:induction false} StartsInHas(w: Window, starts: seq<int>, index: nat, g: Group)
    requires w.bucketSeconds > 0
    ensures g in Elements(StartsIn(w, starts, index)) <==>
              g.StartingAt? && g.start in starts && BucketIndex(w, g.start) == Some(index)
  {
    if starts != [] {
      var n := |starts| - 1;
      StartsInHas(w, starts[..n], index, g);
      assert starts == starts[..n] + [starts[n]];
      ElementsSnoc(StartsIn(w, starts[..n], index), StartingAt(starts[n]));
    }
  }

  lemma {:induction false} StartsInDistinct(w: Window, starts: seq<int>, index: nat)
    requires w.bucketSeconds > 0
    requires forall i, j :: 0 <= i < j < |starts| ==> starts[i] != starts[j]
    ensures Distinct(StartsIn(w, starts, index))
  {
    if starts != [] {
      var n := |starts| - 1;
      var last := StartingAt(starts[n]);
      StartsInDistinct(w, starts[..n], index);
      StartsInHas(w, starts[..n], index, last);
      if BucketIndex(w, starts[n]) == Some(index) {
        DistinctSnoc(StartsIn(w, starts[..n], index), last);
      }
    }
  }

  lemma StartsInElements(w: Window, starts: seq<int>, index: nat)
    requires w.bucketSeconds > 0
    requires forall i, j :: 0 <= i < j < |starts| ==> starts[i] != starts[j]
    ensures Distinct(StartsIn(w, starts, index))
    ensures forall g :: g in Elements(StartsIn(w, starts, index)) <==>
              g.StartingAt? && g.start in starts && BucketIndex(w, g.start) == Some(index)
  {
    StartsInDistinct(w, starts, index);
    forall g
      ensures g in Elements(StartsIn(w, starts, index)) <==>
                g.StartingAt? && g.start in starts && BucketIndex(w, g.start) == Some(index)
    {
      StartsInHas(w, starts, index, g);
    }
  }

  lemma ElementsSnoc(order: seq<Group>, g: Group)
    ensures Elements(order + [g]) == Elements(order) + {g}
  {
    var more := order + [g];
    forall x | x in Elements(order)
      ensures x in Elements(more)
    {
      var i :| 0 <= i < |order| && order[i] == x;
      assert more[i] == x;
    }
    assert more[|order|] == g;
  }

  lemma BucketSumSnoc(w: Window, rows: seq<(int, Totals)>, row: (int, Totals), index: nat)
    requires w.bucketSeconds > 0
    ensures
      BucketSum(w, rows + [row], index) ==
      if BucketIndex(w, row.0) == Some(index) then Add(BucketSum(w, rows, index), row.1) else BucketSum(w, rows, index)
  {
    assert (rows + [row])[..|rows|] == rows;
  }

  lemma SumGroupsSnoc(q: Query, g: Grouping, t: Table, order: seq<Group>, group: Group)
    ensures SumGroups(q, g, t, order + [group]) == Add(SumGroups(q, g, t, order), TotalsOf(Within(q, g, group), t))
  {
    assert (order + [group])[..|order|] == order;
  }

  /** The exact bucket sum of a series adds up the groups that start in the bucket. */
  lemma {:induction false} BucketSumGroups(w: Window, q: Query, inner: Query, t: Table, starts: seq<int>, index: nat)
    requires w.bucketSeconds > 0 && inner.filter == q.filter
    ensures BucketSum(w, SeriesRows(q, t, starts), index) == SumGroups(inner, ByStart, t, StartsIn(w, starts, index))
  {
    if starts != [] {
      var n := |starts| - 1;
      var group := StartingAt(starts[n]);
      BucketSumGroups(w, q, inner, t, starts[..n], index);
      assert Within(q, ByStart, group) == Within(inner, ByStart, group);
      BucketSumSnoc(w, SeriesRows(q, t, starts[..n]), SeriesRow(q, t, starts[n]), index);
      SumGroupsSnoc(inner, ByStart, t, StartsIn(w, starts[..n], index), group);
    }
  }

  /** Every stored rollup start of the window, once. */
  ghost predicate SeriesOf(q: Query, t: Table, starts: seq<int>) {
    && (forall i, j :: 0 <= i < j < |starts| ==> starts[i] != starts[j])
    && (forall s :: s in starts <==> StartingAt(s) in Groups(q, ByStart, t))
  }

  lemma StartGroups(q: Query, t: Table, s: int)
    ensures StartingAt(s) in Groups(q, ByStart, t) <==> exists k :: k in t && Matches(q, k.key) && k.key.bucketStart == s
  {
    if exists k :: k in t && Matches(q, k.key) && k.key.bucketStart == s {
      var k :| k in t && Matches(q, k.key) && k.key.bucketStart == s;
      assert GroupOf(ByStart, k.key) == StartingAt(s);
    }
  }

  /** The stored starts of one bucket are the starts of the window that the bucket's index names. */
  lemma BucketGroups(
    range: string, now: int, utcOffsetMinutes: int, filter: seq<(Dimension, string)>, t: Table, s: int, index: nat)
    requires Preset(range, now, utcOffsetMinutes).Some?
    requires index < BucketCount(Preset(range, now, utcOffsetMinutes).value)
    ensures
      var w := Preset(range, now, utcOffsetMinutes).value;
      StartingAt(s) in Groups(BucketQuery(w, filter, index), ByStart, t) <==>
      StartingAt(s) in Groups(Query(w.start, w.end, filter), ByStart, t) && BucketIndex(w, s) == Some(index)
  {
    var w := Preset(range, now, utcOffsetMinutes).value;
    var q, inner := Query(w.start, w.end, filter), BucketQuery(w, filter, index);
    BucketsPartitionWindow(range, now, utcOffsetMinutes, s);
    StartGroups(q, t, s);
    StartGroups(inner, t, s);
    assert InBucket(w, index, s) <==> BucketIndex(w, s) == Some(index);
    forall k | k in t && k.key.bucketStart == s
      ensures Matches(inner, k.key) <==> Matches(q, k.key) && InBucket(w, index, s)
    {
    }
  }

  /** Each bucket's sum is the total of the usage stored for exactly its instants. */
  lemma BucketHoldsItsInstants(
    range: string, now: int, utcOffsetMinutes: int, filter: seq<(Dimension, string)>, t: Table, starts: seq<int>,
    index: nat)
    requires Preset(range, now, utcOffsetMinutes).Some?
    requires
      var w := Preset(range, now, utcOffsetMinutes).value;
      index < BucketCount(w) && SeriesOf(Query(w.start, w.end, filter), t, starts)
    ensures
      var w := Preset(range, now, utcOffsetMinutes).value;
      BucketSum(w, SeriesRows(Query(w.start, w.end, filter), t, starts), index) ==
      TotalsOf(BucketQuery(w, filter, index), t)
  {
    var w := Preset(range, now, utcOffsetMinutes).value;
    var q, inner := Query(w.start, w.end, filter), BucketQuery(w, filter, index);
    var order := StartsIn(w, starts, index);
    StartsInElements(w, starts, index);
    BucketSumGroups(w, q, inner, t, starts, index);
    forall g: Group
      ensures g in Elements(order) <==> g in Groups(inner, ByStart, t)
    {
      if g.StartingAt? {
        BucketGroups(range, now, utcOffsetMinutes, filter, t, g.start, index);
      }
    }
    assert Elements(order) == Groups(inner, ByStart, t);
    GroupsAddUp(inner, ByStart, t, order);
  }

  // Buckets add up to the summary

  ghost function StartGroupsOf(starts: seq<int>): seq<Group> {
    seq(|starts|, i requires 0 <= i < |starts| => StartingAt(starts[i]))
  }

  lemma StartGroupsLast(starts: seq<int>)
    requires starts != []
    ensures StartGroupsOf(starts) == StartGroupsOf(starts[..|starts| - 1]) + [StartingAt(starts[|starts| - 1])]
  {
  }

  lemma AllRowsSnoc(rows: seq<(int, Totals)>, row: (int, Totals))
    ensures AllRows(rows + [row]) == Add(AllRows(rows), row.1)
  {
    assert (rows + [row])[..|rows|] == rows;
  }

  lemma {:induction false} AllRowsGroups(q: Query, t: Table, starts: seq<int>)
    ensures AllRows(SeriesRows(q, t, starts)) == SumGroups(q, ByStart, t, StartGroupsOf(starts))
  {
    if starts != [] {
      var n := |starts| - 1;
      AllRowsGroups(q, t, starts[..n]);
      AllRowsSnoc(SeriesRows(q, t, starts[..n]), SeriesRow(q, t, starts[n]));
      StartGroupsLast(starts);
      SumGroupsSnoc(q, ByStart, t, StartGroupsOf(starts[..n]), StartingAt(starts[n]));
    }
  }

  lemma StartGroupsElements(q: Query, t: Table, starts: seq<int>)
    requires SeriesOf(q, t, starts)
    ensures Distinct(StartGroupsOf(starts)) && Elements(StartGroupsOf(starts)) == Groups(q, ByStart, t)
  {
    var order := StartGroupsOf(starts);
    forall g | g in Groups(q, ByStart, t)
      ensures g in Elements(order)
    {
      assert g.start in starts;
      var i :| 0 <= i < |starts| && starts[i] == g.start;
      assert order[i] == g;
    }
    forall g | g in Elements(order)
      ensures g in Groups(q, ByStart, t)
    {
      var i :| 0 <= i < |order| && order[i] == g;
      assert starts[i] in starts;
    }
  }

  /** The series adds up to the summary. */
  lemma SeriesAddsUp(q: Query, t: Table, starts: seq<int>)
    requires SeriesOf(q, t, starts)
    ensures AllRows(SeriesRows(q, t, starts)) == TotalsOf(q, t)
  {
    AllRowsGroups(q, t, starts);
    StartGroupsElements(q, t, starts);
    GroupsAddUp(q, ByStart, t, StartGroupsOf(starts));
  }

  /** The exact sums of the first `n` buckets, added up. */
  function AllBuckets(w: Window, rows: seq<(int, Totals)>, n: nat): Totals
    requires w.bucketSeconds > 0
  {
    if n == 0 then NOTHING else Add(AllBuckets(w, rows, n - 1), BucketSum(w, rows, n - 1))
  }

  /** The same for the buckets as `Totals::add` fills them. */
  function AllFilled(w: Window, rows: seq<(int, Totals)>, n: nat): Totals
    requires w.bucketSeconds > 0
  {
    if n == 0 then NOTHING else Add(AllFilled(w, rows, n - 1), BucketFold(w, rows, n - 1))
  }

  lemma {:induction false} NoRowsNoBuckets(w: Window, n: nat)
    requires w.bucketSeconds > 0
    ensures AllBuckets(w, [], n) == NOTHING
  {
    if n > 0 {
      NoRowsNoBuckets(w, n - 1);
    }
  }

  lemma AddSwaps(a: Totals, b: Totals, row: Totals)
    ensures Add(Add(a, row), b) == Add(Add(a, b), row) == Add(a, Add(b, row))
  {
  }

  /** One more row counts once, in the bucket its start has, if that is among the first `n`. */
  lemma {:induction false} AllBucketsSnoc(w: Window, rows: seq<(int, Totals)>, row: (int, Totals), n: nat)
    requires w.bucketSeconds > 0
    ensures
      var index := BucketIndex(w, row.0);
      AllBuckets(w, rows + [row], n) ==
      if index.Some? && index.value < n then Add(AllBuckets(w, rows, n), row.1) else AllBuckets(w, rows, n)
  {
    if n > 0 {
      AllBucketsSnoc(w, rows, row, n - 1);
      BucketSumSnoc(w, rows, row, n - 1);
      AddSwaps(AllBuckets(w, rows, n - 1), BucketSum(w, rows, n - 1), row.1);
    }
  }

  /** Every row starts in one of the first `n` buckets. */
  ghost predicate InBuckets(w: Window, rows: seq<(int, Totals)>, n: nat)
    requires w.bucketSeconds > 0
  {
    forall i :: 0 <= i < |rows| ==> BucketIndex(w, rows[i].0).Some? && BucketIndex(w, rows[i].0).value < n
  }

  /** No row is lost between the buckets, and none is counted in two. */
  lemma {:induction false} AllBucketsAllRows(w: Window, rows: seq<(int, Totals)>, n: nat)
    requires w.bucketSeconds > 0 && InBuckets(w, rows, n)
    ensures AllBuckets(w, rows, n) == AllRows(rows)
  {
    if rows == [] {
      NoRowsNoBuckets(w, n);
    } else {
      var before, row := rows[..|rows| - 1], rows[|rows| - 1];
      AllBucketsAllRows(w, before, n);
      assert rows == before + [row];
      AllBucketsSnoc(w, before, row, n);
      AllRowsSnoc(before, row);
    }
  }

  lemma SeriesInBuckets(
    range: string, now: int, utcOffsetMinutes: int, filter: seq<(Dimension, string)>, t: Table, starts: seq<int>,
    i: nat)
    requires Preset(range, now, utcOffsetMinutes).Some? && i < |starts|
    requires
      var w := Preset(range, now, utcOffsetMinutes).value;
      SeriesOf(Query(w.start, w.end, filter), t, starts)
    ensures
      var w := Preset(range, now, utcOffsetMinutes).value;
      BucketIndex(w, starts[i]).Some? && BucketIndex(w, starts[i]).value < BucketCount(w)
  {
    var w := Preset(range, now, utcOffsetMinutes).value;
    assert starts[i] in starts;
    StartGroups(Query(w.start, w.end, filter), t, starts[i]);
    BucketsPartitionWindow(range, now, utcOffsetMinutes, starts[i]);
  }

  /** The buckets of every preset window add up to its summary, for every filter. */
  lemma BucketsAddUp(
    range: string, now: int, utcOffsetMinutes: int, filter: seq<(Dimension, string)>, t: Table, starts: seq<int>)
    requires Preset(range, now, utcOffsetMinutes).Some?
    requires
      var w := Preset(range, now, utcOffsetMinutes).value;
      SeriesOf(Query(w.start, w.end, filter), t, starts)
    ensures
      var w := Preset(range, now, utcOffsetMinutes).value;
      var q := Query(w.start, w.end, filter);
      AllBuckets(w, SeriesRows(q, t, starts), BucketCount(w)) == TotalsOf(q, t)
  {
    var w := Preset(range, now, utcOffsetMinutes).value;
    var q := Query(w.start, w.end, filter);
    var rows := SeriesRows(q, t, starts);
    forall i | 0 <= i < |rows|
      ensures BucketIndex(w, rows[i].0).Some? && BucketIndex(w, rows[i].0).value < BucketCount(w)
    {
      SeriesRowsAt(q, t, starts, i);
      SeriesInBuckets(range, now, utcOffsetMinutes, filter, t, starts, i);
    }
    AllBucketsAllRows(w, rows, BucketCount(w));
    SeriesAddsUp(q, t, starts);
  }

  ghost predicate NonNegativeTable(t: Table) {
    forall k :: k in t ==> NonNegative(t[k])
  }

  lemma {:induction false} SumNonNegative(t: Table, keys: set<RowKey>)
    requires NonNegativeTable(t) && keys <= t.Keys
    ensures NonNegative(Sum(t, keys))
    decreases keys
  {
    if keys != {} {
      var k :| k in keys;
      SumRemove(t, keys, k);
      SumNonNegative(t, keys - {k});
    }
  }

  lemma TotalsNotNegative(q: Query, t: Table)
    requires NonNegativeTable(t)
    ensures NotNegative(TotalsOf(q, t))
  {
    SumNonNegative(t, Rows(q, t, Api));
    SumNonNegative(t, Rows(q, t, Subscription));
  }

  lemma SeriesRowNotNegative(q: Query, t: Table, starts: seq<int>, j: nat)
    requires NonNegativeTable(t) && j < |starts|
    ensures NotNegative(SeriesRows(q, t, starts)[j].1)
  {
    SeriesRowsAt(q, t, starts, j);
    TotalsNotNegative(Within(q, ByStart, StartingAt(starts[j])), t);
  }

  lemma SeriesExact(w: Window, q: Query, t: Table, starts: seq<int>, index: nat)
    requires w.bucketSeconds > 0 && NonNegativeTable(t) && SeriesOf(q, t, starts)
    requires NoMore(TotalsOf(q, t), MAX_TOTALS)
    ensures BucketFold(w, SeriesRows(q, t, starts), index) == BucketSum(w, SeriesRows(q, t, starts), index)
  {
    var rows := SeriesRows(q, t, starts);
    forall j | 0 <= j < |rows|
      ensures NotNegative(rows[j].1)
    {
      SeriesRowNotNegative(q, t, starts, j);
    }
    SeriesAddsUp(q, t, starts);
    BucketFoldExact(w, rows, index);
  }

  lemma {:induction false} AllFilledExact(w: Window, rows: seq<(int, Totals)>, n: nat)
    requires w.bucketSeconds > 0
    requires forall i: nat :: i < n ==> BucketFold(w, rows, i) == BucketSum(w, rows, i)
    ensures AllFilled(w, rows, n) == AllBuckets(w, rows, n)
  {
    if n > 0 {
      AllFilledExact(w, rows, n - 1);
    }
  }

  /** When the summary fits in 64 bits, the buckets of the report add up to it. */
  lemma FilledBucketsAddUp(
    range: string, now: int, utcOffsetMinutes: int, filter: seq<(Dimension, string)>, t: Table, starts: seq<int>)
    requires Preset(range, now, utcOffsetMinutes).Some? && NonNegativeTable(t)
    requires
      var w := Preset(range, now, utcOffsetMinutes).value;
      && SeriesOf(Query(w.start, w.end, filter), t, starts)
      && NoMore(TotalsOf(Query(w.start, w.end, filter), t), MAX_TOTALS)
    ensures
      var w := Preset(range, now, utcOffsetMinutes).value;
      var q := Query(w.start, w.end, filter);
      AllFilled(w, SeriesRows(q, t, starts), BucketCount(w)) == TotalsOf(q, t)
  {
    var w := Preset(range, now, utcOffsetMinutes).value;
    var q := Query(w.start, w.end, filter);
    forall i: nat | i < BucketCount(w)
      ensures BucketFold(w, SeriesRows(q, t, starts), i) == BucketSum(w, SeriesRows(q, t, starts), i)
    {
      SeriesExact(w, q, t, starts, i);
    }
    AllFilledExact(w, SeriesRows(q, t, starts), BucketCount(w));
    BucketsAddUp(range, now, utcOffsetMinutes, filter, t, starts);
  }

  /**
   The report's buckets: when the summary fits in 64 bits, bucket `index` of a
   preset window, filled from the series, is the usage stored for exactly the
   bucket's instants.
   */
  lemma BucketsReportTheirInstants(
    range: string, now: int, utcOffsetMinutes: int, filter: seq<(Dimension, string)>, t: Table, starts: seq<int>,
    index: nat)
    requires Preset(range, now, utcOffsetMinutes).Some? && NonNegativeTable(t)
    requires
      var w := Preset(range, now, utcOffsetMinutes).value;
      && index < BucketCount(w) && SeriesOf(Query(w.start, w.end, filter), t, starts)
      && NoMore(TotalsOf(Query(w.start, w.end, filter), t), MAX_TOTALS)
    ensures
      var w := Preset(range, now, utcOffsetMinutes).value;
      BucketFold(w, SeriesRows(Query(w.start, w.end, filter), t, starts), index) ==
      TotalsOf(BucketQuery(w, filter, index), t)
  {
    var w := Preset(range, now, utcOffsetMinutes).value;
    var q := Query(w.start, w.end, filter);
    SeriesExact(w, q, t, starts, index);
    BucketHoldsItsInstants(range, now, utcOffsetMinutes, filter, t, starts, index);
  }
}
