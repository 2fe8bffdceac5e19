/**
 Usage reports: totals, distinct users and devices, breakdowns and series
 over a period and a filter. Reports do not see maintenance, and over every
 run they answer as the plain list of received records would.
 */
module UsageReports {
  import opened Common
  import opened UsageWindow
  import opened UsageTable
  import opened UsageStore
  import opened UsageBatch
  import opened UsageRuns

  datatype Dimension = User | Device | Tool | Provider | Model

  function Column(d: Dimension, key: RollupKey): string {
    match d
    case User => key.subject
    case Device => key.deviceId
    case Tool => key.clientId
    case Provider => key.provider
    case Model => key.model
  }

  /** A period and the exact-match conditions on rollup columns. */
  datatype Query = Query(start: int, end: int, filter: seq<(Dimension, string)>)

  predicate Matches(q: Query, key: RollupKey) {
    && q.start <= key.bucketStart < q.end
    && forall i :: 0 <= i < |q.filter| ==> Column(q.filter[i].0, key) == q.filter[i].1
  }

  /** Summed usage, with spend split by billing. */
  datatype Totals = Totals(
    requests: int, errors: int, inputTokens: int, outputTokens: int, cacheReadTokens: int,
    cacheWriteTokens: int, costNanos: int, subscriptionCostNanos: int, subscriptionRequests: int,
    unpricedRequests: int)

  /** The totals of usage billed per token and usage billed to subscriptions. */
  function Split(api: Measures, subscription: Measures): Totals {
    var all := Plus(api, subscription);
    Totals(
      all.requests, all.errors, all.inputTokens, all.outputTokens, all.cacheReadTokens, all.cacheWriteTokens,
      api.costNanos, subscription.costNanos, subscription.requests, all.unpricedRequests)
  }

  // Queries on the table

  ghost function Rows(q: Query, t: Table, billing: Billing): set<RowKey> {
    set k | k in t && Matches(q, k.key) && k.key.billing == billing
  }

  ghost function RowSum(q: Query, t: Table, billing: Billing): Measures {
    Sum(t, Rows(q, t, billing))
  }

  ghost function TotalsOf(q: Query, t: Table): Totals {
    Split(RowSum(q, t, Api), RowSum(q, t, Subscription))
  }

  /** What rows are grouped by: a column, or the start of the stored rollup. */
  datatype Grouping = ByColumn(dimension: Dimension) | ByStart

  datatype Group = Named(name: string) | StartingAt(start: int)

  function GroupOf(g: Grouping, key: RollupKey): Group {
    match g
    case ByColumn(d) => Named(Column(d, key))
    case ByStart => StartingAt(key.bucketStart)
  }

  ghost function Groups(q: Query, g: Grouping, t: Table): set<Group> {
    set k | k in t && Matches(q, k.key) :: GroupOf(g, k.key)
  }

  /** The query restricted to one group. */
  function Within(q: Query, g: Grouping, group: Group): Query {
    match (g, group)
    case (ByColumn(d), Named(name)) => q.(filter := q.filter + [(d, name)])
    case (ByStart, StartingAt(start)) => q.(start := start, end := start + 1)
    case _ => q
  }

  ghost function NamedIn(groups: set<Group>): set<Group> {
    groups - {Named("")}
  }

  datatype Summary = Summary(totals: Totals, users: nat, devices: nat)

  ghost function SummaryOf(q: Query, t: Table): Summary {
    Summary(TotalsOf(q, t),
            |NamedIn(Groups(q, ByColumn(User), t))|,
            |NamedIn(Groups(q, ByColumn(Device), t))|)
  }

  /** `breakdown` and `series`: totals per group. */
  ghost function Grouped(q: Query, g: Grouping, t: Table): map<Group, Totals> {
    map group | group in Groups(q, g, t) :: TotalsOf(Within(q, g, group), t)
  }

  // The same reports read off a list of records

  function RecordSum(q: Query, records: seq<UsageRecord>, billing: Billing): Measures {
    if records == [] then ZERO
    else
      var n := |records| - 1;
      var before := RecordSum(q, records[..n], billing);
      if Matches(q, records[n].key) && records[n].key.billing == billing
      then Plus(before, records[n].measures) else before
  }

  function TotalsOfRecords(q: Query, records: seq<UsageRecord>): Totals {
    Split(RecordSum(q, records, Api), RecordSum(q, records, Subscription))
  }

  ghost function RecordGroups(q: Query, g: Grouping, records: seq<UsageRecord>): set<Group> {
    set i | 0 <= i < |records| && Matches(q, records[i].key) :: GroupOf(g, records[i].key)
  }

  ghost function SummaryOfRecords(q: Query, records: seq<UsageRecord>): Summary {
    Summary(TotalsOfRecords(q, records),
            |NamedIn(RecordGroups(q, ByColumn(User), records))|,
            |NamedIn(RecordGroups(q, ByColumn(Device), records))|)
  }

  ghost function GroupedRecords(q: Query, g: Grouping, records: seq<UsageRecord>): map<Group, Totals> {
    map group | group in RecordGroups(q, g, records) :: TotalsOfRecords(Within(q, g, group), records)
  }

  // Inserting rows and records

  lemma RowSumAddRow(q: Query, t: Table, k: RowKey, m: Measures, billing: Billing)
    ensures RowSum(q, AddRow(t, k, m), billing) ==
            if Matches(q, k.key) && k.key.billing == billing then Plus(RowSum(q, t, billing), m)
            else RowSum(q, t, billing)
  {
    var keys := Rows(q, AddRow(t, k, m), billing);
    SumAddRow(t, k, m, keys);
    assert keys * t.Keys == Rows(q, t, billing);
  }

  lemma {:induction false} RowSumAddRecords(q: Query, t: Table, records: seq<UsageRecord>, billing: Billing)
    ensures RowSum(q, AddRecords(t, records), billing) ==
            Plus(RowSum(q, t, billing), RecordSum(q, records, billing))
  {
    if records != [] {
      var n := |records| - 1;
      RowSumAddRecords(q, t, records[..n], billing);
      RowSumAddRow(q, AddRecords(t, records[..n]), Hourly(records[n].key), records[n].measures, billing);
    }
  }

  lemma {:induction false} RecordSumConcat(q: Query, a: seq<UsageRecord>, b: seq<UsageRecord>, billing: Billing)
    ensures RecordSum(q, a + b, billing) == Plus(RecordSum(q, a, billing), RecordSum(q, b, billing))
  {
    if b == [] {
      assert a + b == a;
    } else {
      assert (a + b)[..|a + b| - 1] == a + b[..|b| - 1];
      RecordSumConcat(q, a, b[..|b| - 1], billing);
    }
  }

  lemma GroupsAddRecords(q: Query, g: Grouping, t: Table, records: seq<UsageRecord>)
    ensures Groups(q, g, AddRecords(t, records)) == Groups(q, g, t) + RecordGroups(q, g, records)
  {
    var after := AddRecords(t, records);
    forall group | group in Groups(q, g, after)
      ensures group in Groups(q, g, t) + RecordGroups(q, g, records)
    {
      var k :| k in after && Matches(q, k.key) && GroupOf(g, k.key) == group;
      AddRecordsAt(t, records, k);
    }
    forall group | group in Groups(q, g, t)
      ensures group in Groups(q, g, after)
    {
      var k :| k in t && Matches(q, k.key) && GroupOf(g, k.key) == group;
      AddRecordsAt(t, records, k);
    }
    forall group | group in RecordGroups(q, g, records)
      ensures group in Groups(q, g, after)
    {
      var i :| 0 <= i < |records| && Matches(q, records[i].key) && GroupOf(g, records[i].key) == group;
      AddRecordsAt(t, records, Hourly(records[i].key));
    }
  }

  lemma RecordGroupsConcat(q: Query, g: Grouping, a: seq<UsageRecord>, b: seq<UsageRecord>)
    ensures RecordGroups(q, g, a + b) == RecordGroups(q, g, a) + RecordGroups(q, g, b)
  {
    forall group | group in RecordGroups(q, g, a + b)
      ensures group in RecordGroups(q, g, a) + RecordGroups(q, g, b)
    {
      var i :| 0 <= i < |a + b| && Matches(q, (a + b)[i].key) && GroupOf(g, (a + b)[i].key) == group;
      assert i < |a| ==> a[i] == (a + b)[i];
      assert i >= |a| ==> b[i - |a|] == (a + b)[i];
    }
    forall group | group in RecordGroups(q, g, a)
      ensures group in RecordGroups(q, g, a + b)
    {
      var i :| 0 <= i < |a| && Matches(q, a[i].key) && GroupOf(g, a[i].key) == group;
      assert (a + b)[i] == a[i];
    }
    forall group | group in RecordGroups(q, g, b)
      ensures group in RecordGroups(q, g, a + b)
    {
      var i :| 0 <= i < |b| && Matches(q, b[i].key) && GroupOf(g, b[i].key) == group;
      assert (a + b)[|a| + i] == b[i];
    }
  }

  // Maintenance is invisible

  /** The placement neither drops a matching row nor moves a row into or out of the query. */
  ghost predicate Keeps(p: Placement, q: Query, t: Table) {
    forall k :: k in t ==>
      match Place(p, k)
      case None => !Matches(q, k.key)
      case Some(k') => Matches(q, k'.key) == Matches(q, k.key)
  }

  lemma {:induction false} RegroupKeepsRowSum(p: Placement, q: Query, t: Table, billing: Billing)
    requires Keeps(p, q, t)
    ensures RowSum(q, Regroup(p, t), billing) == RowSum(q, t, billing)
    decreases |t|
  {
    RegroupEmpty(p);
    if t != map[] {
      var k :| k in t;
      LastRow(t, k);
      var rest := t - {k};
      RegroupKeepsRowSum(p, q, rest, billing);
      RegroupAddRow(p, rest, k, t[k]);
      RowSumAddRow(q, rest, k, t[k], billing);
      if Place(p, k).Some? {
        RowSumAddRow(q, Regroup(p, rest), Place(p, k).value, t[k], billing);
      }
    }
  }

  /** Matching rows keep their group. */
  ghost predicate KeepsGroups(p: Placement, q: Query, g: Grouping, t: Table) {
    forall k :: k in t && Matches(q, k.key) && Place(p, k).Some? ==>
      GroupOf(g, Place(p, k).value.key) == GroupOf(g, k.key)
  }

  lemma RegroupKeepsGroups(p: Placement, q: Query, g: Grouping, t: Table)
    requires Keeps(p, q, t) && KeepsGroups(p, q, g, t)
    ensures Groups(q, g, Regroup(p, t)) == Groups(q, g, t)
  {
    forall group | group in Groups(q, g, t)
      ensures group in Groups(q, g, Regroup(p, t))
    {
      var k :| k in t && Matches(q, k.key) && GroupOf(g, k.key) == group;
      assert Place(p, k).value in Regroup(p, t);
    }
    forall group | group in Groups(q, g, Regroup(p, t))
      ensures group in Groups(q, g, t)
    {
      var row :| row in Regroup(p, t) && Matches(q, row.key) && GroupOf(g, row.key) == group;
      var k :| k in t && Place(p, k) == Some(row);
      assert Matches(q, k.key);
    }
  }

  ghost predicate NonNegativeStarts(t: Table) {
    forall k :: k in t ==> k.key.bucketStart >= 0
  }

  /** A period that maintenance up to `now` cannot split keeps its rows under every earlier maintenance step. */
  lemma UnsplitKeeps(now: int, at: int, q: Query, t: Table)
    requires at <= now && Unsplit(now, q.start, q.end) && NonNegativeStarts(t)
    ensures Keeps(MovePlacement(at), q, t) && Keeps(ExpirePlacement(at), q, t)
    ensures forall d :: KeepsGroups(MovePlacement(at), q, ByColumn(d), t)
    ensures HourlyBefore(now) <= q.start ==> KeepsGroups(MovePlacement(at), q, ByStart, t)
    ensures forall g :: KeepsGroups(ExpirePlacement(at), q, g, t)
  {
    assert HourlyBefore(at) <= HourlyBefore(now);
    forall k | k in t
      ensures match Place(MovePlacement(at), k)
              case None => !Matches(q, k.key)
              case Some(k') => Matches(q, k'.key) == Matches(q, k.key)
      ensures HourlyBefore(now) <= q.start && Matches(q, k.key) ==> Place(MovePlacement(at), k) == Some(k)
    {
      MoveKeepsMatch(now, at, q, k);
    }
  }

  lemma MoveKeepsMatch(now: int, at: int, q: Query, k: RowKey)
    requires HourlyBefore(at) <= HourlyBefore(now) && Unsplit(now, q.start, q.end) && k.key.bucketStart >= 0
    ensures Place(MovePlacement(at), k).Some?
    ensures Matches(q, Place(MovePlacement(at), k).value.key) == Matches(q, k.key)
    ensures HourlyBefore(now) <= q.start && Matches(q, k.key) ==> Place(MovePlacement(at), k) == Some(k)
  {
    var row := Place(MovePlacement(at), k).value;
    assert forall d :: Column(d, row.key) == Column(d, k.key);
    var s := k.key.bucketStart;
    if row != k {
      assert row.key.bucketStart == s / DAY * DAY <= s < HourlyBefore(now) <= q.end;
      assert q.start <= s <==> q.start <= s / DAY * DAY;
    }
  }

  lemma PlaceNonNegative(at: int, k: RowKey)
    requires k.key.bucketStart >= 0
    ensures Place(MovePlacement(at), k).Some? && Place(MovePlacement(at), k).value.key.bucketStart >= 0
    ensures Place(ExpirePlacement(at), k).Some? ==> Place(ExpirePlacement(at), k) == Some(k)
  {
  }

  lemma RegroupNonNegative(at: int, t: Table)
    requires NonNegativeStarts(t)
    ensures NonNegativeStarts(Regroup(MovePlacement(at), t)) && NonNegativeStarts(Regroup(ExpirePlacement(at), t))
  {
    forall k | k in t
      ensures Place(MovePlacement(at), k).Some? && Place(MovePlacement(at), k).value.key.bucketStart >= 0
      ensures Place(ExpirePlacement(at), k).Some? ==> Place(ExpirePlacement(at), k) == Some(k)
    {
      PlaceNonNegative(at, k);
    }
  }

  /** Two tables sum and group the rows of a query alike; by hour only where rows are still hours. */
  ghost predicate SameAnswers(now: int, q: Query, t: Table, u: Table) {
    && (forall b :: RowSum(q, t, b) == RowSum(q, u, b))
    && (forall d :: Groups(q, ByColumn(d), t) == Groups(q, ByColumn(d), u))
    && (HourlyBefore(now) <= q.start ==> Groups(q, ByStart, t) == Groups(q, ByStart, u))
  }

  lemma SameGroups(now: int, q: Query, g: Grouping, t: Table, u: Table)
    requires SameAnswers(now, q, t, u) && (g.ByColumn? || HourlyBefore(now) <= q.start)
    ensures Groups(q, g, t) == Groups(q, g, u)
  {
    if g.ByColumn? {
      assert Groups(q, ByColumn(g.dimension), t) == Groups(q, ByColumn(g.dimension), u);
    }
  }

  lemma RegroupKeepsAnswers(p: Placement, now: int, q: Query, t: Table)
    requires Keeps(p, q, t) && (forall d :: KeepsGroups(p, q, ByColumn(d), t))
    requires HourlyBefore(now) <= q.start ==> KeepsGroups(p, q, ByStart, t)
    ensures SameAnswers(now, q, Regroup(p, t), t)
  {
    forall b
      ensures RowSum(q, Regroup(p, t), b) == RowSum(q, t, b)
    {
      RegroupKeepsRowSum(p, q, t, b);
    }
    forall d
      ensures Groups(q, ByColumn(d), Regroup(p, t)) == Groups(q, ByColumn(d), t)
    {
      RegroupKeepsGroups(p, q, ByColumn(d), t);
    }
    if HourlyBefore(now) <= q.start {
      RegroupKeepsGroups(p, q, ByStart, t);
    }
  }

  /** Sums and groups of an unsplit period do not change in a maintenance run, complete or not, up to `now`. */
  lemma CompactedKeepsQuery(s: State, at: int, done: nat, now: int, q: Query)
    requires at <= now && Unsplit(now, q.start, q.end) && NonNegativeStarts(s.rollups)
    ensures
      var t := Compacted(s, at, done).rollups;
      NonNegativeStarts(t) && SameAnswers(now, q, t, s.rollups)
  {
    if done >= 1 {
      var moved := Regroup(MovePlacement(at), s.rollups);
      RegroupNonNegative(at, s.rollups);
      UnsplitKeeps(now, at, q, s.rollups);
      RegroupKeepsAnswers(MovePlacement(at), now, q, s.rollups);
      if done >= 2 {
        RegroupNonNegative(at, moved);
        UnsplitKeeps(now, at, q, moved);
        RegroupKeepsAnswers(ExpirePlacement(at), now, q, moved);
      }
    }
  }

  lemma GroupWithin(q: Query, g: Grouping, t: Table, group: Group)
    requires group in Groups(q, g, t)
    ensures
      var inner := Within(q, g, group);
      && (g.ByColumn? ==> inner.start == q.start && inner.end == q.end)
      && (g.ByStart? ==> q.start <= inner.start < q.end && inner.end == inner.start + 1)
  {
    var k :| k in t && Matches(q, k.key) && GroupOf(g, k.key) == group;
  }

  /** What a report reads of one period: its summary and its totals per value of every dimension. */
  ghost predicate SameColumns(q: Query, t: Table, u: Table) {
    && SummaryOf(q, t) == SummaryOf(q, u)
    && forall d :: Grouped(q, ByColumn(d), t) == Grouped(q, ByColumn(d), u)
  }

  lemma CompactedKeepsGroup(s: State, at: int, done: nat, now: int, q: Query, g: Grouping, group: Group)
    requires at <= now && Unsplit(now, q.start, q.end) && NonNegativeStarts(s.rollups)
    requires g.ByColumn? || HourlyBefore(now) <= q.start
    requires group in Groups(q, g, s.rollups)
    ensures TotalsOf(Within(q, g, group), Compacted(s, at, done).rollups) == TotalsOf(Within(q, g, group), s.rollups)
  {
    GroupWithin(q, g, s.rollups, group);
    CompactedKeepsQuery(s, at, done, now, Within(q, g, group));
  }

  lemma CompactedKeepsGrouped(s: State, at: int, done: nat, now: int, q: Query, g: Grouping)
    requires at <= now && Unsplit(now, q.start, q.end) && NonNegativeStarts(s.rollups)
    requires g.ByColumn? || HourlyBefore(now) <= q.start
    ensures Grouped(q, g, Compacted(s, at, done).rollups) == Grouped(q, g, s.rollups)
  {
    var t := Compacted(s, at, done).rollups;
    CompactedKeepsQuery(s, at, done, now, q);
    SameGroups(now, q, g, t, s.rollups);
    forall group | group in Groups(q, g, s.rollups)
      ensures TotalsOf(Within(q, g, group), t) == TotalsOf(Within(q, g, group), s.rollups)
    {
      CompactedKeepsGroup(s, at, done, now, q, g, group);
    }
  }

  /**
   Maintenance is invisible to reports: for every preset range and legal UTC
   offset, a maintenance run at `now` or earlier, stopped after any step,
   leaves the summary and every breakdown of the window and of the period
   before it unchanged, and the series of the window, for every filter.
   */
  lemma CompactionInvisible(
    s: State, at: int, done: nat, range: string, now: int, utcOffsetMinutes: int, filter: seq<(Dimension, string)>)
    requires Preset(range, now, utcOffsetMinutes).Some?
    requires at <= now && NonNegativeStarts(s.rollups)
    ensures
      var w := Preset(range, now, utcOffsetMinutes).value;
      var p := Previous(w, now);
      var current, before := Query(w.start, w.end, filter), Query(p.start, p.end, filter);
      var t := Compacted(s, at, done).rollups;
      && SameColumns(current, t, s.rollups)
      && SameColumns(before, t, s.rollups)
      && Grouped(current, ByStart, t) == Grouped(current, ByStart, s.rollups)
  {
    var w := Preset(range, now, utcOffsetMinutes).value;
    var p := Previous(w, now);
    PresetAfterCutoff(range, now, utcOffsetMinutes);
    PreviousUnsplit(range, now, utcOffsetMinutes);
    UnsplitSameColumns(s, at, done, now, Query(w.start, w.end, filter));
    UnsplitSameColumns(s, at, done, now, Query(p.start, p.end, filter));
    CompactedKeepsGrouped(s, at, done, now, Query(w.start, w.end, filter), ByStart);
  }

  lemma UnsplitSameColumns(s: State, at: int, done: nat, now: int, q: Query)
    requires at <= now && Unsplit(now, q.start, q.end) && NonNegativeStarts(s.rollups)
    ensures SameColumns(q, Compacted(s, at, done).rollups, s.rollups)
  {
    CompactedKeepsQuery(s, at, done, now, q);
    forall d
      ensures Grouped(q, ByColumn(d), Compacted(s, at, done).rollups) == Grouped(q, ByColumn(d), s.rollups)
    {
      CompactedKeepsGrouped(s, at, done, now, q, ByColumn(d));
    }
  }

  // Reports over whole runs

  ghost predicate NonNegativeKeys(records: seq<UsageRecord>) {
    forall i :: 0 <= i < |records| ==> records[i].key.bucketStart >= 0
  }

  lemma {:induction false} FreshAmong(receipts: map<string, int>, records: seq<UsageRecord>, at: int)
    requires NonNegativeKeys(records)
    ensures NonNegativeKeys(FreshRecords(receipts, records, at))
  {
    if records != [] {
      FreshAmong(receipts, records[..|records| - 1], at);
    }
  }

  lemma AddRecordsNonNegative(t: Table, records: seq<UsageRecord>)
    requires NonNegativeStarts(t) && NonNegativeKeys(records)
    ensures NonNegativeStarts(AddRecords(t, records))
  {
    forall k | k in AddRecords(t, records)
      ensures k.key.bucketStart >= 0
    {
      AddRecordsAt(t, records, k);
    }
  }

  /** The store answers a query as the ledger's list of records does. */
  ghost predicate Answers(t: Table, q: Query, records: seq<UsageRecord>, now: int) {
    && (forall b :: RowSum(q, t, b) == RecordSum(q, records, b))
    && (forall d :: Groups(q, ByColumn(d), t) == RecordGroups(q, ByColumn(d), records))
    && (HourlyBefore(now) <= q.start ==> Groups(q, ByStart, t) == RecordGroups(q, ByStart, records))
  }

  lemma AnswersGroups(t: Table, q: Query, g: Grouping, records: seq<UsageRecord>, now: int)
    requires Answers(t, q, records, now) && (g.ByColumn? || HourlyBefore(now) <= q.start)
    ensures Groups(q, g, t) == RecordGroups(q, g, records)
  {
    if g.ByColumn? {
      assert Groups(q, ByColumn(g.dimension), t) == RecordGroups(q, ByColumn(g.dimension), records);
    }
  }

  /** Answering is kept when the same records join the table and the list. */
  lemma AnswersMore(t: Table, q: Query, records: seq<UsageRecord>, more: seq<UsageRecord>, now: int)
    requires Answers(t, q, records, now)
    ensures Answers(AddRecords(t, more), q, records + more, now)
  {
    forall b
      ensures RowSum(q, AddRecords(t, more), b) == RecordSum(q, records + more, b)
    {
      RowSumAddRecords(q, t, more, b);
      RecordSumConcat(q, records, more, b);
    }
    forall g
      ensures Groups(q, g, AddRecords(t, more)) == Groups(q, g, t) + RecordGroups(q, g, more)
      ensures RecordGroups(q, g, records + more) == RecordGroups(q, g, records) + RecordGroups(q, g, more)
    {
      GroupsAddRecords(q, g, t, more);
      RecordGroupsConcat(q, g, records, more);
    }
  }

  lemma {:induction false} RunAnswers(events: seq<Event>, now: int, q: Query)
    requires Orderly(events) && Unsplit(now, q.start, q.end) && NonNegativeKeys(Received(events))
    requires events != [] ==> When(events[|events| - 1]) <= now
    ensures NonNegativeStarts(Run(events).rollups)
    ensures Answers(Run(events).rollups, q, LedgerOf(events).records, now)
  {
    if events == [] {
      assert forall b :: Rows(q, map[], b) == {};
    } else {
      var n := |events| - 1;
      var before := Run(events[..n]);
      ReceivedPrefix(events);
      OrderlyPrefix(events);
      RunAnswers(events[..n], now, q);
      match events[n]
      case Ingest(records, at) =>
        var counted := FreshRecords(before.receipts, records, at);
        RunRemembers(events[..n]);
        PromptCountsAlike(events[..n], records, at);
        MergedExact(before.rollups, counted);
        FreshAmong(before.receipts, records, at);
        AddRecordsNonNegative(before.rollups, counted);
        AnswersMore(before.rollups, q, LedgerOf(events[..n]).records, counted, now);
      case Compact(at, done) =>
        CompactedKeepsQuery(before, at, done, now, q);
    }
  }

  lemma NonNegativeParts(a: seq<UsageRecord>, b: seq<UsageRecord>)
    requires NonNegativeKeys(a + b)
    ensures NonNegativeKeys(a) && NonNegativeKeys(b)
  {
    forall i | 0 <= i < |a|
      ensures a[i].key.bucketStart >= 0
    {
      assert (a + b)[i] == a[i];
    }
    forall i | 0 <= i < |b|
      ensures b[i].key.bucketStart >= 0
    {
      assert (a + b)[|a| + i] == b[i];
    }
  }

  lemma ReceivedPrefix(events: seq<Event>)
    requires events != [] && NonNegativeKeys(Received(events))
    ensures NonNegativeKeys(Received(events[..|events| - 1]))
    ensures events[|events| - 1].Ingest? ==> NonNegativeKeys(events[|events| - 1].records)
  {
    var n := |events| - 1;
    if events[n].Ingest? {
      NonNegativeParts(Received(events[..n]), events[n].records);
    }
  }

  lemma RecordGroupWithin(q: Query, g: Grouping, records: seq<UsageRecord>, group: Group)
    requires group in RecordGroups(q, g, records)
    ensures
      var inner := Within(q, g, group);
      && (g.ByColumn? ==> inner.start == q.start && inner.end == q.end)
      && (g.ByStart? ==> q.start <= inner.start < q.end && inner.end == inner.start + 1)
  {
    var i :| 0 <= i < |records| && Matches(q, records[i].key) && GroupOf(g, records[i].key) == group;
  }

  lemma RunGroup(events: seq<Event>, now: int, q: Query, g: Grouping, group: Group)
    requires Orderly(events) && Unsplit(now, q.start, q.end) && NonNegativeKeys(Received(events))
    requires events != [] ==> When(events[|events| - 1]) <= now
    requires g.ByColumn? || HourlyBefore(now) <= q.start
    requires group in RecordGroups(q, g, LedgerOf(events).records)
    ensures
      TotalsOf(Within(q, g, group), Run(events).rollups) ==
      TotalsOfRecords(Within(q, g, group), LedgerOf(events).records)
  {
    RecordGroupWithin(q, g, LedgerOf(events).records, group);
    RunAnswers(events, now, Within(q, g, group));
  }

  lemma SameGrouped(q: Query, g: Grouping, t: Table, records: seq<UsageRecord>)
    requires Groups(q, g, t) == RecordGroups(q, g, records)
    requires forall group :: group in RecordGroups(q, g, records) ==>
               TotalsOf(Within(q, g, group), t) == TotalsOfRecords(Within(q, g, group), records)
    ensures Grouped(q, g, t) == GroupedRecords(q, g, records)
  {
  }

  lemma RunGrouped(events: seq<Event>, now: int, q: Query, g: Grouping)
    requires Orderly(events) && Unsplit(now, q.start, q.end) && NonNegativeKeys(Received(events))
    requires events != [] ==> When(events[|events| - 1]) <= now
    requires g.ByColumn? || HourlyBefore(now) <= q.start
    ensures Grouped(q, g, Run(events).rollups) == GroupedRecords(q, g, FirstReceived(Received(events)))
  {
    var t, records := Run(events).rollups, LedgerOf(events).records;
    RunAnswers(events, now, q);
    AnswersGroups(t, q, g, records, now);
    forall group | group in RecordGroups(q, g, records)
      ensures TotalsOf(Within(q, g, group), t) == TotalsOfRecords(Within(q, g, group), records)
    {
      RunGroup(events, now, q, g, group);
    }
    SameGrouped(q, g, t, records);
    LedgerCountsFirstReceived(events);
  }

  /** Summary and breakdowns of an unsplit period are those of the distinct records. */
  ghost predicate ReportsRecords(q: Query, t: Table, records: seq<UsageRecord>) {
    && SummaryOf(q, t) == SummaryOfRecords(q, records)
    && forall d :: Grouped(q, ByColumn(d), t) == GroupedRecords(q, ByColumn(d), records)
  }

  lemma RunReportsRecords(events: seq<Event>, now: int, q: Query)
    requires Orderly(events) && Unsplit(now, q.start, q.end) && NonNegativeKeys(Received(events))
    requires events != [] ==> When(events[|events| - 1]) <= now
    ensures ReportsRecords(q, Run(events).rollups, FirstReceived(Received(events)))
  {
    LedgerCountsFirstReceived(events);
    RunAnswers(events, now, q);
    forall d
      ensures Grouped(q, ByColumn(d), Run(events).rollups) ==
              GroupedRecords(q, ByColumn(d), FirstReceived(Received(events)))
    {
      RunGrouped(events, now, q, ByColumn(d));
    }
  }

  /**
   After every run up to `now`, the report of every preset range, legal UTC
   offset and filter is the report of the plain list of distinct records:
   summary and breakdowns of the window and of the period before it, and the
   series of the window.
   */
  lemma ReportsMatchRecords(
    events: seq<Event>, range: string, now: int, utcOffsetMinutes: int, filter: seq<(Dimension, string)>)
    requires Preset(range, now, utcOffsetMinutes).Some?
    requires Orderly(events) && NonNegativeKeys(Received(events))
    requires events != [] ==> When(events[|events| - 1]) <= now
    ensures
      var w := Preset(range, now, utcOffsetMinutes).value;
      var p := Previous(w, now);
      var current, before := Query(w.start, w.end, filter), Query(p.start, p.end, filter);
      var t, records := Run(events).rollups, FirstReceived(Received(events));
      && ReportsRecords(current, t, records)
      && ReportsRecords(before, t, records)
      && Grouped(current, ByStart, t) == GroupedRecords(current, ByStart, records)
  {
    var w := Preset(range, now, utcOffsetMinutes).value;
    var p := Previous(w, now);
    PresetAfterCutoff(range, now, utcOffsetMinutes);
    PreviousUnsplit(range, now, utcOffsetMinutes);
    RunReportsRecords(events, now, Query(w.start, w.end, filter));
    RunReportsRecords(events, now, Query(p.start, p.end, filter));
    RunGrouped(events, now, Query(w.start, w.end, filter), ByStart);
  }
}
