/**
 What reports say, read off the received records field by field: which records
 a period and a filter choose, and which of their measures each figure adds
 up. Every figure of a report over every run is the one read here.
 */
module UsageReadings {
  import opened Common
  import opened UsageWindow
  import opened UsageTable
  import opened UsageBatch
  import opened UsageStore
  import opened UsageRuns
  import opened UsageReports
  import opened UsageBuckets

  // Choosing records

  /** The record has this value in this dimension. */
  predicate Says(d: Dimension, r: UsageRecord, value: string) {
    || (d == User && r.key.subject == value)
    || (d == Device && r.key.deviceId == value)
    || (d == Tool && r.key.clientId == value)
    || (d == Provider && r.key.provider == value)
    || (d == Model && r.key.model == value)
  }

  predicate Meets(r: UsageRecord, start: int, end: int, filter: seq<(Dimension, string)>) {
    && start <= r.key.bucketStart && r.key.bucketStart < end
    && forall i :: 0 <= i < |filter| ==> Says(filter[i].0, r, filter[i].1)
  }

  /** The records of the period that meet every condition. */
  function Chosen(records: seq<UsageRecord>, start: int, end: int, filter: seq<(Dimension, string)>): seq<UsageRecord> {
    if records == [] then []
    else
      var n := |records| - 1;
      var before := Chosen(records[..n], start, end, filter);
      if Meets(records[n], start, end, filter) then before + [records[n]] else before
  }

  /** The records with a value in a dimension. */
  function Having(records: seq<UsageRecord>, d: Dimension, value: string): seq<UsageRecord> {
    if records == [] then []
    else
      var n := |records| - 1;
      var before := Having(records[..n], d, value);
      if Says(d, records[n], value) then before + [records[n]] else before
  }

  /** The records of one hour. */
  function OfHour(records: seq<UsageRecord>, start: int): seq<UsageRecord> {
    if records == [] then []
    else
      var n := |records| - 1;
      var before := OfHour(records[..n], start);
      if records[n].key.bucketStart == start then before + [records[n]] else before
  }

  // Adding up one figure

  function Total(records: seq<UsageRecord>, figure: UsageRecord -> int): int {
    if records == [] then 0 else Total(records[..|records| - 1], figure) + figure(records[|records| - 1])
  }

  function Requests(r: UsageRecord): int { r.measures.requests }

  function Errors(r: UsageRecord): int { r.measures.errors }

  function InputTokens(r: UsageRecord): int { r.measures.inputTokens }

  function OutputTokens(r: UsageRecord): int { r.measures.outputTokens }

  function CacheReadTokens(r: UsageRecord): int { r.measures.cacheReadTokens }

  function CacheWriteTokens(r: UsageRecord): int { r.measures.cacheWriteTokens }

  /** Spend billed per token. */
  function ApiCost(r: UsageRecord): int {
    if r.key.billing == Api then r.measures.costNanos else 0
  }

  /** What usage covered by a subscription would have cost. */
  function SubscriptionCost(r: UsageRecord): int {
    if r.key.billing == Subscription then r.measures.costNanos else 0
  }

  function SubscriptionRequests(r: UsageRecord): int {
    if r.key.billing == Subscription then r.measures.requests else 0
  }

  function UnpricedRequests(r: UsageRecord): int { r.measures.unpricedRequests }

  /** Each total is the sum of its own figure. */
  ghost predicate TotalsRead(t: Totals, records: seq<UsageRecord>) {
    && t.requests == Total(records, Requests)
    && t.errors == Total(records, Errors)
    && t.inputTokens == Total(records, InputTokens)
    && t.outputTokens == Total(records, OutputTokens)
    && t.cacheReadTokens == Total(records, CacheReadTokens)
    && t.cacheWriteTokens == Total(records, CacheWriteTokens)
    && t.costNanos == Total(records, ApiCost)
    && t.subscriptionCostNanos == Total(records, SubscriptionCost)
    && t.subscriptionRequests == Total(records, SubscriptionRequests)
    && t.unpricedRequests == Total(records, UnpricedRequests)
  }

  ghost function Subjects(records: seq<UsageRecord>): set<string> {
    set i | 0 <= i < |records| && records[i].key.subject != "" :: records[i].key.subject
  }

  ghost function DeviceIds(records: seq<UsageRecord>): set<string> {
    set i | 0 <= i < |records| && records[i].key.deviceId != "" :: records[i].key.deviceId
  }

  // Totals

  lemma MatchesMeets(q: Query, r: UsageRecord)
    ensures Matches(q, r.key) <==> Meets(r, q.start, q.end, q.filter)
  {
    forall i | 0 <= i < |q.filter|
      ensures Column(q.filter[i].0, r.key) == q.filter[i].1 <==> Says(q.filter[i].0, r, q.filter[i].1)
    {
    }
  }

  lemma TotalSnoc(records: seq<UsageRecord>, r: UsageRecord, figure: UsageRecord -> int)
    ensures Total(records + [r], figure) == Total(records, figure) + figure(r)
  {
    assert (records + [r])[..|records|] == records;
  }

  /** `after` is `before` with one more record counted. */
  predicate OneMore(before: Totals, r: UsageRecord, after: Totals) {
    && after.requests == before.requests + Requests(r)
    && after.errors == before.errors + Errors(r)
    && after.inputTokens == before.inputTokens + InputTokens(r)
    && after.outputTokens == before.outputTokens + OutputTokens(r)
    && after.cacheReadTokens == before.cacheReadTokens + CacheReadTokens(r)
    && after.cacheWriteTokens == before.cacheWriteTokens + CacheWriteTokens(r)
    && after.costNanos == before.costNanos + ApiCost(r)
    && after.subscriptionCostNanos == before.subscriptionCostNanos + SubscriptionCost(r)
    && after.subscriptionRequests == before.subscriptionRequests + SubscriptionRequests(r)
    && after.unpricedRequests == before.unpricedRequests + UnpricedRequests(r)
  }

  lemma TotalsReadSnoc(before: Totals, records: seq<UsageRecord>, r: UsageRecord, after: Totals)
    requires TotalsRead(before, records) && OneMore(before, r, after)
    ensures TotalsRead(after, records + [r])
  {
    TotalSnoc(records, r, Requests);
    TotalSnoc(records, r, Errors);
    TotalSnoc(records, r, InputTokens);
    TotalSnoc(records, r, OutputTokens);
    TotalSnoc(records, r, CacheReadTokens);
    TotalSnoc(records, r, CacheWriteTokens);
    TotalSnoc(records, r, ApiCost);
    TotalSnoc(records, r, SubscriptionCost);
    TotalSnoc(records, r, SubscriptionRequests);
    TotalSnoc(records, r, UnpricedRequests);
  }

  lemma SplitOneMore(api: Measures, subscription: Measures, r: UsageRecord)
    ensures
      OneMore(
        Split(api, subscription), r,
        if r.key.billing == Api then Split(Plus(api, r.measures), subscription)
        else Split(api, Plus(subscription, r.measures)))
  {
  }

  lemma RecordSumLast(q: Query, records: seq<UsageRecord>)
    requires records != []
    ensures
      var n := |records| - 1;
      var before, after := TotalsOfRecords(q, records[..n]), TotalsOfRecords(q, records);
      if Matches(q, records[n].key) then OneMore(before, records[n], after) else after == before
  {
    var n := |records| - 1;
    SplitOneMore(RecordSum(q, records[..n], Api), RecordSum(q, records[..n], Subscription), records[n]);
  }

  /** The totals of a query over a list of records are read off the records it chooses. */
  lemma {:induction false} RecordTotalsRead(q: Query, records: seq<UsageRecord>)
    ensures TotalsRead(TotalsOfRecords(q, records), Chosen(records, q.start, q.end, q.filter))
  {
    if records != [] {
      var n := |records| - 1;
      RecordTotalsRead(q, records[..n]);
      MatchesMeets(q, records[n]);
      RecordSumLast(q, records);
      if Matches(q, records[n].key) {
        TotalsReadSnoc(
          TotalsOfRecords(q, records[..n]), Chosen(records[..n], q.start, q.end, q.filter), records[n],
          TotalsOfRecords(q, records));
      }
    }
  }

  // Breakdowns and series

  lemma HavingSnoc(records: seq<UsageRecord>, r: UsageRecord, d: Dimension, value: string)
    ensures
      Having(records + [r], d, value) ==
      if Says(d, r, value) then Having(records, d, value) + [r] else Having(records, d, value)
  {
    assert (records + [r])[..|records|] == records;
  }

  lemma OfHourSnoc(records: seq<UsageRecord>, r: UsageRecord, start: int)
    ensures
      OfHour(records + [r], start) ==
      if r.key.bucketStart == start then OfHour(records, start) + [r] else OfHour(records, start)
  {
    assert (records + [r])[..|records|] == records;
  }

  lemma MeetsOneMore(r: UsageRecord, start: int, end: int, filter: seq<(Dimension, string)>, d: Dimension, value: string)
    ensures Meets(r, start, end, filter + [(d, value)]) <==> Meets(r, start, end, filter) && Says(d, r, value)
  {
    var more := filter + [(d, value)];
    assert more[|filter|] == (d, value);
    assert forall i :: 0 <= i < |filter| ==> more[i] == filter[i];
  }

  /** One more condition chooses, of the records chosen without it, those that have its value. */
  lemma {:induction false} ChosenOneMore(
    records: seq<UsageRecord>, start: int, end: int, filter: seq<(Dimension, string)>, d: Dimension, value: string)
    ensures
      Chosen(records, start, end, filter + [(d, value)]) == Having(Chosen(records, start, end, filter), d, value)
  {
    if records != [] {
      var n := |records| - 1;
      ChosenOneMore(records[..n], start, end, filter, d, value);
      MeetsOneMore(records[n], start, end, filter, d, value);
      HavingSnoc(Chosen(records[..n], start, end, filter), records[n], d, value);
    }
  }

  /** One instant of the period chooses, of its records, those of that hour. */
  lemma {:induction false} ChosenAt(
    records: seq<UsageRecord>, start: int, end: int, filter: seq<(Dimension, string)>, at: int)
    requires start <= at < end
    ensures Chosen(records, at, at + 1, filter) == OfHour(Chosen(records, start, end, filter), at)
  {
    if records != [] {
      var n := |records| - 1;
      ChosenAt(records[..n], start, end, filter, at);
      OfHourSnoc(Chosen(records[..n], start, end, filter), records[n], at);
    }
  }

  ghost predicate Among(records: seq<UsageRecord>, r: UsageRecord) {
    exists i :: 0 <= i < |records| && records[i] == r
  }

  lemma AmongSnoc(records: seq<UsageRecord>, last: UsageRecord, r: UsageRecord)
    ensures Among(records + [last], r) <==> Among(records, r) || r == last
  {
    var all := records + [last];
    if Among(records, r) {
      var i :| 0 <= i < |records| && records[i] == r;
      assert all[i] == r;
    }
    if r == last {
      assert all[|records|] == r;
    }
  }

  lemma {:induction false} ChosenHas(
    records: seq<UsageRecord>, start: int, end: int, filter: seq<(Dimension, string)>, r: UsageRecord)
    ensures Among(Chosen(records, start, end, filter), r) <==> Among(records, r) && Meets(r, start, end, filter)
  {
    if records != [] {
      var n := |records| - 1;
      ChosenHas(records[..n], start, end, filter, r);
      AmongSnoc(Chosen(records[..n], start, end, filter), records[n], r);
      AmongSnoc(records[..n], records[n], r);
      assert records == records[..n] + [records[n]];
    }
  }

  /** Some chosen record has the value. */
  ghost predicate SomeSays(records: seq<UsageRecord>, d: Dimension, value: string) {
    exists r :: Among(records, r) && Says(d, r, value)
  }

  ghost predicate SomeAt(records: seq<UsageRecord>, start: int) {
    exists r :: Among(records, r) && r.key.bucketStart == start
  }

  lemma NamedGroup(q: Query, d: Dimension, records: seq<UsageRecord>, name: string)
    ensures
      Named(name) in RecordGroups(q, ByColumn(d), records)
      <==> SomeSays(Chosen(records, q.start, q.end, q.filter), d, name)
  {
    var chosen := Chosen(records, q.start, q.end, q.filter);
    if Named(name) in RecordGroups(q, ByColumn(d), records) {
      var i :| 0 <= i < |records| && Matches(q, records[i].key) && GroupOf(ByColumn(d), records[i].key) == Named(name);
      MatchesMeets(q, records[i]);
      ChosenHas(records, q.start, q.end, q.filter, records[i]);
      assert Among(records, records[i]) && Says(d, records[i], name);
    }
    if SomeSays(chosen, d, name) {
      var r :| Among(chosen, r) && Says(d, r, name);
      MatchesMeets(q, r);
      ChosenHas(records, q.start, q.end, q.filter, r);
      var i :| 0 <= i < |records| && records[i] == r;
      assert GroupOf(ByColumn(d), records[i].key) == Named(name);
    }
  }

  lemma StartGroup(q: Query, records: seq<UsageRecord>, start: int)
    ensures
      StartingAt(start) in RecordGroups(q, ByStart, records)
      <==> SomeAt(Chosen(records, q.start, q.end, q.filter), start)
  {
    var chosen := Chosen(records, q.start, q.end, q.filter);
    if StartingAt(start) in RecordGroups(q, ByStart, records) {
      var i :| 0 <= i < |records| && Matches(q, records[i].key) && GroupOf(ByStart, records[i].key) == StartingAt(start);
      MatchesMeets(q, records[i]);
      ChosenHas(records, q.start, q.end, q.filter, records[i]);
      assert Among(records, records[i]);
    }
    if SomeAt(chosen, start) {
      var r :| Among(chosen, r) && r.key.bucketStart == start;
      MatchesMeets(q, r);
      ChosenHas(records, q.start, q.end, q.filter, r);
      var i :| 0 <= i < |records| && records[i] == r;
      assert GroupOf(ByStart, records[i].key) == StartingAt(start);
    }
  }

  /** A breakdown names exactly the values that chosen records have, each with the totals of those records. */
  ghost predicate BreakdownRead(groups: map<Group, Totals>, d: Dimension, chosen: seq<UsageRecord>) {
    && (forall group :: group in groups ==> group.Named?)
    && forall name ::
         && (Named(name) in groups <==> SomeSays(chosen, d, name))
         && (Named(name) in groups ==> TotalsRead(groups[Named(name)], Having(chosen, d, name)))
  }

  /** A series has exactly the hours of chosen records, each with the totals of those records. */
  ghost predicate SeriesRead(groups: map<Group, Totals>, chosen: seq<UsageRecord>) {
    && (forall group :: group in groups ==> group.StartingAt?)
    && forall start ::
         && (StartingAt(start) in groups <==> SomeAt(chosen, start))
         && (StartingAt(start) in groups ==> TotalsRead(groups[StartingAt(start)], OfHour(chosen, start)))
  }

  lemma BreakdownOfRecords(q: Query, d: Dimension, records: seq<UsageRecord>)
    ensures BreakdownRead(GroupedRecords(q, ByColumn(d), records), d, Chosen(records, q.start, q.end, q.filter))
  {
    var groups, chosen := GroupedRecords(q, ByColumn(d), records), Chosen(records, q.start, q.end, q.filter);
    forall name
      ensures Named(name) in groups <==> SomeSays(chosen, d, name)
      ensures Named(name) in groups ==> TotalsRead(groups[Named(name)], Having(chosen, d, name))
    {
      NamedGroup(q, d, records, name);
      RecordTotalsRead(Within(q, ByColumn(d), Named(name)), records);
      ChosenOneMore(records, q.start, q.end, q.filter, d, name);
    }
  }

  lemma HourRead(q: Query, records: seq<UsageRecord>, start: int)
    requires StartingAt(start) in RecordGroups(q, ByStart, records)
    ensures
      TotalsRead(
        TotalsOfRecords(Within(q, ByStart, StartingAt(start)), records),
        OfHour(Chosen(records, q.start, q.end, q.filter), start))
  {
    RecordTotalsRead(Within(q, ByStart, StartingAt(start)), records);
    RecordGroupWithin(q, ByStart, records, StartingAt(start));
    ChosenAt(records, q.start, q.end, q.filter, start);
  }

  lemma SeriesOfRecords(q: Query, records: seq<UsageRecord>)
    ensures SeriesRead(GroupedRecords(q, ByStart, records), Chosen(records, q.start, q.end, q.filter))
  {
    var groups, chosen := GroupedRecords(q, ByStart, records), Chosen(records, q.start, q.end, q.filter);
    forall start
      ensures StartingAt(start) in groups <==> SomeAt(chosen, start)
      ensures StartingAt(start) in groups ==> TotalsRead(groups[StartingAt(start)], OfHour(chosen, start))
    {
      StartGroup(q, records, start);
      if StartingAt(start) in groups {
        HourRead(q, records, start);
      }
    }
  }

  // Distinct users and devices

  lemma {:induction false} NamesCount(names: set<string>)
    ensures |set n | n in names :: Named(n)| == |names|
  {
    var groups := set n | n in names :: Named(n);
    if names == {} {
      assert groups == {};
    } else {
      var n :| n in names;
      NamesCount(names - {n});
      assert (set m | m in names - {n} :: Named(m)) == groups - {Named(n)};
      assert Named(n) in groups;
    }
  }

  lemma KnownNames(q: Query, d: Dimension, records: seq<UsageRecord>, names: set<string>)
    requires forall n :: n in names <==> n != "" && SomeSays(Chosen(records, q.start, q.end, q.filter), d, n)
    ensures |NamedIn(RecordGroups(q, ByColumn(d), records))| == |names|
  {
    var known, groups := NamedIn(RecordGroups(q, ByColumn(d), records)), set n | n in names :: Named(n);
    forall group
      ensures group in known <==> group in groups
    {
      if group.Named? {
        NamedGroup(q, d, records, group.name);
      } else {
        assert group !in RecordGroups(q, ByColumn(d), records);
      }
    }
    assert known == groups;
    NamesCount(names);
  }

  lemma SubjectsSaid(records: seq<UsageRecord>, n: string)
    ensures n in Subjects(records) <==> n != "" && SomeSays(records, User, n)
    ensures n in DeviceIds(records) <==> n != "" && SomeSays(records, Device, n)
  {
    forall i | 0 <= i < |records|
      ensures Among(records, records[i])
    {
    }
    if n in Subjects(records) {
      var i :| 0 <= i < |records| && records[i].key.subject == n;
      assert Among(records, records[i]) && Says(User, records[i], n);
    }
    if n in DeviceIds(records) {
      var i :| 0 <= i < |records| && records[i].key.deviceId == n;
      assert Among(records, records[i]) && Says(Device, records[i], n);
    }
  }

  ghost predicate SummaryRead(s: Summary, chosen: seq<UsageRecord>) {
    TotalsRead(s.totals, chosen) && s.users == |Subjects(chosen)| && s.devices == |DeviceIds(chosen)|
  }

  lemma SummaryOfRecordsRead(q: Query, records: seq<UsageRecord>)
    ensures SummaryRead(SummaryOfRecords(q, records), Chosen(records, q.start, q.end, q.filter))
  {
    var chosen := Chosen(records, q.start, q.end, q.filter);
    RecordTotalsRead(q, records);
    forall n
      ensures n in Subjects(chosen) <==> n != "" && SomeSays(chosen, User, n)
      ensures n in DeviceIds(chosen) <==> n != "" && SomeSays(chosen, Device, n)
    {
      SubjectsSaid(chosen, n);
    }
    KnownNames(q, User, records, Subjects(chosen));
    KnownNames(q, Device, records, DeviceIds(chosen));
  }

  // Reports over whole runs

  /** Summary and every breakdown of a period, as the table answers them, are read off the chosen records. */
  ghost predicate PeriodRead(start: int, end: int, filter: seq<(Dimension, string)>, t: Table, records: seq<UsageRecord>) {
    var q, chosen := Query(start, end, filter), Chosen(records, start, end, filter);
    && SummaryRead(SummaryOf(q, t), chosen)
    && forall d :: BreakdownRead(Grouped(q, ByColumn(d), t), d, chosen)
  }

  lemma ReportsPeriodRead(q: Query, t: Table, records: seq<UsageRecord>)
    requires ReportsRecords(q, t, records)
    ensures PeriodRead(q.start, q.end, q.filter, t, records)
  {
    assert q == Query(q.start, q.end, q.filter);
    SummaryOfRecordsRead(q, records);
    forall d
      ensures BreakdownRead(Grouped(q, ByColumn(d), t), d, Chosen(records, q.start, q.end, q.filter))
    {
      BreakdownOfRecords(q, d, records);
    }
  }

  /**
   After every run up to `now`, for every preset range, legal UTC offset and
   filter: the window's summary, breakdowns and series, and the summary and
   breakdowns of the period before it, say of the distinct records received
   exactly what is read off them figure by figure.
   */
  lemma ReportsReadRecords(
    events: seq<Event>, range: string, now: int, utcOffsetMinutes: int, filter: seq<(Dimension, string)>)
    requires Preset(range, now, utcOffsetMinutes).Some?
    requires Orderly(events) && NonNegativeKeys(Received(events))
    requires events != [] ==> When(events[|events| - 1]) <= now
    ensures
      var w := Preset(range, now, utcOffsetMinutes).value;
      var p := Previous(w, now);
      var t, records := Run(events).rollups, FirstReceived(Received(events));
      && PeriodRead(w.start, w.end, filter, t, records)
      && PeriodRead(p.start, p.end, filter, t, records)
      && SeriesRead(Grouped(Query(w.start, w.end, filter), ByStart, t), Chosen(records, w.start, w.end, filter))
  {
    var w := Preset(range, now, utcOffsetMinutes).value;
    var p := Previous(w, now);
    var t, records := Run(events).rollups, FirstReceived(Received(events));
    ReportsMatchRecords(events, range, now, utcOffsetMinutes, filter);
    ReportsPeriodRead(Query(w.start, w.end, filter), t, records);
    ReportsPeriodRead(Query(p.start, p.end, filter), t, records);
    SeriesOfRecords(Query(w.start, w.end, filter), records);
  }

  // The buckets of a report

  lemma AddRecordsNotNegative(t: Table, records: seq<UsageRecord>)
    requires NonNegativeTable(t) && AllNonNegative(records)
    ensures NonNegativeTable(AddRecords(t, records))
  {
    forall k | k in AddRecords(t, records)
      ensures NonNegative(AddRecords(t, records)[k])
    {
      AddRecordsAt(t, records, k);
      ExactAtBounds(records, k.key);
    }
  }

  lemma RegroupNotNegative(p: Placement, t: Table)
    requires NonNegativeTable(t)
    ensures NonNegativeTable(Regroup(p, t))
  {
    forall row | row in Regroup(p, t)
      ensures NonNegative(Regroup(p, t)[row])
    {
      SumNonNegative(t, Sources(p, t, row));
    }
  }

  lemma CompactedNotNegative(s: State, now: int, done: nat)
    requires NonNegativeTable(s.rollups)
    ensures NonNegativeTable(Compacted(s, now, done).rollups)
  {
    RegroupNotNegative(MovePlacement(now), s.rollups);
    RegroupNotNegative(ExpirePlacement(now), Regroup(MovePlacement(now), s.rollups));
  }

  lemma {:induction false} RunNotNegative(events: seq<Event>)
    requires Orderly(events)
    ensures NonNegativeTable(Run(events).rollups)
  {
    if events != [] {
      var n := |events| - 1;
      var before := Run(events[..n]);
      OrderlyPrefix(events);
      RunNotNegative(events[..n]);
      match events[n]
      case Ingest(records, at) =>
        RunRemembers(events[..n]);
        PromptCountsAlike(events[..n], records, at);
        var counted := FreshRecords(before.receipts, records, at);
        MergedExact(before.rollups, counted);
        AddRecordsNotNegative(before.rollups, counted);
      case Compact(now, done) => CompactedNotNegative(before, now, done);
    }
  }

  lemma BucketUnsplit(range: string, now: int, utcOffsetMinutes: int, filter: seq<(Dimension, string)>, index: nat)
    requires Preset(range, now, utcOffsetMinutes).Some?
    ensures
      var w := Preset(range, now, utcOffsetMinutes).value;
      var q := BucketQuery(w, filter, index);
      q.filter == filter && Unsplit(now, q.start, q.end)
  {
    PresetShape(range, now, utcOffsetMinutes);
    PresetAfterCutoff(range, now, utcOffsetMinutes);
  }

  lemma RunTotalsRead(events: seq<Event>, now: int, q: Query)
    requires Orderly(events) && NonNegativeKeys(Received(events)) && Unsplit(now, q.start, q.end)
    requires events != [] ==> When(events[|events| - 1]) <= now
    ensures
      TotalsRead(TotalsOf(q, Run(events).rollups), Chosen(FirstReceived(Received(events)), q.start, q.end, q.filter))
  {
    RunAnswers(events, now, q);
    LedgerCountsFirstReceived(events);
    RecordTotalsRead(q, FirstReceived(Received(events)));
  }

  /**
   After every run up to `now`, when the summary of a preset window fits in 64
   bits: each bucket of its report, as the report fills it, says exactly what
   is read off the distinct records of the bucket's instants.
   */
  lemma BucketsReadRecords(
    events: seq<Event>, range: string, now: int, utcOffsetMinutes: int, filter: seq<(Dimension, string)>,
    starts: seq<int>, index: nat)
    requires Preset(range, now, utcOffsetMinutes).Some?
    requires Orderly(events) && NonNegativeKeys(Received(events))
    requires events != [] ==> When(events[|events| - 1]) <= now
    requires
      var w, t := Preset(range, now, utcOffsetMinutes).value, Run(events).rollups;
      && index < BucketCount(w) && SeriesOf(Query(w.start, w.end, filter), t, starts)
      && NoMore(TotalsOf(Query(w.start, w.end, filter), t), MAX_TOTALS)
    ensures
      var w, t := Preset(range, now, utcOffsetMinutes).value, Run(events).rollups;
      var first, last := BucketStart(w, index), BucketStart(w, index + 1);
      TotalsRead(
        BucketFold(w, SeriesRows(Query(w.start, w.end, filter), t, starts), index),
        Chosen(FirstReceived(Received(events)), first, last, filter))
  {
    var w := Preset(range, now, utcOffsetMinutes).value;
    RunNotNegative(events);
    BucketsReportTheirInstants(range, now, utcOffsetMinutes, filter, Run(events).rollups, starts, index);
    BucketUnsplit(range, now, utcOffsetMinutes, filter, index);
    RunTotalsRead(events, now, BucketQuery(w, filter, index));
  }
}
