/**
 The usage store: `Ingest` counts each record once and adds it to its hour,
 `Compact` turns old hours into UTC days and expires days and record
 identifiers. Both are proved against functions on the two tables.
 */
module UsageStore {
  import opened Common
  import opened UsageWindow
  import opened UsageTable

  /** The two tables: rollups, and the receipt time of every identifier still remembered. */
  datatype State = State(rollups: Table, receipts: map<string, int>)

  const EMPTY := State(map[], map[])

  // Receipts

  /** `INSERT INTO usage_receipts ... ON CONFLICT DO NOTHING` for each record in turn. */
  function ReceiptsAfter(receipts: map<string, int>, records: seq<UsageRecord>, at: int): map<string, int> {
    if records == [] then receipts
    else
      var n := |records| - 1;
      var before := ReceiptsAfter(receipts, records[..n], at);
      if records[n].id in before then before else before[records[n].id := at]
  }

  /** The records whose identifier was inserted, in order. */
  function FreshRecords(receipts: map<string, int>, records: seq<UsageRecord>, at: int): seq<UsageRecord> {
    if records == [] then []
    else
      var n := |records| - 1;
      var before := FreshRecords(receipts, records[..n], at);
      if records[n].id in ReceiptsAfter(receipts, records[..n], at) then before else before + [records[n]]
  }

  // Sums within one batch

  /** `Measures::add`. */
  function SaturatingPlus(a: Measures, b: Measures): Measures {
    Measures(
      SaturatingAdd(a.requests, b.requests), SaturatingAdd(a.errors, b.errors),
      SaturatingAdd(a.inputTokens, b.inputTokens), SaturatingAdd(a.outputTokens, b.outputTokens),
      SaturatingAdd(a.cacheReadTokens, b.cacheReadTokens), SaturatingAdd(a.cacheWriteTokens, b.cacheWriteTokens),
      SaturatingAdd(a.costNanos, b.costNanos), SaturatingAdd(a.unpricedRequests, b.unpricedRequests))
  }

  /** The in-memory rollups of a batch: `entry(key).or_default().add(measures)` per record. */
  function BatchRollups(records: seq<UsageRecord>): map<RollupKey, Measures> {
    if records == [] then map[]
    else
      var n := |records| - 1;
      var before := BatchRollups(records[..n]);
      var key := records[n].key;
      before[key := SaturatingPlus(if key in before then before[key] else ZERO, records[n].measures)]
  }

  /** What one iteration of the collecting loop adds. */
  lemma CollectStep(receipts: map<string, int>, records: seq<UsageRecord>, at: int, i: nat)
    requires i < |records|
    ensures
      var before := FreshRecords(receipts, records[..i], at);
      var seen := ReceiptsAfter(receipts, records[..i], at);
      var batch := BatchRollups(before);
      var r := records[i];
      && ReceiptsAfter(receipts, records[..i + 1], at) == (if r.id in seen then seen else seen[r.id := at])
      && FreshRecords(receipts, records[..i + 1], at) == (if r.id in seen then before else before + [r])
      && BatchRollups(before + [r]) ==
         batch[r.key := SaturatingPlus(if r.key in batch then batch[r.key] else ZERO, r.measures)]
  {
    var before := FreshRecords(receipts, records[..i], at);
    assert records[..i + 1][..i] == records[..i];
    assert (before + [records[i]])[..|before|] == before;
  }

  function BatchAt(batch: map<RollupKey, Measures>, k: RowKey): Measures {
    if k.bucketSeconds == HOUR && k.key in batch then batch[k.key] else ZERO
  }

  /** The table after every rollup of the batch was inserted at its hour. */
  function Merged(t: Table, batch: map<RollupKey, Measures>): Table {
    map k | k in t.Keys + (set key | key in batch :: Hourly(key)) :: Plus(At(t, k), BatchAt(batch, k))
  }

  lemma MergedEmpty(t: Table)
    ensures Merged(t, map[]) == t
  {
  }

  /** Inserting one more rollup. */
  lemma MergedInsert(t: Table, batch: map<RollupKey, Measures>, key: RollupKey, m: Measures)
    requires key !in batch
    ensures Merged(t, batch[key := m]) == AddRow(Merged(t, batch), Hourly(key), m)
  {
    var more := batch[key := m];
    var left := Merged(t, more);
    var right := AddRow(Merged(t, batch), Hourly(key), m);
    assert left.Keys == right.Keys;
    forall k | k in left
      ensures At(left, k) == At(right, k)
    {
      assert k != Hourly(key) ==> BatchAt(more, k) == BatchAt(batch, k);
      assert k == Hourly(key) ==> BatchAt(batch, k) == ZERO && At(Merged(t, batch), k) == At(t, k);
    }
    SameTable(left, right);
  }

  // Maintenance

  function MovePlacement(now: int): Placement {
    Placement(Some(HourlyBefore(now)), None)
  }

  function ExpirePlacement(now: int): Placement {
    Placement(None, Some(now - DAILY_RETENTION))
  }

  /** Both statements of one maintenance run. */
  function FullPlacement(now: int): Placement {
    Placement(Some(HourlyBefore(now)), Some(now - DAILY_RETENTION))
  }

  function KeepReceipts(receipts: map<string, int>, now: int): map<string, int> {
    map id | id in receipts && receipts[id] >= now - RECEIPT_RETENTION :: receipts[id]
  }

  /**
   The tables after a maintenance run that completed its first `done`
   steps: the transaction that makes days of hours, the expiry of days, the
   expiry of identifiers.
   */
  ghost function Compacted(s: State, now: int, done: nat): State {
    State(
      if done == 0 then s.rollups
      else if done == 1 then Regroup(MovePlacement(now), s.rollups)
      else Regroup(ExpirePlacement(now), Regroup(MovePlacement(now), s.rollups)),
      if done < 3 then s.receipts else KeepReceipts(s.receipts, now))
  }

  /** A placement that only keeps or drops rows is a `DELETE`. */
  lemma RegroupDeletes(p: Placement, t: Table, kept: Table)
    requires forall k :: k in t ==> Place(p, k) == None || Place(p, k) == Some(k)
    requires forall k :: k in kept <==> k in t && Place(p, k) == Some(k)
    requires forall k :: k in kept ==> kept[k] == t[k]
    ensures Regroup(p, t) == kept
  {
    var regrouped := Regroup(p, t);
    assert regrouped.Keys == kept.Keys by {
      assert regrouped.Keys == Places(p, t);
    }
    forall k | k in regrouped
      ensures regrouped[k] == kept[k]
    {
      assert Sources(p, t, k) == {k};
      SumRemove(t, {k}, k);
      assert {k} - {k} == {};
    }
  }

  /** Hours the transaction moves. */
  predicate OldHour(k: RowKey, hourlyBefore: int) {
    k.bucketSeconds == HOUR && k.key.bucketStart < hourlyBefore
  }

  function DayOf(k: RowKey): RowKey {
    RowKey(k.key.(bucketStart := SqlDayStart(k.key.bucketStart)), DAY)
  }

  lemma PlaceOldHour(now: int, k: RowKey)
    ensures OldHour(k, HourlyBefore(now)) ==> Place(MovePlacement(now), k) == Some(DayOf(k))
    ensures !OldHour(k, HourlyBefore(now)) ==> Place(MovePlacement(now), k) == Some(k)
    ensures !OldHour(DayOf(k), HourlyBefore(now))
  {
  }

  lemma AddRowWithout(table: Table, done: set<RowKey>, k: RowKey, row: RowKey, m: Measures)
    requires row !in done && row != k
    ensures AddRow(table, row, m) - (done + {k}) == AddRow(table - done - {k}, row, m)
  {
    assert At(table - done - {k}, row) == At(table, row);
  }

  /**
   One row of the transaction's `INSERT ... SELECT`: with the hours `done`
   already written into their days, writing one more leaves the table that
   the deletion of the hours will make unchanged under regrouping.
   */
  lemma MoveOneHour(now: int, table: Table, done: set<RowKey>, k: RowKey)
    requires k in table && k !in done && OldHour(k, HourlyBefore(now))
    requires forall j :: j in done ==> OldHour(j, HourlyBefore(now))
    ensures
      var p := MovePlacement(now);
      Regroup(p, AddRow(table, DayOf(k), table[k]) - (done + {k})) == Regroup(p, table - done)
  {
    var p := MovePlacement(now);
    var rest := table - done - {k};
    PlaceOldHour(now, k);
    PlaceOldHour(now, DayOf(k));
    LastRow(table - done, k);
    RegroupAddRow(p, rest, DayOf(k), table[k]);
    RegroupAddRow(p, rest, k, table[k]);
    assert DayOf(k) !in done + {k};
    AddRowWithout(table, done, k, DayOf(k), table[k]);
  }

  /** Between two rows of the `INSERT ... SELECT`: `hours` are the rows it reads, `todo` those still to write. */
  ghost predicate Moving(now: int, before: Table, table: Table, hours: set<RowKey>, todo: set<RowKey>) {
    && todo <= hours <= table.Keys
    && (forall k :: k in table ==> (k in hours <==> OldHour(k, HourlyBefore(now))))
    && (forall k :: k in hours ==> k in before && table[k] == before[k])
    && Regroup(MovePlacement(now), table - (hours - todo)) == Regroup(MovePlacement(now), before)
  }

  lemma MovingStart(now: int, before: Table, hours: set<RowKey>)
    requires forall k :: k in hours <==> k in before && OldHour(k, HourlyBefore(now))
    ensures Moving(now, before, before, hours, hours)
  {
    assert before - (hours - hours) == before;
  }

  lemma MovingStep(now: int, before: Table, table: Table, hours: set<RowKey>, todo: set<RowKey>, k: RowKey)
    requires Moving(now, before, table, hours, todo) && k in todo
    ensures Moving(now, before, AddRow(table, DayOf(k), before[k]), hours, todo - {k})
  {
    MoveOneHour(now, table, hours - todo, k);
    PlaceOldHour(now, k);
    assert DayOf(k) !in hours;
    assert hours - todo + {k} == hours - (todo - {k});
  }

  lemma MovingDone(now: int, before: Table, table: Table, hours: set<RowKey>, kept: Table)
    requires Moving(now, before, table, hours, {})
    requires forall k :: k in kept <==> k in table && !OldHour(k, HourlyBefore(now))
    requires forall k :: k in kept ==> kept[k] == table[k]
    ensures kept == Regroup(MovePlacement(now), before)
  {
    assert kept == table - (hours - {});
    MoveSettled(now, kept);
  }

  /** What remains once the hours are deleted needs no further move. */
  lemma MoveSettled(now: int, t: Table)
    requires forall k :: k in t ==> !OldHour(k, HourlyBefore(now))
    ensures Regroup(MovePlacement(now), t) == t
  {
    forall k | k in t
      ensures Place(MovePlacement(now), k) == Some(k)
    {
      PlaceOldHour(now, k);
    }
    RegroupDeletes(MovePlacement(now), t, t);
  }

  class UsageStore {
    var rollups: Table
    var receipts: map<string, int>

    ghost function View(): State
      reads this
    {
      State(rollups, receipts)
    }

    constructor ()
      ensures View() == EMPTY
    {
      rollups, receipts := map[], map[];
    }

    /** Stores records not seen before and returns how many there were; `None` when the transaction failed. */
    method Ingest(records: seq<UsageRecord>, receivedAt: int, commits: bool) returns (stored: Option<nat>)
      modifies this
      ensures !commits && records != [] ==> stored == None && View() == old(View())
      ensures commits || records == [] ==>
                var counted := FreshRecords(old(receipts), records, receivedAt);
                && stored == Some(|counted|)
                && rollups == Merged(old(rollups), BatchRollups(counted))
                && receipts == ReceiptsAfter(old(receipts), records, receivedAt)
    {
      if records == [] {
        MergedEmpty(rollups);
        return Some(0);
      }
      var seen, batch, count := Collect(receipts, records, receivedAt);
      var table := InsertBatch(rollups, batch);
      if !commits {
        return None;
      }
      rollups, receipts := table, seen;
      return Some(count);
    }

    /** The first loop of `Ingest`: drop repeats and sum the rest per rollup key. */
    static method Collect(receipts: map<string, int>, records: seq<UsageRecord>, receivedAt: int)
      returns (seen: map<string, int>, batch: map<RollupKey, Measures>, count: nat)
      ensures seen == ReceiptsAfter(receipts, records, receivedAt)
      ensures batch == BatchRollups(FreshRecords(receipts, records, receivedAt))
      ensures count == |FreshRecords(receipts, records, receivedAt)|
    {
      seen, batch, count := receipts, map[], 0;
      for i := 0 to |records|
        invariant seen == ReceiptsAfter(receipts, records[..i], receivedAt)
        invariant batch == BatchRollups(FreshRecords(receipts, records[..i], receivedAt))
        invariant count == |FreshRecords(receipts, records[..i], receivedAt)|
      {
        var record := records[i];
        CollectStep(receipts, records, receivedAt, i);
        if record.id !in seen {
          seen := seen[record.id := receivedAt];
          count := count + 1;
          var soFar := if record.key in batch then batch[record.key] else ZERO;
          batch := batch[record.key := SaturatingPlus(soFar, record.measures)];
        }
      }
      assert records[..|records|] == records;
    }

    /** The second loop of `Ingest`: insert every rollup of the batch. */
    static method InsertBatch(t: Table, batch: map<RollupKey, Measures>) returns (table: Table)
      ensures table == Merged(t, batch)
    {
      table := t;
      var keys := batch.Keys;
      ghost var inserted: map<RollupKey, Measures> := map[];
      MergedEmpty(t);
      while keys != {}
        invariant keys <= batch.Keys
        invariant inserted == map key | key in batch && key !in keys :: batch[key]
        invariant table == Merged(t, inserted)
      {
        var key :| key in keys;
        MergedInsert(t, inserted, key, batch[key]);
        table := AddRow(table, Hourly(key), batch[key]);
        inserted := inserted[key := batch[key]];
        keys := keys - {key};
      }
      assert inserted == batch;
    }

    /** Compacts and expires; `stopAfter` counts the steps that succeed before one fails. */
    method Compact(now: int, stopAfter: nat) returns (completed: bool)
      modifies this
      ensures View() == Compacted(old(View()), now, stopAfter)
      ensures completed <==> stopAfter >= 3
    {
      if stopAfter == 0 {
        return false;
      }
      rollups := Moved(rollups, now);
      if stopAfter == 1 {
        return false;
      }
      ExpireDays(now);
      if stopAfter == 2 {
        return false;
      }
      receipts := map id | id in receipts && receipts[id] >= now - RECEIPT_RETENTION :: receipts[id];
      return true;
    }

    /** The compaction transaction: insert the days, then delete the hours they were made of. */
    static method Moved(before: Table, now: int) returns (kept: Table)
      ensures kept == Regroup(MovePlacement(now), before)
    {
      var table := before;
      var todo := set k | k in before && OldHour(k, HourlyBefore(now));
      ghost var hours := todo;
      MovingStart(now, before, hours);
      while todo != {}
        invariant Moving(now, before, table, hours, todo)
      {
        var k :| k in todo;
        MovingStep(now, before, table, hours, todo, k);
        table := AddRow(table, DayOf(k), before[k]);
        todo := todo - {k};
      }
      kept := map k | k in table && !OldHour(k, HourlyBefore(now)) :: table[k];
      MovingDone(now, before, table, hours, kept);
    }

    /** `DELETE` of the days past their retention. */
    method ExpireDays(now: int)
      modifies this`rollups
      ensures rollups == Regroup(ExpirePlacement(now), old(rollups))
    {
      var dailyBefore := now - DAILY_RETENTION;
      var kept := map k | k in rollups && !(k.bucketSeconds == DAY && k.key.bucketStart < dailyBefore) :: rollups[k];
      RegroupDeletes(ExpirePlacement(now), rollups, kept);
      rollups := kept;
    }
  }
}
