/**
 Sums within one export. Rollups of a batch are summed in memory with
 saturating additions; for the measures an accepted record can carry, the
 saturated sum is the exact sum cut off at the largest 64-bit integer, so it
 does not depend on the order of the records and is exact whenever it fits.
 */
module UsageBatch {
  import opened Common
  import opened UsageTable
  import opened UsageStore

  const MAX_TOKENS_PER_REQUEST: int := 1_000_000_000
  const MAX_COST_NANOS_PER_REQUEST: int := 1_000_000_000_000_000

  predicate NonNegative(m: Measures) {
    && m.requests >= 0 && m.errors >= 0 && m.inputTokens >= 0 && m.outputTokens >= 0
    && m.cacheReadTokens >= 0 && m.cacheWriteTokens >= 0 && m.costNanos >= 0 && m.unpricedRequests >= 0
  }

  /** Every measure of `a` is at most that of `b`. */
  predicate AtMost(a: Measures, b: Measures) {
    && a.requests <= b.requests && a.errors <= b.errors
    && a.inputTokens <= b.inputTokens && a.outputTokens <= b.outputTokens
    && a.cacheReadTokens <= b.cacheReadTokens && a.cacheWriteTokens <= b.cacheWriteTokens
    && a.costNanos <= b.costNanos && a.unpricedRequests <= b.unpricedRequests
  }

  /** The measures of one request within the bounds of `parse_record`. */
  const MAX_PER_REQUEST := Measures(
    1, 1, MAX_TOKENS_PER_REQUEST, MAX_TOKENS_PER_REQUEST,
    MAX_TOKENS_PER_REQUEST, MAX_TOKENS_PER_REQUEST, MAX_COST_NANOS_PER_REQUEST, 1)

  const MAX_MEASURES := Measures(I64_MAX, I64_MAX, I64_MAX, I64_MAX, I64_MAX, I64_MAX, I64_MAX, I64_MAX)

  function Min(a: int, b: int): int {
    if a < b then a else b
  }

  /** Every measure cut off at the largest 64-bit integer. */
  function CutOff(m: Measures): Measures {
    Measures(
      Min(m.requests, I64_MAX), Min(m.errors, I64_MAX), Min(m.inputTokens, I64_MAX), Min(m.outputTokens, I64_MAX),
      Min(m.cacheReadTokens, I64_MAX), Min(m.cacheWriteTokens, I64_MAX), Min(m.costNanos, I64_MAX),
      Min(m.unpricedRequests, I64_MAX))
  }

  /** The exact sum of the records with one rollup key. */
  function ExactAt(records: seq<UsageRecord>, key: RollupKey): Measures {
    if records == [] then ZERO
    else
      var n := |records| - 1;
      var before := ExactAt(records[..n], key);
      if records[n].key == key then Plus(before, records[n].measures) else before
  }

  ghost predicate AllNonNegative(records: seq<UsageRecord>) {
    forall i :: 0 <= i < |records| ==> NonNegative(records[i].measures)
  }

  ghost function KeysOf(records: seq<UsageRecord>): set<RollupKey> {
    set i | 0 <= i < |records| :: records[i].key
  }

  lemma KeysOfLast(records: seq<UsageRecord>)
    requires records != []
    ensures KeysOf(records) == KeysOf(records[..|records| - 1]) + {records[|records| - 1].key}
  {
    var n := |records| - 1;
    forall key | key in KeysOf(records)
      ensures key in KeysOf(records[..n]) + {records[n].key}
    {
      var i :| 0 <= i < |records| && records[i].key == key;
      assert i < n ==> records[..n][i].key == key;
    }
    forall key | key in KeysOf(records[..n])
      ensures key in KeysOf(records)
    {
      var i :| 0 <= i < n && records[..n][i].key == key;
      assert records[i].key == key;
    }
  }

  lemma {:induction false} ExactAtAbsent(records: seq<UsageRecord>, key: RollupKey)
    requires key !in KeysOf(records)
    ensures ExactAt(records, key) == ZERO
  {
    if records != [] {
      KeysOfLast(records);
      ExactAtAbsent(records[..|records| - 1], key);
    }
  }

  /** No sum of non-negative measures is negative. */
  lemma {:induction false} ExactAtBounds(records: seq<UsageRecord>, key: RollupKey)
    requires AllNonNegative(records)
    ensures NonNegative(ExactAt(records, key))
  {
    if records != [] {
      var n := |records| - 1;
      assert AllNonNegative(records[..n]);
      ExactAtBounds(records[..n], key);
    }
  }

  function RollupAt(batch: map<RollupKey, Measures>, key: RollupKey): Measures {
    if key in batch then batch[key] else ZERO
  }

  lemma SaturatingPlusCutsOff(exact: Measures, m: Measures)
    requires NonNegative(exact) && NonNegative(m)
    ensures SaturatingPlus(CutOff(exact), m) == CutOff(Plus(exact, m))
  {
  }

  /** The saturating sum per rollup key is the exact sum, cut off at the largest 64-bit integer. */
  lemma {:induction false} SaturatedSums(records: seq<UsageRecord>, key: RollupKey)
    requires AllNonNegative(records)
    ensures key in BatchRollups(records) <==> key in KeysOf(records)
    ensures RollupAt(BatchRollups(records), key) == CutOff(ExactAt(records, key))
  {
    if records != [] {
      var n := |records| - 1;
      KeysOfLast(records);
      assert AllNonNegative(records[..n]);
      SaturatedSums(records[..n], key);
      ExactAtBounds(records[..n], key);
      if key !in KeysOf(records[..n]) {
        ExactAtAbsent(records[..n], key);
      }
      SaturatingPlusCutsOff(ExactAt(records[..n], key), records[n].measures);
    }
  }

  // Order independence

  lemma ExactAtSnoc(records: seq<UsageRecord>, r: UsageRecord, key: RollupKey)
    ensures
      ExactAt(records + [r], key) ==
      if r.key == key then Plus(ExactAt(records, key), r.measures) else ExactAt(records, key)
  {
    assert (records + [r])[..|records|] == records;
  }

  /** Removing one occurrence of a record takes its measures out of its key's sum. */
  lemma {:induction false} ExactAtRemove(records: seq<UsageRecord>, i: nat, key: RollupKey)
    requires i < |records|
    ensures
      var rest := ExactAt(records[..i] + records[i + 1..], key);
      ExactAt(records, key) == if records[i].key == key then Plus(rest, records[i].measures) else rest
  {
    var n := |records| - 1;
    var without := records[..i] + records[i + 1..];
    if i == n {
      assert without == records[..n];
    } else {
      var shorter := records[..n][..i] + records[..n][i + 1..];
      assert without == shorter + [records[n]];
      ExactAtSnoc(shorter, records[n], key);
      assert records[..n][i] == records[i];
      ExactAtRemove(records[..n], i, key);
    }
  }

  lemma RemoveOne(b: seq<UsageRecord>, i: nat)
    requires i < |b|
    ensures multiset(b[..i] + b[i + 1..]) == multiset(b) - multiset{b[i]}
  {
    assert b == b[..i] + [b[i]] + b[i + 1..];
  }

  lemma FindLast(a: seq<UsageRecord>, b: seq<UsageRecord>) returns (i: nat)
    requires a != [] && multiset(a) == multiset(b)
    ensures i < |b| && b[i] == a[|a| - 1]
    ensures multiset(a[..|a| - 1]) == multiset(b[..i] + b[i + 1..])
  {
    var n := |a| - 1;
    assert a[n] in multiset(a);
    i :| 0 <= i < |b| && b[i] == a[n];
    RemoveOne(b, i);
    RemoveOne(a, n);
    assert a[..n] + a[n + 1..] == a[..n];
  }

  /** Exact sums only depend on which records there are. */
  lemma {:induction false} ExactAtPermuted(a: seq<UsageRecord>, b: seq<UsageRecord>, key: RollupKey)
    requires multiset(a) == multiset(b)
    ensures ExactAt(a, key) == ExactAt(b, key)
    decreases |a|
  {
    if a == [] {
      assert |multiset(b)| == 0;
    } else {
      var n := |a| - 1;
      var i := FindLast(a, b);
      ExactAtPermuted(a[..n], b[..i] + b[i + 1..], key);
      ExactAtRemove(b, i, key);
    }
  }

  lemma KeysOfPermuted(a: seq<UsageRecord>, b: seq<UsageRecord>)
    requires multiset(a) == multiset(b)
    ensures KeysOf(a) <= KeysOf(b)
  {
    forall key | key in KeysOf(a)
      ensures key in KeysOf(b)
    {
      var i :| 0 <= i < |a| && a[i].key == key;
      assert a[i] in multiset(b);
    }
  }

  /** The saturated rollups of a batch do not depend on the order of its records. */
  lemma BatchOrderIndependent(a: seq<UsageRecord>, b: seq<UsageRecord>)
    requires multiset(a) == multiset(b) && AllNonNegative(a)
    ensures BatchRollups(a) == BatchRollups(b)
  {
    forall i | 0 <= i < |b|
      ensures NonNegative(b[i].measures)
    {
      assert b[i] in multiset(a);
    }
    KeysOfPermuted(a, b);
    KeysOfPermuted(b, a);
    forall key
      ensures key in BatchRollups(a) <==> key in BatchRollups(b)
      ensures RollupAt(BatchRollups(a), key) == RollupAt(BatchRollups(b), key)
    {
      ExactAtPermuted(a, b, key);
      SaturatedSums(a, key);
      SaturatedSums(b, key);
    }
    assert forall key :: key in BatchRollups(a) ==> BatchRollups(a)[key] == RollupAt(BatchRollups(b), key);
  }

  // Exactness

  /** No measure of any rollup of the batch exceeds the 64-bit range. */
  ghost predicate BatchFits(records: seq<UsageRecord>) {
    && AllNonNegative(records)
    && forall key :: key in KeysOf(records) ==> AtMost(ExactAt(records, key), MAX_MEASURES)
  }

  lemma AddRowAt(t: Table, row: RowKey, m: Measures, k: RowKey)
    ensures k in AddRow(t, row, m) <==> k in t || k == row
    ensures At(AddRow(t, row, m), k) == if k == row then Plus(At(t, k), m) else At(t, k)
  {
  }

  lemma {:induction false} AddRecordsHas(t: Table, records: seq<UsageRecord>, k: RowKey)
    ensures k in AddRecords(t, records) <==> k in t || (k == Hourly(k.key) && k.key in KeysOf(records))
  {
    if records != [] {
      var n := |records| - 1;
      KeysOfLast(records);
      AddRecordsHas(t, records[..n], k);
      AddRowAt(AddRecords(t, records[..n]), Hourly(records[n].key), records[n].measures, k);
    }
  }

  /** What the records add to row `k`. */
  function Added(records: seq<UsageRecord>, k: RowKey): Measures {
    if k == Hourly(k.key) then ExactAt(records, k.key) else ZERO
  }

  lemma AddedLast(records: seq<UsageRecord>, k: RowKey)
    requires records != []
    ensures
      var n := |records| - 1;
      Added(records, k) ==
      if k == Hourly(records[n].key) then Plus(Added(records[..n], k), records[n].measures)
      else Added(records[..n], k)
  {
  }

  /** A row of a table with records added: the old row, and the exact sum of the records of that hour. */
  lemma {:induction false} AddRecordsAt(t: Table, records: seq<UsageRecord>, k: RowKey)
    ensures k in AddRecords(t, records) <==> k in t || (k == Hourly(k.key) && k.key in KeysOf(records))
    ensures At(AddRecords(t, records), k) == Plus(At(t, k), Added(records, k))
  {
    AddRecordsHas(t, records, k);
    if records != [] {
      var n := |records| - 1;
      AddRecordsAt(t, records[..n], k);
      AddedLast(records, k);
      AddRowAt(AddRecords(t, records[..n]), Hourly(records[n].key), records[n].measures, k);
      PlusAssociates(At(t, k), Added(records[..n], k), records[n].measures);
    }
  }

  lemma MergedRow(t: Table, batch: map<RollupKey, Measures>, k: RowKey)
    ensures k in Merged(t, batch) <==> k in t || (k == Hourly(k.key) && k.key in batch)
    ensures At(Merged(t, batch), k) == Plus(At(t, k), if k == Hourly(k.key) then RollupAt(batch, k.key) else ZERO)
  {
  }

  lemma RollupsExact(records: seq<UsageRecord>, key: RollupKey)
    requires BatchFits(records)
    ensures key in BatchRollups(records) <==> key in KeysOf(records)
    ensures RollupAt(BatchRollups(records), key) == ExactAt(records, key)
  {
    SaturatedSums(records, key);
    if key !in KeysOf(records) {
      ExactAtAbsent(records, key);
    }
  }

  lemma MergedExactAt(t: Table, records: seq<UsageRecord>, k: RowKey)
    requires BatchFits(records)
    ensures k in Merged(t, BatchRollups(records)) <==> k in AddRecords(t, records)
    ensures At(Merged(t, BatchRollups(records)), k) == At(AddRecords(t, records), k)
  {
    MergedRow(t, BatchRollups(records), k);
    RollupsExact(records, k.key);
    AddRecordsAt(t, records, k);
  }

  /** A batch whose sums fit is stored as if each record had been added to its hour by itself. */
  lemma MergedExact(t: Table, records: seq<UsageRecord>)
    requires BatchFits(records)
    ensures Merged(t, BatchRollups(records)) == AddRecords(t, records)
  {
    forall k
      ensures k in Merged(t, BatchRollups(records)) <==> k in AddRecords(t, records)
      ensures At(Merged(t, BatchRollups(records)), k) == At(AddRecords(t, records), k)
    {
      MergedExactAt(t, records, k);
    }
    SameTable(Merged(t, BatchRollups(records)), AddRecords(t, records));
  }

  // Accepted records

  function Scale(m: Measures, n: nat): Measures {
    Measures(
      n * m.requests, n * m.errors, n * m.inputTokens, n * m.outputTokens,
      n * m.cacheReadTokens, n * m.cacheWriteTokens, n * m.costNanos, n * m.unpricedRequests)
  }

  ghost predicate AllAccepted(records: seq<UsageRecord>) {
    forall i :: 0 <= i < |records| ==>
      NonNegative(records[i].measures) && AtMost(records[i].measures, MAX_PER_REQUEST)
  }

  lemma {:induction false} AcceptedSums(records: seq<UsageRecord>, key: RollupKey)
    requires AllAccepted(records)
    ensures AtMost(ExactAt(records, key), Scale(MAX_PER_REQUEST, |records|))
  {
    if records != [] {
      var n := |records| - 1;
      assert AllAccepted(records[..n]);
      AcceptedSums(records[..n], key);
      assert AtMost(records[n].measures, MAX_PER_REQUEST);
      assert Scale(MAX_PER_REQUEST, n + 1) == Plus(Scale(MAX_PER_REQUEST, n), MAX_PER_REQUEST);
    }
  }

  /** No batch of at most 9223 accepted records saturates any sum. */
  lemma AcceptedBatchFits(records: seq<UsageRecord>)
    requires AllAccepted(records) && |records| <= 9223
    ensures BatchFits(records)
  {
    forall key | key in KeysOf(records)
      ensures AtMost(ExactAt(records, key), MAX_MEASURES)
    {
      AcceptedSums(records, key);
    }
  }
}
