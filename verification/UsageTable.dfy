/**
 The `usage_rollups` table: rows keyed by the rollup key and the bucket
 length, and the two ways its rows change. An insert adds its measures to a
 row it conflicts with; maintenance moves every row to its place, or drops it.
 */
module UsageTable {
  import opened Common
  import opened UsageWindow

  datatype Billing = Api | Subscription

  /** The values usage is summed by within a bucket. */
  datatype RollupKey = RollupKey(
    bucketStart: int, subject: string, deviceId: string, clientId: string,
    provider: string, model: string, billing: Billing)

  datatype Measures = Measures(
    requests: int, errors: int, inputTokens: int, outputTokens: int,
    cacheReadTokens: int, cacheWriteTokens: int, costNanos: int, unpricedRequests: int)

  datatype UsageRecord = UsageRecord(id: string, key: RollupKey, measures: Measures)

  /** Primary key of a stored row. */
  datatype RowKey = RowKey(key: RollupKey, bucketSeconds: int)

  type Table = map<RowKey, Measures>

  const ZERO := Measures(0, 0, 0, 0, 0, 0, 0, 0)

  function Plus(a: Measures, b: Measures): Measures {
    Measures(
      a.requests + b.requests, a.errors + b.errors,
      a.inputTokens + b.inputTokens, a.outputTokens + b.outputTokens,
      a.cacheReadTokens + b.cacheReadTokens, a.cacheWriteTokens + b.cacheWriteTokens,
      a.costNanos + b.costNanos, a.unpricedRequests + b.unpricedRequests)
  }

  lemma PlusAssociates(a: Measures, b: Measures, c: Measures)
    ensures Plus(Plus(a, b), c) == Plus(a, Plus(b, c))
  {
  }

  function At(t: Table, k: RowKey): Measures {
    if k in t then t[k] else ZERO
  }

  /** `INSERT ... ON CONFLICT DO UPDATE` adding the measures of the conflicting row. */
  function AddRow(t: Table, k: RowKey, m: Measures): Table {
    t[k := Plus(At(t, k), m)]
  }

  function Hourly(key: RollupKey): RowKey {
    RowKey(key, HOUR)
  }

  /** Adds each record to its hour. */
  function AddRecords(t: Table, records: seq<UsageRecord>): Table {
    if records == [] then t
    else
      var last := records[|records| - 1];
      AddRow(AddRecords(t, records[..|records| - 1]), Hourly(last.key), last.measures)
  }

  lemma AddRecordsConcat(t: Table, a: seq<UsageRecord>, b: seq<UsageRecord>)
    ensures AddRecords(t, a + b) == AddRecords(AddRecords(t, a), b)
  {
    if b == [] {
      assert a + b == a;
    } else {
      assert (a + b)[..|a + b| - 1] == a + b[..|b| - 1];
      AddRecordsConcat(t, a, b[..|b| - 1]);
    }
  }

  // Sums of rows

  ghost function Sum(t: Table, keys: set<RowKey>): Measures
    requires keys <= t.Keys
  {
    if keys == {} then ZERO
    else
      var k :| k in keys;
      Plus(t[k], Sum(t, keys - {k}))
  }

  lemma {:induction false} SumRemove(t: Table, keys: set<RowKey>, k: RowKey)
    requires keys <= t.Keys && k in keys
    ensures Sum(t, keys) == Plus(t[k], Sum(t, keys - {k}))
    decreases keys
  {
    var first :| first in keys && Sum(t, keys) == Plus(t[first], Sum(t, keys - {first}));
    if first != k {
      SumRemove(t, keys - {first}, k);
      SumRemove(t, keys - {k}, first);
      var rest := keys - {first} - {k};
      assert rest == keys - {k} - {first};
      assert Plus(t[first], Plus(t[k], Sum(t, rest))) == Plus(t[k], Plus(t[first], Sum(t, rest)));
    }
  }

  lemma {:induction false} SumAgree(t: Table, u: Table, keys: set<RowKey>)
    requires keys <= t.Keys && keys <= u.Keys
    requires forall k :: k in keys ==> t[k] == u[k]
    ensures Sum(t, keys) == Sum(u, keys)
    decreases keys
  {
    if keys != {} {
      var k :| k in keys;
      SumRemove(t, keys, k);
      SumRemove(u, keys, k);
      SumAgree(t, u, keys - {k});
    }
  }

  lemma SumAddRowElsewhere(t: Table, k: RowKey, m: Measures, keys: set<RowKey>)
    requires keys <= t.Keys && k !in keys
    ensures Sum(AddRow(t, k, m), keys) == Sum(t, keys)
  {
    SumAgree(t, AddRow(t, k, m), keys);
  }

  lemma SumAddRowHere(t: Table, k: RowKey, m: Measures, keys: set<RowKey>)
    requires keys <= t.Keys + {k} && k in keys
    ensures Sum(AddRow(t, k, m), keys) == Plus(Sum(t, keys * t.Keys), m)
  {
    var u, rest := AddRow(t, k, m), keys - {k};
    SumRemove(u, keys, k);
    SumAddRowElsewhere(t, k, m, rest);
    if k in t {
      SumRemove(t, keys, k);
      assert keys * t.Keys == keys;
    } else {
      assert keys * t.Keys == rest;
    }
  }

  /** A set of rows of `AddRow(t, k, m)` sums to what it summed to before, plus `m` if it holds `k`. */
  lemma SumAddRow(t: Table, k: RowKey, m: Measures, keys: set<RowKey>)
    requires keys <= t.Keys + {k}
    ensures
      Sum(AddRow(t, k, m), keys) ==
      if k in keys then Plus(Sum(t, keys * t.Keys), m) else Sum(t, keys * t.Keys)
  {
    if k in keys {
      SumAddRowHere(t, k, m, keys);
    } else {
      assert keys * t.Keys == keys;
      SumAddRowElsewhere(t, k, m, keys);
    }
  }

  // Maintenance

  /** What one maintenance statement does: days made of hours before one instant, days before another dropped. */
  datatype Placement = Placement(hourlyBefore: Option<int>, dailyBefore: Option<int>)

  /** SQL integer division truncates toward zero. */
  function SqlDivide(a: int, b: int): int
    requires b > 0
  {
    if a >= 0 then a / b else -((-a) / b)
  }

  function SqlDayStart(bucketStart: int): int {
    SqlDivide(bucketStart, DAY) * DAY
  }

  predicate Before(start: int, cutoff: Option<int>) {
    cutoff.Some? && start < cutoff.value
  }

  /** The row holding the measures of row `k` after the statement, if they are kept. */
  function Place(p: Placement, k: RowKey): Option<RowKey> {
    var moved :=
      if k.bucketSeconds == HOUR && Before(k.key.bucketStart, p.hourlyBefore)
      then RowKey(k.key.(bucketStart := SqlDayStart(k.key.bucketStart)), DAY)
      else k;
    if moved.bucketSeconds == DAY && Before(moved.key.bucketStart, p.dailyBefore) then None else Some(moved)
  }

  ghost function Sources(p: Placement, t: Table, row: RowKey): set<RowKey> {
    set k | k in t && Place(p, k) == Some(row)
  }

  ghost function Places(p: Placement, t: Table): set<RowKey> {
    set k | k in t && Place(p, k).Some? :: Place(p, k).value
  }

  /** The table with every row at its place; rows that share a place are summed. */
  ghost function Regroup(p: Placement, t: Table): Table {
    map row | row in Places(p, t) :: Sum(t, Sources(p, t, row))
  }

  /** The sources of a row after an insert: the inserted row joins those of its own place. */
  lemma SumSourcesAddRow(p: Placement, t: Table, k: RowKey, m: Measures, row: RowKey)
    ensures
      var before := Sum(t, Sources(p, t, row));
      Sum(AddRow(t, k, m), Sources(p, AddRow(t, k, m), row)) ==
      if Place(p, k) == Some(row) then Plus(before, m) else before
  {
    var keys := Sources(p, AddRow(t, k, m), row);
    SumAddRow(t, k, m, keys);
    assert keys * t.Keys == Sources(p, t, row);
  }

  /** `Regroup` at a row, present or not, is the sum of the row's sources. */
  lemma RegroupAt(p: Placement, t: Table, row: RowKey)
    ensures At(Regroup(p, t), row) == Sum(t, Sources(p, t, row))
  {
    if row !in Places(p, t) {
      assert Sources(p, t, row) == {};
    }
  }

  lemma PlacesAddRow(p: Placement, t: Table, k: RowKey, m: Measures)
    ensures
      Places(p, AddRow(t, k, m)) ==
      match Place(p, k)
      case None => Places(p, t)
      case Some(row) => Places(p, t) + {row}
  {
    assert AddRow(t, k, m).Keys == t.Keys + {k};
    forall row
      ensures row in Places(p, AddRow(t, k, m)) <==> row in Places(p, t) || Place(p, k) == Some(row)
    {
      if Place(p, k) == Some(row) {
        assert k in AddRow(t, k, m);
      } else if row in Places(p, t) {
        var j :| j in t && Place(p, j) == Some(row);
        assert j in AddRow(t, k, m);
      }
    }
  }

  /** The row `row` of the regrouped table after an insert. */
  lemma RegroupAddRowAt(p: Placement, t: Table, k: RowKey, m: Measures, row: RowKey)
    ensures
      At(Regroup(p, AddRow(t, k, m)), row) ==
      if Place(p, k) == Some(row) then Plus(At(Regroup(p, t), row), m) else At(Regroup(p, t), row)
  {
    SumSourcesAddRow(p, t, k, m, row);
    RegroupAt(p, t, row);
    RegroupAt(p, AddRow(t, k, m), row);
  }

  /** The regrouped table with `m` added at the place `place`, if there is one. */
  ghost function AddAt(t: Table, place: Option<RowKey>, m: Measures): Table {
    if place.None? then t else AddRow(t, place.value, m)
  }

  lemma SameTable(a: Table, b: Table)
    requires a.Keys == b.Keys
    requires forall k :: k in a ==> At(a, k) == At(b, k)
    ensures a == b
  {
  }

  /** Regrouping commutes with an insert: the inserted measures land in the row's place. */
  lemma RegroupAddRow(p: Placement, t: Table, k: RowKey, m: Measures)
    ensures Regroup(p, AddRow(t, k, m)) == AddAt(Regroup(p, t), Place(p, k), m)
  {
    var left := Regroup(p, AddRow(t, k, m));
    var right := AddAt(Regroup(p, t), Place(p, k), m);
    assert left.Keys == right.Keys by {
      PlacesAddRow(p, t, k, m);
    }
    forall row | row in left
      ensures At(left, row) == At(right, row)
    {
      RegroupAddRowAt(p, t, k, m, row);
      AddAtRow(Regroup(p, t), Place(p, k), m, row);
    }
    SameTable(left, right);
  }

  lemma RegroupEmpty(p: Placement)
    ensures Regroup(p, map[]) == map[]
  {
    assert Places(p, map[]) == {};
  }

  /** Every non-empty table is a smaller table with one row inserted. */
  lemma LastRow(t: Table, k: RowKey)
    requires k in t
    ensures t == AddRow(t - {k}, k, t[k])
    ensures |t - {k}| < |t|
  {
    assert (t - {k}).Keys == t.Keys - {k};
  }

  /** Placing by `inner` and then by `outer` is placing by `whole`. */
  ghost predicate Composes(outer: Placement, inner: Placement, whole: Placement) {
    forall k {:trigger Place(inner, k)} {:trigger Place(whole, k)} ::
      Place(whole, k) == match Place(inner, k) case None => None case Some(k') => Place(outer, k')
  }

  /** Maintenance statements compose row by row, however their sums fall together. */
  lemma {:induction false} RegroupCompose(outer: Placement, inner: Placement, whole: Placement, t: Table)
    requires Composes(outer, inner, whole)
    ensures Regroup(outer, Regroup(inner, t)) == Regroup(whole, t)
    decreases |t|
  {
    RegroupEmpty(outer);
    RegroupEmpty(inner);
    RegroupEmpty(whole);
    if t != map[] {
      var k :| k in t;
      LastRow(t, k);
      var rest := t - {k};
      RegroupCompose(outer, inner, whole, rest);
      RegroupAddRow(inner, rest, k, t[k]);
      RegroupAddRow(whole, rest, k, t[k]);
      if Place(inner, k).Some? {
        RegroupAddRow(outer, Regroup(inner, rest), Place(inner, k).value, t[k]);
      }
    }
  }

  /** `late` has both cutoffs of `early`, no earlier. */
  predicate Absorbs(late: Placement, early: Placement) {
    && (early.hourlyBefore.Some? ==> late.hourlyBefore.Some? && early.hourlyBefore.value <= late.hourlyBefore.value)
    && (early.dailyBefore.Some? ==> late.dailyBefore.Some? && early.dailyBefore.value <= late.dailyBefore.value)
  }

  /** A later maintenance statement makes an earlier one invisible. */
  lemma RegroupAbsorbs(late: Placement, early: Placement, t: Table)
    requires Absorbs(late, early)
    ensures Regroup(late, Regroup(early, t)) == Regroup(late, t)
  {
    assert Composes(late, early, late);
    RegroupCompose(late, early, late, t);
  }

  /** Regrouping after adding records depends on the table before them only through its own regrouping. */
  lemma {:induction false} RegroupAddRecords(p: Placement, t: Table, u: Table, records: seq<UsageRecord>)
    requires Regroup(p, t) == Regroup(p, u)
    ensures Regroup(p, AddRecords(t, records)) == Regroup(p, AddRecords(u, records))
  {
    if records != [] {
      var n := |records| - 1;
      RegroupAddRecords(p, t, u, records[..n]);
      RegroupAddRow(p, AddRecords(t, records[..n]), Hourly(records[n].key), records[n].measures);
      RegroupAddRow(p, AddRecords(u, records[..n]), Hourly(records[n].key), records[n].measures);
    }
  }

  // The direct reading of a regrouped list of records

  /** The measures of the records whose row ends up at `row`. */
  function SumPlacedAt(p: Placement, records: seq<UsageRecord>, row: RowKey): Measures {
    if records == [] then ZERO
    else
      var n := |records| - 1;
      var rest := SumPlacedAt(p, records[..n], row);
      if Place(p, Hourly(records[n].key)) == Some(row) then Plus(rest, records[n].measures) else rest
  }

  /** Some record is placed at `row`. */
  ghost predicate AnyPlacedAt(p: Placement, records: seq<UsageRecord>, row: RowKey) {
    exists i :: 0 <= i < |records| && Place(p, Hourly(records[i].key)) == Some(row)
  }

  lemma AnyPlacedAtLast(p: Placement, records: seq<UsageRecord>, row: RowKey)
    requires records != []
    ensures
      var n := |records| - 1;
      AnyPlacedAt(p, records, row) <==>
      AnyPlacedAt(p, records[..n], row) || Place(p, Hourly(records[n].key)) == Some(row)
  {
    var n := |records| - 1;
    if AnyPlacedAt(p, records[..n], row) {
      var i :| 0 <= i < n && Place(p, Hourly(records[..n][i].key)) == Some(row);
      assert records[i] == records[..n][i];
    }
    if AnyPlacedAt(p, records, row) {
      var i :| 0 <= i < |records| && Place(p, Hourly(records[i].key)) == Some(row);
      assert i < n ==> records[..n][i] == records[i];
    }
  }

  /** A regrouped table of records has a row exactly where a record is placed, holding the sum of those records. */
  lemma {:induction false} RegroupedRecords(p: Placement, records: seq<UsageRecord>, row: RowKey)
    ensures row in Regroup(p, AddRecords(map[], records)) <==> AnyPlacedAt(p, records, row)
    ensures At(Regroup(p, AddRecords(map[], records)), row) == SumPlacedAt(p, records, row)
  {
    if records == [] {
      RegroupEmpty(p);
    } else {
      var n := |records| - 1;
      var key, m := Hourly(records[n].key), records[n].measures;
      RegroupedRecords(p, records[..n], row);
      AnyPlacedAtLast(p, records, row);
      RegroupAddRow(p, AddRecords(map[], records[..n]), key, m);
      AddAtRow(Regroup(p, AddRecords(map[], records[..n])), Place(p, key), m, row);
    }
  }

  lemma AddAtRow(t: Table, place: Option<RowKey>, m: Measures, row: RowKey)
    ensures row in AddAt(t, place, m) <==> row in t || place == Some(row)
    ensures At(AddAt(t, place, m), row) == if place == Some(row) then Plus(At(t, row), m) else At(t, row)
  {
  }
}
