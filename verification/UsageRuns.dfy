/**
 Whole runs of the usage store. Ingests, repeats, and maintenance runs that
 may stop after any step are followed next to a ledger that never forgets an
 identifier and never compacts. The compacted table is the ledger's list of
 records, each counted once and put in its place.
 */
module UsageRuns {
  import opened Common
  import opened UsageWindow
  import opened UsageTable
  import opened UsageStore
  import opened UsageBatch

  /** A committed ingest, or a maintenance run that completed its first `done` steps. */
  datatype Event =
    | Ingest(records: seq<UsageRecord>, at: int)
    | Compact(now: int, done: nat)

  function When(e: Event): int {
    match e
    case Ingest(_, at) => at
    case Compact(now, _) => now
  }

  ghost function Step(s: State, e: Event): State {
    match e
    case Ingest(records, at) =>
      State(Merged(s.rollups, BatchRollups(FreshRecords(s.receipts, records, at))),
            ReceiptsAfter(s.receipts, records, at))
    case Compact(now, done) => Compacted(s, now, done)
  }

  ghost function Run(events: seq<Event>): State {
    if events == [] then EMPTY
    else Step(Run(events[..|events| - 1]), events[|events| - 1])
  }

  // The ledger

  /** First receipt of every identifier ever received, and the records counted. */
  datatype Ledger = Ledger(first: map<string, int>, records: seq<UsageRecord>)

  function LedgerOf(events: seq<Event>): Ledger {
    if events == [] then Ledger(map[], [])
    else
      var before := LedgerOf(events[..|events| - 1]);
      match events[|events| - 1]
      case Ingest(records, at) =>
        Ledger(ReceiptsAfter(before.first, records, at), before.records + FreshRecords(before.first, records, at))
      case Compact(_, _) => before
  }

  /** Every record received, in order, repeats included. */
  function Received(events: seq<Event>): seq<UsageRecord> {
    if events == [] then []
    else
      var before := Received(events[..|events| - 1]);
      match events[|events| - 1]
      case Ingest(records, _) => before + records
      case Compact(_, _) => before
  }

  predicate HasId(records: seq<UsageRecord>, id: string) {
    exists i :: 0 <= i < |records| && records[i].id == id
  }

  /** Each record in its first-received form. */
  function FirstReceived(records: seq<UsageRecord>): seq<UsageRecord> {
    if records == [] then []
    else
      var n := |records| - 1;
      if HasId(records[..n], records[n].id) then FirstReceived(records[..n])
      else FirstReceived(records[..n]) + [records[n]]
  }

  lemma HasIdLast(records: seq<UsageRecord>, id: string)
    requires records != []
    ensures HasId(records, id) <==> HasId(records[..|records| - 1], id) || records[|records| - 1].id == id
  {
    var n := |records| - 1;
    if HasId(records[..n], id) {
      var i :| 0 <= i < n && records[..n][i].id == id;
      assert records[i].id == id;
    }
    if HasId(records, id) {
      var i :| 0 <= i < |records| && records[i].id == id;
      assert i < n ==> records[..n][i].id == id;
    }
  }

  ghost predicate Knows(first: map<string, int>, records: seq<UsageRecord>) {
    forall id :: id in first <==> HasId(records, id)
  }

  /** The identifiers of a batch join the identifiers received before it. */
  lemma {:induction false} ReceiptsKnow(
    before: seq<UsageRecord>, first: map<string, int>, records: seq<UsageRecord>, at: int)
    requires Knows(first, before)
    ensures Knows(ReceiptsAfter(first, records, at), before + records)
  {
    if records == [] {
      assert before + records == before;
    } else {
      var n := |records| - 1;
      ReceiptsKnow(before, first, records[..n], at);
      var all := before + records;
      assert all[..|all| - 1] == before + records[..n];
      forall id
        ensures id in ReceiptsAfter(first, records, at) <==> HasId(all, id)
      {
        HasIdLast(all, id);
      }
    }
  }

  lemma FirstReceivedSnoc(records: seq<UsageRecord>, r: UsageRecord)
    ensures FirstReceived(records + [r]) == FirstReceived(records) + (if HasId(records, r.id) then [] else [r])
  {
    assert (records + [r])[..|records|] == records;
  }

  lemma FreshRecordsSnoc(receipts: map<string, int>, records: seq<UsageRecord>, r: UsageRecord, at: int)
    ensures FreshRecords(receipts, records + [r], at) ==
            FreshRecords(receipts, records, at) + (if r.id in ReceiptsAfter(receipts, records, at) then [] else [r])
  {
    assert (records + [r])[..|records|] == records;
  }

  lemma FirstReceivedStep(
    before: seq<UsageRecord>, first: map<string, int>, records: seq<UsageRecord>, r: UsageRecord, at: int)
    requires Knows(ReceiptsAfter(first, records, at), before + records)
    requires FirstReceived(before + records) == FirstReceived(before) + FreshRecords(first, records, at)
    ensures FirstReceived(before + records + [r]) == FirstReceived(before) + FreshRecords(first, records + [r], at)
  {
    FirstReceivedSnoc(before + records, r);
    FreshRecordsSnoc(first, records, r, at);
  }

  /** The ledger keeps of a batch what comes first among everything received. */
  lemma {:induction false} FirstReceivedBatch(
    before: seq<UsageRecord>, first: map<string, int>, records: seq<UsageRecord>, at: int)
    requires Knows(first, before)
    ensures FirstReceived(before + records) == FirstReceived(before) + FreshRecords(first, records, at)
  {
    if records == [] {
      assert before + records == before;
    } else {
      var n := |records| - 1;
      ReceiptsKnow(before, first, records[..n], at);
      FirstReceivedBatch(before, first, records[..n], at);
      FirstReceivedStep(before, first, records[..n], records[n], at);
      assert records == records[..n] + [records[n]];
      assert before + records == before + records[..n] + [records[n]];
    }
  }

  /** The ledger counts exactly the first-received records of the run. */
  lemma {:induction false} LedgerCountsFirstReceived(events: seq<Event>)
    ensures Knows(LedgerOf(events).first, Received(events))
    ensures LedgerOf(events).records == FirstReceived(Received(events))
  {
    if events != [] {
      var n := |events| - 1;
      LedgerCountsFirstReceived(events[..n]);
      if events[n].Ingest? {
        var before, first := Received(events[..n]), LedgerOf(events[..n]).first;
        ReceiptsKnow(before, first, events[n].records, events[n].at);
        FirstReceivedBatch(before, first, events[n].records, events[n].at);
      }
    }
  }

  // Forgotten identifiers

  ghost predicate InOrder(events: seq<Event>) {
    forall i, j :: 0 <= i < j < |events| ==> When(events[i]) <= When(events[j])
  }

  /** The time of the last maintenance run that completed. */
  function LastExpiry(events: seq<Event>): Option<int> {
    if events == [] then None
    else
      var n := |events| - 1;
      if events[n].Compact? && events[n].done >= 3 then Some(events[n].now) else LastExpiry(events[..n])
  }

  /** A maintenance run completed more than seven days after the identifier was first received. */
  predicate Forgotten(events: seq<Event>, id: string) {
    var first := LedgerOf(events).first;
    id in first && LastExpiry(events).Some? && first[id] + RECEIPT_RETENTION < LastExpiry(events).value
  }

  /** No record of the batch repeats a forgotten identifier. */
  ghost predicate Prompt(events: seq<Event>, records: seq<UsageRecord>) {
    forall i :: 0 <= i < |records| ==> !Forgotten(events, records[i].id)
  }

  ghost predicate AllPrompt(events: seq<Event>) {
    if events == [] then true
    else
      var n := |events| - 1;
      AllPrompt(events[..n]) && (events[n].Ingest? ==> Prompt(events[..n], events[n].records))
  }

  /** Times do not decrease, no forgotten identifier repeats, and no batch overflows a 64-bit sum. */
  ghost predicate Orderly(events: seq<Event>) {
    InOrder(events) && AllPrompt(events) && AllFit(events)
  }

  ghost predicate AllFit(events: seq<Event>) {
    if events == [] then true
    else
      var n := |events| - 1;
      && AllFit(events[..n])
      && (events[n].Ingest? ==>
            BatchFits(FreshRecords(LedgerOf(events[..n]).first, events[n].records, events[n].at)))
  }

  lemma OrderlyPrefix(events: seq<Event>)
    requires Orderly(events) && events != []
    ensures Orderly(events[..|events| - 1])
  {
    InOrderPrefix(events);
  }

  lemma InOrderPrefix(events: seq<Event>)
    requires InOrder(events) && events != []
    ensures InOrder(events[..|events| - 1])
  {
    var before := events[..|events| - 1];
    assert forall i :: 0 <= i < |before| ==> before[i] == events[i];
  }

  /** Whatever is first received or expired happened by the time of the last event. */
  lemma {:induction false} AllBy(events: seq<Event>, at: int)
    requires forall i :: 0 <= i < |events| ==> When(events[i]) <= at
    ensures LastExpiry(events).Some? ==> LastExpiry(events).value <= at
    ensures forall id :: id in LedgerOf(events).first ==> LedgerOf(events).first[id] <= at
  {
    if events != [] {
      var n := |events| - 1;
      assert forall i :: 0 <= i < n ==> events[..n][i] == events[i];
      AllBy(events[..n], at);
      if events[n].Ingest? {
        forall id | id in LedgerOf(events).first
          ensures LedgerOf(events).first[id] <= at
        {
          ReceiptsAfterAt(LedgerOf(events[..n]).first, events[n].records, events[n].at, id);
        }
      }
    }
  }

  /** A batch adds its new identifiers with its own time and changes no other receipt. */
  lemma {:induction false} ReceiptsAfterAt(receipts: map<string, int>, records: seq<UsageRecord>, at: int, id: string)
    ensures id in receipts ==> id in ReceiptsAfter(receipts, records, at)
    ensures id in ReceiptsAfter(receipts, records, at) ==>
              ReceiptsAfter(receipts, records, at)[id] == if id in receipts then receipts[id] else at
    ensures id in ReceiptsAfter(receipts, records, at) <==> id in receipts || HasId(records, id)
  {
    if records != [] {
      ReceiptsAfterAt(receipts, records[..|records| - 1], at, id);
      HasIdLast(records, id);
    }
  }

  // The store remembers exactly what is not forgotten

  ghost predicate Remembers(events: seq<Event>) {
    var receipts, first := Run(events).receipts, LedgerOf(events).first;
    forall id ::
      && (id in receipts <==> id in first && !Forgotten(events, id))
      && (id in receipts ==> receipts[id] == first[id])
  }

  /** Two sets of receipts that agree on the identifiers of a batch count the same records of it. */
  lemma {:induction false} SameFreshRecords(
    receipts: map<string, int>, first: map<string, int>, records: seq<UsageRecord>, at: int)
    requires forall i :: 0 <= i < |records| ==> (records[i].id in receipts <==> records[i].id in first)
    ensures FreshRecords(receipts, records, at) == FreshRecords(first, records, at)
  {
    if records != [] {
      var n := |records| - 1;
      assert forall i :: 0 <= i < n ==> records[..n][i] == records[i];
      SameFreshRecords(receipts, first, records[..n], at);
      ReceiptsAfterAt(receipts, records[..n], at, records[n].id);
      ReceiptsAfterAt(first, records[..n], at, records[n].id);
    }
  }

  lemma IngestRemembers(events: seq<Event>, id: string)
    requires events != [] && events[|events| - 1].Ingest? && InOrder(events)
    requires Remembers(events[..|events| - 1]) && Prompt(events[..|events| - 1], events[|events| - 1].records)
    ensures
      var receipts, first := Run(events).receipts, LedgerOf(events).first;
      && (id in receipts <==> id in first && !Forgotten(events, id))
      && (id in receipts ==> receipts[id] == first[id])
  {
    var n := |events| - 1;
    var before, records, at := events[..n], events[n].records, events[n].at;
    AllBy(before, at);
    ReceiptsAfterAt(Run(before).receipts, records, at, id);
    ReceiptsAfterAt(LedgerOf(before).first, records, at, id);
    if HasId(records, id) {
      var i :| 0 <= i < |records| && records[i].id == id;
      assert !Forgotten(before, records[i].id);
    }
  }

  lemma CompactRemembers(events: seq<Event>, id: string)
    requires events != [] && events[|events| - 1].Compact? && InOrder(events)
    requires Remembers(events[..|events| - 1])
    ensures
      var receipts, first := Run(events).receipts, LedgerOf(events).first;
      && (id in receipts <==> id in first && !Forgotten(events, id))
      && (id in receipts ==> receipts[id] == first[id])
  {
    AllBy(events[..|events| - 1], events[|events| - 1].now);
  }

  /** While no forgotten identifier repeats, the receipts are those of the ledger that are not forgotten. */
  lemma {:induction false} RunRemembers(events: seq<Event>)
    requires InOrder(events) && AllPrompt(events)
    ensures Remembers(events)
  {
    if events != [] {
      InOrderPrefix(events);
      RunRemembers(events[..|events| - 1]);
      forall id
        ensures
          var receipts, first := Run(events).receipts, LedgerOf(events).first;
          && (id in receipts <==> id in first && !Forgotten(events, id))
          && (id in receipts ==> receipts[id] == first[id])
      {
        if events[|events| - 1].Ingest? {
          IngestRemembers(events, id);
        } else {
          CompactRemembers(events, id);
        }
      }
    }
  }

  /** The store counts of a batch exactly the records the ledger counts. */
  ghost predicate CountsAlike(events: seq<Event>, records: seq<UsageRecord>, at: int) {
    FreshRecords(Run(events).receipts, records, at) == FreshRecords(LedgerOf(events).first, records, at)
  }

  ghost predicate AllCountAlike(events: seq<Event>) {
    if events == [] then true
    else
      var n := |events| - 1;
      AllCountAlike(events[..n]) && (events[n].Ingest? ==> CountsAlike(events[..n], events[n].records, events[n].at))
  }

  lemma PromptCountsAlike(events: seq<Event>, records: seq<UsageRecord>, at: int)
    requires Remembers(events) && Prompt(events, records)
    ensures CountsAlike(events, records, at)
  {
    SameFreshRecords(Run(events).receipts, LedgerOf(events).first, records, at);
  }

  /** Only identifiers that were not in the receipts are counted, and each of those that the batch has is. */
  lemma {:induction false} FreshRecordsHave(
    receipts: map<string, int>, records: seq<UsageRecord>, at: int, id: string)
    ensures HasId(FreshRecords(receipts, records, at), id) <==> HasId(records, id) && id !in receipts
  {
    if records != [] {
      var n := |records| - 1;
      FreshRecordsHave(receipts, records[..n], at, id);
      HasIdLast(records, id);
      ReceiptsAfterAt(receipts, records[..n], at, records[n].id);
      ReceiptsAfterAt(receipts, records[..n], at, id);
      var all := FreshRecords(receipts, records, at);
      if all != FreshRecords(receipts, records[..n], at) {
        HasIdLast(all, id);
        assert all[..|all| - 1] == FreshRecords(receipts, records[..n], at);
      }
    }
  }

  /** A forgotten identifier that repeats is counted again. */
  lemma ForgottenCountsAgain(events: seq<Event>, records: seq<UsageRecord>, at: int)
    requires Remembers(events) && !Prompt(events, records)
    ensures !CountsAlike(events, records, at)
  {
    var i :| 0 <= i < |records| && Forgotten(events, records[i].id);
    FreshRecordsHave(Run(events).receipts, records, at, records[i].id);
    FreshRecordsHave(LedgerOf(events).first, records, at, records[i].id);
  }

  /**
   In every history in the order of its times, each ingest counts exactly the
   records that come first among everything received if and only if no
   identifier repeats after a maintenance run that completed more than seven
   days after its first receipt.
   */
  lemma {:induction false} CountsAlikeIffPrompt(events: seq<Event>)
    requires InOrder(events)
    ensures AllCountAlike(events) <==> AllPrompt(events)
  {
    if events != [] {
      var n := |events| - 1;
      InOrderPrefix(events);
      CountsAlikeIffPrompt(events[..n]);
      if AllPrompt(events[..n]) && events[n].Ingest? {
        RunRemembers(events[..n]);
        if Prompt(events[..n], events[n].records) {
          PromptCountsAlike(events[..n], events[n].records, events[n].at);
        } else {
          ForgottenCountsAgain(events[..n], events[n].records, events[n].at);
        }
      }
    }
  }

  /** A batch in which every repeat comes within seven days of its first receipt is prompt. */
  lemma WithinSevenDays(events: seq<Event>, records: seq<UsageRecord>, at: int)
    requires InOrder(events + [Ingest(records, at)])
    requires
      var first := LedgerOf(events).first;
      forall i :: 0 <= i < |records| && records[i].id in first ==> at <= first[records[i].id] + RECEIPT_RETENTION
    ensures Prompt(events, records)
  {
    var all := events + [Ingest(records, at)];
    assert all[|events|] == Ingest(records, at);
    assert forall i :: 0 <= i < |events| ==> all[i] == events[i];
    AllBy(events, at);
  }

  // Conservation

  /** The first-received records of a run, one row per hour, never compacted. */
  ghost function PlainTable(events: seq<Event>): Table {
    AddRecords(map[], LedgerOf(events).records)
  }

  /** A maintenance run, complete or not, is invisible to a later complete one. */
  lemma CompactedAbsorbed(s: State, now: int, done: nat, until: int)
    requires now <= until
    ensures Regroup(FullPlacement(until), Compacted(s, now, done).rollups) == Regroup(FullPlacement(until), s.rollups)
  {
    RegroupAbsorbs(FullPlacement(until), MovePlacement(now), s.rollups);
    RegroupAbsorbs(FullPlacement(until), ExpirePlacement(now), Regroup(MovePlacement(now), s.rollups));
  }

  /** After every run, one complete maintenance run makes the same table of the store as of the plain records. */
  lemma {:induction false} RunConserves(events: seq<Event>, until: int)
    requires Orderly(events)
    requires events != [] ==> When(events[|events| - 1]) <= until
    ensures Regroup(FullPlacement(until), Run(events).rollups) == Regroup(FullPlacement(until), PlainTable(events))
  {
    if events != [] {
      var n := |events| - 1;
      var before := Run(events[..n]);
      OrderlyPrefix(events);
      RunConserves(events[..n], until);
      match events[n]
      case Ingest(records, at) =>
        var counted := FreshRecords(before.receipts, records, at);
        RunRemembers(events[..n]);
        PromptCountsAlike(events[..n], records, at);
        MergedExact(before.rollups, counted);
        RegroupAddRecords(FullPlacement(until), before.rollups, PlainTable(events[..n]), counted);
        AddRecordsConcat(map[], LedgerOf(events[..n]).records, counted);
      case Compact(now, done) =>
        CompactedAbsorbed(before, now, done, until);
    }
  }

  lemma FullIsBothSteps(now: int, t: Table)
    ensures Regroup(ExpirePlacement(now), Regroup(MovePlacement(now), t)) == Regroup(FullPlacement(now), t)
  {
    assert Composes(ExpirePlacement(now), MovePlacement(now), FullPlacement(now));
    RegroupCompose(ExpirePlacement(now), MovePlacement(now), FullPlacement(now), t);
  }

  /** The table made of a list of records by adding each to its hour and maintaining once. */
  ghost function MaintainedOnce(records: seq<UsageRecord>, now: int): Table {
    Regroup(FullPlacement(now), AddRecords(map[], records))
  }

  /**
   However ingests, repeats and maintenance runs are mixed, once a maintenance
   run completes the table is the one made by adding every distinct record
   once, as first received, and maintaining once.
   */
  lemma CompactedTableCountsEachRecordOnce(events: seq<Event>, now: int)
    requires Orderly(events + [Compact(now, 3)])
    ensures Run(events + [Compact(now, 3)]).rollups == MaintainedOnce(FirstReceived(Received(events)), now)
  {
    var all := events + [Compact(now, 3)];
    assert all[..|all| - 1] == events;
    RunConserves(events, now);
    FullIsBothSteps(now, Run(events).rollups);
    LedgerCountsFirstReceived(events);
  }

  /** A record, a complete maintenance run more than seven days later, and the same record again. */
  function LateRepeat(r: UsageRecord, at: int, now: int): seq<Event> {
    [Ingest([r], at), Compact(now, 3), Ingest([r], now)]
  }

  lemma OneRecordFits(r: UsageRecord)
    requires NonNegative(r.measures) && AtMost(r.measures, MAX_MEASURES)
    ensures BatchFits([r])
  {
    assert [r][..0] == [];
    assert forall key :: key in KeysOf([r]) ==> key == r.key;
    assert ExactAt([r], r.key) == Plus(ExactAt([], r.key), r.measures);
  }

  lemma FirstOfLateRepeat(r: UsageRecord, at: int, now: int)
    requires at + RECEIPT_RETENTION < now
    ensures Run(LateRepeat(r, at, now)[..1]) == State(Merged(map[], BatchRollups([r])), map[r.id := at])
    ensures Run(LateRepeat(r, at, now)[..2]).receipts == map[]
    ensures
      Run(LateRepeat(r, at, now)[..2]).rollups == Compacted(Run(LateRepeat(r, at, now)[..1]), now, 3).rollups
  {
    var events := LateRepeat(r, at, now);
    assert events[..1][..0] == [] && events[..2][..1] == events[..1];
    assert [r][..0] == [];
    assert FreshRecords(map[], [r], at) == [r];
    assert Run(events[..1]) == Step(EMPTY, events[0]);
  }

  lemma LastOfLateRepeat(r: UsageRecord, at: int, now: int)
    requires at + RECEIPT_RETENTION < now && BatchFits([r])
    ensures Run(LateRepeat(r, at, now)).rollups == AddRecords(Run(LateRepeat(r, at, now)[..2]).rollups, [r])
  {
    var events := LateRepeat(r, at, now);
    FirstOfLateRepeat(r, at, now);
    var second := Run(events[..2]);
    assert [r][..0] == [];
    assert FreshRecords(second.receipts, [r], now) == [r];
    assert Run(events) == Step(second, events[2]);
    MergedExact(second.rollups, [r]);
  }

  /** Such a record is counted twice: the table becomes that of the record received as two. */
  lemma LateRepeatCountsTwice(r: UsageRecord, at: int, now: int)
    requires at + RECEIPT_RETENTION < now && NonNegative(r.measures) && AtMost(r.measures, MAX_MEASURES)
    ensures Regroup(FullPlacement(now), Run(LateRepeat(r, at, now)).rollups) == MaintainedOnce([r, r], now)
    ensures FirstReceived(Received(LateRepeat(r, at, now))) == [r]
  {
    var once, p := AddRecords(map[], [r]), FullPlacement(now);
    var second := Run(LateRepeat(r, at, now)[..2]).rollups;
    OneRecordFits(r);
    LastOfLateRepeat(r, at, now);
    assert Regroup(p, second) == Regroup(p, once) by {
      FirstOfLateRepeat(r, at, now);
      MergedExact(map[], [r]);
      CompactedAbsorbed(Run(LateRepeat(r, at, now)[..1]), now, 3, now);
    }
    RegroupAddRecords(p, second, once, [r]);
    AddRecordsConcat(map[], [r], [r]);
    assert [r] + [r] == [r, r];
    ReceivedTwice(r, at, now);
  }

  lemma ReceivedTwice(r: UsageRecord, at: int, now: int)
    ensures FirstReceived(Received(LateRepeat(r, at, now))) == [r]
  {
    var events := LateRepeat(r, at, now);
    assert events[..2][..1] == events[..1] && events[..1][..0] == [];
    assert Received(events[..1]) == [r];
    assert Received(events[..2]) == [r];
    assert Received(events) == [r] + [r];
    FirstReceivedSnoc([r], r);
    FirstReceivedSnoc([], r);
    assert [] + [r] == [r];
    assert [r][0].id == r.id;
  }

  /** Where a record counts after maintenance at `now`: its hour, its UTC day, or nowhere. */
  lemma PlaceOfRecord(now: int, key: RollupKey)
    requires key.bucketStart >= 0
    ensures
      var day := key.bucketStart / DAY * DAY;
      Place(FullPlacement(now), Hourly(key)) ==
      if key.bucketStart >= HourlyBefore(now) then Some(RowKey(key, HOUR))
      else if day >= now - DAILY_RETENTION then Some(RowKey(key.(bucketStart := day), DAY))
      else None
  {
  }

  /** The compacted table row by row: present where a distinct record is placed, holding the sum of those records. */
  lemma CompactedRow(events: seq<Event>, now: int, row: RowKey)
    requires Orderly(events + [Compact(now, 3)])
    ensures
      var table := Run(events + [Compact(now, 3)]).rollups;
      var records := FirstReceived(Received(events));
      && (row in table <==> AnyPlacedAt(FullPlacement(now), records, row))
      && At(table, row) == SumPlacedAt(FullPlacement(now), records, row)
  {
    CompactedTableCountsEachRecordOnce(events, now);
    RegroupedRecords(FullPlacement(now), FirstReceived(Received(events)), row);
  }
}
