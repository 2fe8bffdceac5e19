/**
 What an accepted access-log record can count: the checks of `parse_record`
 on token counts, cost and time. They are what makes the sums of an export
 exact and its hours non-negative.
 */
module OtlpRecord {
  import opened Common
  import opened UsageWindow
  import opened UsageTable
  import opened UsageBatch
  import opened UsageReports
  import opened OtlpDecimal

  const MAX_CLOCK_SKEW: int := 5 * 60
  const NANOS_PER_SECOND: int := 1_000_000_000

  /** Unicode white space. */
  predicate IsSpace(c: char) {
    var n := c as int;
    || 9 <= n <= 13 || n == 0x20 || n == 0x85 || n == 0xA0 || n == 0x1680 || 0x2000 <= n <= 0x200A
    || n == 0x2028 || n == 0x2029 || n == 0x202F || n == 0x205F || n == 0x3000
  }

  function TrimStart(text: string): string {
    if text != "" && IsSpace(text[0]) then TrimStart(text[1..]) else text
  }

  function TrimEnd(text: string): string {
    if text != "" && IsSpace(text[|text| - 1]) then TrimEnd(text[..|text| - 1]) else text
  }

  function Trim(text: string): string {
    TrimEnd(TrimStart(text))
  }

  predicate AllSpace(text: string) {
    forall i :: 0 <= i < |text| ==> IsSpace(text[i])
  }

  /** `trimmed` is `text` without the white space around it. */
  ghost predicate Surrounds(text: string, left: string, trimmed: string, right: string) {
    && text == left + trimmed + right && AllSpace(left) && AllSpace(right)
    && (trimmed != "" ==> !IsSpace(trimmed[0]) && !IsSpace(trimmed[|trimmed| - 1]))
  }

  lemma {:induction false} TrimStartSplits(text: string) returns (left: string)
    ensures text == left + TrimStart(text) && AllSpace(left)
    ensures TrimStart(text) != "" ==> !IsSpace(TrimStart(text)[0])
  {
    if text != "" && IsSpace(text[0]) {
      var rest := TrimStartSplits(text[1..]);
      left := [text[0]] + rest;
      assert text == [text[0]] + text[1..];
    } else {
      left := "";
    }
  }

  lemma {:induction false} TrimEndSplits(text: string) returns (right: string)
    ensures text == TrimEnd(text) + right && AllSpace(right)
    ensures TrimEnd(text) != "" ==> !IsSpace(TrimEnd(text)[|TrimEnd(text)| - 1]) && TrimEnd(text)[0] == text[0]
  {
    if text != "" && IsSpace(text[|text| - 1]) {
      var rest := TrimEndSplits(text[..|text| - 1]);
      right := rest + [text[|text| - 1]];
      assert text == text[..|text| - 1] + [text[|text| - 1]];
    } else {
      right := "";
    }
  }

  lemma TrimSplits(text: string) returns (left: string, right: string)
    ensures Surrounds(text, left, Trim(text), right)
  {
    left := TrimStartSplits(text);
    right := TrimEndSplits(TrimStart(text));
  }

  /**
   An attribute value, with what the standard library's parsers make of it: a
   text's integer and, where it is no plain decimal, floating-point readings
   without the white space around it, and a double's exact integer and its
   amount in billionths.
   */
  datatype Field =
    | TextField(text: string, integer: Option<int>, viaFloat: Option<int>)
    | IntField(number: int)
    | DoubleField(integer: Option<int>, nanos: Option<int>)
    | OtherField

  /** Integers fit in 64 bits, and `dollars_to_nanos` only answers non-negative amounts. */
  predicate InRange(f: Field) {
    match f
    case TextField(_, integer, viaFloat) =>
      (integer.Some? ==> FitsI64(integer.value)) && (viaFloat.Some? ==> 0 <= viaFloat.value <= I64_MAX)
    case IntField(number) => FitsI64(number)
    case DoubleField(integer, nanos) =>
      (integer.Some? ==> FitsI64(integer.value)) && (nanos.Some? ==> 0 <= nanos.value <= I64_MAX)
    case OtherField => true
  }

  type Attributes = map<string, Field>

  function Integer(f: Field): Option<int> {
    match f
    case TextField(_, integer, _) => integer
    case IntField(number) => Some(number)
    case DoubleField(integer, _) => integer
    case OtherField => None
  }

  /** A non-negative US dollar amount in billionths. */
  function CostNanos(f: Field): Option<int> {
    match f
    case TextField(text, _, viaFloat) => NanosOf(Trim(text), viaFloat)
    case IntField(dollars) =>
      if FitsI64(dollars * NANOS_PER_SECOND) && dollars * NANOS_PER_SECOND >= 0
      then Some(dollars * NANOS_PER_SECOND) else None
    case DoubleField(_, nanos) => nanos
    case OtherField => None
  }

  const INPUT_TOKENS := "gen_ai.usage.input_tokens"
  const OUTPUT_TOKENS := "gen_ai.usage.output_tokens"
  const CACHE_READ_TOKENS := "gen_ai.usage.cache_read.input_tokens"
  const CACHE_WRITE_TOKENS := "gen_ai.usage.cache_creation.input_tokens"
  const COST := "agw.ai.usage.cost.total"
  const STATUS := "http.response.status_code"
  const ERROR := "error"

  /** A token count: absent is zero, anything else must be in bounds. */
  function Count(attributes: Attributes, key: string): Option<int> {
    if key !in attributes then Some(0)
    else
      match Integer(attributes[key])
      case Some(count) => if 0 <= count <= MAX_TOKENS_PER_REQUEST then Some(count) else None
      case None => None
  }

  datatype Cost = Unpriced | Priced(nanos: int) | BadCost

  function CostOf(attributes: Attributes): Cost {
    if COST !in attributes then Unpriced
    else
      match CostNanos(attributes[COST])
      case Some(nanos) => if nanos <= MAX_COST_NANOS_PER_REQUEST then Priced(nanos) else BadCost
      case None => BadCost
  }

  predicate Failed(attributes: Attributes) {
    || (ERROR in attributes && !(attributes[ERROR].TextField? && attributes[ERROR].text == ""))
    || (STATUS in attributes && Integer(attributes[STATUS]).Some? && Integer(attributes[STATUS]).value >= 400)
  }

  /** The measures of an accepted record; `None` when a value is refused. */
  function MeasuresOf(attributes: Attributes): Option<Measures> {
    var input, output := Count(attributes, INPUT_TOKENS), Count(attributes, OUTPUT_TOKENS);
    var read, write := Count(attributes, CACHE_READ_TOKENS), Count(attributes, CACHE_WRITE_TOKENS);
    var cost := CostOf(attributes);
    if input.None? || output.None? || read.None? || write.None? || cost.BadCost? then None
    else
      Some(Measures(
             1, if Failed(attributes) then 1 else 0, input.value, output.value, read.value, write.value,
             if cost.Priced? then cost.nanos else 0,
             if cost.Unpriced? && SaturatingAdd(input.value, output.value) > 0 then 1 else 0))
  }

  /** The instant a record counts at; `None` when it is older than the retention. */
  function OccurredAt(timeUnixNano: nat, observedTimeUnixNano: nat, now: int): Option<int> {
    var nanos := if timeUnixNano == 0 then observedTimeUnixNano else timeUnixNano;
    if nanos == 0 then Some(now)
    else
      var seconds := nanos / NANOS_PER_SECOND;
      if seconds > SaturatingAdd(now, MAX_CLOCK_SKEW) then Some(now)
      else if seconds < now - DAILY_RETENTION then None
      else Some(seconds)
  }

  /** A record as it is stored: digest, labels, hour and measures. */
  function Accept(
    id: string, labels: RollupKey, attributes: Attributes, timeUnixNano: nat, observedTimeUnixNano: nat, now: int)
    : Option<UsageRecord>
  {
    match (OccurredAt(timeUnixNano, observedTimeUnixNano, now), MeasuresOf(attributes))
    case (Some(at), Some(m)) => Some(UsageRecord(id, labels.(bucketStart := at / HOUR * HOUR), m))
    case _ => None
  }

  lemma CostBounds(attributes: Attributes)
    requires forall key :: key in attributes ==> InRange(attributes[key])
    ensures CostOf(attributes).Priced? ==> 0 <= CostOf(attributes).nanos <= MAX_COST_NANOS_PER_REQUEST
  {
    if COST in attributes {
      match attributes[COST]
      case TextField(text, _, viaFloat) =>
        if Plain(Trim(text)) {
          var (whole, fraction) := SplitAtPoint(Trim(text));
          assert Computed(whole, fraction) >= 0;
        }
      case _ =>
    }
  }

  /** Every accepted record is within the bounds of one request and falls in a whole, non-negative, current hour. */
  lemma AcceptedRecord(
    id: string, labels: RollupKey, attributes: Attributes, timeUnixNano: nat, observedTimeUnixNano: nat, now: int)
    requires 0 <= now <= I64_MAX - MAX_CLOCK_SKEW
    requires forall key :: key in attributes ==> InRange(attributes[key])
    requires Accept(id, labels, attributes, timeUnixNano, observedTimeUnixNano, now).Some?
    ensures
      var r := Accept(id, labels, attributes, timeUnixNano, observedTimeUnixNano, now).value;
      && NonNegative(r.measures) && AtMost(r.measures, MAX_PER_REQUEST)
      && r.measures.requests == 1
      && r.key.bucketStart >= 0 && r.key.bucketStart % HOUR == 0
      && now - DAILY_RETENTION - HOUR < r.key.bucketStart <= now + MAX_CLOCK_SKEW
  {
    CostBounds(attributes);
  }

  // What an accepted record says

  /** The value is the integer `n`. */
  predicate ReadsAs(f: Field, n: int) {
    || f == IntField(n)
    || (f.TextField? && f.integer == Some(n))
    || (f.DoubleField? && f.integer == Some(n))
  }

  /** The value is an amount of `n` billionths that fits in 64 bits: exactly for a plain decimal and for an integer. */
  ghost predicate Costs(f: Field, n: int) {
    && 0 <= n <= I64_MAX
    && match f
       case TextField(text, _, viaFloat) =>
         if Plain(Trim(text)) then IsNanosOf(Trim(text), n) else viaFloat == Some(n)
       case IntField(dollars) => n == dollars * 1_000_000_000
       case DoubleField(_, nanos) => nanos == Some(n)
       case OtherField => false
  }

  /** The token count under `key` is `n`: zero when there is none, and otherwise an integer of at most a billion. */
  ghost predicate Counts(attributes: Attributes, key: string, n: int) {
    if key in attributes then ReadsAs(attributes[key], n) && 0 <= n <= 1_000_000_000 else n == 0
  }

  /** There is a cost, of `n` billionths and at most a million dollars. */
  ghost predicate Charges(attributes: Attributes, n: int) {
    COST in attributes && Costs(attributes[COST], n) && n <= 1_000_000_000_000_000
  }

  ghost predicate StatusFails(attributes: Attributes) {
    STATUS in attributes && exists n :: ReadsAs(attributes[STATUS], n) && n >= 400
  }

  predicate ReportsError(attributes: Attributes) {
    ERROR in attributes && (attributes[ERROR].TextField? ==> attributes[ERROR].text != "")
  }

  /** The record counts at second `at`: that of its time or else its observed time, or now when it has neither. */
  ghost predicate CountsAt(timeUnixNano: nat, observedTimeUnixNano: nat, now: int, at: int) {
    var nanos := if timeUnixNano != 0 then timeUnixNano else observedTimeUnixNano;
    if nanos == 0 || nanos >= (now + 301) * 1_000_000_000 then at == now
    else at * 1_000_000_000 <= nanos < (at + 1) * 1_000_000_000
  }

  /** The record's own time, if it has one that is not ahead, is older than 395 days. */
  ghost predicate TooOld(timeUnixNano: nat, observedTimeUnixNano: nat, now: int) {
    var nanos := if timeUnixNano != 0 then timeUnixNano else observedTimeUnixNano;
    nanos != 0 && nanos < (now - 395 * 86400) * 1_000_000_000
  }

  const U64_MAX: int := 0xFFFF_FFFF_FFFF_FFFF

  lemma CountReads(attributes: Attributes, key: string, n: int)
    ensures Count(attributes, key) == Some(n) <==> Counts(attributes, key, n)
  {
  }

  lemma CostReads(f: Field, n: int)
    requires InRange(f)
    ensures CostNanos(f) == Some(n) <==> Costs(f, n)
  {
    if f.TextField? && Plain(Trim(f.text)) {
      var (whole, fraction) := SplitAtPoint(Trim(f.text));
      ComputedIsNanos(Trim(f.text));
      assert Computed(whole, fraction) >= 0;
      if IsNanosOf(Trim(f.text), n) {
        OnlyComputed(Trim(f.text), n);
      }
    }
  }

  lemma OccurredReads(timeUnixNano: nat, observedTimeUnixNano: nat, now: int)
    requires 0 <= now <= I64_MAX && timeUnixNano <= U64_MAX && observedTimeUnixNano <= U64_MAX
    ensures
      var at := OccurredAt(timeUnixNano, observedTimeUnixNano, now);
      && (at.None? <==> TooOld(timeUnixNano, observedTimeUnixNano, now))
      && (at.Some? ==> CountsAt(timeUnixNano, observedTimeUnixNano, now, at.value))
  {
  }

  /** Every field of an accepted record is that of its own attribute. */
  ghost predicate SaysWhatWasSent(
    r: UsageRecord, attributes: Attributes, timeUnixNano: nat, observedTimeUnixNano: nat, now: int)
  {
    var m := r.measures;
    && m.requests == 1
    && Counts(attributes, "gen_ai.usage.input_tokens", m.inputTokens)
    && Counts(attributes, "gen_ai.usage.output_tokens", m.outputTokens)
    && Counts(attributes, "gen_ai.usage.cache_read.input_tokens", m.cacheReadTokens)
    && Counts(attributes, "gen_ai.usage.cache_creation.input_tokens", m.cacheWriteTokens)
    && m.errors == (if StatusFails(attributes) || ReportsError(attributes) then 1 else 0)
    && (if "agw.ai.usage.cost.total" in attributes then Charges(attributes, m.costNanos) else m.costNanos == 0)
    && m.unpricedRequests ==
       (if "agw.ai.usage.cost.total" !in attributes && (m.inputTokens > 0 || m.outputTokens > 0) then 1 else 0)
    && r.key.bucketStart % 3600 == 0
    && exists at ::
         CountsAt(timeUnixNano, observedTimeUnixNano, now, at) && r.key.bucketStart <= at < r.key.bucketStart + 3600
  }

  lemma FailedReads(attributes: Attributes)
    ensures Failed(attributes) <==> StatusFails(attributes) || ReportsError(attributes)
  {
    if STATUS in attributes && Integer(attributes[STATUS]).Some? {
      assert ReadsAs(attributes[STATUS], Integer(attributes[STATUS]).value);
    }
  }

  lemma MeasuresRead(attributes: Attributes)
    requires forall key :: key in attributes ==> InRange(attributes[key])
    requires MeasuresOf(attributes).Some?
    ensures
      var m := MeasuresOf(attributes).value;
      && Counts(attributes, INPUT_TOKENS, m.inputTokens) && Counts(attributes, OUTPUT_TOKENS, m.outputTokens)
      && Counts(attributes, CACHE_READ_TOKENS, m.cacheReadTokens)
      && Counts(attributes, CACHE_WRITE_TOKENS, m.cacheWriteTokens)
      && (if COST in attributes then Charges(attributes, m.costNanos) else m.costNanos == 0)
  {
    var m := MeasuresOf(attributes).value;
    CountReads(attributes, INPUT_TOKENS, m.inputTokens);
    CountReads(attributes, OUTPUT_TOKENS, m.outputTokens);
    CountReads(attributes, CACHE_READ_TOKENS, m.cacheReadTokens);
    CountReads(attributes, CACHE_WRITE_TOKENS, m.cacheWriteTokens);
    if COST in attributes {
      CostReads(attributes[COST], m.costNanos);
    }
  }

  /**
   An accepted record has its identifier, its labels, and in every other field
   what the access log sent: each count, the cost, the failure and the hour.
   */
  lemma AcceptedSaysWhatWasSent(
    id: string, labels: RollupKey, attributes: Attributes, timeUnixNano: nat, observedTimeUnixNano: nat, now: int)
    requires 0 <= now <= I64_MAX && timeUnixNano <= U64_MAX && observedTimeUnixNano <= U64_MAX
    requires forall key :: key in attributes ==> InRange(attributes[key])
    requires Accept(id, labels, attributes, timeUnixNano, observedTimeUnixNano, now).Some?
    ensures
      var r := Accept(id, labels, attributes, timeUnixNano, observedTimeUnixNano, now).value;
      && r.id == id && r.key == labels.(bucketStart := r.key.bucketStart)
      && SaysWhatWasSent(r, attributes, timeUnixNano, observedTimeUnixNano, now)
  {
    MeasuresRead(attributes);
    FailedReads(attributes);
    OccurredReads(timeUnixNano, observedTimeUnixNano, now);
    var r := Accept(id, labels, attributes, timeUnixNano, observedTimeUnixNano, now).value;
    var at := OccurredAt(timeUnixNano, observedTimeUnixNano, now).value;
    assert CountsAt(timeUnixNano, observedTimeUnixNano, now, at) && r.key.bucketStart <= at < r.key.bucketStart + 3600;
  }

  /** The count under `key` is absent or in bounds. */
  ghost predicate CountAllowed(attributes: Attributes, key: string) {
    exists n :: Counts(attributes, key, n)
  }

  ghost predicate CostAllowed(attributes: Attributes) {
    COST in attributes ==> exists n :: Charges(attributes, n)
  }

  lemma CountAllowedIff(attributes: Attributes, key: string)
    ensures Count(attributes, key).Some? <==> CountAllowed(attributes, key)
  {
    if Count(attributes, key).Some? {
      CountReads(attributes, key, Count(attributes, key).value);
    }
    if CountAllowed(attributes, key) {
      var n :| Counts(attributes, key, n);
      CountReads(attributes, key, n);
    }
  }

  lemma CostAllowedIff(attributes: Attributes)
    requires forall key :: key in attributes ==> InRange(attributes[key])
    ensures !CostOf(attributes).BadCost? <==> CostAllowed(attributes)
  {
    if COST in attributes {
      if CostNanos(attributes[COST]).Some? {
        CostReads(attributes[COST], CostNanos(attributes[COST]).value);
        if CostOf(attributes).Priced? {
          assert Charges(attributes, CostNanos(attributes[COST]).value);
        }
      }
      if CostAllowed(attributes) {
        var n :| Charges(attributes, n);
        CostReads(attributes[COST], n);
      }
    }
  }

  /** A record is accepted if and only if its four counts and its cost are in bounds and it is not too old. */
  lemma AcceptedIff(
    id: string, labels: RollupKey, attributes: Attributes, timeUnixNano: nat, observedTimeUnixNano: nat, now: int)
    requires 0 <= now <= I64_MAX && timeUnixNano <= U64_MAX && observedTimeUnixNano <= U64_MAX
    requires forall key :: key in attributes ==> InRange(attributes[key])
    ensures
      Accept(id, labels, attributes, timeUnixNano, observedTimeUnixNano, now).Some?
      <==>
      && CountAllowed(attributes, "gen_ai.usage.input_tokens")
      && CountAllowed(attributes, "gen_ai.usage.output_tokens")
      && CountAllowed(attributes, "gen_ai.usage.cache_read.input_tokens")
      && CountAllowed(attributes, "gen_ai.usage.cache_creation.input_tokens")
      && CostAllowed(attributes)
      && !TooOld(timeUnixNano, observedTimeUnixNano, now)
  {
    CountAllowedIff(attributes, INPUT_TOKENS);
    CountAllowedIff(attributes, OUTPUT_TOKENS);
    CountAllowedIff(attributes, CACHE_READ_TOKENS);
    CountAllowedIff(attributes, CACHE_WRITE_TOKENS);
    CostAllowedIff(attributes);
    OccurredReads(timeUnixNano, observedTimeUnixNano, now);
  }

  ghost predicate AcceptedAs(
    r: UsageRecord, labels: RollupKey, attributes: Attributes, timeUnixNano: nat, observedTimeUnixNano: nat, now: int)
  {
    && 0 <= now <= I64_MAX - MAX_CLOCK_SKEW
    && (forall key :: key in attributes ==> InRange(attributes[key]))
    && Accept(r.id, labels, attributes, timeUnixNano, observedTimeUnixNano, now) == Some(r)
  }

  /** Each of `records` was accepted by the parser at some time. */
  ghost predicate Parsed(records: seq<UsageRecord>) {
    forall i :: 0 <= i < |records| ==>
      exists labels, attributes, t, o, now :: AcceptedAs(records[i], labels, attributes, t, o, now)
  }

  /** An export of at most 9223 accepted records is summed exactly, and all its hours are non-negative. */
  lemma ParsedExportFits(records: seq<UsageRecord>)
    requires Parsed(records)
    ensures NonNegativeKeys(records)
    ensures |records| <= 9223 ==> BatchFits(records)
  {
    forall i | 0 <= i < |records|
      ensures NonNegative(records[i].measures) && AtMost(records[i].measures, MAX_PER_REQUEST)
      ensures records[i].key.bucketStart >= 0
    {
      var labels, attributes, t, o, now :| AcceptedAs(records[i], labels, attributes, t, o, now);
      AcceptedRecord(records[i].id, labels, attributes, t, o, now);
    }
    if |records| <= 9223 {
      AcceptedBatchFits(records);
    }
  }
}
