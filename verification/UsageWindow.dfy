/**
 Reporting windows of the usage crate: preset ranges, the period before a
 preset, and the hourly or local-day buckets a window is split into. All
 instants are Unix seconds; Dafny's `/` on a positive divisor is Rust's
 `div_euclid`.
 */
module UsageWindow {
  import opened Common

  const HOUR: int := 3600
  const DAY: int := 24 * HOUR
  const HOURLY_RETENTION: int := 90 * DAY
  const DAILY_RETENTION: int := 395 * DAY
  const RECEIPT_RETENTION: int := 7 * DAY
  const MAX_UTC_OFFSET_MINUTES: int := 14 * 60

  datatype Window = Window(start: int, end: int, bucketSeconds: int, utcOffsetSeconds: int)

  function LocalDayStart(timestamp: int, utcOffsetSeconds: int): int {
    (timestamp + utcOffsetSeconds) / DAY * DAY - utcOffsetSeconds
  }

  /** The midnight before which `compact` at `now` turns hourly rows into days. */
  function HourlyBefore(now: int): int {
    (now - HOURLY_RETENTION) / DAY * DAY
  }

  /** Bucket length and bucket count of a preset range. */
  function RangeShape(range: string): Option<(int, int)> {
    if range == "24h" then Some((HOUR, 24))
    else if range == "7d" then Some((DAY, 7))
    else if range == "30d" then Some((DAY, 30))
    else if range == "90d" then Some((DAY, 90))
    else None
  }

  function Preset(range: string, now: int, utcOffsetMinutes: int): Option<Window> {
    if !(-MAX_UTC_OFFSET_MINUTES <= utcOffsetMinutes <= MAX_UTC_OFFSET_MINUTES) then None
    else
      match RangeShape(range)
      case None => None
      case Some((bucketSeconds, buckets)) =>
        var offset := utcOffsetMinutes * 60;
        var end := if bucketSeconds == HOUR then now / HOUR * HOUR + HOUR
                   else LocalDayStart(now, offset) + DAY;
        Some(Window(end - buckets * bucketSeconds, end, bucketSeconds, offset))
  }

  function Previous(w: Window, now: int): Window {
    var start := w.start - (w.end - w.start);
    var aligned := if start < now - HOURLY_RETENTION then (start + DAY / 2) / DAY * DAY else start;
    w.(start := aligned, end := w.start)
  }

  function BucketCount(w: Window): nat
    requires w.bucketSeconds > 0
  {
    if w.end < w.start then 0 else (w.end - w.start) / w.bucketSeconds
  }

  function BucketStart(w: Window, index: nat): int {
    w.start + index * w.bucketSeconds
  }

  /** The bucket holding a stored rollup that starts at `rollupStart`. */
  function BucketIndex(w: Window, rollupStart: int): Option<nat>
    requires w.bucketSeconds > 0
  {
    var start := if w.bucketSeconds == DAY then LocalDayStart(rollupStart, w.utcOffsetSeconds)
                 else rollupStart / HOUR * HOUR;
    if start < w.start || start >= w.end then None
    else Some((start - w.start) / w.bucketSeconds)
  }

  /** The instants of bucket `index`. */
  ghost predicate InBucket(w: Window, index: nat, t: int) {
    BucketStart(w, index) <= t < BucketStart(w, index + 1)
  }

  /** Everything `Preset` builds: whole buckets, aligned to the hour or to the local day, ending after `now`. */
  lemma PresetShape(range: string, now: int, utcOffsetMinutes: int)
    requires Preset(range, now, utcOffsetMinutes).Some?
    ensures
      var w := Preset(range, now, utcOffsetMinutes).value;
      && (w.bucketSeconds == HOUR || w.bucketSeconds == DAY)
      && w.start < w.end
      && w.end - w.start == BucketCount(w) * w.bucketSeconds
      && w.end - w.start <= 90 * DAY
      && now < w.end <= now + w.bucketSeconds
      && (w.bucketSeconds == HOUR ==> w.start % HOUR == 0)
      && (w.bucketSeconds == DAY ==> (w.start + w.utcOffsetSeconds) % DAY == 0)
  {
  }

  /** `24h` covers 24 hours, hour by hour; `7d`, `30d` and `90d` that many days. Nothing else is a preset. */
  lemma PresetLength(range: string, now: int, utcOffsetMinutes: int)
    ensures Preset(range, now, utcOffsetMinutes).Some? <==>
              range in {"24h", "7d", "30d", "90d"} && -840 <= utcOffsetMinutes <= 840
    ensures Preset(range, now, utcOffsetMinutes).Some? ==>
              var w := Preset(range, now, utcOffsetMinutes).value;
              && w.utcOffsetSeconds == 60 * utcOffsetMinutes
              && (range == "24h" ==> w.bucketSeconds == 3600 && BucketCount(w) == 24)
              && (range == "7d" ==> w.bucketSeconds == 86400 && BucketCount(w) == 7)
              && (range == "30d" ==> w.bucketSeconds == 86400 && BucketCount(w) == 30)
              && (range == "90d" ==> w.bucketSeconds == 86400 && BucketCount(w) == 90)
  {
    assert "24h"[0] != "7d"[0] && "24h"[0] != "30d"[0] && "24h"[0] != "90d"[0];
    assert "7d"[0] != "30d"[0] && "7d"[0] != "90d"[0] && "30d"[0] != "90d"[0];
  }

  lemma HoursPartition(w: Window, t: int)
    requires w.bucketSeconds == HOUR && w.start < w.end && w.start % HOUR == 0
    requires w.end - w.start == BucketCount(w) * HOUR
    ensures BucketIndex(w, t).Some? <==> w.start <= t < w.end
    ensures BucketIndex(w, t).Some? ==> BucketIndex(w, t).value < BucketCount(w)
    ensures forall j: nat :: j < BucketCount(w) ==> (InBucket(w, j, t) <==> BucketIndex(w, t) == Some(j))
  {
  }

  lemma LocalDaysPartition(w: Window, t: int)
    requires w.bucketSeconds == DAY && w.start < w.end && (w.start + w.utcOffsetSeconds) % DAY == 0
    requires w.end - w.start == BucketCount(w) * DAY
    ensures BucketIndex(w, t).Some? <==> w.start <= t < w.end
    ensures BucketIndex(w, t).Some? ==> BucketIndex(w, t).value < BucketCount(w)
    ensures forall j: nat :: j < BucketCount(w) ==> (InBucket(w, j, t) <==> BucketIndex(w, t) == Some(j))
  {
  }

  /**
   Buckets tile a preset window: `BucketIndex` answers for exactly the
   instants of the window, and names the one bucket that holds the instant.
   */
  lemma BucketsPartitionWindow(range: string, now: int, utcOffsetMinutes: int, t: int)
    requires Preset(range, now, utcOffsetMinutes).Some?
    ensures
      var w := Preset(range, now, utcOffsetMinutes).value;
      && (BucketIndex(w, t).Some? <==> w.start <= t < w.end)
      && (BucketIndex(w, t).Some? ==> BucketIndex(w, t).value < BucketCount(w))
      && (forall j: nat :: j < BucketCount(w) ==> (InBucket(w, j, t) <==> BucketIndex(w, t) == Some(j)))
  {
    PresetShape(range, now, utcOffsetMinutes);
    var w := Preset(range, now, utcOffsetMinutes).value;
    if w.bucketSeconds == HOUR {
      HoursPartition(w, t);
    } else {
      LocalDaysPartition(w, t);
    }
  }

  /**
   A period that compaction up to `now` cannot split: it ends after the hourly
   cutoff, starts inside the daily retention, and starts either after the
   cutoff or at a UTC midnight.
   */
  predicate Unsplit(now: int, start: int, end: int) {
    && HourlyBefore(now) <= end
    && now - DAILY_RETENTION <= start
    && (HourlyBefore(now) <= start || start % DAY == 0)
  }

  /** Every preset window lies after the hourly cutoff. */
  lemma PresetAfterCutoff(range: string, now: int, utcOffsetMinutes: int)
    requires Preset(range, now, utcOffsetMinutes).Some?
    ensures
      var w := Preset(range, now, utcOffsetMinutes).value;
      HourlyBefore(now) <= now - HOURLY_RETENTION < w.start && Unsplit(now, w.start, w.end)
  {
    PresetShape(range, now, utcOffsetMinutes);
  }

  /** Every previous period is unsplit, too: it starts at a UTC midnight whenever it reaches past the cutoff. */
  lemma PreviousUnsplit(range: string, now: int, utcOffsetMinutes: int)
    requires Preset(range, now, utcOffsetMinutes).Some?
    ensures
      var w := Preset(range, now, utcOffsetMinutes).value;
      var p := Previous(w, now);
      && Unsplit(now, p.start, p.end)
      && p.end == w.start && p.start < p.end
      && -(DAY / 2) <= (p.end - p.start) - (w.end - w.start) <= DAY / 2
  {
    PresetShape(range, now, utcOffsetMinutes);
    PresetAfterCutoff(range, now, utcOffsetMinutes);
  }
}
