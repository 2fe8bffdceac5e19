/**
 Polling the token endpoint for a device sign-in (RFC 8628, section 3.5).
 Whatever the endpoint answers and however late the timers fire, requests are
 spaced by the interval, which grows by five seconds on every `slow_down`,
 none is sent at or after the deadline, and their number is bounded by the
 lifetime of the code.
 */
module DevicePoll {
  import opened Common

  const DEVICE_POLL_SLOW_DOWN: nat := 5 * SECOND

  /** Seconds. */
  const DEFAULT_DEVICE_POLL_INTERVAL: nat := 5
  const MAX_DEVICE_LIFETIME: nat := 30 * 60
  const MAX_DEVICE_POLL_INTERVAL: nat := 60

  /** A complete answer of the token endpoint, or a request that breaks. */
  datatype Reply = Tokens | AuthorizationPending | SlowDown | Refused | Broken

  /** How late the sleep before a request ends, how long the answer takes, and what it is. */
  datatype Attempt = Attempt(late: nat, delay: nat, reply: Reply)

  datatype Request = Request(sentAt: nat, answeredAt: nat, reply: Reply)

  datatype Outcome = SignedIn | Rejected | Lost | Expired

  function Min(a: nat, b: nat): nat {
    if a < b then a else b
  }

  /** The interval in force after these requests: every `slow_down` among them has lengthened it. */
  function Interval(interval: nat, requests: seq<Request>): (r: nat)
    ensures r >= interval
  {
    if requests == [] then interval
    else
      Interval(interval, requests[..|requests| - 1])
      + if requests[|requests| - 1].reply.SlowDown? then DEVICE_POLL_SLOW_DOWN else 0
  }

  /** When the wait after these requests starts: at the start, or when the last one was answered. */
  function WaitsFrom(start: nat, requests: seq<Request>): nat {
    if requests == [] then start else requests[|requests| - 1].answeredAt
  }

  /** When the request after these is due. */
  function Due(start: nat, interval: nat, requests: seq<Request>): nat {
    WaitsFrom(start, requests) + Interval(interval, requests)
  }

  /** Every request waited until it was due, was sent before the deadline and settled by it. */
  ghost predicate Paced(start: nat, interval: nat, deadline: nat, requests: seq<Request>) {
    requests != [] ==>
      var before, r := requests[..|requests| - 1], requests[|requests| - 1];
      && Paced(start, interval, deadline, before)
      && Due(start, interval, before) <= r.sentAt < deadline && r.sentAt <= r.answeredAt <= deadline
  }

  /** Request `r` is what attempt `a` makes of a wait ending at `due`: late by the timer, cut off by the deadline. */
  predicate Made(a: Attempt, due: nat, deadline: nat, r: Request) {
    && r.sentAt == due + a.late
    && r.answeredAt == Min(r.sentAt + a.delay, deadline)
    && r.reply == if r.sentAt + a.delay < deadline then a.reply else Broken
  }

  /** No request waits longer than until it is due and its timer fires. */
  ghost predicate Follows(start: nat, interval: nat, deadline: nat, answers: nat -> Attempt, requests: seq<Request>) {
    requests != [] ==>
      var n := |requests| - 1;
      && Follows(start, interval, deadline, answers, requests[..n])
      && Made(answers(n), Due(start, interval, requests[..n]), deadline, requests[n])
  }

  predicate KeepsPolling(reply: Reply) {
    reply.AuthorizationPending? || reply.SlowDown?
  }

  /** Only answers that keep the sign-in pending are followed by another request. */
  ghost predicate KeptPending(requests: seq<Request>) {
    requests != [] ==> KeptPending(requests[..|requests| - 1]) && KeepsPolling(requests[|requests| - 1].reply)
  }

  /** The same for each request: it was sent when due, after the interval in force, and before the deadline. */
  lemma {:induction false} PacedAt(start: nat, interval: nat, deadline: nat, requests: seq<Request>, i: nat)
    requires Paced(start, interval, deadline, requests) && i < |requests|
    ensures Due(start, interval, requests[..i]) <= requests[i].sentAt < deadline
    ensures requests[i].answeredAt <= deadline
  {
    var n := |requests| - 1;
    if i < n {
      PacedAt(start, interval, deadline, requests[..n], i);
      assert requests[..n][..i] == requests[..i];
    }
  }

  lemma IntervalSnoc(interval: nat, requests: seq<Request>, r: Request)
    ensures
      Interval(interval, requests + [r])
      == Interval(interval, requests) + if r.reply.SlowDown? then DEVICE_POLL_SLOW_DOWN else 0
  {
    assert (requests + [r])[..|requests|] == requests;
  }

  function Repeated(n: nat, x: nat): nat {
    if n == 0 then 0 else Repeated(n - 1, x) + x
  }

  lemma {:induction false} RepeatedIsProduct(n: nat, x: nat)
    ensures Repeated(n, x) == n * x
  {
    if n > 0 {
      RepeatedIsProduct(n - 1, x);
      assert n * x == (n - 1) * x + x;
    }
  }

  /** After `n` requests, at least `n` intervals have passed. */
  lemma {:induction false} IntervalsPass(start: nat, interval: nat, deadline: nat, requests: seq<Request>)
    requires Paced(start, interval, deadline, requests)
    ensures start + Repeated(|requests|, interval) <= WaitsFrom(start, requests)
    ensures requests != [] ==> start + Repeated(|requests|, interval) < deadline
  {
    if requests != [] {
      IntervalsPass(start, interval, deadline, requests[..|requests| - 1]);
    }
  }

  /** All intervals together fit before the deadline, so there are few requests. */
  lemma IntervalsFit(start: nat, interval: nat, expiresIn: nat, requests: seq<Request>)
    requires Paced(start, interval, start + expiresIn, requests)
    ensures requests != [] ==> |requests| * interval < expiresIn
  {
    IntervalsPass(start, interval, start + expiresIn, requests);
    RepeatedIsProduct(|requests|, interval);
  }

  /** What the last request decides. */
  function Settled(reply: Reply): Outcome
    requires !KeepsPolling(reply)
  {
    if reply.Tokens? then SignedIn else if reply.Refused? then Rejected else Lost
  }

  /** The loop is at `now` and will wait for `wait`. */
  ghost predicate Polling(
    start: nat, interval: nat, deadline: nat, answers: nat -> Attempt, requests: seq<Request>, now: nat, wait: nat)
  {
    && start <= now <= deadline && interval <= wait
    && now == WaitsFrom(start, requests) && wait == Interval(interval, requests)
    && Paced(start, interval, deadline, requests) && Follows(start, interval, deadline, answers, requests)
    && KeptPending(requests)
  }

  /** What the loop reports once it has stopped. */
  ghost predicate Stopped(
    start: nat, interval: nat, deadline: nat, answers: nat -> Attempt, requests: seq<Request>, end: nat,
    outcome: Outcome)
  {
    && Paced(start, interval, deadline, requests) && Follows(start, interval, deadline, answers, requests)
    && if outcome == Expired then
         KeptPending(requests) && deadline <= end <= deadline + answers(|requests|).late
       else
         && requests != [] && KeptPending(requests[..|requests| - 1])
         && var last := requests[|requests| - 1];
            !KeepsPolling(last.reply) && outcome == Settled(last.reply) && end == last.answeredAt <= deadline
  }

  lemma PollingStep(
    start: nat, interval: nat, deadline: nat, answers: nat -> Attempt, requests: seq<Request>, now: nat, wait: nat,
    r: Request)
    requires Polling(start, interval, deadline, answers, requests, now, wait)
    requires Made(answers(|requests|), now + wait, deadline, r) && r.sentAt < deadline
    ensures
      if KeepsPolling(r.reply) then
        Polling(start, interval, deadline, answers, requests + [r], r.answeredAt,
                wait + if r.reply.SlowDown? then DEVICE_POLL_SLOW_DOWN else 0)
      else
        Stopped(start, interval, deadline, answers, requests + [r], r.answeredAt, Settled(r.reply))
  {
    assert (requests + [r])[..|requests|] == requests;
    IntervalSnoc(interval, requests, r);
  }

  /** The request made when the timer fires at `woken`, before the deadline. */
  function Sent(a: Attempt, woken: nat, deadline: nat): Request {
    if woken + a.delay < deadline then Request(woken, woken + a.delay, a.reply) else Request(woken, deadline, Broken)
  }

  function Woken(a: Attempt, now: nat, wait: nat, deadline: nat): nat {
    Min(now + wait, deadline) + a.late
  }

  /** The rest of a polling that is at `now` after `requests`. */
  function Poll(deadline: nat, answers: nat -> Attempt, requests: seq<Request>, now: nat, wait: nat)
    : (seq<Request>, nat, Outcome)
    requires wait > 0
    decreases deadline - now
  {
    var attempt := answers(|requests|);
    var woken := Woken(attempt, now, wait, deadline);
    if woken >= deadline then (requests, woken, Expired)
    else
      var r := Sent(attempt, woken, deadline);
      match r.reply
      case AuthorizationPending => Poll(deadline, answers, requests + [r], r.answeredAt, wait)
      case SlowDown => Poll(deadline, answers, requests + [r], r.answeredAt, wait + DEVICE_POLL_SLOW_DOWN)
      case _ => (requests + [r], r.answeredAt, Settled(r.reply))
  }

  lemma PollingExpires(
    start: nat, interval: nat, deadline: nat, answers: nat -> Attempt, requests: seq<Request>, now: nat, wait: nat,
    end: nat)
    requires Polling(start, interval, deadline, answers, requests, now, wait)
    requires deadline <= end <= deadline + answers(|requests|).late
    ensures Stopped(start, interval, deadline, answers, requests, end, Expired)
  {
  }

  /** Polling has kept the pace when it stops. */
  ghost predicate PollFine(
    start: nat, interval: nat, deadline: nat, answers: nat -> Attempt, requests: seq<Request>, now: nat, wait: nat)
    requires wait > 0
  {
    var (all, end, outcome) := Poll(deadline, answers, requests, now, wait);
    Stopped(start, interval, deadline, answers, all, end, outcome)
  }

  lemma PollExpires(
    start: nat, interval: nat, deadline: nat, answers: nat -> Attempt, requests: seq<Request>, now: nat, wait: nat)
    requires 0 < interval && Polling(start, interval, deadline, answers, requests, now, wait)
    requires Woken(answers(|requests|), now, wait, deadline) >= deadline
    ensures PollFine(start, interval, deadline, answers, requests, now, wait)
  {
    var woken := Woken(answers(|requests|), now, wait, deadline);
    assert Poll(deadline, answers, requests, now, wait) == (requests, woken, Expired);
    PollingExpires(start, interval, deadline, answers, requests, now, wait, woken);
  }

  /** The wait after an answer that keeps the sign-in pending. */
  function NextWait(wait: nat, reply: Reply): nat {
    wait + if reply.SlowDown? then DEVICE_POLL_SLOW_DOWN else 0
  }

  /** One turn of polling, when the deadline has not come. */
  lemma PollTurn(deadline: nat, answers: nat -> Attempt, requests: seq<Request>, now: nat, wait: nat)
    requires wait > 0 && Woken(answers(|requests|), now, wait, deadline) < deadline
    ensures
      var r := Sent(answers(|requests|), Woken(answers(|requests|), now, wait, deadline), deadline);
      && now < r.answeredAt <= deadline && Made(answers(|requests|), now + wait, deadline, r) && r.sentAt < deadline
      && Poll(deadline, answers, requests, now, wait) ==
         if KeepsPolling(r.reply) then Poll(deadline, answers, requests + [r], r.answeredAt, NextWait(wait, r.reply))
         else (requests + [r], r.answeredAt, Settled(r.reply))
  {
  }

  /** Polling keeps the pace from wherever it is to where it stops. */
  lemma {:induction false} PollStops(
    start: nat, interval: nat, deadline: nat, answers: nat -> Attempt, requests: seq<Request>, now: nat, wait: nat)
    requires 0 < interval && Polling(start, interval, deadline, answers, requests, now, wait)
    ensures PollFine(start, interval, deadline, answers, requests, now, wait)
    decreases deadline - now
  {
    var woken := Woken(answers(|requests|), now, wait, deadline);
    if woken >= deadline {
      PollExpires(start, interval, deadline, answers, requests, now, wait);
    } else {
      var r := Sent(answers(|requests|), woken, deadline);
      PollTurn(deadline, answers, requests, now, wait);
      PollingStep(start, interval, deadline, answers, requests, now, wait, r);
      if KeepsPolling(r.reply) {
        PollStops(start, interval, deadline, answers, requests + [r], r.answeredAt, NextWait(wait, r.reply));
      }
    }
  }

  /** Each request made was answered that the sign-in is still pending. */
  ghost predicate AllPending(requests: seq<Request>) {
    forall i :: 0 <= i < |requests| ==> requests[i].reply == AuthorizationPending || requests[i].reply == SlowDown
  }

  /** The outcome, by what the last request was answered. */
  ghost predicate EndsAs(requests: seq<Request>, outcome: Outcome) {
    && (outcome == SignedIn <==> requests != [] && requests[|requests| - 1].reply == Tokens)
    && (outcome == Rejected <==> requests != [] && requests[|requests| - 1].reply == Refused)
    && (outcome == Lost <==> requests != [] && requests[|requests| - 1].reply == Broken)
    && (outcome == Expired <==> AllPending(requests))
    && (requests != [] ==> AllPending(requests[..|requests| - 1]))
  }

  lemma {:induction false} KeptPendingAll(requests: seq<Request>)
    ensures KeptPending(requests) <==> AllPending(requests)
  {
    if requests != [] {
      var n := |requests| - 1;
      KeptPendingAll(requests[..n]);
      if KeptPending(requests) {
        forall i | 0 <= i < |requests|
          ensures requests[i].reply == AuthorizationPending || requests[i].reply == SlowDown
        {
          assert i < n ==> requests[..n][i] == requests[i];
        }
      }
      if AllPending(requests) {
        assert forall i :: 0 <= i < n ==> requests[..n][i] == requests[i];
      }
    }
  }

  lemma StoppedEndsAs(
    start: nat, interval: nat, deadline: nat, answers: nat -> Attempt, requests: seq<Request>, end: nat,
    outcome: Outcome)
    requires Stopped(start, interval, deadline, answers, requests, end, outcome)
    ensures EndsAs(requests, outcome)
  {
    KeptPendingAll(requests);
    if requests != [] {
      KeptPendingAll(requests[..|requests| - 1]);
    }
  }

  /** The interval in force has grown by five seconds for every `slow_down`. */
  lemma {:induction false} IntervalGrows(interval: nat, requests: seq<Request>)
    ensures
      Interval(interval, requests) ==
      interval + 5_000_000_000 * |set i | 0 <= i < |requests| && requests[i].reply == SlowDown|
  {
    var slow := set i | 0 <= i < |requests| && requests[i].reply == SlowDown;
    if requests == [] {
      assert slow == {};
    } else {
      var n := |requests| - 1;
      var before := set i | 0 <= i < n && requests[..n][i].reply == SlowDown;
      IntervalGrows(interval, requests[..n]);
      assert before == slow - {n};
      if requests[n].reply == SlowDown {
        assert n in slow;
        assert slow == before + {n};
      } else {
        assert slow == before;
      }
    }
  }

  /**
   Whatever the endpoint answers: every request waits for the interval in
   force and no longer than its timer needs, is sent before the deadline and
   settled by it; only pending answers are followed by another request; the
   sign-in succeeds, is rejected or is lost as the last answer says and
   expires when all were pending; and polling ends by the deadline but for the
   lateness of the last timer.
   */
  lemma PollKeepsPace(start: nat, interval: nat, expiresIn: nat, answers: nat -> Attempt)
    requires interval > 0
    ensures
      var (all, end, outcome) := Poll(start + expiresIn, answers, [], start, interval);
      && Stopped(start, interval, start + expiresIn, answers, all, end, outcome)
      && EndsAs(all, outcome)
  {
    PollStops(start, interval, start + expiresIn, answers, [], start, interval);
    var (all, end, outcome) := Poll(start + expiresIn, answers, [], start, interval);
    StoppedEndsAs(start, interval, start + expiresIn, answers, all, end, outcome);
  }

  /**
   Polls until an answer settles the sign-in or the deadline passes. The
   callers pass a positive interval.
   */
  method PollDeviceToken(start: nat, interval: nat, expiresIn: nat, answers: nat -> Attempt)
    returns (requests: seq<Request>, end: nat, outcome: Outcome)
    requires interval > 0
    ensures (requests, end, outcome) == Poll(start + expiresIn, answers, [], start, interval)
    ensures EndsAs(requests, outcome)
  {
    PollKeepsPace(start, interval, expiresIn, answers);
    var deadline := start + expiresIn;
    var now: nat := start;
    var wait: nat := interval;
    requests := [];
    while true
      invariant wait > 0 && start <= now <= deadline
      invariant Poll(deadline, answers, requests, now, wait) == Poll(deadline, answers, [], start, interval)
      decreases deadline - now
    {
      var attempt := answers(|requests|);
      var woken := Min(now + wait, deadline) + attempt.late;
      if woken >= deadline {
        return requests, woken, Expired;
      }
      var remaining := deadline - woken;
      var inTime := attempt.delay < remaining;
      var request :=
        if inTime then Request(woken, woken + attempt.delay, attempt.reply) else Request(woken, deadline, Broken);
      requests := requests + [request];
      now := request.answeredAt;
      match request.reply {
        case AuthorizationPending =>
        case SlowDown => wait := wait + DEVICE_POLL_SLOW_DOWN;
        case _ => return requests, now, Settled(request.reply);
      }
    }
  }

  // The grant of the gateway sign-in

  /** A device authorization response; whether its addresses parse is part of it. */
  datatype Device = Device(
    deviceCode: string, userCode: string, uriParses: bool, completeUri: Option<string>, completeParses: bool,
    expiresIn: nat, interval: Option<nat>)

  /** `validate_device`: refuses what could not be acted on, and caps the lifetime. */
  function ValidateDevice(d: Device): Option<Device> {
    if d.deviceCode == "" || d.userCode == "" || !d.uriParses then None
    else
      var checked := d.(completeUri := if d.completeParses then d.completeUri else None,
                        expiresIn := Min(d.expiresIn, MAX_DEVICE_LIFETIME));
      if checked.expiresIn == 0 then None else Some(checked)
  }

  /** `poll_interval`, in seconds. */
  function PollInterval(d: Device): nat {
    Min(if d.interval.Some? && d.interval.value > 0 then d.interval.value else DEFAULT_DEVICE_POLL_INTERVAL,
        MAX_DEVICE_POLL_INTERVAL)
  }

  /** What is accepted, and that nothing but the lifetime and an address that does not parse is changed. */
  lemma ValidatedDevice(d: Device)
    ensures ValidateDevice(d).Some? <==> d.deviceCode != "" && d.userCode != "" && d.uriParses && d.expiresIn > 0
    ensures ValidateDevice(d).Some? ==>
              var v := ValidateDevice(d).value;
              && v.deviceCode == d.deviceCode && v.userCode == d.userCode && v.interval == d.interval
              && (d.expiresIn <= 1800 ==> v.expiresIn == d.expiresIn) && (d.expiresIn > 1800 ==> v.expiresIn == 1800)
              && (d.completeParses ==> v.completeUri == d.completeUri) && (!d.completeParses ==> v.completeUri == None)
  {
  }

  /** A positive interval is used up to a minute; without one, five seconds. */
  lemma PollIntervalUsed(d: Device)
    ensures forall s: nat :: d.interval == Some(s) && 1 <= s <= 60 ==> PollInterval(d) == s
    ensures forall s: nat :: d.interval == Some(s) && s > 60 ==> PollInterval(d) == 60
    ensures d.interval == None || d.interval == Some(0) ==> PollInterval(d) == 5
  {
  }

  /**
   A validated grant lives at most half an hour, and however it is polled it
   makes at most its lifetime divided by its interval requests, fewer than
   1800.
   */
  lemma ValidatedGrantRequests(d: Device, start: nat, requests: seq<Request>)
    requires ValidateDevice(d).Some?
    requires
      var v := ValidateDevice(d).value;
      Paced(start, PollInterval(v) * SECOND, start + v.expiresIn * SECOND, requests)
    ensures
      var v := ValidateDevice(d).value;
      && 0 < v.expiresIn <= MAX_DEVICE_LIFETIME && 1 <= PollInterval(v) <= MAX_DEVICE_POLL_INTERVAL
      && |requests| <= v.expiresIn / PollInterval(v)
      && |requests| < 1800
  {
    var v := ValidateDevice(d).value;
    IntervalsFit(start, PollInterval(v) * SECOND, v.expiresIn * SECOND, requests);
    QuotientBound(|requests|, PollInterval(v), v.expiresIn);
  }

  /** Polling for a validated grant makes no more requests than that, whatever the endpoint answers. */
  lemma PollOfValidatedGrant(d: Device, start: nat, answers: nat -> Attempt)
    requires ValidateDevice(d).Some?
    ensures
      var v := ValidateDevice(d).value;
      var (requests, end, outcome) :=
        Poll(start + v.expiresIn * SECOND, answers, [], start, PollInterval(v) * SECOND);
      && Stopped(start, PollInterval(v) * SECOND, start + v.expiresIn * SECOND, answers, requests, end, outcome)
      && |requests| <= v.expiresIn / PollInterval(v) && |requests| < 1800
  {
    var v := ValidateDevice(d).value;
    PollKeepsPace(start, PollInterval(v) * SECOND, v.expiresIn * SECOND, answers);
    var (requests, _, _) := Poll(start + v.expiresIn * SECOND, answers, [], start, PollInterval(v) * SECOND);
    ValidatedGrantRequests(d, start, requests);
  }

  lemma QuotientBound(n: nat, p: nat, e: nat)
    requires p > 0 && (n > 0 ==> n * (p * SECOND) < e * SECOND)
    ensures n <= e / p && (n > 0 ==> n < e)
  {
    if n > 0 {
      calc {
        n * (p * SECOND);
        (n * p) * SECOND;
      }
      WholeSeconds(n * p, e);
      FewerThan(n, p);
      QuotientAtLeast(n, p, e);
    }
  }

  lemma WholeSeconds(a: nat, b: nat)
    requires a * SECOND < b * SECOND
    ensures a < b
  {}

  lemma FewerThan(n: nat, p: nat)
    requires p > 0
    ensures n <= n * p
  {
    assert n * p == n * (p - 1) + n;
  }

  lemma QuotientAtLeast(n: nat, p: nat, e: nat)
    requires p > 0 && n * p <= e
    ensures n <= e / p
  {
    var q := e / p;
    assert e == q * p + e % p;
    if n > q {
      Multiples(q + 1, n, p);
      assert false;
    }
  }

  lemma Multiples(m: nat, n: nat, p: nat)
    requires m <= n
    ensures m * p <= n * p
  {
    assert n * p == m * p + (n - m) * p;
  }
}
