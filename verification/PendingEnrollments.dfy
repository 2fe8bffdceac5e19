/**
 The controller's table of pending enrollments. A browser enrollment fills its
 slot at once; a device enrollment reserves one before it asks the identity
 provider for a grant, and narrows or releases it when the answer comes. The
 table is behind a lock, so every operation on it is one step; requests, the
 answers of the provider and the passing of time interleave freely.
 */
module PendingEnrollments {
  import opened Common

  const ENROLLMENT_LIFETIME: nat := 10 * 60 * SECOND
  const MAX_PENDING_ENROLLMENTS: nat := 1024

  type Id = string

  datatype Pending = Pending(hostname: string, nonce: Option<string>, expiresAt: nat)

  type Table = map<Id, Pending>

  // The operations on the table

  function Pruned(t: Table, now: nat): Table {
    map id | id in t && t[id].expiresAt > now :: t[id]
  }

  predicate HasRoom(t: Table, now: nat) {
    |Pruned(t, now)| < MAX_PENDING_ENROLLMENTS
  }

  /** A full table is pruned all the same. */
  function Inserted(t: Table, now: nat, id: Id, hostname: string, nonce: Option<string>, lifetime: nat): Table {
    if HasRoom(t, now) then Pruned(t, now)[id := Pending(hostname, nonce, now + lifetime)] else Pruned(t, now)
  }

  function Expiring(t: Table, now: nat, id: Id, lifetime: nat): Table {
    if id in t then t[id := t[id].(expiresAt := now + lifetime)] else t
  }

  datatype Outcome = Unknown | Expired | Completes(pending: Pending)

  /** What `complete` finds; whatever it is, the slot is gone afterwards. */
  function CompletionOf(t: Table, now: nat, id: Id): Outcome {
    if id !in t then Unknown else if t[id].expiresAt <= now then Expired else Completes(t[id])
  }

  class PendingTable {
    var pending: Table

    constructor ()
      ensures pending == map[]
    {
      pending := map[];
    }

    /** `insert_pending`: drops what has expired, then takes a slot if one is left. */
    method Insert(now: nat, id: Id, hostname: string, nonce: Option<string>, lifetime: nat) returns (ok: bool)
      modifies this
      ensures ok == HasRoom(old(pending), now)
      ensures ok <==> |set x | x in old(pending) && old(pending)[x].expiresAt > now| < 1024
      ensures pending == Inserted(old(pending), now, id, hostname, nonce, lifetime)
      ensures |old(pending)| <= MAX_PENDING_ENROLLMENTS ==> |pending| <= MAX_PENDING_ENROLLMENTS
    {
      PrunedSmaller(pending, now);
      RoomLeft(pending, now);
      pending := Pruned(pending, now);
      if |pending| >= MAX_PENDING_ENROLLMENTS {
        return false;
      }
      pending := pending[id := Pending(hostname, nonce, now + lifetime)];
      return true;
    }

    /** `release_pending`. */
    method Release(id: Id)
      modifies this
      ensures pending == old(pending) - {id}
    {
      pending := pending - {id};
    }

    /** `set_pending_expiry`. */
    method SetExpiry(now: nat, id: Id, lifetime: nat)
      modifies this
      ensures pending == Expiring(old(pending), now, id, lifetime)
      ensures pending.Keys == old(pending.Keys)
    {
      if id in pending {
        pending := pending[id := pending[id].(expiresAt := now + lifetime)];
      }
    }

    /** The first steps of `complete`: the slot is taken out before anything is checked. */
    method Complete(now: nat, id: Id) returns (c: Outcome)
      modifies this
      ensures c == CompletionOf(old(pending), now, id) && pending == old(pending) - {id}
      ensures c.Completes? <==> id in old(pending) && now < old(pending)[id].expiresAt
      ensures c.Completes? ==> c.pending == old(pending)[id]
    {
      if id !in pending {
        assert pending - {id} == pending;
        return Unknown;
      }
      var enrollment := pending[id];
      pending := pending - {id};
      if enrollment.expiresAt <= now {
        return Expired;
      }
      return Completes(enrollment);
    }
  }

  /** There is room when fewer than 1024 enrollments are pending and not expired. */
  lemma RoomLeft(t: Table, now: nat)
    ensures HasRoom(t, now) <==> |set x | x in t && t[x].expiresAt > now| < 1024
  {
    assert Pruned(t, now).Keys == set x | x in t && t[x].expiresAt > now;
    assert |Pruned(t, now)| == |Pruned(t, now).Keys|;
  }

  lemma PrunedSmaller(t: Table, now: nat)
    ensures |Pruned(t, now)| <= |t|
  {
    assert Pruned(t, now).Keys <= t.Keys;
    SubsetSmaller(Pruned(t, now).Keys, t.Keys);
  }

  lemma {:induction false} SubsetSmaller<T>(a: set<T>, b: set<T>)
    requires a <= b
    ensures |a| <= |b|
  {
    assert b == a + (b - a);
  }

  lemma InsertedBounded(t: Table, now: nat, id: Id, hostname: string, nonce: Option<string>, lifetime: nat)
    requires |t| <= MAX_PENDING_ENROLLMENTS
    ensures |Inserted(t, now, id, hostname, nonce, lifetime)| <= MAX_PENDING_ENROLLMENTS
  {
    PrunedSmaller(t, now);
  }

  lemma RemovedSmaller(t: Table, id: Id)
    ensures |t - {id}| <= |t|
  {
    assert (t - {id}).Keys <= t.Keys;
    SubsetSmaller((t - {id}).Keys, t.Keys);
  }

  /** Releasing a new reservation undoes it: what is left is the table without what had expired. */
  lemma ReleaseUndoesInsert(t: Table, now: nat, id: Id, hostname: string, nonce: Option<string>, lifetime: nat)
    requires id !in t
    ensures Inserted(t, now, id, hostname, nonce, lifetime) - {id} == Pruned(t, now)
    ensures HasRoom(t, now) ==> HasRoom(Inserted(t, now, id, hostname, nonce, lifetime) - {id}, now)
  {
    assert Pruned(Pruned(t, now), now) == Pruned(t, now);
  }

  /**
   Setting the expiry is meant to narrow a reservation. It does exactly when
   the answer was quick enough for its lifetime; a slow answer extends it.
   */
  lemma NarrowsExactlyWhenQuick(
    t: Table, reserved: nat, id: Id, hostname: string, now: nat, lifetime: nat)
    requires HasRoom(t, reserved) && reserved <= now
    ensures
      var before := Inserted(t, reserved, id, hostname, None, ENROLLMENT_LIFETIME);
      var after := Expiring(before, now, id, lifetime);
      after[id].expiresAt <= before[id].expiresAt <==> (now - reserved) + lifetime <= ENROLLMENT_LIFETIME
  {}

  /** An answer that takes five minutes and allows ten keeps the slot five minutes longer than reserved. */
  lemma SlowAnswerExtends(id: Id, hostname: string)
    ensures
      var before := Inserted(map[], 0, id, hostname, None, ENROLLMENT_LIFETIME);
      before[id].expiresAt == 600 * SECOND
      && Expiring(before, 300 * SECOND, id, 600 * SECOND)[id].expiresAt == 900 * SECOND
  {
    assert Pruned(map[], 0) == map[];
  }

  // A controller under any number of requests

  /** A device authorization response; whether its address parses is part of it. */
  datatype Device = Device(deviceCode: string, userCode: string, uriParses: bool, expiresIn: nat)

  /** How long `device_enrollment_response` keeps the enrollment pending, or none when it refuses the answer. */
  function GrantLifetime(d: Device): (r: Option<nat>)
    ensures r.Some? <==> d.deviceCode != "" && d.userCode != "" && d.uriParses && d.expiresIn > 0
    ensures r.Some? && d.expiresIn <= 600 ==> r.value == d.expiresIn * SECOND
    ensures r.Some? && d.expiresIn > 600 ==> r.value == 600 * SECOND
    ensures r.Some? ==> 0 < r.value <= ENROLLMENT_LIFETIME
  {
    if d.deviceCode == "" || d.userCode == "" || !d.uriParses then None
    else
      var lifetime := if d.expiresIn * SECOND < ENROLLMENT_LIFETIME then d.expiresIn * SECOND else ENROLLMENT_LIFETIME;
      if lifetime == 0 then None else Some(lifetime)
  }

  /** A device enrollment request in flight, with the instant of its reservation. */
  datatype Request = Reserved(id: Id, at: nat) | Asking(id: Id, at: nat)

  /**
   `used` holds every identifier drawn, `reserved` those that got a slot for a
   device enrollment, and `taken` those presented to `complete`; `asked`,
   `failed` and `completed` record the identifiers whose grant was requested,
   whose request failed, and whose enrollment was completed, each completion
   with its instant and what was pending.
   */
  datatype Controller = Controller(
    now: nat, table: Table, requests: map<nat, Request>, used: set<Id>, reserved: set<Id>, taken: set<Id>,
    asked: seq<Id>, failed: set<Id>, completed: seq<Done>)

  /** A completion: when, and what was pending. */
  datatype Done = Done(id: Id, at: nat, pending: Pending)

  datatype Event =
    | Wait(to: nat)
    | Begin(id: Id, hostname: string, nonce: string)
    | BeginDevice(request: nat, id: Id, hostname: string)
    | Ask(request: nat)
    | Answered(request: nat, device: Device)
    | Failed(request: nat)
    | Abandoned(request: nat)
    | Complete(id: Id)

  /** Identifiers are drawn at random and taken never to repeat. */
  ghost predicate Enabled(c: Controller, e: Event) {
    match e
    case Wait(to) => c.now <= to
    case Begin(id, _, _) => id !in c.used
    case BeginDevice(request, id, _) => request !in c.requests && id !in c.used
    case Ask(request) => request in c.requests && c.requests[request].Reserved?
    case Answered(request, device) =>
      request in c.requests && c.requests[request].Asking? && GrantLifetime(device).Some?
    case Failed(request) => request in c.requests && c.requests[request].Asking?
    case Abandoned(request) => request in c.requests
    case Complete(_) => true
  }

  ghost function After(c: Controller, e: Event): Controller
    requires Enabled(c, e)
  {
    match e
    case Wait(to) => c.(now := to)
    case Begin(id, hostname, nonce) =>
      c.(table := Inserted(c.table, c.now, id, hostname, Some(nonce), ENROLLMENT_LIFETIME), used := c.used + {id})
    case BeginDevice(request, id, hostname) =>
      var d := c.(table := Inserted(c.table, c.now, id, hostname, None, ENROLLMENT_LIFETIME), used := c.used + {id});
      if HasRoom(c.table, c.now) then
        d.(requests := c.requests[request := Reserved(id, c.now)], reserved := c.reserved + {id})
      else d
    case Ask(request) =>
      var r := c.requests[request];
      c.(requests := c.requests[request := Asking(r.id, r.at)], asked := c.asked + [r.id])
    case Answered(request, device) =>
      c.(table := Expiring(c.table, c.now, c.requests[request].id, GrantLifetime(device).value),
         requests := c.requests - {request})
    case Failed(request) =>
      var id := c.requests[request].id;
      c.(table := c.table - {id}, requests := c.requests - {request}, failed := c.failed + {id})
    case Abandoned(request) => c.(requests := c.requests - {request})
    case Complete(id) =>
      var d := c.(table := c.table - {id}, taken := c.taken + {id});
      match CompletionOf(c.table, c.now, id)
      case Completes(p) => d.(completed := c.completed + [Done(id, c.now, p)])
      case _ => d
  }

  const START: Controller := Controller(0, map[], map[], {}, {}, {}, [], {}, [])

  ghost predicate Behaviour(events: seq<Event>, states: seq<Controller>) {
    && |states| == |events| + 1 && states[0] == START
    && forall i :: 0 <= i < |events| ==> Enabled(states[i], events[i]) && states[i + 1] == After(states[i], events[i])
  }

  // What holds at every moment

  /** The table is bounded, and no slot outlives ten minutes from now. */
  ghost predicate Bounded(c: Controller) {
    |c.table| <= MAX_PENDING_ENROLLMENTS && Deadlines(c)
  }

  ghost predicate Deadlines(c: Controller) {
    forall id :: id in c.table ==> c.table[id].expiresAt <= c.now + ENROLLMENT_LIFETIME
  }

  /** Slots and reservations are of identifiers that were drawn. */
  ghost predicate Drawn(c: Controller) {
    && c.table.Keys <= c.used && c.reserved <= c.used && c.failed <= c.used
    && (forall r :: r in c.requests ==> c.requests[r].id in c.reserved)
    && forall i :: 0 <= i < |c.completed| ==> c.completed[i].id in c.used
  }

  /** No two requests in flight are about one enrollment, and only requests not yet sent are still to be logged. */
  ghost predicate Distinct(c: Controller) {
    && (forall r, s :: r in c.requests && s in c.requests && r != s ==> c.requests[r].id != c.requests[s].id)
    && (forall r :: r in c.requests && c.requests[r].Reserved? ==> c.requests[r].id !in c.asked)
    && forall i :: 0 <= i < |c.asked| ==> c.asked[i] in c.reserved
  }

  /** Each grant is requested once, for a reservation; a failed request leaves no slot. */
  ghost predicate AskedOnce(c: Controller) {
    && (forall i, j :: 0 <= i < j < |c.asked| ==> c.asked[i] != c.asked[j])
    && c.failed !! c.table.Keys
  }

  /** An enrollment is completed once, before its deadline, and has no slot afterwards. */
  ghost predicate CompletedOnce(c: Controller) {
    && (forall i, j :: 0 <= i < j < |c.completed| ==> c.completed[i].id != c.completed[j].id)
    && forall i :: 0 <= i < |c.completed| ==> c.completed[i].id !in c.table && c.completed[i].at < c.completed[i].pending.expiresAt
  }

  /** A request in flight holds its slot until the slot expires or somebody presents its identifier. */
  ghost predicate Holding(c: Controller) {
    forall r :: r in c.requests && Young(c, c.requests[r]) ==>
      && c.requests[r].id in c.table
      && c.table[c.requests[r].id].expiresAt == c.requests[r].at + ENROLLMENT_LIFETIME
  }

  ghost predicate Young(c: Controller, r: Request) {
    c.now < r.at + ENROLLMENT_LIFETIME && r.id !in c.taken
  }

  ghost predicate Invariant(c: Controller) {
    Holding(c) && Bounded(c) && Drawn(c) && Distinct(c) && AskedOnce(c) && CompletedOnce(c)
  }

  lemma StepSized(c: Controller, e: Event)
    requires |c.table| <= MAX_PENDING_ENROLLMENTS && Enabled(c, e)
    ensures |After(c, e).table| <= MAX_PENDING_ENROLLMENTS
  {
    match e
    case Wait(_) =>
    case Begin(id, hostname, nonce) =>
      InsertedBounded(c.table, c.now, id, hostname, Some(nonce), ENROLLMENT_LIFETIME);
    case BeginDevice(_, id, hostname) => InsertedBounded(c.table, c.now, id, hostname, None, ENROLLMENT_LIFETIME);
    case Ask(_) =>
    case Answered(request, _) =>
    case Failed(request) => RemovedSmaller(c.table, c.requests[request].id);
    case Abandoned(_) =>
    case Complete(id) => RemovedSmaller(c.table, id);
  }

  lemma StepDeadlines(c: Controller, e: Event)
    requires Deadlines(c) && Enabled(c, e)
    ensures Deadlines(After(c, e))
  {}

  lemma StepDrawn(c: Controller, e: Event)
    requires Invariant(c) && Enabled(c, e)
    ensures Drawn(After(c, e))
  {}

  lemma StepDistinct(c: Controller, e: Event)
    requires Invariant(c) && Enabled(c, e)
    ensures Distinct(After(c, e))
  {
    if e.BeginDevice? {
      assert e.id !in c.reserved;
      assert forall i :: 0 <= i < |c.asked| ==> c.asked[i] != e.id;
    }
  }

  lemma StepAskedOnce(c: Controller, e: Event)
    requires Invariant(c) && Enabled(c, e)
    ensures AskedOnce(After(c, e))
  {}

  lemma StepCompletedOnce(c: Controller, e: Event)
    requires Invariant(c) && Enabled(c, e)
    ensures CompletedOnce(After(c, e))
  {}

  lemma StepHolds(c: Controller, e: Event, r: nat)
    requires Invariant(c) && Enabled(c, e) && r in After(c, e).requests
    requires Young(After(c, e), After(c, e).requests[r])
    ensures
      var d := After(c, e);
      && d.requests[r].id in d.table
      && d.table[d.requests[r].id].expiresAt == d.requests[r].at + ENROLLMENT_LIFETIME
  {
    if r in c.requests {
      assert Young(c, c.requests[r]);
    }
  }

  lemma StepHolding(c: Controller, e: Event)
    requires Invariant(c) && Enabled(c, e)
    ensures Holding(After(c, e))
  {
    var d := After(c, e);
    forall r | r in d.requests && Young(d, d.requests[r])
      ensures d.requests[r].id in d.table
      ensures d.table[d.requests[r].id].expiresAt == d.requests[r].at + ENROLLMENT_LIFETIME
    {
      StepHolds(c, e, r);
    }
  }

  lemma {:induction false} BehaviourInvariant(events: seq<Event>, states: seq<Controller>, i: nat)
    requires Behaviour(events, states) && i < |states|
    ensures Invariant(states[i])
  {
    if i > 0 {
      BehaviourInvariant(events, states, i - 1);
      var c, e := states[i - 1], events[i - 1];
      StepHolding(c, e);
      StepSized(c, e);
      StepDeadlines(c, e);
      StepDrawn(c, e);
      StepDistinct(c, e);
      StepAskedOnce(c, e);
      StepCompletedOnce(c, e);
    }
  }

  /**
   At every moment of every run: at most 1024 enrollments are pending and none
   for longer than ten minutes more; a grant is requested once, and only for a
   slot that was reserved before; a failed request has left no slot; and an
   enrollment is completed at most once, before its deadline.
   */
  lemma EnrollmentsBounded(events: seq<Event>, states: seq<Controller>, i: nat)
    requires Behaviour(events, states) && i < |states|
    ensures
      var c := states[i];
      && |c.table| <= MAX_PENDING_ENROLLMENTS
      && (forall id :: id in c.table ==> c.table[id].expiresAt <= c.now + ENROLLMENT_LIFETIME)
      && (forall k :: 0 <= k < |c.asked| ==> c.asked[k] in c.reserved)
      && (forall j, k :: 0 <= j < k < |c.asked| ==> c.asked[j] != c.asked[k])
      && (forall id :: id in c.failed ==> id !in c.table)
      && (forall j, k :: 0 <= j < k < |c.completed| ==> c.completed[j].id != c.completed[k].id)
      && (forall k :: 0 <= k < |c.completed| ==> c.completed[k].at < c.completed[k].pending.expiresAt)
  {
    BehaviourInvariant(events, states, i);
  }

  // A pending enrollment completes until its deadline

  /** `p` is what is pending for `id`: it is there at least until its deadline, and nothing else is. */
  ghost predicate Stands(c: Controller, id: Id, p: Pending) {
    && id in c.used
    && (c.now < p.expiresAt ==> id in c.table)
    && (id in c.table ==> c.table[id] == p)
  }

  /** No device request in flight is about `id`. */
  ghost predicate NotAsked(c: Controller, id: Id) {
    forall r :: r in c.requests ==> c.requests[r].id != id
  }

  /** The event neither presents `id` nor answers or fails a request about it. */
  ghost predicate LeavesAlone(c: Controller, e: Event, id: Id) {
    && e != Complete(id)
    && ((e.Answered? || e.Failed?) && e.request in c.requests ==> c.requests[e.request].id != id)
  }

  lemma StepStands(c: Controller, e: Event, id: Id, p: Pending)
    requires Enabled(c, e) && Stands(c, id, p) && LeavesAlone(c, e, id)
    ensures Stands(After(c, e), id, p)
  {}

  lemma StepNotAsked(c: Controller, e: Event, id: Id)
    requires Enabled(c, e) && NotAsked(c, id) && id in c.used
    ensures NotAsked(After(c, e), id) && id in After(c, e).used
  {}

  lemma UnaskedStands(c: Controller, e: Event, id: Id, p: Pending)
    requires Enabled(c, e) && Stands(c, id, p) && NotAsked(c, id) && e != Complete(id)
    ensures Stands(After(c, e), id, p) && NotAsked(After(c, e), id)
  {
    StepStands(c, e, id, p);
    StepNotAsked(c, e, id);
  }

  ghost predicate NotPresented(events: seq<Event>, id: Id, from: nat, to: nat) {
    forall k :: from <= k < to && k < |events| ==> events[k] != Complete(id)
  }

  /** What nobody asks about and nobody presents stays. */
  lemma {:induction false} StandsOn(
    events: seq<Event>, states: seq<Controller>, i: nat, k: nat, id: Id, p: Pending)
    requires Behaviour(events, states) && i <= k < |states| && NotPresented(events, id, i, k)
    requires Stands(states[i], id, p) && NotAsked(states[i], id)
    ensures Stands(states[k], id, p) && NotAsked(states[k], id)
  {
    if i < k {
      var c, e := states[k - 1], events[k - 1];
      StandsOn(events, states, i, k - 1, id, p);
      assert e != Complete(id) && Enabled(c, e) && states[k] == After(c, e);
      UnaskedStands(c, e, id, p);
    }
  }

  /** Presenting what stands completes it before its deadline, and from then on does not. */
  lemma PresentedCompletes(c: Controller, id: Id, p: Pending)
    requires Stands(c, id, p)
    ensures
      After(c, Complete(id)).completed ==
      if c.now < p.expiresAt then c.completed + [Done(id, c.now, p)] else c.completed
  {}

  lemma BegunStands(c: Controller, id: Id, hostname: string, nonce: string)
    requires Invariant(c) && Enabled(c, Begin(id, hostname, nonce)) && HasRoom(c.table, c.now)
    ensures
      var d := After(c, Begin(id, hostname, nonce));
      Stands(d, id, Pending(hostname, Some(nonce), c.now + 600 * SECOND)) && NotAsked(d, id)
  {}

  /**
   A browser enrollment that found room and was not presented since is
   completed when it is presented, with the hostname and nonce it was begun
   with, at every moment of the ten minutes after it was begun, and not later.
   */
  lemma BrowserEnrollmentCompletes(
    events: seq<Event>, states: seq<Controller>, i: nat, k: nat, id: Id, hostname: string, nonce: string)
    requires Behaviour(events, states) && i < k < |events|
    requires events[i] == Begin(id, hostname, nonce) && HasRoom(states[i].table, states[i].now)
    requires NotPresented(events, id, i + 1, k) && events[k] == Complete(id)
    ensures
      var deadline := states[i].now + 600 * SECOND;
      states[k + 1].completed ==
      if states[k].now < deadline
      then states[k].completed + [Done(id, states[k].now, Pending(hostname, Some(nonce), deadline))]
      else states[k].completed
  {
    BehaviourInvariant(events, states, i);
    BegunStands(states[i], id, hostname, nonce);
    var p := Pending(hostname, Some(nonce), states[i].now + 600 * SECOND);
    StandsOn(events, states, i + 1, k, id, p);
    PresentedCompletes(states[k], id, p);
  }

  /** A device request whose reservation is still in the table has it as reserved. */
  ghost predicate ReservedAs(c: Controller, request: nat, id: Id, p: Pending) {
    && Stands(c, id, p)
    && request in c.requests && c.requests[request].id == id
  }

  lemma ReservedStands(c: Controller, request: nat, id: Id, hostname: string)
    requires Invariant(c) && Enabled(c, BeginDevice(request, id, hostname)) && HasRoom(c.table, c.now)
    ensures
      ReservedAs(
        After(c, BeginDevice(request, id, hostname)), request, id, Pending(hostname, None, c.now + 600 * SECOND))
  {}

  /** Only its own answer, failure or abandonment ends a device request. */
  ghost predicate StillAsking(events: seq<Event>, request: nat, from: nat, to: nat) {
    forall k :: from <= k < to && k < |events| ==>
      events[k].Answered? || events[k].Failed? || events[k].Abandoned? ==> events[k].request != request
  }

  lemma {:induction false} ReservedOn(
    events: seq<Event>, states: seq<Controller>, i: nat, k: nat, request: nat, id: Id, p: Pending)
    requires Behaviour(events, states) && i <= k < |states|
    requires NotPresented(events, id, i, k) && StillAsking(events, request, i, k)
    requires ReservedAs(states[i], request, id, p)
    ensures ReservedAs(states[k], request, id, p)
  {
    if i < k {
      ReservedOn(events, states, i, k - 1, request, id, p);
      BehaviourInvariant(events, states, k - 1);
      StepStands(states[k - 1], events[k - 1], id, p);
    }
  }

  /** An answer sets the deadline of a reservation that is there, and ends the request. */
  lemma AnswerStands(c: Controller, request: nat, id: Id, p: Pending, device: Device)
    requires Invariant(c) && Enabled(c, Answered(request, device)) && ReservedAs(c, request, id, p) && id in c.table
    ensures
      var d := After(c, Answered(request, device));
      Stands(d, id, p.(expiresAt := c.now + GrantLifetime(device).value)) && NotAsked(d, id)
  {}

  /**
   A device enrollment that found room, whose grant was answered while its
   reservation was there, and that was not presented since is completed when
   it is presented, with its hostname and without a nonce, until the lifetime
   of the answer has passed, and not later.
   */
  lemma DeviceEnrollmentCompletes(
    events: seq<Event>, states: seq<Controller>, i: nat, j: nat, k: nat, request: nat, id: Id, hostname: string,
    device: Device)
    requires Behaviour(events, states) && i < j < k < |events|
    requires events[i] == BeginDevice(request, id, hostname) && HasRoom(states[i].table, states[i].now)
    requires StillAsking(events, request, i + 1, j) && events[j] == Answered(request, device)
    requires states[j].now < states[i].now + 600 * SECOND || id in states[j].table
    requires NotPresented(events, id, i + 1, k) && events[k] == Complete(id)
    ensures
      var deadline := states[j].now + GrantLifetime(device).value;
      states[k + 1].completed ==
      if states[k].now < deadline
      then states[k].completed + [Done(id, states[k].now, Pending(hostname, None, deadline))]
      else states[k].completed
  {
    var p := Pending(hostname, None, states[i].now + 600 * SECOND);
    BehaviourInvariant(events, states, i);
    BehaviourInvariant(events, states, j);
    ReservedStands(states[i], request, id, hostname);
    ReservedOn(events, states, i + 1, j, request, id, p);
    AnswerStands(states[j], request, id, p, device);
    var answered := p.(expiresAt := states[j].now + GrantLifetime(device).value);
    StandsOn(events, states, j + 1, k, id, answered);
    PresentedCompletes(states[k], id, answered);
  }

  /** An enrollment that finds no room, or is not pending any more, is not completed. */
  lemma {:induction false} GoneNeverCompletes(events: seq<Event>, states: seq<Controller>, i: nat, k: nat, id: Id)
    requires Behaviour(events, states) && i <= k < |states| && id in states[i].used && id !in states[i].table
    ensures id !in states[k].table && id in states[k].used
    ensures k < |events| && events[k] == Complete(id) ==> states[k + 1].completed == states[k].completed
  {
    if i < k {
      GoneNeverCompletes(events, states, i, k - 1, id);
    }
  }

  /** The requests in flight whose reservation still stands. */
  ghost function InFlight(c: Controller): set<nat> {
    set r | r in c.requests && Young(c, c.requests[r])
  }

  lemma {:induction false} InjectionSmaller(rs: set<nat>, requests: map<nat, Request>, ids: set<Id>)
    requires forall r :: r in rs ==> r in requests && requests[r].id in ids
    requires forall r, s :: r in rs && s in rs && r != s ==> requests[r].id != requests[s].id
    ensures |rs| <= |ids|
  {
    if rs != {} {
      var r :| r in rs;
      InjectionSmaller(rs - {r}, requests, ids - {requests[r].id});
    }
  }

  /**
   Reserving first bounds what reaches the provider: at no moment are more
   than 1024 device requests in flight, not counting those that have been for
   ten minutes or whose identifier was already presented for completion.
   */
  lemma RequestsInFlightBounded(events: seq<Event>, states: seq<Controller>, i: nat)
    requires Behaviour(events, states) && i < |states|
    ensures
      var c := states[i];
      |InFlight(c)| <= MAX_PENDING_ENROLLMENTS
  {
    BehaviourInvariant(events, states, i);
    var c := states[i];
    InjectionSmaller(InFlight(c), c.requests, c.table.Keys);
    assert |c.table.Keys| == |c.table|;
  }

  /** A device enrollment whose grant is answered after five minutes, and completed after twelve. */
  function SlowRun(id: Id, hostname: string, device: Device): seq<Event> {
    [BeginDevice(0, id, hostname), Ask(0), Wait(300 * SECOND), Answered(0, device), Wait(720 * SECOND), Complete(id)]
  }

  ghost function SlowStates(id: Id, hostname: string): seq<Controller> {
    var s0 := START;
    var s1 := s0.(table := map[id := Pending(hostname, None, 600 * SECOND)], used := {id},
                  requests := map[0 := Reserved(id, 0)], reserved := {id});
    var s2 := s1.(requests := map[0 := Asking(id, 0)], asked := [id]);
    var s3 := s2.(now := 300 * SECOND);
    var s4 := s3.(table := map[id := Pending(hostname, None, 900 * SECOND)], requests := map[]);
    var s5 := s4.(now := 720 * SECOND);
    [s0, s1, s2, s3, s4, s5,
     s5.(table := map[], taken := {id}, completed := [Done(id, 720 * SECOND, Pending(hostname, None, 900 * SECOND))])]
  }

  lemma SlowBegins(id: Id, hostname: string)
    ensures Pruned(map[], 0) == map[] && HasRoom(map[], 0)
    ensures
      Inserted(map[], 0, id, hostname, None, ENROLLMENT_LIFETIME) == map[id := Pending(hostname, None, 600 * SECOND)]
  {
    assert Pruned(map[], 0) == map[];
  }

  lemma SlowAsks(id: Id, hostname: string, device: Device, i: nat)
    requires i < 3
    ensures
      var e, s := SlowRun(id, hostname, device), SlowStates(id, hostname);
      Enabled(s[i], e[i]) && s[i + 1] == After(s[i], e[i])
  {
    SlowBegins(id, hostname);
  }

  lemma SlowCompletes(id: Id, hostname: string, device: Device, i: nat)
    requires GrantLifetime(device) == Some(ENROLLMENT_LIFETIME) && 3 <= i < 6
    ensures
      var e, s := SlowRun(id, hostname, device), SlowStates(id, hostname);
      Enabled(s[i], e[i]) && s[i + 1] == After(s[i], e[i])
  {
    assert map[0 := Asking(id, 0)] - {0} == map[];
    assert map[id := Pending(hostname, None, 900 * SECOND)] - {id} == map[];
  }

  /** A slot can outlive its reservation: it is completed two minutes after the ten it was reserved for. */
  lemma SlotOutlivesReservation(id: Id, hostname: string, device: Device)
    requires GrantLifetime(device) == Some(ENROLLMENT_LIFETIME)
    ensures
      var s := SlowStates(id, hostname);
      && Behaviour(SlowRun(id, hostname, device), s)
      && s[1].table[id].expiresAt == ENROLLMENT_LIFETIME
      && s[6].completed == [Done(id, ENROLLMENT_LIFETIME + 120 * SECOND, Pending(hostname, None, 900 * SECOND))]
  {
    forall i | 0 <= i < 6
      ensures
        var e, s := SlowRun(id, hostname, device), SlowStates(id, hostname);
        Enabled(s[i], e[i]) && s[i + 1] == After(s[i], e[i])
    {
      if i < 3 {
        SlowAsks(id, hostname, device, i);
      } else {
        SlowCompletes(id, hostname, device, i);
      }
    }
  }
}
