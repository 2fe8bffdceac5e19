/**
 The controller's cache of signing keys. Any number of lookups interleave: one
 that misses the cache queues for the refresh gate, looks again, and fetches
 the key set unless a refresh was attempted less than the cooldown ago. A
 lookup can be cancelled wherever it waits.
 */
module JwksCache {
  import opened Common

  type Kid = string

  datatype Key = Key(kid: Option<Kid>, material: string)

  type KeySet = seq<Key>

  /** The first key with the identifier. */
  function Find(keys: KeySet, kid: Kid): (r: Option<Key>)
    ensures r.Some? ==> r.value in keys && r.value.kid == Some(kid)
    ensures r.None? ==> forall k :: k in keys ==> k.kid != Some(kid)
  {
    if keys == [] then None else if keys[0].kid == Some(kid) then Some(keys[0]) else Find(keys[1..], kid)
  }

  datatype Result = Found(key: Key) | RateLimited | FetchFailed | StillUnknown

  /** Where a lookup is; `since` and `until` count the key sets installed when it began and when it returned. */
  datatype Lookup =
    | Waiting(kid: Kid, since: nat)
    | Holding(kid: Kid, since: nat)
    | Fetching(kid: Kid, since: nat)
    | Installed(kid: Kid, since: nat)
    | Returned(kid: Kid, since: nat, until: nat, result: Result)

  /**
   `installed` lists every key set the cache has held, the current one last,
   and `fetches` the instants at which fetches started.
   */
  datatype Cache = Cache(
    now: nat, keys: KeySet, gate: Option<nat>, lastAttempt: Option<nat>,
    lookups: map<nat, Lookup>, installed: seq<KeySet>, fetches: seq<nat>)

  datatype Action =
    | Wait(to: nat)
    | Begin(p: nat, kid: Kid)
    | Enter(p: nat)
    | Recheck(p: nat)
    | FetchFails(p: nat)
    | FetchSucceeds(p: nat, keys: KeySet)
    | Finish(p: nat)
    | Cancel(p: nat)

  predicate HoldsGate(l: Lookup) {
    l.Holding? || l.Fetching? || l.Installed?
  }

  ghost predicate Enabled(c: Cache, a: Action) {
    match a
    case Wait(to) => c.now <= to
    case Begin(p, _) => p !in c.lookups
    case Enter(p) => p in c.lookups && c.lookups[p].Waiting? && c.gate.None?
    case Recheck(p) => p in c.lookups && c.lookups[p].Holding?
    case FetchFails(p) => p in c.lookups && c.lookups[p].Fetching?
    case FetchSucceeds(p, keys) => p in c.lookups && c.lookups[p].Fetching? && keys != []
    case Finish(p) => p in c.lookups && c.lookups[p].Installed?
    case Cancel(p) => p in c.lookups && !c.lookups[p].Returned?
  }

  function Becomes(c: Cache, p: nat, l: Lookup): Cache {
    c.(lookups := c.lookups[p := l])
  }

  function Returns(c: Cache, p: nat, result: Result): Cache
    requires p in c.lookups
  {
    Becomes(c, p, Returned(c.lookups[p].kid, c.lookups[p].since, |c.installed|, result))
  }

  predicate CoolingDown(cooldown: nat, c: Cache) {
    && c.lastAttempt.Some?
    && (if c.lastAttempt.value <= c.now then c.now - c.lastAttempt.value else 0) < cooldown
  }

  ghost function Act(cooldown: nat, c: Cache, a: Action): Cache
    requires Enabled(c, a)
  {
    match a
    case Wait(to) => c.(now := to)
    case Begin(p, kid) =>
      var started := Becomes(c, p, Waiting(kid, |c.installed|));
      if Find(c.keys, kid).Some? then Returns(started, p, Found(Find(c.keys, kid).value)) else started
    case Enter(p) =>
      var l := c.lookups[p];
      Becomes(c, p, Holding(l.kid, l.since)).(gate := Some(p))
    case Recheck(p) =>
      var l := c.lookups[p];
      if Find(c.keys, l.kid).Some? then Returns(c, p, Found(Find(c.keys, l.kid).value)).(gate := None)
      else if CoolingDown(cooldown, c) then Returns(c, p, RateLimited).(gate := None)
      else Becomes(c, p, Fetching(l.kid, l.since)).(lastAttempt := Some(c.now), fetches := c.fetches + [c.now])
    case FetchFails(p) => Returns(c, p, FetchFailed).(gate := None)
    case FetchSucceeds(p, keys) =>
      var l := c.lookups[p];
      Becomes(c, p, Installed(l.kid, l.since)).(keys := keys, installed := c.installed + [keys])
    case Finish(p) =>
      var key := Find(c.keys, c.lookups[p].kid);
      Returns(c, p, if key.Some? then Found(key.value) else StillUnknown).(gate := None)
    case Cancel(p) =>
      c.(lookups := c.lookups - {p}, gate := if HoldsGate(c.lookups[p]) then None else c.gate)
  }

  /** A cache as discovery leaves it. */
  function Initial(now: nat, keys: KeySet): Cache {
    Cache(now, keys, None, None, map[], [keys], [])
  }

  ghost predicate Behaviour(cooldown: nat, actions: seq<Action>, states: seq<Cache>) {
    && |states| == |actions| + 1 && states[0] == Initial(states[0].now, states[0].keys)
    && forall i :: 0 <= i < |actions| ==>
         Enabled(states[i], actions[i]) && states[i + 1] == Act(cooldown, states[i], actions[i])
  }

  // What holds at every moment

  /** The gate is held by exactly the lookup that is past it, and a fetch under way was logged. */
  ghost predicate Gated(c: Cache) {
    && (c.gate.Some? ==> c.gate.value in c.lookups)
    && forall p :: p in c.lookups ==>
         && (HoldsGate(c.lookups[p]) <==> c.gate == Some(p))
         && (c.lookups[p].Fetching? ==> c.fetches != [])
  }

  /** The last attempt is the last fetch, and fetches keep the cooldown. */
  ghost predicate Spaced(cooldown: nat, c: Cache) {
    && c.lastAttempt == (if c.fetches == [] then None else Some(c.fetches[|c.fetches| - 1]))
    && (forall i :: 0 <= i < |c.fetches| ==> c.fetches[i] <= c.now)
    && forall i, j :: 0 <= i < j < |c.fetches| ==> c.fetches[i] + cooldown <= c.fetches[j]
  }

  ghost predicate Current(c: Cache) {
    c.installed != [] && c.keys == c.installed[|c.installed| - 1]
  }

  /** Key set number `n`, cached at some moment of the lookup, has the key that it returned. */
  ghost predicate HeldDuring(c: Cache, l: Lookup, n: nat)
    requires l.Returned? && l.result.Found?
  {
    l.since <= n + 1 && n < l.until <= |c.installed| && Find(c.installed[n], l.kid) == Some(l.result.key)
  }

  ghost predicate Answered(c: Cache, l: Lookup) {
    && l.since <= |c.installed|
    && (l.Returned? && l.result.Found? ==> exists n :: HeldDuring(c, l, n))
  }

  ghost predicate AllAnswered(c: Cache) {
    forall p :: p in c.lookups ==> Answered(c, c.lookups[p])
  }

  ghost predicate Invariant(cooldown: nat, c: Cache) {
    Gated(c) && Spaced(cooldown, c) && Current(c) && AllAnswered(c)
  }

  lemma ActGated(cooldown: nat, c: Cache, a: Action)
    requires Invariant(cooldown, c) && Enabled(c, a)
    ensures Gated(Act(cooldown, c, a))
  {}

  lemma ActSpaced(cooldown: nat, c: Cache, a: Action)
    requires Invariant(cooldown, c) && Enabled(c, a)
    ensures Spaced(cooldown, Act(cooldown, c, a)) && Current(Act(cooldown, c, a))
  {
    if a.Recheck? && c.fetches != [] {
      var d := Act(cooldown, c, a);
      forall i, j | 0 <= i < j < |d.fetches|
        ensures d.fetches[i] + cooldown <= d.fetches[j]
      {
        if i < |c.fetches| - 1 {
          assert c.fetches[i] + cooldown <= c.fetches[|c.fetches| - 1];
        }
      }
    }
  }

  /** What was held stays on record, so answers once justified stay justified. */
  lemma AnsweredStays(c: Cache, d: Cache, l: Lookup)
    requires Answered(c, l) && c.installed <= d.installed
    ensures Answered(d, l)
  {
    if l.Returned? && l.result.Found? {
      var n :| HeldDuring(c, l, n);
      assert HeldDuring(d, l, n);
    }
  }

  lemma ActAnswered(cooldown: nat, c: Cache, a: Action)
    requires Invariant(cooldown, c) && Enabled(c, a)
    ensures AllAnswered(Act(cooldown, c, a))
  {
    var d := Act(cooldown, c, a);
    forall p | p in d.lookups
      ensures Answered(d, d.lookups[p])
    {
      var l := d.lookups[p];
      if p in c.lookups && c.lookups[p] == l {
        AnsweredStays(c, d, l);
      } else if l.Returned? && l.result.Found? {
        assert HeldDuring(d, l, |d.installed| - 1);
      }
    }
  }

  lemma {:induction false} BehaviourInvariant(cooldown: nat, actions: seq<Action>, states: seq<Cache>, i: nat)
    requires Behaviour(cooldown, actions, states) && i < |states|
    ensures Invariant(cooldown, states[i])
  {
    if i > 0 {
      BehaviourInvariant(cooldown, actions, states, i - 1);
      ActGated(cooldown, states[i - 1], actions[i - 1]);
      ActSpaced(cooldown, states[i - 1], actions[i - 1]);
      ActAnswered(cooldown, states[i - 1], actions[i - 1]);
    }
  }

  /** However many lookups miss, any two fetches start at least the cooldown apart. */
  lemma FetchesKeepCooldown(cooldown: nat, actions: seq<Action>, states: seq<Cache>, i: nat, j: nat, k: nat)
    requires Behaviour(cooldown, actions, states) && i < |states| && j < k < |states[i].fetches|
    ensures states[i].fetches[j] + cooldown <= states[i].fetches[k]
  {
    BehaviourInvariant(cooldown, actions, states, i);
  }

  /** At most one fetch is under way, by the holder of the gate. */
  lemma SingleFlight(cooldown: nat, actions: seq<Action>, states: seq<Cache>, i: nat, p: nat, q: nat)
    requires Behaviour(cooldown, actions, states) && i < |states|
    requires p in states[i].lookups && HoldsGate(states[i].lookups[p])
    requires q in states[i].lookups && HoldsGate(states[i].lookups[q])
    ensures p == q && states[i].gate == Some(p)
  {
    BehaviourInvariant(cooldown, actions, states, i);
  }

  /**
   A lookup that returns a key returns one with the identifier it asked for,
   from a key set that was cached at some moment of the lookup: either the one
   cached when it began, or one installed later.
   */
  lemma FoundKeyWasCached(cooldown: nat, actions: seq<Action>, states: seq<Cache>, i: nat, p: nat) returns (n: nat)
    requires Behaviour(cooldown, actions, states) && i < |states|
    requires p in states[i].lookups && states[i].lookups[p].Returned? && states[i].lookups[p].result.Found?
    ensures
      var l := states[i].lookups[p];
      && l.since <= n + 1 && n < l.until <= |states[i].installed|
      && l.result.key in states[i].installed[n] && l.result.key.kid == Some(l.kid)
      && Find(states[i].installed[n], l.kid) == Some(l.result.key)
  {
    BehaviourInvariant(cooldown, actions, states, i);
    var l := states[i].lookups[p];
    assert Answered(states[i], l);
    n :| HeldDuring(states[i], l, n);
  }

  /**
   A fetch that fails or is cancelled frees the gate, keeps the cached keys,
   and still counts as an attempt, so that the next lookup to miss within the
   cooldown is turned away without a fetch.
   */
  lemma FailedFetchCounts(cooldown: nat, actions: seq<Action>, states: seq<Cache>, i: nat, p: nat)
    requires Behaviour(cooldown, actions, states) && i < |actions|
    requires actions[i] == FetchFails(p) || (actions[i] == Cancel(p) && states[i].lookups[p].Fetching?)
    ensures
      var c, d := states[i], states[i + 1];
      && d.keys == c.keys && d.gate.None? && c.fetches != [] && d.fetches == c.fetches
      && d.lastAttempt == Some(c.fetches[|c.fetches| - 1])
  {
    BehaviourInvariant(cooldown, actions, states, i);
  }

  /** A lookup that misses within the cooldown starts no fetch. */
  lemma TurnedAway(cooldown: nat, c: Cache, p: nat)
    requires Invariant(cooldown, c) && Enabled(c, Recheck(p)) && c.fetches != []
    requires c.now < c.fetches[|c.fetches| - 1] + cooldown
    ensures
      var d := Act(cooldown, c, Recheck(p));
      && d.fetches == c.fetches && d.gate.None? && d.lookups[p].Returned?
      && d.lookups[p].result == (if Find(c.keys, c.lookups[p].kid).Some? then Found(Find(c.keys, c.lookups[p].kid).value)
                                 else RateLimited)
  {}

  /** A key that is cached is found at once; otherwise the lookup queues for the gate. */
  lemma CachedIsFound(cooldown: nat, c: Cache, p: nat, kid: Kid)
    requires Enabled(c, Begin(p, kid))
    ensures
      var d := Act(cooldown, c, Begin(p, kid));
      if exists k :: k in c.keys && k.kid == Some(kid) then
        d.lookups[p].Returned? && d.lookups[p].result.Found? && d.lookups[p].result.key in c.keys
        && d.lookups[p].result.key.kid == Some(kid) && d.fetches == c.fetches
      else
        d.lookups[p].Waiting? && d.lookups[p].kid == kid
  {}

  /** A lookup that still misses past the gate fetches, unless a fetch started less than the cooldown ago. */
  lemma MissFetches(cooldown: nat, c: Cache, p: nat)
    requires Invariant(cooldown, c) && Enabled(c, Recheck(p))
    requires forall k :: k in c.keys ==> k.kid != Some(c.lookups[p].kid)
    requires c.fetches == [] || c.fetches[|c.fetches| - 1] + cooldown <= c.now
    ensures
      var d := Act(cooldown, c, Recheck(p));
      d.lookups[p].Fetching? && d.fetches == c.fetches + [c.now] && d.gate == Some(p)
  {}

  lemma InstalledStep(cooldown: nat, c: Cache, a: Action, p: nat)
    requires Gated(c) && Enabled(c, a) && p in c.lookups && c.lookups[p].Installed?
    ensures
      var d := Act(cooldown, c, a);
      d.keys == c.keys && (p in d.lookups && d.lookups[p].Installed? ==> d.lookups[p] == c.lookups[p])
  {
    assert c.gate == Some(p);
  }

  /** While the lookup that installed a key set has not finished, nobody replaces the set. */
  lemma {:induction false} InstalledStays(
    cooldown: nat, actions: seq<Action>, states: seq<Cache>, i: nat, k: nat, p: nat)
    requires Behaviour(cooldown, actions, states) && i <= k < |states|
    requires forall m :: i <= m <= k ==> p in states[m].lookups && states[m].lookups[p].Installed?
    ensures states[k].keys == states[i].keys && states[k].lookups[p] == states[i].lookups[p]
  {
    if i < k {
      InstalledStays(cooldown, actions, states, i, k - 1, p);
      BehaviourInvariant(cooldown, actions, states, k - 1);
      InstalledStep(cooldown, states[k - 1], actions[k - 1], p);
    }
  }

  /**
   A lookup that fetched a key set and finishes finds its key if and only if
   the set it fetched has it.
   */
  lemma FetchedKeyIsFound(
    cooldown: nat, actions: seq<Action>, states: seq<Cache>, i: nat, k: nat, p: nat, keys: KeySet)
    requires Behaviour(cooldown, actions, states) && i < k < |actions|
    requires actions[i] == FetchSucceeds(p, keys) && actions[k] == Finish(p)
    requires forall m :: i < m <= k ==> p in states[m].lookups && states[m].lookups[p].Installed?
    ensures
      var kid, l := states[i].lookups[p].kid, states[k + 1].lookups[p];
      && l.Returned? && l.kid == kid && states[k + 1].gate.None?
      && (if exists key :: key in keys && key.kid == Some(kid)
          then l.result.Found? && l.result.key in keys && l.result.key.kid == Some(kid)
          else l.result == StillUnknown)
  {
    InstalledStays(cooldown, actions, states, i + 1, k, p);
    assert states[i + 1] == Act(cooldown, states[i], actions[i]);
    assert states[k + 1] == Act(cooldown, states[k], actions[k]);
  }
}
