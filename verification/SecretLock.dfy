/**
 The store under its lock. Any number of threads and processes call `get`,
 `set` and `delete`; each call takes the lock, shared or exclusive, and then
 works step by step while others do the same. Every run is equivalent to one
 in which writes and deletes happen one at a time, and every read answers from
 the store as it was at one moment of the call.

 A process that dies in the middle of a call leaves the disk as the call with
 its next step failing does, and its lock is released, so it is covered by
 the calls whose steps fail.
 */
module SecretLock {
  import opened Common
  import opened SecretStore
  import opened SecretRuns

  datatype Call =
    | GetCall(entry: Entry, faults: set<Op>)
    | SetCall(entry: Entry, secret: Text, faults: set<Op>, freshId: string, freshKey: Key)
    | DeleteCall(entry: Entry, faults: set<Op>)

  datatype Outcome = Answered(answer: Answer) | Succeeded | Failed

  // One call at a time

  /** `get` with the steps in `faults` failing. */
  function GetOutcome(d: Disk, e: Entry, faults: set<Op>): Outcome {
    if ReadFile in faults then Failed
    else if e !in d.files then
      if ReadLegacy in faults then Failed else Answered(Get(d, e))
    else if ReadId in faults then Failed
    else if StoreId(d.idFile).Some? && ReadKeyEntry in faults then Failed
    else Answered(Get(d, e))
  }

  function Sequential(d: Disk, call: Call): (Disk, Outcome) {
    match call
    case GetCall(e, faults) => (d, GetOutcome(d, e, faults))
    case SetCall(e, secret, faults, freshId, freshKey) =>
      var (after, ok) := Set(d, e, secret, faults, freshId, freshKey);
      (after, if ok then Succeeded else Failed)
    case DeleteCall(e, faults) =>
      var (after, ok) := Delete(d, e, faults);
      (after, if ok then Succeeded else Failed)
  }

  // One step at a time

  /** Where a call that holds the lock is, with what it has read so far. */
  datatype Pc =
    | Begin
    | HasFile(sealed: Sealed)
    | HasFileAndId(sealed: Sealed, id: string)
    | NeedsId
    | HasId(id: string)
    | NeedsClearing(id: string)
    | NeedsKey(id: string)
    | HasKey(key: Key)
    | Probed(key: Key, first: bool)
    | Written(first: bool)
    | LegacyDeleted
    | FileDeleted
    | HasIdToDelete(id: string)
    | Finished(outcome: Outcome)

  /** An upper bound on the steps left. */
  function Rank(pc: Pc): nat {
    match pc
    case Begin => 8
    case NeedsId => 7
    case HasId(_) => 6
    case NeedsClearing(_) => 5
    case NeedsKey(_) => 4
    case HasKey(_) => 3
    case Probed(_, _) => 2
    case Written(_) => 1
    case LegacyDeleted => 3
    case FileDeleted => 2
    case HasIdToDelete(_) => 1
    case HasFile(_) => 2
    case HasFileAndId(_, _) => 1
    case Finished(_) => 0
  }

  function GetStep(d: Disk, e: Entry, faults: set<Op>, pc: Pc): Pc {
    match pc
    case Begin =>
      if ReadFile in faults then Finished(Failed)
      else if e in d.files then HasFile(d.files[e])
      else if ReadLegacy in faults then Finished(Failed)
      else Finished(Answered(if e in d.creds then Found(d.creds[e]) else Absent))
    case HasFile(sealed) =>
      if ReadId in faults then Finished(Failed)
      else if StoreId(d.idFile).None? then Finished(Answered(Absent))
      else HasFileAndId(sealed, StoreId(d.idFile).value)
    case HasFileAndId(sealed, id) =>
      if ReadKeyEntry in faults then Finished(Failed)
      else
        (match ReadKey(d.creds, KeyEntry(id, e))
         case Missing => Finished(Answered(Absent))
         case Malformed => Finished(Answered(BadKey))
         case Key(key) => Finished(Answered(Open(key, e, sealed))))
    case _ => Finished(Failed)
  }

  function SetStep(d: Disk, e: Entry, secret: Text, faults: set<Op>, freshId: string, freshKey: Key, pc: Pc)
    : (Pc, Disk)
  {
    match pc
    case Begin =>
      if ReadId in faults then (Finished(Failed), d)
      else if StoreId(d.idFile).Some? then (HasId(StoreId(d.idFile).value), d)
      else (NeedsId, d)
    case NeedsId =>
      if WriteId in faults then (Finished(Failed), d) else (HasId(freshId), d.(idFile := Some(freshId)))
    case HasId(id) =>
      if ReadKeyEntry in faults then (Finished(Failed), d)
      else
        (match ReadKey(d.creds, KeyEntry(id, e))
         case Key(key) => (HasKey(key), d)
         case _ => (NeedsClearing(id), d))
    case NeedsClearing(id) =>
      if RemoveFile in faults then (Finished(Failed), d) else (NeedsKey(id), d.(files := d.files - {e}))
    case NeedsKey(id) =>
      if MakeKey in faults || WriteKey in faults then (Finished(Failed), d)
      else (HasKey(freshKey), d.(creds := d.creds[KeyEntry(id, e) := KeyText(freshKey)]))
    case HasKey(key) => (Probed(key, e !in d.files && ProbeFile !in faults), d)
    case Probed(key, first) =>
      if WriteFile in faults then (Finished(Failed), d)
      else (Written(first), d.(files := d.files[e := Box(key, e, secret)]))
    case Written(first) =>
      (Finished(Succeeded), if first && DeleteLegacy !in faults then d.(creds := d.creds - {e}) else d)
    case _ => (Finished(Failed), d)
  }

  function DeleteStep(d: Disk, e: Entry, faults: set<Op>, pc: Pc): (Pc, Disk) {
    match pc
    case Begin =>
      if DeleteLegacy in faults then (Finished(Failed), d) else (LegacyDeleted, d.(creds := d.creds - {e}))
    case LegacyDeleted =>
      if RemoveFile in faults then (Finished(Failed), d) else (FileDeleted, d.(files := d.files - {e}))
    case FileDeleted =>
      if ReadId in faults then (Finished(Failed), d)
      else if StoreId(d.idFile).None? then (Finished(Succeeded), d)
      else (HasIdToDelete(StoreId(d.idFile).value), d)
    case HasIdToDelete(id) =>
      if DeleteKey in faults then (Finished(Failed), d)
      else (Finished(Succeeded), d.(creds := d.creds - {KeyEntry(id, e)}))
    case _ => (Finished(Failed), d)
  }

  /** One access to a file or to the credential store. */
  function Next(call: Call, pc: Pc, d: Disk): (r: (Pc, Disk))
    requires !pc.Finished?
    ensures Rank(r.0) < Rank(pc)
    ensures call.GetCall? ==> r.1 == d
  {
    match call
    case GetCall(e, faults) => (GetStep(d, e, faults, pc), d)
    case SetCall(e, secret, faults, freshId, freshKey) => SetStep(d, e, secret, faults, freshId, freshKey, pc)
    case DeleteCall(e, faults) => DeleteStep(d, e, faults, pc)
  }

  /** The rest of a call, run without anybody else touching the disk. */
  function Finish(call: Call, pc: Pc, d: Disk): (Disk, Outcome)
    decreases Rank(pc)
  {
    if pc.Finished? then (d, pc.outcome)
    else
      var (pc', d') := Next(call, pc, d);
      Finish(call, pc', d')
  }

  // Undisturbed, the steps are the sequential call

  lemma FinishHasKey(call: Call, d: Disk, key: Key)
    requires call.SetCall?
    ensures
      var (after, ok) := Replaced(d, call.entry, key, call.secret, call.faults);
      Finish(call, HasKey(key), d) == (after, if ok then Succeeded else Failed)
  {
    var first := call.entry !in d.files && ProbeFile !in call.faults;
    assert Finish(call, HasKey(key), d) == Finish(call, Probed(key, first), d);
    if WriteFile in call.faults {
      assert Finish(call, Probed(key, first), d) == (d, Failed);
    } else {
      var written := d.(files := d.files[call.entry := Box(key, call.entry, call.secret)]);
      assert Finish(call, Probed(key, first), d) == Finish(call, Written(first), written);
      assert Finish(call, Written(first), written) == (Next(call, Written(first), written).1, Succeeded);
    }
  }

  lemma FinishHasId(call: Call, d: Disk, id: string)
    requires call.SetCall?
    ensures
      var (after, ok) := SetUnder(d, id, call.entry, call.secret, call.faults, call.freshKey);
      Finish(call, HasId(id), d) == (after, if ok then Succeeded else Failed)
  {
    if ReadKeyEntry !in call.faults {
      match ReadKey(d.creds, KeyEntry(id, call.entry))
      case Key(key) => FinishHasKey(call, d, key);
      case _ =>
        var cleared := d.(files := d.files - {call.entry});
        var keyed := cleared.(creds := cleared.creds[KeyEntry(id, call.entry) := KeyText(call.freshKey)]);
        assert Finish(call, HasId(id), d) == Finish(call, NeedsClearing(id), d);
        if RemoveFile in call.faults {
          assert Finish(call, NeedsClearing(id), d) == (d, Failed);
        } else {
          assert Finish(call, NeedsClearing(id), d) == Finish(call, NeedsKey(id), cleared);
          assert MakeKey in call.faults || WriteKey in call.faults ==>
              Finish(call, NeedsKey(id), cleared) == (cleared, Failed);
          if MakeKey !in call.faults && WriteKey !in call.faults {
            assert Finish(call, NeedsKey(id), cleared) == Finish(call, HasKey(call.freshKey), keyed);
            FinishHasKey(call, keyed, call.freshKey);
          }
        }
    }
  }

  lemma FinishSet(call: Call, d: Disk)
    requires call.SetCall?
    ensures Finish(call, Begin, d) == Sequential(d, call)
  {
    if ReadId !in call.faults {
      if StoreId(d.idFile).Some? {
        FinishHasId(call, d, StoreId(d.idFile).value);
      } else {
        assert Finish(call, Begin, d) == Finish(call, NeedsId, d);
        if WriteId !in call.faults {
          FinishHasId(call, d.(idFile := Some(call.freshId)), call.freshId);
        }
      }
    }
  }

  lemma FinishDelete(call: Call, d: Disk)
    requires call.DeleteCall?
    ensures Finish(call, Begin, d) == Sequential(d, call)
  {
    var noLegacy := d.(creds := d.creds - {call.entry});
    var noFile := noLegacy.(files := noLegacy.files - {call.entry});
    if DeleteLegacy !in call.faults {
      assert Finish(call, Begin, d) == Finish(call, LegacyDeleted, noLegacy);
      if RemoveFile !in call.faults {
        assert Finish(call, LegacyDeleted, noLegacy) == Finish(call, FileDeleted, noFile);
      }
    }
  }

  lemma FinishGet(call: Call, d: Disk)
    requires call.GetCall?
    ensures Finish(call, Begin, d) == Sequential(d, call)
  {
    if ReadFile !in call.faults && call.entry in d.files {
      var sealed := d.files[call.entry];
      assert Finish(call, Begin, d) == Finish(call, HasFile(sealed), d);
      if ReadId !in call.faults && StoreId(d.idFile).Some? {
        var id := StoreId(d.idFile).value;
        assert Finish(call, HasFile(sealed), d) == Finish(call, HasFileAndId(sealed, id), d);
        assert Finish(call, HasFileAndId(sealed, id), d) ==
               (d, Next(call, HasFileAndId(sealed, id), d).0.outcome);
      } else {
        assert Finish(call, HasFile(sealed), d) == (d, Next(call, HasFile(sealed), d).0.outcome);
      }
    }
  }

  /** Run to its end by itself, a call does what the sequential operation does. */
  lemma FinishIsSequential(call: Call, d: Disk)
    ensures Finish(call, Begin, d) == Sequential(d, call)
  {
    match call
    case GetCall(_, _) => FinishGet(call, d);
    case SetCall(_, _, _, _, _) => FinishSet(call, d);
    case DeleteCall(_, _) => FinishDelete(call, d);
  }

  // Many callers

  /**
   A caller: between calls, waiting for the lock, or working under it. `since`
   counts the writes completed when the call was made, `from` those completed
   when it got the lock, on the disk `began`.
   */
  datatype Caller =
    | Idle
    | Waiting(call: Call, since: nat)
    | Working(call: Call, since: nat, from: nat, began: Disk, pc: Pc)
    | Returned(call: Call, since: nat, from: nat, outcome: Outcome)

  /** The disk, the lock's holders, and the writes and deletes completed so far, in order. */
  datatype System = System(
    disk: Disk, callers: map<nat, Caller>, readers: set<nat>, writer: Option<nat>, log: seq<Call>)

  datatype Action =
    | Invoke(caller: nat, call: Call)
    | Acquire(caller: nat)
    | Work(caller: nat)
    | Release(caller: nat)

  function At(s: System, p: nat): Caller {
    if p in s.callers then s.callers[p] else Idle
  }

  /** The lock is free for `call`: shared unless somebody writes, exclusive only if nobody holds it. */
  predicate Free(s: System, call: Call) {
    s.writer.None? && (call.GetCall? || s.readers == {})
  }

  ghost predicate Enabled(s: System, a: Action) {
    match a
    case Invoke(p, _) => At(s, p).Idle? || At(s, p).Returned?
    case Acquire(p) =>
      && At(s, p).Waiting? && Free(s, At(s, p).call)
      && (At(s, p).call.SetCall? ==> FreshId(s.disk, At(s, p).call.freshId))
    case Work(p) => At(s, p).Working? && !At(s, p).pc.Finished?
    case Release(p) => At(s, p).Working? && At(s, p).pc.Finished?
  }

  function Act(s: System, a: Action): System
    requires Enabled(s, a)
  {
    match a
    case Invoke(p, call) => s.(callers := s.callers[p := Waiting(call, |s.log|)])
    case Acquire(p) =>
      var c := s.callers[p];
      s.(callers := s.callers[p := Working(c.call, c.since, |s.log|, s.disk, Begin)],
         readers := if c.call.GetCall? then s.readers + {p} else s.readers,
         writer := if c.call.GetCall? then s.writer else Some(p))
    case Work(p) =>
      var c := s.callers[p];
      var (pc, disk) := Next(c.call, c.pc, s.disk);
      s.(disk := disk, callers := s.callers[p := c.(pc := pc)])
    case Release(p) =>
      var c := s.callers[p];
      s.(callers := s.callers[p := Returned(c.call, c.since, c.from, c.pc.outcome)],
         readers := s.readers - {p},
         writer := if s.writer == Some(p) then None else s.writer,
         log := if c.call.GetCall? then s.log else s.log + [c.call])
  }

  /** The disk after a list of writes and deletes, one at a time. */
  function Replay(d: Disk, log: seq<Call>): Disk {
    if log == [] then d
    else Sequential(Replay(d, log[..|log| - 1]), log[|log| - 1]).0
  }

  lemma ReplaySnoc(d: Disk, log: seq<Call>, call: Call)
    ensures Replay(d, log + [call]) == Sequential(Replay(d, log), call).0
  {
    assert (log + [call])[..|log|] == log;
  }

  // What holds at every moment

  /** Who holds the lock is working under it, and writers work alone. */
  ghost predicate Locked(s: System) {
    && (forall p: nat :: p in s.readers <==> At(s, p).Working? && At(s, p).call.GetCall?)
    && (forall p: nat :: s.writer == Some(p) <==> At(s, p).Working? && !At(s, p).call.GetCall?)
    && (s.writer.Some? ==> s.readers == {})
  }

  /** Without a writer, the disk is the completed writes replayed; a writer started from there. */
  ghost predicate Committed(s: System, d: Disk) {
    && (s.writer.None? ==> s.disk == Replay(d, s.log))
    && (s.writer.Some? ==> At(s, s.writer.value).Working? && At(s, s.writer.value).began == Replay(d, s.log))
  }

  /** A working caller will end as its sequential call from the disk it began on would. */
  ghost predicate OnTrack(s: System, d: Disk, p: nat) {
    match At(s, p)
    case Idle => true
    case Waiting(_, since) => since <= |s.log|
    case Working(call, since, from, began, pc) =>
      && since <= from <= |s.log|
      && began == Replay(d, s.log[..from])
      && (call.GetCall? ==> s.disk == began)
      && (!call.GetCall? ==> from == |s.log|)
      && Finish(call, pc, s.disk) == Sequential(began, call)
    case Returned(call, since, from, outcome) =>
      && since <= from <= |s.log|
      && outcome == Sequential(Replay(d, s.log[..from]), call).1
      && (!call.GetCall? ==> from < |s.log| && s.log[from] == call)
  }

  ghost predicate Invariant(s: System, d: Disk) {
    Locked(s) && Committed(s, d) && forall p :: OnTrack(s, d, p)
  }

  lemma InvokeKeeps(s: System, d: Disk, p: nat, call: Call)
    requires Invariant(s, d) && Enabled(s, Invoke(p, call))
    ensures Invariant(Act(s, Invoke(p, call)), d)
  {
    var s' := Act(s, Invoke(p, call));
    assert forall q :: q != p ==> At(s', q) == At(s, q);
    assert OnTrack(s, d, p);
    forall q
      ensures OnTrack(s', d, q)
    {
      assert OnTrack(s, d, q);
    }
  }

  lemma AcquireKeeps(s: System, d: Disk, p: nat)
    requires Invariant(s, d) && Enabled(s, Acquire(p))
    ensures Invariant(Act(s, Acquire(p)), d)
  {
    var s' := Act(s, Acquire(p));
    var call := At(s, p).call;
    assert forall q :: q != p ==> At(s', q) == At(s, q);
    assert s.log[..|s.log|] == s.log;
    FinishIsSequential(call, s.disk);
    assert OnTrack(s, d, p);
    forall q
      ensures OnTrack(s', d, q)
    {
      assert OnTrack(s, d, q);
    }
  }

  lemma WorkKeeps(s: System, d: Disk, p: nat)
    requires Invariant(s, d) && Enabled(s, Work(p))
    ensures Invariant(Act(s, Work(p)), d)
  {
    var s' := Act(s, Work(p));
    var c := At(s, p);
    assert forall q :: q != p ==> At(s', q) == At(s, q);
    assert OnTrack(s, d, p);
    assert !c.call.GetCall? ==> s.writer == Some(p);
    forall q
      ensures OnTrack(s', d, q)
    {
      assert OnTrack(s, d, q);
      if q != p && At(s, q).Working? {
        assert At(s, q).call.GetCall? ==> q in s.readers;
        assert !At(s, q).call.GetCall? ==> s.writer == Some(q);
      }
    }
  }

  lemma ReleaseLocked(s: System, d: Disk, p: nat)
    requires Invariant(s, d) && Enabled(s, Release(p))
    ensures Locked(Act(s, Release(p)))
  {
    var s' := Act(s, Release(p));
    assert forall q :: q != p ==> At(s', q) == At(s, q);
  }

  lemma ReleaseCommitted(s: System, d: Disk, p: nat)
    requires Invariant(s, d) && Enabled(s, Release(p))
    ensures Committed(Act(s, Release(p)), d)
  {
    var s', c := Act(s, Release(p)), At(s, p);
    assert OnTrack(s, d, p);
    assert s.log[..|s.log|] == s.log;
    if c.call.GetCall? {
      assert s.writer != Some(p) && s'.log == s.log && s'.disk == s.disk;
    } else {
      assert s.writer == Some(p);
      ReplaySnoc(d, s.log, c.call);
    }
  }

  /** The caller itself: a write takes its place at the end of the log. */
  lemma ReleasedOnTrack(s: System, d: Disk, p: nat)
    requires Invariant(s, d) && Enabled(s, Release(p))
    ensures OnTrack(Act(s, Release(p)), d, p)
  {
    assert OnTrack(s, d, p);
    var from := At(s, p).from;
    assert Act(s, Release(p)).log[..from] == s.log[..from];
  }

  lemma ReleaseKeeps(s: System, d: Disk, p: nat)
    requires Invariant(s, d) && Enabled(s, Release(p))
    ensures Invariant(Act(s, Release(p)), d)
  {
    ReleaseLocked(s, d, p);
    ReleaseCommitted(s, d, p);
    forall q
      ensures OnTrack(Act(s, Release(p)), d, q)
    {
      if q == p {
        ReleasedOnTrack(s, d, p);
      } else {
        OthersOnTrack(s, d, p, q);
      }
    }
  }

  /** A release changes the log behind every other caller's part of it. */
  lemma OthersOnTrack(s: System, d: Disk, p: nat, q: nat)
    requires Invariant(s, d) && Enabled(s, Release(p)) && p != q
    ensures OnTrack(Act(s, Release(p)), d, q)
  {
    assert OnTrack(s, d, p) && OnTrack(s, d, q);
    var n := if At(s, q).Working? || At(s, q).Returned? then At(s, q).from else 0;
    assert Act(s, Release(p)).log[..n] == s.log[..n];
  }

  lemma ActKeeps(s: System, d: Disk, a: Action)
    requires Invariant(s, d) && Enabled(s, a)
    ensures Invariant(Act(s, a), d)
  {
    match a
    case Invoke(p, call) => InvokeKeeps(s, d, p, call);
    case Acquire(p) => AcquireKeeps(s, d, p);
    case Work(p) => WorkKeeps(s, d, p);
    case Release(p) => ReleaseKeeps(s, d, p);
  }

  // Whole runs

  function Start(d: Disk): System {
    System(d, map[], {}, None, [])
  }

  /** `states` is a run from `d` that takes `actions`. */
  ghost predicate Behaviour(d: Disk, actions: seq<Action>, states: seq<System>) {
    && |states| == |actions| + 1
    && states[0] == Start(d)
    && forall i :: 0 <= i < |actions| ==> Enabled(states[i], actions[i]) && states[i + 1] == Act(states[i], actions[i])
  }

  lemma {:induction false} BehaviourInvariant(d: Disk, actions: seq<Action>, states: seq<System>, i: nat)
    requires Behaviour(d, actions, states) && i < |states|
    ensures Invariant(states[i], d)
  {
    if i > 0 {
      BehaviourInvariant(d, actions, states, i - 1);
      ActKeeps(states[i - 1], d, actions[i - 1]);
    }
  }

  /** The log only grows. */
  lemma {:induction false} LogGrows(d: Disk, actions: seq<Action>, states: seq<System>, i: nat, k: nat)
    requires Behaviour(d, actions, states) && i <= k < |states|
    ensures states[i].log <= states[k].log
  {
    if i < k {
      LogGrows(d, actions, states, i, k - 1);
      assert states[k] == Act(states[k - 1], actions[k - 1]);
    }
  }

  /** What a step does to the caller `p`. */
  lemma CallerStep(d: Disk, actions: seq<Action>, states: seq<System>, i: nat, p: nat)
    requires Behaviour(d, actions, states) && i < |actions|
    ensures actions[i].caller != p ==> At(states[i + 1], p) == At(states[i], p)
    ensures At(states[i + 1], p).Waiting? ==>
              At(states[i + 1], p) == At(states[i], p) || actions[i] == Invoke(p, At(states[i + 1], p).call)
    ensures At(states[i + 1], p).Working? ==>
              var c, after := At(states[i], p), At(states[i + 1], p);
              if actions[i] == Acquire(p) then
                c.Waiting? && c.call == after.call && after.began == states[i].disk
              else
                c.Working? && c.call == after.call && c.from == after.from && c.began == after.began
    ensures At(states[i + 1], p).Returned? ==>
              var c, after := At(states[i], p), At(states[i + 1], p);
              c == after || (actions[i] == Release(p) && c.Working? && c.call == after.call && c.from == after.from)
  {
    assert states[i + 1] == Act(states[i], actions[i]);
  }

  /** `p` made the call at step `b` and has been waiting since. */
  ghost predicate WaitingSince(actions: seq<Action>, states: seq<System>, p: nat, b: nat, i: nat) {
    && b < i < |states| && i <= |actions| && At(states[i], p).Waiting?
    && actions[b] == Invoke(p, At(states[i], p).call)
    && forall k :: b < k <= i ==> At(states[k], p).Waiting?
  }

  lemma {:induction false} InvokedBefore(d: Disk, actions: seq<Action>, states: seq<System>, i: nat, p: nat)
    returns (b: nat)
    requires Behaviour(d, actions, states) && i < |states| && At(states[i], p).Waiting?
    ensures WaitingSince(actions, states, p, b, i)
  {
    CallerStep(d, actions, states, i - 1, p);
    if actions[i - 1] == Invoke(p, At(states[i], p).call) {
      b := i - 1;
    } else {
      b := InvokedBefore(d, actions, states, i - 1, p);
    }
  }

  /** `p` made the call at step `b`, got the lock at step `j` on the disk it began on, and works since. */
  ghost predicate WorkingSince(actions: seq<Action>, states: seq<System>, p: nat, b: nat, j: nat, i: nat) {
    && j < i < |states| && i <= |actions| && At(states[i], p).Working?
    && WaitingSince(actions, states, p, b, j)
    && actions[b] == Invoke(p, At(states[i], p).call) && actions[j] == Acquire(p)
    && states[j].disk == At(states[i], p).began
    && forall k :: j < k <= i ==> At(states[k], p).Working?
  }

  lemma {:induction false} AcquiredBefore(d: Disk, actions: seq<Action>, states: seq<System>, i: nat, p: nat)
    returns (b: nat, j: nat)
    requires Behaviour(d, actions, states) && i < |states| && At(states[i], p).Working?
    ensures WorkingSince(actions, states, p, b, j, i)
  {
    CallerStep(d, actions, states, i - 1, p);
    if actions[i - 1] == Acquire(p) {
      j := i - 1;
      b := InvokedBefore(d, actions, states, j, p);
    } else {
      b, j := AcquiredBefore(d, actions, states, i - 1, p);
    }
  }

  /**
   The call that `p` returned from was made at step `b`, had the lock from step
   `j` and released it at step `r`, and answered as the sequential operation
   on the disk of state `j`, which is that of the completed writes before it.
   */
  ghost predicate Spans(
    d: Disk, actions: seq<Action>, states: seq<System>, i: nat, p: nat, b: nat, j: nat, r: nat)
    requires i < |states| && At(states[i], p).Returned?
  {
    var c := At(states[i], p);
    && b < j < r < i && i <= |actions|
    && actions[b] == Invoke(p, c.call) && actions[j] == Acquire(p) && actions[r] == Release(p)
    && (forall k :: b < k <= r ==> At(states[k], p).Waiting? || At(states[k], p).Working?)
    && c.from <= |states[i].log| && states[j].disk == Replay(d, states[i].log[..c.from])
    && c.outcome == Sequential(states[j].disk, c.call).1
  }

  lemma {:induction false} ReleasedBefore(d: Disk, actions: seq<Action>, states: seq<System>, i: nat, p: nat)
    returns (r: nat)
    requires Behaviour(d, actions, states) && i < |states| && At(states[i], p).Returned?
    ensures r < i && actions[r] == Release(p) && At(states[r], p).Working?
    ensures At(states[r], p).call == At(states[i], p).call && At(states[r], p).from == At(states[i], p).from
  {
    CallerStep(d, actions, states, i - 1, p);
    if At(states[i - 1], p) == At(states[i], p) {
      r := ReleasedBefore(d, actions, states, i - 1, p);
    } else {
      r := i - 1;
    }
  }

  /** The disk a call began on is that of the writes completed before it, also as the log grows. */
  lemma BeganOn(d: Disk, actions: seq<Action>, states: seq<System>, r: nat, i: nat, p: nat)
    requires Behaviour(d, actions, states) && r <= i < |states| && At(states[r], p).Working?
    ensures
      var c := At(states[r], p);
      c.from <= |states[i].log| && c.began == Replay(d, states[i].log[..c.from])
  {
    BehaviourInvariant(d, actions, states, r);
    assert OnTrack(states[r], d, p);
    LogGrows(d, actions, states, r, i);
    var from := At(states[r], p).from;
    assert states[r].log[..from] == states[i].log[..from];
  }

  lemma CallSpans(d: Disk, actions: seq<Action>, states: seq<System>, i: nat, p: nat) returns (b: nat, j: nat, r: nat)
    requires Behaviour(d, actions, states) && i < |states| && At(states[i], p).Returned?
    ensures Spans(d, actions, states, i, p, b, j, r)
  {
    r := ReleasedBefore(d, actions, states, i, p);
    b, j := AcquiredBefore(d, actions, states, r, p);
    BeganOn(d, actions, states, r, i, p);
    BehaviourInvariant(d, actions, states, i);
    assert OnTrack(states[i], d, p);
  }

  /**
   At every moment of every run: with nobody writing, the disk is what the
   completed writes and deletes make of it one at a time; and every call that
   returned answered as the sequential operation does on the disk of one state
   between the call and its return, which is the disk after the writes and
   deletes completed before it.
   */
  lemma CallsAreAtomic(d: Disk, actions: seq<Action>, states: seq<System>, i: nat, p: nat)
    requires Behaviour(d, actions, states) && i < |states|
    ensures states[i].writer.None? ==> states[i].disk == Replay(d, states[i].log)
    ensures
      var c := At(states[i], p);
      c.Returned? ==>
        && c.since <= c.from <= |states[i].log|
        && (exists b, j, r :: Spans(d, actions, states, i, p, b, j, r))
        && c.outcome == Sequential(Replay(d, states[i].log[..c.from]), c.call).1
        && (!c.call.GetCall? ==> c.from < |states[i].log| && states[i].log[c.from] == c.call)
  {
    BehaviourInvariant(d, actions, states, i);
    assert OnTrack(states[i], d, p);
    if At(states[i], p).Returned? {
      var b, j, r := CallSpans(d, actions, states, i, p);
      assert Spans(d, actions, states, i, p, b, j, r);
    }
  }

  // When calls succeed

  /** No step that `get` needs on this disk fails. */
  predicate GetCanAnswer(d: Disk, e: Entry, faults: set<Op>) {
    && ReadFile !in faults
    && (e !in d.files ==> ReadLegacy !in faults)
    && (e in d.files ==> ReadId !in faults && (StoreId(d.idFile).Some? ==> ReadKeyEntry !in faults))
  }

  /** The outcome of `call` on disk `d`, by the steps that fail and nothing else. */
  ghost predicate EndsAs(d: Disk, call: Call, outcome: Outcome) {
    match call
    case GetCall(e, faults) => outcome == if GetCanAnswer(d, e, faults) then Answered(Get(d, e)) else Failed
    case SetCall(e, _, faults, _, _) => outcome == if SetCanSucceed(d, e, faults) then Succeeded else Failed
    case DeleteCall(e, faults) =>
      outcome ==
      if DeleteLegacy in faults || RemoveFile in faults || ReadId in faults
        || (StoreId(d.idFile).Some? && DeleteKey in faults)
      then Failed else Succeeded
  }

  lemma SequentialEndsAs(d: Disk, call: Call)
    requires call.SetCall? ==> FreshId(d, call.freshId)
    ensures EndsAs(d, call, Sequential(d, call).1)
  {
    match call
    case GetCall(_, _) =>
    case SetCall(e, secret, faults, freshId, freshKey) => SetSucceedsIff(d, e, secret, faults, freshId, freshKey);
    case DeleteCall(e, faults) => DeleteSucceedsIff(d, e, faults);
  }

  /**
   In every run, a call that returned ended as its failing steps alone decide
   on the disk of the state `j` in which it got the lock: without failures a
   `get` answers, and a `set` or `delete` succeeds.
   */
  lemma CallsEndAsDecided(d: Disk, actions: seq<Action>, states: seq<System>, i: nat, p: nat) returns (j: nat)
    requires Behaviour(d, actions, states) && i < |states| && At(states[i], p).Returned?
    ensures j < i && actions[j] == Acquire(p) && EndsAs(states[j].disk, At(states[i], p).call, At(states[i], p).outcome)
  {
    var b, acquired, r := CallSpans(d, actions, states, i, p);
    j := acquired;
    SameCallAt(d, actions, states, i, p, b, j, r);
    SequentialEndsAs(states[j].disk, At(states[i], p).call);
  }

  /** The call that got the lock is the one that returned. */
  lemma SameCallAt(d: Disk, actions: seq<Action>, states: seq<System>, i: nat, p: nat, b: nat, j: nat, r: nat)
    requires Behaviour(d, actions, states) && i < |states| && At(states[i], p).Returned?
    requires Spans(d, actions, states, i, p, b, j, r)
    ensures At(states[j], p).Waiting? && At(states[j], p).call == At(states[i], p).call
  {
    assert Enabled(states[j], actions[j]);
    WaitsFor(d, actions, states, p, b, j);
  }

  lemma {:induction false} WaitsFor(d: Disk, actions: seq<Action>, states: seq<System>, p: nat, b: nat, j: nat)
    requires Behaviour(d, actions, states) && b < j < |states| && actions[b].Invoke? && actions[b].caller == p
    requires forall k :: b < k <= j ==> At(states[k], p).Waiting? || At(states[k], p).Working?
    ensures At(states[j], p).call == actions[b].call
  {
    CallerStep(d, actions, states, j - 1, p);
    assert Enabled(states[j - 1], actions[j - 1]) && states[j] == Act(states[j - 1], actions[j - 1]);
    if b < j - 1 {
      WaitsFor(d, actions, states, p, b, j - 1);
    }
  }

  // Competing writers never mix keys and files

  /** Every write so far, completed or under way, brought an identity that was new to the disk it began on. */
  ghost predicate NewIds(s: System, d: Disk) {
    && (forall n :: 0 <= n < |s.log| && s.log[n].SetCall? ==> FreshId(Replay(d, s.log[..n]), s.log[n].freshId))
    && (forall p: nat :: At(s, p).Working? && At(s, p).call.SetCall? ==> FreshId(At(s, p).began, At(s, p).call.freshId))
  }

  lemma ActNewIds(s: System, d: Disk, a: Action)
    requires Invariant(s, d) && Enabled(s, a) && NewIds(s, d)
    ensures NewIds(Act(s, a), d)
  {
    var s' := Act(s, a);
    var p := a.caller;
    assert OnTrack(s, d, p);
    assert s.log[..|s.log|] == s.log;
    forall n | 0 <= n < |s'.log| && s'.log[n].SetCall?
      ensures FreshId(Replay(d, s'.log[..n]), s'.log[n].freshId)
    {
      assert s'.log[..n] == s.log[..n];
    }
    assert forall q: nat :: q != p ==> At(s', q) == At(s, q);
  }

  lemma {:induction false} BehaviourNewIds(d: Disk, actions: seq<Action>, states: seq<System>, i: nat)
    requires Behaviour(d, actions, states) && i < |states|
    ensures NewIds(states[i], d)
  {
    if i > 0 {
      BehaviourNewIds(d, actions, states, i - 1);
      BehaviourInvariant(d, actions, states, i - 1);
      ActNewIds(states[i - 1], d, actions[i - 1]);
    }
  }

  lemma {:induction false} ReplayKeysFit(d: Disk, log: seq<Call>)
    requires d.files == map[]
    requires forall n :: 0 <= n < |log| && log[n].SetCall? ==> FreshId(Replay(d, log[..n]), log[n].freshId)
    ensures KeysFit(Replay(d, log))
  {
    if log != [] {
      var m := |log| - 1;
      forall n | 0 <= n < m && log[..m][n].SetCall?
        ensures FreshId(Replay(d, log[..m][..n]), log[..m][n].freshId)
      {
        assert log[..m][..n] == log[..n];
      }
      ReplayKeysFit(d, log[..m]);
      var before := Replay(d, log[..m]);
      match log[m]
      case GetCall(_, _) =>
      case SetCall(e, secret, faults, freshId, freshKey) => SetKeysFit(before, e, secret, faults, freshId, freshKey);
      case DeleteCall(e, faults) => DeleteKeysFit(before, e, faults);
    }
  }

  /**
   However first writes, reads and deletes compete, with nobody writing every
   key fits the file beside it, and no read answers that a file does not open.
   */
  lemma NoMixedKeys(d: Disk, actions: seq<Action>, states: seq<System>, i: nat, p: nat)
    requires d.files == map[] && Behaviour(d, actions, states) && i < |states|
    ensures states[i].writer.None? ==> KeysFit(states[i].disk)
    ensures At(states[i], p).Returned? ==> At(states[i], p).outcome != Answered(Unopened)
  {
    var s := states[i];
    CallsAreAtomic(d, actions, states, i, p);
    BehaviourNewIds(d, actions, states, i);
    ReplayKeysFit(d, s.log);
    if At(s, p).Returned? {
      var n := At(s, p).from;
      forall m | 0 <= m < n && s.log[..n][m].SetCall?
        ensures FreshId(Replay(d, s.log[..n][..m]), s.log[..n][m].freshId)
      {
        assert s.log[..n][..m] == s.log[..m];
      }
      ReplayKeysFit(d, s.log[..n]);
    }
  }
}
