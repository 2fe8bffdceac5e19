/**
 Configurations pushed by the controller: the connection loop applies each
 push and saves it once its apply succeeded. The reconcile tick and the device
 user's program choice re-apply the current configuration on their own
 threads and publish the outcome afterwards; a push whose own apply failed is
 saved when the connection loop takes a later successful outcome for its
 revision. Applying succeeds or fails as it likes.
 */
module ConfigStream {
  import opened Common

  type Yaml = string

  /** A pushed configuration, and whether it passes the hash, UTF-8 and parse checks. */
  datatype Push = Push(revision: nat, yaml: Yaml, valid: bool)

  /** What is applied: the configuration of the startup, or a pushed one. */
  datatype Config = Startup | Pushed(yaml: Yaml)

  datatype Current = Current(revision: Option<nat>, config: Config)

  /** The outcome of a re-apply; `config` is what it applied, which the connection loop does not see. */
  datatype Outcome = Outcome(revision: Option<nat>, sequence: nat, ok: bool, config: Config)

  datatype Phase = Ready | Applying(push: Push) | Saving(push: Push)

  /** The variables of the connection loop; `newest` is the last push it received. */
  datatype Stream = Stream(revision: Option<nat>, pending: Option<Push>, newest: Option<Push>, phase: Phase)

  /** The channel holds the outcome of the latest apply published, and whether the loop has seen it. */
  datatype Channel = Channel(outcome: Option<Outcome>, unseen: bool)

  /**
   `applied` are the configurations some apply of which has succeeded, `saves`
   what was saved for the next start, in order, and `taken` the sequence
   numbers of the outcomes the loop took.
   */
  datatype System = System(
    current: Option<Current>, sequence: nat, applied: set<Config>, channel: Channel, appliers: map<nat, Outcome>,
    stream: Option<Stream>, saves: seq<Yaml>, taken: seq<nat>)

  // The channel

  /** `publish`: an earlier apply never replaces a later one. */
  function Published(c: Channel, o: Outcome): Channel {
    if c.outcome.Some? && c.outcome.value.sequence > o.sequence then c else Channel(Some(o), true)
  }

  class StatusChannel {
    var held: Option<Outcome>
    var unseen: bool

    ghost function View(): Channel
      reads this
    {
      Channel(held, unseen)
    }

    constructor ()
      ensures View() == Channel(None, false)
    {
      held := None;
      unseen := false;
    }

    /** `publish`. */
    method Publish(o: Outcome)
      modifies this
      ensures View() == Published(old(View()), o)
      ensures held.Some? && held.value.sequence >= o.sequence
    {
      if held.Some? && held.value.sequence > o.sequence {
        return;
      }
      held := Some(o);
      unseen := true;
    }

    /** One round of `next_tick_status`: the outcome, when there is one that was not seen. */
    method Next() returns (o: Option<Outcome>)
      modifies this
      ensures View() == old(View()).(unseen := false)
      ensures o == if old(unseen) then old(held) else None
    {
      o := if unseen then held else None;
      unseen := false;
    }
  }

  // The connection loop

  /** The save a taken outcome asks for. */
  function ToSave(s: Stream, o: Outcome): Option<Push> {
    if o.ok && o.revision.Some? && o.revision == s.revision then s.pending else None
  }

  /** After a push was received, and `replace_current_config` done. */
  function Received(s: Stream, p: Push): Stream {
    if p.valid then s.(revision := Some(p.revision), newest := Some(p), phase := Applying(p))
    else Stream(Some(p.revision), None, Some(p), Ready)
  }

  /** After a push was settled: it is pending when it was not saved. */
  function Settled(s: Stream, p: Push, saved: bool): Stream {
    s.(pending := if saved then None else Some(p), phase := Ready)
  }

  /** The variables of `connect`, and the file saved for the next start. */
  class Connection {
    var revision: Option<nat>
    var pending: Option<Push>
    var saved: Option<Yaml>

    /** A loop with these variables, between messages. */
    ghost function View(): Stream
      reads this
    {
      Stream(revision, pending, None, Ready)
    }

    constructor (restored: Option<Yaml>)
      ensures revision == None && pending == None && saved == restored
    {
      revision := None;
      pending := None;
      saved := restored;
    }

    /** A push arrives, its apply succeeds or fails, and so does saving it. */
    method HandlePush(p: Push, applies: bool, saves: bool) returns (ok: bool)
      modifies this
      ensures ok == (p.valid && applies && saves)
      ensures
        var received := Received(old(View()), p);
        var after := if p.valid then Settled(received, p, ok) else received;
        revision == after.revision && pending == after.pending
      ensures saved == if ok then Some(p.yaml) else old(saved)
    {
      revision := Some(p.revision);
      var error := true;
      if p.valid {
        if applies {
          if saves {
            saved := Some(p.yaml);
            error := false;
          }
        }
      }
      pending := if p.valid && error then Some(p) else None;
      ok := !error;
    }

    /** An outcome is taken; a failed save keeps the push pending and makes the outcome a failed one. */
    method HandleOutcome(o: Outcome, saves: bool) returns (ok: bool)
      modifies this
      ensures revision == old(revision)
      ensures
        var p := ToSave(old(View()), o);
        && pending == (if p.Some? && saves then None else old(pending))
        && saved == (if p.Some? && saves then Some(p.value.yaml) else old(saved))
        && ok == (o.ok && (p.Some? ==> saves))
    {
      ok := o.ok;
      if o.ok && o.revision.Some? && o.revision == revision && pending.Some? {
        var p := pending.value;
        pending := None;
        if saves {
          saved := Some(p.yaml);
        } else {
          ok := false;
          pending := Some(p);
        }
      }
    }
  }

  // A daemon

  datatype Action =
    | Connect
    | Disconnect
    | Logout
    | Receive(push: Push)
    | ApplyPush(ok: bool)
    | SavePush(ok: bool)
    | ApplyCurrent(n: nat, ok: bool)
    | Publish(n: nat)
    | Take(saves: bool)

  predicate AtReady(s: System) {
    s.stream.Some? && s.stream.value.phase.Ready?
  }

  /** The controller sends pushes of `sent`. */
  ghost predicate Enabled(sent: iset<Push>, s: System, a: Action) {
    match a
    case Connect => s.stream.None?
    case Disconnect => AtReady(s)
    case Logout => s.stream.None? || AtReady(s)
    case Receive(p) => AtReady(s) && p in sent
    case ApplyPush(_) => s.stream.Some? && s.stream.value.phase.Applying?
    case SavePush(_) => s.stream.Some? && s.stream.value.phase.Saving?
    case ApplyCurrent(n, _) => n !in s.appliers && s.current.Some?
    case Publish(n) => n in s.appliers
    case Take(_) => AtReady(s) && s.channel.unseen && s.channel.outcome.Some?
  }

  function Succeeded(applied: set<Config>, c: Config, ok: bool): set<Config> {
    if ok then applied + {c} else applied
  }

  ghost function Act(s: System, a: Action, sent: iset<Push>): System
    requires Enabled(sent, s, a)
  {
    match a
    case Connect =>
      s.(stream := Some(Stream(None, None, None, Ready)), channel := s.channel.(unseen := false))
    case Disconnect => s.(stream := None)
    case Logout => s.(stream := None, current := None)
    case Receive(p) =>
      var t := s.(stream := Some(Received(s.stream.value, p)));
      if p.valid then t.(current := Some(Current(Some(p.revision), Pushed(p.yaml)))) else t
    case ApplyPush(ok) =>
      var p := s.stream.value.phase.push;
      s.(sequence := s.sequence + 1, applied := Succeeded(s.applied, Pushed(p.yaml), ok),
         stream := Some(if ok then s.stream.value.(phase := Saving(p)) else Settled(s.stream.value, p, false)))
    case SavePush(ok) =>
      var p := s.stream.value.phase.push;
      s.(stream := Some(Settled(s.stream.value, p, ok)), saves := if ok then s.saves + [p.yaml] else s.saves)
    case ApplyCurrent(n, ok) =>
      var c := s.current.value;
      s.(sequence := s.sequence + 1, applied := Succeeded(s.applied, c.config, ok),
         appliers := s.appliers[n := Outcome(c.revision, s.sequence + 1, ok, c.config)])
    case Publish(n) => s.(channel := Published(s.channel, s.appliers[n]), appliers := s.appliers - {n})
    case Take(saves) =>
      var p := ToSave(s.stream.value, s.channel.outcome.value);
      var t := s.(channel := s.channel.(unseen := false), taken := s.taken + [s.channel.outcome.value.sequence]);
      if p.Some? && saves then
        t.(saves := s.saves + [p.value.yaml], stream := Some(s.stream.value.(pending := None)))
      else t
  }

  /** A daemon that has started, with a configuration of its own or without. */
  ghost predicate Initial(s: System) {
    && (s.current.Some? ==> s.current.value == Current(None, Startup))
    && s == System(s.current, 0, {}, Channel(None, false), map[], None, [], [])
  }

  ghost predicate Behaviour(sent: iset<Push>, actions: seq<Action>, states: seq<System>) {
    && |states| == |actions| + 1 && Initial(states[0])
    && forall i :: 0 <= i < |actions| ==>
         Enabled(sent, states[i], actions[i]) && states[i + 1] == Act(states[i], actions[i], sent)
  }

  // What holds at every moment

  /** The stream remembers the newest push, and a valid one is saved or still pending. */
  ghost predicate StreamFits(sent: iset<Push>, s: System, t: Stream) {
    && (t.newest.None? ==> t.revision.None? && t.pending.None? && t.phase.Ready?)
    && (t.newest.Some? ==> t.newest.value in sent && t.revision == Some(t.newest.value.revision))
    && (t.phase.Ready? && t.pending.Some? ==> t.pending == t.newest && t.newest.value.valid)
    && (!t.phase.Ready? ==> t.newest == Some(t.phase.push) && t.phase.push.valid)
    && (t.phase.Saving? ==> Pushed(t.phase.push.yaml) in s.applied)
    && (t.phase.Ready? && t.newest.Some? && t.newest.value.valid && t.pending.None? ==>
          s.saves != [] && s.saves[|s.saves| - 1] == t.newest.value.yaml)
  }

  ghost predicate StreamFine(sent: iset<Push>, s: System) {
    s.stream.Some? ==> StreamFits(sent, s, s.stream.value)
  }

  /** What has revision `r` was pushed with it. */
  ghost predicate Named(sent: iset<Push>, r: Option<nat>, c: Config) {
    r.Some? ==> c.Pushed? && Push(r.value, c.yaml, true) in sent
  }

  ghost predicate OutcomeFits(sent: iset<Push>, s: System, o: Outcome) {
    Named(sent, o.revision, o.config) && (o.ok ==> o.config in s.applied) && o.sequence <= s.sequence
  }

  ghost predicate OutcomesFine(sent: iset<Push>, s: System) {
    && (s.current.Some? ==> Named(sent, s.current.value.revision, s.current.value.config))
    && (s.channel.outcome.Some? ==> OutcomeFits(sent, s, s.channel.outcome.value))
    && forall n :: n in s.appliers ==> OutcomeFits(sent, s, s.appliers[n])
  }

  /** No two outcomes have the same number. */
  ghost predicate NumbersDiffer(s: System) {
    && (forall m, n :: m in s.appliers && n in s.appliers && m != n ==>
          s.appliers[m].sequence != s.appliers[n].sequence)
    && (forall n :: n in s.appliers && s.channel.outcome.Some? ==>
          s.appliers[n].sequence != s.channel.outcome.value.sequence)
  }

  /** Those taken have smaller numbers than the one to be taken, in their order. */
  ghost predicate TakenInOrder(s: System) {
    && (s.taken != [] ==> s.channel.outcome.Some?)
    && (forall i :: 0 <= i < |s.taken| ==>
          var latest := s.channel.outcome.value.sequence;
          if s.channel.unseen then s.taken[i] < latest else s.taken[i] <= latest)
    && forall i, j :: 0 <= i < j < |s.taken| ==> s.taken[i] < s.taken[j]
  }

  ghost predicate Numbered(s: System) {
    NumbersDiffer(s) && TakenInOrder(s)
  }

  ghost predicate Invariant(sent: iset<Push>, s: System) {
    StreamFine(sent, s) && OutcomesFine(sent, s) && Numbered(s)
  }

  lemma ActStream(sent: iset<Push>, s: System, a: Action)
    requires Invariant(sent, s) && Enabled(sent, s, a)
    ensures StreamFine(sent, Act(s, a, sent))
  {}

  lemma ActOutcomes(sent: iset<Push>, s: System, a: Action)
    requires Invariant(sent, s) && Enabled(sent, s, a)
    ensures OutcomesFine(sent, Act(s, a, sent))
  {}

  lemma ActNumbersDiffer(sent: iset<Push>, s: System, a: Action)
    requires Invariant(sent, s) && Enabled(sent, s, a)
    ensures NumbersDiffer(Act(s, a, sent))
  {}

  lemma ActTakenInOrder(sent: iset<Push>, s: System, a: Action)
    requires Invariant(sent, s) && Enabled(sent, s, a)
    ensures TakenInOrder(Act(s, a, sent))
  {}

  lemma {:induction false} BehaviourInvariant(sent: iset<Push>, actions: seq<Action>, states: seq<System>, i: nat)
    requires Behaviour(sent, actions, states) && i < |states|
    ensures Invariant(sent, states[i])
  {
    if i > 0 {
      BehaviourInvariant(sent, actions, states, i - 1);
      ActStream(sent, states[i - 1], actions[i - 1]);
      ActOutcomes(sent, states[i - 1], actions[i - 1]);
      ActNumbersDiffer(sent, states[i - 1], actions[i - 1]);
      ActTakenInOrder(sent, states[i - 1], actions[i - 1]);
    }
  }

  // Saved configurations were applied

  /** Among the valid pushes a revision names one configuration. */
  ghost predicate OneConfigPerRevision(sent: iset<Push>) {
    forall p, q :: p in sent && q in sent && p.valid && q.valid && p.revision == q.revision ==> p.yaml == q.yaml
  }

  ghost predicate SavesApplied(s: System) {
    forall i :: 0 <= i < |s.saves| ==> Pushed(s.saves[i]) in s.applied
  }

  /** What an outcome makes the loop save is what was applied. */
  lemma TakenWasApplied(sent: iset<Push>, s: System, saves: bool)
    requires OneConfigPerRevision(sent) && Invariant(sent, s) && Enabled(sent, s, Take(saves))
    requires ToSave(s.stream.value, s.channel.outcome.value).Some?
    ensures Pushed(ToSave(s.stream.value, s.channel.outcome.value).value.yaml) in s.applied
  {
    var t, o := s.stream.value, s.channel.outcome.value;
    assert StreamFits(sent, s, t) && OutcomeFits(sent, s, o);
    assert Push(o.revision.value, o.config.yaml, true) in sent;
  }

  lemma ActSavesApplied(sent: iset<Push>, s: System, a: Action)
    requires OneConfigPerRevision(sent) && Invariant(sent, s) && Enabled(sent, s, a) && SavesApplied(s)
    ensures SavesApplied(Act(s, a, sent))
  {
    if a.Take? && ToSave(s.stream.value, s.channel.outcome.value).Some? {
      TakenWasApplied(sent, s, a.saves);
    }
  }

  lemma {:induction false} RunSavesApplied(sent: iset<Push>, actions: seq<Action>, states: seq<System>, i: nat)
    requires OneConfigPerRevision(sent) && Behaviour(sent, actions, states) && i < |states|
    ensures SavesApplied(states[i])
  {
    if i > 0 {
      RunSavesApplied(sent, actions, states, i - 1);
      BehaviourInvariant(sent, actions, states, i - 1);
      ActSavesApplied(sent, states[i - 1], actions[i - 1]);
    }
  }

  /** A run in which one revision is pushed with two configurations. */
  function ReuseRun(p: Push, q: Push): seq<Action> {
    [Connect, Receive(p), ApplyPush(true), SavePush(true), ApplyCurrent(0, true), Receive(q), ApplyPush(false),
     Publish(0), Take(true)]
  }

  /** The first push is applied, saved and re-applied; the outcome is not published yet. */
  function FirstStates(p: Push): seq<System> {
    var s0 := System(None, 0, {}, Channel(None, false), map[], None, [], []);
    var s1 := s0.(stream := Some(Stream(None, None, None, Ready)));
    var s2 := s1.(current := Some(Current(Some(p.revision), Pushed(p.yaml))),
                  stream := Some(Stream(Some(p.revision), None, Some(p), Applying(p))));
    var s3 := s2.(sequence := 1, applied := {Pushed(p.yaml)},
                  stream := Some(Stream(Some(p.revision), None, Some(p), Saving(p))));
    var s4 := s3.(stream := Some(Stream(Some(p.revision), None, Some(p), Ready)), saves := [p.yaml]);
    [s0, s1, s2, s3, s4, s4.(sequence := 2, appliers := map[0 := Outcome(Some(p.revision), 2, true, Pushed(p.yaml))])]
  }

  /** The second push fails to apply; then the outcome is published and taken. */
  function SecondStates(p: Push, q: Push): seq<System> {
    var s5 := FirstStates(p)[5];
    var s6 := s5.(current := Some(Current(Some(q.revision), Pushed(q.yaml))),
                  stream := Some(Stream(Some(q.revision), None, Some(q), Applying(q))));
    var s7 := s6.(sequence := 3, stream := Some(Stream(Some(q.revision), Some(q), Some(q), Ready)));
    var s8 := s7.(channel := Channel(Some(Outcome(Some(p.revision), 2, true, Pushed(p.yaml))), true), appliers := map[]);
    [s6, s7, s8,
     s8.(channel := s8.channel.(unseen := false), taken := [2], saves := [p.yaml, q.yaml],
         stream := Some(Stream(Some(q.revision), None, Some(q), Ready)))]
  }

  lemma FirstHalf(sent: iset<Push>, p: Push, q: Push, i: nat)
    requires p in sent && p.valid && i < 5
    ensures
      var a, s := ReuseRun(p, q), FirstStates(p);
      Enabled(sent, s[i], a[i]) && s[i + 1] == Act(s[i], a[i], sent)
  {}

  lemma SecondHalf(sent: iset<Push>, p: Push, q: Push, i: nat)
    requires q in sent && q.valid && p.revision == q.revision && i < 4
    ensures
      var a, s := ReuseRun(p, q), [FirstStates(p)[5]] + SecondStates(p, q);
      Enabled(sent, s[i], a[5 + i]) && s[i + 1] == Act(s[i], a[5 + i], sent)
  {
    assert map[0 := Outcome(Some(p.revision), 2, true, Pushed(p.yaml))] - {0} == map[];
  }

  /**
   The outcome of a re-apply of the first configuration, published after the
   second was pushed under the same revision and failed to apply, makes the
   loop save the second.
   */
  lemma ReusedRevision(sent: iset<Push>, p: Push, q: Push)
    requires p in sent && q in sent && p.valid && q.valid && p.revision == q.revision && p.yaml != q.yaml
    ensures
      var states := FirstStates(p) + SecondStates(p, q);
      Behaviour(sent, ReuseRun(p, q), states) && !SavesApplied(states[9])
  {
    var actions, states := ReuseRun(p, q), FirstStates(p) + SecondStates(p, q);
    forall i | 0 <= i < |actions|
      ensures Enabled(sent, states[i], actions[i]) && states[i + 1] == Act(states[i], actions[i], sent)
    {
      if i < 5 {
        FirstHalf(sent, p, q, i);
      } else {
        SecondHalf(sent, p, q, i - 5);
      }
    }
    assert states[9].saves[1] == q.yaml;
  }

  ghost predicate AlwaysSavesApplied(sent: iset<Push>) {
    forall actions, states, i :: Behaviour(sent, actions, states) && 0 <= i < |states| ==> SavesApplied(states[i])
  }

  /**
   Whatever the controller sends, in any order, and however applies, saves,
   ticks, choice changes and reconnects fall: every configuration ever saved
   for the next start is one that had been applied, exactly when no revision
   is sent with two valid configurations.
   */
  lemma SavedWasAppliedIff(sent: iset<Push>)
    ensures AlwaysSavesApplied(sent) <==> OneConfigPerRevision(sent)
  {
    if OneConfigPerRevision(sent) {
      forall actions, states, i | Behaviour(sent, actions, states) && 0 <= i < |states|
        ensures SavesApplied(states[i])
      {
        RunSavesApplied(sent, actions, states, i);
      }
    } else {
      var p, q :| p in sent && q in sent && p.valid && q.valid && p.revision == q.revision && p.yaml != q.yaml;
      ReusedRevision(sent, p, q);
      var states := FirstStates(p) + SecondStates(p, q);
      assert Behaviour(sent, ReuseRun(p, q), states) && !SavesApplied(states[9]);
    }
  }

  // The newest push is the one saved

  /**
   Whenever the loop waits for messages, the newest push of its stream, if it
   is valid, is the saved configuration or pending.
   */
  lemma NewestSavedOrPending(sent: iset<Push>, actions: seq<Action>, states: seq<System>, i: nat)
    requires Behaviour(sent, actions, states) && i < |states| && AtReady(states[i])
    ensures
      var s, t := states[i], states[i].stream.value;
      && (t.newest.Some? && t.newest.value.valid ==>
            t.pending == t.newest || (s.saves != [] && s.saves[|s.saves| - 1] == t.newest.value.yaml))
      && (t.pending.Some? ==> t.pending == t.newest && t.newest.value.valid)
  {
    BehaviourInvariant(sent, actions, states, i);
  }

  /**
   A successful re-apply of the newest push, taken and followed by a successful
   save, leaves that push as the saved configuration, and nothing pending.
   */
  lemma ReapplySavesNewest(sent: iset<Push>, actions: seq<Action>, states: seq<System>, i: nat)
    requires Behaviour(sent, actions, states) && i < |actions| && actions[i] == Take(true)
    requires
      var t, o := states[i].stream.value, states[i].channel.outcome.value;
      t.newest.Some? && t.newest.value.valid && o.ok && o.revision == Some(t.newest.value.revision)
    ensures
      var s, t := states[i + 1], states[i + 1].stream.value;
      && t.newest == states[i].stream.value.newest && t.pending.None?
      && s.saves != [] && s.saves[|s.saves| - 1] == t.newest.value.yaml
  {
    BehaviourInvariant(sent, actions, states, i);
  }

  /** Taking an outcome saves nothing but the newest push of the stream. */
  lemma TakeSavesOnlyNewest(sent: iset<Push>, actions: seq<Action>, states: seq<System>, i: nat)
    requires Behaviour(sent, actions, states) && i < |actions| && actions[i].Take?
    ensures
      var s, n := states[i], states[i].stream.value.newest;
      states[i + 1].saves == s.saves || (n.Some? && n.value.valid && states[i + 1].saves == s.saves + [n.value.yaml])
  {
    BehaviourInvariant(sent, actions, states, i);
  }

  // A push that does not parse makes the loop forget a pending one

  /** What is saved for the next start. */
  function Saved(s: System): Option<Yaml> {
    if s.saves == [] then None else Some(s.saves[|s.saves| - 1])
  }

  /** From step `j` to step `i` the stream stays, and no valid push arrives. */
  ghost predicate NoValidPush(actions: seq<Action>, j: nat, i: nat) {
    forall k :: j <= k < i && k < |actions| ==>
      && !actions[k].Connect? && !actions[k].Disconnect? && !actions[k].Logout?
      && (actions[k].Receive? ==> !actions[k].push.valid)
  }

  ghost predicate NoPush(actions: seq<Action>, j: nat, i: nat) {
    forall k :: j <= k < i && k < |actions| ==> !actions[k].Receive?
  }

  /** A step that is neither a push nor a change of stream keeps the newest push. */
  lemma NewestStays(sent: iset<Push>, s: System, a: Action)
    requires Enabled(sent, s, a) && s.stream.Some?
    requires !a.Connect? && !a.Disconnect? && !a.Logout? && !a.Receive?
    ensures
      var t := Act(s, a, sent);
      t.stream.Some? && t.stream.value.newest == s.stream.value.newest
  {}

  lemma NewestAfter(sent: iset<Push>, s: System, p: Push)
    requires Enabled(sent, s, Receive(p))
    ensures
      var t := Act(s, Receive(p), sent);
      t.stream.Some? && t.stream.value.newest == Some(p)
  {}

  /** After a push, the newest push is that one or, if more came, one that is not valid. */
  lemma {:induction false} NewestSince(
    sent: iset<Push>, actions: seq<Action>, states: seq<System>, j: nat, i: nat, p: Push)
    requires Behaviour(sent, actions, states) && j < i < |states|
    requires actions[j] == Receive(p) && NoValidPush(actions, j + 1, i)
    ensures states[i].stream.Some? && states[i].stream.value.newest.Some?
    ensures
      var newest := states[i].stream.value.newest.value;
      if NoPush(actions, j + 1, i) then newest == p else !newest.valid
  {
    var s, a := states[i - 1], actions[i - 1];
    assert Enabled(sent, s, a) && states[i] == Act(s, a, sent);
    if i == j + 1 {
      NewestAfter(sent, s, p);
    } else {
      NewestSince(sent, actions, states, j, i - 1, p);
      if a.Receive? {
        NewestAfter(sent, s, a.push);
      } else {
        NewestStays(sent, s, a);
        assert NoPush(actions, j + 1, i - 1) ==> NoPush(actions, j + 1, i);
      }
    }
  }

  /**
   Once an invalid push has arrived, taking an outcome saves nothing, at any
   later moment of the stream, until a valid push arrives.
   */
  lemma InvalidPushForgetsPending(
    sent: iset<Push>, actions: seq<Action>, states: seq<System>, j: nat, i: nat, p: Push)
    requires Behaviour(sent, actions, states) && j < i < |actions|
    requires actions[j] == Receive(p) && !p.valid && NoValidPush(actions, j + 1, i) && actions[i].Take?
    ensures states[i + 1].saves == states[i].saves
  {
    NewestSince(sent, actions, states, j, i, p);
    TakeSavesOnlyNewest(sent, actions, states, i);
  }

  /** Taking a successful outcome for the newest valid push saves it if nothing was pushed after it. */
  lemma LaterPushDecides(sent: iset<Push>, actions: seq<Action>, states: seq<System>, i: nat, v: Push)
    requires Behaviour(sent, actions, states) && i < |actions| && actions[i] == Take(true) && v.valid
    requires states[i].stream.value.newest.Some?
    requires states[i].channel.outcome.value.ok && states[i].channel.outcome.value.revision == Some(v.revision)
    requires Saved(states[i]) != Some(v.yaml)
    ensures states[i].stream.value.newest == Some(v) ==> Saved(states[i + 1]) == Some(v.yaml)
    ensures !states[i].stream.value.newest.value.valid ==> Saved(states[i + 1]) == Saved(states[i])
  {
    TakeSavesOnlyNewest(sent, actions, states, i);
    if states[i].stream.value.newest == Some(v) {
      ReapplySavesNewest(sent, actions, states, i);
    }
  }

  /**
   Push `v` is the newest valid one of its stream and is not what is saved. A
   successful outcome for its revision is taken and saving succeeds: then `v`
   becomes the saved configuration if and only if no push at all was received
   after it.
   */
  lemma ReapplySavesNewestValidIff(
    sent: iset<Push>, actions: seq<Action>, states: seq<System>, j: nat, i: nat, v: Push)
    requires Behaviour(sent, actions, states) && j < i < |actions|
    requires actions[j] == Receive(v) && v.valid && NoValidPush(actions, j + 1, i) && actions[i] == Take(true)
    requires states[i].channel.outcome.value.ok && states[i].channel.outcome.value.revision == Some(v.revision)
    requires Saved(states[i]) != Some(v.yaml)
    ensures Saved(states[i + 1]) == Some(v.yaml) <==> NoPush(actions, j + 1, i)
  {
    NewestSince(sent, actions, states, j, i, v);
    LaterPushDecides(sent, actions, states, i, v);
  }

  /** A valid push fails to apply, an invalid one follows, and the re-apply succeeds and is taken. */
  function ForgetRun(v: Push, p: Push): seq<Action> {
    [Connect, Receive(v), ApplyPush(false), Receive(p), ApplyCurrent(0, true), Publish(0), Take(true)]
  }

  function ForgetStates(v: Push, p: Push): seq<System> {
    var s0 := System(None, 0, {}, Channel(None, false), map[], None, [], []);
    var s1 := s0.(stream := Some(Stream(None, None, None, Ready)));
    var s2 := s1.(current := Some(Current(Some(v.revision), Pushed(v.yaml))),
                  stream := Some(Stream(Some(v.revision), None, Some(v), Applying(v))));
    var s3 := s2.(sequence := 1, stream := Some(Stream(Some(v.revision), Some(v), Some(v), Ready)));
    var s4 := s3.(stream := Some(Stream(Some(p.revision), None, Some(p), Ready)));
    var o := Outcome(Some(v.revision), 2, true, Pushed(v.yaml));
    var s5 := s4.(sequence := 2, applied := {Pushed(v.yaml)}, appliers := map[0 := o]);
    var s6 := s5.(channel := Channel(Some(o), true), appliers := map[]);
    [s0, s1, s2, s3, s4, s5, s6, s6.(channel := Channel(Some(o), false), taken := [2])]
  }

  lemma ForgetSteps(sent: iset<Push>, v: Push, p: Push, i: nat)
    requires v in sent && p in sent && v.valid && !p.valid && i < 7
    ensures
      var a, s := ForgetRun(v, p), ForgetStates(v, p);
      Enabled(sent, s[i], a[i]) && s[i + 1] == Act(s[i], a[i], sent)
  {
    assert map[0 := Outcome(Some(v.revision), 2, true, Pushed(v.yaml))] - {0} == map[];
  }

  /** Such a push is the current configuration and was applied, was pending, and is not saved. */
  lemma PendingPushForgotten(sent: iset<Push>, v: Push, p: Push)
    requires v in sent && p in sent && v.valid && !p.valid
    ensures
      var s := ForgetStates(v, p);
      && Behaviour(sent, ForgetRun(v, p), s)
      && s[3].stream.value.pending == Some(v)
      && s[6].channel.outcome.value.ok && s[6].channel.outcome.value.revision == Some(v.revision)
      && s[7].current == Some(Current(Some(v.revision), Pushed(v.yaml))) && Pushed(v.yaml) in s[7].applied
      && s[7].saves == []
  {
    var a, s := ForgetRun(v, p), ForgetStates(v, p);
    forall i | 0 <= i < |a|
      ensures Enabled(sent, s[i], a[i]) && s[i + 1] == Act(s[i], a[i], sent)
    {
      ForgetSteps(sent, v, p, i);
    }
  }

  /**
   A valid push becomes current at once; if its apply succeeds and saving it
   does, it is what is saved and nothing is pending; if one of them fails, it
   is pending and what is saved stays.
   */
  lemma PushSettles(sent: iset<Push>, actions: seq<Action>, states: seq<System>, i: nat)
    requires Behaviour(sent, actions, states) && i < |actions|
    ensures
      var s, t := states[i], states[i + 1];
      && (actions[i].Receive? && actions[i].push.valid ==>
            && t.current == Some(Current(Some(actions[i].push.revision), Pushed(actions[i].push.yaml)))
            && t.stream.Some? && t.stream.value.phase == Applying(actions[i].push))
      && (actions[i] == ApplyPush(true) ==>
            t.stream.Some? && t.stream.value.phase == Saving(s.stream.value.phase.push) && Saved(t) == Saved(s))
      && (actions[i] == SavePush(true) ==>
            Saved(t) == Some(s.stream.value.phase.push.yaml) && t.stream.Some? && t.stream.value.pending == None)
      && (actions[i] == ApplyPush(false) || actions[i] == SavePush(false) ==>
            && Saved(t) == Saved(s) && t.stream.Some? && t.stream.value.phase == Ready
            && t.stream.value.pending == Some(s.stream.value.phase.push))
  {
    assert Enabled(sent, states[i], actions[i]) && states[i + 1] == Act(states[i], actions[i], sent);
  }

  // Outcomes are taken in the order of their applies

  /** What the channel shows as unseen was published at step `k` of this stream. */
  ghost predicate PublishedAt(actions: seq<Action>, states: seq<System>, j: nat, i: nat, k: nat) {
    && j < k < i && i < |states| && i <= |actions| && actions[k].Publish? && actions[k].n in states[k].appliers
    && states[i].channel.outcome == Some(states[k].appliers[actions[k].n])
  }

  lemma {:induction false} UnseenIsNew(sent: iset<Push>, actions: seq<Action>, states: seq<System>, j: nat, i: nat)
    requires Behaviour(sent, actions, states) && j < i < |states| && actions[j] == Connect
    ensures states[i].channel.unseen ==> exists k :: PublishedAt(actions, states, j, i, k)
  {
    var s, a := states[i - 1], actions[i - 1];
    assert Enabled(sent, s, a) && states[i] == Act(s, a, sent);
    if j + 1 < i && states[i].channel.unseen {
      if states[i].channel == s.channel {
        UnseenIsNew(sent, actions, states, j, i - 1);
        var k :| PublishedAt(actions, states, j, i - 1, k);
        assert PublishedAt(actions, states, j, i, k);
      } else {
        assert PublishedAt(actions, states, j, i, i - 1);
      }
    }
  }

  /** An outcome that a stream takes was published after the stream was opened. */
  lemma TakenIsOfThisStream(sent: iset<Push>, actions: seq<Action>, states: seq<System>, j: nat, i: nat)
    requires Behaviour(sent, actions, states) && j < i < |actions| && actions[j] == Connect && actions[i].Take?
    ensures exists k :: PublishedAt(actions, states, j, i, k)
  {
    UnseenIsNew(sent, actions, states, j, i);
    assert Enabled(sent, states[i], actions[i]);
  }

  /** After a logout nothing is applied by a tick or a choice change until a valid push arrives. */
  lemma {:induction false} LoggedOutAppliesNothing(
    sent: iset<Push>, actions: seq<Action>, states: seq<System>, j: nat, i: nat)
    requires Behaviour(sent, actions, states) && j < i < |states| && actions[j] == Logout
    requires forall k :: j < k < i && actions[k].Receive? ==> !actions[k].push.valid
    ensures states[i].current == None
    ensures i < |actions| ==> !actions[i].ApplyCurrent?
  {
    var s, a := states[i - 1], actions[i - 1];
    assert Enabled(sent, s, a) && states[i] == Act(s, a, sent);
    if j + 1 < i {
      LoggedOutAppliesNothing(sent, actions, states, j, i - 1);
    }
    assert i < |actions| ==> Enabled(sent, states[i], actions[i]);
  }

  lemma OutcomesInOrder(sent: iset<Push>, actions: seq<Action>, states: seq<System>, i: nat, j: nat, k: nat)
    requires Behaviour(sent, actions, states) && i < |states| && j < k < |states[i].taken|
    ensures states[i].taken[j] < states[i].taken[k]
  {
    BehaviourInvariant(sent, actions, states, i);
  }
}
