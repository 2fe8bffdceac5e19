/**
 Device sign-in to the LLM gateway. Calls of `device_login`, background pollers
 waiting for tokens and other users of the token store interleave. A call
 checks twice, under the global login lock, whether its account is signed in
 or has a pending grant; between the checks it takes a lock of its account,
 which it keeps while it requests a grant. A poller stores its tokens under the
 login lock and then takes its grant off the list of pending ones.
 */
module DeviceGrant {
  import opened Common

  type Account = string

  /** A grant: its user code and verification address, named by a number of its own. */
  type Grant = nat

  datatype Status = SignedIn | Awaiting(grant: Grant) | Refused

  /**
   A check waits for the login lock, holds it, or holds it having found no
   tokens; `seen` is the grant of the account that was then pending and had
   not stored its tokens.
   */
  datatype Stage = AtDoor | Inside | NotSignedIn(seen: Option<Grant>)

  /** Where a call is; `since` is the step at which it began and `read` the one at which its status was decided. */
  datatype Call =
    | Idle
    | First(account: Account, since: nat, stage: Stage)
    | Queued(account: Account, since: nat)
    | Second(account: Account, since: nat, stage: Stage)
    | Requesting(account: Account, since: nat)
    | Returned(account: Account, since: nat, read: nat, status: Status)

  datatype Phase = Polling | Approved | Saving | Ending | Over(at: nat)

  /** The poller of a grant, listed as pending from step `listedAt` until it is over. */
  datatype Task = Task(account: Account, listedAt: nat, stored: bool, phase: Phase)

  datatype Holder = Caller(p: nat) | Saver(g: Grant) | Other

  /** `tokens` are the accounts whose stored tokens are still good. */
  datatype System = System(
    step: nat, login: Option<Holder>, starting: map<Account, nat>, pending: map<Account, Grant>, tokens: set<Account>,
    calls: map<nat, Call>, tasks: map<Grant, Task>)

  datatype CallStep =
    | Begin(account: Account)
    | Enter
    | FindTokens
    | FindNoTokens
    | FailReading
    | FindPending
    | FindNothing
    | TakeStart
    | FailRequest
    | Receive(g: Grant)
    | Cancel

  datatype TaskStep = PollSucceeds | PollFails | EnterSave | Save(ok: bool) | Unlist

  datatype Action =
    | ByCall(p: nat, call: CallStep)
    | ByTask(g: Grant, task: TaskStep)
    | OtherEnters
    | OtherLeaves(tokens: set<Account>)
    | Expire(account: Account)

  // One step

  function CallOf(s: System, p: nat): Call {
    if p in s.calls then s.calls[p] else Idle
  }

  predicate Checking(c: Call) {
    c.First? || c.Second?
  }

  /** The call has its account's lock. */
  predicate Starting(c: Call) {
    c.Second? || c.Requesting?
  }

  /** The call has the login lock. */
  predicate InLogin(c: Call) {
    Checking(c) && !c.stage.AtDoor?
  }

  predicate Live(t: Task) {
    !t.phase.Over?
  }

  /**
   Good tokens in the store are found; others may be refreshed and found, and
   any reading may fail.
   */
  predicate CallEnabled(s: System, p: nat, k: CallStep) {
    var c := CallOf(s, p);
    match k
    case Begin(_) => c.Idle?
    case Enter => Checking(c) && c.stage.AtDoor? && s.login.None?
    case FindTokens => Checking(c) && c.stage.Inside?
    case FindNoTokens => Checking(c) && c.stage.Inside? && c.account !in s.tokens
    case FailReading => Checking(c) && c.stage.Inside?
    case FindPending => Checking(c) && c.stage.NotSignedIn? && c.account in s.pending
    case FindNothing => Checking(c) && c.stage.NotSignedIn? && c.account !in s.pending
    case TakeStart => c.Queued? && c.account !in s.starting
    case FailRequest => c.Requesting?
    case Receive(g) => c.Requesting? && g !in s.tasks
    case Cancel => !c.Idle? && !c.Returned?
  }

  predicate TaskEnabled(s: System, g: Grant, k: TaskStep) {
    && g in s.tasks
    && match k
       case PollSucceeds => s.tasks[g].phase.Polling?
       case PollFails => s.tasks[g].phase.Polling?
       case EnterSave => s.tasks[g].phase.Approved? && s.login.None?
       case Save(_) => s.tasks[g].phase.Saving?
       case Unlist => s.tasks[g].phase.Ending?
  }

  predicate Enabled(s: System, a: Action) {
    match a
    case ByCall(p, k) => CallEnabled(s, p, k)
    case ByTask(g, k) => TaskEnabled(s, g, k)
    case OtherEnters => s.login.None?
    case OtherLeaves(_) => s.login == Some(Other)
    case Expire(_) => true
  }

  function AtStage(c: Call, stage: Stage): Call
    requires Checking(c)
  {
    if c.First? then First(c.account, c.since, stage) else Second(c.account, c.since, stage)
  }

  function Unstored(s: System, account: Account): Option<Grant> {
    if account in s.pending && s.pending[account] in s.tasks && !s.tasks[s.pending[account]].stored
    then Some(s.pending[account]) else None
  }

  /** What the call becomes. */
  function NextCall(s: System, p: nat, k: CallStep): Call
    requires CallEnabled(s, p, k)
  {
    var c := CallOf(s, p);
    match k
    case Begin(account) => First(account, s.step, AtDoor)
    case Enter => AtStage(c, Inside)
    case FindTokens => Returned(c.account, c.since, s.step, SignedIn)
    case FindNoTokens => AtStage(c, NotSignedIn(Unstored(s, c.account)))
    case FailReading => Returned(c.account, c.since, s.step, Refused)
    case FindPending => Returned(c.account, c.since, s.step, Awaiting(s.pending[c.account]))
    case FindNothing => if c.First? then Queued(c.account, c.since) else Requesting(c.account, c.since)
    case TakeStart => Second(c.account, c.since, AtDoor)
    case FailRequest => Returned(c.account, c.since, s.step, Refused)
    case Receive(g) => Returned(c.account, c.since, s.step, Awaiting(g))
    case Cancel => Idle
  }

  /** Call `p` goes on as `c`, taking the locks it needs there and dropping those it does not. */
  function Move(s: System, p: nat, c: Call): System {
    var was := CallOf(s, p);
    s.(calls := s.calls[p := c],
       login := if InLogin(c) then Some(Caller(p)) else if InLogin(was) then None else s.login,
       starting :=
         if Starting(c) then s.starting[c.account := p]
         else if Starting(was) then s.starting - {was.account}
         else s.starting)
  }

  function CallEffect(s: System, p: nat, k: CallStep): System
    requires CallEnabled(s, p, k)
  {
    var t := Move(s, p, NextCall(s, p, k));
    match k
    case FindTokens => t.(tokens := s.tokens + {CallOf(s, p).account})
    case Receive(g) =>
      var account := CallOf(s, p).account;
      t.(pending := s.pending[account := g], tasks := s.tasks[g := Task(account, s.step, false, Polling)])
    case _ => t
  }

  /** The poller of `g` goes on in `phase`, with the login lock only while it saves. */
  function MoveTask(s: System, g: Grant, phase: Phase): System
    requires g in s.tasks
  {
    s.(tasks := s.tasks[g := s.tasks[g].(phase := phase)],
       login := if phase.Saving? then Some(Saver(g)) else if s.tasks[g].phase.Saving? then None else s.login)
  }

  function TaskEffect(s: System, g: Grant, k: TaskStep): System
    requires TaskEnabled(s, g, k)
  {
    var account := s.tasks[g].account;
    match k
    case PollSucceeds => MoveTask(s, g, Approved)
    case PollFails => MoveTask(s, g, Ending)
    case EnterSave => MoveTask(s, g, Saving)
    case Save(ok) =>
      var t := MoveTask(s, g, Ending);
      if ok then t.(tasks := t.tasks[g := t.tasks[g].(stored := true)], tokens := s.tokens + {account}) else t
    case Unlist => MoveTask(s, g, Over(s.step)).(pending := s.pending - {account})
  }

  function Effect(s: System, a: Action): System
    requires Enabled(s, a)
  {
    match a
    case ByCall(p, k) => CallEffect(s, p, k)
    case ByTask(g, k) => TaskEffect(s, g, k)
    case OtherEnters => s.(login := Some(Other))
    case OtherLeaves(tokens) => s.(login := None, tokens := s.tokens + tokens)
    case Expire(account) => s.(tokens := s.tokens - {account})
  }

  function Act(s: System, a: Action): System
    requires Enabled(s, a)
  {
    Effect(s, a).(step := s.step + 1)
  }

  /** A daemon that has just started, with whatever tokens an earlier one stored. */
  function Initial(tokens: set<Account>): System {
    System(0, None, map[], map[], tokens, map[], map[])
  }

  ghost predicate Behaviour(actions: seq<Action>, states: seq<System>) {
    && |states| == |actions| + 1 && states[0] == Initial(states[0].tokens)
    && forall i :: 0 <= i < |actions| ==> Enabled(states[i], actions[i]) && states[i + 1] == Act(states[i], actions[i])
  }

  // What holds at every moment

  /** The login lock is held by exactly the call or poller that is inside it. */
  ghost predicate LoginHeld(s: System) {
    && (forall p :: InLogin(CallOf(s, p)) <==> s.login == Some(Caller(p)))
    && (forall g :: g in s.tasks ==> (s.tasks[g].phase.Saving? <==> s.login == Some(Saver(g))))
    && (s.login.Some? && s.login.value.Saver? ==> s.login.value.g in s.tasks)
  }

  /** The lock of an account is held by exactly the call that is starting for it. */
  ghost predicate StartHeld(s: System) {
    && (forall p :: Starting(CallOf(s, p)) ==>
          CallOf(s, p).account in s.starting && s.starting[CallOf(s, p).account] == p)
    && forall account :: account in s.starting ==>
         var c := CallOf(s, s.starting[account]);
         Starting(c) && c.account == account
  }

  /** The pending grants are exactly the live ones, one for an account, and none while one is being requested. */
  ghost predicate OneGrant(s: System) {
    && (forall g :: g in s.tasks && Live(s.tasks[g]) ==>
          s.tasks[g].account in s.pending && s.pending[s.tasks[g].account] == g)
    && (forall account :: account in s.pending ==>
          var g := s.pending[account];
          g in s.tasks && Live(s.tasks[g]) && s.tasks[g].account == account)
    && forall p :: CallOf(s, p).Requesting? ==> CallOf(s, p).account !in s.pending
  }

  /** Steps are numbered in order, and tokens are stored at the end of polling. */
  ghost predicate Dated(s: System) {
    forall g :: g in s.tasks ==> DatedTask(s.step, s.tasks[g])
  }

  predicate DatedTask(step: nat, t: Task) {
    && t.listedAt < step && (t.phase.Over? ==> t.listedAt < t.phase.at < step)
    && (t.stored ==> t.phase.Ending? || t.phase.Over?)
  }

  /** Grant `g` was on the list of pending grants at step `at`. */
  ghost predicate LiveAt(s: System, g: Grant, at: nat) {
    && g in s.tasks && s.tasks[g].listedAt <= at
    && (s.tasks[g].phase.Over? ==> at < s.tasks[g].phase.at)
  }

  /** A grant reported by a call was live when the call read it, during the call. */
  ghost predicate Reported(s: System, c: Call) {
    && (!c.Idle? ==> c.since < s.step)
    && (c.Returned? ==> c.since <= c.read < s.step)
    && (c.Returned? && c.status.Awaiting? ==> LiveAt(s, c.status.grant, c.read))
  }

  /** While a check holds the login lock after finding no tokens, the grant it saw stores none. */
  ghost predicate NoneStored(s: System, c: Call) {
    Checking(c) && c.stage.NotSignedIn? && c.stage.seen.Some? ==>
      var g := c.stage.seen.value;
      g in s.tasks && !s.tasks[g].stored && s.tasks[g].account == c.account
  }

  ghost predicate CallsFine(s: System) {
    forall p :: Reported(s, CallOf(s, p)) && NoneStored(s, CallOf(s, p))
  }

  ghost predicate Invariant(s: System) {
    LoginHeld(s) && StartHeld(s) && OneGrant(s) && Dated(s) && CallsFine(s)
  }

  // Every step keeps it

  /** A call that only takes locks that are free, and keeps its account, keeps the locks right. */
  lemma MoveLocks(s: System, p: nat, c: Call)
    requires LoginHeld(s) && StartHeld(s)
    requires InLogin(c) ==> s.login.None? || InLogin(CallOf(s, p))
    requires Starting(c) ==> !CallOf(s, p).Idle? && CallOf(s, p).account == c.account
    requires Starting(c) ==> Starting(CallOf(s, p)) || c.account !in s.starting
    ensures LoginHeld(Move(s, p, c)) && StartHeld(Move(s, p, c))
  {
    var t := Move(s, p, c);
    assert forall q :: CallOf(t, q) == if q == p then c else CallOf(s, q);
  }

  lemma CallLocks(s: System, p: nat, k: CallStep)
    requires Invariant(s) && CallEnabled(s, p, k)
    ensures LoginHeld(CallEffect(s, p, k)) && StartHeld(CallEffect(s, p, k))
  {
    var c := NextCall(s, p, k);
    MoveLocks(s, p, c);
    var t, u := Move(s, p, c), CallEffect(s, p, k);
    assert forall q :: CallOf(u, q) == CallOf(t, q);
  }

  lemma TaskLocks(s: System, g: Grant, k: TaskStep)
    requires Invariant(s) && TaskEnabled(s, g, k)
    ensures LoginHeld(TaskEffect(s, g, k)) && StartHeld(TaskEffect(s, g, k))
  {
    var t := TaskEffect(s, g, k);
    assert forall q :: CallOf(t, q) == CallOf(s, q);
  }

  /** Only one call at a time requests a grant for an account. */
  lemma OneRequest(s: System, p: nat, q: nat)
    requires StartHeld(s) && Starting(CallOf(s, p)) && Starting(CallOf(s, q))
    requires CallOf(s, p).account == CallOf(s, q).account
    ensures p == q
  {}

  lemma CallOneGrant(s: System, p: nat, k: CallStep)
    requires Invariant(s) && CallEnabled(s, p, k)
    ensures OneGrant(CallEffect(s, p, k))
  {
    var t := CallEffect(s, p, k);
    forall q | CallOf(t, q).Requesting?
      ensures CallOf(t, q).account !in t.pending
    {
      if q != p {
        assert CallOf(t, q) == CallOf(s, q);
        if k.Receive? && CallOf(s, q).account == CallOf(s, p).account {
          OneRequest(s, p, q);
        }
      }
    }
  }

  lemma TaskKeepsLive(s: System, g: Grant, k: TaskStep, h: Grant)
    requires Invariant(s) && TaskEnabled(s, g, k) && h in TaskEffect(s, g, k).tasks
    ensures
      var t := TaskEffect(s, g, k);
      Live(t.tasks[h]) ==> t.tasks[h].account in t.pending && t.pending[t.tasks[h].account] == h
  {}

  lemma TaskKeepsPending(s: System, g: Grant, k: TaskStep, account: Account)
    requires Invariant(s) && TaskEnabled(s, g, k) && account in TaskEffect(s, g, k).pending
    ensures
      var t := TaskEffect(s, g, k);
      var h := t.pending[account];
      h in t.tasks && Live(t.tasks[h]) && t.tasks[h].account == account
  {
    assert account in s.pending && TaskEffect(s, g, k).pending[account] == s.pending[account];
  }

  lemma TaskOneGrant(s: System, g: Grant, k: TaskStep)
    requires Invariant(s) && TaskEnabled(s, g, k)
    ensures OneGrant(TaskEffect(s, g, k))
  {
    var t := TaskEffect(s, g, k);
    assert t.calls == s.calls && t.pending.Keys <= s.pending.Keys;
    assert forall q :: CallOf(t, q) == CallOf(s, q);
    forall h | h in t.tasks && Live(t.tasks[h])
      ensures t.tasks[h].account in t.pending && t.pending[t.tasks[h].account] == h
    {
      TaskKeepsLive(s, g, k, h);
    }
    forall account | account in t.pending
      ensures
        var h := t.pending[account];
        h in t.tasks && Live(t.tasks[h]) && t.tasks[h].account == account
    {
      TaskKeepsPending(s, g, k, account);
    }
  }

  /** Between two steps a poller is the same, goes on one phase, or is new. */
  predicate Follows(step: nat, was: Task, t: Task) {
    && t.account == was.account && t.listedAt == was.listedAt
    && (t == was || (Live(was) && (t.phase.Over? ==> t.phase.at == step && t.stored == was.stored)))
    && (t.stored && !was.stored ==> was.phase.Saving? && t.phase.Ending?)
    && (t.stored && was.stored ==> t.phase.Over? || t.phase.Ending?)
  }

  lemma CallKeepsTask(s: System, p: nat, k: CallStep, g: Grant)
    requires CallEnabled(s, p, k) && g in CallEffect(s, p, k).tasks
    ensures
      CallEffect(s, p, k).tasks[g] ==
      if g in s.tasks then s.tasks[g] else Task(CallOf(s, p).account, s.step, false, Polling)
  {}

  lemma TaskFollows(s: System, h: Grant, k: TaskStep, g: Grant)
    requires Dated(s) && TaskEnabled(s, h, k)
    ensures TaskEffect(s, h, k).tasks.Keys == s.tasks.Keys
    ensures g in s.tasks ==> Follows(s.step, s.tasks[g], TaskEffect(s, h, k).tasks[g])
  {}

  /** No poller is forgotten, and a new one is live and has stored nothing. */
  lemma ActFollows(s: System, a: Action, g: Grant)
    requires Dated(s) && Enabled(s, a)
    ensures
      var t := Act(s, a);
      && (g in s.tasks ==> g in t.tasks && Follows(s.step, s.tasks[g], t.tasks[g]))
      && (g in t.tasks && g !in s.tasks ==>
            t.tasks[g].listedAt == s.step && t.tasks[g].phase.Polling? && !t.tasks[g].stored)
  {
    match a
    case ByCall(p, k) => if g in CallEffect(s, p, k).tasks { CallKeepsTask(s, p, k, g); }
    case ByTask(h, k) => TaskFollows(s, h, k, g);
    case OtherEnters =>
    case OtherLeaves(_) =>
    case Expire(_) =>
  }

  lemma ActCall(s: System, a: Action, p: nat)
    requires Enabled(s, a)
    ensures
      CallOf(Act(s, a), p) == if a.ByCall? && a.p == p then NextCall(s, p, a.call) else CallOf(s, p)
  {}

  lemma ActDated(s: System, a: Action)
    requires Dated(s) && Enabled(s, a)
    ensures Dated(Act(s, a))
  {
    var t := Act(s, a);
    forall g | g in t.tasks
      ensures DatedTask(t.step, t.tasks[g])
    {
      ActFollows(s, a, g);
    }
  }

  /** Once live at a step, always live at that step. */
  lemma LiveAtStays(s: System, a: Action, g: Grant, at: nat)
    requires Dated(s) && Enabled(s, a) && LiveAt(s, g, at) && at < s.step
    ensures LiveAt(Act(s, a), g, at)
  {
    ActFollows(s, a, g);
  }

  lemma NewReport(s: System, p: nat, k: CallStep)
    requires Invariant(s) && CallEnabled(s, p, k)
    ensures Reported(Act(s, ByCall(p, k)), NextCall(s, p, k))
  {
    var t, c := Act(s, ByCall(p, k)), CallOf(s, p);
    assert Reported(s, c);
    if k.FindPending? {
      ActFollows(s, ByCall(p, k), s.pending[c.account]);
      assert DatedTask(s.step, s.tasks[s.pending[c.account]]);
    } else if k.Receive? {
      CallKeepsTask(s, p, k, k.g);
    }
  }

  lemma ActReported(s: System, a: Action, p: nat)
    requires Invariant(s) && Enabled(s, a)
    ensures Reported(Act(s, a), CallOf(Act(s, a), p))
  {
    ActCall(s, a, p);
    var c := CallOf(s, p);
    assert Reported(s, c);
    if a.ByCall? && a.p == p {
      NewReport(s, p, a.call);
    } else if c.Returned? && c.status.Awaiting? {
      LiveAtStays(s, a, c.status.grant, c.read);
    }
  }

  /** While a call is inside the login lock, no poller stores tokens. */
  lemma NothingStoredMeanwhile(s: System, a: Action, p: nat, g: Grant)
    requires Invariant(s) && Enabled(s, a) && InLogin(CallOf(s, p)) && g in s.tasks && !s.tasks[g].stored
    ensures g in Act(s, a).tasks && !Act(s, a).tasks[g].stored
  {
    ActFollows(s, a, g);
    assert s.login == Some(Caller(p));
    assert !s.tasks[g].phase.Saving?;
  }

  lemma ActNoneStored(s: System, a: Action, p: nat)
    requires Invariant(s) && Enabled(s, a)
    ensures NoneStored(Act(s, a), CallOf(Act(s, a), p))
  {
    ActCall(s, a, p);
    var c, d := CallOf(s, p), CallOf(Act(s, a), p);
    assert NoneStored(s, c);
    if Checking(d) && d.stage.NotSignedIn? && d.stage.seen.Some? {
      var g := d.stage.seen.value;
      assert InLogin(c) && g in s.tasks && !s.tasks[g].stored;
      NothingStoredMeanwhile(s, a, p, g);
      ActFollows(s, a, g);
    }
  }

  lemma ActLocks(s: System, a: Action)
    requires Invariant(s) && Enabled(s, a)
    ensures LoginHeld(Act(s, a)) && StartHeld(Act(s, a)) && OneGrant(Act(s, a))
  {
    var t, e := Act(s, a), Effect(s, a);
    assert forall q :: CallOf(t, q) == CallOf(e, q);
    match a
    case ByCall(p, k) =>
      CallLocks(s, p, k);
      CallOneGrant(s, p, k);
    case ByTask(g, k) =>
      TaskLocks(s, g, k);
      TaskOneGrant(s, g, k);
    case OtherEnters => assert forall q :: CallOf(e, q) == CallOf(s, q);
    case OtherLeaves(_) => assert forall q :: CallOf(e, q) == CallOf(s, q);
    case Expire(_) => assert forall q :: CallOf(e, q) == CallOf(s, q);
  }

  lemma ActInvariant(s: System, a: Action)
    requires Invariant(s) && Enabled(s, a)
    ensures Invariant(Act(s, a))
  {
    ActLocks(s, a);
    ActDated(s, a);
    forall p
      ensures Reported(Act(s, a), CallOf(Act(s, a), p)) && NoneStored(Act(s, a), CallOf(Act(s, a), p))
    {
      ActReported(s, a, p);
      ActNoneStored(s, a, p);
    }
  }

  lemma {:induction false} BehaviourInvariant(actions: seq<Action>, states: seq<System>, i: nat)
    requires Behaviour(actions, states) && i < |states|
    ensures Invariant(states[i])
  {
    if i > 0 {
      BehaviourInvariant(actions, states, i - 1);
      ActInvariant(states[i - 1], actions[i - 1]);
    }
  }

  // What a run promises

  /**
   At every moment an account has at most one grant, being requested or
   pending: two requests are one, two live grants are one, and there are not
   both. A live grant is the pending one.
   */
  lemma AtMostOneGrant(
    actions: seq<Action>, states: seq<System>, i: nat, account: Account, p: nat, q: nat, g: Grant, h: Grant)
    requires Behaviour(actions, states) && i < |states|
    ensures
      var s := states[i];
      var requests := (r: nat) => CallOf(s, r).Requesting? && CallOf(s, r).account == account;
      var live := (x: Grant) => x in s.tasks && Live(s.tasks[x]) && s.tasks[x].account == account;
      && (requests(p) && requests(q) ==> p == q)
      && (live(g) && live(h) ==> g == h)
      && !(requests(p) && live(g))
      && (live(g) <==> account in s.pending && s.pending[account] == g)
  {
    BehaviourInvariant(actions, states, i);
    var s := states[i];
    if CallOf(s, p).Requesting? && CallOf(s, q).Requesting? && CallOf(s, p).account == CallOf(s, q).account {
      OneRequest(s, p, q);
    }
  }

  /** A call that reports a pending sign-in reports a grant that was live at a step during the call. */
  lemma ReportedGrantWasLive(actions: seq<Action>, states: seq<System>, i: nat, p: nat)
    requires Behaviour(actions, states) && i < |states|
    requires CallOf(states[i], p).Returned? && CallOf(states[i], p).status.Awaiting?
    ensures
      var s, c := states[i], CallOf(states[i], p);
      c.since <= c.read < s.step && LiveAt(s, c.status.grant, c.read)
  {
    BehaviourInvariant(actions, states, i);
    assert Reported(states[i], CallOf(states[i], p));
  }

  ghost predicate Quiet(actions: seq<Action>, p: nat, from: nat, to: nat) {
    forall k :: from <= k < to && k < |actions| ==> !(actions[k].ByCall? && actions[k].p == p)
  }

  lemma RunCall(actions: seq<Action>, states: seq<System>, p: nat, i: nat)
    requires Behaviour(actions, states) && i < |actions| && !(actions[i].ByCall? && actions[i].p == p)
    ensures CallOf(states[i + 1], p) == CallOf(states[i], p)
  {
    ActCall(states[i], actions[i], p);
  }

  /** A call that takes no step stays as it is. */
  lemma {:induction false} Unmoved(actions: seq<Action>, states: seq<System>, p: nat, from: nat, to: nat)
    requires Behaviour(actions, states) && from <= to < |states| && Quiet(actions, p, from, to)
    ensures CallOf(states[to], p) == CallOf(states[from], p)
  {
    if from < to {
      Unmoved(actions, states, p, from, to - 1);
      RunCall(actions, states, p, to - 1);
    }
  }

  /**
   A check that at step `j` finds no tokens and at step `i` no pending grant has
   missed none: every grant of its account is over, the stored tokens of the
   account were not good at step `j`, and a grant that was live then and had
   not yet stored its tokens never stores any.
   */
  lemma NoGrantMissed(actions: seq<Action>, states: seq<System>, j: nat, i: nat, p: nat, g: Grant)
    requires Behaviour(actions, states) && j < i < |actions| && Quiet(actions, p, j + 1, i)
    requires actions[j] == ByCall(p, FindNoTokens) && actions[i] == ByCall(p, FindNothing)
    ensures
      var account := CallOf(states[j], p).account;
      && account !in states[j].tokens
      && (g in states[i].tasks && states[i].tasks[g].account == account ==> states[i].tasks[g].phase.Over?)
      && (g in states[j].tasks && Live(states[j].tasks[g]) && states[j].tasks[g].account == account
          && !states[j].tasks[g].stored ==>
            forall k :: i <= k < |states| ==>
              g in states[k].tasks && states[k].tasks[g].phase.Over? && !states[k].tasks[g].stored)
  {
    BehaviourInvariant(actions, states, j);
    BehaviourInvariant(actions, states, i);
    ActCall(states[j], actions[j], p);
    Unmoved(actions, states, p, j + 1, i);
    assert NoneStored(states[i], CallOf(states[i], p));
    if g in states[i].tasks && states[i].tasks[g].phase.Over? {
      forall k | i <= k < |states|
        ensures g in states[k].tasks && states[k].tasks[g] == states[i].tasks[g]
      {
        OverIsFinal(actions, states, i, k, g);
      }
    }
  }

  /** A grant that is over stays as it is: at no later moment has it stored tokens that it had not stored then. */
  lemma {:induction false} OverIsFinal(actions: seq<Action>, states: seq<System>, i: nat, k: nat, g: Grant)
    requires Behaviour(actions, states) && i <= k < |states| && g in states[i].tasks && states[i].tasks[g].phase.Over?
    ensures g in states[k].tasks && states[k].tasks[g] == states[i].tasks[g]
  {
    if i < k {
      OverIsFinal(actions, states, i, k - 1, g);
      BehaviourInvariant(actions, states, k - 1);
      ActFollows(states[k - 1], actions[k - 1], g);
    }
  }

  /** Tokens stored for an account are there until they expire. */
  lemma {:induction false} TokensStay(actions: seq<Action>, states: seq<System>, j: nat, i: nat, account: Account)
    requires Behaviour(actions, states) && j <= i < |states| && account in states[j].tokens
    requires forall k :: j <= k < i ==> actions[k] != Expire(account)
    ensures account in states[i].tokens
  {
    if j < i {
      TokensStay(actions, states, j, i - 1, account);
      assert Enabled(states[i - 1], actions[i - 1]) && states[i] == Act(states[i - 1], actions[i - 1]);
    }
  }

  /**
   No check misses tokens that a poller stored before it and that have not
   expired: a check of the account that reads the store finds them or fails.
   */
  lemma StoredTokensFound(actions: seq<Action>, states: seq<System>, j: nat, i: nat, g: Grant, p: nat)
    requires Behaviour(actions, states) && j < i < |actions| && actions[j] == ByTask(g, Save(true))
    requires Checking(CallOf(states[i], p)) && CallOf(states[i], p).account == states[j].tasks[g].account
    requires forall k :: j < k < i ==> actions[k] != Expire(states[j].tasks[g].account)
    ensures actions[i] != ByCall(p, FindNoTokens)
  {
    var account := states[j].tasks[g].account;
    assert Enabled(states[j], actions[j]) && states[j + 1] == Act(states[j], actions[j]);
    TokensStay(actions, states, j + 1, i, account);
    assert Enabled(states[i], actions[i]);
  }

  /**
   What a call returns: found tokens mean signed in, a pending grant is
   reported as the one live grant of the account, the grant a call receives is
   reported by it and pending from then on, and a call that twice finds
   nothing goes on to request one.
   */
  lemma CallsReturnWhatTheyFind(actions: seq<Action>, states: seq<System>, i: nat, p: nat)
    requires Behaviour(actions, states) && i < |actions| && actions[i].ByCall? && actions[i].p == p
    ensures
      var s, t, k := states[i], states[i + 1], actions[i].call;
      var c, d := CallOf(s, p), CallOf(t, p);
      && (k.FindTokens? ==> d.Returned? && d.status == SignedIn)
      && (k.FindPending? ==>
            && d.Returned? && d.status.Awaiting? && d.status.grant in s.tasks
            && Live(s.tasks[d.status.grant]) && s.tasks[d.status.grant].account == c.account)
      && (k.Receive? ==>
            && d.Returned? && d.status == Awaiting(k.g) && k.g in t.tasks && Live(t.tasks[k.g])
            && t.tasks[k.g].account == c.account && c.account in t.pending && t.pending[c.account] == k.g)
      && (k.FindNothing? && c.First? ==> d.Queued? && d.account == c.account)
      && (k.FindNothing? && c.Second? ==> d.Requesting? && d.account == c.account)
      && ((k.FailReading? || k.FailRequest?) ==> d.Returned? && d.status == Refused)
  {
    BehaviourInvariant(actions, states, i);
    ActCall(states[i], actions[i], p);
    if actions[i].call.Receive? {
      CallKeepsTask(states[i], p, actions[i].call, actions[i].call.g);
    }
  }

  /** A call that is cancelled, wherever it waits, leaves no lock behind. */
  lemma CancelledHoldsNothing(actions: seq<Action>, states: seq<System>, i: nat, p: nat)
    requires Behaviour(actions, states) && i < |actions| && actions[i] == ByCall(p, Cancel)
    ensures
      var t := states[i + 1];
      && CallOf(t, p).Idle? && t.login != Some(Caller(p))
      && forall account :: account in t.starting ==> t.starting[account] != p
  {
    BehaviourInvariant(actions, states, i + 1);
    ActCall(states[i], actions[i], p);
  }
}
